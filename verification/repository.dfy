/** `StockRepository` as a key-value store from id to stock.  Spring Data's
    persistence machinery is replaced by a `map`; the id the store generates
    for a new stock is supplied by the caller. */
module Repository {
  import opened Wrappers
  import opened Domain

  type Store = map<string, Stock>

  /** Every stored stock sits under its own id. */
  predicate WellFormed(store: Store) {
    forall id :: id in store ==> store[id].id == id
  }

  /** `findById`: the stock stored under `id`, if any. */
  function FindById(store: Store, id: string): (r: Option<Stock>)
    ensures r.Some? <==> id in store
    ensures r.Some? ==> r.value == store[id]
  {
    if id in store then Some(store[id]) else None
  }

  /** `save`: an upsert keyed by the stock's id; returns the saved stock. */
  function Save(store: Store, s: Stock): (r: (Stock, Store))
    ensures r.0 == s
    ensures s.id in r.1 && r.1[s.id] == s
    ensures r.1.Keys == store.Keys + {s.id}
    ensures forall k :: k in store && k != s.id ==> r.1[k] == store[k]
  {
    (s, store[s.id := s])
  }

  /** `deleteById`: removes the entry; an absent id is silently ignored. */
  function DeleteById(store: Store, id: string): (r: Store)
    ensures r.Keys == store.Keys - {id}
    ensures forall k :: k in r ==> r[k] == store[k]
  {
    store - {id}
  }

  /** `stocks` lists the entries of `store` under the ids `ids`: each stored
      id exactly once, in that order. */
  predicate ListsStore(stocks: seq<Stock>, store: Store, ids: seq<string>) {
    && |ids| == |stocks|
    && (forall i, j :: 0 <= i < j < |ids| ==> ids[i] != ids[j])
    && (forall i :: 0 <= i < |ids| ==> ids[i] in store && stocks[i] == store[ids[i]])
    && (forall id :: id in store ==> id in ids)
  }

  /** `findAll`: every stored stock once per id, in an order the store chooses. */
  method FindAll(store: Store) returns (stocks: seq<Stock>)
    ensures |stocks| == |store|
    ensures forall i :: 0 <= i < |stocks| ==> stocks[i] in store.Values
    ensures forall id :: id in store ==> store[id] in stocks
    ensures exists ids :: ListsStore(stocks, store, ids)
  {
    stocks := [];
    ghost var ids: seq<string> := [];
    var pending := store.Keys;
    while pending != {}
      invariant pending <= store.Keys
      invariant |stocks| + |pending| == |store|
      invariant |ids| == |stocks|
      invariant forall i, j :: 0 <= i < j < |ids| ==> ids[i] != ids[j]
      invariant forall i :: 0 <= i < |ids| ==> ids[i] in store && ids[i] !in pending && stocks[i] == store[ids[i]]
      invariant forall id :: id in store && id !in pending ==> id in ids
      decreases |pending|
    {
      var id :| id in pending;
      stocks := stocks + [store[id]];
      ids := ids + [id];
      pending := pending - {id};
    }
    assert ListsStore(stocks, store, ids);
  }

  /** Saving a stock keeps every stock under its own id. */
  lemma SavePreservesWellFormed(store: Store, s: Stock)
    requires WellFormed(store)
    ensures WellFormed(Save(store, s).1)
  {
  }
}
