/** `StockService`: validation of creation requests and the create, read,
    update and delete operations over the repository.  Each store-changing
    operation returns its Java result together with the store after the call. */
module Service {
  import opened Wrappers
  import opened Domain
  import opened Validation
  import opened FailureMessage
  import opened Repository

  /** A service call's Java result and the store after it. */
  datatype Step<T> = Step(result: T, store: Store)

  /** `Stock.changePrice(newPrice, flag)`, called on the stock being updated.
      Its arithmetic is not part of this model, so it is a parameter. */
  type PriceRule = (Stock, real, bool) -> real

  /** `order` lists the elements of `s`, each exactly once. */
  predicate IsEnumeration(order: seq<Violation>, s: set<Violation>) {
    && (forall i, j :: 0 <= i < j < |order| ==> order[i] != order[j])
    && (forall i :: 0 <= i < |order| ==> order[i] in s)
    && (forall v :: v in s ==> v in order)
  }

  /** `getAllStocks` */
  method GetAllStocks(store: Store) returns (stocks: seq<Stock>)
    ensures |stocks| == |store|
    ensures forall i :: 0 <= i < |stocks| ==> stocks[i] in store.Values
    ensures forall id :: id in store ==> store[id] in stocks
    ensures exists ids :: ListsStore(stocks, store, ids)
  {
    stocks := FindAll(store);
  }

  /** `getStockById`: exactly the store's entry for `id`; empty when absent. */
  function GetStockById(store: Store, id: string): (r: Option<Stock>)
    ensures r.Some? <==> id in store
    ensures r.Some? ==> r.value == store[id]
  {
    FindById(store, id)
  }

  /** The stock `updateStock` saves: the found stock with symbol and company
      name taken verbatim from the payload and the price from `changePrice`. */
  function Updated(found: Stock, payload: Stock, changePrice: PriceRule): (u: Stock)
    ensures u.id == found.id
    ensures u.symbol == payload.symbol && u.companyName == payload.companyName
  {
    var renamed := found.(symbol := payload.symbol, companyName := payload.companyName);
    renamed.(price := changePrice(renamed, payload.price, true))
  }

  /** `updateStock`: an absent id yields empty and no write; a present one is
      overwritten (no re-validation of the payload) and saved. */
  function UpdateStock(store: Store, id: string, payload: Stock, changePrice: PriceRule): (r: Step<Option<Stock>>)
    ensures id !in store ==> r.result.None? && r.store == store
    ensures id in store ==>
      && r.result.Some?
      && r.result.value.symbol == payload.symbol
      && r.result.value.companyName == payload.companyName
      && r.result.value.price == changePrice(store[id].(symbol := payload.symbol, companyName := payload.companyName), payload.price, true)
    ensures id in store && WellFormed(store) ==>
      && r.result.value.id == id
      && r.store.Keys == store.Keys
      && r.store[id] == r.result.value
      && (forall k :: k in store && k != id ==> r.store[k] == store[k])
  {
    match FindById(store, id)
    case None => Step(None, store)
    case Some(found) =>
      var (saved, store') := Save(store, Updated(found, payload, changePrice));
      Step(Some(saved), store')
  }

  /** `deleteStock`: removes the entry and returns normally, present or not. */
  function DeleteStock(store: Store, id: string): (r: Step<Outcome<Exception>>)
    ensures r.result.Pass?
    ensures id !in r.store
    ensures forall k :: k != id ==> (k in r.store <==> k in store)
    ensures forall k :: k in r.store ==> r.store[k] == store[k]
  {
    Step(Pass, DeleteById(store, id))
  }

  /** `validateRequestStockDTO`: returns normally when there is no violation;
      otherwise raises one `ConstraintViolationException` carrying every
      violation, whose message lists each of them once, in the unspecified
      order in which the violation set is streamed. */
  method ValidateRequestStockDTO(data: RequestStockDTO) returns (r: Outcome<Exception>)
    ensures r.Pass? <==> Violations(data) == {}
    ensures r.Fail? ==> r.error.ConstraintViolationException? && r.error.violations == Violations(data)
    ensures r.Fail? ==> exists order :: IsEnumeration(order, Violations(data)) && DecodeMessage(r.error.message) == Some(Details(order))
  {
    var violations := Violations(data);
    if violations == {} {
      return Pass;
    }
    var order: seq<Violation> := [];
    var rest := violations;
    while rest != {}
      invariant rest <= violations
      invariant forall i, j :: 0 <= i < j < |order| ==> order[i] != order[j]
      invariant forall i :: 0 <= i < |order| ==> order[i] in violations && order[i] !in rest
      invariant forall v :: v in violations ==> v in rest || v in order
      decreases |rest|
    {
      var v :| v in rest;
      order := order + [v];
      rest := rest - {v};
    }
    DetailsAreReadable(order);
    DecodeMessageRoundTrip(Details(order));
    r := Fail(ConstraintViolationException(Message(Details(order)), violations));
  }

  /** `validateAndCreateStock`: a rejected request raises and saves nothing;
      an accepted one is saved once, as a stock copied from the request under
      the freshly generated id, and the saved stock is returned. */
  method ValidateAndCreateStock(store: Store, data: RequestStockDTO, freshId: string)
    returns (r: Result<Stock, Exception>, store': Store)
    requires freshId !in store
    ensures r.Success? <==> Violations(data) == {}
    ensures r.Failure? ==> store' == store
    ensures r.Failure? ==> r.error.ConstraintViolationException? && r.error.violations == Violations(data)
    ensures r.Failure? ==>
      exists order :: IsEnumeration(order, Violations(data)) && DecodeMessage(r.error.message) == Some(Details(order))
    ensures r.Success? ==>
      && r.value.id == freshId
      && r.value.symbol == data.symbol && r.value.companyName == data.companyName && r.value.price == data.price
      && store'.Keys == store.Keys + {freshId}
      && store'[freshId] == r.value
      && (forall k :: k in store ==> store'[k] == store[k])
    ensures WellFormed(store) ==> WellFormed(store')
  {
    var outcome := ValidateRequestStockDTO(data);
    if outcome.Fail? {
      return Failure(outcome.error), store;
    }
    var stock := StockFromRequest(data, freshId);
    if WellFormed(store) {
      SavePreservesWellFormed(store, stock);
    }
    var saved := Save(store, stock);
    r := Success(saved.0);
    store' := saved.1;
  }

  /** Update then read: the read returns what the update returned. */
  lemma UpdateThenGet(store: Store, id: string, payload: Stock, changePrice: PriceRule)
    requires WellFormed(store)
    ensures GetStockById(UpdateStock(store, id, payload, changePrice).store, id)
         == UpdateStock(store, id, payload, changePrice).result
  {
  }

  /** Delete then read: the id is gone; every other read is unchanged. */
  lemma DeleteThenGet(store: Store, id: string, other: string)
    ensures GetStockById(DeleteStock(store, id).store, id).None?
    ensures other != id ==> GetStockById(DeleteStock(store, id).store, other) == GetStockById(store, other)
  {
  }

  /** Deleting twice is deleting once, and both calls return normally. */
  lemma DeleteIsIdempotent(store: Store, id: string)
    ensures DeleteStock(DeleteStock(store, id).store, id) == DeleteStock(store, id)
  {
  }

  /** Update and delete keep every stock under its own id. */
  lemma OperationsPreserveWellFormed(store: Store, id: string, payload: Stock, changePrice: PriceRule)
    requires WellFormed(store)
    ensures WellFormed(UpdateStock(store, id, payload, changePrice).store)
    ensures WellFormed(DeleteStock(store, id).store)
  {
  }
}
