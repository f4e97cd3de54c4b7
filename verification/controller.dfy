/** `StockController`: how each handler turns the service's outcome into an
    HTTP response.  Each handler is a function of what the service returned
    or raised, as a mocked service would supply it; the `Serve…` members
    compose the handlers with the service over a store. */
module Controller {
  import opened Wrappers
  import opened Domain
  import opened Validation
  import opened Repository
  import opened Service

  datatype HttpStatus = Ok | Created | NoContent | BadRequest | NotFound

  function Code(s: HttpStatus): int {
    match s
    case Ok => 200
    case Created => 201
    case NoContent => 204
    case BadRequest => 400
    case NotFound => 404
  }

  /** `ResponseEntity<T>`: a status and an optional body. */
  datatype Response<T> = Response(status: HttpStatus, body: Option<T>)

  /** `getAllStocks`: always 200 with the list. */
  function GetAllStocks(stocks: seq<Stock>): (r: Response<seq<Stock>>)
    ensures Code(r.status) == 200
    ensures r.body == Some(stocks)
  {
    Response(Ok, Some(stocks))
  }

  /** `getStockById`: 200 with the stock when present, 404 without a body otherwise. */
  function GetStockById(found: Option<Stock>): (r: Response<Stock>)
    ensures Code(r.status) == 200 <==> found.Some?
    ensures Code(r.status) == 404 <==> found.None?
    ensures r.body == found
  {
    match found
    case Some(s) => Response(Ok, Some(s))
    case None => Response(NotFound, None)
  }

  /** `createStock`: 201 with the created stock; 400 without a body when a
      `ValidationException` (or subclass) is raised; anything else propagates. */
  function CreateStock(outcome: Result<Stock, Exception>): (r: Result<Response<Stock>, Exception>)
    ensures r.Success? && Code(r.value.status) == 201 <==> outcome.Success?
    ensures outcome.Success? ==> r.value.body == Some(outcome.value)
    ensures r.Success? && Code(r.value.status) == 400 <==> outcome.Failure? && IsValidationException(outcome.error)
    ensures r.Success? && Code(r.value.status) == 400 ==> r.value.body.None?
    ensures r.Failure? <==> outcome.Failure? && !IsValidationException(outcome.error)
    ensures r.Failure? ==> r.error == outcome.error
  {
    match outcome
    case Success(s) => Success(Response(Created, Some(s)))
    case Failure(e) => if IsValidationException(e) then Success(Response(BadRequest, None)) else Failure(e)
  }

  /** `updateStock`: 200 with the updated stock when present, 404 otherwise;
      the handler catches nothing, so whatever the service raises propagates. */
  function UpdateStock(outcome: Result<Option<Stock>, Exception>): (r: Result<Response<Stock>, Exception>)
    ensures r.Success? <==> outcome.Success?
    ensures r.Success? ==> (Code(r.value.status) == 200 <==> outcome.value.Some?)
    ensures r.Success? ==> (Code(r.value.status) == 404 <==> outcome.value.None?)
    ensures r.Success? ==> r.value.body == outcome.value
    ensures r.Failure? ==> r.error == outcome.error
  {
    match outcome
    case Success(updated) => Success(GetStockById(updated))
    case Failure(e) => Failure(e)
  }

  /** `deleteStock`: 204 on a normal return, 404 when `StockNotFoundException`
      is raised; anything else propagates. */
  function DeleteStock(outcome: Outcome<Exception>): (r: Result<Response<()>, Exception>)
    ensures r.Success? && Code(r.value.status) == 204 <==> outcome.Pass?
    ensures r.Success? && Code(r.value.status) == 404 <==> outcome.Fail? && outcome.error.StockNotFoundException?
    ensures r.Failure? <==> outcome.Fail? && !outcome.error.StockNotFoundException?
    ensures r.Success? ==> r.value.body.None?
    ensures r.Failure? ==> r.error == outcome.error
  {
    match outcome
    case Pass => Success(Response(NoContent, None))
    case Fail(e) => if e.StockNotFoundException? then Success(Response(NotFound, None)) else Failure(e)
  }

  /** GET /stocks/{id} over a store: 200 exactly when the id is stored. */
  lemma ServeGetById(store: Store, id: string)
    ensures Code(GetStockById(Service.GetStockById(store, id)).status) == 200 <==> id in store
    ensures Code(GetStockById(Service.GetStockById(store, id)).status) == 404 <==> id !in store
    ensures id in store ==> GetStockById(Service.GetStockById(store, id)).body == Some(store[id])
  {
  }

  /** PUT /stocks/{id} over a store: 404 and no write for an absent id, 200
      with the saved stock for a present one. */
  lemma ServeUpdate(store: Store, id: string, payload: Stock, changePrice: PriceRule)
    ensures var step := Service.UpdateStock(store, id, payload, changePrice);
            var r := UpdateStock(Success(step.result));
            && r.Success?
            && (Code(r.value.status) == 404 <==> id !in store)
            && (id !in store ==> step.store == store)
            && (id in store ==> Code(r.value.status) == 200 && r.value.body == step.result)
  {
  }

  /** DELETE /stocks/{id} over a store: the service never raises
      `StockNotFoundException`, so the answer is 204 even for an absent id. */
  lemma ServeDeleteIsAlwaysNoContent(store: Store, id: string)
    ensures var step := Service.DeleteStock(store, id);
            && DeleteStock(step.result) == Success(Response(NoContent, None))
            && id !in step.store
  {
  }

  /** POST /stocks over a store: 201 with the saved stock exactly when the
      request has no violation, otherwise 400 and the store is untouched. */
  method ServeCreate(store: Store, data: RequestStockDTO, freshId: string)
    returns (r: Result<Response<Stock>, Exception>, store': Store)
    requires freshId !in store
    ensures r.Success?
    ensures Code(r.value.status) == 201 <==> Violations(data) == {}
    ensures Code(r.value.status) == 400 <==> Violations(data) != {}
    ensures Code(r.value.status) == 400 ==> store' == store && r.value.body.None?
    ensures Code(r.value.status) == 201 ==> r.value.body.Some? && freshId in store' && store'[freshId] == r.value.body.value
  {
    var outcome;
    outcome, store' := ValidateAndCreateStock(store, data, freshId);
    r := CreateStock(outcome);
  }
}
