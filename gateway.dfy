/** The request and response shapes of the record SDK, and how the services
    read a response. The SDK itself is not modelled: each of its calls is a
    `Reply` handed to the service, either the response it resolved with or a
    rejection (network failure, missing SDK). */
module Gateway {
  import opened Js

  datatype Reply<R> = Answered(response: R) | Rejected

  datatype Operator = Contains | ExactMatch

  /** One entry of a `where` list: `{fieldName, operator, values}`. */
  datatype WhereClause = WhereClause(fieldName: string, operator: Operator, values: seq<JsValue>)

  datatype OrderBy = OrderBy(field: string, direction: string)

  datatype PagingInfo = PagingInfo(limit: int, offset: int)

  /** The parameter object of `fetchRecords`; `where` and `orderBy` are None
      when the object has no such key. */
  datatype FetchParams = FetchParams(
    fields: seq<string>,
    where: Option<seq<WhereClause>>,
    orderBy: Option<seq<OrderBy>>,
    pagingInfo: PagingInfo)

  /** `fetchRecords` resolves with `{data}`; `data` may be missing. */
  datatype FetchResponse = FetchResponse(data: Option<seq<Record>>)

  /** One entry of `results` in a create or update response. */
  datatype RecordResult = RecordResult(success: JsValue, data: JsValue, message: JsValue)

  /** `createRecord`/`updateRecord` resolve with `{results}`, or with nothing at all. */
  datatype WriteResponse = NoBody | WriteResponse(results: Option<seq<RecordResult>>)

  /** The three ways a service call ends in an error: the id guard of an update
      (no request is made), a response that does not report success, and a
      rejected SDK call. */
  datatype ServiceError =
    | ValidationError(reason: string)
    | OperationError(message: JsValue)
    | NetworkError

  datatype Result<T> = Ok(value: T) | Err(error: ServiceError)

  /** A `where` list that is never created stays absent from the parameters. */
  function WhereList(clauses: seq<WhereClause>): (w: Option<seq<WhereClause>>)
    ensures w.None? <==> clauses == []
    ensures w.Some? ==> w.value == clauses
  {
    if clauses == [] then None else Some(clauses)
  }

  /** `response?.results?.[0]` */
  function FirstResult(response: WriteResponse): Option<RecordResult>
  {
    if response.WriteResponse? && response.results.Some? && response.results.value != []
    then Some(response.results.value[0])
    else None
  }

  /** How create and update read a write response: the first result's `data`
      when that result reports success, otherwise an error carrying its
      `message`, or `fallback` when the message is missing or empty. */
  function WriteOutcome(reply: Reply<WriteResponse>, fallback: string): (r: Result<JsValue>)
    ensures r.Ok? <==>
            reply.Answered? && FirstResult(reply.response).Some? && Truthy(FirstResult(reply.response).value.success)
    ensures r.Ok? ==> r.value == FirstResult(reply.response).value.data
    ensures reply.Rejected? ==> r == Err(NetworkError)
    ensures reply.Answered? && !r.Ok? ==>
            var first := FirstResult(reply.response);
            r == Err(OperationError(
                   if first.Some? && Truthy(first.value.message) then first.value.message else Str(fallback)))
  {
    match reply
    case Rejected => Err(NetworkError)
    case Answered(response) =>
      var first := FirstResult(response);
      if first.Some? && Truthy(first.value.success) then Ok(first.value.data)
      else Err(OperationError(Or(if first.Some? then first.value.message else Undefined, Str(fallback))))
  }

  /** `response.data || []`: the rows of a fetch, or no rows when `data` is missing. */
  function FetchOutcome(reply: Reply<FetchResponse>): (r: Result<seq<Record>>)
    ensures r.Ok? <==> reply.Answered?
    ensures r.Ok? && reply.response.data.Some? ==> r.value == reply.response.data.value
    ensures r.Ok? && reply.response.data.None? ==> r.value == []
    ensures r.Err? ==> r.error == NetworkError
  {
    match reply
    case Rejected => Err(NetworkError)
    case Answered(response) => Ok(if response.data.Some? then response.data.value else [])
  }
}
