// The action filter that wraps every controller result in the API's
// envelope {status, code, msg, result}. A result whose action threw is
// left for the exception filters.
module MyResultMiddleWare {
  import opened Wrappers

  type String = seq<char>

  /** A value a controller returns, by its text. */
  datatype Value = Value(repr: String)

  /** The result kinds the filter tells apart. BadRequestResult derives
      from StatusCodeResult; typeName is what ToString() gives. */
  datatype ActionResult =
    | ObjectResult(value: Option<Value>)
    | EmptyResult
    | ContentResult(content: Option<String>)
    | StatusCodeResult(statusCode: int, typeName: String)
    | BadRequestResult
    | OtherResult(typeName: String)

  const BadRequestTypeName: String := "Microsoft.AspNetCore.Mvc.BadRequestResult"
  const NotFoundCode: int := 30001
  const NotFoundMsg: String := "未找到数据"

  /** Whether `result is StatusCodeResult` holds: the subclass counts. */
  predicate IsStatusCodeResult(r: ActionResult)
  {
    r.StatusCodeResult? || r.BadRequestResult?
  }

  function StatusCodeOf(r: ActionResult): int
    requires IsStatusCodeResult(r)
  {
    if r.BadRequestResult? then 400 else r.statusCode
  }

  function TypeNameOf(r: ActionResult): String
    requires IsStatusCodeResult(r)
  {
    if r.BadRequestResult? then BadRequestTypeName else r.typeName
  }

  /** What the envelope's result property holds, when it has one. */
  datatype Payload =
    | NoPayload
    | ValuePayload(value: Option<Value>)
    | TextPayload(text: Option<String>)
    | CodePayload(code: int)
    | ResultPayload(result: Option<ActionResult>)

  datatype Envelope = Envelope(status: int, code: int, msg: String, result: Payload)

  /** The new context.Result: None when it is left as it was. */
  function OnActionExecuted(threw: bool, result: Option<ActionResult>): (r: Option<Envelope>)
    ensures threw <==> r.None?
    ensures r.Some? ==> r.value.status == 1
    ensures r.Some? ==> (r.value.code == NotFoundCode <==>
      result == Some(EmptyResult) || result == Some(ObjectResult(None))
      || (result.Some? && IsStatusCodeResult(result.value) && StatusCodeOf(result.value) == NotFoundCode))
    ensures !threw && result.Some? && result.value.ObjectResult? && result.value.value.Some? ==>
      r == Some(Envelope(1, 200, "", ValuePayload(result.value.value)))
    ensures !threw && result.Some? && result.value.ContentResult? ==>
      r == Some(Envelope(1, 200, "", TextPayload(result.value.content)))
    ensures !threw && result.Some? && IsStatusCodeResult(result.value) ==>
      r == Some(Envelope(1, StatusCodeOf(result.value), TypeNameOf(result.value), NoPayload))
    ensures !threw && (result.None? || result.value.OtherResult?) ==>
      r == Some(Envelope(1, 200, "", ResultPayload(result)))
  {
    if threw then None
    else if result.Some? && result.value.ObjectResult? then
      if result.value.value.None? then Some(Envelope(1, NotFoundCode, NotFoundMsg, NoPayload))
      else Some(Envelope(1, 200, "", ValuePayload(result.value.value)))
    else if result == Some(EmptyResult) then Some(Envelope(1, NotFoundCode, NotFoundMsg, NoPayload))
    else if result.Some? && result.value.ContentResult? then Some(Envelope(1, 200, "", TextPayload(result.value.content)))
    else if result.Some? && IsStatusCodeResult(result.value) then
      Some(Envelope(1, StatusCodeOf(result.value), TypeNameOf(result.value), NoPayload))
    else if result.Some? && result.value.BadRequestResult? then
      Some(Envelope(1, 400, "", CodePayload(400)))
    else Some(Envelope(1, 200, "", ResultPayload(result)))
  }

  /** The bad-request branch is never reached: a BadRequestResult is
      already taken by the status-code branch, so its envelope carries the
      type name as message and no result. */
  lemma BadRequestBranchUnreachable()
    ensures OnActionExecuted(false, Some(BadRequestResult)) == Some(Envelope(1, 400, BadRequestTypeName, NoPayload))
    ensures OnActionExecuted(false, Some(BadRequestResult)) != Some(Envelope(1, 400, "", CodePayload(400)))
  {
  }

  /** The same filter with the bad-request test ahead of the status-code
      test, so that its dedicated envelope is produced. */
  function OnActionExecutedBadRequestFirst(threw: bool, result: Option<ActionResult>): (r: Option<Envelope>)
    ensures result.Some? && result.value.BadRequestResult? && !threw ==>
      r == Some(Envelope(1, 400, "", CodePayload(400)))
    ensures !(result.Some? && result.value.BadRequestResult?) ==> r == OnActionExecuted(threw, result)
  {
    if !threw && result.Some? && result.value.BadRequestResult? then Some(Envelope(1, 400, "", CodePayload(400)))
    else OnActionExecuted(threw, result)
  }
}
