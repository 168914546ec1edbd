// The MVC exception filter: an exception thrown by an action becomes a
// JSON result {code, msg}, and the exception is marked handled.
module GlobalExceptionFilter {
  import opened Wrappers
  import opened ExceptionFilter

  datatype JsonBody = JsonBody(code: int, msg: String)

  /** The filter's view of the context: the exception, the result and the
      handled flag. */
  datatype ExceptionContext = ExceptionContext(exception: ServerException, result: Option<JsonBody>, exceptionHandled: bool)

  const SystemErrorMsg: String := "系统异常"

  /** An argument error is a client error carrying its own message; every
      other exception is a server error with a fixed message. The result
      is always replaced and the exception always marked handled. */
  function OnException(context: ExceptionContext): (r: ExceptionContext)
    ensures r.exception == context.exception && r.exceptionHandled && r.result.Some?
    ensures context.exception.ArgumentException? ==>
      r.result.value == JsonBody(400, context.exception.message)
    ensures !context.exception.ArgumentException? ==>
      r.result.value == JsonBody(500, SystemErrorMsg)
  {
    var result := match context.exception
      case ArgumentException(message) => JsonBody(400, message)
      case _ => JsonBody(500, SystemErrorMsg);
    context.(result := Some(result), exceptionHandled := true)
  }

  /** Whatever the context held before, the outcome depends only on the
      exception. */
  lemma OnExceptionIgnoresPriorResult(a: ExceptionContext, b: ExceptionContext)
    requires a.exception == b.exception
    ensures OnException(a) == OnException(b)
  {
  }
}
