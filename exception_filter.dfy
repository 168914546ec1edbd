// The request pipeline's outermost middleware: an exception escaping the
// rest of the pipeline becomes an error status and a JSON error body, and
// a response that finished with a non-200 status without an exception
// gets a body explaining the status.
module ExceptionFilter {
  type String = seq<char>

  /** The exceptions the server tells apart. MyException carries the
      status code its GetCode() answers. */
  datatype ServerException =
    | MyException(code: int, message: String)
    | ArgumentException(message: String)
    | OtherException(message: String)

  /** How the rest of the pipeline ended: normally, having set a status,
      or by throwing. */
  datatype NextOutcome = Completed(statusCode: int) | Threw(exception: ServerException)

  /** The error body {status, code, msg}. */
  datatype ErrorBody = ErrorBody(status: int, code: int, msg: String)

  const JsonContentType: String := "application/json;charset=utf-8"

  /** The message for a status the pipeline set without an exception. */
  function StatusMessage(statusCode: int): (msg: String)
    ensures statusCode == 401 ==> msg == "未授权"
    ensures statusCode == 404 ==> msg == "未找到服务"
    ensures statusCode == 502 ==> msg == "请求错误"
    ensures statusCode !in {401, 404, 502} ==> msg == "未知错误"
  {
    match statusCode
    case 401 => "未授权"
    case 404 => "未找到服务"
    case 502 => "请求错误"
    case _ => "未知错误"
  }

  /** The status an escaping exception is answered with. */
  function ExceptionStatus(e: ServerException): (code: int)
    ensures e.MyException? ==> code == e.code
    ensures !e.MyException? ==> code == 500
  {
    if e.MyException? then e.code else 500
  }

  class HttpResponse {
    var statusCode: int
    var contentType: String
    /** The bodies written, in order. */
    var written: seq<ErrorBody>

    constructor (statusCode: int, contentType: String)
      ensures this.statusCode == statusCode && this.contentType == contentType && written == []
    {
      this.statusCode := statusCode;
      this.contentType := contentType;
      written := [];
    }

    /** Writes the error body as JSON. */
    method HandleException(code: int, msg: String)
      modifies this`contentType, this`written
      ensures contentType == JsonContentType
      ensures written == old(written) + [ErrorBody(1, code, msg)]
    {
      contentType := JsonContentType;
      written := written + [ErrorBody(1, code, msg)];
    }

    /** Runs the rest of the pipeline (its outcome given as next) and
        answers errors: an exception sets the status from the exception
        and writes its message; otherwise a non-200 status gets its
        standard message; a 200 is left alone. Exactly one body is
        written in every error case. */
    method Invoke(next: NextOutcome)
      modifies this
      ensures next.Threw? ==>
        && statusCode == ExceptionStatus(next.exception)
        && written == old(written) + [ErrorBody(1, ExceptionStatus(next.exception), next.exception.message)]
        && contentType == JsonContentType
      ensures next.Completed? && next.statusCode != 200 ==>
        && statusCode == next.statusCode
        && written == old(written) + [ErrorBody(1, next.statusCode, StatusMessage(next.statusCode))]
        && contentType == JsonContentType
      ensures next.Completed? && next.statusCode == 200 ==>
        statusCode == 200 && written == old(written) && contentType == old(contentType)
    {
      var isCatched := false;
      if next.Threw? {
        var ex := next.exception;
        if ex.MyException? {
          statusCode := ex.code;
        } else {
          statusCode := 500;
        }
        HandleException(statusCode, ex.message);
        isCatched := true;
      } else {
        statusCode := next.statusCode;
      }
      if !isCatched && statusCode != 200 {
        var msg := StatusMessage(statusCode);
        HandleException(statusCode, msg);
      }
    }
  }
}
