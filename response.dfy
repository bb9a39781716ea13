/** The service error model and the HTTP response wrapper.

    An `SError` carries an error code, a message and an optional cause; the
    response maps the code of the error it is given to an HTTP status and
    copies code and message into the body's meta block. The source location
    an `SError` records (`codeLine`, taken from `runtime.Caller`) and the
    `fmt.Sprintf` formatting of messages are not modelled: messages are the
    finished strings. */
module Response {
  import opened Wrappers

  type ErrorCode = int

  const CodeSuccess: ErrorCode := 0
  const CodeInvalidParam: ErrorCode := 1001
  const CodeUserAuthFail: ErrorCode := 1101
  const CodeUserNoPermission: ErrorCode := 1102
  const CodeInternalUnknownError: ErrorCode := 9999

  const StatusOK: int := 200
  const StatusBadRequest: int := 400
  const StatusForbidden: int := 403
  const StatusInternalServerError: int := 500

  /** The fields of `sErrorImpl` that the model keeps; `code`, `message` and
      `cause` are the accessors `ErrorCode()`, `Message()` and `Cause()`. */
  datatype SError = SError(code: ErrorCode, message: string, cause: Option<Error>)

  /** A Go `error`: a service error, or an error from a library or driver,
      known only by its text. */
  datatype Error = Service(s: SError) | Foreign(text: string)

  /** `ErrorCode.New`: a service error without a cause. */
  function New(code: ErrorCode, msg: string): (e: SError)
    ensures e.code == code && e.message == msg && e.cause.None?
  {
    SError(code, msg, None)
  }

  /** `ErrorCode.Wrap`: a service error that keeps `cause` (which may be nil). */
  function Wrap(code: ErrorCode, cause: Option<Error>, msg: string): (e: SError)
    ensures e.code == code && e.message == msg && e.cause == cause
  {
    SError(code, msg, cause)
  }

  /** `Relocation`: a copy of the error at the caller's source location, with
      the same code, message and cause. */
  function Relocation(e: SError): (r: SError)
    ensures r.code == e.code && r.message == e.message && r.cause == e.cause
  {
    SError(e.code, e.message, e.cause)
  }

  /** The HTTP status `SetError` chooses for a service error code. */
  function StatusForCode(code: ErrorCode): (status: int)
    ensures status == StatusBadRequest <==> code == CodeInvalidParam
    ensures status == StatusForbidden <==> code == CodeUserAuthFail || code == CodeUserNoPermission
    ensures status == StatusInternalServerError <==>
      code != CodeInvalidParam && code != CodeUserAuthFail && code != CodeUserNoPermission
  {
    if code == CodeInvalidParam then StatusBadRequest
    else if code == CodeUserAuthFail || code == CodeUserNoPermission then StatusForbidden
    else StatusInternalServerError
  }

  /** `HTTPResponse` with its body's meta block flattened into fields.
      `D` is the type of the payload; `data` is `None` while the body's data
      is nil. The timer is not modelled: `elapsed` keeps its initial 0. */
  class HTTPResponse<D> {
    var statusCode: int
    var metaStatus: int
    var metaMessage: string
    var uri: string
    var elapsed: nat
    var data: Option<D>
    var err: Option<Error>

    /** `NewHTTPResponse` for a request with the given method and path. */
    constructor (httpMethod: string, path: string)
      ensures statusCode == StatusOK && metaStatus == CodeSuccess && metaMessage == "success"
      ensures uri == httpMethod + " " + path && elapsed == 0
      ensures data.None? && err.None?
    {
      statusCode := StatusOK;
      metaStatus := CodeSuccess;
      metaMessage := "success";
      uri := httpMethod + " " + path;
      elapsed := 0;
      data := None;
      err := None;
    }

    /** Marks the request successful with the given payload and forgets any
        earlier error. */
    method SetSuccessData(d: Option<D>)
      modifies this
      ensures statusCode == StatusOK && metaStatus == CodeSuccess && metaMessage == "success"
      ensures data == d && err.None?
      ensures uri == old(uri) && elapsed == old(elapsed)
    {
      statusCode := StatusOK;
      metaStatus := CodeSuccess;
      metaMessage := "success";
      data := d;
      err := None;
    }

    /** Marks the request failed. A service error sets the status from its
        code and copies code and message into the meta block; any other error
        (nil included, which the type switch sends to its default case) gives
        500 with the internal-unknown-error code. The error is recorded in
        every case and the payload is left as it was. */
    method SetError(e: Option<Error>)
      modifies this
      ensures (e.Some? && e.value.Service?) ==>
        statusCode == StatusForCode(e.value.s.code) &&
        metaStatus == e.value.s.code && metaMessage == e.value.s.message
      ensures !(e.Some? && e.value.Service?) ==>
        statusCode == StatusInternalServerError &&
        metaStatus == CodeInternalUnknownError && metaMessage == "internal unknown error"
      ensures err == e
      ensures data == old(data) && uri == old(uri) && elapsed == old(elapsed)
    {
      match e {
        case Some(Service(s)) =>
          if s.code == CodeInvalidParam {
            statusCode := StatusBadRequest;
          } else if s.code == CodeUserAuthFail || s.code == CodeUserNoPermission {
            statusCode := StatusForbidden;
          } else {
            statusCode := StatusInternalServerError;
          }
          metaStatus := s.code;
          metaMessage := s.message;
        case _ =>
          statusCode := StatusInternalServerError;
          metaStatus := CodeInternalUnknownError;
          metaMessage := "internal unknown error";
      }
      err := e;
    }
  }
}
