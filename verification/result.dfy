/** The result envelope every handler returns: a kind (`ResultCode`), the
    numeric status that mirrors it, an error list that is unset on success,
    and an optional payload. */
module Results {
  import opened Wrappers

  /** Identifiers are GUIDs; the model keeps their canonical text form, which
      is also what string interpolation prints. */
  type Guid = string

  datatype ResultCode = Ok | BadRequest | NotFound | Forbidden

  /** The numeric status that mirrors each kind. */
  function StatusCode(c: ResultCode): (code: int)
    ensures code == 200 <==> c == ResultCode.Ok
    ensures code == 400 <==> c == ResultCode.BadRequest
    ensures code == 404 <==> c == ResultCode.NotFound
    ensures code == 403 <==> c == ResultCode.Forbidden
  {
    match c
    case Ok => 200
    case BadRequest => 400
    case NotFound => 404
    case Forbidden => 403
  }

  /** `Result` (no payload) is `Result<()>`; `Result<T>` carries `Data`. */
  datatype Result<T> = Result(codeResult: ResultCode, code: int, errors: Option<seq<string>>, data: Option<T>)
  {
    /** The numeric code agrees with the kind. */
    predicate Consistent() {
      code == StatusCode(codeResult)
    }
  }

  /** The error list a handler builds by adding one message per failed check,
      in the order of the checks. */
  function ErrorList<E>(message: E -> string, failures: seq<E>): (ms: seq<string>)
    ensures |ms| == |failures|
    ensures forall k | 0 <= k < |failures| :: ms[k] == message(failures[k])
  {
    seq(|failures|, k requires 0 <= k < |failures| => message(failures[k]))
  }

  /** Adding one more failure adds its message at the end. */
  lemma ErrorListSnoc<E>(failures: seq<E>, message: E -> string, e: E)
    ensures ErrorList(message, failures + [e]) == ErrorList(message, failures) + [message(e)]
  {
  }

  /** `if (failed) errorMessages.Add(message)`: one check of a validation,
      which appends the message of its failure when it fails. */
  method AddErrorIf<E>(failed: bool, errorMessages: seq<string>, ghost failures: seq<E>, message: E -> string, e: E)
    returns (extended: seq<string>, ghost extendedFailures: seq<E>)
    requires errorMessages == ErrorList(message, failures)
    ensures extendedFailures == failures + (if failed then [e] else [])
    ensures extended == errorMessages + (if failed then [message(e)] else [])
    ensures extended == ErrorList(message, extendedFailures)
  {
    extended, extendedFailures := errorMessages, failures;
    if failed {
      ErrorListSnoc(failures, message, e);
      extended, extendedFailures := errorMessages + [message(e)], failures + [e];
    }
  }

  function NoObjectMessage(id: Guid): string {
    "There is no object with id: " + id
  }

  /** `Result.Ok()`: success without payload or errors. */
  function OkResult<T>(): (r: Result<T>)
    ensures r.Consistent() && r.codeResult == ResultCode.Ok && r.code == 200
    ensures r.errors == None && r.data == None
  {
    Result(ResultCode.Ok, 200, None, None)
  }

  /** `Result.Ok<T>(value)`: success carrying `value`. */
  function OkWith<T>(value: T): (r: Result<T>)
    ensures r.Consistent() && r.codeResult == ResultCode.Ok && r.code == 200
    ensures r.errors == None && r.data == Some(value)
  {
    Result(ResultCode.Ok, 200, None, Some(value))
  }

  /** `Result.BadRequest(message)`: a single error. */
  function BadRequestMessage<T>(message: string): (r: Result<T>)
    ensures r.Consistent() && r.codeResult == ResultCode.BadRequest && r.code == 400
    ensures r.errors == Some([message]) && r.data == None
  {
    Result(ResultCode.BadRequest, 400, Some([message]), None)
  }

  /** `Result.BadRequest<T>(messages)`: the list is passed on unchanged. */
  function BadRequestList<T>(messages: seq<string>): (r: Result<T>)
    ensures r.Consistent() && r.codeResult == ResultCode.BadRequest && r.code == 400
    ensures r.errors == Some(messages) && r.data == None
  {
    Result(ResultCode.BadRequest, 400, Some(messages), None)
  }

  /** `Result.NotFound(id)` and `Result.NotFound<T>(id)`. */
  function NotFoundId<T>(id: Guid): (r: Result<T>)
    ensures r.Consistent() && r.codeResult == ResultCode.NotFound && r.code == 404
    ensures r.errors == Some([NoObjectMessage(id)]) && r.data == None
  {
    Result(ResultCode.NotFound, 404, Some([NoObjectMessage(id)]), None)
  }

  /** `Result.NotFound<T>(error)`. */
  function NotFoundError<T>(error: string): (r: Result<T>)
    ensures r.Consistent() && r.codeResult == ResultCode.NotFound && r.code == 404
    ensures r.errors == Some([error]) && r.data == None
  {
    Result(ResultCode.NotFound, 404, Some([error]), None)
  }

  /** `Result.Forbidden<T>(message)`. */
  function ForbiddenMessage<T>(message: string): (r: Result<T>)
    ensures r.Consistent() && r.codeResult == ResultCode.Forbidden && r.code == 403
    ensures r.errors == Some([message]) && r.data == None
  {
    Result(ResultCode.Forbidden, 403, Some([message]), None)
  }

  /** `Result.Forbidden<T>(messages)`. */
  function ForbiddenList<T>(messages: seq<string>): (r: Result<T>)
    ensures r.Consistent() && r.codeResult == ResultCode.Forbidden && r.code == 403
    ensures r.errors == Some(messages) && r.data == None
  {
    Result(ResultCode.Forbidden, 403, Some(messages), None)
  }

  /** The status code determines the kind: two kinds never share a code. */
  lemma StatusCodeInjective(a: ResultCode, b: ResultCode)
    ensures StatusCode(a) == StatusCode(b) <==> a == b
  {
  }
}
