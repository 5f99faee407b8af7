/** The Express error middleware: which status and message an error thrown
  * by a controller turns into, and the `asyncHandler` wrapper that forwards
  * a rejected controller promise to it. */
module ErrorHandler {
  import opened Common

  /** The thrown error as the middleware sees it: its `name`, `message`,
    * Mongo's `code` and `keyValue` keys, an own `statusCode`, the messages of
    * a `ValidationError`'s `errors`, and the stack text. */
  datatype Error = Error(
    name: string,
    message: string,
    code: Option<int>,
    keyValueKeys: seq<string>,
    statusCode: Option<int>,
    validatorMessages: seq<string>,
    stack: string)

  /** A response message: a string, or the list a validation error produces. */
  datatype Message = Text(text: string) | Messages(items: seq<string>)

  datatype ErrorReply = ErrorReply(status: int, success: bool, message: Message, stack: Option<string>)

  const NOT_FOUND_MESSAGE: string := "리소스를 찾을 수 없습니다"
  const DUPLICATE_SUFFIX: string := " 필드의 값이 이미 사용 중입니다"
  const TOKEN_EXPIRED_MESSAGE: string := "토큰이 만료되었습니다. 다시 로그인해주세요"
  const INVALID_TOKEN_MESSAGE: string := "유효하지 않은 토큰입니다. 다시 로그인해주세요"
  const SERVER_ERROR_MESSAGE: string := "서버 에러"
  const DUPLICATE_KEY: int := 11000

  /** `Object.keys(err.keyValue)[0]`, which prints as `undefined` when there is no key. */
  function FirstKey(keys: seq<string>): string
  {
    if keys == [] then "undefined" else keys[0]
  }

  /** JavaScript truthiness of a message: only the empty string is falsy (an array never is). */
  predicate MessageTruthy(m: Message)
  {
    m.Messages? || m.text != ""
  }

  /** The reference mapping, read from the most specific rule down: the last
    * matching `if` of the middleware is the one whose status and message survive. */
  function Reply(err: Error, nodeEnv: string): (r: ErrorReply)
    ensures !r.success
    ensures r.stack.Some? <==> nodeEnv == "development"
    ensures r.status in {400, 401, 404, 500} || (err.statusCode.Some? && r.status == err.statusCode.value)
    ensures err.name == "ValidationError" ==> r.status == 400 && r.message == Messages(err.validatorMessages)
    ensures err.name in {"TokenExpiredError", "JsonWebTokenError"} ==> r.status == 401
  {
    var stack := if nodeEnv == "development" then Some(err.stack) else None;
    if err.name == "JsonWebTokenError" then ErrorReply(401, false, Text(INVALID_TOKEN_MESSAGE), stack)
    else if err.name == "TokenExpiredError" then ErrorReply(401, false, Text(TOKEN_EXPIRED_MESSAGE), stack)
    else if err.name == "ValidationError" then ErrorReply(400, false, Messages(err.validatorMessages), stack)
    else if err.code == Some(DUPLICATE_KEY) then
      ErrorReply(400, false, Text(FirstKey(err.keyValueKeys) + DUPLICATE_SUFFIX), stack)
    else if err.name == "CastError" then ErrorReply(404, false, Text(NOT_FOUND_MESSAGE), stack)
    else
      ErrorReply(if err.statusCode.Some? && err.statusCode.value != 0 then err.statusCode.value else 500,
                 false,
                 if err.message != "" then Text(err.message) else Text(SERVER_ERROR_MESSAGE),
                 stack)
  }

  /** `errorHandler(err, req, res, next)`: a copy of the error is overwritten by
    * each matching rule in turn, then answered with `statusCode || 500`. */
  method HandleError(err: Error, nodeEnv: string) returns (r: ErrorReply)
    ensures r == Reply(err, nodeEnv)
  {
    var statusCode := err.statusCode;
    var message: Message := Text(err.message);
    if err.name == "CastError" {
      message, statusCode := Text(NOT_FOUND_MESSAGE), Some(404);
    }
    if err.code == Some(DUPLICATE_KEY) {
      var field := FirstKey(err.keyValueKeys);
      message, statusCode := Text(field + DUPLICATE_SUFFIX), Some(400);
    }
    if err.name == "ValidationError" {
      message, statusCode := Messages(err.validatorMessages), Some(400);
    }
    if err.name == "TokenExpiredError" {
      message, statusCode := Text(TOKEN_EXPIRED_MESSAGE), Some(401);
    }
    if err.name == "JsonWebTokenError" {
      message, statusCode := Text(INVALID_TOKEN_MESSAGE), Some(401);
    }
    var status := if statusCode.Some? && statusCode.value != 0 then statusCode.value else 500;
    if !MessageTruthy(message) {
      message := Text(SERVER_ERROR_MESSAGE);
    }
    r := ErrorReply(status, false, message, if nodeEnv == "development" then Some(err.stack) else None);
  }

  /** A duplicate-key error names the first colliding key and answers 400, unless its
    * name is one of the three that take precedence; a cast error answers 404 with the
    * not-found message unless a later rule matches too. */
  lemma DuplicateAndCast(err: Error, nodeEnv: string)
    ensures err.code == Some(DUPLICATE_KEY) && err.name !in {"ValidationError", "TokenExpiredError", "JsonWebTokenError"} ==>
      Reply(err, nodeEnv).status == 400 &&
      Reply(err, nodeEnv).message == Text(FirstKey(err.keyValueKeys) + DUPLICATE_SUFFIX)
    ensures err.name == "CastError" && err.code != Some(DUPLICATE_KEY) ==>
      Reply(err, nodeEnv) == ErrorReply(404, false, Text(NOT_FOUND_MESSAGE), Reply(err, nodeEnv).stack)
    ensures err.name !in {"CastError", "ValidationError", "TokenExpiredError", "JsonWebTokenError"} &&
            err.code != Some(DUPLICATE_KEY) && err.statusCode.None? ==>
      Reply(err, nodeEnv).status == 500
  {
  }

  /** A plain `Error` raised by a controller or a hook, with no status of its own. */
  function PlainError(message: string): Error
  {
    Error("Error", message, None, [], None, [], "")
  }

  /** A Mongoose `ValidationError`. */
  function ValidationError(messages: seq<string>): Error
  {
    Error("ValidationError", "Validation failed", None, [], None, messages, "")
  }

  /** A Mongo duplicate-key error on the given unique field. */
  function DuplicateKeyError(field: string): Error
  {
    Error("MongoServerError", "E11000 duplicate key error", Some(DUPLICATE_KEY), [field], None, [], "")
  }

  /** The status a failed `validate()` ends in once it reaches this middleware. */
  function ValidationStatus(v: Validation): (status: int)
    requires v != Passed
    ensures v == ValidationFailed ==> status == BAD_REQUEST
    ensures v.HookFailed? ==> status == SERVER_ERROR
  {
    match v
    case ValidationFailed => Reply(ValidationError([]), "").status
    case HookFailed(m) => Reply(PlainError(m), "").status
  }

  /** How a controller's promise settles. */
  datatype Settled = Resolved | Rejected(error: Error)

  /** What `asyncHandler` does with it: nothing more, or `next(error)`. */
  datatype Forward = Done | Next(error: Error)

  /** `asyncHandler(fn)`: `Promise.resolve(fn(req, res, next)).catch(next)`. */
  function AsyncHandler(outcome: Settled): (f: Forward)
    ensures outcome.Rejected? <==> f.Next?
    ensures outcome.Rejected? ==> f.error == outcome.error
  {
    match outcome
    case Resolved => Done
    case Rejected(e) => Next(e)
  }
}
