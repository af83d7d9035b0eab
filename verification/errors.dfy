/** The exceptions the services throw and the `ApiExceptionHandler` advice
    that turns each of them into an HTTP status and an error body. */
module ApiErrors {
  import opened Wrappers
  import opened Text
  import opened Json
  import opened Http

  /** Canonical text of a `java.util.UUID`. */
  type Uuid = string

  predicate IsHexDigit(c: char)
  {
    ('0' <= c <= '9') || ('a' <= c <= 'f') || ('A' <= c <= 'F')
  }

  /** The 8-4-4-4-12 form `UUID.toString` produces. */
  predicate CanonicalUuid(s: string)
  {
    |s| == 36 && forall i :: 0 <= i < 36 ==>
      if i == 8 || i == 13 || i == 18 || i == 23 then s[i] == '-' else IsHexDigit(s[i])
  }

  /** One binding error of a rejected request body: the field and its
      default message, which Spring may leave null. */
  datatype BindingError = BindingError(field: string, defaultMessage: Option<string>)

  datatype ApiException =
    | MethodArgumentNotValid(bindingErrors: seq<BindingError>)
    | HttpMessageNotReadable
    | CustomerNotFound(customerId: Uuid)
    | DataIntegrityViolation
    | IllegalArgument(message: string)
    | TaskNotFound(taskId: Uuid)
    | Runtime(message: string)

  /** The reply of an exception handler: the HTTP status and the body. */
  datatype ErrorReply = ErrorReply(httpStatus: int, body: ApiErrorResponse)

  function ToFieldErrors(errs: seq<BindingError>): (r: seq<FieldValidationError>)
    ensures |r| == |errs|
    ensures forall i :: 0 <= i < |errs| ==>
              r[i] == FieldValidationError(errs[i].field, errs[i].defaultMessage)
  {
    if errs == [] then []
    else [FieldValidationError(errs[0].field, errs[0].defaultMessage)] + ToFieldErrors(errs[1..])
  }

  function Reply(status: int, error: string, message: string, path: string, now: Instant,
                 fieldErrors: seq<FieldValidationError>): ErrorReply
  {
    ErrorReply(status, ApiErrorResponse(now, status, error, message, path, fieldErrors))
  }

  /** The handler Spring selects for `ex`, applied to a request for `path`.
      `customerNotFoundMessage` is the message of the
      `CustomerNotFoundException`, whose class is not part of this model.
      `TaskNotFoundException` extends `RuntimeException` directly, so only
      the catch-all handler matches it. */
  function Handle(ex: ApiException, path: string, now: Instant, customerNotFoundMessage: string): (r: ErrorReply)
    ensures r.body.status == r.httpStatus
    ensures r.body.path == path && r.body.timestamp == now
    ensures r.body.fieldErrors != [] ==> ex.MethodArgumentNotValid?
    ensures Is4xx(r.httpStatus) <==> !(ex.TaskNotFound? || ex.Runtime?)
    ensures match ex
      case MethodArgumentNotValid(errs) =>
        && r.httpStatus == BAD_REQUEST && r.body.error == "VALIDATION_ERROR"
        && r.body.message == "Request validation failed"
        && |r.body.fieldErrors| == |errs|
        && forall i :: 0 <= i < |errs| ==>
             r.body.fieldErrors[i].field == errs[i].field && r.body.fieldErrors[i].message == errs[i].defaultMessage
      case HttpMessageNotReadable =>
        r.httpStatus == BAD_REQUEST && r.body.error == "BAD_REQUEST" && r.body.message == "Malformed JSON request body"
      case CustomerNotFound(_) =>
        r.httpStatus == NOT_FOUND && r.body.error == "NOT_FOUND" && r.body.message == customerNotFoundMessage
      case DataIntegrityViolation =>
        r.httpStatus == CONFLICT && r.body.error == "CONFLICT"
        && r.body.message == "Database constraint violated (possible duplicate email)"
      case IllegalArgument(m) =>
        r.httpStatus == BAD_REQUEST && r.body.error == "BAD_REQUEST" && r.body.message == m
      case TaskNotFound(_) =>
        r.httpStatus == INTERNAL_SERVER_ERROR && r.body.error == "INTERNAL_ERROR" && r.body.message == "Unexpected server error"
      case Runtime(_) =>
        r.httpStatus == INTERNAL_SERVER_ERROR && r.body.error == "INTERNAL_ERROR" && r.body.message == "Unexpected server error"
  {
    match ex
    case MethodArgumentNotValid(errs) =>
      Reply(BAD_REQUEST, "VALIDATION_ERROR", "Request validation failed", path, now, ToFieldErrors(errs))
    case HttpMessageNotReadable =>
      Reply(BAD_REQUEST, "BAD_REQUEST", "Malformed JSON request body", path, now, [])
    case CustomerNotFound(_) =>
      Reply(NOT_FOUND, "NOT_FOUND", customerNotFoundMessage, path, now, [])
    case DataIntegrityViolation =>
      Reply(CONFLICT, "CONFLICT", "Database constraint violated (possible duplicate email)", path, now, [])
    case IllegalArgument(m) =>
      Reply(BAD_REQUEST, "BAD_REQUEST", m, path, now, [])
    case _ =>
      Reply(INTERNAL_SERVER_ERROR, "INTERNAL_ERROR", "Unexpected server error", path, now, [])
  }
}
