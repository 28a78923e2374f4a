/**
 * The mapping from errors to the REST layer's problem response
 * (interfaces/rest/mapper/error.kt).
 */
module ErrorMapper {
  import opened Wrappers
  import opened Errors

  /**
   * The problem response. `details` holds request context; its values are any
   * objects in the service and are kept as strings here.
   */
  datatype ErrorResponse = ErrorResponse(
    errorType: string,
    title: string,
    status: int,
    detail: string,
    instance: string,
    details: map<string, string>,
    violations: Option<map<string, string>>
  )

  /** The HTTP status each kind of domain error answers with. */
  function Status(k: ErrorKind): int {
    match k
    case Validation(_) => 400
    case BadRequest => 400
    case NotFound => 404
    case NonProcessable => 422
    case Unauthorized => 401
    case Internal => 500
  }

  /** `CryptoExchangeError.toErrorResponse`. */
  function ToErrorResponse(e: CryptoExchangeError, instance: string, details: map<string, string>): (r: ErrorResponse)
    ensures r.errorType == TypeCode(e.kind) && r.title == Title(e.kind)
    ensures r.status == Status(e.kind)
    ensures r.detail == e.message && r.instance == instance && r.details == details
    ensures r.violations.Some? <==> e.kind.Validation?
    ensures e.kind.Validation? ==> r.violations.value == e.kind.violations
  {
    match e.kind
    case Validation(v) => ErrorResponse(TypeCode(e.kind), Title(e.kind), 400, e.message, instance, details, Some(v))
    case BadRequest => ErrorResponse(TypeCode(e.kind), Title(e.kind), 400, e.message, instance, details, None)
    case NotFound => ErrorResponse(TypeCode(e.kind), Title(e.kind), 404, e.message, instance, details, None)
    case NonProcessable => ErrorResponse(TypeCode(e.kind), Title(e.kind), 422, e.message, instance, details, None)
    case Unauthorized => ErrorResponse(TypeCode(e.kind), Title(e.kind), 401, e.message, instance, details, None)
    case Internal => ErrorResponse(TypeCode(e.kind), Title(e.kind), 500, e.message, instance, details, None)
  }

  /** `Throwable.toErrorResponse`: domain errors as above, anything else as an internal error. */
  function ThrowableToErrorResponse(t: Throwable, instance: string, details: map<string, string>): (r: ErrorResponse)
    ensures t.Domain? ==> r == ToErrorResponse(t.error, instance, details)
    ensures t.Platform? ==> r.errorType == "internal-error" && r.title == "Internal error occurred"
    ensures t.Platform? ==> r.status == 500 && r.violations.None?
    ensures t.Platform? ==> r.detail == t.message.GetOr("Unknown Error")
    ensures r.instance == instance && r.details == details
  {
    match t
    case Domain(e) => ToErrorResponse(e, instance, details)
    case Platform(m) =>
      ErrorResponse("internal-error", "Internal error occurred", 500, m.GetOr("Unknown Error"), instance, details, None)
  }

  /** Every response carries one of five statuses; 5xx exactly for internal errors. */
  lemma StatusIsKnown(t: Throwable, instance: string, details: map<string, string>)
    ensures ThrowableToErrorResponse(t, instance, details).status in {400, 401, 404, 422, 500}
    ensures ThrowableToErrorResponse(t, instance, details).status == 500 <==> (t.Platform? || t.error.kind.Internal?)
  {
  }

  /** The status and the type code determine each other except that 400 serves two kinds. */
  lemma StatusDeterminesKind(a: ErrorKind, b: ErrorKind)
    requires Status(a) == Status(b)
    ensures Status(a) != 400 ==> SameKind(a, b)
    ensures Status(a) == 400 ==> (a.Validation? || a.BadRequest?) && (b.Validation? || b.BadRequest?)
  {
  }

  /** A platform exception answers exactly like a domain internal error with the same message. */
  lemma PlatformAnswersAsInternal(m: string, instance: string, details: map<string, string>)
    ensures ThrowableToErrorResponse(Platform(Some(m)), instance, details)
      == ToErrorResponse(CryptoExchangeError(Internal, m), instance, details)
  {
  }
}
