/** error_handler_middleware (api/middleware/error_handler.py): the handler
    either returns a response, which passes through untouched, or raises, and
    the raised exception is turned into a JSON problem report. */
module ErrorHandler {
  import opened Http

  /** Which except clause an exception falls into. */
  datatype ExceptionKind = RequestValidation | Storage | Unexpected

  /** A raised exception: its kind, its class name and its str() text. */
  datatype Exception = Exception(kind: ExceptionKind, className: string, text: string)

  /** What the downstream handler did. */
  datatype Outcome = Returned(response: Response) | Raised(exception: Exception)

  /** The middleware; `timestamp` is the isoformat() of the moment of failure. */
  function HandleErrors(outcome: Outcome, timestamp: string): (r: Response)
    ensures outcome.Returned? ==> r == outcome.response
    ensures outcome.Raised? ==>
      && r.body.Problem?
      && r.body.status == "error"
      && r.body.details == outcome.exception.text
      && r.body.timestamp == timestamp
    ensures outcome.Raised? && outcome.exception.kind == RequestValidation ==>
      r.statusCode == 422 && r.body.message == "Validation error" && r.body.errorType == "validation_error"
    ensures outcome.Raised? && outcome.exception.kind == Storage ==>
      r.statusCode == 503 && r.body.message == "Storage service unavailable" && r.body.errorType == "storage_error"
    ensures outcome.Raised? && outcome.exception.kind == Unexpected ==>
      r.statusCode == 500 && r.body.message == "An unexpected error occurred"
      && r.body.errorType == outcome.exception.className
  {
    match outcome
    case Returned(response) => response
    case Raised(e) =>
      var (code, message, errorType) :=
        match e.kind
        case RequestValidation => (422, "Validation error", "validation_error")
        case Storage => (503, "Storage service unavailable", "storage_error")
        case Unexpected => (500, "An unexpected error occurred", e.className);
      Response(code, Problem("error", message, e.text, errorType, timestamp))
  }

  /** The status code of a problem report tells the kind of exception apart,
      and the report keeps the exception's text, so two exceptions that give
      the same report agree in kind and text. */
  lemma ReportIdentifiesKind(e1: Exception, e2: Exception, timestamp: string)
    requires HandleErrors(Raised(e1), timestamp) == HandleErrors(Raised(e2), timestamp)
    ensures e1.kind == e2.kind && e1.text == e2.text
    ensures e1.kind == Unexpected ==> e1.className == e2.className
  {
  }
}
