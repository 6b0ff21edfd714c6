/** `ExceptionMiddleware`: runs the rest of the pipeline and turns any fault
    it raises into an error response. JSON serialisation, the write of the
    body and logging are not modelled; the body's value is returned instead. */
module Middleware {
  import opened Common
  import opened Entity
  import opened Exceptions

  const Status400BadRequest := 400
  const Status401Unauthorized := 401
  const Status404NotFound := 404
  const Status500InternalServerError := 500

  const InternalServerError := "Internal Server Error"
  const JsonContentType := "application/json"

  /** The parts of `HttpResponse` the middleware touches. */
  class HttpResponse {
    var statusCode: int
    var contentType: Option<string>

    constructor (statusCode: int, contentType: Option<string>)
      ensures this.statusCode == statusCode && this.contentType == contentType
    {
      this.statusCode := statusCode;
      this.contentType := contentType;
    }
  }

  /** The error body the middleware produces for `exception` at time `now`.
      Each classified fault keeps its own message under its own status and
      label; anything else becomes a 500 whose message and stack trace are
      exposed in development only. */
  function Classify(exception: Fault, isDevelopment: bool, now: int): (d: ErrorBody)
    ensures exception.kind == ValidationException ==>
      d.statusCode == 400 && d.exceptionType == Some("Validation Error") && d.message == Some(exception.message)
    ensures exception.kind == NotFoundException ==>
      d.statusCode == 404 && d.exceptionType == Some("Not Found") && d.message == Some(exception.message)
    ensures exception.kind == UnauthorizedAccessException ==>
      d.statusCode == 401 && d.exceptionType == Some("Unauthorized") && d.message == Some(exception.message)
    ensures exception.kind.OtherException? ==>
      d.statusCode == 500 && d.exceptionType == Some("Server Error")
    ensures exception.kind.OtherException? && !isDevelopment ==>
      d.message == Some("Internal Server Error") && d.stackTrace == None
    ensures exception.kind.OtherException? && isDevelopment ==>
      d.message == Some(exception.message) && d.stackTrace == exception.stackTrace
    ensures d.stackTrace.Some? ==> isDevelopment && !exception.kind.IsClassified()
    ensures d.statusCode == 500 <==> !exception.kind.IsClassified()
    ensures d.timestamp == now
  {
    match exception.kind
    case ValidationException =>
      ErrorBody(Status400BadRequest, Some(exception.message), Some("Validation Error"), None, now)
    case NotFoundException =>
      ErrorBody(Status404NotFound, Some(exception.message), Some("Not Found"), None, now)
    case UnauthorizedAccessException =>
      ErrorBody(Status401Unauthorized, Some(exception.message), Some("Unauthorized"), None, now)
    case OtherException(_) =>
      if isDevelopment then
        ErrorBody(Status500InternalServerError, Some(exception.message), Some("Server Error"), exception.stackTrace, now)
      else
        ErrorBody(Status500InternalServerError, Some(InternalServerError), Some("Server Error"), None, now)
  }

  /** Outside development, the body reveals nothing of the fault beyond the
      messages the three classified kinds carry on purpose. */
  lemma ProductionMasksUnclassified(exception: Fault, other: Fault, now: int)
    requires !exception.kind.IsClassified() && !other.kind.IsClassified()
    ensures Classify(exception, false, now) == Classify(other, false, now)
  {
  }

  class ExceptionMiddleware {
    /** `_env.IsDevelopment()`. */
    const isDevelopment: bool

    constructor (isDevelopment: bool)
      ensures this.isDevelopment == isDevelopment
    {
      this.isDevelopment := isDevelopment;
    }

    /** `InvokeAsync`: `thrown` is what the next handler raised, if anything.
        A handler that completes leaves the response untouched; a fault is
        caught and classified, and the body to be written is returned. */
    method InvokeAsync(response: HttpResponse, thrown: Option<Fault>, now: int) returns (body: Option<ErrorBody>)
      modifies response
      ensures thrown.None? ==> body == None && unchanged(response)
      ensures thrown.Some? ==> body == Some(Classify(thrown.value, isDevelopment, now))
      ensures thrown.Some? ==> response.statusCode == body.value.statusCode && response.contentType == Some(JsonContentType)
    {
      match thrown
      case None =>
        body := None;
      case Some(ex) =>
        var details := HandleExceptionAsync(response, ex, now);
        body := Some(details.View());
    }

    /** `HandleExceptionAsync`: fills a fresh `ErrorDetails` field by field,
        sets the response status branch by branch, and finally copies that
        status into the details. */
    method HandleExceptionAsync(response: HttpResponse, exception: Fault, now: int) returns (details: ErrorDetails)
      modifies response
      ensures fresh(details)
      ensures details.View() == Classify(exception, isDevelopment, now)
      ensures details.statusCode == response.statusCode
      ensures response.contentType == Some(JsonContentType)
    {
      response.contentType := Some(JsonContentType);
      details := new ErrorDetails(now);
      details.message := Some(InternalServerError);
      match exception.kind {
        case ValidationException =>
          response.statusCode := Status400BadRequest;
          details.message := Some(exception.message);
          details.exceptionType := Some("Validation Error");
        case NotFoundException =>
          response.statusCode := Status404NotFound;
          details.message := Some(exception.message);
          details.exceptionType := Some("Not Found");
        case UnauthorizedAccessException =>
          response.statusCode := Status401Unauthorized;
          details.message := Some(exception.message);
          details.exceptionType := Some("Unauthorized");
        case OtherException(_) =>
          response.statusCode := Status500InternalServerError;
          details.exceptionType := Some("Server Error");
          if isDevelopment {
            details.message := Some(exception.message);
            details.stackTrace := exception.stackTrace;
          }
      }
      details.statusCode := response.statusCode;
    }
  }
}
