/** EmailService.Infrastructure.Middlewares.CustomExceptionMiddleware: runs the rest of the
    pipeline and turns any exception that escapes it into a 500 response whose JSON body is
    an error envelope carrying the exception's message. */
module ExceptionMiddleware {

  import opened Exceptions
  import opened Responses

  const JsonContentType := "application/json"

  /** The envelope HandleExceptionAsync writes: the (message, succeeded, code) constructor with the
      exception's message, false and 500, whatever the kind of the exception. */
  function ErrorEnvelope(ex: Exception): (r: Response<string>)
    ensures !r.succeeded && r.code == InternalServerError
    ensures r.message == Some(ex.message)
    ensures r.errors == Some([]) && r.data.None?
  {
    WithEmptyErrors(ex.message, false, InternalServerError)
  }

  /** Every exception kind gets the same envelope, an ApiException included: only the
      message shows. */
  lemma EnvelopeIgnoresKind(e1: Exception, e2: Exception)
    requires e1.message == e2.message
    ensures ErrorEnvelope(e1) == ErrorEnvelope(e2)
  {
  }

  /** The part of Microsoft.AspNetCore.Http.HttpResponse the middleware touches. The body
      is the sequence of envelopes written to it; their JSON text is not modelled. Once
      something is written the response has started, and from then on its headers and
      status code are read-only: setting them throws InvalidOperationException. */
  class HttpResponse {
    var statusCode: int
    var contentType: Option<string>
    var body: seq<Response<string>>
    var hasStarted: bool

    /** A response as the server hands it to the pipeline: 200, no content type, empty. */
    constructor ()
      ensures statusCode == OK && contentType.None? && body == [] && !hasStarted
    {
      statusCode := OK;
      contentType := None;
      body := [];
      hasStarted := false;
    }

    method SetContentType(value: string, messages: RuntimeMessages) returns (error: Option<Exception>)
      modifies this
      ensures old(hasStarted) ==> error == Some(Exception(InvalidOperation, messages(InvalidOperation)))
                                  && contentType == old(contentType)
      ensures !old(hasStarted) ==> error.None? && contentType == Some(value)
      ensures statusCode == old(statusCode) && body == old(body) && hasStarted == old(hasStarted)
    {
      if hasStarted {
        error := Some(Exception(InvalidOperation, messages(InvalidOperation)));
      } else {
        contentType := Some(value);
        error := None;
      }
    }

    method SetStatusCode(value: int, messages: RuntimeMessages) returns (error: Option<Exception>)
      modifies this
      ensures old(hasStarted) ==> error == Some(Exception(InvalidOperation, messages(InvalidOperation)))
                                  && statusCode == old(statusCode)
      ensures !old(hasStarted) ==> error.None? && statusCode == value
      ensures contentType == old(contentType) && body == old(body) && hasStarted == old(hasStarted)
    {
      if hasStarted {
        error := Some(Exception(InvalidOperation, messages(InvalidOperation)));
      } else {
        statusCode := value;
        error := None;
      }
    }

    /** WriteAsync: appends to the body and starts the response. */
    method Write(envelope: Response<string>)
      modifies this
      ensures body == old(body) + [envelope] && hasStarted
      ensures statusCode == old(statusCode) && contentType == old(contentType)
    {
      body := body + [envelope];
      hasStarted := true;
    }
  }

  /** HandleExceptionAsync: the content type becomes application/json and the status 500
      before the envelope is written. On a response that has already started, setting the
      content type throws, and that exception leaves the handler with nothing changed. */
  method HandleExceptionAsync(response: HttpResponse, ex: Exception, messages: RuntimeMessages)
    returns (error: Option<Exception>)
    modifies response
    ensures old(response.hasStarted) ==>
      && error == Some(Exception(InvalidOperation, messages(InvalidOperation)))
      && response.statusCode == old(response.statusCode)
      && response.contentType == old(response.contentType)
      && response.body == old(response.body)
      && response.hasStarted
    ensures !old(response.hasStarted) ==>
      && error.None?
      && response.contentType == Some(JsonContentType)
      && response.statusCode == InternalServerError
      && response.body == old(response.body) + [ErrorEnvelope(ex)]
      && response.hasStarted
  {
    var result := ErrorEnvelope(ex);
    error := response.SetContentType(JsonContentType, messages);
    if error.None? {
      error := response.SetStatusCode(InternalServerError, messages);
    }
    if error.None? {
      response.Write(result);
    }
  }

  /** Invoke: `next` is how the rest of the pipeline ended, with `response` in the state it
      left it. Normal completion leaves the response as it is. An exception is caught and not
      rethrown; the only exception Invoke lets out is the one HandleExceptionAsync raises on a
      response that has already started. */
  method Invoke(response: HttpResponse, next: Option<Exception>, messages: RuntimeMessages)
    returns (escaped: Option<Exception>)
    modifies response
    ensures next.None? ==> escaped.None? && unchanged(response)
    ensures escaped.Some? ==> next.Some? && old(response.hasStarted) && escaped.value.kind == InvalidOperation
    ensures next.Some? && !old(response.hasStarted) ==>
      && escaped.None?
      && response.contentType == Some(JsonContentType)
      && response.statusCode == InternalServerError
      && response.body == old(response.body) + [ErrorEnvelope(next.value)]
    ensures next.Some? && old(response.hasStarted) ==>
      && escaped == Some(Exception(InvalidOperation, messages(InvalidOperation)))
      && response.statusCode == old(response.statusCode)
      && response.contentType == old(response.contentType)
      && response.body == old(response.body)
  {
    escaped := None;
    if next.Some? {
      escaped := HandleExceptionAsync(response, next.value, messages);
    }
  }
}
