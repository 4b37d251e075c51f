/** The second Express error middleware of the backend: it writes default
    `statusCode` and `status` fields onto the error it is handed, rewrites a
    not-found error, and then answers with everything in development and,
    in production, only with what an operational error allows. */
module ErrorMiddleware {
  import opened Common

  /** The fields of the error object the middleware reads or writes; an
      absent field is `None`. `isAppError` says whether it is an instance
      of the application's operational error class. */
  datatype ErrorFields = ErrorFields(name: string, message: Option<string>, statusCode: Option<int>,
                                     status: Option<string>, stack: Option<string>, isAppError: bool)

  /** What the middleware does with the response: hand the error on to the
      framework's default handler, or send a JSON body. `error` and `stack`
      are present only in a development answer. */
  datatype Response =
    | Delegated
    | Body(code: int, status: string, message: Option<string>, error: Option<ErrorFields>, stack: Option<string>)

  /** The error object, updated in place by the middleware. */
  class ErrorObject {
    const name: string
    const stack: Option<string>
    const isAppError: bool
    var message: Option<string>
    var statusCode: Option<int>
    var status: Option<string>

    constructor (e: ErrorFields)
      ensures Fields() == e
    {
      name := e.name;
      stack := e.stack;
      isAppError := e.isAppError;
      message := e.message;
      statusCode := e.statusCode;
      status := e.status;
    }

    function Fields(): ErrorFields
      reads this
    {
      ErrorFields(name, message, statusCode, status, stack, isAppError)
    }
  }

  /** The error after the middleware's writes: status code and status
      defaulted, and a not-found error turned into a 400 with its own
      message. */
  function Normalized(e: ErrorFields): ErrorFields {
    var d := e.(statusCode := Some(CodeOr(e.statusCode, 500)), status := Some(TextOr(e.status, "error")));
    if e.name == "NotFoundError" then d.(statusCode := Some(400), message := Some("Resource not found")) else d
  }

  /** The answer for an already normalized error. */
  function Answer(e: ErrorFields, development: bool): Response
    requires e.statusCode.Some? && e.status.Some?
  {
    if development then Body(e.statusCode.value, e.status.value, e.message, Some(e), e.stack)
    else if e.isAppError then Body(e.statusCode.value, e.status.value, e.message, None, None)
    else Body(500, "error", Some("Something went wrong!"), None, None)
  }

  /** The middleware on an error with fields `e`: the response and the
      error's fields afterwards. */
  function HandleOutcome(e: ErrorFields, headersSent: bool, development: bool): (Response, ErrorFields) {
    if headersSent then (Delegated, e)
    else (Answer(Normalized(e), development), Normalized(e))
  }

  /** `errorHandler(err, req, res, next)`. */
  method Handle(err: ErrorObject, headersSent: bool, development: bool) returns (r: Response)
    modifies err
    ensures (r, err.Fields()) == HandleOutcome(old(err.Fields()), headersSent, development)
  {
    if headersSent {
      return Delegated;
    }
    err.statusCode := Some(CodeOr(err.statusCode, 500));
    err.status := Some(TextOr(err.status, "error"));
    if err.name == "NotFoundError" {
      err.statusCode := Some(400);
      err.message := Some("Resource not found");
    }
    if development {
      return Body(err.statusCode.value, err.status.value, err.message, Some(err.Fields()), err.stack);
    }
    if err.isAppError {
      return Body(err.statusCode.value, err.status.value, err.message, None, None);
    }
    r := Body(500, "error", Some("Something went wrong!"), None, None);
  }

  /** The writes: defaults where a field is absent or falsy, the field's own
      value otherwise, and for a not-found error the fixed 400 and message;
      name, stack and class never change. */
  lemma NormalizedFields(e: ErrorFields)
    ensures var n := Normalized(e);
      n.name == e.name && n.stack == e.stack && n.isAppError == e.isAppError &&
      n.status == Some(if e.status.Some? && e.status.value != "" then e.status.value else "error") &&
      (e.name == "NotFoundError" ==> n.statusCode == Some(400) && n.message == Some("Resource not found")) &&
      (e.name != "NotFoundError" ==>
         n.message == e.message &&
         n.statusCode == Some(if e.statusCode.Some? && e.statusCode.value != 0 then e.statusCode.value else 500))
  {
  }

  /** Handing the same error to the middleware again writes nothing new. */
  lemma NormalizedIdempotent(e: ErrorFields)
    ensures Normalized(Normalized(e)) == Normalized(e)
  {
  }

  /** Once headers are sent nothing is written, to the error or the
      response. */
  lemma SentHeadersDelegate(e: ErrorFields, development: bool)
    ensures HandleOutcome(e, true, development) == (Delegated, e)
  {
  }

  /** In development the body carries the normalized error in full. */
  lemma DevelopmentShowsAll(e: ErrorFields)
    ensures var (r, after) := HandleOutcome(e, false, true);
      r.Body? && r.error == Some(after) && r.stack == e.stack && r.message == after.message &&
      Some(r.code) == after.statusCode && Some(r.status) == after.status
  {
  }

  /** In production no error details leave the server; an operational
      error keeps its code and message, and any other error is a 500
      whatever its own status code. */
  lemma ProductionHidesDetails(e: ErrorFields)
    ensures var (r, after) := HandleOutcome(e, false, false);
      r.Body? && r.error.None? && r.stack.None? &&
      (e.isAppError ==> Some(r.code) == after.statusCode && r.message == after.message) &&
      (!e.isAppError ==> r == Body(500, "error", Some("Something went wrong!"), None, None))
  {
  }

  /** A not-found error answers 400 in development and as an operational
      error, never its own status code. */
  lemma NotFoundAnswers400(e: ErrorFields, development: bool)
    requires e.name == "NotFoundError" && (development || e.isAppError)
    ensures HandleOutcome(e, false, development).0.code == 400
    ensures HandleOutcome(e, false, development).0.message == Some("Resource not found")
  {
  }
}
