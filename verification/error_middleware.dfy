/** The backend's error middleware: the handler that turns any error into the
    JSON error envelope, and the handler that raises 404 for unknown URLs. */
module ErrorMiddleware {
  import opened Common

  /** The fields of a thrown error the handler reads. A `statusCode` of 0 is
      falsy, like an absent one. */
  datatype JsError = JsError(statusCode: Option<int>, message: Option<string>, stack: Option<string>)

  /** The JSON error body as serialised: a `stack` whose value is undefined is
      dropped from the JSON, so it is modelled as absent. */
  datatype Envelope = Envelope(status: string, statusCode: int, message: string, stack: Option<string>)

  datatype ErrorReply = ErrorReply(httpStatus: int, body: Envelope)

  const Development := "development"
  const DefaultMessage := "Internal Server Error"

  /** The configured environment: `NODE_ENV`, or "development" when it is
      unset or empty. */
  function Environment(nodeEnv: Option<string>): (env: string)
    ensures Truthy(nodeEnv) ==> env == nodeEnv.value
    ensures !Truthy(nodeEnv) ==> env == Development
    ensures env != ""
  {
    if Truthy(nodeEnv) then nodeEnv.value else Development
  }

  /** `err.statusCode || 500`. */
  function StatusOf(err: JsError): (code: int)
    ensures code != 0
    ensures err.statusCode.Some? && err.statusCode.value != 0 ==> code == err.statusCode.value
    ensures err.statusCode.None? || err.statusCode.value == 0 ==> code == 500
  {
    match err.statusCode
    case Some(c) => if c != 0 then c else 500
    case None => 500
  }

  /** `err.message || 'Internal Server Error'`. */
  function MessageOf(err: JsError): (text: string)
    ensures text != ""
    ensures Truthy(err.message) ==> text == err.message.value
    ensures !Truthy(err.message) ==> text == DefaultMessage
  {
    if Truthy(err.message) then err.message.value else DefaultMessage
  }

  /** `errorHandler`: the status line agrees with the body, the body always
      carries a non-zero code and a non-empty message, and the stack trace is
      exposed only in development. */
  function ErrorHandler(err: JsError, environment: string): (r: ErrorReply)
    ensures r.httpStatus == r.body.statusCode
    ensures r.body.status == "error"
    ensures r.body.statusCode != 0 && r.body.message != ""
    ensures err.statusCode.Some? && err.statusCode.value != 0 ==> r.body.statusCode == err.statusCode.value
    ensures err.statusCode.None? || err.statusCode.value == 0 ==> r.body.statusCode == 500
    ensures Truthy(err.message) ==> r.body.message == err.message.value
    ensures !Truthy(err.message) ==> r.body.message == DefaultMessage
    ensures r.body.stack.Some? <==> environment == Development && err.stack.Some?
    ensures r.body.stack.Some? ==> r.body.stack == err.stack
  {
    var code := StatusOf(err);
    ErrorReply(code, Envelope("error", code, MessageOf(err),
                              if environment == Development then err.stack else None))
  }

  /** `notFoundHandler`: the error it passes on for an unmatched URL. */
  function NotFound(originalUrl: string, stack: Option<string>): (err: JsError)
    ensures err.statusCode == Some(404)
    ensures err.message == Some("Not Found - " + originalUrl)
    ensures err.stack == stack
  {
    JsError(Some(404), Some("Not Found - " + originalUrl), stack)
  }

  /** An unmatched URL ends as a 404 envelope naming that URL; its stack trace
      appears exactly in development. */
  lemma NotFoundEnvelope(originalUrl: string, stack: string, environment: string)
    ensures var r := ErrorHandler(NotFound(originalUrl, Some(stack)), environment);
            && r.httpStatus == 404
            && r.body == Envelope("error", 404, "Not Found - " + originalUrl,
                                  if environment == Development then Some(stack) else None)
  {
  }

  /** With `NODE_ENV` unset, stack traces of errors that have one are sent to clients. */
  lemma DefaultConfigurationExposesStack(err: JsError)
    requires err.stack.Some?
    ensures ErrorHandler(err, Environment(None)).body.stack == err.stack
  {
  }
}
