/**
 * The central error middleware: once headers are out it hands the error on;
 * otherwise it answers with the error's status (500 by default), its
 * message (a fixed text by default) and, outside production, its stack.
 */
module ErrorHandler {
  import opened Wrappers
  import opened Http

  const DefaultMessage := "Server error occurred"
  const Production := "production"

  /** An error as it reaches the middleware; a status of 0 counts as absent, like any falsy value. */
  datatype Failure = Failure(status: Option<int>, message: Option<string>, stack: Option<string>)

  /** `next(err)` to the framework's own handler, or a JSON reply. */
  datatype Handling = Delegate | Reply(status: int, message: string, error: Option<string>)

  /**
   * `errorHandler`: delegates exactly when headers were already sent;
   * otherwise the status is the error's when truthy, else 500, the message
   * the error's when non-empty, else the default, and the stack is attached
   * exactly when NODE_ENV is not 'production'.
   */
  function HandleError(err: Failure, headersSent: bool, nodeEnv: Option<string>): (r: Handling)
    ensures r.Delegate? <==> headersSent
    ensures r.Reply? ==>
      && (if err.status.Some? && err.status.value != 0 then r.status == err.status.value else r.status == ServerError)
      && (if err.message.Some? && err.message.value != "" then r.message == err.message.value else r.message == DefaultMessage)
      && (r.error.Some? <==> nodeEnv != Some(Production) && err.stack.Some?)
      && (r.error.Some? ==> r.error == err.stack)
  {
    if headersSent then Delegate
    else
      var status := if err.status.Some? && err.status.value != 0 then err.status.value else ServerError;
      var message := if err.message.Some? && err.message.value != "" then err.message.value else DefaultMessage;
      Reply(status, message, if nodeEnv == Some(Production) then None else err.stack)
  }

  /** Whatever the error, a reply never carries status 0 or an empty message. */
  lemma ReplyIsWellFormed(err: Failure, nodeEnv: Option<string>)
    ensures var r := HandleError(err, false, nodeEnv);
      r.Reply? && r.status != 0 && r.message != ""
  {
  }

  /** In production no reply carries a stack. */
  lemma ProductionHidesStack(err: Failure, headersSent: bool)
    ensures var r := HandleError(err, headersSent, Some(Production));
      r.Reply? ==> r.error.None?
  {
  }

  /**
   * An error response built by a handler (`err.status` and a message set,
   * as the controllers do before `next(err)`) reaches the client unchanged.
   */
  lemma HandlerErrorsPassThrough(status: int, message: string, stack: Option<string>, nodeEnv: Option<string>)
    requires status != 0 && message != ""
    ensures var r := HandleError(Failure(Some(status), Some(message), stack), false, nodeEnv);
      r.Reply? && r.status == status && r.message == message
  {
  }
}
