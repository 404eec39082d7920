/** middleware/errors.js: the error boundary. Three rules are checked in turn, each
    replacing the error when it applies, so the last one that applies decides; the
    reply is the resulting status (500 when there is none) and
    `{ success: false, error: message }`. */
module ErrorHandler {
  import opened Wrappers
  import opened ErrorResponses
  import opened Http
  import Strings

  const CastMessage: string := "Bootcamp not found with provided id."
  const DuplicateMessage: string := "Duplicate value is provided"

  /** `error.statusCode || 500`: absent or zero falls back to 500. */
  function StatusOr500(status: Option<int>): int {
    if status.None? || status.value == 0 then 500 else status.value
  }

  /** Reference reading of the rules, by priority instead of by overwriting: a
      validation error first, then a duplicate key, then a bad id, then the error as it
      is. */
  function Classify(err: ErrorObject): (int, string) {
    if err.name == "ValidationError" then (400, Strings.Join(err.errors, ','))
    else if err.code == Some(11000) then (400, DuplicateMessage)
    else if err.name == "CastError" then (400, CastMessage)
    else (StatusOr500(err.statusCode), err.message)
  }

  function ErrorBody(message: string): Json {
    JObj([("success", JBool(false)), ("error", JStr(message))])
  }

  /** The handler agrees with the priority reading of the rules, and its body is
      always `{ success: false, error: message }`. */
  function HandleError(err: ErrorObject): (r: Reply)
    ensures r == Respond(Classify(err).0, ErrorBody(Classify(err).1), [])
  {
    var error := err;
    var error := if err.name == "CastError" then Raise(CastMessage, 400) else error;
    var error := if err.code == Some(11000) then Raise(DuplicateMessage, 400) else error;
    var error :=
      if err.name == "ValidationError" then NewErrorResponse(Some(Messages(err.errors)), Some(400))
      else error;
    Respond(StatusOr500(error.statusCode),
      JObj([("success", JBool(false)), ("error", JStr(error.message))]), [])
  }

  /** A bad id gives 400 with the not-found message. */
  lemma CastErrorIs400(err: ErrorObject)
    requires err.name == "CastError" && err.code != Some(11000)
    ensures HandleError(err) == Respond(400, ErrorBody(CastMessage), [])
  {
  }

  /** A duplicate key gives 400 with the duplicate message, even when the error is
      also named CastError. */
  lemma DuplicateIs400(err: ErrorObject)
    requires err.code == Some(11000) && err.name != "ValidationError"
    ensures HandleError(err) == Respond(400, ErrorBody(DuplicateMessage), [])
  {
  }

  /** A validation error gives 400 and lists the messages of the failed paths, in
      order, separated by commas; it wins over every other rule. */
  lemma ValidationIs400(err: ErrorObject)
    requires err.name == "ValidationError"
    ensures HandleError(err) == Respond(400, ErrorBody(Strings.Join(err.errors, ',')), [])
  {
  }

  /** Any other error keeps its message and its own status, or 500 without one. */
  lemma OtherErrorsKeepStatus(err: ErrorObject)
    requires err.name != "CastError" && err.name != "ValidationError" && err.code != Some(11000)
    ensures HandleError(err) == Respond(StatusOr500(err.statusCode), ErrorBody(err.message), [])
    ensures err.statusCode.None? ==> HandleError(err).status == 500
  {
  }
}
