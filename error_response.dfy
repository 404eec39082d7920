/** utils/errorResponse.js: the error object the handlers pass to `next`. An
    `ErrorResponse` is an `Error` (so its `name` is "Error") carrying an HTTP status
    in `statusCode`. Errors raised by the document store or the runtime are values of
    the same shape with their own `name`, an optional numeric `code` and, for a
    validation failure, the messages of the failed paths in `errors`. */
module ErrorResponses {
  import opened Wrappers
  import Strings

  datatype ErrorObject = ErrorObject(
    name: string,
    message: string,
    statusCode: Option<int>,
    code: Option<int>,
    errors: seq<string>)

  /** The first constructor argument: a string, or (in the validation branch of the
      error handler) an array of strings, which `Error` turns into text. */
  datatype MessageArg = Text(text: string) | Messages(items: seq<string>)

  const DefaultMessage: string := "Something went wrong"
  const DefaultStatus: int := 500

  /** `String(arg)`: an array becomes its elements joined by commas. */
  function MessageText(arg: MessageArg): string {
    match arg
    case Text(t) => t
    case Messages(items) => Strings.Join(items, ',')
  }

  /** `new ErrorResponse(message, status)`; an omitted argument (`undefined`) takes
      its default. */
  function NewErrorResponse(message: Option<MessageArg>, status: Option<int>): (e: ErrorObject)
    ensures e.name == "Error" && e.code.None? && e.errors == []
    ensures message.None? ==> e.message == DefaultMessage
    ensures message.Some? && message.value.Text? ==> e.message == message.value.text
    ensures message.Some? && message.value.Messages? ==> e.message == Strings.Join(message.value.items, ',')
    ensures status.None? ==> e.statusCode == Some(DefaultStatus)
    ensures status.Some? ==> e.statusCode == status
  {
    ErrorObject(
      "Error",
      if message.Some? then MessageText(message.value) else DefaultMessage,
      Some(status.GetOr(DefaultStatus)),
      None,
      [])
  }

  /** The form every handler uses: `new ErrorResponse("...", status)`. */
  function Raise(message: string, status: int): (e: ErrorObject)
    ensures e.message == message && e.statusCode == Some(status)
    ensures e.name == "Error"
  {
    NewErrorResponse(Some(Text(message)), Some(status))
  }


  // ---------------------------------------------------------------------------
  // Errors that reach `next` without being an ErrorResponse: the document store's
  // and the runtime's. Their messages are replaced by the error handler, except the
  // runtime's, whose text is the JavaScript engine's.

  /** A store lookup by an id that is not an ObjectId. */
  function CastError(value: string): (e: ErrorObject)
    ensures e.name == "CastError" && e.statusCode.None?
  {
    ErrorObject("CastError", "Cast to ObjectId failed for value \"" + value + "\"", None, None, [])
  }

  /** A write that violates a unique index. */
  function DuplicateKeyError(): (e: ErrorObject)
    ensures e.code == Some(11000) && e.statusCode.None?
  {
    ErrorObject("MongoServerError", "E11000 duplicate key error", None, Some(11000), [])
  }

  /** A document that fails schema validation, with one message per failing path. */
  function ValidationError(messages: seq<string>): (e: ErrorObject)
    ensures e.name == "ValidationError" && e.errors == messages && e.statusCode.None?
  {
    ErrorObject("ValidationError", "Validation failed", None, None, messages)
  }

  /** Reading a property of `null` or `undefined`. */
  function TypeError(property: string, ofUndefined: bool): (e: ErrorObject)
    ensures e.name == "TypeError" && e.statusCode.None? && e.code.None?
  {
    ErrorObject("TypeError",
      "Cannot read properties of " + (if ofUndefined then "undefined" else "null")
        + " (reading '" + property + "')",
      None, None, [])
  }
}
