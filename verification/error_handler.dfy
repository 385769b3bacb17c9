/** The final error handler every uncaught controller error reaches. */
module ErrorHandler {
  import opened Wrappers
  import opened Responses

  /** The fields of a thrown error the handler reads; a `statusCode` of 0 or
      none is falsy, as is an empty message. */
  datatype ErrorRecord = ErrorRecord(name: string, statusCode: Option<nat>, message: string)

  /** A malformed store identifier becomes 400 "Invalid ID format" whatever its
      status code; any other error uses its truthy status code or 500, and its
      truthy message or "Internal Server Error". The response is always one
      message with a non-empty text and a non-zero status. */
  function HandleError(err: ErrorRecord): (r: Response)
    ensures r.payload.Message? && r.payload.text != "" && r.status != 0
    ensures err.name == "CastError" ==> r == Response(400, Message("Invalid ID format"))
    ensures err.name != "CastError" ==>
      && r.status == (if err.statusCode.Some? && err.statusCode.value != 0 then err.statusCode.value else 500)
      && r.payload.text == (if err.message != "" then err.message else "Internal Server Error")
  {
    if err.name == "CastError" then Response(400, Message("Invalid ID format"))
    else
      var status := if err.statusCode.Some? && err.statusCode.value != 0 then err.statusCode.value else 500;
      var message := if err.message != "" then err.message else "Internal Server Error";
      Response(status, Message(message))
  }

  /** The error raised when an identifier in a query does not have the store's identifier shape. */
  const CastError: ErrorRecord := ErrorRecord("CastError", None, "Cast to ObjectId failed")

  /** The error the document layer raises when a field constraint fails; it carries no status code. */
  function ValidationError(paths: seq<string>): ErrorRecord
    requires paths != []
  {
    ErrorRecord("ValidationError", None, "Validation failed: " + paths[0])
  }

  /** Document-layer validation failures surface as 500 with their own message. */
  lemma ValidationErrorIs500(paths: seq<string>)
    requires paths != []
    ensures HandleError(ValidationError(paths)).status == 500
  {
  }
}
