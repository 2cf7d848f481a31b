/**
 * The last middleware of `server/app.js`: every error passed to `next` ends
 * up here and becomes a JSON response `{message, data}`.
 */
module ErrorHandler {
  import opened Wrappers
  import opened Upload

  /** An error as it reaches the handler: `statusCode` and `data` may be unset. */
  datatype HttpError = HttpError(message: string, statusCode: Option<int>, data: Option<seq<string>>)

  /** The response the handler sends; `status` is unset when the handler passes no status. */
  datatype ErrorResponse = ErrorResponse(status: Option<int>, message: string, data: Option<seq<string>>)

  /** `error.statusCode || 500`: an unset or zero status code falls back to 500. */
  function FallbackStatus(e: HttpError): int {
    if e.statusCode.None? || e.statusCode.value == 0 then 500 else e.statusCode.value
  }

  /** The handler as written: it passes `error.statusCode` itself, not the computed fallback. */
  function RespondAsWritten(e: HttpError): ErrorResponse {
    ErrorResponse(e.statusCode, e.message, e.data)
  }

  /** The handler as intended: the fallback status, and a body of `message` and `data` only. */
  function Respond(e: HttpError): (r: ErrorResponse)
    ensures r.status.Some?
    ensures e.statusCode.None? ==> r.status == Some(500)
    ensures e.statusCode == Some(0) ==> r.status == Some(500)
    ensures e.statusCode.Some? && e.statusCode.value != 0 ==> r.status == e.statusCode
    ensures r.message == e.message && r.data == e.data
  {
    ErrorResponse(Some(FallbackStatus(e)), e.message, e.data)
  }

  /** The error multer raises for a file under a field other than `image`; it has no status code. */
  function FromUploadError(u: UploadError): HttpError {
    match u
    case UnexpectedField(_) => HttpError("Unexpected field", None, None)
  }

  /**
   * Errors the controllers pass on always carry a non-zero status code, and for
   * those the handler as written and as intended agree.
   */
  lemma AgreeWhenStatusSet(e: HttpError)
    requires e.statusCode.Some? && e.statusCode.value != 0
    ensures RespondAsWritten(e) == Respond(e)
  {
  }

  /**
   * A file sent under another field is refused by multer with an error that
   * has no status code; the handler as written then calls `res.status` with
   * no status where the fallback it computes is 500. Express on Node then
   * throws in `writeHead`, so the client gets Express's default 500 error page
   * instead of the `{message, data}` JSON body.
   */
  lemma UnexpectedFieldHasNoStatus(field: string)
    requires field != FieldName
    ensures var e := FromUploadError(UnexpectedField(field));
      Receive(Some(IncomingFile(field, "photo.png", "image/png")), "2019-01-01T00:00:00.000Z") == Failure(UnexpectedField(field))
      && RespondAsWritten(e).status.None?
      && Respond(e).status == Some(500)
  {
  }
}
