/**
 * `ApiError` (src/errors/api_error.rs): the two per-request failure kinds,
 * their `Display` texts, and the response each becomes.
 */
module ApiErrors {
  import opened Common
  import opened Json
  import opened Http

  datatype ApiError = BadRequest(message: string) | InternalServerError(cause: string)

  /** The `Display` text thiserror derives from the `#[error]` attributes. */
  function Display(e: ApiError): (m: string)
    ensures e.BadRequest? ==> m == "Bad Request: " + e.message
    ensures e.InternalServerError? ==> m == "Internal Server Error"
  {
    match e
    case BadRequest(message) => "Bad Request: " + message
    case InternalServerError(_) => "Internal Server Error"
  }

  /** The `ErrorResponseBody { message }` each error is rendered with. */
  function ErrorBody(e: ApiError): JsonValue {
    match e
    case BadRequest(message) => Object([Member("message", Str(message))])
    case InternalServerError(_) => Object([Member("message", Str(Display(e)))])
  }

  const JsonMediaType: string := "application/json"

  /** The headers axum's `Json` response carries. */
  function JsonHeaders(): HeaderMap {
    map[ContentType := Utf8String(JsonMediaType)]
  }

  /**
   * `IntoResponse::into_response`: 400 with the message for a bad request,
   * 500 with the fixed `Display` text for an internal error, each as a JSON
   * body `{"message": ...}` under `content-type: application/json`.
   */
  function IntoResponse(e: ApiError): (r: Response)
    ensures e.BadRequest? ==> r.status == 400
    ensures e.InternalServerError? ==> r.status == 500
    ensures IsClientError(r.status) || IsServerError(r.status)
    ensures r.headers == JsonHeaders()
    ensures r.body == Serialize(Object([Member("message", Str(
      if e.BadRequest? then e.message else "Internal Server Error"))]))
  {
    match e
    case BadRequest(_) => Response(400, JsonHeaders(), Serialize(ErrorBody(e)))
    case InternalServerError(_) => Response(500, JsonHeaders(), Serialize(ErrorBody(e)))
  }

  /** An internal error's cause never reaches the response. */
  lemma InternalCauseHidden(c1: string, c2: string)
    ensures IntoResponse(InternalServerError(c1)) == IntoResponse(InternalServerError(c2))
  {
  }

  /**
   * The body is `{message}`, not the problem-details shape: `type`, `title`,
   * `status` and `detail` are all absent, so a client reading `detail` as a
   * string with an empty default (as src/bin/api_tests/slack_api.rs does)
   * reads the empty string.
   */
  lemma BodyLacksProblemDetailsFields(e: ApiError)
    ensures Get(ErrorBody(e), "message").Str?
    ensures Get(ErrorBody(e), "type") == Null && Get(ErrorBody(e), "title") == Null
    ensures Get(ErrorBody(e), "status") == Null && Get(ErrorBody(e), "detail") == Null
    ensures AsStr(Get(ErrorBody(e), "detail")).GetOr("") == ""
  {
  }
}
