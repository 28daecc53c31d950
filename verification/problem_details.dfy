/**
 * `problem_details_middleware` (src/middleware/problem_details.rs): an
 * error response that is not already `application/problem+json` is
 * replaced by a problem-details response built from its status.
 *
 * The builder `problem_details_response` is imported by the source from a
 * module that does not define it, so it is a parameter here, and so is the
 * status code's canonical reason phrase table.
 */
module ProblemDetails {
  import opened Common
  import opened Http
  import opened ApiErrors

  const ProblemJson: string := "application/problem+json"
  const UnknownError: string := "Unknown Error"

  /** The content type is readable text beginning with `application/problem+json`. */
  predicate IsProblemDetails(headers: HeaderMap) {
    match HeaderText(headers, ContentType)
    case Some(text) => ProblemJson <= text
    case None => false
  }

  /** `canonical_reason().unwrap_or("Unknown Error")` */
  function Detail(status: StatusCode, canonicalReason: StatusCode -> Option<string>): (d: string)
    ensures canonicalReason(status).Some? ==> d == canonicalReason(status).value
    ensures canonicalReason(status).None? ==> d == UnknownError
  {
    canonicalReason(status).GetOr(UnknownError)
  }

  /**
   * The middleware: run the next stage; hand back its response unless it is
   * a client or server error without a problem-details content type, in
   * which case build a problem-details response from the status alone.
   */
  function Middleware(request: Request, next: Request -> Response,
                      canonicalReason: StatusCode -> Option<string>,
                      problemDetailsResponse: (StatusCode, string) -> Response): (r: Response)
    ensures var inner := next(request);
      !(IsClientError(inner.status) || IsServerError(inner.status)) ==> r == inner
    ensures var inner := next(request);
      IsProblemDetails(inner.headers) ==> r == inner
    ensures var inner := next(request);
      (IsClientError(inner.status) || IsServerError(inner.status)) && !IsProblemDetails(inner.headers) ==>
        r == problemDetailsResponse(inner.status, Detail(inner.status, canonicalReason))
  {
    var response := next(request);
    var status := response.status;
    if !(IsClientError(status) || IsServerError(status)) then response
    else if IsProblemDetails(response.headers) then response
    else problemDetailsResponse(status, Detail(status, canonicalReason))
  }

  /**
   * Whether a response is replaced depends only on its status and its
   * content-type header; the body and other headers play no part, and
   * neither does the replaced response's body.
   */
  lemma DecisionIgnoresBodyAndOtherHeaders(request: Request, next1: Request -> Response, next2: Request -> Response,
                                           canonicalReason: StatusCode -> Option<string>,
                                           problemDetailsResponse: (StatusCode, string) -> Response)
    requires next1(request).status == next2(request).status
    requires (ContentType in next1(request).headers) == (ContentType in next2(request).headers)
    requires ContentType in next1(request).headers ==>
      next1(request).headers[ContentType] == next2(request).headers[ContentType]
    requires IsClientError(next1(request).status) || IsServerError(next1(request).status)
    requires !IsProblemDetails(next1(request).headers)
    ensures Middleware(request, next1, canonicalReason, problemDetailsResponse)
         == Middleware(request, next2, canonicalReason, problemDetailsResponse)
  {
  }

  /**
   * A content type counts as problem details by prefix, so a media-type
   * parameter after it still counts; one that is missing or not readable
   * text never does.
   */
  lemma ProblemJsonByPrefix(headers: HeaderMap, suffix: string)
    ensures IsProblemDetails(headers[ContentType := Utf8String(ProblemJson + suffix)]) <==>
            ToStr(Utf8String(ProblemJson + suffix)).Some?
    ensures ContentType !in headers ==> !IsProblemDetails(headers)
    ensures ContentType in headers && ToStr(headers[ContentType]).None? ==> !IsProblemDetails(headers)
  {
    var h := headers[ContentType := Utf8String(ProblemJson + suffix)];
    if ToStr(Utf8String(ProblemJson + suffix)).Some? {
      var text := ToStr(Utf8String(ProblemJson + suffix)).value;
      ReadBackOfUtf8(ProblemJson + suffix);
      assert text == ProblemJson + suffix;
    }
  }

  /** Text whose UTF-8 encoding reads back through `to_str` reads back as itself. */
  lemma {:induction false} ReadBackOfUtf8(s: string)
    requires ToStr(Utf8String(s)).Some?
    ensures ToStr(Utf8String(s)) == Some(s)
  {
    if s != [] {
      var head, tail := Utf8(s[0]), Utf8String(s[1..]);
      assert Utf8String(s) == head + tail;
      assert IsVisibleAscii((head + tail)[0]);
      assert s[0] as int < 0x80;
      assert forall i :: 0 <= i < |tail| ==> IsVisibleAscii(tail[i]) by {
        forall i | 0 <= i < |tail| ensures IsVisibleAscii(tail[i]) {
          assert tail[i] == (head + tail)[i + |head|];
        }
      }
      ReadBackOfUtf8(s[1..]);
      var r := ToStr(Utf8String(s)).value;
      assert |head| == 1;
      assert |r| == |s|;
      forall i | 0 <= i < |r| ensures r[i] == s[i] {
        if i == 0 {
          assert r[0] as int == head[0] as int == s[0] as int;
        } else {
          assert (head + tail)[i] == tail[i - 1];
          assert ToStr(tail).value[i - 1] == s[1..][i - 1];
        }
      }
      assert r == s;
    }
  }

  /**
   * Every `ApiError` response is `application/json`, so behind this
   * middleware it would be replaced: its `message` body would not reach
   * the client.
   */
  lemma ApiErrorResponsesAreReplaced(request: Request, next: Request -> Response, e: ApiError,
                                     canonicalReason: StatusCode -> Option<string>,
                                     problemDetailsResponse: (StatusCode, string) -> Response)
    requires next(request) == IntoResponse(e)
    ensures Middleware(request, next, canonicalReason, problemDetailsResponse)
         == problemDetailsResponse(if e.BadRequest? then 400 else 500,
                                   Detail(if e.BadRequest? then 400 else 500, canonicalReason))
  {
    JsonIsNotProblemDetails();
    var inner := IntoResponse(e);
    assert inner.headers == JsonHeaders();
  }

  /** `application/json` is not a problem-details content type. */
  lemma JsonIsNotProblemDetails()
    ensures HeaderText(JsonHeaders(), ContentType) == Some(JsonMediaType)
    ensures !IsProblemDetails(JsonHeaders())
  {
    JsonMediaTypeIsPrintable();
    ToStrOfFromStr(JsonMediaType);
    assert |JsonMediaType| < |ProblemJson|;
  }

  lemma JsonMediaTypeIsPrintable()
    ensures forall i :: 0 <= i < |JsonMediaType| ==> JsonMediaType[i] == '\t' || ' ' <= JsonMediaType[i] <= '~'
  {
  }
}
