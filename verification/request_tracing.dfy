/**
 * `request_tracing_middleware` (src/middleware/request_tracing.rs): resolve
 * a request id, gather the request's client details, stamp the id on the
 * request, run the next stage, classify the status, and stamp the same id
 * on the response.
 *
 * The next stage is a function from request to response, the UUID
 * generator's randomness is sixteen bytes passed in, and the log and span
 * are returned as values. Latency is not modelled.
 */
module RequestTracing {
  import opened Common
  import opened Http
  import Uuid

  const RequestIdHeader: string := "x-request-id"
  const UserAgentHeader: string := "user-agent"
  const ForwardedForHeader: string := "x-forwarded-for"
  const RealIpHeader: string := "x-real-ip"
  const ContentLengthHeader: string := "content-length"

  /**
   * The inbound `x-request-id` when it is present and valid text (even the
   * empty string), else a fresh version-4 UUID.
   */
  function ResolveRequestId(headers: HeaderMap, random: seq<byte>): (id: string)
    requires |random| == 16
    ensures HeaderText(headers, RequestIdHeader).Some? ==> id == HeaderText(headers, RequestIdHeader).value
    ensures HeaderText(headers, RequestIdHeader).None? ==> Uuid.IsV4Text(id) && id == Uuid.NewV4String(random)
  {
    HeaderText(headers, RequestIdHeader).GetOr(Uuid.NewV4String(random))
  }

  /** `x-forwarded-for` if present and valid text, else `x-real-ip` likewise, else none. */
  function ClientIp(headers: HeaderMap): (ip: Option<string>)
    ensures HeaderText(headers, ForwardedForHeader).Some? ==> ip == HeaderText(headers, ForwardedForHeader)
    ensures HeaderText(headers, ForwardedForHeader).None? ==> ip == HeaderText(headers, RealIpHeader)
  {
    match HeaderText(headers, ForwardedForHeader)
    case Some(ip) => Some(ip)
    case None => HeaderText(headers, RealIpHeader)
  }

  /** `content-length` when it is valid text that parses as a `usize`. */
  function ContentLength(headers: HeaderMap): (n: Option<nat>)
    ensures n.Some? <==> HeaderText(headers, ContentLengthHeader).Some? &&
                         ParseUsize(HeaderText(headers, ContentLengthHeader).value).Some?
    ensures n.Some? ==> n == ParseUsize(HeaderText(headers, ContentLengthHeader).value)
  {
    match HeaderText(headers, ContentLengthHeader)
    case None => None
    case Some(text) => ParseUsize(text)
  }

  datatype Level = Info | Warn | Error

  /** How the outcome is logged: the message, its level, and the span's `error` field. */
  datatype Classification = Classification(message: string, level: Level, spanError: Option<string>)

  /** The status `match`: success, redirection, client error, server error, anything else. */
  function Classify(status: StatusCode): (c: Classification)
    ensures IsSuccess(status) ==> c == Classification("Request completed", Info, None)
    ensures IsRedirection(status) ==> c == Classification("Request redirected", Info, None)
    ensures IsClientError(status) ==> c == Classification("Client error", Warn, None)
    ensures IsServerError(status) ==> c == Classification("Server error", Error, Some("server_error"))
    ensures !(IsSuccess(status) || IsRedirection(status) || IsClientError(status) || IsServerError(status)) ==>
      c == Classification("Unexpected status", Warn, None)
  {
    if IsSuccess(status) then Classification("Request completed", Info, None)
    else if IsRedirection(status) then Classification("Request redirected", Info, None)
    else if IsClientError(status) then Classification("Client error", Warn, None)
    else if IsServerError(status) then Classification("Server error", Error, Some("server_error"))
    else Classification("Unexpected status", Warn, None)
  }

  /** The classes are exclusive, and only 1xx and 600 to 999 fall outside them. */
  lemma ClassesPartitionStatuses(status: StatusCode)
    ensures (if IsSuccess(status) then 1 else 0) + (if IsRedirection(status) then 1 else 0)
          + (if IsClientError(status) then 1 else 0) + (if IsServerError(status) then 1 else 0) <= 1
    ensures Classify(status).message == "Unexpected status" <==> status < 200 || status >= 600
    ensures Classify(status).spanError.Some? <==> IsServerError(status)
  {
  }

  /** The span's fields; `status` and `error` are recorded after the next stage ran. */
  datatype RequestSpan = RequestSpan(
    requestId: string,
    verb: string,
    path: string,
    query: Option<string>,
    version: string,
    userAgent: Option<string>,
    clientIp: Option<string>,
    contentLength: Option<nat>,
    status: StatusCode,
    error: Option<string>)

  datatype LogEvent = LogEvent(level: Level, target: string, message: string, requestId: string)

  /** A value accepted by `HeaderValue::from_str`, so its `unwrap` cannot fail. */
  lemma ResolvedIdIsValidHeaderValue(headers: HeaderMap, random: seq<byte>)
    requires |random| == 16
    ensures FromStr(ResolveRequestId(headers, random)).Some?
    ensures HeaderText(headers, RequestIdHeader).Some? ==>
      FromStr(ResolveRequestId(headers, random)) == Some(headers[RequestIdHeader])
  {
    var id := ResolveRequestId(headers, random);
    if HeaderText(headers, RequestIdHeader).Some? {
      FromStrOfToStr(headers[RequestIdHeader]);
    } else {
      UuidTextIsHeaderText(id);
    }
  }

  /** A textual UUID converts to a header value and reads back unchanged. */
  lemma UuidTextIsHeaderText(s: string)
    requires Uuid.IsV4Text(s)
    ensures FromStr(s).Some? && ToStr(FromStr(s).value) == Some(s)
  {
    forall i | 0 <= i < |s| ensures s[i] == '\t' || ' ' <= s[i] <= '~' {
      assert s[i] == '-' || IsLowerHex(s[i]);
    }
    ToStrOfFromStr(s);
  }

  /**
   * The middleware. The request handed on is the incoming one with
   * `x-request-id` set to the resolved id and nothing else changed; the
   * response is the next stage's with that same header value set.
   */
  method TraceRequest(request: Request, next: Request -> Response, random: seq<byte>)
    returns (forwarded: Request, response: Response, span: RequestSpan, events: seq<LogEvent>)
    requires |random| == 16
    ensures var id := ResolveRequestId(request.headers, random);
      var idValue := FromStr(id);
      && idValue.Some?
      && forwarded == request.(headers := request.headers[RequestIdHeader := idValue.value])
      && response == next(forwarded).(headers := next(forwarded).headers[RequestIdHeader := idValue.value])
    ensures response.status == next(forwarded).status && response.body == next(forwarded).body
    ensures response.headers[RequestIdHeader] == forwarded.headers[RequestIdHeader]
    ensures HeaderText(request.headers, RequestIdHeader).Some? ==>
      forwarded.headers[RequestIdHeader] == request.headers[RequestIdHeader]
    ensures HeaderText(request.headers, RequestIdHeader).None? ==>
      ToStr(response.headers[RequestIdHeader]) == Some(Uuid.NewV4String(random))
    ensures span == RequestSpan(ResolveRequestId(request.headers, random), request.verb, request.path,
      request.query, request.version, HeaderText(request.headers, UserAgentHeader),
      ClientIp(request.headers), ContentLength(request.headers),
      response.status, Classify(response.status).spanError)
    ensures events == [
      LogEvent(Info, "http::request", "Incoming request", span.requestId),
      LogEvent(Classify(response.status).level, "http::response", Classify(response.status).message, span.requestId)]
  {
    var requestId := ResolveRequestId(request.headers, random);
    var userAgent := HeaderText(request.headers, UserAgentHeader);
    var clientIp := ClientIp(request.headers);
    var contentLength := ContentLength(request.headers);
    events := [LogEvent(Info, "http::request", "Incoming request", requestId)];

    ResolvedIdIsValidHeaderValue(request.headers, random);
    var idValue := FromStr(requestId).value;
    forwarded := request.(headers := request.headers[RequestIdHeader := idValue]);

    var handled := next(forwarded);
    var outcome := Classify(handled.status);
    span := RequestSpan(requestId, request.verb, request.path, request.query, request.version,
      userAgent, clientIp, contentLength, handled.status, outcome.spanError);
    events := events + [LogEvent(outcome.level, "http::response", outcome.message, requestId)];

    response := handled.(headers := handled.headers[RequestIdHeader := idValue]);
    if HeaderText(request.headers, RequestIdHeader).None? {
      UuidTextIsHeaderText(requestId);
    }
  }
}
