/**
 * The two route handlers (src/handlers/slack_handler.rs): decode the
 * payload, call the service with the configured token and base URL, and
 * classify failures as `ApiError`s.
 */
module SlackHandler {
  import opened Common
  import opened Json
  import opened Http
  import opened ApiErrors
  import Config
  import Base64
  import SlackService

  datatype SlackMessageRequest = SlackMessageRequest(channel: string, text: string)

  datatype SlackFileUploadRequest = SlackFileUploadRequest(fileName: string, fileDataBase64: string, channel: string)

  /** The shared state: settings, and the HTTP client (here the world it talks to). */
  datatype AppState = AppState(settings: Config.Settings, client: SlackService.World)

  /** A handler's result and the outbound calls it caused, in order. */
  datatype HandlerOutcome = HandlerOutcome(result: Result<string, ApiError>, trace: seq<SlackService.OutboundCall>)

  const DecodeFailureMessage: string := "Failed to decode base64 file data"

  /** `map_err(|e| ApiError::InternalServerError(e.to_string()))` on a service result. */
  function AsInternalError(r: Result<string, string>): (a: Result<string, ApiError>)
    ensures r.Ok? ==> a == Ok(r.value)
    ensures r.Err? ==> a == Err(InternalServerError(r.error))
  {
    match r
    case Ok(text) => Ok(text)
    case Err(e) => Err(InternalServerError(e))
  }

  /** `post_message`: relay the message; a service failure is an internal error. */
  function PostMessage(state: AppState, payload: SlackMessageRequest): (h: HandlerOutcome)
    ensures var s := SlackService.PostMessage(state.client, state.settings.slackBotToken,
      state.settings.slackApiBaseUrl, payload.channel, payload.text);
      h == HandlerOutcome(AsInternalError(s.result), s.trace)
  {
    var s := SlackService.PostMessage(state.client, state.settings.slackBotToken,
      state.settings.slackApiBaseUrl, payload.channel, payload.text);
    HandlerOutcome(AsInternalError(s.result), s.trace)
  }

  /**
   * `upload_file_base64`: decode first; invalid base64 is a bad request with
   * a fixed message and nothing is sent. Otherwise the decoded bytes go to
   * the upload orchestrator, whose failures are internal errors.
   */
  function UploadFileBase64(state: AppState, payload: SlackFileUploadRequest): (h: HandlerOutcome)
    ensures Base64.Decode(payload.fileDataBase64).None? ==>
      h == HandlerOutcome(Err(BadRequest(DecodeFailureMessage)), [])
    ensures Base64.Decode(payload.fileDataBase64).Some? ==>
      var s := SlackService.SendSingleFile(state.client, state.settings.slackBotToken,
        state.settings.slackApiBaseUrl, Base64.Decode(payload.fileDataBase64).value,
        payload.fileName, payload.channel);
      h == HandlerOutcome(AsInternalError(s.result), s.trace)
  {
    match Base64.Decode(payload.fileDataBase64)
    case None => HandlerOutcome(Err(BadRequest(DecodeFailureMessage)), [])
    case Some(fileData) =>
      var s := SlackService.SendSingleFile(state.client, state.settings.slackBotToken,
        state.settings.slackApiBaseUrl, fileData, payload.fileName, payload.channel);
      HandlerOutcome(AsInternalError(s.result), s.trace)
  }

  /**
   * The response a handler's `Result<Json<String>, ApiError>` becomes: 200
   * with the service text as a JSON string, or the error's response.
   */
  function HandlerResponse(result: Result<string, ApiError>): (r: Response)
    ensures result.Ok? ==> r == Response(200, JsonHeaders(), Serialize(Str(result.value)))
    ensures result.Err? ==> r == IntoResponse(result.error)
  {
    match result
    case Ok(text) => Response(200, JsonHeaders(), Serialize(Str(text)))
    case Err(e) => IntoResponse(e)
  }

  /**
   * Invalid base64 gives a 400 whose message is the fixed text, whatever
   * the payload was, so nothing of the decoder's own error reaches it; and
   * no call goes out.
   */
  lemma InvalidBase64IsBadRequest(state: AppState, payload: SlackFileUploadRequest)
    requires Base64.Decode(payload.fileDataBase64).None?
    ensures UploadFileBase64(state, payload).trace == []
    ensures UploadFileBase64(state, payload).result == Err(BadRequest("Failed to decode base64 file data"))
    ensures HandlerResponse(UploadFileBase64(state, payload).result).status == 400
  {
  }

  /**
   * A failure after decoding is never a bad request: it is an internal
   * error whose response is the same fixed 500 whatever the cause.
   */
  lemma ServiceFailureIsInternal(state: AppState, payload: SlackFileUploadRequest, message: SlackMessageRequest)
    ensures var h := UploadFileBase64(state, payload);
      Base64.Decode(payload.fileDataBase64).Some? && h.result.Err? ==>
        h.result.error.InternalServerError? &&
        HandlerResponse(h.result) == IntoResponse(InternalServerError(""))
    ensures var h := PostMessage(state, message);
      h.result.Err? ==>
        h.result.error.InternalServerError? &&
        HandlerResponse(h.result) == IntoResponse(InternalServerError(""))
  {
    if Base64.Decode(payload.fileDataBase64).Some? {
      var s := SlackService.SendSingleFile(state.client, state.settings.slackBotToken,
        state.settings.slackApiBaseUrl, Base64.Decode(payload.fileDataBase64).value,
        payload.fileName, payload.channel);
      ServiceErrorIsHidden(s.result);
    }
    var s := SlackService.PostMessage(state.client, state.settings.slackBotToken,
      state.settings.slackApiBaseUrl, message.channel, message.text);
    ServiceErrorIsHidden(s.result);
  }

  lemma ServiceErrorIsHidden(r: Result<string, string>)
    ensures AsInternalError(r).Err? ==>
      AsInternalError(r).error.InternalServerError? &&
      HandlerResponse(AsInternalError(r)) == IntoResponse(InternalServerError(""))
  {
    if r.Err? {
      InternalCauseHidden(r.error, "");
    }
  }

  /**
   * The orchestrator receives exactly the decoded bytes and the payload's
   * file name and channel: the first call announces that file name and
   * byte count, the second (if any) carries those bytes, and the third
   * (if any) names that file title and channel.
   */
  lemma {:induction false} OrchestratorGetsDecodedPayload(state: AppState, payload: SlackFileUploadRequest)
    requires Base64.Decode(payload.fileDataBase64).Some?
    ensures var data := Base64.Decode(payload.fileDataBase64).value;
      var h := UploadFileBase64(state, payload);
      var token, base := state.settings.slackBotToken, state.settings.slackApiBaseUrl;
      && 1 <= |h.trace| <= 3
      && h.trace[0] == SlackService.GetUploadUrlCall(token, base, payload.fileName, |data|)
      && (|h.trace| >= 2 ==> h.trace[1].body == SlackService.RawBytes(data))
      && (|h.trace| == 3 ==> exists fileId ::
            h.trace[2] == SlackService.CompleteUploadCall(token, base, fileId, payload.fileName, payload.channel))
  {
    var data := Base64.Decode(payload.fileDataBase64).value;
    var token, base := state.settings.slackBotToken, state.settings.slackApiBaseUrl;
    SlackService.UploadTraceIsProtocolPrefix(state.client, token, base, data, payload.fileName, payload.channel);
    var h := UploadFileBase64(state, payload);
    if |h.trace| == 3 {
      var slot := SlackService.SlotFrom(SlackService.ReceiveParsed(state.client,
        SlackService.GetUploadUrlCall(token, base, payload.fileName, |data|)));
      assert h.trace[2] == SlackService.CompleteUploadCall(token, base, slot.value.0, payload.fileName, payload.channel);
    }
  }

  /** On success both handlers answer 200 with the service's text as a JSON string. */
  lemma SuccessCarriesServiceText(state: AppState, payload: SlackFileUploadRequest, message: SlackMessageRequest)
    ensures var s := SlackService.PostMessage(state.client, state.settings.slackBotToken,
      state.settings.slackApiBaseUrl, message.channel, message.text);
      s.result.Ok? ==>
        HandlerResponse(PostMessage(state, message).result) == Response(200, JsonHeaders(), Serialize(Str(s.result.value)))
    ensures Base64.Decode(payload.fileDataBase64).Some? ==>
      var s := SlackService.SendSingleFile(state.client, state.settings.slackBotToken,
        state.settings.slackApiBaseUrl, Base64.Decode(payload.fileDataBase64).value,
        payload.fileName, payload.channel);
      s.result.Ok? ==>
        HandlerResponse(UploadFileBase64(state, payload).result) == Response(200, JsonHeaders(), Serialize(Str(s.result.value)))
  {
  }

  /** The bodies the stub in src/bin/api_tests/support.rs answers with, and their values. */
  const StubSlotText: string := "{\"file_id\":\"F123456\",\"ok\":true,\"upload_url\":\"http://stub/upload/F123456\"}"
  const StubOkText: string := "{\"files\":[],\"ok\":true}"
  const StubSlot: JsonValue := Object([Member("file_id", Str("F123456")), Member("ok", Bool(true)),
                                       Member("upload_url", Str("http://stub/upload/F123456"))])
  const StubOk: JsonValue := Object([Member("files", Array([])), Member("ok", Bool(true))])

  /** A decoder that knows exactly the stub's two bodies. */
  function StubDecode(t: string): Result<JsonValue, string> {
    if t == StubSlotText then Ok(StubSlot)
    else if t == StubOkText then Ok(StubOk)
    else Err("expected value")
  }

  /** The stub's bodies decode to objects in key order. */
  lemma StubDecodesWellFormed()
    ensures WellFormed(StubSlot) && WellFormed(StubOk)
    ensures forall t :: DecodesWellFormed(StubDecode, t)
  {
    assert KeyLess("file_id", "ok") && KeyLess("file_id", "upload_url") && KeyLess("ok", "upload_url");
    assert KeyLess("files", "ok");
  }

  /**
   * A collaborator shaped like that stub: the upload-URL call answers with
   * a slot, every other call with an `ok` envelope; both decoders know
   * exactly those two bodies.
   */
  function StubSlack(): SlackService.World {
    StubDecodesWellFormed();
    SlackService.World(
      (c: SlackService.OutboundCall) =>
        if c.verb == SlackService.HttpGet then SlackService.Delivered(200, StubSlotText)
        else SlackService.Delivered(200, StubOkText),
      StubDecode,
      StubDecode)
  }

  /** Phase 1 against the stub yields the stub's slot. */
  lemma StubSlotForHello(base: string)
    ensures SlackService.SlotFrom(SlackService.ReceiveParsed(StubSlack(),
              SlackService.GetUploadUrlCall("test-token", base, "hello.txt", 5)))
         == Ok(("F123456", "http://stub/upload/F123456"))
  {
    var call := SlackService.GetUploadUrlCall("test-token", base, "hello.txt", 5);
    assert SlackService.ReceiveParsed(StubSlack(), call) == Ok(StubSlot);
    assert Get(StubSlot, "ok") == Bool(true);
    assert Get(StubSlot, "upload_url") == Str("http://stub/upload/F123456");
    assert Get(StubSlot, "file_id") == Str("F123456");
  }

  /** Phase 3 against the stub succeeds with the stub's body text. */
  lemma StubCompletes(call: SlackService.OutboundCall)
    requires call.verb == SlackService.HttpPost
    ensures SlackService.CompletionFrom(StubSlack(), StubSlack().send(call)) == Ok(StubOkText)
  {
    assert StubSlotText != StubOkText by {
      assert |StubOkText| < |StubSlotText|;
    }
    assert Get(StubOk, "ok") == Bool(true);
  }

  /** The orchestrator against the stub, given the five bytes of "hello". */
  lemma StubUploadsHello(base: string)
    ensures var data: seq<byte> := [104, 101, 108, 108, 111];
      var o := SlackService.SendSingleFile(StubSlack(), "test-token", base, data, "hello.txt", "C123456");
      && o.result == Ok(StubOkText)
      && o.trace == [SlackService.GetUploadUrlCall("test-token", base, "hello.txt", 5),
                     SlackService.UploadContentCall("http://stub/upload/F123456", data),
                     SlackService.CompleteUploadCall("test-token", base, "F123456", "hello.txt", "C123456")]
  {
    var data: seq<byte> := [104, 101, 108, 108, 111];
    StubSlotForHello(base);
    var upload := SlackService.UploadFile(StubSlack(), "test-token", base, "hello.txt", data);
    assert upload.result == Ok(("F123456", "http://stub/upload/F123456"));
    var third := SlackService.CompleteUploadCall("test-token", base, "F123456", "hello.txt", "C123456");
    StubCompletes(third);
  }

  /**
   * The end-to-end upload of "hello": the three phases run in order and the
   * handler answers with the completion body exactly as received.
   */
  lemma UploadHelloScenario(base: string)
    ensures var state := AppState(Config.Settings("test-token", base), StubSlack());
      var h := UploadFileBase64(state, SlackFileUploadRequest("hello.txt", "aGVsbG8=", "C123456"));
      && h.result == Ok(StubOkText)
      && |h.trace| == 3
      && h.trace[1] == SlackService.UploadContentCall("http://stub/upload/F123456", [104, 101, 108, 108, 111])
      && h.trace[2] == SlackService.CompleteUploadCall("test-token", base, "F123456", "hello.txt", "C123456")
  {
    Base64.DecodeHello();
    StubUploadsHello(base);
  }

  /**
   * The end-to-end rejection of "not_base64": a 400 with the fixed message,
   * no outbound call, and (as the error body is written) no `detail` member
   * for a client to read.
   */
  lemma InvalidBase64Scenario(state: AppState)
    ensures var h := UploadFileBase64(state, SlackFileUploadRequest("bad.txt", "not_base64", "C123456"));
      && h == HandlerOutcome(Err(BadRequest(DecodeFailureMessage)), [])
      && HandlerResponse(h.result).status == 400
      && Get(ErrorBody(h.result.error), "detail") == Null
  {
    Base64.DecodeRejectsNotBase64();
    BodyLacksProblemDetailsFields(BadRequest(DecodeFailureMessage));
  }
}
