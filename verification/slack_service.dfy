/**
 * The Slack Web API client (src/service/slack_service.rs): the message
 * relay `post_message` and the three-phase upload `upload_file` +
 * `send_single_file_to_slack`.
 *
 * The network and the JSON decoders are a `World` the caller supplies: the
 * collaborator's reply to each outbound call, and the two ways a body text
 * becomes a value. Every operation returns its result together with the ordered list
 * of calls it issued, so what was and was not sent can be stated.
 */
module SlackService {
  import opened Common
  import opened Json
  import Config

  datatype Verb = HttpGet | HttpPost

  datatype CallBody = NoBody | JsonBody(json: JsonValue) | RawBytes(data: seq<byte>)

  /** One outbound HTTP request: `bearer` is the `bearer_auth` token, if any. */
  datatype OutboundCall = OutboundCall(
    verb: Verb,
    url: string,
    bearer: Option<string>,
    query: seq<(string, string)>,
    contentType: Option<string>,
    body: CallBody)

  /**
   * What a call yields: a transport failure (including failing to read the
   * body), or a delivered response with its status and body text.
   */
  datatype Reply = TransportError(message: string) | Delivered(status: int, text: string)

  /**
   * `readJson` is reqwest's `Response::json::<Value>()` on a delivered
   * body, with reqwest's wording of a decode error; `parse` is
   * `serde_json::from_str` on the text `Response::text()` gave.
   */
  datatype World = World(send: OutboundCall -> Reply, readJson: Decoder, parse: Decoder)

  /** A result (an error is its `to_string()` text) and the calls issued, in order. */
  datatype Outcome<T> = Outcome(result: Result<T, string>, trace: seq<OutboundCall>)

  /** `format!("{}/{}", base, api_method)` */
  function Endpoint(base: string, apiMethod: string): string {
    base + "/" + apiMethod
  }

  const PostMessageMethod: string := "chat.postMessage"
  const GetUploadUrlMethod: string := "files.getUploadURLExternal"
  const CompleteUploadMethod: string := "files.completeUploadExternal"

  /*
   * The request bodies are `json!` objects; serde_json's default map keeps
   * members in key order, which is the order written here.
   */

  function PostMessageCall(token: string, base: string, channel: string, text: string): OutboundCall {
    OutboundCall(HttpPost, Endpoint(base, PostMessageMethod), Some(token), [], Some("application/json"),
      JsonBody(Object([Member("channel", Str(channel)), Member("text", Str(text))])))
  }

  /** Phase 1: a GET with the file name and its length in bytes as query parameters. */
  function GetUploadUrlCall(token: string, base: string, fileName: string, length: nat): OutboundCall {
    OutboundCall(HttpGet, Endpoint(base, GetUploadUrlMethod), Some(token),
      [("filename", fileName), ("length", DecimalString(length))], None, NoBody)
  }

  /** Phase 2: the raw bytes to the pre-signed URL, without the bearer token. */
  function UploadContentCall(uploadUrl: string, data: seq<byte>): OutboundCall {
    OutboundCall(HttpPost, uploadUrl, None, [], Some("application/octet-stream"), RawBytes(data))
  }

  /** Phase 3: attach the uploaded file to the channel. */
  function CompleteUploadCall(token: string, base: string, fileId: string, fileName: string, channel: string): OutboundCall {
    OutboundCall(HttpPost, Endpoint(base, CompleteUploadMethod), Some(token), [], Some("application/json"),
      JsonBody(Object([
        Member("channel_id", Str(channel)),
        Member("files", Array([Object([Member("id", Str(fileId)), Member("title", Str(fileName))])]))])))
  }

  /** `send().await?.json::<Value>().await?`: either step may fail. */
  function ReceiveJson(w: World, call: OutboundCall): Result<JsonValue, string>
  {
    match w.send(call)
    case TransportError(m) => Err(m)
    case Delivered(_, text) => w.readJson(text)
  }

  /** `send().await?.text().await?` then `serde_json::from_str`: either step may fail. */
  function ReceiveParsed(w: World, call: OutboundCall): Result<JsonValue, string>
  {
    match w.send(call)
    case TransportError(m) => Err(m)
    case Delivered(_, text) => w.parse(text)
  }

  /** `response["error"].as_str().unwrap_or("unknown_error")` */
  function ErrorField(v: JsonValue): (m: string)
    ensures Get(v, "error").Str? ==> m == Get(v, "error").s
    ensures !Get(v, "error").Str? ==> m == "unknown_error"
  {
    AsStr(Get(v, "error")).GetOr("unknown_error")
  }

  /**
   * `post_message`: one POST of `{channel, text}`; succeeds only on an
   * envelope whose `ok` is the JSON `true`, and then yields the envelope
   * re-serialised (not the body text as received).
   */
  function PostMessage(w: World, token: string, base: string, channel: string, text: string): (o: Outcome<string>)
    ensures o.trace == [PostMessageCall(token, base, channel, text)]
    ensures var reply := ReceiveJson(w, o.trace[0]);
      && (reply.Err? ==> o.result == Err(reply.error))
      && (reply.Ok? && Get(reply.value, "ok") == Bool(true) ==> o.result == Ok(Serialize(reply.value)))
      && (reply.Ok? && Get(reply.value, "ok") != Bool(true) ==> o.result == Err(ErrorField(reply.value)))
  {
    var call := PostMessageCall(token, base, channel, text);
    FlagSetIffTrue(if ReceiveJson(w, call).Ok? then ReceiveJson(w, call).value else Null, "ok");
    match ReceiveJson(w, call)
    case Err(e) => Outcome(Err(e), [call])
    case Ok(response) =>
      if !FlagSet(response, "ok") then Outcome(Err(ErrorField(response)), [call])
      else Outcome(Ok(Serialize(response)), [call])
  }

  /** The outcome of phase 1: the slot `(file_id, upload_url)` or the error text. */
  function SlotFrom(reply: Result<JsonValue, string>): (r: Result<(string, string), string>)
    ensures reply.Err? ==> r == Err(reply.error)
    ensures reply.Ok? && Get(reply.value, "ok") != Bool(true) ==> r == Err(Serialize(Get(reply.value, "error")))
    ensures reply.Ok? && Get(reply.value, "ok") == Bool(true) ==>
      var v := reply.value;
      && (!Get(v, "upload_url").Str? ==> r == Err("missing upload_url"))
      && (Get(v, "upload_url").Str? && !Get(v, "file_id").Str? ==> r == Err("missing file_id"))
      && (Get(v, "upload_url").Str? && Get(v, "file_id").Str? ==>
            r == Ok((Get(v, "file_id").s, Get(v, "upload_url").s)))
  {
    match reply
    case Err(e) => Err(e)
    case Ok(response) =>
      FlagSetIffTrue(response, "ok");
      if !FlagSet(response, "ok") then Err(Serialize(Get(response, "error")))
      else match AsStr(Get(response, "upload_url"))
        case None => Err("missing upload_url")
        case Some(uploadUrl) =>
          match AsStr(Get(response, "file_id"))
          case None => Err("missing file_id")
          case Some(fileId) => Ok((fileId, uploadUrl))
  }

  /**
   * `upload_file`: phase 1, then phase 2 only if phase 1 produced a slot.
   * Phase 2 fails only on a transport error; its status and body are not
   * looked at. On success the result is `(file_id, upload_url)`.
   */
  function UploadFile(w: World, token: string, base: string, fileName: string, data: seq<byte>): (o: Outcome<(string, string)>)
    ensures 1 <= |o.trace| <= 2
    ensures o.trace[0] == GetUploadUrlCall(token, base, fileName, |data|)
    ensures var slot := SlotFrom(ReceiveParsed(w, o.trace[0]));
      && (slot.Err? ==> o == Outcome(Err(slot.error), [o.trace[0]]))
      && (slot.Ok? ==> |o.trace| == 2 && o.trace[1] == UploadContentCall(slot.value.1, data))
      && (slot.Ok? && w.send(o.trace[1]).TransportError? ==> o.result == Err(w.send(o.trace[1]).message))
      && (slot.Ok? && w.send(o.trace[1]).Delivered? ==> o.result == Ok(slot.value))
  {
    var first := GetUploadUrlCall(token, base, fileName, |data|);
    match SlotFrom(ReceiveParsed(w, first))
    case Err(e) => Outcome(Err(e), [first])
    case Ok((fileId, uploadUrl)) =>
      var second := UploadContentCall(uploadUrl, data);
      match w.send(second)
      case TransportError(e) => Outcome(Err(e), [first, second])
      case Delivered(_, _) => Outcome(Ok((fileId, uploadUrl)), [first, second])
  }

  /** The outcome of phase 3: the body text as received, or the error text. */
  function CompletionFrom(w: World, reply: Reply): (r: Result<string, string>)
    ensures reply.TransportError? ==> r == Err(reply.message)
    ensures reply.Delivered? && w.parse(reply.text).Err? ==> r == Err(w.parse(reply.text).error)
    ensures reply.Delivered? && w.parse(reply.text).Ok? ==>
      var v := w.parse(reply.text).value;
      && (Get(v, "ok") == Bool(true) ==> r == Ok(reply.text))
      && (Get(v, "ok") != Bool(true) ==> r == Err(Serialize(Get(v, "error"))))
  {
    match reply
    case TransportError(e) => Err(e)
    case Delivered(_, responseText) =>
      match w.parse(responseText)
      case Err(e) => Err(e)
      case Ok(response) =>
        FlagSetIffTrue(response, "ok");
        if FlagSet(response, "ok") then Ok(responseText)
        else Err(Serialize(Get(response, "error")))
  }

  /**
   * `send_single_file_to_slack`: `upload_file`, then the completion call
   * with the file id from phase 1, only if both earlier phases succeeded.
   */
  function SendSingleFile(w: World, token: string, base: string, data: seq<byte>, fileName: string, channel: string): (o: Outcome<string>)
    ensures var upload := UploadFile(w, token, base, fileName, data);
      && (upload.result.Err? ==> o == Outcome(Err(upload.result.error), upload.trace))
      && (upload.result.Ok? ==>
            var third := CompleteUploadCall(token, base, upload.result.value.0, fileName, channel);
            o == Outcome(CompletionFrom(w, w.send(third)), upload.trace + [third]))
  {
    var upload := UploadFile(w, token, base, fileName, data);
    match upload.result
    case Err(e) => Outcome(Err(e), upload.trace)
    case Ok((fileId, _)) =>
      var third := CompleteUploadCall(token, base, fileId, fileName, channel);
      Outcome(CompletionFrom(w, w.send(third)), upload.trace + [third])
  }

  /** The three calls of the upload protocol are told apart by verb, URL or token. */
  lemma ProtocolCallsDistinct(token: string, base: string, fileName: string, length: nat,
                              uploadUrl: string, data: seq<byte>, fileId: string, channel: string)
    ensures GetUploadUrlCall(token, base, fileName, length) != UploadContentCall(uploadUrl, data)
    ensures GetUploadUrlCall(token, base, fileName, length) != CompleteUploadCall(token, base, fileId, fileName, channel)
    ensures UploadContentCall(uploadUrl, data) != CompleteUploadCall(token, base, fileId, fileName, channel)
  {
  }

  /**
   * The calls of an upload are always a prefix of [get upload URL, upload
   * content, complete], each issued at most once; a failure in phase k
   * leaves exactly k calls, and only a full run can succeed.
   */
  lemma {:induction false} UploadTraceIsProtocolPrefix(w: World, token: string, base: string,
                                                       data: seq<byte>, fileName: string, channel: string)
    ensures var o := SendSingleFile(w, token, base, data, fileName, channel);
      var slot := SlotFrom(ReceiveParsed(w, GetUploadUrlCall(token, base, fileName, |data|)));
      && 1 <= |o.trace| <= 3
      && o.trace[0] == GetUploadUrlCall(token, base, fileName, |data|)
      && (slot.Err? <==> |o.trace| == 1)
      && (slot.Err? ==> o.result == Err(slot.error))
      && (|o.trace| >= 2 ==> slot.Ok? && o.trace[1] == UploadContentCall(slot.value.1, data))
      && (|o.trace| == 2 ==> o.result == Err(w.send(o.trace[1]).message))
      && (|o.trace| == 3 ==>
            && slot.Ok? && w.send(o.trace[1]).Delivered?
            && o.trace[2] == CompleteUploadCall(token, base, slot.value.0, fileName, channel))
      && (o.result.Ok? ==> |o.trace| == 3)
      && (forall i, j :: 0 <= i < j < |o.trace| ==> o.trace[i] != o.trace[j])
  {
    var o := SendSingleFile(w, token, base, data, fileName, channel);
    var upload := UploadFile(w, token, base, fileName, data);
    var slot := SlotFrom(ReceiveParsed(w, GetUploadUrlCall(token, base, fileName, |data|)));
    if slot.Ok? {
      ProtocolCallsDistinct(token, base, fileName, |data|, slot.value.1, data, slot.value.0, channel);
      if upload.result.Ok? {
        assert o.trace == upload.trace + [CompleteUploadCall(token, base, slot.value.0, fileName, channel)];
      }
    }
  }

  /**
   * Phase 2 is judged by transport success alone: worlds that agree on
   * every authenticated call, and on which unauthenticated calls fail in
   * transport and how, produce the same upload outcome whatever status and
   * body the pre-signed URL answers with.
   */
  lemma Phase2ReplyIgnored(w1: World, w2: World, token: string, base: string,
                           data: seq<byte>, fileName: string, channel: string)
    requires w1.parse == w2.parse
    requires forall c: OutboundCall :: c.bearer.Some? ==> w1.send(c) == w2.send(c)
    requires forall c: OutboundCall :: c.bearer.None? ==>
      (w1.send(c).Delivered? <==> w2.send(c).Delivered?) &&
      (w1.send(c).TransportError? ==> w1.send(c) == w2.send(c))
    ensures SendSingleFile(w1, token, base, data, fileName, channel) ==
            SendSingleFile(w2, token, base, data, fileName, channel)
  {
    var first := GetUploadUrlCall(token, base, fileName, |data|);
    assert w1.send(first) == w2.send(first);
    assert ReceiveParsed(w1, first) == ReceiveParsed(w2, first);
    var slot := SlotFrom(ReceiveParsed(w1, first));
    if slot.Ok? {
      var second := UploadContentCall(slot.value.1, data);
      assert w1.send(second).Delivered? == w2.send(second).Delivered?;
      var upload := UploadFile(w1, token, base, fileName, data);
      assert upload == UploadFile(w2, token, base, fileName, data);
      if upload.result.Ok? {
        var third := CompleteUploadCall(token, base, slot.value.0, fileName, channel);
        assert w1.send(third) == w2.send(third);
        assert CompletionFrom(w1, w1.send(third)) == CompletionFrom(w2, w2.send(third));
      }
    }
  }

  /** The `length` query parameter of phase 1 reads back as the byte count. */
  lemma LengthParameterIsByteCount(token: string, base: string, fileName: string, data: seq<byte>)
    requires |data| <= UsizeMax
    ensures var q := GetUploadUrlCall(token, base, fileName, |data|).query;
      |q| == 2 && q[0] == ("filename", fileName) && q[1].0 == "length" && ParseUsize(q[1].1) == Some(|data|)
  {
    ParseUsizeOfDecimal(|data|);
  }

  /**
   * The relay decodes its reply with reqwest, the upload phases with
   * `serde_json::from_str`: with the same replies, the relay's outcome does
   * not depend on the phases' decoder, nor the upload's on the relay's.
   */
  lemma DecodersKeptApart(w1: World, w2: World, token: string, base: string, channel: string, text: string,
                          data: seq<byte>, fileName: string)
    requires w1.send == w2.send
    ensures w1.readJson == w2.readJson ==>
      PostMessage(w1, token, base, channel, text) == PostMessage(w2, token, base, channel, text)
    ensures w1.parse == w2.parse ==>
      SendSingleFile(w1, token, base, data, fileName, channel) == SendSingleFile(w2, token, base, data, fileName, channel)
  {
    var call := PostMessageCall(token, base, channel, text);
    assert w1.send(call) == w2.send(call);
    if w1.parse == w2.parse {
      Phase2ReplyIgnored(w1, w2, token, base, data, fileName, channel);
    }
  }

  /** The `json!` request bodies are objects in key order, as `serde_json` builds them. */
  lemma RequestBodiesWellFormed(token: string, base: string, channel: string, text: string,
                                fileId: string, fileName: string)
    ensures WellFormed(PostMessageCall(token, base, channel, text).body.json)
    ensures WellFormed(CompleteUploadCall(token, base, fileId, fileName, channel).body.json)
  {
    assert KeyLess("channel", "text");
    assert KeyLess("channel_id", "files");
    assert KeyLess("id", "title");
    assert WellFormed(Object([Member("id", Str(fileId)), Member("title", Str(fileName))]));
  }

  /**
   * The relay and the upload phases word the same envelope's error
   * differently: the relay gives the bare string or "unknown_error", the
   * phases give its JSON rendering, quoted, or "null".
   */
  lemma EnvelopeErrorWording(w: World, status: int, body: string, v: JsonValue, text: string)
    requires Get(v, "ok") != Bool(true)
    requires Get(v, "error") == Str(text) && IsPlain(text)
    requires w.parse(body) == Ok(v)
    ensures ErrorField(v) == text
    ensures SlotFrom(Ok(v)) == Err("\"" + text + "\"")
    ensures CompletionFrom(w, Delivered(status, body)) == Err("\"" + text + "\"")
  {
    SerializePlainStr(text);
  }

  /** Without an `error` member the phases report the text "null". */
  lemma MissingErrorWording(w: World, status: int, body: string, v: JsonValue)
    requires Get(v, "ok") != Bool(true) && Get(v, "error") == Null
    requires w.parse(body) == Ok(v)
    ensures ErrorField(v) == "unknown_error"
    ensures SlotFrom(Ok(v)) == Err("null")
    ensures CompletionFrom(w, Delivered(status, body)) == Err("null")
  {
  }

  /**
   * Joining a base that does not end in `/` to a name without `/` adds no
   * `//`: a doubled slash can only lie inside the base.
   */
  lemma JoinAddsNoDoubleSlash(base: string, apiMethod: string)
    requires base == [] || base[|base| - 1] != '/'
    requires forall k :: 0 <= k < |apiMethod| ==> apiMethod[k] != '/'
    ensures var url := Endpoint(base, apiMethod);
      forall i :: 0 <= i < |url| - 1 && url[i] == '/' && url[i + 1] == '/' ==> i + 1 < |base|
  {
    var url := Endpoint(base, apiMethod);
    forall i | 0 <= i && |base| <= i + 1 < |url| ensures !(url[i] == '/' && url[i + 1] == '/') {
      if i + 1 == |base| {
        assert url[i] == base[|base| - 1];
      } else {
        assert url[i + 1] == apiMethod[i - |base|];
      }
    }
  }

  /**
   * With the base URL from `Settings::new`, every endpoint URL has no `//`
   * at or after the join.
   */
  lemma EndpointJoinHasNoDoubleSlash(env: map<string, string>, apiMethod: string)
    requires Config.New(env).Ok?
    requires apiMethod == PostMessageMethod || apiMethod == GetUploadUrlMethod || apiMethod == CompleteUploadMethod
    ensures var base := Config.New(env).value.slackApiBaseUrl;
      var url := Endpoint(base, apiMethod);
      forall i :: 0 <= i < |url| - 1 && url[i] == '/' && url[i + 1] == '/' ==> i + 1 < |base|
  {
    MethodNamesHaveNoSlash(apiMethod);
    JoinAddsNoDoubleSlash(Config.New(env).value.slackApiBaseUrl, apiMethod);
  }

  lemma MethodNamesHaveNoSlash(apiMethod: string)
    requires apiMethod == PostMessageMethod || apiMethod == GetUploadUrlMethod || apiMethod == CompleteUploadMethod
    ensures forall k :: 0 <= k < |apiMethod| ==> apiMethod[k] != '/'
  {
  }
}
