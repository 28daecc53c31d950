# slack.rs relay core, modelled in Dafny

The service is a small HTTP relay in front of the Slack Web API. It has two
routes:

- One posts a text message to a channel (`chat.postMessage`).
- One takes a base64-encoded file and shares it to a channel through Slack's
  three-step external upload protocol:
  1. `files.getUploadURLExternal` (GET) returns a `file_id` and a pre-signed `upload_url`.
  2. The bytes are POSTed to that `upload_url`.
  3. `files.completeUploadExternal` (POST) shares the file to the channel.

Around the handlers sit:

- configuration loaded from the environment;
- an error type that renders failures as JSON responses;
- a request-tracing middleware, which resolves or mints an `x-request-id`,
  logs the request, and echoes the id on the response;
- a problem-details middleware, which replaces plain error responses.

## How the model is built

| file | module | what it models |
|---|---|---|
| `common.dfy` | `Common` | `Option`, `Result`, bytes, decimal rendering (`usize::to_string`) and parsing (`usize::from_str`) |
| `json.dfy` | `Json` | the fragment of `serde_json::Value` the core uses: indexing with `v["k"]` (`Null` when absent), `as_bool`, `as_str`, compact `to_string` |
| `http.dfy` | `Http` | status classes, header values (`to_str`, `from_str`), requests and responses |
| `uuid.dfy` | `Uuid` | `Uuid::new_v4().to_string()`, with the 16 random bytes as a parameter |
| `base64.dfy` | `Base64` | the `STANDARD` engine (padded, canonical), encode and decode |
| `config.dfy` | `Config` | `Settings::new`, with the environment as a map |
| `api_error.dfy` | `ApiErrors` | `ApiError`, its `Display` text and `into_response` |
| `slack_service.dfy` | `SlackService` | the three service functions |
| `slack_handler.dfy` | `SlackHandler` | the two handlers |
| `request_tracing.dfy` | `RequestTracing` | the tracing middleware, as a method |
| `problem_details.dfy` | `ProblemDetails` | the problem-details middleware |

The outside world is a `World` value with three functions:

- `send` answers each outbound call with a transport error or a status and a body text.
- `readJson` decodes a delivered body the way `reqwest`'s `Response::json::<Value>()` does. `post_message` uses it.
- `parse` is `serde_json::from_str` on the text `Response::text()` returned. Phases 1 and 3 of the upload use it.

Both decoders have the type `Json.Decoder`, which promises that every value
they return is well formed (`Json.WellFormed`). In a well-formed value every
object holds one member per key, in increasing key order, at any depth. That
is how `serde_json`'s default map (a `BTreeMap`) holds an object, so a key
repeated in the text leaves a single member. `Json.GetWellFormedMember` shows
that `v["k"]` on such an object finds that member.

Each service and handler function returns its result together with the
sequence of outbound calls it issued. That makes "which calls went out, in
which order" something a contract can state.

The tracing middleware is an imperative method. It receives the next stage as
a function from request to response. It returns:

- the request it handed on;
- the response it gave back;
- the span's recorded fields;
- the two log events.

The `json!` request bodies are written in key order too, as
`SlackService.RequestBodiesWellFormed` states. Response bodies are text.

## Model

| member | source | states |
|---|---|---|
| Common.DecimalString | src/service/slack_service.rs:69 | `len().to_string()`: a non-empty digit string with no leading zero, whose decimal value is the number |
| Common.HexDigit | src/middleware/request_tracing.rs:25 | a lowercase hex digit: `0` to `9` for values below 10, `a` to `f` for 10 to 15 |
| Common.ParseUsize | src/middleware/request_tracing.rs:54-58 | `parse::<usize>()` succeeds if and only if the text is an optional `+` followed by at least one digit, with a value at most 2^64-1; the value is the digits' decimal value |
| Common.ParseUsizeAcceptsLeadingZeros | src/middleware/request_tracing.rs:54-58 | leading zeros and a lone `+0` are accepted (`007` is 7); the empty text, a bare `+` and a minus sign are not |
| Common.ParseUsizeRejectsNonDigits | src/middleware/request_tracing.rs:58 | any character that is neither a digit nor a leading `+` makes the parse fail |
| Common.ParseUsizeOfDecimal | src/service/slack_service.rs:67-70 | the rendered length parses back to the same number, with or without a leading `+` (round trip) |
| Json.Lookup | src/service/slack_service.rs:37 | a key is found exactly when some member carries it; the value found belongs to a member with that key |
| Json.Get | src/service/slack_service.rs:37-38 | `v["k"]` is `Null` for a non-object or a missing key, and the member's value otherwise |
| Json.KeyLessIrreflexive | src/service/slack_service.rs:88 | no key sorts before itself |
| Json.WellFormedKeysDistinct | src/service/slack_service.rs:88 | a well-formed object, as `from_str` builds it, never holds the same key twice |
| Json.GetWellFormedMember | src/service/slack_service.rs:88-90 | on a well-formed object, `v["k"]` for a member's key is that member's value |
| Json.FlagSetIffTrue | src/service/slack_service.rs:37 | `["ok"].as_bool().unwrap_or(false)` holds exactly when the member is the JSON `true` |
| Json.EscapeChar | src/service/slack_service.rs:97 | characters other than controls, `"` and `\` are copied; the others become an escape sequence |
| Json.EscapePlain | src/service/slack_service.rs:97 | escaping leaves plain text unchanged |
| Json.Serialize | src/service/slack_service.rs:55 | `to_string` of any value is non-empty |
| Json.SerializePlainStr | src/service/slack_service.rs:97 | a plain string renders as itself between double quotes |
| Http.ToStr | src/middleware/request_tracing.rs:23 | `to_str` succeeds exactly when every byte is a tab or visible ASCII, and then yields those bytes as characters |
| Http.FromStrAccepts | src/middleware/request_tracing.rs:94 | `from_str` accepts every string of tabs and non-control characters, non-ASCII included |
| Http.FromStrOfToStr | src/middleware/request_tracing.rs:92-95 | a value read with `to_str` converts back with `from_str` to the very same bytes (round trip) |
| Http.ToStrOfFromStr | src/middleware/request_tracing.rs:170-173 | printable ASCII text converted with `from_str` reads back unchanged with `to_str` (round trip) |
| Http.HeaderText | src/middleware/request_tracing.rs:20-23 | `get(name).and_then(to_str)` is present exactly when the header is there and readable, and is then its text |
| Uuid.HexBytes | src/middleware/request_tracing.rs:25 | two lowercase hex digits per byte, the first of them the first byte's high nibble |
| Uuid.HexBytesDigits | src/middleware/request_tracing.rs:25 | byte i is written at positions 2i (high nibble) and 2i+1 (low nibble) |
| Uuid.V4Bytes | src/middleware/request_tracing.rs:25 | version nibble 4 in byte 6, RFC 4122 variant bits in byte 8, every other byte is random |
| Uuid.HyphenatedShape | src/middleware/request_tracing.rs:25 | the text form has hyphens exactly at 8, 13, 18 and 23, with lowercase hex elsewhere |
| Uuid.NewV4String | src/middleware/request_tracing.rs:25 | the result is a 36-character v4 UUID text, with `4` at 14 and one of `89ab` at 19 |
| Base64.SextetOf | src/handlers/slack_handler.rs:50-51 | a recognised character has a value below 64 and is the alphabet's character for that value |
| Base64.SextetOfAlphabetChar | src/handlers/slack_handler.rs:50-51 | every alphabet character decodes to its own index |
| Base64.Sextets | src/handlers/slack_handler.rs:50-51 | three bytes give four values below 64 |
| Base64.OctetsOfSextets | src/handlers/slack_handler.rs:50-51 | cutting three bytes into sextets and joining them gives the bytes back; zero trailing bytes leave zero trailing bits |
| Base64.SextetsOfOctets | src/handlers/slack_handler.rs:50-51 | joining sextets into bytes and cutting them again gives the sextets back, also for padded groups whose dropped bits are zero |
| Base64.Encode | src/bin/api_tests/support.rs:133-135 | padded output, a multiple of four characters |
| Base64.DecodeGroup | src/handlers/slack_handler.rs:50-51 | a quartet yields 1 to 3 bytes, and exactly 3 unless it is the last |
| Base64.DecodeEncodeGroup | src/handlers/slack_handler.rs:50-51 | one group decodes back to the bytes it encodes |
| Base64.DecodeEncode | src/bin/api_tests/support.rs:133-135 | `Base64.Decode` (the handler's `STANDARD.decode`) of what the test helper encodes gives back the bytes (round trip) |
| Base64.EncodeDecodeGroup | src/handlers/slack_handler.rs:50-51 | an accepted quartet is the canonical encoding of its bytes |
| Base64.EncodeDecode | src/handlers/slack_handler.rs:50-51 | any text `Base64.Decode` accepts is the canonical encoding of what it decodes to, so no two texts decode alike (round trip) |
| Base64.DecodeHello | src/bin/api_tests/slack_api.rs:38 | `aGVsbG8=` decodes to the bytes of `hello` |
| Base64.DecodeRejectsNotBase64 | src/bin/api_tests/slack_api.rs:70 | `not_base64` is rejected |
| Config.SettingErrorMessage | src/config/settings.rs:9-13 | the message is `Missing environment variable ` followed by the name |
| Config.TrimTrailingSlashes | src/config/settings.rs:19-22 | `trim_end_matches('/')` returns a prefix that does not end in `/`, and only `/` was removed |
| Config.TrimIdempotent | src/config/settings.rs:21 | trimming twice equals trimming once |
| Config.TrimUnique | src/config/settings.rs:21 | the trimmed string is the only prefix with those two properties |
| Config.New | src/config/settings.rs:16-27 | settings are returned if and only if `SLACK_BOT_TOKEN` is present, and its absence is the only error; the token is kept verbatim; the base URL defaults to `https://slack.com/api`, otherwise it is the variable minus only trailing slashes, never ending in `/` |
| ApiErrors.Display | src/errors/api_error.rs:9-15 | `Bad Request: ` plus the message, or the fixed `Internal Server Error` |
| ApiErrors.IntoResponse | src/errors/api_error.rs:22-37 | 400 with the message or 500 with the fixed text, as `{"message": ...}` under `application/json` |
| ApiErrors.InternalCauseHidden | src/errors/api_error.rs:29-34 | two internal errors give the same response whatever their causes |
| ApiErrors.BodyLacksProblemDetailsFields | src/errors/api_error.rs:17-20 | the body has `message` but no `type`, `title`, `status` or `detail` member, so a default-empty read of `detail` gives "" |
| SlackService.ErrorField | src/service/slack_service.rs:38-41 | the `error` string, or `unknown_error` when it is absent or not a string |
| SlackService.PostMessage | src/service/slack_service.rs:8-56 | exactly one POST of `{channel, text}` with the bearer token to `<base>/chat.postMessage`; a transport failure or a `.json()` decode failure passes through; `ok` not true gives the error field; otherwise the envelope re-serialised |
| SlackService.SlotFrom | src/service/slack_service.rs:88-108 | `ok` not true gives the JSON rendering of `error`; then a missing `upload_url` is checked before a missing `file_id`; otherwise `(file_id, upload_url)` |
| SlackService.UploadFile | src/service/slack_service.rs:59-128 | phase 1 always, phase 2 (the bytes to the upload URL, no token) only after a slot; phase 2 fails only in transport |
| SlackService.CompletionFrom | src/service/slack_service.rs:159-189 | success returns the body text as received; otherwise the transport, parse or `error` text |
| SlackService.SendSingleFile | src/service/slack_service.rs:131-190 | the upload, then the completion call with phase 1's file id, only when the upload succeeded |
| SlackService.ProtocolCallsDistinct | src/service/slack_service.rs:79-82 | the three protocol calls differ pairwise |
| SlackService.UploadTraceIsProtocolPrefix | src/service/slack_service.rs:139-167 | calls go out in the order 1, 2, 3, each at most once; a failure in phase k leaves exactly k calls; success needs all three |
| SlackService.Phase2ReplyIgnored | src/service/slack_service.rs:115-120 | the upload URL's status and body cannot change the outcome, only whether transport succeeded |
| SlackService.LengthParameterIsByteCount | src/service/slack_service.rs:67-70 | the `length` query parameter parses back to the byte count |
| SlackService.EnvelopeErrorWording | src/service/slack_service.rs:96-98 | the same `error` string is bare from `post_message` but quoted from phase 1 and from phase 3 (lines 186-188) |
| SlackService.MissingErrorWording | src/service/slack_service.rs:96-98 | without an `error` member, `post_message` says `unknown_error` while phase 1 and phase 3 (lines 186-188) say `null` |
| SlackService.DecodersKeptApart | src/service/slack_service.rs:28-35 | with the same replies, `post_message` depends only on the `.json()` decoder and the upload only on `from_str` (lines 88 and 169) |
| SlackService.RequestBodiesWellFormed | src/service/slack_service.rs:144-150 | the `json!` bodies, `{channel, text}` and `{channel_id, files: [{id, title}]}`, are objects in key order |
| SlackService.JoinAddsNoDoubleSlash | src/service/slack_service.rs:15 | joining a base without a trailing `/` to a name without `/` puts any `//` inside the base |
| SlackService.EndpointJoinHasNoDoubleSlash | src/service/slack_service.rs:15 | with a base URL from settings, the join of the base and the method name adds no `//` |
| SlackHandler.AsInternalError | src/handlers/slack_handler.rs:65-68 | a service error becomes an internal error carrying its text; success passes through |
| SlackHandler.PostMessage | src/handlers/slack_handler.rs:23-42 | relays with the configured token and base URL; results and calls are the service's |
| SlackHandler.UploadFileBase64 | src/handlers/slack_handler.rs:44-71 | invalid base64 gives a fixed bad request and no calls; otherwise the decoded bytes go to the orchestrator |
| SlackHandler.HandlerResponse | src/handlers/slack_handler.rs:70 | success answers 200 with the text as a JSON string; an error answers its own response |
| SlackHandler.InvalidBase64IsBadRequest | src/handlers/slack_handler.rs:50-55 | undecodable input gives 400 with `Failed to decode base64 file data` and no outbound call |
| SlackHandler.ServiceFailureIsInternal | src/handlers/slack_handler.rs:36-39 | any failure after decoding is an internal error with the same 500 response whatever the cause |
| SlackHandler.OrchestratorGetsDecodedPayload | src/handlers/slack_handler.rs:57-63 | phase 1 announces the payload's name and decoded size; phase 2 carries the decoded bytes; phase 3 names the title and channel |
| SlackHandler.SuccessCarriesServiceText | src/handlers/slack_handler.rs:41 | on success both handlers answer 200 with the service's text |
| SlackHandler.UploadHelloScenario | src/bin/api_tests/slack_api.rs:32-58 | against a collaborator shaped like the test's mock, uploading `hello` makes three calls and returns the completion text |
| SlackHandler.InvalidBase64Scenario | src/bin/api_tests/slack_api.rs:60-85 | `not_base64` gives a 400 and no calls, and the body has no `detail` for the test to read |
| RequestTracing.ResolveRequestId | src/middleware/request_tracing.rs:20-25 | a readable inbound `x-request-id` (even empty) is kept; otherwise the id is a fresh v4 UUID |
| RequestTracing.ClientIp | src/middleware/request_tracing.rs:40-51 | `x-forwarded-for` if readable, else `x-real-ip` if readable |
| RequestTracing.ContentLength | src/middleware/request_tracing.rs:54-58 | present exactly when the header is readable and parses as a `usize`; it is then that value |
| RequestTracing.Classify | src/middleware/request_tracing.rs:109-166 | 2xx completed (info), 3xx redirected (info), 4xx client error (warn), 5xx server error (error, span `error=server_error`), anything else unexpected (warn) |
| RequestTracing.ClassesPartitionStatuses | src/middleware/request_tracing.rs:109-166 | the classes are exclusive; "Unexpected status" is exactly 1xx and 600 to 999; only 5xx marks the span |
| RequestTracing.ResolvedIdIsValidHeaderValue | src/middleware/request_tracing.rs:92-95 | the `from_str(..).unwrap()` cannot fail; a kept inbound id converts to its original bytes |
| RequestTracing.UuidTextIsHeaderText | src/middleware/request_tracing.rs:170-173 | a minted id is a valid header value that reads back as the same text |
| RequestTracing.TraceRequest | src/middleware/request_tracing.rs:15-176 | the next stage gets the request with only `x-request-id` set; the response is the next stage's with the same id set; a minted id reads back as the UUID; the span fields and the two log events are as classified |
| ProblemDetails.Detail | src/middleware/problem_details.rs:32 | the canonical reason, or `Unknown Error` |
| ProblemDetails.Middleware | src/middleware/problem_details.rs:10-34 | non-error responses and `application/problem+json` responses pass unchanged; other 4xx and 5xx are replaced by the builder's response for the status and detail |
| ProblemDetails.DecisionIgnoresBodyAndOtherHeaders | src/middleware/problem_details.rs:14-33 | a replaced response depends only on its status and content-type header |
| ProblemDetails.ProblemJsonByPrefix | src/middleware/problem_details.rs:21-26 | the media type matches by prefix, so parameters are allowed; a missing or unreadable content type never matches |
| ProblemDetails.ReadBackOfUtf8 | src/middleware/problem_details.rs:24 | text whose encoded bytes pass `to_str` reads back as itself |
| ProblemDetails.JsonIsNotProblemDetails | src/middleware/problem_details.rs:25 | `application/json` is not problem details |
| ProblemDetails.ApiErrorResponsesAreReplaced | src/middleware/problem_details.rs:17-33 | behind this middleware every `ApiError` response would be replaced, and its `message` body lost |

## Left out

- Latency (`Instant::now`, `latency_ms`) is not modelled: a clock is I/O.
- The log output itself is not modelled. Events are values holding their level, target, message and request id. In the service and the handlers, every `tracing` macro call (`debug!`, `info!`, `warn!`, `error!`) and every `#[instrument]` span is dropped.
- The async runtime, concurrency and the `reqwest` client are left out. The client is the `World` value; its exact error wording is the world's, not modelled.
- `HeaderMap` holds one value per name, so `insert` replaces it. Multi-valued headers are not modelled.
- JSON numbers are integers. Floats do not matter to the core and are not modelled.
- Parsing is not modelled. `serde_json::from_str` is the world's `parse` and `reqwest`'s `.json()` its `readJson`; each promises only well-formed values, so there is no round trip between them and `Serialize`, and the two decoders' error wordings are the world's.
- `Json.Serialize`: its contract is non-emptiness only. What it renders is fixed by its definition and used through `SerializePlainStr` and the scenarios.
- `StatusCode::canonical_reason` is a parameter: the reason phrase table is not modelled.
- `problem_details_response` is a parameter. src/middleware/problem_details.rs:8 imports it from `errors::api_error`, which does not define it, so its output is unknown.
- The router, `main.rs`, `app.rs`, routes, `AppState` construction and the JSON extractor in src/extractors/json.rs are not part of this model. The handlers receive their payloads already deserialised.
- `Config.New`: environment values that are not valid Unicode (`env::var` fails on them) are not modelled. The environment is a map of strings.
- `SlackService.UploadFile`: phase 2's URL is used as given. `reqwest`'s URL parsing of it, and of the endpoint URLs, is not modelled.
- `RequestTracing.TraceRequest`: the span's `method` and `version` are the request's text fields as given. The `Debug` rendering of the version is not modelled.

## Where the sources disagree

The model follows the code as written where these parts disagree:

- src/middleware/problem_details.rs:8 imports `problem_details_response` from src/errors/api_error.rs, which does not define it. The builder is a parameter of `ProblemDetails.Middleware`.
- src/app.rs:13-18 installs the tracing middleware but not the problem-details middleware. So an `ApiError` reaches the client as `{"message": ...}`, which `ApiErrors.IntoResponse` states.
- The test at src/bin/api_tests/slack_api.rs:76-85 expects a problem-details body for invalid base64, with `type`, `title`, `status` and `detail`. The error type emits only `message`.
  - `ApiErrors.BodyLacksProblemDetailsFields` and `SlackHandler.InvalidBase64Scenario` show the expected `detail` is absent.
  - `ProblemDetails.ApiErrorResponsesAreReplaced` shows the middleware, were it installed, would replace every such response.
- The handlers call the service without the `slack_api_base_url` argument: src/handlers/slack_handler.rs:29-34 and 57-63, against src/service/slack_service.rs:8-14 and 131-138. The model passes the configured base URL, as the service's signature requires and as the test setup (src/bin/api_tests/support.rs:69-72) relies on.
