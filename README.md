# MCP tester transport and session core, in Dafny

This project models the core of a Java MCP tester (a backend that starts Model Context Protocol
tool servers and talks JSON-RPC 2.0 to them) and proves properties of that model. The core has
the following parts:

- **The stdio connection** (`JsonRpcConnection`). It issues ids from one 32-bit counter and files
  each call in one of two pending tables: unwrapped (`request`) and raw (`requestRaw`). It writes
  each message as newline-delimited JSON or as a `Content-Length` frame. Its byte-level reader
  splits the server's stdout into lines, strips ANSI escapes and non-JSON chatter, and completes
  the waiting calls. A reader exception fails every waiting call.
- **The three transport clients.**
  - `StdioMcpClient` builds the parameters of the seven MCP operations over the connection.
  - `SseMcpClient` POSTs to a message endpoint. The server announces that endpoint on an event
    stream, or it is configured, or it is derived from the stream URL (`/sse` becomes
    `/message`). Responses come back as events on that stream.
  - `StreamableHttpMcpClient` POSTs each request and reads the response body. Depending on its
    content type, the body is scanned as NDJSON or parsed whole.
- **The log broadcaster** (`LogBroadcaster`). It keeps a buffer of the last 200 lines, replays
  that buffer to each new subscriber and delivers every new line to the live subscribers.
- **The session table** (`ServerSessions`, `ServerSession`). `start` is create-if-absent and
  chooses the transport. `stop` removes a session. An exit watcher evicts the session of a
  process that ended.
- **The configuration store** (`ServerRepository`, `ServerNames`), together with the
  update-merging and resource-filtering helpers of `McpResource`.

There is one module per source file, plus modules for the building blocks:

| module | stands for |
|---|---|
| `Text` | Java string and integer semantics: `trim`, `isBlank`, ASCII `toLowerCase`, `Integer.parseInt`, `int` wrap-around, `String.compareTo`, `BufferedReader.readLine` |
| `Json` | a JSON tree and Jackson's accessors (`has`, `get`, `asInt`, `asText`) |
| `Rpc` | envelopes, operation parameters and how a call's future ends |
| `Futures` | call numbering and completion bookkeeping shared by the clients |
| `Wire` | the byte stream, line reading, framing and ANSI stripping |
| `Config` | the `ServerConfig` record |

**Calls and futures.** A `CompletableFuture` is identified by a call number: the n-th request
of a client is call n. Each pending table maps a JSON-RPC id to the call waiting under it. An
`outcomes` map records how each completed call ended: `Done(node)` or `Fault(message)`. The id
of call n is `Wrap32(n + 1)`, so the model keeps Java's `AtomicInteger` wrap-around. Ids are
proved distinct for the first 2^32 calls.

**Library calls.** Jackson's `readTree` and `writeValueAsString`, UTF-8 encoding and
decoding, and `URI.create` (as the message of the exception it throws, if any) are function
values held in a `Codec`. Every property is proved for every codec.

**I/O and side effects.**
- A server's output is a `Stream`: its bytes, then end of stream or an `IOException` message.
- An HTTP response is a status, a content type and a body `Stream`.
- Process start-up is a `Launch` outcome supplied by the caller. Timestamps and UUIDs are
  parameters.

**What the code does where it could be read otherwise:**
- SSE endpoint timeout. `resolveEndpoint` (backend/src/main/java/app/SseMcpClient.java:318-329)
  falls back for a request whose endpoint is late, and `setMessageEndpoint` (331-337) is
  written to take an endpoint announced later. As written, `orTimeout` fails the shared endpoint future for good: a late
  endpoint is then ignored, and every later request fails. The client class models the
  corrected timeout (`SseClient.TimeOut`, `SseClient.SseMcpClient.EndpointTimeout`,
  `SseClient.LateEndpointIsUsed`). The code as written is `SseClient.LateEndpointRefusedAsWritten`;
  see Findings.
- A message that fails to parse is only logged (backend/src/main/java/app/JsonRpcConnection.java:149-155
  and 189-195). Only an exception that escapes the read loop fails the pending calls
  (lines 123-130): an I/O error, or a `Content-Length` value that `Integer.parseInt` rejects.
- A `Content-Length` body is read with `readNBytes` (line 181), which returns fewer bytes at end
  of stream. The model does the same (`Wire.ReadN`).

## Model

| member | source | states |
|---|---|---|
| Futures.IdOfSmall | backend/src/main/java/app/JsonRpcConnection.java:27 | The counter starts at 1. Call c gets id c + 1 until the counter passes `Integer.MAX_VALUE`, then it continues from `Integer.MIN_VALUE`. |
| Futures.IdOfNext | backend/src/main/java/app/JsonRpcConnection.java:51 | `getAndIncrement` moves the counter from the id of call c to the id of call c + 1. |
| Futures.IdsDistinct | backend/src/main/java/app/JsonRpcConnection.java:27 | Two different calls among the first 2^32 never share an id. |
| Futures.FailEach | backend/src/main/java/app/JsonRpcConnection.java:125-128 | The loop that fails every future of a table produces exactly `FailCalls`: each waiting call fails with the reason, and completed calls keep their outcome. |
| Text.Wrap32 | backend/src/main/java/app/JsonRpcConnection.java:27 | Java `int` arithmetic: the result is in the 32-bit range, equals its argument there and is congruent to it modulo 2^32. |
| Text.ParseIntOfNatToString | backend/src/main/java/app/JsonRpcConnection.java:173 | `Integer.parseInt` reads back the decimal text of every length up to `Integer.MAX_VALUE`. |
| Text.ReaderLinesOfJoined | backend/src/main/java/app/StreamableHttpMcpClient.java:199-201 | `BufferedReader.readLine` gives back exactly the lines of a text made of lines each ended by a newline. |
| Text.LinesOfJoinedTail | backend/src/main/java/app/StreamableHttpMcpClient.java:198-217 | Terminated lines followed by a partial tail: a reader that reaches the end of the text yields the tail as one more line, and one whose next read throws loses it. |
| Text.AtMostTotal | backend/src/main/java/app/ServerRepository.java:33-38 | The `String.compareTo` order used to sort configurations is total. |
| Text.AtMostTransitive | backend/src/main/java/app/ServerRepository.java:33-38 | The `String.compareTo` order is transitive. |
| Text.AtMostAntisymmetric | backend/src/main/java/app/ServerRepository.java:33-38 | The `String.compareTo` order is antisymmetric. |
| Rpc.Envelope | backend/src/main/java/app/JsonRpcConnection.java:50-58 | A request or notification has `"jsonrpc": "2.0"` and its method, an `id` exactly when one is given, and `params` exactly as given. It has no other field. |
| Rpc.EnvelopeIdReadBack | backend/src/main/java/app/JsonRpcConnection.java:201 | The reader's `asInt` of a sent message's `id` is the id that was issued. |
| Rpc.MethodName | backend/src/main/java/app/StdioMcpClient.java:45-87 | The method name is `tools/call` exactly for a tool call. |
| Rpc.InitializeParams | backend/src/main/java/app/StdioMcpClient.java:27-36 | `initialize` params: `protocolVersion` is "2024-11-05", `capabilities` is an object, and `clientInfo` is {name "mcp-tester", version "0.1.0"}. `capabilities.experimental.configuration` is present exactly when the configuration is neither null nor JSON null. |
| Rpc.CallToolParams | backend/src/main/java/app/StdioMcpClient.java:60-70 | `tools/call` params hold `name`, and `arguments` only when it is given. They hold `_meta` exactly when meta is neither null nor JSON null. |
| Rpc.GetPromptParams | backend/src/main/java/app/StdioMcpClient.java:80-87 | `prompts/get` params hold `name`, and `arguments` only when it is given. |
| Rpc.Params | backend/src/main/java/app/StdioMcpClient.java:45-57 | Exactly the three list operations send no params. |
| Rpc.Unwrap | backend/src/main/java/app/SseMcpClient.java:129-139 | Unwrapping gives the `result` when present. Otherwise it fails with the rendered `error` when that is present, and otherwise gives the whole message. |
| Json.Utf8Text | backend/src/main/java/app/JsonRpcConnection.java:182 | `new String(bytes, UTF_8)` of no bytes is the empty string. |
| Wire.Frame | backend/src/main/java/app/JsonRpcConnection.java:96-106 | An NDJSON frame is the body followed by one newline. A Content-Length frame is the ASCII header `Content-Length: <body length>` and CRLF CRLF, then the body. |
| Wire.ReadLine | backend/src/main/java/app/JsonRpcConnection.java:226-241 | The byte loop returns exactly `LineAt`. |
| Wire.LineAtSegment | backend/src/main/java/app/JsonRpcConnection.java:226-241 | Bytes free of newlines, followed by a newline, read back as those bytes with every CR removed. Reading resumes after the newline. |
| Wire.DropCRTrailingCR | backend/src/main/java/app/JsonRpcConnection.java:236 | A CR before the newline does not reach the line. |
| Wire.ReadN | backend/src/main/java/app/JsonRpcConnection.java:181 | `readNBytes` returns the next bytes of the stream, at most n of them. It returns fewer only at the end of the stream, and throws exactly when the stream fails before n bytes. |
| Wire.NdjsonFrameReadBack | backend/src/main/java/app/JsonRpcConnection.java:96-100 | The reader gives back an NDJSON frame's body as one line (round trip). |
| Wire.LastLengthHeaderWins | backend/src/main/java/app/JsonRpcConnection.java:168-177 | A `content-length:` header, matched in any case, replaces the length found so far, so the last one wins. |
| Wire.HeaderLineIsLengthHeader | backend/src/main/java/app/JsonRpcConnection.java:170-173 | The header the writer emits is recognised, and its value is the body length. |
| Wire.HeaderLineScan | backend/src/main/java/app/JsonRpcConnection.java:168-177 | The written header, followed by a blank line, yields the body length. |
| Wire.ContentLengthFrameReadBack | backend/src/main/java/app/JsonRpcConnection.java:102-106 | A written Content-Length frame reads back as its header line, a blank line and exactly its body. |
| Wire.FrameAtBody | backend/src/main/java/app/JsonRpcConnection.java:159-181 | A non-blank first line, headers giving a positive length and a body read make one frame. |
| Wire.HeaderThenBody | backend/src/main/java/app/JsonRpcConnection.java:159-181 | The written header, a blank line and n body bytes are read as one frame carrying that body. |
| Wire.ContentLengthFrameArrives | backend/src/main/java/app/JsonRpcConnection.java:102-106 | Round trip: every frame the writer produces for a non-empty body reaches the reader as that body, whatever newlines the body contains. |
| Wire.StripAnsiKeepsPlainText | backend/src/main/java/app/JsonRpcConnection.java:251-256 | Text without ESC is left as it is. |
| Wire.StripAnsiErasesSequence | backend/src/main/java/app/JsonRpcConnection.java:255 | Each `ESC [ [;?0-9]* letter` sequence is removed. |
| Wire.StripAnsiIsSinglePass | backend/src/main/java/app/JsonRpcConnection.java:255 | `replaceAll` makes one pass: a sequence that a removal creates stays. |
| Wire.BufferedLinesOf | backend/src/main/java/app/SseMcpClient.java:266-285 | A body's lines as `readLine` yields them: a partial last line is a line only when the body ends cleanly, and is lost when a read fails. |
| Connection.NoIdInBothTables | backend/src/main/java/app/JsonRpcConnection.java:50-78 | While ids have not wrapped, no id waits in both `pending` and `pendingRaw`. |
| Connection.IssueKeepsValid | backend/src/main/java/app/JsonRpcConnection.java:50-78 | Filing a fresh call under its id keeps the bookkeeping valid for one more call: every waiting call is below the counter, waits under its own id, has not completed, and no call is accounted for twice. |
| Connection.AccountedAfterIssue | backend/src/main/java/app/JsonRpcConnection.java:50-78 | Filing a new call keeps every issued call accounted for: each has completed or waits under its own id. |
| Connection.SettleKeepsValid | backend/src/main/java/app/JsonRpcConnection.java:207-210 | Removing an id from `pending` and completing its future keeps the bookkeeping. The call completes, and no earlier outcome changes. |
| Connection.SettleRawKeepsValid | backend/src/main/java/app/JsonRpcConnection.java:202-205 | The same holds for `pendingRaw`. |
| Connection.DispatchKeepsValid | backend/src/main/java/app/JsonRpcConnection.java:199-224 | `handleMessage` keeps the bookkeeping. A call leaves a table only by completing. |
| Connection.Sweep | backend/src/main/java/app/JsonRpcConnection.java:123-131 | Both tables end empty. Every waiting call completes, earlier outcomes are kept, and no other call completes. |
| Connection.SweepKeepsValid | backend/src/main/java/app/JsonRpcConnection.java:123-131 | Every waiting call fails with the reader's exception message. |
| Connection.NdjsonLine | backend/src/main/java/app/JsonRpcConnection.java:140-147 | A blank line, or one that does not look like JSON after ANSI stripping and trimming, never reaches the tables. |
| Connection.BodyMessage | backend/src/main/java/app/JsonRpcConnection.java:181-186 | A body cut off by the end of the stream before its first byte is the empty text, which does not look like JSON, so no table changes. |
| Connection.DeliverKeepsValid | backend/src/main/java/app/JsonRpcConnection.java:140-155 | Delivering a cleaned text keeps the bookkeeping. A parse failure changes nothing. |
| Connection.NdjsonRunKeepsValid | backend/src/main/java/app/JsonRpcConnection.java:134-157 | The whole NDJSON loop keeps the bookkeeping, whatever the stream holds. |
| Connection.ContentLengthRunKeepsValid | backend/src/main/java/app/JsonRpcConnection.java:159-197 | The whole Content-Length loop keeps the bookkeeping, whatever the stream holds. |
| Connection.ReadLoopOutcome | backend/src/main/java/app/JsonRpcConnection.java:114-132 | An exception leaves both tables empty. A clean end of stream leaves them as the loop left them. |
| Connection.JsonRpcConnection.constructor | backend/src/main/java/app/JsonRpcConnection.java:27-42 | A new connection has the counter at 1, empty tables and nothing written. |
| Connection.JsonRpcConnection.Request | backend/src/main/java/app/JsonRpcConnection.java:50-63 | The next id goes into `pending` only, the counter advances, and the framed envelope is written. |
| Connection.JsonRpcConnection.RequestRaw | backend/src/main/java/app/JsonRpcConnection.java:65-78 | The next id goes into `pendingRaw` only, and the framed envelope is written. |
| Connection.JsonRpcConnection.Notify | backend/src/main/java/app/JsonRpcConnection.java:80-88 | A notification takes no id, and only its framed envelope is written. |
| Connection.JsonRpcConnection.Send | backend/src/main/java/app/JsonRpcConnection.java:90-112 | Exactly the frame of the serialised payload is appended to the output. |
| Connection.JsonRpcConnection.HandleMessage | backend/src/main/java/app/JsonRpcConnection.java:199-224 | The tables change exactly as `Dispatch` says. `pendingRaw` is checked first and completes with the whole message. Otherwise `pending` completes with `result` or fails with the error text. Unknown ids change nothing. |
| Connection.JsonRpcConnection.DeliverText | backend/src/main/java/app/JsonRpcConnection.java:184-195 | A cleaned text that looks like JSON and parses is handled as a message. Anything else changes nothing. |
| Connection.JsonRpcConnection.ReadNdjson | backend/src/main/java/app/JsonRpcConnection.java:134-157 | The loop ends in the state, and with the exception, that `NdjsonRun` gives. |
| Connection.JsonRpcConnection.ReadContentLength | backend/src/main/java/app/JsonRpcConnection.java:159-197 | The loop ends in the state, and with the exception, that `ContentLengthRun` gives. A length of 0 or less skips the frame, and a body cut off before its first byte dispatches nothing. |
| Connection.JsonRpcConnection.ReadHeaders | backend/src/main/java/app/JsonRpcConnection.java:168-177 | The header loop returns exactly `HeaderScan`. |
| Connection.JsonRpcConnection.FailAll | backend/src/main/java/app/JsonRpcConnection.java:123-131 | The state becomes `Sweep` of the old state. |
| Connection.JsonRpcConnection.ReadLoop | backend/src/main/java/app/JsonRpcConnection.java:114-132 | The reader thread's whole effect is `ReadLoopResult`. |
| StdioClient.StdioMcpClient.constructor | backend/src/main/java/app/StdioMcpClient.java:14-23 | The client owns a fresh connection with the given framing and stream. |
| StdioClient.StdioMcpClient.Invoke | backend/src/main/java/app/StdioMcpClient.java:45-87 | `tools/call` files its id in `pendingRaw` and every other operation files its id in `pending`. The envelope written carries the operation's method and params. |
| StdioClient.StdioMcpClient.AfterInitialize | backend/src/main/java/app/StdioMcpClient.java:37-41 | `initialized` is written only once the initialize call succeeded, and the caller gets that same outcome. |
| StdioClient.InitializeRequestShape | backend/src/main/java/app/StdioMcpClient.java:26-42 | The initialize request carries the fixed protocol version, and its `experimental` capability is present exactly for a configuration that is neither null nor JSON null. |
| SseClient.SseMatch | backend/src/main/java/app/SseMcpClient.java:365 | The `/sse/?$` match is 5, 4 or 0 characters long: 5 exactly for a body ending in "/sse/", 4 for one ending in "/sse". |
| SseClient.ReplaceSseSuffixShape | backend/src/main/java/app/SseMcpClient.java:365 | `replaceFirst` changes a path exactly when the pattern matches it. It then keeps the stem, puts "/message" in place of the suffix and keeps a final line terminator. |
| SseClient.ReplaceSseSuffixIdempotent | backend/src/main/java/app/SseMcpClient.java:365 | Rewriting a derived path again changes nothing. |
| SseClient.SseSuffixedContains | backend/src/main/java/app/SseMcpClient.java:361-365 | A path the pattern matches passes the `contains("/sse")` guard. |
| SseClient.DeriveMessageEndpointCases | backend/src/main/java/app/SseMcpClient.java:352-374 | A configured message URL wins. Otherwise an endpoint is derived exactly for a non-blank SSE URL whose path ends in /sse or /sse/. |
| SseClient.ConstructorLog | backend/src/main/java/app/SseMcpClient.java:49-56 | The constructor logs the configured message endpoint. Otherwise it logs a fallback exactly when one can be derived from the SSE URL. |
| SseClient.MetaNode | backend/src/main/java/app/SseMcpClient.java:96-98 | `_meta` is sent exactly for a non-empty meta map, and it holds that map's entries as strings. |
| SseClient.RouteAppends | backend/src/main/java/app/SseMcpClient.java:164-182 | A sent message goes out after every earlier one. It is POSTed to a known endpoint, or it waits in order. |
| SseClient.AnnounceFirstWins | backend/src/main/java/app/SseMcpClient.java:331-337 | The first non-blank endpoint is kept for good and releases every waiting message to itself in order. Later announcements change nothing. |
| SseClient.TimeOutKeepsEndpointOpen | backend/src/main/java/app/SseMcpClient.java:318-329 | Corrected timeout: the oldest waiting message is POSTed to the fallback, and the endpoint stays open for a later announcement. |
| SseClient.LateEndpointIsUsed | backend/src/main/java/app/SseMcpClient.java:318-337 | Corrected timeout: an endpoint announced after a timeout receives every later request. |
| SseClient.LateEndpointRefusedAsWritten | backend/src/main/java/app/SseMcpClient.java:318-337 | As written: a late announcement is ignored after a timeout, and every later request fails. |
| SseClient.IssueKeeps | backend/src/main/java/app/SseMcpClient.java:119-128 | Filing a new call under the next id keeps the bookkeeping, and no other call is displaced. |
| SseClient.SettleKeeps | backend/src/main/java/app/SseMcpClient.java:302-308 | Removing an id and completing its call keeps the bookkeeping and records that outcome. |
| SseClient.EventKeeps | backend/src/main/java/app/SseMcpClient.java:290-310 | No event breaks the bookkeeping or loses a sent message. |
| SseClient.ResponseCompletesCall | backend/src/main/java/app/SseMcpClient.java:302-308 | A response event completes the call waiting under its id with the whole message. |
| SseClient.LineStepKeeps | backend/src/main/java/app/SseMcpClient.java:268-282 | One line of the event loop keeps the bookkeeping. |
| SseClient.EventRunKeeps | backend/src/main/java/app/SseMcpClient.java:266-288 | The whole event loop keeps the bookkeeping and loses no sent message. |
| SseClient.FailPendingKeeps | backend/src/main/java/app/SseMcpClient.java:312-316 | `failAll` fails every waiting call with the reason. |
| SseClient.StreamEndSettlesAll | backend/src/main/java/app/SseMcpClient.java:266-288 | When the event stream ends, the table is empty and every call that waited has completed. |
| SseClient.DataLinesDispatchNothing | backend/src/main/java/app/SseMcpClient.java:270-275 | Data lines only accumulate: no event is handled and the state is unchanged. |
| SseClient.RejectedEndpointThrows | backend/src/main/java/app/SseMcpClient.java:331-335 | A URL-like payload that `URI.create` rejects, arriving while no endpoint is known, makes `handleEvent` throw that exception's message. |
| SseClient.ThrownEventFailsWaiting | backend/src/main/java/app/SseMcpClient.java:266-288 | After an event throws, every call still waiting fails with that exception's message, and the "SSE stream ended" sweep changes none of them. |
| SseClient.FailedStreamLosesPartialLine | backend/src/main/java/app/SseMcpClient.java:266-287 | When a read fails before the blank line that would end an event is complete, the event is not handled and every waiting call fails with "SSE failure". |
| SseClient.FailedTwice | backend/src/main/java/app/SseMcpClient.java:283-287 | The second `failAll` after a failure leaves the first failure's outcome on every call that waited. |
| SseClient.AnsweredKeeps | backend/src/main/java/app/SseMcpClient.java:199-219 | A send error or a status of 400 or more fails that call, and only that call, with the matching message. Any other status changes nothing. |
| SseClient.SseMcpClient.constructor | backend/src/main/java/app/SseMcpClient.java:38-57 | A configured message URL is the endpoint from the start. The fallback is the derived endpoint. |
| SseClient.SseMcpClient.Send | backend/src/main/java/app/SseMcpClient.java:164-182 | The event stream is started, and the payload is routed as `Route` says. |
| SseClient.SseMcpClient.Issue | backend/src/main/java/app/SseMcpClient.java:121-128 | The next id is taken and the new call is filed under it. |
| SseClient.SseMcpClient.Request | backend/src/main/java/app/SseMcpClient.java:119-152 | A new call waits under the next id, and its envelope is sent. |
| SseClient.SseMcpClient.Invoke | backend/src/main/java/app/SseMcpClient.java:60-117 | `tools/call` is a raw call and every other operation is unwrapped. The envelope carries the operation's method and params. |
| SseClient.SseMcpClient.Notify | backend/src/main/java/app/SseMcpClient.java:154-162 | A notification is sent without an id. |
| SseClient.SseMcpClient.CallerOutcome | backend/src/main/java/app/SseMcpClient.java:164-228 | The caller's future completes only once the call has an outcome and its POST has come back (`resolveEndpoint().thenCompose(postMessage)` and `handle(...).thenCompose(f -> f)`). A call whose message still waits for an endpoint reports nothing, even after `failAll` failed it. A raw caller gets the whole response. Any other caller gets it unwrapped, and a failure is passed through. |
| SseClient.SseMcpClient.AfterInitialize | backend/src/main/java/app/SseMcpClient.java:60-72 | The initialize result reaches the caller only once the call has an outcome and its POST has come back. `initialized` is sent only once the initialize call succeeded. |
| SseClient.SetEndpoint | backend/src/main/java/app/SseMcpClient.java:331-337 | A null or blank endpoint, or one arriving after the endpoint is known, changes nothing. Otherwise `URI.create` decides: a text it rejects throws its exception and changes nothing, and any other text is announced as `Announce` says. |
| SseClient.SseMcpClient.SetMessageEndpoint | backend/src/main/java/app/SseMcpClient.java:331-337 | The state becomes `SetEndpoint` of the old state, and the method reports exactly the exception `SetEndpoint` throws. A rejected URL changes nothing. |
| SseClient.SseMcpClient.EndpointTimeout | backend/src/main/java/app/SseMcpClient.java:318-329 | The state becomes the corrected `TimeOut` of the old state. |
| SseClient.SseMcpClient.HandleEvent | backend/src/main/java/app/SseMcpClient.java:290-310 | The state becomes `Event` of the old state. A payload that throws changes nothing and reports the message `failAll` then uses: "SSE failure" when `readTree` fails, and `URI.create`'s own message for an endpoint it rejects. |
| SseClient.SseMcpClient.FailAll | backend/src/main/java/app/SseMcpClient.java:312-316 | The state becomes `FailPending` of the old state. |
| SseClient.SseMcpClient.HandleLine | backend/src/main/java/app/SseMcpClient.java:268-282 | One loop iteration does what `LineStep` says. |
| SseClient.SseMcpClient.ParseSseStream | backend/src/main/java/app/SseMcpClient.java:266-288 | The whole stream's effect is `StreamEnd`, over the lines `readLine` yields: a partial last line is never read when a read fails, and an event that throws ends the loop and fails the waiting calls with its message. |
| SseClient.SseMcpClient.StreamOpened | backend/src/main/java/app/SseMcpClient.java:230-264 | A status of 400 or more fails every waiting call. Otherwise the body is parsed as an event stream, as `StreamEnd` says. |
| SseClient.SseMcpClient.PostAnswered | backend/src/main/java/app/SseMcpClient.java:184-228 | Only a POST already made can come back. The state becomes `Answered` of the old state, and the call counts as answered from then on. |
| StreamableClient.LineVerdict | backend/src/main/java/app/StreamableHttpMcpClient.java:202-213 | A blank line is skipped. A line that fails to parse stops the scan with a failure. A parsed line is the answer when the call has no id or the ids match, and is skipped otherwise. |
| StreamableClient.ScanSkipsPassing | backend/src/main/java/app/StreamableHttpMcpClient.java:201-214 | Lines that are skipped do not affect the result. |
| StreamableClient.ScanStopsAtFirst | backend/src/main/java/app/StreamableHttpMcpClient.java:198-217 | The scan's result is the verdict of the first line that stops it. With no such line, the result is "Stream ended without response" or the read error. |
| StreamableClient.ResponseAfterNotifications | backend/src/main/java/app/StreamableHttpMcpClient.java:198-214 | The response line is found after any number of lines the scan skips. |
| StreamableClient.ResponseResultCases | backend/src/main/java/app/StreamableHttpMcpClient.java:171-196 | A status of 400 or more always fails, with "HTTP <status> from server". Otherwise a non-NDJSON body is parsed trimmed, and an empty body gives an empty object. |
| StreamableClient.FailedBodyLosesTail | backend/src/main/java/app/StreamableHttpMcpClient.java:171-217 | An NDJSON body whose read fails while the response line is still partial fails the call with "Failed to parse response", whatever that partial line holds. |
| StreamableClient.Settlement | backend/src/main/java/app/StreamableHttpMcpClient.java:110-122 | A caller's outcome: every rejected reply, whatever its status, is "Failed to parse response", and a send error is passed through. A parsed message goes raw to `requestRaw` callers and unwrapped to the others. |
| StreamableClient.ParseNdjson | backend/src/main/java/app/StreamableHttpMcpClient.java:198-217 | The reading loop with its early return yields exactly `NdjsonScan`. |
| StreamableClient.ParseResponse | backend/src/main/java/app/StreamableHttpMcpClient.java:171-196 | The content-type switch yields exactly `ResponseResult`, whose NDJSON scan reads only the lines `readLine` yields. |
| StreamableClient.StreamableHttpMcpClient.constructor | backend/src/main/java/app/StreamableHttpMcpClient.java:27-35 | A new client has the counter at 1 and has POSTed nothing. |
| StreamableClient.StreamableHttpMcpClient.Request | backend/src/main/java/app/StreamableHttpMcpClient.java:101-134 | Each request takes the next id and POSTs its envelope. |
| StreamableClient.StreamableHttpMcpClient.Invoke | backend/src/main/java/app/StreamableHttpMcpClient.java:56-99 | `tools/call` is raw and every other operation is unwrapped. The envelope carries the operation's method and params. |
| StreamableClient.StreamableHttpMcpClient.Notify | backend/src/main/java/app/StreamableHttpMcpClient.java:136-144 | A notification is POSTed without an id. |
| StreamableClient.StreamableHttpMcpClient.Answer | backend/src/main/java/app/StreamableHttpMcpClient.java:146-196 | The call completes with its `Settlement`. |
| StreamableClient.StreamableHttpMcpClient.AfterInitialize | backend/src/main/java/app/StreamableHttpMcpClient.java:49-53 | `initialized` is POSTed only after a successful initialize, and the caller gets that same outcome. |
| Logs.LastNAppend | backend/src/main/java/app/LogBroadcaster.java:34-41 | Trimming after each append keeps the last 200 of all lines. |
| Logs.RemoveFirstDistinct | backend/src/main/java/app/LogBroadcaster.java:22 | Removing a subscriber from a list without duplicates removes it entirely. |
| Logs.PublishKeeps | backend/src/main/java/app/LogBroadcaster.java:27-32 | Publishing keeps the broadcaster's invariant. |
| Logs.AccountsPublish | backend/src/main/java/app/LogBroadcaster.java:29-31 | After a publish, every subscriber has been sent exactly the lines of its lifetime. |
| Logs.SubscribeKeeps | backend/src/main/java/app/LogBroadcaster.java:17-21 | A new subscriber gets the buffer and joins the list, and the invariant is kept. |
| Logs.TerminateKeeps | backend/src/main/java/app/LogBroadcaster.java:22 | Termination keeps the invariant. |
| Logs.LogBroadcaster.constructor | backend/src/main/java/app/LogBroadcaster.java:10-12 | A new broadcaster has an empty buffer and no subscribers. |
| Logs.LogBroadcaster.AddToBuffer | backend/src/main/java/app/LogBroadcaster.java:34-41 | Appending and dropping from the front while over 200 gives the last 200 lines. |
| Logs.LogBroadcaster.Snapshot | backend/src/main/java/app/LogBroadcaster.java:43-47 | The snapshot is the last min(n, 200) lines published, in order. |
| Logs.LogBroadcaster.Publish | backend/src/main/java/app/LogBroadcaster.java:27-32 | The buffer becomes the last 200 of all lines published, and the line goes to every live subscriber. |
| Logs.LogBroadcaster.Deliver | backend/src/main/java/app/LogBroadcaster.java:29-31 | The loop delivers the line to exactly the live subscribers. |
| Logs.LogBroadcaster.Subscribe | backend/src/main/java/app/LogBroadcaster.java:14-25 | The new subscriber is first sent the snapshot, then added to the list. |
| Logs.LogBroadcaster.Terminate | backend/src/main/java/app/LogBroadcaster.java:22 | A terminated subscriber leaves the list, and the others remain. |
| Sessions.SelectTransport | backend/src/main/java/app/ServerSessions.java:32-43 | `sse` or `streamable` in any case is an HTTP session. Any other non-blank value except `stdio` is unsupported. |
| Sessions.StdioSelected | backend/src/main/java/app/ServerSessions.java:39-44 | A null, blank or `stdio` transport starts a process. |
| Sessions.SelectTransportIgnoresCase | backend/src/main/java/app/ServerSessions.java:32-41 | Transport selection ignores ASCII case. |
| Sessions.ToFraming | backend/src/main/java/app/ServerSessions.java:142-151 | Exactly a trimmed, lower-cased "content-length" gives Content-Length framing. |
| Sessions.FramingNameSelects | backend/src/main/java/app/ServerSessions.java:142-151 | Each framing's own name selects it. |
| Sessions.HttpClient | backend/src/main/java/app/ServerSessions.java:133-140 | `sse` gives the SSE client and anything else the streamable client. Either one uses the configured URL and headers. Without a URL, either constructor throws. A URL that `URI.create` rejects makes either one throw that exception, and the streamable client is built exactly when its URL parses. |
| SseClient.ConstructorFailure | backend/src/main/java/app/SseMcpClient.java:38-57 | A rejected SSE URL is the constructor's exception. With a configured message URL, the client is built exactly when both URLs parse. Otherwise only a derived endpoint can add a failure. |
| Sessions.ServerSession.constructor | backend/src/main/java/app/ServerSession.java:16-22 | A new session is not connected and has no caches. |
| Sessions.ServerSession.IsRunning | backend/src/main/java/app/ServerSession.java:24-29 | With no process, liveness is `connected`. With a process, it is process alive and `connected`. |
| Sessions.EvictOnExitAsWritten | backend/src/main/java/app/ServerSessions.java:122 | As written: the exit watcher removes whatever session is stored under the id. |
| Sessions.EvictOnExitAsWrittenDropsNewer | backend/src/main/java/app/ServerSessions.java:114-123 | As written, a session started after the exited process's session was stopped is evicted too. |
| Sessions.EvictOnExit | backend/src/main/java/app/ServerSessions.java:114-123 | Corrected: the session is removed only when it belongs to the process that exited. |
| Sessions.EvictOnExitKeepsOthers | backend/src/main/java/app/ServerSessions.java:114-123 | Corrected: no session of another process is evicted. |
| Sessions.Plan | backend/src/main/java/app/ServerSessions.java:32-72 | An HTTP session has no process. It is opened only when its client constructs. Its log gets the SSE client's endpoint line, if any, and then "created http session". A process session uses the chosen framing and logs "started server". Otherwise the start fails with "Unsupported transport: ...", the HTTP client's construction error (a missing or unparsable URL), the command-line error or "Failed to start server". |
| Sessions.RejectedUrlFailsStart | backend/src/main/java/app/ServerSessions.java:133-140 | A URL that `URI.create` rejects fails the start of an HTTP session with that exception, for either HTTP client. |
| Sessions.HttpPlanIgnoresLaunch | backend/src/main/java/app/ServerSessions.java:32-38 | An HTTP session never depends on process start-up. |
| Sessions.ServerSessions.constructor | backend/src/main/java/app/ServerSessions.java:18-25 | A new table has no sessions and no log streams. |
| Sessions.ServerSessions.LogStreamFor | backend/src/main/java/app/ServerSessions.java:96-98 | The same broadcaster is returned for an id every time. A new one is created only for an unseen id. |
| Sessions.ServerSessions.PublishTo | backend/src/main/java/app/ServerSessions.java:36 | Only that id's log gains the line. |
| Sessions.ServerSessions.PublishAll | backend/src/main/java/app/ServerSessions.java:33-37 | Only that id's log changes, gaining the lines in order. |
| Sessions.ServerSessions.Start | backend/src/main/java/app/ServerSessions.java:27-75 | Create-if-absent: an existing session is returned unchanged. An unknown id fails with "No value present". A failed plan stores no session and logs nothing. An HTTP start whose client fails to construct (no URL, or a URL `URI.create` rejects) still leaves a new, empty log stream for the id. Otherwise the new session is stored, and its lines are published. Every id keeps the broadcaster it had, its own included (`logStreamFor` reuses it), and a new id gets a fresh one. |
| Sessions.ServerSessions.Open | backend/src/main/java/app/ServerSessions.java:33-68 | The new session is stored under the id, with that id's log stream, and the opening's lines are published there in order. The log-stream map is unchanged when the id already had a broadcaster, so a subscriber attached before a stop and a new start keeps receiving; otherwise only a fresh broadcaster is added. |
| Sessions.ServerSessions.Get | backend/src/main/java/app/ServerSessions.java:77-79 | The session stored under the id, if any. |
| Sessions.ServerSessions.IsRunning | backend/src/main/java/app/ServerSessions.java:81-84 | False when no session exists, and otherwise the session's liveness. |
| Sessions.ServerSessions.Stop | backend/src/main/java/app/ServerSessions.java:86-94 | The session is removed, "stopping server" is logged and its process is destroyed. An absent id is a no-op. Log streams are kept. |
| Sessions.ServerSessions.ProcessExited | backend/src/main/java/app/ServerSessions.java:114-127 | The exit code is logged, and the table becomes the corrected `EvictOnExit`. |
| ServerNames.ToId | backend/src/main/java/app/ServerNames.java:8-17 | null gives "". Otherwise the result is the dash-joined runs of `[a-z0-9]` of the trimmed, lower-cased name: only a-z, 0-9 and '-', no '-' at either end, and never two in a row. |
| ServerNames.ToIdEmpty | backend/src/main/java/app/ServerNames.java:8-17 | The id is empty exactly for null or a name with no ASCII letter or digit. |
| ServerNames.ToIdIdempotent | backend/src/main/java/app/ServerNames.java:8-17 | `toId(toId(x)) == toId(x)`. |
| ServerNames.ToIdIgnoresCase | backend/src/main/java/app/ServerNames.java:12 | Names that differ only in ASCII case give the same id. |
| ServerNames.ToIdIgnoresSurrounding | backend/src/main/java/app/ServerNames.java:12-15 | Surrounding whitespace or separators do not change the id. |
| ServerNames.ToIdIgnoresSeparatorRun | backend/src/main/java/app/ServerNames.java:13 | Any two runs of separators give the same id. |
| ServerNames.ToIdIgnoresTrim | backend/src/main/java/app/ServerNames.java:12 | Trimming before the regexes does not change the id. |
| ServerNames.SlugifyIsJoinedWords | backend/src/main/java/app/ServerNames.java:13-15 | The three `replaceAll` steps equal joining the alphanumeric runs with '-'. |
| ServerNames.WordsOfJoinDash | backend/src/main/java/app/ServerNames.java:13-15 | The runs of a slug are the words it was joined from. |
| Repository.OrDefault | backend/src/main/java/app/ServerRepository.java:80-81 | A null or blank value is replaced by the default. Any other value is kept. |
| Repository.OrDefaultIdempotent | backend/src/main/java/app/ServerRepository.java:80-81 | Defaulting twice is defaulting once. |
| Repository.ReadDefaults | backend/src/main/java/app/ServerRepository.java:234-257 | A configuration read back always has a framing and a transport. Nothing else changes. |
| Repository.ReadDefaultsIdempotent | backend/src/main/java/app/ServerRepository.java:234-257 | Reading a configuration back twice changes nothing further. |
| Repository.Created | backend/src/main/java/app/ServerRepository.java:74-92 | A new configuration has the derived id and the trimmed name. It already has its defaults, no saved inputs and no facets. |
| Repository.SlugBlank | backend/src/main/java/app/ServerRepository.java:66-68 | For a derived id, `isBlank` means empty. |
| Repository.TrimmedNameKeepsId | backend/src/main/java/app/ServerRepository.java:66-76 | The stored trimmed name derives the same id. |
| Repository.WithSavedInput | backend/src/main/java/app/ServerRepository.java:129-150 | The item is appended to the tool's list, which is created if absent. Other tools and fields are unchanged. |
| Repository.RemoveWithId | backend/src/main/java/app/ServerRepository.java:157-167 | Every item with the id is removed and every other item is kept. |
| Repository.RemoveWithIdAppend | backend/src/main/java/app/ServerRepository.java:157-167 | Removal works item by item, in order. |
| Repository.WithoutSavedInput | backend/src/main/java/app/ServerRepository.java:157-167 | The tool's list loses the items with that id, and its key goes once the list is empty. An unknown tool changes nothing. |
| Repository.DeleteTwice | backend/src/main/java/app/ServerRepository.java:157-167 | Deleting twice is deleting once. |
| Repository.FirstMatch | backend/src/main/java/app/ServerRepository.java:199-200 | The index of the first item with the id, or none. |
| Repository.UpdatedFirstKeepsIds | backend/src/main/java/app/ServerRepository.java:199-220 | The update keeps the list's length and every id, and changes only the first match. |
| Repository.UpdatedFirstIdempotent | backend/src/main/java/app/ServerRepository.java:199-220 | Applying the same patch at the same instant twice is applying it once. |
| Repository.UpdateFirst | backend/src/main/java/app/ServerRepository.java:198-220 | The loop with its break updates exactly the first match. `updated` holds exactly when a match exists. |
| Repository.LoadAll | backend/src/main/java/app/ServerRepository.java:259-278 | Each configuration read back is cached under the id stored in it, whatever the file is called. A configuration with a null id makes loading fail. |
| Repository.LoadAllLastWins | backend/src/main/java/app/ServerRepository.java:268-272 | Of several files storing one id, the last in file-name order is cached, with its defaults. |
| Repository.ServerRepository.constructor | backend/src/main/java/app/ServerRepository.java:259-278 | The cache is what `LoadAll` gives for the files read back. |
| Repository.ServerRepository.List | backend/src/main/java/app/ServerRepository.java:33-38 | All cached configurations, sorted by id, with a null id sorting as "". |
| Repository.ServerRepository.Get | backend/src/main/java/app/ServerRepository.java:40-44 | The cached configuration, if any. |
| Repository.ServerRepository.Require | backend/src/main/java/app/ServerRepository.java:280-287 | The cached configuration, or "Server not found: <id>". |
| Repository.ServerRepository.Create | backend/src/main/java/app/ServerRepository.java:51-96 | An empty id fails with "Invalid server name" and an existing id with "Server name already exists", and a failure changes nothing. Otherwise `Created` is stored under its id. |
| Repository.ServerRepository.Save | backend/src/main/java/app/ServerRepository.java:98-106 | A null configuration or id fails with "Missing server id". Otherwise the configuration is stored under its id. |
| Repository.ServerRepository.Rename | backend/src/main/java/app/ServerRepository.java:108-127 | An existing target fails. Otherwise the id is set, the old entry and file are removed, and the new ones are added. |
| Repository.ServerRepository.AddSavedInput | backend/src/main/java/app/ServerRepository.java:129-150 | An unknown server fails. Otherwise the stamped item is appended and the configuration is saved. |
| Repository.ServerRepository.ListSavedInputs | backend/src/main/java/app/ServerRepository.java:152-155 | The tool's list, empty when absent, or "Server not found". |
| Repository.ServerRepository.DeleteSavedInput | backend/src/main/java/app/ServerRepository.java:157-167 | An unknown server fails. Otherwise `WithoutSavedInput` is saved. |
| Repository.ServerRepository.UpdateSavedInput | backend/src/main/java/app/ServerRepository.java:169-232 | It fails for an unknown server, a tool without a list or an unknown id, changing nothing. Otherwise only the non-null fields of the first match are overwritten, its time is stamped, and the configuration is saved. |
| Resource.TextValue | backend/src/main/java/app/McpResource.java:353-361 | Exactly a textual node gives its text. |
| Resource.IsApplicationResource | backend/src/main/java/app/McpResource.java:337-351 | A textual `mimeType` starting with "text/html" in any case, and an `annotations` object whose `type` equals "application" ignoring case. |
| Resource.AppNode | backend/src/main/java/app/McpResource.java:326-331 | The output entry has `uri`, and has `name` only when the name is non-blank. |
| Resource.Entries | backend/src/main/java/app/McpResource.java:308-317 | The list is the node itself or its `resources` field. Null gives nothing. |
| Resource.ExtractApplications | backend/src/main/java/app/McpResource.java:306-335 | The loop produces exactly `Applications` of the entries. |
| Resource.ApplicationsAppend | backend/src/main/java/app/McpResource.java:318-333 | Filtering keeps the input order. |
| Resource.ApplicationsMembers | backend/src/main/java/app/McpResource.java:318-333 | An output entry exists exactly for an input entry that is an application resource with a non-blank textual uri. |
| Resource.ApplicationsWellFormed | backend/src/main/java/app/McpResource.java:318-333 | There are no more outputs than inputs. Each output has a non-blank `uri`, and a non-blank `name` when it has one. |
| Resource.WithInitializeSchema | backend/src/main/java/app/McpResource.java:397-405 | `configSchema` is set exactly when dynamic config is supported and the initialize result has a non-null `configSchema`. Nothing else changes. |
| Resource.WithInitializeSchemaIdempotent | backend/src/main/java/app/McpResource.java:397-405 | Applying the same initialize result twice is applying it once. |
| Resource.SafeList | backend/src/main/java/app/McpResource.java:292-304 | Success returns the result and marks the facet supported. Failure returns null and marks it unsupported. The other facets are unchanged. |
| Resource.ParseJson | backend/src/main/java/app/McpResource.java:274-285 | A null or blank text gives an empty object. Any other text is parsed. |
| Resource.NewName | backend/src/main/java/app/McpResource.java:61 | A non-blank request name is used trimmed. Otherwise the old name is kept. |
| Resource.NewNameKeepsId | backend/src/main/java/app/McpResource.java:61-62 | Trimming the request name does not change the derived id. |
| Resource.Override | backend/src/main/java/app/McpResource.java:70-96 | A field is overwritten only when the request field is non-null. |
| Resource.ConfigurationAfter | backend/src/main/java/app/McpResource.java:97-106 | A non-null `supportsDynamicConfig` also replaces `configuration`, even with null. `configuration` alone applies only when `supportsDynamicConfig` is null. |
| Resource.Merged | backend/src/main/java/app/McpResource.java:69-106 | The name is set, each field follows its override rule, and id, saved inputs, schema and facets are kept. |
| Resource.MergedEmpty | backend/src/main/java/app/McpResource.java:69-106 | An empty request changes only the name. |
| Resource.MergedIdempotent | backend/src/main/java/app/McpResource.java:69-106 | Merging the same request twice is merging once. |
| Resource.UpdateWithoutNameSaves | backend/src/main/java/app/McpResource.java:61-68 | A request without a name saves in place, whether or not the server runs. |
| Resource.PlanKeepsId | backend/src/main/java/app/McpResource.java:69-106 | The merged configuration keeps the stored id. |
| Resource.McpResource.UpdateServer | backend/src/main/java/app/McpResource.java:57-115 | An unknown server fails with "No value present". Otherwise the repository changes exactly as the plan says. A rename onto an existing file fails after the cached configuration was already changed in place. A successful update is cached and on disk under a non-empty id, and its name derives that id. |
| Resource.McpResource.Apply | backend/src/main/java/app/McpResource.java:69-114 | The plan is carried out: the configuration is saved, or the server is renamed. A refusal changes nothing. |

## Left out

- SseClient.SseMcpClient.constructor and StreamableClient.StreamableHttpMcpClient.constructor take their URLs as already parsed. The exception `URI.create` throws while they run is modelled where the client is created: `Sessions.HttpClient` and `SseClient.ConstructorFailure`.
- HTTP transport: request building (each POST's JSON content type, its `Accept: application/x-ndjson, application/json` header and the configured headers), `sendAsync`, the connect and request timeouts, and the parts of a URI (a `Uri` record stands in for the parsed URL). HTTP outcomes arrive as explicit events (`PostAnswered`, `StreamOpened`, `Answer`).
- Concurrency: threads, `synchronized`, `ConcurrentHashMap` atomicity and `CompletableFuture` chaining. Completions are applied one at a time, in the order the caller chooses.
- The callers' 15-second waits and the SSE client's one-second wait. A timeout is an explicit event (`EndpointTimeout`).
- Process spawning: `CommandLine.parse`, `ProcessBuilder`, cwd and environment. A `Launch` value gives the outcome; `isAlive` is a boolean field.
- The stderr reader thread of a process.
- Connection.JsonRpcConnection.Send: Java only logs an `IOException` from serialising or writing. The frame is then missing or partial, and the call stays pending. The model always appends the whole frame, because write failures of the process pipe are not modelled.
- The exit watcher's `InterruptedException` path. It publishes nothing; it is modelled as an exit without a code.
- Jackson: JSON object field order, and numbers other than integers. Parsing and rendering are function values.
- Json.AsInt: Jackson reads a text node that is not a decimal integer as a double and truncates it, so "1.0" gives 1. The model gives 0, because numbers other than integers are not modelled.
- Filesystem persistence. The data directory is a set of ids with files. `read` defaulting is modelled; I/O failures of `write` and `deleteIfExists` are left out.
- Lazy loading (`loadAllIfNeeded`). The cache is loaded at construction.
- Repository.ServerRepository.constructor: a file storing a null id makes the loader throw `NullPointerException` outside its `IOException` catch. The cache is then never marked loaded, and every later call throws again. The model has no repository in that state: `LoadAll` returns the error, and the constructor needs a load that succeeded.
- Logging: `logSink`, `LOGGER`, and the connection's own `>>`, `<<` and `..` lines.
- Character case: non-ASCII case mapping is not modelled. `toLowerCase` and `equalsIgnoreCase` act on ASCII letters only. Java also lower-cases U+212A (Kelvin sign) to 'k' and equates U+0131 with 'i' and U+017F with 's'.
- Decoding: `US_ASCII` decoding turns each byte of 128 or more into U+FFFD (`Text.AsciiDecode`). UTF-8 decoding of a non-empty byte sequence is a function value of the codec.
- Repository.ServerRepository.List: a ghost function. The order among equal sort keys is not fixed, whereas Java's sort is stable over `HashMap` iteration order.
- `ensureConfigSchema` in `McpResource`, which starts and stops a session to fetch a schema. `UpdateServer` returns before it.
- The REST endpoints of `McpResource` other than `updateServer`. `McpClient` is an interface only.
- Sessions.ServerSessions.Start: `Opened` records the configuration a session was started with. Later changes to that configuration object, which Java shares with the cache, are not propagated to the session.
- The `initialize` operation of `SseMcpClient` takes no configuration (`SseClient.SseMcpClient.Invoke` requires none), as in SseMcpClient.java:60-72.
- Timestamps are a `stamp` parameter of the log lines, and UUIDs a `uuid` parameter. All the lines of one start share one `stamp`.
- The exceptions for a missing URL and a missing stored id are `NullPointerException`s, whose messages are not modelled. `Sessions.NullUrlFailure` and `Repository.NullIdFailure` stand for them.

## Findings

| source | as written | input that shows it | evidently intended | confidence | as-written member | corrected member |
|---|---|---|---|---|---|---|
| backend/src/main/java/app/SseMcpClient.java:318-337 | `resolveEndpoint` calls `orTimeout` on the shared `messageEndpoint` future. The first timeout completes that future exceptionally for good. `setMessageEndpoint` then sees `isDone()` and ignores the real endpoint, and later requests find the future failed. | A server with a derivable fallback that announces its endpoint two seconds after the first request. | The first request goes to the fallback, and the endpoint announced later is used from then on. | not executed | SseClient.LateEndpointRefusedAsWritten | SseClient.LateEndpointIsUsed |
| backend/src/main/java/app/ServerSessions.java:122 | The exit watcher calls `sessions.remove(serverId)` without checking whose session is stored there. | Start a server, stop it, and start it again before the first process exits. The first process's watcher then evicts the new session. | Only the session of the process that exited is evicted (`remove(serverId, session)`). | not executed | Sessions.EvictOnExitAsWrittenDropsNewer | Sessions.EvictOnExitKeepsOthers |
