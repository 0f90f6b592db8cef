/** The Streamable HTTP MCP client: every message is one POST to a fixed endpoint, and the
    response to a request is read from that POST's reply, either a single JSON body or an NDJSON
    stream scanned for the line that carries the request's id. */
module StreamableClient {
  import opened Wrappers
  import opened Text
  import opened Json
  import opened Rpc
  import opened Wire
  import opened Futures

  // ---------------------------------------------------------------- the POST

  datatype Header = Header(name: string, value: string)

  /** The reply to a POST: its status, its first Content-Type value ("" when absent) and its
      body as a stream of bytes that may end in a read exception. */
  datatype HttpReply = HttpReply(status: int, contentType: string, body: Stream)

  /** How a POST ended: with a reply, or with the exception sendAsync failed with. */
  datatype PostOutcome = Replied(reply: HttpReply) | SendFailed(reason: string)

  /** Why parseResponse threw; the caller sees each as "Failed to parse response". */
  datatype Cause = HttpError(status: int) | ReadError(reason: string) | BadJson | NoResponse

  /** The message of the exception each cause stands for, where the code writes one. */
  function CauseMessage(c: Cause): Option<string> {
    match c
    case HttpError(status) => Some("HTTP " + IntToString(status) + " from server")
    case ReadError(reason) => Some(reason)
    case BadJson => None
    case NoResponse => Some("Stream ended without response")
  }

  /** parseResponse's value: the JSON node, or the cause it failed with. */
  datatype Parsed = Node(node: Json) | Rejected(cause: Cause)

  // ---------------------------------------------------------------- the NDJSON scan

  /** A line that carries the response: any non-blank JSON line for a message without an id,
      otherwise one whose "id" reads as the request's id. */
  predicate Answers(node: Json, id: Option<int>) {
    id.None? || (Has(node, "id") && AsInt(node.fields["id"]) == id.value)
  }

  /** What one line decides: the scan reads past it, or stops with a result. */
  datatype Verdict = Skip | Stop(result: Parsed)

  /** One line of parseNdjson: a blank line is skipped; a line that is not valid JSON throws;
      an answering line is the result; any other JSON line is skipped. */
  function LineVerdict(line: string, id: Option<int>, codec: Codec): (v: Verdict)
    ensures Trim(line) == [] ==> v == Skip
    ensures Trim(line) != [] && codec.parse(Trim(line)).None? ==> v == Stop(Rejected(BadJson))
    ensures Trim(line) != [] && codec.parse(Trim(line)).Some? ==>
      var node := codec.parse(Trim(line)).value;
      v == if Answers(node, id) then Stop(Node(node)) else Skip
  {
    var payload := Trim(line);
    if payload == [] then Skip
    else match codec.parse(payload)
      case None => Stop(Rejected(BadJson))
      case Some(node) => if Answers(node, id) then Stop(Node(node)) else Skip
  }

  /** parseNdjson from line `i` on; running out of lines throws "Stream ended without
      response", or the read exception when the body failed. */
  function NdjsonScan(lines: seq<string>, i: nat, id: Option<int>, failure: Option<string>, codec: Codec): Parsed
    requires i <= |lines|
    decreases |lines| - i
  {
    if i == |lines| then
      if failure.Some? then Rejected(ReadError(failure.value)) else Rejected(NoResponse)
    else match LineVerdict(lines[i], id, codec)
      case Skip => NdjsonScan(lines, i + 1, id, failure, codec)
      case Stop(result) => result
  }

  /** Lines the scan reads past do not change its result. */
  lemma {:induction false} ScanSkipsPassing(lines: seq<string>, i: nat, j: nat, id: Option<int>, failure: Option<string>, codec: Codec)
    requires i <= j <= |lines|
    requires forall k :: i <= k < j ==> LineVerdict(lines[k], id, codec) == Skip
    ensures NdjsonScan(lines, i, id, failure, codec) == NdjsonScan(lines, j, id, failure, codec)
    decreases j - i
  {
    if i < j {
      assert LineVerdict(lines[i], id, codec) == Skip;
      ScanSkipsPassing(lines, i + 1, j, id, failure, codec);
    }
  }

  /** The scan's result is the verdict of the first line it does not read past, or the end of
      the body when it reads past every line. */
  lemma {:induction false} ScanStopsAtFirst(lines: seq<string>, i: nat, id: Option<int>, failure: Option<string>, codec: Codec)
    returns (j: nat)
    requires i <= |lines|
    ensures i <= j <= |lines|
    ensures forall k :: i <= k < j ==> LineVerdict(lines[k], id, codec) == Skip
    ensures j < |lines| ==>
      LineVerdict(lines[j], id, codec).Stop? && NdjsonScan(lines, i, id, failure, codec) == LineVerdict(lines[j], id, codec).result
    ensures j == |lines| ==>
      NdjsonScan(lines, i, id, failure, codec) == if failure.Some? then Rejected(ReadError(failure.value)) else Rejected(NoResponse)
    decreases |lines| - i
  {
    if i == |lines| || LineVerdict(lines[i], id, codec).Stop? {
      j := i;
    } else {
      assert LineVerdict(lines[i], id, codec) == Skip;
      assert NdjsonScan(lines, i, id, failure, codec) == NdjsonScan(lines, i + 1, id, failure, codec);
      j := ScanStopsAtFirst(lines, i + 1, id, failure, codec);
    }
  }

  /** A server that streams notifications (lines the scan reads past) before the response line
      gets its response read. */
  lemma ResponseAfterNotifications(notes: seq<string>, response: string, rest: seq<string>, id: int,
                                   failure: Option<string>, codec: Codec, node: Json)
    requires forall k :: 0 <= k < |notes| ==> LineVerdict(notes[k], Some(id), codec) == Skip
    requires LineVerdict(response, Some(id), codec) == Stop(Node(node))
    ensures NdjsonScan(notes + [response] + rest, 0, Some(id), failure, codec) == Node(node)
  {
    var lines := notes + [response] + rest;
    assert forall k :: 0 <= k < |notes| ==> lines[k] == notes[k];
    ScanSkipsPassing(lines, 0, |notes|, Some(id), failure, codec);
    assert lines[|notes|] == response;
  }

  /** parseResponse: a status of 400 or more throws (after reading the body for the log); an
      NDJSON content type is scanned; any other body is trimmed and parsed, an empty one giving
      an empty object. */
  function ResponseResult(reply: HttpReply, id: Option<int>, codec: Codec): Parsed {
    if reply.status >= 400 then
      if reply.body.failure.Some? then Rejected(ReadError(reply.body.failure.value)) else Rejected(HttpError(reply.status))
    else if Contains(reply.contentType, "ndjson") || Contains(reply.contentType, "jsonlines") then
      NdjsonScan(BufferedLines(reply.body, codec), 0, id, reply.body.failure, codec)
    else if reply.body.failure.Some? then Rejected(ReadError(reply.body.failure.value))
    else
      var body := Trim(Utf8Text(codec, reply.body.bytes));
      if body == [] then Node(JObj(map[]))
      else match codec.parse(body)
        case None => Rejected(BadJson)
        case Some(node) => Node(node)
  }

  /** An error status always fails the call, and a single-body reply yields what its trimmed
      body parses to, an empty object for an empty body. */
  lemma ResponseResultCases(reply: HttpReply, id: Option<int>, codec: Codec)
    ensures reply.status >= 400 ==> ResponseResult(reply, id, codec).Rejected?
    ensures reply.status >= 400 && reply.body.failure.None? ==>
      CauseMessage(ResponseResult(reply, id, codec).cause) == Some("HTTP " + IntToString(reply.status) + " from server")
    ensures
      (reply.status < 400 && !Contains(reply.contentType, "ndjson") && !Contains(reply.contentType, "jsonlines")
       && reply.body.failure.None?) ==>
      var body := Trim(Utf8Text(codec, reply.body.bytes));
      && (body == [] ==> ResponseResult(reply, id, codec) == Node(JObj(map[])))
      && (body != [] ==> (ResponseResult(reply, id, codec).Node? <==> codec.parse(body).Some?))
      && (body != [] && codec.parse(body).Some? ==> ResponseResult(reply, id, codec).node == codec.parse(body).value)
  {
  }

  /** What the caller's future ends with: any parse failure as "Failed to parse response", a
      send failure with its own message; a requestRaw call gets the node itself and a request
      call gets it unwrapped. */
  function Settlement(outcome: PostOutcome, id: int, raw: bool, codec: Codec): (c: Completion)
    ensures outcome.Replied? && outcome.reply.status >= 400 ==> c == Fault("Failed to parse response")
    ensures outcome.Replied? && ResponseResult(outcome.reply, Some(id), codec).Rejected? ==>
      c == Fault("Failed to parse response")
    ensures outcome.SendFailed? ==> c == Fault(outcome.reason)
    ensures outcome.Replied? && ResponseResult(outcome.reply, Some(id), codec).Node? ==>
      var node := ResponseResult(outcome.reply, Some(id), codec).node;
      c == if raw then Done(node) else Unwrap(node, codec.render)
  {
    match outcome
    case SendFailed(reason) => Fault(reason)
    case Replied(reply) =>
      ResponseResultCases(reply, Some(id), codec);
      match ResponseResult(reply, Some(id), codec)
      case Rejected(_) => Fault("Failed to parse response")
      case Node(node) => if raw then Done(node) else Unwrap(node, codec.render)
  }

  /** An NDJSON body whose read fails before the line after the skipped ones is terminated
      fails the call: readLine loses that partial line with the exception, so the scan ends
      on the read failure whatever the partial line holds. */
  lemma FailedBodyLosesTail(reply: HttpReply, id: int, raw: bool, codec: Codec, lines: seq<string>, tail: string)
    requires reply.status < 400 && Contains(reply.contentType, "ndjson")
    requires reply.body.failure.Some?
    requires Utf8Text(codec, reply.body.bytes) == JoinLines(lines) + tail
    requires forall j :: 0 <= j < |lines| ==> NoLineBreak(lines[j]) && LineVerdict(lines[j], Some(id), codec) == Skip
    requires NoLineBreak(tail)
    ensures ResponseResult(reply, Some(id), codec) == Rejected(ReadError(reply.body.failure.value))
    ensures Settlement(Replied(reply), id, raw, codec) == Fault("Failed to parse response")
  {
    BufferedLinesOf(reply.body, codec, lines, tail);
    NdjsonReplyScans(reply, Some(id), codec);
    ScanPastAll(lines, Some(id), reply.body.failure, codec);
  }

  /** A successful reply with an NDJSON content type is the scan of its buffered lines. */
  lemma NdjsonReplyScans(reply: HttpReply, id: Option<int>, codec: Codec)
    requires reply.status < 400 && Contains(reply.contentType, "ndjson")
    ensures ResponseResult(reply, id, codec) == NdjsonScan(BufferedLines(reply.body, codec), 0, id, reply.body.failure, codec)
  {
  }

  /** A scan that reads past every line ends the way the body ended. */
  lemma ScanPastAll(lines: seq<string>, id: Option<int>, failure: Option<string>, codec: Codec)
    requires forall k :: 0 <= k < |lines| ==> LineVerdict(lines[k], id, codec) == Skip
    ensures NdjsonScan(lines, 0, id, failure, codec) ==
      if failure.Some? then Rejected(ReadError(failure.value)) else Rejected(NoResponse)
  {
    ScanSkipsPassing(lines, 0, |lines|, id, failure, codec);
  }

  /** parseNdjson's read loop with its early returns. */
  method ParseNdjson(lines: seq<string>, failure: Option<string>, id: Option<int>, codec: Codec) returns (r: Parsed)
    ensures r == NdjsonScan(lines, 0, id, failure, codec)
  {
    var i := 0;
    while i < |lines|
      invariant i <= |lines|
      invariant NdjsonScan(lines, i, id, failure, codec) == NdjsonScan(lines, 0, id, failure, codec)
      decreases |lines| - i
    {
      var payload := Trim(lines[i]);
      assert LineVerdict(lines[i], id, codec).Skip? ==> NdjsonScan(lines, i + 1, id, failure, codec) == NdjsonScan(lines, i, id, failure, codec);
      i := i + 1;
      if payload == [] {
        continue;
      }
      var node := codec.parse(payload);
      if node.None? {
        return Rejected(BadJson);
      }
      if id.None? {
        return Node(node.value);
      }
      if Has(node.value, "id") && AsInt(node.value.fields["id"]) == id.value {
        return Node(node.value);
      }
    }
    if failure.Some? {
      return Rejected(ReadError(failure.value));
    }
    return Rejected(NoResponse);
  }

  /** parseResponse. */
  method ParseResponse(reply: HttpReply, id: Option<int>, codec: Codec) returns (r: Parsed)
    ensures r == ResponseResult(reply, id, codec)
  {
    if reply.status >= 400 {
      if reply.body.failure.Some? {
        return Rejected(ReadError(reply.body.failure.value));
      }
      return Rejected(HttpError(reply.status));
    }
    if Contains(reply.contentType, "ndjson") || Contains(reply.contentType, "jsonlines") {
      r := ParseNdjson(BufferedLines(reply.body, codec), reply.body.failure, id, codec);
      return;
    }
    if reply.body.failure.Some? {
      return Rejected(ReadError(reply.body.failure.value));
    }
    var body := Trim(Utf8Text(codec, reply.body.bytes));
    if body == [] {
      return Node(JObj(map[]));
    }
    var node := codec.parse(body);
    if node.None? {
      return Rejected(BadJson);
    }
    return Node(node.value);
  }

  // ---------------------------------------------------------------- the client

  class StreamableHttpMcpClient {
    const codec: Codec
    /** The configured headers, in iteration order; they go out with every POST, whose
        building is not part of this model. */
    const headers: seq<Header>
    var nextId: int
    var futures: nat
    /** The calls made with requestRaw. */
    var rawCalls: set<nat>
    var outcomes: map<nat, Completion>
    /** The body of every POST so far, in order. */
    var posted: seq<Json>

    ghost predicate Valid()
      reads this
    {
      && nextId == IdOf(futures)
      && (forall c :: c in outcomes ==> c < futures)
      && (forall c :: c in rawCalls ==> c < futures)
    }

    constructor (codec: Codec, headers: seq<Header>)
      ensures Valid()
      ensures this.codec == codec && this.headers == headers
      ensures nextId == 1 && futures == 0 && rawCalls == {} && outcomes == map[] && posted == []
    {
      this.codec := codec;
      this.headers := headers;
      nextId := 1;
      futures := 0;
      rawCalls := {};
      outcomes := map[];
      posted := [];
    }

    /** request and requestRaw: the next id, and one POST of the request. */
    method Request(methodName: string, params: Option<Json>, raw: bool) returns (call: nat)
      requires Valid()
      modifies this`nextId, this`futures, this`rawCalls, this`posted
      ensures Valid()
      ensures call == old(futures) && futures == old(futures) + 1 && call !in outcomes
      ensures old(nextId) == IdOf(call) && nextId == Wrap32(old(nextId) + 1)
      ensures rawCalls == if raw then old(rawCalls) + {call} else old(rawCalls)
      ensures posted == old(posted) + [Envelope(Some(old(nextId)), methodName, params)]
    {
      var id := nextId;
      IdOfNext(futures);
      nextId := Wrap32(nextId + 1);
      call := futures;
      futures := futures + 1;
      if raw {
        rawCalls := rawCalls + {call};
      }
      posted := posted + [Envelope(Some(id), methodName, params)];
    }

    /** One operation: `tools/call` through requestRaw, every other one through request. */
    method Invoke(op: Operation) returns (call: nat)
      requires Valid()
      modifies this`nextId, this`futures, this`rawCalls, this`posted
      ensures Valid()
      ensures call == old(futures) && call !in outcomes
      ensures call in rawCalls <==> IsRaw(op)
      ensures posted == old(posted) + [Envelope(Some(old(nextId)), MethodName(op), Params(op))]
    {
      call := Request(MethodName(op), Params(op), IsRaw(op));
    }

    /** notify: one POST without an id and no id taken. */
    method Notify(methodName: string, params: Option<Json>)
      requires Valid()
      modifies this`posted
      ensures Valid()
      ensures posted == old(posted) + [Envelope(None, methodName, params)]
    {
      posted := posted + [Envelope(None, methodName, params)];
    }

    /** The POST of call `call` ended: its future completes with the parsed reply. */
    method Answer(call: nat, outcome: PostOutcome)
      requires Valid() && call < futures
      modifies this`outcomes
      ensures Valid()
      ensures outcomes == Complete(old(outcomes), call, Settlement(outcome, IdOf(call), call in rawCalls, codec))
    {
      var c: Completion;
      match outcome {
        case SendFailed(reason) =>
          c := Fault(reason);
        case Replied(reply) =>
          var parsed := ParseResponse(reply, Some(IdOf(call)), codec);
          if parsed.Rejected? {
            c := Fault("Failed to parse response");
          } else if call in rawCalls {
            c := Done(parsed.node);
          } else {
            c := Unwrap(parsed.node, codec.render);
          }
      }
      outcomes := Complete(outcomes, call, c);
    }

    /** The thenApply stage of initialize: `initialized` is sent once the call has a result,
        and the caller gets that result. */
    method AfterInitialize(call: nat) returns (r: Option<Completion>)
      requires Valid()
      modifies this`posted
      ensures Valid()
      ensures r.Some? <==> call in outcomes
      ensures r.Some? ==> r.value == outcomes[call]
      ensures r.Some? && r.value.Done? ==> posted == old(posted) + [Envelope(None, "initialized", None)]
      ensures !(r.Some? && r.value.Done?) ==> posted == old(posted)
    {
      if call !in outcomes {
        return None;
      }
      r := Some(outcomes[call]);
      if r.value.Done? {
        Notify("initialized", None);
      }
    }
  }
}
