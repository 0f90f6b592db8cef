/** The SSE MCP client: requests are POSTed to a message endpoint that the server announces on
    a long-lived event stream (or that is configured, or derived from the stream's URL), and
    responses come back as events on that stream.

    As in the stdio connection, the n-th CompletableFuture created for a request is call n;
    `pending` maps a JSON-RPC id to the call waiting under it and `outcomes` records how each
    completed call's response future ended. */
module SseClient {
  import opened Wrappers
  import opened Text
  import opened Json
  import opened Rpc
  import opened Wire
  import opened Futures

  // ---------------------------------------------------------------- the message endpoint

  /** The parts of java.net.URI the endpoint derivation reads; each getter may return null. */
  datatype Uri = Uri(scheme: Option<string>, authority: Option<string>, path: Option<string>, query: Option<string>)

  predicate IsLineTerminator(c: char) {
    c == '\n' || c == '\r' || c == '\U{85}' || c == '\U{2028}' || c == '\U{2029}'
  }

  /** The line terminator at the end of `s` before which a regex `$` also matches ("\r\n" or a
      single terminator character), as a length. */
  function FinalTerminator(s: string): (t: nat)
    ensures t <= |s|
    ensures t > 0 ==> IsLineTerminator(s[|s| - 1])
  {
    if EndsWith(s, "\r\n") then 2
    else if |s| > 0 && IsLineTerminator(s[|s| - 1]) then 1
    else 0
  }

  /** The length of a `/sse/?` match that ends exactly at the end of `body`, 0 for none; the
      leftmost match is the longer one. */
  function SseMatch(body: string): (k: nat)
    ensures k == 0 || k == 4 || k == 5
    ensures k <= |body|
    ensures k == 5 ==> EndsWith(body, "/sse/")
    ensures k == 4 ==> EndsWith(body, "/sse")
    ensures k == 0 <==> !EndsWith(body, "/sse/") && !EndsWith(body, "/sse")
  {
    if EndsWith(body, "/sse/") then 5 else if EndsWith(body, "/sse") then 4 else 0
  }

  /** The path without its final line terminator. */
  function PathBody(path: string): string {
    path[..|path| - FinalTerminator(path)]
  }

  /** A path the `/sse/?$` pattern matches. */
  predicate SseSuffixed(path: string) {
    SseMatch(PathBody(path)) > 0
  }

  /** `path.replaceFirst("/sse/?$", "/message")`. */
  function ReplaceSseSuffix(path: string): string {
    var body := PathBody(path);
    var k := SseMatch(body);
    if k == 0 then path else body[..|body| - k] + "/message" + path[|body|..]
  }

  /** The replacement changes a path exactly when the pattern matches it, and then the path's
      stem is kept, "/sse" or "/sse/" becomes "/message" and a final line terminator stays. */
  lemma ReplaceSseSuffixShape(path: string) returns (stem: string)
    ensures !SseSuffixed(path) <==> ReplaceSseSuffix(path) == path
    ensures SseSuffixed(path) ==>
      && (PathBody(path) == stem + "/sse" || PathBody(path) == stem + "/sse/")
      && ReplaceSseSuffix(path) == stem + "/message" + path[|PathBody(path)|..]
  {
    var body := PathBody(path);
    var k := SseMatch(body);
    stem := body[..|body| - k];
    if k > 0 {
      assert body == stem + body[|body| - k..];
      assert |ReplaceSseSuffix(path)| != |path|;
    }
  }

  /** The derived endpoint no longer matches the pattern: deriving again changes nothing. */
  lemma ReplaceSseSuffixIdempotent(path: string)
    ensures ReplaceSseSuffix(ReplaceSseSuffix(path)) == ReplaceSseSuffix(path)
  {
    if !SseSuffixed(path) {
      Unmatched(path);
    } else {
      var stem := ReplaceSseSuffixShape(path);
      var body := PathBody(path);
      var term := path[|body|..];
      var y := stem + "/message";
      assert path == body + term;
      assert y[|y| - 2..] == "ge";
      DerivedPathBody(body, y, term);
      var r := y + term;
      assert ReplaceSseSuffix(path) == r;
      MessagePathUnmatched(y);
      Unmatched(r);
    }
  }

  lemma Unmatched(path: string)
    requires SseMatch(PathBody(path)) == 0
    ensures ReplaceSseSuffix(path) == path
  {
  }

  /** The path derived from a matched one: its body is the replaced text before the same
      terminator. */
  lemma DerivedPathBody(x: string, y: string, term: string)
    requires FinalTerminator(x + term) == |term|
    requires |y| >= 2 && y[|y| - 2..] == "ge"
    ensures PathBody(y + term) == y
  {
    TerminatorKept(x, y, term);
    var q := y + term;
    assert q[..|q| - |term|] == y;
  }

  /** A final line terminator stays one when the text before it is replaced by text ending in
      "ge". */
  lemma TerminatorKept(x: string, y: string, term: string)
    requires FinalTerminator(x + term) == |term|
    requires |y| >= 2 && y[|y| - 2..] == "ge"
    ensures FinalTerminator(y + term) == |term|
  {
    var p, q := x + term, y + term;
    if |term| == 2 {
      assert p[|p| - 2..] == term == q[|q| - 2..];
    } else if |term| == 1 {
      assert p[|p| - 1] == term[0] == q[|q| - 1];
      assert q[|q| - 2] == 'e';
    } else {
      assert q == y;
      assert q[|q| - 1] == 'e';
    }
  }

  lemma MessagePathUnmatched(b: string)
    requires |b| >= 2 && b[|b| - 2..] == "ge"
    ensures SseMatch(b) == 0
  {
    assert b[|b| - 1] == 'e' && b[|b| - 2] == 'g';
  }

  lemma {:induction false} ContainsAt(s: string, part: string, i: nat)
    requires i + |part| <= |s| && s[i..i + |part|] == part
    ensures Contains(s, part)
    decreases i
  {
    if i > 0 {
      assert s[1..][i - 1..i - 1 + |part|] == part;
      ContainsAt(s[1..], part, i - 1);
    } else {
      assert s[..|part|] == part;
    }
  }

  /** A path the pattern matches contains "/sse", so the `contains` guard never rejects it. */
  lemma SseSuffixedContains(path: string)
    requires SseSuffixed(path)
    ensures Contains(path, "/sse")
  {
    var body := PathBody(path);
    var i := |body| - SseMatch(body);
    assert path[i..i + 4] == body[i..i + 4];
    ContainsAt(path, "/sse", i);
  }

  /** deriveMessageEndpoint: a configured message URL wins; otherwise an SSE URL whose path ends
      in "/sse" or "/sse/" gives the same scheme, authority and query with "/message" in place
      of that suffix; anything else gives null (None). `uri` is the parse of `sseUrl`. */
  function DeriveMessageEndpoint(sseUrl: Option<string>, messageUrl: Option<string>, uri: Uri): Option<string> {
    if Configured(messageUrl) then messageUrl
    else if sseUrl.None? || IsBlank(sseUrl.value) then None
    else if uri.path.None? || !Contains(uri.path.value, "/sse") then None
    else
      var updated := ReplaceSseSuffix(uri.path.value);
      if updated == uri.path.value then None
      else
        var base := NullText(uri.scheme) + "://" + NullText(uri.authority) + updated;
        if uri.query.Some? && !IsBlank(uri.query.value) then Some(base + "?" + uri.query.value) else Some(base)
  }

  predicate Configured(messageUrl: Option<string>) {
    messageUrl.Some? && !IsBlank(messageUrl.value)
  }

  /** When the derivation yields an endpoint: a configured message URL is taken as it is;
      otherwise exactly a non-blank SSE URL whose path the pattern matches gives one. */
  lemma DeriveMessageEndpointCases(sseUrl: Option<string>, messageUrl: Option<string>, uri: Uri)
    ensures Configured(messageUrl) ==> DeriveMessageEndpoint(sseUrl, messageUrl, uri) == messageUrl
    ensures !Configured(messageUrl) ==>
      var derivable := sseUrl.Some? && !IsBlank(sseUrl.value) && uri.path.Some? && SseSuffixed(uri.path.value);
      DeriveMessageEndpoint(sseUrl, messageUrl, uri).Some? <==> derivable
  {
    if !Configured(messageUrl) && sseUrl.Some? && !IsBlank(sseUrl.value) && uri.path.Some? {
      var path := uri.path.value;
      assert ReplaceSseSuffix(path) == path <==> !SseSuffixed(path) by {
        var _ := ReplaceSseSuffixShape(path);
      }
      assert SseSuffixed(path) ==> Contains(path, "/sse") by {
        if SseSuffixed(path) {
          SseSuffixedContains(path);
        }
      }
    }
  }

  /** What the constructor logs: the configured message endpoint, or else the derived fallback
      when there is one, and nothing otherwise. `uri` is the parse of `sseUrl`. */
  function ConstructorLog(sseUrl: string, messageUrl: Option<string>, uri: Uri): (r: seq<string>)
    ensures |r| <= 1
    ensures Configured(messageUrl) ==> r == ["configured message endpoint " + messageUrl.value]
    ensures !Configured(messageUrl) ==>
      (r != [] <==> !IsBlank(sseUrl) && uri.path.Some? && SseSuffixed(uri.path.value))
  {
    var fallback := DeriveMessageEndpoint(Some(sseUrl), messageUrl, uri);
    DeriveMessageEndpointCases(Some(sseUrl), messageUrl, uri);
    if Configured(messageUrl) then ["configured message endpoint " + messageUrl.value]
    else if fallback.Some? then ["fallback message endpoint " + fallback.value]
    else []
  }

  /** The exception the constructor's URI.create calls throw, if any: the SSE URL is parsed
      first, then the message endpoint deriveMessageEndpoint gives, configured or derived (a
      configured one is parsed once more after that, with the same outcome). `uri` is the
      parse of `sseUrl`. */
  function ConstructorFailure(sseUrl: string, messageUrl: Option<string>, uri: Uri, codec: Codec): (r: Option<string>)
    ensures codec.uriError(sseUrl).Some? ==> r == codec.uriError(sseUrl)
    ensures r.None? ==> codec.uriError(sseUrl).None?
    ensures Configured(messageUrl) ==>
      (r.None? <==> codec.uriError(sseUrl).None? && codec.uriError(messageUrl.value).None?)
    ensures !Configured(messageUrl) && codec.uriError(sseUrl).None? && r.Some? ==>
      DeriveMessageEndpoint(Some(sseUrl), messageUrl, uri).Some?
  {
    DeriveMessageEndpointCases(Some(sseUrl), messageUrl, uri);
    if codec.uriError(sseUrl).Some? then codec.uriError(sseUrl)
    else match DeriveMessageEndpoint(Some(sseUrl), messageUrl, uri)
      case None => None
      case Some(endpoint) => codec.uriError(endpoint)
  }

  /** looksLikeUrl on an already trimmed payload: non-blank and, lower-cased, starting with
      "http://" or "https://" (no non-ASCII character lower-cases into those prefixes). */
  predicate LooksLikeUrl(value: string) {
    && !IsBlank(value)
    && (StartsWith(ToLowerAscii(value), "http://") || StartsWith(ToLowerAscii(value), "https://"))
  }

  /** mapper.valueToTree of callTool's Map<String, String> meta, sent only when non-null and
      non-empty. */
  function MetaNode(meta: Option<map<string, string>>): (r: Option<Json>)
    ensures Present(r) <==> meta.Some? && meta.value != map[]
    ensures r.Some? ==> r.value.JObj? && r.value.fields.Keys == meta.value.Keys
    ensures r.Some? ==> forall k :: k in meta.value ==> r.value.fields[k] == JStr(meta.value[k])
  {
    if meta.Some? && meta.value != map[] then Some(JObj(map k | k in meta.value :: JStr(meta.value[k])))
    else None
  }

  // ---------------------------------------------------------------- client state

  /** One HTTP POST of a serialised message. */
  datatype Post = Post(target: string, message: Json)

  /** What the client holds: the message endpoint once known (the completed messageEndpoint
      future), the calls waiting for a response, how completed calls ended, the POSTs made and
      the messages waiting for an endpoint, in send order. */
  datatype Sse = Sse(
    endpoint: Option<string>,
    pending: map<int, nat>,
    outcomes: map<nat, Completion>,
    posts: seq<Post>,
    awaiting: seq<Json>)

  /** After `futures` calls: every waiting call is an issued, not yet completed call filed under
      its own id; only issued calls completed; messages wait only while no endpoint is known,
      and a known endpoint is never blank. */
  predicate SseValid(st: Sse, futures: nat) {
    && (forall id :: id in st.pending ==> st.pending[id] < futures && st.pending[id] !in st.outcomes && id == IdOf(st.pending[id]))
    && (forall c :: c in st.outcomes ==> c < futures)
    && (st.awaiting != [] ==> st.endpoint.None?)
    && (st.endpoint.Some? ==> !IsBlank(st.endpoint.value))
  }

  /** No call is lost: each issued call has completed or waits under its id. */
  predicate Accounted(st: Sse, futures: nat) {
    forall c: nat :: c < futures ==> c in st.outcomes || (IdOf(c) in st.pending && st.pending[IdOf(c)] == c)
  }

  /** The messages of a run of POSTs. */
  /** Some POST so far carried a message with this id. */
  predicate PostedId(posts: seq<Post>, id: int) {
    exists i :: 0 <= i < |posts| && Has(posts[i].message, "id") && AsInt(posts[i].message.fields["id"]) == id
  }

  function Messages(posts: seq<Post>): (r: seq<Json>)
    ensures |r| == |posts|
    ensures forall i :: 0 <= i < |posts| ==> r[i] == posts[i].message
  {
    seq(|posts|, i requires 0 <= i < |posts| => posts[i].message)
  }

  /** Every message handed to send so far: the ones POSTed, then the ones still waiting. */
  function Sent(st: Sse): seq<Json> {
    Messages(st.posts) + st.awaiting
  }

  /** `st` goes to `r` without harm: the bookkeeping stays valid, no call is lost that was not
      lost before (while ids have not wrapped), no completed call changes its outcome, a call
      stops waiting only by completing, and no POST is taken back. */
  predicate Keeps(st: Sse, r: Sse, futures: nat) {
    && SseValid(r, futures)
    && (futures <= IdSpace && Accounted(st, futures) ==> Accounted(r, futures))
    && (forall c :: c in st.outcomes ==> c in r.outcomes && r.outcomes[c] == st.outcomes[c])
    && (forall id :: id in st.pending ==> st.pending[id] in r.outcomes || (id in r.pending && r.pending[id] == st.pending[id]))
    && st.posts <= r.posts
  }

  lemma KeepsChain(a: Sse, b: Sse, c: Sse, futures: nat)
    requires Keeps(a, b, futures) && Keeps(b, c, futures)
    ensures Keeps(a, c, futures)
  {
  }

  /** Messages to `target`, one POST each, in order. */
  function PostAll(target: string, messages: seq<Json>): (r: seq<Post>)
    ensures |r| == |messages|
    ensures forall i :: 0 <= i < |r| ==> r[i] == Post(target, messages[i])
  {
    seq(|messages|, i requires 0 <= i < |messages| => Post(target, messages[i]))
  }

  /** send after its future is filed: POSTed at once to a known endpoint, otherwise left waiting
      for one. */
  function Route(st: Sse, message: Json): Sse {
    if st.endpoint.Some? then st.(posts := st.posts + [Post(st.endpoint.value, message)])
    else st.(awaiting := st.awaiting + [message])
  }

  /** setMessageEndpoint: a null or blank endpoint, or one arriving after the endpoint is known,
      is ignored; otherwise it becomes the endpoint and every waiting message is POSTed to it. */
  function Announce(st: Sse, v: Option<string>): Sse {
    if v.None? || IsBlank(v.value) || st.endpoint.Some? then st
    else st.(endpoint := v, posts := st.posts + PostAll(v.value, st.awaiting), awaiting := [])
  }

  /** setMessageEndpoint with its URI.create: an endpoint that would be taken but is no URI
      throws the parse exception and changes nothing; otherwise the endpoint is announced. */
  function SetEndpoint(st: Sse, v: Option<string>, codec: Codec): (r: Result<Sse>)
    ensures r.Err? <==> v.Some? && !IsBlank(v.value) && st.endpoint.None? && codec.uriError(v.value).Some?
    ensures r.Err? ==> r.error == codec.uriError(v.value).value
    ensures r.Ok? ==> r.value == Announce(st, v)
  {
    if v.None? || IsBlank(v.value) || st.endpoint.Some? then Ok(st)
    else match codec.uriError(v.value)
      case Some(message) => Err(message)
      case None => Ok(Announce(st, v))
  }

  /** The one-second wait of the oldest waiting message runs out: that message is POSTed to the
      fallback endpoint, and the endpoint itself stays unknown. Without a fallback no message
      waits with a timeout. */
  function TimeOut(st: Sse, fallback: Option<string>): Sse {
    if st.awaiting == [] || fallback.None? then st
    else st.(posts := st.posts + [Post(fallback.value, st.awaiting[0])], awaiting := st.awaiting[1..])
  }

  lemma MessagesAppend(a: seq<Post>, b: seq<Post>)
    ensures Messages(a + b) == Messages(a) + Messages(b)
  {
  }

  /** A message sent goes out after every earlier one: POSTed now to the known endpoint, or
      queued behind the waiting ones. */
  lemma RouteAppends(st: Sse, message: Json, futures: nat)
    requires SseValid(st, futures)
    ensures Keeps(st, Route(st, message), futures)
    ensures Sent(Route(st, message)) == Sent(st) + [message]
    ensures st.endpoint.Some? ==> Route(st, message).posts == st.posts + [Post(st.endpoint.value, message)]
    ensures st.endpoint.None? ==> Route(st, message).posts == st.posts
  {
    MessagesAppend(st.posts, [Post(st.endpoint.GetOr(""), message)]);
  }

  /** The first usable endpoint wins for good and releases every waiting message to itself;
      releasing neither loses nor reorders a message. */
  lemma AnnounceFirstWins(st: Sse, v: Option<string>, futures: nat)
    requires SseValid(st, futures)
    ensures Keeps(st, Announce(st, v), futures)
    ensures Sent(Announce(st, v)) == Sent(st)
    ensures st.endpoint.Some? ==> Announce(st, v) == st
    ensures st.endpoint.None? && v.Some? && !IsBlank(v.value) ==>
      var r := Announce(st, v);
      r.endpoint == v && r.awaiting == [] && r.posts == st.posts + PostAll(v.value, st.awaiting)
  {
    var r := Announce(st, v);
    if r != st {
      MessagesAppend(st.posts, PostAll(v.value, st.awaiting));
      assert Messages(PostAll(v.value, st.awaiting)) == st.awaiting;
    }
  }

  /** A timeout POSTs the oldest waiting message to the fallback and leaves the endpoint
      unknown, so an endpoint announced later is still taken. */
  lemma TimeOutKeepsEndpointOpen(st: Sse, fallback: Option<string>, futures: nat)
    requires SseValid(st, futures)
    ensures Keeps(st, TimeOut(st, fallback), futures)
    ensures Sent(TimeOut(st, fallback)) == Sent(st)
    ensures TimeOut(st, fallback).endpoint == st.endpoint
    ensures st.awaiting != [] && fallback.Some? ==>
      TimeOut(st, fallback).posts == st.posts + [Post(fallback.value, st.awaiting[0])]
  {
    if st.awaiting != [] && fallback.Some? {
      MessagesAppend(st.posts, [Post(fallback.value, st.awaiting[0])]);
      assert st.awaiting == [st.awaiting[0]] + st.awaiting[1..];
    }
  }

  /** After a timed-out wait, an endpoint announced later is used for every later message. */
  lemma LateEndpointIsUsed(st: Sse, fallback: Option<string>, v: string, message: Json, futures: nat)
    requires SseValid(st, futures) && st.endpoint.None? && !IsBlank(v)
    ensures var r := Route(Announce(TimeOut(st, fallback), Some(v)), message);
      r.endpoint == Some(v) && r.posts[|r.posts| - 1] == Post(v, message)
  {
  }

  /** Filing call number `futures` under its id keeps the bookkeeping: the new call waits,
      and while ids have not wrapped no other call is displaced. */
  lemma IssueKeeps(st: Sse, futures: nat)
    requires SseValid(st, futures)
    ensures var r := st.(pending := st.pending[IdOf(futures) := futures]);
      && SseValid(r, futures + 1)
      && (futures + 1 <= IdSpace && Accounted(st, futures) ==> Accounted(r, futures + 1))
  {
    var r := st.(pending := st.pending[IdOf(futures) := futures]);
    if futures + 1 <= IdSpace && Accounted(st, futures) {
      forall k: nat | k < futures + 1 ensures k in r.outcomes || (IdOf(k) in r.pending && r.pending[IdOf(k)] == k) {
        if k < futures {
          IdsDistinct(k, futures);
        }
      }
    }
  }

  // ---------------------------------------------------------------- the event stream

  /** `pending.remove(id)` followed by completing the future it held. */
  function Settle(st: Sse, id: int, c: Completion): Sse
    requires id in st.pending
  {
    st.(pending := st.pending - {id}, outcomes := Complete(st.outcomes, st.pending[id], c))
  }

  lemma SettleKeeps(st: Sse, id: int, c: Completion, futures: nat)
    requires SseValid(st, futures) && id in st.pending
    ensures Keeps(st, Settle(st, id, c), futures)
    ensures Sent(Settle(st, id, c)) == Sent(st)
    ensures Settle(st, id, c).outcomes[st.pending[id]] == c
  {
    var r := Settle(st, id, c);
    if futures <= IdSpace && Accounted(st, futures) {
      forall k: nat | k < futures ensures k in r.outcomes || (IdOf(k) in r.pending && r.pending[IdOf(k)] == k) {
        assert k in st.outcomes || (IdOf(k) in st.pending && st.pending[IdOf(k)] == k);
      }
    }
  }

  /** handleEvent on a non-empty, trimmed payload: a URL announces the endpoint; otherwise the
      payload is parsed; an object with "endpoint" announces it while no endpoint is known; an
      object with an id completes the call waiting under that id with the whole message. An
      exception is given as the message failAll then fails the waiting calls with: readTree's
      is checked, so "SSE failure"; URI.create's is a RuntimeException, so its own message. */
  function Event(st: Sse, payload: string, codec: Codec): Result<Sse> {
    var trimmed := Trim(payload);
    if LooksLikeUrl(trimmed) then SetEndpoint(st, Some(trimmed), codec)
    else match codec.parse(payload)
      case None => Err("SSE failure")
      case Some(node) =>
        if Has(node, "endpoint") && st.endpoint.None? then SetEndpoint(st, AsText(node.fields["endpoint"]), codec)
        else if Has(node, "id") then
          var id := AsInt(node.fields["id"]);
          if id in st.pending then Ok(Settle(st, id, Done(node))) else Ok(st)
        else Ok(st)
  }

  /** An event never breaks the bookkeeping nor loses a sent message. */
  lemma EventKeeps(st: Sse, payload: string, codec: Codec, futures: nat)
    requires SseValid(st, futures)
    ensures Event(st, payload, codec).Ok? ==>
      Keeps(st, Event(st, payload, codec).value, futures) && Sent(Event(st, payload, codec).value) == Sent(st)
  {
    var trimmed := Trim(payload);
    if LooksLikeUrl(trimmed) {
      AnnounceFirstWins(st, Some(trimmed), futures);
    } else if codec.parse(payload).Some? {
      var node := codec.parse(payload).value;
      if Has(node, "endpoint") && st.endpoint.None? {
        AnnounceFirstWins(st, AsText(node.fields["endpoint"]), futures);
      } else if Has(node, "id") && AsInt(node.fields["id"]) in st.pending {
        SettleKeeps(st, AsInt(node.fields["id"]), Done(node), futures);
      }
    }
  }

  /** A response event completes the call waiting under its id with the whole message. */
  lemma ResponseCompletesCall(st: Sse, payload: string, codec: Codec, node: Json)
    requires !LooksLikeUrl(Trim(payload)) && codec.parse(payload) == Some(node)
    requires !(Has(node, "endpoint") && st.endpoint.None?)
    requires Has(node, "id") && AsInt(node.fields["id"]) in st.pending
    requires st.pending[AsInt(node.fields["id"])] !in st.outcomes
    ensures var r := Event(st, payload, codec);
      && r.Ok?
      && AsInt(node.fields["id"]) !in r.value.pending
      && r.value.outcomes[st.pending[AsInt(node.fields["id"])]] == Done(node)
  {
  }

  /** Where parseSseStream's loop stops: the state then, and the failure message of the
      exception that ended it, if one did. */
  datatype SseRun = SseRun(state: Sse, fault: Option<string>)

  /** The state and the accumulated event data after one line. */
  datatype LineDone = LineDone(state: Sse, data: string)

  /** One line of parseSseStream's loop with `data` accumulated: a "data:" line adds its text
      without leading whitespace and a newline; a blank line hands the trimmed data, when
      non-empty, to handleEvent and starts a new event; other lines are ignored. An error where
      handleEvent throws. */
  function LineStep(st: Sse, line: string, data: string, codec: Codec): Result<LineDone> {
    if StartsWith(line, "data:") then Ok(LineDone(st, data + StripLeading(line[5..]) + "\n"))
    else if IsBlank(line) then
      var payload := Trim(data);
      if payload == [] then Ok(LineDone(st, []))
      else match Event(st, payload, codec)
        case Err(message) => Err(message)
        case Ok(next) => Ok(LineDone(next, []))
    else Ok(LineDone(st, data))
  }

  /** parseSseStream's loop from line `i` on; an event that throws ends it. */
  function EventRun(st: Sse, lines: seq<string>, i: nat, data: string, codec: Codec): SseRun
    requires i <= |lines|
    decreases |lines| - i
  {
    if i == |lines| then SseRun(st, None)
    else match LineStep(st, lines[i], data, codec)
      case Err(message) => SseRun(st, Some(message))
      case Ok(done) => EventRun(done.state, lines, i + 1, done.data, codec)
  }

  lemma LineStepKeeps(st: Sse, line: string, data: string, codec: Codec, futures: nat)
    requires SseValid(st, futures)
    ensures LineStep(st, line, data, codec).Ok? ==>
      var r := LineStep(st, line, data, codec).value.state;
      Keeps(st, r, futures) && Sent(r) == Sent(st)
  {
    if !StartsWith(line, "data:") && IsBlank(line) && Trim(data) != [] {
      EventKeeps(st, Trim(data), codec, futures);
    }
  }

  lemma {:induction false} EventRunKeeps(st: Sse, lines: seq<string>, i: nat, data: string, codec: Codec, futures: nat)
    requires i <= |lines| && SseValid(st, futures)
    ensures Keeps(st, EventRun(st, lines, i, data, codec).state, futures)
    ensures Sent(EventRun(st, lines, i, data, codec).state) == Sent(st)
    decreases |lines| - i
  {
    if i < |lines| && LineStep(st, lines[i], data, codec).Ok? {
      var done := LineStep(st, lines[i], data, codec).value;
      LineStepKeeps(st, lines[i], data, codec, futures);
      EventRunKeeps(done.state, lines, i + 1, done.data, codec, futures);
      KeepsChain(st, done.state, EventRun(done.state, lines, i + 1, done.data, codec).state, futures);
    }
  }

  /** failAll: every waiting call fails with the exception's message and the table is emptied. */
  function FailPending(st: Sse, reason: string): Sse {
    st.(pending := map[], outcomes := FailCalls(st.outcomes, st.pending.Values, reason))
  }

  lemma FailPendingKeeps(st: Sse, reason: string, futures: nat)
    requires SseValid(st, futures)
    ensures Keeps(st, FailPending(st, reason), futures)
    ensures Sent(FailPending(st, reason)) == Sent(st)
    ensures forall id :: id in st.pending ==> FailPending(st, reason).outcomes[st.pending[id]] == Fault(reason)
  {
    var r := FailPending(st, reason);
    forall c: nat | c in r.outcomes ensures c < futures {
      if c !in st.outcomes {
        WaitingCallHasId(st.pending, c);
      }
    }
    forall id | id in st.pending ensures r.outcomes[st.pending[id]] == Fault(reason) {
      assert st.pending[id] in st.pending.Values;
    }
    if futures <= IdSpace && Accounted(st, futures) {
      forall c: nat | c < futures ensures c in r.outcomes {
        if IdOf(c) in st.pending && st.pending[IdOf(c)] == c {
          assert c in st.pending.Values;
        }
      }
    }
  }

  /** The message the catch block of parseSseStream fails the waiting calls with: the thrown
      event's, or "SSE failure" for a read that throws; None when nothing was thrown. */
  function RunFault(run: SseRun, s: Stream): (r: Option<string>)
    ensures run.fault.Some? ==> r == run.fault
    ensures run.fault.None? ==> (r.Some? <==> s.failure.Some?) && (r.Some? ==> r.value == "SSE failure")
  {
    if run.fault.Some? then run.fault else if s.failure.Some? then Some("SSE failure") else None
  }

  /** parseSseStream as a whole: the events are handled; an event or read that throws fails
      every waiting call as `RunFault` says; then, in every case, the calls still waiting fail
      with "SSE stream ended". */
  function StreamEnd(st: Sse, s: Stream, codec: Codec): Sse {
    var run := EventRun(st, BufferedLines(s, codec), 0, [], codec);
    var fault := RunFault(run, s);
    var failed := if fault.Some? then FailPending(run.state, fault.value) else run.state;
    FailPending(failed, "SSE stream ended")
  }

  /** Lines that only carry data dispatch nothing: the state stays as it was. */
  lemma {:induction false} DataLinesDispatchNothing(st: Sse, lines: seq<string>, i: nat, data: string, codec: Codec)
    requires i <= |lines|
    requires forall j :: i <= j < |lines| ==> StartsWith(lines[j], "data:")
    ensures EventRun(st, lines, i, data, codec) == SseRun(st, None)
    decreases |lines| - i
  {
    if i < |lines| {
      var next := data + StripLeading(lines[i][5..]) + "\n";
      DataLineStep(st, lines[i], data, codec);
      DataLinesDispatchNothing(st, lines, i + 1, next, codec);
    }
  }

  lemma DataLineStep(st: Sse, line: string, data: string, codec: Codec)
    requires StartsWith(line, "data:")
    ensures LineStep(st, line, data, codec) == Ok(LineDone(st, data + StripLeading(line[5..]) + "\n"))
  {
  }

  /** An event whose closing blank line is still partial when a read fails is never handled:
      readLine loses the partial line with the exception, so every call that waited fails
      with "SSE failure". */
  lemma FailedStreamLosesPartialLine(st: Sse, s: Stream, codec: Codec, lines: seq<string>, tail: string, futures: nat)
    requires SseValid(st, futures) && s.failure.Some?
    requires Utf8Text(codec, s.bytes) == JoinLines(lines) + tail
    requires forall j :: 0 <= j < |lines| ==> NoLineBreak(lines[j]) && StartsWith(lines[j], "data:")
    requires NoLineBreak(tail)
    ensures forall id :: id in st.pending ==>
      st.pending[id] in StreamEnd(st, s, codec).outcomes && StreamEnd(st, s, codec).outcomes[st.pending[id]] == Fault("SSE failure")
  {
    BufferedLinesOf(s, codec, lines, tail);
    DataLinesDispatchNothing(st, lines, 0, [], codec);
    var failed := FailPending(st, "SSE failure");
    assert StreamEnd(st, s, codec) == FailPending(failed, "SSE stream ended");
    FailedTwice(st, "SSE failure", "SSE stream ended", futures);
  }

  /** Failing the waiting calls a second time leaves the first failure in place. */
  lemma FailedTwice(st: Sse, first: string, second: string, futures: nat)
    requires SseValid(st, futures)
    ensures forall id :: id in st.pending ==>
      var outcomes := FailPending(FailPending(st, first), second).outcomes;
      st.pending[id] in outcomes && outcomes[st.pending[id]] == Fault(first)
  {
    var failed := FailPending(st, first);
    FailPendingKeeps(st, first, futures);
    forall id | id in st.pending
      ensures st.pending[id] in FailPending(failed, second).outcomes
      ensures FailPending(failed, second).outcomes[st.pending[id]] == Fault(first)
    {
      assert st.pending[id] in failed.outcomes;
    }
  }

  /** No call outlives the event stream: when it ends, every call that waited has completed and
      the table is empty; nothing sent is lost. */
  lemma StreamEndSettlesAll(st: Sse, s: Stream, codec: Codec, futures: nat)
    requires SseValid(st, futures)
    ensures Keeps(st, StreamEnd(st, s, codec), futures)
    ensures Sent(StreamEnd(st, s, codec)) == Sent(st)
    ensures StreamEnd(st, s, codec).pending == map[]
    ensures forall id :: id in st.pending ==> st.pending[id] in StreamEnd(st, s, codec).outcomes
  {
    var run := EventRun(st, BufferedLines(s, codec), 0, [], codec);
    EventRunKeeps(st, BufferedLines(s, codec), 0, [], codec, futures);
    var fault := RunFault(run, s);
    var failed := if fault.Some? then FailPending(run.state, fault.value) else run.state;
    if fault.Some? {
      FailPendingKeeps(run.state, fault.value, futures);
      KeepsChain(st, run.state, failed, futures);
    }
    FailPendingKeeps(failed, "SSE stream ended", futures);
    KeepsChain(st, failed, StreamEnd(st, s, codec), futures);
  }

  /** An endpoint announcement that URI.create rejects, while no endpoint is known, throws out
      of handleEvent with the parse exception's message and changes nothing. */
  lemma RejectedEndpointThrows(st: Sse, payload: string, codec: Codec)
    requires st.endpoint.None? && LooksLikeUrl(Trim(payload))
    requires codec.uriError(Trim(payload)).Some?
    ensures Event(st, payload, codec) == Err(codec.uriError(Trim(payload)).value)
  {
  }

  /** An event that throws ends the stream: every call still waiting then fails with that
      exception's message, and the stream-end failure after it changes none of them. */
  lemma ThrownEventFailsWaiting(st: Sse, s: Stream, codec: Codec, futures: nat)
    requires SseValid(st, futures)
    requires EventRun(st, BufferedLines(s, codec), 0, [], codec).fault.Some?
    ensures var run := EventRun(st, BufferedLines(s, codec), 0, [], codec);
      forall id :: id in run.state.pending ==>
        && run.state.pending[id] in StreamEnd(st, s, codec).outcomes
        && StreamEnd(st, s, codec).outcomes[run.state.pending[id]] == Fault(run.fault.value)
  {
    var run := EventRun(st, BufferedLines(s, codec), 0, [], codec);
    EventRunKeeps(st, BufferedLines(s, codec), 0, [], codec, futures);
    FailedTwice(run.state, run.fault.value, "SSE stream ended", futures);
  }

  // ---------------------------------------------------------------- POST replies

  /** How the POST of a request ended: an HTTP status, or an exception from sendAsync. */
  datatype PostOutcome = Status(code: int) | SendError(reason: string)

  /** The handle stage of postMessage for call `call`: a send exception or a status of 400 or
      more removes the id and fails the call; any other status leaves the call waiting for its
      response event. */
  function Answered(st: Sse, call: nat, outcome: PostOutcome): Sse {
    match outcome
    case SendError(reason) => Drop(st, call, reason)
    case Status(code) => if code >= 400 then Drop(st, call, "HTTP " + IntToString(code) + " from server") else st
  }

  function Drop(st: Sse, call: nat, reason: string): Sse {
    st.(pending := st.pending - {IdOf(call)}, outcomes := Complete(st.outcomes, call, Fault(reason)))
  }

  /** A failed POST fails its call with the status or the exception, and only that call. */
  lemma AnsweredKeeps(st: Sse, call: nat, outcome: PostOutcome, futures: nat)
    requires SseValid(st, futures) && call < futures
    ensures SseValid(Answered(st, call, outcome), futures)
    ensures forall c :: c in st.outcomes ==>
      c in Answered(st, call, outcome).outcomes && Answered(st, call, outcome).outcomes[c] == st.outcomes[c]
    ensures futures <= IdSpace ==> Keeps(st, Answered(st, call, outcome), futures)
    ensures Sent(Answered(st, call, outcome)) == Sent(st)
    ensures outcome.Status? && outcome.code < 400 ==> Answered(st, call, outcome) == st
    ensures outcome.Status? && outcome.code >= 400 && call !in st.outcomes ==>
      Answered(st, call, outcome).outcomes[call] == Fault("HTTP " + IntToString(outcome.code) + " from server")
    ensures outcome.SendError? && call !in st.outcomes ==> Answered(st, call, outcome).outcomes[call] == Fault(outcome.reason)
  {
    var r := Answered(st, call, outcome);
    if r != st && futures <= IdSpace {
      forall id | id in st.pending && id == IdOf(call) ensures st.pending[id] == call {
        var k := st.pending[id];
        if k < call { IdsDistinct(k, call); } else if call < k { IdsDistinct(call, k); }
      }
      if Accounted(st, futures) {
        forall k: nat | k < futures ensures k in r.outcomes || (IdOf(k) in r.pending && r.pending[IdOf(k)] == k) {
          assert k in st.outcomes || (IdOf(k) in st.pending && st.pending[IdOf(k)] == k);
        }
      }
    }
  }

  // ---------------------------------------------------------------- the client

  class SseMcpClient {
    const codec: Codec
    /** The endpoint derived at construction, used when the announced one does not come. */
    const fallback: Option<string>
    var nextId: int
    var futures: nat
    /** The calls made with requestRaw, whose callers get the whole response message. */
    var rawCalls: set<nat>
    var streamStarted: bool
    var endpoint: Option<string>
    var pending: map<int, nat>
    var outcomes: map<nat, Completion>
    var posts: seq<Post>
    var awaiting: seq<Json>
    /** The calls whose POST has come back: the caller's future, composed after resolveEndpoint
        and the POST's handle stage, completes only once its call is here. */
    var answered: set<nat>
    /** Every payload handed to send, in order. */
    ghost var sent: seq<Json>

    function Snapshot(): Sse
      reads this
    {
      Sse(endpoint, pending, outcomes, posts, awaiting)
    }

    ghost predicate Valid()
      reads this
    {
      && nextId == IdOf(futures)
      && SseValid(Snapshot(), futures)
      && (futures <= IdSpace ==> Accounted(Snapshot(), futures))
      && (forall c :: c in rawCalls ==> c < futures)
      && Sent(Snapshot()) == sent
    }

    /** The constructor: a configured message URL is the endpoint from the start; the fallback
        is derived from the SSE URL (`uri` is its parse). */
    constructor (sseUrl: string, messageUrl: Option<string>, uri: Uri, codec: Codec)
      ensures Valid()
      ensures this.codec == codec && fallback == DeriveMessageEndpoint(Some(sseUrl), messageUrl, uri)
      ensures endpoint == if Configured(messageUrl) then messageUrl else None
      ensures nextId == 1 && futures == 0 && !streamStarted && rawCalls == {}
      ensures pending == map[] && outcomes == map[] && posts == [] && awaiting == [] && sent == []
      ensures answered == {}
    {
      this.codec := codec;
      fallback := DeriveMessageEndpoint(Some(sseUrl), messageUrl, uri);
      nextId := 1;
      futures := 0;
      rawCalls := {};
      streamStarted := false;
      endpoint := if Configured(messageUrl) then messageUrl else None;
      pending := map[];
      outcomes := map[];
      posts := [];
      awaiting := [];
      answered := {};
      sent := [];
    }

    /** send: starts the event stream on first use and POSTs the payload to the known endpoint
        or leaves it waiting for one. */
    method Send(payload: Json)
      requires Valid()
      modifies this`streamStarted, this`posts, this`awaiting, this`sent
      ensures Valid() && streamStarted
      ensures Snapshot() == Route(old(Snapshot()), payload)
      ensures sent == old(sent) + [payload]
    {
      RouteAppends(Snapshot(), payload, futures);
      streamStarted := true;
      if endpoint.Some? {
        posts := posts + [Post(endpoint.value, payload)];
      } else {
        awaiting := awaiting + [payload];
      }
      sent := sent + [payload];
    }

    /** Takes the next id and files a new call under it. */
    method Issue(raw: bool) returns (call: nat)
      requires Valid()
      modifies this`nextId, this`futures, this`rawCalls, this`pending
      ensures Valid()
      ensures call == old(futures) && futures == old(futures) + 1 && call !in outcomes
      ensures old(nextId) == IdOf(call) && nextId == Wrap32(old(nextId) + 1)
      ensures rawCalls == if raw then old(rawCalls) + {call} else old(rawCalls)
      ensures pending == old(pending)[old(nextId) := call]
    {
      IssueKeeps(Snapshot(), futures);
      call := futures;
      nextId := Wrap32(nextId + 1);
      futures := futures + 1;
      if raw {
        rawCalls := rawCalls + {call};
      }
      pending := pending[IdOf(call) := call];
    }

    /** request and requestRaw: the next id, a new call waiting under it, and the request sent. */
    method Request(methodName: string, params: Option<Json>, raw: bool) returns (call: nat)
      requires Valid()
      modifies this
      ensures Valid() && streamStarted
      ensures call == old(futures) && futures == old(futures) + 1 && call !in outcomes
      ensures nextId == Wrap32(old(nextId) + 1)
      ensures rawCalls == if raw then old(rawCalls) + {call} else old(rawCalls)
      ensures pending == old(pending)[old(nextId) := call] && outcomes == old(outcomes)
      ensures answered == old(answered)
      ensures var message := Envelope(Some(old(nextId)), methodName, params);
        && sent == old(sent) + [message]
        && Snapshot() == Route(old(Snapshot()).(pending := pending), message)
    {
      var id := nextId;
      call := Issue(raw);
      Send(Envelope(Some(id), methodName, params));
    }

    /** One operation of the McpClient contract: `tools/call` through requestRaw, every other
        operation through request; SSE's initialize sends no configuration. */
    method Invoke(op: Operation) returns (call: nat)
      requires Valid()
      requires op.Initialize? ==> op.configuration.None?
      modifies this
      ensures Valid()
      ensures call == old(futures) && call !in outcomes
      ensures call in rawCalls <==> IsRaw(op)
      ensures sent == old(sent) + [Envelope(Some(old(nextId)), MethodName(op), Params(op))]
    {
      call := Request(MethodName(op), Params(op), IsRaw(op));
    }

    /** notify: a message without an id. */
    method Notify(methodName: string, params: Option<Json>)
      requires Valid()
      modifies this`streamStarted, this`posts, this`awaiting, this`sent
      ensures Valid()
      ensures sent == old(sent) + [Envelope(None, methodName, params)]
    {
      Send(Envelope(None, methodName, params));
    }

    /** What the caller's future ends with, once the call has an outcome and its POST has come
        back: a requestRaw call gets the response message itself, a request call gets it
        unwrapped. A call whose message was never POSTed has none. */
    method CallerOutcome(call: nat) returns (r: Option<Completion>)
      ensures r.Some? <==> call in outcomes && call in answered
      ensures r.Some? && call in rawCalls ==> r.value == outcomes[call]
      ensures r.Some? && call !in rawCalls && outcomes[call].Fault? ==> r.value == outcomes[call]
      ensures r.Some? && call !in rawCalls && outcomes[call].Done? ==> r.value == Unwrap(outcomes[call].value, codec.render)
    {
      if call !in outcomes || call !in answered {
        return None;
      }
      var c := outcomes[call];
      if call in rawCalls || c.Fault? {
        return Some(c);
      }
      return Some(Unwrap(c.value, codec.render));
    }

    /** The thenApply stage of initialize: `initialized` is sent once the call has a result. */
    method AfterInitialize(call: nat) returns (r: Option<Completion>)
      requires Valid()
      modifies this`streamStarted, this`posts, this`awaiting, this`sent
      ensures Valid()
      ensures r.Some? <==> call in outcomes && call in answered
      ensures r.Some? && r.value.Done? ==> sent == old(sent) + [Envelope(None, "initialized", None)]
      ensures !(r.Some? && r.value.Done?) ==> sent == old(sent) && posts == old(posts)
    {
      r := CallerOutcome(call);
      if r.Some? && r.value.Done? {
        Notify("initialized", None);
      }
    }

    /** setMessageEndpoint; `failure` is the message of the exception URI.create throws. */
    method SetMessageEndpoint(v: Option<string>) returns (failure: Option<string>)
      requires Valid()
      modifies this`endpoint, this`posts, this`awaiting
      ensures Valid()
      ensures failure.None? <==> SetEndpoint(old(Snapshot()), v, codec).Ok?
      ensures failure.None? ==> Snapshot() == SetEndpoint(old(Snapshot()), v, codec).value
      ensures failure.Some? ==> failure.value == SetEndpoint(old(Snapshot()), v, codec).error && Snapshot() == old(Snapshot())
    {
      AnnounceFirstWins(Snapshot(), v, futures);
      if v.None? || IsBlank(v.value) || endpoint.Some? {
        return None;
      }
      failure := codec.uriError(v.value);
      if failure.Some? {
        return;
      }
      posts := posts + PostAll(v.value, awaiting);
      awaiting := [];
      endpoint := v;
    }

    /** The fallback timeout of the oldest waiting message fires. */
    method EndpointTimeout()
      requires Valid()
      modifies this`posts, this`awaiting
      ensures Valid()
      ensures Snapshot() == TimeOut(old(Snapshot()), fallback)
    {
      TimeOutKeepsEndpointOpen(Snapshot(), fallback, futures);
      if awaiting == [] || fallback.None? {
        return;
      }
      posts := posts + [Post(fallback.value, awaiting[0])];
      awaiting := awaiting[1..];
    }

    /** handleEvent; `failure` is the message failAll is given where it throws. */
    method HandleEvent(payload: string) returns (failure: Option<string>)
      requires Valid()
      modifies this`endpoint, this`posts, this`awaiting, this`pending, this`outcomes
      ensures Valid()
      ensures failure.None? <==> Event(old(Snapshot()), payload, codec).Ok?
      ensures failure.None? ==> Snapshot() == Event(old(Snapshot()), payload, codec).value
      ensures failure.Some? ==> failure.value == Event(old(Snapshot()), payload, codec).error && Snapshot() == old(Snapshot())
    {
      EventKeeps(Snapshot(), payload, codec, futures);
      var trimmed := Trim(payload);
      if LooksLikeUrl(trimmed) {
        failure := SetMessageEndpoint(Some(trimmed));
        return;
      }
      var node := codec.parse(payload);
      if node.None? {
        return Some("SSE failure");
      }
      failure := None;
      if Has(node.value, "endpoint") && endpoint.None? {
        failure := SetMessageEndpoint(AsText(node.value.fields["endpoint"]));
        return;
      }
      if Has(node.value, "id") {
        var id := AsInt(node.value.fields["id"]);
        if id in pending {
          var future := pending[id];
          pending := pending - {id};
          outcomes := Complete(outcomes, future, Done(node.value));
        }
      }
    }

    /** failAll. */
    method FailAll(reason: string)
      requires Valid()
      modifies this`pending, this`outcomes
      ensures Valid()
      ensures Snapshot() == FailPending(old(Snapshot()), reason)
    {
      FailPendingKeeps(Snapshot(), reason, futures);
      outcomes := FailEach(outcomes, pending, reason);
      pending := map[];
    }

    /** One iteration of parseSseStream's loop. */
    method HandleLine(line: string, data: string) returns (rest: string, failure: Option<string>)
      requires Valid()
      modifies this`endpoint, this`posts, this`awaiting, this`pending, this`outcomes
      ensures Valid()
      ensures failure.None? <==> LineStep(old(Snapshot()), line, data, codec).Ok?
      ensures failure.None? ==> LineStep(old(Snapshot()), line, data, codec).value == LineDone(Snapshot(), rest)
      ensures failure.Some? ==> failure.value == LineStep(old(Snapshot()), line, data, codec).error && Snapshot() == old(Snapshot())
    {
      if StartsWith(line, "data:") {
        return data + StripLeading(line[5..]) + "\n", None;
      }
      if !IsBlank(line) {
        return data, None;
      }
      var payload := Trim(data);
      rest := [];
      failure := None;
      if payload != [] {
        failure := HandleEvent(payload);
      }
    }

    /** parseSseStream over the body of an accepted event stream. */
    method ParseSseStream(s: Stream)
      requires Valid() && streamStarted
      modifies this`endpoint, this`posts, this`awaiting, this`pending, this`outcomes
      ensures Valid()
      ensures Snapshot() == StreamEnd(old(Snapshot()), s, codec)
    {
      var lines := BufferedLines(s, codec);
      var data: string := [];
      var fault: Option<string> := None;
      var i := 0;
      while i < |lines|
        invariant i <= |lines| && Valid()
        invariant EventRun(Snapshot(), lines, i, data, codec) == EventRun(old(Snapshot()), lines, 0, [], codec)
        decreases |lines| - i
      {
        var failure;
        data, failure := HandleLine(lines[i], data);
        if failure.Some? {
          fault := failure;
          break;
        }
        i := i + 1;
      }
      if fault.Some? {
        FailAll(fault.value);
      } else if s.failure.Some? {
        FailAll("SSE failure");
      }
      FailAll("SSE stream ended");
    }

    /** The event stream's HTTP response: a status of 400 or more fails every waiting call,
        otherwise the body is parsed as an event stream. */
    method StreamOpened(status: int, body: Stream)
      requires Valid() && streamStarted
      modifies this`endpoint, this`posts, this`awaiting, this`pending, this`outcomes
      ensures Valid()
      ensures status >= 400 ==> Snapshot() == FailPending(old(Snapshot()), "HTTP " + IntToString(status) + " from SSE server")
      ensures status < 400 ==> Snapshot() == StreamEnd(old(Snapshot()), body, codec)
    {
      if status >= 400 {
        FailAll("HTTP " + IntToString(status) + " from SSE server");
      } else {
        ParseSseStream(body);
      }
    }

    /** The POST of call `call`, already made, came back. */
    method PostAnswered(call: nat, outcome: PostOutcome)
      requires Valid() && call < futures && PostedId(posts, IdOf(call))
      modifies this`pending, this`outcomes, this`answered
      ensures Valid()
      ensures Snapshot() == Answered(old(Snapshot()), call, outcome)
      ensures answered == old(answered) + {call}
    {
      AnsweredKeeps(Snapshot(), call, outcome, futures);
      answered := answered + {call};
      var reason: string;
      match outcome {
        case SendError(m) =>
          reason := m;
        case Status(code) =>
          if code < 400 {
            return;
          }
          reason := "HTTP " + IntToString(code) + " from server";
      }
      pending := pending - {IdOf(call)};
      outcomes := Complete(outcomes, call, Fault(reason));
    }
  }

  // ---------------------------------------------------------------- the endpoint future as written

  /** messageEndpoint as the code treats it: orTimeout acts on the shared future itself, so the
      first fallback timeout completes it exceptionally for good. */
  datatype EndpointFuture = Unresolved | Resolved(uri: string) | Expired

  /** Where a send goes. */
  datatype Destination = PostTo(uri: string) | Wait | Refused

  /** resolveEndpoint followed by thenCompose, before any timeout fires: a known endpoint is
      POSTed to, an expired future fails the send, an unresolved one makes it wait. */
  function RouteAsWritten(f: EndpointFuture): Destination {
    match f
    case Resolved(u) => PostTo(u)
    case Expired => Refused
    case Unresolved => Wait
  }

  /** `messageEndpoint.orTimeout(1, SECONDS)` firing with a fallback: the waiting send goes to
      the fallback and the shared future itself is now completed with a TimeoutException. */
  function TimeOutAsWritten(f: EndpointFuture, fallback: string): (Destination, EndpointFuture) {
    if f.Unresolved? then (PostTo(fallback), Expired) else (RouteAsWritten(f), f)
  }

  /** setMessageEndpoint, whose guard `messageEndpoint.isDone()` also holds for an expired
      future. */
  function AnnounceAsWritten(f: EndpointFuture, v: Option<string>): EndpointFuture {
    if v.None? || IsBlank(v.value) || !f.Unresolved? then f else Resolved(v.value)
  }

  /** The server announces its endpoint two seconds late: the first request is POSTed to the
      fallback, the announcement is then ignored, and every later request fails. */
  lemma LateEndpointRefusedAsWritten()
    ensures var (first, f1) := TimeOutAsWritten(Unresolved, "http://h/message");
      && first == PostTo("http://h/message")
      && AnnounceAsWritten(f1, Some("http://h/messages?sessionId=1")) == Expired
      && RouteAsWritten(AnnounceAsWritten(f1, Some("http://h/messages?sessionId=1"))) == Refused
  {
    assert !IsBlank("http://h/messages?sessionId=1") by {
      assert !IsWhitespace("http://h/messages?sessionId=1"[0]);
    }
  }
}
