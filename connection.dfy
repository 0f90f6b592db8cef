/** The stdio JSON-RPC connection: one id counter shared by request and requestRaw, two tables
    of calls awaiting a response (unwrapped and raw), the writer, and the reader loop that
    dispatches responses and fails every waiting call when it stops on an exception.

    A CompletableFuture is identified by a call number: the n-th future created is call n. The
    tables map a JSON-RPC id to the call waiting under it, and `outcomes` records how each
    completed call ended. */
module Connection {
  import opened Wrappers
  import opened Text
  import opened Json
  import opened Rpc
  import opened Wire
  import opened Futures

  datatype Tables = Tables(pending: map<int, nat>, pendingRaw: map<int, nat>, outcomes: map<nat, Completion>)

  /** The bookkeeping after `futures` calls: every waiting call is an issued, not yet completed
      call filed under its own id; no call waits in both tables; only issued calls completed. */
  predicate TablesValid(t: Tables, futures: nat) {
    && (forall id :: id in t.pending ==> t.pending[id] < futures && t.pending[id] !in t.outcomes && id == IdOf(t.pending[id]))
    && (forall id :: id in t.pendingRaw ==> t.pendingRaw[id] < futures && t.pendingRaw[id] !in t.outcomes && id == IdOf(t.pendingRaw[id]))
    && (forall i, j :: i in t.pending && j in t.pendingRaw ==> t.pending[i] != t.pendingRaw[j])
    && (forall c :: c in t.outcomes ==> c < futures)
  }

  /** No call is lost: each issued call has completed or waits under its id. */
  predicate Accounted(t: Tables, futures: nat) {
    forall c: nat :: c < futures ==>
      || c in t.outcomes
      || (IdOf(c) in t.pending && t.pending[IdOf(c)] == c)
      || (IdOf(c) in t.pendingRaw && t.pendingRaw[IdOf(c)] == c)
  }

  /** While fewer than 2^32 calls were issued, no id is in both tables at once. */
  lemma NoIdInBothTables(t: Tables, futures: nat)
    requires TablesValid(t, futures) && futures <= IdSpace
    ensures t.pending.Keys !! t.pendingRaw.Keys
  {
    forall id | id in t.pending && id in t.pendingRaw ensures false {
      var a, b := t.pending[id], t.pendingRaw[id];
      if a < b {
        IdsDistinct(a, b);
      } else if b < a {
        IdsDistinct(b, a);
      }
    }
  }

  /** The bookkeeping goes from `t` to `r` without harm: it stays valid, no call is lost that
      was not lost before, and no completed call changes its outcome. */
  predicate Keeps(t: Tables, r: Tables, futures: nat) {
    && TablesValid(r, futures)
    && (Accounted(t, futures) ==> Accounted(r, futures))
    && (forall c :: c in t.outcomes ==> c in r.outcomes && r.outcomes[c] == t.outcomes[c])
  }

  lemma KeepsChain(a: Tables, b: Tables, c: Tables, futures: nat)
    requires Keeps(a, b, futures) && Keeps(b, c, futures)
    ensures Keeps(a, c, futures)
  {
  }

  /** `pending.remove(id)` followed by completing the future it held. */
  function Settle(t: Tables, id: int, c: Completion): Tables
    requires id in t.pending
  {
    t.(pending := t.pending - {id}, outcomes := Complete(t.outcomes, t.pending[id], c))
  }

  /** `pendingRaw.remove(id)` followed by completing the future it held. */
  function SettleRaw(t: Tables, id: int, c: Completion): Tables
    requires id in t.pendingRaw
  {
    t.(pendingRaw := t.pendingRaw - {id}, outcomes := Complete(t.outcomes, t.pendingRaw[id], c))
  }

  /** A call leaves the unwrapped table only by completing, and nothing else moves. */
  lemma SettleKeepsValid(t: Tables, id: int, c: Completion, futures: nat)
    requires TablesValid(t, futures) && id in t.pending
    ensures Keeps(t, Settle(t, id, c), futures)
    ensures t.pending[id] in Settle(t, id, c).outcomes
  {
    var r := Settle(t, id, c);
    if Accounted(t, futures) {
      forall k: nat | k < futures
        ensures || k in r.outcomes
                || (IdOf(k) in r.pending && r.pending[IdOf(k)] == k)
                || (IdOf(k) in r.pendingRaw && r.pendingRaw[IdOf(k)] == k)
      {
        assert || k in t.outcomes
               || (IdOf(k) in t.pending && t.pending[IdOf(k)] == k)
               || (IdOf(k) in t.pendingRaw && t.pendingRaw[IdOf(k)] == k);
      }
    }
  }

  /** A call leaves the raw table only by completing, and nothing else moves. */
  lemma SettleRawKeepsValid(t: Tables, id: int, c: Completion, futures: nat)
    requires TablesValid(t, futures) && id in t.pendingRaw
    ensures Keeps(t, SettleRaw(t, id, c), futures)
    ensures t.pendingRaw[id] in SettleRaw(t, id, c).outcomes
  {
    var r := SettleRaw(t, id, c);
    if Accounted(t, futures) {
      forall k: nat | k < futures
        ensures || k in r.outcomes
                || (IdOf(k) in r.pending && r.pending[IdOf(k)] == k)
                || (IdOf(k) in r.pendingRaw && r.pendingRaw[IdOf(k)] == k)
      {
        assert || k in t.outcomes
               || (IdOf(k) in t.pending && t.pending[IdOf(k)] == k)
               || (IdOf(k) in t.pendingRaw && t.pendingRaw[IdOf(k)] == k);
      }
    }
  }

  /** handleMessage: a response with an id and a result or an error goes to the raw table first,
      which receives the whole message; otherwise to the unwrapped table, which receives the
      result, or fails with the serialised error. Anything else changes nothing. */
  function Dispatch(t: Tables, message: Json, render: Json -> string): Tables {
    if Has(message, "id") && Has(message, "result") then
      var id := AsInt(message.fields["id"]);
      if id in t.pendingRaw then SettleRaw(t, id, Done(message))
      else if id in t.pending then Settle(t, id, Done(message.fields["result"]))
      else t
    else if Has(message, "id") && Has(message, "error") then
      var id := AsInt(message.fields["id"]);
      if id in t.pendingRaw then SettleRaw(t, id, Done(message))
      else if id in t.pending then Settle(t, id, Fault(render(message.fields["error"])))
      else t
    else t
  }

  /** Dispatching keeps the bookkeeping, and a call leaves a table only by completing. */
  lemma DispatchKeepsValid(t: Tables, message: Json, render: Json -> string, futures: nat)
    requires TablesValid(t, futures)
    ensures Keeps(t, Dispatch(t, message, render), futures)
    ensures var r := Dispatch(t, message, render);
      && (forall id :: id in t.pending && id !in r.pending ==> t.pending[id] in r.outcomes)
      && (forall id :: id in t.pendingRaw && id !in r.pendingRaw ==> t.pendingRaw[id] in r.outcomes)
  {
    if Has(message, "id") && (Has(message, "result") || Has(message, "error")) {
      var id := AsInt(message.fields["id"]);
      var c := if Has(message, "result") then Done(message.fields["result"]) else Fault(render(message.fields["error"]));
      if id in t.pendingRaw {
        SettleRawKeepsValid(t, id, Done(message), futures);
      } else if id in t.pending {
        SettleKeepsValid(t, id, c, futures);
      }
    }
  }

  /** The catch block of readLoop: every waiting call of both tables fails with the exception
      and both tables are emptied. */
  function Sweep(t: Tables, reason: string): (r: Tables)
    ensures r.pending == map[] && r.pendingRaw == map[]
    ensures forall id :: id in t.pending ==> t.pending[id] in r.outcomes
    ensures forall id :: id in t.pendingRaw ==> t.pendingRaw[id] in r.outcomes
    ensures forall c :: c in t.outcomes ==> c in r.outcomes && r.outcomes[c] == t.outcomes[c]
    ensures r.outcomes.Keys == t.outcomes.Keys + t.pending.Values + t.pendingRaw.Values
  {
    Tables(map[], map[], FailCalls(FailCalls(t.outcomes, t.pending.Values, reason), t.pendingRaw.Values, reason))
  }

  lemma SweepKeepsValid(t: Tables, reason: string, futures: nat)
    requires TablesValid(t, futures)
    ensures Keeps(t, Sweep(t, reason), futures)
    ensures forall id :: id in t.pending ==> Sweep(t, reason).outcomes[t.pending[id]] == Fault(reason)
    ensures forall id :: id in t.pendingRaw ==> Sweep(t, reason).outcomes[t.pendingRaw[id]] == Fault(reason)
  {
    var r := Sweep(t, reason);
    forall c: nat | c in r.outcomes ensures c < futures {
      if c !in t.outcomes {
        if c in t.pending.Values {
          WaitingCallHasId(t.pending, c);
        } else {
          WaitingCallHasId(t.pendingRaw, c);
        }
      }
    }
    forall id | id in t.pending ensures r.outcomes[t.pending[id]] == Fault(reason) {
      assert t.pending[id] in t.pending.Values;
    }
    forall id | id in t.pendingRaw ensures r.outcomes[t.pendingRaw[id]] == Fault(reason) {
      assert t.pendingRaw[id] in t.pendingRaw.Values;
      assert t.pendingRaw[id] !in t.pending.Values by {
        if t.pendingRaw[id] in t.pending.Values {
          WaitingCallHasId(t.pending, t.pendingRaw[id]);
        }
      }
    }
    if Accounted(t, futures) {
      forall c: nat | c < futures ensures c in r.outcomes {
        if IdOf(c) in t.pending && t.pending[IdOf(c)] == c {
          assert c in t.pending.Values;
        } else if IdOf(c) in t.pendingRaw && t.pendingRaw[IdOf(c)] == c {
          assert c in t.pendingRaw.Values;
        }
      }
    }
  }

  /** A cleaned text that looks like JSON and parses is dispatched; anything else is only
      logged. */
  function Deliver(t: Tables, cleaned: string, codec: Codec): Tables {
    if !LooksLikeJson(cleaned) then t
    else match codec.parse(cleaned)
      case None => t
      case Some(message) => Dispatch(t, message, codec.render)
  }

  /** One NDJSON line: ANSI sequences stripped and the result trimmed; blank and non-JSON lines
      never reach the tables. */
  function NdjsonLine(t: Tables, line: string, codec: Codec): (r: Tables)
    ensures IsBlank(Trim(StripAnsi(line))) || !LooksLikeJson(Trim(StripAnsi(line))) ==> r == t
  {
    var cleaned := Trim(StripAnsi(line));
    if IsBlank(cleaned) then t else Deliver(t, cleaned, codec)
  }

  /** One Content-Length body: decoded as UTF-8, ANSI sequences stripped, trimmed. A body cut
      off by the end of the stream before its first byte is the empty text and reaches no
      table. */
  function BodyMessage(t: Tables, body: seq<byte>, codec: Codec): (r: Tables)
    ensures body == [] ==> r == t
  {
    var cleaned := Trim(StripAnsi(Utf8Text(codec, body)));
    assert body == [] ==> !LooksLikeJson(cleaned) by {
      if body == [] {
        assert StripAnsi([]) == [];
        assert Trim([]) == [];
      }
    }
    Deliver(t, cleaned, codec)
  }

  /** Where a reader loop stops: the tables then, and the exception that stopped it, if any. */
  datatype RunEnd = RunEnd(tables: Tables, fault: Option<string>)

  /** readNdjson from `pos` on: line by line until end of stream or a read exception. */
  function NdjsonRun(t: Tables, s: Stream, pos: nat, codec: Codec): RunEnd
    requires pos <= |s.bytes|
    decreases |s.bytes| - pos
  {
    match LineAt(s, pos)
    case EndOfStream => RunEnd(t, None)
    case ReadFailed(m) => RunEnd(t, Some(m))
    case Line(text, next) => NdjsonRun(NdjsonLine(t, text, codec), s, next, codec)
  }

  /** readContentLength from `pos` on: blank lines before a frame are skipped; a frame whose
      length is not positive is dropped without reading a body; a header that is not an integer
      or a read exception stops the loop. */
  function ContentLengthRun(t: Tables, s: Stream, pos: nat, codec: Codec): RunEnd
    requires pos <= |s.bytes|
    decreases |s.bytes| - pos
  {
    match FrameAt(s, pos)
    case FramesEnd => RunEnd(t, None)
    case FrameFault(m) => RunEnd(t, Some(m))
    case BlankSkipped(next) => ContentLengthRun(t, s, next, codec)
    case FrameDropped(next) => ContentLengthRun(t, s, next, codec)
    case FrameBody(body, next) => ContentLengthRun(BodyMessage(t, body, codec), s, next, codec)
  }

  function Run(framing: Framing, t: Tables, s: Stream, codec: Codec): RunEnd {
    if framing == Ndjson then NdjsonRun(t, s, 0, codec) else ContentLengthRun(t, s, 0, codec)
  }

  /** readLoop: the tables after the reader stops, swept when it stopped on an exception. */
  function ReadLoopResult(framing: Framing, t: Tables, s: Stream, codec: Codec): Tables {
    var e := Run(framing, t, s, codec);
    if e.fault.Some? then Sweep(e.tables, e.fault.value) else e.tables
  }

  lemma DeliverKeepsValid(t: Tables, cleaned: string, codec: Codec, futures: nat)
    requires TablesValid(t, futures)
    ensures Keeps(t, Deliver(t, cleaned, codec), futures)
  {
    if LooksLikeJson(cleaned) && codec.parse(cleaned).Some? {
      DispatchKeepsValid(t, codec.parse(cleaned).value, codec.render, futures);
    }
  }

  lemma {:induction false} NdjsonRunKeepsValid(t: Tables, s: Stream, pos: nat, codec: Codec, futures: nat)
    requires pos <= |s.bytes|
    requires TablesValid(t, futures)
    ensures Keeps(t, NdjsonRun(t, s, pos, codec).tables, futures)
    decreases |s.bytes| - pos
  {
    match LineAt(s, pos)
    case EndOfStream =>
    case ReadFailed(_) =>
    case Line(text, next) =>
      var t' := NdjsonLine(t, text, codec);
      DeliverKeepsValid(t, Trim(StripAnsi(text)), codec, futures);
      NdjsonRunKeepsValid(t', s, next, codec, futures);
      KeepsChain(t, t', NdjsonRun(t', s, next, codec).tables, futures);
  }

  lemma {:induction false} ContentLengthRunKeepsValid(t: Tables, s: Stream, pos: nat, codec: Codec, futures: nat)
    requires pos <= |s.bytes|
    requires TablesValid(t, futures)
    ensures Keeps(t, ContentLengthRun(t, s, pos, codec).tables, futures)
    decreases |s.bytes| - pos
  {
    var f := FrameAt(s, pos);
    if f.BlankSkipped? || f.FrameDropped? {
      assert ContentLengthRun(t, s, pos, codec) == ContentLengthRun(t, s, f.next, codec);
      ContentLengthRunKeepsValid(t, s, f.next, codec, futures);
    } else if f.FrameBody? {
      var t' := BodyMessage(t, f.data, codec);
      assert ContentLengthRun(t, s, pos, codec) == ContentLengthRun(t', s, f.next, codec);
      BodyMessageKeepsValid(t, f.data, codec, futures);
      ContentLengthRunKeepsValid(t', s, f.next, codec, futures);
      KeepsChain(t, t', ContentLengthRun(t', s, f.next, codec).tables, futures);
    } else {
      assert ContentLengthRun(t, s, pos, codec).tables == t;
    }
  }

  lemma BodyMessageKeepsValid(t: Tables, body: seq<byte>, codec: Codec, futures: nat)
    requires TablesValid(t, futures)
    ensures Keeps(t, BodyMessage(t, body, codec), futures)
  {
    var cleaned := Trim(StripAnsi(Utf8Text(codec, body)));
    assert BodyMessage(t, body, codec) == Deliver(t, cleaned, codec);
    DeliverKeepsValid(t, cleaned, codec, futures);
  }

  /** The reader never breaks the bookkeeping; when it stops on an exception both tables end
      empty with every call that waited failed, and a clean end of stream sweeps nothing. */
  lemma ReadLoopOutcome(framing: Framing, t: Tables, s: Stream, codec: Codec, futures: nat)
    requires TablesValid(t, futures)
    ensures Keeps(t, ReadLoopResult(framing, t, s, codec), futures)
    ensures var r := ReadLoopResult(framing, t, s, codec);
      && (Run(framing, t, s, codec).fault.Some? ==> r.pending == map[] && r.pendingRaw == map[])
      && (Run(framing, t, s, codec).fault.None? ==> r == Run(framing, t, s, codec).tables)
  {
    var e := Run(framing, t, s, codec);
    if framing == Ndjson {
      NdjsonRunKeepsValid(t, s, 0, codec, futures);
    } else {
      ContentLengthRunKeepsValid(t, s, 0, codec, futures);
    }
    if e.fault.Some? {
      SweepKeepsValid(e.tables, e.fault.value, futures);
      KeepsChain(t, e.tables, Sweep(e.tables, e.fault.value), futures);
    }
  }

  /** The connection to one stdio server process. */
  class JsonRpcConnection {
    const framing: Framing
    const codec: Codec
    /** The server's stdout, as the reader thread will see it. */
    const input: Stream
    var nextId: int
    var futures: nat
    var pending: map<int, nat>
    var pendingRaw: map<int, nat>
    var outcomes: map<nat, Completion>
    /** Everything written to the server's stdin so far. */
    var output: seq<byte>

    function Snapshot(): Tables
      reads this`pending, this`pendingRaw, this`outcomes
    {
      Tables(pending, pendingRaw, outcomes)
    }

    ghost predicate Valid()
      reads this`nextId, this`futures, this`pending, this`pendingRaw, this`outcomes
    {
      && nextId == IdOf(futures)
      && TablesValid(Snapshot(), futures)
      && (futures <= IdSpace ==> Accounted(Snapshot(), futures))
    }

    constructor (framing: Framing, codec: Codec, input: Stream)
      ensures Valid()
      ensures this.framing == framing && this.codec == codec && this.input == input
      ensures nextId == 1 && futures == 0 && output == []
      ensures pending == map[] && pendingRaw == map[] && outcomes == map[]
    {
      this.framing := framing;
      this.codec := codec;
      this.input := input;
      nextId := 1;
      futures := 0;
      pending := map[];
      pendingRaw := map[];
      outcomes := map[];
      output := [];
    }

    /** The bytes `send` writes for a payload. */
    function Encoded(payload: Json): seq<byte> {
      Frame(framing, codec.utf8Encode(codec.render(payload)))
    }

    /** request: takes the next id, files a new future under it in the unwrapped table and
        writes the request. */
    method Request(methodName: string, params: Option<Json>) returns (call: nat)
      requires Valid()
      modifies this`nextId, this`futures, this`pending, this`output
      ensures Valid()
      ensures call == old(futures) && futures == old(futures) + 1 && call !in outcomes
      ensures nextId == Wrap32(old(nextId) + 1)
      ensures pending == old(pending)[old(nextId) := call]
      ensures pendingRaw == old(pendingRaw) && outcomes == old(outcomes)
      ensures output == old(output) + Encoded(Envelope(Some(old(nextId)), methodName, params))
    {
      var id := nextId;
      call := futures;
      ghost var t := Snapshot();
      IssueKeepsValid(t, t.(pending := t.pending[id := call]), call);
      IdOfNext(call);
      nextId := Wrap32(nextId + 1);
      futures := futures + 1;
      pending := pending[id := call];
      assert Snapshot() == t.(pending := t.pending[id := call]);
      Send(Envelope(Some(id), methodName, params));
    }

    /** requestRaw: as request, but the future is filed in the raw table. */
    method RequestRaw(methodName: string, params: Option<Json>) returns (call: nat)
      requires Valid()
      modifies this`nextId, this`futures, this`pendingRaw, this`output
      ensures Valid()
      ensures call == old(futures) && futures == old(futures) + 1 && call !in outcomes
      ensures nextId == Wrap32(old(nextId) + 1)
      ensures pendingRaw == old(pendingRaw)[old(nextId) := call]
      ensures pending == old(pending) && outcomes == old(outcomes)
      ensures output == old(output) + Encoded(Envelope(Some(old(nextId)), methodName, params))
    {
      var id := nextId;
      call := futures;
      ghost var t := Snapshot();
      IssueKeepsValid(t, t.(pendingRaw := t.pendingRaw[id := call]), call);
      IdOfNext(call);
      nextId := Wrap32(nextId + 1);
      futures := futures + 1;
      pendingRaw := pendingRaw[id := call];
      assert Snapshot() == t.(pendingRaw := t.pendingRaw[id := call]);
      Send(Envelope(Some(id), methodName, params));
    }

    /** notify: writes a message without an id and takes no id. */
    method Notify(methodName: string, params: Option<Json>)
      requires Valid()
      modifies this`output
      ensures Valid()
      ensures output == old(output) + Encoded(Envelope(None, methodName, params))
    {
      Send(Envelope(None, methodName, params));
    }

    method Send(payload: Json)
      modifies this`output
      ensures output == old(output) + Encoded(payload)
    {
      output := output + Frame(framing, codec.utf8Encode(codec.render(payload)));
    }

    /** handleMessage. */
    method HandleMessage(message: Json)
      requires Valid()
      modifies this`pending, this`pendingRaw, this`outcomes
      ensures Valid()
      ensures Snapshot() == Dispatch(old(Snapshot()), message, codec.render)
    {
      DispatchKeepsValid(Snapshot(), message, codec.render, futures);
      if Has(message, "id") && Has(message, "result") {
        var id := AsInt(message.fields["id"]);
        if id in pendingRaw {
          var raw := pendingRaw[id];
          pendingRaw := pendingRaw - {id};
          outcomes := Complete(outcomes, raw, Done(message));
          return;
        }
        if id in pending {
          var future := pending[id];
          pending := pending - {id};
          outcomes := Complete(outcomes, future, Done(message.fields["result"]));
        }
      } else if Has(message, "id") && Has(message, "error") {
        var id := AsInt(message.fields["id"]);
        if id in pendingRaw {
          var raw := pendingRaw[id];
          pendingRaw := pendingRaw - {id};
          outcomes := Complete(outcomes, raw, Done(message));
          return;
        }
        if id in pending {
          var future := pending[id];
          pending := pending - {id};
          outcomes := Complete(outcomes, future, Fault(codec.render(message.fields["error"])));
        }
      }
    }

    /** Hands a cleaned text to handleMessage when it looks like JSON and parses. */
    method DeliverText(cleaned: string)
      requires Valid()
      modifies this`pending, this`pendingRaw, this`outcomes
      ensures Valid()
      ensures Snapshot() == Deliver(old(Snapshot()), cleaned, codec)
    {
      if !LooksLikeJson(cleaned) {
        return;
      }
      var message := codec.parse(cleaned);
      if message.Some? {
        HandleMessage(message.value);
      }
    }

    /** readNdjson. */
    method ReadNdjson() returns (fault: Option<string>)
      requires Valid()
      modifies this`pending, this`pendingRaw, this`outcomes
      ensures Valid()
      ensures RunEnd(Snapshot(), fault) == NdjsonRun(old(Snapshot()), input, 0, codec)
    {
      var pos := 0;
      while true
        invariant pos <= |input.bytes|
        invariant Valid()
        invariant NdjsonRun(Snapshot(), input, pos, codec) == NdjsonRun(old(Snapshot()), input, 0, codec)
        decreases |input.bytes| - pos
      {
        var line := ReadLine(input, pos);
        if line.EndOfStream? {
          return None;
        }
        if line.ReadFailed? {
          return Some(line.reason);
        }
        pos := line.next;
        var cleaned := Trim(StripAnsi(line.text));
        if IsBlank(cleaned) {
          continue;
        }
        DeliverText(cleaned);
      }
    }

    /** readContentLength. */
    method ReadContentLength() returns (fault: Option<string>)
      requires Valid()
      modifies this`pending, this`pendingRaw, this`outcomes
      ensures Valid()
      ensures RunEnd(Snapshot(), fault) == ContentLengthRun(old(Snapshot()), input, 0, codec)
    {
      var pos := 0;
      while true
        invariant pos <= |input.bytes|
        invariant Valid()
        invariant ContentLengthRun(Snapshot(), input, pos, codec) == ContentLengthRun(old(Snapshot()), input, 0, codec)
        decreases |input.bytes| - pos
      {
        ghost var start := pos;
        var line := ReadLine(input, pos);
        if line.EndOfStream? {
          return None;
        }
        if line.ReadFailed? {
          return Some(line.reason);
        }
        pos := line.next;
        if IsBlank(line.text) {
          continue;
        }
        var headers := ReadHeaders(line.text, line.next);
        if headers.HeadersFailed? {
          return Some(headers.reason);
        }
        var contentLength := headers.length;
        pos := headers.after;
        if contentLength <= 0 {
          continue;
        }
        var chunk := ReadN(input, pos, contentLength);
        if chunk.ChunkFailed? {
          return Some(chunk.reason);
        }
        pos := chunk.next;
        FrameAtBody(input, start, line.text, line.next, contentLength, headers.after, chunk.data, pos);
        ghost var before := Snapshot();
        var text := Utf8Text(codec, chunk.data);
        DeliverText(Trim(StripAnsi(text)));
        assert Snapshot() == BodyMessage(before, chunk.data, codec);
      }
    }

    /** The header loop of readContentLength, entered with the first non-blank line of a frame:
        it runs while the line is non-null and non-blank, and a length header that is not an
        integer throws NumberFormatException. */
    method ReadHeaders(first: string, next: nat) returns (r: HeaderEnd)
      requires next <= |input.bytes|
      ensures r == HeaderScan(input, first, next, 0)
    {
      var pos := next;
      var contentLength := 0;
      var current := Line(first, next);
      while current.Line? && !IsBlank(current.text)
        invariant next <= pos <= |input.bytes|
        invariant !current.ReadFailed?
        invariant current.Line? ==> pos == current.next
        invariant current.Line? ==>
          HeaderScan(input, current.text, pos, contentLength) == HeaderScan(input, first, next, 0)
        invariant current.EndOfStream? ==>
          pos == |input.bytes| && HeaderScan(input, first, next, 0) == HeadersDone(contentLength, pos)
        decreases |input.bytes| - pos, if current.Line? then 1 else 0
      {
        if IsLengthHeader(current.text) {
          var parsed := ParseInt(Trim(LengthValue(current.text)));
          if parsed.None? {
            return HeadersFailed(NumberFormatMessage(Trim(LengthValue(current.text))));
          }
          contentLength := parsed.value;
        }
        current := ReadLine(input, pos);
        if current.ReadFailed? {
          return HeadersFailed(current.reason);
        }
        if current.Line? {
          pos := current.next;
        } else {
          pos := |input.bytes|;
        }
      }
      return HeadersDone(contentLength, pos);
    }

    /** The catch block of readLoop: fails every future of the unwrapped table, then of the raw
        table, and clears both. */
    method FailAll(reason: string)
      requires Valid()
      modifies this`pending, this`pendingRaw, this`outcomes
      ensures Valid()
      ensures Snapshot() == Sweep(old(Snapshot()), reason)
    {
      SweepKeepsValid(Snapshot(), reason, futures);
      var o := FailEach(outcomes, pending, reason);
      o := FailEach(o, pendingRaw, reason);
      outcomes := o;
      pending := map[];
      pendingRaw := map[];
    }

    /** readLoop: runs the reader for the framing; an exception fails everything waiting. */
    method ReadLoop()
      requires Valid()
      modifies this`pending, this`pendingRaw, this`outcomes
      ensures Valid()
      ensures Snapshot() == ReadLoopResult(framing, old(Snapshot()), input, codec)
    {
      var fault;
      if framing == Ndjson {
        fault := ReadNdjson();
      } else {
        fault := ReadContentLength();
      }
      if fault.Some? {
        FailAll(fault.value);
      }
    }
  }

  /** Filing a freshly issued call under its id keeps the tables valid for one more call. */
  lemma IssueKeepsValid(t: Tables, t': Tables, call: nat)
    requires TablesValid(t, call)
    requires call <= IdSpace ==> Accounted(t, call)
    requires t'.outcomes == t.outcomes
    requires (t'.pending == t.pending[IdOf(call) := call] && t'.pendingRaw == t.pendingRaw)
          || (t'.pendingRaw == t.pendingRaw[IdOf(call) := call] && t'.pending == t.pending)
    ensures TablesValid(t', call + 1)
    ensures call + 1 <= IdSpace ==> Accounted(t', call + 1)
  {
    AccountedAfterIssue(t, t', call);
  }

  /** A freshly issued call waits under its own id, so no call is lost. */
  lemma AccountedAfterIssue(t: Tables, t': Tables, call: nat)
    requires Accounted(t, call) || call > IdSpace
    requires t'.outcomes == t.outcomes
    requires (t'.pending == t.pending[IdOf(call) := call] && t'.pendingRaw == t.pendingRaw)
          || (t'.pendingRaw == t.pendingRaw[IdOf(call) := call] && t'.pending == t.pending)
    requires forall id :: id in t.pending ==> t.pending[id] < call && id == IdOf(t.pending[id])
    requires forall id :: id in t.pendingRaw ==> t.pendingRaw[id] < call && id == IdOf(t.pendingRaw[id])
    ensures call + 1 <= IdSpace ==> Accounted(t', call + 1)
  {
    if call + 1 <= IdSpace {
      forall c: nat | c < call + 1
        ensures || c in t'.outcomes
                || (IdOf(c) in t'.pending && t'.pending[IdOf(c)] == c)
                || (IdOf(c) in t'.pendingRaw && t'.pendingRaw[IdOf(c)] == c)
      {
        if c < call {
          IdsDistinct(c, call);
        }
      }
    }
  }
}
