/** The byte layer of the stdio JSON-RPC connection: the two framings a message is written in,
    the byte-at-a-time line reader, Content-Length header scanning, ANSI escape stripping and the
    JSON-looking test applied to every line or body that arrives. */
module Wire {
  import opened Wrappers
  import opened Text
  import opened Json

  datatype Framing = Ndjson | ContentLength

  /** A server's stdout: the bytes it will produce, then either end of stream (`failure` is None)
      or an IOException with the given message on the next read. */
  datatype Stream = Stream(bytes: seq<byte>, failure: Option<string>)

  /** The outcome of one readLine call: a line and the position after its terminator, null at
      end of stream, or the IOException the read threw. */
  datatype LineRead = Line(text: string, next: nat) | EndOfStream | ReadFailed(reason: string)

  /** The outcome of readNBytes. */
  datatype Chunk = Chunk(data: seq<byte>, next: nat) | ChunkFailed(reason: string)

  /** The outcome of scanning the header lines of one Content-Length frame. */
  datatype HeaderEnd = HeadersDone(length: int, after: nat) | HeadersFailed(reason: string)

  // ---------------------------------------------------------------- writing

  /** "Content-Length: <n>", the header line without its terminator. */
  function HeaderLine(n: nat): string {
    "Content-Length: " + NatToString(n)
  }

  lemma HeaderLineIsAscii(n: nat)
    ensures IsAscii(HeaderLine(n) + "\r\n\r\n")
  {
    var d := NatToString(n);
    var h := HeaderLine(n) + "\r\n\r\n";
    forall i | 0 <= i < |h| ensures h[i] as int < 128 {
      if 16 <= i < 16 + |d| {
        assert h[i] == d[i - 16];
      }
    }
  }

  /** The bytes `send` writes for a serialised body: NDJSON appends one "\n"; the other framing
      prefixes an ASCII "Content-Length: <byte count>\r\n\r\n" header. */
  function Frame(framing: Framing, body: seq<byte>): (r: seq<byte>)
    ensures framing == Ndjson ==> r == body + [LF]
    ensures framing == ContentLength ==>
      IsAscii(HeaderLine(|body|) + "\r\n\r\n") &&
      r == AsciiEncode(HeaderLine(|body|) + "\r\n\r\n") + body
  {
    match framing
    case Ndjson => body + [LF]
    case ContentLength =>
      HeaderLineIsAscii(|body|);
      AsciiEncode(HeaderLine(|body|) + "\r\n\r\n") + body
  }

  // ---------------------------------------------------------------- line reading

  /** The index of the first "\n" byte at or after `pos`, or |b| when there is none. */
  function NextLF(b: seq<byte>, pos: nat): (k: nat)
    requires pos <= |b|
    ensures pos <= k <= |b|
    ensures k < |b| ==> b[k] == LF
    ensures forall j :: pos <= j < k ==> b[j] != LF
    decreases |b| - pos
  {
    if pos == |b| || b[pos] == LF then pos else NextLF(b, pos + 1)
  }

  /** `b` with every "\r" byte removed, order kept. */
  function DropCR(b: seq<byte>): (r: seq<byte>)
    ensures |r| <= |b|
    ensures forall i :: 0 <= i < |r| ==> r[i] != CR
  {
    if b == [] then []
    else DropCR(b[..|b| - 1]) + (if b[|b| - 1] == CR then [] else [b[|b| - 1]])
  }

  /** What readLine returns when called at `pos`: the bytes up to the next "\n" with every "\r"
      removed, decoded as US-ASCII; at the end of the bytes, the partial last line if it has any
      byte left after removing "\r", null if not, and the stream's exception if it fails there. */
  function LineAt(s: Stream, pos: nat): (r: LineRead)
    requires pos <= |s.bytes|
    ensures r.Line? ==> pos < r.next <= |s.bytes|
  {
    var k := NextLF(s.bytes, pos);
    if k < |s.bytes| then Line(AsciiDecode(DropCR(s.bytes[pos..k])), k + 1)
    else if s.failure.Some? then ReadFailed(s.failure.value)
    else if DropCR(s.bytes[pos..]) == [] then EndOfStream
    else Line(AsciiDecode(DropCR(s.bytes[pos..])), |s.bytes|)
  }

  /** readLine: reads one byte at a time into a growing buffer until "\n" or end of stream,
      skipping "\r". */
  method ReadLine(s: Stream, pos: nat) returns (r: LineRead)
    requires pos <= |s.bytes|
    ensures r == LineAt(s, pos)
  {
    var buffer: seq<byte> := [];
    var i := pos;
    while true
      invariant pos <= i <= |s.bytes|
      invariant forall j :: pos <= j < i ==> s.bytes[j] != LF
      invariant buffer == DropCR(s.bytes[pos..i])
      decreases |s.bytes| - i
    {
      if i == |s.bytes| {
        assert s.bytes[pos..i] == s.bytes[pos..];
        if s.failure.Some? {
          return ReadFailed(s.failure.value);
        }
        if |buffer| == 0 {
          return EndOfStream;
        }
        return Line(AsciiDecode(buffer), i);
      }
      var ch := s.bytes[i];
      if ch == LF {
        return Line(AsciiDecode(buffer), i + 1);
      }
      assert s.bytes[pos..i + 1][..i - pos] == s.bytes[pos..i];
      if ch != CR {
        buffer := buffer + [ch];
      }
      i := i + 1;
    }
  }

  lemma {:induction false} DropCRNoCR(b: seq<byte>)
    requires forall i :: 0 <= i < |b| ==> b[i] != CR
    ensures DropCR(b) == b
  {
    if b != [] {
      DropCRNoCR(b[..|b| - 1]);
    }
  }

  lemma DropCRTrailingCR(b: seq<byte>)
    ensures DropCR(b + [CR]) == DropCR(b)
  {
    assert (b + [CR])[..|b|] == b;
  }

  /** A segment free of "\n" followed by "\n" is read back as one line: its bytes without "\r",
      decoded as US-ASCII. */
  lemma LineAtSegment(s: Stream, pos: nat, seg: seq<byte>)
    requires pos + |seg| < |s.bytes|
    requires s.bytes[pos..pos + |seg|] == seg && s.bytes[pos + |seg|] == LF
    requires forall i :: 0 <= i < |seg| ==> seg[i] != LF
    ensures LineAt(s, pos) == Line(AsciiDecode(DropCR(seg)), pos + |seg| + 1)
  {
    var end := pos + |seg|;
    forall j | pos <= j < end
      ensures s.bytes[j] != LF
    {
      assert s.bytes[j] == s.bytes[pos..end][j - pos];
    }
    NextLFIs(s.bytes, pos, end);
  }

  lemma {:induction false} NextLFIs(b: seq<byte>, pos: nat, end: nat)
    requires pos <= end < |b| && b[end] == LF
    requires forall j :: pos <= j < end ==> b[j] != LF
    ensures NextLF(b, pos) == end
    decreases end - pos
  {
    if pos < end {
      NextLFIs(b, pos + 1, end);
    }
  }

  /** An NDJSON frame of a body without "\n" is read back as that body, "\r" removed. */
  lemma NdjsonFrameReadBack(s: Stream, pos: nat, body: seq<byte>)
    requires forall i :: 0 <= i < |body| ==> body[i] != LF
    requires pos + |Frame(Ndjson, body)| <= |s.bytes|
    requires s.bytes[pos..pos + |Frame(Ndjson, body)|] == Frame(Ndjson, body)
    ensures LineAt(s, pos) == Line(AsciiDecode(DropCR(body)), pos + |body| + 1)
  {
    var f := Frame(Ndjson, body);
    assert s.bytes[pos..pos + |body|] == f[..|body|];
    assert s.bytes[pos + |body|] == f[|body|];
    LineAtSegment(s, pos, body);
  }

  /** readNBytes: up to `n` bytes; fewer at end of stream, the exception when the stream fails
      before `n` bytes arrived. */
  function ReadN(s: Stream, pos: nat, n: nat): (r: Chunk)
    requires pos <= |s.bytes|
    ensures r.Chunk? ==> pos <= r.next <= |s.bytes| && r.data == s.bytes[pos..r.next]
    ensures r.Chunk? ==> |r.data| <= n && (|r.data| < n ==> r.next == |s.bytes|)
    ensures r.ChunkFailed? <==> pos + n > |s.bytes| && s.failure.Some?
  {
    if pos + n <= |s.bytes| then Chunk(s.bytes[pos..pos + n], pos + n)
    else if s.failure.Some? then ChunkFailed(s.failure.value)
    else Chunk(s.bytes[pos..], |s.bytes|)
  }

  // ---------------------------------------------------------------- headers

  /** A header line whose lower-cased form starts with "content-length:". */
  predicate IsLengthHeader(line: string) {
    StartsWith(ToLowerAscii(line), "content-length:")
  }

  /** The text after the first ':' of a length header. */
  function LengthValue(line: string): string
    requires IsLengthHeader(line)
  {
    line[15..]
  }

  /** The message of the NumberFormatException Integer.parseInt throws. */
  function NumberFormatMessage(text: string): string {
    "For input string: \"" + text + "\""
  }

  /** The header loop of one Content-Length frame, from a non-null `line` read just before `pos`:
      it runs while lines are non-null and non-blank; every length header replaces the length
      with its parsed value, and one that is not an integer throws. */
  function HeaderScan(s: Stream, line: string, pos: nat, length: int): (r: HeaderEnd)
    requires pos <= |s.bytes|
    ensures r.HeadersDone? ==> pos <= r.after <= |s.bytes|
    decreases |s.bytes| - pos
  {
    if IsBlank(line) then HeadersDone(length, pos)
    else
      var parsed := if IsLengthHeader(line) then ParseInt(Trim(LengthValue(line))) else Some(length);
      if parsed.None? then HeadersFailed(NumberFormatMessage(Trim(LengthValue(line))))
      else
        match LineAt(s, pos)
        case EndOfStream => HeadersDone(parsed.value, |s.bytes|)
        case ReadFailed(m) => HeadersFailed(m)
        case Line(text, next) => HeaderScan(s, text, next, parsed.value)
  }

  /** The last length header of a frame is the one that counts. */
  lemma LastLengthHeaderWins(s: Stream, line: string, pos: nat, length: int, text: string, next: nat)
    requires pos <= |s.bytes|
    requires !IsBlank(line) && IsLengthHeader(line) && ParseInt(Trim(LengthValue(line))).Some?
    requires LineAt(s, pos) == Line(text, next)
    ensures HeaderScan(s, line, pos, length) == HeaderScan(s, text, next, ParseInt(Trim(LengthValue(line))).value)
  {
  }

  /** A space before a text that starts and ends with a non-trimmable character is trimmed
      away, and nothing else is. */
  lemma SpaceIsTrimmed(d: string)
    requires d != [] && !IsTrimmable(d[0]) && !IsTrimmable(d[|d| - 1])
    ensures Trim(" " + d) == d
  {
    var t := " " + d;
    assert TrimStart(t) == d by {
      assert t[0] == ' ' && t[1..] == d;
      assert TrimStart(t) == TrimStart(d);
    }
    assert TrimEnd(d) == d;
  }

  lemma HeaderLineIsLengthHeader(n: nat)
    ensures IsLengthHeader(HeaderLine(n))
    ensures LengthValue(HeaderLine(n)) == " " + NatToString(n)
  {
    var h := HeaderLine(n);
    var lower := ToLowerAscii(h);
    assert h[..15] == "Content-Length:";
    assert lower[..15] == "content-length:" by {
      forall i | 0 <= i < 15 ensures lower[i] == "content-length:"[i] {
        assert lower[i] == LowerAscii(h[i]);
      }
    }
  }

  /** The header bytes: the header line's characters, which hold no line break, then
      "\r\n\r\n". */
  lemma HeaderBytesShape(n: nat)
    ensures IsAscii(HeaderLine(n) + "\r\n\r\n")
    ensures var enc := AsciiEncode(HeaderLine(n) + "\r\n\r\n");
      && |enc| == |HeaderLine(n)| + 4
      && (forall i :: 0 <= i < |HeaderLine(n)| ==> enc[i] != LF && enc[i] != CR)
      && AsciiDecode(enc[..|HeaderLine(n)|]) == HeaderLine(n)
      && enc[|HeaderLine(n)|..] == [CR, LF, CR, LF]
  {
    HeaderLineIsAscii(n);
    var h := HeaderLine(n);
    var t := h + "\r\n\r\n";
    var enc := AsciiEncode(t);
    forall i | 0 <= i < |h| ensures enc[i] != LF && enc[i] != CR && enc[i] as int == h[i] as int {
      assert t[i] == h[i];
      assert h[i] != '\n' && h[i] != '\r' by {
        var d := NatToString(n);
        if 16 <= i {
          assert h[i] == d[i - 16];
        }
      }
    }
    assert AsciiDecode(enc[..|h|]) == h;
  }

  /** The ASCII header "Content-Length: <n>\r\n\r\n" is read back as the header line and then
      a blank line. */
  lemma HeaderBytesRead(s: Stream, pos: nat, n: nat)
    requires IsAscii(HeaderLine(n) + "\r\n\r\n")
    requires pos + |HeaderLine(n)| + 4 <= |s.bytes|
    requires s.bytes[pos..pos + |HeaderLine(n)| + 4] == AsciiEncode(HeaderLine(n) + "\r\n\r\n")
    ensures LineAt(s, pos) == Line(HeaderLine(n), pos + |HeaderLine(n)| + 2)
    ensures LineAt(s, pos + |HeaderLine(n)| + 2) == Line("", pos + |HeaderLine(n)| + 4)
  {
    var h := HeaderLine(n);
    var enc := AsciiEncode(h + "\r\n\r\n");
    HeaderBytesShape(n);
    HeaderLineRead(s, pos, h, enc);
    BlankLineRead(s, pos, h, enc);
  }

  /** Header bytes without line breaks, then "\r\n", are read back as the header. */
  lemma HeaderLineRead(s: Stream, pos: nat, h: string, enc: seq<byte>)
    requires |enc| == |h| + 4 && pos + |enc| <= |s.bytes| && s.bytes[pos..pos + |enc|] == enc
    requires forall i :: 0 <= i < |h| ==> enc[i] != LF && enc[i] != CR
    requires AsciiDecode(enc[..|h|]) == h
    requires enc[|h|..] == [CR, LF, CR, LF]
    ensures LineAt(s, pos) == Line(h, pos + |h| + 2)
  {
    var hb := enc[..|h|];
    var seg := hb + [CR];
    assert enc[|h|] == CR && enc[|h| + 1] == LF by {
      assert enc[|h|] == enc[|h|..][0] && enc[|h| + 1] == enc[|h|..][1];
    }
    assert s.bytes[pos..pos + |seg|] == seg by {
      SliceOfSlice(s.bytes, pos, enc, 0, |h| + 1);
      assert enc[..|h| + 1] == seg;
    }
    assert s.bytes[pos + |seg|] == LF by {
      assert s.bytes[pos + |h| + 1] == s.bytes[pos..pos + |enc|][|h| + 1];
    }
    LineAtSegment(s, pos, seg);
    DropCRTrailingCR(hb);
    DropCRNoCR(hb);
  }

  /** The "\r\n\r\n" after the header line ends in a blank line. */
  lemma BlankLineRead(s: Stream, pos: nat, h: string, enc: seq<byte>)
    requires |enc| == |h| + 4 && pos + |enc| <= |s.bytes| && s.bytes[pos..pos + |enc|] == enc
    requires enc[|h|..] == [CR, LF, CR, LF]
    ensures LineAt(s, pos + |h| + 2) == Line("", pos + |h| + 4)
  {
    var p2 := pos + |h| + 2;
    assert s.bytes[p2..p2 + 1] == [CR] && s.bytes[p2 + 1] == LF by {
      assert s.bytes[p2] == s.bytes[pos..pos + |enc|][|h| + 2] == enc[|h|..][2];
      assert s.bytes[p2 + 1] == s.bytes[pos..pos + |enc|][|h| + 3] == enc[|h|..][3];
    }
    LineAtSegment(s, p2, [CR]);
    assert DropCR([CR]) == DropCR([] + [CR]) == [];
  }

  /** The header scan over that header line finds the length it announces. */
  lemma HeaderLineScan(s: Stream, pos: nat, n: nat)
    requires 0 < n <= Int32Max
    requires pos + 2 <= |s.bytes|
    requires LineAt(s, pos) == Line("", pos + 2)
    ensures HeaderScan(s, HeaderLine(n), pos, 0) == HeadersDone(n, pos + 2)
  {
    var h := HeaderLine(n);
    HeaderLineIsLengthHeader(n);
    var d := NatToString(n);
    assert IsDigit(d[0]) && IsDigit(d[|d| - 1]);
    SpaceIsTrimmed(d);
    ParseIntOfNatToString(n);
    assert !IsBlank(h) by {
      assert h[0] == 'C';
    }
    assert HeaderScan(s, "", pos + 2, n) == HeadersDone(n, pos + 2);
  }

  /** The header bytes at the front of a Content-Length frame. */
  lemma FrameHeaderBytes(s: Stream, pos: nat, body: seq<byte>)
    requires pos + |Frame(ContentLength, body)| <= |s.bytes|
    requires s.bytes[pos..pos + |Frame(ContentLength, body)|] == Frame(ContentLength, body)
    ensures IsAscii(HeaderLine(|body|) + "\r\n\r\n")
    ensures pos + |HeaderLine(|body|)| + 4 <= |s.bytes|
    ensures s.bytes[pos..pos + |HeaderLine(|body|)| + 4] == AsciiEncode(HeaderLine(|body|) + "\r\n\r\n")
  {
    var f := Frame(ContentLength, body);
    var enc := AsciiEncode(HeaderLine(|body|) + "\r\n\r\n");
    HeaderBytesShape(|body|);
    assert f == enc + body;
    SliceOfSlice(s.bytes, pos, f, 0, |enc|);
    assert f[..|enc|] == enc;
  }

  /** The body bytes at the back of a Content-Length frame. */
  lemma FrameBodyBytes(s: Stream, pos: nat, body: seq<byte>)
    requires pos + |Frame(ContentLength, body)| <= |s.bytes|
    requires s.bytes[pos..pos + |Frame(ContentLength, body)|] == Frame(ContentLength, body)
    ensures |Frame(ContentLength, body)| == |HeaderLine(|body|)| + 4 + |body|
    ensures ReadN(s, pos + |HeaderLine(|body|)| + 4, |body|) == Chunk(body, pos + |Frame(ContentLength, body)|)
  {
    var f := Frame(ContentLength, body);
    var enc := AsciiEncode(HeaderLine(|body|) + "\r\n\r\n");
    HeaderBytesShape(|body|);
    assert f == enc + body;
    SliceOfSlice(s.bytes, pos, f, |enc|, |f|);
    assert f[|enc|..|f|] == body;
  }

  /** What `send` writes in Content-Length framing is read back as the header line, a blank
      line and, by readNBytes, exactly the body, the reader stopping right after it. */
  lemma ContentLengthFrameReadBack(s: Stream, pos: nat, body: seq<byte>)
    requires pos + |Frame(ContentLength, body)| <= |s.bytes|
    requires s.bytes[pos..pos + |Frame(ContentLength, body)|] == Frame(ContentLength, body)
    ensures LineAt(s, pos) == Line(HeaderLine(|body|), pos + |HeaderLine(|body|)| + 2)
    ensures LineAt(s, pos + |HeaderLine(|body|)| + 2) == Line("", pos + |HeaderLine(|body|)| + 4)
    ensures ReadN(s, pos + |HeaderLine(|body|)| + 4, |body|) == Chunk(body, pos + |Frame(ContentLength, body)|)
  {
    FrameHeaderBytes(s, pos, body);
    HeaderBytesRead(s, pos, |body|);
    FrameBodyBytes(s, pos, body);
  }

  /** One pass of the readContentLength loop from `pos`: end of stream, an exception, a blank
      line skipped, a frame whose length is not positive dropped, or a body read. */
  datatype FrameRead =
    | FramesEnd
    | FrameFault(reason: string)
    | BlankSkipped(next: nat)
    | FrameDropped(next: nat)
    | FrameBody(data: seq<byte>, next: nat)

  function FrameAt(s: Stream, pos: nat): (r: FrameRead)
    requires pos <= |s.bytes|
    ensures (r.BlankSkipped? || r.FrameDropped? || r.FrameBody?) ==> pos < r.next <= |s.bytes|
  {
    match LineAt(s, pos)
    case EndOfStream => FramesEnd
    case ReadFailed(m) => FrameFault(m)
    case Line(text, next) =>
      if IsBlank(text) then BlankSkipped(next)
      else match HeaderScan(s, text, next, 0)
        case HeadersFailed(m) => FrameFault(m)
        case HeadersDone(length, after) =>
          if length <= 0 then FrameDropped(after)
          else match ReadN(s, after, length)
            case ChunkFailed(m) => FrameFault(m)
            case Chunk(body, after2) => FrameBody(body, after2)
  }

  /** A frame whose header line, header scan and body read succeed is read as that body. */
  lemma FrameAtBody(s: Stream, pos: nat, header: string, n1: nat, length: int, after: nat,
                    body: seq<byte>, after2: nat)
    requires pos <= |s.bytes|
    requires LineAt(s, pos) == Line(header, n1) && !IsBlank(header)
    requires HeaderScan(s, header, n1, 0) == HeadersDone(length, after) && length > 0
    requires ReadN(s, after, length) == Chunk(body, after2)
    ensures FrameAt(s, pos) == FrameBody(body, after2)
  {
  }

  lemma HeaderLineStart(n: nat)
    ensures !IsBlank(HeaderLine(n))
  {
    assert HeaderLine(n)[0] == 'C';
  }

  /** A header line announcing `n`, a blank line and `n` bytes are read as one frame of those
      bytes. */
  lemma HeaderThenBody(s: Stream, pos: nat, n: nat, body: seq<byte>, end: nat)
    requires 0 < n <= Int32Max && pos <= |s.bytes|
    requires LineAt(s, pos) == Line(HeaderLine(n), pos + |HeaderLine(n)| + 2)
    requires LineAt(s, pos + |HeaderLine(n)| + 2) == Line("", pos + |HeaderLine(n)| + 4)
    requires ReadN(s, pos + |HeaderLine(n)| + 4, n) == Chunk(body, end)
    ensures FrameAt(s, pos) == FrameBody(body, end)
  {
    var h := HeaderLine(n);
    var p2 := pos + |h| + 2;
    var p4 := pos + |HeaderLine(n)| + 4;
    assert p4 == p2 + 2;
    HeaderLineStart(n);
    HeaderLineScan(s, p2, n);
    FrameAtBody(s, pos, h, p2, n, p4, body, end);
  }

  /** A message written in Content-Length framing is read back as exactly its body, and the
      reader continues right after it. */
  lemma ContentLengthFrameArrives(s: Stream, pos: nat, body: seq<byte>)
    requires 0 < |body| <= Int32Max
    requires pos + |Frame(ContentLength, body)| <= |s.bytes|
    requires s.bytes[pos..pos + |Frame(ContentLength, body)|] == Frame(ContentLength, body)
    ensures FrameAt(s, pos) == FrameBody(body, pos + |Frame(ContentLength, body)|)
  {
    ContentLengthFrameReadBack(s, pos, body);
    HeaderThenBody(s, pos, |body|, body, pos + |Frame(ContentLength, body)|);
  }

  lemma SliceOfSlice(b: seq<byte>, pos: nat, f: seq<byte>, i: nat, j: nat)
    requires pos + |f| <= |b| && b[pos..pos + |f|] == f
    requires i <= j <= |f|
    ensures b[pos + i..pos + j] == f[i..j]
  {
    assert forall k :: i <= k < j ==> b[pos + k] == f[k];
  }

  // ---------------------------------------------------------------- cleaning

  predicate IsAnsiParameter(c: char) {
    c == ';' || c == '?' || IsDigit(c)
  }

  predicate IsAsciiLetter(c: char) {
    'A' <= c <= 'Z' || 'a' <= c <= 'z'
  }

  /** The number of leading characters of `s` in the class [;?0-9]. */
  function ParameterRun(s: string): (k: nat)
    ensures k <= |s|
    ensures forall i :: 0 <= i < k ==> IsAnsiParameter(s[i])
    ensures k < |s| ==> !IsAnsiParameter(s[k])
  {
    if s != [] && IsAnsiParameter(s[0]) then 1 + ParameterRun(s[1..]) else 0
  }

  /** The length of the escape sequence ESC '[' [;?0-9]* [A-Za-z] that `s` starts with, if any. */
  function AnsiPrefix(s: string): (r: Option<nat>)
    ensures r.Some? ==> 3 <= r.value <= |s|
  {
    if |s| >= 2 && s[0] == '\U{1B}' && s[1] == '[' then
      var k := ParameterRun(s[2..]);
      if 2 + k < |s| && IsAsciiLetter(s[2 + k]) then Some(3 + k) else None
    else None
  }

  /** stripAnsi: one left-to-right pass of replaceAll over ESC '[' [;?0-9]* [A-Za-z]. */
  function StripAnsi(s: string): (r: string)
    ensures |r| <= |s|
    decreases |s|
  {
    if s == [] then []
    else match AnsiPrefix(s)
      case Some(n) => StripAnsi(s[n..])
      case None => [s[0]] + StripAnsi(s[1..])
  }

  predicate HasNoEscape(s: string) {
    forall i :: 0 <= i < |s| ==> s[i] != '\U{1B}'
  }

  /** Text without ESC characters passes through unchanged. */
  lemma {:induction false} StripAnsiKeepsPlainText(s: string, rest: string)
    requires HasNoEscape(s)
    ensures StripAnsi(s + rest) == s + StripAnsi(rest)
    decreases |s|
  {
    if s != [] {
      assert (s + rest)[1..] == s[1..] + rest;
      StripAnsiKeepsPlainText(s[1..], rest);
    } else {
      assert s + rest == rest;
    }
  }

  /** A complete escape sequence is erased wherever the scan meets it. */
  lemma StripAnsiErasesSequence(params: string, letter: char, rest: string)
    requires forall i :: 0 <= i < |params| ==> IsAnsiParameter(params[i])
    requires IsAsciiLetter(letter)
    ensures StripAnsi("\U{1B}[" + params + [letter] + rest) == StripAnsi(rest)
  {
    var s := "\U{1B}[" + params + [letter] + rest;
    assert s[2..] == params + [letter] + rest;
    ParameterRunOf(params, [letter] + rest);
    assert s[2 + |params|] == letter;
    assert AnsiPrefix(s) == Some(3 + |params|);
    assert s[3 + |params|..] == rest;
  }

  lemma {:induction false} ParameterRunOf(params: string, rest: string)
    requires forall i :: 0 <= i < |params| ==> IsAnsiParameter(params[i])
    requires rest != [] && !IsAnsiParameter(rest[0])
    ensures ParameterRun(params + rest) == |params|
  {
    if params != [] {
      assert (params + rest)[1..] == params[1..] + rest;
      ParameterRunOf(params[1..], rest);
    } else {
      assert params + rest == rest;
    }
  }

  /** The pass is not repeated: removing a sequence can join the text around it into a new one,
      which stays in the output. */
  lemma StripAnsiIsSinglePass()
    ensures StripAnsi("\U{1B}\U{1B}[m[m") == "\U{1B}[m"
  {
    var s := "\U{1B}\U{1B}[m[m";
    assert AnsiPrefix(s).None?;
    assert s[1..] == "\U{1B}[m" + "[m";
    StripAnsiErasesSequence("", 'm', "[m");
    assert "\U{1B}[" + "" + ['m'] + "[m" == s[1..];
    StripAnsiKeepsPlainText("[m", "");
    assert "[m" + "" == "[m";
  }

  /** looksLikeJson: the trimmed text starts with '{' or '['. */
  predicate LooksLikeJson(value: string) {
    var trimmed := Trim(value);
    StartsWith(trimmed, "{") || StartsWith(trimmed, "[")
  }

  // ---------------------------------------------------------------- text bodies

  /** The lines a UTF-8 BufferedReader yields from a body before readLine returns null or
      throws: all of them at end of stream, only the terminated ones when a read fails. */
  function BufferedLines(s: Stream, codec: Codec): seq<string> {
    var text := Utf8Text(codec, s.bytes);
    if s.failure.Some? then CompleteLines(text) else ReaderLines(text)
  }

  /** A body whose text is terminated lines and then a partial tail: the tail is read as one
      more line only when the body ends cleanly, and is lost when the next read throws. */
  lemma BufferedLinesOf(s: Stream, codec: Codec, lines: seq<string>, tail: string)
    requires Utf8Text(codec, s.bytes) == JoinLines(lines) + tail
    requires forall j :: 0 <= j < |lines| ==> NoLineBreak(lines[j])
    requires NoLineBreak(tail)
    ensures s.failure.Some? ==> BufferedLines(s, codec) == lines
    ensures s.failure.None? ==> BufferedLines(s, codec) == lines + (if tail == [] then [] else [tail])
  {
    LinesOfJoinedTail(lines, tail);
  }
}
