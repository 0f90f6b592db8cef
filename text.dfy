/** Java string, character and byte semantics that the core relies on:
    String.trim/isBlank/stripLeading, ASCII case mapping, Integer.parseInt,
    decimal rendering, US-ASCII decoding and BufferedReader line splitting. */
module Text {
  import opened Wrappers

  newtype byte = b: int | 0 <= b < 256

  const LF: byte := 10
  const CR: byte := 13

  const Int32Min: int := -0x8000_0000
  const Int32Max: int := 0x7fff_ffff

  /** Java's two's-complement `int` arithmetic: the value of `x` reduced into the 32-bit range. */
  function Wrap32(x: int): (r: int)
    ensures Int32Min <= r <= Int32Max
    ensures Int32Min <= x <= Int32Max ==> r == x
    ensures (r - x) % 0x1_0000_0000 == 0
  {
    (x - Int32Min) % 0x1_0000_0000 + Int32Min
  }

  /** The characters String.trim removes: every code point at or below U+0020. */
  predicate IsTrimmable(c: char) {
    c <= ' '
  }

  /** Character.isWhitespace: the ASCII separators and the Unicode space, line and paragraph
      separators other than the three non-breaking spaces. */
  predicate IsWhitespace(c: char) {
    || c == ' '
    || '\t' <= c <= '\r'
    || '\U{1C}' <= c <= '\U{1F}'
    || c == '\U{1680}'
    || '\U{2000}' <= c <= '\U{2006}'
    || '\U{2008}' <= c <= '\U{200A}'
    || c == '\U{2028}' || c == '\U{2029}' || c == '\U{205F}' || c == '\U{3000}'
  }

  /** String.isBlank: empty or whitespace only. */
  predicate IsBlank(s: string) {
    forall i :: 0 <= i < |s| ==> IsWhitespace(s[i])
  }

  function TrimStart(s: string): (r: string)
    ensures |r| <= |s| && r == s[|s| - |r|..]
    ensures forall i :: 0 <= i < |s| - |r| ==> IsTrimmable(s[i])
    ensures r != [] ==> !IsTrimmable(r[0])
    decreases |s|
  {
    if |s| > 0 && IsTrimmable(s[0]) then TrimStart(s[1..]) else s
  }

  function TrimEnd(s: string): (r: string)
    ensures |r| <= |s| && r == s[..|r|]
    ensures forall i :: |r| <= i < |s| ==> IsTrimmable(s[i])
    ensures r != [] ==> !IsTrimmable(r[|r| - 1])
    decreases |s|
  {
    if |s| > 0 && IsTrimmable(s[|s| - 1]) then TrimEnd(s[..|s| - 1]) else s
  }

  /** String.trim. */
  function Trim(s: string): (r: string)
    ensures |r| <= |s|
    ensures r != [] ==> !IsTrimmable(r[0]) && !IsTrimmable(r[|r| - 1])
  {
    TrimEnd(TrimStart(s))
  }

  /** String.stripLeading: drops leading Character.isWhitespace characters. */
  function StripLeading(s: string): (r: string)
    ensures |r| <= |s| && r == s[|s| - |r|..]
    ensures forall i :: 0 <= i < |s| - |r| ==> IsWhitespace(s[i])
    ensures r != [] ==> !IsWhitespace(r[0])
    decreases |s|
  {
    if |s| > 0 && IsWhitespace(s[0]) then StripLeading(s[1..]) else s
  }

  predicate StartsWith(s: string, prefix: string) {
    |prefix| <= |s| && s[..|prefix|] == prefix
  }

  predicate EndsWith(s: string, suffix: string) {
    |suffix| <= |s| && s[|s| - |suffix|..] == suffix
  }

  /** String.contains. */
  predicate Contains(s: string, part: string)
    decreases |s|
  {
    StartsWith(s, part) || (|s| > 0 && Contains(s[1..], part))
  }

  function LowerAscii(c: char): char {
    if 'A' <= c <= 'Z' then (c as int + 32) as char else c
  }

  /** String.toLowerCase restricted to ASCII letters. */
  function ToLowerAscii(s: string): (r: string)
    ensures |r| == |s|
    ensures forall i :: 0 <= i < |s| ==> r[i] == LowerAscii(s[i])
  {
    seq(|s|, i requires 0 <= i < |s| => LowerAscii(s[i]))
  }

  /** String.equalsIgnoreCase restricted to ASCII letters. */
  predicate EqualsIgnoreCase(s: string, t: string) {
    ToLowerAscii(s) == ToLowerAscii(t)
  }

  /** A possibly-null String in a string concatenation: Java writes null as "null". */
  function NullText(s: Option<string>): (r: string)
    ensures s.Some? ==> r == s.value
  {
    if s.Some? then s.value else "null"
  }

  /** String.compareTo(t) <= 0 for strings of Basic Multilingual Plane characters: lexicographic
      order on characters, a proper prefix coming first. Outside that plane Java compares UTF-16
      code units, which this order on whole characters does not follow. */
  predicate AtMost(s: string, t: string)
    decreases |s|
  {
    if s == [] then true
    else if t == [] then false
    else if s[0] != t[0] then s[0] < t[0]
    else AtMost(s[1..], t[1..])
  }

  /** Any two strings are ordered one way or the other. */
  lemma {:induction false} AtMostTotal(s: string, t: string)
    ensures AtMost(s, t) || AtMost(t, s)
    decreases |s|
  {
    if s != [] && t != [] && s[0] == t[0] {
      AtMostTotal(s[1..], t[1..]);
    }
  }

  lemma {:induction false} AtMostTransitive(s: string, t: string, u: string)
    requires AtMost(s, t) && AtMost(t, u)
    ensures AtMost(s, u)
    decreases |s|
  {
    if s != [] && t != [] && u != [] && s[0] == t[0] && t[0] == u[0] {
      AtMostTransitive(s[1..], t[1..], u[1..]);
    }
  }

  /** Only equal strings are ordered both ways. */
  lemma {:induction false} AtMostAntisymmetric(s: string, t: string)
    requires AtMost(s, t) && AtMost(t, s)
    ensures s == t
    decreases |s|
  {
    if s != [] && t != [] {
      AtMostAntisymmetric(s[1..], t[1..]);
      assert s == [s[0]] + s[1..] && t == [t[0]] + t[1..];
    }
  }

  predicate IsDigit(c: char) {
    '0' <= c <= '9'
  }

  predicate AllDigits(s: string) {
    forall i :: 0 <= i < |s| ==> IsDigit(s[i])
  }

  function DigitChar(d: nat): (c: char)
    requires d < 10
    ensures IsDigit(c) && c as int - '0' as int == d
  {
    ('0' as int + d) as char
  }

  /** The value of a string of decimal digits. */
  function DigitsValue(s: string): nat
    requires AllDigits(s)
  {
    if s == [] then 0 else DigitsValue(s[..|s| - 1]) * 10 + (s[|s| - 1] as int - '0' as int)
  }

  /** Decimal rendering of a natural number, as Java's string concatenation writes it. */
  function NatToString(n: nat): (r: string)
    ensures r != [] && AllDigits(r)
    decreases n
  {
    if n < 10 then [DigitChar(n)] else NatToString(n / 10) + [DigitChar(n % 10)]
  }

  function IntToString(i: int): string {
    if i < 0 then "-" + NatToString(-i) else NatToString(i)
  }

  /** Integer.parseInt over ASCII digits: an optional sign, at least one digit, and a value
      inside the 32-bit range; None where Java throws NumberFormatException. */
  function ParseInt(s: string): (r: Option<int>)
    ensures r.Some? ==> Int32Min <= r.value <= Int32Max
    ensures r.Some? ==> s != [] && AllDigits(s[if s[0] == '-' || s[0] == '+' then 1 else 0..])
  {
    if |s| == 0 then None
    else if s[0] == '-' || s[0] == '+' then
      if |s| == 1 || !AllDigits(s[1..]) then None
      else
        var v := if s[0] == '-' then -(DigitsValue(s[1..]) as int) else DigitsValue(s[1..]);
        if Int32Min <= v <= Int32Max then Some(v) else None
    else if !AllDigits(s) then None
    else
      var v := DigitsValue(s);
      if v <= Int32Max then Some(v) else None
  }

  lemma {:induction false} DigitsValueOfNatToString(n: nat)
    ensures DigitsValue(NatToString(n)) == n
    decreases n
  {
    var r := NatToString(n);
    if n >= 10 {
      DigitsValueOfNatToString(n / 10);
      assert r[..|r| - 1] == NatToString(n / 10);
    }
  }

  /** What the Content-Length writer renders, Integer.parseInt reads back. */
  lemma ParseIntOfNatToString(n: nat)
    requires n <= Int32Max
    ensures ParseInt(NatToString(n)) == Some(n)
  {
    DigitsValueOfNatToString(n);
    var s := NatToString(n);
    assert IsDigit(s[0]);
  }

  /** A byte stream decoded as US-ASCII: bytes above 0x7F become U+FFFD. */
  function AsciiDecode(bytes: seq<byte>): (r: string)
    ensures |r| == |bytes|
    ensures forall i :: 0 <= i < |bytes| && bytes[i] < 128 ==> r[i] as int == bytes[i] as int
  {
    seq(|bytes|, i requires 0 <= i < |bytes| => if bytes[i] < 128 then bytes[i] as int as char else '\U{FFFD}')
  }

  predicate IsAscii(s: string) {
    forall i :: 0 <= i < |s| ==> s[i] as int < 128
  }

  /** String.getBytes(US_ASCII) for a string that is ASCII already. */
  function AsciiEncode(s: string): (r: seq<byte>)
    requires IsAscii(s)
    ensures AsciiDecode(r) == s
  {
    seq(|s|, i requires 0 <= i < |s| => s[i] as int as byte)
  }

  /** Index of the first '\n' or '\r' in `s`, or |s|. */
  function LineEnd(s: string): (k: nat)
    ensures k <= |s|
    ensures k < |s| ==> s[k] == '\n' || s[k] == '\r'
    ensures forall i :: 0 <= i < k ==> s[i] != '\n' && s[i] != '\r'
  {
    if s == [] || s[0] == '\n' || s[0] == '\r' then 0 else 1 + LineEnd(s[1..])
  }

  /** The lines BufferedReader.readLine yields from a text: terminators are "\n", "\r" and
      "\r\n", and a last line without terminator is still a line. */
  function ReaderLines(s: string): (lines: seq<string>)
    ensures forall j :: 0 <= j < |lines| ==> NoLineBreak(lines[j])
    decreases |s|
  {
    if s == [] then []
    else
      var k := LineEnd(s);
      if k == |s| then [s]
      else
        var skip := if s[k] == '\r' && k + 1 < |s| && s[k + 1] == '\n' then 2 else 1;
        [s[..k]] + ReaderLines(s[k + skip..])
  }

  /** The lines BufferedReader.readLine yields from a text when the read after it throws: only
      those a terminator ends, since the partial last line is lost with the exception. */
  function CompleteLines(s: string): (lines: seq<string>)
    ensures forall j :: 0 <= j < |lines| ==> NoLineBreak(lines[j])
    decreases |s|
  {
    if s == [] then []
    else
      var k := LineEnd(s);
      if k == |s| then []
      else
        var skip := if s[k] == '\r' && k + 1 < |s| && s[k + 1] == '\n' then 2 else 1;
        [s[..k]] + CompleteLines(s[k + skip..])
  }

  /** A text of terminated lines and then an unterminated tail: a reader that reaches the end
      of the text yields the tail as one more line; one whose next read throws loses it. */
  lemma LinesOfJoinedTail(lines: seq<string>, tail: string)
    requires forall j :: 0 <= j < |lines| ==> NoLineBreak(lines[j])
    requires NoLineBreak(tail)
    ensures ReaderLines(JoinLines(lines) + tail) == lines + (if tail == [] then [] else [tail])
    ensures CompleteLines(JoinLines(lines) + tail) == lines
  {
    ReaderLinesOfJoinedTail(lines, tail);
    CompleteLinesOfJoinedTail(lines, tail);
  }

  lemma {:induction false} ReaderLinesOfJoinedTail(lines: seq<string>, tail: string)
    requires forall j :: 0 <= j < |lines| ==> NoLineBreak(lines[j])
    requires NoLineBreak(tail)
    ensures ReaderLines(JoinLines(lines) + tail) == lines + (if tail == [] then [] else [tail])
  {
    var last: seq<string> := if tail == [] then [] else [tail];
    if lines == [] {
      assert JoinLines(lines) + tail == tail;
      ReaderLinesOfTail(tail);
    } else {
      var rest := JoinLines(lines[1..]) + tail;
      ReaderLinesOfJoinedTail(lines[1..], tail);
      assert ReaderLines(rest) == lines[1..] + last;
      JoinedTailCons(lines, tail);
      ReaderLinesCons(lines[0], rest);
      assert [lines[0]] + (lines[1..] + last) == lines + last by {
        assert lines == [lines[0]] + lines[1..];
      }
    }
  }

  lemma {:induction false} CompleteLinesOfJoinedTail(lines: seq<string>, tail: string)
    requires forall j :: 0 <= j < |lines| ==> NoLineBreak(lines[j])
    requires NoLineBreak(tail)
    ensures CompleteLines(JoinLines(lines) + tail) == lines
  {
    if lines == [] {
      assert JoinLines(lines) + tail == tail;
      assert LineEnd(tail) == |tail|;
    } else {
      CompleteLinesOfJoinedTail(lines[1..], tail);
      JoinedTailCons(lines, tail);
      CompleteLinesCons(lines[0], JoinLines(lines[1..]) + tail);
    }
  }

  /** A text without a terminator is one line, or none when it is empty. */
  lemma ReaderLinesOfTail(tail: string)
    requires NoLineBreak(tail)
    ensures ReaderLines(tail) == if tail == [] then [] else [tail]
  {
    if tail != [] {
      assert LineEnd(tail) == |tail|;
    }
  }

  lemma JoinedTailCons(lines: seq<string>, tail: string)
    requires lines != []
    ensures JoinLines(lines) + tail == lines[0] + "\n" + (JoinLines(lines[1..]) + tail)
  {
  }

  lemma CompleteLinesCons(a: string, rest: string)
    requires NoLineBreak(a)
    ensures CompleteLines(a + "\n" + rest) == [a] + CompleteLines(rest)
  {
    var s := a + "\n" + rest;
    LineEndOfPrefix(a, "\n" + rest);
    assert s == a + ("\n" + rest);
    assert s[..|a|] == a;
    assert s[|a| + 1..] == rest;
  }

  /** Joining terminator-free lines with "\n" and reading them back gives the same lines. */
  lemma {:induction false} ReaderLinesOfJoined(lines: seq<string>)
    requires forall j :: 0 <= j < |lines| ==> NoLineBreak(lines[j])
    ensures ReaderLines(JoinLines(lines)) == lines
  {
    if lines != [] {
      ReaderLinesOfJoined(lines[1..]);
      ReaderLinesCons(lines[0], JoinLines(lines[1..]));
    }
  }

  predicate NoLineBreak(s: string) {
    forall i :: 0 <= i < |s| ==> s[i] != '\n' && s[i] != '\r'
  }

  lemma ReaderLinesCons(a: string, rest: string)
    requires NoLineBreak(a)
    ensures ReaderLines(a + "\n" + rest) == [a] + ReaderLines(rest)
  {
    var s := a + "\n" + rest;
    LineEndOfPrefix(a, "\n" + rest);
    assert s == a + ("\n" + rest);
    assert s[..|a|] == a;
    assert s[|a| + 1..] == rest;
  }

  lemma {:induction false} LineEndOfPrefix(a: string, b: string)
    requires NoLineBreak(a)
    requires b != [] && (b[0] == '\n' || b[0] == '\r')
    ensures LineEnd(a + b) == |a|
  {
    if a != [] {
      assert (a + b)[1..] == a[1..] + b;
      LineEndOfPrefix(a[1..], b);
    } else {
      assert a + b == b;
    }
  }

  /** Each line followed by "\n". */
  function JoinLines(lines: seq<string>): string {
    if lines == [] then "" else lines[0] + "\n" + JoinLines(lines[1..])
  }
}
