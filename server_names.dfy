/** Server ids derived from display names: trimmed, lower-cased, each run of characters other
    than a-z and 0-9 turned into one dash, and dashes at either end removed. The id is also
    characterised independently as the name's words (its maximal runs of a-z/0-9) joined by
    single dashes. */
module ServerNames {
  import opened Wrappers
  import opened Text

  predicate IsSlugChar(c: char) {
    'a' <= c <= 'z' || '0' <= c <= '9'
  }

  predicate NoSlugChar(s: string) {
    forall i :: 0 <= i < |s| ==> !IsSlugChar(s[i])
  }

  predicate AllSlugChars(s: string) {
    forall i :: 0 <= i < |s| ==> IsSlugChar(s[i])
  }

  /** An id: only a-z, 0-9 and dashes, no dash at either end and never two dashes in a row. */
  predicate IsSlug(s: string) {
    && (forall i :: 0 <= i < |s| ==> IsSlugChar(s[i]) || s[i] == '-')
    && (|s| > 0 ==> s[0] != '-' && s[|s| - 1] != '-')
    && (forall i :: 0 <= i < |s| - 1 ==> s[i] == '-' ==> s[i + 1] != '-')
  }

  /** `s` without its leading characters other than a-z and 0-9. */
  function DropSeparators(s: string): (r: string)
    ensures |r| <= |s|
    ensures r != [] ==> IsSlugChar(r[0])
    decreases |s|
  {
    if s == [] || IsSlugChar(s[0]) then s else DropSeparators(s[1..])
  }

  /** What DropSeparators keeps is a suffix, and what it drops holds no letter or digit. */
  lemma {:induction false} DropSeparatorsSplit(s: string)
    ensures var r := DropSeparators(s); r == s[|s| - |r|..] && NoSlugChar(s[..|s| - |r|])
    decreases |s|
  {
    if s != [] && !IsSlugChar(s[0]) {
      DropSeparatorsSplit(s[1..]);
      var r := DropSeparators(s);
      assert s[..|s| - |r|] == [s[0]] + s[1..][..|s| - 1 - |r|];
    }
  }

  /** The length of the leading run of a-z and 0-9. */
  function RunLength(s: string): (k: nat)
    ensures k <= |s|
    ensures k < |s| ==> !IsSlugChar(s[k])
    ensures forall i :: 0 <= i < k ==> IsSlugChar(s[i])
    decreases |s|
  {
    if s != [] && IsSlugChar(s[0]) then 1 + RunLength(s[1..]) else 0
  }

  /** The maximal runs of a-z and 0-9, in order. */
  function Words(s: string): (ws: seq<string>)
    ensures forall j :: 0 <= j < |ws| ==> |ws[j]| > 0 && AllSlugChars(ws[j])
    decreases |s|
  {
    var t := DropSeparators(s);
    if t == [] then []
    else
      var k := RunLength(t);
      [t[..k]] + Words(t[k..])
  }

  /** Words joined by single dashes. */
  function JoinDash(ws: seq<string>): string {
    if ws == [] then ""
    else if |ws| == 1 then ws[0]
    else ws[0] + "-" + JoinDash(ws[1..])
  }

  /** replaceAll("[^a-z0-9]+", "-"): each maximal run of other characters becomes one dash. */
  function Collapse(s: string): string
    decreases |s|
  {
    if s == [] then []
    else if IsSlugChar(s[0]) then [s[0]] + Collapse(s[1..])
    else "-" + Collapse(DropSeparators(s[1..]))
  }

  /** replaceAll("^-+", ""). */
  function StripLeadingDashes(s: string): string {
    if s != [] && s[0] == '-' then StripLeadingDashes(s[1..]) else s
  }

  /** replaceAll("-+$", ""); no line terminator survives the collapse, so `$` is the end. */
  function StripTrailingDashes(s: string): string {
    if s != [] && s[|s| - 1] == '-' then StripTrailingDashes(s[..|s| - 1]) else s
  }

  function Slugify(s: string): string {
    StripTrailingDashes(StripLeadingDashes(Collapse(s)))
  }

  /** toId: null gives the empty id; otherwise the name's words, after trim and lower-casing,
      joined by single dashes, which is always a well-formed id. */
  function ToId(name: Option<string>): (id: string)
    ensures name.None? ==> id == ""
    ensures name.Some? ==> id == JoinDash(Words(ToLowerAscii(Trim(name.value))))
    ensures IsSlug(id)
  {
    match name
    case None => ""
    case Some(n) =>
      var s := ToLowerAscii(Trim(n));
      SlugifyIsJoinedWords(s);
      JoinDashIsSlug(Words(s));
      Slugify(s)
  }

  // ---------------------------------------------------------------------------------------------
  // The collapse-and-strip pipeline equals the joined words

  lemma RunLengthIs(s: string, k: nat)
    requires k <= |s| && AllSlugChars(s[..k]) && (k < |s| ==> !IsSlugChar(s[k]))
    ensures RunLength(s) == k
  {
  }

  lemma {:induction false} CollapseRun(run: string, rest: string)
    requires AllSlugChars(run)
    ensures Collapse(run + rest) == run + Collapse(rest)
    decreases |run|
  {
    if run != [] {
      var s := run + rest;
      assert s[0] == run[0] && s[1..] == run[1..] + rest;
      CollapseRun(run[1..], rest);
      calc {
        Collapse(s);
        [run[0]] + Collapse(run[1..] + rest);
        [run[0]] + (run[1..] + Collapse(rest));
        { assert run == [run[0]] + run[1..]; }
        run + Collapse(rest);
      }
    } else {
      assert run + rest == rest;
    }
  }

  /** The dash that a trailing run of separators leaves behind. */
  function Tail(t: string): string {
    if t != [] && !IsSlugChar(t[|t| - 1]) then "-" else ""
  }

  lemma TailSuffix(a: string, b: string)
    requires b != []
    ensures Tail(a + b) == Tail(b)
  {
    assert (a + b)[|a + b| - 1] == b[|b| - 1];
  }

  lemma WordsFromRun(t: string)
    requires t != [] && IsSlugChar(t[0])
    ensures Words(t) == [t[..RunLength(t)]] + Words(t[RunLength(t)..])
  {
  }

  lemma WordsFromStart(u: string)
    requires u == [] || IsSlugChar(u[0])
    ensures DropSeparators(u) == u
  {
  }

  /** After a separator, words and the collapse both resume at the next letter or digit. */
  lemma AfterSeparator(rest: string)
    requires rest != [] && !IsSlugChar(rest[0])
    ensures Words(rest) == Words(DropSeparators(rest[1..]))
    ensures Collapse(rest) == "-" + Collapse(DropSeparators(rest[1..]))
  {
    var u := DropSeparators(rest[1..]);
    WordsFromStart(u);
    assert DropSeparators(rest) == u;
  }

  /** A separator run ending the string leaves a trailing dash. */
  lemma TailOfSeparators(rest: string)
    requires rest != [] && !IsSlugChar(rest[0])
    ensures DropSeparators(rest[1..]) == [] ==> Tail(rest) == "-"
    ensures DropSeparators(rest[1..]) != [] ==> Tail(rest) == Tail(DropSeparators(rest[1..]))
  {
    var u := DropSeparators(rest[1..]);
    DropSeparatorsSplit(rest[1..]);
    if |rest| > 1 {
      var last := rest[1..][|rest| - 2];
      assert rest[|rest| - 1] == last;
      if u == [] {
        assert rest[1..][..|rest| - 1] == rest[1..];
      } else {
        assert u[|u| - 1] == last;
      }
    }
  }

  lemma Regroup(a: string, b: string, c: string, d: string)
    ensures a + (b + (c + d)) == a + b + c + d
  {
  }

  lemma JoinDashCons(w: string, ws: seq<string>)
    requires ws != []
    ensures JoinDash([w] + ws) == w + "-" + JoinDash(ws)
  {
    assert ([w] + ws)[1..] == ws;
  }

  /** From its first word on, the collapse is the joined words plus a dash for a trailing
      separator run. */
  lemma {:induction false} CollapseWords(t: string)
    requires t != [] ==> IsSlugChar(t[0])
    ensures Collapse(t) == JoinDash(Words(t)) + Tail(t)
    decreases |t|
  {
    if t != [] {
      var k := RunLength(t);
      var run, rest := t[..k], t[k..];
      RunStep(t);
      if rest != [] {
        var u := DropSeparators(rest[1..]);
        AfterSeparator(rest);
        TailOfSeparators(rest);
        CollapseWords(u);
        if u != [] {
          WordsFromRun(u);
          JoinDashCons(run, Words(u));
          Regroup(run, "-", JoinDash(Words(u)), Tail(u));
        } else {
          assert Words(u) == [];
        }
      }
    }
  }

  /** The first run of letters and digits: the collapse keeps it, it is the first word, and what
      follows it decides the trailing dash. */
  lemma RunStep(t: string)
    requires t != [] && IsSlugChar(t[0])
    ensures var k := RunLength(t);
      && Collapse(t) == t[..k] + Collapse(t[k..])
      && Words(t) == [t[..k]] + Words(t[k..])
      && (t[k..] == [] ==> Tail(t) == "" && t[..k] == t)
      && (t[k..] != [] ==> !IsSlugChar(t[k..][0]) && Tail(t) == Tail(t[k..]))
  {
    var k := RunLength(t);
    var run, rest := t[..k], t[k..];
    assert t == run + rest;
    assert forall i :: 0 <= i < |run| ==> run[i] == t[i];
    CollapseRun(run, rest);
    WordsFromRun(t);
    if rest != [] {
      TailSuffix(run, rest);
    }
  }

  lemma {:induction false} JoinDashEdges(ws: seq<string>)
    requires forall j :: 0 <= j < |ws| ==> |ws[j]| > 0 && AllSlugChars(ws[j])
    ensures JoinDash(ws) == [] <==> ws == []
    ensures JoinDash(ws) != [] ==> IsSlugChar(JoinDash(ws)[0]) && IsSlugChar(JoinDash(ws)[|JoinDash(ws)| - 1])
  {
    if |ws| > 1 {
      JoinDashEdges(ws[1..]);
      var r := JoinDash(ws[1..]);
      assert JoinDash(ws) == ws[0] + ("-" + r);
      assert JoinDash(ws)[0] == ws[0][0];
    } else if |ws| == 1 {
      assert ws[0][0] == JoinDash(ws)[0];
    }
  }

  lemma {:induction false} StripLeadingFrom(x: string)
    requires x == [] || x[0] != '-'
    ensures StripLeadingDashes(x) == x && StripLeadingDashes("-" + x) == x
  {
    assert ("-" + x)[1..] == x;
  }

  lemma {:induction false} StripTrailingFrom(x: string)
    requires x == [] || x[|x| - 1] != '-'
    ensures StripTrailingDashes(x) == x && StripTrailingDashes(x + "-") == x
  {
    assert (x + "-")[..|x|] == x;
  }

  /** The three `replaceAll` steps and the joined-words definition agree on every string. */
  lemma SlugifyIsJoinedWords(s: string)
    ensures Slugify(s) == JoinDash(Words(s))
  {
    var t := DropSeparators(s);
    assert Words(s) == Words(t);
    if s != [] && !IsSlugChar(s[0]) {
      assert DropSeparators(s[1..]) == t;
      assert Collapse(s) == "-" + Collapse(t);
    } else {
      assert t == s;
    }
    CollapseWords(t);
    var j := JoinDash(Words(t));
    JoinDashEdges(Words(t));
    if j == [] {
      assert t == [];
      StripLeadingFrom([]);
    } else {
      StripLeadingFrom(j + Tail(t));
      assert (j + Tail(t))[0] == j[0];
      assert StripLeadingDashes(Collapse(s)) == j + Tail(t);
      StripTrailingFrom(j);
    }
  }

  lemma {:induction false} JoinDashIsSlug(ws: seq<string>)
    requires forall j :: 0 <= j < |ws| ==> |ws[j]| > 0 && AllSlugChars(ws[j])
    ensures IsSlug(JoinDash(ws))
  {
    JoinDashEdges(ws);
    if |ws| > 1 {
      JoinDashIsSlug(ws[1..]);
      JoinDashEdges(ws[1..]);
      var w, r := ws[0], JoinDash(ws[1..]);
      var s := JoinDash(ws);
      assert s == w + "-" + r;
      forall i | 0 <= i < |s|
        ensures IsSlugChar(s[i]) || s[i] == '-'
      {
        if i < |w| { assert s[i] == w[i]; }
        else if i > |w| { assert s[i] == r[i - |w| - 1]; }
      }
      forall i | 0 <= i < |s| - 1
        ensures s[i] == '-' ==> s[i + 1] != '-'
      {
        if i < |w| - 1 { assert s[i] == w[i]; }
        else if i == |w| - 1 { assert s[i] == w[i]; }
        else if i == |w| { assert s[i + 1] == r[0]; }
        else { assert s[i] == r[i - |w| - 1] && s[i + 1] == r[i - |w|]; }
      }
    }
  }

  // ---------------------------------------------------------------------------------------------
  // Words ignore separators at the edges and the choice of separator run

  lemma {:induction false} DropSeparatorsPrefix(p: string, s: string)
    requires NoSlugChar(p)
    ensures DropSeparators(p + s) == DropSeparators(s)
    decreases |p|
  {
    if p != [] {
      assert (p + s)[0] == p[0] && (p + s)[1..] == p[1..] + s;
      DropSeparatorsPrefix(p[1..], s);
    } else {
      assert p + s == s;
    }
  }

  lemma WordsPrefix(p: string, s: string)
    requires NoSlugChar(p)
    ensures Words(p + s) == Words(s)
  {
    DropSeparatorsPrefix(p, s);
  }

  /** A non-empty separator run splits the words exactly where it stands. */
  lemma {:induction false} WordsSplit(x: string, sep: string, y: string)
    requires |sep| > 0 && NoSlugChar(sep)
    ensures Words(x + sep + y) == Words(x) + Words(y)
    decreases |x|, 1
  {
    var t := DropSeparators(x);
    DropSeparatorsSplit(x);
    var p := x[..|x| - |t|];
    assert x == p + t;
    assert x + sep + y == p + (t + sep + y);
    WordsPrefix(p, t + sep + y);
    WordsPrefix(p, t);
    if t == [] {
      assert t + sep + y == sep + y;
      WordsPrefix(sep, y);
      assert Words(t) == [];
    } else {
      WordsSplitFromRun(t, sep, y);
    }
  }

  lemma {:induction false} WordsSplitFromRun(t: string, sep: string, y: string)
    requires |sep| > 0 && NoSlugChar(sep)
    requires t != [] && IsSlugChar(t[0])
    ensures Words(t + sep + y) == Words(t) + Words(y)
    decreases |t|, 0
  {
    var k := RunLength(t);
    var z := t + sep + y;
    assert RunLength(z) == k by {
      assert z == t + (sep + y);
      RunLengthAppend(t, sep + y);
    }
    assert z[..k] == t[..k] && z[k..] == t[k..] + sep + y;
    WordsSplit(t[k..], sep, y);
    WordsFromRun(z);
    WordsFromRun(t);
  }

  /** A run of letters and digits ends where a separator follows it. */
  lemma {:induction false} RunLengthAppend(t: string, w: string)
    requires w != [] && !IsSlugChar(w[0])
    ensures RunLength(t + w) == RunLength(t)
    decreases |t|
  {
    if t == [] {
      assert t + w == w;
    } else {
      assert (t + w)[0] == t[0] && (t + w)[1..] == t[1..] + w;
      if IsSlugChar(t[0]) {
        RunLengthAppend(t[1..], w);
      }
    }
  }

  lemma WordsOfSeparators(s: string)
    requires NoSlugChar(s)
    ensures Words(s) == []
  {
    DropSeparatorsPrefix(s, []);
    assert s + [] == s;
  }

  predicate AllTrimmable(x: string) {
    forall i :: 0 <= i < |x| ==> IsTrimmable(x[i])
  }

  /** Characters String.trim removes are separators, lower-cased or not. */
  lemma TrimmableIsSeparator(x: string)
    requires AllTrimmable(x)
    ensures NoSlugChar(ToLowerAscii(x))
  {
    forall i | 0 <= i < |x| ensures !IsSlugChar(ToLowerAscii(x)[i]) {
      assert ToLowerAscii(x)[i] == LowerAscii(x[i]) == x[i];
    }
  }

  /** Trim keeps a slice and removes only trimmable characters around it. */
  lemma TrimSlice(n: string) returns (a: nat, b: nat)
    ensures a <= b <= |n| && Trim(n) == n[a..b]
    ensures AllTrimmable(n[..a]) && AllTrimmable(n[b..])
    ensures n == n[..a] + Trim(n) + n[b..]
  {
    var s := TrimStart(n);
    var t := TrimEnd(s);
    a := |n| - |s|;
    b := a + |t|;
    TrimmedEdges(n, s, t);
  }

  /** A suffix `s` of `n` and a prefix `t` of `s`, with only trimmable characters cut off. */
  lemma TrimmedEdges(n: string, s: string, t: string)
    requires |t| <= |s| <= |n| && s == n[|n| - |s|..] && t == s[..|t|]
    requires forall i :: 0 <= i < |n| - |s| ==> IsTrimmable(n[i])
    requires forall i :: |t| <= i < |s| ==> IsTrimmable(s[i])
    ensures var a := |n| - |s|; var b := a + |t|;
      n[a..b] == t && AllTrimmable(n[..a]) && AllTrimmable(n[b..]) && n == n[..a] + t + n[b..]
  {
    var a := |n| - |s|;
    var b := a + |t|;
    assert n == n[..a] + n[a..b] + n[b..];
    assert AllTrimmable(n[..a]) by {
      forall i | 0 <= i < a ensures IsTrimmable(n[..a][i]) {
        assert n[..a][i] == n[i];
      }
    }
    assert AllTrimmable(n[b..]) by {
      forall i | 0 <= i < |n| - b ensures IsTrimmable(n[b..][i]) {
        assert n[b..][i] == s[|t| + i];
      }
    }
  }

  lemma LowerAppend(x: string, y: string)
    ensures ToLowerAscii(x + y) == ToLowerAscii(x) + ToLowerAscii(y)
  {
  }

  /** Separators at either end do not add words. */
  lemma WordsStripEdges(p: string, m: string, q: string)
    requires NoSlugChar(p) && NoSlugChar(q)
    ensures Words(p + m + q) == Words(m)
  {
    assert p + m + q == p + (m + q);
    WordsPrefix(p, m + q);
    if q == [] {
      assert m + q == m;
    } else {
      WordsSplit(m, q, []);
      assert m + q + [] == m + q;
    }
  }

  /** Trimming never changes the id. */
  lemma ToIdIgnoresTrim(n: string)
    ensures ToId(Some(n)) == JoinDash(Words(ToLowerAscii(n)))
  {
    var a, b := TrimSlice(n);
    WordsIgnoreTrimmable(n, n[..a], Trim(n), n[b..]);
  }

  /** Trimmable characters around a name add no words. */
  lemma WordsIgnoreTrimmable(n: string, p: string, m: string, q: string)
    requires n == p + m + q
    requires AllTrimmable(p) && AllTrimmable(q)
    ensures Words(ToLowerAscii(n)) == Words(ToLowerAscii(m))
  {
    TrimmableIsSeparator(p);
    TrimmableIsSeparator(q);
    LowerAppend(p + m, q);
    LowerAppend(p, m);
    WordsStripEdges(ToLowerAscii(p), ToLowerAscii(m), ToLowerAscii(q));
  }

  // ---------------------------------------------------------------------------------------------
  // Properties of toId

  /** A string has no words exactly when it has no letter or digit. */
  lemma WordsEmpty(s: string)
    ensures Words(s) == [] <==> NoSlugChar(s)
  {
    DropSeparatorsSplit(s);
    if NoSlugChar(s) {
      WordsOfSeparators(s);
    } else {
      assert s[..|s|] == s;
    }
  }

  /** The null name and only names without a letter or digit give the empty id. */
  lemma ToIdEmpty(name: Option<string>)
    ensures ToId(name) == "" <==> (name.None? || NoSlugChar(ToLowerAscii(name.value)))
  {
    if name.Some? {
      var s := ToLowerAscii(name.value);
      ToIdIgnoresTrim(name.value);
      JoinDashEdges(Words(s));
      WordsEmpty(s);
    }
  }

  /** toId(toId(x)) == toId(x). */
  lemma ToIdIdempotent(name: Option<string>)
    ensures ToId(Some(ToId(name))) == ToId(name)
  {
    var id := ToId(name);
    ToIdIgnoresTrim(id);
    LowerOfSlug(id);
    if name.Some? {
      WordsOfJoinDash(Words(ToLowerAscii(Trim(name.value))));
    }
  }

  /** An id is already lower case. */
  lemma LowerOfSlug(id: string)
    requires IsSlug(id)
    ensures ToLowerAscii(id) == id
  {
    forall i | 0 <= i < |id| ensures ToLowerAscii(id)[i] == id[i] {
      assert IsSlugChar(id[i]) || id[i] == '-';
    }
  }

  lemma {:induction false} WordsOfJoinDash(ws: seq<string>)
    requires forall j :: 0 <= j < |ws| ==> |ws[j]| > 0 && AllSlugChars(ws[j])
    ensures Words(JoinDash(ws)) == ws
  {
    if |ws| == 1 {
      RunLengthIs(ws[0], |ws[0]|);
      assert ws[0][..|ws[0]|] == ws[0];
      assert Words(ws[0][|ws[0]|..]) == [];
    } else if |ws| > 1 {
      var w, r := ws[0], JoinDash(ws[1..]);
      var s := w + ("-" + r);
      assert JoinDash(ws) == s;
      assert s[..|w|] == w;
      RunLengthIs(s, |w|);
      assert s[|w|..] == "-" + r;
      WordsPrefix("-", r);
      WordsOfJoinDash(ws[1..]);
    }
  }

  /** Names equal up to ASCII case have the same id. */
  lemma ToIdIgnoresCase(n: string, m: string)
    requires EqualsIgnoreCase(n, m)
    ensures ToId(Some(n)) == ToId(Some(m))
  {
    ToIdIgnoresTrim(n);
    ToIdIgnoresTrim(m);
  }

  /** Separators around a name do not change its id. */
  lemma ToIdIgnoresSurrounding(p: string, n: string, q: string)
    requires NoSlugChar(ToLowerAscii(p)) && NoSlugChar(ToLowerAscii(q))
    ensures ToId(Some(p + n + q)) == ToId(Some(n))
  {
    ToIdIgnoresTrim(p + n + q);
    ToIdIgnoresTrim(n);
    LowerAppend(p + n, q);
    LowerAppend(p, n);
    WordsStripEdges(ToLowerAscii(p), ToLowerAscii(n), ToLowerAscii(q));
  }

  /** Which run of separators stands between two parts of a name does not change its id. */
  lemma ToIdIgnoresSeparatorRun(x: string, sep1: string, sep2: string, y: string)
    requires |sep1| > 0 && NoSlugChar(ToLowerAscii(sep1))
    requires |sep2| > 0 && NoSlugChar(ToLowerAscii(sep2))
    ensures ToId(Some(x + sep1 + y)) == ToId(Some(x + sep2 + y))
  {
    ToIdIgnoresTrim(x + sep1 + y);
    ToIdIgnoresTrim(x + sep2 + y);
    LowerAppend(x + sep1, y);
    LowerAppend(x, sep1);
    LowerAppend(x + sep2, y);
    LowerAppend(x, sep2);
    WordsSplit(ToLowerAscii(x), ToLowerAscii(sep1), ToLowerAscii(y));
    WordsSplit(ToLowerAscii(x), ToLowerAscii(sep2), ToLowerAscii(y));
  }
}
