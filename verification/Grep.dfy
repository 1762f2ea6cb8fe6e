/**
 The pattern matcher and the line buffer of user/grep.c.
 */
module Grep {
  // Patterns: ^ at the start, $ at the end, c* and . as in the source; everything else is literal.

  datatype Item = One(c: char) | Star(c: char)
  datatype Pattern = Pattern(items: seq<Item>, end: bool)

  /** The pattern without a leading ^. */
  function Parse(re: string): Pattern {
    if re == "" then Pattern([], false)
    else if |re| >= 2 && re[1] == '*' then Cons(Star(re[0]), Parse(re[2..]))
    else if re == "$" then Pattern([], true)
    else Cons(One(re[0]), Parse(re[1..]))
  }

  function Cons(i: Item, p: Pattern): Pattern { Pattern([i] + p.items, p.end) }

  predicate Suits(c: char, x: char) { c == '.' || c == x }

  /** The string w consists of one character per One and any number of suitable ones per Star. */
  ghost predicate Accepts(items: seq<Item>, w: string)
    decreases |items|
  {
    if items == [] then w == ""
    else match items[0]
      case One(c) => w != "" && Suits(c, w[0]) && Accepts(items[1..], w[1..])
      case Star(c) => exists k :: 0 <= k <= |w| && AllSuit(c, w[..k]) && Accepts(items[1..], w[k..])
  }

  predicate AllSuit(c: char, w: string) { forall i :: 0 <= i < |w| ==> Suits(c, w[i]) }

  /** Some prefix of text is accepted; the whole text if the pattern ends in $. */
  ghost predicate Here(p: Pattern, text: string) {
    exists n :: 0 <= n <= |text| && Accepts(p.items, text[..n]) && (p.end ==> n == |text|)
  }

  /** Some part of text is accepted: one at its start if the pattern begins with ^. */
  ghost predicate Matches(re: string, text: string) {
    if re != "" && re[0] == '^' then Here(Parse(re[1..]), text)
    else exists i :: 0 <= i <= |text| && Here(Parse(re), text[i..])
  }

  lemma HereOne(c: char, p: Pattern, text: string)
    ensures Here(Cons(One(c), p), text) <==> text != "" && Suits(c, text[0]) && Here(p, text[1..])
  {
    var p' := Cons(One(c), p);
    assert p'.items[1..] == p.items;
    if Here(p', text) {
      var n :| 0 <= n <= |text| && Accepts(p'.items, text[..n]) && (p'.end ==> n == |text|);
      assert text[..n][1..] == text[1..][..n - 1];
    }
    if text != "" && Suits(c, text[0]) && Here(p, text[1..]) {
      var n :| 0 <= n <= |text[1..]| && Accepts(p.items, text[1..][..n]) && (p.end ==> n == |text[1..]|);
      assert text[..n + 1][1..] == text[1..][..n];
      assert Accepts(p'.items, text[..n + 1]);
    }
  }

  lemma HereStar(c: char, p: Pattern, text: string)
    ensures Here(Cons(Star(c), p), text) <==> exists k ::
              0 <= k <= |text| && AllSuit(c, text[..k]) && Here(p, text[k..])
  {
    var p' := Cons(Star(c), p);
    assert p'.items[1..] == p.items;
    if Here(p', text) {
      var n :| 0 <= n <= |text| && Accepts(p'.items, text[..n]) && (p'.end ==> n == |text|);
      var w := text[..n];
      var k :| 0 <= k <= |w| && AllSuit(c, w[..k]) && Accepts(p.items, w[k..]);
      assert w[..k] == text[..k] && w[k..] == text[k..][..n - k];
      assert Here(p, text[k..]);
    }
    forall k | 0 <= k <= |text| && AllSuit(c, text[..k]) && Here(p, text[k..]) ensures Here(p', text) {
      var n :| 0 <= n <= |text[k..]| && Accepts(p.items, text[k..][..n]) && (p.end ==> n == |text[k..]|);
      var w := text[..k + n];
      assert w[..k] == text[..k] && w[k..] == text[k..][..n];
      assert Accepts(p'.items, w);
    }
  }

  lemma HereNothing(end: bool, text: string)
    ensures Here(Pattern([], end), text) <==> !end || text == ""
  {
    assert Accepts([], text[..0]);
  }

  method Match(re: string, text: string) returns (r: bool)
    ensures r <==> Matches(re, text)
  {
    if re != "" && re[0] == '^' {
      r := MatchHere(re[1..], text);
      return;
    }
    var i := 0;
    while true
      invariant 0 <= i <= |text| && forall j :: 0 <= j < i ==> !Here(Parse(re), text[j..])
      decreases |text| - i
    {
      r := MatchHere(re, text[i..]);
      if r {
        return true;
      }
      if i == |text| {
        return false;
      }
      i := i + 1;
    }
  }

  method MatchHere(re: string, text: string) returns (r: bool)
    ensures r <==> Here(Parse(re), text)
    decreases |re|, 1
  {
    if re == "" {
      HereNothing(false, text);
      return true;
    }
    if |re| >= 2 && re[1] == '*' {
      r := MatchStar(re[0], re[2..], text);
      return;
    }
    if re == "$" {
      HereNothing(true, text);
      return text == "";
    }
    HereOne(re[0], Parse(re[1..]), text);
    if text != "" && (re[0] == '.' || re[0] == text[0]) {
      r := MatchHere(re[1..], text[1..]);
      return;
    }
    return false;
  }

  method MatchStar(c: char, re: string, text: string) returns (r: bool)
    ensures r <==> Here(Cons(Star(c), Parse(re)), text)
    decreases |re|, 2
  {
    HereStar(c, Parse(re), text);
    var i := 0;
    while true
      invariant 0 <= i <= |text| && AllSuit(c, text[..i]) && forall j :: 0 <= j < i ==> !Here(Parse(re), text[j..])
      decreases |text| - i
    {
      r := MatchHere(re, text[i..]);
      if r {
        return true;
      }
      if !(i < |text| && (text[i] == c || c == '.')) {
        forall k | i < k <= |text| ensures !AllSuit(c, text[..k]) {
          assert text[..k][i] == text[i];
        }
        return false;
      }
      i := i + 1;
    }
  }

  // The line buffer.

  const BUFSIZE: nat := 1024

  /** The position of the first newline, or |s|. */
  function LineEnd(s: string): (k: nat)
    ensures k <= |s| && '\n' !in s[..k] && (k < |s| ==> s[k] == '\n')
  {
    if s == "" || s[0] == '\n' then 0
    else
      assert s[..1 + LineEnd(s[1..])] == [s[0]] + s[1..][..LineEnd(s[1..])];
      1 + LineEnd(s[1..])
  }

  lemma NoNewline(s: string, k: nat)
    requires k <= |s| && '\n' !in s[..k]
    ensures forall i :: 0 <= i < k ==> s[i] != '\n'
  {
    forall i | 0 <= i < k ensures s[i] != '\n' { assert s[i] == s[..k][i]; }
  }

  lemma LineEndIs(s: string, k: nat)
    requires k < |s| && s[k] == '\n' && '\n' !in s[..k]
    ensures LineEnd(s) == k
  {
    var e := LineEnd(s);
    NoNewline(s, k);
    NoNewline(s, e);
  }

  /** The matching lines of s, up to the first line that does not fit the buffer; a last line without a newline
      does not count. */
  ghost function Selected(re: string, s: string): string
    decreases |s|
  {
    var k := LineEnd(s);
    if k == |s| || k + 1 >= BUFSIZE then ""
    else (if Matches(re, s[..k]) then s[..k + 1] else "") + Selected(re, s[k + 1..])
  }

  /** All matching newline-terminated lines of s. */
  ghost function MatchingLines(re: string, s: string): string
    decreases |s|
  {
    var k := LineEnd(s);
    if k == |s| then "" else (if Matches(re, s[..k]) then s[..k + 1] else "") + MatchingLines(re, s[k + 1..])
  }

  /** Every newline-terminated line has at most 1023 bytes, the newline included. */
  predicate LinesFit(s: string)
    decreases |s|
  {
    var k := LineEnd(s);
    k == |s| || (k + 1 < BUFSIZE && LinesFit(s[k + 1..]))
  }

  lemma {:induction false} AllSelected(re: string, s: string)
    requires LinesFit(s)
    ensures Selected(re, s) == MatchingLines(re, s)
    decreases |s|
  {
    var k := LineEnd(s);
    if k < |s| { AllSelected(re, s[k + 1..]); }
  }

  /** The input from its first overlong line on. */
  function Overflow(s: string): string
    decreases |s|
  {
    var k := LineEnd(s);
    if k == |s| then "" else if k + 1 >= BUFSIZE then s else Overflow(s[k + 1..])
  }

  lemma {:induction false} Lost(re: string, s: string)
    ensures MatchingLines(re, s) == Selected(re, s) + MatchingLines(re, Overflow(s))
    decreases |s|
  {
    var k := LineEnd(s);
    if k < |s| && k + 1 < BUFSIZE {
      Lost(re, s[k + 1..]);
      var line := if Matches(re, s[..k]) then s[..k + 1] else "";
      var (x, y) := (Selected(re, s[k + 1..]), MatchingLines(re, Overflow(s)));
      assert line + (x + y) == (line + x) + y;
    }
  }

  /** grep selects all matching lines exactly if none comes at or after an overlong one. */
  lemma NothingLost(re: string, s: string)
    ensures Selected(re, s) == MatchingLines(re, s) <==> MatchingLines(re, Overflow(s)) == ""
  {
    Lost(re, s);
    var (x, y) := (Selected(re, s), MatchingLines(re, Overflow(s)));
    assert y == "" ==> x + y == x;
    assert |x + y| == |x| + |y|;
  }

  /** The empty pattern matches everything. */
  lemma EmptyMatches(text: string)
    ensures Matches("", text)
  {
    HereNothing(false, text[0..]);
  }

  lemma {:induction false} OverflowExactly(s: string)
    ensures LinesFit(s) <==> Overflow(s) == ""
    ensures LineEnd(Overflow(s)) < |Overflow(s)| || Overflow(s) == ""
    decreases |s|
  {
    var k := LineEnd(s);
    if k < |s| && k + 1 < BUFSIZE { OverflowExactly(s[k + 1..]); }
  }

  /** The inputs of which no pattern loses a line are exactly those whose lines fit the buffer. */
  lemma FitsExactly(s: string)
    ensures (forall re :: Selected(re, s) == MatchingLines(re, s)) <==> LinesFit(s)
  {
    OverflowExactly(s);
    if LinesFit(s) {
      forall re ensures Selected(re, s) == MatchingLines(re, s) { AllSelected(re, s); }
    } else {
      var t := Overflow(s);
      EmptyMatches(t[..LineEnd(t)]);
      NothingLost("", s);
    }
  }

  /** Such an input: a line of 1024 bytes matches, but is not written. */
  lemma LostLine(s: string, n: nat)
    requires n == BUFSIZE - 1 && s == seq(n, _ => 'a') + "\n"
    ensures Selected("", s) == "" && MatchingLines("", s) == s
  {
    LineEndIs(s, n);
    EmptyMatches(s[..n]);
    assert s[..n + 1] == s && s[n + 1..] == "";
  }

  // A predicate of the form `forall u :: UnfoldP(u) ==> body` means `body`, but the verifier looks
  // inside P only in proofs that mention UnfoldP.
  predicate UnfoldLeft(u: int) { true }

  /** With out written, what is still to be selected from s completes what is to be selected from all. */
  ghost predicate Left(re: string, all: string, out: string, s: string) {
    forall u {:trigger UnfoldLeft(u)} :: UnfoldLeft(u) ==> Selected(re, all) == out + Selected(re, s)
  }

  lemma LeftAll(re: string, s: string)
    ensures Left(re, s, "", s)
  {
    assert "" + Selected(re, s) == Selected(re, s);
  }

  lemma LeftMore(re: string, all: string, out: string, s: string, o: string, s': string)
    requires Left(re, all, out, s) && Left(re, s, o, s')
    ensures Left(re, all, out + o, s')
  {
    assert UnfoldLeft(0);
    assert (out + o) + Selected(re, s') == out + (o + Selected(re, s'));
  }

  /** What a read of up to `space` bytes may return: something, unless there is no room or no input. */
  function ReadCount(hint: nat, space: nat, left: nat): (n: nat)
    ensures n <= space && n <= left && (n == 0 <==> space == 0 || left == 0)
  {
    var most := if space < left then space else left;
    if most == 0 then 0 else 1 + hint % most
  }

  /** read: puts the next n bytes of the input behind the first m of the buffer. */
  method ReadInto(buf: array<char>, m: nat, input: string, pos: nat, n: nat)
    requires m + n <= buf.Length && pos + n <= |input|
    modifies buf
    ensures buf[..m + n] == old(buf[..m]) + input[pos..pos + n]
  {
    for i := 0 to n
      invariant buf[..m + i] == old(buf[..m]) + input[pos..pos + i]
    {
      buf[m + i] := input[pos + i];
    }
  }

  /** grep over an input that read delivers in any portions: writes exactly the selected lines. */
  method Grep(re: string, input: string, portions: nat -> nat) returns (out: string)
    ensures out == Selected(re, input)
  {
    var buf := new char[BUFSIZE](_ => '\0');
    var m, pos, calls := 0, 0, 0;
    out := "";
    assert buf[..m] + input[pos..] == input;
    LeftAll(re, input);
    while true
      invariant 0 <= m < BUFSIZE && pos <= |input| && '\n' !in buf[..m]
      invariant Left(re, input, out, buf[..m] + input[pos..])
      decreases |input| - pos
    {
      var n := ReadCount(portions(calls), BUFSIZE - m - 1, |input| - pos);
      calls := calls + 1;
      if n == 0 {
        break;
      }
      ghost var b := buf[..m];
      ReadInto(buf, m, input, pos, n);
      Rejoined(b, input, pos, n);
      m, pos := m + n, pos + n;
      ghost var s := buf[..m] + input[pos..];
      var o;
      o, m := ScanLines(re, buf, m, input[pos..]);
      LeftMore(re, input, out, s, o, buf[..m] + input[pos..]);
      out := out + o;
    }
    Exhausted(re, buf[..m], input[pos..]);
    assert out + "" == out && UnfoldLeft(0);
  }

  lemma Rejoined(b: string, input: string, pos: nat, n: nat)
    requires pos + n <= |input|
    ensures b + input[pos..] == (b + input[pos..pos + n]) + input[pos + n..]
  {
    assert input[pos..] == input[pos..pos + n] + input[pos + n..];
  }

  /** Nothing is selected once the buffer is full or the input is at its end. */
  lemma Exhausted(re: string, b: string, rest: string)
    requires '\n' !in b && (|b| == BUFSIZE - 1 || rest == "")
    ensures Selected(re, b + rest) == ""
  {
    var s := b + rest;
    assert s[..|b|] == b;
    NoNewline(s, |b|);
    assert LineEnd(s) >= |b|;
  }

  /** The inner loop: writes the matching lines in the buffer and moves the incomplete last one to the front. */
  method ScanLines(re: string, buf: array<char>, m0: nat, ghost rest: string) returns (out: string, m: nat)
    requires buf.Length == BUFSIZE && m0 < BUFSIZE
    modifies buf
    ensures m <= m0 && '\n' !in buf[..m]
    ensures Left(re, old(buf[..m0]) + rest, out, buf[..m] + rest)
  {
    var p;
    out, p := WriteLines(re, buf, m0, rest);
    m := m0 - p;
    for i := 0 to m
      invariant buf[p + i..m0] == old(buf[p + i..m0]) && buf[..i] == old(buf[p..p + i])
    {
      assert buf[p + i] == buf[p + i..m0][0];
      buf[i] := buf[p + i];
    }
  }

  method WriteLines(re: string, buf: array<char>, m0: nat, ghost rest: string) returns (out: string, p: nat)
    requires buf.Length == BUFSIZE && m0 < BUFSIZE
    ensures p <= m0 && '\n' !in buf[p..m0]
    ensures Left(re, buf[..m0] + rest, out, buf[p..m0] + rest)
  {
    p, out := 0, "";
    LeftAll(re, buf[..m0] + rest);
    assert buf[p..m0] == buf[..m0];
    while true
      invariant 0 <= p <= m0 && Left(re, buf[..m0] + rest, out, buf[p..m0] + rest)
      decreases m0 - p
    {
      var q := FindNewline(buf, p, m0);
      if q == m0 {
        break;
      }
      var hit := Match(re, buf[p..q]);
      var line := if hit then buf[p..q + 1] else "";
      LineInBuffer(re, buf[..], p, q, m0, rest, line);
      assert buf[..][p..m0] == buf[p..m0] && buf[..][q + 1..m0] == buf[q + 1..m0];
      LeftMore(re, buf[..m0] + rest, out, buf[p..m0] + rest, line, buf[q + 1..m0] + rest);
      out, p := out + line, q + 1;
    }
  }

  lemma LineInBuffer(re: string, b: string, p: nat, q: nat, m: nat, rest: string, line: string)
    requires p <= q < m <= |b| && m - p < BUFSIZE && b[q] == '\n' && '\n' !in b[p..q]
    requires line == if Matches(re, b[p..q]) then b[p..q + 1] else ""
    ensures Left(re, b[p..m] + rest, line, b[q + 1..m] + rest)
  {
    var c := b[p..m];
    assert c[..q - p] == b[p..q] && c[..q - p + 1] == b[p..q + 1] && c[q - p + 1..] == b[q + 1..m];
    LineTaken(re, c, rest, q - p);
  }

  /** strchr for a newline from p on; m if there is none. */
  method FindNewline(buf: array<char>, p: nat, m: nat) returns (q: nat)
    requires p <= m <= buf.Length
    ensures p <= q <= m && '\n' !in buf[p..q] && (q < m ==> buf[q] == '\n')
  {
    q := p;
    while q < m && buf[q] != '\n'
      invariant p <= q <= m && '\n' !in buf[p..q]
    {
      q := q + 1;
    }
  }

  lemma LineTaken(re: string, b: string, rest: string, k: nat)
    requires k < |b| < BUFSIZE && b[k] == '\n' && '\n' !in b[..k]
    ensures Selected(re, b + rest) == (if Matches(re, b[..k]) then b[..k + 1] else "") + Selected(re, b[k + 1..] + rest)
  {
    var s := b + rest;
    assert s[..k] == b[..k] && s[..k + 1] == b[..k + 1] && s[k + 1..] == b[k + 1..] + rest;
    LineEndIs(s, k);
  }

  /** With lines that fit, grep writes exactly the matching lines, however read splits the input. */
  method GrepLines(re: string, input: string, portions: nat -> nat) returns (out: string)
    requires LinesFit(input)
    ensures out == MatchingLines(re, input)
  {
    out := Grep(re, input, portions);
    AllSelected(re, input);
  }
}
