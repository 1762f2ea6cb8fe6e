/**
 What the parser of user/sh.c does to text: parsing a rendered command gives it back, and
 nulterminate turns every word into a C string without damage to another.
 */
module ShellText {
  import opened ShellGrammar
  import opened ShellMap
  import opened ShellParser

  // Rendering tokens with a blank after each.

  function Show(t: Token<string>): string {
    match t
    case Word(w) => w
    case Sym(c) => if c == '+' then ">>" else [c]
  }

  function Render(ts: seq<Token<string>>): string {
    if ts == [] then "" else Show(ts[0]) + " " + Render(ts[1..])
  }

  /** A word without white space, symbols and NULs. */
  predicate Plain(w: string) {
    w != "" && forall c :: c in w ==> !Space(c) && !Symbol(c) && c != '\0'
  }

  predicate Good(t: Token<string>) {
    match t
    case Word(w) => Plain(w)
    case Sym(c) => Symbol(c) || c == '+'
  }

  /** The text of a word of s. */
  function Text(s: string): Span -> string {
    (w: Span) => if w.from <= w.to <= |s| then s[w.from..w.to] else ""
  }

  lemma {:induction false} WordEndAt(s: string, p: nat, q: nat)
    requires p <= q < |s| && (Space(s[q]) || Symbol(s[q])) && forall i :: p <= i < q ==> !Space(s[i]) && !Symbol(s[i])
    ensures WordEnd(s, p) == q
    decreases q - p
  {
    if p < q { WordEndAt(s, p + 1, q); }
  }

  /** The token rendered at p is found there, up to the blank behind it. */
  lemma TokenFound(s: string, p: nat, t: Token<string>)
    requires Good(t) && p + |Show(t)| < |s| && s[p..p + |Show(t)|] == Show(t) && s[p + |Show(t)|] == ' '
    ensures p < |s| && !Space(s[p]) && MapToken(Text(s), TokenAt(s, p).0) == t && TokenAt(s, p).1 == p + |Show(t)|
  {
    var n := |Show(t)|;
    assert forall i :: 0 <= i < n ==> s[p + i] == Show(t)[i];
    if t.Word? {
      assert s[p] == t.w[0];
      forall i | p <= i < p + n ensures !Space(s[i]) && !Symbol(s[i]) { assert s[i] == t.w[i - p]; }
      WordEndAt(s, p, p + n);
    } else if t.c == '+' {
      assert s[p + 1] == '>';
    }
  }

  /** Reading past a token and the blank behind it. */
  lemma TokensPast(s: string, p: nat, n: nat)
    requires p + n < |s| && !Space(s[p]) && TokenAt(s, p).1 == p + n && s[p + n] == ' '
    ensures Tokens(s, p) == [TokenAt(s, p).0] + Tokens(s, p + n + 1)
  {
    assert Skip(s, p) == p;
    assert Skip(s, p + n) == Skip(s, p + n + 1);
  }

  lemma Placed(s: string, p: nat, t: string, rest: string)
    requires p <= |s| && s[p..] == t + " " + rest
    ensures p + |t| < |s| && s[p..p + |t|] == t && s[p + |t|] == ' ' && s[p + |t| + 1..] == rest
  {
    var u := s[p..];
    assert u[..|t|] == t && u[|t|] == ' ' && u[|t| + 1..] == rest;
    assert s[p..p + |t|] == u[..|t|] && s[p + |t| + 1..] == u[|t| + 1..];
  }

  lemma FirstFound(s: string, p: nat, t: Token<string>, rest: string, n: nat)
    requires Good(t) && p <= |s| && s[p..] == Show(t) + " " + rest && n == |Show(t)|
    ensures p + n < |s| && s[p + n] == ' ' && s[p + n + 1..] == rest
    ensures !Space(s[p]) && MapToken(Text(s), TokenAt(s, p).0) == t && TokenAt(s, p).1 == p + n
  {
    Placed(s, p, Show(t), rest);
    TokenFound(s, p, t);
  }

  lemma FirstToken(s: string, p: nat, t: Token<string>, rest: string, n: nat) returns (u: Token<Span>)
    requires Good(t) && p <= |s| && s[p..] == Show(t) + " " + rest && n == |Show(t)|
    ensures p + n + 1 <= |s| && s[p + n + 1..] == rest && Tokens(s, p) == [u] + Tokens(s, p + n + 1)
    ensures MapToken(Text(s), u) == t
  {
    FirstFound(s, p, t, rest, n);
    TokensPast(s, p, n);
    u := TokenAt(s, p).0;
  }

  lemma {:induction false} Lexed(s: string, p: nat, ts: seq<Token<string>>, f: Span -> string, us: seq<Token<Span>>)
    requires AllGood(ts) && p <= |s| && s[p..] == Render(ts) && f == Text(s) && us == Tokens(s, p)
    ensures MapTokens(f, us) == ts
    decreases |ts|
  {
    if ts == [] {
      assert p == |s| && us == [];
    } else {
      var (t, rest) := (ts[0], Render(ts[1..]));
      assert Render(ts) == Show(t) + " " + rest;
      var q := p + |Show(t)| + 1;
      var u := FirstToken(s, p, t, rest, |Show(t)|);
      var us' := Tokens(s, q);
      Lexed(s, q, ts[1..], f, us');
      LexedFirst(f, t, ts[1..], u, us');
      Shift([], ts);
    }
  }

  lemma LexedFirst(f: Span -> string, t: Token<string>, ts: seq<Token<string>>, u: Token<Span>, us: seq<Token<Span>>)
    requires MapToken(f, u) == t && MapTokens(f, us) == ts
    ensures MapTokens(f, [u] + us) == [t] + ts
  {
  }

  // Printed commands are good.

  predicate PlainCmd(c: Cmd<string>) {
    match c
    case Exec(args) => forall w :: w in args ==> Plain(w)
    case Redir(sub, file, _) => PlainCmd(sub) && Plain(file)
    case Pipe(l, r) => PlainCmd(l) && PlainCmd(r)
    case List(l, r) => PlainCmd(l) && PlainCmd(r)
    case Back(sub) => PlainCmd(sub)
  }

  predicate AllGood(ts: seq<Token<string>>) { forall t :: t in ts ==> Good(t) }

  lemma {:induction false} WordsGood(ws: seq<string>)
    requires forall w :: w in ws ==> Plain(w)
    ensures AllGood(PrintWords(ws))
  {
    if ws != [] { WordsGood(ws[1..]); }
  }

  lemma {:induction false} LineGood(c: Cmd<string>)
    requires PlainCmd(c)
    ensures AllGood(PrintLine(c))
    decreases c, 2
  {
    match c
    case List(l, r) => UnitGood(l); LineGood(r);
    case Back(sub) => UnitGood(sub);
    case _ => PipeGood(c);
  }

  lemma {:induction false} UnitGood(c: Cmd<string>)
    requires PlainCmd(c)
    ensures AllGood(PrintUnit(c))
    decreases c, 5
  {
    if c.Back? { LineGood(c); } else { PipeGood(c); }
  }

  lemma {:induction false} PipeGood(c: Cmd<string>)
    requires PlainCmd(c)
    ensures AllGood(PrintPipe(c))
    decreases c, if c.List? || c.Back? then 4 else 1
  {
    if c.Pipe? {
      ExecGood(c.left);
      PipeGood(c.right);
    } else {
      ExecGood(c);
    }
  }

  lemma {:induction false} ExecGood(c: Cmd<string>)
    requires PlainCmd(c)
    ensures AllGood(PrintExec(c))
    decreases c, if Composite(c) then 3 else 0
  {
    match c
    case Exec(args) => WordsGood(args);
    case Redir(sub, file, mode) => ExecGood(sub);
    case _ => LineGood(c);
  }

  /** Any command of plain words with at most MAXARGS - 1 words each is what parsing its rendered form gives,
      with nothing left over. */
  lemma RenderedParsesBack(c: Cmd<string>)
    requires PlainCmd(c) && Fits(c)
    ensures var s := Render(PrintLine(c));
            var r := ParseLine(Tokens(s, 0));
            r.Ok? && r.rest == [] && MapCmd(Text(s), r.cmd) == c
  {
    var s := Render(PrintLine(c));
    LineGood(c);
    Lexed(s, 0, PrintLine(c), Text(s), Tokens(s, 0));
    RoundTrip(c);
    LineCommutes(Text(s), Tokens(s, 0));
  }

  // nulterminate.

  function CString(b: seq<char>, i: nat): string
    requires i <= |b|
    decreases |b| - i
  {
    if i < |b| && b[i] != '\0' then [b[i]] + CString(b, i + 1) else ""
  }

  /** The positions that nulterminate clears. */
  ghost function Ends(c: Cmd<Span>): set<nat> {
    match c
    case Exec(args) => set i | 0 <= i < |args| :: args[i].to
    case Redir(sub, file, _) => Ends(sub) + {file.to}
    case Pipe(l, r) => Ends(l) + Ends(r)
    case List(l, r) => Ends(l) + Ends(r)
    case Back(sub) => Ends(sub)
  }

  method NulTerminate(c: Cmd<Span>, buf: array<char>)
    requires forall i :: i in Ends(c) ==> i < buf.Length
    modifies buf
    ensures forall i :: 0 <= i < buf.Length ==> buf[i] == if i in Ends(c) then '\0' else old(buf[i])
    decreases c
  {
    match c
    case Exec(args) =>
      for i := 0 to |args|
        invariant forall k :: 0 <= k < buf.Length ==>
          buf[k] == if k in (set j | 0 <= j < i :: args[j].to) then '\0' else old(buf[k])
      {
        assert args[i].to in Ends(c);
        buf[args[i].to] := '\0';
      }
    case Redir(sub, file, _) =>
      assert Ends(c) == Ends(sub) + {file.to};
      NulTerminate(sub, buf);
      buf[file.to] := '\0';
    case Pipe(l, r) =>
      assert Ends(c) == Ends(l) + Ends(r);
      NulTerminate(l, buf);
      NulTerminate(r, buf);
    case List(l, r) =>
      assert Ends(c) == Ends(l) + Ends(r);
      NulTerminate(l, buf);
      NulTerminate(r, buf);
    case Back(sub) =>
      assert Ends(c) == Ends(sub);
      NulTerminate(sub, buf);
  }

  /** Words lie in s from lo on, in order, each with something between it and the next. */
  ghost predicate Apart(s: string, ts: seq<Token<Span>>, lo: nat) {
    && (forall i :: 0 <= i < |ts| && ts[i].Word? ==>
         lo <= ts[i].w.from < ts[i].w.to <= |s| && !Space(s[ts[i].w.from]) && !Symbol(s[ts[i].w.from]))
    && (forall i, j :: 0 <= i < j < |ts| && ts[i].Word? && ts[j].Word? ==> ts[i].w.to < ts[j].w.from)
  }

  lemma {:induction false} WordsApart(s: string, p: nat)
    requires p <= |s|
    ensures Apart(s, Tokens(s, p), p)
    decreases |s| - p
  {
    var q := Skip(s, p);
    if q < |s| {
      var (t, n) := TokenAt(s, q);
      WordsApart(s, n);
      ApartFirst(s, p, t, n, Tokens(s, n));
    }
  }

  lemma ApartFirst(s: string, p: nat, t: Token<Span>, n: nat, us: seq<Token<Span>>)
    requires p <= n <= |s| && Apart(s, us, n)
    requires t.Word? ==>
               && p <= t.w.from < t.w.to == n && !Space(s[t.w.from]) && !Symbol(s[t.w.from])
               && (n < |s| ==> Space(s[n]) || Symbol(s[n]))
    ensures Apart(s, [t] + us, p)
  {
    var ts := [t] + us;
    assert forall i :: 0 < i < |ts| ==> ts[i] == us[i - 1];
    forall i | 0 <= i < |us| && us[i].Word? && t.Word? ensures t.w.to < us[i].w.from {
      assert us[i].w.from != n;
    }
  }

  lemma EndOutside(s: string, ts: seq<Token<Span>>, v: Span, w: Span)
    requires Apart(s, ts, 0) && Word(v) in ts && Word(w) in ts
    ensures !(w.from <= v.to < w.to) && w.from <= w.to <= |s|
  {
    var j :| 0 <= j < |ts| && ts[j] == Word(v);
    var k :| 0 <= k < |ts| && ts[k] == Word(w);
  }

  /** No word's end lies in another word, so clearing the ends leaves every word whole and terminated. */
  lemma WordsTerminated(s: string, ts: seq<Token<Span>>, ends: set<nat>, b: seq<char>, w: Span)
    requires Apart(s, ts, 0) && '\0' !in s && Word(w) in ts && w.to in ends
    requires forall e :: e in ends ==> exists v :: Word(v) in ts && v.to == e
    requires |b| == |s| + 1 && forall i :: 0 <= i <= |s| ==> b[i] == if i in ends || i == |s| then '\0' else s[i]
    ensures w.from <= w.to <= |s| && CString(b, w.from) == s[w.from..w.to]
  {
    forall v | Word(v) in ts ensures !(w.from <= v.to < w.to) {
      EndOutside(s, ts, v, w);
    }
    Scanned(b, w.from, w.to);
    assert b[w.from..w.to] == s[w.from..w.to];
  }

  lemma {:induction false} Scanned(b: seq<char>, i: nat, j: nat)
    requires i <= j < |b| && b[j] == '\0' && forall k :: i <= k < j ==> b[k] != '\0'
    ensures CString(b, i) == b[i..j]
    decreases j - i
  {
    if i < j {
      Scanned(b, i + 1, j);
      assert b[i..j] == [b[i]] + b[i + 1..j];
    }
  }

  lemma {:induction false} EndsOfLeaves(c: Cmd<Span>)
    ensures forall e :: e in Ends(c) ==> exists w :: w in Leaves(c) && w.to == e
    ensures forall w :: w in Leaves(c) ==> w.to in Ends(c)
  {
    match c
    case Exec(args) =>
      forall e | e in Ends(c) ensures exists w :: w in Leaves(c) && w.to == e {
        var i :| 0 <= i < |args| && args[i].to == e;
        assert args[i] in Leaves(c);
      }
    case Redir(sub, _, _) => EndsOfLeaves(sub);
    case Pipe(l, r) => EndsOfLeaves(l); EndsOfLeaves(r);
    case List(l, r) => EndsOfLeaves(l); EndsOfLeaves(r);
    case Back(sub) => EndsOfLeaves(sub);
  }

  /** parsecmd: on success the input buffer holds, at every word of the command, exactly that word as a C string. */
  method ParseCommand(line: string, buf: array<char>) returns (r: Option<Cmd<Span>>)
    requires '\0' !in line && buf[..] == line + ['\0']
    modifies buf
    ensures r == match ParseLine(Tokens(line, 0))
                 case Panic => None
                 case Ok(c, rest) => if rest == [] then Some(c) else None
    ensures r.Some? ==> forall w :: w in Leaves(r.value) ==>
              w.from <= w.to <= |line| && CString(buf[..], w.from) == line[w.from..w.to]
  {
    var parser := new Parser(line);
    r := parser.ParseCmd();
    if r.Some? {
      var c := r.value;
      EndsOfLeaves(c);
      LineFrom(Tokens(line, 0));
      WordsApart(line, 0);
      NulTerminate(c, buf);
      forall w | w in Leaves(c) ensures w.from <= w.to <= |line| && CString(buf[..], w.from) == line[w.from..w.to] {
        WordsTerminated(line, Tokens(line, 0), Ends(c), buf[..], w);
      }
    }
  }
}
