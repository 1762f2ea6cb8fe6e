/**
 The grammar of the shell's command language, apart from any parser, and the proof that the parser of
 user/sh.c takes exactly the token sequences the grammar derives, and gives them the meaning it assigns.
 */
module ShellSyntax {
  import opened ShellGrammar

  /** A part of a simple command: words and redirections may come in any order. */
  datatype Item<W> = Arg(w: W) | Redirect(file: W, mode: Mode)

  datatype Syn<W> =
    | Simple(items: seq<Item<W>>)
    | Block(line: Syn<W>, rs: seq<(W, Mode)>)  // ( line ) redirections
    | Piped(left: Syn<W>, right: Syn<W>)       // exec | pipe
    | Amp(unit: Syn<W>)                        // unit &
    | Then(left: Syn<W>, right: Syn<W>)        // unit ; line

  predicate IsExec<W>(s: Syn<W>)
    decreases s, 0
  {
    s.Simple? || (s.Block? && IsLine(s.line))
  }

  predicate IsPipe<W>(s: Syn<W>)
    decreases s, 1
  {
    if s.Piped? then IsExec(s.left) && IsPipe(s.right) else IsExec(s)
  }

  predicate IsUnit<W>(s: Syn<W>)
    decreases s, 2
  {
    if s.Amp? then IsUnit(s.unit) else IsPipe(s)
  }

  predicate IsLine<W>(s: Syn<W>)
    decreases s, 3
  {
    if s.Then? then IsUnit(s.left) && IsLine(s.right) else IsUnit(s)
  }

  function ItemTokens<W>(items: seq<Item<W>>): seq<Token<W>> {
    if items == [] then []
    else
      (match items[0] case Arg(w) => [Word(w)] case Redirect(file, mode) => PrintMode(mode) + [Word(file)])
      + ItemTokens(items[1..])
  }

  function Args<W>(items: seq<Item<W>>): seq<W> {
    if items == [] then [] else (if items[0].Arg? then [items[0].w] else []) + Args(items[1..])
  }

  function Redirections<W>(items: seq<Item<W>>): seq<(W, Mode)> {
    if items == [] then []
    else (if items[0].Redirect? then [(items[0].file, items[0].mode)] else []) + Redirections(items[1..])
  }

  /** What is typed. */
  function Tokens<W>(s: Syn<W>): seq<Token<W>> {
    match s
    case Simple(items) => ItemTokens(items)
    case Block(line, rs) => Op('(') + Tokens(line) + Op(')') + PrintRedirs(rs)
    case Piped(l, r) => Tokens(l) + Op('|') + Tokens(r)
    case Amp(u) => Tokens(u) + Op('&')
    case Then(l, r) => Tokens(l) + Op(';') + Tokens(r)
  }

  /** What it means: the words in their order, redirected by the redirections in theirs. */
  function Meaning<W>(s: Syn<W>): Cmd<W> {
    match s
    case Simple(items) => Wrap(Exec(Args(items)), Redirections(items))
    case Block(line, rs) => Wrap(Meaning(line), rs)
    case Piped(l, r) => Pipe(Meaning(l), Meaning(r))
    case Amp(u) => Back(Meaning(u))
    case Then(l, r) => List(Meaning(l), Meaning(r))
  }

  /** No simple command has too many words. */
  predicate Short<W>(s: Syn<W>) {
    match s
    case Simple(items) => |Args(items)| < MAXARGS
    case Block(line, _) => Short(line)
    case Piped(l, r) => Short(l) && Short(r)
    case Amp(u) => Short(u)
    case Then(l, r) => Short(l) && Short(r)
  }

  // Simple commands.

  /** parseexec at a point where redirections may come next. */
  function ParseMore<W>(args: seq<W>, rs: seq<(W, Mode)>, ts: seq<Token<W>>): Result<W> {
    match ParseRedirs(ts)
    case NoFile => Panic
    case Redirs(rs', rest) => ParseArgs(args, rs + rs', rest)
  }

  lemma MoreRedir<W>(args: seq<W>, rs: seq<(W, Mode)>, ts: seq<Token<W>>)
    requires AtRedir(ts) && |ts| >= 2 && ts[1].Word?
    ensures ParseMore(args, rs, ts) == ParseMore(args, rs + [(ts[1].w, ModeOf(ts[0].c))], ts[2..])
  {
    RedirFirst(ts);
    var r := ParseRedirs(ts[2..]);
    if r.Redirs? {
      var x := (ts[1].w, ModeOf(ts[0].c));
      assert rs + ([x] + r.rs) == rs + [x] + r.rs;
    }
  }

  lemma MoreArg<W>(args: seq<W>, rs: seq<(W, Mode)>, ts: seq<Token<W>>)
    requires ts != [] && ts[0].Word? && |args| + 1 < MAXARGS
    ensures ParseMore(args, rs, ts) == ParseMore(args + [ts[0].w], rs, ts[1..])
  {
    NoRedirs(ts);
    assert rs + [] == rs;
    ArgFirst(args, rs, ts);
  }

  lemma {:induction false} ItemsParsed<W>(args: seq<W>, rs: seq<(W, Mode)>, items: seq<Item<W>>, rest: seq<Token<W>>,
                                          ts: seq<Token<W>>)
    requires EndsExec(rest) && |args| + |Args(items)| < MAXARGS && ts == ItemTokens(items) + rest
    ensures ParseMore(args, rs, ts) == Ok(Wrap(Exec(args + Args(items)), rs + Redirections(items)), rest)
    decreases |items|
  {
    if items == [] {
      assert ts == rest;
      NoRedirs(rest);
      assert args + [] == args && rs + [] == rs;
    } else {
      var (x, more) := (items[0], items[1..]);
      if x.Arg? {
        DropOne(Word(x.w), ItemTokens(more), rest);
        MoreArg(args, rs, ts);
        ItemsParsed(args + [x.w], rs, more, rest, ts[1..]);
        assert args + [x.w] + Args(more) == args + Args(items);
        assert Redirections(items) == Redirections(more);
      } else {
        var m: Token<W> := PrintMode(x.mode)[0];
        assert ItemTokens(items) == [m] + [Word(x.file)] + ItemTokens(more);
        DropTwo(m, Word(x.file), ItemTokens(more), rest);
        assert ModeOf(ts[0].c) == x.mode;
        MoreRedir(args, rs, ts);
        ItemsParsed(args, rs + [(x.file, x.mode)], more, rest, ts[2..]);
        assert rs + [(x.file, x.mode)] + Redirections(more) == rs + Redirections(items);
        assert Args(items) == Args(more);
      }
    }
  }

  /** The items are what ParseMore has read. */
  predicate Read<W(==)>(args: seq<W>, rs: seq<(W, Mode)>, ts: seq<Token<W>>, items: seq<Item<W>>, r: Result<W>) {
    && r.Ok? && ts == ItemTokens(items) + r.rest && |args| + |Args(items)| < MAXARGS
    && r.cmd == Wrap(Exec(args + Args(items)), rs + Redirections(items))
  }

  lemma ReadRedir<W>(args: seq<W>, rs: seq<(W, Mode)>, ts: seq<Token<W>>, more: seq<Item<W>>, r: Result<W>)
    returns (items: seq<Item<W>>)
    requires AtRedir(ts) && |ts| >= 2 && ts[1].Word?
    requires Read(args, rs + [(ts[1].w, ModeOf(ts[0].c))], ts[2..], more, r)
    ensures Read(args, rs, ts, items, r)
  {
    var x := (ts[1].w, ModeOf(ts[0].c));
    items := [Redirect(x.0, x.1)] + more;
    assert items[1..] == more;
    assert PrintMode(x.1) == [ts[0]];
    assert ts == [ts[0]] + [ts[1]] + ts[2..];
    assert Redirections(items) == [x] + Redirections(more);
    assert rs + [x] + Redirections(more) == rs + ([x] + Redirections(more));
    assert Args(items) == Args(more);
  }

  lemma ReadArg<W>(args: seq<W>, rs: seq<(W, Mode)>, ts: seq<Token<W>>, more: seq<Item<W>>, r: Result<W>)
    returns (items: seq<Item<W>>)
    requires ts != [] && ts[0].Word? && Read(args + [ts[0].w], rs, ts[1..], more, r)
    ensures Read(args, rs, ts, items, r)
  {
    items := [Arg(ts[0].w)] + more;
    assert items[1..] == more;
    assert ts == [ts[0]] + ts[1..];
    assert Args(items) == [ts[0].w] + Args(more);
    assert args + [ts[0].w] + Args(more) == args + ([ts[0].w] + Args(more));
    assert Redirections(items) == Redirections(more);
  }

  lemma {:induction false} ItemsRead<W>(args: seq<W>, rs: seq<(W, Mode)>, ts: seq<Token<W>>)
    returns (items: seq<Item<W>>)
    requires |args| < MAXARGS && ParseMore(args, rs, ts).Ok?
    ensures Read(args, rs, ts, items, ParseMore(args, rs, ts))
    decreases |ts|
  {
    var r := ParseMore(args, rs, ts);
    if AtRedir(ts) {
      MoreRedir(args, rs, ts);
      items := ItemsRead(args, rs + [(ts[1].w, ModeOf(ts[0].c))], ts[2..]);
      items := ReadRedir(args, rs, ts, items, r);
    } else {
      NoRedirs(ts);
      assert rs + [] == rs;
      if EndsExec(ts) {
        items := [];
        assert args + [] == args && [] + ts == ts;
      } else {
        MoreArg(args, rs, ts);
        items := ItemsRead(args + [ts[0].w], rs, ts[1..]);
        items := ReadArg(args, rs, ts, items, r);
      }
    }
  }

  // What the grammar derives is taken.

  lemma {:induction false} ExecTaken<W>(s: Syn<W>, rest: seq<Token<W>>)
    requires IsExec(s) && Short(s) && EndsExec(rest)
    ensures ParseExec(Tokens(s) + rest) == Ok(Meaning(s), rest)
    decreases s, 0
  {
    if s.Simple? {
      SimpleTaken(s.items, rest);
    } else {
      var tail := PrintRedirs(s.rs) + rest;
      assert Tokens(s) + rest == [Sym('(')] + Tokens(s.line) + [Sym(')')] + tail;
      Bracketed(Sym('('), Tokens(s.line), Sym(')'), tail);
      LineTaken(s.line, Op(')') + tail);
      RedirsBack(s.rs, rest);
    }
  }

  lemma SimpleTaken<W>(items: seq<Item<W>>, rest: seq<Token<W>>)
    requires |Args(items)| < MAXARGS && EndsExec(rest)
    ensures ParseExec(ItemTokens(items) + rest) == Ok(Wrap(Exec(Args(items)), Redirections(items)), rest)
  {
    var ts := ItemTokens(items) + rest;
    NotBlock(items, rest);
    ItemsParsed([], [], items, rest, ts);
    assert [] + Args(items) == Args(items) && [] + Redirections(items) == Redirections(items);
    ExecIsMore(ts);
  }

  lemma NotBlock<W>(items: seq<Item<W>>, rest: seq<Token<W>>)
    requires EndsExec(rest)
    ensures !At(ItemTokens(items) + rest, '(')
  {
    var ts := ItemTokens(items) + rest;
    if items == [] {
      assert ts == rest;
      assert rest != [] ==> rest[0].Sym? && rest[0].c != '(';
    } else if items[0].Arg? {
      assert ItemTokens(items)[0] == Word(items[0].w);
    } else {
      assert ItemTokens(items)[0] == PrintMode<W>(items[0].mode)[0];
    }
  }

  lemma ExecIsMore<W>(ts: seq<Token<W>>)
    requires !At(ts, '(')
    ensures ParseExec(ts) == ParseMore([], [], ts)
  {
    var r := ParseRedirs(ts);
    if r.Redirs? { assert [] + r.rs == r.rs; }
  }

  lemma {:induction false} PipeTaken<W>(s: Syn<W>, rest: seq<Token<W>>)
    requires IsPipe(s) && Short(s) && EndsPipe(rest)
    ensures ParsePipe(Tokens(s) + rest) == Ok(Meaning(s), rest)
    decreases s, 1
  {
    if s.Piped? {
      var tail := Op('|') + (Tokens(s.right) + rest);
      assert Tokens(s) + rest == Tokens(s.left) + tail;
      ExecTaken(s.left, tail);
      assert tail[1..] == Tokens(s.right) + rest;
      PipeTaken(s.right, rest);
    } else {
      ExecTaken(s, rest);
    }
  }

  lemma {:induction false} UnitTaken<W>(s: Syn<W>, rest: seq<Token<W>>)
    requires IsUnit(s) && Short(s) && EndsPipe(rest)
    ensures ParseLine(Tokens(s) + rest) == ParseTail(Meaning(s), rest)
    decreases s, 2
  {
    if s.Amp? {
      assert Tokens(s) + rest == Tokens(s.unit) + (Op('&') + rest);
      UnitTaken(s.unit, Op('&') + rest);
      assert (Op('&') + rest)[1..] == rest;
    } else {
      PipeTaken(s, rest);
    }
  }

  lemma {:induction false} LineTaken<W>(s: Syn<W>, rest: seq<Token<W>>)
    requires IsLine(s) && Short(s) && EndsLine(rest)
    ensures ParseLine(Tokens(s) + rest) == Ok(Meaning(s), rest)
    decreases s, 3
  {
    if s.Then? {
      var tail := Op(';') + (Tokens(s.right) + rest);
      assert Tokens(s) + rest == Tokens(s.left) + tail;
      UnitTaken(s.left, tail);
      assert tail[1..] == Tokens(s.right) + rest;
      LineTaken(s.right, rest);
    } else {
      UnitTaken(s, rest);
    }
  }

  // What is taken the grammar derives.

  /** s is what has been read of ts to get r. */
  predicate Derives<W(==)>(s: Syn<W>, ts: seq<Token<W>>, r: Result<W>) {
    r.Ok? && Short(s) && ts == Tokens(s) + r.rest && Meaning(s) == r.cmd
  }

  lemma {:induction false} RedirsRead<W>(ts: seq<Token<W>>)
    requires ParseRedirs(ts).Redirs?
    ensures ts == PrintRedirs(ParseRedirs(ts).rs) + ParseRedirs(ts).rest
    decreases |ts|
  {
    if AtRedir(ts) {
      RedirFirst(ts);
      RedirsRead(ts[2..]);
      var (x, r) := ((ts[1].w, ModeOf(ts[0].c)), ParseRedirs(ts[2..]));
      assert ([x] + r.rs)[1..] == r.rs;
      assert PrintMode(x.1) == [ts[0]];
      assert ts == [ts[0]] + [ts[1]] + ts[2..];
    } else {
      NoRedirs(ts);
    }
  }

  lemma {:induction false} ExecDerived<W>(ts: seq<Token<W>>) returns (s: Syn<W>)
    requires ParseExec(ts).Ok?
    ensures IsExec(s) && Derives(s, ts, ParseExec(ts))
    decreases |ts|, 1
  {
    if At(ts, '(') {
      var r := ParseLine(ts[1..]);
      s := LineDerived(ts[1..]);
      RedirsRead(r.rest[1..]);
      s := BlockDerived(s, ts, r);
    } else {
      ExecIsMore(ts);
      var items := ItemsRead([], [], ts);
      assert [] + Args(items) == Args(items) && [] + Redirections(items) == Redirections(items);
      s := Simple(items);
    }
  }

  lemma BlockDerived<W>(line: Syn<W>, ts: seq<Token<W>>, r: Result<W>) returns (s: Syn<W>)
    requires At(ts, '(') && IsLine(line) && r == ParseLine(ts[1..]) && Derives(line, ts[1..], r) && ParseBlock(ts).Ok?
    requires var q := ParseRedirs(r.rest[1..]); q.Redirs? && r.rest[1..] == PrintRedirs(q.rs) + q.rest
    ensures IsExec(s) && Derives(s, ts, ParseBlock(ts))
  {
    var q := ParseRedirs(r.rest[1..]);
    s := Block(line, q.rs);
    Enclosed(ts, Sym('('), Tokens(line), r.rest, Sym(')'), PrintRedirs(q.rs), q.rest);
  }

  lemma Enclosed<T>(ts: seq<T>, x: T, xs: seq<T>, us: seq<T>, y: T, ys: seq<T>, rest: seq<T>)
    requires ts != [] && ts[0] == x && ts[1..] == xs + us && us != [] && us[0] == y && us[1..] == ys + rest
    ensures ts == [x] + xs + [y] + ys + rest
  {
    assert us == [y] + us[1..];
    assert ts == [x] + ts[1..];
  }

  lemma Joined<T>(xs: seq<T>, ts: seq<T>, x: T, ys: seq<T>, rest: seq<T>)
    requires ts != [] && ts[0] == x && ts[1..] == ys + rest
    ensures xs + [x] + ys + rest == xs + ts
  {
    assert ts == [x] + ts[1..];
  }

  lemma {:induction false} PipeDerived<W>(ts: seq<Token<W>>) returns (s: Syn<W>)
    requires ParsePipe(ts).Ok?
    ensures IsPipe(s) && Derives(s, ts, ParsePipe(ts))
    decreases |ts|, 2
  {
    s := ExecDerived(ts);
    var r := ParseExec(ts);
    if At(r.rest, '|') {
      var right := PipeDerived(r.rest[1..]);
      Joined(Tokens(s), r.rest, Sym('|'), Tokens(right), ParsePipe(r.rest[1..]).rest);
      s := Piped(s, right);
    }
  }

  lemma {:induction false} TailDerived<W>(u: Syn<W>, ts: seq<Token<W>>) returns (s: Syn<W>)
    requires IsUnit(u) && Short(u) && ParseTail(Meaning(u), ts).Ok?
    ensures IsLine(s) && Derives(s, Tokens(u) + ts, ParseTail(Meaning(u), ts))
    decreases |ts|, 3
  {
    if At(ts, '&') {
      s := TailDerived(Amp(u), ts[1..]);
      assert Tokens(Amp(u)) + ts[1..] == Tokens(u) + ts;
    } else if At(ts, ';') {
      var right := LineDerived(ts[1..]);
      s := Then(u, right);
      Joined(Tokens(u), ts, Sym(';'), Tokens(right), ParseLine(ts[1..]).rest);
    } else {
      s := u;
      assert u.Amp? || (IsPipe(u) && (u.Piped? || IsExec(u)));
    }
  }

  lemma {:induction false} LineDerived<W>(ts: seq<Token<W>>) returns (s: Syn<W>)
    requires ParseLine(ts).Ok?
    ensures IsLine(s) && Derives(s, ts, ParseLine(ts))
    decreases |ts|, 4
  {
    s := PipeDerived(ts);
    s := TailDerived(s, ParsePipe(ts).rest);
  }

  /** Some syntax tree has these tokens and means c. */
  ghost predicate Means<W(!new)>(ts: seq<Token<W>>, c: Cmd<W>) {
    exists s: Syn<W> :: IsLine(s) && Short(s) && Tokens(s) == ts && Meaning(s) == c
  }

  /** The parser takes a whole line as command c if and only if the grammar gives it the meaning c. */
  lemma ParsesExactly<W(!new)>(ts: seq<Token<W>>, c: Cmd<W>)
    ensures ParseLine(ts) == Ok(c, []) <==> Means(ts, c)
  {
    if ParseLine(ts) == Ok(c, []) {
      var s := LineDerived(ts);
      assert Tokens(s) + [] == Tokens(s);
    }
    if Means(ts, c) {
      var s: Syn<W> :| IsLine(s) && Short(s) && Tokens(s) == ts && Meaning(s) == c;
      LineTaken(s, []);
      assert ts + [] == ts;
    }
  }
}
