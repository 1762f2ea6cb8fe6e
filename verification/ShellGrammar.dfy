/**
 The command language of user/sh.c over tokens: a recursive-descent parser and the printed
 form it inverts.  W is the type of words.
 */
module ShellGrammar {
  const MAXARGS: nat := 10

  datatype Mode = In | Out | Append  // <, >, >>
  datatype Cmd<W> =
    | Exec(args: seq<W>)
    | Redir(sub: Cmd<W>, file: W, mode: Mode)
    | Pipe(left: Cmd<W>, right: Cmd<W>)
    | List(left: Cmd<W>, right: Cmd<W>)
    | Back(sub: Cmd<W>)

  /** Symbols are | ( ) ; & < > and + for >>. */
  datatype Token<W> = Word(w: W) | Sym(c: char)

  /** A parse gives a command and the tokens left over, or the shell panics. */
  datatype Result<W> = Ok(cmd: Cmd<W>, rest: seq<Token<W>>) | Panic

  /** Redirections of a command, innermost first. */
  datatype Redirs<W> = Redirs(rs: seq<(W, Mode)>, rest: seq<Token<W>>) | NoFile

  predicate At<W>(ts: seq<Token<W>>, c: char) { ts != [] && ts[0] == Sym(c) }

  predicate AtRedir<W>(ts: seq<Token<W>>) { At(ts, '<') || At(ts, '>') || At(ts, '+') }

  predicate EndsLine<W>(ts: seq<Token<W>>) { ts == [] || At(ts, ')') }
  predicate EndsPipe<W>(ts: seq<Token<W>>) { EndsLine(ts) || At(ts, '&') || At(ts, ';') }
  predicate EndsExec<W>(ts: seq<Token<W>>) { EndsPipe(ts) || At(ts, '|') }

  function Wrap<W>(c: Cmd<W>, rs: seq<(W, Mode)>): Cmd<W> {
    if rs == [] then c else Redir(Wrap(c, rs[..|rs| - 1]), rs[|rs| - 1].0, rs[|rs| - 1].1)
  }

  function ModeOf(c: char): Mode { if c == '<' then In else if c == '>' then Out else Append }

  function ParseRedirs<W>(ts: seq<Token<W>>): (r: Redirs<W>)
    ensures r.Redirs? ==> |r.rest| <= |ts| && !AtRedir(r.rest)
    decreases |ts|
  {
    if !AtRedir(ts) then Redirs([], ts)
    else if |ts| < 2 || !ts[1].Word? then NoFile
    else
      match ParseRedirs(ts[2..])
      case NoFile => NoFile
      case Redirs(rs, rest) => Redirs([(ts[1].w, ModeOf(ts[0].c))] + rs, rest)
  }

  function ParseArgs<W>(args: seq<W>, rs: seq<(W, Mode)>, ts: seq<Token<W>>): (r: Result<W>)
    ensures r.Ok? ==> |r.rest| <= |ts|
    decreases |ts|
  {
    if EndsExec(ts) then Ok(Wrap(Exec(args), rs), ts)
    else if !ts[0].Word? || |args| + 1 >= MAXARGS then Panic
    else
      match ParseRedirs(ts[1..])
      case NoFile => Panic
      case Redirs(rs', rest) => ParseArgs(args + [ts[0].w], rs + rs', rest)
  }

  function ParseLine<W>(ts: seq<Token<W>>): (r: Result<W>)
    ensures r.Ok? ==> |r.rest| <= |ts|
    decreases |ts|, 4
  {
    match ParsePipe(ts)
    case Panic => Panic
    case Ok(c, rest) => ParseTail(c, rest)
  }

  /** The part of a line behind its first pipeline. */
  function ParseTail<W>(c: Cmd<W>, ts: seq<Token<W>>): (r: Result<W>)
    ensures r.Ok? ==> |r.rest| <= |ts|
    decreases |ts|, 3
  {
    if At(ts, '&') then ParseTail(Back(c), ts[1..])
    else if At(ts, ';') then
      match ParseLine(ts[1..])
      case Panic => Panic
      case Ok(d, rest) => Ok(List(c, d), rest)
    else Ok(c, ts)
  }

  function ParsePipe<W>(ts: seq<Token<W>>): (r: Result<W>)
    ensures r.Ok? ==> |r.rest| <= |ts|
    decreases |ts|, 2
  {
    match ParseExec(ts)
    case Panic => Panic
    case Ok(c, rest) =>
      if At(rest, '|') then
        match ParsePipe(rest[1..])
        case Panic => Panic
        case Ok(d, rest') => Ok(Pipe(c, d), rest')
      else Ok(c, rest)
  }

  function ParseExec<W>(ts: seq<Token<W>>): (r: Result<W>)
    ensures r.Ok? ==> |r.rest| <= |ts|
    decreases |ts|, 1
  {
    if At(ts, '(') then ParseBlock(ts)
    else
      match ParseRedirs(ts)
      case NoFile => Panic
      case Redirs(rs, rest) => ParseArgs([], rs, rest)
  }

  function ParseBlock<W>(ts: seq<Token<W>>): (r: Result<W>)
    requires At(ts, '(')
    ensures r.Ok? ==> |r.rest| <= |ts|
    decreases |ts|, 0
  {
    match ParseLine(ts[1..])
    case Panic => Panic
    case Ok(c, rest) =>
      if !At(rest, ')') then Panic
      else
        match ParseRedirs(rest[1..])
        case NoFile => Panic
        case Redirs(rs, rest') => Ok(Wrap(c, rs), rest')
  }

  // The printed form.

  function Op<W>(c: char): seq<Token<W>> { [Sym(c)] }

  function PrintMode<W>(m: Mode): seq<Token<W>> { Op(match m case In => '<' case Out => '>' case Append => '+') }

  function PrintWords<W>(args: seq<W>): seq<Token<W>> {
    if args == [] then [] else [Word(args[0])] + PrintWords(args[1..])
  }

  function PrintRedirs<W>(rs: seq<(W, Mode)>): seq<Token<W>> {
    if rs == [] then [] else PrintMode(rs[0].1) + [Word(rs[0].0)] + PrintRedirs(rs[1..])
  }

  predicate Composite<W>(c: Cmd<W>) { c.Pipe? || c.List? || c.Back? }

  /** What stays of a command without its outer redirections, and these. */
  function Base<W>(c: Cmd<W>): Cmd<W> { if c.Redir? then Base(c.sub) else c }

  function Outer<W>(c: Cmd<W>): seq<(W, Mode)> { if c.Redir? then Outer(c.sub) + [(c.file, c.mode)] else [] }

  /** A line. */
  function PrintLine<W>(c: Cmd<W>): seq<Token<W>>
    decreases c, 2
  {
    match c
    case List(l, r) => PrintUnit(l) + Op(';') + PrintLine(r)
    case Back(sub) => PrintUnit(sub) + Op('&')
    case _ => PrintPipe(c)
  }

  /** What may stand before & or ;. */
  function PrintUnit<W>(c: Cmd<W>): seq<Token<W>>
    decreases c, 5
  {
    if c.Back? then PrintLine(c) else PrintPipe(c)
  }

  function PrintPipe<W>(c: Cmd<W>): seq<Token<W>>
    decreases c, if c.List? || c.Back? then 4 else 1
  {
    if c.Pipe? then PrintExec(c.left) + Op('|') + PrintPipe(c.right) else PrintExec(c)
  }

  /** A single command, or anything else in parentheses, with redirections. */
  function PrintExec<W>(c: Cmd<W>): seq<Token<W>>
    decreases c, if Composite(c) then 3 else 0
  {
    match c
    case Exec(args) => PrintWords(args)
    case Redir(sub, file, mode) => PrintExec(sub) + PrintMode(mode) + [Word(file)]
    case _ => Op('(') + PrintLine(c) + Op(')')
  }

  /** No command has more words than the shell's argument array holds. */
  predicate Fits<W>(c: Cmd<W>) {
    match c
    case Exec(args) => |args| < MAXARGS
    case Redir(sub, _, _) => Fits(sub)
    case Pipe(l, r) => Fits(l) && Fits(r)
    case List(l, r) => Fits(l) && Fits(r)
    case Back(sub) => Fits(sub)
  }

  // Parsing the printed form.

  /** One redirection in front of others. */
  lemma RedirFirst<W>(ts: seq<Token<W>>)
    requires AtRedir(ts) && |ts| >= 2 && ts[1].Word?
    ensures ParseRedirs(ts) == Prepend([(ts[1].w, ModeOf(ts[0].c))], ParseRedirs(ts[2..]))
  {
  }

  function Prepend<W>(rs: seq<(W, Mode)>, r: Redirs<W>): Redirs<W> {
    match r
    case NoFile => NoFile
    case Redirs(rs', rest) => Redirs(rs + rs', rest)
  }

  lemma RedirsTail<W>(rs: seq<(W, Mode)>, rest: seq<Token<W>>)
    requires rs != []
    ensures var ts := PrintRedirs(rs) + rest;
            && |ts| >= 2 && ts[0] == PrintMode(rs[0].1)[0] && ts[1] == Word(rs[0].0)
            && ts[2..] == PrintRedirs(rs[1..]) + rest
  {
    DropTwo(PrintMode(rs[0].1)[0], Word(rs[0].0), PrintRedirs(rs[1..]), rest);
  }

  lemma DropTwo<T>(x: T, y: T, xs: seq<T>, ys: seq<T>)
    ensures var s := [x] + [y] + xs + ys; |s| >= 2 && s[0] == x && s[1] == y && s[2..] == xs + ys
  {
  }

  lemma {:induction false} RedirsParsed<W>(rs: seq<(W, Mode)>, rest: seq<Token<W>>, ts: seq<Token<W>>)
    requires !AtRedir(rest) && ts == PrintRedirs(rs) + rest
    ensures ParseRedirs(ts) == Redirs(rs, rest)
    decreases |rs|
  {
    if rs == [] {
      assert ts == rest;
      NoRedirs(rest);
    } else {
      RedirsTail(rs, rest);
      RedirFirst(ts);
      RedirsParsed(rs[1..], rest, ts[2..]);
      Shift([], rs);
    }
  }

  lemma RedirsBack<W>(rs: seq<(W, Mode)>, rest: seq<Token<W>>)
    requires !AtRedir(rest)
    ensures ParseRedirs(PrintRedirs(rs) + rest) == Redirs(rs, rest)
  {
    RedirsParsed(rs, rest, PrintRedirs(rs) + rest);
  }

  /** A word of a simple command in front of more. */
  lemma ArgFirst<W>(args: seq<W>, rs: seq<(W, Mode)>, ts: seq<Token<W>>)
    requires !EndsExec(ts) && ts[0].Word? && |args| + 1 < MAXARGS
    ensures var r := ParseRedirs(ts[1..]);
            ParseArgs(args, rs, ts) == if r.NoFile? then Panic else ParseArgs(args + [ts[0].w], rs + r.rs, r.rest)
  {
  }

  lemma WordsFirst<W>(ws: seq<W>, tail: seq<Token<W>>)
    requires ws != []
    ensures var ts := PrintWords(ws) + tail; ts != [] && ts[0] == Word(ws[0]) && ts[1..] == PrintWords(ws[1..]) + tail
  {
    DropOne(Word(ws[0]), PrintWords(ws[1..]), tail);
  }

  lemma DropOne<T>(x: T, xs: seq<T>, ys: seq<T>)
    ensures ([x] + xs + ys)[0] == x && ([x] + xs + ys)[1..] == xs + ys
  {
  }

  lemma Shift<T>(xs: seq<T>, ys: seq<T>)
    requires ys != []
    ensures (xs + [ys[0]]) + ys[1..] == xs + ys && [ys[0]] + ys[1..] == ys
  {
  }

  /** The last word, with the redirections behind it. */
  lemma LastArgBack<W>(args: seq<W>, w: W, rs0: seq<(W, Mode)>, rs: seq<(W, Mode)>, rest: seq<Token<W>>,
                       ts: seq<Token<W>>)
    requires EndsExec(rest) && |args| + 1 < MAXARGS && ts != [] && ts[0] == Word(w) && ts[1..] == PrintRedirs(rs) + rest
    ensures ParseArgs(args, rs0, ts) == Ok(Wrap(Exec(args + [w]), rs0 + rs), rest)
  {
    ArgFirst(args, rs0, ts);
    RedirsBack(rs, rest);
  }

  lemma {:induction false} ArgsBack<W>(args: seq<W>, ws: seq<W>, rs0: seq<(W, Mode)>, rs: seq<(W, Mode)>,
                                       rest: seq<Token<W>>, ts: seq<Token<W>>)
    requires EndsExec(rest) && ws != [] && |args| + |ws| < MAXARGS && ts == PrintWords(ws) + (PrintRedirs(rs) + rest)
    ensures ParseArgs(args, rs0, ts) == Ok(Wrap(Exec(args + ws), rs0 + rs), rest)
    decreases |ws|
  {
    WordsFirst(ws, PrintRedirs(rs) + rest);
    if |ws| == 1 {
      assert ws == [ws[0]] && ts[1..] == PrintRedirs(rs) + rest;
      LastArgBack(args, ws[0], rs0, rs, rest, ts);
    } else {
      ArgFirst(args, rs0, ts);
      WordsFirst(ws[1..], PrintRedirs(rs) + rest);
      NoRedirs(ts[1..]);
      assert rs0 + [] == rs0;
      ArgsBack(args + [ws[0]], ws[1..], rs0, rs, rest, ts[1..]);
      Shift(args, ws);
    }
  }

  lemma NoRedirs<W>(ts: seq<Token<W>>)
    requires !AtRedir(ts)
    ensures ParseRedirs(ts) == Redirs([], ts)
  {
  }

  lemma {:induction false} Unwound<W>(c: Cmd<W>)
    ensures c == Wrap(Base(c), Outer(c)) && !Base(c).Redir? && (Fits(c) ==> Fits(Base(c)))
    ensures PrintExec(c) == PrintExec(Base(c)) + PrintRedirs(Outer(c))
  {
    if c.Redir? {
      Unwound(c.sub);
      RedirsSnoc(Outer(c.sub), c.file, c.mode);
      var rs := Outer(c);
      assert rs[..|rs| - 1] == Outer(c.sub);
    }
  }

  lemma {:induction false} RedirsSnoc<W>(rs: seq<(W, Mode)>, file: W, mode: Mode)
    ensures PrintRedirs(rs + [(file, mode)]) == PrintRedirs(rs) + PrintMode(mode) + [Word(file)]
  {
    var all := rs + [(file, mode)];
    if rs == [] {
      assert all[1..] == [];
    } else {
      RedirsSnoc(rs[1..], file, mode);
      assert all[1..] == rs[1..] + [(file, mode)];
    }
  }

  /** Words and redirections of a simple command. */
  lemma SimpleBack<W>(args: seq<W>, rs: seq<(W, Mode)>, rest: seq<Token<W>>)
    requires EndsExec(rest) && |args| < MAXARGS
    ensures ParseExec(PrintWords(args) + (PrintRedirs(rs) + rest)) == Ok(Wrap(Exec(args), rs), rest)
  {
    var tail := PrintRedirs(rs) + rest;
    var ts := PrintWords(args) + tail;
    if args == [] {
      assert ts == tail;
      RedirsBack(rs, rest);
      assert !At(tail, '(') by { if rs != [] { assert tail[0] == PrintMode(rs[0].1)[0]; } }
    } else {
      assert ts[0] == Word(args[0]);
      assert ParseRedirs(ts) == Redirs([], ts);
      ArgsBack([], args, [], rs, rest, ts);
      assert [] + args == args && [] + rs == rs;
    }
  }

  /** A block, once its line has come back. */
  lemma BlockBack<W>(b: Cmd<W>, rs: seq<(W, Mode)>, rest: seq<Token<W>>)
    requires Composite(b) && EndsExec(rest)
    requires ParseLine(PrintLine(b) + (Op(')') + (PrintRedirs(rs) + rest))) == Ok(b, Op(')') + (PrintRedirs(rs) + rest))
    ensures ParseExec(PrintExec(b) + (PrintRedirs(rs) + rest)) == Ok(Wrap(b, rs), rest)
  {
    var tail := PrintRedirs(rs) + rest;
    Bracketed(Sym('('), PrintLine(b), Sym(')'), tail);
    RedirsBack(rs, rest);
  }

  lemma Bracketed<T>(x: T, xs: seq<T>, y: T, tail: seq<T>)
    ensures var s := [x] + xs + [y] + tail; s[0] == x && s[1..] == xs + ([y] + tail)
    ensures ([y] + tail)[1..] == tail
  {
  }

  lemma {:induction false} ExecBack<W>(c: Cmd<W>, rest: seq<Token<W>>)
    requires EndsExec(rest) && Fits(c)
    ensures ParseExec(PrintExec(c) + rest) == Ok(c, rest)
    decreases c, if Composite(c) then 3 else 0
  {
    Unwound(c);
    var (b, rs) := (Base(c), Outer(c));
    assert PrintExec(c) + rest == PrintExec(b) + (PrintRedirs(rs) + rest);
    if b.Exec? {
      SimpleBack(b.args, rs, rest);
    } else {
      BaseSmaller(c);
      LineBack(b, Op(')') + (PrintRedirs(rs) + rest));
      BlockBack(b, rs, rest);
    }
  }

  lemma {:induction false} BaseSmaller<W>(c: Cmd<W>)
    ensures Base(c) == c || (c.Redir? && (Base(c) == c.sub || Base(c) < c.sub))
  {
    if c.Redir? { BaseSmaller(c.sub); }
  }

  lemma {:induction false} PipeBack<W>(c: Cmd<W>, rest: seq<Token<W>>)
    requires EndsPipe(rest) && Fits(c)
    ensures ParsePipe(PrintPipe(c) + rest) == Ok(c, rest)
    decreases c, if c.List? || c.Back? then 4 else 1
  {
    if c.Pipe? {
      var tail := Op('|') + (PrintPipe(c.right) + rest);
      assert PrintPipe(c) + rest == PrintExec(c.left) + tail;
      ExecBack(c.left, tail);
      assert tail[1..] == PrintPipe(c.right) + rest;
      PipeBack(c.right, rest);
    } else {
      ExecBack(c, rest);
    }
  }

  lemma {:induction false} UnitBack<W>(c: Cmd<W>, rest: seq<Token<W>>)
    requires EndsPipe(rest) && Fits(c)
    ensures ParseLine(PrintUnit(c) + rest) == ParseTail(c, rest)
    decreases c, 5
  {
    if c.Back? {
      assert PrintUnit(c) + rest == PrintUnit(c.sub) + (Op('&') + rest);
      UnitBack(c.sub, Op('&') + rest);
      assert (Op('&') + rest)[1..] == rest;
    } else {
      PipeBack(c, rest);
    }
  }

  lemma {:induction false} LineBack<W>(c: Cmd<W>, rest: seq<Token<W>>)
    requires EndsLine(rest) && Fits(c)
    ensures ParseLine(PrintLine(c) + rest) == Ok(c, rest)
    decreases c, 2
  {
    if c.List? {
      var tail := Op(';') + (PrintLine(c.right) + rest);
      assert PrintLine(c) + rest == PrintUnit(c.left) + tail;
      UnitBack(c.left, tail);
      assert tail[1..] == PrintLine(c.right) + rest;
      LineBack(c.right, rest);
    } else if c.Back? {
      assert PrintLine(c) + rest == PrintUnit(c.sub) + (Op('&') + rest);
      UnitBack(c.sub, Op('&') + rest);
      assert (Op('&') + rest)[1..] == rest;
    } else {
      PipeBack(c, rest);
    }
  }

  // The parser makes only commands that fit.

  lemma {:induction false} WrapFits<W>(c: Cmd<W>, rs: seq<(W, Mode)>)
    ensures Fits(Wrap(c, rs)) <==> Fits(c)
  {
    if rs != [] { WrapFits(c, rs[..|rs| - 1]); }
  }

  lemma {:induction false} ArgsFit<W>(args: seq<W>, rs: seq<(W, Mode)>, ts: seq<Token<W>>)
    requires |args| < MAXARGS
    ensures var r := ParseArgs(args, rs, ts); r.Ok? ==> Fits(r.cmd)
    decreases |ts|
  {
    WrapFits(Exec(args), rs);
    if ts != [] && ts[0].Word? && |args| + 1 < MAXARGS {
      var r := ParseRedirs(ts[1..]);
      if r.Redirs? { ArgsFit(args + [ts[0].w], rs + r.rs, r.rest); }
    }
  }

  lemma {:induction false} LineFits<W>(ts: seq<Token<W>>)
    ensures var r := ParseLine(ts); r.Ok? ==> Fits(r.cmd)
    decreases |ts|, 4
  {
    PipeFits(ts);
    var r := ParsePipe(ts);
    if r.Ok? { TailFits(r.cmd, r.rest); }
  }

  lemma {:induction false} TailFits<W>(c: Cmd<W>, ts: seq<Token<W>>)
    requires Fits(c)
    ensures var r := ParseTail(c, ts); r.Ok? ==> Fits(r.cmd)
    decreases |ts|, 3
  {
    if At(ts, '&') {
      TailFits(Back(c), ts[1..]);
    } else if At(ts, ';') {
      LineFits(ts[1..]);
    }
  }

  lemma {:induction false} PipeFits<W>(ts: seq<Token<W>>)
    ensures var r := ParsePipe(ts); r.Ok? ==> Fits(r.cmd)
    decreases |ts|, 2
  {
    ExecFits(ts);
    var r := ParseExec(ts);
    if r.Ok? && At(r.rest, '|') { PipeFits(r.rest[1..]); }
  }

  lemma {:induction false} ExecFits<W>(ts: seq<Token<W>>)
    ensures var r := ParseExec(ts); r.Ok? ==> Fits(r.cmd)
    decreases |ts|, 1
  {
    if At(ts, '(') {
      LineFits(ts[1..]);
      var r := ParseLine(ts[1..]);
      if r.Ok? && At(r.rest, ')') {
        var q := ParseRedirs(r.rest[1..]);
        if q.Redirs? { WrapFits(r.cmd, q.rs); }
      }
    } else {
      var q := ParseRedirs(ts);
      if q.Redirs? { ArgsFit([], q.rs, q.rest); }
    }
  }

  /** A command comes back from its printed form exactly if its commands have at most MAXARGS - 1 words. */
  lemma RoundTrip<W>(c: Cmd<W>)
    ensures ParseLine(PrintLine(c)) == Ok(c, []) <==> Fits(c)
  {
    if Fits(c) {
      LineBack(c, []);
      assert PrintLine(c) + [] == PrintLine(c);
    } else {
      LineFits(PrintLine(c));
    }
  }
}
