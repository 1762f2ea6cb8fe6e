/**
 The parser of ShellGrammar does not look into words: it commutes with any renaming of words,
 and the words of its result are words of its input.
 */
module ShellMap {
  import opened ShellGrammar

  function MapToken<W, V>(f: W -> V, t: Token<W>): Token<V> {
    match t
    case Word(w) => Word(f(w))
    case Sym(c) => Sym(c)
  }

  function MapTokens<W, V>(f: W -> V, ts: seq<Token<W>>): (us: seq<Token<V>>)
    ensures |us| == |ts| && forall i :: 0 <= i < |ts| ==> us[i] == MapToken(f, ts[i])
  {
    if ts == [] then [] else [MapToken(f, ts[0])] + MapTokens(f, ts[1..])
  }

  function MapWords<W, V>(f: W -> V, ws: seq<W>): (us: seq<V>)
    ensures |us| == |ws| && forall i :: 0 <= i < |ws| ==> us[i] == f(ws[i])
  {
    if ws == [] then [] else [f(ws[0])] + MapWords(f, ws[1..])
  }

  function MapRedirs<W, V>(f: W -> V, rs: seq<(W, Mode)>): (us: seq<(V, Mode)>)
    ensures |us| == |rs| && forall i :: 0 <= i < |rs| ==> us[i] == (f(rs[i].0), rs[i].1)
  {
    if rs == [] then [] else [(f(rs[0].0), rs[0].1)] + MapRedirs(f, rs[1..])
  }

  function MapCmd<W, V>(f: W -> V, c: Cmd<W>): Cmd<V> {
    match c
    case Exec(args) => Exec(MapWords(f, args))
    case Redir(sub, file, mode) => Redir(MapCmd(f, sub), f(file), mode)
    case Pipe(l, r) => Pipe(MapCmd(f, l), MapCmd(f, r))
    case List(l, r) => List(MapCmd(f, l), MapCmd(f, r))
    case Back(sub) => Back(MapCmd(f, sub))
  }

  function MapResult<W, V>(f: W -> V, r: Result<W>): Result<V> {
    match r
    case Panic => Panic
    case Ok(c, rest) => Ok(MapCmd(f, c), MapTokens(f, rest))
  }

  function MapFound<W, V>(f: W -> V, r: Redirs<W>): Redirs<V> {
    match r
    case NoFile => NoFile
    case Redirs(rs, rest) => Redirs(MapRedirs(f, rs), MapTokens(f, rest))
  }

  lemma MapDrop<W, V>(f: W -> V, ts: seq<Token<W>>, k: nat)
    requires k <= |ts|
    ensures MapTokens(f, ts)[k..] == MapTokens(f, ts[k..])
  {
  }

  lemma {:induction false} MapWrap<W, V>(f: W -> V, c: Cmd<W>, rs: seq<(W, Mode)>)
    ensures MapCmd(f, Wrap(c, rs)) == Wrap(MapCmd(f, c), MapRedirs(f, rs))
  {
    if rs != [] {
      var n := |rs| - 1;
      MapWrap(f, c, rs[..n]);
      assert MapRedirs(f, rs)[..n] == MapRedirs(f, rs[..n]);
    }
  }

  lemma {:induction false} RedirsCommute<W, V>(f: W -> V, ts: seq<Token<W>>)
    ensures ParseRedirs(MapTokens(f, ts)) == MapFound(f, ParseRedirs(ts))
    decreases |ts|
  {
    if AtRedir(ts) && |ts| >= 2 && ts[1].Word? {
      MapDrop(f, ts, 2);
      RedirsCommute(f, ts[2..]);
      RedirFirst(ts);
      RedirFirst(MapTokens(f, ts));
      var r := ParseRedirs(ts[2..]);
      if r.Redirs? {
        var x := (ts[1].w, ModeOf(ts[0].c));
        assert MapRedirs(f, [x] + r.rs) == [(f(x.0), x.1)] + MapRedirs(f, r.rs);
      }
    }
  }

  lemma MapSnoc<W, V>(f: W -> V, ws: seq<W>, w: W)
    ensures MapWords(f, ws + [w]) == MapWords(f, ws) + [f(w)]
  {
  }

  lemma MapConcat<W, V>(f: W -> V, rs: seq<(W, Mode)>, rs': seq<(W, Mode)>)
    ensures MapRedirs(f, rs + rs') == MapRedirs(f, rs) + MapRedirs(f, rs')
  {
  }

  lemma {:induction false} ArgsCommute<W, V>(f: W -> V, args: seq<W>, rs: seq<(W, Mode)>, ts: seq<Token<W>>)
    ensures ParseArgs(MapWords(f, args), MapRedirs(f, rs), MapTokens(f, ts)) == MapResult(f, ParseArgs(args, rs, ts))
    decreases |ts|
  {
    var us := MapTokens(f, ts);
    if EndsExec(ts) {
      MapWrap(f, Exec(args), rs);
    } else if ts[0].Word? && |args| + 1 < MAXARGS {
      ArgFirst(args, rs, ts);
      ArgFirst(MapWords(f, args), MapRedirs(f, rs), us);
      MapDrop(f, ts, 1);
      RedirsCommute(f, ts[1..]);
      var r := ParseRedirs(ts[1..]);
      if r.Redirs? {
        ArgsCommute(f, args + [ts[0].w], rs + r.rs, r.rest);
        MapSnoc(f, args, ts[0].w);
        MapConcat(f, rs, r.rs);
      }
    } else {
      assert ParseArgs(args, rs, ts) == Panic && ParseArgs(MapWords(f, args), MapRedirs(f, rs), us) == Panic;
    }
  }

  lemma {:induction false} LineCommutes<W, V>(f: W -> V, ts: seq<Token<W>>)
    ensures ParseLine(MapTokens(f, ts)) == MapResult(f, ParseLine(ts))
    decreases |ts|, 4
  {
    PipeCommutes(f, ts);
    var r := ParsePipe(ts);
    if r.Ok? { TailCommutes(f, r.cmd, r.rest); }
  }

  lemma {:induction false} TailCommutes<W, V>(f: W -> V, c: Cmd<W>, ts: seq<Token<W>>)
    ensures ParseTail(MapCmd(f, c), MapTokens(f, ts)) == MapResult(f, ParseTail(c, ts))
    decreases |ts|, 3
  {
    if At(ts, '&') {
      MapDrop(f, ts, 1);
      TailCommutes(f, Back(c), ts[1..]);
    } else if At(ts, ';') {
      MapDrop(f, ts, 1);
      LineCommutes(f, ts[1..]);
    }
  }

  lemma {:induction false} PipeCommutes<W, V>(f: W -> V, ts: seq<Token<W>>)
    ensures ParsePipe(MapTokens(f, ts)) == MapResult(f, ParsePipe(ts))
    decreases |ts|, 2
  {
    ExecCommutes(f, ts);
    var r := ParseExec(ts);
    if r.Ok? && At(r.rest, '|') {
      MapDrop(f, r.rest, 1);
      PipeCommutes(f, r.rest[1..]);
    }
  }

  lemma {:induction false} ExecCommutes<W, V>(f: W -> V, ts: seq<Token<W>>)
    ensures ParseExec(MapTokens(f, ts)) == MapResult(f, ParseExec(ts))
    decreases |ts|, 1
  {
    if At(ts, '(') {
      BlockCommutes(f, ts);
    } else {
      RedirsCommute(f, ts);
      var r := ParseRedirs(ts);
      if r.Redirs? {
        ArgsCommute(f, [], r.rs, r.rest);
        assert MapWords(f, []) == [];
      }
    }
  }

  lemma {:induction false} BlockCommutes<W, V>(f: W -> V, ts: seq<Token<W>>)
    requires At(ts, '(')
    ensures ParseBlock(MapTokens(f, ts)) == MapResult(f, ParseBlock(ts))
    decreases |ts|, 0
  {
    MapDrop(f, ts, 1);
    LineCommutes(f, ts[1..]);
    var r := ParseLine(ts[1..]);
    if r.Ok? && At(r.rest, ')') {
      MapDrop(f, r.rest, 1);
      RedirsCommute(f, r.rest[1..]);
      var q := ParseRedirs(r.rest[1..]);
      if q.Redirs? { MapWrap(f, r.cmd, q.rs); }
    }
  }

  // Words of the result.

  ghost function Leaves<W>(c: Cmd<W>): set<W> {
    match c
    case Exec(args) => set w | w in args
    case Redir(sub, file, _) => Leaves(sub) + {file}
    case Pipe(l, r) => Leaves(l) + Leaves(r)
    case List(l, r) => Leaves(l) + Leaves(r)
    case Back(sub) => Leaves(sub)
  }

  ghost predicate Drawn<W>(ws: set<W>, ts: seq<Token<W>>) {
    forall w :: w in ws ==> Word(w) in ts
  }

  ghost predicate From<W>(r: Result<W>, ts: seq<Token<W>>) {
    r.Ok? ==> Drawn(Leaves(r.cmd), ts) && forall t :: t in r.rest ==> t in ts
  }

  ghost function Files<W>(rs: seq<(W, Mode)>): set<W> { set i | 0 <= i < |rs| :: rs[i].0 }

  lemma {:induction false} WrapLeaves<W>(c: Cmd<W>, rs: seq<(W, Mode)>)
    ensures Leaves(Wrap(c, rs)) == Leaves(c) + Files(rs)
  {
    if rs != [] {
      var n := |rs| - 1;
      WrapLeaves(c, rs[..n]);
      assert Files(rs) == Files(rs[..n]) + {rs[n].0};
    }
  }

  lemma {:induction false} RedirsFrom<W>(ts: seq<Token<W>>)
    ensures var r := ParseRedirs(ts); r.Redirs? ==> Drawn(Files(r.rs), ts) && forall t :: t in r.rest ==> t in ts
    decreases |ts|
  {
    if AtRedir(ts) && |ts| >= 2 && ts[1].Word? {
      RedirFirst(ts);
      RedirsFrom(ts[2..]);
      var r := ParseRedirs(ts[2..]);
      if r.Redirs? {
        var x := (ts[1].w, ModeOf(ts[0].c));
        assert Files([x] + r.rs) == {ts[1].w} + Files(r.rs) by { FilesCons(x, r.rs); }
        assert Word(ts[1].w) in ts;
      }
    }
  }

  lemma FilesCons<W>(x: (W, Mode), rs: seq<(W, Mode)>)
    ensures Files([x] + rs) == {x.0} + Files(rs)
  {
    var all := [x] + rs;
    forall w | w in {x.0} + Files(rs) ensures w in Files(all) {
      if w == x.0 {
        assert all[0].0 == w;
      } else {
        var i :| 0 <= i < |rs| && rs[i].0 == w;
        assert all[i + 1].0 == w;
      }
    }
  }

  lemma FilesConcat<W>(rs: seq<(W, Mode)>, rs': seq<(W, Mode)>)
    ensures Files(rs + rs') == Files(rs) + Files(rs')
  {
    var all := rs + rs';
    forall w | w in Files(rs) + Files(rs') ensures w in Files(all) {
      if w in Files(rs) {
        var i :| 0 <= i < |rs| && rs[i].0 == w;
        assert all[i].0 == w;
      } else {
        var i :| 0 <= i < |rs'| && rs'[i].0 == w;
        assert all[|rs| + i].0 == w;
      }
    }
  }

  lemma {:induction false} ArgsFrom<W>(args: seq<W>, rs: seq<(W, Mode)>, ts: seq<Token<W>>, all: seq<Token<W>>)
    requires (forall w :: w in args ==> Word(w) in all) && Drawn(Files(rs), all) && forall t :: t in ts ==> t in all
    ensures From(ParseArgs(args, rs, ts), all)
    decreases |ts|
  {
    if EndsExec(ts) {
      WrapLeaves(Exec(args), rs);
    } else if ts[0].Word? && |args| + 1 < MAXARGS {
      ArgFirst(args, rs, ts);
      RedirsFrom(ts[1..]);
      var r := ParseRedirs(ts[1..]);
      if r.Redirs? {
        FilesConcat(rs, r.rs);
        assert ts[0] in all;
        ArgsFrom(args + [ts[0].w], rs + r.rs, r.rest, all);
      }
    }
  }

  lemma {:induction false} LineFrom<W>(ts: seq<Token<W>>)
    ensures From(ParseLine(ts), ts)
    decreases |ts|, 4
  {
    PipeFrom(ts);
    var r := ParsePipe(ts);
    if r.Ok? { TailFrom(r.cmd, r.rest, ts); }
  }

  lemma {:induction false} TailFrom<W>(c: Cmd<W>, ts: seq<Token<W>>, all: seq<Token<W>>)
    requires Drawn(Leaves(c), all) && forall t :: t in ts ==> t in all
    ensures From(ParseTail(c, ts), all)
    decreases |ts|, 3
  {
    if At(ts, '&') {
      TailFrom(Back(c), ts[1..], all);
    } else if At(ts, ';') {
      LineFrom(ts[1..]);
    }
  }

  lemma {:induction false} PipeFrom<W>(ts: seq<Token<W>>)
    ensures From(ParsePipe(ts), ts)
    decreases |ts|, 2
  {
    ExecFrom(ts);
    var r := ParseExec(ts);
    if r.Ok? && At(r.rest, '|') { PipeFrom(r.rest[1..]); }
  }

  lemma {:induction false} ExecFrom<W>(ts: seq<Token<W>>)
    ensures From(ParseExec(ts), ts)
    decreases |ts|, 1
  {
    if At(ts, '(') {
      LineFrom(ts[1..]);
      var r := ParseLine(ts[1..]);
      if r.Ok? && At(r.rest, ')') {
        RedirsFrom(r.rest[1..]);
        var q := ParseRedirs(r.rest[1..]);
        if q.Redirs? {
          WrapLeaves(r.cmd, q.rs);
          forall t | t in q.rest ensures t in ts { assert t in r.rest[1..] && t in r.rest && t in ts[1..]; }
          forall w | w in Files(q.rs) ensures Word(w) in ts {
            assert Word(w) in r.rest[1..] && Word(w) in r.rest && Word(w) in ts[1..];
          }
        }
      }
    } else {
      RedirsFrom(ts);
      var q := ParseRedirs(ts);
      if q.Redirs? { ArgsFrom([], q.rs, q.rest, ts); }
    }
  }
}
