/**
 The parser of user/sh.c over characters: gettoken, peek and the parse functions, which
 advance a position in the input.
 */
module ShellParser {
  import opened ShellGrammar

  datatype Option<T> = None | Some(value: T)

  /** A word as the shell keeps it: where it starts and where it ends. */
  datatype Span = Span(from: nat, to: nat)

  predicate Space(c: char) { c in {' ', '\t', '\r', '\n', '\U{0b}'} }
  predicate Symbol(c: char) { c in {'<', '|', '>', '&', ';', '(', ')'} }

  /** The first position from p on that is not white space. */
  function Skip(s: string, p: nat): (q: nat)
    requires p <= |s|
    ensures p <= q <= |s| && (q < |s| ==> !Space(s[q])) && forall i :: p <= i < q ==> Space(s[i])
    decreases |s| - p
  {
    if p < |s| && Space(s[p]) then Skip(s, p + 1) else p
  }

  /** The end of the word at p. */
  function WordEnd(s: string, p: nat): (q: nat)
    requires p <= |s|
    ensures p <= q <= |s| && (q < |s| ==> Space(s[q]) || Symbol(s[q]))
    ensures forall i :: p <= i < q ==> !Space(s[i]) && !Symbol(s[i])
    decreases |s| - p
  {
    if p < |s| && !Space(s[p]) && !Symbol(s[p]) then WordEnd(s, p + 1) else p
  }

  /** The token that starts at p, and the position behind it. */
  function TokenAt(s: string, p: nat): (r: (Token<Span>, nat))
    requires p < |s| && !Space(s[p])
    ensures p < r.1 <= |s|
  {
    if s[p] == '>' && p + 1 < |s| && s[p + 1] == '>' then (Sym('+'), p + 2)
    else if Symbol(s[p]) then (Sym(s[p]), p + 1)
    else
      assert WordEnd(s, p) == WordEnd(s, p + 1);
      (Word(Span(p, WordEnd(s, p))), WordEnd(s, p))
  }

  /** The tokens from p on. */
  function Tokens(s: string, p: nat): seq<Token<Span>>
    requires p <= |s|
    decreases |s| - p
  {
    var q := Skip(s, p);
    if q == |s| then [] else [TokenAt(s, q).0] + Tokens(s, TokenAt(s, q).1)
  }

  lemma SkipTokens(s: string, p: nat)
    requires p <= |s|
    ensures Tokens(s, Skip(s, p)) == Tokens(s, p)
  {
    assert Skip(s, Skip(s, p)) == Skip(s, p);
  }

  /** What peek sees of a token: >> looks like >. */
  predicate Sees(ts: seq<Token<Span>>, toks: set<char>) {
    ts != [] && ts[0].Sym? && (if ts[0].c == '+' then '>' else ts[0].c) in toks
  }

  class Parser {
    const s: string
    var p: nat

    constructor (line: string)
      requires '\0' !in line
      ensures Valid() && s == line && p == 0
    {
      s, p := line, 0;
    }

    /** The input is a C string and the position lies in it. */
    ghost predicate Valid()
      reads this
    {
      p <= |s| && '\0' !in s
    }

    /** The tokens still to come. */
    ghost function Rest(): seq<Token<Span>>
      requires Valid()
      reads this
    {
      Tokens(s, p)
    }

    method SkipSpace()
      requires Valid()
      modifies this
      ensures Valid() && p == Skip(s, old(p)) && Tokens(s, p) == Tokens(s, old(p))
    {
      while p < |s| && Space(s[p])
        invariant old(p) <= p <= |s| && Skip(s, p) == Skip(s, old(p))
      {
        p := p + 1;
      }
      SkipTokens(s, old(p));
    }

    /** Takes the next token: its code, 0 at the end and 'a' for a word, and where it stands. */
    method GetToken() returns (tok: char, q: nat, eq: nat)
      requires Valid()
      modifies this
      ensures Valid() && old(p) <= q <= eq <= |s|
      ensures old(Rest()) == [] ==> tok == '\0' && Rest() == []
      ensures old(Rest()) != [] ==>
                && Rest() == old(Rest())[1..]
                && tok == (if old(Rest())[0].Word? then 'a' else old(Rest())[0].c)
                && (old(Rest())[0].Word? ==> old(Rest())[0] == Word(Span(q, eq)))
                && (tok == 'a' <==> old(Rest())[0].Word?)
    {
      SkipSpace();
      q := p;
      ghost var t := if p < |s| then TokenAt(s, p) else (Sym('\0'), p);
      if p == |s| {
        tok := '\0';
      } else if s[p] in {'|', '(', ')', ';', '&', '<'} {
        tok := s[p];
        p := p + 1;
      } else if s[p] == '>' {
        tok := '>';
        p := p + 1;
        if p < |s| && s[p] == '>' {
          tok := '+';
          p := p + 1;
        }
      } else {
        tok := 'a';
        while p < |s| && !Space(s[p]) && !Symbol(s[p])
          invariant q <= p <= |s| && WordEnd(s, p) == WordEnd(s, q)
        {
          p := p + 1;
        }
      }
      eq := p;
      SkipSpace();
    }

    /** Skips white space and says whether one of the symbols toks comes next. */
    method Peek(toks: set<char>) returns (r: bool)
      requires Valid() && forall c :: c in toks ==> Symbol(c)
      modifies this
      ensures Valid() && Rest() == old(Rest()) && r == Sees(Rest(), toks) && (p == |s| <==> Rest() == [])
    {
      SkipSpace();
      r := p < |s| && s[p] in toks;
    }

    /** The redirections that come next, innermost first. */
    method ParseRedirs() returns (r: Option<seq<(Span, Mode)>>)
      requires Valid()
      modifies this
      ensures Valid()
      ensures match ShellGrammar.ParseRedirs(old(Rest()))
              case NoFile => r.None?
              case Redirs(rs, rest) => r == Some(rs) && Rest() == rest
    {
      var rs := [];
      var more := Peek({'<', '>'});
      while more
        invariant Valid() && more == Sees(Rest(), {'<', '>'})
        invariant ShellGrammar.ParseRedirs(old(Rest())) == Prepend(rs, ShellGrammar.ParseRedirs(Rest()))
        decreases |Rest()|
      {
        ghost var ts := Rest();
        var tok, _, _ := GetToken();
        var tok', q, eq := GetToken();
        if tok' != 'a' {
          RedirStep(rs, ts);
          return None;
        }
        RedirStep(rs, ts);
        rs := rs + [(Span(q, eq), ModeOf(tok))];
        assert ts[2..] == Rest();
        more := Peek({'<', '>'});
      }
      assert rs + [] == rs;
      return Some(rs);
    }

    /** r and the rest are what the parser over tokens gives. */
    ghost predicate Agrees(r: Option<Cmd<Span>>, x: Result<Span>)
      requires Valid()
      reads this
    {
      match x
      case Panic => r.None?
      case Ok(c, rest) => r == Some(c) && Rest() == rest
    }

    /** The loop of parseexec. */
    method ParseArgs(redirs: seq<(Span, Mode)>) returns (r: Option<Cmd<Span>>)
      requires Valid()
      modifies this
      ensures Valid() && Agrees(r, ShellGrammar.ParseArgs([], redirs, old(Rest())))
    {
      var args, rs := [], redirs;
      var stop := Peek({'|', ')', '&', ';'});
      while !stop
        invariant Valid() && stop == Sees(Rest(), {'|', ')', '&', ';'})
        invariant ShellGrammar.ParseArgs([], redirs, old(Rest())) == ShellGrammar.ParseArgs(args, rs, Rest())
        decreases |Rest()|
      {
        Seeing(Rest(), '(');
        var tok, q, eq := GetToken();
        if tok == '\0' {
          break;
        }
        if tok != 'a' {
          return None;
        }
        args := args + [Span(q, eq)];
        if |args| >= MAXARGS {
          return None;
        }
        var more := ParseRedirs();
        if more.None? {
          return None;
        }
        rs := rs + more.value;
        stop := Peek({'|', ')', '&', ';'});
      }
      Seeing(Rest(), '(');
      return Some(Wrap(Exec(args), rs));
    }

    method ParseExec() returns (r: Option<Cmd<Span>>)
      requires Valid()
      modifies this
      ensures Valid() && Agrees(r, ShellGrammar.ParseExec(old(Rest())))
      decreases |Rest()|, 1
    {
      Seeing(Rest(), '(');
      var block := Peek({'('});
      if block {
        r := ParseBlock();
        return;
      }
      var redirs := ParseRedirs();
      if redirs.None? {
        return None;
      }
      r := ParseArgs(redirs.value);
    }

    method ParseBlock() returns (r: Option<Cmd<Span>>)
      requires Valid() && At(Rest(), '(')
      modifies this
      ensures Valid() && Agrees(r, ShellGrammar.ParseBlock(old(Rest())))
      decreases |Rest()|, 0
    {
      var _, _, _ := GetToken();
      r := ParseLine();
      if r.None? {
        return;
      }
      Seeing(Rest(), ')');
      var close := Peek({')'});
      if !close {
        return None;
      }
      var _, _, _ := GetToken();
      var redirs := ParseRedirs();
      if redirs.None? {
        return None;
      }
      r := Some(Wrap(r.value, redirs.value));
    }

    method ParsePipe() returns (r: Option<Cmd<Span>>)
      requires Valid()
      modifies this
      ensures Valid() && Agrees(r, ShellGrammar.ParsePipe(old(Rest())))
      decreases |Rest()|, 2
    {
      r := ParseExec();
      if r.None? {
        return;
      }
      Seeing(Rest(), '|');
      var bar := Peek({'|'});
      if bar {
        var _, _, _ := GetToken();
        var right := ParsePipe();
        r := if right.None? then None else Some(Pipe(r.value, right.value));
      }
    }

    method ParseLine() returns (r: Option<Cmd<Span>>)
      requires Valid()
      modifies this
      ensures Valid() && Agrees(r, ShellGrammar.ParseLine(old(Rest())))
      decreases |Rest()|, 4
    {
      r := ParsePipe();
      if r.None? {
        return;
      }
      var cmd := r.value;
      var amp := Peek({'&'});
      Seeing(Rest(), '&');
      while amp
        invariant Valid() && |Rest()| <= |old(Rest())| && amp == At(Rest(), '&')
        invariant ShellGrammar.ParseLine(old(Rest())) == ParseTail(cmd, Rest())
        decreases |Rest()|
      {
        var _, _, _ := GetToken();
        cmd := Back(cmd);
        amp := Peek({'&'});
        Seeing(Rest(), '&');
      }
      Seeing(Rest(), ';');
      var semi := Peek({';'});
      if !semi {
        return Some(cmd);
      }
      var _, _, _ := GetToken();
      var right := ParseLine();
      r := if right.None? then None else Some(List(cmd, right.value));
    }

    /** parsecmd without its last step: a command if the whole input is one. */
    method ParseCmd() returns (r: Option<Cmd<Span>>)
      requires Valid()
      modifies this
      ensures r == match ShellGrammar.ParseLine(old(Rest()))
                   case Panic => None
                   case Ok(c, rest) => if rest == [] then Some(c) else None
    {
      r := ParseLine();
      if r.None? {
        return;
      }
      var _ := Peek({});
      if p != |s| {
        return None;
      }
    }
  }

  lemma RedirStep(rs: seq<(Span, Mode)>, ts: seq<Token<Span>>)
    requires AtRedir(ts)
    ensures |ts| < 2 || !ts[1].Word? ==> ShellGrammar.ParseRedirs(ts).NoFile?
    ensures |ts| >= 2 && ts[1].Word? ==>
              Prepend(rs, ShellGrammar.ParseRedirs(ts)) ==
                  Prepend(rs + [(ts[1].w, ModeOf(ts[0].c))], ShellGrammar.ParseRedirs(ts[2..]))
  {
    if |ts| >= 2 && ts[1].Word? {
      RedirFirst(ts);
      PrependTwice(rs, [(ts[1].w, ModeOf(ts[0].c))], ShellGrammar.ParseRedirs(ts[2..]));
    }
  }

  lemma PrependTwice(rs: seq<(Span, Mode)>, rs': seq<(Span, Mode)>, r: Redirs<Span>)
    ensures Prepend(rs, Prepend(rs', r)) == Prepend(rs + rs', r)
  {
    if r.Redirs? { assert rs + (rs' + r.rs) == (rs + rs') + r.rs; }
  }

  /** What peek tells about the next token. */
  lemma Seeing(ts: seq<Token<Span>>, c: char)
    ensures Sees(ts, {'<', '>'}) <==> AtRedir(ts)
    ensures Sees(ts, {'|', ')', '&', ';'}) <==> ts != [] && EndsExec(ts)
    ensures Symbol(c) && c != '>' ==> (Sees(ts, {c}) <==> At(ts, c))
  {
  }
}
