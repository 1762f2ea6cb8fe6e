/**
 How command lines are spelled, apart from any scanner, and the proof that gettoken of user/sh.c reads
 exactly that; with ShellSyntax, what every line of text means to the shell.
 */
module ShellLexing {
  import opened ShellGrammar
  import opened ShellMap
  import opened ShellParser
  import opened ShellText
  import ShellSyntax

  /** Only white space lies between p and q. */
  predicate Blank(s: string, p: nat, q: nat)
    requires p <= q <= |s|
  {
    forall i :: p <= i < q ==> Space(s[i])
  }

  /** A token that is followed by position q is not longer than that. */
  predicate Stops(s: string, t: Token<string>, q: nat)
    requires q <= |s|
  {
    && (t.Word? ==> q == |s| || Space(s[q]) || Symbol(s[q]))
    && (t == Sym('>') ==> q == |s| || s[q] != '>')
  }

  /** The token stands at p, and the next one may begin at q. */
  predicate Stands(s: string, p: nat, t: Token<string>, q: nat) {
    p <= q <= |s| && Good(t) && s[p..q] == Show(t) && Stops(s, t, q)
  }

  /** From p on, s spells the tokens, with any white space around them. */
  ghost predicate Spells(s: string, p: nat, ts: seq<Token<string>>)
    requires p <= |s|
    decreases |ts|
  {
    if ts == [] then Blank(s, p, |s|)
    else exists k, q :: p <= k <= q <= |s| && Blank(s, p, k) && Stands(s, k, ts[0], q) && Spells(s, q, ts[1..])
  }

  lemma {:induction false} WordEndIs(s: string, p: nat, q: nat)
    requires p <= q <= |s| && (q < |s| ==> Space(s[q]) || Symbol(s[q]))
    requires forall i :: p <= i < q ==> !Space(s[i]) && !Symbol(s[i])
    ensures WordEnd(s, p) == q
    decreases q - p
  {
    if p < q { WordEndIs(s, p + 1, q); }
  }

  lemma {:induction false} SkipIs(s: string, p: nat, k: nat)
    requires p <= k < |s| && Blank(s, p, k) && !Space(s[k])
    ensures Skip(s, p) == k
    decreases k - p
  {
    if p < k { SkipIs(s, p + 1, k); }
  }

  /** What stands at p is what gettoken reads there. */
  lemma StandsRead(s: string, p: nat, t: Token<string>, q: nat)
    requires Stands(s, p, t, q)
    ensures p < q && !Space(s[p]) && TokenAt(s, p).1 == q && MapToken(Text(s), TokenAt(s, p).0) == t
  {
    var n := |Show(t)|;
    assert q == p + n && forall i :: 0 <= i < n ==> s[p + i] == Show(t)[i];
    if t.Word? {
      assert s[p] == t.w[0];
      forall i | p <= i < q ensures !Space(s[i]) && !Symbol(s[i]) { assert s[i] == t.w[i - p]; }
      WordEndIs(s, p, q);
    } else if t.c == '+' {
      assert s[p + 1] == '>';
    }
  }

  /** What gettoken reads at p stands there. */
  lemma ReadStands(s: string, p: nat)
    requires p < |s| && !Space(s[p]) && '\0' !in s
    ensures Stands(s, p, MapToken(Text(s), TokenAt(s, p).0), TokenAt(s, p).1)
  {
    var (u, q) := TokenAt(s, p);
    var t := MapToken(Text(s), u);
    if u.Word? {
      assert t.w == s[p..q];
      forall c | c in t.w ensures !Space(c) && !Symbol(c) && c != '\0' {
        var i :| 0 <= i < |t.w| && t.w[i] == c;
        assert s[p + i] == c;
      }
    } else if u.c == '+' {
      assert s[p..q] == ">>";
    } else {
      assert s[p..q] == [s[p]];
    }
  }

  lemma MapHead(f: Span -> string, u: Token<Span>, us: seq<Token<Span>>)
    ensures MapTokens(f, [u] + us) == [MapToken(f, u)] + MapTokens(f, us)
  {
    assert ([u] + us)[1..] == us;
  }

  lemma {:induction false} SpelledRead(s: string, p: nat, ts: seq<Token<string>>)
    requires p <= |s| && Spells(s, p, ts)
    ensures MapTokens(Text(s), Tokens(s, p)) == ts
    decreases |ts|
  {
    if ts == [] {
      assert Skip(s, p) == |s|;
    } else {
      var k, q :| p <= k <= q <= |s| && Blank(s, p, k) && Stands(s, k, ts[0], q) && Spells(s, q, ts[1..]);
      StandsRead(s, k, ts[0], q);
      SkipIs(s, p, k);
      SpelledRead(s, q, ts[1..]);
      MapHead(Text(s), TokenAt(s, k).0, Tokens(s, q));
    }
  }

  lemma {:induction false} ReadSpelled(s: string, p: nat)
    requires p <= |s| && '\0' !in s
    ensures Spells(s, p, MapTokens(Text(s), Tokens(s, p)))
    decreases |s| - p
  {
    var k := Skip(s, p);
    if k < |s| {
      var (u, q) := TokenAt(s, k);
      ReadStands(s, k);
      ReadSpelled(s, q);
      MapHead(Text(s), u, Tokens(s, q));
      var ts := MapTokens(Text(s), Tokens(s, p));
      assert ts[1..] == MapTokens(Text(s), Tokens(s, q));
    }
  }

  /** gettoken reads the tokens ts from a text if and only if the text spells them. */
  lemma LexesExactly(s: string, ts: seq<Token<string>>)
    requires '\0' !in s
    ensures MapTokens(Text(s), Tokens(s, 0)) == ts <==> Spells(s, 0, ts)
  {
    ReadSpelled(s, 0);
    if Spells(s, 0, ts) { SpelledRead(s, 0, ts); }
  }

  /** The shell reads command c, all of it, from the text s. */
  predicate ReadsAs(s: string, c: Cmd<string>) {
    var r := ParseLine(Tokens(s, 0));
    r.Ok? && r.rest == [] && MapCmd(Text(s), r.cmd) == c
  }

  /** What a line of text is to the shell: it is read as command c if and only if it spells a line of the grammar that
      means c. */
  lemma TextMeans(s: string, c: Cmd<string>)
    requires '\0' !in s
    ensures ReadsAs(s, c) <==> exists ts: seq<Token<string>> :: Spells(s, 0, ts) && ShellSyntax.Means(ts, c)
  {
    var ts := MapTokens(Text(s), Tokens(s, 0));
    LexesExactly(s, ts);
    LineCommutes(Text(s), Tokens(s, 0));
    ShellSyntax.ParsesExactly(ts, c);
    if exists us: seq<Token<string>> :: Spells(s, 0, us) && ShellSyntax.Means(us, c) {
      var us: seq<Token<string>> :| Spells(s, 0, us) && ShellSyntax.Means(us, c);
      LexesExactly(s, us);
    }
  }
}
