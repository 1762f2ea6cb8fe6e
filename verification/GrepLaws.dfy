/**
 What the patterns of user/grep.c mean in plain words: a word is looked for anywhere, ^ asks for it at the
 start of the line, $ at the end, and . stands for any character.
 */
module GrepLaws {
  import opened Grep

  /** Characters and dots, without the other special characters. */
  predicate Word(w: string) {
    forall i :: 0 <= i < |w| ==> w[i] != '^' && w[i] != '$' && w[i] != '*'
  }

  /** x is the word w, with any characters for its dots. */
  predicate Fills(w: string, x: string) {
    |x| == |w| && forall i :: 0 <= i < |w| ==> w[i] == '.' || w[i] == x[i]
  }

  lemma FillsPlain(w: string, x: string)
    requires '.' !in w
    ensures Fills(w, x) <==> x == w
  {
    if Fills(w, x) { assert forall i :: 0 <= i < |w| ==> w[i] in w; }
  }

  /** A word in front of a pattern takes as many characters as it has. */
  lemma {:induction false} WordFirst(w: string, re: string, text: string)
    requires Word(w) && (re != "" ==> re[0] != '*')
    ensures Here(Parse(w + re), text) <==> |w| <= |text| && Fills(w, text[..|w|]) && Here(Parse(re), text[|w|..])
  {
    if w == "" {
      assert w + re == re && text[0..] == text && text[..0] == "";
    } else {
      var (c, v) := (w[0], w[1..]);
      assert w + re == [c] + (v + re) && (w + re)[1..] == v + re;
      assert v != "" ==> (v + re)[0] == w[1];
      HereOne(c, Parse(v + re), text);
      if text != "" {
        WordFirst(v, re, text[1..]);
        if |w| <= |text| {
          assert text[1..][..|v|] == text[..|w|][1..] && text[1..][|v|..] == text[|w|..];
          FillsFirst(w, text[..|w|]);
        }
      }
    }
  }

  lemma FillsFirst(w: string, x: string)
    requires w != "" && |x| == |w|
    ensures Fills(w, x) <==> Suits(w[0], x[0]) && Fills(w[1..], x[1..])
  {
    if Suits(w[0], x[0]) && Fills(w[1..], x[1..]) {
      forall i | 0 <= i < |w| ensures w[i] == '.' || w[i] == x[i] {
        if i > 0 { assert w[i] == w[1..][i - 1] && x[i] == x[1..][i - 1]; }
      }
    }
  }

  lemma WordHere(w: string, end: bool, text: string)
    requires Word(w)
    ensures Here(Parse(w + if end then "$" else ""), text) <==>
            |w| <= |text| && Fills(w, text[..|w|]) && (end ==> |w| == |text|)
  {
    var re := if end then "$" else "";
    WordFirst(w, re, text);
    if |w| <= |text| { HereNothing(end, text[|w|..]); }
  }

  lemma EndHere(w: string, text: string)
    requires Word(w)
    ensures Here(Parse(w + "$"), text) <==> Fills(w, text)
  {
    WordHere(w, true, text);
    if |w| == |text| { assert text[..|w|] == text; }
  }

  /** A word is looked for anywhere in the line. */
  lemma WordAnywhere(w: string, text: string)
    requires Word(w)
    ensures Matches(w, text) <==> exists i, j :: 0 <= i <= j <= |text| && Fills(w, text[i..j])
  {
    assert w + "" == w && w != "" ==> w[0] != '^';
    forall i | 0 <= i <= |text| && Here(Parse(w), text[i..]) ensures i + |w| <= |text| && Fills(w, text[i..][..|w|]) {
      WordHere(w, false, text[i..]);
    }
    if Matches(w, text) {
      var i :| 0 <= i <= |text| && Here(Parse(w), text[i..]);
      assert text[i..][..|w|] == text[i..i + |w|];
    }
    forall i, j | 0 <= i <= j <= |text| && Fills(w, text[i..j]) ensures Here(Parse(w), text[i..]) {
      assert text[i..][..|w|] == text[i..j];
      WordHere(w, false, text[i..]);
    }
  }

  /** With ^ at its start. */
  lemma WordAtStart(w: string, text: string)
    requires Word(w)
    ensures Matches("^" + w, text) <==> |w| <= |text| && Fills(w, text[..|w|])
  {
    assert ("^" + w)[1..] == w && w + "" == w;
    WordHere(w, false, text);
  }

  /** With $ at its end. */
  lemma WordAtEnd(w: string, text: string)
    requires Word(w)
    ensures Matches(w + "$", text) <==> |w| <= |text| && Fills(w, text[|text| - |w|..])
  {
    forall i | 0 <= i <= |text|
      ensures Here(Parse(w + "$"), text[i..]) <==> i == |text| - |w| && Fills(w, text[i..])
    {
      WordHere(w, true, text[i..]);
      if i <= |text| - |w| { assert text[i..][..|w|] == text[i..i + |w|]; }
      if i == |text| - |w| { assert text[i..i + |w|] == text[i..]; }
    }
  }

  /** With both it is the whole line. */
  lemma WordWhole(w: string, text: string)
    requires Word(w)
    ensures Matches("^" + w + "$", text) <==> Fills(w, text)
  {
    assert ("^" + w + "$")[1..] == w + "$";
    EndHere(w, text);
  }

  /** With a star between two words, and both ends fixed, the line is the first word, any number of suitable characters
      and the second word. */
  lemma WordStarWord(v: string, c: char, w: string, text: string)
    requires Word(v) && Word(w) && c != '*' && c != '^' && c != '$'
    ensures Matches("^" + v + [c, '*'] + w + "$", text) <==>
            exists i, j :: 0 <= i <= j <= |text| && Fills(v, text[..i]) && AllSuit(c, text[i..j]) && Fills(w, text[j..])
  {
    var re := [c, '*'] + (w + "$");
    assert ("^" + v + [c, '*'] + w + "$")[1..] == v + re;
    WordFirst(v, re, text);
    assert re[2..] == w + "$";
    if |v| <= |text| {
      var rest := text[|v|..];
      HereStar(c, Parse(w + "$"), rest);
      forall k | 0 <= k <= |rest|
        ensures Here(Parse(w + "$"), rest[k..]) <==> Fills(w, text[|v| + k..])
        ensures rest[..k] == text[|v|..|v| + k]
      {
        EndHere(w, rest[k..]);
        assert rest[k..] == text[|v| + k..];
      }
      StarSplit(v, c, w, text, rest);
    }
  }

  lemma StarSplit(v: string, c: char, w: string, text: string, rest: string)
    requires |v| <= |text| && rest == text[|v|..]
    requires forall k :: 0 <= k <= |rest| ==> rest[..k] == text[|v|..|v| + k]
    requires forall k :: 0 <= k <= |rest| ==> (Here(Parse(w + "$"), rest[k..]) <==> Fills(w, text[|v| + k..]))
    ensures (Fills(v, text[..|v|])
             && exists k :: 0 <= k <= |rest| && AllSuit(c, rest[..k]) && Here(Parse(w + "$"), rest[k..])) <==>
            exists i, j :: 0 <= i <= j <= |text| && Fills(v, text[..i]) && AllSuit(c, text[i..j]) && Fills(w, text[j..])
  {
    if exists i, j :: 0 <= i <= j <= |text| && Fills(v, text[..i]) && AllSuit(c, text[i..j]) && Fills(w, text[j..]) {
      var i, j :| 0 <= i <= j <= |text| && Fills(v, text[..i]) && AllSuit(c, text[i..j]) && Fills(w, text[j..]);
      assert i == |v|;
      assert rest[..j - i] == text[i..j];
    }
  }
}
