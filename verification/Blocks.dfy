/** Disk blocks as byte strings, and what several modules share about bytes and sets. */
module Blocks {
  type Byte = x: int | 0 <= x < 256
  type Block = seq<Byte>

  const MAXOPBLOCKS: nat := 10  // most blocks an operation is meant to write
  const LOGSIZE: nat := 30      // most data blocks in the on-disk log

  /** Always true.  A predicate of the form `forall k {:trigger Unfold(k)} :: Unfold(k) ==> body` means
      `body`, but the verifier looks inside it only in proofs that mention `Unfold`.  In the same way a
      body of the form `true == (...)` means what is in the parentheses, but is proved as a whole where it
      is an obligation, not conjunct by conjunct. */
  predicate Unfold(k: int) { true }

  /** data copied into b at offset q. */
  function Patch(b: seq<Byte>, q: nat, data: seq<Byte>): (r: seq<Byte>)
    requires q + |data| <= |b|
    ensures |r| == |b|
    ensures forall x :: 0 <= x < |b| ==> r[x] == if q <= x < q + |data| then data[x - q] else b[x]
  {
    b[..q] + data + b[q + |data|..]
  }

  predicate Distinct(s: seq<nat>) {
    forall i, j :: 0 <= i < j < |s| ==> s[i] != s[j]
  }

  function Members(s: seq<nat>): set<nat> { set b | b in s }

  lemma {:induction false} MembersSize(s: seq<nat>)
    ensures |Members(s)| <= |s| && (Distinct(s) ==> |Members(s)| == |s|)
  {
    if s != [] {
      var (t, x) := (s[..|s| - 1], s[|s| - 1]);
      MembersSize(t);
      assert s == t + [x];
      assert Members(s) == Members(t) + {x};
      assert Distinct(s) ==> x !in Members(t);
    }
  }

  lemma {:induction false} SubsetSize<T>(a: set<T>, b: set<T>)
    requires a <= b
    ensures |a| <= |b|
  {
    if a != {} {
      var x :| x in a;
      SubsetSize(a - {x}, b - {x});
    }
  }
}
