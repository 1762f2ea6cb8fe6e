/**
 The descriptor table of the virtio disk driver (kernel/virtio_disk.c): allocating and
 freeing descriptors.
 */
module Virtio {
  const NUM: nat := 8

  datatype Addr = Null | OpAt(i: nat) | DataOf(b: nat) | StatusOf(i: nat)
  datatype Desc = Desc(addr: Addr, write: bool, more: bool, next: nat)

  // Descriptors.

  /** i0, i1 and i2 are the first three free descriptors. */
  predicate FirstThree(free: seq<bool>, i0: int, i1: int, i2: int) {
    && |free| == NUM && 0 <= i0 < i1 < i2 < NUM && free[i0] && free[i1] && free[i2]
    && forall j :: 0 <= j < i2 && j != i0 && j != i1 ==> !free[j]
  }

  /** There are no three free descriptors. */
  predicate FewerThanThree(free: seq<bool>) {
    |free| == NUM && forall a, b, c :: 0 <= a < b < c < NUM ==> !(free[a] && free[b] && free[c])
  }

  class Descriptors {
    var free: array<bool>
    var desc: array<Desc>

    ghost predicate Valid()
      reads this
    {
      free.Length == NUM && desc.Length == NUM
    }

    constructor ()
      ensures Valid() && fresh(free) && fresh(desc) && forall i :: 0 <= i < NUM ==> free[i]
    {
      free := new bool[NUM](_ => true);
      desc := new Desc[NUM](_ => Desc(Null, false, false, 0));
    }

    /** alloc_desc: takes the first free descriptor; -1 if there is none. */
    method AllocDesc() returns (d: int)
      requires Valid()
      modifies free
      ensures d < 0 ==> d == -1 && free[..] == old(free[..]) && forall j :: 0 <= j < NUM ==> !free[j]
      ensures d >= 0 ==>
                && d < NUM && old(free[d]) && (forall j :: 0 <= j < d ==> !free[j])
                && free[..] == old(free[..])[d := false]
    {
      for i := 0 to NUM
        invariant free[..] == old(free[..]) && forall j :: 0 <= j < i ==> !free[j]
      {
        if free[i] {
          free[i] := false;
          return i;
        }
      }
      return -1;
    }

    /** free_desc; freeing a free descriptor would be a panic. */
    method FreeDesc(i: nat)
      requires Valid() && i < NUM && !free[i]
      modifies free, desc
      ensures free[..] == old(free[..])[i := true] && desc[..] == old(desc[..])[i := Desc(Null, false, false, 0)]
    {
      desc[i] := Desc(Null, false, false, 0);
      free[i] := true;
    }

    /** alloc3_desc: takes the first three free descriptors, or none if there are fewer. */
    method Alloc3Desc() returns (ok: bool, i0: int, i1: int, i2: int)
      requires Valid()
      modifies free, desc
      ensures ok ==>
                && FirstThree(old(free[..]), i0, i1, i2)
                && free[..] == old(free[..])[i0 := false][i1 := false][i2 := false]
      ensures !ok ==> FewerThanThree(free[..]) && free[..] == old(free[..])
      ensures forall d :: 0 <= d < NUM && !old(free[d]) ==> desc[d] == old(desc[d])
    {
      ok, i1, i2 := false, -1, -1;
      ghost var f0 := free[..];
      i0 := AllocDesc();
      if i0 < 0 {
        return;
      }
      ghost var f1 := free[..];
      assert f1 == f0[i0 := false];
      i1 := AllocDesc();
      if i1 < 0 {
        FreeDesc(i0);
        assert free[..] == f0 && forall j :: 0 <= j < NUM && j != i0 ==> !f0[j];
        return;
      }
      ghost var f2 := free[..];
      assert f2 == f1[i1 := false];
      i2 := AllocDesc();
      if i2 < 0 {
        FreeDesc(i0);
        FreeDesc(i1);
        assert free[..] == f0 && forall j :: 0 <= j < NUM && j != i0 && j != i1 ==> !f0[j];
        return;
      }
      ghost var f3 := free[..];
      forall j | 0 <= j < i2 && j != i0 && j != i1 ensures !f0[j] {
        assert f3[j] == f0[j];
      }
      ok := true;
    }

    /** free_chain: follows the links from i and frees what it meets. */
    method FreeChain(h: nat, ghost chain: seq<nat>)
      requires Valid() && IsChain(free[..], desc[..], h, chain)
      modifies free, desc
      ensures forall d :: 0 <= d < NUM ==> free[d] == (old(free[d]) || d in chain)
      ensures forall d :: 0 <= d < NUM && d !in chain ==> desc[d] == old(desc[d])
    {
      var i := h;
      ghost var k := 0;
      while true
        invariant 0 <= k < |chain| && i == chain[k]
        invariant forall d :: 0 <= d < NUM ==> free[d] == (old(free[d]) || d in chain[..k])
        invariant forall d :: 0 <= d < NUM && d !in chain[..k] ==> desc[d] == old(desc[d])
        decreases |chain| - k
      {
        assert chain[k] !in chain[..k] && chain[..k + 1] == chain[..k] + [chain[k]];
        var (more, next) := (desc[i].more, desc[i].next);
        FreeDesc(i);
        if !more {
          break;
        }
        i, k := next, k + 1;
      }
      assert chain[..k + 1] == chain;
    }
  }

  /** chain is what the links from h lead through: distinct descriptors in use. */
  ghost predicate IsChain(free: seq<bool>, desc: seq<Desc>, h: nat, chain: seq<nat>) {
    && |free| == |desc| == NUM && chain != [] && chain[0] == h
    && (forall k :: 0 <= k < |chain| ==>
         chain[k] < NUM && !free[chain[k]] && (desc[chain[k]].more <==> k + 1 < |chain|))
    && (forall k :: 0 <= k < |chain| - 1 ==> desc[chain[k]].next == chain[k + 1])
    && (forall j, k :: 0 <= j < k < |chain| ==> chain[j] != chain[k])
  }
}
