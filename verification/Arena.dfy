/**
 The heap of user/umalloc.c as a value: memory in units of one header (16 bytes), the
 free and the live blocks, and which block every unit belongs to.
 */
module Arena {
  /** A unit of memory read as a header; in the body of a live block it is user data. */
  datatype Header = Header(ptr: nat, size: nat)

  /** blk says to which block each unit obtained from sbrk belongs. */
  datatype Heap = Heap(base: nat, mem: map<nat, Header>, free: set<nat>, live: set<nat>, blk: map<nat, nat>)

  // Predicates of the form `forall u :: UnfoldP(u) ==> body` mean `body`, but the verifier looks
  // inside P only in proofs that mention UnfoldP.
  predicate UnfoldWf(u: int) { true }
  predicate UnfoldLiveKept(u: int) { true }

  /** On the circular list: a free block or the static header `base`. */
  predicate On(h: Heap, a: nat) { a == h.base || a in h.free }

  /** a starts a block: its units are exactly those from a up to its size. */
  predicate Block(h: Heap, a: nat) {
    && a in h.mem && a in h.blk && h.mem[a].size > 0
    && (forall u :: a <= u < a + h.mem[a].size ==> u in h.blk && h.blk[u] == a)
    && (forall u :: u in h.blk && h.blk[u] == a ==> a <= u < a + h.mem[a].size)
  }

  /** base has no units and lies below all units; memory is base and the units. */
  predicate BaseOk(h: Heap) {
    && h.base in h.mem && h.mem[h.base].size == 0 && h.base !in h.free
    && h.mem.Keys == h.blk.Keys + {h.base}
    && forall u :: u in h.blk ==> h.base < u
  }

  /** a's link leads to the next list element in address order, or from the last one back to base. */
  predicate SuccOk(h: Heap, a: nat) {
    && a in h.mem
    && var q := h.mem[a].ptr;
    && On(h, q)
    && if a < q then forall b :: b in h.free ==> b <= a || q <= b else q == h.base && forall b :: b in h.free ==> b <= a
  }

  ghost predicate ListOk(h: Heap) {
    forall a: nat :: On(h, a) ==> SuccOk(h, a)
  }

  predicate BlocksOk(h: Heap) {
    && h.free !! h.live
    && (forall a :: a in h.free + h.live ==> Block(h, a))
    && (forall u :: u in h.blk ==> h.blk[u] in h.free + h.live)
  }

  /** No free block ends where the next begins, except perhaps those in e. */
  predicate GapsOk(h: Heap, e: set<nat>) {
    forall a :: a in h.free && a in h.mem && a !in e ==> a + h.mem[a].size != h.mem[a].ptr
  }

  ghost predicate Wf(h: Heap, e: set<nat>) {
    forall u {:trigger UnfoldWf(u)} :: UnfoldWf(u) ==> BaseOk(h) && ListOk(h) && BlocksOk(h) && GapsOk(h, e)
  }

  /** Blocks do not overlap. */
  lemma Disjoint(h: Heap, a: nat, b: nat)
    requires Block(h, a) && Block(h, b) && a < b
    ensures a + h.mem[a].size <= b
  {
    assert h.blk[b] == b;
  }

  // Putting a live block on the list behind p, without coalescing.

  /** The list elements between which a belongs are p and its successor. */
  predicate Fits(h: Heap, a: nat, p: nat) {
    && On(h, p) && p in h.mem && p < a
    && (p < h.mem[p].ptr ==> a < h.mem[p].ptr)
  }

  function Link(h: Heap, a: nat, p: nat): Heap
    requires a in h.mem && p in h.mem
  {
    var mem := h.mem[a := Header(h.mem[p].ptr, h.mem[a].size)];
    h.(mem := mem[p := Header(a, mem[p].size)], free := h.free + {a}, live := h.live - {a})
  }

  lemma LinkSucc(h: Heap, a: nat, p: nat, b: nat)
    requires ListOk(h) && Fits(h, a, p) && a in h.mem && !On(h, a) && h.base < a && On(h, b) && b != p
    requires forall f :: f in h.free ==> h.base < f
    ensures SuccOk(Link(h, a, p), b)
  {
    assert SuccOk(h, b) && SuccOk(h, p);
    var q := h.mem[b].ptr;
    if p < b {
      assert b in h.free;
      assert h.mem[p].ptr <= b;
    } else {
      assert p in h.free;
      assert b < q <= p;
    }
  }

  lemma LinkList(h: Heap, a: nat, p: nat)
    requires ListOk(h) && Fits(h, a, p) && a in h.mem && !On(h, a) && h.base < a
    requires forall f :: f in h.free ==> h.base < f
    ensures ListOk(Link(h, a, p))
  {
    var h' := Link(h, a, p);
    assert SuccOk(h, p);
    forall b: nat | On(h', b) ensures SuccOk(h', b) {
      if b != a && b != p { LinkSucc(h, a, p, b); }
    }
  }

  lemma LinkBlocks(h: Heap, a: nat, p: nat)
    requires BlocksOk(h) && a in h.live && a in h.mem && p in h.mem
    ensures BlocksOk(Link(h, a, p))
  {
    var h' := Link(h, a, p);
    assert forall b :: b in h.mem ==> b in h'.mem && h'.mem[b].size == h.mem[b].size;
    forall b | b in h'.free + h'.live ensures Block(h', b) {
      assert Block(h, b);
    }
  }

  lemma LinkWf(h: Heap, a: nat, p: nat)
    requires Wf(h, {}) && a in h.live && a in h.mem && Fits(h, a, p)
    ensures Wf(Link(h, a, p), {p, a})
  {
    assert UnfoldWf(0);
    assert Block(h, a);
    forall f | f in h.free ensures h.base < f { assert Block(h, f); }
    LinkList(h, a, p);
    LinkBlocks(h, a, p);
    LinkRest(h, a, p);
  }

  lemma LinkRest(h: Heap, a: nat, p: nat)
    requires BaseOk(h) && GapsOk(h, {}) && a in h.blk && a in h.mem && p in h.mem
    ensures BaseOk(Link(h, a, p)) && GapsOk(Link(h, a, p), {p, a})
  {
    assert Link(h, a, p).mem.Keys == h.mem.Keys;
  }

  // Merging free block p with the next, which begins where p ends.

  function Absorb(blk: map<nat, nat>, q: nat, p: nat): map<nat, nat> {
    map u | u in blk :: if blk[u] == q then p else blk[u]
  }

  predicate Adjacent(h: Heap, p: nat) {
    p in h.free && p in h.mem && h.mem[p].ptr in h.mem && p + h.mem[p].size == h.mem[p].ptr
  }

  function Merge(h: Heap, p: nat): Heap
    requires Adjacent(h, p)
  {
    var q := h.mem[p].ptr;
    h.(mem := h.mem[p := Header(h.mem[q].ptr, h.mem[p].size + h.mem[q].size)],
       free := h.free - {q},
       blk := Absorb(h.blk, q, p))
  }

  lemma MergeSucc(h: Heap, p: nat, b: nat)
    requires Adjacent(h, p) && h.base < p && h.mem[p].ptr in h.free && h.mem[p].size > 0
    requires On(h, b) && b != h.mem[p].ptr && SuccOk(h, p) && SuccOk(h, h.mem[p].ptr) && SuccOk(h, b)
    ensures SuccOk(Merge(h, p), b)
  {
    var q := h.mem[p].ptr;
    assert b != p ==> h.mem[b].ptr != q;
  }

  lemma MergeList(h: Heap, p: nat)
    requires ListOk(h) && Adjacent(h, p) && h.base < p && h.mem[p].ptr in h.free && h.mem[p].size > 0
    ensures ListOk(Merge(h, p))
  {
    var h' := Merge(h, p);
    assert SuccOk(h, p) && SuccOk(h, h.mem[p].ptr);
    forall b: nat | On(h', b) ensures SuccOk(h', b) {
      assert SuccOk(h, b);
      MergeSucc(h, p, b);
    }
  }

  lemma MergeBlock(h: Heap, p: nat, b: nat)
    requires Adjacent(h, p) && Block(h, p) && Block(h, h.mem[p].ptr)
    requires Block(h, b) && b != h.mem[p].ptr
    ensures Block(Merge(h, p), b)
  {
    var (h', q) := (Merge(h, p), h.mem[p].ptr);
    if b == p {
      forall u | p <= u < p + h'.mem[p].size ensures u in h'.blk && h'.blk[u] == p {
        if u < q { assert h.blk[u] == p; } else { assert h.blk[u] == q; }
      }
    }
  }

  lemma MergeBlocks(h: Heap, p: nat)
    requires BlocksOk(h) && Adjacent(h, p) && h.mem[p].ptr in h.free
    ensures BlocksOk(Merge(h, p))
  {
    var h' := Merge(h, p);
    assert Block(h, p) && Block(h, h.mem[p].ptr);
    forall b | b in h'.free + h'.live ensures Block(h', b) {
      assert Block(h, b);
      MergeBlock(h, p, b);
    }
    assert forall u :: u in h'.blk ==> h'.blk[u] in h'.free + h'.live;
  }

  /** An element of the list that begins where a free block ends is a free block. */
  lemma AdjacentFree(h: Heap, p: nat, e: set<nat>)
    requires Wf(h, e) && Adjacent(h, p)
    ensures h.mem[p].ptr in h.free && h.mem[p].size > 0 && h.base < p
  {
    assert UnfoldWf(0);
    assert SuccOk(h, p) && Block(h, p);
  }

  lemma MergeWf(h: Heap, p: nat, e: set<nat>)
    requires Wf(h, {p} + e) && Adjacent(h, p) && h.mem[p].ptr !in e
    ensures Wf(Merge(h, p), e)
  {
    assert UnfoldWf(0);
    AdjacentFree(h, p, {p} + e);
    MergeList(h, p);
    MergeBlocks(h, p);
    MergeGaps(h, p, e);
  }

  lemma MergeGaps(h: Heap, p: nat, e: set<nat>)
    requires Adjacent(h, p) && h.mem[p].ptr in h.free && GapsOk(h, {p} + e) && h.mem[p].ptr !in e && h.mem[p].size > 0
    ensures GapsOk(Merge(h, p), e)
  {
  }

  lemma NoMerge(h: Heap, p: nat, e: set<nat>)
    requires Wf(h, {p} + e) && !Adjacent(h, p)
    ensures Wf(h, e)
  {
    assert UnfoldWf(0);
    assert p in h.free ==> SuccOk(h, p);
  }

  // What happens to live blocks.

  /** Live blocks other than those in e keep their units, their headers and their contents. */
  ghost predicate LiveKept(h: Heap, h': Heap, e: set<nat>) {
    forall i {:trigger UnfoldLiveKept(i)} :: UnfoldLiveKept(i) ==>
      && h.live - e <= h'.live
      && forall u :: u in h.blk && h.blk[u] in h.live - e ==>
           u in h'.blk && h'.blk[u] == h.blk[u] && u in h.mem && u in h'.mem && h'.mem[u] == h.mem[u]
  }

  lemma LiveKeptTransitive(h1: Heap, h2: Heap, h3: Heap, e1: set<nat>, e2: set<nat>)
    requires LiveKept(h1, h2, e1) && LiveKept(h2, h3, e2)
    ensures LiveKept(h1, h3, e1 + e2)
  {
  }

  lemma LinkKeeps(h: Heap, a: nat, p: nat, e: set<nat>)
    requires Wf(h, e) && a in h.live && a in h.mem && p in h.mem && On(h, p)
    ensures LiveKept(h, Link(h, a, p), {a})
  {
    assert UnfoldWf(0);
    assert Block(h, a) && (p in h.free ==> Block(h, p));
  }

  lemma MergeKeeps(h: Heap, p: nat, e: set<nat>)
    requires Wf(h, e) && Adjacent(h, p)
    ensures LiveKept(h, Merge(h, p), {})
  {
    assert UnfoldWf(0);
    AdjacentFree(h, p, e);
    assert Block(h, p) && Block(h, h.mem[p].ptr);
  }

  // free.

  /** The effect of free: link block a behind p, then merge upwards and downwards where possible. */
  ghost function Freed(h: Heap, a: nat, p: nat): Heap
    requires a in h.mem && p in h.mem
  {
    var h1 := Link(h, a, p);
    var h2 := if Adjacent(h1, a) then Merge(h1, a) else h1;
    if Adjacent(h2, p) then Merge(h2, p) else h2
  }

  /** The block that a has become or has been merged into. */
  ghost function Home(h: Heap, a: nat, p: nat): nat
    requires a in h.mem && p in h.mem
  {
    if p in h.free && p + h.mem[p].size == a then p else a
  }

  lemma MergedUp(h: Heap, a: nat, p: nat)
    requires Wf(h, {}) && a in h.live && a in h.mem && p in h.mem && Fits(h, a, p)
    ensures var h1 := Link(h, a, p);
            var h2 := if Adjacent(h1, a) then Merge(h1, a) else h1;
            && Wf(h2, {p}) && LiveKept(h, h2, {a}) && h2.live == h.live - {a} && h2.blk.Keys == h.blk.Keys
            && h2.base == h.base && a in h2.free && a in h2.mem && h2.mem[a].size >= h.mem[a].size
            && p in h2.mem && h2.mem[p] == Header(a, h.mem[p].size) && On(h2, p) && (p in h2.free <==> p in h.free)
  {
    var h1 := Link(h, a, p);
    LinkWf(h, a, p);
    LinkKeeps(h, a, p, {});
    assert {p, a} == {a} + {p};
    if Adjacent(h1, a) {
      AdjacentFree(h1, a, {p, a});
      MergeWf(h1, a, {p});
      MergeKeeps(h1, a, {p, a});
      LiveKeptTransitive(h, h1, Merge(h1, a), {a}, {});
      assert {a} + {} == {a};
    } else {
      NoMerge(h1, a, {p});
    }
  }

  lemma FreedWf(h: Heap, a: nat, p: nat)
    requires Wf(h, {}) && a in h.live && a in h.mem && p in h.mem && Fits(h, a, p)
    ensures var (h', g) := (Freed(h, a, p), Home(h, a, p));
            && Wf(h', {}) && LiveKept(h, h', {a}) && h'.live == h.live - {a} && h'.blk.Keys == h.blk.Keys
            && h'.base == h.base && On(h', p) && p in h'.mem
            && g in h'.free && g in h'.mem && h'.mem[g].size >= h.mem[a].size && (p == g || h'.mem[p].ptr == g)
  {
    var h1 := Link(h, a, p);
    var h2 := if Adjacent(h1, a) then Merge(h1, a) else h1;
    MergedUp(h, a, p);
    assert {p} == {p} + {};
    if Adjacent(h2, p) {
      MergeWf(h2, p, {});
      MergeKeeps(h2, p, {p});
      LiveKeptTransitive(h, h2, Merge(h2, p), {a}, {});
      assert {a} + {} == {a};
    } else {
      NoMerge(h2, p, {});
    }
  }

  // malloc.

  /** Takes all of free block p, whose predecessor on the list is prev. */
  function Unlink(h: Heap, prev: nat, p: nat): Heap
    requires prev in h.mem && p in h.mem
  {
    h.(mem := h.mem[prev := Header(h.mem[p].ptr, h.mem[prev].size)], free := h.free - {p}, live := h.live + {p})
  }

  lemma UnlinkSucc(h: Heap, prev: nat, p: nat, b: nat)
    requires On(h, prev) && prev in h.mem && p in h.mem && p in h.free && h.mem[prev].ptr == p && p != h.base
    requires h.base < p
    requires On(h, b) && b != p && SuccOk(h, prev) && SuccOk(h, p) && SuccOk(h, b)
    requires forall f :: f in h.free ==> h.base < f
    ensures SuccOk(Unlink(h, prev, p), b)
  {
    assert b != prev ==> h.mem[b].ptr != p;
  }

  lemma UnlinkList(h: Heap, prev: nat, p: nat)
    requires ListOk(h) && On(h, prev) && prev in h.mem && p in h.mem && p in h.free && h.mem[prev].ptr == p
    requires p != h.base
    requires forall f :: f in h.free ==> h.base < f
    ensures ListOk(Unlink(h, prev, p))
  {
    var h' := Unlink(h, prev, p);
    assert SuccOk(h, prev) && SuccOk(h, p);
    forall b: nat | On(h', b) ensures SuccOk(h', b) {
      assert SuccOk(h, b);
      UnlinkSucc(h, prev, p, b);
    }
  }

  lemma UnlinkBlocks(h: Heap, prev: nat, p: nat)
    requires BlocksOk(h) && prev in h.mem && p in h.mem && p in h.free
    ensures BlocksOk(Unlink(h, prev, p))
  {
    var h' := Unlink(h, prev, p);
    assert forall b :: b in h.mem ==> b in h'.mem && h'.mem[b].size == h.mem[b].size;
    forall b | b in h'.free + h'.live ensures Block(h', b) {
      assert Block(h, b);
    }
  }

  /** A free block ends before the next begins. */
  lemma SuccAbove(h: Heap, p: nat)
    requires BlocksOk(h) && ListOk(h) && BaseOk(h) && p in h.free && p in h.mem
    ensures h.mem[p].ptr == h.base < p || p + h.mem[p].size <= h.mem[p].ptr
  {
    assert SuccOk(h, p) && Block(h, p);
    if h.mem[p].ptr in h.free { Disjoint(h, p, h.mem[p].ptr); }
  }

  lemma UnlinkGap(h: Heap, prev: nat, p: nat)
    requires BaseOk(h) && ListOk(h) && BlocksOk(h) && prev in h.free && prev in h.mem && p in h.mem && p in h.free
    requires h.mem[prev].ptr == p
    ensures prev + h.mem[prev].size != h.mem[p].ptr
  {
    SuccAbove(h, prev);
    SuccAbove(h, p);
    assert Block(h, prev) && Block(h, p);
  }

  lemma UnlinkGaps(h: Heap, prev: nat, p: nat)
    requires GapsOk(h, {}) && prev in h.mem && p in h.mem
    requires (prev in h.free ==> prev + h.mem[prev].size != h.mem[p].ptr)
    ensures GapsOk(Unlink(h, prev, p), {})
  {
  }

  lemma UnlinkKeeps(h: Heap, prev: nat, p: nat)
    requires BaseOk(h) && BlocksOk(h) && On(h, prev) && prev in h.mem && p in h.mem
    ensures LiveKept(h, Unlink(h, prev, p), {})
  {
    assert prev in h.free ==> Block(h, prev);
  }

  lemma UnlinkWf(h: Heap, prev: nat, p: nat)
    requires Wf(h, {}) && On(h, prev) && prev in h.mem && p in h.mem && p in h.free && h.mem[prev].ptr == p
    ensures Wf(Unlink(h, prev, p), {}) && LiveKept(h, Unlink(h, prev, p), {}) && p !in h.live
  {
    var h' := Unlink(h, prev, p);
    assert ListOk(h') by {
      assert UnfoldWf(0);
      forall f | f in h.free ensures h.base < f { assert Block(h, f); }
      UnlinkList(h, prev, p);
    }
    assert BlocksOk(h') && p !in h.live by { assert UnfoldWf(0); UnlinkBlocks(h, prev, p); }
    assert GapsOk(h', {}) by {
      assert UnfoldWf(0);
      if prev in h.free { UnlinkGap(h, prev, p); }
      UnlinkGaps(h, prev, p);
    }
    UnlinkRest(h, prev, p);
  }

  lemma UnlinkRest(h: Heap, prev: nat, p: nat)
    requires Wf(h, {}) && On(h, prev) && prev in h.mem && p in h.mem
    ensures LiveKept(h, Unlink(h, prev, p), {}) && BaseOk(Unlink(h, prev, p))
  {
    assert UnfoldWf(0);
    UnlinkKeeps(h, prev, p);
    assert Unlink(h, prev, p).mem.Keys == h.mem.Keys;
  }

  function Carve(blk: map<nat, nat>, p: nat, q: nat): map<nat, nat> {
    map u | u in blk :: if blk[u] == p && q <= u then q else blk[u]
  }

  /** Takes the last n units of free block p. */
  function Split(h: Heap, p: nat, n: nat): Heap
    requires p in h.mem && n < h.mem[p].size && p + h.mem[p].size - n in h.mem
  {
    var q := p + h.mem[p].size - n;
    var mem := h.mem[p := Header(h.mem[p].ptr, h.mem[p].size - n)];
    h.(mem := mem[q := Header(mem[q].ptr, n)], live := h.live + {q}, blk := Carve(h.blk, p, q))
  }

  lemma SplitBlock(h: Heap, p: nat, n: nat, b: nat)
    requires Block(h, p) && Block(h, b) && 0 < n < h.mem[p].size && p + h.mem[p].size - n in h.mem
    ensures b != p + h.mem[p].size - n && Block(Split(h, p, n), b)
  {
    var q := p + h.mem[p].size - n;
    assert h.blk[q] == p && h.blk[b] == b;
  }

  lemma SplitTail(h: Heap, p: nat, n: nat)
    requires Block(h, p) && 0 < n < h.mem[p].size && p + h.mem[p].size - n in h.mem
    requires forall u :: u in h.blk ==> h.blk[u] != p + h.mem[p].size - n
    ensures Block(Split(h, p, n), p + h.mem[p].size - n)
  {
  }

  lemma SplitBlocks(h: Heap, p: nat, n: nat)
    requires BlocksOk(h) && p in h.free && p in h.mem && 0 < n < h.mem[p].size && p + h.mem[p].size - n in h.mem
    ensures BlocksOk(Split(h, p, n)) && p + h.mem[p].size - n !in h.free + h.live
  {
    var (h', q) := (Split(h, p, n), p + h.mem[p].size - n);
    assert Block(h, p);
    forall b | b in h.free + h.live ensures b != q && Block(h', b) {
      assert Block(h, b);
      SplitBlock(h, p, n, b);
    }
    SplitTail(h, p, n);
    CarveOwned(h.blk, p, q, h.free + h.live);
    assert h'.free + h'.live == h.free + h.live + {q};
  }

  lemma CarveOwned(blk: map<nat, nat>, p: nat, q: nat, owners: set<nat>)
    requires forall u :: u in blk ==> blk[u] in owners
    ensures forall u :: u in Carve(blk, p, q) ==> Carve(blk, p, q)[u] in owners + {q}
  {
  }

  lemma SplitList(h: Heap, p: nat, n: nat)
    requires ListOk(h) && p in h.free && p in h.mem && n < h.mem[p].size && p + h.mem[p].size - n in h.mem
    ensures ListOk(Split(h, p, n))
  {
    var h' := Split(h, p, n);
    forall b: nat | On(h', b) ensures SuccOk(h', b) {
      assert SuccOk(h, b);
    }
  }

  lemma SplitGaps(h: Heap, p: nat, n: nat)
    requires GapsOk(h, {}) && p in h.mem && 0 < n < h.mem[p].size && p + h.mem[p].size - n in h.mem
    requires p + h.mem[p].size - n !in h.free
    requires h.mem[p].ptr < p || p + h.mem[p].size <= h.mem[p].ptr
    ensures GapsOk(Split(h, p, n), {})
  {
  }

  lemma SplitKeeps(h: Heap, p: nat, n: nat)
    requires Block(h, p) && p !in h.live && h.blk.Keys <= h.mem.Keys && 0 < n < h.mem[p].size
    requires p + h.mem[p].size - n in h.mem
    ensures LiveKept(h, Split(h, p, n), {})
  {
    var q := p + h.mem[p].size - n;
    assert h.blk[p] == p && h.blk[q] == p;
  }

  lemma SplitWf(h: Heap, p: nat, n: nat)
    requires Wf(h, {}) && p in h.free && p in h.mem && 0 < n < h.mem[p].size
    ensures p + h.mem[p].size - n in h.mem
    ensures Wf(Split(h, p, n), {}) && LiveKept(h, Split(h, p, n), {}) && p + h.mem[p].size - n !in h.live
  {
    var q := p + h.mem[p].size - n;
    assert q in h.mem by { assert UnfoldWf(0) && Block(h, p) && h.blk[q] == p; }
    var h' := Split(h, p, n);
    assert BlocksOk(h') && q !in h.free + h.live by { assert UnfoldWf(0); SplitBlocks(h, p, n); }
    assert ListOk(h') by { assert UnfoldWf(0); SplitList(h, p, n); }
    assert GapsOk(h', {}) by { assert UnfoldWf(0); SuccAbove(h, p); SplitGaps(h, p, n); }
    SplitRest(h, p, n);
  }

  lemma SplitRest(h: Heap, p: nat, n: nat)
    requires Wf(h, {}) && p in h.free && p in h.mem && 0 < n < h.mem[p].size && p + h.mem[p].size - n in h.mem
    ensures LiveKept(h, Split(h, p, n), {}) && BaseOk(Split(h, p, n))
  {
    assert BaseOk(h) && Block(h, p) && p !in h.live by { assert UnfoldWf(0); }
    SplitKeeps(h, p, n);
    assert Split(h, p, n).mem.Keys == h.mem.Keys;
  }

  // sbrk.

  function Span(a: nat, n: nat): (s: set<nat>)
    ensures forall u :: u in s <==> a <= u < a + n
    decreases n
  {
    if n == 0 then {} else Span(a, n - 1) + {a + n - 1}
  }

  /** n new units at a, above all memory so far, as one live block. */
  function Extend(h: Heap, a: nat, n: nat): Heap {
    h.(mem := h.mem + map u | u in Span(a, n) :: if u == a then Header(0, n) else Header(0, 0),
       live := h.live + {a}, blk := h.blk + map u | u in Span(a, n) :: a)
  }

  lemma ExtendBlocks(h: Heap, a: nat, n: nat)
    requires BlocksOk(h) && 0 < n && forall u :: u in h.blk ==> u < a
    ensures BlocksOk(Extend(h, a, n)) && forall b :: b in h.free + h.live ==> b < a
  {
    var h' := Extend(h, a, n);
    forall b | b in h.free + h.live ensures b < a && Block(h', b) {
      assert Block(h, b);
      ExtendBlock(h, a, n, b);
    }
    assert Block(h', a);
  }

  lemma ExtendList(h: Heap, a: nat, n: nat)
    requires ListOk(h) && h.base < a && forall b :: b in h.free ==> b < a
    ensures ListOk(Extend(h, a, n))
  {
    var h' := Extend(h, a, n);
    forall b: nat | On(h', b) ensures SuccOk(h', b) {
      assert SuccOk(h, b);
    }
  }

  lemma ExtendWf(h: Heap, a: nat, n: nat)
    requires Wf(h, {}) && 0 < n && h.base < a && forall u :: u in h.blk ==> u < a
    ensures Wf(Extend(h, a, n), {}) && LiveKept(h, Extend(h, a, n), {}) && a in Extend(h, a, n).mem
    ensures a !in h.free + h.live
  {
    var h' := Extend(h, a, n);
    assert BlocksOk(h') && forall b :: b in h.free + h.live ==> b < a by { assert UnfoldWf(0); ExtendBlocks(h, a, n); }
    assert ListOk(h') by { assert UnfoldWf(0); ExtendList(h, a, n); }
    ExtendRest(h, a, n);
  }

  lemma ExtendRest(h: Heap, a: nat, n: nat)
    requires Wf(h, {}) && 0 < n && h.base < a && forall u :: u in h.blk ==> u < a
    ensures GapsOk(Extend(h, a, n), {}) && BaseOk(Extend(h, a, n)) && LiveKept(h, Extend(h, a, n), {})
  {
    var h' := Extend(h, a, n);
    assert BaseOk(h) && GapsOk(h, {}) by { assert UnfoldWf(0); }
    assert h'.mem.Keys == h.mem.Keys + Span(a, n) && h'.blk.Keys == h.blk.Keys + Span(a, n);
    assert BaseOk(h');
    assert forall b :: b in h.free ==> b in h.mem && b < a by {
      assert UnfoldWf(0);
      forall b | b in h.free ensures b in h.mem && b < a { assert Block(h, b); }
    }
    assert GapsOk(h', {});
    ExtendKeeps(h, a, n);
  }

  lemma ExtendKeeps(h: Heap, a: nat, n: nat)
    requires h.blk.Keys <= h.mem.Keys && forall u :: u in h.blk ==> u < a
    ensures LiveKept(h, Extend(h, a, n), {})
  {
  }

  lemma ExtendBlock(h: Heap, a: nat, n: nat, b: nat)
    requires Block(h, b) && 0 < n && forall u :: u in h.blk ==> u < a
    ensures b < a && Block(Extend(h, a, n), b)
  {
  }

  // What the invariant means.

  ghost function Higher(h: Heap, a: nat): set<nat> { set b | b in h.free && a < b }

  lemma HigherShrinks(h: Heap, a: nat, q: nat)
    requires a < q && q in h.free
    ensures Higher(h, q) < Higher(h, a)
  {
    assert q in Higher(h, a) && q !in Higher(h, q);
  }

  /** The list elements met by following the links from a up to the last one. */
  ghost function Chain(h: Heap, a: nat): seq<nat>
    requires ListOk(h) && On(h, a)
    decreases Higher(h, a)
  {
    assert SuccOk(h, a);
    var q := h.mem[a].ptr;
    if a < q && q in h.free then
      HigherShrinks(h, a, q);
      [a] + Chain(h, q)
    else [a]
  }

  /** c ascends along the links from a and holds all of the list above a. */
  ghost predicate Ascends(h: Heap, a: nat, c: seq<nat>) {
    && c != [] && c[0] == a && (forall i :: 0 <= i < |c| ==> c[i] in h.mem && On(h, c[i]))
    && (forall i :: 0 <= i < |c| - 1 ==> c[i] < c[i + 1] && h.mem[c[i]].ptr == c[i + 1])
    && h.mem[c[|c| - 1]].ptr == h.base
    && forall b :: b in h.free && a < b ==> b in c
  }

  lemma {:induction false} ChainFrom(h: Heap, a: nat)
    requires ListOk(h) && On(h, a) && forall b :: b in h.free ==> h.base < b
    ensures Ascends(h, a, Chain(h, a))
    decreases Higher(h, a)
  {
    assert SuccOk(h, a);
    var q := h.mem[a].ptr;
    if a < q {
      assert q in h.free;
      HigherShrinks(h, a, q);
      ChainFrom(h, q);
      ChainStep(h, a, q, Chain(h, q));
    }
  }

  lemma ChainStep(h: Heap, a: nat, q: nat, d: seq<nat>)
    requires Ascends(h, q, d) && SuccOk(h, a) && On(h, a) && h.mem[a].ptr == q && a < q
    ensures Ascends(h, a, [a] + d)
  {
    var c := [a] + d;
    assert forall i :: 0 < i < |c| ==> c[i] == d[i - 1];
  }

  /** The free list is one circle from base through all free blocks in address order. */
  lemma FreeListCircular(h: Heap)
    requires Wf(h, {})
    ensures ListOk(h) && Ascends(h, h.base, Chain(h, h.base))
    ensures forall a: nat :: a in Chain(h, h.base) <==> On(h, a)
  {
    assert UnfoldWf(0);
    forall b | b in h.free ensures h.base < b { assert Block(h, b); }
    ChainFrom(h, h.base);
  }

  /** Any two blocks are apart, and a free block never touches the next free one. */
  lemma BlocksApart(h: Heap, a: nat, b: nat)
    requires Wf(h, {}) && a in h.free + h.live && b in h.free + h.live && a < b
    ensures a in h.mem && b in h.mem && a + h.mem[a].size <= b
    ensures a in h.free && b in h.free ==> a + h.mem[a].size < b
  {
    assert UnfoldWf(0);
    assert Block(h, a) && Block(h, b);
    Disjoint(h, a, b);
    if a in h.free && b in h.free {
      assert SuccOk(h, a);
      SuccAbove(h, a);
    }
  }

  ghost function Pick(s: set<nat>): nat
    requires s != {}
  {
    var a :| a in s; a
  }

  /** The sum of the sizes of blocks. */
  ghost function Sizes(h: Heap, s: set<nat>): nat {
    if s == {} then 0 else (if Pick(s) in h.mem then h.mem[Pick(s)].size else 0) + Sizes(h, s - {Pick(s)})
  }

  ghost function UnitsOf(h: Heap, s: set<nat>): set<nat> {
    set u | u in h.blk && h.blk[u] in s
  }

  lemma {:induction false} SpanCount(a: nat, n: nat)
    ensures |Span(a, n)| == n
  {
    if n > 0 { SpanCount(a, n - 1); }
  }

  lemma UnitsWithout(h: Heap, s: set<nat>, a: nat)
    requires a in s && Block(h, a)
    ensures |UnitsOf(h, s)| == |UnitsOf(h, s - {a})| + h.mem[a].size
  {
    SpanCount(a, h.mem[a].size);
    var (x, y) := (UnitsOf(h, s - {a}), Span(a, h.mem[a].size));
    assert x !! y;
    assert UnitsOf(h, s) == x + y;
  }

  lemma {:induction false} SizesCount(h: Heap, s: set<nat>)
    requires forall a :: a in s ==> Block(h, a)
    ensures Sizes(h, s) == |UnitsOf(h, s)|
  {
    if s == {} {
      assert UnitsOf(h, s) == {};
    } else {
      var a := Pick(s);
      SizesCount(h, s - {a});
      UnitsWithout(h, s, a);
    }
  }

  /** Free and live units together are the units obtained from sbrk. */
  lemma UnitsConserved(h: Heap)
    requires Wf(h, {})
    ensures Sizes(h, h.free) + Sizes(h, h.live) == |h.blk|
  {
    assert BlocksOk(h) by { assert UnfoldWf(0); }
    SizesCount(h, h.free);
    SizesCount(h, h.live);
    UnitsSplit(h.blk, h.free, h.live, UnitsOf(h, h.free), UnitsOf(h, h.live));
  }

  lemma UnitsSplit(blk: map<nat, nat>, a: set<nat>, b: set<nat>, x: set<nat>, y: set<nat>)
    requires a !! b && (forall u :: u in blk ==> blk[u] in a + b)
    requires x == (set u | u in blk && blk[u] in a) && y == (set u | u in blk && blk[u] in b)
    ensures |x| + |y| == |blk|
  {
    assert x !! y;
    assert blk.Keys == x + y;
  }

  // Going round the list.

  /** The list elements still to be met on the way from p round to x. */
  ghost function Ahead(h: Heap, p: nat, x: nat): set<nat> {
    if p <= x then set b | b in h.free && p < b <= x else Higher(h, p)
  }

  /** Following a link gets closer to x. */
  lemma AheadShrinks(h: Heap, p: nat, x: nat)
    requires Wf(h, {}) && On(h, p) && On(h, x) && p in h.mem && p != x
    ensures var q := h.mem[p].ptr; On(h, q) && q in h.mem
    ensures var q := h.mem[p].ptr; (p > x && q <= x) || ((p > x <==> q > x) && Ahead(h, q, x) < Ahead(h, p, x))
  {
    assert UnfoldWf(0);
    assert SuccOk(h, p) && SuccOk(h, h.mem[p].ptr);
    var q := h.mem[p].ptr;
    assert h.base <= x by { assert x in h.free ==> Block(h, x); }
    assert h.base <= p by { assert p in h.free ==> Block(h, p); }
    if p < q {
      assert q in h.free;
      assert q in Ahead(h, p, x) && q !in Ahead(h, q, x);
    }
  }

  /** The list elements after x and before p have less than n units. */
  ghost predicate Visited(h: Heap, x: nat, p: nat, n: nat) {
    forall b :: b in h.free && b in h.mem && (if x < p then x < b < p else x < b || b < p) ==> h.mem[b].size < n
  }

  lemma VisitNext(h: Heap, x: nat, p: nat, n: nat)
    requires Wf(h, {}) && On(h, x) && On(h, p) && p in h.mem && p != x && h.mem[p].size < n && Visited(h, x, p, n)
    ensures Visited(h, x, h.mem[p].ptr, n)
  {
    assert SuccOk(h, p) && forall b :: b in h.free ==> h.base < b by {
      assert UnfoldWf(0);
      forall b | b in h.free ensures h.base < b { assert Block(h, b); }
    }
    VisitOn(h, x, p, n);
  }

  lemma VisitOn(h: Heap, x: nat, p: nat, n: nat)
    requires SuccOk(h, p) && (forall b :: b in h.free ==> h.base < b) && On(h, x) && On(h, p)
    requires p != x && h.mem[p].size < n && Visited(h, x, p, n)
    ensures Visited(h, x, h.mem[p].ptr, n)
  {
  }

  lemma VisitFirst(h: Heap, x: nat, n: nat)
    requires Wf(h, {}) && On(h, x) && x in h.mem
    ensures Visited(h, x, h.mem[x].ptr, n) && On(h, h.mem[x].ptr) && h.mem[x].ptr in h.mem
  {
    assert UnfoldWf(0);
    assert SuccOk(h, x);
    assert SuccOk(h, h.mem[x].ptr);
    assert forall b :: b in h.free ==> h.base < b by {
      forall b | b in h.free ensures h.base < b { assert Block(h, b); }
    }
  }

  lemma VisitedAll(h: Heap, x: nat, n: nat)
    requires Visited(h, x, x, n) && (x in h.free && x in h.mem ==> h.mem[x].size < n)
    ensures forall b :: b in h.free && b in h.mem ==> h.mem[b].size < n
  {
  }

  /** A list element with units is a free block. */
  lemma OnFree(h: Heap, p: nat)
    requires Wf(h, {}) && On(h, p) && p in h.mem && h.mem[p].size > 0
    ensures p in h.free && 0 < p
  {
    assert UnfoldWf(0);
    assert p in h.free;
    assert Block(h, p);
  }

  lemma OnMem(h: Heap, p: nat)
    requires Wf(h, {}) && On(h, p)
    ensures p in h.mem
  {
    assert UnfoldWf(0);
    assert SuccOk(h, p);
  }

  /** A step of free's search: either p is the place for block a, or its link leads closer to it. */
  lemma PlaceStep(h: Heap, a: nat, p: nat)
    requires Wf(h, {}) && a in h.live && On(h, p) && p in h.mem
    ensures var q := h.mem[p].ptr;
            && 0 <= h.base <= p && a in h.mem && On(h, q) && q in h.mem
            && if p < a < q || (p >= q && (a > p || a < q)) then Fits(h, a, p)
               else (p > a && q <= a) || ((p > a <==> q > a) && Higher(h, q) < Higher(h, p))
  {
    assert UnfoldWf(0);
    var q := h.mem[p].ptr;
    assert SuccOk(h, p) && SuccOk(h, q) && Block(h, a);
    assert h.base <= p by { assert p in h.free ==> Block(h, p); }
    if p < q { HigherShrinks(h, p, q); }
  }
}
