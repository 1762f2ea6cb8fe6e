/**
 The allocator of user/umalloc.c (the storage allocator of section 8.7 of The C Programming
 Language): free, morecore and malloc over memory counted in 16-byte headers.  Where sbrk
 would put new memory is a parameter.
 */
module Malloc {
  import opened Arena

  const UNIT: nat := 16
  const LIMIT: nat := 0x1_0000_0000  // units; a uint counts them

  /** (nbytes + sizeof(Header) - 1) / sizeof(Header) + 1. */
  function Units(nbytes: nat): (n: nat)
    ensures (n - 1) * UNIT >= nbytes && n >= 1 && (n >= 2 ==> (n - 2) * UNIT < nbytes)
  {
    (nbytes + UNIT - 1) / UNIT + 1
  }

  /** The units that morecore asks for: what is needed, but at least 4096. */
  function Request(n: nat): nat { if n < 4096 then 4096 else n }

  /** What sbrk's int parameter receives for n units: the low 32 bits, as a signed number. */
  function SbrkArgument(n: nat): int {
    var x := n * UNIT % 0x1_0000_0000;
    if x < 0x8000_0000 then x else x - 0x1_0000_0000
  }

  /** morecore asks sbrk for what malloc needs, rounded up to 4096 units, exactly when that is less than 2^31 bytes. */
  lemma RequestExact(nbytes: nat)
    requires nbytes < 0x1_0000_0000
    ensures SbrkArgument(Request(Units(nbytes))) == Request(Units(nbytes)) * UNIT <==>
            Units(nbytes) * UNIT < 0x8000_0000
    ensures var r := Request(Units(nbytes)); r >= Units(nbytes) && r >= 4096 && (r == Units(nbytes) || r == 4096)
  {
    var n := Units(nbytes);
    assert n <= 0x1000_0001;
    if n * UNIT < 0x1_0000_0000 {
      assert Request(n) * UNIT % 0x1_0000_0000 == Request(n) * UNIT;
    }
  }

  class Allocator {
    const base: nat
    var mem: map<nat, Header>
    var freep: nat
    ghost var free: set<nat>
    ghost var live: set<nat>
    ghost var blk: map<nat, nat>

    ghost function View(): Heap
      reads this
    {
      Heap(base, mem, free, live, blk)
    }

    /** Before the first malloc freep is null and there is no memory but base. */
    ghost predicate Valid()
      reads this
    {
      && 0 < base && (forall u :: u in blk ==> u < LIMIT)
      && if freep == 0 then base in mem && mem.Keys == {base} && free == {} && live == {} && blk == map[]
         else Wf(View(), {}) && On(View(), freep)
    }

    constructor (b: nat)
      requires b > 0
      ensures Valid() && live == {} && blk == map[]
    {
      base, mem, freep := b, map[b := Header(0, 0)], 0;
      free, live, blk := {}, {}, map[];
    }

    /** The search of free: the list element that the block at bp belongs behind. */
    method FindPlace(bp: nat) returns (p: nat)
      requires Valid() && bp in live
      ensures 0 < p && p in mem && mem[p].ptr in mem && bp in mem && Fits(View(), bp, p)
    {
      ghost var h := View();
      p := freep;
      OnMem(h, p);
      while !(bp > p && bp < mem[p].ptr)
        invariant On(h, p) && p in mem
        decreases p > bp, Higher(h, p)
      {
        PlaceStep(h, bp, p);
        if p >= mem[p].ptr && (bp > p || bp < mem[p].ptr) {
          break;
        }
        p := mem[p].ptr;
      }
      PlaceStep(h, bp, p);
    }

    /** The assignments of free. */
    method Relink(bp: nat, p: nat)
      requires p in mem && bp in mem && mem[p].ptr in mem && p != bp
      modifies this`mem
      ensures mem == Relinked(old(mem), bp, p)
    {
      var q := mem[p].ptr;
      if bp + mem[bp].size == q {
        mem := mem[bp := Header(mem[q].ptr, mem[bp].size + mem[q].size)];
      } else {
        mem := mem[bp := Header(q, mem[bp].size)];
      }
      if p + mem[p].size == bp {
        mem := mem[p := Header(mem[bp].ptr, mem[p].size + mem[bp].size)];
      } else {
        mem := mem[p := Header(bp, mem[p].size)];
      }
    }

    /** Puts the block behind ap back on the list, merged with its free neighbours. */
    method Free(ap: nat) returns (ghost home: nat)
      requires Valid() && 0 < ap && ap - 1 in live
      modifies this
      ensures Valid() && freep != 0 && live == old(live) - {ap - 1} && blk.Keys == old(blk).Keys && old(freep) != 0
      ensures LiveKept(old(View()), View(), {ap - 1})
      ensures home in free && home in mem && ap - 1 in old(mem) && mem[home].size >= old(mem)[ap - 1].size
      ensures freep in mem && (freep == home || mem[freep].ptr == home)
    {
      var bp := ap - 1;
      var p := FindPlace(bp);
      ghost var h := View();
      FreedWf(h, bp, p);
      FreedMem(h, bp, p);
      home := Home(h, bp, p);
      ghost var h' := Freed(h, bp, p);
      Relink(bp, p);
      freep := p;
      free, live, blk := h'.free, h'.live, h'.blk;
      assert View() == h';
    }

    /** Gets at least n more units from sbrk, which puts them at core or fails (core == 0), and frees them. */
    method Morecore(n: nat, core: nat) returns (p: nat, ghost home: nat)
      requires Valid() && freep != 0 && 0 < n && CoreOk(core, n)
      modifies this
      ensures Valid() && freep != 0 && p == (if core == 0 then 0 else freep)
      ensures core == 0 ==> View() == old(View()) && freep == old(freep)
      ensures core != 0 ==>
                && live == old(live) && LiveKept(old(View()), View(), {})
                && blk.Keys == old(blk).Keys + Span(core, Request(n))
                && home in free && home in mem && mem[home].size >= n
                && freep in mem && (freep == home || mem[freep].ptr == home)
    {
      home := 0;
      if core == 0 {
        return 0, 0;
      }
      var nu := Request(n);
      ghost var h := View();
      ExtendWf(h, core, nu);
      mem := mem + map u | u in Span(core, nu) :: if u == core then Header(0, nu) else Header(0, 0);
      ghost var h1 := Extend(h, core, nu);
      live, blk := h1.live, h1.blk;
      assert View() == h1;
      home := Free(core + 1);
      MorecoreKeeps(h, h1, View(), core);
      p := freep;
    }

    /** The search of malloc: a free block of at least n units and its predecessor, after at most one morecore;
        0 if there is none and sbrk fails. */
    method Search(n: nat, core: nat) returns (prevp: nat, p: nat, ghost grew: bool)
      requires Valid() && freep != 0 && 0 < n && CoreOk(core, n)
      modifies this
      ensures Valid() && freep != 0 && live == old(live) && LiveKept(old(View()), View(), {})
      ensures blk.Keys == old(blk).Keys + if grew then Span(core, Request(n)) else {}
      ensures !grew ==> View() == old(View())
      ensures grew || p == 0 ==> TooSmall(old(View()), n)
      ensures p == 0 ==> core == 0 && !grew
      ensures p != 0 ==>
                p in free && p in mem && mem[p].size >= n && On(View(), prevp) && prevp in mem && mem[prevp].ptr == p
      ensures p != 0 && !grew ==> Visited(old(View()), old(freep), p, n)
    {
      ghost var h0 := View();
      ghost var home: nat := 0;
      OnMem(h0, freep);
      VisitFirst(h0, freep, n);
      prevp, grew := freep, false;
      p := mem[prevp].ptr;
      while true
        invariant Valid() && freep != 0 && On(View(), prevp) && prevp in mem && mem[prevp].ptr == p && On(View(), p)
        invariant p in mem
        invariant !grew ==> View() == h0 && freep == old(freep) && Visited(h0, freep, p, n)
        invariant grew ==> Grown(h0, n, core, home, p)
        decreases !grew, p > (if grew then home else freep), Ahead(View(), p, if grew then home else freep)
      {
        if mem[p].size >= n {
          OnFree(View(), p);
          if !grew { LiveKeptReflexive(h0); }
          return;
        }
        ghost var (g0, x) := (grew, if grew then home else freep);
        if p == freep {
          VisitedAll(h0, p, n);
          p, home := Morecore(n, core);
          if p == 0 {
            LiveKeptReflexive(h0);
            return;
          }
          grew := true;
          VisitFirst(View(), p, n);
        } else {
          AheadShrinks(View(), p, x);
          if !grew { VisitNext(h0, x, p, n); }
        }
        prevp := p;
        p := mem[p].ptr;
      }
    }

    /** morecore has been called, and home is the block with the new memory. */
    ghost predicate Grown(h0: Heap, n: nat, core: nat, home: nat, p: nat)
      reads this
    {
      && live == h0.live && LiveKept(h0, View(), {}) && blk.Keys == h0.blk.Keys + Span(core, Request(n)) && core != 0
      && TooSmall(h0, n) && home in free && home in mem && mem[home].size >= n && (freep == home || p == home)
    }

    /** Takes n units: all of block p, or its tail. */
    method Take(prevp: nat, p: nat, n: nat) returns (a: nat)
      requires Valid() && freep != 0 && p in free && p in mem && 0 < n <= mem[p].size && On(View(), prevp)
      requires prevp in mem && mem[prevp].ptr == p
      modifies this
      ensures Valid() && freep != 0 && a !in old(live) && live == old(live) + {a} && a in mem && mem[a].size == n
      ensures LiveKept(old(View()), View(), {}) && blk.Keys == old(blk).Keys
      ensures a == p + old(mem)[p].size - n && freep == prevp
    {
      ghost var h := View();
      a := p;
      if mem[p].size == n {
        UnlinkWf(h, prevp, p);
        mem := mem[prevp := Header(mem[p].ptr, mem[prevp].size)];
        free, live := free - {p}, live + {p};
        assert View() == Unlink(h, prevp, p);
        UnlinkOther(h, prevp, p);
      } else {
        SplitWf(h, p, n);
        mem := mem[p := Header(mem[p].ptr, mem[p].size - n)];
        a := a + mem[p].size;
        mem := mem[a := Header(mem[a].ptr, n)];
        live, blk := live + {a}, Carve(blk, p, a);
        assert View() == Split(h, p, n);
      }
      freep := prevp;
      OnPositive(View(), prevp);
    }

    /** A block of enough units for nbytes that overlaps no live block, or 0 if no free block is large enough
        and sbrk fails.  sbrk is called at most once, and only if no free block is large enough; otherwise the block is
        the end of the first one from freep on that is. */
    method Malloc(nbytes: nat, core: nat) returns (ap: nat, ghost grew: bool, ghost from: nat)
      requires Valid() && Units(nbytes) * UNIT < 0x8000_0000 && CoreOk(core, Units(nbytes))
      modifies this
      ensures Valid() && LiveKept(old(View()), View(), {})
      ensures blk.Keys == old(blk).Keys + if grew then Span(core, Request(Units(nbytes))) else {}
      ensures grew || ap == 0 ==> TooSmall(old(View()), Units(nbytes))
      ensures ap == 0 ==> core == 0 && !grew && live == old(live)
      ensures ap != 0 ==>
                && ap - 1 !in old(live) && live == old(live) + {ap - 1}
                && ap - 1 in mem && mem[ap - 1].size == Units(nbytes)
      ensures ap != 0 && !grew ==>
                && old(freep) != 0 && from in old(free) && from in old(mem) && old(mem)[from].size >= Units(nbytes)
                && Visited(old(View()), old(freep), from, Units(nbytes))
                && ap - 1 == from + old(mem)[from].size - Units(nbytes)
    {
      var n := Units(nbytes);
      if freep == 0 {
        FirstWf(View());
        mem := mem[base := Header(base, 0)];
        freep := base;
      }
      ghost var h := View();
      assert LiveKept(old(View()), h, {}) by { if old(freep) != 0 { LiveKeptReflexive(h); } }
      var prevp, p;
      prevp, p, grew := Search(n, core);
      LiveKeptTransitive(old(View()), h, View(), {}, {});
      ap, from := 0, p;
      if p != 0 {
        ghost var h1 := View();
        p := Take(prevp, p, n);
        LiveKeptTransitive(old(View()), h1, View(), {}, {});
        ap := p + 1;
      }
    }

    /** sbrk's answer: failure, or room above all memory so far and below 2^36 bytes. */
    ghost predicate CoreOk(core: nat, n: nat)
      reads this
    {
      core == 0 || (base < core && (forall u :: u in blk ==> u < core) && core + Request(n) <= LIMIT)
    }
  }

  /** The list before anything was allocated. */
  lemma FirstWf(h: Heap)
    requires h.base in h.mem && h.mem.Keys == {h.base} && h.free == {} && h.live == {} && h.blk == map[]
    ensures Wf(h.(mem := h.mem[h.base := Header(h.base, 0)]), {})
  {
    var h' := h.(mem := h.mem[h.base := Header(h.base, 0)]);
    assert BaseOk(h') && ListOk(h');
  }

  lemma UnlinkOther(h: Heap, prev: nat, p: nat)
    requires Wf(h, {}) && prev in h.mem && p in h.mem && p in h.free && h.mem[prev].ptr == p && On(h, prev)
    ensures prev != p
  {
    assert UnfoldWf(0);
    assert SuccOk(h, p);
  }

  lemma OnPositive(h: Heap, p: nat)
    requires Wf(h, {}) && On(h, p)
    ensures h.base <= p
  {
    assert UnfoldWf(0);
    assert p in h.free ==> Block(h, p);
  }

  /** What users write into their blocks does not matter. */
  lemma UserDataIgnored(h: Heap, u: nat, x: Header)
    requires Wf(h, {}) && u in h.blk && h.blk[u] in h.live && h.blk[u] != u
    ensures Wf(h.(mem := h.mem[u := x]), {})
  {
    var h' := h.(mem := h.mem[u := x]);
    assert UnfoldWf(0);
    forall b | b in h.free + h.live ensures b != u && Block(h', b) {
      assert Block(h, b);
    }
    forall b: nat | On(h', b) ensures SuccOk(h', b) {
      assert SuccOk(h, b);
    }
    assert BaseOk(h') by { assert h'.mem.Keys == h.mem.Keys; }
  }

  /** No size overflows its uint while all memory lies below 2^36 bytes. */
  lemma SizesFit(h: Heap, a: nat)
    requires Wf(h, {}) && a in h.free + h.live && forall u :: u in h.blk ==> u < LIMIT
    ensures a in h.mem && h.mem[a].size < LIMIT
  {
    assert UnfoldWf(0);
    assert Block(h, a);
    assert a + h.mem[a].size - 1 in h.blk;
  }

  /** No free block has n units. */
  ghost predicate TooSmall(h: Heap, n: nat) {
    forall b :: b in h.free && b in h.mem ==> h.mem[b].size < n
  }

  lemma LiveKeptReflexive(h: Heap)
    requires Wf(h, {})
    ensures LiveKept(h, h, {})
  {
    assert UnfoldWf(0);
  }

  lemma MorecoreKeeps(h: Heap, h1: Heap, h2: Heap, a: nat)
    requires LiveKept(h, h1, {}) && LiveKept(h1, h2, {a}) && h1.live == h.live + {a} && h2.live == h1.live - {a}
    requires a !in h.live
    ensures LiveKept(h, h2, {}) && h2.live == h.live
  {
    assert UnfoldLiveKept(0);
  }

  function Relinked(mem: map<nat, Header>, a: nat, p: nat): map<nat, Header>
    requires a in mem && p in mem && mem[p].ptr in mem
  {
    var q := mem[p].ptr;
    var up := if a + mem[a].size == q then Header(mem[q].ptr, mem[a].size + mem[q].size) else Header(q, mem[a].size);
    var m := mem[a := up];
    m[p := if p + mem[p].size == a then Header(m[a].ptr, mem[p].size + m[a].size) else Header(a, mem[p].size)]
  }

  /** The order of free's assignments does not matter. */
  lemma FreedMem(h: Heap, a: nat, p: nat)
    requires Wf(h, {}) && a in h.live && a in h.mem && p in h.mem && Fits(h, a, p) && h.mem[p].ptr in h.mem
    ensures Relinked(h.mem, a, p) == Freed(h, a, p).mem
  {
    var q := h.mem[p].ptr;
    assert p == h.base ==> h.mem[p].size == 0 by { assert UnfoldWf(0); }
    assert h.mem[a].size > 0 by { assert UnfoldWf(0); assert Block(h, a); }
    var h1 := Link(h, a, p);
    assert h1.mem[a] == Header(q, h.mem[a].size);
    assert Adjacent(h1, a) <==> a + h.mem[a].size == q;
    assert Adjacent(h1, a) ==> h1.mem[q] == h.mem[q];
  }
}
