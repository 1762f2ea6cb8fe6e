/**
 The memory of a process as its user code sees it, through growproc, fork and copies (kernel/proc.c,
 kernel/vm.c).
 */
module VmProc {
  import opened Blocks
  import opened VmState
  import opened VmEffects
  import opened VmTree
  import opened VmOps
  import opened VmCopy

  const U64: nat := 0x1_0000_0000_0000_0000

  /** What user code may do at address a, and what it sees there, is the same in both address spaces. */
  predicate SameAt(m: Vm, o: Own, r: nat, m': Vm, o': Own, r': nat, a: nat)
    requires NodesOk(m, o) && NodesOk(m', o')
  {
    && (CanRead(m, o, r, a) <==> CanRead(m', o', r', a)) && (CanWrite(m, o, r, a) <==> CanWrite(m', o', r', a))
    && (CanRead(m, o, r, a) ==> ByteAt(m, o, r, a) == ByteAt(m', o', r', a))
  }

  predicate UnfoldSame(u: int) { true }

  /** The first n pages look the same. */
  ghost predicate SameBelow(m: Vm, o: Own, r: nat, m': Vm, o': Own, r': nat, n: nat) {
    && NodesOk(m, o) && NodesOk(m', o')
    && forall u {:trigger UnfoldSame(u)} :: UnfoldSame(u) ==>
      forall a: nat :: a / PGSIZE < n ==> SameAt(m, o, r, m', o', r', a)
  }

  /** User code may use all of the pages lo .. hi, and finds them zero. */
  ghost predicate ZeroMemory(m: Vm, o: Own, r: nat, lo: nat, hi: nat, write: bool)
    requires NodesOk(m, o)
  {
    forall a: nat :: lo <= a / PGSIZE < hi ==>
      CanRead(m, o, r, a) && (CanWrite(m, o, r, a) <==> write) && ByteAt(m, o, r, a) == 0
  }

  /** User code reaches nothing from page n on. */
  ghost predicate EndsAt(m: Vm, o: Own, r: nat, n: nat)
    requires NodesOk(m, o)
  {
    forall a: nat :: n <= a / PGSIZE ==> !CanRead(m, o, r, a)
  }

  // Growing and shrinking.

  /** Memory from uvmalloc can be read, and can be written exactly if it was asked for with PTE_W. */
  lemma GrownAccess(m: Vm, o: Own, m': Vm, o': Own, r: nat, lo: nat, hi: nat, xperm: nat, write: bool)
    requires Allocs(m, o, m', o', r, lo, hi, ZeroPages(lo, hi, PTE_R + PTE_U + xperm)) && hi <= MAXVPN
    requires xperm in {0, PTE_W, PTE_X, PTE_W + PTE_X} && (write <==> xperm in {PTE_W, PTE_W + PTE_X})
    ensures ZeroMemory(m', o', r, lo, hi, write)
  {
    var c := ZeroPages(lo, hi, PTE_R + PTE_U + xperm);
    forall a: nat | lo <= a / PGSIZE < hi
      ensures CanRead(m', o', r, a) && (CanWrite(m', o', r, a) <==> write) && ByteAt(m', o', r, a) == 0
    {
      AllocsPage(m, o, m', o', r, lo, hi, c, a / PGSIZE);
      FlagsTell(Page(Leaf(m', o', r, a / PGSIZE)), PTE_R + PTE_U + xperm);
    }
  }

  lemma KeptPage(m: Vm, o: Own, m': Vm, o': Own, r: nat, a: nat)
    requires NodesOk(m, o) && NodesOk(m', o') && Leaf(m', o', r, a / PGSIZE) == Leaf(m, o, r, a / PGSIZE)
    requires var p := Page(Leaf(m, o, r, a / PGSIZE));
             (p in m.data <==> p in m'.data) && (p in m.data ==> m'.data[p] == m.data[p])
    ensures SameAt(m, o, r, m', o', r, a)
  {
  }

  lemma GrownBelow(m: Vm, o: Own, m': Vm, o': Own, r: nat, lo: nat, hi: nat, c: map<nat, (nat, seq<Byte>)>)
    requires Allocs(m, o, m', o', r, lo, hi, c) && OwnsRange(m, o, r, 0, lo)
    ensures SameBelow(m, o, r, m', o', r, lo)
  {
    forall a: nat | a / PGSIZE < lo ensures SameAt(m, o, r, m', o', r, a) {
      assert UnfoldAllocs(0);
      KeptPage(m, o, m', o', r, a);
    }
  }

  lemma ShrunkBelow(m: Vm, o: Own, m': Vm, o': Own, r: nat, lo: nat, hi: nat)
    requires Unmaps(m, o, m', o', r, lo, hi) && OwnsRange(m, o, r, 0, lo)
    ensures SameBelow(m, o, r, m', o', r, lo)
  {
    forall a: nat | a / PGSIZE < lo ensures SameAt(m, o, r, m', o', r, a) {
      assert UnfoldUnmaps(0);
      KeptPage(m, o, m', o', r, a);
    }
  }

  lemma FailedBelow(m: Vm, o: Own, m': Vm, o': Own, r: nat, n: nat)
    requires Grows(m, o, m', o', r) && OwnsRange(m, o, r, 0, n)
    ensures SameBelow(m, o, r, m', o', r, n)
  {
    forall a: nat | a / PGSIZE < n ensures SameAt(m, o, r, m', o', r, a) {
      assert UnfoldGrows(0);
      KeptPage(m, o, m', o', r, a);
    }
  }

  lemma FailedTree(m: Vm, o: Own, m': Vm, o': Own, r: nat, sz: nat, trampoline: nat, trapframe: nat)
    requires Grows(m, o, m', o', r) && ProcTree(m, o, r, sz, trampoline, trapframe)
    ensures ProcTree(m', o', r, sz, trampoline, trapframe)
  {
    assert UnfoldGrows(0) && UnfoldProcTree(0);
  }

  /** Beyond its size a process can use nothing. */
  lemma TreeEnds(m: Vm, o: Own, r: nat, sz: nat, trampoline: nat, trapframe: nat)
    requires ProcTree(m, o, r, sz, trampoline, trapframe)
    ensures EndsAt(m, o, r, Pages(sz))
  {
    assert UnfoldProcTree(0);
    KernelOnly(trampoline, PTE_R + PTE_X);
    KernelOnly(trapframe, PTE_R + PTE_W);
  }

  lemma TreeOwns(m: Vm, o: Own, r: nat, sz: nat, trampoline: nat, trapframe: nat)
    requires ProcTree(m, o, r, sz, trampoline, trapframe)
    ensures OwnsRange(m, o, r, 0, Pages(sz)) && Unmapped(m, o, r, Pages(sz), TRAPFRAME)
  {
    assert UnfoldProcTree(0);
  }

  /** growproc: the process has n more bytes, zeroed from the next page on, or n less; what it keeps looks as before.
      A request to shrink below nothing wraps around and changes nothing. */
  method Growproc(mem: Memory, r: nat, sz: nat, n: int, ghost trampoline: nat, ghost trapframe: nat)
    returns (ok: bool, sz': nat)
    requires mem.Valid() && ProcTree(mem.View(), mem.own, r, sz, trampoline, trapframe)
    requires -0x8000_0000 <= n < 0x8000_0000 && (n > 0 ==> Pages(sz + n) <= TRAPFRAME)
    modifies mem
    ensures mem.Valid() && ProcTree(mem.View(), mem.own, r, sz', trampoline, trapframe)
    ensures EndsAt(mem.View(), mem.own, r, Pages(sz'))
    ensures ok <==> mem.misses == old(mem.misses)
    ensures sz' == if !ok || sz + n < 0 then sz else sz + n
    ensures SameBelow(old(mem.View()), old(mem.own), r, mem.View(), mem.own, r, Pages(if sz' < sz then sz' else sz))
    ensures ZeroMemory(mem.View(), mem.own, r, Pages(sz), Pages(sz'), true)
  {
    ghost var (m, o) := (mem.View(), mem.own);
    TreeOwns(m, o, r, sz, trampoline, trapframe);
    ok, sz' := true, sz;
    if n > 0 {
      ok := Grow(mem, r, sz, sz + n, PTE_W, trampoline, trapframe);
      sz' := if ok then sz + n else sz;
    } else if n < 0 {
      sz' := Shrink(mem, r, sz, if sz + n < 0 then sz + n + U64 else sz + n, trampoline, trapframe);
    }
    TreeEnds(mem.View(), mem.own, r, sz', trampoline, trapframe);
  }

  method Grow(mem: Memory, r: nat, sz: nat, newsz: nat, xperm: nat, ghost trampoline: nat, ghost trapframe: nat)
    returns (ok: bool)
    requires mem.Valid() && ProcTree(mem.View(), mem.own, r, sz, trampoline, trapframe)
    requires sz < newsz && Pages(newsz) <= TRAPFRAME && xperm == PTE_W
    requires OwnsRange(mem.View(), mem.own, r, 0, Pages(sz)) && Unmapped(mem.View(), mem.own, r, Pages(sz), TRAPFRAME)
    modifies mem
    ensures mem.Valid() && (ok <==> mem.misses == old(mem.misses))
    ensures ProcTree(mem.View(), mem.own, r, if ok then newsz else sz, trampoline, trapframe)
    ensures SameBelow(old(mem.View()), old(mem.own), r, mem.View(), mem.own, r, Pages(sz))
    ensures ok ==> ZeroMemory(mem.View(), mem.own, r, Pages(sz), Pages(newsz), true)
  {
    ghost var (m, o) := (mem.View(), mem.own);
    var got := mem.Uvmalloc(r, sz, newsz, xperm);
    if got == 0 {
      FailedBelow(m, o, mem.View(), mem.own, r, Pages(sz));
      FailedTree(m, o, mem.View(), mem.own, r, sz, trampoline, trapframe);
      return false;
    }
    GrownTree(m, o, mem.View(), mem.own, r, sz, newsz, xperm, trampoline, trapframe);
    return true;
  }

  lemma GrownTree(m: Vm, o: Own, m': Vm, o': Own, r: nat, sz: nat, newsz: nat, xperm: nat,
                  trampoline: nat, trapframe: nat)
    requires ProcTree(m, o, r, sz, trampoline, trapframe) && sz <= newsz && Pages(newsz) <= TRAPFRAME && xperm == PTE_W
    requires Allocs(m, o, m', o', r, Pages(sz), Pages(newsz), ZeroPages(Pages(sz), Pages(newsz), PTE_R + PTE_U + xperm))
    ensures ProcTree(m', o', r, newsz, trampoline, trapframe)
    ensures SameBelow(m, o, r, m', o', r, Pages(sz)) && ZeroMemory(m', o', r, Pages(sz), Pages(newsz), true)
  {
    var c := ZeroPages(Pages(sz), Pages(newsz), PTE_R + PTE_U + xperm);
    ProcTreeGrown(m, o, m', o', r, sz, newsz, trampoline, trapframe, c);
    TreeOwns(m, o, r, sz, trampoline, trapframe);
    GrownBelow(m, o, m', o', r, Pages(sz), Pages(newsz), c);
    GrownAccess(m, o, m', o', r, Pages(sz), Pages(newsz), xperm, true);
  }

  method Shrink(mem: Memory, r: nat, sz: nat, newsz: nat, ghost trampoline: nat, ghost trapframe: nat)
    returns (sz': nat)
    requires mem.Valid() && ProcTree(mem.View(), mem.own, r, sz, trampoline, trapframe)
    requires OwnsRange(mem.View(), mem.own, r, 0, Pages(sz))
    modifies mem
    ensures mem.Valid() && ProcTree(mem.View(), mem.own, r, sz', trampoline, trapframe)
    ensures mem.misses == old(mem.misses) && sz' == if newsz < sz then newsz else sz
    ensures SameBelow(old(mem.View()), old(mem.own), r, mem.View(), mem.own, r, Pages(sz'))
  {
    ghost var (m, o) := (mem.View(), mem.own);
    sz' := mem.Uvmdealloc(r, sz, newsz);
    ProcTreeShrunk(m, o, mem.View(), mem.own, r, sz, sz', trampoline, trapframe);
    ShrunkBelow(m, o, mem.View(), mem.own, r, Pages(sz'), Pages(sz));
  }

  // fork.

  lemma FlagsSame(pte: nat)
    ensures W(pte) <==> Flags(pte) / PTE_W % 2 == 1
    ensures U(pte) <==> Flags(pte) / PTE_U % 2 == 1
  {
    FlagBit(Page(pte), Flags(pte), PTE_W, 256);
    FlagBit(Page(pte), Flags(pte), PTE_U, 64);
    Parity(128 * Page(pte), Flags(pte) / PTE_W);
    Parity(32 * Page(pte), Flags(pte) / PTE_U);
  }

  lemma CopiedPage(m: Vm, o: Own, m': Vm, o': Own, r: nat, r': nat, n: nat, a: nat)
    requires Sound(m, o, {}) && Allocs(m, o, m', o', r', 0, n, Contents(m, o, r, 0, n)) && a / PGSIZE < n
    requires OwnsPage(m, o, r, a / PGSIZE)
    ensures SameAt(m, o, r, m', o', r', a)
  {
    var v := a / PGSIZE;
    AllocsPage(m, o, m', o', r', 0, n, Contents(m, o, r, 0, n), v);
    OwnedData(m, o, r, v);
    FlagsSame(Leaf(m, o, r, v));
    FlagsTell(Page(Leaf(m', o', r', v)), Flags(Leaf(m, o, r, v)));
  }

  /** uvmcopy: the child sees what the parent sees, and the parent what it saw before. */
  method ForkMemory(mem: Memory, r: nat, r': nat, sz: nat) returns (ok: bool)
    requires mem.Valid() && Key(r, 2, 0) in mem.own.at && Key(r', 2, 0) in mem.own.at && r != r'
    requires Pages(sz) <= MAXVPN && OwnsRange(mem.View(), mem.own, r, 0, Pages(sz))
    requires Unmapped(mem.View(), mem.own, r', 0, Pages(sz))
    modifies mem
    ensures mem.Valid() && (ok <==> mem.misses == old(mem.misses))
    ensures ok ==> SameBelow(old(mem.View()), old(mem.own), r, mem.View(), mem.own, r', Pages(sz))
    ensures ok ==> SameBelow(old(mem.View()), old(mem.own), r, mem.View(), mem.own, r, Pages(sz))
  {
    ghost var (m, o, n) := (mem.View(), mem.own, Pages(sz));
    ok := mem.Uvmcopy(r, r', sz);
    if ok {
      ghost var c := Contents(m, o, r, 0, n);
      forall a: nat | a / PGSIZE < n
        ensures SameAt(m, o, r, mem.View(), mem.own, r', a) && SameAt(m, o, r, mem.View(), mem.own, r, a)
      {
        CopiedPage(m, o, mem.View(), mem.own, r, r', n, a);
        AllocsOther(m, o, mem.View(), mem.own, r', 0, n, c, r, a / PGSIZE);
        OwnedData(m, o, r, a / PGSIZE);
        KeptPage(m, o, mem.View(), mem.own, r, a);
      }
    }
  }

  // Copies there and back.

  /** What copyout has written, copyin brings back: it can do so wherever copyout could. */
  method CopyOutAndIn(mem: Memory, r: nat, va: nat, src: seq<Byte>) returns (ok: bool, back: seq<Byte>)
    requires mem.Valid() && UserOwned(mem.View(), mem.own, r)
    modifies mem
    ensures ok <==> forall a :: va <= a < va + |src| ==> CanWrite(old(mem.View()), old(mem.own), r, a)
    ensures ok ==> back == src
  {
    ghost var (m, o) := (mem.View(), mem.own);
    ghost var n;
    ok, n := Copyout(mem, r, va, src);
    if !ok {
      assert !May(m, o, r, va + n, true) && !CanWrite(m, o, r, va + n);
      return false, [];
    }
    assert src[..n] == src;
    ghost var m1 := mem.View();
    var read;
    read, back := Copyin(mem, r, va, |src|);
    forall a | va <= a < va + |src| ensures CanWrite(m, o, r, a) && May(m1, o, r, a, false) {
      assert May(m, o, r, a, true);
      ReadsAfter(m, o, m1, r, va, src, a);
    }
    forall i | 0 <= i < |src| ensures back[i] == src[i] {
      ReadsAfter(m, o, m1, r, va, src, va + i);
    }
  }

  lemma ReadsAfter(m: Vm, o: Own, m': Vm, r: nat, va: nat, src: seq<Byte>, a: nat)
    requires Overwrites(m, o, m', r, va, src) && May(m, o, r, a, true)
    ensures May(m', o, r, a, false)
    ensures va <= a < va + |src| ==> ByteAt(m', o, r, a) == src[a - va]
  {
    assert UnfoldOverwrites(0);
  }
}
