/**
 Copying between the kernel and a process's address space (walkaddr, copyin, copyout and
 copyinstr of kernel/vm.c).
 */
module VmCopy {
  import opened Blocks
  import opened VmState
  import opened VmEffects
  import opened VmTree
  import opened VmOps

  predicate UnfoldUserOwned(u: int) { true }
  predicate UnfoldOverwrites(u: int) { true }

  /** Pages that user code may reach belong to the tree. */
  ghost predicate UserOwned(m: Vm, o: Own, r: nat) {
    && NodesOk(m, o) && Key(r, 2, 0) in o.at
    && forall u {:trigger UnfoldUserOwned(u)} :: UnfoldUserOwned(u) ==>
      forall v: nat :: V(Leaf(m, o, r, v)) && U(Leaf(m, o, r, v)) ==> OwnsPage(m, o, r, v)
  }

  lemma ProcTreeUserOwned(m: Vm, o: Own, r: nat, sz: nat, trampoline: nat, trapframe: nat)
    requires ProcTree(m, o, r, sz, trampoline, trapframe)
    ensures UserOwned(m, o, r)
  {
    assert UnfoldProcTree(0);
    KernelOnly(trampoline, PTE_R + PTE_X);
    KernelOnly(trapframe, PTE_R + PTE_W);
  }

  lemma KernelOnly(page: nat, perm: nat)
    requires perm in {PTE_R + PTE_X, PTE_R + PTE_W}
    ensures !U(MakePte(page, perm))
  {
    FlagsTell(page, perm);
  }

  /** User code may read the byte at virtual address a; and may write it. */
  predicate CanRead(m: Vm, o: Own, r: nat, a: nat)
    requires NodesOk(m, o)
  {
    var v := a / PGSIZE; v < MAXVPN && V(Leaf(m, o, r, v)) && U(Leaf(m, o, r, v))
  }

  predicate CanWrite(m: Vm, o: Own, r: nat, a: nat)
    requires NodesOk(m, o)
  {
    CanRead(m, o, r, a) && W(Leaf(m, o, r, a / PGSIZE))
  }

  predicate May(m: Vm, o: Own, r: nat, a: nat, write: bool)
    requires NodesOk(m, o)
  {
    if write then CanWrite(m, o, r, a) else CanRead(m, o, r, a)
  }

  /** The byte user code sees at virtual address a. */
  function ByteAt(m: Vm, o: Own, r: nat, a: nat): Byte
    requires NodesOk(m, o)
  {
    var p := Page(Leaf(m, o, r, a / PGSIZE));
    if p in m.data && |m.data[p]| == PGSIZE then m.data[p][a % PGSIZE] else 0
  }

  ghost function UserBytes(m: Vm, o: Own, r: nat, va: nat, n: nat): (s: seq<Byte>)
    requires NodesOk(m, o)
    ensures |s| == n && forall i :: 0 <= i < n ==> s[i] == ByteAt(m, o, r, va + i)
  {
    if n == 0 then [] else UserBytes(m, o, r, va, n - 1) + [ByteAt(m, o, r, va + n - 1)]
  }

  /** n is how far a copy of up to len bytes at va gets: everything before is accessible, and it stops
      only at len or at an inaccessible byte. */
  ghost predicate Reaches(m: Vm, o: Own, r: nat, va: nat, len: nat, write: bool, n: nat)
    requires NodesOk(m, o)
  {
    && n <= len && (forall a :: va <= a < va + n ==> May(m, o, r, a, write))
    && (n < len ==> !May(m, o, r, va + n, write))
  }

  function Min(a: nat, b: nat): nat { if a < b then a else b }

  /** Bytes of one page are accessible together. */
  lemma SamePage(m: Vm, o: Own, r: nat, va: nat, n: nat, write: bool)
    requires NodesOk(m, o) && n <= PGSIZE - va % PGSIZE
    ensures forall a :: va <= a < va + n ==> a / PGSIZE == va / PGSIZE && a % PGSIZE == va % PGSIZE + (a - va)
    ensures forall a :: va <= a < va + n ==> (May(m, o, r, a, write) <==> May(m, o, r, va, write))
  {
    forall a | va <= a < va + n ensures a / PGSIZE == va / PGSIZE && a % PGSIZE == va % PGSIZE + (a - va) {
      DivMod(va, a - va);
    }
  }

  lemma DivMod(va: nat, i: nat)
    requires va % PGSIZE + i < PGSIZE
    ensures (va + i) / PGSIZE == va / PGSIZE && (va + i) % PGSIZE == va % PGSIZE + i
  {
    assert va == va / PGSIZE * PGSIZE + va % PGSIZE;
  }

  /** One page's part of a read. */
  lemma Chunk(m: Vm, o: Own, r: nat, va: nat, n: nat)
    requires Sound(m, o, {}) && UserOwned(m, o, r) && CanRead(m, o, r, va) && n <= PGSIZE - va % PGSIZE
    ensures var p := Page(Leaf(m, o, r, va / PGSIZE));
            && p != 0 && p in m.data && |m.data[p]| == PGSIZE
            && m.data[p][va % PGSIZE..va % PGSIZE + n] == UserBytes(m, o, r, va, n)
  {
    var p := Page(Leaf(m, o, r, va / PGSIZE));
    assert p != 0 && p in m.data && |m.data[p]| == PGSIZE by {
      assert UnfoldUserOwned(0) && UnfoldSound(0);
    }
    SamePage(m, o, r, va, n, false);
    var s := m.data[p][va % PGSIZE..va % PGSIZE + n];
    forall i | 0 <= i < n ensures s[i] == ByteAt(m, o, r, va + i) {
      assert (va + i) / PGSIZE == va / PGSIZE;
    }
  }

  lemma BytesConcat(m: Vm, o: Own, r: nat, va: nat, n: nat, k: nat)
    requires NodesOk(m, o)
    ensures UserBytes(m, o, r, va, n) + UserBytes(m, o, r, va + n, k) == UserBytes(m, o, r, va, n + k)
  {
  }

  /** The leaf entry of page v of tree r, or 0 where there is no table. */
  method FindPte(mem: Memory, r: nat, v: nat) returns (pte: nat)
    requires mem.Valid() && v < MAXVPN && Key(r, 2, 0) in mem.own.at
    modifies mem
    ensures mem.View() == old(mem.View()) && mem.own == old(mem.own)
    ensures pte == Leaf(mem.View(), mem.own, r, v)
  {
    var t := mem.Walk(r, v, false);
    pte := if t == 0 then 0 else mem.table[t][Px(0, v)];
  }

  /** The page user code reaches at page number v, or 0. */
  method Walkaddr(mem: Memory, r: nat, v: nat) returns (p: nat)
    requires mem.Valid() && UserOwned(mem.View(), mem.own, r)
    modifies mem
    ensures mem.View() == old(mem.View()) && mem.own == old(mem.own)
    ensures p != 0 <==> CanRead(mem.View(), mem.own, r, v * PGSIZE)
    ensures p != 0 ==> p == Page(Leaf(mem.View(), mem.own, r, v))
  {
    if v >= MAXVPN {
      return 0;
    }
    var pte := FindPte(mem, r, v);
    if !V(pte) || !U(pte) {
      return 0;
    }
    Chunk(mem.View(), mem.own, r, v * PGSIZE, 0);
    return Page(pte);
  }

  /** dst holds the bytes at va, all of them accessible. */
  ghost predicate Got(m: Vm, o: Own, r: nat, va: nat, dst: seq<Byte>)
    requires NodesOk(m, o)
  {
    true == ((forall a :: va <= a < va + |dst| ==> May(m, o, r, a, false)) && dst == UserBytes(m, o, r, va, |dst|))
  }

  lemma GotMore(m: Vm, o: Own, r: nat, va: nat, dst: seq<Byte>, n: nat)
    requires Sound(m, o, {}) && UserOwned(m, o, r) && CanRead(m, o, r, va + |dst|)
    requires n <= PGSIZE - (va + |dst|) % PGSIZE
    requires Got(m, o, r, va, dst)
    ensures var (p, i) := (Page(Leaf(m, o, r, (va + |dst|) / PGSIZE)), (va + |dst|) % PGSIZE);
            p in m.data && |m.data[p]| == PGSIZE && Got(m, o, r, va, dst + m.data[p][i..i + n])
  {
    Chunk(m, o, r, va + |dst|, n);
    var s := UserBytes(m, o, r, va + |dst|, n);
    assert dst + s == UserBytes(m, o, r, va, |dst + s|) by { BytesConcat(m, o, r, va, |dst|, n); }
    GotMay(m, o, r, va, dst, n);
  }

  lemma GotMay(m: Vm, o: Own, r: nat, va: nat, dst: seq<Byte>, n: nat)
    requires NodesOk(m, o) && CanRead(m, o, r, va + |dst|) && n <= PGSIZE - (va + |dst|) % PGSIZE
    requires Got(m, o, r, va, dst)
    ensures forall a :: va <= a < va + |dst| + n ==> May(m, o, r, a, false)
  {
    SamePage(m, o, r, va + |dst|, n, false);
  }

  /** Copies len user bytes at srcva; on failure what was copied is the accessible prefix. */
  method Copyin(mem: Memory, r: nat, srcva: nat, len: nat) returns (ok: bool, dst: seq<Byte>)
    requires mem.Valid() && UserOwned(mem.View(), mem.own, r)
    modifies mem
    ensures mem.View() == old(mem.View()) && mem.own == old(mem.own)
    ensures Reaches(mem.View(), mem.own, r, srcva, len, false, |dst|)
    ensures dst == UserBytes(mem.View(), mem.own, r, srcva, |dst|) && (ok <==> |dst| == len)
  {
    dst := [];
    ghost var (m, o) := (mem.View(), mem.own);
    while |dst| < len
      invariant |dst| <= len && mem.View() == m && mem.own == o && Got(m, o, r, srcva, dst)
    {
      var p := CopyinPage(mem, r, srcva, len, dst);
      if p == [] {
        return false, dst;
      }
      dst := dst + p;
    }
    ok := true;
  }

  /** One page of copyin. */
  method CopyinPage(mem: Memory, r: nat, srcva: nat, len: nat, dst: seq<Byte>) returns (s: seq<Byte>)
    requires mem.Valid() && UserOwned(mem.View(), mem.own, r) && |dst| < len && Got(mem.View(), mem.own, r, srcva, dst)
    modifies mem
    ensures mem.View() == old(mem.View()) && mem.own == old(mem.own)
    ensures Got(mem.View(), mem.own, r, srcva, dst + s) && |dst + s| <= len
    ensures s != [] <==> CanRead(mem.View(), mem.own, r, srcva + |dst|)
  {
    ghost var (m, o) := (mem.View(), mem.own);
    var va := srcva + |dst|;
    var p := Walkaddr(mem, r, va / PGSIZE);
    SameAddress(m, o, r, va);
    s := [];
    assert dst + s == dst;
    if p != 0 {
      var n := Min(PGSIZE - va % PGSIZE, len - |dst|);
      GotMore(m, o, r, srcva, dst, n);
      s := mem.data[p][va % PGSIZE..va % PGSIZE + n];
    }
  }

  lemma SameAddress(m: Vm, o: Own, r: nat, va: nat)
    requires NodesOk(m, o)
    ensures CanRead(m, o, r, va / PGSIZE * PGSIZE) <==> CanRead(m, o, r, va)
  {
    assert va / PGSIZE * PGSIZE / PGSIZE == va / PGSIZE;
  }

  /** The inner loop of copyinstr: copies up to and including the first NUL of s, or all of s. */
  method CopyString(s: seq<Byte>) returns (got: bool, t: seq<Byte>)
    ensures t <= s && (got ==> Terminated(t)) && (!got ==> t == s && 0 !in t)
  {
    t, got := [], false;
    var i := 0;
    while i < |s|
      invariant 0 <= i <= |s| && t == s[..i] && 0 !in t
    {
      if s[i] == 0 {
        return true, t + [0];
      }
      t := t + [s[i]];
      i := i + 1;
    }
  }

  /** Ends in its only NUL. */
  predicate Terminated(t: seq<Byte>) {
    t != [] && t[|t| - 1] == 0 && 0 !in t[..|t| - 1]
  }

  /** The string at va has its NUL at offset k, with everything up to there accessible. */
  ghost predicate StringEnds(m: Vm, o: Own, r: nat, va: nat, k: nat)
    requires NodesOk(m, o)
  {
    (forall a :: va <= a <= va + k ==> CanRead(m, o, r, a)) && ByteAt(m, o, r, va + k) == 0
  }

  lemma GotPrefix(m: Vm, o: Own, r: nat, va: nat, dst: seq<Byte>, n: nat)
    requires NodesOk(m, o) && Got(m, o, r, va, dst) && n <= |dst|
    ensures Got(m, o, r, va, dst[..n])
  {
    assert dst[..n] == UserBytes(m, o, r, va, n);
  }

  /** Having a terminated copy, or one that ran into max or an inaccessible byte, decides whether a NUL can be
      reached. */
  lemma StringDecided(m: Vm, o: Own, r: nat, va: nat, max: nat, dst: seq<Byte>)
    requires NodesOk(m, o) && Got(m, o, r, va, dst) && |dst| <= max
    ensures Terminated(dst) ==> StringEnds(m, o, r, va, |dst| - 1)
    ensures 0 !in dst && Reaches(m, o, r, va, max, false, |dst|) ==> forall k :: 0 <= k < max ==>
            !StringEnds(m, o, r, va, k)
  {
    forall a | va <= a < va + |dst| ensures CanRead(m, o, r, a) {
      assert May(m, o, r, a, false);
    }
    assert Terminated(dst) ==> dst[|dst| - 1] == ByteAt(m, o, r, va + |dst| - 1);
    if 0 !in dst && Reaches(m, o, r, va, max, false, |dst|) {
      forall k | 0 <= k < max ensures !StringEnds(m, o, r, va, k) {
        if k < |dst| {
          assert dst[k] == ByteAt(m, o, r, va + k);
        } else {
          assert !CanRead(m, o, r, va + |dst|);
        }
      }
    }
  }

  /** Succeeds exactly if a NUL can be reached within max bytes, and then has copied up to the first. */
  method Copyinstr(mem: Memory, r: nat, srcva: nat, max: nat) returns (ok: bool, dst: seq<Byte>)
    requires mem.Valid() && UserOwned(mem.View(), mem.own, r)
    modifies mem
    ensures mem.View() == old(mem.View()) && mem.own == old(mem.own)
    ensures ok <==> exists k :: 0 <= k < max && StringEnds(mem.View(), mem.own, r, srcva, k)
    ensures dst == UserBytes(mem.View(), mem.own, r, srcva, |dst|) && |dst| <= max
    ensures ok ==> Terminated(dst)
  {
    dst, ok := [], false;
    ghost var (m, o) := (mem.View(), mem.own);
    while !ok && |dst| < max
      invariant |dst| <= max && mem.View() == m && mem.own == o && Got(m, o, r, srcva, dst)
      invariant if ok then Terminated(dst) else 0 !in dst
      decreases max - |dst|, !ok
    {
      var fault;
      fault, ok, dst := CopyRound(mem, r, srcva, max, dst);
      if fault {
        break;
      }
    }
    StringDecided(m, o, r, srcva, max, dst);
  }

  /** One round of copyinstr's outer loop. */
  method CopyRound(mem: Memory, r: nat, srcva: nat, max: nat, dst: seq<Byte>)
    returns (fault: bool, ok: bool, t: seq<Byte>)
    requires mem.Valid() && UserOwned(mem.View(), mem.own, r)
    requires Got(mem.View(), mem.own, r, srcva, dst) && 0 !in dst && |dst| < max
    modifies mem
    ensures mem.View() == old(mem.View()) && mem.own == old(mem.own)
    ensures Got(mem.View(), mem.own, r, srcva, t) && |dst| <= |t| <= max && (if ok then Terminated(t) else 0 !in t)
    ensures fault ==> !ok && Reaches(mem.View(), mem.own, r, srcva, max, false, |t|)
    ensures !fault ==> |dst| < |t|
  {
    var s := CopyinPage(mem, r, srcva, max, dst);
    if s == [] {
      return true, false, dst;
    }
    fault := false;
    ok, t := CopyPart(mem.View(), mem.own, r, srcva, dst, s);
  }

  /** One page of copyinstr. */
  method CopyPart(ghost m: Vm, ghost o: Own, ghost r: nat, ghost va: nat, dst: seq<Byte>, s: seq<Byte>)
    returns (ok: bool, t: seq<Byte>)
    requires NodesOk(m, o) && Got(m, o, r, va, dst + s) && 0 !in dst
    ensures Got(m, o, r, va, t) && |t| <= |dst| + |s|
    ensures (if ok then Terminated(t) && |dst| < |t| else t == dst + s && 0 !in t)
  {
    var u;
    ok, u := CopyString(s);
    assert (dst + s)[..|dst + u|] == dst + u;
    GotPrefix(m, o, r, va, dst + s, |dst + u|);
    t := dst + u;
    assert ok ==> t[..|t| - 1] == dst + u[..|u| - 1];
  }

  /** src now stands at va of tree r; no other byte of any page changes. */
  ghost predicate Overwrites(m: Vm, o: Own, m': Vm, r: nat, va: nat, src: seq<Byte>) {
    && NodesOk(m, o) && NodesOk(m', o) && m'.free == m.free && m'.table == m.table
    && forall u {:trigger UnfoldOverwrites(u)} :: UnfoldOverwrites(u) ==>
      && (forall a: nat :: CanRead(m, o, r, a) ==>
            ByteAt(m', o, r, a) == if va <= a < va + |src| then src[a - va] else ByteAt(m, o, r, a))
      && m'.data.Keys == m.data.Keys
      && (forall p :: p in m.data && !(p in o.owner && o.owner[p].User? && o.owner[p].r == r) ==>
         m'.data[p] == m.data[p])
  }

  lemma OverwritesNothing(m: Vm, o: Own, r: nat, va: nat, src: seq<Byte>)
    requires NodesOk(m, o) && |src| == 0
    ensures Overwrites(m, o, m, r, va, src)
  {
  }

  lemma DataInv(m: Vm, o: Own, p: nat, b: seq<Byte>)
    requires Inv(m, o, {}) && p in m.data && |b| == |m.data[p]|
    ensures Inv(m.(data := m.data[p := b]), o, {})
  {
    var m' := m.(data := m.data[p := b]);
    assert SameTables(m, o, m', o);
    SameTablesOk(m, o, m', o, {});
    assert OwnersOk(m', o);
  }

  /** Storing s into the page behind va. */
  lemma PatchPage(m: Vm, o: Own, r: nat, va: nat, s: seq<Byte>)
    requires Sound(m, o, {}) && UserOwned(m, o, r) && CanRead(m, o, r, va) && |s| <= PGSIZE - va % PGSIZE
    ensures var p := Page(Leaf(m, o, r, va / PGSIZE));
            && p in m.data && |m.data[p]| == PGSIZE
            && var m' := m.(data := m.data[p := Patch(m.data[p], va % PGSIZE, s)]);
            Sound(m', o, {}) && UserOwned(m', o, r) && Overwrites(m, o, m', r, va, s)
  {
    var v := va / PGSIZE;
    var p := Page(Leaf(m, o, r, v));
    assert p in m.data && |m.data[p]| == PGSIZE by { Chunk(m, o, r, va, 0); }
    var m' := m.(data := m.data[p := Patch(m.data[p], va % PGSIZE, s)]);
    assert forall r', v' :: Leaf(m', o, r', v') == Leaf(m, o, r', v');
    assert Sound(m', o, {}) by {
      assert UnfoldSound(0);
      DataInv(m, o, p, m'.data[p]);
    }
    assert UserOwned(m', o, r) by { assert UnfoldUserOwned(0); }
    forall a: nat | CanRead(m, o, r, a)
      ensures ByteAt(m', o, r, a) == if va <= a < va + |s| then s[a - va] else ByteAt(m, o, r, a)
    {
      PatchByte(m, o, r, va, s, a);
    }
    assert OwnsPage(m, o, r, v) by { assert UnfoldUserOwned(0); }
  }

  lemma PatchByte(m: Vm, o: Own, r: nat, va: nat, s: seq<Byte>, a: nat)
    requires UserOwned(m, o, r) && CanRead(m, o, r, va) && CanRead(m, o, r, a) && |s| <= PGSIZE - va % PGSIZE
    requires var p := Page(Leaf(m, o, r, va / PGSIZE)); p in m.data && |m.data[p]| == PGSIZE
    ensures var p := Page(Leaf(m, o, r, va / PGSIZE));
            var m' := m.(data := m.data[p := Patch(m.data[p], va % PGSIZE, s)]);
            NodesOk(m', o) && ByteAt(m', o, r, a) == if va <= a < va + |s| then s[a - va] else ByteAt(m, o, r, a)
  {
    if a / PGSIZE == va / PGSIZE {
      assert a - va == a % PGSIZE - va % PGSIZE;
    } else {
      SamePage(m, o, r, va, |s|, false);
      assert Page(Leaf(m, o, r, a / PGSIZE)) != Page(Leaf(m, o, r, va / PGSIZE)) by { assert UnfoldUserOwned(0); }
    }
  }

  lemma OverwritesMore(m: Vm, o: Own, m1: Vm, m2: Vm, r: nat, va: nat, s: seq<Byte>, t: seq<Byte>)
    requires Overwrites(m, o, m1, r, va, s) && Overwrites(m1, o, m2, r, va + |s|, t)
    ensures Overwrites(m, o, m2, r, va, s + t)
  {
    assert UnfoldOverwrites(0);
    forall a: nat | CanRead(m, o, r, a)
      ensures ByteAt(m2, o, r, a) == if va <= a < va + |s + t| then (s + t)[a - va] else ByteAt(m, o, r, a)
    {
      assert CanRead(m1, o, r, a);
    }
  }

  lemma OverwritesMay(m: Vm, o: Own, m': Vm, r: nat, va: nat, s: seq<Byte>, a: nat)
    requires Overwrites(m, o, m', r, va, s)
    ensures May(m', o, r, a, true) <==> May(m, o, r, a, true)
  {
  }

  /** One page of copyout. */
  method CopyoutPage(mem: Memory, r: nat, va: nat, src: seq<Byte>) returns (n: nat)
    requires mem.Valid() && UserOwned(mem.View(), mem.own, r) && src != []
    modifies mem
    ensures mem.Valid() && UserOwned(mem.View(), mem.own, r) && mem.own == old(mem.own)
    ensures n == if CanWrite(old(mem.View()), old(mem.own), r, va) then Min(PGSIZE - va % PGSIZE, |src|) else 0
    ensures Overwrites(old(mem.View()), old(mem.own), mem.View(), r, va, src[..n])
  {
    OverwritesNothing(mem.View(), mem.own, r, va, []);
    var v := va / PGSIZE;
    if v >= MAXVPN {
      return 0;
    }
    var pte := FindPte(mem, r, v);
    if !V(pte) || !U(pte) || !W(pte) {
      return 0;
    }
    var p := Page(pte);
    n := Min(PGSIZE - va % PGSIZE, |src|);
    PatchPage(mem.View(), mem.own, r, va, src[..n]);
    mem.data := mem.data[p := Patch(mem.data[p], va % PGSIZE, src[..n])];
  }

  /** src[..n] has been written at va. */
  ghost predicate Put(m: Vm, o: Own, m': Vm, r: nat, va: nat, src: seq<Byte>, n: nat) {
    true == (
      && n <= |src| && Overwrites(m, o, m', r, va, src[..n])
      && (forall a :: va <= a < va + n ==> May(m, o, r, a, true)))
  }

  lemma PutMore(m: Vm, o: Own, m1: Vm, m2: Vm, r: nat, va: nat, src: seq<Byte>, n: nat, k: nat)
    requires Put(m, o, m1, r, va, src, n) && n + k <= |src| && k <= PGSIZE - (va + n) % PGSIZE
    requires May(m, o, r, va + n, true)
    requires Overwrites(m1, o, m2, r, va + n, src[n..][..k])
    ensures Put(m, o, m2, r, va, src, n + k)
  {
    assert src[..n] + src[n..][..k] == src[..n + k];
    OverwritesMore(m, o, m1, m2, r, va, src[..n], src[n..][..k]);
    SamePage(m, o, r, va + n, k, true);
  }

  /** Writes src at dstva; on failure what was written is the prefix that may be written. */
  method Copyout(mem: Memory, r: nat, dstva: nat, src: seq<Byte>) returns (ok: bool, ghost n: nat)
    requires mem.Valid() && UserOwned(mem.View(), mem.own, r)
    modifies mem
    ensures mem.Valid() && UserOwned(mem.View(), mem.own, r) && mem.own == old(mem.own)
    ensures Reaches(old(mem.View()), old(mem.own), r, dstva, |src|, true, n) && (ok <==> n == |src|)
    ensures Overwrites(old(mem.View()), old(mem.own), mem.View(), r, dstva, src[..n])
  {
    ghost var (m, o) := (mem.View(), mem.own);
    OverwritesNothing(m, o, r, dstva, src[..0]);
    var done := 0;
    while done < |src|
      invariant done <= |src| && mem.Valid() && UserOwned(mem.View(), mem.own, r) && mem.own == o
      invariant Put(m, o, mem.View(), r, dstva, src, done)
    {
      ghost var m1 := mem.View();
      OverwritesMay(m, o, m1, r, dstva, src[..done], dstva + done);
      var k := CopyoutPage(mem, r, dstva + done, src[done..]);
      n := done;
      if k == 0 {
        return false, done;
      }
      PutMore(m, o, m1, mem.View(), r, dstva, src, done, k);
      done := done + k;
    }
    return true, done;
  }
}
