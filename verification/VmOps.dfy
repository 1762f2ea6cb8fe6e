/**
 The page allocator of kernel/kalloc.c and the page-table code of kernel/vm.c.
 Addresses appear as page numbers where the source demands page alignment; a panic in
 the source is a precondition here.
 */
module VmOps {
  import opened Blocks
  import opened VmState
  import opened VmEffects
  import opened VmTree

  class Memory {
    var free: seq<nat>
    var table: map<nat, seq<nat>>
    var data: map<nat, seq<Byte>>
    ghost var own: Own
    ghost var misses: nat  // how often kalloc has found no page

    ghost function View(): Vm
      reads this
    {
      Vm(free, table, data)
    }

    ghost predicate Valid()
      reads this
    {
      Sound(View(), own, {})
    }

    /** kinit: hands the pages start .. end to kfree one by one. */
    constructor (start: nat, end: nat)
      requires 0 < start <= end
      ensures Valid() && own.at == map[] && own.owner.Keys == Range(start, end)
      ensures forall p :: p in own.owner ==> own.owner[p] == Free
    {
      free, table, data := [], map[], map[];
      own, misses := Own(map[], map p | p in Range(start, end) :: Held), 0;
      new;
      for p := start to end
        invariant Valid() && own.at == map[] && own.owner.Keys == Range(start, end)
        invariant forall q :: q in own.owner ==> own.owner[q] == if q < p then Free else Held
      {
        Kfree(p);
      }
    }

    /** Pops a page off the free list; 0 if there is none. */
    method Kalloc() returns (p: nat)
      requires Valid()
      modifies this`free, this`own, this`misses
      ensures p == 0 <==> old(free) == []
      ensures p == 0 ==> View() == old(View()) && own == old(own)
      ensures p != 0 ==>
                && p == old(free)[0] && p in old(own).owner && old(own).owner[p] == Free
                && View() == old(View()).(free := old(free)[1..])
                && own == old(own).(owner := old(own).owner[p := Held])
                && SameLeaves(old(View()), old(own), View(), own)
      ensures Valid()
      ensures misses == old(misses) + if p != 0 then 0 else 1
    {
      p := 0;
      misses := if free == [] then misses + 1 else misses;
      if free != [] {
        assert UnfoldSound(0);
        TakeInv(View(), own, {});
        p := free[0];
        free := free[1..];
        own := own.(owner := own.owner[p := Held]);
      }
    }

    /** Pushes a page that its holder gives up onto the free list; its contents become junk. */
    method Kfree(p: nat)
      requires Valid() && p in own.owner && own.owner[p] == Held
      modifies this`free, this`table, this`data, this`own
      ensures Valid() && own == old(own).(owner := old(own).owner[p := Free])
      ensures View() == Vm([p] + old(free), old(table) - {p}, old(data) - {p})
      ensures SameLeaves(old(View()), old(own), View(), own)
    {
      assert UnfoldSound(0);
      GiveInv(View(), own, {}, p);
      free, table, data := [p] + free, table - {p}, data - {p};
      own := own.(owner := own.owner[p := Free]);
    }

    /** *pte = v, for entry i of table page p. */
    method StorePte(p: nat, i: nat, v: nat)
      requires p in table && i < |table[p]|
      modifies this`table
      ensures View() == SetEntry(old(View()), p, i, v)
    {
      var t: seq<nat> := table[p][i := v];
      table := table[p := t];
    }

    /** One level of walk: from table page p of this level to the table below it, creating it if asked. */
    method WalkLevel(ghost r: nat, p: nat, level: nat, vpn: nat, alloc: bool) returns (q: nat)
      requires Valid() && 0 < level <= 2 && vpn < MAXVPN
      requires Key(r, level, Prefix(level, vpn)) in own.at && own.at[Key(r, level, Prefix(level, vpn))] == p
      modifies this
      ensures Valid() && Grows(old(View()), old(own), View(), own, r)
      ensures q != 0 ==>
                && Key(r, level - 1, Prefix(level - 1, vpn)) in own.at
                && own.at[Key(r, level - 1, Prefix(level - 1, vpn))] == q
      ensures q == 0 ==> Key(r, 0, Prefix(0, vpn)) !in own.at && (alloc ==> free == [])
      ensures q == 0 || !alloc ==> View() == old(View()) && own == old(own)
      ensures misses == old(misses) + if q != 0 || !alloc then 0 else 1
    {
      ghost var k := Key(r, level, Prefix(level, vpn));
      var i := Px(level, vpn);
      WalkDown(View(), own, r, level, vpn);
      GrowsReflexive(View(), own, r);
      var pte := table[p][i];
      if V(pte) {
        q := Page(pte);
        TablePage(View(), own, Key(r, level - 1, Prefix(level - 1, vpn)));
      } else if !alloc || free == [] {
        q := 0;
        misses := if alloc then misses + 1 else misses;
      } else {
        GrowOne(View(), own, k, i);
        q := free[0];
        ghost var (m1, o1) := (TakenVm(View()), TakenOwn(View(), own));
        free, table := free[1..], table[q := ZeroTable()];
        StorePte(p, i, MakePte(q, PTE_V));
        own := AttachOwn(o1, k, i, q);
        assert View() == AttachVm(m1, o1, k, i, q);
      }
    }

    /** The table page that holds the leaf entry of vpn, or 0. */
    method Walk(r: nat, vpn: nat, alloc: bool) returns (p: nat)
      requires Valid() && vpn < MAXVPN && Key(r, 2, 0) in own.at
      modifies this
      ensures Valid() && Grows(old(View()), old(own), View(), own, r)
      ensures p != 0 ==> Key(r, 0, Prefix(0, vpn)) in own.at && own.at[Key(r, 0, Prefix(0, vpn))] == p
      ensures p == 0 ==> Key(r, 0, Prefix(0, vpn)) !in own.at && (alloc ==> free == [])
      ensures !alloc ==> View() == old(View()) && own == old(own)
      ensures misses == old(misses) + if p != 0 || !alloc then 0 else 1
    {
      RootPage(View(), own, r);
      GrowsReflexive(View(), own, r);
      p := r;
      var level := 2;
      while level > 0
        invariant level <= 2 && Valid() && Grows(old(View()), old(own), View(), own, r)
        invariant p != 0 && Key(r, level, Prefix(level, vpn)) in own.at
        invariant own.at[Key(r, level, Prefix(level, vpn))] == p
        invariant misses == old(misses) && (!alloc ==> View() == old(View()) && own == old(own))
      {
        ghost var (m1, o1) := (View(), own);
        p := WalkLevel(r, p, level, vpn, alloc);
        GrowsTransitive(old(View()), old(own), m1, o1, View(), own, r);
        if p == 0 {
          return;
        }
        level := level - 1;
      }
    }

    /** One page of mappages. */
    method MapOne(r: nat, v: nat, page: nat, perm: nat) returns (ok: bool)
      requires Valid() && v < MAXVPN && Key(r, 2, 0) in own.at && perm < 1024 && IsLeaf(perm)
      requires !V(Leaf(View(), own, r, v))
      modifies this
      ensures Valid() && Edits(old(View()), old(own), View(), own, r, v, v + 1)
      ensures Leaf(View(), own, r, v) == if ok then MakePte(page, perm) else Leaf(old(View()), old(own), r, v)
      ensures !ok ==> free == []
      ensures misses == old(misses) + if ok then 0 else 1
    {
      var p := Walk(r, v, true);
      ghost var (m1, o1) := (View(), own);
      GrowsEdits(old(View()), old(own), m1, o1, r, v, v + 1);
      GrowsLeaf(old(View()), old(own), m1, o1, r, r, v);
      ok := p != 0;
      if ok {
        var pte := MakePte(page, perm);
        LeafFlags(page, perm);
        InvalidUnowned(m1, o1, r, v, pte);
        SetLeafSound(m1, o1, r, v, pte);
        StorePte(p, Px(0, v), pte);
        EditsTransitive(old(View()), old(own), m1, o1, View(), own, r, v, v + 1, v, v + 1);
      }
    }

    /** Maps n pages from v on to n physical pages from `page` on.  On failure a prefix is mapped. */
    method Mappages(r: nat, v: nat, n: nat, page: nat, perm: nat) returns (ok: bool, ghost done: nat)
      requires Valid() && 0 < n && v + n <= MAXVPN && Key(r, 2, 0) in own.at && perm < 1024 && IsLeaf(perm)
      requires forall j :: v <= j < v + n ==> !V(Leaf(View(), own, r, j))
      modifies this
      ensures Valid() && MappedTo(old(View()), old(own), View(), own, r, v, n, done, page, perm)
      ensures done <= n && (ok <==> done == n) && (!ok ==> free == [])
      ensures misses == old(misses) + if ok then 0 else 1
    {
      var a := 0;
      MappedStart(View(), own, r, v, n, page, perm);
      while true
        invariant misses == old(misses) && a < n && Valid()
        invariant MappedTo(old(View()), old(own), View(), own, r, v, n, a, page, perm)
        decreases n - a
      {
        ghost var (m1, o1) := (View(), own);
        EditsNode(old(View()), old(own), m1, o1, r, v, v + n, Key(r, 2, 0));
        MappedLeaf(old(View()), old(own), m1, o1, r, v, n, a, page, perm, v + a);
        ok := MapOne(r, v + a, page + a, perm);
        MappedNext(old(View()), old(own), m1, o1, View(), own, r, v, n, a, page, perm, ok);
        done := if ok then a + 1 else a;
        if !ok {
          return;
        }
        if a == n - 1 {
          break;
        }
        a := a + 1;
      }
    }

    /** One page of uvmunmap. */
    method UnmapOne(r: nat, v: nat, doFree: bool)
      requires Valid() && v < MAXVPN && Key(r, 2, 0) in own.at && V(Leaf(View(), own, r, v))
      requires if doFree then OwnsPage(View(), own, r, v) else NoPageOwned(own, r, v)
      modifies this
      ensures Valid() && Unmaps(old(View()), old(own), View(), own, r, v, v + 1)
      ensures misses == old(misses)
    {
      var t := Walk(r, v, false);
      ValidLeaf(View(), own, r, v);
      var pte := table[t][Px(0, v)];
      if doFree {
        FreeMapped(View(), own, r, v);
        FreedUnowned(View(), own, own.(owner := own.owner[Page(pte) := Free]), r, v);
        OwnersUnique(View(), own, r, v);
        own := own.(owner := own.owner[Page(pte) := Held]);
        Kfree(Page(pte));
      }
      ghost var (m1, o1) := (View(), own);
      ClearLeaf(m1, o1, r, v);
      StorePte(t, Px(0, v), 0);
      if doFree {
        FreeThenClear(old(View()), old(own), m1, o1, View(), r, v);
      }
    }

    /** Unmaps n pages that are all mapped; with doFree also frees the pages the mappings own. */
    method Uvmunmap(r: nat, v: nat, n: nat, doFree: bool)
      requires Valid() && v + n <= MAXVPN && Key(r, 2, 0) in own.at
      requires forall j :: v <= j < v + n ==> V(Leaf(View(), own, r, j))
      requires forall j :: v <= j < v + n ==> if doFree then OwnsPage(View(), own, r, j) else NoPageOwned(own, r, j)
      modifies this
      ensures Valid() && Unmaps(old(View()), old(own), View(), own, r, v, v + n)
      ensures misses == old(misses)
    {
      var a := v;
      UnmapsNothing(View(), own, r, v);
      while a < v + n
        invariant v <= a <= v + n && misses == old(misses)
        invariant Valid() && Unmaps(old(View()), old(own), View(), own, r, v, a)
      {
        ghost var (m1, o1) := (View(), own);
        UnmapsLeaf(old(View()), old(own), m1, o1, r, v, a, r, a);
        UnmapsKeeps(old(View()), old(own), m1, o1, r, v, a, r, a);
        UnmapOne(r, a, doFree);
        UnmapsTransitive(old(View()), old(own), m1, o1, View(), own, r, v, a, a + 1);
        a := a + 1;
      }
    }

    /** kalloc a page, fill it and map it at v; on failure everything taken is given back. */
    method AllocPage(r: nat, v: nat, perm: nat, bytes: seq<Byte>, ghost c: map<nat, (nat, seq<Byte>)>)
      returns (ok: bool)
      requires Valid() && v < MAXVPN && Key(r, 2, 0) in own.at && perm < 1024 && IsLeaf(perm) && |bytes| == PGSIZE
      requires !V(Leaf(View(), own, r, v)) && v in c && c[v] == (perm, bytes)
      modifies this
      ensures Valid()
      ensures ok ==> Allocs(old(View()), old(own), View(), own, r, v, v + 1, c)
      ensures !ok ==> Grows(old(View()), old(own), View(), own, r)
      ensures misses == old(misses) + if ok then 0 else 1
    {
      GrowsReflexive(View(), own, r);
      var p := Kalloc();
      if p == 0 {
        return false;
      }
      FillHeld(View(), own, p, bytes);
      data := data[p := bytes];
      ghost var (m2, o2) := (View(), own);
      ok := MapOne(r, v, p, perm);
      ghost var (m3, o3) := (View(), own);
      EditsHeld(m2, o2, m3, o3, r, v, v + 1, p);
      if !ok {
        Kfree(p);
        AllocatedNone(old(View()), old(own), m2, o2, m3, o3, View(), own, p, r, v);
      } else {
        Claim(m3, o3, p, r, v);
        own := own.(owner := own.owner[p := User(r, v)]);
        AllocatedOne(old(View()), old(own), m2, o2, m3, o3, own, p, r, v, c);
      }
    }

    /** An empty tree, or 0 if there is no page for its root. */
    method Uvmcreate() returns (r: nat)
      requires Valid()
      modifies this
      ensures Valid() && (r == 0 <==> old(free) == [])
      ensures r == 0 ==> View() == old(View()) && own == old(own)
      ensures r != 0 ==>
                Key(r, 2, 0) in own.at && Key(r, 2, 0) !in old(own).at && Grows(old(View()), old(own), View(), own, r)
      ensures misses == old(misses) + if r != 0 then 0 else 1
    {
      r := 0;
      misses := if free == [] then misses + 1 else misses;
      if free != [] {
        Planted(View(), own);
        r := free[0];
        ghost var o1 := TakenOwn(View(), own);
        free, table := free[1..], table[r := ZeroTable()];
        own := RootOwn(o1, r);
      }
    }

    /** One entry of freewalk. */
    method FreeBelow(ghost k: Key, p: nat, i: nat, ghost m0: Vm, ghost o0: Own)
      requires i < NPTE && Freeing(m0, o0, k, p, i)
      modifies this`free, this`table, this`data, this`own
      ensures Freeing(m0, o0, k, p, i + 1)
      decreases k.level, 0
    {
      NoLeavesKept(m0, o0, View(), own, k, i);
      EntryKind(View(), own, k, i);
      var pte := table[p][i];
      if V(pte) && !IsLeaf(pte) {
        ghost var (m1, o1) := (View(), own);
        NoLeavesBelow(m1, o1, k, i);
        Freewalk(Child(k, i), Page(pte));
        ghost var (m2, o2) := (View(), own);
        NotUnderChild(m1, o1, m2, o2, k, i);
        assert Sound(SetEntry(m2, o2.at[k], i, 0), o2, {}) && SameLeaves(m2, o2, SetEntry(m2, o2.at[k], i, 0), o2) by {
          assert UnfoldSound(0);
          UnlinkInv(m2, o2, k, i);
        }
        StorePte(p, i, 0);
        ClearEntry(m0, o0, m1, o1, m2, o2, k, i);
      } else {
        SkipEntry(m0, o0, View(), own, k, i);
      }
    }

    /** freewalk of table k has dealt with the entries before i. */
    ghost predicate Freeing(m0: Vm, o0: Own, k: Key, p: nat, i: nat)
      reads this
    {
      true == (
        && Valid() && k in own.at && own.at[k] == p && k.level <= 2 && i <= NPTE
        && Sound(m0, o0, {}) && NoLeaves(m0, o0, k) && FreesBelow(m0, o0, View(), own, k, i))
    }

    method FreeAllBelow(ghost k: Key, p: nat, ghost m0: Vm, ghost o0: Own)
      requires Freeing(m0, o0, k, p, 0)
      modifies this`free, this`table, this`data, this`own
      ensures Freeing(m0, o0, k, p, NPTE)
      decreases k.level, 1
    {
      for i := 0 to NPTE
        invariant Freeing(m0, o0, k, p, i)
      {
        FreeBelow(k, p, i, m0, o0);
      }
    }

    /** Frees the table pages of a subtree that maps nothing.  The entry that led to it is left to the caller. */
    method Freewalk(ghost k: Key, p: nat)
      requires Valid() && k in own.at && own.at[k] == p && k.level <= 2 && NoLeaves(View(), own, k)
      modifies this`free, this`table, this`data, this`own
      ensures Sound(View(), own, {k}) && Frees(old(View()), old(own), View(), own, k)
      decreases k.level, 2
    {
      FreesBelowNothing(View(), own, k, 0);
      FreeAllBelow(k, p, View(), own);
      FreeTable(k, p, old(View()), old(own));
    }

    /** kfree of a table page that has no valid entry left. */
    method FreeTable(ghost k: Key, p: nat, ghost m0: Vm, ghost o0: Own)
      requires Freeing(m0, o0, k, p, NPTE)
      modifies this`free, this`table, this`data, this`own
      ensures Sound(View(), own, {k}) && Frees(m0, o0, View(), own, k)
    {
      Drop(m0, o0, View(), own, k);
      own := DroppedOwn(own, k);
      free, table, data := [p] + free, table - {p}, data - {p};
    }

    /** Frees the pages below sz and the tables of a tree that maps nothing else. */
    method Uvmfree(r: nat, sz: nat)
      requires Valid() && Key(r, 2, 0) in own.at && Pages(sz) <= MAXVPN
      requires forall v: nat :: v < Pages(sz) ==> V(Leaf(View(), own, r, v)) && OwnsPage(View(), own, r, v)
      requires forall v: nat :: Pages(sz) <= v ==> !V(Leaf(View(), own, r, v))
      modifies this
      ensures Valid() && Destroys(old(View()), old(own), View(), own, r)
      ensures misses == old(misses)
    {
      RootPage(View(), own, r);
      UnmapsNothing(View(), own, r, 0);
      if sz > 0 {
        Uvmunmap(r, 0, Pages(sz), true);
      }
      ghost var (m1, o1) := (View(), own);
      UnmapsTreeOnly(old(View()), old(own), m1, o1, r, 0, Pages(sz));
      forall v: nat ensures !V(Leaf(m1, o1, r, v)) {
        UnmapsLeaf(old(View()), old(own), m1, o1, r, 0, Pages(sz), r, v);
      }
      BareTree(m1, o1, r);
      Freewalk(Key(r, 2, 0), r);
      RootDetached(View(), own, r);
      Destroyed(m1, o1, View(), own, r);
      DestroysAfter(old(View()), old(own), m1, o1, View(), own, r);
    }

    /** Shrinks from oldsz to newsz bytes, freeing the pages beyond; never grows. */
    method Uvmdealloc(r: nat, oldsz: nat, newsz: nat) returns (sz: nat)
      requires Valid() && Key(r, 2, 0) in own.at && Pages(oldsz) <= MAXVPN
      requires newsz < oldsz ==> OwnsRange(View(), own, r, Pages(newsz), Pages(oldsz))
      modifies this
      ensures Valid() && sz == if newsz < oldsz then newsz else oldsz
      ensures Unmaps(old(View()), old(own), View(), own, r, Pages(sz), Pages(oldsz))
      ensures misses == old(misses)
    {
      UnmapsNothing(View(), own, r, Pages(oldsz));
      if newsz >= oldsz {
        return oldsz;
      }
      if Pages(newsz) < Pages(oldsz) {
        Uvmunmap(r, Pages(newsz), Pages(oldsz) - Pages(newsz), true);
      }
      return newsz;
    }

    /** Grows from oldsz to newsz bytes with zeroed pages; on failure every page taken for them is free again. */
    method Uvmalloc(r: nat, oldsz: nat, newsz: nat, xperm: nat) returns (sz: nat)
      requires Valid() && Key(r, 2, 0) in own.at && Pages(newsz) <= MAXVPN && xperm in {0, PTE_W, PTE_X, PTE_W + PTE_X}
      requires Unmapped(View(), own, r, Pages(oldsz), Pages(newsz))
      modifies this
      ensures Valid()
      ensures newsz < oldsz ==> sz == oldsz && View() == old(View()) && own == old(own) && misses == old(misses)
      ensures newsz >= oldsz && misses == old(misses) ==>
                var (lo, hi) := (Pages(oldsz), Pages(newsz));
                var c := ZeroPages(lo, hi, PTE_R + PTE_U + xperm);
                sz == newsz && Allocs(old(View()), old(own), View(), own, r, lo, hi, c)
      ensures misses != old(misses) ==> sz == 0 && Grows(old(View()), old(own), View(), own, r)
    {
      if newsz < oldsz {
        return oldsz;
      }
      var (lo, perm) := (Pages(oldsz), PTE_R + PTE_U + xperm);
      GrowsReflexive(View(), own, r);
      AllocsNothing(View(), own, View(), own, r, lo, ZeroPages(lo, Pages(newsz), perm));
      var ok := AllocRange(r, lo, newsz, perm, ZeroPages(lo, Pages(newsz), perm), View(), own);
      return if ok then newsz else 0;
    }

    /** The loop of uvmalloc. */
    method AllocRange(r: nat, lo: nat, newsz: nat, perm: nat,
                      ghost c: map<nat, (nat, seq<Byte>)>, ghost m0: Vm, ghost o0: Own)
      returns (ok: bool)
      requires Valid() && Key(r, 2, 0) in own.at && lo <= Pages(newsz) <= MAXVPN && perm < 1024 && IsLeaf(perm)
      requires m0 == View() && o0 == own && Unmapped(m0, o0, r, lo, Pages(newsz))
      requires Allocs(m0, o0, m0, o0, r, lo, lo, c)
      requires forall v :: lo <= v < Pages(newsz) ==> v in c && c[v] == (perm, ZeroPage())
      modifies this
      ensures Valid()
      ensures ok ==> Allocs(m0, o0, View(), own, r, lo, Pages(newsz), c)
      ensures !ok ==> Grows(m0, o0, View(), own, r)
      ensures misses == old(misses) + if ok then 0 else 1
    {
      var a := lo;
      while a * PGSIZE < newsz
        invariant lo <= a <= Pages(newsz) && misses == old(misses)
        invariant Valid() && Allocs(m0, o0, View(), own, r, lo, a, c)
      {
        ok := AllocNext(r, lo, a, perm, ZeroPage(), m0, o0, c);
        if !ok {
          AllocUndo(r, lo, a, m0, o0, c);
          return;
        }
        a := a + 1;
      }
      ok := true;
    }

    /** The call of uvmdealloc on uvmalloc's failure paths. */
    method AllocUndo(r: nat, lo: nat, a: nat, ghost m0: Vm, ghost o0: Own, ghost c: map<nat, (nat, seq<Byte>)>)
      requires Valid() && lo <= a <= MAXVPN && Key(r, 2, 0) in own.at
      requires Sound(m0, o0, {}) && Unmapped(m0, o0, r, lo, a) && Allocs(m0, o0, View(), own, r, lo, a, c)
      modifies this
      ensures Valid() && Grows(m0, o0, View(), own, r)
      ensures misses == old(misses)
    {
      AllocsOwns(m0, o0, View(), own, r, lo, a, c);
      ghost var (m1, o1) := (View(), own);
      var _ := Uvmdealloc(r, a * PGSIZE, lo * PGSIZE);
      AllocsThenUnmaps(m0, o0, m1, o1, View(), own, r, lo, a, c);
    }

    /** One more page in a range that is being allocated. */
    method AllocNext(r: nat, ghost lo: nat, a: nat, perm: nat, bytes: seq<Byte>,
                     ghost m0: Vm, ghost o0: Own, ghost c: map<nat, (nat, seq<Byte>)>)
      returns (ok: bool)
      requires Valid() && lo <= a < MAXVPN && NodesOk(m0, o0) && Key(r, 2, 0) in o0.at && perm < 1024 && IsLeaf(perm)
      requires |bytes| == PGSIZE
      requires Allocs(m0, o0, View(), own, r, lo, a, c) && !V(Leaf(m0, o0, r, a)) && a in c && c[a] == (perm, bytes)
      modifies this
      ensures Valid() && Key(r, 2, 0) in own.at && Allocs(m0, o0, View(), own, r, lo, if ok then a + 1 else a, c)
      ensures misses == old(misses) + if ok then 0 else 1
    {
      ghost var (m1, o1) := (View(), own);
      AllocsNode(m0, o0, m1, o1, r, lo, a, c, Key(r, 2, 0));
      AllocsOutside(m0, o0, m1, o1, r, lo, a, c, r, a);
      ok := AllocPage(r, a, perm, bytes, c);
      if ok {
        AllocsTransitive(m0, o0, m1, o1, View(), own, r, lo, a, a + 1, c);
      } else {
        AllocsThenGrows(m0, o0, m1, o1, View(), own, r, lo, a, c);
      }
      AllocsNode(m0, o0, View(), own, r, lo, if ok then a + 1 else a, c, Key(r, 2, 0));
    }

    /** Gives the new tree copies of the pages of the old one below sz: same flags, same bytes, other pages. */
    method Uvmcopy(r: nat, r': nat, sz: nat) returns (ok: bool)
      requires Valid() && Key(r, 2, 0) in own.at && Key(r', 2, 0) in own.at && r != r' && Pages(sz) <= MAXVPN
      requires OwnsRange(View(), own, r, 0, Pages(sz)) && Unmapped(View(), own, r', 0, Pages(sz))
      modifies this
      ensures Valid()
      ensures ok ==>
                var c := Contents(old(View()), old(own), r, 0, Pages(sz));
                Allocs(old(View()), old(own), View(), own, r', 0, Pages(sz), c)
      ensures !ok ==> Grows(old(View()), old(own), View(), own, r')
      ensures misses == old(misses) + if ok then 0 else 1
    {
      ghost var c := Contents(View(), own, r, 0, Pages(sz));
      GrowsReflexive(View(), own, r');
      var i := 0;
      AllocsNothing(View(), own, View(), own, r', i, c);
      while i * PGSIZE < sz
        invariant misses == old(misses) && 0 <= i <= Pages(sz) && Valid()
        invariant Allocs(old(View()), old(own), View(), own, r', 0, i, c)
      {
        ok := CopyPage(r, r', i, old(View()), old(own), c);
        if !ok {
          AllocsOwns(old(View()), old(own), View(), own, r', 0, i, c);
          ghost var (m1, o1) := (View(), own);
          Uvmunmap(r', 0, i, true);
          AllocsThenUnmaps(old(View()), old(own), m1, o1, View(), own, r', 0, i, c);
          return;
        }
        i := i + 1;
      }
      ok := true;
    }

    /** One page of uvmcopy. */
    method CopyPage(r: nat, r': nat, i: nat, ghost m0: Vm, ghost o0: Own, ghost c: map<nat, (nat, seq<Byte>)>)
      returns (ok: bool)
      requires Valid() && Sound(m0, o0, {}) && Key(r, 2, 0) in o0.at && Key(r', 2, 0) in o0.at && r != r' && i < MAXVPN
      requires Allocs(m0, o0, View(), own, r', 0, i, c)
      requires V(Leaf(m0, o0, r, i)) && OwnsPage(m0, o0, r, i) && !V(Leaf(m0, o0, r', i))
      requires i in c && c[i] == (Flags(Leaf(m0, o0, r, i)), Bytes(m0, Page(Leaf(m0, o0, r, i))))
      modifies this
      ensures Valid() && Key(r', 2, 0) in own.at && Allocs(m0, o0, View(), own, r', 0, if ok then i + 1 else i, c)
      ensures misses == old(misses) + if ok then 0 else 1
    {
      AllocsNode(m0, o0, View(), own, r', 0, i, c, Key(r, 2, 0));
      AllocsOther(m0, o0, View(), own, r', 0, i, c, r, i);
      OwnedData(View(), own, r, i);
      ValidLeaf(View(), own, r, i);
      var t := Walk(r, i, false);
      var pte := table[t][Px(0, i)];
      ok := AllocNext(r', 0, i, Flags(pte), data[Page(pte)], m0, o0, c);
    }

    /** A call of mappages for a single page. */
    method MapFixed(r: nat, v: nat, page: nat, perm: nat) returns (ok: bool)
      requires Valid() && v < MAXVPN && Key(r, 2, 0) in own.at && perm < 1024 && IsLeaf(perm)
      requires !V(Leaf(View(), own, r, v))
      modifies this
      ensures Valid() && Edits(old(View()), old(own), View(), own, r, v, v + 1)
      ensures Leaf(View(), own, r, v) == if ok then MakePte(page, perm) else Leaf(old(View()), old(own), r, v)
      ensures misses == old(misses) + if ok then 0 else 1
    {
      ghost var done;
      ok, done := Mappages(r, v, 1, page, perm);
      MappedLeaf(old(View()), old(own), View(), own, r, v, 1, done, page, perm, v);
    }

    /** Frees a new tree that maps nothing; no trace of it is left. */
    method Abandon(r: nat, ghost m0: Vm, ghost o0: Own)
      requires Valid() && Sound(m0, o0, {}) && Key(r, 2, 0) !in o0.at && NewTree(m0, o0, View(), own, r)
      requires Leaf(View(), own, r, TRAMPOLINE) == 0 && Leaf(View(), own, r, TRAPFRAME) == 0
      modifies this
      ensures Valid() && own.owner == o0.owner && SameData(m0, View(), own) && SameLeaves(m0, o0, View(), own)
      ensures misses == old(misses)
    {
      ghost var (m1, o1) := (View(), own);
      Uvmfree(r, 0);
      DestroysAfter(m0, o0, m1, o1, View(), own, r);
      MadeAndDestroyed(m0, o0, View(), own, r);
    }

    /** A page table with only the trampoline and the trapframe, or 0 and every page as before. */
    method ProcPagetable(trampoline: nat, trapframe: nat) returns (r: nat)
      requires Valid()
      modifies this
      ensures Valid()
      ensures r != 0 ==>
                TreeOnly(old(View()), old(own), View(), own, r) && ProcTree(View(), own, r, 0, trampoline, trapframe)
      ensures r == 0 ==>
                && own.owner == old(own).owner && SameData(old(View()), View(), own)
                && SameLeaves(old(View()), old(own), View(), own)
      ensures misses == old(misses) + if r != 0 then 0 else 1
    {
      ghost var (m0, o0) := (View(), own);
      r := Uvmcreate();
      if r == 0 {
        return;
      }
      NewTreeMade(m0, o0, View(), own, r);
      ghost var (m1, o1) := (View(), own);
      var ok := MapFixed(r, TRAMPOLINE, trampoline, PTE_R + PTE_X);
      NewTreeMapped(m0, o0, m1, o1, View(), own, r, TRAMPOLINE);
      EditsLeaf(m1, o1, View(), own, r, TRAMPOLINE, TRAMPOLINE + 1, r, TRAPFRAME);
      if !ok {
        Abandon(r, m0, o0);
        return 0;
      }
      ok := MapTrapframe(r, trampoline, trapframe, m0, o0);
      if !ok {
        return 0;
      }
    }

    /** The second mapping of proc_pagetable. */
    method MapTrapframe(r: nat, ghost trampoline: nat, trapframe: nat, ghost m0: Vm, ghost o0: Own) returns (ok: bool)
      requires Valid() && Sound(m0, o0, {}) && Key(r, 2, 0) !in o0.at && NewTree(m0, o0, View(), own, r)
      requires Leaf(View(), own, r, TRAMPOLINE) == MakePte(trampoline, PTE_R + PTE_X)
      requires Leaf(View(), own, r, TRAPFRAME) == 0
      modifies this
      ensures Valid()
      ensures ok ==> TreeOnly(m0, o0, View(), own, r) && ProcTree(View(), own, r, 0, trampoline, trapframe)
      ensures !ok ==> own.owner == o0.owner && SameData(m0, View(), own) && SameLeaves(m0, o0, View(), own)
      ensures misses == old(misses) + if ok then 0 else 1
    {
      ghost var (m1, o1) := (View(), own);
      ok := MapFixed(r, TRAPFRAME, trapframe, PTE_R + PTE_W);
      ghost var (m2, o2) := (View(), own);
      NewTreeMapped(m0, o0, m1, o1, m2, o2, r, TRAPFRAME);
      EditsLeaf(m1, o1, m2, o2, r, TRAPFRAME, TRAPFRAME + 1, r, TRAMPOLINE);
      if ok {
        NewTreeDone(m0, o0, m2, o2, r, trampoline, trapframe);
      } else {
        Uvmunmap(r, TRAMPOLINE, 1, false);
        NewTreeUnmapped(m0, o0, m2, o2, View(), own, r, TRAMPOLINE);
        UnmapsLeaf(m2, o2, View(), own, r, TRAMPOLINE, TRAMPOLINE + 1, r, TRAMPOLINE);
        UnmapsLeaf(m2, o2, View(), own, r, TRAMPOLINE, TRAMPOLINE + 1, r, TRAPFRAME);
        Abandon(r, m0, o0);
      }
    }

    /** Frees a process's page table and memory: every page the tree had is free, and no other page is touched. */
    method ProcFreepagetable(r: nat, sz: nat, ghost trampoline: nat, ghost trapframe: nat)
      requires Valid() && ProcTree(View(), own, r, sz, trampoline, trapframe)
      modifies this
      ensures Valid() && Destroys(old(View()), old(own), View(), own, r)
    {
      ProcTreeSpecial(View(), own, r, sz, trampoline, trapframe);
      Uvmunmap(r, TRAMPOLINE, 1, false);
      ghost var (m1, o1) := (View(), own);
      UnmapsLeaf(old(View()), old(own), m1, o1, r, TRAMPOLINE, TRAMPOLINE + 1, r, TRAPFRAME);
      UnmapsKeeps(old(View()), old(own), m1, o1, r, TRAMPOLINE, TRAMPOLINE + 1, r, TRAPFRAME);
      Uvmunmap(r, TRAPFRAME, 1, false);
      ghost var (m2, o2) := (View(), own);
      UnmapsTwo(old(View()), old(own), m1, o1, m2, o2, r, TRAPFRAME);
      UnmapsTreeOnly(old(View()), old(own), m2, o2, r, TRAPFRAME, TRAMPOLINE + 1);
      ProcTreeStripped(old(View()), old(own), m2, o2, r, sz, trampoline, trapframe);
      Uvmfree(r, sz);
      DestroysAfter(old(View()), old(own), m2, o2, View(), own, r);
    }
  }
}
