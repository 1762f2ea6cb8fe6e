/**
 Creating the root of a page-table tree and tearing a tree down (uvmcreate and freewalk
 of kernel/vm.c).
 */
module VmTree {
  import opened Blocks
  import opened VmState
  import opened VmEffects

  predicate UnfoldNoLeaves(u: int) { true }
  predicate UnfoldFrees(u: int) { true }
  predicate UnfoldFreesBelow(u: int) { true }

  function RootOwn(o: Own, p: nat): Own {
    Own(o.at[Key(p, 2, 0) := p], o.owner[p := Node(Key(p, 2, 0))])
  }

  lemma RootInv(m: Vm, o: Own, p: nat)
    requires Inv(m, o, {}) && p in o.owner && o.owner[p] == Held && p in m.table && m.table[p] == ZeroTable()
    ensures Inv(m, RootOwn(o, p), {}) && SameLeaves(m, o, m, RootOwn(o, p))
  {
    var (k, o') := (Key(p, 2, 0), RootOwn(o, p));
    assert k !in o.at;
    assert NodesOk(m, o');
    forall k', i | k' in o.at && 0 <= i < NPTE ensures Entry(m, o', k', i) == Entry(m, o, k', i) {
    }
    forall i | 0 <= i < NPTE ensures Child(k, i) !in o.at {
      assert Parent(Child(k, i)) == k;
    }
    assert LinksOk(m, o', {}) by { RootLinks(m, o, p); }
    assert SameLeaves(m, o, m, o');
    assert LeavesOk(m, o');
    RootOwners(m, o, p);
  }

  lemma RootOwners(m: Vm, o: Own, p: nat)
    requires NodesOk(m, o) && OwnersOk(m, o) && FreeOk(m, o) && NodesOk(m, RootOwn(o, p))
    requires SameLeaves(m, o, m, RootOwn(o, p))
    requires p in o.owner && o.owner[p] == Held && Key(p, 2, 0) !in o.at
    ensures OwnersOk(m, RootOwn(o, p)) && FreeOk(m, RootOwn(o, p))
  {
  }

  lemma RootLinks(m: Vm, o: Own, p: nat)
    requires NodesOk(m, o) && NodesOk(m, RootOwn(o, p)) && LinksOk(m, o, {}) && Key(p, 2, 0) !in o.at
    requires p in m.table && m.table[p] == ZeroTable() && forall i :: 0 <= i < NPTE ==> Child(Key(p, 2, 0), i) !in o.at
    ensures LinksOk(m, RootOwn(o, p), {})
  {
  }

  /** kalloc and memset: an empty tree. */
  lemma Planted(m: Vm, o: Own)
    requires Sound(m, o, {}) && m.free != []
    ensures var (p, m', o') := (m.free[0], TakenVm(m), RootOwn(TakenOwn(m, o), m.free[0]));
            p != 0 && Key(p, 2, 0) !in o.at && Sound(m', o', {}) && Grows(m, o, m', o', p)
  {
    var (p, m', o') := (m.free[0], TakenVm(m), RootOwn(TakenOwn(m, o), m.free[0]));
    assert p != 0 && p in o.owner && o.owner[p] == Free && Sound(m', o', {}) && SameLeaves(m, o, m', o') by {
      assert UnfoldSound(0);
      TakeZeroed(m, o);
      RootInv(TakenVm(m), TakenOwn(m, o), p);
    }
    assert forall k :: k in o.at ==> o.at[k] != p;
  }

  /** The table at the given level, at or above k, that k hangs from. */
  function Above(k: Key, level: nat): Key
    requires k.level <= level <= 2
    decreases level - k.level
  {
    if k.level == level then k else Above(Parent(k), level)
  }

  predicate Under(k': Key, k: Key) {
    k'.level <= k.level <= 2 && Above(k', k.level) == k
  }

  /** k' hangs below one of the first n entries of k. */
  predicate Below(k': Key, k: Key, n: nat) {
    k'.level < k.level <= 2 && Above(k', k.level) == k && Above(k', k.level - 1).x % NPTE < n
  }

  lemma AboveStep(k': Key, level: nat)
    requires k'.level < level <= 2
    ensures Above(k', level) == Parent(Above(k', level - 1))
    decreases level - k'.level
  {
    if k'.level + 1 < level { AboveStep(Parent(k'), level); }
  }

  lemma AboveLevel(k': Key, level: nat)
    requires k'.level <= level <= 2
    ensures Above(k', level).level == level && Above(k', level).r == k'.r
    decreases level - k'.level
  {
    if k'.level < level { AboveLevel(Parent(k'), level); }
  }

  lemma BelowNext(k': Key, k: Key, i: nat)
    requires 0 < k.level <= 2 && i < NPTE
    ensures Below(k', k, i + 1) <==> Below(k', k, i) || Under(k', Child(k, i))
    ensures Under(k', Child(k, i)) ==> !Below(k', k, i)
  {
    if k'.level < k.level {
      AboveStep(k', k.level);
      AboveLevel(k', k.level - 1);
    }
  }

  lemma BelowAll(k': Key, k: Key)
    requires k.level <= 2
    ensures Under(k', k) <==> k' == k || Below(k', k, NPTE)
  {
    if k'.level < k.level {
      AboveStep(k', k.level);
      AboveLevel(k', k.level - 1);
    }
  }

  lemma {:induction false} UnderPresent(o: Own, k': Key, k: Key)
    requires ParentsOk(o) && k' in o.at && Under(k', k)
    ensures k in o.at
    decreases k.level - k'.level
  {
    if k'.level < k.level { UnderPresent(o, Parent(k'), k); }
  }

  /** No valid leaf entry in the subtree of k. */
  ghost predicate NoLeaves(m: Vm, o: Own, k: Key)
    requires NodesOk(m, o)
  {
    forall u {:trigger UnfoldNoLeaves(u)} :: UnfoldNoLeaves(u) ==>
      forall k', i :: k' in o.at && k'.level == 0 && Under(k', k) && 0 <= i < NPTE ==> !V(Entry(m, o, k', i))
  }

  /** Exactly the tables under k, or below its first n entries, are gone. */
  ghost predicate TablesWithout(o: Own, o': Own, k: Key, all: bool, n: nat) {
    && (forall k' :: k' in o'.at <==> k' in o.at && !Gone(k', k, all, n))
    && (forall k' :: k' in o'.at ==> o'.at[k'] == o.at[k'])
  }

  predicate Gone(k': Key, k: Key, all: bool, n: nat) {
    if all then Under(k', k) else Below(k', k, n)
  }

  /** Their pages are free, and no other page changes hands. */
  ghost predicate PagesWithout(o: Own, o': Own, k: Key, all: bool, n: nat) {
    && o'.owner.Keys == o.owner.Keys
    && forall p :: p in o.owner ==>
         o'.owner[p] == if o.owner[p].Node? && Gone(o.owner[p].key, k, all, n) then Free else o.owner[p]
  }

  ghost predicate SameData(m: Vm, m': Vm, o': Own) {
    forall p :: p in o'.owner && !o'.owner[p].Free? ==>
      (p in m.data <==> p in m'.data) && (p in m.data ==> m'.data[p] == m.data[p])
  }

  ghost predicate SameTablesBut(m: Vm, m': Vm, o': Own, k: Key) {
    forall k' :: k' in o'.at && k' != k ==>
      o'.at[k'] in m.table && o'.at[k'] in m'.table && m'.table[o'.at[k']] == m.table[o'.at[k']]
  }

  /** The pages of the subtree of k are free; no translation and no other table or page changes. */
  ghost predicate Frees(m: Vm, o: Own, m': Vm, o': Own, k: Key) {
    && NodesOk(m, o) && NodesOk(m', o')
    && forall u {:trigger UnfoldFrees(u)} :: UnfoldFrees(u) ==>
      && SameLeaves(m, o, m', o')
      && TablesWithout(o, o', k, true, 0) && PagesWithout(o, o', k, true, 0)
      && SameTablesBut(m, m', o', k) && SameData(m, m', o')
  }

  /** The same for what hangs below the first n entries of k, which are cleared. */
  ghost predicate FreesBelow(m: Vm, o: Own, m': Vm, o': Own, k: Key, n: nat) {
    true == (
      && NodesOk(m, o) && NodesOk(m', o') && k in o.at && k in o'.at && o'.at[k] == o.at[k]
      && forall u {:trigger UnfoldFreesBelow(u)} :: UnfoldFreesBelow(u) ==>
        && SameLeaves(m, o, m', o')
        && TablesWithout(o, o', k, false, n) && PagesWithout(o, o', k, false, n)
        && SameTablesBut(m, m', o', k) && SameData(m, m', o')
        && Cleared(m, o, m', o', k, n))
  }

  ghost predicate Cleared(m: Vm, o: Own, m': Vm, o': Own, k: Key, n: nat)
    requires NodesOk(m, o) && NodesOk(m', o') && k in o.at && k in o'.at
  {
    forall i :: 0 <= i < NPTE ==> if i < n then !V(Entry(m', o', k, i)) else Entry(m', o', k, i) == Entry(m, o, k, i)
  }

  lemma ClearOne(m: Vm, o: Own, m1: Vm, o1: Own, m3: Vm, o2: Own, k: Key, i: nat)
    requires NodesOk(m, o) && NodesOk(m1, o1) && NodesOk(m3, o2) && k in o.at && k in o1.at && k in o2.at && i < NPTE
    requires Cleared(m, o, m1, o1, k, i) && m3.table[o2.at[k]] == m1.table[o1.at[k]][i := 0]
    ensures Cleared(m, o, m3, o2, k, i + 1)
  {
    assert forall j :: 0 <= j < NPTE ==> Entry(m3, o2, k, j) == if j == i then 0 else Entry(m1, o1, k, j);
  }

  lemma FreesBelowNothing(m: Vm, o: Own, k: Key, i: nat)
    requires NodesOk(m, o) && k in o.at && i == 0
    ensures FreesBelow(m, o, m, o, k, i)
  {
  }

  /** What freewalk finds at an entry. */
  lemma EntryKind(m: Vm, o: Own, k: Key, i: nat)
    requires Sound(m, o, {}) && k in o.at && NoLeaves(m, o, k) && i < NPTE
    ensures var e := Entry(m, o, k, i);
            && (V(e) ==> !IsLeaf(e) && k.level > 0 && Child(k, i) in o.at && o.at[Child(k, i)] == Page(e))
            && (!V(e) && k.level > 0 ==> Child(k, i) !in o.at)
  {
    assert UnfoldSound(0) && UnfoldNoLeaves(0);
    var e := Entry(m, o, k, i);
    if k.level == 0 {
      assert Under(k, k);
    } else if V(e) {
      PlainLink(o.at[Child(k, i)]);
    }
  }

  lemma PlainLink(p: nat)
    ensures !IsLeaf(MakePte(p, PTE_V))
  {
  }

  lemma NoLeavesBelow(m: Vm, o: Own, k: Key, i: nat)
    requires NodesOk(m, o) && NoLeaves(m, o, k) && 0 < k.level <= 2 && i < NPTE
    ensures NoLeaves(m, o, Child(k, i))
  {
    assert UnfoldNoLeaves(0);
    forall k' | Under(k', Child(k, i)) ensures Under(k', k) {
      AboveStep(k', k.level);
    }
  }

  lemma NoLeavesKept(m: Vm, o: Own, m': Vm, o': Own, k: Key, n: nat)
    requires FreesBelow(m, o, m', o', k, n) && NoLeaves(m, o, k) && n <= NPTE
    ensures NoLeaves(m', o', k)
  {
    assert UnfoldFreesBelow(0) && UnfoldNoLeaves(0);
    forall k', i | k' in o'.at && k'.level == 0 && Under(k', k) && 0 <= i < NPTE ensures !V(Entry(m', o', k', i)) {
      assert !V(Entry(m, o, k', i));
      if k' != k { assert Entry(m', o', k', i) == Entry(m, o, k', i); }
    }
  }

  /** An empty entry has nothing below it. */
  lemma SkipEntry(m: Vm, o: Own, m': Vm, o': Own, k: Key, i: nat)
    requires FreesBelow(m, o, m', o', k, i) && Sound(m', o', {}) && k.level <= 2 && i < NPTE
    requires !V(Entry(m', o', k, i)) && (k.level > 0 ==> Child(k, i) !in o'.at)
    requires Sound(m, o, {})
    ensures FreesBelow(m, o, m', o', k, i + 1)
  {
    assert forall k' :: k' in o.at ==> (Below(k', k, i + 1) <==> Below(k', k, i)) by {
      assert UnfoldFreesBelow(0);
      forall k' | k' in o.at ensures Below(k', k, i + 1) <==> Below(k', k, i) {
        if k.level > 0 {
          BelowNext(k', k, i);
          if k' in o'.at && Under(k', Child(k, i)) {
            assert ParentsOk(o') by { assert UnfoldSound(0); }
            UnderPresent(o', k', Child(k, i));
          }
        }
      }
    }
    assert forall p :: p in o.owner && o.owner[p].Node? ==> o.owner[p].key in o.at by { assert UnfoldSound(0); }
    assert UnfoldFreesBelow(0);
  }

  /** Clearing the entry of a table that is gone. */
  lemma UnlinkInv(m: Vm, o: Own, k: Key, i: nat)
    requires 0 < k.level && Inv(m, o, {Child(k, i)}) && k in o.at && i < NPTE && Child(k, i) !in o.at
    ensures Inv(SetEntry(m, o.at[k], i, 0), o, {}) && SameLeaves(m, o, SetEntry(m, o.at[k], i, 0), o)
  {
    var m' := SetEntry(m, o.at[k], i, 0);
    forall k' | k' in o.at && k' != k ensures o.at[k'] != o.at[k] {
      assert o.owner[o.at[k']] == Node(k') && o.owner[o.at[k]] == Node(k);
    }
    assert NodesOk(m', o);
    forall k', i' | k' in o.at && 0 <= i' < NPTE
      ensures Entry(m', o, k', i') == if k' == k && i' == i then 0 else Entry(m, o, k', i')
    {
    }
    UnlinkLinks(m, o, m', k, i);
    assert SameLeaves(m, o, m', o);
    assert OwnersOk(m', o);
  }

  lemma UnlinkLinks(m: Vm, o: Own, m': Vm, k: Key, i: nat)
    requires NodesOk(m, o) && NodesOk(m', o) && 0 < k.level && k in o.at && i < NPTE && Child(k, i) !in o.at
    requires LinksOk(m, o, {Child(k, i)})
    requires forall k', i' :: k' in o.at && 0 <= i' < NPTE ==>
               Entry(m', o, k', i') == if k' == k && i' == i then 0 else Entry(m, o, k', i')
    ensures LinksOk(m', o, {})
  {
    forall k', i' | k' in o.at && k'.level > 0 && 0 <= i' < NPTE
      ensures V(Entry(m', o, k', i')) <==> Child(k', i') in o.at
      ensures V(Entry(m', o, k', i')) ==> Entry(m', o, k', i') == MakePte(o.at[Child(k', i')], PTE_V)
    {
      if Child(k', i') == Child(k, i) { ChildInjective(k', i', k, i); }
    }
  }

  lemma ClearTables(o: Own, o1: Own, o2: Own, k: Key, i: nat)
    requires 0 < k.level <= 2 && i < NPTE
    requires TablesWithout(o, o1, k, false, i) && TablesWithout(o1, o2, Child(k, i), true, 0)
    ensures TablesWithout(o, o2, k, false, i + 1)
  {
    forall k' ensures Below(k', k, i + 1) <==> Below(k', k, i) || Under(k', Child(k, i)) {
      BelowNext(k', k, i);
    }
  }

  lemma ClearPages(o: Own, o1: Own, o2: Own, k: Key, i: nat)
    requires 0 < k.level <= 2 && i < NPTE
    requires PagesWithout(o, o1, k, false, i) && PagesWithout(o1, o2, Child(k, i), true, 0)
    ensures PagesWithout(o, o2, k, false, i + 1)
  {
    forall k' ensures Below(k', k, i + 1) <==> Below(k', k, i) || Under(k', Child(k, i)) {
      BelowNext(k', k, i);
    }
  }

  lemma ClearData(m: Vm, m1: Vm, m2: Vm, o1: Own, o2: Own, k: Key, i: nat)
    requires SameData(m, m1, o1) && SameData(m1, m2, o2) && PagesWithout(o1, o2, k, true, i)
    ensures SameData(m, m2, o2)
  {
  }

  lemma ClearOther(m: Vm, m1: Vm, m2: Vm, o1: Own, o2: Own, k: Key, i: nat)
    requires 0 < k.level <= 2 && i < NPTE && NodesOk(m2, o2) && k in o2.at
    requires SameTablesBut(m, m1, o1, k) && SameTablesBut(m1, m2, o2, Child(k, i))
    requires TablesWithout(o1, o2, Child(k, i), true, 0)
    ensures SameTablesBut(m, SetEntry(m2, o2.at[k], i, 0), o2, k)
    ensures o2.at[k] in m1.table && m2.table[o2.at[k]] == m1.table[o2.at[k]]
  {
    assert Under(Child(k, i), Child(k, i));
    forall k' | k' in o2.at && k' != k ensures o2.at[k'] != o2.at[k] {
      assert o2.owner[o2.at[k']] == Node(k') && o2.owner[o2.at[k]] == Node(k);
    }
  }

  /** The subtree below an entry is freed and the entry cleared. */
  lemma ClearEntry(m: Vm, o: Own, m1: Vm, o1: Own, m2: Vm, o2: Own, k: Key, i: nat)
    requires 0 < k.level <= 2 && i < NPTE && FreesBelow(m, o, m1, o1, k, i) && Frees(m1, o1, m2, o2, Child(k, i))
    requires k in o2.at && o2.at[k] == o.at[k] && NodesOk(SetEntry(m2, o2.at[k], i, 0), o2)
    requires SameLeaves(m2, o2, SetEntry(m2, o2.at[k], i, 0), o2)
    ensures FreesBelow(m, o, SetEntry(m2, o2.at[k], i, 0), o2, k, i + 1)
  {
    var m3 := SetEntry(m2, o2.at[k], i, 0);
    assert TablesWithout(o, o2, k, false, i + 1) by {
      assert UnfoldFreesBelow(0) && UnfoldFrees(0);
      ClearTables(o, o1, o2, k, i);
    }
    assert PagesWithout(o, o2, k, false, i + 1) by {
      assert UnfoldFreesBelow(0) && UnfoldFrees(0);
      ClearPages(o, o1, o2, k, i);
    }
    assert SameData(m, m3, o2) by {
      assert UnfoldFreesBelow(0) && UnfoldFrees(0);
      ClearData(m, m1, m2, o1, o2, Child(k, i), 0);
    }
    assert SameTablesBut(m, m3, o2, k) && o2.at[k] in m1.table && m2.table[o2.at[k]] == m1.table[o2.at[k]] by {
      assert UnfoldFreesBelow(0) && UnfoldFrees(0);
      ClearOther(m, m1, m2, o1, o2, k, i);
    }
    assert SameLeaves(m, o, m3, o2) by { assert UnfoldFreesBelow(0) && UnfoldFrees(0); }
    assert Cleared(m, o, m3, o2, k, i + 1) by { assert UnfoldFreesBelow(0); ClearOne(m, o, m1, o1, m3, o2, k, i); }
  }

  lemma NotUnderChild(m: Vm, o: Own, m': Vm, o': Own, k: Key, i: nat)
    requires 0 < k.level <= 2 && i < NPTE && k in o.at && Frees(m, o, m', o', Child(k, i))
    ensures k in o'.at && o'.at[k] == o.at[k] && Child(k, i) !in o'.at
  {
    assert UnfoldFrees(0);
    assert Under(Child(k, i), Child(k, i)) && !Under(k, Child(k, i));
  }

  function DroppedVm(m: Vm, p: nat): Vm {
    Vm([p] + m.free, m.table - {p}, m.data - {p})
  }

  function DroppedOwn(o: Own, k: Key): Own
    requires k in o.at
  {
    Own(o.at - {k}, o.owner[o.at[k] := Free])
  }

  lemma DropNodes(m: Vm, o: Own, k: Key)
    requires NodesOk(m, o) && k in o.at
    ensures var (m', o') := (DroppedVm(m, o.at[k]), DroppedOwn(o, k));
            NodesOk(m', o') && forall k', i :: k' in o'.at && 0 <= i < NPTE ==>
                Entry(m', o', k', i) == Entry(m, o, k', i)
  {
    forall k' | k' in o.at && k' != k ensures o.at[k'] != o.at[k] {
      assert o.owner[o.at[k']] == Node(k') && o.owner[o.at[k]] == Node(k);
    }
  }

  lemma DropParents(m: Vm, o: Own, k: Key)
    requires NodesOk(m, o) && LinksOk(m, o, {}) && ParentsOk(o) && k in o.at
    requires forall i :: 0 <= i < NPTE ==> !V(Entry(m, o, k, i))
    ensures ParentsOk(DroppedOwn(o, k))
  {
    forall k' | k' in o.at && k'.level < 2 ensures Parent(k') != k {
      assert Child(Parent(k'), k'.x % NPTE) == k';
    }
  }

  /** kfree of a table page with no valid entry; the entry that led to it dangles. */
  lemma DropInv(m: Vm, o: Own, k: Key)
    requires Inv(m, o, {}) && k in o.at && forall i :: 0 <= i < NPTE ==> !V(Entry(m, o, k, i))
    ensures Inv(DroppedVm(m, o.at[k]), DroppedOwn(o, k), {k})
    ensures SameLeaves(m, o, DroppedVm(m, o.at[k]), DroppedOwn(o, k))
  {
    var (m', o') := (DroppedVm(m, o.at[k]), DroppedOwn(o, k));
    DropNodes(m, o, k);
    DropParents(m, o, k);
    DropLeaves(m, o, k, m', o');
    DropLinks(m, o, k, m', o');
    assert LeavesOk(m', o');
    DropOwners(m, o, k, m', o');
  }

  lemma DropLinks(m: Vm, o: Own, k: Key, m': Vm, o': Own)
    requires NodesOk(m, o) && NodesOk(m', o') && LinksOk(m, o, {}) && o'.at == o.at - {k}
    requires forall k', i :: k' in o'.at && 0 <= i < NPTE ==> Entry(m', o', k', i) == Entry(m, o, k', i)
    ensures LinksOk(m', o', {k})
  {
  }

  lemma DropOwners(m: Vm, o: Own, k: Key, m': Vm, o': Own)
    requires NodesOk(m, o) && NodesOk(m', o') && OwnersOk(m, o) && FreeOk(m, o) && SameLeaves(m, o, m', o') && k in o.at
    requires m' == DroppedVm(m, o.at[k]) && o' == DroppedOwn(o, k)
    ensures OwnersOk(m', o') && FreeOk(m', o')
  {
    DropFree(m.free, o.owner, o.at[k]);
    forall q | q in o'.owner
      ensures q != 0
      ensures o'.owner[q].Node? ==> o'.owner[q].key in o'.at && o'.at[o'.owner[q].key] == q
      ensures o'.owner[q].User? ==>
                var (r, v) := (o'.owner[q].r, o'.owner[q].vpn);
                && v < MAXVPN && V(Leaf(m', o', r, v)) && Page(Leaf(m', o', r, v)) == q
                && q in m'.data && |m'.data[q]| == PGSIZE
      ensures o'.owner[q].Free? ==> q in m'.free
    {
      assert q != o.at[k] ==> o'.owner[q] == o.owner[q];
    }
  }

  lemma DropFree(free: seq<nat>, owner: map<nat, Owner>, p: nat)
    requires p in owner && !owner[p].Free?
    requires forall i :: 0 <= i < |free| ==> free[i] in owner && owner[free[i]].Free?
    requires forall i, j :: 0 <= i < j < |free| ==> free[i] != free[j]
    ensures var free' := [p] + free;
            && (forall i :: 0 <= i < |free'| ==> free'[i] in owner[p := Free] && owner[p := Free][free'[i]].Free?)
            && (forall i, j :: 0 <= i < j < |free'| ==> free'[i] != free'[j])
  {
  }

  lemma DropLeaves(m: Vm, o: Own, k: Key, m': Vm, o': Own)
    requires NodesOk(m, o) && NodesOk(m', o') && k in o.at && LeavesOk(m, o)
    requires forall i :: 0 <= i < NPTE ==> !V(Entry(m, o, k, i))
    requires o'.at == o.at - {k}
    requires forall k', i :: k' in o'.at && 0 <= i < NPTE ==> Entry(m', o', k', i) == Entry(m, o, k', i)
    ensures SameLeaves(m, o, m', o')
  {
    forall r, v ensures Leaf(m', o', r, v) == Leaf(m, o, r, v) {
      var k' := Key(r, 0, Prefix(0, v));
      if k' in o.at {
        assert GoodLeaf(Entry(m, o, k', Px(0, v)));
      }
    }
  }

  lemma DropTables(o: Own, o1: Own, k: Key)
    requires k.level <= 2 && k in o.at && k in o1.at && TablesWithout(o, o1, k, false, NPTE)
    ensures TablesWithout(o, DroppedOwn(o1, k), k, true, 0)
  {
    forall k' ensures Under(k', k) <==> k' == k || Below(k', k, NPTE) {
      BelowAll(k', k);
    }
  }

  lemma DropPages(o: Own, o1: Own, k: Key)
    requires k.level <= 2 && k in o.at && k in o1.at && PagesWithout(o, o1, k, false, NPTE)
    requires o1.at[k] in o1.owner && o1.owner[o1.at[k]] == Node(k)
    requires forall p :: p in o1.owner && o1.owner[p] == Node(k) ==> p == o1.at[k]
    ensures PagesWithout(o, DroppedOwn(o1, k), k, true, 0)
  {
    forall k' ensures Under(k', k) <==> k' == k || Below(k', k, NPTE) {
      BelowAll(k', k);
    }
  }

  lemma DropSound(m: Vm, o: Own, m1: Vm, o1: Own, k: Key)
    requires FreesBelow(m, o, m1, o1, k, NPTE) && Sound(m1, o1, {})
    ensures Sound(DroppedVm(m1, o1.at[k]), DroppedOwn(o1, k), {k})
    ensures SameLeaves(m1, o1, DroppedVm(m1, o1.at[k]), DroppedOwn(o1, k))
  {
    assert UnfoldSound(0) && UnfoldFreesBelow(0);
    DropInv(m1, o1, k);
  }

  lemma Drop(m: Vm, o: Own, m1: Vm, o1: Own, k: Key)
    requires FreesBelow(m, o, m1, o1, k, NPTE) && Sound(m1, o1, {})
    ensures Sound(DroppedVm(m1, o1.at[k]), DroppedOwn(o1, k), {k})
    ensures Frees(m, o, DroppedVm(m1, o1.at[k]), DroppedOwn(o1, k), k)
  {
    var (m2, o2) := (DroppedVm(m1, o1.at[k]), DroppedOwn(o1, k));
    DropSound(m, o, m1, o1, k);
    assert TablesWithout(o, o2, k, true, 0) by { assert UnfoldFreesBelow(0); DropTables(o, o1, k); }
    assert PagesWithout(o, o2, k, true, 0) by { assert UnfoldFreesBelow(0) && UnfoldSound(0); DropPages(o, o1, k); }
    assert SameData(m, m2, o2) && SameLeaves(m, o, m2, o2) by { assert UnfoldFreesBelow(0); }
    assert SameTablesBut(m, m2, o2, k) by { assert UnfoldFreesBelow(0); DropNodes(m1, o1, k); }
  }

  /** No entry leads to a root, so none dangles once it is gone. */
  lemma RootDetached(m: Vm, o: Own, r: nat)
    requires Sound(m, o, {Key(r, 2, 0)})
    ensures Sound(m, o, {})
  {
    assert UnfoldSound(0);
    assert forall k, i :: k in o.at && k.level > 0 && 0 <= i < NPTE ==> Child(k, i).level < 2;
  }

  predicate OwnedBy(w: Owner, r: nat) {
    (w.User? && w.r == r) || (w.Node? && w.key.r == r)
  }

  predicate UnfoldTreeOnly(u: int) { true }
  predicate UnfoldDestroys(u: int) { true }

  /** Free or tree r's. */
  predicate Mine(w: Owner, r: nat) { w.Free? || OwnedBy(w, r) }

  /** Pages move between the free list and tree r; no other tree and no other page is touched. */
  ghost predicate TreeOnly(m: Vm, o: Own, m': Vm, o': Own, r: nat) {
    && NodesOk(m, o) && NodesOk(m', o')
    && forall u {:trigger UnfoldTreeOnly(u)} :: UnfoldTreeOnly(u) ==>
      && (forall r': nat, v: nat :: r' != r ==> Leaf(m', o', r', v) == Leaf(m, o, r', v))
      && o'.owner.Keys == o.owner.Keys
      && (forall p :: p in o.owner ==> o'.owner[p] == o.owner[p] || (Mine(o.owner[p], r) && Mine(o'.owner[p], r)))
      && (forall p :: p in o.owner && !Mine(o.owner[p], r) ==>
            (p in m.data <==> p in m'.data) && (p in m.data ==> m'.data[p] == m.data[p]))
  }

  /** Tree r is gone and every page it had is free; no other tree and no other page is touched. */
  ghost predicate Destroys(m: Vm, o: Own, m': Vm, o': Own, r: nat) {
    && TreeOnly(m, o, m', o', r)
    && forall u {:trigger UnfoldDestroys(u)} :: UnfoldDestroys(u) ==>
      && (forall v: nat :: Leaf(m', o', r, v) == 0)
      && (forall k :: k in o'.at ==> k.r != r)
      && (forall p :: p in o'.owner ==> !OwnedBy(o'.owner[p], r))
  }

  lemma TreeOnlyTransitive(m1: Vm, o1: Own, m2: Vm, o2: Own, m3: Vm, o3: Own, r: nat)
    requires TreeOnly(m1, o1, m2, o2, r) && TreeOnly(m2, o2, m3, o3, r)
    ensures TreeOnly(m1, o1, m3, o3, r)
  {
  }

  lemma GrowsTreeOnly(m: Vm, o: Own, m': Vm, o': Own, r: nat)
    requires Grows(m, o, m', o', r)
    ensures TreeOnly(m, o, m', o', r)
  {
    assert UnfoldGrows(0);
  }

  lemma EditsTreeOnly(m: Vm, o: Own, m': Vm, o': Own, r: nat, lo: nat, hi: nat)
    requires Edits(m, o, m', o', r, lo, hi)
    ensures TreeOnly(m, o, m', o', r)
  {
    assert UnfoldEdits(0);
  }

  lemma UnmapsTreeOnly(m: Vm, o: Own, m': Vm, o': Own, r: nat, lo: nat, hi: nat)
    requires Unmaps(m, o, m', o', r, lo, hi)
    ensures TreeOnly(m, o, m', o', r)
  {
    assert UnfoldUnmaps(0);
  }

  /** The tables under a root are those of its tree. */
  lemma UnderRoot(m: Vm, o: Own, r: nat, k: Key)
    requires Sound(m, o, {}) && k in o.at
    ensures Under(k, Key(r, 2, 0)) <==> k.r == r
  {
    assert UnfoldSound(0);
    AboveLevel(k, 2);
    AbovePresent(o, k);
    assert Above(k, 2) in o.at;
  }

  lemma {:induction false} AbovePresent(o: Own, k: Key)
    requires ParentsOk(o) && k in o.at && k.level <= 2
    ensures Above(k, 2) in o.at
    decreases 2 - k.level
  {
    if k.level < 2 { AbovePresent(o, Parent(k)); }
  }

  /** An unmapped tree has no valid leaf entry anywhere. */
  lemma BareTree(m: Vm, o: Own, r: nat)
    requires NodesOk(m, o) && forall v: nat :: !V(Leaf(m, o, r, v))
    ensures NoLeaves(m, o, Key(r, 2, 0))
  {
    forall k, i | k in o.at && k.level == 0 && Under(k, Key(r, 2, 0)) && 0 <= i < NPTE ensures !V(Entry(m, o, k, i)) {
      AboveLevel(k, 2);
      var v := k.x * NPTE + i;
      assert Prefix(0, v) == k.x && Px(0, v) == i;
      assert !V(Leaf(m, o, r, v));
    }
  }

  lemma TreesTables(o: Own, o': Own, r: nat)
    requires TablesWithout(o, o', Key(r, 2, 0), true, 0)
    requires forall k :: k in o.at ==> (Under(k, Key(r, 2, 0)) <==> k.r == r)
    ensures forall k :: k in o'.at ==> k.r != r
  {
  }

  lemma TreesPages(o: Own, o': Own, r: nat)
    requires PagesWithout(o, o', Key(r, 2, 0), true, 0)
    requires forall k :: k in o.at ==> (Under(k, Key(r, 2, 0)) <==> k.r == r)
    requires forall p :: p in o.owner ==>
               (o.owner[p].Node? ==> o.owner[p].key in o.at) && !(o.owner[p].User? && o.owner[p].r == r)
    ensures o'.owner.Keys == o.owner.Keys
    ensures forall p :: p in o.owner ==> o'.owner[p] == if OwnedBy(o.owner[p], r) then Free else o.owner[p]
  {
  }

  lemma Destroyed(m: Vm, o: Own, m': Vm, o': Own, r: nat)
    requires Sound(m, o, {}) && (forall v: nat :: !V(Leaf(m, o, r, v))) && Frees(m, o, m', o', Key(r, 2, 0))
    ensures Destroys(m, o, m', o', r)
  {
    forall k | k in o.at ensures Under(k, Key(r, 2, 0)) <==> k.r == r { UnderRoot(m, o, r, k); }
    assert forall p :: p in o.owner ==>
      (o.owner[p].Node? ==> o.owner[p].key in o.at) && !(o.owner[p].User? && o.owner[p].r == r) by {
      assert UnfoldSound(0);
    }
    assert forall k :: k in o'.at ==> k.r != r by { assert UnfoldFrees(0); TreesTables(o, o', r); }
    assert o'.owner.Keys == o.owner.Keys
           && forall p :: p in o.owner ==> o'.owner[p] == if OwnedBy(o.owner[p], r) then Free else o.owner[p] by {
      assert UnfoldFrees(0);
      TreesPages(o, o', r);
    }
    assert SameData(m, m', o') && SameLeaves(m, o, m', o') by { assert UnfoldFrees(0); }
    forall v: nat ensures Leaf(m, o, r, v) == 0 { InvalidIsZero(m, o, r, v); }
    DestroyedParts(m, o, m', o', r);
  }

  lemma DestroyedParts(m: Vm, o: Own, m': Vm, o': Own, r: nat)
    requires NodesOk(m, o) && SameLeaves(m, o, m', o') && SameData(m, m', o')
    requires forall v: nat :: Leaf(m, o, r, v) == 0
    requires forall k :: k in o'.at ==> k.r != r
    requires o'.owner.Keys == o.owner.Keys
    requires forall p :: p in o.owner ==> o'.owner[p] == if OwnedBy(o.owner[p], r) then Free else o.owner[p]
    ensures Destroys(m, o, m', o', r)
  {
  }

  lemma DestroysAfter(m1: Vm, o1: Own, m2: Vm, o2: Own, m3: Vm, o3: Own, r: nat)
    requires TreeOnly(m1, o1, m2, o2, r) && Destroys(m2, o2, m3, o3, r)
    ensures Destroys(m1, o1, m3, o3, r)
  {
    TreeOnlyTransitive(m1, o1, m2, o2, m3, o3, r);
    assert UnfoldDestroys(0);
  }

  /** A tree that was made and destroyed leaves every page and every translation as it was. */
  lemma MadeAndDestroyed(m: Vm, o: Own, m': Vm, o': Own, r: nat)
    requires Sound(m, o, {}) && Key(r, 2, 0) !in o.at && Destroys(m, o, m', o', r)
    ensures o'.owner == o.owner && SameData(m, m', o') && SameLeaves(m, o, m', o')
  {
    Rootless(m, o, r);
    assert UnfoldDestroys(0) && UnfoldTreeOnly(0);
    forall r': nat, v: nat ensures Leaf(m', o', r', v) == Leaf(m, o, r', v) {
    }
  }

  lemma Rootless(m: Vm, o: Own, r: nat)
    requires Sound(m, o, {}) && Key(r, 2, 0) !in o.at
    ensures forall k :: k in o.at ==> k.r != r
    ensures forall p :: p in o.owner ==> !OwnedBy(o.owner[p], r)
    ensures forall v: nat :: Leaf(m, o, r, v) == 0
  {
    assert UnfoldSound(0);
    forall k | k in o.at ensures k.r != r {
      AboveLevel(k, 2);
      AbovePresent(o, k);
    }
  }

  const TRAMPOLINE: nat := 0x3ff_ffff  // the page numbers of the two highest pages
  const TRAPFRAME: nat := 0x3ff_fffe

  predicate UnfoldProcTree(u: int) { true }

  /** The page table of a process of sz bytes: its own pages below sz, and the trampoline and trapframe
      pages, mapped for the kernel and not owned by the tree. */
  ghost predicate ProcTree(m: Vm, o: Own, r: nat, sz: nat, trampoline: nat, trapframe: nat) {
    && NodesOk(m, o) && Key(r, 2, 0) in o.at && Pages(sz) <= TRAPFRAME
    && forall u {:trigger UnfoldProcTree(u)} :: UnfoldProcTree(u) ==>
      && OwnsRange(m, o, r, 0, Pages(sz))
      && (forall p :: p in o.owner && o.owner[p].User? && o.owner[p].r == r ==> o.owner[p].vpn < Pages(sz))
      && Leaf(m, o, r, TRAMPOLINE) == MakePte(trampoline, PTE_R + PTE_X)
      && Leaf(m, o, r, TRAPFRAME) == MakePte(trapframe, PTE_R + PTE_W)
      && (forall v: nat :: Pages(sz) <= v && v != TRAMPOLINE && v != TRAPFRAME ==> !V(Leaf(m, o, r, v)))
  }

  ghost predicate NoUser(o: Own, r: nat) {
    forall p :: p in o.owner ==> !(o.owner[p].User? && o.owner[p].r == r)
  }

  /** Nothing but the two special pages is, or is about to be, mapped in a new tree. */
  ghost predicate NewTree(m: Vm, o: Own, m': Vm, o': Own, r: nat) {
    && TreeOnly(m, o, m', o', r) && Key(r, 2, 0) in o'.at && NoUser(o', r)
    && (forall v: nat :: v < TRAPFRAME || TRAMPOLINE < v ==> Leaf(m', o', r, v) == 0)
  }

  lemma NewTreeMade(m: Vm, o: Own, m': Vm, o': Own, r: nat)
    requires Sound(m, o, {}) && Key(r, 2, 0) !in o.at && Grows(m, o, m', o', r) && Key(r, 2, 0) in o'.at
    ensures NewTree(m, o, m', o', r) && Leaf(m', o', r, TRAMPOLINE) == 0 && Leaf(m', o', r, TRAPFRAME) == 0
  {
    Rootless(m, o, r);
    GrowsTreeOnly(m, o, m', o', r);
    assert UnfoldGrows(0);
  }

  lemma NewTreeMapped(m: Vm, o: Own, m1: Vm, o1: Own, m2: Vm, o2: Own, r: nat, v: nat)
    requires NewTree(m, o, m1, o1, r) && TRAPFRAME <= v <= TRAMPOLINE && Edits(m1, o1, m2, o2, r, v, v + 1)
    ensures NewTree(m, o, m2, o2, r)
  {
    EditsTreeOnly(m1, o1, m2, o2, r, v, v + 1);
    TreeOnlyTransitive(m, o, m1, o1, m2, o2, r);
    assert UnfoldEdits(0);
  }

  lemma NewTreeUnmapped(m: Vm, o: Own, m1: Vm, o1: Own, m2: Vm, o2: Own, r: nat, v: nat)
    requires NewTree(m, o, m1, o1, r) && TRAPFRAME <= v <= TRAMPOLINE && Unmaps(m1, o1, m2, o2, r, v, v + 1)
    ensures NewTree(m, o, m2, o2, r)
  {
    UnmapsTreeOnly(m1, o1, m2, o2, r, v, v + 1);
    TreeOnlyTransitive(m, o, m1, o1, m2, o2, r);
    assert UnfoldUnmaps(0);
  }

  lemma NewTreeDone(m: Vm, o: Own, m': Vm, o': Own, r: nat, trampoline: nat, trapframe: nat)
    requires NewTree(m, o, m', o', r)
    requires Leaf(m', o', r, TRAMPOLINE) == MakePte(trampoline, PTE_R + PTE_X)
    requires Leaf(m', o', r, TRAPFRAME) == MakePte(trapframe, PTE_R + PTE_W)
    ensures ProcTree(m', o', r, 0, trampoline, trapframe)
  {
  }

  /** uvmalloc and uvmcopy extend a process's page table. */
  lemma ProcTreeGrown(m: Vm, o: Own, m': Vm, o': Own, r: nat, oldsz: nat, newsz: nat, trampoline: nat,
                      trapframe: nat, c: map<nat, (nat, seq<Byte>)>)
    requires ProcTree(m, o, r, oldsz, trampoline, trapframe) && oldsz <= newsz && Pages(newsz) <= TRAPFRAME
    requires Allocs(m, o, m', o', r, Pages(oldsz), Pages(newsz), c)
    ensures ProcTree(m', o', r, newsz, trampoline, trapframe)
  {
    AllocsNode(m, o, m', o', r, Pages(oldsz), Pages(newsz), c, Key(r, 2, 0));
    assert OwnsRange(m', o', r, 0, Pages(newsz)) by {
      AllocsOwns(m, o, m', o', r, Pages(oldsz), Pages(newsz), c);
      assert UnfoldProcTree(0) && UnfoldAllocs(0);
    }
    assert UnfoldProcTree(0) && UnfoldAllocs(0);
  }

  /** uvmdealloc shrinks it. */
  lemma ProcTreeShrunk(m: Vm, o: Own, m': Vm, o': Own, r: nat, oldsz: nat, newsz: nat, trampoline: nat, trapframe: nat)
    requires ProcTree(m, o, r, oldsz, trampoline, trapframe) && newsz <= oldsz
    requires Unmaps(m, o, m', o', r, Pages(newsz), Pages(oldsz))
    ensures ProcTree(m', o', r, newsz, trampoline, trapframe)
  {
    assert OwnsRange(m', o', r, 0, Pages(newsz)) by {
      assert UnfoldProcTree(0);
      forall v: nat | v < Pages(newsz) ensures V(Leaf(m', o', r, v)) && OwnsPage(m', o', r, v) {
        UnmapsLeaf(m, o, m', o', r, Pages(newsz), Pages(oldsz), r, v);
        UnmapsKeeps(m, o, m', o', r, Pages(newsz), Pages(oldsz), r, v);
      }
    }
    assert UnfoldProcTree(0) && UnfoldUnmaps(0);
  }

  lemma ProcTreeSpecial(m: Vm, o: Own, r: nat, sz: nat, trampoline: nat, trapframe: nat)
    requires ProcTree(m, o, r, sz, trampoline, trapframe)
    ensures V(Leaf(m, o, r, TRAMPOLINE)) && NoPageOwned(o, r, TRAMPOLINE)
    ensures V(Leaf(m, o, r, TRAPFRAME)) && NoPageOwned(o, r, TRAPFRAME)
  {
    assert UnfoldProcTree(0);
  }

  /** A process's page table less its two special pages is what uvmfree takes. */
  lemma ProcTreeStripped(m: Vm, o: Own, m': Vm, o': Own, r: nat, sz: nat, trampoline: nat, trapframe: nat)
    requires ProcTree(m, o, r, sz, trampoline, trapframe) && Unmaps(m, o, m', o', r, TRAPFRAME, TRAMPOLINE + 1)
    ensures OwnsRange(m', o', r, 0, Pages(sz)) && forall v: nat :: Pages(sz) <= v ==> !V(Leaf(m', o', r, v))
  {
    assert UnfoldProcTree(0);
    forall v: nat | v < Pages(sz) ensures V(Leaf(m', o', r, v)) && OwnsPage(m', o', r, v) {
      UnmapsLeaf(m, o, m', o', r, TRAPFRAME, TRAMPOLINE + 1, r, v);
      UnmapsKeeps(m, o, m', o', r, TRAPFRAME, TRAMPOLINE + 1, r, v);
    }
    forall v: nat | Pages(sz) <= v ensures !V(Leaf(m', o', r, v)) {
      UnmapsLeaf(m, o, m', o', r, TRAPFRAME, TRAMPOLINE + 1, r, v);
    }
  }

  lemma UnmapsTwo(m: Vm, o: Own, m1: Vm, o1: Own, m2: Vm, o2: Own, r: nat, v: nat)
    requires Unmaps(m, o, m1, o1, r, v + 1, v + 2) && Unmaps(m1, o1, m2, o2, r, v, v + 1)
    ensures Unmaps(m, o, m2, o2, r, v, v + 2)
  {
    assert UnfoldUnmaps(0);
  }
}
