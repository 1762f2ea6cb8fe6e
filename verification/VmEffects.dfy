/**
 What the page-table operations of kernel/vm.c do to translations, to page ownership
 and to page contents, as relations between states, with the lemmas that compose them.
 */
module VmEffects {
  import opened Blocks
  import opened VmState

  // Predicates of the form `forall u :: UnfoldP(u) ==> body` mean `body`, but the verifier looks
  // inside P only in proofs that mention UnfoldP.
  predicate UnfoldSound(u: int) { true }
  predicate UnfoldGrows(u: int) { true }
  predicate UnfoldEdits(u: int) { true }
  predicate UnfoldMappedTo(u: int) { true }
  predicate UnfoldUnmaps(u: int) { true }
  predicate UnfoldAllocs(u: int) { true }

  /** The invariant of VmState, kept folded. */
  ghost predicate Sound(m: Vm, o: Own, det: set<Key>) {
    NodesOk(m, o) && forall u {:trigger UnfoldSound(u)} :: UnfoldSound(u) ==> Inv(m, o, det)
  }

  /** No translation changes, free pages may become table pages of tree r, and nothing else happens to any page. */
  ghost predicate Grows(m: Vm, o: Own, m': Vm, o': Own, r: nat) {
    && NodesOk(m, o) && NodesOk(m', o')
    && forall u {:trigger UnfoldGrows(u)} :: UnfoldGrows(u) ==>
      && SameLeaves(m, o, m', o')
      && o'.owner.Keys == o.owner.Keys
      && (forall p :: p in o.owner ==>
           o'.owner[p] == o.owner[p] || (o.owner[p].Free? && o'.owner[p].Node? && o'.owner[p].key.r == r))
      && (forall p :: p in o.owner && !o.owner[p].Free? ==>
            (p in m.data <==> p in m'.data) && (p in m.data ==> m'.data[p] == m.data[p]))
      && (forall k :: k in o.at ==> k in o'.at && o'.at[k] == o.at[k])
  }

  lemma GrowsReflexive(m: Vm, o: Own, r: nat)
    requires NodesOk(m, o)
    ensures Grows(m, o, m, o, r)
  {
  }

  lemma GrowsTransitive(m1: Vm, o1: Own, m2: Vm, o2: Own, m3: Vm, o3: Own, r: nat)
    requires Grows(m1, o1, m2, o2, r) && Grows(m2, o2, m3, o3, r)
    ensures Grows(m1, o1, m3, o3, r)
  {
  }

  /** One level of walk: the entry of table page p at the index of vpn either leads to the next table or is empty. */
  lemma WalkDown(m: Vm, o: Own, r: nat, level: nat, vpn: nat)
    requires Sound(m, o, {}) && 0 < level <= 2 && vpn < MAXVPN && Key(r, level, Prefix(level, vpn)) in o.at
    ensures var k := Key(r, level, Prefix(level, vpn));
            var (e, c) := (Entry(m, o, k, Px(level, vpn)), Key(r, level - 1, Prefix(level - 1, vpn)));
            && Child(k, Px(level, vpn)) == c
            && (V(e) <==> c in o.at) && (V(e) ==> Page(e) == o.at[c])
            && (!V(e) ==> Leaf(m, o, r, vpn) == 0 && Key(r, 0, Prefix(0, vpn)) !in o.at)
  {
    assert UnfoldSound(0);
    PrefixStep(level, vpn);
    var k := Key(r, level, Prefix(level, vpn));
    var c := Child(k, Px(level, vpn));
    assert c == Key(r, level - 1, Prefix(level - 1, vpn));
    if c !in o.at {
      NoChildNoLeaf(m, o, r, level, vpn);
      if level == 2 { assert Parent(Key(r, 0, Prefix(0, vpn))) == c; }
    }
  }

  function TakenVm(m: Vm): Vm
    requires m.free != []
  {
    Vm(m.free[1..], m.table[m.free[0] := ZeroTable()], m.data)
  }

  function TakenOwn(m: Vm, o: Own): Own
    requires m.free != []
  {
    o.(owner := o.owner[m.free[0] := Held])
  }

  /** kalloc and memset: the first free page becomes a zeroed table page held by the caller. */
  lemma TakeZeroed(m: Vm, o: Own)
    requires Inv(m, o, {}) && m.free != []
    ensures var (p, m1, o1) := (m.free[0], TakenVm(m), TakenOwn(m, o));
            && p != 0 && p in o.owner && o.owner[p] == Free
            && Inv(m1, o1, {}) && SameLeaves(m, o, m1, o1)
  {
    var (p, m1, o1) := (m.free[0], TakenVm(m), TakenOwn(m, o));
    var m0 := m.(free := m.free[1..]);
    TakeInv(m, o, {});
    HeldInv(m0, o1, {}, p, m1.table, m1.data);
  }

  lemma TakenCanAttach(m: Vm, o: Own, k: Key, i: nat)
    requires Inv(m, o, {}) && m.free != [] && k in o.at && k.level > 0 && i < NPTE && Child(k, i) !in o.at
    ensures CanAttach(TakenVm(m), TakenOwn(m, o), k, i, m.free[0])
  {
    TakeZeroed(m, o);
  }

  lemma GrowOneInv(m: Vm, o: Own, k: Key, i: nat, m': Vm, o': Own)
    requires Inv(m, o, {}) && m.free != [] && k in o.at && k.level > 0 && i < NPTE && Child(k, i) !in o.at
    requires CanAttach(TakenVm(m), TakenOwn(m, o), k, i, m.free[0])
    requires m' == AttachVm(TakenVm(m), TakenOwn(m, o), k, i, m.free[0])
    requires o' == AttachOwn(TakenOwn(m, o), k, i, m.free[0])
    ensures Inv(m', o', {}) && SameLeaves(m, o, m', o')
  {
    TakeZeroed(m, o);
    AttachInv(TakenVm(m), TakenOwn(m, o), {}, k, i, m.free[0]);
  }

  /** kalloc, memset and the link: a free page becomes the missing table. */
  lemma GrowOne(m: Vm, o: Own, k: Key, i: nat)
    requires Sound(m, o, {}) && m.free != [] && k in o.at && k.level > 0 && i < NPTE && Child(k, i) !in o.at
    ensures var (p, m1, o1) := (m.free[0], TakenVm(m), TakenOwn(m, o));
            && p != 0 && CanAttach(m1, o1, k, i, p)
            && Sound(AttachVm(m1, o1, k, i, p), AttachOwn(o1, k, i, p), {})
            && Grows(m, o, AttachVm(m1, o1, k, i, p), AttachOwn(o1, k, i, p), k.r)
  {
    assert m.free[0] != 0 && m.free[0] in o.owner && o.owner[m.free[0]] == Free by {
      assert UnfoldSound(0);
      TakeZeroed(m, o);
    }
    assert CanAttach(TakenVm(m), TakenOwn(m, o), k, i, m.free[0]) by {
      assert UnfoldSound(0);
      TakenCanAttach(m, o, k, i);
    }
    var (m', o') := (AttachVm(TakenVm(m), TakenOwn(m, o), k, i, m.free[0]), AttachOwn(TakenOwn(m, o), k, i, m.free[0]));
    assert Sound(m', o', {}) && SameLeaves(m, o, m', o') by {
      assert UnfoldSound(0);
      GrowOneInv(m, o, k, i, m', o');
    }
    GrowOneGrows(m, o, k, i, m', o');
  }

  lemma GrowOneGrows(m: Vm, o: Own, k: Key, i: nat, m': Vm, o': Own)
    requires NodesOk(m, o) && NodesOk(m', o') && SameLeaves(m, o, m', o') && m'.data == m.data
    requires m.free != [] && m.free[0] in o.owner && o.owner[m.free[0]].Free? && k.level > 0 && Child(k, i) !in o.at
    requires o' == Own(o.at[Child(k, i) := m.free[0]], o.owner[m.free[0] := Node(Child(k, i))])
    ensures Grows(m, o, m', o', k.r)
  {
  }

  lemma TablePage(m: Vm, o: Own, k: Key)
    requires Sound(m, o, {}) && k in o.at
    ensures o.at[k] != 0
  {
    assert UnfoldSound(0);
  }

  /** Like Grows, except that the entries of tree r for pages lo .. hi may change. */
  ghost predicate Edits(m: Vm, o: Own, m': Vm, o': Own, r: nat, lo: nat, hi: nat) {
    && NodesOk(m, o) && NodesOk(m', o')
    && forall u {:trigger UnfoldEdits(u)} :: UnfoldEdits(u) ==>
      && (forall r': nat, v: nat :: r' != r || v < lo || hi <= v ==> Leaf(m', o', r', v) == Leaf(m, o, r', v))
      && o'.owner.Keys == o.owner.Keys
      && (forall p :: p in o.owner ==>
           o'.owner[p] == o.owner[p] || (o.owner[p].Free? && o'.owner[p].Node? && o'.owner[p].key.r == r))
      && (forall p :: p in o.owner && !o.owner[p].Free? ==>
            (p in m.data <==> p in m'.data) && (p in m.data ==> m'.data[p] == m.data[p]))
      && (forall k :: k in o.at ==> k in o'.at && o'.at[k] == o.at[k])
  }

  lemma GrowsEdits(m: Vm, o: Own, m': Vm, o': Own, r: nat, lo: nat, hi: nat)
    requires Grows(m, o, m', o', r)
    ensures Edits(m, o, m', o', r, lo, hi)
  {
    assert UnfoldGrows(0);
  }

  lemma EditsTransitive(m1: Vm, o1: Own, m2: Vm, o2: Own, m3: Vm, o3: Own, r: nat, lo: nat, hi: nat, lo': nat, hi': nat)
    requires Edits(m1, o1, m2, o2, r, lo, hi) && Edits(m2, o2, m3, o3, r, lo', hi')
    ensures Edits(m1, o1, m3, o3, r, if lo < lo' then lo else lo', if hi > hi' then hi else hi')
  {
  }

  lemma EditsLeaf(m: Vm, o: Own, m': Vm, o': Own, r: nat, lo: nat, hi: nat, r': nat, v: nat)
    requires Edits(m, o, m', o', r, lo, hi) && (r' != r || v < lo || hi <= v)
    ensures Leaf(m', o', r', v) == Leaf(m, o, r', v)
  {
    assert UnfoldEdits(0);
  }

  lemma EditsNode(m: Vm, o: Own, m': Vm, o': Own, r: nat, lo: nat, hi: nat, k: Key)
    requires Edits(m, o, m', o', r, lo, hi) && k in o.at
    ensures k in o'.at && o'.at[k] == o.at[k]
  {
    assert UnfoldEdits(0);
  }

  lemma GrowsLeaf(m: Vm, o: Own, m': Vm, o': Own, r: nat, r': nat, v: nat)
    requires Grows(m, o, m', o', r)
    ensures Leaf(m', o', r', v) == Leaf(m, o, r', v)
  {
    assert UnfoldGrows(0);
  }

  /** Storing a leaf entry whose page is not owned by the mapping it replaces. */
  lemma SetLeafSound(m: Vm, o: Own, r: nat, v: nat, pte: nat)
    requires Sound(m, o, {}) && CanSetLeaf(m, o, r, v, pte)
    ensures Sound(SetLeaf(m, o, r, v, pte), o, {})
    ensures Leaf(SetLeaf(m, o, r, v, pte), o, r, v) == pte
    ensures Edits(m, o, SetLeaf(m, o, r, v, pte), o, r, v, v + 1)
  {
    var m' := SetLeaf(m, o, r, v, pte);
    SetLeafOne(m, o, r, v, pte, r, v);
    assert Sound(m', o, {}) by {
      assert UnfoldSound(0);
      SetLeafInv(m, o, {}, r, v, pte);
    }
    forall r', v' | r' != r || v' != v ensures Leaf(m', o, r', v') == Leaf(m, o, r', v') {
      SetLeafOne(m, o, r, v, pte, r', v');
    }
  }

  /** An entry that is not valid is nobody's. */
  lemma InvalidUnowned(m: Vm, o: Own, r: nat, v: nat, pte: nat)
    requires Sound(m, o, {}) && !V(Leaf(m, o, r, v)) && Key(r, 0, Prefix(0, v)) in o.at && GoodLeaf(pte)
    ensures CanSetLeaf(m, o, r, v, pte)
  {
    assert UnfoldSound(0);
  }

  lemma LeafFlags(page: nat, perm: nat)
    requires perm < 1024 && IsLeaf(perm)
    ensures IsLeaf(MakePte(page, perm))
  {
  }

  lemma RootPage(m: Vm, o: Own, r: nat)
    requires Sound(m, o, {}) && Key(r, 2, 0) in o.at
    ensures o.at[Key(r, 2, 0)] == r && r != 0
  {
    assert UnfoldSound(0);
  }

  /** Of the n pages from v on, the first a are mapped to consecutive physical pages and the rest are as before. */
  ghost predicate MappedTo(m: Vm, o: Own, m': Vm, o': Own, r: nat, v: nat, n: nat, a: nat, page: nat, perm: nat) {
    && Edits(m, o, m', o', r, v, v + n) && perm < 1024
    && forall u {:trigger UnfoldMappedTo(u)} :: UnfoldMappedTo(u) ==>
      forall j :: v <= j < v + n ==>
          Leaf(m', o', r, j) == if j < v + a then MakePte(page + j - v, perm) else Leaf(m, o, r, j)
  }

  lemma MappedStart(m: Vm, o: Own, r: nat, v: nat, n: nat, page: nat, perm: nat)
    requires NodesOk(m, o) && perm < 1024
    ensures MappedTo(m, o, m, o, r, v, n, 0, page, perm)
  {
    GrowsReflexive(m, o, r);
    GrowsEdits(m, o, m, o, r, v, v + n);
  }

  lemma MappedLeaf(m: Vm, o: Own, m': Vm, o': Own, r: nat, v: nat, n: nat, a: nat, page: nat, perm: nat, j: nat)
    requires MappedTo(m, o, m', o', r, v, n, a, page, perm) && v <= j < v + n
    ensures Leaf(m', o', r, j) == if j < v + a then MakePte(page + j - v, perm) else Leaf(m, o, r, j)
  {
    assert UnfoldMappedTo(0);
  }

  lemma MappedNext(m: Vm, o: Own, m1: Vm, o1: Own, m2: Vm, o2: Own, r: nat, v: nat, n: nat, a: nat, page: nat,
                   perm: nat, ok: bool)
    requires MappedTo(m, o, m1, o1, r, v, n, a, page, perm) && a < n && Edits(m1, o1, m2, o2, r, v + a, v + a + 1)
    requires Leaf(m2, o2, r, v + a) == if ok then MakePte(page + a, perm) else Leaf(m1, o1, r, v + a)
    ensures MappedTo(m, o, m2, o2, r, v, n, if ok then a + 1 else a, page, perm)
  {
    EditsTransitive(m, o, m1, o1, m2, o2, r, v, v + n, v + a, v + a + 1);
    var b := if ok then a + 1 else a;
    forall j | v <= j < v + n
      ensures Leaf(m2, o2, r, j) == if j < v + b then MakePte(page + j - v, perm) else Leaf(m, o, r, j)
    {
      MappedLeaf(m, o, m1, o1, r, v, n, a, page, perm, j);
      if j != v + a { EditsLeaf(m1, o1, m2, o2, r, v + a, v + a + 1, r, j); }
    }
  }

  /** The pages lo .. hi of tree r are unmapped and those the mappings owned are free; nothing else changes. */
  ghost predicate Unmaps(m: Vm, o: Own, m': Vm, o': Own, r: nat, lo: nat, hi: nat) {
    && NodesOk(m, o) && NodesOk(m', o') && o'.at == o.at
    && forall u {:trigger UnfoldUnmaps(u)} :: UnfoldUnmaps(u) ==>
      && (forall r': nat, v: nat :: Leaf(m', o', r', v) == if r' == r && lo <= v < hi then 0 else Leaf(m, o, r', v))
      && o'.owner.Keys == o.owner.Keys
      && (forall p :: p in o.owner ==>
            o'.owner[p] ==
              if o.owner[p].User? && o.owner[p].r == r && lo <= o.owner[p].vpn < hi then Free else o.owner[p])
      && (forall p :: p in o.owner && !o'.owner[p].Free? ==>
            (p in m.data <==> p in m'.data) && (p in m.data ==> m'.data[p] == m.data[p]))
  }

  lemma UnmapsNothing(m: Vm, o: Own, r: nat, v: nat)
    requires NodesOk(m, o)
    ensures Unmaps(m, o, m, o, r, v, v)
  {
  }

  lemma UnmapsTransitive(m1: Vm, o1: Own, m2: Vm, o2: Own, m3: Vm, o3: Own, r: nat, lo: nat, mid: nat, hi: nat)
    requires lo <= mid <= hi && Unmaps(m1, o1, m2, o2, r, lo, mid) && Unmaps(m2, o2, m3, o3, r, mid, hi)
    ensures Unmaps(m1, o1, m3, o3, r, lo, hi)
  {
  }

  lemma UnmapsLeaf(m: Vm, o: Own, m': Vm, o': Own, r: nat, lo: nat, hi: nat, r': nat, v: nat)
    requires Unmaps(m, o, m', o', r, lo, hi)
    ensures Leaf(m', o', r', v) == if r' == r && lo <= v < hi then 0 else Leaf(m, o, r', v)
  {
    assert UnfoldUnmaps(0);
  }

  /** The page mapped at (r, v) is owned by that mapping. */
  predicate OwnsPage(m: Vm, o: Own, r: nat, v: nat)
    requires NodesOk(m, o)
  {
    && V(Leaf(m, o, r, v))
    && Page(Leaf(m, o, r, v)) in o.owner && o.owner[Page(Leaf(m, o, r, v))] == User(r, v)
  }

  predicate NoPageOwned(o: Own, r: nat, v: nat) {
    forall p :: p in o.owner ==> o.owner[p] != User(r, v)
  }

  lemma UnmapsKeeps(m: Vm, o: Own, m': Vm, o': Own, r: nat, lo: nat, hi: nat, r': nat, v: nat)
    requires Unmaps(m, o, m', o', r, lo, hi) && (r' != r || v < lo || hi <= v)
    ensures OwnsPage(m, o, r', v) ==> OwnsPage(m', o', r', v)
    ensures NoPageOwned(o, r', v) ==> NoPageOwned(o', r', v)
  {
    assert UnfoldUnmaps(0);
  }

  /** A valid entry lies in a table of the tree and is a leaf. */
  lemma ValidLeaf(m: Vm, o: Own, r: nat, v: nat)
    requires Sound(m, o, {}) && V(Leaf(m, o, r, v))
    ensures Key(r, 0, Prefix(0, v)) in o.at && IsLeaf(Leaf(m, o, r, v))
  {
    assert UnfoldSound(0);
  }

  lemma InvalidIsZero(m: Vm, o: Own, r: nat, v: nat)
    requires Sound(m, o, {}) && !V(Leaf(m, o, r, v))
    ensures Leaf(m, o, r, v) == 0
  {
    assert UnfoldSound(0);
  }

  /** kfree of the page and clearing of the entry, in the source's order. */
  lemma FreeMapped(m: Vm, o: Own, r: nat, v: nat)
    requires Sound(m, o, {}) && OwnsPage(m, o, r, v)
    ensures var p := Page(Leaf(m, o, r, v));
            var o1 := o.(owner := o.owner[p := Held]);
            Sound(m, o1, {}) && SameLeaves(m, o, m, o1)
  {
    assert UnfoldSound(0);
    DisownInv(m, o, {}, Page(Leaf(m, o, r, v)));
  }

  lemma FreedUnowned(m: Vm, o: Own, o': Own, r: nat, v: nat)
    requires Sound(m, o, {}) && OwnsPage(m, o, r, v)
    requires o' == o.(owner := o.owner[Page(Leaf(m, o, r, v)) := Free])
    ensures NoPageOwned(o', r, v)
  {
    assert UnfoldSound(0);
  }

  lemma ClearLeaf(m: Vm, o: Own, r: nat, v: nat)
    requires Sound(m, o, {}) && Key(r, 0, Prefix(0, v)) in o.at && NoPageOwned(o, r, v)
    ensures CanSetLeaf(m, o, r, v, 0) && Sound(SetLeaf(m, o, r, v, 0), o, {})
    ensures Unmaps(m, o, SetLeaf(m, o, r, v, 0), o, r, v, v + 1)
  {
    SetLeafSound(m, o, r, v, 0);
    forall r': nat, v': nat
      ensures Leaf(SetLeaf(m, o, r, v, 0), o, r', v') == if r' == r && v <= v' < v + 1 then 0 else Leaf(m, o, r', v')
    {
      SetLeafOne(m, o, r, v, 0, r', v');
    }
  }

  /** Giving back the owned page first and clearing the entry second adds up to unmapping. */
  lemma FreeThenClear(m: Vm, o: Own, m1: Vm, o1: Own, m2: Vm, r: nat, v: nat)
    requires NodesOk(m, o) && NodesOk(m1, o1) && OwnsPage(m, o, r, v) && SameLeaves(m, o, m1, o1)
    requires UniqueOwner(o, r, v)
    requires o1 == o.(owner := o.owner[Page(Leaf(m, o, r, v)) := Free]) && m1.data == m.data - {Page(Leaf(m, o, r, v))}
    requires Unmaps(m1, o1, m2, o1, r, v, v + 1)
    ensures Unmaps(m, o, m2, o1, r, v, v + 1)
  {
    assert UnfoldUnmaps(0);
  }

  predicate UniqueOwner(o: Own, r: nat, v: nat) {
    forall p, q :: p in o.owner && q in o.owner && o.owner[p] == User(r, v) && o.owner[q] == User(r, v) ==> p == q
  }

  lemma OwnersUnique(m: Vm, o: Own, r: nat, v: nat)
    requires Sound(m, o, {})
    ensures UniqueOwner(o, r, v)
  {
    assert UnfoldSound(0);
  }

  // Allocating and mapping user pages.

  /** The pages lo .. hi of tree r are mapped to fresh pages they own, with the permissions and contents
      that c gives; other translations and all pages in use are untouched. */
  ghost predicate Allocs(m: Vm, o: Own, m': Vm, o': Own, r: nat, lo: nat, hi: nat, c: map<nat, (nat, seq<Byte>)>) {
    && NodesOk(m, o) && NodesOk(m', o')
    && forall u {:trigger UnfoldAllocs(u)} :: UnfoldAllocs(u) ==>
      && (forall r': nat, v: nat :: r' != r || v < lo || hi <= v ==> Leaf(m', o', r', v) == Leaf(m, o, r', v))
      && (forall v: nat :: lo <= v < hi ==> FreshPage(m', o', r, v, c))
      && o'.owner.Keys == o.owner.Keys
      && (forall p :: p in o.owner ==>
            || o'.owner[p] == o.owner[p]
            || (&& o.owner[p].Free?
                && (|| (o'.owner[p].Node? && o'.owner[p].key.r == r)
                    || (o'.owner[p].User? && o'.owner[p].r == r && lo <= o'.owner[p].vpn < hi))))
      && (forall p :: p in o.owner && !o.owner[p].Free? ==>
            (p in m.data <==> p in m'.data) && (p in m.data ==> m'.data[p] == m.data[p]))
      && (forall k :: k in o.at ==> k in o'.at && o'.at[k] == o.at[k])
  }

  /** The page mapped at (r, v) belongs to that mapping and is as c says. */
  predicate FreshPage(m: Vm, o: Own, r: nat, v: nat, c: map<nat, (nat, seq<Byte>)>)
    requires NodesOk(m, o)
  {
    && OwnsPage(m, o, r, v) && v in c && c[v].0 < 1024
    && Leaf(m, o, r, v) == MakePte(Page(Leaf(m, o, r, v)), c[v].0)
    && Page(Leaf(m, o, r, v)) in m.data && m.data[Page(Leaf(m, o, r, v))] == c[v].1
  }

  lemma AllocsNothing(m: Vm, o: Own, m': Vm, o': Own, r: nat, v: nat, c: map<nat, (nat, seq<Byte>)>)
    requires Grows(m, o, m', o', r)
    ensures Allocs(m, o, m', o', r, v, v, c)
  {
    assert UnfoldGrows(0);
  }

  lemma AllocsTransitive(m1: Vm, o1: Own, m2: Vm, o2: Own, m3: Vm, o3: Own, r: nat, lo: nat, mid: nat, hi: nat,
                         c: map<nat, (nat, seq<Byte>)>)
    requires lo <= mid <= hi && Allocs(m1, o1, m2, o2, r, lo, mid, c) && Allocs(m2, o2, m3, o3, r, mid, hi, c)
    ensures Allocs(m1, o1, m3, o3, r, lo, hi, c)
  {
    assert UnfoldAllocs(0);
    forall v: nat | lo <= v < hi ensures FreshPage(m3, o3, r, v, c) {
      if v < mid {
        assert FreshPage(m2, o2, r, v, c) && Leaf(m3, o3, r, v) == Leaf(m2, o2, r, v);
      }
    }
  }

  lemma AllocsPage(m: Vm, o: Own, m': Vm, o': Own, r: nat, lo: nat, hi: nat, c: map<nat, (nat, seq<Byte>)>, v: nat)
    requires Allocs(m, o, m', o', r, lo, hi, c) && lo <= v < hi
    ensures FreshPage(m', o', r, v, c)
  {
    assert UnfoldAllocs(0);
  }

  lemma AllocsOutside(m: Vm, o: Own, m': Vm, o': Own, r: nat, lo: nat, hi: nat, c: map<nat, (nat, seq<Byte>)>,
                      r': nat, v: nat)
    requires Allocs(m, o, m', o', r, lo, hi, c) && (r' != r || v < lo || hi <= v)
    ensures Leaf(m', o', r', v) == Leaf(m, o, r', v)
  {
    assert UnfoldAllocs(0);
  }

  lemma AllocsNode(m: Vm, o: Own, m': Vm, o': Own, r: nat, lo: nat, hi: nat, c: map<nat, (nat, seq<Byte>)>, k: Key)
    requires Allocs(m, o, m', o', r, lo, hi, c) && k in o.at
    ensures k in o'.at && o'.at[k] == o.at[k]
  {
    assert UnfoldAllocs(0);
  }

  /** Freeing what was allocated, on the failure path, leaves nothing but perhaps some new table pages. */
  lemma AllocsUndone(m: Vm, o: Own, m1: Vm, o1: Own, m2: Vm, o2: Own, r: nat, lo: nat, hi: nat,
                     c: map<nat, (nat, seq<Byte>)>)
    requires Allocs(m, o, m1, o1, r, lo, hi, c) && Unmaps(m1, o1, m2, o2, r, lo, hi)
    requires forall v: nat :: lo <= v < hi ==> Leaf(m, o, r, v) == 0
    requires forall p :: p in o.owner ==> !(o.owner[p].User? && o.owner[p].r == r && lo <= o.owner[p].vpn < hi)
    ensures Grows(m, o, m2, o2, r)
  {
    assert UnfoldAllocs(0) && UnfoldUnmaps(0);
  }

  /** The caller of kalloc fills the page it got. */
  lemma FillHeld(m: Vm, o: Own, p: nat, bytes: seq<Byte>)
    requires Sound(m, o, {}) && p in o.owner && o.owner[p] == Held
    ensures Sound(m.(data := m.data[p := bytes]), o, {}) && SameLeaves(m, o, m.(data := m.data[p := bytes]), o)
  {
    assert UnfoldSound(0);
    HeldInv(m, o, {}, p, m.table, m.data[p := bytes]);
  }

  /** The page has become the mapping's. */
  lemma Claim(m: Vm, o: Own, p: nat, r: nat, v: nat)
    requires Sound(m, o, {}) && p in o.owner && o.owner[p] == Held && v < MAXVPN
    requires V(Leaf(m, o, r, v)) && Page(Leaf(m, o, r, v)) == p && p in m.data && |m.data[p]| == PGSIZE
    ensures var o' := o.(owner := o.owner[p := User(r, v)]); Sound(m, o', {}) && SameLeaves(m, o, m, o')
  {
    assert UnfoldSound(0);
    ClaimInv(m, o, {}, p, r, v);
  }

  /** kalloc, fill, map and claim: one page allocated. */
  lemma AllocatedOne(m0: Vm, o0: Own, m2: Vm, o2: Own, m3: Vm, o3: Own, o4: Own, p: nat, r: nat, v: nat,
                     c: map<nat, (nat, seq<Byte>)>)
    requires NodesOk(m0, o0) && NodesOk(m2, o2) && p in o0.owner && o0.owner[p] == Free && v in c && c[v].0 < 1024
    requires SameLeaves(m0, o0, m2, o2) && o2 == o0.(owner := o0.owner[p := Held]) && m2.data == m0.data[p := c[v].1]
    requires Edits(m2, o2, m3, o3, r, v, v + 1) && Leaf(m3, o3, r, v) == MakePte(p, c[v].0)
    requires o4 == o3.(owner := o3.owner[p := User(r, v)]) && SameLeaves(m3, o3, m3, o4)
    ensures Allocs(m0, o0, m3, o4, r, v, v + 1, c)
  {
    assert UnfoldEdits(0);
    assert FreshPage(m3, o4, r, v, c);
    forall r': nat, v': nat | r' != r || v' != v ensures Leaf(m3, o4, r', v') == Leaf(m0, o0, r', v') {
      assert Leaf(m3, o3, r', v') == Leaf(m2, o2, r', v');
    }
  }

  /** kalloc, fill, failed map and kfree: nothing but perhaps some new table pages. */
  lemma AllocatedNone(m0: Vm, o0: Own, m2: Vm, o2: Own, m3: Vm, o3: Own, m4: Vm, o4: Own, p: nat, r: nat, v: nat)
    requires NodesOk(m0, o0) && NodesOk(m2, o2) && p in o0.owner && o0.owner[p] == Free
    requires SameLeaves(m0, o0, m2, o2) && o2 == o0.(owner := o0.owner[p := Held])
    requires forall q :: q != p ==> (q in m2.data <==> q in m0.data) && (q in m0.data ==> m2.data[q] == m0.data[q])
    requires Edits(m2, o2, m3, o3, r, v, v + 1) && Leaf(m3, o3, r, v) == Leaf(m2, o2, r, v)
    requires o4 == o3.(owner := o3.owner[p := Free]) && SameLeaves(m3, o3, m4, o4) && m4.data == m3.data - {p}
    ensures Grows(m0, o0, m4, o4, r)
  {
    assert UnfoldEdits(0);
    forall r': nat, v': nat ensures Leaf(m4, o4, r', v') == Leaf(m0, o0, r', v') {
      if r' != r || v' != v { assert Leaf(m3, o3, r', v') == Leaf(m2, o2, r', v'); }
    }
  }

  lemma EditsHeld(m: Vm, o: Own, m': Vm, o': Own, r: nat, lo: nat, hi: nat, p: nat)
    requires Edits(m, o, m', o', r, lo, hi) && p in o.owner && o.owner[p] == Held && p in m.data
    ensures p in o'.owner && o'.owner[p] == Held && p in m'.data && m'.data[p] == m.data[p]
  {
    assert UnfoldEdits(0);
  }

  /** Nothing is mapped at lo .. hi of tree r. */
  ghost predicate Unmapped(m: Vm, o: Own, r: nat, lo: nat, hi: nat)
    requires NodesOk(m, o)
  {
    forall v: nat :: lo <= v < hi ==> !V(Leaf(m, o, r, v))
  }

  /** Pages lo .. hi of tree r are mapped, each to a page of its own. */
  ghost predicate OwnsRange(m: Vm, o: Own, r: nat, lo: nat, hi: nat)
    requires NodesOk(m, o)
  {
    forall v: nat :: lo <= v < hi ==> V(Leaf(m, o, r, v)) && OwnsPage(m, o, r, v)
  }

  lemma AllocsOwns(m: Vm, o: Own, m': Vm, o': Own, r: nat, lo: nat, hi: nat, c: map<nat, (nat, seq<Byte>)>)
    requires Allocs(m, o, m', o', r, lo, hi, c)
    ensures OwnsRange(m', o', r, lo, hi)
  {
    forall v: nat | lo <= v < hi ensures V(Leaf(m', o', r, v)) && OwnsPage(m', o', r, v) {
      AllocsPage(m, o, m', o', r, lo, hi, c, v);
    }
  }

  /** What was allocated in an unmapped range and then unmapped has left nothing but table pages. */
  lemma AllocsThenUnmaps(m: Vm, o: Own, m1: Vm, o1: Own, m2: Vm, o2: Own, r: nat, lo: nat, hi: nat,
                         c: map<nat, (nat, seq<Byte>)>)
    requires Sound(m, o, {}) && Unmapped(m, o, r, lo, hi)
    requires Allocs(m, o, m1, o1, r, lo, hi, c) && Unmaps(m1, o1, m2, o2, r, lo, hi)
    ensures Grows(m, o, m2, o2, r)
  {
    assert forall p :: p in o.owner ==> !(o.owner[p].User? && o.owner[p].r == r && lo <= o.owner[p].vpn < hi) by {
      assert UnfoldSound(0);
    }
    forall v: nat | lo <= v < hi ensures Leaf(m, o, r, v) == 0 { InvalidIsZero(m, o, r, v); }
    AllocsUndone(m, o, m1, o1, m2, o2, r, lo, hi, c);
  }

  lemma AllocsThenGrows(m1: Vm, o1: Own, m2: Vm, o2: Own, m3: Vm, o3: Own, r: nat, lo: nat, hi: nat,
                        c: map<nat, (nat, seq<Byte>)>)
    requires lo <= hi && Allocs(m1, o1, m2, o2, r, lo, hi, c) && Grows(m2, o2, m3, o3, r)
    ensures Allocs(m1, o1, m3, o3, r, lo, hi, c)
  {
    AllocsNothing(m2, o2, m3, o3, r, hi, c);
    AllocsTransitive(m1, o1, m2, o2, m3, o3, r, lo, hi, hi, c);
  }

  function ZeroPage(): (s: seq<Byte>)
    ensures |s| == PGSIZE
  {
    seq(PGSIZE, _ => 0)
  }

  /** Zeroed pages with one permission. */
  function ZeroPages(lo: nat, hi: nat, perm: nat): map<nat, (nat, seq<Byte>)> {
    map v | v in Range(lo, hi) :: (perm, ZeroPage())
  }

  function Range(lo: nat, hi: nat): (s: set<nat>)
    ensures forall v :: v in s <==> lo <= v < hi
    decreases hi - lo
  {
    if lo < hi then {lo} + Range(lo + 1, hi) else {}
  }

  /** The flags and the contents of the pages lo .. hi of tree r. */
  ghost function Contents(m: Vm, o: Own, r: nat, lo: nat, hi: nat): map<nat, (nat, seq<Byte>)>
    requires NodesOk(m, o)
  {
    map v: nat | lo <= v < hi :: (Flags(Leaf(m, o, r, v)), Bytes(m, Page(Leaf(m, o, r, v))))
  }

  ghost function Bytes(m: Vm, p: nat): seq<Byte> {
    if p in m.data then m.data[p] else []
  }

  lemma OwnedData(m: Vm, o: Own, r: nat, v: nat)
    requires Sound(m, o, {}) && V(Leaf(m, o, r, v)) && OwnsPage(m, o, r, v)
    ensures var p := Page(Leaf(m, o, r, v)); p in m.data && |m.data[p]| == PGSIZE
    ensures IsLeaf(Flags(Leaf(m, o, r, v)))
  {
    assert IsLeaf(Leaf(m, o, r, v)) by { ValidLeaf(m, o, r, v); }
    FlagsLeaf(Leaf(m, o, r, v));
    assert UnfoldSound(0);
  }

  lemma FlagsLeaf(pte: nat)
    ensures IsLeaf(Flags(pte)) <==> IsLeaf(pte)
  {
    var (q, f) := (pte / 1024, pte % 1024);
    assert pte == 8 * (128 * q) + f;
    HalfMod(64 * q, f);
  }

  lemma HalfMod(k: nat, f: nat)
    ensures (16 * k + f) / 2 % 8 == f / 2 % 8
  {
    assert (16 * k + f) / 2 == 8 * k + f / 2;
  }

  /** Allocating in one tree leaves the pages of another alone. */
  lemma AllocsOther(m: Vm, o: Own, m': Vm, o': Own, r: nat, lo: nat, hi: nat, c: map<nat, (nat, seq<Byte>)>, r': nat,
                    v: nat)
    requires Allocs(m, o, m', o', r, lo, hi, c) && r' != r && OwnsPage(m, o, r', v)
    ensures Leaf(m', o', r', v) == Leaf(m, o, r', v) && OwnsPage(m', o', r', v)
    ensures var p := Page(Leaf(m, o, r', v));
              (p in m.data <==> p in m'.data) && (p in m.data ==> m'.data[p] == m.data[p])
  {
    assert UnfoldAllocs(0);
  }
}
