/**
 Physical pages and Sv39 page-table trees (kernel/vm.c, kernel/kalloc.c, kernel/riscv.h).
 Pages are named by page number, that is physical address / 4096.
 */
module VmState {
  import opened Blocks

  const PGSIZE: nat := 4096
  const NPTE: nat := 512
  const MAXVPN: nat := 0x400_0000  // MAXVA / PGSIZE: one bit less than Sv39's 27-bit page numbers

  /** PGROUNDUP(sz) / PGSIZE. */
  function Pages(sz: nat): nat { (sz + PGSIZE - 1) / PGSIZE }

  // Page-table entries: ten flag bits below the page number.

  const PTE_V: nat := 1
  const PTE_R: nat := 2
  const PTE_W: nat := 4
  const PTE_X: nat := 8
  const PTE_U: nat := 16

  predicate V(pte: nat) { pte % 2 == 1 }
  predicate W(pte: nat) { pte / 4 % 2 == 1 }
  predicate U(pte: nat) { pte / 16 % 2 == 1 }

  /** Some of R, W and X is set: the entry maps a page rather than a lower table. */
  predicate IsLeaf(pte: nat) { pte / 2 % 8 != 0 }

  /** What a level-0 table may hold. */
  predicate GoodLeaf(pte: nat) { pte == 0 || (V(pte) && IsLeaf(pte)) }

  function Page(pte: nat): nat { pte / 1024 }

  function Flags(pte: nat): nat { pte % 1024 }

  /** PA2PTE(pa) | perm | PTE_V. */
  function MakePte(page: nat, perm: nat): (pte: nat)
    requires perm < 1024
    ensures V(pte) && Page(pte) == page && Flags(pte) == if perm % 2 == 1 then perm else perm + 1
  {
    page * 1024 + if perm % 2 == 1 then perm else perm + 1
  }

  /** An entry made with perm may be written if perm has PTE_W, may be used by user code if it has PTE_U, and maps a
      page if it has any of R, W and X. */
  lemma FlagsTell(page: nat, perm: nat)
    requires perm < 1024
    ensures W(MakePte(page, perm)) <==> perm / PTE_W % 2 == 1
    ensures U(MakePte(page, perm)) <==> perm / PTE_U % 2 == 1
    ensures IsLeaf(MakePte(page, perm)) <==> perm / PTE_R % 2 == 1 || perm / PTE_W % 2 == 1 || perm / PTE_X % 2 == 1
  {
    var f := if perm % 2 == 1 then perm else perm + 1;
    FlagBit(page, f, PTE_W, 256);
    FlagBit(page, f, PTE_U, 64);
    FlagBit(page, f, PTE_R, 512);
    OddFlags(perm, f);
    Parity(128 * page, f / PTE_W);
    Parity(32 * page, f / PTE_U);
    EightFlags(64 * page, f / PTE_R, perm);
  }

  lemma FlagBit(page: nat, f: nat, flag: nat, n: nat)
    requires flag > 0 && flag * n == 1024
    ensures (page * 1024 + f) / flag == n * page + f / flag
  {
    assert page * 1024 + f == flag * (n * page + f / flag) + f % flag;
  }

  /** PTE_V is none of the other flags. */
  lemma OddFlags(perm: nat, f: nat)
    requires f == if perm % 2 == 1 then perm else perm + 1
    ensures f / 2 == perm / 2 && f / 4 == perm / 4 && f / 16 == perm / 16
  {
  }

  lemma Parity(k: nat, g: nat)
    ensures (2 * k + g) % 2 == g % 2
  {
  }

  lemma EightFlags(k: nat, g: nat, perm: nat)
    requires g == perm / 2
    ensures (8 * k + g) % 8 != 0 <==> perm / 2 % 2 == 1 || perm / 4 % 2 == 1 || perm / 8 % 2 == 1
  {
    assert (8 * k + g) % 8 == g % 8;
    LowBits(g);
    assert perm / 4 == g / 2 && perm / 8 == g / 4;
  }

  lemma LowBits(g: nat)
    ensures g % 8 != 0 <==> g % 2 == 1 || g / 2 % 2 == 1 || g / 4 % 2 == 1
  {
    var h := g / 2;
    var q := h / 2;
    var (a, b, c) := (g % 2, h % 2, q % 2);
    assert q == g / 4 && g == 8 * (q / 2) + (4 * c + 2 * b + a);
    Eighth(q / 2, 4 * c + 2 * b + a);
  }

  lemma Eighth(k: nat, r: nat)
    requires r < 8
    ensures (8 * k + r) % 8 == r
  {
  }

  /** The nine index bits of a virtual page number at a level. */
  function Px(level: nat, vpn: nat): (i: nat)
    requires level <= 2
    ensures i < NPTE
  {
    (if level == 0 then vpn else if level == 1 then vpn / 512 else vpn / 262144) % NPTE
  }

  /** The bits above them: which table of that level covers the page. */
  function Prefix(level: nat, vpn: nat): nat
    requires level <= 2
  {
    if level == 0 then vpn / 512 else if level == 1 then vpn / 262144 else 0
  }

  lemma PrefixStep(level: nat, vpn: nat)
    requires 0 < level <= 2 && vpn < MAXVPN
    ensures Prefix(level - 1, vpn) == Prefix(level, vpn) * NPTE + Px(level, vpn)
  {
  }

  /** Two page numbers with the same table and index are the same page. */
  lemma PathInjective(vpn: nat, vpn': nat)
    requires Prefix(0, vpn) == Prefix(0, vpn') && Px(0, vpn) == Px(0, vpn')
    ensures vpn == vpn'
  {
  }

  /** A table page of the tree with root page r: the table of this level that covers prefix x. */
  datatype Key = Key(r: nat, level: nat, x: nat)

  function Child(k: Key, i: nat): Key
    requires k.level > 0
  {
    Key(k.r, k.level - 1, k.x * NPTE + i)
  }

  function Parent(k: Key): Key {
    Key(k.r, k.level + 1, k.x / NPTE)
  }

  /** Who a physical page belongs to. */
  datatype Owner =
    | Free                      // on the free list
    | Node(key: Key)            // a page-table page
    | User(r: nat, vpn: nat)    // mapped and owned by tree r at vpn
    | Held                      // allocated and held by other kernel code

  datatype Vm = Vm(free: seq<nat>, table: map<nat, seq<nat>>, data: map<nat, seq<Byte>>)

  /** Ghost bookkeeping: where each table page is, and who owns each page. */
  datatype Own = Own(at: map<Key, nat>, owner: map<nat, Owner>)

  predicate NodesOk(m: Vm, o: Own) {
    true == forall k :: k in o.at ==>
      && k.level <= 2 && (k.level == 2 ==> k.x == 0 && o.at[k] == k.r)
      && o.at[k] in o.owner && o.owner[o.at[k]] == Node(k)
      && o.at[k] in m.table && |m.table[o.at[k]]| == NPTE
  }

  function Entry(m: Vm, o: Own, k: Key, i: nat): nat
    requires NodesOk(m, o) && k in o.at && i < NPTE
  {
    m.table[o.at[k]][i]
  }

  /** The leaf entry for a page of tree r; 0, which is invalid, if there is no table for it. */
  function Leaf(m: Vm, o: Own, r: nat, vpn: nat): nat
    requires NodesOk(m, o)
  {
    var k := Key(r, 0, Prefix(0, vpn));
    if k in o.at then Entry(m, o, k, Px(0, vpn)) else 0
  }

  /** Inner entries link exactly to the table pages of the tree; children in `det` are exempt. */
  predicate LinksOk(m: Vm, o: Own, det: set<Key>)
    requires NodesOk(m, o)
  {
    forall k, i :: k in o.at && k.level > 0 && 0 <= i < NPTE && Child(k, i) !in det ==>
      && (V(Entry(m, o, k, i)) <==> Child(k, i) in o.at)
      && (V(Entry(m, o, k, i)) ==> Entry(m, o, k, i) == MakePte(o.at[Child(k, i)], PTE_V))
  }

  predicate ParentsOk(o: Own) {
    forall k :: k in o.at && k.level < 2 ==> Parent(k) in o.at
  }

  predicate LeavesOk(m: Vm, o: Own)
    requires NodesOk(m, o)
  {
    forall k, i :: k in o.at && k.level == 0 && 0 <= i < NPTE ==> GoodLeaf(Entry(m, o, k, i))
  }

  predicate OwnersOk(m: Vm, o: Own)
    requires NodesOk(m, o)
  {
    forall p :: p in o.owner ==>
      && p != 0
      && (o.owner[p].Node? ==> o.owner[p].key in o.at && o.at[o.owner[p].key] == p)
      && (o.owner[p].User? ==>
            var (r, v) := (o.owner[p].r, o.owner[p].vpn);
            v < MAXVPN && V(Leaf(m, o, r, v)) && Page(Leaf(m, o, r, v)) == p && p in m.data && |m.data[p]| == PGSIZE)
      && (o.owner[p].Free? ==> p in m.free)
  }

  predicate FreeOk(m: Vm, o: Own) {
    && (forall i :: 0 <= i < |m.free| ==> m.free[i] in o.owner && o.owner[m.free[i]].Free?)
    && (forall i, j :: 0 <= i < j < |m.free| ==> m.free[i] != m.free[j])
  }

  /** Every page is on the free list once, or a table page at one place of one tree, or owned by one
      mapping, or held elsewhere; and the tables form trees. */
  predicate Inv(m: Vm, o: Own, det: set<Key>) {
    true == (NodesOk(m, o) && LinksOk(m, o, det) && ParentsOk(o) && LeavesOk(m, o) && OwnersOk(m, o) && FreeOk(m, o))
  }

  /** What the hardware, and walk with alloc == 0, finds by following the entries from table page p. */
  function Lookup(m: Vm, p: nat, level: nat, vpn: nat): nat
    requires level <= 2
    decreases level
  {
    if p !in m.table || |m.table[p]| != NPTE then 0
    else
      var pte := m.table[p][Px(level, vpn)];
      if level == 0 then pte else if V(pte) then Lookup(m, Page(pte), level - 1, vpn) else 0
  }

  /** Following the tree from any of its tables gives the leaf entry. */
  lemma {:induction false} LookupNode(m: Vm, o: Own, r: nat, level: nat, vpn: nat)
    requires Inv(m, o, {}) && level <= 2 && vpn < MAXVPN && Key(r, level, Prefix(level, vpn)) in o.at
    ensures Lookup(m, o.at[Key(r, level, Prefix(level, vpn))], level, vpn) == Leaf(m, o, r, vpn)
    decreases level
  {
    var k := Key(r, level, Prefix(level, vpn));
    if level > 0 {
      PrefixStep(level, vpn);
      var c := Child(k, Px(level, vpn));
      assert c == Key(r, level - 1, Prefix(level - 1, vpn));
      if c in o.at {
        LookupNode(m, o, r, level - 1, vpn);
      } else {
        NoChildNoLeaf(m, o, r, level, vpn);
      }
    }
  }

  lemma NoChildNoLeaf(m: Vm, o: Own, r: nat, level: nat, vpn: nat)
    requires Inv(m, o, {}) && 0 < level <= 2 && vpn < MAXVPN && Key(r, level - 1, Prefix(level - 1, vpn)) !in o.at
    ensures Leaf(m, o, r, vpn) == 0
  {
    if level == 2 {
      assert Parent(Key(r, 0, Prefix(0, vpn))) == Key(r, 1, Prefix(1, vpn));
    }
  }

  /** No translation of any tree changes. */
  ghost predicate SameLeaves(m: Vm, o: Own, m': Vm, o': Own) {
    && NodesOk(m, o) && NodesOk(m', o')
    && forall r, vpn :: Leaf(m', o', r, vpn) == Leaf(m, o, r, vpn)
  }

  /** The table pages of all trees are where they were and unchanged. */
  ghost predicate SameTables(m: Vm, o: Own, m': Vm, o': Own) {
    true == (
      && o'.at == o.at
      && forall k :: k in o.at ==>
           && o.at[k] in m.table && o.at[k] in m'.table && m'.table[o.at[k]] == m.table[o.at[k]]
           && o.at[k] in o'.owner && o'.owner[o.at[k]] == Node(k))
  }

  lemma SameTablesOk(m: Vm, o: Own, m': Vm, o': Own, det: set<Key>)
    requires NodesOk(m, o) && LinksOk(m, o, det) && ParentsOk(o) && LeavesOk(m, o) && SameTables(m, o, m', o')
    ensures NodesOk(m', o') && LinksOk(m', o', det) && ParentsOk(o') && LeavesOk(m', o') && SameLeaves(m, o, m', o')
  {
    assert NodesOk(m', o');
    forall k, i | k in o.at && 0 <= i < NPTE ensures Entry(m', o', k, i) == Entry(m, o, k, i) {
    }
  }

  // kalloc and kfree.

  lemma TakeInv(m: Vm, o: Own, det: set<Key>)
    requires Inv(m, o, det) && m.free != []
    ensures var (p, m', o') := (m.free[0], m.(free := m.free[1..]), o.(owner := o.owner[m.free[0] := Held]));
            Inv(m', o', det) && SameLeaves(m, o, m', o') && p in o.owner && o.owner[p] == Free
  {
    var (p, m', o') := (m.free[0], m.(free := m.free[1..]), o.(owner := o.owner[m.free[0] := Held]));
    assert o.owner[p] == Free;
    assert SameTables(m, o, m', o');
    SameTablesOk(m, o, m', o', det);
    forall q | q in m.free && q != p ensures q in m'.free {
      var i :| 0 <= i < |m.free| && m.free[i] == q;
      assert m'.free[i - 1] == q;
    }
    assert FreeOk(m', o');
    assert OwnersOk(m', o');
  }

  lemma GiveInv(m: Vm, o: Own, det: set<Key>, p: nat)
    requires Inv(m, o, det) && p in o.owner && o.owner[p] == Held
    ensures var m' := Vm([p] + m.free, m.table - {p}, m.data - {p});
            var o' := o.(owner := o.owner[p := Free]);
            Inv(m', o', det) && SameLeaves(m, o, m', o')
  {
    var m' := Vm([p] + m.free, m.table - {p}, m.data - {p});
    var o' := o.(owner := o.owner[p := Free]);
    assert SameTables(m, o, m', o');
    SameTablesOk(m, o, m', o', det);
    assert m'.free[0] == p && forall i :: 0 <= i < |m.free| ==> m'.free[i + 1] == m.free[i];
    assert FreeOk(m', o');
    assert OwnersOk(m', o');
  }

  // Using a held page as a table or as data.

  function ZeroTable(): (t: seq<nat>)
    ensures |t| == NPTE && forall i :: 0 <= i < NPTE ==> t[i] == 0
  {
    seq(NPTE, _ => 0)
  }

  lemma HeldInv(m: Vm, o: Own, det: set<Key>, p: nat, t: map<nat, seq<nat>>, d: map<nat, seq<Byte>>)
    requires Inv(m, o, det) && p in o.owner && o.owner[p] == Held
    requires forall q :: q != p ==> (q in m.table <==> q in t) && (q in t ==> t[q] == m.table[q])
    requires forall q :: q != p ==> (q in m.data <==> q in d) && (q in d ==> d[q] == m.data[q])
    ensures Inv(Vm(m.free, t, d), o, det) && SameLeaves(m, o, Vm(m.free, t, d), o)
  {
    var m' := Vm(m.free, t, d);
    assert SameTables(m, o, m', o);
    SameTablesOk(m, o, m', o, det);
    assert OwnersOk(m', o);
  }

  /** Stores an entry in a table page. */
  function SetEntry(m: Vm, page: nat, i: nat, pte: nat): Vm
    requires page in m.table && i < |m.table[page]|
  {
    var t: seq<nat> := m.table[page][i := pte];
    m.(table := m.table[page := t])
  }

  // Hanging a zeroed table page below another.

  predicate CanAttach(m: Vm, o: Own, k: Key, i: nat, p: nat) {
    && NodesOk(m, o) && k in o.at && k.level > 0 && i < NPTE && Child(k, i) !in o.at
    && p in o.owner && o.owner[p] == Held && p in m.table && m.table[p] == ZeroTable()
  }

  function AttachVm(m: Vm, o: Own, k: Key, i: nat, p: nat): Vm
    requires CanAttach(m, o, k, i, p)
  {
    SetEntry(m, o.at[k], i, MakePte(p, PTE_V))
  }

  function AttachOwn(o: Own, k: Key, i: nat, p: nat): Own
    requires k.level > 0
  {
    Own(o.at[Child(k, i) := p], o.owner[p := Node(Child(k, i))])
  }

  lemma AttachNodes(m: Vm, o: Own, k: Key, i: nat, p: nat)
    requires CanAttach(m, o, k, i, p)
    ensures NodesOk(AttachVm(m, o, k, i, p), AttachOwn(o, k, i, p))
    ensures forall k', i' :: k' in o.at && 0 <= i' < NPTE ==>
              Entry(AttachVm(m, o, k, i, p), AttachOwn(o, k, i, p), k', i')
              == if k' == k && i' == i then MakePte(p, PTE_V) else Entry(m, o, k', i')
    ensures forall i' :: 0 <= i' < NPTE ==> Entry(AttachVm(m, o, k, i, p), AttachOwn(o, k, i, p), Child(k, i), i') == 0
  {
    assert o.at[k] != p;
    forall k' | k' in o.at && k' != k ensures o.at[k'] != o.at[k] {
      assert o.owner[o.at[k']] == Node(k') && o.owner[o.at[k]] == Node(k);
    }
  }

  lemma ChildInjective(k: Key, i: nat, k': Key, i': nat)
    requires k.level > 0 && k'.level > 0 && i < NPTE && i' < NPTE && Child(k, i) == Child(k', i')
    ensures k == k' && i == i'
  {
  }

  lemma AttachLinks(m: Vm, o: Own, det: set<Key>, k: Key, i: nat, p: nat)
    requires Inv(m, o, det) && CanAttach(m, o, k, i, p) && Child(k, i) !in det
    ensures NodesOk(AttachVm(m, o, k, i, p), AttachOwn(o, k, i, p))
    ensures LinksOk(AttachVm(m, o, k, i, p), AttachOwn(o, k, i, p), det)
  {
    var (m', o', c) := (AttachVm(m, o, k, i, p), AttachOwn(o, k, i, p), Child(k, i));
    AttachNodes(m, o, k, i, p);
    forall k', i' | k' in o'.at && k'.level > 0 && 0 <= i' < NPTE && Child(k', i') !in det
      ensures V(Entry(m', o', k', i')) <==> Child(k', i') in o'.at
      ensures V(Entry(m', o', k', i')) ==> Entry(m', o', k', i') == MakePte(o'.at[Child(k', i')], PTE_V)
    {
      if k' == c {
        OrphanFree(o, c, i');
      } else if Child(k', i') == c {
        ChildInjective(k', i', k, i);
      }
    }
  }

  lemma OrphanFree(o: Own, c: Key, i: nat)
    requires ParentsOk(o) && c !in o.at && 0 < c.level < 2 && i < NPTE
    ensures Child(c, i) !in o.at && Child(c, i) != c
  {
    assert Parent(Child(c, i)) == c;
  }

  lemma AttachParents(o: Own, k: Key, i: nat, p: nat)
    requires ParentsOk(o) && k in o.at && k.level > 0 && i < NPTE
    ensures ParentsOk(AttachOwn(o, k, i, p))
  {
    assert Parent(Child(k, i)) == k;
  }

  lemma AttachShape(m: Vm, o: Own, k: Key, i: nat, p: nat)
    requires CanAttach(m, o, k, i, p) && LeavesOk(m, o)
    ensures NodesOk(AttachVm(m, o, k, i, p), AttachOwn(o, k, i, p))
    ensures LeavesOk(AttachVm(m, o, k, i, p), AttachOwn(o, k, i, p))
  {
    var (m', o', c) := (AttachVm(m, o, k, i, p), AttachOwn(o, k, i, p), Child(k, i));
    AttachNodes(m, o, k, i, p);
    forall k', i' | k' in o'.at && k'.level == 0 && 0 <= i' < NPTE
      ensures GoodLeaf(Entry(m', o', k', i'))
    {
      if k' != c { assert Entry(m', o', k', i') == Entry(m, o, k', i'); }
    }
  }

  lemma AttachOwners(m: Vm, o: Own, k: Key, i: nat, p: nat)
    requires CanAttach(m, o, k, i, p) && OwnersOk(m, o) && FreeOk(m, o)
    ensures NodesOk(AttachVm(m, o, k, i, p), AttachOwn(o, k, i, p))
    ensures OwnersOk(AttachVm(m, o, k, i, p), AttachOwn(o, k, i, p))
    ensures FreeOk(AttachVm(m, o, k, i, p), AttachOwn(o, k, i, p))
  {
    var (m', o') := (AttachVm(m, o, k, i, p), AttachOwn(o, k, i, p));
    AttachLeaves(m, o, k, i, p);
    forall q | q in o.owner && q != p && o.owner[q].User?
      ensures Leaf(m', o', o.owner[q].r, o.owner[q].vpn) == Leaf(m, o, o.owner[q].r, o.owner[q].vpn)
    {
    }
  }

  lemma AttachInv(m: Vm, o: Own, det: set<Key>, k: Key, i: nat, p: nat)
    requires Inv(m, o, det) && CanAttach(m, o, k, i, p) && Child(k, i) !in det
    ensures Inv(AttachVm(m, o, k, i, p), AttachOwn(o, k, i, p), det)
    ensures SameLeaves(m, o, AttachVm(m, o, k, i, p), AttachOwn(o, k, i, p))
  {
    AttachLinks(m, o, det, k, i, p);
    AttachParents(o, k, i, p);
    AttachShape(m, o, k, i, p);
    AttachOwners(m, o, k, i, p);
    AttachLeaves(m, o, k, i, p);
  }

  lemma AttachLeaves(m: Vm, o: Own, k: Key, i: nat, p: nat)
    requires CanAttach(m, o, k, i, p)
    ensures SameLeaves(m, o, AttachVm(m, o, k, i, p), AttachOwn(o, k, i, p))
  {
    AttachNodes(m, o, k, i, p);
  }

  // Changing a leaf entry.

  predicate CanSetLeaf(m: Vm, o: Own, r: nat, vpn: nat, pte: nat) {
    && NodesOk(m, o) && Key(r, 0, Prefix(0, vpn)) in o.at
    && GoodLeaf(pte)
    && (forall q :: q in o.owner && o.owner[q] == User(r, vpn) ==> V(pte) && Page(pte) == q)
  }

  function SetLeaf(m: Vm, o: Own, r: nat, vpn: nat, pte: nat): Vm
    requires NodesOk(m, o) && Key(r, 0, Prefix(0, vpn)) in o.at
  {
    SetEntry(m, o.at[Key(r, 0, Prefix(0, vpn))], Px(0, vpn), pte)
  }

  lemma SetLeafEntries(m: Vm, o: Own, r: nat, vpn: nat, pte: nat)
    requires NodesOk(m, o) && Key(r, 0, Prefix(0, vpn)) in o.at
    ensures NodesOk(SetLeaf(m, o, r, vpn, pte), o)
    ensures forall k, i :: k in o.at && 0 <= i < NPTE ==>
              Entry(SetLeaf(m, o, r, vpn, pte), o, k, i)
              == if k == Key(r, 0, Prefix(0, vpn)) && i == Px(0, vpn) then pte else Entry(m, o, k, i)
  {
    var k := Key(r, 0, Prefix(0, vpn));
    forall k' | k' in o.at && k' != k ensures o.at[k'] != o.at[k] {
      assert o.owner[o.at[k']] == Node(k') && o.owner[o.at[k]] == Node(k);
    }
  }

  lemma SetLeafOne(m: Vm, o: Own, r: nat, vpn: nat, pte: nat, r': nat, vpn': nat)
    requires NodesOk(m, o) && Key(r, 0, Prefix(0, vpn)) in o.at
    ensures NodesOk(SetLeaf(m, o, r, vpn, pte), o)
    ensures Leaf(SetLeaf(m, o, r, vpn, pte), o, r', vpn')
            == if r' == r && vpn' == vpn then pte else Leaf(m, o, r', vpn')
  {
    SetLeafEntries(m, o, r, vpn, pte);
    if Prefix(0, vpn) == Prefix(0, vpn') && Px(0, vpn) == Px(0, vpn') { PathInjective(vpn, vpn'); }
  }

  lemma SetLeafInv(m: Vm, o: Own, det: set<Key>, r: nat, vpn: nat, pte: nat)
    requires Inv(m, o, det) && CanSetLeaf(m, o, r, vpn, pte)
    ensures Inv(SetLeaf(m, o, r, vpn, pte), o, det)
  {
    var m' := SetLeaf(m, o, r, vpn, pte);
    SetLeafEntries(m, o, r, vpn, pte);
    assert LinksOk(m', o, det);
    assert LeavesOk(m', o);
    SetLeafOwners(m, o, r, vpn, pte);
  }

  lemma SetLeafOwners(m: Vm, o: Own, r: nat, vpn: nat, pte: nat)
    requires CanSetLeaf(m, o, r, vpn, pte) && OwnersOk(m, o)
    ensures NodesOk(SetLeaf(m, o, r, vpn, pte), o) && OwnersOk(SetLeaf(m, o, r, vpn, pte), o)
  {
    var m' := SetLeaf(m, o, r, vpn, pte);
    SetLeafEntries(m, o, r, vpn, pte);
    forall q | q in o.owner && o.owner[q].User?
      ensures var (r', v') := (o.owner[q].r, o.owner[q].vpn);
              V(Leaf(m', o, r', v')) && Page(Leaf(m', o, r', v')) == q
    {
      SetLeafOne(m, o, r, vpn, pte, o.owner[q].r, o.owner[q].vpn);
    }
  }

  // A held page that is mapped may be given to its mapping, and taken back.

  lemma ClaimInv(m: Vm, o: Own, det: set<Key>, p: nat, r: nat, vpn: nat)
    requires Inv(m, o, det) && p in o.owner && o.owner[p] == Held && vpn < MAXVPN
    requires V(Leaf(m, o, r, vpn)) && Page(Leaf(m, o, r, vpn)) == p && p in m.data && |m.data[p]| == PGSIZE
    ensures var o' := o.(owner := o.owner[p := User(r, vpn)]); Inv(m, o', det) && SameLeaves(m, o, m, o')
  {
    var o' := o.(owner := o.owner[p := User(r, vpn)]);
    assert SameTables(m, o, m, o');
    SameTablesOk(m, o, m, o', det);
    assert OwnersOk(m, o');
  }

  lemma DisownInv(m: Vm, o: Own, det: set<Key>, p: nat)
    requires Inv(m, o, det) && p in o.owner && o.owner[p].User?
    ensures var o' := o.(owner := o.owner[p := Held]); Inv(m, o', det) && SameLeaves(m, o, m, o')
  {
    var o' := o.(owner := o.owner[p := Held]);
    assert SameTables(m, o, m, o');
    SameTablesOk(m, o, m, o', det);
    assert OwnersOk(m, o');
  }

  /** A page is owned by at most one mapping. */
  lemma UserUnique(m: Vm, o: Own, det: set<Key>, p: nat, q: nat)
    requires Inv(m, o, det) && p in o.owner && q in o.owner && o.owner[p] == o.owner[q] && o.owner[p].User?
    ensures p == q
  {
  }

  // Counting pages.

  ghost function UserPages(o: Own): set<nat> { set p | p in o.owner && o.owner[p].User? }
  ghost function HeldPages(o: Own): set<nat> { set p | p in o.owner && o.owner[p].Held? }
  ghost function FreePages(o: Own): set<nat> { set p | p in o.owner && o.owner[p].Free? }
  ghost function TablePages(o: Own): set<nat> { set p | p in o.owner && o.owner[p].Node? }

  lemma {:induction false} DistinctCount(s: seq<nat>, t: set<nat>)
    requires (forall i, j :: 0 <= i < j < |s| ==> s[i] != s[j]) && forall p :: p in s <==> p in t
    ensures |s| == |t|
  {
    if s == [] {
      assert t == {};
    } else {
      var n := |s| - 1;
      assert s == s[..n] + [s[n]];
      forall p ensures p in s[..n] <==> p in t - {s[n]} {
      }
      DistinctCount(s[..n], t - {s[n]});
    }
  }

  lemma {:induction false} BijectionCount(f: map<Key, nat>, t: set<nat>)
    requires (forall k :: k in f ==> f[k] in t) && (forall p :: p in t ==> exists k :: k in f && f[k] == p)
    requires forall k, k' :: k in f && k' in f && f[k] == f[k'] ==> k == k'
    ensures |f| == |t|
  {
    if f == map[] {
      assert t == {};
    } else {
      var k :| k in f;
      var (g, u) := (f - {k}, t - {f[k]});
      forall p | p in u ensures exists k' :: k' in g && g[k'] == p {
        var k' :| k' in f && f[k'] == p;
        assert k' in g;
      }
      BijectionCount(g, u);
      assert f == g[k := f[k]];
    }
  }

  lemma CountFree(m: Vm, o: Own)
    requires FreeOk(m, o) && forall p :: p in o.owner && o.owner[p].Free? ==> p in m.free
    ensures |m.free| == |FreePages(o)|
  {
    DistinctCount(m.free, FreePages(o));
  }

  lemma CountTables(m: Vm, o: Own)
    requires NodesOk(m, o)
    requires forall p :: p in o.owner && o.owner[p].Node? ==> o.owner[p].key in o.at && o.at[o.owner[p].key] == p
    ensures |o.at| == |TablePages(o)|
  {
    forall k, k' | k in o.at && k' in o.at && o.at[k] == o.at[k'] ensures k == k' {
      assert o.owner[o.at[k]] == Node(k) && o.owner[o.at[k']] == Node(k');
    }
    BijectionCount(o.at, TablePages(o));
  }

  lemma CountKinds(o: Own)
    ensures |FreePages(o)| + |TablePages(o)| + |UserPages(o)| + |HeldPages(o)| == |o.owner|
  {
    var (a, b, c, d) := (FreePages(o), TablePages(o), UserPages(o), HeldPages(o));
    assert a !! b && (a + b) !! c && (a + b + c) !! d;
    assert o.owner.Keys == a + b + c + d;
  }

  /** Every page is counted once: free, table, user or held. */
  lemma PageConservation(m: Vm, o: Own)
    requires Inv(m, o, {})
    ensures |m.free| + |o.at| + |UserPages(o)| + |HeldPages(o)| == |o.owner|
  {
    CountFree(m, o);
    CountTables(m, o);
    CountKinds(o);
  }
}
