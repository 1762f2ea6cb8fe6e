/**
 Directories and link counts (create, sys_link, sys_unlink and isdirempty of kernel/sysfile.c;
 dirlookup, dirlink, ialloc and iput of kernel/fs.c), one system call at a time.  Names are
 already cut to DIRSIZ; inode 0 does not exist and inode 1 is the root.
 */
module LinkCount {
  import opened Blocks

  const ROOT: nat := 1
  const MAXLINK: int := 32767  // nlink is a short

  datatype Kind = Free | File | Dir | Device
  datatype Entry = Entry(inum: nat, name: string)  // inum 0: empty
  datatype Inode = Inode(kind: Kind, nlink: int, entries: seq<Entry>)

  type Tree = seq<Inode>
  type Place = (nat, nat)  // a directory and the index of an entry in it

  /** A directory that has not been removed. */
  predicate Live(t: Tree, d: nat) {
    d < |t| && t[d].kind.Dir? && t[d].nlink >= 1
  }

  predicate IsEntry(t: Tree, d: nat, k: nat, i: nat) {
    Live(t, d) && k < |t[d].entries| && t[d].entries[k].inum == i
  }

  /** The entries that name i, other than ".", in directories that have not been removed. */
  ghost function Refs(t: Tree, i: nat): set<Place> {
    set d, k | 0 <= d < |t| && 0 <= k < |t[d].entries| && IsEntry(t, d, k, i) && t[d].entries[k].name != "." :: (d, k)
  }

  /** Link counts are right. */
  ghost predicate CountAt(t: Tree, i: nat) {
    i < |t| ==> t[i].nlink == |Refs(t, i)| && (t[i].kind.Free? ==> t[i].nlink == 0)
  }

  ghost predicate CountsOk(t: Tree) { forall i :: i > 0 ==> CountAt(t, i) }

  /** "." and ".." come first, and only there. */
  predicate HeadOk(t: Tree, d: nat)
    requires d < |t|
  {
    && |t[d].entries| >= 2 && t[d].entries[0] == Entry(d, ".") && t[d].entries[1].name == ".."
    && forall k :: 2 <= k < |t[d].entries| && t[d].entries[k].inum != 0 ==>
         t[d].entries[k].name != "." && t[d].entries[k].name != ".."
  }

  predicate DirAt(t: Tree, d: nat) {
    Live(t, d) ==> HeadOk(t, d) && forall k :: 0 <= k < |t[d].entries| ==> t[d].entries[k].inum < |t|
  }

  /** A directory but the root hangs at one place, the one its ".." leads to. */
  predicate PlaceAt(t: Tree, place: map<nat, Place>, d: nat) {
    Live(t, d) && d != ROOT ==>
      && d in place && |t[d].entries| >= 2
      && var (p, k) := place[d]; k >= 2 && IsEntry(t, p, k, d) && t[d].entries[1].inum == p
  }

  predicate EntryAt(t: Tree, place: map<nat, Place>, d: nat, k: nat) {
    Live(t, d) && 2 <= k < |t[d].entries| && Live(t, t[d].entries[k].inum) ==>
      t[d].entries[k].inum != ROOT && t[d].entries[k].inum in place && place[t[d].entries[k].inum] == (d, k)
  }

  predicate RootOk(t: Tree) {
    |t| > ROOT && Live(t, ROOT) && t[0].kind.Free? && |t[ROOT].entries| >= 2 && t[ROOT].entries[1].inum == ROOT
  }

  ghost predicate DirsOk(t: Tree, place: map<nat, Place>) {
    && RootOk(t)
    && (forall d :: 0 <= d < |t| ==> DirAt(t, d) && PlaceAt(t, place, d))
    && (forall d: nat, k: nat :: EntryAt(t, place, d, k))
  }

  // A predicate of the form `forall u :: UnfoldP(u) ==> body` means `body`, but the verifier looks
  // inside P only in proofs that mention UnfoldP.
  predicate UnfoldInv(u: int) { true }

  ghost predicate Inv(t: Tree, place: map<nat, Place>) {
    forall u {:trigger UnfoldInv(u)} :: UnfoldInv(u) ==> CountsOk(t) && DirsOk(t, place) && FreeOk(t)
  }

  lemma Close(t: Tree, place: map<nat, Place>)
    requires CountsOk(t) && RootOk(t) && FreeOk(t)
    requires forall d :: 0 <= d < |t| ==> DirAt(t, d) && PlaceAt(t, place, d)
    requires forall d: nat, k: nat :: EntryAt(t, place, d, k)
    ensures Inv(t, place)
  {
  }

  const FREED := Inode(Free, 0, [])

  /** A removed directory of a tree of n inodes has kept "." and "..", and holds nothing else. */
  predicate DeadOk(n: nat, d: nat, x: Inode) {
    x.kind.Dir? && x.nlink == 0 ==>
      && |x.entries| >= 2 && x.entries[0] == Entry(d, ".") && x.entries[1].name == ".."
      && 0 < x.entries[1].inum < n && x.entries[1].inum != d
      && forall k :: 2 <= k < |x.entries| ==> x.entries[k].inum == 0
  }

  ghost predicate FreeOk(t: Tree) {
    forall i :: 0 <= i < |t| ==> (t[i].kind.Free? ==> t[i] == FREED) && DeadOk(|t|, i, t[i])
  }

  /** A new file system: the root, named only by its own "..". */
  lemma Fresh(t: Tree)
    requires |t| > ROOT && t[ROOT] == Inode(Dir, 1, [Entry(ROOT, "."), Entry(ROOT, "..")])
    requires forall i :: 0 <= i < |t| && i != ROOT ==> t[i] == FREED
    ensures Inv(t, map[])
  {
    assert Refs(t, ROOT) == {(ROOT, 1)};
    forall i | 0 < i < |t| && i != ROOT ensures Refs(t, i) == {} {
    }
  }

  /** Putting an entry for i at place (d, k). */
  function WithEntry(t: Tree, d: nat, k: nat, e: Entry): Tree
    requires d < |t| && k <= |t[d].entries|
  {
    var es := t[d].entries;
    t[d := t[d].(entries := if k < |es| then es[k := e] else es + [e])]
  }

  function WithLinks(t: Tree, i: nat, n: int): Tree
    requires i < |t|
  {
    t[i := t[i].(nlink := n)]
  }

  lemma EntryAdded(t: Tree, d: nat, k: nat, e: Entry, i: nat)
    requires Live(t, d) && k <= |t[d].entries| && (k < |t[d].entries| ==> t[d].entries[k].inum == 0) && e.name != "."
    requires e.inum != 0 && i != 0
    ensures Refs(WithEntry(t, d, k, e), i) == Refs(t, i) + (if i == e.inum then {(d, k)} else {})
    ensures (d, k) !in Refs(t, i)
  {
    var t' := WithEntry(t, d, k, e);
    forall x: Place ensures x in Refs(t', i) <==> x in Refs(t, i) || (i == e.inum && x == (d, k)) {
      assert x.0 < |t| ==> Live(t', x.0) == Live(t, x.0);
    }
  }

  lemma EntryCleared(t: Tree, d: nat, k: nat, i: nat)
    requires Live(t, d) && k < |t[d].entries| && i != 0
    ensures Refs(WithEntry(t, d, k, Entry(0, "")), i) == Refs(t, i) - {(d, k)}
  {
    var t' := WithEntry(t, d, k, Entry(0, ""));
    forall x: Place ensures x in Refs(t', i) <==> x in Refs(t, i) && x != (d, k) {
      assert x.0 < |t| ==> Live(t', x.0) == Live(t, x.0);
    }
  }

  /** Changing an inode that is no directory, before and after, changes no reference. */
  lemma RefsIgnore(t: Tree, i: nat, x: Inode, j: nat)
    requires i < |t| && !Live(t, i) && !(x.kind.Dir? && x.nlink >= 1)
    ensures Refs(t[i := x], j) == Refs(t, j)
  {
    var t' := t[i := x];
    forall y: Place ensures y in Refs(t', j) <==> y in Refs(t, j) {
      assert y.0 < |t| ==> Live(t', y.0) == Live(t, y.0);
    }
  }

  /** Changing the link count of a directory that stays live changes no reference. */
  lemma RefsKeep(t: Tree, d: nat, n: int, j: nat)
    requires Live(t, d) && n >= 1
    ensures Refs(WithLinks(t, d, n), j) == Refs(t, j)
  {
    var t' := WithLinks(t, d, n);
    forall y: Place ensures y in Refs(t', j) <==> y in Refs(t, j) {
      assert y.0 < |t| ==> Live(t', y.0) == Live(t, y.0);
    }
  }

  function NewDir(i: nat, p: nat): Inode { Inode(Dir, 1, [Entry(i, "."), Entry(p, "..")]) }

  lemma DirBorn(t: Tree, i: nat, p: nat, j: nat)
    requires i < |t| && t[i].nlink == 0 && p != 0 && j != 0
    ensures Refs(t[i := NewDir(i, p)], j) == Refs(t, j) + (if j == p then {(i, 1)} else {})
    ensures (i, 1) !in Refs(t, j)
  {
    var t' := t[i := NewDir(i, p)];
    forall y: Place ensures y in Refs(t', j) <==> y in Refs(t, j) || (j == p && y == (i, 1)) {
      assert y.0 < |t| && y.0 != i ==> Live(t', y.0) == Live(t, y.0);
    }
  }

  /** A directory with only "." and "..". */
  predicate Bare(t: Tree, i: nat) {
    i < |t| && forall k :: 2 <= k < |t[i].entries| ==> t[i].entries[k].inum == 0
  }

  lemma DirGone(t: Tree, i: nat, j: nat)
    requires Live(t, i) && HeadOk(t, i) && Bare(t, i) && j != 0
    ensures Refs(WithLinks(t, i, 0), j) == Refs(t, j) - {(i, 1)}
    ensures (i, 1) in Refs(t, j) <==> j == t[i].entries[1].inum
  {
    var t' := WithLinks(t, i, 0);
    forall y: Place ensures y in Refs(t', j) <==> y in Refs(t, j) && y != (i, 1) {
      assert y.0 < |t| && y.0 != i ==> Live(t', y.0) == Live(t, y.0);
    }
  }

  // Whole operations.

  /** What the directory entry of i at (d, k) and its count become when a file gets another name. */
  function Named(t: Tree, i: nat, d: nat, k: nat, name: string): Tree
    requires i < |t| && d < |t| && k <= |t[d].entries|
  {
    WithLinks(WithEntry(t, d, k, Entry(i, name)), i, t[i].nlink + 1)
  }

  /** An entry of a live directory that may be filled. */
  ghost predicate Vacant(t: Tree, d: nat, k: nat) {
    Live(t, d) && 2 <= k <= |t[d].entries| && (k < |t[d].entries| ==> t[d].entries[k].inum == 0)
  }

  lemma NamedCount(t: Tree, i: nat, d: nat, k: nat, name: string, j: nat)
    requires CountAt(t, j) && Vacant(t, d, k) && 0 < i < |t| && !t[i].kind.Dir? && !t[i].kind.Free? && name != "."
    requires j > 0
    ensures CountAt(Named(t, i, d, k, name), j)
  {
    EntryAdded(t, d, k, Entry(i, name), j);
    RefsIgnore(WithEntry(t, d, k, Entry(i, name)), i, Named(t, i, d, k, name)[i], j);
  }

  lemma NamedCounts(t: Tree, i: nat, d: nat, k: nat, name: string)
    requires CountsOk(t) && Vacant(t, d, k) && 0 < i < |t| && !t[i].kind.Dir? && !t[i].kind.Free? && name != "."
    ensures CountsOk(Named(t, i, d, k, name))
  {
    forall j | j > 0 ensures CountAt(Named(t, i, d, k, name), j) {
      assert CountAt(t, j);
      NamedCount(t, i, d, k, name, j);
    }
  }

  lemma NamedDir(t: Tree, place: map<nat, Place>, i: nat, d: nat, k: nat, name: string, x: nat)
    requires RootOk(t) && DirAt(t, x) && PlaceAt(t, place, x)
    requires Vacant(t, d, k) && 0 < i < |t| && !t[i].kind.Dir? && name != "." && name != ".."
    ensures DirAt(Named(t, i, d, k, name), x) && PlaceAt(Named(t, i, d, k, name), place, x)
  {
    var t' := Named(t, i, d, k, name);
    assert Live(t', x) <==> Live(t, x);
  }

  lemma NamedEntry(t: Tree, place: map<nat, Place>, i: nat, d: nat, k: nat, name: string, x: nat, m: nat)
    requires EntryAt(t, place, x, m) && Vacant(t, d, k) && i < |t| && !t[i].kind.Dir?
    ensures EntryAt(Named(t, i, d, k, name), place, x, m)
  {
    var t' := Named(t, i, d, k, name);
    assert Live(t', x) <==> Live(t, x);
  }

  lemma NamedRest(t: Tree, i: nat, d: nat, k: nat, name: string)
    requires RootOk(t) && FreeOk(t) && Vacant(t, d, k) && 0 < i < |t| && !t[i].kind.Dir? && !t[i].kind.Free?
    ensures RootOk(Named(t, i, d, k, name)) && FreeOk(Named(t, i, d, k, name))
  {
  }

  lemma NamedInv(t: Tree, place: map<nat, Place>, i: nat, d: nat, k: nat, name: string)
    requires Inv(t, place) && Vacant(t, d, k) && 0 < i < |t| && !t[i].kind.Dir? && !t[i].kind.Free? && name != "."
    requires name != ".."
    ensures Inv(Named(t, i, d, k, name), place)
  {
    var t' := Named(t, i, d, k, name);
    assert CountsOk(t') by { assert UnfoldInv(0); NamedCounts(t, i, d, k, name); }
    assert FreeOk(t') && RootOk(t') by {
      assert RootOk(t) && FreeOk(t) by { assert UnfoldInv(0); }
      NamedRest(t, i, d, k, name);
    }
    forall x | 0 <= x < |t'| ensures DirAt(t', x) && PlaceAt(t', place, x) {
      assert RootOk(t) && DirAt(t, x) && PlaceAt(t, place, x) by { assert UnfoldInv(0); }
      NamedDir(t, place, i, d, k, name, x);
    }
    forall x: nat, m: nat ensures EntryAt(t', place, x, m) {
      assert EntryAt(t, place, x, m) by { assert UnfoldInv(0); }
      NamedEntry(t, place, i, d, k, name, x, m);
    }
    Close(t', place);
  }

  /** A file loses the name at (d, k). */
  function Unnamed(t: Tree, i: nat, d: nat, k: nat): Tree
    requires i < |t| && d < |t| && k < |t[d].entries| && t[i].nlink > 0
  {
    WithLinks(WithEntry(t, d, k, Entry(0, "")), i, t[i].nlink - 1)
  }

  /** An entry that names something has counted. */
  lemma NamedCounted(t: Tree, d: nat, k: nat, i: nat)
    requires CountsOk(t) && IsEntry(t, d, k, i) && 0 < i < |t| && t[d].entries[k].name != "."
    ensures (d, k) in Refs(t, i) && t[i].nlink >= 1
  {
    assert (d, k) in Refs(t, i) && CountAt(t, i);
  }

  lemma UnnamedCount(t: Tree, i: nat, d: nat, k: nat, j: nat)
    requires CountAt(t, j) && IsEntry(t, d, k, i) && 0 < i < |t| && !t[i].kind.Dir? && (d, k) in Refs(t, i)
    requires t[i].nlink > 0 && j > 0
    ensures CountAt(Unnamed(t, i, d, k), j)
  {
    EntryCleared(t, d, k, j);
    RefsIgnore(WithEntry(t, d, k, Entry(0, "")), i, Unnamed(t, i, d, k)[i], j);
  }

  lemma UnnamedCounts(t: Tree, i: nat, d: nat, k: nat)
    requires CountsOk(t) && IsEntry(t, d, k, i) && 0 < i < |t| && !t[i].kind.Dir? && t[d].entries[k].name != "."
    requires t[i].nlink > 0
    ensures CountsOk(Unnamed(t, i, d, k))
  {
    NamedCounted(t, d, k, i);
    forall j | j > 0 ensures CountAt(Unnamed(t, i, d, k), j) {
      assert CountAt(t, j);
      UnnamedCount(t, i, d, k, j);
    }
  }

  lemma UnnamedDir(t: Tree, place: map<nat, Place>, i: nat, d: nat, k: nat, x: nat)
    requires RootOk(t) && DirAt(t, x) && PlaceAt(t, place, x)
    requires IsEntry(t, d, k, i) && k >= 2 && 0 < i < |t| && !t[i].kind.Dir? && t[i].nlink > 0
    ensures DirAt(Unnamed(t, i, d, k), x) && PlaceAt(Unnamed(t, i, d, k), place, x)
  {
    var t' := Unnamed(t, i, d, k);
    assert Live(t', x) <==> Live(t, x);
  }

  lemma UnnamedEntry(t: Tree, place: map<nat, Place>, i: nat, d: nat, k: nat, x: nat, m: nat)
    requires RootOk(t) && EntryAt(t, place, x, m) && IsEntry(t, d, k, i) && i < |t| && !t[i].kind.Dir? && t[i].nlink > 0
    ensures EntryAt(Unnamed(t, i, d, k), place, x, m)
  {
    var t' := Unnamed(t, i, d, k);
    assert Live(t', x) <==> Live(t, x);
  }

  lemma UnnamedRest(t: Tree, i: nat, d: nat, k: nat)
    requires RootOk(t) && FreeOk(t) && IsEntry(t, d, k, i) && k >= 2 && 0 < i < |t| && !t[i].kind.Dir? && t[i].nlink > 0
    ensures RootOk(Unnamed(t, i, d, k)) && FreeOk(Unnamed(t, i, d, k))
  {
  }

  lemma UnnamedInv(t: Tree, place: map<nat, Place>, i: nat, d: nat, k: nat)
    requires Inv(t, place) && IsEntry(t, d, k, i) && k >= 2 && 0 < i < |t| && !t[i].kind.Dir? && t[i].nlink > 0
    ensures Inv(Unnamed(t, i, d, k), place)
  {
    var t' := Unnamed(t, i, d, k);
    assert RootOk(t) && FreeOk(t) && CountsOk(t) && DirAt(t, d) by { assert UnfoldInv(0); }
    UnnamedCounts(t, i, d, k);
    UnnamedRest(t, i, d, k);
    forall x | 0 <= x < |t'| ensures DirAt(t', x) && PlaceAt(t', place, x) {
      assert DirAt(t, x) && PlaceAt(t, place, x) by { assert UnfoldInv(0); }
      UnnamedDir(t, place, i, d, k, x);
    }
    forall x: nat, m: nat ensures EntryAt(t', place, x, m) {
      assert EntryAt(t, place, x, m) by { assert UnfoldInv(0); }
      UnnamedEntry(t, place, i, d, k, x, m);
    }
    Close(t', place);
  }

  lemma InodeCounts(t: Tree, i: nat, x: Inode)
    requires CountsOk(t) && 0 < i < |t| && t[i].nlink == 0 && x.nlink == 0
    ensures CountsOk(t[i := x])
  {
    var t' := t[i := x];
    forall j | j > 0 ensures CountAt(t', j) {
      assert CountAt(t, j);
      RefsIgnore(t, i, x, j);
    }
  }

  lemma InodeDir(t: Tree, place: map<nat, Place>, i: nat, x: Inode, y: nat)
    requires DirAt(t, y) && PlaceAt(t, place, y) && i < |t| && t[i].nlink == 0 && x.nlink == 0
    ensures DirAt(t[i := x], y) && PlaceAt(t[i := x], place, y)
  {
    assert Live(t[i := x], y) <==> Live(t, y);
  }

  lemma InodeEntry(t: Tree, place: map<nat, Place>, i: nat, x: Inode, y: nat, m: nat)
    requires EntryAt(t, place, y, m) && i < |t| && t[i].nlink == 0 && x.nlink == 0
    ensures EntryAt(t[i := x], place, y, m)
  {
    assert Live(t[i := x], y) <==> Live(t, y);
  }

  lemma InodeRest(t: Tree, i: nat, x: Inode)
    requires RootOk(t) && FreeOk(t) && 0 < i < |t| && t[i].nlink == 0 && x.nlink == 0 && (x.kind.Free? ==> x == FREED)
    requires DeadOk(|t|, i, x)
    ensures RootOk(t[i := x]) && FreeOk(t[i := x])
  {
  }

  /** An inode without links may change kind. */
  lemma InodeInv(t: Tree, place: map<nat, Place>, i: nat, x: Inode)
    requires Inv(t, place) && 0 < i < |t| && t[i].nlink == 0 && x.nlink == 0 && (x.kind.Free? ==> x == FREED)
    requires DeadOk(|t|, i, x)
    ensures Inv(t[i := x], place)
  {
    var t' := t[i := x];
    assert CountsOk(t') by { assert CountsOk(t) by { assert UnfoldInv(0); } InodeCounts(t, i, x); }
    assert FreeOk(t') && RootOk(t') by { assert RootOk(t) && FreeOk(t) by { assert UnfoldInv(0); } InodeRest(t, i, x); }
    forall y | 0 <= y < |t'| ensures DirAt(t', y) && PlaceAt(t', place, y) {
      assert DirAt(t, y) && PlaceAt(t, place, y) by { assert UnfoldInv(0); }
      InodeDir(t, place, i, x, y);
    }
    forall y: nat, m: nat ensures EntryAt(t', place, y, m) {
      assert EntryAt(t, place, y, m) by { assert UnfoldInv(0); }
      InodeEntry(t, place, i, x, y, m);
    }
    Close(t', place);
  }

  /** The new directory i is entered in d. */
  function WithDir(t: Tree, i: nat, d: nat, k: nat, name: string): Tree
    requires i < |t| && d < |t| && i != d && k <= |t[d].entries|
  {
    WithLinks(WithEntry(t[i := NewDir(i, d)], d, k, Entry(i, name)), d, t[d].nlink + 1)
  }

  lemma WithDirRefs(t: Tree, i: nat, d: nat, k: nat, name: string, j: nat)
    requires Vacant(t, d, k) && 0 < i < |t| && t[i].nlink == 0 && d > 0 && i != d && name != "." && j != 0
    ensures Refs(WithDir(t, i, d, k, name), j) ==
            Refs(t, j) + (if j == d then {(i, 1)} else {}) + (if j == i then {(d, k)} else {})
    ensures (i, 1) !in Refs(t, j) && (d, k) !in Refs(t, j)
  {
    var t1 := t[i := NewDir(i, d)];
    DirBorn(t, i, d, j);
    assert t1[d] == t[d];
    WithDirEntered(t1, i, d, k, name, j);
  }

  lemma WithDirEntered(t: Tree, i: nat, d: nat, k: nat, name: string, j: nat)
    requires Vacant(t, d, k) && i != 0 && name != "." && j != 0
    ensures Refs(WithLinks(WithEntry(t, d, k, Entry(i, name)), d, t[d].nlink + 1), j) ==
            Refs(t, j) + (if j == i then {(d, k)} else {})
    ensures (d, k) !in Refs(t, j)
  {
    EntryAdded(t, d, k, Entry(i, name), j);
    RefsKeep(WithEntry(t, d, k, Entry(i, name)), d, t[d].nlink + 1, j);
  }

  lemma WithDirCounts(t: Tree, i: nat, d: nat, k: nat, name: string)
    requires CountsOk(t) && Vacant(t, d, k) && 0 < i < |t| && t[i].nlink == 0 && d > 0 && i != d && name != "."
    ensures CountsOk(WithDir(t, i, d, k, name))
  {
    forall j | j > 0 ensures CountAt(WithDir(t, i, d, k, name), j) {
      assert CountAt(t, j);
      WithDirRefs(t, i, d, k, name, j);
    }
  }

  lemma WithDirDir(t: Tree, place: map<nat, Place>, i: nat, d: nat, k: nat, name: string, x: nat)
    requires RootOk(t) && DirAt(t, x) && PlaceAt(t, place, x) && DirAt(t, d)
    requires Vacant(t, d, k) && 0 < i < |t| && t[i].nlink == 0 && i != d && name != "." && name != ".." && i != ROOT
    ensures DirAt(WithDir(t, i, d, k, name), x) && PlaceAt(WithDir(t, i, d, k, name), place[i := (d, k)], x)
  {
    var t' := WithDir(t, i, d, k, name);
    assert x != i ==> (Live(t', x) <==> Live(t, x));
    assert t'[d].entries[k] == Entry(i, name);
  }

  /** Nothing names an inode without links. */
  lemma Unnameable(t: Tree, i: nat, x: nat, m: nat)
    requires CountsOk(t) && 0 < i < |t| && t[i].nlink == 0 && Live(t, x) && DirAt(t, x) && 2 <= m < |t[x].entries|
    ensures t[x].entries[m].inum != i
  {
    if t[x].entries[m].inum == i { NamedCounted(t, x, m, i); }
  }

  lemma WithDirEntry(t: Tree, place: map<nat, Place>, i: nat, d: nat, k: nat, name: string, x: nat, m: nat)
    requires EntryAt(t, place, x, m) && Vacant(t, d, k) && 0 < i < |t| && t[i].nlink == 0 && i != d && i != ROOT
    requires Live(t, x) && 2 <= m < |t[x].entries| ==> t[x].entries[m].inum != i
    ensures EntryAt(WithDir(t, i, d, k, name), place[i := (d, k)], x, m)
  {
    var t' := WithDir(t, i, d, k, name);
    if x != i && Live(t', x) && 2 <= m < |t'[x].entries| && (x, m) != (d, k) {
      assert t'[x].entries[m] == t[x].entries[m];
    }
  }

  lemma WithDirRest(t: Tree, i: nat, d: nat, k: nat, name: string)
    requires RootOk(t) && FreeOk(t) && Vacant(t, d, k) && 0 < i < |t| && t[i].nlink == 0 && i != d && i != ROOT
    ensures RootOk(WithDir(t, i, d, k, name)) && FreeOk(WithDir(t, i, d, k, name))
  {
  }

  lemma WithDirInv(t: Tree, place: map<nat, Place>, i: nat, d: nat, k: nat, name: string)
    requires Inv(t, place) && Vacant(t, d, k) && 0 < i < |t| && t[i].nlink == 0 && name != "." && name != ".."
    ensures i != d && Inv(WithDir(t, i, d, k, name), place[i := (d, k)])
  {
    assert RootOk(t) && FreeOk(t) && CountsOk(t) && DirAt(t, d) by { assert UnfoldInv(0); }
    var (t', place') := (WithDir(t, i, d, k, name), place[i := (d, k)]);
    WithDirCounts(t, i, d, k, name);
    WithDirRest(t, i, d, k, name);
    forall x | 0 <= x < |t'| ensures DirAt(t', x) && PlaceAt(t', place', x) {
      assert DirAt(t, x) && PlaceAt(t, place, x) by { assert UnfoldInv(0); }
      WithDirDir(t, place, i, d, k, name, x);
    }
    forall x: nat, m: nat ensures EntryAt(t', place', x, m) {
      assert EntryAt(t, place, x, m) && (x < |t| ==> DirAt(t, x)) by { assert UnfoldInv(0); }
      if Live(t, x) && 2 <= m < |t[x].entries| { Unnameable(t, i, x, m); }
      WithDirEntry(t, place, i, d, k, name, x, m);
    }
    Close(t', place');
  }

  /** The empty directory i is removed from d. */
  function WithoutDir(t: Tree, i: nat, d: nat, k: nat): Tree
    requires i < |t| && d < |t| && i != d && k < |t[d].entries| && t[d].nlink > 0 && t[i].nlink > 0
  {
    WithLinks(WithLinks(WithEntry(t, d, k, Entry(0, "")), d, t[d].nlink - 1), i, t[i].nlink - 1)
  }

  lemma OnlyPlace(t: Tree, place: map<nat, Place>, i: nat, y: Place)
    requires RootOk(t) && Live(t, i) && Bare(t, i) && i != ROOT && y in Refs(t, i)
    requires DirAt(t, y.0) && PlaceAt(t, place, y.0) && EntryAt(t, place, y.0, y.1)
    ensures i in place && place[i] == y
  {
    assert HeadOk(t, y.0) && y.1 != 0;
    assert y.1 != 1 by { assert y.0 in place ==> !IsEntry(t, i, place[y.0].1, y.0) || place[y.0].1 < 2; }
  }

  /** An empty directory is named once, in its parent. */
  lemma NamedOnce(t: Tree, place: map<nat, Place>, i: nat, d: nat, k: nat)
    requires Inv(t, place) && Live(t, i) && Bare(t, i) && IsEntry(t, d, k, i) && k >= 2
    ensures i != ROOT && i != d && t[i].nlink == 1 && |t[i].entries| >= 2 && t[i].entries[1].inum == d
    ensures Refs(t, i) == {(d, k)}
  {
    assert RootOk(t) && CountsOk(t) by { assert UnfoldInv(0); }
    assert EntryAt(t, place, d, k) && PlaceAt(t, place, i) && DirAt(t, d) by { assert UnfoldInv(0); }
    NamedCounted(t, d, k, i);
    forall y | y in Refs(t, i) ensures y == (d, k) {
      assert DirAt(t, y.0) && PlaceAt(t, place, y.0) && EntryAt(t, place, y.0, y.1) by { assert UnfoldInv(0); }
      OnlyPlace(t, place, i, y);
    }
    assert Refs(t, i) == {(d, k)} && CountAt(t, i);
  }

  /** Where a live directory hangs: the root is its own parent. */
  lemma HangsSomewhere(t: Tree, place: map<nat, Place>, d: nat) returns (y: Place)
    requires Inv(t, place) && Live(t, d)
    ensures y in Refs(t, d) && (y.1 == 1 ==> y.0 == d)
  {
    assert RootOk(t) && PlaceAt(t, place, d) by { assert UnfoldInv(0); }
    y := if d == ROOT then (ROOT, 1) else place[d];
    assert IsEntry(t, y.0, y.1, d);
    assert DirAt(t, y.0) by { assert UnfoldInv(0); }
  }

  /** The parent of a directory has another link besides. */
  lemma ParentTwice(t: Tree, place: map<nat, Place>, i: nat, d: nat)
    requires Inv(t, place) && Live(t, i) && Live(t, d) && i != d && |t[i].entries| >= 2 && t[i].entries[1].inum == d
    ensures (i, 1) in Refs(t, d) && t[d].nlink >= 2
  {
    var y := HangsSomewhere(t, place, d);
    assert RootOk(t) && DirAt(t, i) by { assert UnfoldInv(0); }
    assert (i, 1) in Refs(t, d);
    TwoAtLeast(Refs(t, d), y, (i, 1));
    assert d != 0 && CountAt(t, d) by { assert UnfoldInv(0); }
  }

  lemma TwoAtLeast(s: set<Place>, x: Place, y: Place)
    requires x in s && y in s && x != y
    ensures |s| >= 2
  {
    assert s == s - {x, y} + {x, y};
    assert |s| == |s - {x} - {y}| + 2;
  }

  lemma WithoutDirRefs(t: Tree, i: nat, d: nat, k: nat, j: nat)
    requires Live(t, d) && Live(t, i) && i != d && k < |t[d].entries| && t[d].nlink >= 2 && t[i].nlink == 1
    requires HeadOk(t, i) && Bare(t, i) && j != 0
    ensures Refs(WithoutDir(t, i, d, k), j) == Refs(t, j) - {(d, k)} - {(i, 1)}
  {
    var t1 := WithEntry(t, d, k, Entry(0, ""));
    EntryCleared(t, d, k, j);
    RefsKeep(t1, d, t[d].nlink - 1, j);
    DirGone(WithLinks(t1, d, t[d].nlink - 1), i, j);
  }

  lemma WithoutDirCount(t: Tree, i: nat, d: nat, k: nat, j: nat)
    requires CountAt(t, j) && IsEntry(t, d, k, i) && Live(t, i) && 0 < i && i != d && t[d].nlink >= 2 && t[i].nlink == 1
    requires HeadOk(t, i) && Bare(t, i)
    requires j > 0 && Refs(t, i) == {(d, k)} && (i, 1) in Refs(t, d)
    ensures CountAt(WithoutDir(t, i, d, k), j)
  {
    WithoutDirRefs(t, i, d, k, j);
    if j != i && j != d { assert Refs(WithoutDir(t, i, d, k), j) == Refs(t, j); }
  }

  lemma WithoutDirCounts(t: Tree, i: nat, d: nat, k: nat)
    requires CountsOk(t) && IsEntry(t, d, k, i) && Live(t, i) && 0 < i && i != d && t[d].nlink >= 2 && t[i].nlink == 1
    requires HeadOk(t, i) && Bare(t, i)
    requires Refs(t, i) == {(d, k)} && (i, 1) in Refs(t, d)
    ensures CountsOk(WithoutDir(t, i, d, k))
  {
    forall j | j > 0 ensures CountAt(WithoutDir(t, i, d, k), j) {
      assert CountAt(t, j);
      WithoutDirCount(t, i, d, k, j);
    }
  }

  lemma WithoutDirDir(t: Tree, place: map<nat, Place>, i: nat, d: nat, k: nat, x: nat)
    requires RootOk(t) && DirAt(t, x) && PlaceAt(t, place, x) && IsEntry(t, d, k, i) && k >= 2
    requires Live(t, i) && Bare(t, i) && i != d && i != ROOT && t[d].nlink >= 2 && t[i].nlink == 1
    ensures DirAt(WithoutDir(t, i, d, k), x) && PlaceAt(WithoutDir(t, i, d, k), place - {i}, x)
  {
    var t' := WithoutDir(t, i, d, k);
    assert x != i ==> (Live(t', x) <==> Live(t, x));
    assert !Live(t', i);
  }

  lemma WithoutDirEntry(t: Tree, place: map<nat, Place>, i: nat, d: nat, k: nat, x: nat, m: nat)
    requires RootOk(t) && EntryAt(t, place, x, m) && IsEntry(t, d, k, i) && Live(t, i) && i != d && t[d].nlink >= 2
    requires t[i].nlink == 1
    ensures EntryAt(WithoutDir(t, i, d, k), place - {i}, x, m)
  {
    var t' := WithoutDir(t, i, d, k);
    assert !Live(t', i) && (x != i ==> (Live(t', x) <==> Live(t, x)));
  }

  lemma WithoutDirRest(t: Tree, i: nat, d: nat, k: nat)
    requires RootOk(t) && FreeOk(t) && DirAt(t, i) && Bare(t, i) && IsEntry(t, d, k, i) && k >= 2 && Live(t, i)
    requires i != d && i != ROOT && t[d].nlink >= 2 && t[i].nlink == 1 && t[i].entries[1].inum == d
    ensures RootOk(WithoutDir(t, i, d, k)) && FreeOk(WithoutDir(t, i, d, k))
  {
  }

  lemma WithoutDirInv(t: Tree, place: map<nat, Place>, i: nat, d: nat, k: nat)
    requires Inv(t, place) && Live(t, i) && Bare(t, i) && IsEntry(t, d, k, i) && k >= 2
    ensures i != d && Inv(WithoutDir(t, i, d, k), place - {i}) && t[i].nlink == 1 && t[d].nlink >= 2 && i != ROOT
  {
    NamedOnce(t, place, i, d, k);
    ParentTwice(t, place, i, d);
    var (t', place') := (WithoutDir(t, i, d, k), place - {i});
    assert RootOk(t) && FreeOk(t) && CountsOk(t) && DirAt(t, i) by { assert UnfoldInv(0); }
    assert CountsOk(t') by { WithoutDirCounts(t, i, d, k); }
    assert FreeOk(t') && RootOk(t') by { WithoutDirRest(t, i, d, k); }
    forall x | 0 <= x < |t'| ensures DirAt(t', x) && PlaceAt(t', place', x) {
      assert DirAt(t, x) && PlaceAt(t, place, x) by { assert UnfoldInv(0); }
      WithoutDirDir(t, place, i, d, k, x);
    }
    forall x: nat, m: nat ensures EntryAt(t', place', x, m) {
      assert EntryAt(t, place, x, m) by { assert UnfoldInv(0); }
      WithoutDirEntry(t, place, i, d, k, x, m);
    }
    Close(t', place');
  }

  // Removed directories: entering anything there makes a count wrong.

  lemma NamedInRemoved(t: Tree, place: map<nat, Place>, i: nat, d: nat, k: nat, name: string)
    requires Inv(t, place) && 0 < i < |t| && !t[i].kind.Dir? && d < |t| && !Live(t, d) && k <= |t[d].entries|
    ensures !CountAt(Named(t, i, d, k, name), i)
  {
    var (t1, t') := (WithEntry(t, d, k, Entry(i, name)), Named(t, i, d, k, name));
    assert CountAt(t, i) by { assert UnfoldInv(0); }
    RefsIgnore(t, d, t1[d], i);
    RefsIgnore(t1, i, t'[i], i);
  }

  /** A new directory i in the removed directory d brings d's ".." back to life. */
  lemma RefsRevived(t: Tree, i: nat, d: nat, k: nat, name: string, p: nat)
    requires 0 < i < |t| && 0 < d < |t| && i != d && t[i] == FREED && t[d].kind.Dir? && t[d].nlink == 0
    requires 2 <= k <= |t[d].entries| && t[d].entries[1] == Entry(p, "..")
    ensures Refs(t, p) + {(d, 1)} <= Refs(WithDir(t, i, d, k, name), p) && (d, 1) !in Refs(t, p)
  {
    var t' := WithDir(t, i, d, k, name);
    assert IsEntry(t', d, 1, p);
    forall y | y in Refs(t, p) ensures y in Refs(t', p) {
      assert Live(t, y.0) && y.0 != i && y.0 != d;
    }
  }

  /** Then d's old parent p has a name too many, be p still in use, free, or the very inode that i reuses. */
  lemma WithDirInRemoved(t: Tree, place: map<nat, Place>, i: nat, d: nat, k: nat, name: string)
    requires Inv(t, place) && 0 < i < |t| && 0 < d < |t| && i != d && t[i] == FREED && t[d].kind.Dir? && t[d].nlink == 0
    requires FirstEmpty(t[d].entries, k) && name != "."
    ensures |t[d].entries| >= 2 && !CountAt(WithDir(t, i, d, k, name), t[d].entries[1].inum)
  {
    assert DeadOk(|t|, d, t[d]) by { assert UnfoldInv(0); }
    var (t', p) := (WithDir(t, i, d, k, name), t[d].entries[1].inum);
    assert CountAt(t, p) by { assert UnfoldInv(0); }
    RefsRevived(t, i, d, k, name, p);
    if p == i {
      assert IsEntry(t', d, k, i) && t'[d].entries[k].name == name;
      TwoAtLeast(Refs(t', p), (d, 1), (d, k));
    } else {
      SubsetSize(Refs(t, p) + {(d, 1)}, Refs(t', p));
    }
  }

  /** Every link count is the number of names, and nothing that has a name is free. */
  lemma CountsRight(t: Tree, place: map<nat, Place>, i: nat)
    requires Inv(t, place) && 0 < i < |t|
    ensures t[i].nlink == |Refs(t, i)| && (Refs(t, i) != {} ==> !t[i].kind.Free?)
  {
    assert UnfoldInv(0) && (Inv(t, place) ==> CountAt(t, i));
  }

  lemma Unreferenced(t: Tree, place: map<nat, Place>, i: nat)
    requires Inv(t, place) && 0 < i < |t|
    ensures t[i].nlink >= 0 && (t[i].nlink == 0 <==> Refs(t, i) == {}) && (Live(t, i) || DeadOk(|t|, i, t[i]))
  {
    assert UnfoldInv(0) && (Inv(t, place) ==> CountAt(t, i));
  }

  /** "." and ".." are taken, so a vacant entry comes behind them and a new name is neither. */
  lemma HeadsTaken(t: Tree, place: map<nat, Place>, d: nat)
    requires Inv(t, place) && Live(t, d)
    ensures |t[d].entries| >= 2 && t[d].entries[0].inum != 0 && t[d].entries[1].inum != 0 && t[d].entries[0].name == "."
    ensures t[d].entries[1].name == ".."
  {
    assert RootOk(t) && DirAt(t, d) && PlaceAt(t, place, d) by { assert UnfoldInv(0); }
  }

  /** One more or one less than a short, as a short. */
  function Short(n: int): (r: int)
    ensures -MAXLINK - 1 <= n <= MAXLINK ==> r == n
    ensures -MAXLINK - 2 <= n <= MAXLINK + 1 ==> -MAXLINK - 1 <= r <= MAXLINK && (r - n) % (2 * MAXLINK + 2) == 0
  {
    if n > MAXLINK then n - 2 * (MAXLINK + 1) else if n < -MAXLINK - 1 then n + 2 * (MAXLINK + 1) else n
  }

  /** Counts are shorts, and an inode other than x is in use exactly when it is named or referenced. */
  predicate HeldBut(t: Tree, ref: seq<nat>, x: nat) {
    && |ref| == |t| && (forall i :: 0 <= i < |t| ==> t[i].nlink <= MAXLINK)
    && forall i :: 0 <= i < |t| && i != x ==> if t[i].kind.Free? then ref[i] == 0 else t[i].nlink != 0 || ref[i] > 0
  }

  predicate Held(t: Tree, ref: seq<nat>) { HeldBut(t, ref, |t|) }

  /** Dropping the last pointer of a system call to i. */
  function Put(t: Tree, ref: seq<nat>, i: nat): Tree
    requires i < |t| && |ref| == |t|
  {
    if ref[i] == 0 && t[i].nlink == 0 then t[i := FREED] else t
  }

  lemma PutInv(t: Tree, place: map<nat, Place>, ref: seq<nat>, i: nat)
    requires Inv(t, place) && 0 < i < |t| && HeldBut(t, ref, i) && !t[i].kind.Free?
    ensures Inv(Put(t, ref, i), place) && Held(Put(t, ref, i), ref)
  {
    if ref[i] == 0 && t[i].nlink == 0 {
      InodeInv(t, place, i, FREED);
    }
  }

  predicate HasName(t: Tree, d: nat, name: string) {
    d < |t| && exists k :: 0 <= k < |t[d].entries| && t[d].entries[k].inum != 0 && t[d].entries[k].name == name
  }

  /** Entry k of directory d is the first with this name. */
  predicate FirstNamed(t: Tree, d: nat, name: string, k: nat) {
    && d < |t| && k < |t[d].entries| && t[d].entries[k].inum != 0 && t[d].entries[k].name == name
    && forall j :: 0 <= j < k ==> t[d].entries[j].inum == 0 || t[d].entries[j].name != name
  }

  /** There is an inode, and room for all entries that create writes. */
  predicate CanCreate(t: Tree, kind: Kind, dot: bool, dotdot: bool, room: bool) {
    room && (kind.Dir? ==> dot && dotdot) && exists j :: 0 < j < |t| && t[j].kind.Free?
  }

  predicate FirstFree(t: Tree, i: nat) {
    0 < i < |t| && t[i].kind.Free? && forall j :: 0 < j < i ==> !t[j].kind.Free?
  }

  /** The entry that dirlink fills: the first empty one, or a new one at the end. */
  predicate FirstEmpty(es: seq<Entry>, k: nat) {
    k <= |es| && (forall j :: 0 <= j < k ==> es[j].inum != 0) && (k < |es| ==> es[k].inum == 0)
  }

  /** What sys_link makes of the tree. */
  function Linked(t: Tree, i: nat, d: nat, k: nat, name: string): Tree
    requires i < |t| && d < |t| && k <= |t[d].entries|
  {
    WithLinks(WithEntry(t, d, k, Entry(i, name)), i, Short(t[i].nlink + 1))
  }

  lemma LinkedBad(t: Tree, place: map<nat, Place>, i: nat, d: nat, k: nat, name: string)
    requires Inv(t, place) && 0 < i < |t| && !t[i].kind.Dir? && t[i].nlink <= MAXLINK
    requires d < |t| && k <= |t[d].entries| && !(Live(t, d) && t[i].nlink < MAXLINK)
    ensures !CountAt(Linked(t, i, d, k, name), i)
  {
    Unreferenced(t, place, i);
    if t[i].nlink < MAXLINK {
      NamedInRemoved(t, place, i, d, k, name);
      assert Linked(t, i, d, k, name) == Named(t, i, d, k, name);
    }
  }

  /** sys_link leaves right counts exactly if the directory is not removed and the count does not wrap. */
  lemma LinkedInv(t: Tree, place: map<nat, Place>, i: nat, d: nat, k: nat, name: string)
    requires Inv(t, place) && 0 < i < |t| && !t[i].kind.Dir? && !t[i].kind.Free? && t[i].nlink <= MAXLINK
    requires d < |t| && FirstEmpty(t[d].entries, k) && !HasName(t, d, name)
    ensures Live(t, d) && t[i].nlink < MAXLINK ==> Inv(Linked(t, i, d, k, name), place)
    ensures CountsOk(Linked(t, i, d, k, name)) <==> Live(t, d) && t[i].nlink < MAXLINK
  {
    if Live(t, d) && t[i].nlink < MAXLINK {
      Unreferenced(t, place, i);
      HeadsTaken(t, place, d);
      NamedInv(t, place, i, d, k, name);
      assert Linked(t, i, d, k, name) == Named(t, i, d, k, name);
      assert CountsOk(Linked(t, i, d, k, name)) by { assert UnfoldInv(0); }
    } else {
      LinkedBad(t, place, i, d, k, name);
    }
  }

  lemma LinkedHeld(t: Tree, ref: seq<nat>, i: nat, d: nat, k: nat, name: string)
    requires Held(t, ref) && i < |t| && d < |t| && k <= |t[d].entries| && t[i].nlink >= 0 && i != d && !t[i].kind.Free?
    ensures Held(Linked(t, i, d, k, name), ref) && Linked(t, i, d, k, name)[i].nlink != 0
  {
  }

  /** What create makes of the tree. */
  function Created(t: Tree, i: nat, d: nat, k: nat, name: string, kind: Kind): Tree
    requires i < |t| && d < |t| && i != d && k <= |t[d].entries|
  {
    if kind.Dir? then
      WithLinks(WithEntry(t[i := NewDir(i, d)], d, k, Entry(i, name)), d, Short(t[d].nlink + 1))
    else
      WithEntry(t[i := Inode(kind, 1, [])], d, k, Entry(i, name))
  }

  /** create of a file or device leaves right counts exactly if the directory is not removed. */
  lemma CreatedFile(t: Tree, place: map<nat, Place>, i: nat, d: nat, k: nat, name: string, kind: Kind)
    requires Inv(t, place) && 0 < i < |t| && t[i] == FREED && !kind.Free? && !kind.Dir?
    requires d < |t| && i != d && FirstEmpty(t[d].entries, k) && !HasName(t, d, name)
    ensures Live(t, d) ==> Inv(Created(t, i, d, k, name, kind), place)
    ensures CountsOk(Created(t, i, d, k, name, kind)) <==> Live(t, d)
  {
    var t1 := t[i := Inode(kind, 0, [])];
    InodeInv(t, place, i, Inode(kind, 0, []));
    LinkedInv(t1, place, i, d, k, name);
    assert Created(t, i, d, k, name, kind) == Linked(t1, i, d, k, name);
  }

  lemma CreatedDirBad(t: Tree, place: map<nat, Place>, i: nat, d: nat, k: nat, name: string)
    requires Inv(t, place) && 0 < i < |t| && t[i] == FREED && 0 < d < |t| && t[d].kind.Dir? && t[d].nlink <= MAXLINK
    requires FirstEmpty(t[d].entries, k) && !HasName(t, d, name) && !(Live(t, d) && t[d].nlink < MAXLINK)
    ensures !CountsOk(Created(t, i, d, k, name, Dir))
  {
    Unreferenced(t, place, d);
    if t[d].nlink == MAXLINK {
      assert !CountAt(Created(t, i, d, k, name, Dir), d);
    } else {
      WithDirInRemoved(t, place, i, d, k, name);
      assert Created(t, i, d, k, name, Dir) == WithDir(t, i, d, k, name);
      assert t[d].entries[1].inum > 0;
    }
  }

  /** create of a directory leaves right counts exactly if its parent is not removed and the count does not wrap. */
  lemma CreatedDir(t: Tree, place: map<nat, Place>, i: nat, d: nat, k: nat, name: string)
    requires Inv(t, place) && 0 < i < |t| && t[i] == FREED && 0 < d < |t| && t[d].kind.Dir? && t[d].nlink <= MAXLINK
    requires FirstEmpty(t[d].entries, k) && !HasName(t, d, name)
    ensures Live(t, d) && t[d].nlink < MAXLINK ==> Inv(Created(t, i, d, k, name, Dir), place[i := (d, k)])
    ensures CountsOk(Created(t, i, d, k, name, Dir)) <==> Live(t, d) && t[d].nlink < MAXLINK
  {
    if Live(t, d) && t[d].nlink < MAXLINK {
      HeadsTaken(t, place, d);
      WithDirInv(t, place, i, d, k, name);
      assert Created(t, i, d, k, name, Dir) == WithDir(t, i, d, k, name);
      assert CountsOk(Created(t, i, d, k, name, Dir)) by { assert UnfoldInv(0); }
    } else {
      CreatedDirBad(t, place, i, d, k, name);
    }
  }

  lemma CreatedHeld(t: Tree, ref: seq<nat>, i: nat, d: nat, k: nat, name: string, kind: Kind)
    requires Held(t, ref) && i < |t| && d < |t| && k <= |t[d].entries| && t[d].nlink >= 0 && i != d && !t[d].kind.Free?
    requires !kind.Free?
    ensures Held(Created(t, i, d, k, name, kind), ref)
    ensures Put(Created(t, i, d, k, name, kind), ref, d) == Created(t, i, d, k, name, kind)
  {
  }

  /** What sys_unlink makes of the tree, but for the freeing of i. */
  function Removed(t: Tree, i: nat, d: nat, k: nat): Tree
    requires i < |t| && d < |t| && i != d && k < |t[d].entries| && t[d].nlink > 0 && t[i].nlink > 0
  {
    if t[i].kind.Dir? then WithoutDir(t, i, d, k) else Unnamed(t, i, d, k)
  }

  /** An entry other than "." and ".." is in a live directory and names an inode in use. */
  lemma EntryUsed(t: Tree, place: map<nat, Place>, d: nat, k: nat)
    requires Inv(t, place) && 0 < d < |t| && t[d].kind.Dir? && k < |t[d].entries| && t[d].entries[k].inum != 0
    requires t[d].entries[k].name != "." && t[d].entries[k].name != ".."
    ensures k >= 2 && Live(t, d) && t[d].entries[k].inum < |t| && t[t[d].entries[k].inum].nlink >= 1
    ensures !t[t[d].entries[k].inum].kind.Free?
  {
    Unreferenced(t, place, d);
    assert Live(t, d);
    HeadsTaken(t, place, d);
    assert DirAt(t, d) && CountsOk(t) by { assert UnfoldInv(0); }
    NamedCounted(t, d, k, t[d].entries[k].inum);
    assert CountAt(t, t[d].entries[k].inum);
  }

  /** An entry that a lookup finds names an inode that stays in use, but perhaps the ".." of a removed directory. */
  lemma FoundUsed(t: Tree, place: map<nat, Place>, d: nat, k: nat)
    requires Inv(t, place) && 0 < d < |t| && t[d].kind.Dir? && k < |t[d].entries| && t[d].entries[k].inum != 0
    requires Live(t, d) || t[d].entries[k].name != ".."
    ensures t[d].entries[k].inum == d || (t[d].entries[k].inum < |t| && t[t[d].entries[k].inum].nlink != 0)
  {
    Unreferenced(t, place, d);
    if Live(t, d) && k > 0 {
      HeadsTaken(t, place, d);
      assert DirAt(t, d) && CountsOk(t) by { assert UnfoldInv(0); }
      NamedCounted(t, d, k, t[d].entries[k].inum);
    }
    assert DirAt(t, d) by { assert UnfoldInv(0); }
  }

  /** The root, its own parent, with files of the given names, and nothing else. */
  predicate Image(t: Tree, names: seq<string>) {
    && |t| >= |names| + 2 && t[ROOT].kind.Dir? && t[ROOT].nlink == 1 && |t[ROOT].entries| == |names| + 2
    && t[ROOT].entries[0] == Entry(ROOT, ".") && t[ROOT].entries[1] == Entry(ROOT, "..")
    && (forall j :: 2 <= j < |names| + 2 ==> t[ROOT].entries[j] == Entry(j, names[j - 2]) && t[j] == Inode(File, 1, []))
    && (forall j :: |names| + 2 <= j < |t| ==> t[j] == FREED)
  }

  lemma ImageStep(t: Tree, place: map<nat, Place>, names: seq<string>, name: string)
    requires Inv(t, place) && Image(t, names) && |t| > |names| + 2 && name != "." && name != ".."
    ensures var n := |names| + 2;
            var t' := WithEntry(t[n := Inode(File, 1, [])], ROOT, n, Entry(n, name));
            Inv(t', place) && Image(t', names + [name])
  {
    var n := |names| + 2;
    var (t0, t') := (t[n := Inode(File, 0, [])], WithEntry(t[n := Inode(File, 1, [])], ROOT, n, Entry(n, name)));
    InodeInv(t, place, n, Inode(File, 0, []));
    NamedInv(t0, place, n, ROOT, n, name);
    assert t' == Named(t0, n, ROOT, n, name);
  }

  // The system calls.

  class FileTree {
    var inode: Tree
    var ref: seq<nat>  // references by open files and current directories
    ghost var place: map<nat, Place>

    ghost predicate Valid()
      reads this
    {
      Inv(inode, place) && Held(inode, ref)
    }

    /** The file system that mkfs makes. */
    constructor (ninodes: nat, names: seq<string>)
      requires ninodes >= |names| + 2 && "." !in names && ".." !in names
      ensures Valid() && |inode| == ninodes && Image(inode, names)
    {
      inode := seq(ninodes, _ => FREED)[ROOT := NewDir(ROOT, ROOT)];
      ref, place := seq(ninodes, _ => 0), map[];
      new;
      Fresh(inode);
      for n := 0 to |names|
        invariant Valid() && place == map[] && |inode| == ninodes && Image(inode, names[..n])
      {
        ghost var t := inode;
        inode := inode[n + 2 := Inode(File, 1, [])];
        inode := inode[ROOT := inode[ROOT].(entries := inode[ROOT].entries + [Entry(n + 2, names[n])])];
        ImageStep(t, place, names[..n], names[n]);
        assert names[..n] + [names[n]] == names[..n + 1];
      }
      assert names[..|names|] == names;
    }

    /** dirlookup: the first entry with this name, or one past the last. */
    method Dirlookup(d: nat, name: string) returns (k: nat)
      requires d < |inode|
      ensures k <= |inode[d].entries| && (k < |inode[d].entries| <==> HasName(inode, d, name))
      ensures k < |inode[d].entries| ==> FirstNamed(inode, d, name, k)
    {
      var es := inode[d].entries;
      k := 0;
      while k < |es|
        invariant k <= |es| && forall j :: 0 <= j < k ==> es[j].inum == 0 || es[j].name != name
      {
        if es[k].inum != 0 && es[k].name == name {
          return;
        }
        k := k + 1;
      }
    }

    /** dirlink: enters i under the name, unless the name is taken or there is no room. */
    method Dirlink(d: nat, name: string, i: nat, room: bool) returns (ok: bool, k: nat)
      requires d < |inode|
      modifies this`inode
      ensures ok <==> room && !HasName(old(inode), d, name)
      ensures ok ==> FirstEmpty(old(inode)[d].entries, k) && inode == WithEntry(old(inode), d, k, Entry(i, name))
      ensures !ok ==> inode == old(inode)
    {
      ok, k := false, 0;
      var found := Dirlookup(d, name);
      if found < |inode[d].entries| {
        return;
      }
      var es := inode[d].entries;
      while k < |es| && es[k].inum != 0
        invariant k <= |es| && forall j :: 0 <= j < k ==> es[j].inum != 0
      {
        k := k + 1;
      }
      if room {
        inode := inode[d := inode[d].(entries := if k < |es| then es[k := Entry(i, name)] else es + [Entry(i, name)])];
        ok := true;
      }
    }

    /** isdirempty. */
    method IsDirEmpty(d: nat) returns (empty: bool)
      requires d < |inode|
      ensures empty <==> Bare(inode, d)
    {
      var k := 2;
      while k < |inode[d].entries|
        invariant forall j :: 2 <= j < k && j < |inode[d].entries| ==> inode[d].entries[j].inum == 0
      {
        if inode[d].entries[k].inum != 0 {
          return false;
        }
        k := k + 1;
      }
      return true;
    }

    /** iput: an inode without links and references is freed. */
    method Iput(i: nat)
      requires i < |inode| == |ref|
      modifies this`inode
      ensures inode == Put(old(inode), ref, i)
    {
      if ref[i] == 0 && inode[i].nlink == 0 {
        inode := inode[i := FREED];
      }
    }

    /** Opening i, or making it a current directory. */
    method Hold(i: nat)
      requires Valid() && i < |inode| && !inode[i].kind.Free?
      modifies this`ref
      ensures Valid() && ref == old(ref)[i := old(ref)[i] + 1]
    {
      ref := ref[i := ref[i] + 1];
    }

    /** Closing i: it stays if it is named or still referenced, and is free otherwise. */
    method Release(i: nat)
      requires Valid() && 0 < i < |inode| && ref[i] > 0
      modifies this`ref, this`inode
      ensures Valid() && ref == old(ref)[i := old(ref)[i] - 1]
      ensures inode == if Refs(old(inode), i) == {} && ref[i] == 0 then old(inode)[i := FREED] else old(inode)
    {
      ref := ref[i := ref[i] - 1];
      Unreferenced(inode, place, i);
      PutInv(inode, place, ref, i);
      Iput(i);
    }

    /** The counting of sys_link: one up, and down again if dirlink fails. */
    method CountAndEnter(i: nat, d: nat, name: string, room: bool) returns (ok: bool, k: nat)
      requires i < |inode| && d < |inode| && i != d && 0 <= inode[i].nlink <= MAXLINK
      modifies this`inode
      ensures ok <==> d != 0 && room && !HasName(old(inode), d, name)
      ensures ok ==> FirstEmpty(old(inode)[d].entries, k) && inode == Linked(old(inode), i, d, k, name)
      ensures !ok ==> inode == old(inode)
    {
      ok, k := false, 0;
      ghost var t := inode;
      inode := WithLinks(inode, i, Short(inode[i].nlink + 1));
      if d != 0 {
        ok, k := Dirlink(d, name, i, room);
      }
      if !ok {
        inode := WithLinks(inode, i, Short(inode[i].nlink - 1));
        assert inode[i] == t[i];
      }
    }

    /** sys_link: gives file i another name in directory d; d is 0 if the path of the new name leads nowhere. */
    method Link(i: nat, d: nat, name: string, room: bool) returns (ok: bool, ghost k: nat)
      requires Valid() && 0 < i < |inode| && !inode[i].kind.Free? && d < |inode| && (d == 0 || inode[d].kind.Dir?)
      modifies this`inode
      ensures ok <==> !old(inode)[i].kind.Dir? && d != 0 && room && !HasName(old(inode), d, name)
      ensures ok ==> FirstEmpty(old(inode)[d].entries, k) && inode == Linked(old(inode), i, d, k, name)
      ensures ok ==> (CountsOk(inode) <==> Live(old(inode), d) && old(inode)[i].nlink < MAXLINK)
      ensures !ok ==> inode == old(inode)
      ensures CountsOk(inode) ==> Valid()
    {
      if inode[i].kind.Dir? {
        return false, 0;
      }
      ghost var t := inode;
      Unreferenced(t, place, i);
      ok, k := CountAndEnter(i, d, name, room);
      if ok {
        LinkedInv(t, place, i, d, k, name);
        LinkedHeld(t, ref, i, d, k, name);
      }
      Iput(i);
    }

    /** The end of sys_unlink: the name of i at place (d, k) goes. */
    method Remove(i: nat, d: nat, k: nat)
      requires Valid() && 0 < i < |inode| && IsEntry(inode, d, k, i) && k >= 2 && inode[i].nlink >= 1
      requires !inode[i].kind.Free?
      requires inode[i].kind.Dir? ==> Bare(inode, i)
      modifies this`inode, this`place
      ensures i != d && Valid() && inode == Put(Removed(old(inode), i, d, k), ref, i)
    {
      ghost var t := inode;
      var dir := inode[i].kind.Dir?;
      if dir {
        WithoutDirInv(t, place, i, d, k);
        place := place - {i};
      } else {
        UnnamedInv(t, place, i, d, k);
      }
      inode := WithEntry(inode, d, k, Entry(0, ""));
      if dir {
        inode := WithLinks(inode, d, Short(inode[d].nlink - 1));
      }
      Iput(d);
      inode := WithLinks(inode, i, Short(inode[i].nlink - 1));
      assert inode == Removed(t, i, d, k);
      PutInv(inode, place, ref, i);
      Iput(i);
    }

    /** sys_unlink: all names but ".", ".." and those of directories in use can be removed. */
    method Unlink(d: nat, name: string) returns (ok: bool, ghost i: nat, ghost k: nat)
      requires Valid() && 0 < d < |inode| && inode[d].kind.Dir?
      modifies this`inode, this`place
      ensures Valid()
      ensures name == "." || name == ".." || !HasName(old(inode), d, name) ==> !ok
      ensures name != "." && name != ".." && HasName(old(inode), d, name) ==>
        && FirstNamed(old(inode), d, name, k) && IsEntry(old(inode), d, k, i)
        && 0 < i < |old(inode)| && old(inode)[i].nlink > 0
        && (ok <==> !old(inode)[i].kind.Dir? || Bare(old(inode), i))
        && (ok ==> i != d && inode == Put(Removed(old(inode), i, d, k), ref, i))
      ensures !ok ==> inode == old(inode)
    {
      i, k := 0, 0;
      if name == "." || name == ".." {
        return false, i, k;
      }
      var off := Dirlookup(d, name);
      if off == |inode[d].entries| {
        return false, i, k;
      }
      EntryUsed(inode, place, d, off);
      var found := inode[d].entries[off].inum;
      i, k := found, off;
      if inode[found].kind.Dir? {
        var empty := IsDirEmpty(found);
        if !empty {
          return false, i, k;
        }
      }
      Remove(found, d, off);
      return true, i, k;
    }

    /** ialloc: the first free inode, or 0. */
    method Ialloc(kind: Kind) returns (i: nat)
      requires |inode| > 0
      modifies this`inode
      ensures i == 0 ==> inode == old(inode) && forall j :: 0 < j < |inode| ==> !inode[j].kind.Free?
      ensures i != 0 ==> FirstFree(old(inode), i) && inode == old(inode)[i := Inode(kind, 0, [])]
    {
      i := 1;
      while i < |inode|
        invariant 1 <= i <= |inode| && inode == old(inode) && forall j :: 0 < j < i ==> !inode[j].kind.Free?
      {
        if inode[i].kind.Free? {
          inode := inode[i := Inode(kind, 0, [])];
          return;
        }
        i := i + 1;
      }
      i := 0;
    }

    /** The entries "." and ".." of a new directory. */
    method LinkDots(i: nat, d: nat, dot: bool, dotdot: bool) returns (ok: bool)
      requires 0 < i < |inode| && inode[i].entries == []
      modifies this`inode
      ensures ok <==> dot && dotdot
      ensures |inode| == |old(inode)| && inode == old(inode)[i := old(inode)[i].(entries := inode[i].entries)]
      ensures ok ==> inode[i].entries == [Entry(i, "."), Entry(d, "..")]
    {
      var k;
      ok, k := Dirlink(i, ".", i, dot);
      if ok {
        ok, k := Dirlink(i, "..", d, dotdot);
      }
    }

    /** The middle of create: the new inode i gets its entries and its name, or is given up. */
    method Enter(i: nat, d: nat, name: string, kind: Kind, dot: bool, dotdot: bool, room: bool)
      returns (ok: bool, k: nat)
      requires |ref| == |inode| && 0 < i < |inode| && d < |inode| && i != d && inode[i] == Inode(kind, 0, [])
      requires ref[i] == 0 && !HasName(inode, d, name)
      modifies this`inode
      ensures ok <==> room && (kind.Dir? ==> dot && dotdot)
      ensures ok ==> FirstEmpty(old(inode)[d].entries, k) && inode == Created(old(inode), i, d, k, name, kind)
      ensures !ok ==> inode == old(inode)[i := FREED]
    {
      ghost var t := inode;
      inode := WithLinks(inode, i, 1);
      ok, k := true, 0;
      if kind.Dir? {
        ok := LinkDots(i, d, dot, dotdot);
      }
      assert inode[d] == t[d] && inode == t[i := inode[i]];
      if ok {
        ok, k := Dirlink(d, name, i, room);
      }
      if ok {
        if kind.Dir? {
          inode := WithLinks(inode, d, Short(inode[d].nlink + 1));
        }
      } else {
        inode := WithLinks(inode, i, 0);
        Iput(i);
      }
    }

    /** create, where the name is new. */
    method CreateNew(d: nat, name: string, kind: Kind, dot: bool, dotdot: bool, room: bool)
      returns (i: nat, ghost k: nat)
      requires Valid() && 0 < d < |inode| && inode[d].kind.Dir? && !kind.Free? && !HasName(inode, d, name)
      modifies this`inode, this`place
      ensures i == 0 ==> Valid() && inode == old(inode)
      ensures i == 0 <==> !CanCreate(old(inode), kind, dot, dotdot, room)
      ensures i != 0 ==>
        && FirstFree(old(inode), i) && i != d && FirstEmpty(old(inode)[d].entries, k)
        && inode == Created(old(inode), i, d, k, name, kind)
        && (CountsOk(inode) <==> Live(old(inode), d) && (kind.Dir? ==> old(inode)[d].nlink < MAXLINK))
        && (CountsOk(inode) ==> Valid())
    {
      k := 0;
      ghost var t := inode;
      Unreferenced(t, place, d);
      i := Ialloc(kind);
      if i == 0 {
        return;
      }
      assert t[i] == FREED by { assert UnfoldInv(0); }
      var ok;
      ok, k := Enter(i, d, name, kind, dot, dotdot, room);
      if ok {
        SameCreated(t, i, d, k, name, kind);
        CreatedHeld(t, ref, i, d, k, name, kind);
        if kind.Dir? {
          CreatedDir(t, place, i, d, k, name);
          place := place[i := (d, k)];
        } else {
          CreatedFile(t, place, i, d, k, name, kind);
        }
      } else {
        assert inode == t;
        i := 0;
      }
      Iput(d);
    }

    /** create, with dot, dotdot and room telling which of its directory writes find a block; 0 stands for failure. */
    method Create(d: nat, name: string, kind: Kind, dot: bool, dotdot: bool, room: bool) returns (i: nat, ghost k: nat)
      requires Valid() && 0 < d < |inode| && inode[d].kind.Dir? && !kind.Free? && (Live(inode, d) || name != "..")
      modifies this`inode, this`place
      ensures i == 0 || HasName(old(inode), d, name) ==> Valid() && inode == old(inode)
      ensures !HasName(old(inode), d, name) ==> (i == 0 <==> !CanCreate(old(inode), kind, dot, dotdot, room))
      ensures HasName(old(inode), d, name) ==>
        && FirstNamed(inode, d, name, k)
        && var j := inode[d].entries[k].inum;
        j < |inode| && i == if kind.File? && (inode[j].kind.File? || inode[j].kind.Device?) then j else 0
      ensures i != 0 && !HasName(old(inode), d, name) ==>
        && FirstFree(old(inode), i) && i != d && FirstEmpty(old(inode)[d].entries, k)
        && inode == Created(old(inode), i, d, k, name, kind)
        && (CountsOk(inode) <==> Live(old(inode), d) && (kind.Dir? ==> old(inode)[d].nlink < MAXLINK))
        && (CountsOk(inode) ==> Valid())
    {
      var off := Dirlookup(d, name);
      if off == |inode[d].entries| {
        i, k := CreateNew(d, name, kind, dot, dotdot, room);
        return;
      }
      i, k := inode[d].entries[off].inum, off;
      FoundUsed(inode, place, d, off);
      if !(kind.File? && (inode[i].kind.File? || inode[i].kind.Device?)) {
        Iput(i);
        i := 0;
      }
    }
  }

  /** A directory is made and opened. */
  method OpenDirectory() returns (tree: FileTree, d: nat)
    ensures tree.Valid() && |tree.inode| == 4 && fresh(tree) && 1 < d < 4 && tree.inode[d] == NewDir(d, ROOT)
    ensures tree.ref[d] > 0 && tree.inode[5 - d].kind.Free? && Live(tree.inode, ROOT)
    ensures tree.inode[ROOT].entries == [Entry(ROOT, "."), Entry(ROOT, ".."), Entry(d, "a")]
  {
    tree := new FileTree(4, []);
    ghost var k;
    assert tree.inode[2].kind.Free? && !HasName(tree.inode, ROOT, "a");
    d, k := tree.Create(ROOT, "a", Dir, true, true, true);
    tree.Hold(d);
  }

  /** And it is removed while open. */
  method RemovedDirectory() returns (tree: FileTree, d: nat)
    ensures tree.Valid() && |tree.inode| == 4 && fresh(tree) && 0 < d < 4 && tree.inode[d].kind.Dir? && tree.ref[d] > 0
    ensures !Live(tree.inode, d) && !HasName(tree.inode, d, "b") && exists j :: 0 < j < 4 && tree.inode[j].kind.Free?
  {
    tree, d := OpenDirectory();
    assert tree.inode[ROOT].entries[2] == Entry(d, "a");
    ghost var (e, k) := (0, 0);
    var ok;
    ok, e, k := tree.Unlink(ROOT, "a");
    assert ok && e == d;
    assert tree.inode[5 - d].kind.Free?;
  }

  /** So removed directories can be reached, and whatever is created in this one makes the counts wrong. */
  method CreateInRemoved(kind: Kind) returns (tree: FileTree, d: nat, i: nat)
    requires !kind.Free?
    ensures 0 < d < |tree.inode| && 0 < i < |tree.inode| && !CountsOk(tree.inode)
  {
    tree, d := RemovedDirectory();
    ghost var k;
    i, k := tree.Create(d, "b", kind, true, true, true);
  }

  /** A name of four characters for every number below 65536. */
  function Name(n: nat): string {
    [Digit(n), Digit(n / 16), Digit(n / 256), Digit(n / 4096)]
  }

  function Digit(n: nat): char { ('a' as int + n % 16) as char }

  lemma Digits(n: nat)
    requires n < 65536
    ensures n == n % 16 + 16 * (n / 16 % 16) + 256 * (n / 256 % 16) + 4096 * (n / 4096 % 16)
  {
    var (a, b) := (n / 16, n / 256);
    assert b == a / 16 && n / 4096 == b / 16 && b / 16 < 16;
    assert n == 16 * a + n % 16 && a == 16 * b + a % 16 && b == 16 * (b / 16) + b % 16;
  }

  lemma DigitSame(m: nat, n: nat)
    requires Digit(m) == Digit(n)
    ensures m % 16 == n % 16
  {
    assert Digit(m) as int == 'a' as int + m % 16 && Digit(n) as int == 'a' as int + n % 16;
  }

  lemma NamesDiffer(m: nat, n: nat)
    requires m < 65536 && n < 65536 && Name(m) == Name(n)
    ensures m == n
  {
    var (x, y) := (Name(m), Name(n));
    assert x[0] == y[0] && x[1] == y[1] && x[2] == y[2] && x[3] == y[3];
    DigitSame(m, n);
    DigitSame(m / 16, n / 16);
    DigitSame(m / 256, n / 256);
    DigitSame(m / 4096, n / 4096);
    Digits(m);
    Digits(n);
  }

  /** Directory d has none of the names from number k on. */
  predicate Unused(t: Tree, d: nat, k: nat, n: nat) {
    forall m :: k <= m < n ==> !HasName(t, d, Name(m))
  }

  /** Links file i in directory d under n new names. */
  method LinkMany(tree: FileTree, i: nat, d: nat, n: nat, ghost limit: nat)
    requires tree.Valid() && 0 < i < |tree.inode| && tree.inode[i].kind.File? && tree.inode[i].nlink + n <= MAXLINK
    requires 0 < d && Live(tree.inode, d) && Unused(tree.inode, d, 0, limit) && n <= limit < 65536
    modifies tree
    ensures tree.Valid() && |tree.inode| == |old(tree.inode)| && tree.inode[i].kind.File?
    ensures tree.inode[i].nlink == old(tree.inode[i].nlink) + n
    ensures Live(tree.inode, d) && Unused(tree.inode, d, n, limit)
    ensures forall x :: 0 <= x < |tree.inode| && x != i && x != d ==> tree.inode[x] == old(tree.inode)[x]
  {
    for k := 0 to n
      invariant tree.Valid() && |tree.inode| == |old(tree.inode)| && tree.inode[i].kind.File?
      invariant tree.inode[i].nlink == old(tree.inode[i].nlink) + k
      invariant Live(tree.inode, d) && Unused(tree.inode, d, k, limit)
      invariant forall x :: 0 <= x < |tree.inode| && x != i && x != d ==> tree.inode[x] == old(tree.inode)[x]
    {
      ghost var t := tree.inode;
      Counted(t, tree.place, i);
      ghost var e;
      var ok;
      ok, e := tree.Link(i, d, Name(k), true);
      LinkedUnused(t, i, d, e, k, limit);
    }
  }

  lemma Counted(t: Tree, place: map<nat, Place>, i: nat)
    requires Inv(t, place) && 0 < i < |t|
    ensures t[i].nlink >= 0
  {
    Unreferenced(t, place, i);
  }

  lemma LinkedUnused(t: Tree, i: nat, d: nat, e: nat, k: nat, n: nat)
    requires i < |t| && d < |t| && i != d && e <= |t[d].entries| && Unused(t, d, k, n) && k < n < 65536
    ensures Unused(Linked(t, i, d, e, Name(k)), d, k + 1, n)
  {
    var t' := Linked(t, i, d, e, Name(k));
    forall m | k + 1 <= m < n ensures !HasName(t', d, Name(m)) {
      if Name(m) == Name(k) { NamesDiffer(m, k); }
      assert !HasName(t, d, Name(m));
    }
  }

  /** A directory beside the file that mkfs has made. */
  method FileAndDirectory() returns (tree: FileTree, d: nat)
    ensures tree.Valid() && fresh(tree) && |tree.inode| == 4 && d == 3 && tree.inode[2] == Inode(File, 1, [])
    ensures Live(tree.inode, ROOT) && Live(tree.inode, d)
    ensures Unused(tree.inode, ROOT, 0, 16383) && tree.inode[d].entries == [Entry(d, "."), Entry(ROOT, "..")]
  {
    tree := new FileTree(4, ["f"]);
    ghost var k;
    assert tree.inode[3].kind.Free? && !HasName(tree.inode, ROOT, "g");
    d, k := tree.Create(ROOT, "g", Dir, true, true, true);
    assert tree.inode[d] == NewDir(d, ROOT);
    assert tree.inode[ROOT].entries == [Entry(ROOT, "."), Entry(ROOT, ".."), Entry(2, "f"), Entry(3, "g")];
    forall m | 0 <= m < 16383 ensures !HasName(tree.inode, ROOT, Name(m)) {
      assert |Name(m)| == 4;
    }
  }

  /** A link count can be made to wrap: 32767 names in two directories, and one more. */
  method LinkTooOften() returns (tree: FileTree)
    ensures |tree.inode| == 4 && tree.inode[2].nlink < 0 && !CountsOk(tree.inode)
  {
    var d;
    tree, d := FileAndDirectory();
    LinkMany(tree, 2, ROOT, 16383, 16383);
    forall m | 0 <= m < 16384 ensures !HasName(tree.inode, d, Name(m)) {
      assert |Name(m)| == 4;
    }
    LinkMany(tree, 2, d, 16383, 16384);
    ghost var k;
    var ok;
    assert tree.inode[2].nlink == MAXLINK;
    ok, k := tree.Link(2, d, Name(16383), true);
  }

  lemma SameCreated(t: Tree, i: nat, d: nat, k: nat, name: string, kind: Kind)
    requires i < |t| && d < |t| && i != d && k <= |t[d].entries|
    ensures Created(t[i := Inode(kind, 0, [])], i, d, k, name, kind) == Created(t, i, d, k, name, kind)
  {
    var t1 := t[i := Inode(kind, 0, [])];
    assert t1[i := NewDir(i, d)] == t[i := NewDir(i, d)];
    assert t1[i := Inode(kind, 1, [])] == t[i := Inode(kind, 1, [])];
  }
}
