/**
 Directories as maps from names to inodes: what lookups find after the system calls of LinkCount
 (kernel/sysfile.c and dirlookup of kernel/fs.c).
 */
module Directories {
  import opened LinkCount

  /** What dirlookup finds under a name; 0 is nothing. */
  function Lookup(es: seq<Entry>, name: string): (i: nat)
    ensures i != 0 ==> Entry(i, name) in es
    ensures i == 0 ==> forall k :: 0 <= k < |es| && es[k].inum != 0 ==> es[k].name != name
  {
    if es == [] then 0
    else if es[0].inum != 0 && es[0].name == name then es[0].inum
    else Lookup(es[1..], name)
  }

  function Find(t: Tree, d: nat, name: string): nat {
    if d < |t| then Lookup(t[d].entries, name) else 0
  }

  /** No name is used twice in a directory. */
  predicate NoTwins(es: seq<Entry>) {
    forall j, k :: 0 <= j < k < |es| && es[j].inum != 0 && es[k].inum != 0 ==> es[j].name != es[k].name
  }

  predicate AllApart(t: Tree) {
    forall d :: 0 <= d < |t| ==> NoTwins(t[d].entries)
  }

  lemma {:induction false} LookupFirst(es: seq<Entry>, name: string, k: nat)
    requires k < |es| && es[k].inum != 0 && es[k].name == name
    requires forall j :: 0 <= j < k ==> es[j].inum == 0 || es[j].name != name
    ensures Lookup(es, name) == es[k].inum
  {
    if k > 0 { LookupFirst(es[1..], name, k - 1); }
  }

  function Entered(es: seq<Entry>, k: nat, e: Entry): seq<Entry>
    requires k <= |es|
  {
    if k < |es| then es[k := e] else es + [e]
  }

  lemma {:induction false} LookupEntered(es: seq<Entry>, k: nat, e: Entry, name: string)
    requires k <= |es| && e.inum != 0 && (k < |es| ==> es[k].inum == 0)
    requires forall j :: 0 <= j < |es| && es[j].inum != 0 ==> es[j].name != e.name
    ensures Lookup(Entered(es, k, e), name) == if name == e.name then e.inum else Lookup(es, name)
  {
    if k > 0 {
      LookupEntered(es[1..], k - 1, e, name);
      assert Entered(es, k, e)[1..] == Entered(es[1..], k - 1, e);
    } else if es != [] {
      assert Entered(es, 0, e)[1..] == es[1..];
    } else {
      assert Entered(es, 0, e)[1..] == [];
    }
  }

  lemma {:induction false} LookupErased(es: seq<Entry>, k: nat, name: string)
    requires NoTwins(es) && k < |es| && es[k].inum != 0
    ensures Lookup(es[k := Entry(0, "")], name) == if name == es[k].name then 0 else Lookup(es, name)
  {
    var es' := es[k := Entry(0, "")];
    if name == es[k].name {
      assert forall j :: 0 <= j < |es'| && es'[j].inum != 0 ==> es'[j].name != name;
    } else if k > 0 {
      LookupErased(es[1..], k - 1, name);
      assert es'[1..] == es[1..][k - 1 := Entry(0, "")];
    } else {
      assert es'[1..] == es[1..];
    }
  }

  // sys_link.

  /** After sys_link the new name leads to the inode, and every other name where it led before. */
  lemma LinkedFinds(t: Tree, i: nat, d: nat, k: nat, name: string, d': nat, name': string)
    requires 0 < i < |t| && d < |t| && FirstEmpty(t[d].entries, k) && !HasName(t, d, name)
    ensures Find(Linked(t, i, d, k, name), d', name') == if d' == d && name' == name then i else Find(t, d', name')
  {
    LookupEntered(t[d].entries, k, Entry(i, name), name');
  }

  lemma EnteredApart(es: seq<Entry>, k: nat, e: Entry)
    requires NoTwins(es) && k <= |es|
    requires forall j :: 0 <= j < |es| && es[j].inum != 0 ==> es[j].name != e.name
    ensures NoTwins(Entered(es, k, e))
  {
  }

  lemma LinkedApart(t: Tree, i: nat, d: nat, k: nat, name: string)
    requires AllApart(t) && 0 < i < |t| && d < |t| && FirstEmpty(t[d].entries, k) && !HasName(t, d, name)
    ensures AllApart(Linked(t, i, d, k, name))
  {
    EnteredApart(t[d].entries, k, Entry(i, name));
    var t' := Linked(t, i, d, k, name);
    assert forall x :: 0 <= x < |t| && x != d ==> t'[x].entries == t[x].entries;
    assert t'[d].entries == Entered(t[d].entries, k, Entry(i, name));
  }

  // create.

  lemma LookupDots(i: nat, d: nat, name: string)
    requires i > 0
    ensures Lookup(NewDir(i, d).entries, name) == if name == "." then i else if name == ".." then d else 0
  {
    var es := NewDir(i, d).entries;
    assert es[1..] == [Entry(d, "..")] && es[1..][1..] == [];
    assert Lookup(es[1..], name) == if name == ".." then d else 0;
    assert |"."| != |".."|;
  }

  /** After create the new name leads to the new inode, and every other name where it led before; a new directory has
      just "." and "..". */
  lemma CreatedFinds(t: Tree, i: nat, d: nat, k: nat, name: string, kind: Kind, d': nat, name': string)
    requires 0 < i < |t| && t[i] == FREED && d < |t| && i != d && FirstEmpty(t[d].entries, k) && !HasName(t, d, name)
    ensures Find(Created(t, i, d, k, name, kind), d', name') ==
            if d' == d && name' == name then i
            else if d' == i && kind.Dir? then (if name' == "." then i else if name' == ".." then d else 0)
            else Find(t, d', name')
  {
    LookupEntered(t[d].entries, k, Entry(i, name), name');
    var t' := Created(t, i, d, k, name, kind);
    assert t'[d].entries == Entered(t[d].entries, k, Entry(i, name));
    LookupDots(i, d, name');
    assert t'[i].entries == if kind.Dir? then NewDir(i, d).entries else [];
  }

  lemma CreatedApart(t: Tree, i: nat, d: nat, k: nat, name: string, kind: Kind)
    requires AllApart(t) && 0 < i < |t| && d < |t| && i != d && FirstEmpty(t[d].entries, k) && !HasName(t, d, name)
    ensures AllApart(Created(t, i, d, k, name, kind))
  {
    EnteredApart(t[d].entries, k, Entry(i, name));
    var t' := Created(t, i, d, k, name, kind);
    assert forall x :: 0 <= x < |t| && x != d && x != i ==> t'[x].entries == t[x].entries;
    assert t'[d].entries == Entered(t[d].entries, k, Entry(i, name));
    assert t'[i].entries == if kind.Dir? then NewDir(i, d).entries else [];
  }

  // sys_unlink.

  /** After sys_unlink the name is gone, and every other name leads where it led before; if the inode was freed too,
      it has no names in it. */
  lemma RemovedFinds(t: Tree, ref: seq<nat>, i: nat, d: nat, k: nat, name: string, d': nat, name': string)
    requires AllApart(t) && i < |t| == |ref| && d < |t| && i != d && t[d].nlink > 0 && t[i].nlink > 0
    requires FirstNamed(t, d, name, k) && t[d].entries[k].inum == i
    ensures var (t1, t') := (Removed(t, i, d, k), Put(Removed(t, i, d, k), ref, i));
            Find(t', d', name') ==
            if d' == d && name' == name then 0
            else if d' == i && t'[i] != t1[i] then 0
            else Find(t, d', name')
  {
    LookupErased(t[d].entries, k, name');
    var t1 := Removed(t, i, d, k);
    assert t1[d].entries == t[d].entries[k := Entry(0, "")];
    assert t1[i].entries == t[i].entries;
  }

  lemma RemovedApart(t: Tree, ref: seq<nat>, i: nat, d: nat, k: nat)
    requires AllApart(t) && i < |t| == |ref| && d < |t| && i != d && t[d].nlink > 0 && t[i].nlink > 0
    requires k < |t[d].entries|
    ensures AllApart(Put(Removed(t, i, d, k), ref, i))
  {
    var t1 := Removed(t, i, d, k);
    assert t1[d].entries == t[d].entries[k := Entry(0, "")];
    assert forall x :: 0 <= x < |t| && x != d ==> t1[x].entries == t[x].entries;
  }
}
