/**
 Path names (skipelem, namex, namei and nameiparent of kernel/fs.c): a path is its non-empty parts between
 slashes, each cut to DIRSIZ characters, and leads through directories one part at a time.
 */
module Paths {
  import opened LinkCount
  import opened Directories

  const DIRSIZ: nat := 14

  function Cut(name: string): string { if |name| > DIRSIZ then name[..DIRSIZ] else name }

  /** The end of the part that begins at p. */
  function PartEnd(path: string, p: nat): (q: nat)
    requires p <= |path|
    ensures p <= q <= |path| && (q < |path| ==> path[q] == '/') && forall i :: p <= i < q ==> path[i] != '/'
    decreases |path| - p
  {
    if p < |path| && path[p] != '/' then PartEnd(path, p + 1) else p
  }

  /** The parts of a path from p on. */
  function Parts(path: string, p: nat): (names: seq<string>)
    requires p <= |path|
    decreases |path| - p
  {
    if p == |path| then []
    else if path[p] == '/' then Parts(path, p + 1)
    else
      assert PartEnd(path, p) == PartEnd(path, p + 1);
      [Cut(path[p..PartEnd(path, p)])] + Parts(path, PartEnd(path, p))
  }

  function Slashes(n: nat): string { seq(n, _ => '/') }

  /** A path as it is written: names with slashes before, between and behind them. */
  function Written(names: seq<string>, gaps: seq<nat>): string
    requires |gaps| == |names| + 1
    decreases |names|
  {
    Slashes(gaps[0]) + if names == [] then "" else names[0] + Written(names[1..], gaps[1..])
  }

  predicate Separate(names: seq<string>, gaps: seq<nat>) {
    && |gaps| == |names| + 1
    && (forall i :: 0 <= i < |names| ==> names[i] != "" && '/' !in names[i])
    && forall i :: 0 < i < |names| ==> gaps[i] > 0
  }

  function Cuts(names: seq<string>): (cuts: seq<string>)
    ensures |cuts| == |names|
  {
    if names == [] then [] else [Cut(names[0])] + Cuts(names[1..])
  }

  lemma {:induction false} SkipSlashes(path: string, p: nat, n: nat)
    requires p + n <= |path| && forall i :: p <= i < p + n ==> path[i] == '/'
    ensures Parts(path, p) == Parts(path, p + n)
    decreases n
  {
    if n > 0 { SkipSlashes(path, p + 1, n - 1); }
  }

  lemma {:induction false} EndsThere(path: string, p: nat, q: nat)
    requires p <= q <= |path| && (q < |path| ==> path[q] == '/') && forall i :: p <= i < q ==> path[i] != '/'
    ensures PartEnd(path, p) == q
    decreases q - p
  {
    if p < q { EndsThere(path, p + 1, q); }
  }

  /** What a path is made of is what its parts are, however many slashes stand between them. */
  lemma {:induction false} PartsWritten(pre: string, names: seq<string>, gaps: seq<nat>)
    requires Separate(names, gaps)
    ensures Parts(pre + Written(names, gaps), |pre|) == Cuts(names)
    decreases |names|
  {
    var (path, p) := (pre + Written(names, gaps), |pre| + gaps[0]);
    SkipSlashes(path, |pre|, gaps[0]);
    if names != [] {
      var (more, q) := (pre + Slashes(gaps[0]) + names[0], p + |names[0]|);
      assert path == more + Written(names[1..], gaps[1..]) && path[p..q] == names[0];
      assert q < |path| ==> path[q] == '/' by { if |names| > 1 { assert gaps[1] > 0; } }
      EndsThere(path, p, q);
      PartsWritten(more, names[1..], gaps[1..]);
    }
  }

  /** Every path is written so. */
  lemma {:induction false} AnyPath(path: string) returns (names: seq<string>, gaps: seq<nat>)
    ensures Separate(names, gaps) && path == Written(names, gaps)
    decreases |path|
  {
    if path == "" {
      names, gaps := [], [0];
    } else if path[0] == '/' {
      var n, g := AnyPath(path[1..]);
      names, gaps := n, [g[0] + 1] + g[1..];
      assert gaps[1..] == g[1..] && Slashes(gaps[0]) == "/" + Slashes(g[0]) && path == "/" + path[1..];
    } else {
      var q := PartEnd(path, 0);
      assert q > 0;
      var n, g := AnyPath(path[q..]);
      if q < |path| && g[0] == 0 { assert path[q..][0] == '/'; }
      names, gaps := [path[..q]] + n, [0] + g;
      assert names[1..] == n && gaps[1..] == g && path == path[..q] + path[q..];
    }
  }

  /** skipelem: the next part and the position behind it and its slashes, if there is one. */
  method Skipelem(path: string, p: nat) returns (ok: bool, name: string, next: nat)
    requires p <= |path|
    ensures p <= next <= |path| && (ok <==> Parts(path, p) != []) && (ok ==> p < next)
    ensures ok ==> Parts(path, p) == [name] + Parts(path, next) && (next < |path| ==> path[next] != '/')
  {
    next, name := p, "";
    while next < |path| && path[next] == '/'
      invariant p <= next <= |path| && Parts(path, p) == Parts(path, next)
    {
      next := next + 1;
    }
    if next == |path| {
      return false, name, next;
    }
    var s := next;
    while next < |path| && path[next] != '/'
      invariant s <= next <= |path| && PartEnd(path, s) == PartEnd(path, next)
    {
      next := next + 1;
    }
    name := Cut(path[s..next]);
    while next < |path| && path[next] == '/'
      invariant s < next <= |path| && Parts(path, s) == [name] + Parts(path, next)
    {
      next := next + 1;
    }
    return true, name, next;
  }

  /** Where a list of parts leads from inode d; 0 is nowhere. */
  function Resolve(t: Tree, d: nat, names: seq<string>): nat
    decreases |names|
  {
    if names == [] then d
    else if d >= |t| || !t[d].kind.Dir? then 0
    else
      var i := Find(t, d, names[0]);
      if i == 0 then 0 else Resolve(t, i, names[1..])
  }

  /** Following a path is following its beginning, and then the rest from there. */
  lemma {:induction false} ResolveConcat(t: Tree, d: nat, xs: seq<string>, ys: seq<string>)
    ensures var e := Resolve(t, d, xs);
            Resolve(t, d, xs + ys) == if xs != [] && e == 0 then 0 else Resolve(t, e, ys)
    decreases |xs|
  {
    if xs == [] {
      assert xs + ys == ys;
    } else {
      assert (xs + ys)[0] == xs[0] && (xs + ys)[1..] == xs[1..] + ys;
      if d < |t| && t[d].kind.Dir? { ResolveConcat(t, Find(t, d, xs[0]), xs[1..], ys); }
    }
  }

  /** One part more. */
  lemma ResolveNext(t: Tree, d: nat, names: seq<string>, k: nat)
    requires k < |names| && d != 0
    ensures var ip := Resolve(t, d, names[..k]);
            && Resolve(t, d, names[..k + 1])
               == (if ip == 0 || ip >= |t| || !t[ip].kind.Dir? then 0 else Find(t, ip, names[k]))
            && (ip == 0 ==> Resolve(t, d, names) == 0)
            && (ip != 0 ==> Resolve(t, d, names) == Resolve(t, ip, names[k..]))
  {
    var (xs, ip) := (names[..k], Resolve(t, d, names[..k]));
    ResolveConcat(t, d, xs, [names[k]]);
    assert names[..k + 1] == xs + [names[k]];
    ResolveConcat(t, d, xs, names[k..]);
    assert names == xs + names[k..];
    assert [names[k]][1..] == [] && [names[k]][0] == names[k];
  }

  lemma FoundEntry(t: Tree, d: nat, name: string, k: nat)
    requires FirstNamed(t, d, name, k)
    ensures Find(t, d, name) == t[d].entries[k].inum
  {
    LookupFirst(t[d].entries, name, k);
  }

  /** The directory and the last part that nameiparent promises. */
  predicate IsParent(t: Tree, d: nat, names: seq<string>, ip: nat, name: string) {
    if names == [] then ip == 0
    else
      var p := Resolve(t, d, names[..|names| - 1]);
      if p != 0 && p < |t| && t[p].kind.Dir? then ip == p && name == names[|names| - 1] else ip == 0
  }

  function First(path: string, cwd: nat): nat { if path != "" && path[0] == '/' then ROOT else cwd }

  /** namex: where the path leads, or with nameiparent where all but its last part leads. */
  method Namex(tree: FileTree, path: string, cwd: nat, nameiparent: bool) returns (ip: nat, name: string)
    requires tree.Valid() && 0 < cwd < |tree.inode|
    ensures !nameiparent ==> ip == Resolve(tree.inode, First(path, cwd), Parts(path, 0))
    ensures nameiparent ==> IsParent(tree.inode, First(path, cwd), Parts(path, 0), ip, name)
  {
    ip := if path != "" && path[0] == '/' then ROOT else cwd;
    ghost var d := ip;
    var (p, ok) := (0, true);
    ghost var (t, names) := (tree.inode, Parts(path, 0));
    ghost var k: nat := 0;
    name := "";
    while true
      invariant p <= |path| && k <= |names| && Parts(path, p) == names[k..] && ip != 0
      invariant k > 0 ==> (p < |path| ==> path[p] != '/') && (nameiparent ==> p < |path|)
      invariant ip == Resolve(t, d, names[..k])
      decreases |path| - p
    {
      var part, next;
      ok, part, next := Skipelem(path, p);
      if !ok {
        break;
      }
      name := part;
      assert name == names[k] && names[k + 1..] == Parts(path, next);
      ResolveNext(t, d, names, k);
      if ip >= |tree.inode| || !tree.inode[ip].kind.Dir? {
        NotThrough(t, d, names, k);
        return 0, name;
      }
      if nameiparent && next == |path| {
        assert k == |names| - 1;
        return ip, name;
      }
      var off := tree.Dirlookup(ip, name);
      if off == |tree.inode[ip].entries| {
        NotFound(t, d, names, k, name);
        return 0, name;
      }
      FoundEntry(t, ip, name, off);
      ip := tree.inode[ip].entries[off].inum;
      p, k := next, k + 1;
    }
    assert names[..k] == names;
    if nameiparent {
      return 0, name;
    }
  }

  /** A path does not go on from something that is not a directory. */
  lemma NotThrough(t: Tree, d: nat, names: seq<string>, k: nat)
    requires k < |names| && d != 0
    requires var ip := Resolve(t, d, names[..k]); ip >= |t| || !t[ip].kind.Dir?
    ensures Resolve(t, d, names) == 0 && IsParent(t, d, names, 0, "")
  {
    ResolveNext(t, d, names, k);
    if k < |names| - 1 {
      var most := names[..|names| - 1];
      assert most[..k] == names[..k];
      ResolveNext(t, d, most, k);
    }
  }

  lemma NotFound(t: Tree, d: nat, names: seq<string>, k: nat, name: string)
    requires k < |names| && d != 0 && names[k] == name
    requires var ip := Resolve(t, d, names[..k]); !HasName(t, ip, name) && ip < |t| && t[ip].kind.Dir? && ip != 0
    ensures Resolve(t, d, names) == 0 && (k < |names| - 1 ==> IsParent(t, d, names, 0, ""))
  {
    ResolveNext(t, d, names, k);
    if k < |names| - 1 {
      var most := names[..|names| - 1];
      assert most[..k] == names[..k];
      ResolveNext(t, d, most, k);
    }
  }
}
