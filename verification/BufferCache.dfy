/**
 The buffer cache (kernel/bio.c): a ring of buffers linked through next and prev, ordered by
 how recently they were released.  Node n, one past the buffers, is the list head.
 */
module BufferCache {
  import opened Blocks

  // The ring.

  function Succ(ring: seq<nat>, i: nat): nat
    requires i < |ring|
  {
    if i + 1 < |ring| then i + 1 else 0
  }

  /** ring lists distinct nodes, each linked to the one after it, and the last to the first. */
  predicate Linked(next: seq<nat>, prev: seq<nat>, ring: seq<nat>) {
    true == (
      && |next| == |prev| && ring != [] && (forall i :: 0 <= i < |ring| ==> ring[i] < |next|)
      && (forall i, j :: 0 <= i < j < |ring| ==> ring[i] != ring[j])
      && (forall i :: 0 <= i < |ring| ==> next[ring[i]] == ring[Succ(ring, i)] && prev[ring[Succ(ring, i)]] == ring[i]))
  }

  /** The ring without its element k. */
  function Without(ring: seq<nat>, k: nat): seq<nat>
    requires k < |ring|
  {
    ring[..k] + ring[k + 1..]
  }

  lemma Neighbours(next: seq<nat>, prev: seq<nat>, ring: seq<nat>, k: nat)
    requires Linked(next, prev, ring) && 0 < k < |ring|
    ensures prev[ring[k]] == ring[k - 1] && next[ring[k]] == ring[Succ(ring, k)]
  {
    assert prev[ring[Succ(ring, k - 1)]] == ring[k - 1];
  }

  lemma UnlinkAt(next: seq<nat>, prev: seq<nat>, ring: seq<nat>, k: nat, i: nat)
    requires Linked(next, prev, ring) && 0 < k < |ring| && i < |ring| - 1 && prev[ring[k]] == ring[k - 1]
    requires next[ring[k]] == ring[Succ(ring, k)]
    ensures var (b, r) := (ring[k], Without(ring, k));
            && next[prev[b] := next[b]][r[i]] == r[Succ(r, i)] && prev[next[b] := prev[b]][r[Succ(r, i)]] == r[i]
  {
    var j := if i < k then i else i + 1;
    assert next[ring[j]] == ring[Succ(ring, j)] && prev[ring[Succ(ring, j)]] == ring[j];
  }

  /** Bypassing a node takes it out of the ring. */
  lemma Unlink(next: seq<nat>, prev: seq<nat>, ring: seq<nat>, k: nat)
    requires Linked(next, prev, ring) && 0 < k < |ring|
    ensures var b := ring[k];
            && prev[b] < |next| && next[b] < |prev|
            && Linked(next[prev[b] := next[b]], prev[next[b] := prev[b]], Without(ring, k))
  {
    var r := Without(ring, k);
    Neighbours(next, prev, ring, k);
    assert forall i :: 0 <= i < |r| ==> r[i] == if i < k then ring[i] else ring[i + 1];
    forall i | 0 <= i < |r|
      ensures var b := ring[k];
              next[prev[b] := next[b]][r[i]] == r[Succ(r, i)] && prev[next[b] := prev[b]][r[Succ(r, i)]] == r[i]
    {
      UnlinkAt(next, prev, ring, k, i);
    }
  }

  /** Linking a new node b behind the first. */
  lemma Insert(next: seq<nat>, prev: seq<nat>, ring: seq<nat>, b: nat)
    requires Linked(next, prev, ring) && b < |next| && b !in ring
    ensures var h := ring[0];
            && h < |next| && next[h] < |prev|
            && Linked(next[b := next[h]][h := b], prev[b := h][next[h] := b], [h, b] + ring[1..])
  {
    var h := ring[0];
    assert next[h] == ring[Succ(ring, 0)];
    var r := [h, b] + ring[1..];
    var (next', prev') := (next[b := next[h]][h := b], prev[b := h][next[h] := b]);
    assert forall i :: 0 <= i < |r| ==> r[i] == if i == 0 then h else if i == 1 then b else ring[i - 1];
    forall i | 0 <= i < |r| ensures next'[r[i]] == r[Succ(r, i)] && prev'[r[Succ(r, i)]] == r[i] {
      if i > 1 {
        assert next[ring[i - 1]] == ring[Succ(ring, i - 1)] && prev[ring[Succ(ring, i - 1)]] == ring[i - 1];
      }
    }
  }

  // The cache.

  /** The block a buffer is for, as device and block number. */
  type Id = (nat, nat)

  // See Blocks.Unfold.
  predicate UnfoldValid(u: int) { true }

  class Cache {
    const n: nat
    var next: seq<nat>
    var prev: seq<nat>
    var id: seq<Id>
    var refcnt: seq<nat>
    var valid: seq<bool>
    var data: seq<Block>
    var disk: map<Id, Block>
    ghost var ring: seq<nat>
    ghost var holds: seq<nat>  // how often each buffer has been handed out and not yet released
    ghost var pins: seq<nat>
    ghost var dirty: set<nat>  // buffers changed and not yet written

    /** The ring is a permutation of the head and all buffers. */
    ghost predicate RingOk()
      reads this
    {
      Linked(next, prev, ring) && |next| == |ring| == n + 1 && ring[0] == n
    }

    ghost predicate Valid()
      reads this
    {
      && |id| == |refcnt| == |valid| == |data| == |holds| == |pins| == n
      && forall u {:trigger UnfoldValid(u)} :: UnfoldValid(u) ==>
           RingOk() && BuffersOk(id, refcnt, valid, data, disk, holds, pins, dirty)
    }

    /** The contents of a block as the cache presents it. */
    ghost function Contents(x: Id): Block
      reads this
    {
      Shown(id, valid, data, disk, x)
    }

    constructor (nbuf: nat, blocks: map<Id, Block>)
      ensures Valid() && n == nbuf && disk == blocks && dirty == {} && (forall b :: 0 <= b < n ==> refcnt[b] == 0)
      ensures forall b :: 0 <= b < n ==> !valid[b]
    {
      n := nbuf;
      next, prev, ring := seq(nbuf + 1, _ => nbuf), seq(nbuf + 1, _ => nbuf), [nbuf];
      id, refcnt, valid, data := seq(nbuf, _ => (0, 0)), seq(nbuf, _ => 0), seq(nbuf, _ => false), seq(nbuf, _ => []);
      holds, pins, dirty := seq(nbuf, _ => 0), seq(nbuf, _ => 0), {};
      disk := blocks;
      new;
      var b := 0;
      while b < nbuf
        invariant 0 <= b <= nbuf && Linked(next, prev, ring) && |next| == nbuf + 1 && |ring| == b + 1 && ring[0] == nbuf
        invariant forall i :: 0 < i < |ring| ==> ring[i] < b
        invariant id == seq(nbuf, _ => (0, 0)) && refcnt == holds == pins == seq(nbuf, _ => 0)
        invariant valid == seq(nbuf, _ => false) && |data| == nbuf
        invariant disk == blocks && n == nbuf && dirty == {}
      {
        LinkFront(b);
        b := b + 1;
      }
    }

    /** Links b behind the head. */
    method LinkFront(b: nat)
      requires Linked(next, prev, ring) && b < n < |next| && b !in ring && ring[0] == n
      modifies this`next, this`prev, this`ring
      ensures Linked(next, prev, ring) && ring == [n, b] + old(ring)[1..] && |next| == old(|next|)
    {
      Insert(next, prev, ring, b);
      var first := next[n];
      next, prev := next[b := first], prev[b := n];
      prev, next := prev[first := b], next[n := b];
      ring := [n, b] + ring[1..];
    }

    /** bget's first loop: the buffer for x, or n. */
    method Find(x: Id) returns (b: nat)
      requires RingOk() && |id| == n
      ensures b <= n && (b < n ==> id[b] == x) && (b == n ==> forall c :: 0 <= c < n ==> id[c] != x)
    {
      ghost var i := 1;
      RingFirst(next, prev, ring);
      b := next[n];
      while b != n
        invariant 0 < i <= |ring| && b == (if i < |ring| then ring[i] else n)
        invariant forall j :: 0 < j < i ==> id[ring[j]] != x
        decreases |ring| - i
      {
        RingBuffer(ring, i);
        if id[b] == x {
          return;
        }
        RingStep(next, prev, ring, i);
        b, i := next[b], i + 1;
      }
      forall c | 0 <= c < n ensures id[c] != x {
        var j := Position(ring, c);
      }
    }

    /** bget's second loop: the least recently released buffer without references, or n. */
    method Recycle() returns (b: nat)
      requires RingOk() && |refcnt| == n
      ensures b <= n && (b < n ==> refcnt[b] == 0 && OlderBusy(ring, refcnt, b))
      ensures (b == n ==> forall c :: 0 <= c < n ==> refcnt[c] > 0)
    {
      ghost var i := |ring| - 1;
      RingLast(next, prev, ring);
      b := prev[n];
      while b != n
        invariant 0 <= i < |ring| && b == ring[i] && forall j :: i < j < |ring| ==> ring[j] < n && refcnt[ring[j]] > 0
        decreases i
      {
        RingBuffer(ring, i);
        if refcnt[b] == 0 {
          Oldest(ring, refcnt, i);
          return;
        }
        Neighbours(next, prev, ring, i);
        b, i := prev[b], i - 1;
      }
      AllBusy(ring, refcnt);
    }

    /** The buffer for block x, with one more reference: the one there is, or the least recently released one that
        nobody refers to. */
    method Bget(x: Id) returns (b: nat)
      requires Valid() && x.0 != 0
      requires ((exists c :: 0 <= c < n && id[c] == x) || exists c :: 0 <= c < n && refcnt[c] == 0)
      modifies this`id, this`refcnt, this`valid, this`holds
      ensures Valid() && b < n && id[b] == x && refcnt == old(refcnt)[b := old(refcnt)[b] + 1]
      ensures holds == old(holds)[b := old(holds)[b] + 1]
      ensures old(id)[b] == x ==> id == old(id) && valid == old(valid)
      ensures old(id)[b] != x ==>
                && (forall c :: 0 <= c < n ==> old(id)[c] != x)
                && old(refcnt)[b] == 0 && OlderBusy(ring, old(refcnt), b)
                && id == old(id)[b := x] && valid == old(valid)[b := false]
    {
      assert UnfoldValid(0);
      b := Find(x);
      if b < n {
        refcnt, holds := refcnt[b := refcnt[b] + 1], holds[b := holds[b] + 1];
        return;
      }
      b := Recycle();
      Reuse(b, x);
    }

    /** Hands buffer b, which nobody refers to, to block x. */
    method Reuse(b: nat, x: Id)
      requires Valid() && b < n && refcnt[b] == 0 && x.0 != 0 && forall c :: 0 <= c < n ==> id[c] != x
      modifies this`id, this`refcnt, this`valid, this`holds
      ensures Valid() && id == old(id)[b := x] && valid == old(valid)[b := false]
      ensures refcnt == old(refcnt)[b := 1] && holds == old(holds)[b := 1]
    {
      assert UnfoldValid(0);
      id, valid := id[b := x], valid[b := false];
      refcnt, holds := refcnt[b := 1], holds[b := 1];
    }

    /** A buffer with the contents of block x.  The contents of no block change. */
    method Bread(x: Id) returns (b: nat)
      requires Valid() && x.0 != 0 && x in disk
      requires (exists c :: 0 <= c < n && id[c] == x) || exists c :: 0 <= c < n && refcnt[c] == 0
      modifies this`id, this`refcnt, this`valid, this`data, this`holds
      ensures Valid() && b < n && id[b] == x && valid[b] && data[b] == old(Contents(x))
      ensures refcnt == old(refcnt)[b := old(refcnt)[b] + 1] && holds == old(holds)[b := old(holds)[b] + 1]
      ensures old(id)[b] != x ==> old(refcnt)[b] == 0
      ensures Loaded(old(id), old(valid), old(data), id, valid, data, disk, b, x)
      ensures forall y: Id :: y.0 != 0 ==> Contents(y) == old(Contents(y))
    {
      assert UnfoldValid(0);
      b := Bget(x);
      if !valid[b] {
        Fill(b);
      }
      BreadKeeps(old(id), old(valid), old(data), id, valid, data, disk, b, x);
    }

    /** Reads a buffer from disk. */
    method Fill(b: nat)
      requires Valid() && b < n && refcnt[b] > 0 && !valid[b] && id[b] in disk
      modifies this`data, this`valid
      ensures Valid() && data == old(data)[b := disk[id[b]]] && valid == old(valid)[b := true]
    {
      assert UnfoldValid(0);
      data, valid := data[b := disk[id[b]]], valid[b := true];
    }

    /** Writes a buffer through to disk. */
    method Bwrite(b: nat)
      requires Valid() && b < n && holds[b] > 0 && valid[b]
      modifies this`disk, this`dirty
      ensures Valid() && disk == old(disk)[id[b] := data[b]] && dirty == old(dirty) - {b}
      ensures forall y: Id :: y.0 != 0 ==> Contents(y) == old(Contents(y))
    {
      assert UnfoldValid(0);
      disk, dirty := disk[id[b] := data[b]], dirty - {b};
    }

    /** The holder changes a buffer: its block has new contents, and no other block does. */
    method Modify(b: nat, blk: Block)
      requires Valid() && b < n && holds[b] > 0 && valid[b]
      modifies this`data, this`dirty
      ensures Valid() && data == old(data)[b := blk] && dirty == old(dirty) + {b} && Contents(id[b]) == blk
      ensures forall y: Id :: y.0 != 0 && y != id[b] ==> Contents(y) == old(Contents(y))
    {
      assert UnfoldValid(0);
      data, dirty := data[b := blk], dirty + {b};
    }

    /** Gives up a reference; a buffer without references becomes the most recently released.  A changed buffer that
        is not written must be left with a reference. */
    method Brelse(b: nat)
      requires Valid() && b < n && holds[b] > 0 && (refcnt[b] == 1 ==> b !in dirty)
      modifies this`next, this`prev, this`ring, this`refcnt, this`holds
      ensures Valid() && holds == old(holds)[b := old(holds)[b] - 1] && refcnt == old(refcnt)[b := holds[b] + pins[b]]
      ensures if refcnt[b] == 0 then ToFront(old(ring), b, ring) else ring == old(ring)
    {
      assert UnfoldValid(0);
      refcnt, holds := refcnt[b := refcnt[b] - 1], holds[b := holds[b] - 1];
      assert BuffersOk(id, refcnt, valid, data, disk, holds, pins, dirty);
      if refcnt[b] == 0 {
        MoveToFront(b);
      }
    }

    method MoveToFront(b: nat)
      requires RingOk() && b < n
      modifies this`next, this`prev, this`ring
      ensures RingOk() && ToFront(old(ring), b, ring)
    {
      ghost var r := ring;
      ghost var k := Position(ring, b);
      Unlink(next, prev, ring, k);
      prev, next := prev[next[b] := prev[b]], next[prev[b] := next[b]];
      ring := Without(r, k);
      Gone(r, k);
      LinkFront(b);
    }

    method Bpin(b: nat)
      requires Valid() && b < n && id[b].0 != 0
      modifies this`refcnt, this`pins
      ensures Valid() && refcnt == old(refcnt)[b := old(refcnt)[b] + 1] && pins == old(pins)[b := old(pins)[b] + 1]
    {
      assert UnfoldValid(0);
      refcnt, pins := refcnt[b := refcnt[b] + 1], pins[b := pins[b] + 1];
    }

    method Bunpin(b: nat)
      requires Valid() && b < n && pins[b] > 0 && (refcnt[b] == 1 ==> b !in dirty)
      modifies this`refcnt, this`pins
      ensures Valid() && pins == old(pins)[b := old(pins)[b] - 1] && refcnt == old(refcnt)[b := holds[b] + pins[b]]
    {
      assert UnfoldValid(0);
      refcnt, pins := refcnt[b := refcnt[b] - 1], pins[b := pins[b] - 1];
    }
  }

  /** Reference counts are those of holders and pins, no block of a real device has two buffers, and buffers in use
      are for such a device. */
  ghost predicate BuffersOk(id: seq<Id>, refcnt: seq<nat>, valid: seq<bool>, data: seq<Block>, disk: map<Id, Block>,
                            holds: seq<nat>, pins: seq<nat>, dirty: set<nat>)
  {
    && |id| == |refcnt| == |valid| == |data| == |holds| == |pins|
    && (forall b :: 0 <= b < |id| ==> refcnt[b] == holds[b] + pins[b])
    && Unique(id)
    && (forall b :: 0 <= b < |id| && (valid[b] || refcnt[b] > 0) ==> id[b].0 != 0)
    && DirtyOk(id, refcnt, valid, data, disk, dirty)
  }

  /** What is not marked as changed is on disk, and what is marked is kept by a reference. */
  predicate DirtyOk(id: seq<Id>, refcnt: seq<nat>, valid: seq<bool>, data: seq<Block>, disk: map<Id, Block>,
                    dirty: set<nat>)
    requires |id| == |refcnt| == |valid| == |data|
  {
    && (forall b :: b in dirty ==> b < |id| && valid[b] && refcnt[b] > 0)
    && (forall b :: 0 <= b < |id| && valid[b] && b !in dirty ==> id[b] in disk && disk[id[b]] == data[b])
  }

  /** The ring with b moved behind the head and the others in their order. */
  ghost predicate ToFront(ring: seq<nat>, b: nat, ring': seq<nat>) {
    exists k :: 0 < k < |ring| && ring[k] == b && ring' == [ring[0], b] + ring[1..k] + ring[k + 1..]
  }

  lemma Gone(ring: seq<nat>, k: nat)
    requires 0 < k < |ring| && forall i, j :: 0 <= i < j < |ring| ==> ring[i] != ring[j]
    ensures ring[k] !in Without(ring, k) && Without(ring, k)[0] == ring[0]
    ensures Without(ring, k)[1..] == ring[1..k] + ring[k + 1..]
    ensures [ring[0], ring[k]] + (ring[1..k] + ring[k + 1..]) == [ring[0], ring[k]] + ring[1..k] + ring[k + 1..]
  {
  }

  ghost function Shown(id: seq<Id>, valid: seq<bool>, data: seq<Block>, disk: map<Id, Block>, x: Id): Block {
    if Present(id, valid, x) && |data| == |id| then data[Holder(id, valid, x)] else if x in disk then disk[x] else []
  }

  /** bread has given buffer b, old or recycled, to block x and filled it if need be. */
  ghost predicate Loaded(id: seq<Id>, valid: seq<bool>, data: seq<Block>, id': seq<Id>, valid': seq<bool>,
                         data': seq<Block>, disk: map<Id, Block>, b: nat, x: Id)
  {
    && |id| == |valid| == |data| && b < |id| && Unique(id) && Unique(id') && x in disk && x.0 != 0
    && id' == id[b := x] && valid' == valid[b := true]
    && (data' == if valid[b] && id[b] == x then data else data[b := disk[x]])
    && (id[b] != x ==>
          (forall c :: 0 <= c < |id| ==> id[c] != x) && (valid[b] ==> id[b] in disk && disk[id[b]] == data[b]))
  }

  lemma LoadedSame(id: seq<Id>, valid: seq<bool>, data: seq<Block>, id': seq<Id>, valid': seq<bool>,
                   data': seq<Block>, disk: map<Id, Block>, b: nat, x: Id, y: Id)
    requires Loaded(id, valid, data, id', valid', data', disk, b, x) && y.0 != 0
    ensures Shown(id', valid', data', disk, y) == Shown(id, valid, data, disk, y)
  {
    if Present(id, valid, y) && Holder(id, valid, y) != b {
      var c := Holder(id, valid, y);
      assert id'[c] == y && valid'[c];
    }
    if Present(id', valid', y) && Holder(id', valid', y) != b {
      var c := Holder(id', valid', y);
      assert id[c] == y && valid[c];
    }
    assert id'[b] == x && valid'[b] && Present(id', valid', x);
  }

  lemma BreadKeeps(id: seq<Id>, valid: seq<bool>, data: seq<Block>, id': seq<Id>, valid': seq<bool>,
                   data': seq<Block>, disk: map<Id, Block>, b: nat, x: Id)
    requires Loaded(id, valid, data, id', valid', data', disk, b, x)
    ensures forall y: Id :: y.0 != 0 ==> Shown(id', valid', data', disk, y) == Shown(id, valid, data, disk, y)
    ensures data'[b] == Shown(id, valid, data, disk, x)
  {
    forall y: Id | y.0 != 0 ensures Shown(id', valid', data', disk, y) == Shown(id, valid, data, disk, y) {
      LoadedSame(id, valid, data, id', valid', data', disk, b, x, y);
    }
    assert id'[b] == x && valid'[b] && Present(id', valid', x);
    assert Holder(id', valid', x) == b;
  }

  /** Everything released before b is in use. */
  ghost predicate OlderBusy(ring: seq<nat>, refcnt: seq<nat>, b: nat) {
    forall i, j :: 0 < i < j < |ring| && ring[i] == b && ring[j] < |refcnt| ==> refcnt[ring[j]] > 0
  }

  lemma Oldest(ring: seq<nat>, refcnt: seq<nat>, i: nat)
    requires i < |ring| && (forall j, k :: 0 <= j < k < |ring| ==> ring[j] != ring[k])
    requires forall j :: i < j < |ring| ==> ring[j] < |refcnt| && refcnt[ring[j]] > 0
    ensures OlderBusy(ring, refcnt, ring[i])
  {
  }

  lemma AllBusy(ring: seq<nat>, refcnt: seq<nat>)
    requires (forall j :: 0 <= j < |ring| ==> ring[j] < |ring|)
    requires (forall j, k :: 0 <= j < k < |ring| ==> ring[j] != ring[k])
    requires |ring| == |refcnt| + 1 && ring[0] == |refcnt|
    requires forall j :: 0 < j < |ring| ==> ring[j] < |refcnt| && refcnt[ring[j]] > 0
    ensures forall c :: 0 <= c < |refcnt| ==> refcnt[c] > 0
  {
    forall c | 0 <= c < |refcnt| ensures refcnt[c] > 0 {
      var j := Position(ring, c);
    }
  }

  lemma RingFirst(next: seq<nat>, prev: seq<nat>, ring: seq<nat>)
    requires Linked(next, prev, ring)
    ensures next[ring[0]] == if 1 < |ring| then ring[1] else ring[0]
  {
    assert next[ring[0]] == ring[Succ(ring, 0)];
  }

  lemma RingLast(next: seq<nat>, prev: seq<nat>, ring: seq<nat>)
    requires Linked(next, prev, ring)
    ensures prev[ring[0]] == ring[|ring| - 1]
  {
    assert prev[ring[Succ(ring, |ring| - 1)]] == ring[|ring| - 1];
  }

  lemma RingStep(next: seq<nat>, prev: seq<nat>, ring: seq<nat>, i: nat)
    requires Linked(next, prev, ring) && i < |ring|
    ensures next[ring[i]] == if i + 1 < |ring| then ring[i + 1] else ring[0]
  {
    assert next[ring[i]] == ring[Succ(ring, i)];
  }

  /** Past the head the ring holds buffers. */
  lemma RingBuffer(ring: seq<nat>, i: nat)
    requires 0 <= i < |ring| && (forall j :: 0 <= j < |ring| ==> ring[j] < |ring|)
    requires (forall j, k :: 0 <= j < k < |ring| ==> ring[j] != ring[k])
    requires ring[0] == |ring| - 1
    ensures i > 0 ==> ring[i] < |ring| - 1
  {
    assert i > 0 ==> ring[0] != ring[i];
  }

  /** Distinct numbers below their count are all of them. */
  lemma Position(ring: seq<nat>, c: nat) returns (i: nat)
    requires (forall j :: 0 <= j < |ring| ==> ring[j] < |ring|)
    requires (forall j, k :: 0 <= j < k < |ring| ==> ring[j] != ring[k]) && c < |ring|
    ensures i < |ring| && ring[i] == c
  {
    if c !in ring {
      MembersSize(ring);
      assert c !in Members(ring) && |Members(ring) + {c}| == |ring| + 1;
      BoundedSize(Members(ring) + {c}, |ring|);
      assert false;
    }
    i :| i < |ring| && ring[i] == c;
  }

  lemma {:induction false} BoundedSize(t: set<nat>, m: nat)
    requires forall x :: x in t ==> x < m
    ensures |t| <= m
  {
    if m > 0 {
      BoundedSize(t - {m - 1}, m - 1);
    } else {
      assert t == {};
    }
  }

  /** At most one buffer per block of a real device. */
  predicate Unique(id: seq<Id>) {
    forall b, c :: 0 <= b < c < |id| && id[b].0 != 0 ==> id[b] != id[c]
  }

  /** Some buffer holds the block's contents. */
  ghost predicate Present(id: seq<Id>, valid: seq<bool>, x: Id) {
    exists b :: 0 <= b < |id| && b < |valid| && id[b] == x && valid[b]
  }

  ghost function Holder(id: seq<Id>, valid: seq<bool>, x: Id): (b: nat)
    requires Present(id, valid, x)
    ensures b < |id| && b < |valid| && id[b] == x && valid[b]
  {
    var b :| 0 <= b < |id| && b < |valid| && id[b] == x && valid[b]; b
  }
}
