/**
 The log of kernel/log.c on the buffer cache of kernel/bio.c: what bread, log_write and the loops of
 write_log and install_trans do to the ring of buffers are events of LogMachine, whose cache and pins
 are the valid buffers and the pinned ones.  So changed buffers stay referenced until they are written,
 as the cache demands, and what LogMachine promises of every run holds of the ring.
 */
module CachedLog {
  import opened Blocks
  import opened LogMachine
  import opened LogSpace
  import opened BufferCache
  import LogShared

  const DEV: nat := 1
  const NBUF: nat := MAXOPBLOCKS * 3

  /** The buffers without their order and reference counts. */
  datatype Buffers = Buffers(
    id: seq<Id>, valid: seq<bool>, data: seq<Block>, pins: seq<nat>,
    disk: map<Id, Block>, dirty: set<nat>)

  predicate IsHome(d: Disk, x: Id) { x.0 == DEV && x.1 in d.home }

  function Slot(start: nat, i: nat): Id { (DEV, start + 1 + i) }

  /** Home blocks and log slots are where the machine has them; slot i is block start + 1 + i. */
  ghost predicate DiskMirrored(disk: map<Id, Block>, d: Disk, start: nat) {
    && (forall b :: b in d.home ==> (DEV, b) in disk && disk[(DEV, b)] == d.home[b])
    && (forall i :: 0 <= i < |d.slot| ==> Slot(start, i) in disk && disk[Slot(start, i)] == d.slot[i])
    && (forall i :: 0 <= i < |d.slot| ==> !IsHome(d, Slot(start, i)))
  }

  predicate Sized(v: Buffers) { |v.id| == |v.valid| == |v.data| == |v.pins| && Unique(v.id) }

  /** Buffer k is what the machine says of its block; a changed one is pinned. */
  ghost predicate BufferAt(v: Buffers, s: State, k: nat)
    requires Sized(v) && k < |v.id|
  {
    true == (
      var x := v.id[k];
      if IsHome(s.disk, x) then
        && (v.valid[k] ==> x.1 in s.cache && s.cache[x.1] == v.data[k])
        && v.pins[k] == s.pins[x.1] && (k in v.dirty ==> v.pins[k] > 0)
      else
        v.pins[k] == 0 && k !in v.dirty)
  }

  /** A block in the machine's cache has a buffer. */
  ghost predicate CachedAt(v: Buffers, s: State, b: nat) {
    b in s.cache ==> b in s.disk.home && Present(v.id, v.valid, (DEV, b))
  }

  // See Blocks.Unfold.
  predicate UnfoldMirror(u: int) { true }

  ghost predicate Mirror(v: Buffers, s: State, start: nat) {
    forall u {:trigger UnfoldMirror(u)} :: UnfoldMirror(u) ==>
      && Sized(v) && DiskMirrored(v.disk, s.disk, start)
      && (forall b :: CachedAt(v, s, b))
      && (forall k :: 0 <= k < |v.id| ==> BufferAt(v, s, k))
  }

  lemma Known(v: Buffers, s: State, start: nat)
    requires Mirror(v, s, start)
    ensures Sized(v) && DiskMirrored(v.disk, s.disk, start)
  {
    assert UnfoldMirror(0);
  }

  lemma KnownBuffer(v: Buffers, s: State, start: nat, k: nat)
    requires Mirror(v, s, start) && Sized(v) && k < |v.id|
    ensures BufferAt(v, s, k)
  {
    assert UnfoldMirror(0);
  }

  lemma KnownCached(v: Buffers, s: State, start: nat, b: nat)
    requires Mirror(v, s, start)
    ensures CachedAt(v, s, b)
  {
    assert UnfoldMirror(0);
  }

  lemma Close(v: Buffers, s: State, start: nat)
    requires Sized(v) && DiskMirrored(v.disk, s.disk, start)
    requires forall b: nat :: CachedAt(v, s, b)
    requires forall k :: 0 <= k < |v.id| ==> BufferAt(v, s, k)
    ensures Mirror(v, s, start)
  {
  }

  /** In every run, what is pinned is cached. */
  lemma PinnedCached(boot: State, es: seq<Event>, s: State)
    requires Runs(boot, es, s)
    ensures forall b :: s.pins[b] > 0 ==> b in s.cache
  {
    RunRefines(boot, es, s);
    if s.pc.Installing? {
      assert forall b :: b in s.lh[s.pc.tail..] ==> b in s.cache;
    }
  }

  // Reading.

  /** Buffer k, which is not pinned, goes to block x. */
  function Reused(v: Buffers, k: nat, x: Id): Buffers
    requires Sized(v) && k < |v.id|
  {
    v.(id := v.id[k := x], valid := v.valid[k := false])
  }

  /** What the machine calls it. */
  function ReuseEvents(v: Buffers, s: State, k: nat): seq<Event>
    requires Sized(v) && k < |v.id|
  {
    if v.valid[k] && IsHome(s.disk, v.id[k]) then [Evict(v.id[k].1)] else []
  }

  function Evicted(v: Buffers, s: State, k: nat): State
    requires Sized(v) && k < |v.id|
  {
    if v.valid[k] && IsHome(s.disk, v.id[k]) then s.(cache := s.cache - {v.id[k].1}) else s
  }

  lemma ReuseBuffer(v: Buffers, s: State, k: nat, x: Id, c: nat)
    requires Sized(v) && k < |v.id| && c < |v.id| && Unique(v.id[k := x]) && BufferAt(v, s, c)
    requires v.pins[k] == 0 && k !in v.dirty && (IsHome(s.disk, x) ==> s.pins[x.1] == 0)
    ensures BufferAt(Reused(v, k, x), Evicted(v, s, k), c)
  {
  }

  lemma ReuseCached(v: Buffers, s: State, k: nat, x: Id, b: nat)
    requires Sized(v) && k < |v.id| && CachedAt(v, s, b)
    ensures CachedAt(Reused(v, k, x), Evicted(v, s, k), b)
  {
    var (v', s') := (Reused(v, k, x), Evicted(v, s, k));
    if b in s'.cache {
      var c := Holder(v.id, v.valid, (DEV, b));
      assert c != k && v'.id[c] == (DEV, b) && v'.valid[c];
    }
  }

  lemma ReuseMirror(v: Buffers, s: State, start: nat, k: nat, x: Id)
    requires Mirror(v, s, start) && Sized(v) && k < |v.id| && v.pins[k] == 0 && k !in v.dirty && Unique(v.id[k := x])
    requires (forall c :: 0 <= c < |v.id| ==> v.id[c] != x) && (forall b :: s.pins[b] > 0 ==> b in s.cache)
    ensures Mirror(Reused(v, k, x), Evicted(v, s, k), start)
  {
    var (v', s') := (Reused(v, k, x), Evicted(v, s, k));
    Known(v, s, start);
    KnownCached(v, s, start, x.1);
    forall b: nat ensures CachedAt(v', s', b) {
      KnownCached(v, s, start, b);
      ReuseCached(v, s, k, x, b);
    }
    forall c | 0 <= c < |v'.id| ensures BufferAt(v', s', c) {
      KnownBuffer(v, s, start, c);
      ReuseBuffer(v, s, k, x, c);
    }
    Close(v', s', start);
  }

  /** Buffer k is filled from disk. */
  function Filled(v: Buffers, k: nat): Buffers
    requires Sized(v) && k < |v.id| && v.id[k] in v.disk
  {
    v.(data := v.data[k := v.disk[v.id[k]]], valid := v.valid[k := true])
  }

  function LoadedState(s: State, x: Id): State {
    if IsHome(s.disk, x) then s.(cache := s.cache[x.1 := s.disk.home[x.1]]) else s
  }

  lemma FillMirror(v: Buffers, s: State, start: nat, k: nat)
    requires Mirror(v, s, start) && Sized(v) && k < |v.id| && !v.valid[k] && v.id[k].0 != 0 && v.id[k] in v.disk
    requires IsHome(s.disk, v.id[k]) ==> v.id[k].1 !in s.cache
    ensures Mirror(Filled(v, k), LoadedState(s, v.id[k]), start)
  {
    var (v', s', x) := (Filled(v, k), LoadedState(s, v.id[k]), v.id[k]);
    Known(v, s, start);
    assert v'.id[k] == x && v'.valid[k];
    forall b: nat ensures CachedAt(v', s', b) {
      KnownCached(v, s, start, b);
      if b in s.cache {
        var c := Holder(v.id, v.valid, (DEV, b));
        assert v'.id[c] == (DEV, b) && v'.valid[c];
      }
    }
    forall c | 0 <= c < |v'.id| ensures BufferAt(v', s', c) {
      KnownBuffer(v, s, start, c);
    }
    Close(v', s', start);
  }

  lemma SpecSame(es: seq<Event>, e: Event)
    requires e.Evict? || e.Load? || e.LogBlock? || e.Install? || e.Reinstall?
    ensures SpecAfter(es + [e]) == SpecAfter(es)
  {
    assert (es + [e])[..|es|] == es;
  }

  lemma ReuseRuns(boot: State, es: seq<Event>, v: Buffers, s: State, start: nat, k: nat)
    requires Runs(boot, es, s) && !s.pc.Boot? && Mirror(v, s, start) && Sized(v) && k < |v.id| && v.pins[k] == 0
    ensures Runs(boot, es + ReuseEvents(v, s, k), Evicted(v, s, k))
    ensures SpecAfter(es + ReuseEvents(v, s, k)) == SpecAfter(es)
  {
    KnownBuffer(v, s, start, k);
    if v.valid[k] && IsHome(s.disk, v.id[k]) {
      RunsSnoc(boot, es, s, Evict(v.id[k].1));
      SpecSame(es, Evict(v.id[k].1));
    } else {
      assert es + [] == es;
    }
  }

  function LoadEvents(s: State, x: Id): seq<Event> {
    if IsHome(s.disk, x) then [Load(x.1)] else []
  }

  lemma LoadRuns(boot: State, es: seq<Event>, s: State, x: Id)
    requires Runs(boot, es, s) && !s.pc.Boot? && (IsHome(s.disk, x) ==> x.1 !in s.cache)
    ensures Runs(boot, es + LoadEvents(s, x), LoadedState(s, x))
    ensures SpecAfter(es + LoadEvents(s, x)) == SpecAfter(es)
  {
    if IsHome(s.disk, x) {
      RunsSnoc(boot, es, s, Load(x.1));
      SpecSame(es, Load(x.1));
    } else {
      assert es + [] == es;
    }
  }

  /** A block without a valid buffer is not in the machine's cache. */
  lemma NotCached(v: Buffers, s: State, start: nat, k: nat)
    requires Mirror(v, s, start) && Sized(v) && k < |v.id| && !v.valid[k] && v.id[k].0 != 0
    ensures IsHome(s.disk, v.id[k]) ==> v.id[k].1 !in s.cache
  {
    KnownCached(v, s, start, v.id[k].1);
  }

  lemma FillRuns(boot: State, es: seq<Event>, v: Buffers, s: State, start: nat, k: nat)
    returns (es': seq<Event>, s': State)
    requires Runs(boot, es, s) && !s.pc.Boot? && Mirror(v, s, start) && Sized(v) && k < |v.id| && !v.valid[k]
    requires v.id[k].0 != 0 && v.id[k] in v.disk
    ensures Runs(boot, es', s') && SpecAfter(es') == SpecAfter(es) && Mirror(Filled(v, k), s', start)
    ensures s' == s.(cache := s'.cache)
  {
    NotCached(v, s, start, k);
    FillMirror(v, s, start, k);
    LoadRuns(boot, es, s, v.id[k]);
    es', s' := es + LoadEvents(s, v.id[k]), LoadedState(s, v.id[k]);
  }

  predicate UnfoldTaken(u: int) { true }

  /** bread has taken buffer k for block x, whose buffer it was or which nobody referred to. */
  ghost predicate Taken(v: Buffers, v': Buffers, k: nat, x: Id) {
    forall u {:trigger UnfoldTaken(u)} :: UnfoldTaken(u) ==>
      && Sized(v) && Loaded(v.id, v.valid, v.data, v'.id, v'.valid, v'.data, v.disk, k, x)
      && (v.id[k] != x ==> v.pins[k] == 0 && k !in v.dirty)
      && v'.pins == v.pins && v'.disk == v.disk && v'.dirty == v.dirty
  }

  ghost function BuffersOf(c: Cache): Buffers
    reads c
  {
    Buffers(c.id, c.valid, c.data, c.pins, c.disk, c.dirty)
  }

  method Take(c: Cache, x: Id) returns (k: nat)
    requires c.Valid() && x.0 != 0 && x in c.disk
    requires (exists k :: 0 <= k < c.n && c.id[k] == x) || exists k :: 0 <= k < c.n && c.refcnt[k] == 0
    modifies c
    ensures c.Valid() && Taken(old(BuffersOf(c)), BuffersOf(c), k, x)
    ensures k < c.n && c.id[k] == x && c.valid[k] && c.holds == old(c.holds)[k := old(c.holds)[k] + 1]
    ensures c.pins == old(c.pins) && c.disk == old(c.disk) && c.dirty == old(c.dirty)
    ensures c.refcnt == old(c.refcnt)[k := old(c.refcnt)[k] + 1]
    ensures c.id == old(c.id)[k := x] && c.valid == old(c.valid)[k := true]
    ensures old(c.id)[k] != x ==> old(c.holds)[k] == 0
    ensures forall j :: 0 <= j < c.n && j != k ==> c.data[j] == old(c.data)[j]
  {
    assert UnfoldValid(0);
    k := c.Bread(x);
  }

  /** bread: whatever the ring did to find buffer k for block x is a run of the machine. */
  lemma BreadRuns(boot: State, es: seq<Event>, v: Buffers, v': Buffers, s: State, start: nat, k: nat, x: Id)
    returns (es': seq<Event>, s': State)
    requires Runs(boot, es, s) && !s.pc.Boot? && Mirror(v, s, start) && Taken(v, v', k, x)
    ensures Runs(boot, es', s') && SpecAfter(es') == SpecAfter(es) && Mirror(v', s', start)
    ensures s' == s.(cache := s'.cache)
  {
    assert UnfoldTaken(0);
    if v.id[k] != x {
      PinnedCached(boot, es, s);
      ReuseMirror(v, s, start, k, x);
      ReuseRuns(boot, es, v, s, start, k);
      var v1 := Reused(v, k, x);
      assert v' == Filled(v1, k);
      es', s' := FillRuns(boot, es + ReuseEvents(v, s, k), v1, Evicted(v, s, k), start, k);
    } else if v.valid[k] {
      assert v' == v;
      es', s' := es, s;
    } else {
      assert v' == Filled(v, k);
      es', s' := FillRuns(boot, es, v, s, start, k);
    }
  }

  // Writing.

  /** log_write of buffer k with new contents, pinning it if the block is new in the log. */
  function Logged(v: Buffers, k: nat, data: Block, isNew: bool): Buffers
    requires Sized(v) && k < |v.id|
  {
    v.(data := v.data[k := data], dirty := v.dirty + {k}, pins := if isNew then v.pins[k := v.pins[k] + 1] else v.pins)
  }

  lemma LoggedMirror(v: Buffers, s: State, start: nat, k: nat, op: nat, data: Block, isNew: bool)
    requires Mirror(v, s, start) && Sized(v) && k < |v.id| && v.valid[k] && IsHome(s.disk, v.id[k])
    requires Enabled(s, Write(op, v.id[k].1, data)) && isNew == (v.id[k].1 !in s.lh)
    requires !isNew ==> s.pins[v.id[k].1] > 0
    ensures Mirror(Logged(v, k, data, isNew), Apply(s, Write(op, v.id[k].1, data)), start)
  {
    var b := v.id[k].1;
    var (v', s') := (Logged(v, k, data, isNew), Apply(s, Write(op, b, data)));
    Known(v, s, start);
    KnownBuffer(v, s, start, k);
    forall a: nat ensures CachedAt(v', s', a) {
      KnownCached(v, s, start, a);
    }
    forall c | 0 <= c < |v'.id| ensures BufferAt(v', s', c) {
      KnownBuffer(v, s, start, c);
      assert c != k ==> v.id[c] != v.id[k];
    }
    Close(v', s', start);
  }

  /** Buffer k gets new contents and is written to disk. */
  function Stored(v: Buffers, k: nat, data: Block): Buffers
    requires Sized(v) && k < |v.id|
  {
    v.(data := v.data[k := data], disk := v.disk[v.id[k] := data], dirty := v.dirty - {k})
  }

  lemma SlotMirror(v: Buffers, s: State, start: nat, k: nat, i: nat, data: Block, pc: Pc)
    requires Mirror(v, s, start) && Sized(v) && k < |v.id| && i < |s.disk.slot| && v.id[k] == Slot(start, i)
    ensures Mirror(Stored(v, k, data), s.(disk := s.disk.(slot := s.disk.slot[i := data]), pc := pc), start)
  {
    var (v', s') := (Stored(v, k, data), s.(disk := s.disk.(slot := s.disk.slot[i := data]), pc := pc));
    Known(v, s, start);
    assert DiskMirrored(v'.disk, s'.disk, start);
    forall a: nat ensures CachedAt(v', s', a) {
      KnownCached(v, s, start, a);
    }
    forall c | 0 <= c < |v'.id| ensures BufferAt(v', s', c) {
      KnownBuffer(v, s, start, c);
    }
    Close(v', s', start);
  }

  /** The same for a home block, with or without giving up a pin. */
  function HomeStored(s: State, b: nat, data: Block, unpin: bool, pc: Pc): State {
    s.(disk := s.disk.(home := s.disk.home[b := data]), cache := s.cache[b := data],
       pins := if unpin then Unpin(s.pins, b) else s.pins, pc := pc)
  }

  function Unpinned(v: Buffers, k: nat): Buffers
    requires Sized(v) && k < |v.id| && v.pins[k] > 0
  {
    v.(pins := v.pins[k := v.pins[k] - 1])
  }

  lemma HomeMirror(v: Buffers, s: State, start: nat, k: nat, data: Block, unpin: bool, pc: Pc)
    requires Mirror(v, s, start) && Sized(v) && k < |v.id| && v.valid[k] && IsHome(s.disk, v.id[k])
    requires unpin ==> v.pins[k] > 0
    ensures var v' := if unpin then Unpinned(Stored(v, k, data), k) else Stored(v, k, data);
            Mirror(v', HomeStored(s, v.id[k].1, data, unpin, pc), start)
  {
    var v' := if unpin then Unpinned(Stored(v, k, data), k) else Stored(v, k, data);
    var s' := HomeStored(s, v.id[k].1, data, unpin, pc);
    Known(v, s, start);
    KnownBuffer(v, s, start, k);
    assert DiskMirrored(v'.disk, s'.disk, start);
    forall a: nat ensures CachedAt(v', s', a) {
      KnownCached(v, s, start, a);
    }
    forall c | 0 <= c < |v'.id| ensures BufferAt(v', s', c) {
      KnownBuffer(v, s, start, c);
      assert c != k ==> v.id[c] != v.id[k];
    }
    Close(v', s', start);
  }

  /** Events that concern neither buffers nor blocks. */
  lemma OtherMirror(v: Buffers, s: State, start: nat, s': State)
    requires Mirror(v, s, start) && s'.cache == s.cache && s'.pins == s.pins
    requires s'.disk.home == s.disk.home && s'.disk.slot == s.disk.slot
    ensures Mirror(v, s', start)
  {
    Known(v, s, start);
    forall a: nat ensures CachedAt(v, s', a) {
      KnownCached(v, s, start, a);
    }
    forall c | 0 <= c < |v.id| ensures BufferAt(v, s', c) {
      KnownBuffer(v, s, start, c);
    }
    Close(v, s', start);
  }

  class LoggedCache {
    const cache: Cache
    const start: nat   // the block of the log's header
    var lh: seq<nat>   // log.lh
    ghost var boot: State
    ghost var trace: seq<Event>
    ghost var s: State

    ghost function View(): Buffers
      reads this, cache
    {
      BuffersOf(cache)
    }

    ghost predicate Valid()
      reads this, cache
    {
      true == (cache.Valid() && lh == s.lh && Runs(boot, trace, s) && Mirror(View(), s, start))
    }

    /** A home block or a slot of the log. */
    ghost predicate OnDisk(x: Id)
      reads this
    {
      IsHome(s.disk, x) || exists i :: 0 <= i < |s.disk.slot| && x == Slot(start, i)
    }

    /** bget finds a buffer. */
    ghost predicate Room(x: Id)
      reads this, cache
      requires cache.Valid()
    {
      (exists c :: 0 <= c < cache.n && cache.id[c] == x) || exists c :: 0 <= c < cache.n && cache.refcnt[c] == 0
    }

    /** Power on, after the machine has run and crashed, with an empty cache. */
    constructor (nbuf: nat, start: nat, disk: map<Id, Block>, ghost boot: State, ghost es: seq<Event>, ghost s0: State)
      requires Runs(boot, es, s0) && DiskMirrored(disk, s0.disk, start)
      ensures Valid() && fresh(cache) && cache.n == nbuf && trace == es + [Crash] && s == Apply(s0, Crash)
      ensures this.boot == boot && this.start == start
    {
      cache := new Cache(nbuf, disk);
      lh := [];
      this.start, this.boot, trace, s := start, boot, es + [Crash], Apply(s0, Crash);
      new;
      RunsSnoc(boot, es, s0, Crash);
      assert UnfoldValid(0);
      assert forall k :: 0 <= k < nbuf ==> cache.refcnt[k] == cache.pins[k] == 0 && !cache.valid[k];
      Close(View(), s, start);
    }

    /** bread of a home block or a slot; buffers in use stay as they are. */
    method Fetch(x: Id) returns (k: nat)
      requires Valid() && !s.pc.Boot? && OnDisk(x) && Room(x)
      modifies this`trace, this`s, cache
      ensures Valid() && boot == old(boot)
      ensures SpecAfter(trace) == old(SpecAfter(trace)) && s == old(s).(cache := s.cache)
      ensures k < cache.n && cache.id == old(cache.id)[k := x] && cache.valid == old(cache.valid)[k := true]
      ensures cache.holds == old(cache.holds)[k := old(cache.holds)[k] + 1]
      ensures old(cache.id)[k] != x ==> old(cache.holds)[k] == 0
      ensures cache.refcnt == old(cache.refcnt)[k := old(cache.refcnt)[k] + 1]
      ensures forall j :: 0 <= j < cache.n && j != k ==> cache.data[j] == old(cache.data)[j]
      ensures cache.pins == old(cache.pins)
    {
      ghost var v := View();
      Known(v, s, start);
      k := Take(cache, x);
      trace, s := BreadRuns(boot, trace, v, View(), s, start, k, x);
    }

    /** brelse; the cache's demand is met, since changed buffers are pinned. */
    method Release(k: nat)
      requires Valid() && k < cache.n && cache.holds[k] > 0
      modifies cache
      ensures Valid() && View() == old(View()) && cache.holds == old(cache.holds)[k := old(cache.holds)[k] - 1]
    {
      assert UnfoldValid(0);
      KnownBuffer(View(), s, start, k);
      cache.Brelse(k);
    }

    /** bread and brelse of a home block give its last logged contents. */
    method Read(b: nat) returns (data: Block)
      requires Valid() && b in s.disk.home && Room((DEV, b))
      requires s.pc.Ready? || s.pc.WritingLog? || s.pc.Installing? || s.pc.Finishing?
      modifies this`trace, this`s, cache
      ensures Valid() && boot == old(boot)
      ensures SpecAfter(trace) == old(SpecAfter(trace)) && cache.holds == old(cache.holds)
      ensures GoodDisk(boot.disk)
      ensures var m := Replay(Recover(boot.disk), SpecAfter(trace).durable + SpecAfter(trace).pending);
                b in m && data == m[b]
    {
      var k := Fetch((DEV, b));
      data := cache.data[k];
      Known(View(), s, start);
      KnownBuffer(View(), s, start, k);
      ReadsLatest(boot, trace, s, b);
      Release(k);
    }

    /** log_write by the holder of buffer k, which has new contents. */
    method LogWrite(k: nat, b: nat, data: Block, ghost op: nat)
      requires Valid() && k < cache.n && cache.holds[k] > 0 && cache.valid[k] && cache.id[k] == (DEV, b)
      requires Enabled(s, Write(op, b, data))
      modifies this`lh, this`trace, this`s, cache
      ensures Valid() && boot == old(boot)
      ensures trace == old(trace) + [Write(op, b, data)] && s == Apply(old(s), Write(op, b, data))
      ensures cache.holds == old(cache.holds) && cache.id == old(cache.id) && cache.valid == old(cache.valid)
    {
      ghost var v := View();
      Known(v, s, start);
      var isNew := b !in lh;
      if !isNew { LoggedPinned(boot, trace, s, b); }
      LoggedMirror(v, s, start, k, op, data, isNew);
      RunsSnoc(boot, trace, s, Write(op, b, data));
      cache.Modify(k, data);
      if isNew {
        cache.Bpin(k);
        lh := lh + [b];
      }
      assert View() == Logged(v, k, data, isNew);
      trace, s := trace + [Write(op, b, data)], Apply(s, Write(op, b, data));
    }

    /** A block that the machine has cached has a buffer. */
    lemma CachedRoom(b: nat)
      requires Valid() && b in s.cache
      ensures b in s.disk.home && Room((DEV, b))
    {
      KnownCached(View(), s, start, b);
      var c := Holder(cache.id, cache.valid, (DEV, b));
      assert 0 <= c < cache.n && cache.id[c] == (DEV, b);
    }

    /** Two buffers that nobody refers to. */
    ghost predicate Spare(a: nat, c: nat)
      reads this, cache
      requires cache.Valid()
    {
      a < c < cache.n && cache.refcnt[a] == 0 && cache.refcnt[c] == 0
    }

    /** bread of slot t and of the home block it belongs to. */
    method FetchPair(t: nat) returns (l: nat, h: nat)
      requires Valid() && !s.pc.Boot? && t < |lh| && t < |s.disk.slot| && lh[t] in s.disk.home && Room(Slot(start, t))
      requires s.pins[lh[t]] > 0 || exists a: nat, c: nat :: Spare(a, c)
      modifies this`trace, this`s, cache
      ensures Valid() && boot == old(boot)
      ensures SpecAfter(trace) == old(SpecAfter(trace)) && s == old(s).(cache := s.cache)
      ensures Fetched(l, h, t)
      ensures cache.holds == old(cache.holds)[l := old(cache.holds)[l] + 1][h := old(cache.holds)[h] + 1]
      ensures cache.pins == old(cache.pins)
    {
      assert !IsHome(s.disk, Slot(start, t)) by { Known(View(), s, start); }
      ghost var a: nat, c: nat :| s.pins[lh[t]] > 0 || Spare(a, c);
      l := Fetch(Slot(start, t));
      if s.pins[lh[t]] > 0 {
        PinnedCached(boot, trace, s);
        CachedRoom(lh[t]);
      } else {
        assert cache.refcnt[if l == a then c else a] == 0;
      }
      h := Fetch((DEV, lh[t]));
    }

    /** The caller holds buffers l of slot t and h of its home block. */
    ghost predicate Fetched(l: nat, h: nat, t: nat)
      reads this, cache
      requires cache.Valid()
    {
      true == (
        && l < cache.n && cache.holds[l] > 0 && cache.valid[l] && cache.id[l] == Slot(start, t)
        && h < cache.n && cache.holds[h] > 0 && cache.valid[h] && t < |lh| && cache.id[h] == (DEV, lh[t]) && l != h)
    }

    method ReleasePair(l: nat, h: nat)
      requires Valid() && l < cache.n && h < cache.n && l != h && cache.holds[l] > 0 && cache.holds[h] > 0
      modifies cache
      ensures Valid() && cache.holds == old(cache.holds)[l := old(cache.holds)[l] - 1][h := old(cache.holds)[h] - 1]
      ensures cache.pins == old(cache.pins)
    {
      Release(l);
      Release(h);
    }

    /** One round of write_log: the pinned buffer's contents go into slot t. */
    method LogBlock(t: nat)
      requires Valid() && s.pc == WritingLog(t) && t < |lh| && Room(Slot(start, t))
      modifies this`trace, this`s, cache
      ensures Valid() && boot == old(boot) && SpecAfter(trace) == old(SpecAfter(trace)) && s.pc == WritingLog(t + 1)
      ensures cache.holds == old(cache.holds)
      ensures cache.pins == old(cache.pins) && lh == old(lh)
    {
      WritingEnabled(boot, trace, s);
      var to, from := FetchPair(t);
      WritingEnabled(boot, trace, s);
      SpecSame(trace, LogMachine.LogBlock);
      Copied(to, from, t);
      ReleasePair(to, from);
    }

    /** memmove and bwrite into the buffer of slot t. */
    method Copied(to: nat, from: nat, t: nat)
      requires Valid() && s.pc == WritingLog(t) && Fetched(to, from, t) && Enabled(s, LogMachine.LogBlock)
      modifies this`trace, this`s, cache
      ensures Valid() && boot == old(boot) && trace == old(trace) + [LogMachine.LogBlock] && s.pc == WritingLog(t + 1)
      ensures cache.holds == old(cache.holds)
      ensures cache.pins == old(cache.pins)
    {
      ghost var v := View();
      Known(v, s, start);
      KnownBuffer(v, s, start, from);
      var data := cache.data[from];
      SlotMirror(v, s, start, to, t, data, WritingLog(t + 1));
      RunsSnoc(boot, trace, s, LogMachine.LogBlock);
      Store(cache, to, data);
      trace, s := trace + [LogMachine.LogBlock], Apply(s, LogMachine.LogBlock);
    }

    /** memmove and bwrite into the home buffer, giving up its pin unless recovering. */
    method PutHome(l: nat, h: nat, t: nat, recovering: bool)
      requires Valid() && s.pc == (if recovering then Recovering(t) else Installing(t)) && |lh| <= |s.disk.slot|
      requires Fetched(l, h, t) && lh[t] in s.disk.home && (!recovering ==> s.pins[lh[t]] > 0)
      modifies this`trace, this`s, cache
      ensures Valid() && boot == old(boot) && trace == old(trace) + [if recovering then Reinstall else Install]
      ensures s.pc == (if recovering then Recovering(t + 1) else Installing(t + 1)) && cache.holds == old(cache.holds)
      ensures NoMorePins(old(cache.pins), cache.pins)
    {
      ghost var v := View();
      var data := cache.data[l];
      Known(v, s, start);
      KnownBuffer(v, s, start, h);
      SlotData(l, t);
      ghost var (e, pc) := if recovering then (Reinstall, Recovering(t + 1)) else (Install, Installing(t + 1));
      HomeMirror(v, s, start, h, data, !recovering, pc);
      HomeRuns(boot, trace, s, t, e, pc);
      StoreHome(cache, h, data, !recovering);
      trace, s := trace + [e], HomeStored(s, lh[t], data, !recovering, pc);
    }

    /** The buffer of slot t holds what is in the slot. */
    lemma SlotData(l: nat, t: nat)
      requires Valid() && t < |s.disk.slot| && l < cache.n && cache.valid[l] && cache.id[l] == Slot(start, t)
      ensures cache.data[l] == s.disk.slot[t]
    {
      assert UnfoldValid(0);
      Known(View(), s, start);
      KnownBuffer(View(), s, start, l);
    }

    /** One round of install_trans: slot t goes home. */
    method InstallBlock(t: nat, recovering: bool)
      requires Valid() && s.pc == (if recovering then Recovering(t) else Installing(t)) && t < |lh|
      requires Room(Slot(start, t)) && (recovering ==> exists a: nat, c: nat :: Spare(a, c))
      modifies this`trace, this`s, cache
      ensures Valid() && boot == old(boot)
      ensures SpecAfter(trace) == old(SpecAfter(trace)) && cache.holds == old(cache.holds)
      ensures s.pc == if recovering then Recovering(t + 1) else Installing(t + 1)
      ensures NoMorePins(old(cache.pins), cache.pins)
    {
      InstallEnabled(boot, trace, s, t);
      var l, h := FetchPair(t);
      SpecSame(trace, if recovering then Reinstall else Install);
      PutHome(l, h, t, recovering);
      ReleasePair(l, h);
    }

    /** Buffers that nobody refers to stay so if nobody takes or pins more. */
    lemma SpareStays(a: nat, c: nat, holds: seq<nat>, pins: seq<nat>)
      requires cache.Valid() && a < c < cache.n == |holds| == |pins| && holds[a] == holds[c] == pins[a] == pins[c] == 0
      requires cache.holds == holds && NoMorePins(pins, cache.pins)
      ensures Spare(a, c)
    {
      assert UnfoldValid(0);
    }

    /** write_log. */
    method WriteLog(ghost a: nat, ghost c: nat)
      requires Valid() && s.pc == WritingLog(0) && Spare(a, c)
      modifies this`trace, this`s, cache
      ensures Valid() && boot == old(boot) && SpecAfter(trace) == old(SpecAfter(trace)) && s.pc == WritingLog(|lh|)
      ensures Spare(a, c)
    {
      assert UnfoldValid(0);
      for t := 0 to |lh|
        invariant Valid() && boot == old(boot) && SpecAfter(trace) == old(SpecAfter(trace)) && s.pc == WritingLog(t)
        invariant cache.holds == old(cache.holds) && cache.pins == old(cache.pins)
      {
        SpareStays(a, c, old(cache.holds), old(cache.pins));
        LogBlock(t);
      }
      SpareStays(a, c, old(cache.holds), old(cache.pins));
    }

    /** install_trans. */
    method InstallTrans(recovering: bool, ghost a: nat, ghost c: nat)
      requires Valid() && s.pc == (if recovering then Recovering(0) else Installing(0)) && Spare(a, c)
      modifies this`trace, this`s, cache
      ensures Valid() && boot == old(boot) && SpecAfter(trace) == old(SpecAfter(trace)) && Spare(a, c)
      ensures s.pc == if recovering then Recovering(|lh|) else Installing(|lh|)
    {
      assert UnfoldValid(0);
      for t := 0 to |lh|
        invariant Valid() && boot == old(boot) && SpecAfter(trace) == old(SpecAfter(trace))
        invariant s.pc == (if recovering then Recovering(t) else Installing(t))
        invariant cache.holds == old(cache.holds) && NoMorePins(old(cache.pins), cache.pins)
      {
        SpareStays(a, c, old(cache.holds), old(cache.pins));
        InstallBlock(t, recovering);
      }
      SpareStays(a, c, old(cache.holds), old(cache.pins));
    }

    /** Two buffers more than the log has entries are enough while nobody holds any. */
    lemma EnoughBuffers() returns (a: nat, c: nat)
      requires Valid() && |lh| + 2 <= cache.n && forall k :: 0 <= k < cache.n ==> cache.holds[k] == 0
      ensures Spare(a, c)
    {
      assert UnfoldValid(0);
      Known(View(), s, start);
      var pinned := set k | k in Range(0, cache.n) && cache.pins[k] > 0;
      PinnedLogged(boot, trace, s);
      forall k | k in pinned ensures cache.id[k].0 == DEV && cache.id[k].1 in Members(lh) {
        KnownBuffer(View(), s, start, k);
      }
      Inject(pinned, cache.id, Members(lh));
      MembersSize(lh);
      a, c := TwoLeft(pinned, cache.n);
    }

    /** The events that touch neither buffers nor blocks; lh' is what they leave in log.lh. */
    method Other(ghost e: Event, lh': seq<nat>)
      requires Valid() && Enabled(s, e) && lh' == Apply(s, e).lh
      requires e.Begin? || e.End? || e.WriteHead? || e.ClearHead? || e.Finish? || e.ReadHead? || e.RecoverClear?
      modifies this`lh, this`trace, this`s
      ensures Valid() && trace == old(trace) + [e] && s == Apply(old(s), e)
    {
      RunsSnoc(boot, trace, s, e);
      OtherMirror(View(), s, start, Apply(s, e));
      lh, trace, s := lh', trace + [e], Apply(s, e);
    }

    /** commit over the ring: all pending writes become durable, and the log is empty again. */
    method Commit(ghost a: nat, ghost c: nat)
      requires Valid() && s.pc == WritingLog(0) && Spare(a, c)
      modifies this`lh, this`trace, this`s, cache
      ensures Valid() && boot == old(boot) && s.pc == Finishing && lh == [] && Spare(a, c)
      ensures SpecAfter(trace) == SpecApply(old(SpecAfter(trace)), WriteHead)
    {
      WriteLog(a, c);
      HeadEnabled(boot, trace, s);
      SpecSnoc(trace, WriteHead);
      Other(WriteHead, lh);
      InstallTrans(false, a, c);
      SpecSnoc(trace, ClearHead);
      Other(ClearHead, []);
    }

    /** end_op over a ring of NBUF buffers none of which is held: while the log is not full, these are enough for the
        commit.  `last` says whether no other operation is outstanding. */
    method EndOp(ghost op: nat, last: bool)
      requires Valid() && Enabled(s, End(op)) && last == (s.active == {op}) && !LogFull(s) && |s.disk.slot| < LOGSIZE
      requires cache.n == NBUF && forall k :: 0 <= k < cache.n ==> cache.holds[k] == 0
      modifies this`lh, this`trace, this`s, cache
      ensures Valid() && boot == old(boot) && s.pc == Ready
      ensures !last ==> lh == old(lh) && SpecAfter(trace) == SpecApply(old(SpecAfter(trace)), End(op))
      ensures last ==> lh == [] && SpecAfter(trace) == SpecApply(SpecApply(old(SpecAfter(trace)), End(op)), WriteHead)
    {
      ghost var a, c := EnoughBuffers();
      SpecSnoc(trace, End(op));
      if lh == [] { NothingPending(boot, trace, s); }
      Other(End(op), lh);
      if last {
        if lh != [] {
          Commit(a, c);
        }
        SpecSnoc(trace, Finish);
        Other(Finish, []);
      }
    }

    /** recover_from_log over an empty ring; n and block are the header on disk. */
    method RecoverFromLog(n: nat, block: seq<nat>, ghost a: nat, ghost c: nat)
      requires Valid() && s.pc == Boot && s.disk.head == Header(n, block) && n <= |block| && Spare(a, c)
      modifies this`lh, this`trace, this`s, cache
      ensures Valid() && boot == old(boot) && s.pc == Ready && lh == [] && Spare(a, c)
      ensures SpecAfter(trace) == old(SpecAfter(trace))
    {
      SpecSnoc(trace, ReadHead);
      Other(ReadHead, block[..n]);
      InstallTrans(true, a, c);
      SpecSnoc(trace, RecoverClear);
      Other(RecoverClear, []);
    }
  }

  ghost predicate NoMorePins(pins: seq<nat>, pins': seq<nat>) {
    |pins'| == |pins| && forall k :: 0 <= k < |pins| ==> pins'[k] <= pins[k]
  }

  /** In every run, what is pinned is in the log's header. */
  lemma PinnedLogged(boot: State, es: seq<Event>, s: State)
    requires Runs(boot, es, s)
    ensures forall b :: s.pins[b] > 0 ==> b in s.lh
  {
    RunRefines(boot, es, s);
    if s.pc.Installing? {
      assert forall b :: b in s.lh[s.pc.tail..] ==> b in s.lh;
    }
  }

  /** Buffers of distinct blocks are no more than the blocks. */
  lemma {:induction false} Inject(ks: set<nat>, id: seq<Id>, bs: set<nat>)
    requires Unique(id) && forall k :: k in ks ==> k < |id| && id[k].0 == DEV && id[k].1 in bs
    ensures |ks| <= |bs|
    decreases |ks|
  {
    if ks != {} {
      var k :| k in ks;
      forall j | j in ks - {k} ensures id[j].1 in bs - {id[k].1} {
        assert id[j] != id[k];
      }
      Inject(ks - {k}, id, bs - {id[k].1});
    }
  }

  lemma TwoLeft(ks: set<nat>, n: nat) returns (a: nat, c: nat)
    requires |ks| + 2 <= n
    ensures a < c < n && a !in ks && c !in ks
  {
    LogShared.SpanSize(0, n);
    var left := LogShared.Span(0, n) - ks;
    assert |left| >= n - |ks| by {
      SubsetSize(LogShared.Span(0, n), left + ks);
    }
    var x :| x in left;
    assert |left - {x}| >= 1;
    var y :| y in left - {x};
    a, c := if x < y then x else y, if x < y then y else x;
  }

  /** memmove into a buffer and bwrite. */
  method Store(c: Cache, k: nat, data: Block)
    requires c.Valid() && k < c.n && c.holds[k] > 0 && c.valid[k] && Sized(BuffersOf(c))
    modifies c
    ensures c.Valid() && BuffersOf(c) == Stored(old(BuffersOf(c)), k, data)
    ensures c.holds == old(c.holds) && c.refcnt == old(c.refcnt)
  {
    c.Modify(k, data);
    c.Bwrite(k);
  }

  method StoreHome(c: Cache, k: nat, data: Block, unpin: bool)
    requires c.Valid() && k < c.n && c.holds[k] > 0 && c.valid[k] && Sized(BuffersOf(c)) && (unpin ==> c.pins[k] > 0)
    modifies c
    ensures c.Valid() && c.holds == old(c.holds)
    ensures BuffersOf(c) == if unpin then Unpinned(Stored(old(BuffersOf(c)), k, data), k)
            else Stored(old(BuffersOf(c)), k, data)
  {
    Store(c, k, data);
    if unpin {
      c.Bunpin(k);
    }
  }

  lemma SpecSnoc(es: seq<Event>, e: Event)
    ensures SpecAfter(es + [e]) == SpecApply(SpecAfter(es), e)
  {
    assert (es + [e])[..|es|] == es;
  }

  lemma NothingPending(boot: State, es: seq<Event>, s: State)
    requires Runs(boot, es, s) && s.lh == []
    ensures SpecAfter(es).pending == []
  {
    RunRefines(boot, es, s);
  }

  lemma HeadEnabled(boot: State, es: seq<Event>, s: State)
    requires Runs(boot, es, s) && s.pc == WritingLog(|s.lh|)
    ensures Enabled(s, WriteHead)
  {
    RunRefines(boot, es, s);
  }

  lemma LoggedPinned(boot: State, es: seq<Event>, s: State, b: nat)
    requires Runs(boot, es, s) && s.active != {} && b in s.lh
    ensures s.pins[b] > 0
  {
    RunRefines(boot, es, s);
  }

  lemma WritingEnabled(boot: State, es: seq<Event>, s: State)
    requires Runs(boot, es, s) && s.pc.WritingLog? && s.pc.tail < |s.lh|
    ensures Enabled(s, LogBlock) && s.pins[s.lh[s.pc.tail]] > 0
    ensures s.lh[s.pc.tail] in s.cache && s.lh[s.pc.tail] in s.disk.home
  {
    RunRefines(boot, es, s);
  }

  /** One bwrite of install_trans. */
  predicate IsInstall(s: State, t: nat, e: Event, pc: Pc) {
    && t < |s.lh| <= |s.disk.slot|
    && if s.pc.Recovering? then s.pc == Recovering(t) && e == Reinstall && pc == Recovering(t + 1)
       else s.pc == Installing(t) && e == Install && pc == Installing(t + 1)
  }

  lemma HomeApplied(s: State, t: nat, e: Event, pc: Pc)
    requires IsInstall(s, t, e, pc)
    ensures Enabled(s, e) && Apply(s, e) == HomeStored(s, s.lh[t], s.disk.slot[t], e.Install?, pc)
  {
  }

  lemma HomeRuns(boot: State, es: seq<Event>, s: State, t: nat, e: Event, pc: Pc)
    requires Runs(boot, es, s) && IsInstall(s, t, e, pc)
    ensures Runs(boot, es + [e], HomeStored(s, s.lh[t], s.disk.slot[t], e.Install?, pc))
  {
    HomeApplied(s, t, e, pc);
    RunsSnoc(boot, es, s, e);
  }

  lemma InstallEnabled(boot: State, es: seq<Event>, s: State, t: nat)
    requires Runs(boot, es, s) && (s.pc == Recovering(t) || s.pc == Installing(t)) && t < |s.lh|
    ensures |s.lh| <= |s.disk.slot| && s.lh[t] in s.disk.home && (s.pc.Installing? ==> s.pins[s.lh[t]] > 0)
  {
    RunRefines(boot, es, s);
    if s.pc.Installing? { InstallingPinned(s, t); }
  }
}
