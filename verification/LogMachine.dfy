/**
 The redo log of kernel/log.c as a machine whose steps are the single-block
 disk writes and the critical sections between them.  A crash may happen between
 any two steps, including inside commit and inside recovery.
 */
module LogMachine {
  import opened Blocks

  /** The on-disk header block: the first `n` entries of `block` are meaningful, the rest is stale. */
  datatype Header = Header(n: nat, block: seq<nat>)

  /** `slot[i]` is disk block log.start+1+i; `home` holds the blocks outside the log. */
  datatype Disk = Disk(head: Header, slot: seq<Block>, home: map<nat, Block>)

  /** Where the thread that is recovering or committing stands. */
  datatype Pc =
    | Boot                    // powered on, header not read yet
    | Recovering(tail: nat)   // install_trans(1)
    | Ready                   // no commit in progress
    | WritingLog(tail: nat)   // write_log
    | Installing(tail: nat)   // install_trans(0)
    | Finishing               // commit() returned, log.committing still set

  /** Disk plus everything in memory.  `active` are the operations between begin_op and end_op,
      `cache` the valid cached home blocks, `pins` the extra references taken by log_write. */
  datatype State = State(disk: Disk, pc: Pc, lh: seq<nat>, active: set<nat>,
                         cache: map<nat, Block>, pins: multiset<nat>, next: nat)

  datatype Event =
    | Begin(op: nat)
    | Write(op: nat, b: nat, v: Block)   // change a locked buffer, then log_write it
    | End(op: nat)
    | LogBlock                           // one bwrite of write_log
    | WriteHead                          // the bwrite of the first write_head in commit
    | Install                            // one bwrite of install_trans(0)
    | ClearHead                          // the bwrite of the second write_head in commit
    | Finish                             // committing = 0
    | ReadHead
    | Reinstall                          // one bwrite of install_trans(1)
    | RecoverClear                       // the bwrite of write_head in recover_from_log
    | Load(b: nat)                       // bread of an uncached block
    | Evict(b: nat)                      // bget recycles an unreferenced buffer
    | Crash

  function IndexOf(s: seq<nat>, b: nat): (i: nat)
    requires b in s
    ensures i < |s| && s[i] == b
  {
    if s[0] == b then 0 else 1 + IndexOf(s[1..], b)
  }

  lemma {:induction false} IndexOfDistinct(s: seq<nat>, i: nat)
    requires Distinct(s) && i < |s|
    ensures IndexOf(s, s[i]) == i
  {
    var k := IndexOf(s, s[i]);
    assert !(k < i) && !(i < k);
  }

  predicate GoodDisk(d: Disk) {
    && |d.head.block| == LOGSIZE
    && d.head.n <= LOGSIZE && d.head.n <= |d.slot|
    && GoodList(d.head.block[..d.head.n], d)
  }

  predicate GoodList(lh: seq<nat>, d: Disk) {
    && |lh| <= LOGSIZE && |lh| <= |d.slot|
    && Distinct(lh)
    && (forall i :: 0 <= i < |lh| ==> lh[i] in d.home)
  }

  /** write_head: only the first |lh| entries of the block list change. */
  function SetHead(h: Header, lh: seq<nat>): (r: Header)
    requires |h.block| == LOGSIZE && |lh| <= LOGSIZE
    ensures r.n == |lh| && |r.block| == LOGSIZE && r.block[..r.n] == lh
  {
    Header(|lh|, lh + h.block[|lh|..])
  }

  /** What a reboot makes of a disk image: the home blocks overlaid with the logged blocks. */
  function Recover(d: Disk): (m: map<nat, Block>)
    requires GoodDisk(d)
    ensures m.Keys == d.home.Keys
  {
    var lh := d.head.block[..d.head.n];
    map b | b in d.home :: if b in lh then d.slot[IndexOf(lh, b)] else d.home[b]
  }

  /** The contents bread returns: the cached copy if there is one, else the disk's. */
  function Current(c: State, b: nat): Block
    requires b in c.disk.home
  {
    if b in c.cache then c.cache[b] else c.disk.home[b]
  }

  /** The panic test at the top of log_write; log.size is the header plus the slots. */
  predicate LogFull(c: State) {
    |c.lh| >= LOGSIZE || |c.lh| >= |c.disk.slot|
  }

  /** bpin: one reference more. */
  function Pin(pins: multiset<nat>, b: nat): multiset<nat> {
    pins[b := pins[b] + 1]
  }

  /** bunpin: one reference less. */
  function Unpin(pins: multiset<nat>, b: nat): multiset<nat> {
    pins[b := if pins[b] > 0 then pins[b] - 1 else 0]
  }

  predicate Enabled(c: State, e: Event) {
    true == match e
    case Begin(op) =>
      c.pc.Ready? && op == c.next && |c.lh| + (|c.active| + 1) * MAXOPBLOCKS <= LOGSIZE
    case Write(op, b, v) => op in c.active && b in c.disk.home && !LogFull(c)
    case End(op) => c.pc.Ready? && op in c.active
    case LogBlock => c.pc.WritingLog? && c.pc.tail < |c.lh| <= |c.disk.slot| && c.lh[c.pc.tail] in c.disk.home
    case WriteHead => c.pc.WritingLog? && c.pc.tail == |c.lh| <= LOGSIZE && GoodDisk(c.disk)
    case Install => c.pc.Installing? && c.pc.tail < |c.lh| <= |c.disk.slot|
    case ClearHead => c.pc.Installing? && c.pc.tail == |c.lh|
    case Finish => c.pc.Finishing?
    case ReadHead => c.pc.Boot? && c.disk.head.n <= |c.disk.head.block|
    case Reinstall => c.pc.Recovering? && c.pc.tail < |c.lh| <= |c.disk.slot|
    case RecoverClear => c.pc.Recovering? && c.pc.tail == |c.lh|
    case Load(b) => !c.pc.Boot? && b in c.disk.home && b !in c.cache
    case Evict(b) => !c.pc.Boot? && b in c.cache && c.pins[b] == 0
    case Crash => true
  }

  function Apply(c: State, e: Event): State
    requires Enabled(c, e)
  {
    match e
    case Begin(op) => c.(active := c.active + {op}, next := c.next + 1)
    case Write(op, b, v) =>
      var c1 := c.(cache := c.cache[b := v]);
      if b in c.lh then c1 else c1.(lh := c.lh + [b], pins := Pin(c.pins, b))
    case End(op) =>
      c.(active := c.active - {op},
         pc := if c.active != {op} then Ready else if c.lh != [] then WritingLog(0) else Finishing)
    case LogBlock =>
      var t := c.pc.tail;
      c.(disk := c.disk.(slot := c.disk.slot[t := Current(c, c.lh[t])]), pc := WritingLog(t + 1))
    case WriteHead => c.(disk := c.disk.(head := SetHead(c.disk.head, c.lh)), pc := Installing(0))
    case Install =>
      var t := c.pc.tail;
      var (b, v) := (c.lh[t], c.disk.slot[t]);
      c.(disk := c.disk.(home := c.disk.home[b := v]), cache := c.cache[b := v],
         pins := Unpin(c.pins, b), pc := Installing(t + 1))
    case ClearHead => c.(disk := c.disk.(head := c.disk.head.(n := 0)), lh := [], pc := Finishing)
    case Finish => c.(pc := Ready)
    case ReadHead => c.(lh := c.disk.head.block[..c.disk.head.n], pc := Recovering(0))
    case Reinstall =>
      var t := c.pc.tail;
      var (b, v) := (c.lh[t], c.disk.slot[t]);
      c.(disk := c.disk.(home := c.disk.home[b := v]), cache := c.cache[b := v], pc := Recovering(t + 1))
    case RecoverClear => c.(disk := c.disk.(head := c.disk.head.(n := 0)), lh := [], pc := Ready)
    case Load(b) => c.(cache := c.cache[b := c.disk.home[b]])
    case Evict(b) => c.(cache := c.cache - {b})
    case Crash => State(c.disk, Boot, [], {}, map[], multiset{}, c.next)
  }

  // The specification: a block map changed by numbered operations.

  datatype Rec = Rec(op: nat, b: nat, v: Block)

  /** `durable` survives a crash, `pending` does not. */
  datatype Spec = Spec(durable: seq<Rec>, pending: seq<Rec>, active: set<nat>, next: nat)

  predicate SpecEnabled(a: Spec, e: Event) {
    match e
    case Begin(op) => op == a.next
    case Write(op, _, _) => op in a.active
    case End(op) => op in a.active
    case WriteHead => a.active == {}
    case _ => true
  }

  function SpecApply(a: Spec, e: Event): Spec {
    match e
    case Begin(op) => a.(active := a.active + {op}, next := a.next + 1)
    case Write(op, b, v) => a.(pending := a.pending + [Rec(op, b, v)])
    case End(op) => a.(active := a.active - {op})
    case WriteHead => a.(durable := a.durable + a.pending, pending := [])
    case Crash => a.(pending := [], active := {})
    case _ => a
  }

  function Replay(base: map<nat, Block>, rs: seq<Rec>): map<nat, Block> {
    if rs == [] then base
    else var r := rs[|rs| - 1]; Replay(base, rs[..|rs| - 1])[r.b := r.v]
  }

  lemma ReplayWrite(base: map<nat, Block>, rs: seq<Rec>, qs: seq<Rec>, r: Rec)
    ensures Replay(base, rs + (qs + [r])) == Replay(base, rs + qs)[r.b := r.v]
  {
    assert (rs + (qs + [r]))[..|rs + (qs + [r])| - 1] == rs + qs;
  }

  // The invariant that ties the two together.

  predicate CacheCoherent(c: State) {
    && c.cache.Keys <= c.disk.home.Keys
    && (forall b :: b in c.cache && b !in c.lh ==> c.cache[b] == c.disk.home[b])
  }

  /** No commit has reached its header write: the on-disk log is empty. */
  ghost predicate InMemory(c: State, durable: map<nat, Block>, current: map<nat, Block>) {
    && c.disk.head.n == 0
    && c.disk.home == durable
    && GoodList(c.lh, c.disk)
    && c.pins == multiset(c.lh)
    && (forall b :: b in c.lh ==> b in c.cache)
    && CacheCoherent(c)
    && current.Keys == durable.Keys
    && (forall b :: b in c.disk.home ==> Current(c, b) == current[b])
  }

  /** Between the header write and the clearing of the header: `t` blocks are home. */
  predicate Installed(c: State, t: nat) {
    && t <= |c.lh| && c.disk.head.n <= LOGSIZE && |c.disk.head.block| == LOGSIZE
    && c.lh == c.disk.head.block[..c.disk.head.n]
    && GoodList(c.lh, c.disk)
    && (forall i :: 0 <= i < t ==> c.disk.home[c.lh[i]] == c.disk.slot[i])
    && CacheCoherent(c)
    && (forall i :: 0 <= i < t && c.lh[i] in c.cache ==> c.cache[c.lh[i]] == c.disk.slot[i])
  }

  predicate RecoveringAt(c: State, t: nat) {
    && Installed(c, t)
    && (forall i :: t <= i < |c.lh| && c.lh[i] in c.cache ==> c.cache[c.lh[i]] == c.disk.home[c.lh[i]])
  }

  predicate InstallingAt(c: State, t: nat) {
    && Installed(c, t)
    && c.pins == multiset(c.lh[t..])
    && (forall i :: t <= i < |c.lh| ==> c.lh[i] in c.cache && c.cache[c.lh[i]] == c.disk.slot[i])
  }

  ghost predicate WritingLogAt(c: State, t: nat, durable: map<nat, Block>, current: map<nat, Block>) {
    && InMemory(c, durable, current)
    && t <= |c.lh|
    && (forall i :: 0 <= i < t ==> c.disk.slot[i] == Current(c, c.lh[i]))
  }

  ghost predicate PcInv(c: State, durable: map<nat, Block>, current: map<nat, Block>) {
    true == match c.pc
    case Boot => c.active == {} && c.lh == [] && c.cache == map[] && c.pins == multiset{}
    case Recovering(t) => c.active == {} && RecoveringAt(c, t) && c.pins == multiset{}
    case Ready => InMemory(c, durable, current) && (c.active == {} ==> c.lh == [])
    case WritingLog(t) => c.active == {} && WritingLogAt(c, t, durable, current)
    case Installing(t) => c.active == {} && InstallingAt(c, t)
    case Finishing => c.active == {} && InMemory(c, durable, current) && c.lh == []
  }

  /** Disk, memory and the two abstract block maps agree.  The first two conjuncts are crash
      safety: whenever the power fails, the disk image recovers to exactly `durable`. */
  ghost predicate Inv(c: State, durable: map<nat, Block>, current: map<nat, Block>) {
    true == (GoodDisk(c.disk) && Recover(c.disk) == durable && PcInv(c, durable, current))
  }

  // One lemma per kind of step.

  lemma EmptyLogImage(d: Disk)
    requires GoodDisk(d) && d.head.n == 0
    ensures Recover(d) == d.home
  {
  }

  lemma StepWrite(c: State, durable: map<nat, Block>, current: map<nat, Block>, b: nat, v: Block)
    requires Inv(c, durable, current) && c.pc.Ready? && c.active != {} && b in c.disk.home && !LogFull(c)
    ensures var c1 := c.(cache := c.cache[b := v]);
            var c' := if b in c.lh then c1 else c1.(lh := c.lh + [b], pins := Pin(c.pins, b));
            Inv(c', durable, current[b := v])
  {
    var c1 := c.(cache := c.cache[b := v]);
    var c' := if b in c.lh then c1 else c1.(lh := c.lh + [b], pins := Pin(c.pins, b));
    WriteInMemory(c, c', durable, current, b, v);
  }

  lemma AppendLogged(lh: seq<nat>, b: nat, d: Disk)
    requires GoodList(lh, d) && b !in lh && b in d.home && |lh| < LOGSIZE && |lh| < |d.slot|
    ensures GoodList(lh + [b], d) && multiset(lh + [b]) == Pin(multiset(lh), b)
  {
    assert forall i :: 0 <= i < |lh| ==> lh[i] != b;
  }

  lemma WriteInMemory(c: State, c': State, durable: map<nat, Block>, current: map<nat, Block>, b: nat, v: Block)
    requires InMemory(c, durable, current) && b in c.disk.home && !LogFull(c)
    requires c'.disk == c.disk && c'.cache == c.cache[b := v]
    requires if b in c.lh then c'.lh == c.lh && c'.pins == c.pins else c'.lh == c.lh + [b] && c'.pins == Pin(c.pins, b)
    ensures InMemory(c', durable, current[b := v])
  {
    if b !in c.lh {
      AppendLogged(c.lh, b, c.disk);
    }
    assert forall x :: x in c'.lh <==> x in c.lh || x == b;
    assert CacheCoherent(c');
  }

  lemma StepLogBlock(c: State, durable: map<nat, Block>, current: map<nat, Block>)
    requires Inv(c, durable, current) && Enabled(c, LogBlock)
    ensures Inv(Apply(c, LogBlock), durable, current)
  {
    var t := c.pc.tail;
    var d' := c.disk.(slot := c.disk.slot[t := Current(c, c.lh[t])]);
    EmptyLogImage(c.disk);
    EmptyLogImage(d');
  }

  /** The commit point: the recovered image jumps from `durable` to `current`. */
  lemma StepWriteHead(c: State, durable: map<nat, Block>, current: map<nat, Block>)
    requires Inv(c, durable, current) && Enabled(c, WriteHead)
    ensures Inv(Apply(c, WriteHead), current, current)
  {
    var c' := Apply(c, WriteHead);
    CommitImage(c, c'.disk, current);
    CommitInstalling(c, c', durable, current);
  }

  lemma CommitInstalling(c: State, c': State, durable: map<nat, Block>, current: map<nat, Block>)
    requires GoodDisk(c.disk) && WritingLogAt(c, |c.lh|, durable, current)
    requires c' == c.(disk := c.disk.(head := SetHead(c.disk.head, c.lh)), pc := Installing(0))
    ensures InstallingAt(c', 0)
  {
    assert c'.lh[0..] == c.lh;
    assert forall i :: 0 <= i < |c.lh| ==> c.lh[i] in c.cache;
  }

  lemma CommitImage(c: State, d: Disk, current: map<nat, Block>)
    requires GoodDisk(c.disk) && GoodList(c.lh, c.disk) && c.disk.home.Keys == current.Keys
    requires forall i :: 0 <= i < |c.lh| ==> c.disk.slot[i] == Current(c, c.lh[i])
    requires CacheCoherent(c) && forall b :: b in c.disk.home ==> Current(c, b) == current[b]
    requires d == c.disk.(head := SetHead(c.disk.head, c.lh))
    ensures GoodDisk(d) && Recover(d) == current
  {
    assert d.head.block[..d.head.n] == c.lh;
    forall b | b in c.disk.home
      ensures Recover(d)[b] == current[b]
    {
      assert Current(c, b) == current[b];
    }
  }

  /** Installing the next block, in commit or in recovery, leaves the recovered image unchanged. */
  lemma InstallKeepsImage(d: Disk, t: nat)
    requires GoodDisk(d) && t < d.head.n
    ensures var d' := d.(home := d.home[d.head.block[t] := d.slot[t]]);
            GoodDisk(d') && Recover(d') == Recover(d)
  {
    var lh := d.head.block[..d.head.n];
    var d' := d.(home := d.home[lh[t] := d.slot[t]]);
    IndexOfDistinct(lh, t);
    assert d'.home.Keys == d.home.Keys;
    assert forall b :: b in d.home ==> Recover(d')[b] == Recover(d)[b];
  }

  /** Once every logged block is home, clearing the header leaves the recovered image unchanged. */
  lemma ClearKeepsImage(d: Disk)
    requires GoodDisk(d)
    requires forall i :: 0 <= i < d.head.n ==> d.home[d.head.block[..d.head.n][i]] == d.slot[i]
    ensures var d' := d.(head := d.head.(n := 0));
            GoodDisk(d') && Recover(d') == Recover(d) == d.home
  {
    var lh := d.head.block[..d.head.n];
    forall b | b in d.home
      ensures Recover(d)[b] == d.home[b]
    {
      if b in lh { assert d.home[lh[IndexOf(lh, b)]] == d.slot[IndexOf(lh, b)]; }
    }
  }

  /** One bwrite of install_trans: block `t` goes home, on disk and in the cache. */
  lemma InstallOne(c: State, c': State, t: nat)
    requires GoodDisk(c.disk) && Installed(c, t) && t < |c.lh|
    requires c'.lh == c.lh && c'.disk == c.disk.(home := c.disk.home[c.lh[t] := c.disk.slot[t]])
    requires c'.cache == c.cache[c.lh[t] := c.disk.slot[t]]
    ensures Installed(c', t + 1)
    ensures GoodDisk(c'.disk) && Recover(c'.disk) == Recover(c.disk)
  {
    assert c.lh[t] == c.disk.head.block[t];
    InstallKeepsImage(c.disk, t);
    assert c'.disk.home.Keys == c.disk.home.Keys;
    assert GoodList(c'.lh, c'.disk);
    forall i | 0 <= i < t + 1
      ensures c'.disk.home[c.lh[i]] == c.disk.slot[i]
      ensures c.lh[i] in c'.cache ==> c'.cache[c.lh[i]] == c.disk.slot[i]
    {
      assert i == t || c.lh[i] != c.lh[t];
    }
    assert CacheCoherent(c');
  }

  lemma InstallUnpins(c: State, c': State, t: nat)
    requires InstallingAt(c, t) && t < |c.lh| && Installed(c', t + 1)
    requires c'.lh == c.lh && c'.disk.slot == c.disk.slot
    requires c'.pins == Unpin(c.pins, c.lh[t]) && c'.cache == c.cache[c.lh[t] := c.disk.slot[t]]
    ensures InstallingAt(c', t + 1)
  {
    UnpinOne(c.lh, t);
    forall i | t + 1 <= i < |c.lh|
      ensures c.lh[i] in c'.cache && c'.cache[c.lh[i]] == c.disk.slot[i]
    {
      assert c.lh[i] != c.lh[t];
    }
  }

  lemma UnpinOne(lh: seq<nat>, t: nat)
    requires t < |lh|
    ensures Unpin(multiset(lh[t..]), lh[t]) == multiset(lh[t + 1..])
  {
    assert lh[t..] == [lh[t]] + lh[t + 1..];
  }

  lemma StepInstall(c: State, durable: map<nat, Block>, current: map<nat, Block>)
    requires Inv(c, durable, current) && Enabled(c, Install)
    ensures Inv(Apply(c, Install), durable, current)
  {
    var c' := Apply(c, Install);
    InstallOne(c, c', c.pc.tail);
    InstallUnpins(c, c', c.pc.tail);
  }

  lemma ReinstallOne(c: State, c': State, t: nat)
    requires GoodDisk(c.disk) && RecoveringAt(c, t) && t < |c.lh| && Installed(c', t + 1)
    requires c'.lh == c.lh && c'.disk == c.disk.(home := c.disk.home[c.lh[t] := c.disk.slot[t]])
    requires c'.cache == c.cache[c.lh[t] := c.disk.slot[t]]
    ensures RecoveringAt(c', t + 1)
  {
    forall i | t + 1 <= i < |c.lh| && c.lh[i] in c'.cache
      ensures c'.cache[c.lh[i]] == c'.disk.home[c.lh[i]]
    {
      assert c.lh[i] != c.lh[t];
    }
  }

  lemma StepReinstall(c: State, durable: map<nat, Block>, current: map<nat, Block>)
    requires Inv(c, durable, current) && Enabled(c, Reinstall)
    ensures Inv(Apply(c, Reinstall), durable, current)
  {
    var c' := Apply(c, Reinstall);
    InstallOne(c, c', c.pc.tail);
    ReinstallOne(c, c', c.pc.tail);
  }

  lemma StepClearHead(c: State, durable: map<nat, Block>)
    requires Inv(c, durable, durable) && Enabled(c, ClearHead)
    ensures Inv(Apply(c, ClearHead), durable, durable)
  {
    ClearKeepsImage(c.disk);
  }

  lemma StepRecoverClear(c: State, durable: map<nat, Block>)
    requires Inv(c, durable, durable) && Enabled(c, RecoverClear)
    ensures Inv(Apply(c, RecoverClear), durable, durable)
  {
    ClearKeepsImage(c.disk);
  }

  /** A change of the cache that keeps every block's current contents keeps both kinds of invariant. */
  predicate SameView(c: State, c': State) {
    true == (
    && c' == c.(cache := c'.cache)
    && c'.cache.Keys <= c.disk.home.Keys
    && c.cache.Keys <= c.disk.home.Keys
    && (forall b :: b in c.disk.home ==> Current(c', b) == Current(c, b))
    && (forall b :: b in c.cache && b !in c'.cache ==> c.pins[b] == 0))
  }

  lemma SameViewInMemory(c: State, c': State, durable: map<nat, Block>, current: map<nat, Block>)
    requires InMemory(c, durable, current) && SameView(c, c')
    ensures InMemory(c', durable, current)
  {
    assert CacheCoherent(c') by {
      forall b | b in c'.cache && b !in c'.lh
        ensures c'.cache[b] == c'.disk.home[b]
      {
        assert Current(c, b) == c.disk.home[b];
      }
    }
  }

  lemma SameViewInstalled(c: State, c': State, t: nat)
    requires Installed(c, t) && SameView(c, c')
    ensures Installed(c', t)
  {
    forall b | b in c'.cache && b !in c'.lh
      ensures c'.cache[b] == c'.disk.home[b]
    {
      assert Current(c, b) == c.disk.home[b];
    }
    forall i | 0 <= i < t && c.lh[i] in c'.cache
      ensures c'.cache[c.lh[i]] == c.disk.slot[i]
    {
      assert Current(c, c.lh[i]) == c.disk.slot[i];
    }
  }

  lemma SameViewInstalling(c: State, c': State, t: nat)
    requires InstallingAt(c, t) && SameView(c, c')
    ensures InstallingAt(c', t)
  {
    SameViewInstalled(c, c', t);
    forall i | t <= i < |c.lh|
      ensures c.lh[i] in c'.cache && c'.cache[c.lh[i]] == c.disk.slot[i]
    {
      assert c.lh[i] == c.lh[t..][i - t];
      assert Current(c', c.lh[i]) == Current(c, c.lh[i]);
    }
  }

  lemma SameViewRecovering(c: State, c': State, t: nat)
    requires RecoveringAt(c, t) && SameView(c, c')
    ensures RecoveringAt(c', t)
  {
    SameViewInstalled(c, c', t);
    forall i | t <= i < |c.lh| && c.lh[i] in c'.cache
      ensures c'.cache[c.lh[i]] == c.disk.home[c.lh[i]]
    {
      assert Current(c', c.lh[i]) == Current(c, c.lh[i]);
    }
  }

  lemma StepCache(c: State, durable: map<nat, Block>, current: map<nat, Block>, e: Event)
    requires Inv(c, durable, current) && Enabled(c, e) && (e.Load? || e.Evict?)
    ensures Inv(Apply(c, e), durable, current)
  {
    var c' := Apply(c, e);
    assert SameView(c, c') by {
      CachedMatchesHome(c, durable, current);
      CacheStepSameView(c, e);
    }
    SameViewPc(c, c', durable, current);
  }

  lemma SameViewPc(c: State, c': State, durable: map<nat, Block>, current: map<nat, Block>)
    requires PcInv(c, durable, current) && SameView(c, c') && !c.pc.Boot?
    ensures PcInv(c', durable, current)
  {
    match c.pc
    case Recovering(t) => SameViewRecovering(c, c', t);
    case Installing(t) => SameViewInstalling(c, c', t);
    case WritingLog(t) =>
      SameViewInMemory(c, c', durable, current);
      assert forall i :: 0 <= i < t ==> Current(c', c.lh[i]) == Current(c, c.lh[i]);
    case _ => SameViewInMemory(c, c', durable, current);
  }

  /** A cached block that is not pinned equals its copy on disk, so recycling its buffer loses nothing. */
  lemma CachedMatchesHome(c: State, durable: map<nat, Block>, current: map<nat, Block>)
    requires Inv(c, durable, current)
    ensures c.cache.Keys <= c.disk.home.Keys
    ensures forall b :: b in c.cache && c.pins[b] == 0 ==> c.cache[b] == c.disk.home[b]
  {
    match c.pc
    case Boot =>
    case Recovering(t) => RecoveringMatches(c, t);
    case Installing(t) => InstallingMatches(c, t);
    case _ => assert InMemory(c, durable, current);
  }

  lemma RecoveringMatches(c: State, t: nat)
    requires RecoveringAt(c, t)
    ensures c.cache.Keys <= c.disk.home.Keys
    ensures forall b :: b in c.cache ==> c.cache[b] == c.disk.home[b]
  {
    forall b | b in c.cache && b in c.lh
      ensures c.cache[b] == c.disk.home[b]
    {
      var i := IndexOf(c.lh, b);
    }
  }

  lemma InstallingMatches(c: State, t: nat)
    requires InstallingAt(c, t)
    ensures c.cache.Keys <= c.disk.home.Keys
    ensures forall b :: b in c.cache && c.pins[b] == 0 ==> c.cache[b] == c.disk.home[b]
  {
    InstallingPinned(c, t);
    forall b | b in c.cache && b in c.lh && c.pins[b] == 0
      ensures c.cache[b] == c.disk.home[b]
    {
      var i := IndexOf(c.lh, b);
    }
  }

  lemma CacheStepSameView(c: State, e: Event)
    requires Enabled(c, e) && (e.Load? || e.Evict?)
    requires c.cache.Keys <= c.disk.home.Keys
    requires forall b :: b in c.cache && c.pins[b] == 0 ==> c.cache[b] == c.disk.home[b]
    ensures SameView(c, Apply(c, e))
  {
  }

  lemma StepCrash(c: State, durable: map<nat, Block>, current: map<nat, Block>)
    requires Inv(c, durable, current)
    ensures Inv(Apply(c, Crash), durable, durable)
  {
  }

  // The whole machine refines the specification.

  ghost predicate Refines(base: map<nat, Block>, c: State, a: Spec) {
    true == (
      && c.active == a.active && c.next == a.next
      && c.disk.home.Keys == base.Keys
      && Inv(c, Replay(base, a.durable), Replay(base, a.durable + a.pending))
      && (c.lh == [] || c.pc.Recovering? || c.pc.Installing? ==> a.pending == []))
  }

  lemma StepBegin(c: State, durable: map<nat, Block>, current: map<nat, Block>)
    requires Inv(c, durable, current) && Enabled(c, Begin(c.next))
    ensures Inv(Apply(c, Begin(c.next)), durable, current)
  {
  }

  lemma StepEnd(c: State, durable: map<nat, Block>, current: map<nat, Block>, op: nat)
    requires Inv(c, durable, current) && Enabled(c, End(op))
    ensures Inv(Apply(c, End(op)), durable, current)
  {
    EndInMemory(c, durable, current, op);
    assert c.active != {op} ==> c.active - {op} != {};
  }

  lemma EndInMemory(c: State, durable: map<nat, Block>, current: map<nat, Block>, op: nat)
    requires Inv(c, durable, current) && Enabled(c, End(op))
    ensures InMemory(Apply(c, End(op)), durable, current)
  {
  }

  lemma StepFinish(c: State, durable: map<nat, Block>, current: map<nat, Block>)
    requires Inv(c, durable, current) && Enabled(c, Finish)
    ensures Inv(Apply(c, Finish), durable, current)
  {
  }

  lemma StepReadHead(c: State, durable: map<nat, Block>, current: map<nat, Block>)
    requires Inv(c, durable, current) && Enabled(c, ReadHead)
    ensures Inv(Apply(c, ReadHead), durable, current)
  {
  }

  /** What the invariant says about control alone. */
  predicate Shape(c: State) {
    && (c.active != {} ==> c.pc.Ready?)
    && (c.pc.Installing? || c.pc.Recovering? ==> forall i :: 0 <= i < |c.lh| ==> c.lh[i] in c.disk.home)
    && ((c.active == {} && c.pc.Ready?) || c.pc.Finishing? || c.pc.Boot? ==> c.lh == [])
  }

  lemma InvShape(c: State, durable: map<nat, Block>, current: map<nat, Block>)
    requires Inv(c, durable, current)
    ensures Shape(c)
  {
  }

  lemma StepFrame(c: State, a: Spec, e: Event)
    requires Shape(c) && Enabled(c, e) && c.active == a.active && c.next == a.next
    requires c.lh == [] || c.pc.Recovering? || c.pc.Installing? ==> a.pending == []
    ensures var (c', a') := (Apply(c, e), SpecApply(a, e));
            && SpecEnabled(a, e) && c'.active == a'.active && c'.next == a'.next
            && c'.disk.home.Keys == c.disk.home.Keys
            && (c'.lh == [] || c'.pc.Recovering? || c'.pc.Installing? ==> a'.pending == [])
  {
  }

  lemma StepRefinesWrite(base: map<nat, Block>, c: State, a: Spec, op: nat, b: nat, v: Block)
    requires Refines(base, c, a) && Enabled(c, Write(op, b, v))
    ensures Inv(Apply(c, Write(op, b, v)), Replay(base, a.durable),
                Replay(base, a.durable + (a.pending + [Rec(op, b, v)])))
  {
    var durable, current := Replay(base, a.durable), Replay(base, a.durable + a.pending);
    InvShape(c, durable, current);
    StepWrite(c, durable, current, b, v);
    ReplayWrite(base, a.durable, a.pending, Rec(op, b, v));
  }

  lemma StepRefinesCommit(base: map<nat, Block>, c: State, a: Spec)
    requires Refines(base, c, a) && Enabled(c, WriteHead)
    ensures Inv(Apply(c, WriteHead), Replay(base, a.durable + a.pending), Replay(base, a.durable + a.pending + []))
  {
    StepWriteHead(c, Replay(base, a.durable), Replay(base, a.durable + a.pending));
    assert a.durable + a.pending + [] == a.durable + a.pending;
  }

  lemma StepRefinesCrash(base: map<nat, Block>, c: State, a: Spec)
    requires Refines(base, c, a)
    ensures Inv(Apply(c, Crash), Replay(base, a.durable), Replay(base, a.durable + []))
  {
    StepCrash(c, Replay(base, a.durable), Replay(base, a.durable + a.pending));
    assert a.durable + [] == a.durable;
  }

  lemma StepRefinesSilent(base: map<nat, Block>, c: State, a: Spec, e: Event)
    requires Refines(base, c, a) && Enabled(c, e) && !e.Write? && !e.WriteHead? && !e.Crash?
    ensures Inv(Apply(c, e), Replay(base, a.durable), Replay(base, a.durable + a.pending))
  {
    assert a.durable + [] == a.durable;
    StepSilent(c, Replay(base, a.durable), Replay(base, a.durable + a.pending), e);
  }

  lemma StepInv(base: map<nat, Block>, c: State, a: Spec, e: Event)
    requires Refines(base, c, a) && Enabled(c, e)
    ensures var a' := SpecApply(a, e);
            Inv(Apply(c, e), Replay(base, a'.durable), Replay(base, a'.durable + a'.pending))
  {
    if e.Write? {
      StepRefinesWrite(base, c, a, e.op, e.b, e.v);
    } else if e.WriteHead? {
      StepRefinesCommit(base, c, a);
    } else if e.Crash? {
      StepRefinesCrash(base, c, a);
    } else {
      StepRefinesSilent(base, c, a, e);
    }
  }

  /** Every other step leaves both abstract maps alone. */
  lemma StepSilent(c: State, durable: map<nat, Block>, current: map<nat, Block>, e: Event)
    requires Inv(c, durable, current) && Enabled(c, e) && !e.Write? && !e.WriteHead? && !e.Crash?
    requires c.lh == [] || c.pc.Recovering? || c.pc.Installing? ==> current == durable
    ensures Inv(Apply(c, e), durable, current)
  {
    match e
    case Begin(_) => StepBegin(c, durable, current);
    case End(op) => StepEnd(c, durable, current, op);
    case LogBlock => StepLogBlock(c, durable, current);
    case Install => StepInstall(c, durable, current);
    case ClearHead => StepClearHead(c, durable);
    case Finish => StepFinish(c, durable, current);
    case ReadHead => StepReadHead(c, durable, current);
    case Reinstall => StepReinstall(c, durable, current);
    case RecoverClear => StepRecoverClear(c, durable);
    case Load(_) => StepCache(c, durable, current, e);
    case Evict(_) => StepCache(c, durable, current, e);
  }

  lemma StepRefines(base: map<nat, Block>, c: State, a: Spec, e: Event)
    requires Refines(base, c, a) && Enabled(c, e)
    ensures SpecEnabled(a, e) && Refines(base, Apply(c, e), SpecApply(a, e))
  {
    StepInv(base, c, a, e);
    InvShape(c, Replay(base, a.durable), Replay(base, a.durable + a.pending));
    StepFrame(c, a, e);
  }

  /** `es` is a possible run from `c`. */
  predicate Run(c: State, es: seq<Event>)
    decreases |es|, 0
  {
    es == [] || (var (es', e) := (es[..|es| - 1], es[|es| - 1]); Run(c, es') && Enabled(After(c, es'), e))
  }

  function After(c: State, es: seq<Event>): State
    requires Run(c, es)
    decreases |es|, 1
  {
    if es == [] then c else Apply(After(c, es[..|es| - 1]), es[|es| - 1])
  }

  function SpecAfter(es: seq<Event>): Spec {
    if es == [] then Spec([], [], {}, 0) else SpecApply(SpecAfter(es[..|es| - 1]), es[|es| - 1])
  }

  /** A machine that has just been powered on, with any well-formed disk in it. */
  predicate PoweredOn(c: State) {
    GoodDisk(c.disk) && c == State(c.disk, Boot, [], {}, map[], multiset{}, 0)
  }

  /** Powered on as `c`, the machine is in state `s` after the events `es`. */
  ghost predicate Runs(c: State, es: seq<Event>, s: State) {
    forall k {:trigger Unfold(k)} :: Unfold(k) ==> PoweredOn(c) && Run(c, es) && After(c, es) == s
  }

  lemma RunsSnoc(c: State, es: seq<Event>, s: State, e: Event)
    requires Runs(c, es, s) && Enabled(s, e)
    ensures Runs(c, es + [e], Apply(s, e))
  {
    assert Unfold(0);
    assert (es + [e])[..|es + [e]| - 1] == es;
  }

  lemma RunsLast(c: State, es: seq<Event>, s: State) returns (s0: State)
    requires Runs(c, es, s) && es != []
    ensures Runs(c, es[..|es| - 1], s0) && Enabled(s0, es[|es| - 1]) && s == Apply(s0, es[|es| - 1])
  {
    assert Unfold(0);
    s0 := After(c, es[..|es| - 1]);
  }

  lemma RunsStart(c: State, s: State)
    requires Runs(c, [], s)
    ensures PoweredOn(c) && s == c
  {
    assert Unfold(0);
  }

  lemma RunsPoweredOn(c: State, es: seq<Event>, s: State)
    requires Runs(c, es, s)
    ensures PoweredOn(c)
  {
    assert Unfold(0);
  }

  lemma PoweredOnRefines(c: State)
    requires PoweredOn(c)
    ensures Refines(Recover(c.disk), c, SpecAfter([]))
  {
  }

  /** Every run refines the specification. */
  lemma {:induction false} RunRefines(c: State, es: seq<Event>, s: State)
    requires Runs(c, es, s)
    ensures PoweredOn(c) && Refines(Recover(c.disk), s, SpecAfter(es))
    decreases |es|
  {
    RunsPoweredOn(c, es, s);
    if es == [] {
      RunsStart(c, s);
      PoweredOnRefines(c);
    } else {
      var s0 := RunsLast(c, es, s);
      RunRefines(c, es[..|es| - 1], s0);
      StepRefines(Recover(c.disk), s0, SpecAfter(es[..|es| - 1]), es[|es| - 1]);
    }
  }

  // Consequences for every run.

  /** The header write of commit is the only commit point: no other step, crash or recovery
      step changes what the disk recovers to. */
  lemma OnlyCommitPoint(c: State, es: seq<Event>, s: State, e: Event)
    requires Runs(c, es, s) && Enabled(s, e) && !e.WriteHead?
    ensures GoodDisk(s.disk) && GoodDisk(Apply(s, e).disk) && Recover(Apply(s, e).disk) == Recover(s.disk)
  {
    RunRefines(c, es, s);
    StepRefines(Recover(c.disk), s, SpecAfter(es), e);
  }

  /** Once recovery has cleared the header, the home blocks hold exactly the durable records. */
  lemma RecoveredContents(c: State, es: seq<Event>, s: State)
    requires Runs(c, es, s) && Enabled(s, RecoverClear)
    ensures GoodDisk(c.disk) && Apply(s, RecoverClear).disk.home == Replay(Recover(c.disk), SpecAfter(es).durable)
  {
    RunRefines(c, es, s);
    StepRefines(Recover(c.disk), s, SpecAfter(es), RecoverClear);
  }

  /** bread returns the last logged contents of a block, committed or not. */
  lemma ReadsLatest(c: State, es: seq<Event>, s: State, b: nat)
    requires Runs(c, es, s) && (s.pc.Ready? || s.pc.WritingLog? || s.pc.Installing? || s.pc.Finishing?)
    requires b in s.disk.home
    ensures GoodDisk(c.disk)
    ensures var m := Replay(Recover(c.disk), SpecAfter(es).durable + SpecAfter(es).pending);
              b in m && Current(s, b) == m[b]
  {
    RunRefines(c, es, s);
    var a := SpecAfter(es);
    assert a.durable + [] == a.durable;
    if s.pc.Installing? {
      InstallingReads(s, b);
    }
  }

  lemma InstallingReads(c: State, b: nat)
    requires c.pc.Installing? && GoodDisk(c.disk) && InstallingAt(c, c.pc.tail) && b in c.disk.home
    ensures Current(c, b) == Recover(c.disk)[b]
  {
    if b in c.lh {
      assert c.lh[IndexOf(c.lh, b)] == b;
    }
  }

  /** Until its commit point an operation's contents stay out of the home blocks, and a logged
      block keeps a pinned copy in the cache until it has been installed. */
  lemma UncommittedStaysCached(c: State, es: seq<Event>, s: State)
    requires Runs(c, es, s) && (s.pc.Ready? || s.pc.WritingLog? || s.pc.Installing?)
    ensures GoodDisk(c.disk)
    ensures !s.pc.Installing? ==> s.disk.home == Replay(Recover(c.disk), SpecAfter(es).durable)
    ensures forall i :: (if s.pc.Installing? then s.pc.tail else 0) <= i < |s.lh| ==>
              s.pins[s.lh[i]] > 0 && s.lh[i] in s.cache
  {
    RunRefines(c, es, s);
    if s.pc.Installing? {
      InstallingPinned(s, s.pc.tail);
    }
  }

  lemma InstallingPinned(c: State, t: nat)
    requires InstallingAt(c, t)
    ensures forall i :: t <= i < |c.lh| ==> c.pins[c.lh[i]] > 0 && c.lh[i] in c.cache
  {
    assert forall i :: t <= i < |c.lh| ==> c.lh[t..][i - t] == c.lh[i];
  }

  /** When no operation is active and no commit is running, nothing is pending. */
  lemma QuiescentIsDurable(c: State, es: seq<Event>, s: State)
    requires Runs(c, es, s) && s.pc.Ready? && s.active == {}
    ensures GoodDisk(c.disk) && SpecAfter(es).pending == []
    ensures s.disk.home == Replay(Recover(c.disk), SpecAfter(es).durable)
  {
    RunRefines(c, es, s);
  }

  // Every operation is durable as a whole or not at all.

  function Select(rs: seq<Rec>, op: nat): seq<Rec> {
    if rs == [] then []
    else var r := rs[|rs| - 1]; Select(rs[..|rs| - 1], op) + if r.op == op then [r] else []
  }

  /** All the writes operation `op` ever made in the run. */
  function OpWrites(es: seq<Event>, op: nat): seq<Rec> {
    if es == [] then []
    else
      var e := es[|es| - 1];
      OpWrites(es[..|es| - 1], op) + if e.Write? && e.op == op then [Rec(op, e.b, e.v)] else []
  }

  lemma {:induction false} SelectConcat(rs: seq<Rec>, qs: seq<Rec>, op: nat)
    ensures Select(rs + qs, op) == Select(rs, op) + Select(qs, op)
  {
    if qs == [] {
      assert rs + qs == rs;
    } else {
      SelectConcat(rs, qs[..|qs| - 1], op);
      assert (rs + qs)[..|rs + qs| - 1] == rs + qs[..|qs| - 1];
    }
  }

  predicate SpecRun(es: seq<Event>) {
    es == [] || (SpecRun(es[..|es| - 1]) && SpecEnabled(SpecAfter(es[..|es| - 1]), es[|es| - 1]))
  }

  lemma {:induction false} RunIsSpecRun(c: State, es: seq<Event>, s: State)
    requires Runs(c, es, s)
    ensures SpecRun(es)
    decreases |es|
  {
    if es != [] {
      var s0 := RunsLast(c, es, s);
      RunIsSpecRun(c, es[..|es| - 1], s0);
      RunRefines(c, es[..|es| - 1], s0);
      StepRefines(Recover(c.disk), s0, SpecAfter(es[..|es| - 1]), es[|es| - 1]);
    }
  }

  predicate OpAccount(a: Spec, op: nat, writes: seq<Rec>) {
    var (d, p) := (Select(a.durable, op), Select(a.pending, op));
    && (d == [] || (d == writes && p == [] && op !in a.active))
    && (p == [] || p == writes)
    && (op in a.active ==> p == writes && op < a.next)
    && (op >= a.next ==> writes == [])
  }

  lemma {:induction false} OpAccounts(es: seq<Event>, op: nat)
    requires SpecRun(es)
    ensures OpAccount(SpecAfter(es), op, OpWrites(es, op))
  {
    if es != [] {
      var (es', e) := (es[..|es| - 1], es[|es| - 1]);
      OpAccounts(es', op);
      var a := SpecAfter(es');
      if e.WriteHead? {
        SelectConcat(a.durable, a.pending, op);
      } else if e.Write? {
        var r := Rec(e.op, e.b, e.v);
        SelectConcat(a.pending, [r], op);
        assert Select([r], op) == if r.op == op then [r] else [];
      }
    }
  }

  /** Crash atomicity: at any moment of any run, with any number of crashes, the disk recovers to
      a replay in which every operation appears with all its writes, in order, or not at all. */
  lemma CrashAtomicity(c: State, es: seq<Event>, s: State)
    requires Runs(c, es, s)
    ensures GoodDisk(c.disk) && GoodDisk(s.disk)
    ensures Recover(s.disk) == Replay(Recover(c.disk), SpecAfter(es).durable)
    ensures forall op ::
              Select(SpecAfter(es).durable, op) == [] || Select(SpecAfter(es).durable, op) == OpWrites(es, op)
  {
    RunRefines(c, es, s);
    RunIsSpecRun(c, es, s);
    forall op ensures OpAccount(SpecAfter(es), op, OpWrites(es, op)) {
      OpAccounts(es, op);
    }
  }
}
