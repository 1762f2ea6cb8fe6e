/**
 Driver, interrupt handler and device of kernel/virtio_disk.c as one step machine.
 Descriptors, rings and 16-bit indices are as in memory; the device follows the descriptor
 table and the rings, completes requests in any order, and may act between the driver's
 write of a ring entry and its write of the index.  Apart from that the driver's lock makes
 its critical sections single steps.
 */
module VirtioProtocol {
  import opened Blocks
  import opened Virtio

  const WRAP: nat := 0x1_0000  // indices are uint16

  datatype Op = Op(write: bool, blockno: nat)
  datatype Info = Info(b: nat, status: nat)

  /** Where a request stands. */
  datatype Stage =
    | Queued    // in the avail ring, not yet read by the device
    | Working   // read by the device
    | Staged    // in the used ring, index not yet advanced
    | Used      // in the used ring
    | Done      // seen by the interrupt handler; virtio_disk_rw has yet to return

  /** A request: its other two descriptors, the buffer, and what is to be done with it. */
  datatype Req = Req(i1: nat, i2: nat, b: nat, op: Op, stage: Stage)

  /** The driver's and the device's memory; then, for the proof, the outstanding requests by head descriptor, the
      head each descriptor in use belongs to (NUM for none), and the entries in the two rings in order. */
  datatype State = State(
    free: seq<bool>, desc: seq<Desc>, ops: seq<Op>, info: seq<Info>,
    aring: seq<nat>, aidx: nat, uring: seq<nat>, uidx: nat,
    looked: nat, seen: nat, pub: bool, staged: bool,
    busy: set<nat>, waiting: set<nat>, data: map<nat, Block>, disk: map<nat, Block>,
    reqs: map<nat, Req>, own: seq<nat>, queue: seq<nat>, done: seq<nat>)

  predicate Sizes(s: State) {
    |s.free| == |s.desc| == |s.ops| == |s.info| == |s.aring| == |s.uring| == |s.own| == NUM
  }

  datatype Event =
    | Submit(b: nat, op: Op, i0: nat, i1: nat, i2: nat)  // virtio_disk_rw up to the avail ring entry
    | Publish                            // disk.avail->idx += 1
    | Block(p: nat)                      // virtio_disk_rw finds too few descriptors and sleeps
    | Fetch                              // device reads the next avail ring entry
    | Serve(h: nat)                      // device performs request h, once, and writes its used ring entry
    | Announce                           // device: used->idx += 1
    | Intr                               // one round of virtio_disk_intr's loop
    | Finish(h: nat)                     // virtio_disk_rw wakes up, frees the chain and returns
    | Touch(b: nat, blk: Block)          // a buffer that is not in flight is written

  predicate Enabled(s: State, e: Event)
    requires Sizes(s)
  {
    match e
    case Submit(b, op, i0, i1, i2) =>
      && !s.pub && b in s.data && op.blockno in s.disk
      && b !in s.busy && (forall h :: h in s.reqs ==> s.reqs[h].b != b)
      && FirstThree(s.free, i0, i1, i2)
    case Publish => s.pub
    case Block(p) => !s.pub && FewerThanThree(s.free)
    case Fetch => s.seen != s.aidx && s.aring[s.seen % NUM] < NUM
    case Serve(h) => !s.staged && h in s.reqs && s.reqs[h].stage.Working? && h < NUM
    case Announce => s.staged
    case Intr => !s.pub && s.looked != s.uidx && s.uring[s.looked % NUM] < NUM
    case Finish(h) => !s.pub && h < NUM && h in s.reqs && s.reqs[h].stage.Done?
    case Touch(b, blk) => b in s.data && b !in s.busy
  }

  /** The three descriptors that virtio_disk_rw formats. */
  function Formatted(desc: seq<Desc>, b: nat, op: Op, i0: nat, i1: nat, i2: nat): seq<Desc>
    requires |desc| == NUM && i0 < NUM && i1 < NUM && i2 < NUM
  {
    desc[i0 := Desc(OpAt(i0), false, true, i1)]
        [i1 := Desc(DataOf(b), !op.write, true, i2)]
        [i2 := Desc(StatusOf(i0), true, false, 0)]
  }

  function DoSubmit(s: State, b: nat, op: Op, i0: nat, i1: nat, i2: nat): State
    requires Sizes(s) && FirstThree(s.free, i0, i1, i2)
  {
    s.(free := s.free[i0 := false][i1 := false][i2 := false],
       desc := Formatted(s.desc, b, op, i0, i1, i2),
       ops := s.ops[i0 := op],
       info := s.info[i0 := Info(b, 0xff)],
       aring := s.aring[s.aidx % NUM := i0],
       pub := true,
       busy := s.busy + {b},
       reqs := s.reqs[i0 := Req(i1, i2, b, op, Queued)],
       own := s.own[i0 := i0][i1 := i0][i2 := i0],
       queue := s.queue + [i0])
  }

  /** What the device finds by following the descriptors from h: the operation, the buffer and whose status to set. */
  function Found(s: State, h: nat): (Op, nat, nat)
    requires Sizes(s) && h < NUM
  {
    var d0 := s.desc[h];
    var d1 := if d0.next < NUM then s.desc[d0.next] else d0;
    var d2 := if d1.next < NUM then s.desc[d1.next] else d1;
    (if d0.addr.OpAt? && d0.addr.i < NUM then s.ops[d0.addr.i] else Op(false, 0),
     if d1.addr.DataOf? then d1.addr.b else 0,
     if d2.addr.StatusOf? && d2.addr.i < NUM then d2.addr.i else 0)
  }

  function DoServe(s: State, h: nat): State
    requires Sizes(s) && h < NUM && h in s.reqs
  {
    var (op, b, i) := Found(s, h);
    s.(disk := if op.write && b in s.data then s.disk[op.blockno := s.data[b]] else s.disk,
       data := if !op.write && op.blockno in s.disk then s.data[b := s.disk[op.blockno]] else s.data,
       info := s.info[i := s.info[i].(status := 0)],
       uring := s.uring[s.uidx % NUM := h],
       staged := true,
       reqs := s.reqs[h := s.reqs[h].(stage := Staged)])
  }

  function Wrapped(i: nat): nat { (i + 1) % WRAP }

  function Restage(reqs: map<nat, Req>, h: nat, stage: Stage): map<nat, Req> {
    if h in reqs then reqs[h := reqs[h].(stage := stage)] else reqs
  }

  function DoFetch(s: State): State
    requires Sizes(s)
  {
    s.(seen := Wrapped(s.seen),
       reqs := Restage(s.reqs, s.aring[s.seen % NUM], Working),
       queue := if s.queue == [] then [] else s.queue[1..])
  }

  function DoAnnounce(s: State): State
    requires Sizes(s)
  {
    var h := s.uring[s.uidx % NUM];
    s.(uidx := Wrapped(s.uidx), staged := false, reqs := Restage(s.reqs, h, Used), done := s.done + [h])
  }

  function DoIntr(s: State): State
    requires Sizes(s) && s.uring[s.looked % NUM] < NUM
  {
    var h := s.uring[s.looked % NUM];
    s.(looked := Wrapped(s.looked),
       busy := s.busy - {s.info[h].b},
       reqs := Restage(s.reqs, h, Done),
       done := if s.done == [] then [] else s.done[1..])
  }

  /** The descriptor that h leads to, and the one after it. */
  function Links(s: State, h: nat): (nat, nat)
    requires Sizes(s) && h < NUM
  {
    var i1 := s.desc[h].next;
    (i1, if i1 < NUM then s.desc[i1].next else 0)
  }

  /** The end of virtio_disk_rw: free_chain follows the links from h. */
  function DoFinish(s: State, h: nat): State
    requires Sizes(s) && h < NUM
  {
    var (i1, i2) := Links(s, h);
    s.(free := seq(NUM, d requires 0 <= d < NUM => s.free[d] || d == h || d == i1 || d == i2),
       desc := seq(NUM, d requires 0 <= d < NUM =>
         if d == h || d == i1 || d == i2 then Desc(Null, false, false, 0) else s.desc[d]),
       info := s.info[h := s.info[h].(b := 0)],
       own := seq<nat>(NUM, d requires 0 <= d < NUM => if d == h || d == i1 || d == i2 then NUM else s.own[d]),
       reqs := s.reqs - {h},
       waiting := {})
  }

  function Apply(s: State, e: Event): State
    requires Sizes(s) && Enabled(s, e)
  {
    match e
    case Submit(b, op, i0, i1, i2) => DoSubmit(s, b, op, i0, i1, i2)
    case Publish => s.(aidx := Wrapped(s.aidx), pub := false)
    case Block(p) => s.(waiting := (if exists i :: 0 <= i < NUM && s.free[i] then {} else s.waiting) + {p})
    case Fetch => DoFetch(s)
    case Serve(h) => DoServe(s, h)
    case Announce => DoAnnounce(s)
    case Intr => DoIntr(s)
    case Finish(h) => DoFinish(s, h)
    case Touch(b, blk) => s.(data := s.data[b := blk])
  }

  // The invariant.

  /** Request h has its own three descriptors, formatted as the device expects them. */
  predicate ReqAt(s: State, h: nat)
    requires Sizes(s)
  {
    h in s.reqs ==>
      var r := s.reqs[h];
      && h < NUM && r.i1 < NUM && r.i2 < NUM && h != r.i1 && h != r.i2 && r.i1 != r.i2
      && s.own[h] == s.own[r.i1] == s.own[r.i2] == h
      && s.desc[h] == Desc(OpAt(h), false, true, r.i1) && s.desc[r.i1] == Desc(DataOf(r.b), !r.op.write, true, r.i2)
      && s.desc[r.i2] == Desc(StatusOf(h), true, false, 0) && s.ops[h] == r.op
      && s.info[h] == Info(r.b, if r.stage.Queued? || r.stage.Working? then 0xff else 0)
      && (r.b in s.busy <==> !r.stage.Done?) && r.b in s.data && r.op.blockno in s.disk
  }

  /** A descriptor is in use exactly if it belongs to a request. */
  predicate OwnAt(s: State, d: nat)
    requires Sizes(s) && d < NUM
  {
    && (s.free[d] <==> s.own[d] == NUM)
    && (s.own[d] != NUM ==>
          && s.own[d] < NUM && s.own[d] in s.reqs
          && (d == s.own[d] || d == s.reqs[s.own[d]].i1 || d == s.reqs[s.own[d]].i2))
  }

  /** The ring from index `from` on holds q. */
  predicate Ring(ring: seq<nat>, from: nat, q: seq<nat>) {
    true == (|ring| == NUM && from < WRAP && |q| <= 2 && forall j :: 0 <= j < |q| ==> ring[(from + j) % NUM] == q[j])
  }

  /** q lists the requests of a stage, each once. */
  predicate Lists(reqs: map<nat, Req>, q: seq<nat>, stage: Stage) {
    true == (
      && (forall j :: 0 <= j < |q| ==> q[j] in reqs && reqs[q[j]].stage == stage)
      && (forall i, j :: 0 <= i < j < |q| ==> q[i] != q[j])
      && (forall h :: h in reqs && reqs[h].stage == stage ==> h in q))
  }

  predicate AvailOk(s: State) {
    && Ring(s.aring, s.seen, s.queue) && Lists(s.reqs, s.queue, Queued) && (s.pub ==> s.queue != [])
    && s.aidx == (s.seen + |s.queue| - if s.pub then 1 else 0) % WRAP
  }

  predicate UsedOk(s: State) {
    && Ring(s.uring, s.looked, s.done) && Lists(s.reqs, s.done, Used) && s.uidx == (s.looked + |s.done|) % WRAP
    && Lists(s.reqs, if s.staged then [s.uring[s.uidx % NUM]] else [], Staged)
  }

  // Predicates of the form `forall u :: UnfoldP(u) ==> body` mean `body`, but the verifier looks
  // inside P only in proofs that mention UnfoldP.
  predicate UnfoldInv(u: int) { true }
  predicate UnfoldRuns(u: int) { true }

  ghost predicate Inv(s: State) {
    && Sizes(s)
    && forall u {:trigger UnfoldInv(u)} :: UnfoldInv(u) ==>
      ReqsOk(s) && OwnOk(s) && AvailOk(s) && UsedOk(s) && BuffersOk(s) && (s.waiting != {} ==> FewerThanThree(s.free))
  }

  ghost predicate ReqsOk(s: State)
    requires Sizes(s)
  {
    forall h :: h in s.reqs ==> ReqAt(s, h)
  }

  ghost predicate OwnOk(s: State)
    requires Sizes(s)
  {
    forall d :: 0 <= d < NUM ==> OwnAt(s, d)
  }

  ghost predicate BuffersOk(s: State) {
    forall h, h' :: h in s.reqs && h' in s.reqs && h != h' ==> s.reqs[h].b != s.reqs[h'].b
  }

  // Index arithmetic.

  lemma WrapMod(x: nat)
    ensures x % WRAP % NUM == x % NUM
  {
  }

  lemma StepMod(x: nat, j: nat)
    requires x < WRAP
    ensures (Wrapped(x) + j) % NUM == (x + (j + 1)) % NUM && (Wrapped(x) + j) % WRAP == (x + (j + 1)) % WRAP
  {
  }

  lemma NearApart(x: nat, i: nat, j: nat)
    requires i < j < NUM
    ensures (x + i) % NUM != (x + j) % NUM
    ensures x < WRAP && i == 0 ==> (x + j) % WRAP != x
  {
  }

  // At most two requests fit.

  ghost function Triple(s: State, h: nat): set<nat>
    requires h in s.reqs
  {
    {h, s.reqs[h].i1, s.reqs[h].i2}
  }

  lemma ThreeTooMany(s: State, a: nat, b: nat, c: nat)
    requires Sizes(s) && a in s.reqs && b in s.reqs && c in s.reqs && ReqAt(s, a) && ReqAt(s, b) && ReqAt(s, c)
    ensures a == b || a == c || b == c
  {
    if a != b && a != c && b != c {
      var (x, y, z) := (Triple(s, a), Triple(s, b), Triple(s, c));
      assert x !! y && x !! z && y !! z;
      assert |x + y + z| == 9;
      EightOnly(x + y + z, NUM);
      assert false;
    }
  }

  lemma {:induction false} EightOnly(t: set<nat>, n: nat)
    requires forall d :: d in t ==> d < n
    ensures |t| <= n
  {
    if n > 0 {
      EightOnly(t - {n - 1}, n - 1);
    } else {
      assert t == {};
    }
  }

  // Rings.

  lemma RingPop(ring: seq<nat>, from: nat, q: seq<nat>)
    requires Ring(ring, from, q) && q != []
    ensures ring[from % NUM] == q[0] && Ring(ring, Wrapped(from), q[1..])
  {
    assert ring[(from + 0) % NUM] == q[0];
    forall j | 0 <= j < |q[1..]| ensures ring[(Wrapped(from) + j) % NUM] == q[1..][j] {
      StepMod(from, j);
    }
  }

  /** A new entry overwrites none that is still wanted. */
  lemma RingPush(ring: seq<nat>, from: nat, q: seq<nat>, h: nat)
    requires Ring(ring, from, q) && |q| < 2
    ensures Ring(ring[(from + |q|) % NUM := h], from, q + [h])
  {
    var (ring', q') := (ring[(from + |q|) % NUM := h], q + [h]);
    forall j | 0 <= j < |q'| ensures ring'[(from + j) % NUM] == q'[j] {
      if j < |q| { NearApart(from, j, |q|); }
    }
  }

  lemma RingNext(ring: seq<nat>, from: nat, q: seq<nat>, h: nat)
    requires Ring(ring, from, q)
    ensures Ring(ring[(from + |q|) % NUM := h], from, q)
  {
    var ring' := ring[(from + |q|) % NUM := h];
    forall j | 0 <= j < |q| ensures ring'[(from + j) % NUM] == q[j] {
      NearApart(from, j, |q|);
    }
  }

  lemma ListPop(reqs: map<nat, Req>, q: seq<nat>, stage: Stage, to: Stage)
    requires Lists(reqs, q, stage) && q != [] && to != stage
    ensures q[0] in reqs && reqs[q[0]].stage == stage && Lists(Restage(reqs, q[0], to), q[1..], stage)
  {
  }

  lemma ListPush(reqs: map<nat, Req>, q: seq<nat>, stage: Stage, h: nat)
    requires Lists(reqs, q, stage) && h in reqs && reqs[h].stage != stage
    ensures Lists(Restage(reqs, h, stage), q + [h], stage)
  {
    var (reqs', q') := (Restage(reqs, h, stage), q + [h]);
    assert q'[|q|] == h && forall j :: 0 <= j < |q| ==> q'[j] == q[j];
  }

  lemma ListOther(reqs: map<nat, Req>, q: seq<nat>, stage: Stage, h: nat, to: Stage)
    requires Lists(reqs, q, stage) && h in reqs && reqs[h].stage != stage && to != stage
    ensures Lists(Restage(reqs, h, to), q, stage)
  {
  }

  lemma ListRemove(reqs: map<nat, Req>, q: seq<nat>, stage: Stage, h: nat)
    requires Lists(reqs, q, stage) && h in reqs && reqs[h].stage != stage
    ensures Lists(reqs - {h}, q, stage)
  {
  }

  lemma ListAdd(reqs: map<nat, Req>, q: seq<nat>, stage: Stage, h: nat, r: Req)
    requires Lists(reqs, q, stage) && h !in reqs
    ensures Lists(reqs[h := r], if r.stage == stage then q + [h] else q, stage)
  {
    var q' := q + [h];
    assert q'[|q|] == h && forall j :: 0 <= j < |q| ==> q'[j] == q[j];
  }

  // Steps.

  /** A change of stage that leaves descriptors alone. */
  lemma StageKeeps(s: State, s': State, h: nat, stage: Stage)
    requires Inv(s) && Sizes(s') && s'.reqs == Restage(s.reqs, h, stage) && s'.free == s.free && s'.own == s.own
    ensures OwnOk(s') && BuffersOk(s')
  {
    assert OwnOk(s) && BuffersOk(s) by { assert UnfoldInv(0); }
    forall d | 0 <= d < NUM ensures OwnAt(s', d) { assert OwnAt(s, d); }
  }

  lemma NextIndex(x: nat, n: nat)
    requires n > 0
    ensures Wrapped((x + n - 1) % WRAP) == (x + n) % WRAP
  {
  }

  lemma PublishAvail(s: State, s': State)
    requires AvailOk(s) && s.pub && s' == s.(aidx := Wrapped(s.aidx), pub := false)
    ensures AvailOk(s')
  {
    NextIndex(s.seen, |s.queue|);
  }

  lemma PublishReqs(s: State, s': State)
    requires Sizes(s) && Sizes(s') && ReqsOk(s) && OwnOk(s) && s' == s.(aidx := s'.aidx, pub := false)
    ensures ReqsOk(s') && OwnOk(s')
  {
    forall h | h in s'.reqs ensures ReqAt(s', h) { assert ReqAt(s, h); }
    forall d | 0 <= d < NUM ensures OwnAt(s', d) { assert OwnAt(s, d); }
  }

  lemma PublishInv(s: State)
    requires Inv(s) && s.pub
    ensures Inv(s.(aidx := Wrapped(s.aidx), pub := false))
  {
    var s' := s.(aidx := Wrapped(s.aidx), pub := false);
    assert UnfoldInv(0);
    PublishAvail(s, s');
    PublishReqs(s, s');
  }

  /** The device reads the oldest entry: there is one, and the index comparison says so despite wrap-around. */
  lemma FetchHead(s: State)
    requires Inv(s) && s.seen != s.aidx
    ensures s.queue != [] && s.aring[s.seen % NUM] == s.queue[0] && s.queue[0] in s.reqs && (s.pub ==> |s.queue| > 1)
    ensures s.reqs[s.queue[0]].stage.Queued?
  {
    assert AvailOk(s) by { assert UnfoldInv(0); }
    RingPop(s.aring, s.seen, s.queue);
    ListPop(s.reqs, s.queue, Queued, Working);
  }

  lemma FetchInv(s: State)
    requires Inv(s) && s.seen != s.aidx
    ensures Inv(DoFetch(s))
  {
    var s' := DoFetch(s);
    FetchHead(s);
    var h := s.queue[0];
    FetchAvail(s, h);
    assert UsedOk(s') by { UsedOther(s, s', h, Working); }
    StageKeeps(s, s', h, Working);
    assert ReqsOk(s') by { assert ReqsOk(s) by { assert UnfoldInv(0); } StageReqs(s, s', h, Working); }
    assert s'.waiting != {} ==> FewerThanThree(s'.free) by { assert UnfoldInv(0); }
  }

  lemma FetchAvail(s: State, h: nat)
    requires Inv(s) && s.seen != s.aidx && s.queue != [] && h == s.queue[0] && s.aring[s.seen % NUM] == h
    requires (s.pub ==> |s.queue| > 1)
    ensures AvailOk(DoFetch(s))
  {
    var s' := DoFetch(s);
    assert AvailOk(s) by { assert UnfoldInv(0); }
    assert Ring(s'.aring, s'.seen, s'.queue) by { RingPop(s.aring, s.seen, s.queue); }
    assert Lists(s'.reqs, s'.queue, Queued) by { ListPop(s.reqs, s.queue, Queued, Working); }
    StepMod(s.seen, |s.queue| - 1 - if s.pub then 1 else 0);
  }

  /** The used ring does not care about the other stages. */
  lemma UsedOther(s: State, s': State, h: nat, to: Stage)
    requires Inv(s) && h in s.reqs && (s.reqs[h].stage.Queued? || s.reqs[h].stage.Working?)
    requires (to.Queued? || to.Working?)
    requires s'.reqs == Restage(s.reqs, h, to) && s'.uring == s.uring && s'.looked == s.looked && s'.uidx == s.uidx
    requires s'.done == s.done && s'.staged == s.staged
    ensures UsedOk(s')
  {
    assert UsedOk(s) by { assert UnfoldInv(0); }
    ListOther(s.reqs, s.done, Used, h, to);
    ListOther(s.reqs, if s.staged then [s.uring[s.uidx % NUM]] else [], Staged, h, to);
  }

  lemma StageReqs(s: State, s': State, h: nat, to: Stage)
    requires Sizes(s) && Sizes(s') && ReqsOk(s) && h in s.reqs && (s.reqs[h].stage.Queued? || s.reqs[h].stage.Working?)
    requires (to.Queued? || to.Working?)
    requires s'.reqs == Restage(s.reqs, h, to) && s'.own == s.own && s'.desc == s.desc && s'.ops == s.ops
    requires s'.info == s.info
    requires s'.busy == s.busy && s'.data == s.data && s'.disk == s.disk
    ensures ReqsOk(s')
  {
    forall x | x in s'.reqs ensures ReqAt(s', x) { assert ReqAt(s, x); }
  }

  lemma AvailOther(s: State, s': State, h: nat, to: Stage)
    requires Inv(s) && h in s.reqs && !s.reqs[h].stage.Queued? && !to.Queued?
    requires s'.reqs == Restage(s.reqs, h, to) && s'.aring == s.aring && s'.seen == s.seen && s'.aidx == s.aidx
    requires s'.queue == s.queue && s'.pub == s.pub
    ensures AvailOk(s')
  {
    assert AvailOk(s) by { assert UnfoldInv(0); }
    ListOther(s.reqs, s.queue, Queued, h, to);
  }

  /** What the device finds is what was asked for. */
  lemma FoundOwn(s: State, h: nat)
    requires Inv(s) && h in s.reqs
    ensures h < NUM && Found(s, h) == (s.reqs[h].op, s.reqs[h].b, h)
    ensures s.reqs[h].b in s.data && s.reqs[h].op.blockno in s.disk
  {
    assert UnfoldInv(0);
    assert ReqAt(s, h);
  }

  lemma ServeInv(s: State, h: nat)
    requires Inv(s) && !s.staged && h in s.reqs && h < NUM && s.reqs[h].stage.Working?
    ensures Inv(DoServe(s, h))
  {
    var s' := DoServe(s, h);
    FoundOwn(s, h);
    assert s'.reqs == Restage(s.reqs, h, Staged);
    AvailOther(s, s', h, Staged);
    StageKeeps(s, s', h, Staged);
    ServeUsed(s, h);
    assert ReqsOk(s') by {
      assert ReqsOk(s) by { assert UnfoldInv(0); }
      forall x | x in s'.reqs ensures ReqAt(s', x) { assert ReqAt(s, x); }
    }
    assert s'.waiting != {} ==> FewerThanThree(s'.free) by { assert UnfoldInv(0); }
  }

  lemma ServeUsed(s: State, h: nat)
    requires Inv(s) && !s.staged && h in s.reqs && h < NUM && s.reqs[h].stage.Working?
    ensures UsedOk(DoServe(s, h))
  {
    var s' := DoServe(s, h);
    assert UsedOk(s) by { assert UnfoldInv(0); }
    assert Ring(s'.uring, s'.looked, s'.done) by {
      WrapMod(s.looked + |s.done|);
      RingNext(s.uring, s.looked, s.done, h);
    }
    assert s'.reqs == Restage(s.reqs, h, Staged);
    assert Lists(s'.reqs, s'.done, Used) by { ListOther(s.reqs, s.done, Used, h, Staged); }
    assert Lists(s'.reqs, [h], Staged) by { ListPush(s.reqs, [], Staged, h); assert [] + [h] == [h]; }
  }

  /** With two completions unseen there is no third request to complete. */
  lemma DoneRoom(s: State, h: nat)
    requires Inv(s) && h in s.reqs && !s.reqs[h].stage.Used?
    ensures |s.done| < 2
  {
    assert UsedOk(s) && ReqsOk(s) by { assert UnfoldInv(0); }
    if |s.done| == 2 {
      assert ReqAt(s, s.done[0]) && ReqAt(s, s.done[1]) && ReqAt(s, h);
      ThreeTooMany(s, s.done[0], s.done[1], h);
    }
  }

  lemma AnnounceInv(s: State)
    requires Inv(s) && s.staged
    ensures Inv(DoAnnounce(s))
  {
    var (s', h) := (DoAnnounce(s), s.uring[s.uidx % NUM]);
    assert UsedOk(s) by { assert UnfoldInv(0); }
    assert [h][0] in s.reqs && s.reqs[h].stage.Staged?;
    DoneRoom(s, h);
    AvailOther(s, s', h, Used);
    StageKeeps(s, s', h, Used);
    AnnounceUsed(s);
    assert ReqsOk(s') by {
      assert ReqsOk(s) by { assert UnfoldInv(0); }
      forall x | x in s'.reqs ensures ReqAt(s', x) { assert ReqAt(s, x); }
    }
    assert s'.waiting != {} ==> FewerThanThree(s'.free) by { assert UnfoldInv(0); }
  }

  lemma AnnounceUsed(s: State)
    requires Sizes(s) && UsedOk(s) && s.staged && |s.done| < 2
    ensures UsedOk(DoAnnounce(s))
  {
    var (s', h) := (DoAnnounce(s), s.uring[s.uidx % NUM]);
    assert Ring(s'.uring, s'.looked, s'.done) by {
      WrapMod(s.looked + |s.done|);
      RingPush(s.uring, s.looked, s.done, h);
      assert s.uring[(s.looked + |s.done|) % NUM := h] == s.uring;
    }
    assert h in s.reqs && s.reqs[h].stage.Staged? && Lists(s'.reqs, [], Staged) by {
      ListPop(s.reqs, [h], Staged, Used);
      assert [h][1..] == [];
    }
    assert Lists(s'.reqs, s'.done, Used) by { ListPush(s.reqs, s.done, Used, h); }
    assert s'.uidx == (s.looked + |s'.done|) % WRAP by { StepWrap(s.looked + |s.done|); }
  }

  lemma StepWrap(x: nat)
    ensures Wrapped(x % WRAP) == (x + 1) % WRAP
  {
  }

  /** The interrupt handler sees the oldest completion: its status is good and its buffer is the request's. */
  lemma IntrHead(s: State)
    requires Inv(s) && s.looked != s.uidx
    ensures s.done != [] && s.uring[s.looked % NUM] == s.done[0] && s.done[0] in s.reqs && s.done[0] < NUM
    ensures s.reqs[s.done[0]].stage.Used? && s.info[s.done[0]] == Info(s.reqs[s.done[0]].b, 0)
  {
    assert UsedOk(s) && ReqsOk(s) by { assert UnfoldInv(0); }
    RingPop(s.uring, s.looked, s.done);
    ListPop(s.reqs, s.done, Used, Done);
    assert ReqAt(s, s.done[0]);
  }

  lemma IntrInv(s: State)
    requires Inv(s) && s.looked != s.uidx && s.uring[s.looked % NUM] < NUM
    ensures Inv(DoIntr(s))
  {
    var s' := DoIntr(s);
    IntrHead(s);
    var h := s.done[0];
    AvailOther(s, s', h, Done);
    StageKeeps(s, s', h, Done);
    IntrUsed(s, h);
    assert ReqsOk(s') by { IntrReqs(s, h); }
    assert s'.waiting != {} ==> FewerThanThree(s'.free) by { assert UnfoldInv(0); }
  }

  lemma IntrUsed(s: State, h: nat)
    requires Inv(s) && s.done != [] && h == s.done[0] && h < NUM && s.uring[s.looked % NUM] == h && h in s.reqs
    requires s.reqs[h].stage.Used?
    ensures UsedOk(DoIntr(s))
  {
    var s' := DoIntr(s);
    assert UsedOk(s) by { assert UnfoldInv(0); }
    assert Ring(s'.uring, s'.looked, s'.done) by { RingPop(s.uring, s.looked, s.done); }
    assert Lists(s'.reqs, s'.done, Used) by { ListPop(s.reqs, s.done, Used, Done); }
    assert Lists(s'.reqs, if s.staged then [s.uring[s.uidx % NUM]] else [], Staged) by {
      ListOther(s.reqs, if s.staged then [s.uring[s.uidx % NUM]] else [], Staged, h, Done);
    }
    StepMod(s.looked, |s.done| - 1);
  }

  lemma IntrReqs(s: State, h: nat)
    requires Inv(s) && h in s.reqs && h < NUM && s.uring[s.looked % NUM] == h && s.reqs[h].stage.Used?
    requires s.info[h].b == s.reqs[h].b
    ensures ReqsOk(DoIntr(s))
  {
    var s' := DoIntr(s);
    assert ReqsOk(s) && BuffersOk(s) by { assert UnfoldInv(0); }
    forall x | x in s'.reqs ensures ReqAt(s', x) { assert ReqAt(s, x); }
  }

  lemma HeadsInUse(s: State, d: nat)
    requires Inv(s) && d < NUM && s.free[d]
    ensures d !in s.reqs && s.own[d] == NUM
  {
    assert UnfoldInv(0);
    assert OwnAt(s, d);
    assert ReqAt(s, d);
  }

  lemma SubmitReqs(s: State, b: nat, op: Op, i0: nat, i1: nat, i2: nat)
    requires Inv(s) && Enabled(s, Submit(b, op, i0, i1, i2))
    ensures ReqsOk(DoSubmit(s, b, op, i0, i1, i2)) && i0 !in s.reqs
  {
    var s' := DoSubmit(s, b, op, i0, i1, i2);
    HeadsInUse(s, i0);
    HeadsInUse(s, i1);
    HeadsInUse(s, i2);
    assert ReqsOk(s) by { assert UnfoldInv(0); }
    forall x | x in s'.reqs ensures ReqAt(s', x) {
      if x != i0 { assert ReqAt(s, x); }
    }
  }

  lemma SubmitOwn(s: State, b: nat, op: Op, i0: nat, i1: nat, i2: nat)
    requires Inv(s) && Enabled(s, Submit(b, op, i0, i1, i2)) && i0 !in s.reqs
    ensures var s' := DoSubmit(s, b, op, i0, i1, i2); OwnOk(s') && BuffersOk(s')
  {
    var s' := DoSubmit(s, b, op, i0, i1, i2);
    assert OwnOk(s) && BuffersOk(s) by { assert UnfoldInv(0); }
    forall d | 0 <= d < NUM ensures OwnAt(s', d) { assert OwnAt(s, d); }
  }

  /** A third request would need a ninth descriptor, so the avail ring has room. */
  lemma QueueRoom(s: State, b: nat, op: Op, i0: nat, i1: nat, i2: nat)
    requires Inv(s) && Enabled(s, Submit(b, op, i0, i1, i2)) && ReqsOk(DoSubmit(s, b, op, i0, i1, i2)) && i0 !in s.reqs
    ensures |s.queue| < 2
  {
    var s' := DoSubmit(s, b, op, i0, i1, i2);
    assert AvailOk(s) by { assert UnfoldInv(0); }
    if |s.queue| == 2 {
      var (x, y) := (s.queue[0], s.queue[1]);
      assert x in s.reqs && y in s.reqs && x != y;
      assert ReqAt(s', x) && ReqAt(s', y) && ReqAt(s', i0);
      ThreeTooMany(s', x, y, i0);
    }
  }

  lemma SubmitAvail(s: State, b: nat, op: Op, i0: nat, i1: nat, i2: nat)
    requires Inv(s) && Enabled(s, Submit(b, op, i0, i1, i2)) && i0 !in s.reqs && |s.queue| < 2
    ensures AvailOk(DoSubmit(s, b, op, i0, i1, i2))
  {
    var s' := DoSubmit(s, b, op, i0, i1, i2);
    assert AvailOk(s) by { assert UnfoldInv(0); }
    assert Ring(s'.aring, s'.seen, s'.queue) by { WrapMod(s.seen + |s.queue|); RingPush(s.aring, s.seen, s.queue, i0); }
    assert Lists(s'.reqs, s'.queue, Queued) by { ListAdd(s.reqs, s.queue, Queued, i0, Req(i1, i2, b, op, Queued)); }
  }

  lemma SubmitUsed(s: State, b: nat, op: Op, i0: nat, i1: nat, i2: nat)
    requires Inv(s) && Enabled(s, Submit(b, op, i0, i1, i2)) && i0 !in s.reqs
    ensures UsedOk(DoSubmit(s, b, op, i0, i1, i2))
  {
    var r := Req(i1, i2, b, op, Queued);
    assert UsedOk(s) by { assert UnfoldInv(0); }
    ListAdd(s.reqs, s.done, Used, i0, r);
    ListAdd(s.reqs, if s.staged then [s.uring[s.uidx % NUM]] else [], Staged, i0, r);
  }

  lemma SubmitInv(s: State, b: nat, op: Op, i0: nat, i1: nat, i2: nat)
    requires Inv(s) && Enabled(s, Submit(b, op, i0, i1, i2))
    ensures Inv(DoSubmit(s, b, op, i0, i1, i2))
  {
    var s' := DoSubmit(s, b, op, i0, i1, i2);
    SubmitReqs(s, b, op, i0, i1, i2);
    SubmitOwn(s, b, op, i0, i1, i2);
    QueueRoom(s, b, op, i0, i1, i2);
    SubmitAvail(s, b, op, i0, i1, i2);
    SubmitUsed(s, b, op, i0, i1, i2);
    assert s'.waiting != {} ==> FewerThanThree(s'.free) by {
      assert s.waiting != {} ==> FewerThanThree(s.free) by { assert UnfoldInv(0); }
    }
  }

  lemma FinishOwn(s: State, h: nat)
    requires Inv(s) && h < NUM && h in s.reqs
    ensures OwnOk(DoFinish(s, h)) && BuffersOk(DoFinish(s, h))
  {
    var s' := DoFinish(s, h);
    assert OwnOk(s) && BuffersOk(s) && ReqAt(s, h) by { assert UnfoldInv(0); }
    forall d | 0 <= d < NUM ensures OwnAt(s', d) { assert OwnAt(s, d); }
  }

  lemma FinishReqs(s: State, h: nat)
    requires Inv(s) && h < NUM && h in s.reqs
    ensures ReqsOk(DoFinish(s, h))
  {
    var s' := DoFinish(s, h);
    assert ReqsOk(s) by { assert UnfoldInv(0); }
    assert ReqAt(s, h);
    forall x | x in s'.reqs ensures ReqAt(s', x) { assert ReqAt(s, x); }
  }

  lemma FinishInv(s: State, h: nat)
    requires Inv(s) && h < NUM && h in s.reqs && s.reqs[h].stage.Done?
    ensures Inv(DoFinish(s, h))
  {
    var s' := DoFinish(s, h);
    FinishOwn(s, h);
    FinishReqs(s, h);
    assert AvailOk(s') by { assert AvailOk(s) by { assert UnfoldInv(0); } ListRemove(s.reqs, s.queue, Queued, h); }
    assert UsedOk(s') by {
      assert UsedOk(s) by { assert UnfoldInv(0); }
      ListRemove(s.reqs, s.done, Used, h);
      ListRemove(s.reqs, if s.staged then [s.uring[s.uidx % NUM]] else [], Staged, h);
    }
  }

  lemma OtherInv(s: State, e: Event)
    requires Inv(s) && (e.Block? || e.Touch?) && Enabled(s, e)
    ensures Inv(Apply(s, e))
  {
    var s' := Apply(s, e);
    assert UnfoldInv(0);
    forall h | h in s'.reqs ensures ReqAt(s', h) { assert ReqAt(s, h); }
    forall d | 0 <= d < NUM ensures OwnAt(s', d) { assert OwnAt(s, d); }
  }

  lemma ApplyInv(s: State, e: Event)
    requires Inv(s) && Enabled(s, e)
    ensures Inv(Apply(s, e))
  {
    match e
    case Submit(b, op, i0, i1, i2) => SubmitInv(s, b, op, i0, i1, i2);
    case Publish => PublishInv(s);
    case Block(_) => OtherInv(s, e);
    case Fetch => FetchInv(s);
    case Serve(h) => ServeInv(s, h);
    case Announce => AnnounceInv(s);
    case Intr => IntrInv(s);
    case Finish(h) => FinishInv(s, h);
    case Touch(_, _) => OtherInv(s, e);
  }

  // Runs.

  /** The driver after initialisation, with any buffers and any disk. */
  function Start(data: map<nat, Block>, disk: map<nat, Block>): State {
    State(seq(NUM, _ => true), seq(NUM, _ => Desc(Null, false, false, 0)),
          seq(NUM, _ => Op(false, 0)), seq(NUM, _ => Info(0, 0)),
          seq(NUM, _ => 0), 0, seq(NUM, _ => 0), 0,
          0, 0, false, false,
          {}, {}, data, disk,
          map[], seq(NUM, _ => NUM), [], [])
  }

  /** The interleaving es leads from the start to s. */
  ghost predicate Runs(data: map<nat, Block>, disk: map<nat, Block>, es: seq<Event>, s: State)
    decreases |es|
  {
    forall u {:trigger UnfoldRuns(u)} :: UnfoldRuns(u) ==>
      if es == [] then s == Start(data, disk)
      else
        var e := es[|es| - 1];
        exists s0: State :: Runs(data, disk, es[..|es| - 1], s0) && Sizes(s0) && Enabled(s0, e) && s == Apply(s0, e)
  }

  lemma {:induction false} RunsInv(data: map<nat, Block>, disk: map<nat, Block>, es: seq<Event>, s: State)
    requires Runs(data, disk, es, s)
    ensures Inv(s)
    decreases |es|
  {
    assert UnfoldRuns(0);
    if es != [] {
      var e := es[|es| - 1];
      var s0: State :| Runs(data, disk, es[..|es| - 1], s0) && Sizes(s0) && Enabled(s0, e) && s == Apply(s0, e);
      RunsInv(data, disk, es[..|es| - 1], s0);
      ApplyInv(s0, e);
    }
  }

  lemma TriplesDisjoint(s: State, h: nat, h': nat)
    requires Inv(s) && h in s.reqs && h' in s.reqs && h != h'
    ensures |Triple(s, h)| == 3 && Triple(s, h) !! Triple(s, h')
  {
    assert ReqAt(s, h) && ReqAt(s, h') by { assert UnfoldInv(0); }
  }

  lemma TriplesCover(s: State, d: nat)
    requires Inv(s) && d < NUM
    ensures !s.free[d] <==> exists h :: h in s.reqs && d in Triple(s, h)
  {
    assert ReqsOk(s) && OwnAt(s, d) by { assert UnfoldInv(0); }
    if !s.free[d] {
      assert s.own[d] in s.reqs && d in Triple(s, s.own[d]);
    } else {
      forall h | h in s.reqs ensures d !in Triple(s, h) { assert ReqAt(s, h); }
    }
  }

  /** In every run the outstanding requests are disjoint triples of descriptors, together exactly the descriptors that
      are not free, and at most NUM / 3 of them. */
  lemma Outstanding(data: map<nat, Block>, disk: map<nat, Block>, es: seq<Event>, s: State)
    requires Runs(data, disk, es, s)
    ensures Sizes(s) && |s.reqs| <= NUM / 3
    ensures forall h, h' :: h in s.reqs && h' in s.reqs && h != h' ==>
              |Triple(s, h)| == 3 && Triple(s, h) !! Triple(s, h')
    ensures forall d: nat :: d < NUM ==> (!s.free[d] <==> exists h :: h in s.reqs && d in Triple(s, h))
  {
    RunsInv(data, disk, es, s);
    forall h, h' | h in s.reqs && h' in s.reqs && h != h' ensures |Triple(s, h)| == 3 && Triple(s, h) !! Triple(s, h') {
      TriplesDisjoint(s, h, h');
    }
    forall d: nat | d < NUM ensures !s.free[d] <==> exists h :: h in s.reqs && d in Triple(s, h) {
      TriplesCover(s, d);
    }
    assert ReqsOk(s) by { assert UnfoldInv(0); }
    AtMostTwo(s);
  }

  lemma AtMostTwo(s: State)
    requires Sizes(s) && ReqsOk(s)
    ensures |s.reqs| <= 2
  {
    var k := s.reqs.Keys;
    if |k| > 2 {
      var a :| a in k;
      var b :| b in k - {a};
      var c :| c in k - {a, b};
      assert |k - {a}| == |k| - 1 && |k - {a, b}| == |k - {a} - {b}| == |k| - 2 by {
        assert k - {a, b} == k - {a} - {b};
      }
      assert ReqAt(s, a) && ReqAt(s, b) && ReqAt(s, c);
      ThreeTooMany(s, a, b, c);
    }
  }

  lemma IndexTells(x: nat, n: nat)
    requires x < WRAP && n < NUM
    ensures x != (x + n) % WRAP <==> n > 0
  {
  }

  /** In every run, comparing 16-bit indices tells exactly whether there is something in a ring, and it is then the
      oldest entry. */
  lemma RingsSurviveWrap(data: map<nat, Block>, disk: map<nat, Block>, es: seq<Event>, s: State)
    requires Runs(data, disk, es, s)
    ensures Sizes(s)
    ensures s.seen != s.aidx <==> |s.queue| > if s.pub then 1 else 0
    ensures s.seen != s.aidx ==> s.aring[s.seen % NUM] == s.queue[0]
    ensures s.looked != s.uidx <==> s.done != []
    ensures s.looked != s.uidx ==> s.uring[s.looked % NUM] == s.done[0]
  {
    RunsInv(data, disk, es, s);
    assert s.seen != s.aidx <==> |s.queue| > if s.pub then 1 else 0 by {
      assert AvailOk(s) by { assert UnfoldInv(0); }
      IndexTells(s.seen, |s.queue| - if s.pub then 1 else 0);
    }
    assert s.looked != s.uidx <==> s.done != [] by {
      assert UsedOk(s) by { assert UnfoldInv(0); }
      IndexTells(s.looked, |s.done|);
    }
    if s.seen != s.aidx { FetchHead(s); }
    if s.looked != s.uidx { IntrHead(s); }
  }

  /** In every run the device does for a request what was asked, to its own buffer and block, and nothing else. */
  lemma ServesOwnRequest(data: map<nat, Block>, disk: map<nat, Block>, es: seq<Event>, s: State, h: nat)
    requires Runs(data, disk, es, s) && Sizes(s) && Enabled(s, Serve(h))
    ensures var (r, s') := (s.reqs[h], Apply(s, Serve(h)));
            && r.b in s.data && r.op.blockno in s.disk
            && s'.disk == (if r.op.write then s.disk[r.op.blockno := s.data[r.b]] else s.disk)
            && s'.data == (if r.op.write then s.data else s.data[r.b := s.disk[r.op.blockno]])
  {
    RunsInv(data, disk, es, s);
    FoundOwn(s, h);
  }

  /** In every run the interrupt handler meets only good statuses, and releases the buffer of the request it
      handles, which was waiting for it, and no other. */
  lemma CompletesOwnBuffer(data: map<nat, Block>, disk: map<nat, Block>, es: seq<Event>, s: State)
    requires Runs(data, disk, es, s) && Sizes(s) && Enabled(s, Intr)
    ensures var h := s.uring[s.looked % NUM];
            && h in s.reqs && s.reqs[h].stage.Used? && s.info[h].status == 0
            && s.reqs[h].b in s.busy && Apply(s, Intr).busy == s.busy - {s.reqs[h].b}
            && Apply(s, Intr).reqs == Restage(s.reqs, h, Done)
  {
    RunsInv(data, disk, es, s);
    IntrHead(s);
    assert ReqAt(s, s.done[0]) by { assert UnfoldInv(0); }
  }

  function Rank(stage: Stage): nat {
    match stage
    case Queued => 0
    case Working => 1
    case Staged => 2
    case Used => 3
    case Done => 4
  }

  /** Requests are the same, or the stage of one has moved on by one. */
  predicate MovesOn(reqs: map<nat, Req>, reqs': map<nat, Req>, h: nat)
    requires h in reqs
  {
    && h in reqs' && reqs'[h].(stage := reqs[h].stage) == reqs[h]
    && (Rank(reqs'[h].stage) == Rank(reqs[h].stage) || Rank(reqs'[h].stage) == Rank(reqs[h].stage) + 1)
  }

  lemma DeviceMoves(s: State, e: Event, h: nat)
    requires Inv(s) && Enabled(s, e) && (e.Fetch? || e.Serve? || e.Announce?) && h in s.reqs
    ensures MovesOn(s.reqs, Apply(s, e).reqs, h)
  {
    if e.Fetch? {
      FetchHead(s);
    } else if e.Announce? {
      assert Lists(s.reqs, [s.uring[s.uidx % NUM]], Staged) by { assert UnfoldInv(0); }
      ListPop(s.reqs, [s.uring[s.uidx % NUM]], Staged, Used);
    }
  }

  lemma DriverMoves(s: State, e: Event, h: nat)
    requires Inv(s) && Enabled(s, e) && !(e.Fetch? || e.Serve? || e.Announce?) && h in s.reqs && e != Finish(h)
    ensures MovesOn(s.reqs, Apply(s, e).reqs, h)
  {
    if e.Submit? {
      HeadsInUse(s, e.i0);
    } else if e.Intr? {
      IntrHead(s);
    }
  }

  /** In every run, every step leaves a request where it is or moves it one stage on, and only a completed one
      goes away; so each is announced once and completed once.  That the device serves a request it has fetched only
      once is what Serve assumes of it. */
  lemma OneStageAtATime(data: map<nat, Block>, disk: map<nat, Block>, es: seq<Event>, s: State, e: Event, h: nat)
    requires Runs(data, disk, es, s) && Sizes(s) && Enabled(s, e) && h in s.reqs
    ensures e == Finish(h) ==> s.reqs[h].stage.Done? && h !in Apply(s, e).reqs
    ensures e != Finish(h) ==> MovesOn(s.reqs, Apply(s, e).reqs, h)
  {
    RunsInv(data, disk, es, s);
    if e.Fetch? || e.Serve? || e.Announce? {
      DeviceMoves(s, e, h);
    } else if e != Finish(h) {
      DriverMoves(s, e, h);
    }
  }

  /** In every run, the links of an outstanding request are the chain that free_chain expects. */
  lemma ChainOfRequest(data: map<nat, Block>, disk: map<nat, Block>, es: seq<Event>, s: State, h: nat)
    requires Runs(data, disk, es, s) && Sizes(s) && h in s.reqs
    ensures IsChain(s.free, s.desc, h, [h, s.reqs[h].i1, s.reqs[h].i2])
  {
    RunsInv(data, disk, es, s);
    assert ReqAt(s, h) && OwnOk(s) by { assert UnfoldInv(0); }
    var r := s.reqs[h];
    assert OwnAt(s, h) && OwnAt(s, r.i1) && OwnAt(s, r.i2);
  }

  /** In every run, whoever sleeps for descriptors has reason to. */
  lemma NoIdleWaiter(data: map<nat, Block>, disk: map<nat, Block>, es: seq<Event>, s: State)
    requires Runs(data, disk, es, s) && s.waiting != {}
    ensures FewerThanThree(s.free)
  {
    RunsInv(data, disk, es, s);
    assert UnfoldInv(0);
  }
}
