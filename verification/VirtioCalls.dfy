/**
 What a whole call of virtio_disk_rw (kernel/virtio_disk.c) does, in every run of VirtioProtocol: the device
 transfers once between the buffer and the block that the call names, in the direction it names.
 */
module VirtioCalls {
  import opened Blocks
  import opened Virtio
  import opened VirtioProtocol

  /** After sub, and through the events fs, the call has not returned. */
  ghost predicate Carries(s: State, sub: Event, fs: seq<Event>, u: State)
    decreases |fs|
  {
    && sub.Submit?
    && if fs == [] then Sizes(s) && Enabled(s, sub) && u == Apply(s, sub)
       else
         var e := fs[|fs| - 1];
         exists t: State :: Carries(s, sub, fs[..|fs| - 1], t) && Goes(t, e, u) && e != Finish(sub.i0)
  }

  predicate Goes(t: State, e: Event, u: State) {
    Sizes(t) && Enabled(t, e) && u == Apply(t, e)
  }

  /** How often the device has served request h. */
  function Served(fs: seq<Event>, h: nat): nat {
    if fs == [] then 0 else Served(fs[..|fs| - 1], h) + if fs[|fs| - 1] == Serve(h) then 1 else 0
  }

  /** v is a moment of the call. */
  ghost predicate Within(s: State, sub: Event, fs: seq<Event>, v: State) {
    exists k :: 0 <= k <= |fs| && Carries(s, sub, fs[..k], v)
  }

  /** What the request is when it has got to u; v is when it was served, if it has been. */
  ghost predicate Carried(s: State, sub: Event, fs: seq<Event>, v: State, u: State) {
    && sub.Submit? && sub.b in s.data && sub.i0 in u.reqs
    && var (r, h) := (u.reqs[sub.i0], sub.i0);
    && r.b == sub.b && r.op == sub.op && r.b in u.data
    && if r.stage.Queued? || r.stage.Working? then Served(fs, h) == 0 && u.data[r.b] == s.data[r.b]
       else
         && Served(fs, h) == 1 && Within(s, sub, fs, v) && Sizes(v) && Enabled(v, Serve(h))
         && r.b in v.data && v.data[r.b] == s.data[r.b] && r.op.blockno in v.disk
         && Apply(v, Serve(h)).disk == (if r.op.write then v.disk[r.op.blockno := s.data[r.b]] else v.disk)
         && (!r.stage.Done? ==> u.data[r.b] == if r.op.write then s.data[r.b] else v.disk[r.op.blockno])
  }

  lemma SubmitCarried(s: State, sub: Event)
    requires Inv(s) && sub.Submit? && Enabled(s, sub)
    ensures Carried(s, sub, [], s, Apply(s, sub))
  {
  }

  /** A buffer in flight changes only when its own request is served. */
  lemma BufferStays(t: State, e: Event, h: nat)
    requires Inv(t) && Enabled(t, e) && h in t.reqs && !t.reqs[h].stage.Done? && e != Serve(h)
    ensures t.reqs[h].b in t.data && t.reqs[h].b in Apply(t, e).data
    ensures Apply(t, e).data[t.reqs[h].b] == t.data[t.reqs[h].b]
  {
    assert ReqAt(t, h) && BuffersOk(t) by { assert UnfoldInv(0); }
    if e.Serve? {
      FoundOwn(t, e.h);
      assert ReqAt(t, e.h) by { assert UnfoldInv(0); }
    }
  }

  lemma Moves(t: State, e: Event, h: nat)
    requires Inv(t) && Enabled(t, e) && h in t.reqs && e != Finish(h)
    ensures MovesOn(t.reqs, Apply(t, e).reqs, h)
  {
    if e.Fetch? || e.Serve? || e.Announce? { DeviceMoves(t, e, h); } else { DriverMoves(t, e, h); }
  }

  /** Only the device's own step takes a request past Working. */
  lemma ServedNow(t: State, h: nat)
    requires Inv(t) && Enabled(t, Serve(h))
    ensures h in t.reqs && t.reqs[h].stage.Working?
    ensures h in Apply(t, Serve(h)).reqs && Apply(t, Serve(h)).reqs[h].stage.Staged?
  {
  }

  lemma FetchStays(t: State, h: nat)
    requires Inv(t) && Enabled(t, Fetch) && h in t.reqs && t.reqs[h].stage.Working?
    ensures h in Apply(t, Fetch).reqs && Apply(t, Fetch).reqs[h].stage.Working?
  {
    FetchHead(t);
    assert Lists(t.reqs, t.queue, Queued) by { assert AvailOk(t) by { assert UnfoldInv(0); } }
  }

  lemma AnnounceStays(t: State, h: nat)
    requires Inv(t) && Enabled(t, Announce) && h in t.reqs && t.reqs[h].stage.Working?
    ensures h in Apply(t, Announce).reqs && Apply(t, Announce).reqs[h].stage.Working?
  {
    assert Lists(t.reqs, [t.uring[t.uidx % NUM]], Staged) by { assert UnfoldInv(0); }
    assert t.uring[t.uidx % NUM] in [t.uring[t.uidx % NUM]];
  }

  lemma IntrStays(t: State, h: nat)
    requires Inv(t) && Enabled(t, Intr) && h in t.reqs && t.reqs[h].stage.Working?
    ensures h in Apply(t, Intr).reqs && Apply(t, Intr).reqs[h].stage.Working?
  {
    IntrHead(t);
  }

  lemma StaysWorking(t: State, e: Event, h: nat)
    requires Inv(t) && Enabled(t, e) && h in t.reqs && e != Finish(h) && e != Serve(h) && t.reqs[h].stage.Working?
    ensures h in Apply(t, e).reqs && Apply(t, e).reqs[h].stage.Working?
  {
    if e.Fetch? {
      FetchStays(t, h);
    } else if e.Announce? {
      AnnounceStays(t, h);
    } else if e.Intr? {
      IntrStays(t, h);
    } else {
      Moves(t, e, h);
    }
  }

  predicate Unserved(r: Req) { r.stage.Queued? || r.stage.Working? }

  /** As far as request h is concerned, nothing has been transferred. */
  predicate Same(t: State, h: nat, u: State) {
    && h in t.reqs && h in u.reqs
    && var (r, r') := (t.reqs[h], u.reqs[h]);
    && r'.b == r.b && r'.op == r.op && (Unserved(r') <==> Unserved(r)) && (r.stage.Done? ==> r'.stage.Done?)
    && (r.b in t.data ==> r.b in u.data && (!r.stage.Done? ==> u.data[r.b] == t.data[r.b]))
  }

  lemma OtherSame(t: State, e: Event, h: nat, u: State)
    requires Inv(t) && Goes(t, e, u) && h in t.reqs && e != Serve(h) && e != Finish(h)
    ensures Same(t, h, u)
  {
    Moves(t, e, h);
    if t.reqs[h].stage.Working? { StaysWorking(t, e, h); }
    if !t.reqs[h].stage.Done? { BufferStays(t, e, h); }
    if t.reqs[h].b in t.data { DataKept(t, e, t.reqs[h].b); }
  }

  lemma WithinLonger(s: State, sub: Event, fs: seq<Event>, v: State)
    requires fs != [] && Within(s, sub, fs[..|fs| - 1], v)
    ensures Within(s, sub, fs, v)
  {
    var gs := fs[..|fs| - 1];
    var k :| 0 <= k <= |gs| && Carries(s, sub, gs[..k], v);
    assert gs[..k] == fs[..k];
  }

  lemma ServeCarried(s: State, sub: Event, fs: seq<Event>, v: State, t: State, u: State)
    requires fs != [] && Inv(t) && Carries(s, sub, fs[..|fs| - 1], t) && Carried(s, sub, fs[..|fs| - 1], v, t)
    requires fs[|fs| - 1] == Serve(sub.i0) && Goes(t, Serve(sub.i0), u)
    ensures Carried(s, sub, fs, t, u)
  {
    var h := sub.i0;
    FoundOwn(t, h);
    ServedNow(t, h);
    var gs := fs[..|fs| - 1];
    assert gs[..|gs|] == gs;
    assert Within(s, sub, gs, t);
    WithinLonger(s, sub, fs, t);
  }

  lemma OtherCarried(s: State, sub: Event, fs: seq<Event>, v: State, t: State, u: State)
    requires fs != [] && Carried(s, sub, fs[..|fs| - 1], v, t)
    requires fs[|fs| - 1] != Serve(sub.i0) && Same(t, sub.i0, u)
    ensures Carried(s, sub, fs, v, u)
  {
    if Within(s, sub, fs[..|fs| - 1], v) { WithinLonger(s, sub, fs, v); }
  }

  lemma DataKept(t: State, e: Event, b: nat)
    requires Sizes(t) && Enabled(t, e) && b in t.data
    ensures b in Apply(t, e).data
  {
  }

  lemma {:induction false} RequestCarried(s: State, sub: Event, fs: seq<Event>, u: State) returns (v: State)
    requires Inv(s) && Carries(s, sub, fs, u)
    ensures Inv(u) && Carried(s, sub, fs, v, u)
    decreases |fs|
  {
    if fs == [] {
      SubmitCarried(s, sub);
      ApplyInv(s, sub);
      v := s;
    } else {
      var e := fs[|fs| - 1];
      var t: State :| Carries(s, sub, fs[..|fs| - 1], t) && Goes(t, e, u) && e != Finish(sub.i0);
      v := RequestCarried(s, sub, fs[..|fs| - 1], t);
      ApplyInv(t, e);
      if e == Serve(sub.i0) {
        ServeCarried(s, sub, fs, v, t, u);
        v := t;
      } else {
        OtherSame(t, e, sub.i0, u);
        OtherCarried(s, sub, fs, v, t, u);
      }
    }
  }

  /** In every run, from the submission of a request to the end of its call: it stays the request that was made; once
      it has left the device it has been served just once, at a moment v of the call, and then a write has put the
      buffer, as it was submitted, into its block, and a read has the block as it was at v in its buffer. */
  lemma RequestServed(data: map<nat, Block>, disk: map<nat, Block>, es: seq<Event>, s: State,
                      sub: Event, fs: seq<Event>, u: State)
    returns (v: State)
    requires Runs(data, disk, es, s) && Carries(s, sub, fs, u)
    ensures Carried(s, sub, fs, v, u)
  {
    RunsInv(data, disk, es, s);
    v := RequestCarried(s, sub, fs, u);
  }

  // A call that nobody disturbs.

  lemma RunsMore(data: map<nat, Block>, disk: map<nat, Block>, es: seq<Event>, s: State, e: Event, t: State)
    requires Runs(data, disk, es, s) && Goes(s, e, t)
    ensures Runs(data, disk, es + [e], t)
  {
    assert (es + [e])[..|es|] == es;
  }

  /** Request h is the only one in the rings, and has come to this stage. */
  predicate Lone(s: State, h: nat, stage: Stage, queue: seq<nat>, done: seq<nat>) {
    s.queue == queue && s.done == done && h in s.reqs && s.reqs[h].stage == stage && !s.pub && h < NUM
  }

  predicate SameBut(s: State, s': State, h: nat)
    requires h in s.reqs
  {
    && s'.free == s.free && s'.busy == s.busy && h in s'.reqs && s'.reqs - {h} == s.reqs - {h}
    && s'.reqs[h].(stage := s.reqs[h].stage) == s.reqs[h]
  }

  lemma SubmitStep(s: State, b: nat, op: Op, h: nat, i1: nat, i2: nat) returns (t: State)
    requires Inv(s) && Enabled(s, Submit(b, op, h, i1, i2)) && s.queue == [] && s.done == [] && !s.staged
    ensures Goes(s, Submit(b, op, h, i1, i2), t) && Inv(t) && t.queue == [h] && t.done == [] && t.pub && !t.staged
    ensures t.reqs == s.reqs[h := Req(i1, i2, b, op, Queued)] && h !in s.reqs && t.data == s.data && t.disk == s.disk
    ensures t.busy == s.busy + {b} && t.free == s.free[h := false][i1 := false][i2 := false]
  {
    SubmitReqs(s, b, op, h, i1, i2);
    t := Apply(s, Submit(b, op, h, i1, i2));
    ApplyInv(s, Submit(b, op, h, i1, i2));
  }

  lemma PublishStep(s: State, h: nat) returns (t: State)
    requires Inv(s) && s.pub && s.queue == [h] && s.done == [] && !s.staged && h in s.reqs && s.reqs[h].stage.Queued?
    ensures Goes(s, Publish, t) && Inv(t) && Lone(t, h, Queued, [h], []) && !t.staged && SameBut(s, t, h)
    ensures t.data == s.data && t.disk == s.disk
  {
    t := Apply(s, Publish);
    ApplyInv(s, Publish);
    assert ReqAt(s, h) by { assert UnfoldInv(0); }
  }

  lemma FetchStep(s: State, h: nat) returns (t: State)
    requires Inv(s) && Lone(s, h, Queued, [h], []) && !s.staged
    ensures Goes(s, Fetch, t) && Inv(t) && Lone(t, h, Working, [], []) && !t.staged && SameBut(s, t, h)
    ensures t.data == s.data && t.disk == s.disk
  {
    assert AvailOk(s) by { assert UnfoldInv(0); }
    IndexTells(s.seen, 1);
    FetchHead(s);
    t := Apply(s, Fetch);
    ApplyInv(s, Fetch);
  }

  lemma ServeStep(s: State, h: nat) returns (t: State)
    requires Inv(s) && Lone(s, h, Working, [], []) && !s.staged
    ensures Goes(s, Serve(h), t) && Inv(t) && Lone(t, h, Staged, [], []) && t.staged && SameBut(s, t, h)
    ensures s.reqs[h].b in s.data && s.reqs[h].op.blockno in s.disk && t.uring[t.uidx % NUM] == h
    ensures var r := s.reqs[h];
            && t.disk == (if r.op.write then s.disk[r.op.blockno := s.data[r.b]] else s.disk)
            && t.data == (if r.op.write then s.data else s.data[r.b := s.disk[r.op.blockno]])
  {
    FoundOwn(s, h);
    t := Apply(s, Serve(h));
    ApplyInv(s, Serve(h));
  }

  lemma AnnounceStep(s: State, h: nat) returns (t: State)
    requires Inv(s) && Lone(s, h, Staged, [], []) && s.staged && s.uring[s.uidx % NUM] == h
    ensures Goes(s, Announce, t) && Inv(t) && Lone(t, h, Used, [], [h]) && SameBut(s, t, h)
    ensures t.data == s.data && t.disk == s.disk
  {
    t := Apply(s, Announce);
    ApplyInv(s, Announce);
  }

  lemma IntrStep(s: State, h: nat) returns (t: State)
    requires Inv(s) && Lone(s, h, Used, [], [h])
    ensures Goes(s, Intr, t) && Inv(t) && Lone(t, h, Done, [], [])
    ensures t.free == s.free && t.busy == s.busy - {s.reqs[h].b} && t.data == s.data && t.disk == s.disk
    ensures t.reqs == s.reqs[h := s.reqs[h].(stage := Done)]
  {
    assert UsedOk(s) by { assert UnfoldInv(0); }
    IndexTells(s.looked, 1);
    IntrHead(s);
    t := Apply(s, Intr);
    ApplyInv(s, Intr);
  }

  lemma FinishStep(s: State, h: nat) returns (t: State)
    requires Inv(s) && Lone(s, h, Done, [], [])
    ensures Goes(s, Finish(h), t) && t.reqs == s.reqs - {h} && t.busy == s.busy && t.data == s.data && t.disk == s.disk
    ensures Sizes(s) && s.reqs[h].i1 < NUM && s.reqs[h].i2 < NUM
    ensures t.free == s.free[h := true][s.reqs[h].i1 := true][s.reqs[h].i2 := true]
  {
    assert ReqAt(s, h) by { assert UnfoldInv(0); }
    t := Apply(s, Finish(h));
  }

  /** The events of a call that is left alone with the device. */
  function CallEvents(b: nat, op: Op, h: nat, i1: nat, i2: nat): seq<Event> {
    [Submit(b, op, h, i1, i2)] + [Publish] + [Fetch] + [Serve(h)] + [Announce] + [Intr] + [Finish(h)]
  }

  lemma DeviceAlone(data: map<nat, Block>, disk: map<nat, Block>, es: seq<Event>, s: State, h: nat) returns (t: State)
    requires Runs(data, disk, es, s) && Inv(s) && Lone(s, h, Queued, [h], []) && !s.staged
    ensures Runs(data, disk, es + [Fetch] + [Serve(h)] + [Announce], t) && Inv(t) && Lone(t, h, Used, [], [h])
    ensures SameBut(s, t, h) && s.reqs[h].b in s.data && s.reqs[h].op.blockno in s.disk
    ensures var r := s.reqs[h];
            && t.disk == (if r.op.write then s.disk[r.op.blockno := s.data[r.b]] else s.disk)
            && t.data == (if r.op.write then s.data else s.data[r.b := s.disk[r.op.blockno]])
  {
    var s1 := FetchStep(s, h);
    RunsMore(data, disk, es, s, Fetch, s1);
    var s2 := ServeStep(s1, h);
    RunsMore(data, disk, es + [Fetch], s1, Serve(h), s2);
    t := AnnounceStep(s2, h);
    RunsMore(data, disk, es + [Fetch] + [Serve(h)], s2, Announce, t);
  }

  lemma EndAlone(data: map<nat, Block>, disk: map<nat, Block>, es: seq<Event>, s: State, h: nat) returns (u: State)
    requires Runs(data, disk, es, s) && Inv(s) && Lone(s, h, Used, [], [h])
    ensures Runs(data, disk, es + [Intr] + [Finish(h)], u) && u.reqs == s.reqs - {h} && u.busy == s.busy - {s.reqs[h].b}
    ensures u.data == s.data && u.disk == s.disk && Sizes(s) && s.reqs[h].i1 < NUM && s.reqs[h].i2 < NUM
    ensures u.free == s.free[h := true][s.reqs[h].i1 := true][s.reqs[h].i2 := true]
  {
    var s1 := IntrStep(s, h);
    RunsMore(data, disk, es, s, Intr, s1);
    u := FinishStep(s1, h);
    RunsMore(data, disk, es + [Intr], s1, Finish(h), u);
  }

  /** In every run, if nothing else is in the rings, a call of virtio_disk_rw that is left alone with the device goes
      through, has transferred between its buffer and its block, and leaves the driver as it was. */
  lemma RequestAlone(data: map<nat, Block>, disk: map<nat, Block>, es: seq<Event>, s: State,
                     b: nat, op: Op, h: nat, i1: nat, i2: nat)
    returns (u: State)
    requires Runs(data, disk, es, s) && Sizes(s) && s.queue == [] && s.done == [] && !s.staged && !s.pub
    requires b in s.data && b !in s.busy && op.blockno in s.disk && FirstThree(s.free, h, i1, i2)
    requires forall r :: r in s.reqs ==> s.reqs[r].b != b
    ensures Runs(data, disk, es + CallEvents(b, op, h, i1, i2), u)
    ensures u.free == s.free && u.busy == s.busy && u.reqs == s.reqs
    ensures u.disk == (if op.write then s.disk[op.blockno := s.data[b]] else s.disk)
    ensures u.data == (if op.write then s.data else s.data[b := s.disk[op.blockno]])
  {
    RunsInv(data, disk, es, s);
    var e := Submit(b, op, h, i1, i2);
    var s1 := SubmitStep(s, b, op, h, i1, i2);
    RunsMore(data, disk, es, s, e, s1);
    var s2 := PublishStep(s1, h);
    RunsMore(data, disk, es + [e], s1, Publish, s2);
    var s3 := DeviceAlone(data, disk, es + [e] + [Publish], s2, h);
    u := EndAlone(data, disk, es + [e] + [Publish] + [Fetch] + [Serve(h)] + [Announce], s3, h);
    assert es + [e] + [Publish] + [Fetch] + [Serve(h)] + [Announce] + [Intr] + [Finish(h)]
        == es + CallEvents(b, op, h, i1, i2);
    Restored(s, s3, u, h, i1, i2);
  }

  lemma Restored(s: State, t: State, u: State, h: nat, i1: nat, i2: nat)
    requires Sizes(s) && FirstThree(s.free, h, i1, i2) && t.free == s.free[h := false][i1 := false][i2 := false]
    requires u.free == t.free[h := true][i1 := true][i2 := true]
    ensures u.free == s.free
  {
  }

  // Waiting for descriptors.

  /** Process p has gone to sleep for descriptors; since then nothing has been freed, and no other call has lacked
      descriptors. */
  predicate Undisturbed(es: seq<Event>, p: nat) {
    es != [] && var e := es[|es| - 1]; e == Block(p) || (!e.Finish? && !e.Block? && Undisturbed(es[..|es| - 1], p))
  }

  lemma {:induction false} AtLeast(x: set<nat>, n: nat)
    requires forall d: nat :: d < n ==> d in x
    ensures n <= |x|
  {
    if n > 0 { AtLeast(x - {n - 1}, n - 1); }
  }

  lemma Three(s: State, h: nat)
    requires h in s.reqs
    ensures |Triple(s, h)| <= 3
  {
  }

  lemma TwoTriples(s: State) returns (x: set<nat>)
    requires |s.reqs| <= 2
    ensures |x| <= 6 && forall h :: h in s.reqs ==> Triple(s, h) <= x
  {
    x := {};
    if a :| a in s.reqs {
      x := Triple(s, a);
      Three(s, a);
      if b :| b in s.reqs && b != a {
        OnlyTwo(s, a, b);
        Three(s, b);
        x := Triple(s, a) + Triple(s, b);
      }
    }
  }

  /** The descriptors in use. */
  lemma InUse(s: State) returns (x: set<nat>)
    requires Inv(s)
    ensures |x| <= 6 && forall d: nat :: d < NUM && !s.free[d] ==> d in x
  {
    assert ReqsOk(s) by { assert UnfoldInv(0); }
    AtMostTwo(s);
    x := TwoTriples(s);
    forall d: nat | d < NUM && !s.free[d] ensures d in x { TriplesCover(s, d); }
  }

  /** Two requests leave descriptors free. */
  lemma SomeFree(s: State)
    requires Inv(s)
    ensures exists d :: 0 <= d < NUM && s.free[d]
  {
    var x := InUse(s);
    if forall d: nat :: d < NUM ==> d in x { AtLeast(x, NUM); }
  }

  lemma OnlyTwo(s: State, a: nat, b: nat)
    requires |s.reqs| <= 2 && a in s.reqs && b in s.reqs && a != b
    ensures s.reqs.Keys == {a, b}
  {
    SubsetSize({a, b}, s.reqs.Keys);
    if c :| c in s.reqs && c != a && c != b { SubsetSize({a, b, c}, s.reqs.Keys); }
  }

  /** In every run, a process sleeps for descriptors exactly if it has gone to sleep, and since then none have been
      freed and no other call has lacked any: that call gives back those it has got, and so wakes the others. */
  lemma {:induction false} SleepersAsleep(data: map<nat, Block>, disk: map<nat, Block>, es: seq<Event>, s: State,
                                          p: nat)
    requires Runs(data, disk, es, s)
    ensures p in s.waiting <==> Undisturbed(es, p)
    decreases |es|
  {
    assert UnfoldRuns(0);
    if es != [] {
      var (e, es0) := (es[|es| - 1], es[..|es| - 1]);
      var s0: State :| Runs(data, disk, es0, s0) && Sizes(s0) && Enabled(s0, e) && s == Apply(s0, e);
      SleepersAsleep(data, disk, es0, s0, p);
      RunsInv(data, disk, es0, s0);
      SomeFree(s0);
      WaitingStep(s0, e, s, p);
    }
  }

  lemma WaitingStep(s: State, e: Event, s': State, p: nat)
    requires Sizes(s) && Enabled(s, e) && s' == Apply(s, e) && exists d :: 0 <= d < NUM && s.free[d]
    ensures e.Block? ==> s'.waiting == {e.p}
    ensures e.Finish? ==> p !in s'.waiting
    ensures !e.Block? && !e.Finish? ==> (p in s'.waiting <==> p in s.waiting)
  {
  }
}
