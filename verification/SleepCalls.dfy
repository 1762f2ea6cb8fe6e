/**
 What whole calls of acquiresleep and releasesleep (kernel/sleeplock.c) do when nobody gets in between, from
 any state that a run of SleepLock can reach.
 */
module SleepCalls {
  import opened Cpus
  import opened SleepLock

  /** The events are steps of process i. */
  predicate Own(fs: seq<Event>, i: nat) {
    forall k :: 0 <= k < |fs| ==> fs[k].Step? && fs[k].i == i
  }

  predicate UnfoldAlong(u: int) { true }

  /** After the run es, steps of process i alone lead to s. */
  ghost predicate Along(n: nat, m: nat, es: seq<Event>, i: nat, fs: seq<Event>, s: State) {
    forall u {:trigger UnfoldAlong(u)} :: UnfoldAlong(u) ==> Own(fs, i) && Runs(n, m, es + fs, s)
  }

  lemma Begin(n: nat, m: nat, es: seq<Event>, i: nat, s: State)
    requires Runs(n, m, es, s)
    ensures Along(n, m, es, i, [], s)
  {
    assert es + [] == es;
  }

  lemma RunsSnoc(n: nat, m: nat, es: seq<Event>, s: State, e: Event)
    requires Runs(n, m, es, s) && Shape(s) && Enabled(s, e)
    ensures Runs(n, m, es + [e], Apply(s, e))
  {
    assert (es + [e])[..|es|] == es;
  }

  /** One more step. */
  lemma Go(n: nat, m: nat, es: seq<Event>, i: nat, fs: seq<Event>, s: State, choice: Choice)
    returns (gs: seq<Event>, t: State)
    requires Along(n, m, es, i, fs, s) && Inv(s) && i < |s.pc| && !s.pc[i].Away? && CanStep(s, i, choice)
    ensures Along(n, m, es, i, gs, t) && Inv(t) && s.at[i] < |s.cpu| && t == Do(s, i, Next(s, i, choice))
  {
    OnCpu(s, i);
    t := Apply(s, Step(i, choice));
    ApplyInv(s, Step(i, choice));
    gs := fs + [Step(i, choice)];
    assert UnfoldAlong(0);
    RunsSnoc(n, m, es + fs, s, Step(i, choice));
    assert es + fs + [Step(i, choice)] == es + gs;
  }

  lemma OnCpu(s: State, i: nat)
    requires Inv(s) && i < |s.pc| && !s.pc[i].Away?
    ensures s.at[i] < |s.cpu| && s.cpu[s.at[i]] == On(i)
  {
    assert CpusOk(s) by { assert UnfoldInv(0); }
  }

  /** Other processes are as they were. */
  predicate OthersSame(s: State, t: State, i: nat)
    requires Shape(s) && Shape(t)
  {
    |t.pc| == |s.pc| && forall j :: 0 <= j < |s.pc| && j != i ==>
      t.pc[j] == s.pc[j] && t.st[j] == s.st[j] && t.chan[j] == s.chan[j] && t.plock[j] == s.plock[j]
  }

  // acquiresleep.

  predicate Asleep(s: State, i: nat)
    requires Shape(s) && i < |s.pc|
  {
    s.pc[i] == Switch(AcqSpin) && s.st[i].Sleeping? && s.chan[i].ThisLock?
  }

  /** The process has the lock, or sleeps on it because it was held. */
  predicate Acquired(s: State, i: nat, u: State)
    requires Shape(s)
  {
    && Shape(u) && i < |u.pc| && OthersSame(s, u, i) && u.lk.Nobody?
    && (!s.locked ==> u.pc[i] == Has && u.locked && u.pid == i)
    && (s.locked ==> Asleep(u, i) && u.locked && u.pid == s.pid)
  }

  /** In every run, a process that calls acquiresleep and is left alone has the lock if it was free, and goes to sleep
      on it otherwise. */
  lemma AcquireAlone(n: nat, m: nat, es: seq<Event>, s: State, i: nat) returns (fs: seq<Event>, u: State)
    requires Runs(n, m, es, s) && 0 < m && Shape(s) && i < |s.pc| && s.pc[i].AcqSpin?
    requires s.lk.Nobody? && s.plock[i].Nobody?
    ensures Own(fs, i) && Runs(n, m, es + fs, u) && Acquired(s, i, u)
  {
    RunsInv(n, m, es, s);
    Begin(n, m, es, i, s);
    fs, u := Go(n, m, es, i, [], s, Use);
    fs, u := Go(n, m, es, i, fs, u, Use);
    if s.locked {
      fs, u := SleepAlone(n, m, es, i, fs, u);
    } else {
      fs, u := TakeAlone(n, m, es, i, fs, u);
    }
    assert UnfoldAlong(0);
  }

  lemma TakeAlone(n: nat, m: nat, es: seq<Event>, i: nat, fs0: seq<Event>, s: State)
    returns (fs: seq<Event>, u: State)
    requires Along(n, m, es, i, fs0, s) && Inv(s) && i < |s.pc| && s.pc[i].AcqSet?
    ensures Along(n, m, es, i, fs, u) && Shape(u) && OthersSame(s, u, i) && u.lk.Nobody?
    ensures u.pc[i] == Has && u.locked && u.pid == i
  {
    fs, u := Go(n, m, es, i, fs0, s, Use);
    fs, u := Go(n, m, es, i, fs, u, Use);
  }

  lemma SleepAlone(n: nat, m: nat, es: seq<Event>, i: nat, fs0: seq<Event>, s: State)
    returns (fs: seq<Event>, u: State)
    requires Along(n, m, es, i, fs0, s) && Inv(s) && i < |s.pc| && s.pc[i].SleepOwn? && s.plock[i].Nobody?
    ensures Along(n, m, es, i, fs, u) && Shape(u) && OthersSame(s, u, i) && u.lk.Nobody?
    ensures Asleep(u, i) && u.locked == s.locked && u.pid == s.pid
  {
    fs, u := Go(n, m, es, i, fs0, s, Use);
    fs, u := Go(n, m, es, i, fs, u, Use);
    fs, u := Go(n, m, es, i, fs, u, Use);
    fs, u := Go(n, m, es, i, fs, u, Use);
  }

  // releasesleep.

  /** The first n processes have been woken if they slept on the lock; nothing else has happened to anybody. */
  predicate WokenBelow(s: State, t: State, i: nat, n: nat)
    requires Shape(s) && Shape(t)
  {
    |t.pc| == |s.pc| && forall j :: 0 <= j < |s.pc| && j != i ==>
      && t.pc[j] == s.pc[j] && t.chan[j] == s.chan[j] && t.plock[j] == s.plock[j]
      && t.st[j] == if j < n && s.st[j].Sleeping? && s.chan[j].ThisLock? then Runnable else s.st[j]
  }

  predicate LocksFree(s: State, i: nat)
    requires Shape(s)
  {
    forall j :: 0 <= j < |s.pc| && j != i ==> s.plock[j].Nobody?
  }

  /** One process of the scan. */
  lemma ScanOne(n: nat, m: nat, es: seq<Event>, s0: State, i: nat, fs0: seq<Event>, s: State)
    returns (fs: seq<Event>, t: State)
    requires Along(n, m, es, i, fs0, s) && Inv(s) && i < |s.pc| && s.pc[i].Scan? && s.pc[i].j < |s.pc|
    requires Shape(s0) && WokenBelow(s0, s, i, s.pc[i].j) && LocksFree(s, i)
    ensures Along(n, m, es, i, fs, t) && Inv(t) && |t.pc| == |s.pc| && t.pc[i] == Scan(s.pc[i].j + 1)
    ensures WokenBelow(s0, t, i, s.pc[i].j + 1) && t.locked == s.locked && LocksFree(t, i)
  {
    fs, t := Go(n, m, es, i, fs0, s, Use);
    if s.pc[i].j != i {
      fs, t := Go(n, m, es, i, fs, t, Use);
      fs, t := Go(n, m, es, i, fs, t, Use);
    }
  }

  lemma {:induction false} ScanAll(n: nat, m: nat, es: seq<Event>, s0: State, i: nat, fs0: seq<Event>, s: State)
    returns (fs: seq<Event>, t: State)
    requires Along(n, m, es, i, fs0, s) && Inv(s) && i < |s.pc| && s.pc[i].Scan? && s.pc[i].j <= |s.pc|
    requires Shape(s0) && WokenBelow(s0, s, i, s.pc[i].j) && !s.locked && LocksFree(s, i)
    ensures Along(n, m, es, i, fs, t) && Shape(t) && |t.pc| == |s.pc| && t.pc[i] == Out
    ensures WokenBelow(s0, t, i, |s.pc|) && t.lk.Nobody? && !t.locked
    decreases |s.pc| - s.pc[i].j
  {
    if s.pc[i].j < |s.pc| {
      fs, t := ScanOne(n, m, es, s0, i, fs0, s);
      fs, t := ScanAll(n, m, es, s0, i, fs, t);
    } else {
      fs, t := Go(n, m, es, i, fs0, s, Use);
      fs, t := Go(n, m, es, i, fs, t, Use);
    }
  }

  /** In every run, a process that calls releasesleep and is left alone frees the lock and wakes exactly those who sleep
      on it. */
  lemma ReleaseAlone(n: nat, m: nat, es: seq<Event>, s: State, i: nat) returns (fs: seq<Event>, u: State)
    requires Runs(n, m, es, s) && 0 < m && Shape(s) && i < |s.pc| && s.pc[i].RelSpin? && s.lk.Nobody? && LocksFree(s, i)
    ensures Own(fs, i) && Runs(n, m, es + fs, u) && Shape(u) && |u.pc| == |s.pc| && u.pc[i] == Out
    ensures WokenBelow(s, u, i, |s.pc|) && u.lk.Nobody? && !u.locked
  {
    RunsInv(n, m, es, s);
    Begin(n, m, es, i, s);
    fs, u := Go(n, m, es, i, [], s, Use);
    fs, u := Go(n, m, es, i, fs, u, Use);
    fs, u := ScanAll(n, m, es, s, i, fs, u);
    assert UnfoldAlong(0);
  }

  /** In every run, holdingsleep says yes exactly to the process that has the lock. */
  lemma HoldingRight(n: nat, m: nat, es: seq<Event>, s: State, i: nat)
    requires Runs(n, m, es, s) && 0 < m && i < |s.pc|
    ensures s.locked && s.pid == i <==> Owner(s.pc[i])
  {
    RunsInv(n, m, es, s);
    assert UnfoldInv(0);
    assert OwnerAt(s, i);
  }

  // kill and yield, one event at a time.

  predicate UnfoldDid(u: int) { true }
  predicate UnfoldReached(u: int) { true }

  /** Event e leads from s to t. */
  ghost predicate Did(s: State, e: Event, t: State) {
    && Inv(s) && Inv(t)
    && forall u {:trigger UnfoldDid(u)} :: UnfoldDid(u) ==> Enabled(s, e) && t == Apply(s, e)
  }

  /** The run es, followed by fs, leads to s. */
  ghost predicate Reached(n: nat, m: nat, es: seq<Event>, fs: seq<Event>, s: State) {
    forall u {:trigger UnfoldReached(u)} :: UnfoldReached(u) ==> Runs(n, m, es + fs, s)
  }

  lemma Happens(n: nat, m: nat, es: seq<Event>, fs: seq<Event>, s: State, e: Event) returns (t: State)
    requires Reached(n, m, es, fs, s) && Inv(s) && Enabled(s, e)
    ensures Reached(n, m, es, fs + [e], t) && Did(s, e, t)
  {
    t := Apply(s, e);
    ApplyInv(s, e);
    assert UnfoldReached(0);
    RunsSnoc(n, m, es + fs, s, e);
    assert es + fs + [e] == es + (fs + [e]);
  }

  lemma Starts(n: nat, m: nat, es: seq<Event>, s: State)
    requires Runs(n, m, es, s)
    ensures Reached(n, m, es, [], s)
  {
    assert es + [] == es;
  }

  lemma Ends(n: nat, m: nat, es: seq<Event>, fs: seq<Event>, s: State)
    requires Reached(n, m, es, fs, s)
    ensures Runs(n, m, es + fs, s)
  {
    assert UnfoldReached(0);
  }

  lemma KickStep(s: State, i: nat, j: nat, t: State)
    requires Did(s, Step(i, Kick(j)), t)
    ensures i < |s.pc| && j < |s.pc| && s.pc[i].Out? && i != j && s.plock[j].Nobody?
    ensures t == s.(pc := s.pc[i := KickTest(j)], plock := s.plock[j := Proc(i)])
  {
    assert UnfoldDid(0);
  }

  lemma KickTestStep(s: State, i: nat, j: nat, t: State)
    requires Did(s, Step(i, Use), t) && i < |s.pc| && s.pc[i] == KickTest(j)
    ensures j < |s.pc|
    ensures t == s.(pc := s.pc[i := KickRel(j)], st := s.st[j := if s.st[j].Sleeping? then Runnable else s.st[j]])
  {
    assert UnfoldDid(0);
  }

  lemma KickRelStep(s: State, i: nat, j: nat, t: State)
    requires Did(s, Step(i, Use), t) && i < |s.pc| && s.pc[i] == KickRel(j)
    ensures j < |s.pc| && t == s.(pc := s.pc[i := Out], plock := s.plock[j := Nobody])
  {
    assert UnfoldDid(0);
  }

  /** In every run, a process that kills j and is left alone makes it RUNNABLE if it sleeps, and changes nothing
      else. */
  lemma KillAlone(n: nat, m: nat, es: seq<Event>, s: State, i: nat, j: nat) returns (u: State)
    requires Runs(n, m, es, s) && 0 < m && Shape(s) && i < |s.pc| && s.pc[i].Out?
    requires j < |s.pc| && j != i && s.plock[j].Nobody?
    ensures Runs(n, m, es + ([Step(i, Kick(j))] + [Step(i, Use)] + [Step(i, Use)]), u)
    ensures u == s.(st := s.st[j := if s.st[j].Sleeping? then Runnable else s.st[j]])
  {
    RunsInv(n, m, es, s);
    Starts(n, m, es, s);
    OnCpu(s, i);
    var s1 := Happens(n, m, es, [], s, Step(i, Kick(j)));
    KickStep(s, i, j, s1);
    assert [] + [Step(i, Kick(j))] == [Step(i, Kick(j))];
    u := KickEnds(n, m, es, [Step(i, Kick(j))], s1, i, j);
    Ends(n, m, es, [Step(i, Kick(j))] + [Step(i, Use)] + [Step(i, Use)], u);
  }

  lemma KickEnds(n: nat, m: nat, es: seq<Event>, fs: seq<Event>, s: State, i: nat, j: nat) returns (u: State)
    requires Reached(n, m, es, fs, s) && Inv(s) && i < |s.pc| && j < |s.pc| && s.pc[i] == KickTest(j)
    ensures Reached(n, m, es, fs + [Step(i, Use)] + [Step(i, Use)], u)
    ensures u == s.(pc := s.pc[i := Out], plock := s.plock[j := Nobody],
                    st := s.st[j := if s.st[j].Sleeping? then Runnable else s.st[j]])
  {
    OnCpu(s, i);
    var s1 := Happens(n, m, es, fs, s, Step(i, Use));
    KickTestStep(s, i, j, s1);
    OnCpu(s1, i);
    u := Happens(n, m, es, fs + [Step(i, Use)], s1, Step(i, Use));
    KickRelStep(s1, i, j, u);
  }

  lemma PreemptStep(s: State, i: nat, t: State)
    requires Did(s, Step(i, Preempt), t)
    ensures i < |s.pc| && s.plock[i].Nobody?
    ensures t == s.(pc := s.pc[i := YieldSet(s.pc[i])], plock := s.plock[i := Proc(i)])
  {
    assert UnfoldDid(0);
  }

  lemma YieldStep(s: State, i: nat, k: Pc, t: State)
    requires Did(s, Step(i, Use), t) && i < |s.pc| && s.pc[i] == YieldSet(k)
    ensures t == s.(pc := s.pc[i := Switch(k)], st := s.st[i := Runnable])
  {
    assert UnfoldDid(0);
  }

  lemma SwitchStep(s: State, i: nat, k: Pc, t: State)
    requires Did(s, Step(i, Use), t) && i < |s.pc| && s.pc[i] == Switch(k)
    ensures s.at[i] < |s.cpu|
    ensures t == s.(pc := s.pc[i := Away(k)], plock := s.plock[i := Sched(s.at[i])], cpu := s.cpu[s.at[i] := Back(i)])
  {
    assert UnfoldDid(0);
  }

  lemma DropStep(s: State, c: nat, i: nat, t: State)
    requires Did(s, Drop(c), t) && c < |s.cpu| && s.cpu[c] == Back(i)
    ensures i < |s.pc| && t == s.(cpu := s.cpu[c := Idle], plock := s.plock[i := Nobody])
  {
    assert UnfoldDid(0);
  }

  lemma GrabStep(s: State, c: nat, i: nat, t: State)
    requires Did(s, Grab(c, i), t)
    ensures c < |s.cpu| && i < |s.pc| && t == s.(cpu := s.cpu[c := Got(i)], plock := s.plock[i := Sched(c)])
  {
    assert UnfoldDid(0);
  }

  lemma ChooseStep(s: State, c: nat, i: nat, t: State)
    requires Did(s, Choose(c), t) && c < |s.cpu| && s.cpu[c] == Got(i) && i < |s.pc|
    requires s.pc[i].Away? && s.st[i].Runnable?
    ensures t == s.(st := s.st[i := Running], cpu := s.cpu[c := On(i)], plock := s.plock[i := Proc(i)],
                    at := s.at[i := c], pc := s.pc[i := Resume(s.pc[i].k)])
  {
    assert UnfoldDid(0);
  }

  lemma ResumeStep(s: State, i: nat, k: Pc, t: State)
    requires Did(s, Step(i, Use), t) && i < |s.pc| && s.pc[i] == Resume(k)
    ensures t == s.(pc := s.pc[i := k], chan := s.chan[i := NoChan], plock := s.plock[i := Nobody])
  {
    assert UnfoldDid(0);
  }

  /** The events that take a process off CPU c, and that bring it back. */
  function LeaveEvents(i: nat): seq<Event> { [Step(i, Preempt)] + [Step(i, Use)] + [Step(i, Use)] }

  function BackEvents(i: nat, c: nat): seq<Event> { [Drop(c)] + [Grab(c, i)] + [Choose(c)] + [Step(i, Use)] }

  lemma Leaves(n: nat, m: nat, es: seq<Event>, s: State, i: nat) returns (t: State)
    requires Reached(n, m, es, [], s) && Inv(s) && i < |s.pc| && CanStep(s, i, Preempt)
    ensures Reached(n, m, es, LeaveEvents(i), t) && Inv(t) && s.at[i] < |s.cpu|
    ensures t == s.(pc := s.pc[i := Away(s.pc[i])], st := s.st[i := Runnable], plock := s.plock[i := Sched(s.at[i])],
                    cpu := s.cpu[s.at[i] := Back(i)])
  {
    OnCpu(s, i);
    var s1 := Happens(n, m, es, [], s, Step(i, Preempt));
    PreemptStep(s, i, s1);
    OnCpu(s1, i);
    var fs := [] + [Step(i, Preempt)];
    var s2 := Happens(n, m, es, fs, s1, Step(i, Use));
    YieldStep(s1, i, s.pc[i], s2);
    OnCpu(s2, i);
    t := Happens(n, m, es, fs + [Step(i, Use)], s2, Step(i, Use));
    SwitchStep(s2, i, s.pc[i], t);
    assert fs == [Step(i, Preempt)];
  }

  lemma Returns(n: nat, m: nat, es: seq<Event>, fs: seq<Event>, s: State, i: nat, c: nat) returns (u: State)
    requires Reached(n, m, es, fs, s) && Inv(s) && i < |s.pc| && c < |s.cpu| && s.cpu[c] == Back(i) && s.at[i] == c
    requires s.pc[i].Away? && s.st[i].Runnable?
    ensures Reached(n, m, es, fs + [Drop(c)] + [Grab(c, i)] + [Choose(c)] + [Step(i, Use)], u)
    ensures u == s.(pc := s.pc[i := s.pc[i].k], st := s.st[i := Running], plock := s.plock[i := Nobody],
                    cpu := s.cpu[c := On(i)], chan := s.chan[i := NoChan])
  {
    var s1 := Happens(n, m, es, fs, s, Drop(c));
    DropStep(s, c, i, s1);
    var s2 := Happens(n, m, es, fs + [Drop(c)], s1, Grab(c, i));
    GrabStep(s1, c, i, s2);
    var s3 := Happens(n, m, es, fs + [Drop(c)] + [Grab(c, i)], s2, Choose(c));
    ChooseStep(s2, c, i, s3);
    u := Happens(n, m, es, fs + [Drop(c)] + [Grab(c, i)] + [Choose(c)], s3, Step(i, Use));
    ResumeStep(s3, i, s.pc[i].k, u);
  }

  /** In every run, a process that is preempted and then run again goes on where it was, and nothing else has
      changed. */
  lemma YieldReturns(n: nat, m: nat, es: seq<Event>, s: State, i: nat) returns (u: State)
    requires Runs(n, m, es, s) && 0 < m && Shape(s) && i < |s.pc| && s.plock[i].Nobody?
    requires s.pc[i].Out? || s.pc[i].AcqSpin? || s.pc[i].Has? || s.pc[i].RelSpin?
    ensures Runs(n, m, es + (LeaveEvents(i) + BackEvents(i, s.at[i])), u) && u == s.(chan := s.chan[i := NoChan])
  {
    RunsInv(n, m, es, s);
    Starts(n, m, es, s);
    OnCpu(s, i);
    var t := Leaves(n, m, es, s, i);
    var (c, fs) := (s.at[i], LeaveEvents(i));
    u := Returns(n, m, es, fs, t, i, c);
    assert fs + [Drop(c)] + [Grab(c, i)] + [Choose(c)] + [Step(i, Use)] == fs + BackEvents(i, c);
    assert s.st[i].Running? by { assert StatusOk(s) by { assert UnfoldInv(0); } }
    Ends(n, m, es, fs + BackEvents(i, c), u);
  }

  // Other sleeps.

  lemma NapStep(s: State, i: nat, t: State)
    requires Did(s, Step(i, Nap), t)
    ensures i < |s.pc| && t == s.(pc := s.pc[i := NapSet], plock := s.plock[i := Proc(i)])
  {
    assert UnfoldDid(0);
  }

  lemma NapSetStep(s: State, i: nat, t: State)
    requires Did(s, Step(i, Use), t) && i < |s.pc| && s.pc[i].NapSet?
    ensures t == s.(pc := s.pc[i := Switch(Out)], chan := s.chan[i := OtherChan], st := s.st[i := Sleeping])
  {
    assert UnfoldDid(0);
  }

  /** In every run, a process that calls sleep on another channel and is left alone is asleep there and has left its
      CPU. */
  lemma NapAlone(n: nat, m: nat, es: seq<Event>, s: State, i: nat) returns (u: State)
    requires Runs(n, m, es, s) && 0 < m && Shape(s) && i < |s.pc| && s.pc[i].Out? && s.plock[i].Nobody?
    ensures Runs(n, m, es + ([Step(i, Nap)] + [Step(i, Use)] + [Step(i, Use)]), u) && s.at[i] < |s.cpu|
    ensures u == s.(pc := s.pc[i := Away(Out)], st := s.st[i := Sleeping], chan := s.chan[i := OtherChan],
                    plock := s.plock[i := Sched(s.at[i])], cpu := s.cpu[s.at[i] := Back(i)])
  {
    RunsInv(n, m, es, s);
    Starts(n, m, es, s);
    OnCpu(s, i);
    var s1 := Happens(n, m, es, [], s, Step(i, Nap));
    NapStep(s, i, s1);
    var fs := [] + [Step(i, Nap)];
    OnCpu(s1, i);
    var s2 := Happens(n, m, es, fs, s1, Step(i, Use));
    NapSetStep(s1, i, s2);
    OnCpu(s2, i);
    u := Happens(n, m, es, fs + [Step(i, Use)], s2, Step(i, Use));
    SwitchStep(s2, i, Out, u);
    assert fs == [Step(i, Nap)];
    Ends(n, m, es, [Step(i, Nap)] + [Step(i, Use)] + [Step(i, Use)], u);
  }
}
