/**
 What whole calls of fork, exit and wait (kernel/proc.c) do when nobody gets in between, from any state that
 a run of ExitWait can reach.
 */
module ProcCalls {
  import opened Cpus
  import opened ExitWait
  import opened WaitCalls

  /** The events are steps of process i. */
  predicate Own(fs: seq<Event>, i: nat) {
    forall k :: 0 <= k < |fs| ==> fs[k].Step? && fs[k].i == i
  }

  predicate UnfoldAlong(u: int) { true }

  /** After the run es, steps of process i alone lead to s. */
  ghost predicate Along(n: nat, m: nat, es: seq<Event>, i: nat, fs: seq<Event>, s: State) {
    forall u {:trigger UnfoldAlong(u)} :: UnfoldAlong(u) ==> 0 < n && Own(fs, i) && Runs(n, m, es + fs, s)
  }

  lemma Begin(n: nat, m: nat, es: seq<Event>, i: nat, s: State)
    requires 0 < n && Runs(n, m, es, s)
    ensures Along(n, m, es, i, [], s)
  {
    assert es + [] == es;
  }

  lemma RunsSnoc(n: nat, m: nat, es: seq<Event>, s: State, e: Event)
    requires 0 < n && Runs(n, m, es, s) && Shape(s) && Enabled(s, e)
    ensures Runs(n, m, es + [e], Apply(s, e))
  {
    assert (es + [e])[..|es|] == es;
  }

  lemma OnCpu(s: State, i: nat)
    requires Inv(s) && i < |s.pc| && !s.pc[i].Away?
    ensures s.at[i] < |s.cpu| && s.cpu[s.at[i]] == On(i)
  {
    assert CpusOk(s) by { assert UnfoldInv(0); }
  }

  predicate UnfoldStepped(u: int) { true }

  /** Process i takes one step from s to t. */
  ghost predicate Stepped(s: State, i: nat, choice: Choice, t: State) {
    && Shape(s) && Shape(t)
    && forall u {:trigger UnfoldStepped(u)} :: UnfoldStepped(u) ==>
      i < |s.pc| && CanStep(s, i, choice) && s.at[i] < |s.cpu| && t == Do(s, i, Next(s, i, choice))
  }

  /** One more step. */
  lemma Go(n: nat, m: nat, es: seq<Event>, i: nat, fs: seq<Event>, s: State, choice: Choice)
    returns (gs: seq<Event>, t: State)
    requires Along(n, m, es, i, fs, s) && Inv(s) && i < |s.pc| && !s.pc[i].Away? && CanStep(s, i, choice)
    ensures Along(n, m, es, i, gs, t) && Inv(t) && Stepped(s, i, choice, t)
  {
    OnCpu(s, i);
    t := Apply(s, Step(i, choice));
    ApplyInv(s, Step(i, choice));
    gs := fs + [Step(i, choice)];
    assert UnfoldAlong(0);
    RunsSnoc(n, m, es + fs, s, Step(i, choice));
    assert es + fs + [Step(i, choice)] == es + gs;
  }

  // fork.

  lemma ForkStep(s: State, i: nat, j: nat, t: State)
    requires Inv(s) && i < |s.pc| && Stepped(s, i, Fork(j), t) && s.pc[i].Out?
    ensures i != j && j < |s.pc| && s.st[j].Unused? && s.par[j] == -1
    ensures t.plock == s.plock[j := Proc(i)] && t.wl == s.wl
    ensures t.pc == s.pc[j := Away(Out)][i := ForkBody(j)] && t.st == s.st[j := Used] && t.par == s.par
    ensures t.chan == s.chan && t.exits == s.exits && t.reaps == s.reaps && s.plock[j].Nobody?
  {
    assert UnfoldStepped(0);
    KnownAll(s, i);
    KnownAll(s, j);
  }

  lemma BodyStep(s: State, i: nat, j: nat, choice: Choice, t: State)
    requires Inv(s) && i < |s.pc| && Stepped(s, i, choice, t) && s.pc[i] == ForkBody(j) && (choice.Use? || choice.Fail?)
    ensures j < |s.pc| && t.plock == s.plock[j := Nobody] && t.wl == s.wl && t.par == s.par && t.chan == s.chan
    ensures t.pc == s.pc[i := if choice.Use? then ForkWait(j) else Out] && t.exits == s.exits && t.reaps == s.reaps
    ensures t.st == if choice.Use? then s.st else s.st[j := Unused]
  {
    assert UnfoldStepped(0);
    KnownAll(s, i);
  }

  lemma ParentStep(s: State, i: nat, j: nat, t: State)
    requires Inv(s) && i < |s.pc| && Stepped(s, i, Use, t) && (s.pc[i] == ForkWait(j) || s.pc[i] == ForkPar(j))
    ensures j < |s.pc| && t.plock == s.plock && t.st == s.st && t.chan == s.chan
    ensures t.exits == s.exits && t.reaps == s.reaps
    ensures s.pc[i].ForkWait? ==> t.wl == Proc(i) && t.par == s.par && t.pc == s.pc[i := ForkPar(j)]
    ensures s.pc[i].ForkPar? ==> t.wl == Nobody && t.par == s.par[j := i] && t.pc == s.pc[i := ForkRun(j)]
  {
    assert UnfoldStepped(0);
    KnownAll(s, i);
  }

  lemma ReadyStep(s: State, i: nat, j: nat, t: State)
    requires Inv(s) && i < |s.pc| && Stepped(s, i, Use, t) && s.pc[i] == ForkRun(j)
    ensures j < |s.pc| && t.plock == s.plock && t.wl == s.wl && t.par == s.par && t.chan == s.chan
    ensures t.pc == s.pc[i := Out] && t.st == s.st[j := Runnable] && t.exits == s.exits && t.reaps == s.reaps
  {
    assert UnfoldStepped(0);
    KnownAll(s, i);
  }

  lemma ForkBegins(n: nat, m: nat, es: seq<Event>, i: nat, j: nat, s: State, choice: Choice)
    returns (fs: seq<Event>, t: State)
    requires Along(n, m, es, i, [], s) && Inv(s) && i < |s.pc| && s.pc[i].Out? && (choice.Use? || choice.Fail?)
    requires j < |s.pc| && s.plock[j].Nobody? && s.st[j].Unused?
    ensures Along(n, m, es, i, fs, t) && Inv(t) && i != j && s.par[j] == -1
    ensures t.pc == s.pc[j := Away(Out)][i := if choice.Use? then ForkWait(j) else Out] && t.plock == s.plock
    ensures t.st == (if choice.Use? then s.st[j := Used] else s.st) && t.par == s.par && t.wl == s.wl
    ensures t.chan == s.chan && t.exits == s.exits && t.reaps == s.reaps
  {
    var s1;
    fs, s1 := Go(n, m, es, i, [], s, Fork(j));
    ForkStep(s, i, j, s1);
    fs, t := Go(n, m, es, i, fs, s1, choice);
    BodyStep(s1, i, j, choice, t);
  }

  lemma ForkParent(n: nat, m: nat, es: seq<Event>, i: nat, j: nat, fs: seq<Event>, s: State)
    returns (gs: seq<Event>, t: State)
    requires Along(n, m, es, i, fs, s) && Inv(s) && i < |s.pc| && s.pc[i] == ForkWait(j) && s.wl.Nobody?
    ensures Along(n, m, es, i, gs, t) && Inv(t) && j < |s.pc| && t.par == s.par[j := i]
    ensures t.pc == s.pc[i := ForkRun(j)] && t.plock == s.plock && t.st == s.st && t.wl == s.wl
    ensures t.chan == s.chan && t.exits == s.exits && t.reaps == s.reaps
  {
    var s1;
    gs, s1 := Go(n, m, es, i, fs, s, Use);
    ParentStep(s, i, j, s1);
    gs, t := Go(n, m, es, i, gs, s1, Use);
    ParentStep(s1, i, j, t);
  }

  lemma ForkEnds(n: nat, m: nat, es: seq<Event>, i: nat, j: nat, fs: seq<Event>, s: State)
    returns (gs: seq<Event>, t: State)
    requires Along(n, m, es, i, fs, s) && Inv(s) && i < |s.pc| && s.pc[i] == ForkWait(j) && s.wl.Nobody?
    requires j < |s.pc| && s.plock[j].Nobody?
    ensures Along(n, m, es, i, gs, t) && Inv(t) && t.par == s.par[j := i]
    ensures t.pc == s.pc[i := Out] && t.plock == s.plock && t.st == s.st[j := Runnable] && t.wl == s.wl
    ensures t.chan == s.chan && t.exits == s.exits && t.reaps == s.reaps
  {
    var s1;
    gs, s1 := ForkParent(n, m, es, i, j, fs, s);
    gs, t := Go(n, m, es, i, gs, s1, Use);
    ReadyStep(s1, i, j, t);
  }

  /** In every run, a process that forks into slot j and is left alone has a runnable child there, and nothing else
      has changed. */
  lemma ForkAlone(n: nat, m: nat, es: seq<Event>, s: State, i: nat, j: nat) returns (fs: seq<Event>, u: State)
    requires 0 < n && 0 < m && Runs(n, m, es, s) && Shape(s) && i < |s.pc| && s.pc[i].Out?
    requires j < |s.pc| && s.plock[j].Nobody? && s.st[j].Unused? && s.wl.Nobody?
    ensures Own(fs, i) && Runs(n, m, es + fs, u) && Shape(u)
    ensures u.pc == s.pc[j := Away(Out)][i := Out] && u.st == s.st[j := Runnable] && u.par == s.par[j := i]
    ensures u.wl.Nobody? && u.plock == s.plock && u.chan == s.chan && u.exits == s.exits && u.reaps == s.reaps
  {
    RunsInv(n, m, es, s);
    Begin(n, m, es, i, s);
    var s1;
    fs, s1 := ForkBegins(n, m, es, i, j, s, Use);
    fs, u := ForkEnds(n, m, es, i, j, fs, s1);
    assert UnfoldAlong(0);
  }

  /** A fork that fails leaves everything as it was. */
  lemma ForkFails(n: nat, m: nat, es: seq<Event>, s: State, i: nat, j: nat) returns (fs: seq<Event>, u: State)
    requires 0 < n && 0 < m && Runs(n, m, es, s) && Shape(s) && i < |s.pc| && s.pc[i].Out?
    requires j < |s.pc| && s.plock[j].Nobody? && s.st[j].Unused?
    ensures Own(fs, i) && Runs(n, m, es + fs, u) && Shape(u) && u.pc == s.pc[j := Away(Out)]
    ensures u.st == s.st && u.par == s.par && u.wl == s.wl && u.plock == s.plock && u.chan == s.chan
    ensures u.exits == s.exits && u.reaps == s.reaps
  {
    RunsInv(n, m, es, s);
    Begin(n, m, es, i, s);
    fs, u := ForkBegins(n, m, es, i, j, s, Fail);
    assert UnfoldAlong(0);
  }

  // exit.

  /** What becomes of another process k while i exits: init is woken if it has got children, and so is the parent. */
  function After(s: State, i: nat, kids: bool, told: bool, k: nat): Status
    requires Shape(s) && i < |s.pc| && k < |s.pc|
  {
    if s.st[k].Sleeping? && s.chan[k].OwnChan? && ((kids && k == 0) || (told && k == s.par[i])) then Runnable
    else s.st[k]
  }

  predicate HasKids(s: State, i: nat, j: nat)
    requires Shape(s) && j <= |s.pc|
  {
    exists x :: 0 <= x < j && s.par[x] == i
  }

  /** The children of i among the first j slots are init's, and the others are as After says. */
  predicate Exiting(s: State, i: nat, t: State, j: nat, kids: bool, told: bool) {
    && Shape(s) && Shape(t) && i < |s.pc| == |t.pc| && 0 < i && s.par[i] != i
    && (forall x :: 0 <= x < |s.pc| ==> t.par[x] == if x < j && s.par[x] == i then 0 else s.par[x])
    && (forall k :: 0 <= k < |s.pc| && k != i ==> OtherAt(s, i, t, kids, told, k))
    && t.exits == s.exits && t.reaps == s.reaps && t.plock[i] == s.plock[i] && t.wl == Proc(i)
  }

  predicate OtherAt(s: State, i: nat, t: State, kids: bool, told: bool, k: nat)
    requires Shape(s) && Shape(t) && i < |s.pc| == |t.pc| && k < |s.pc|
  {
    t.pc[k] == s.pc[k] && t.chan[k] == s.chan[k] && t.plock[k] == s.plock[k] && t.st[k] == After(s, i, kids, told, k)
  }

  predicate LocksFree(s: State)
    requires Shape(s)
  {
    forall k :: 0 <= k < |s.pc| ==> s.plock[k].Nobody?
  }

  lemma BeginExit(s: State, i: nat, t: State)
    requires Inv(s) && i < |s.pc| && Stepped(s, i, Use, t) && s.pc[i].ExitSpin?
    ensures Exiting(s, i, t, 0, false, false) && t.pc[i] == Rep(0)
  {
    assert UnfoldStepped(0);
    KnownAll(s, i);
  }

  lemma RepStep(s0: State, s: State, i: nat, kids: bool, t: State)
    requires Inv(s) && i < |s.pc| && Stepped(s, i, Use, t) && s.pc[i].Rep? && s.pc[i].j < |s.pc|
    requires Exiting(s0, i, s, s.pc[i].j, kids, false)
    ensures Exiting(s0, i, t, s.pc[i].j + 1, kids, false)
    ensures t.pc[i] == if s0.par[s.pc[i].j] == i then RepScan(s.pc[i].j, 0) else Rep(s.pc[i].j + 1)
  {
    assert UnfoldStepped(0);
    forall k | 0 <= k < |s.pc| && k != i ensures OtherAt(s0, i, t, kids, false, k) {
      assert OtherAt(s0, i, s, kids, false, k);
    }
  }

  lemma RepEnd(s0: State, s: State, i: nat, kids: bool, t: State)
    requires Inv(s) && i < |s.pc| && Stepped(s, i, Use, t) && s.pc[i].Rep? && s.pc[i].j == |s.pc|
    requires Exiting(s0, i, s, |s.pc|, kids, false)
    ensures Exiting(s0, i, t, |s.pc|, kids, false) && t.pc[i] == Wake(0)
  {
    assert UnfoldStepped(0);
    forall k | 0 <= k < |s.pc| && k != i ensures OtherAt(s0, i, t, kids, false, k) {
      assert OtherAt(s0, i, s, kids, false, k);
    }
  }

  lemma RepScanStep(s0: State, s: State, i: nat, kids: bool, t: State)
    requires Inv(s) && i < |s.pc| && Stepped(s, i, Use, t) && s.pc[i].RepScan? && s.pc[i].w < |s.pc|
    requires Exiting(s0, i, s, s.pc[i].j + 1, kids || s.pc[i].w > 0, false)
    ensures Exiting(s0, i, t, s.pc[i].j + 1, true, false) && t.pc[i] == RepScan(s.pc[i].j, s.pc[i].w + 1)
  {
    assert UnfoldStepped(0);
    forall k | 0 <= k < |s.pc| && k != i ensures OtherAt(s0, i, t, true, false, k) {
      assert OtherAt(s0, i, s, kids || s.pc[i].w > 0, false, k);
    }
  }

  lemma RepScanEnd(s0: State, s: State, i: nat, t: State)
    requires Inv(s) && i < |s.pc| && Stepped(s, i, Use, t) && s.pc[i].RepScan? && s.pc[i].w == |s.pc|
    requires Exiting(s0, i, s, s.pc[i].j + 1, true, false)
    ensures Exiting(s0, i, t, s.pc[i].j + 1, true, false) && t.pc[i] == Rep(s.pc[i].j + 1)
  {
    assert UnfoldStepped(0);
    forall k | 0 <= k < |s.pc| && k != i ensures OtherAt(s0, i, t, true, false, k) {
      assert OtherAt(s0, i, s, true, false, k);
    }
  }

  lemma WakeStep(s0: State, s: State, i: nat, kids: bool, told: bool, told': bool, t: State)
    requires Inv(s) && i < |s.pc| && Stepped(s, i, Use, t) && s.pc[i].Wake? && s.pc[i].w < |s.pc|
    requires Exiting(s0, i, s, |s.pc|, kids, told)
    requires told == (s0.par[i] < s.pc[i].w) && told' == (s0.par[i] <= s.pc[i].w)
    ensures Exiting(s0, i, t, |s.pc|, kids, told') && t.pc[i] == Wake(s.pc[i].w + 1)
  {
    assert UnfoldStepped(0);
    forall k | 0 <= k < |s.pc| && k != i ensures OtherAt(s0, i, t, kids, told', k) {
      assert OtherAt(s0, i, s, kids, told, k);
    }
  }

  lemma WakeEnd(s0: State, s: State, i: nat, kids: bool, t: State)
    requires Inv(s) && i < |s.pc| && Stepped(s, i, Use, t) && s.pc[i].Wake? && s.pc[i].w == |s.pc|
    requires Exiting(s0, i, s, |s.pc|, kids, true)
    ensures Exiting(s0, i, t, |s.pc|, kids, true) && t.pc[i] == ExitLock
  {
    assert UnfoldStepped(0);
    forall k | 0 <= k < |s.pc| && k != i ensures OtherAt(s0, i, t, kids, true, k) {
      assert OtherAt(s0, i, s, kids, true, k);
    }
  }

  lemma {:induction false} RepScanAll(n: nat, m: nat, es: seq<Event>, s0: State, i: nat, kids: bool,
                                      fs0: seq<Event>, s: State)
    returns (fs: seq<Event>, t: State)
    requires Along(n, m, es, i, fs0, s) && Inv(s) && i < |s.pc| && s.pc[i].RepScan? && s.pc[i].w <= |s.pc|
    requires Exiting(s0, i, s, s.pc[i].j + 1, kids || s.pc[i].w > 0, false) && LocksFree(s0)
    ensures Along(n, m, es, i, fs, t) && Inv(t) && Exiting(s0, i, t, s.pc[i].j + 1, true, false)
    ensures t.pc[i] == Rep(s.pc[i].j + 1)
    decreases |s.pc| - s.pc[i].w
  {
    assert s.pc[i].w < |s.pc| && s.pc[i].w != i ==> OtherAt(s0, i, s, kids || s.pc[i].w > 0, false, s.pc[i].w);
    fs, t := Go(n, m, es, i, fs0, s, Use);
    if s.pc[i].w < |s.pc| {
      RepScanStep(s0, s, i, kids, t);
      fs, t := RepScanAll(n, m, es, s0, i, true, fs, t);
    } else {
      RepScanEnd(s0, s, i, t);
    }
  }

  lemma {:induction false} RepAll(n: nat, m: nat, es: seq<Event>, s0: State, i: nat, kids: bool,
                                  fs0: seq<Event>, s: State)
    returns (fs: seq<Event>, t: State)
    requires Along(n, m, es, i, fs0, s) && Inv(s) && i < |s.pc| && s.pc[i].Rep? && s.pc[i].j <= |s.pc|
    requires Exiting(s0, i, s, s.pc[i].j, kids, false) && kids == HasKids(s0, i, s.pc[i].j) && LocksFree(s0)
    ensures Along(n, m, es, i, fs, t) && Inv(t) && Exiting(s0, i, t, |s.pc|, HasKids(s0, i, |s.pc|), false)
    ensures t.pc[i] == Wake(0)
    decreases |s.pc| - s.pc[i].j
  {
    fs, t := Go(n, m, es, i, fs0, s, Use);
    if s.pc[i].j < |s.pc| {
      RepStep(s0, s, i, kids, t);
      if s0.par[s.pc[i].j] == i {
        fs, t := RepScanAll(n, m, es, s0, i, kids, fs, t);
        fs, t := RepAll(n, m, es, s0, i, true, fs, t);
      } else {
        fs, t := RepAll(n, m, es, s0, i, kids, fs, t);
      }
    } else {
      RepEnd(s0, s, i, kids, t);
    }
  }

  lemma {:induction false} WakeAll(n: nat, m: nat, es: seq<Event>, s0: State, i: nat, kids: bool, told: bool,
                                   fs0: seq<Event>, s: State)
    returns (fs: seq<Event>, t: State)
    requires Along(n, m, es, i, fs0, s) && Inv(s) && i < |s.pc| && s.pc[i].Wake? && s.pc[i].w <= |s.pc|
    requires Exiting(s0, i, s, |s.pc|, kids, told) && told == (s0.par[i] < s.pc[i].w) && s0.par[i] < |s.pc|
    requires LocksFree(s0)
    ensures Along(n, m, es, i, fs, t) && Inv(t) && Exiting(s0, i, t, |s.pc|, kids, true) && t.pc[i] == ExitLock
    decreases |s.pc| - s.pc[i].w
  {
    assert s.pc[i].w < |s.pc| && s.pc[i].w != i ==> OtherAt(s0, i, s, kids, told, s.pc[i].w);
    fs, t := Go(n, m, es, i, fs0, s, Use);
    if s.pc[i].w < |s.pc| {
      var told' := s0.par[i] <= s.pc[i].w;
      WakeStep(s0, s, i, kids, told, told', t);
      fs, t := WakeAll(n, m, es, s0, i, kids, told', fs, t);
    } else {
      WakeEnd(s0, s, i, kids, t);
    }
  }

  /** The last steps of exit. */
  lemma LastStep(s: State, i: nat, t: State)
    requires Inv(s) && i < |s.pc| && Stepped(s, i, Use, t)
    requires s.pc[i].ExitLock? || s.pc[i].ExitZombie? || s.pc[i].ExitRel?
    ensures t.par == s.par && t.reaps == s.reaps && t.chan == s.chan && |t.pc| == |s.pc|
    ensures t.pc == s.pc[i := if s.pc[i].ExitLock? then ExitZombie else if s.pc[i].ExitZombie? then ExitRel
                              else Switch(Dead)]
    ensures t.st == (if s.pc[i].ExitZombie? then s.st[i := Zombie] else s.st)
    ensures t.exits == if s.pc[i].ExitZombie? then s.exits[i := s.exits[i] + 1] else s.exits
    ensures t.plock == (if s.pc[i].ExitLock? then s.plock[i := Proc(i)] else s.plock)
    ensures t.wl == if s.pc[i].ExitRel? then Nobody else s.wl
  {
    assert UnfoldStepped(0);
  }

  /** Process i has exited: its children are init's, init knows if there are any, and so does the parent; nobody else is
      concerned. */
  predicate Exited(s: State, i: nat, u: State)
    requires Shape(s)
  {
    && Shape(u) && i < |s.pc| == |u.pc| && u.pc[i] == Switch(Dead) && u.st[i].Zombie? && u.wl.Nobody?
    && (forall x :: 0 <= x < |s.pc| ==> u.par[x] == if s.par[x] == i then 0 else s.par[x])
    && (forall k :: 0 <= k < |s.pc| && k != i ==> OtherAt(s, i, u, HasKids(s, i, |s.pc|), true, k))
    && u.exits == s.exits[i := s.exits[i] + 1] && u.reaps == s.reaps
  }

  lemma LastAlone(n: nat, m: nat, es: seq<Event>, s0: State, i: nat, fs0: seq<Event>, s: State)
    returns (fs: seq<Event>, u: State)
    requires Along(n, m, es, i, fs0, s) && Inv(s) && i < |s.pc| && s.pc[i].ExitLock?
    requires Shape(s0) && Exiting(s0, i, s, |s.pc|, HasKids(s0, i, |s0.pc|), true) && LocksFree(s0)
    ensures Along(n, m, es, i, fs, u) && Exited(s0, i, u)
  {
    var s1, s2;
    fs, s1 := Go(n, m, es, i, fs0, s, Use);
    LastStep(s, i, s1);
    fs, s2 := Go(n, m, es, i, fs, s1, Use);
    LastStep(s1, i, s2);
    fs, u := Go(n, m, es, i, fs, s2, Use);
    LastStep(s2, i, u);
    forall k | 0 <= k < |s.pc| && k != i ensures OtherAt(s0, i, u, HasKids(s0, i, |s0.pc|), true, k) {
      assert OtherAt(s0, i, s, HasKids(s0, i, |s0.pc|), true, k);
    }
  }

  /** In every run, a process that calls exit and is left alone becomes a ZOMBIE, gives its children to init, and wakes
      init and its parent from wait as needed, and nobody else. */
  lemma ExitAlone(n: nat, m: nat, es: seq<Event>, s: State, i: nat) returns (fs: seq<Event>, u: State)
    requires 0 < n && 0 < m && Runs(n, m, es, s) && Shape(s) && i < |s.pc| && s.pc[i].ExitSpin? && s.wl.Nobody?
    requires LocksFree(s)
    ensures Own(fs, i) && Runs(n, m, es + fs, u) && Exited(s, i, u)
  {
    RunsInv(n, m, es, s);
    Begin(n, m, es, i, s);
    KnownAll(s, i);
    fs, u := Go(n, m, es, i, [], s, Use);
    BeginExit(s, i, u);
    fs, u := RepAll(n, m, es, s, i, false, fs, u);
    fs, u := WakeAll(n, m, es, s, i, HasKids(s, i, |s.pc|), s.par[i] < 0, fs, u);
    fs, u := LastAlone(n, m, es, s, i, fs, u);
    assert UnfoldAlong(0);
  }

  // wait.

  /** The locks that wait needs are free. */
  predicate Undisturbed(s: State, i: nat)
    requires Shape(s) && i < |s.pc|
  {
    forall z :: 0 <= z < |s.pc| && (z == i || s.par[z] == i) ==> s.plock[z].Nobody?
  }

  lemma BeginWait(s: State, i: nat, v: State)
    requires Inv(s) && Inv(v) && i < |s.pc| && Stepped(s, i, Use, v) && s.pc[i].WaitSpin? && Undisturbed(s, i)
    ensures |v.pc| == |s.pc| && v.pc[i].WaitScan? && Undisturbed(v, i) && Scanned(v, i, v)
    ensures v.par == s.par && v.st == s.st
  {
    assert UnfoldStepped(0);
  }

  lemma ScanStep(v: State, s: State, i: nat, t: State)
    requires Inv(s) && Inv(t) && Scanned(v, i, s) && s.pc[i].WaitScan? && Undisturbed(s, i) && Stepped(s, i, Use, t)
    ensures Scanned(v, i, t) && Undisturbed(t, i) && |t.pc| == |s.pc|
    ensures t.pc[i].WaitDone? || t.pc[i].WaitSleep? || (t.pc[i].WaitScan? && t.pc[i].j == s.pc[i].j + 1)
  {
    assert UnfoldStepped(0);
    OnCpu(s, i);
    OwnScan(v, s, i);
  }

  lemma DoneStep(s: State, i: nat, t: State)
    requires Inv(s) && i < |s.pc| && s.pc[i].WaitDone? && Stepped(s, i, Use, t)
    ensures |t.pc| == |s.pc| && t.pc[i] == Out
  {
    assert UnfoldStepped(0);
  }

  /** A step towards sleep. */
  lemma SleepStep(s: State, i: nat, t: State)
    requires Inv(s) && i < |s.pc| && Stepped(s, i, Use, t)
    requires s.pc[i].WaitSleep? || s.pc[i].WaitCommit? || s.pc[i].WaitChan? || s.pc[i].WaitSet?
    ensures |t.pc| == |s.pc|
    ensures s.pc[i].WaitSleep? ==> t.pc[i] == WaitCommit
    ensures s.pc[i].WaitCommit? ==> t.pc[i] == WaitChan
    ensures s.pc[i].WaitChan? ==> t.pc[i] == WaitSet && t.chan[i].OwnChan?
    ensures s.pc[i].WaitSet? ==> t.pc[i] == Switch(WaitSpin) && t.st[i].Sleeping? && t.chan[i] == s.chan[i]
  {
    assert UnfoldStepped(0);
  }

  /** Process i has returned from wait, or sleeps, as its children in v demand. */
  predicate Over(v: State, i: nat, u: State) {
    && SameShape(v, u) && i < |u.pc|
    && (Childless(v, i) || !NoneExited(v, i, |v.pc|) ==> u.pc[i] == Out)
    && (!Childless(v, i) && NoneExited(v, i, |v.pc|) ==> u.st[i].Sleeping? && u.chan[i].OwnChan?)
  }

  lemma SleepAlone(n: nat, m: nat, es: seq<Event>, i: nat, fs0: seq<Event>, s: State)
    returns (fs: seq<Event>, u: State)
    requires Along(n, m, es, i, fs0, s) && Inv(s) && i < |s.pc| && s.pc[i].WaitSleep? && s.plock[i].Nobody?
    ensures Along(n, m, es, i, fs, u) && Shape(u) && |u.pc| == |s.pc|
    ensures u.pc[i] == Switch(WaitSpin) && u.st[i].Sleeping? && u.chan[i].OwnChan?
  {
    var s1, s2, s3;
    fs, s1 := Go(n, m, es, i, fs0, s, Use);
    SleepStep(s, i, s1);
    fs, s2 := Go(n, m, es, i, fs, s1, Use);
    SleepStep(s1, i, s2);
    fs, s3 := Go(n, m, es, i, fs, s2, Use);
    SleepStep(s2, i, s3);
    fs, u := Go(n, m, es, i, fs, s3, Use);
    SleepStep(s3, i, u);
  }

  lemma {:induction false} ScanAlone(n: nat, m: nat, es: seq<Event>, v: State, i: nat, fs0: seq<Event>, s: State)
    returns (fs: seq<Event>, u: State)
    requires Along(n, m, es, i, fs0, s) && Inv(s) && Scanned(v, i, s) && s.pc[i].WaitScan? && Undisturbed(s, i)
    ensures Along(n, m, es, i, fs, u) && Over(v, i, u)
    decreases |s.pc| + 1 - s.pc[i].j
  {
    var t;
    fs, t := Go(n, m, es, i, fs0, s, Use);
    ScanStep(v, s, i, t);
    if t.pc[i].WaitScan? {
      fs, u := ScanAlone(n, m, es, v, i, fs, t);
    } else if t.pc[i].WaitDone? {
      fs, u := Go(n, m, es, i, fs, t, Use);
      DoneStep(t, i, u);
    } else {
      fs, u := SleepAlone(n, m, es, i, fs, t);
    }
  }

  /** In every run, a process that calls wait and is left alone comes back if it has an exited child or no child at all;
      otherwise it goes to sleep on its own address. */
  lemma WaitAlone(n: nat, m: nat, es: seq<Event>, s: State, i: nat) returns (fs: seq<Event>, u: State)
    requires 0 < n && 0 < m && Runs(n, m, es, s) && Shape(s) && i < |s.pc| && s.pc[i].WaitSpin? && s.wl.Nobody?
    requires Undisturbed(s, i)
    ensures Own(fs, i) && Runs(n, m, es + fs, u) && Over(s, i, u)
  {
    RunsInv(n, m, es, s);
    Begin(n, m, es, i, s);
    var v;
    fs, v := Go(n, m, es, i, [], s, Use);
    BeginWait(s, i, v);
    fs, u := ScanAlone(n, m, es, v, i, fs, v);
    assert UnfoldAlong(0);
  }

  /** In every run, kill makes a sleeping process RUNNABLE and changes nothing else. */
  lemma KillWakes(n: nat, m: nat, es: seq<Event>, s: State, i: nat, j: nat) returns (fs: seq<Event>, u: State)
    requires 0 < n && 0 < m && Runs(n, m, es, s) && Shape(s) && i < |s.pc| && s.pc[i].Out?
    requires j < |s.pc| && j != i && s.plock[j].Nobody?
    ensures Own(fs, i) && Runs(n, m, es + fs, u)
    ensures u == s.(st := s.st[j := if s.st[j].Sleeping? then Runnable else s.st[j]])
  {
    RunsInv(n, m, es, s);
    Begin(n, m, es, i, s);
    KnownAll(s, j);
    fs, u := Go(n, m, es, i, [], s, Kick(j));
    KillStep(s, i, j, u);
    assert UnfoldAlong(0);
  }

  lemma KillStep(s: State, i: nat, j: nat, u: State)
    requires Stepped(s, i, Kick(j), u) && i < |s.pc| && s.pc[i].Out? && j < |s.pc| && j != i
    ensures u == s.(st := s.st[j := if s.st[j].Sleeping? then Runnable else s.st[j]])
  {
    assert UnfoldStepped(0);
  }

  /** In every run, a process outside calls can call wait, and can call exit unless it is init. */
  lemma CallsBegin(n: nat, m: nat, es: seq<Event>, s: State, i: nat, choice: Choice) returns (fs: seq<Event>, u: State)
    requires 0 < n && 0 < m && Runs(n, m, es, s) && Shape(s) && i < |s.pc| && s.pc[i].Out?
    requires choice.Wait? || (choice.Exit? && i != 0)
    ensures Own(fs, i) && Runs(n, m, es + fs, u)
    ensures u == s.(pc := s.pc[i := if choice.Wait? then WaitSpin else ExitSpin])
  {
    RunsInv(n, m, es, s);
    Begin(n, m, es, i, s);
    KnownAll(s, i);
    fs, u := Go(n, m, es, i, [], s, choice);
    BeginStep(s, i, choice, u);
    assert UnfoldAlong(0);
  }

  lemma BeginStep(s: State, i: nat, choice: Choice, u: State)
    requires Stepped(s, i, choice, u) && i < |s.pc| && s.pc[i].Out? && (choice.Wait? || choice.Exit?)
    ensures u == s.(pc := s.pc[i := if choice.Wait? then WaitSpin else ExitSpin])
  {
    assert UnfoldStepped(0);
  }

  // Other sleeps.

  lemma NapStep(s: State, i: nat, u: State)
    requires Stepped(s, i, Nap, u) && i < |s.pc| && s.pc[i].Out?
    ensures u == s.(pc := s.pc[i := NapSet], plock := s.plock[i := Proc(i)])
  {
    assert UnfoldStepped(0);
  }

  lemma NapSetStep(s: State, i: nat, u: State)
    requires Stepped(s, i, Use, u) && i < |s.pc| && s.pc[i].NapSet?
    ensures u == s.(pc := s.pc[i := Switch(Out)], chan := s.chan[i := OtherChan], st := s.st[i := Sleeping])
  {
    assert UnfoldStepped(0);
  }

  lemma SwitchStep(s: State, i: nat, u: State)
    requires Stepped(s, i, Use, u) && i < |s.pc| && s.pc[i] == Switch(Out)
    ensures s.at[i] < |s.cpu|
    ensures u == s.(pc := s.pc[i := Away(Out)], plock := s.plock[i := Sched(s.at[i])],
                    cpu := s.cpu[s.at[i] := Back(i)])
  {
    assert UnfoldStepped(0);
  }

  lemma NapBegins(n: nat, m: nat, es: seq<Event>, i: nat, s: State) returns (fs: seq<Event>, t: State)
    requires Along(n, m, es, i, [], s) && Inv(s) && i < |s.pc| && s.pc[i].Out? && s.plock[i].Nobody?
    ensures Along(n, m, es, i, fs, t) && Inv(t)
    ensures t == s.(pc := s.pc[i := Switch(Out)], chan := s.chan[i := OtherChan], st := s.st[i := Sleeping],
                    plock := s.plock[i := Proc(i)])
  {
    var s1;
    fs, s1 := Go(n, m, es, i, [], s, Nap);
    NapStep(s, i, s1);
    fs, t := Go(n, m, es, i, fs, s1, Use);
    NapSetStep(s1, i, t);
  }

  /** In every run, a process that sleeps for something else and is left alone is asleep and has left its CPU. */
  lemma NapAlone(n: nat, m: nat, es: seq<Event>, s: State, i: nat) returns (fs: seq<Event>, u: State)
    requires 0 < n && 0 < m && Runs(n, m, es, s) && Shape(s) && i < |s.pc| && s.pc[i].Out? && s.plock[i].Nobody?
    ensures Own(fs, i) && Runs(n, m, es + fs, u) && s.at[i] < |s.cpu|
    ensures u == s.(pc := s.pc[i := Away(Out)], st := s.st[i := Sleeping], chan := s.chan[i := OtherChan],
                    plock := s.plock[i := Sched(s.at[i])], cpu := s.cpu[s.at[i] := Back(i)])
  {
    RunsInv(n, m, es, s);
    Begin(n, m, es, i, s);
    var s1;
    fs, s1 := NapBegins(n, m, es, i, s);
    fs, u := Go(n, m, es, i, fs, s1, Use);
    SwitchStep(s1, i, u);
    assert UnfoldAlong(0);
  }
}
