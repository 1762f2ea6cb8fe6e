/**
 What a whole call of wait (kernel/proc.c) does, in every run of ExitWait: it frees the first of its exited
 children, just one, or it has no child.
 */
module WaitCalls {
  import opened Cpus
  import opened ExitWait

  /** Through the events fs, from s to u, process i has been in one call of wait, in which nothing failed: it has not
      been found killed, and the exit status could be copied out. */
  ghost predicate Waits(s: State, i: nat, fs: seq<Event>, u: State)
    decreases |fs|
  {
    if fs == [] then u == s && Shape(s) && i < |s.pc| && s.pc[i] == WaitSpin
    else
      var e := fs[|fs| - 1];
      exists t: State :: Waits(s, i, fs[..|fs| - 1], t) && Continues(t, i, e, u)
  }

  predicate Continues(t: State, i: nat, e: Event, u: State) {
    && Shape(t) && Enabled(t, e) && e != Step(i, Fail) && u == Apply(t, e)
    && i < |u.pc| && InWait(Task(u.pc[i]))
  }

  /** v is a moment of the call. */
  ghost predicate Within(s: State, i: nat, fs: seq<Event>, v: State) {
    exists k :: 0 <= k <= |fs| && Waits(s, i, fs[..k], v)
  }

  predicate SameShape(v: State, u: State) {
    Shape(v) && Shape(u) && |u.pc| == |v.pc|
  }

  predicate Childless(v: State, i: nat)
    requires Shape(v)
  {
    forall z :: 0 <= z < |v.pc| ==> v.par[z] != i
  }

  /** None of the first n slots holds an exited child of i. */
  predicate NoneExited(v: State, i: nat, n: nat)
    requires Shape(v) && n <= |v.pc|
  {
    forall z :: 0 <= z < n && v.par[z] == i ==> !v.st[z].Zombie?
  }

  predicate SameZombies(v: State, u: State)
    requires SameShape(v, u)
  {
    forall z :: 0 <= z < |v.pc| ==> (u.st[z].Zombie? <==> v.st[z].Zombie?)
  }

  predicate Untouched(v: State, u: State) {
    SameShape(v, u) && u.par == v.par && u.reaps == v.reaps && SameZombies(v, u)
  }

  /** Of the exited children that i had in v, the first is freed in u, and no other process is; a fork may have taken
      the slot since. */
  predicate Freed(v: State, i: nat, z: nat, u: State) {
    && SameShape(v, u) && z < |v.pc|
    && v.par[z] == i && v.st[z].Zombie? && NoneExited(v, i, z)
    && (u.st[z].Unused? || u.st[z].Used?) && u.par == v.par[z := -1]
    && u.reaps == v.reaps[z := v.reaps[z] + multiset{i}]
    && forall y :: 0 <= y < |v.pc| && y != z ==> (u.st[y].Zombie? <==> v.st[y].Zombie?)
  }

  /** How far the scan that began in v has come. */
  ghost predicate Scanned(v: State, i: nat, u: State) {
    && SameShape(v, u) && i < |u.pc|
    && match u.pc[i]
       case WaitScan(j, kids) =>
         && Untouched(v, u) && j <= |v.pc| && NoneExited(v, i, j)
         && (kids <==> exists z :: 0 <= z < j && v.par[z] == i)
       case WaitSleep => Untouched(v, u) && NoneExited(v, i, |v.pc|) && !Childless(v, i)
       case WaitCommit => Untouched(v, u) && NoneExited(v, i, |v.pc|) && !Childless(v, i)
       case WaitDone => (Childless(v, i) && Untouched(v, u)) || exists z: nat :: Freed(v, i, z, u)
       case _ => false
  }

  // What others do while i holds wait_lock.

  /** Parents, exits and frees are guarded by wait_lock. */
  predicate Guarded(t: State, u: State, i: nat) {
    && Untouched(t, u) && i < |t.pc| && u.pc[i] == t.pc[i] && u.wl == t.wl
    && forall z :: 0 <= z < |t.pc| && (t.st[z].Unused? || t.st[z].Used?) && t.par[z] == -1 ==>
         u.st[z].Unused? || u.st[z].Used?
  }

  lemma SchedulerGuarded(t: State, e: Event, i: nat)
    requires Inv(t) && Enabled(t, e) && !e.Step? && i < |t.pc| && !t.pc[i].Away?
    ensures Guarded(t, Apply(t, e), i)
  {
    if e.Choose? { KnownAll(t, t.cpu[e.c].j); }
  }

  lemma ForkGuarded(t: State, a: nat, choice: Choice, i: nat)
    requires Inv(t) && Enabled(t, Step(a, choice)) && Steps(t, a) && CanFork(t, a, choice) && a != i
    requires i < |t.pc| && t.wl == Proc(i) && t.st[i].Running?
    requires forall z :: 0 <= z < |t.pc| ==> UsedAt(t, z) && StatusAt(t, z)
    ensures Guarded(t, Do(t, a, NextFork(t, a, choice)), i)
  {
    PlainFork(t, a, choice);
  }

  lemma WaitGuarded(t: State, a: nat, choice: Choice, i: nat)
    requires Inv(t) && Steps(t, a) && InWait(t.pc[a]) && CanWait(t, a, choice) && a != i
    requires i < |t.pc| && t.wl == Proc(i)
    ensures Guarded(t, Do(t, a, NextWait(t, a, choice)), i)
  {
  }

  lemma OthersGuarded(t: State, e: Event, i: nat)
    requires Inv(t) && Enabled(t, e) && (e.Step? ==> e.i != i) && i < |t.pc| && t.wl == Proc(i) && InWait(t.pc[i])
    ensures Guarded(t, Apply(t, e), i)
  {
    KnownAll(t, i);
    if !e.Step? {
      SchedulerGuarded(t, e, i);
    } else {
      StepsNow(t, e.i, e.choice);
      if e.choice.Preempt? || !(InExit(t.pc[e.i]) || InWait(t.pc[e.i])) {
        forall z | 0 <= z < |t.pc| ensures UsedAt(t, z) && StatusAt(t, z) { KnownAll(t, z); }
        ForkGuarded(t, e.i, e.choice, i);
      } else if InWait(t.pc[e.i]) {
        WaitGuarded(t, e.i, e.choice, i);
      }
    }
  }

  lemma GuardedScan(v: State, t: State, u: State, i: nat)
    requires Scanned(v, i, t) && Guarded(t, u, i)
    ensures Scanned(v, i, u)
  {
    if t.pc[i].WaitDone? && !(Childless(v, i) && Untouched(v, t)) {
      var z: nat :| Freed(v, i, z, t);
      assert Freed(v, i, z, u);
    }
  }

  // What i does.

  lemma OwnScan(v: State, t: State, i: nat)
    requires Inv(t) && Enabled(t, Step(i, Use)) && Scanned(v, i, t)
    ensures var u := Apply(t, Step(i, Use)); HoldsWl(u.pc[i]) ==> Scanned(v, i, u)
  {
    var u := Apply(t, Step(i, Use));
    StepsNow(t, i, Use);
    if t.pc[i].WaitScan? {
      var j := t.pc[i].j;
      if j < |t.pc| && t.par[j] == i && t.st[j].Zombie? {
        assert Freed(v, i, j, u);
      }
    }
  }

  /** Process i has freed nothing between s and u. */
  predicate FreedNothing(s: State, i: nat, u: State) {
    SameShape(s, u) && forall z :: 0 <= z < |s.pc| ==> u.reaps[z][i] == s.reaps[z][i]
  }

  /** Process i has freed z, once, and nothing else. */
  predicate FreedOnly(s: State, i: nat, z: nat, u: State) {
    && SameShape(s, u)
    && forall y :: 0 <= y < |s.pc| ==> u.reaps[y][i] == s.reaps[y][i] + if y == z then 1 else 0
  }

  lemma OthersFree(t: State, e: Event, i: nat)
    requires Inv(t) && Enabled(t, e) && (e.Step? ==> e.i != i) && i < |t.pc|
    ensures var u := Apply(t, e); FreedNothing(t, i, u) && (HoldsWl(u.pc[i]) ==> HoldsWl(t.pc[i]))
  {
  }

  lemma OwnUnlocked(t: State, i: nat, choice: Choice)
    requires Inv(t) && Enabled(t, Step(i, choice)) && !HoldsWl(t.pc[i]) && InWait(Task(t.pc[i]))
    ensures var u := Apply(t, Step(i, choice));
            && FreedNothing(t, i, u)
            && (HoldsWl(u.pc[i]) ==> u.pc[i] == WaitScan(0, false) && u.wl == Proc(i))
  {
    StepsNow(t, i, choice);
  }

  /** Where the call has come to, given the moment v when its last scan began. */
  ghost predicate Progress(s: State, i: nat, fs: seq<Event>, v: State, u: State) {
    && SameShape(s, u) && i < |u.pc|
    && if HoldsWl(u.pc[i]) then Began(s, i, fs, v) && FreedNothing(s, i, v) && Scanned(v, i, u)
       else FreedNothing(s, i, u)
  }

  ghost predicate Began(s: State, i: nat, fs: seq<Event>, v: State) {
    Within(s, i, fs, v) && i < |v.pc| && v.pc[i] == WaitScan(0, false) && v.wl == Proc(i)
  }

  lemma WithinLonger(s: State, i: nat, fs: seq<Event>, v: State)
    requires fs != [] && Within(s, i, fs[..|fs| - 1], v)
    ensures Within(s, i, fs, v)
  {
    var gs := fs[..|fs| - 1];
    var k :| 0 <= k <= |gs| && Waits(s, i, gs[..k], v);
    assert gs[..k] == fs[..k];
  }

  lemma Locked(t: State, i: nat)
    requires Inv(t) && i < |t.pc| && HoldsWl(t.pc[i])
    ensures t.wl == Proc(i)
  {
    KnownAll(t, i);
  }

  lemma LockedStep(s: State, i: nat, fs: seq<Event>, v: State, t: State, e: Event, u: State)
    requires Inv(t) && i < |t.pc| && HoldsWl(t.pc[i]) && InWait(t.pc[i]) && FreedNothing(s, i, v) && Scanned(v, i, t)
    requires Continues(t, i, e, u) && Began(s, i, fs, v)
    ensures Progress(s, i, fs, v, u)
  {
    Locked(t, i);
    if e.Step? && e.i == i {
      StepsNow(t, i, e.choice);
      assert e.choice == Use;
      OwnScan(v, t, i);
      LeavesScan(v, t, i);
    } else {
      OthersGuarded(t, e, i);
      GuardedScan(v, t, u, i);
    }
  }

  lemma UnlockedStep(s: State, i: nat, fs: seq<Event>, t: State, e: Event, u: State)
    requires Inv(t) && i < |t.pc| && !HoldsWl(t.pc[i]) && InWait(Task(t.pc[i])) && FreedNothing(s, i, t)
    requires Continues(t, i, e, u) && Waits(s, i, fs, u)
    ensures Progress(s, i, fs, u, u)
  {
    if e.Step? && e.i == i { OwnUnlocked(t, i, e.choice); } else { OthersFree(t, e, i); }
    assert fs[..|fs|] == fs;
  }

  lemma LeavesScan(v: State, t: State, i: nat)
    requires Inv(t) && Enabled(t, Step(i, Use)) && Scanned(v, i, t)
    ensures var u := Apply(t, Step(i, Use)); !HoldsWl(u.pc[i]) && InWait(Task(u.pc[i])) ==> u.reaps == v.reaps
  {
  }

  lemma {:induction false} Along(s: State, i: nat, fs: seq<Event>, u: State) returns (v: State)
    requires Inv(s) && Waits(s, i, fs, u)
    ensures Inv(u) && Progress(s, i, fs, v, u)
    decreases |fs|
  {
    if fs == [] {
      v := s;
    } else {
      var e := fs[|fs| - 1];
      var t: State :| Waits(s, i, fs[..|fs| - 1], t) && Continues(t, i, e, u);
      v := Along(s, i, fs[..|fs| - 1], t);
      ApplyInv(t, e);
      InCall(s, i, fs[..|fs| - 1], t);
      if HoldsWl(t.pc[i]) {
        WithinLonger(s, i, fs, v);
        LockedStep(s, i, fs, v, t, e, u);
      } else {
        UnlockedStep(s, i, fs, t, e, u);
        v := u;
      }
    }
  }

  lemma InCall(s: State, i: nat, fs: seq<Event>, u: State)
    requires Waits(s, i, fs, u)
    ensures Shape(u) && i < |u.pc| && InWait(Task(u.pc[i]))
  {
  }

  /** In every run, for a call of wait in which nothing fails: if the process has a child when its last scan begins,
      just one slot is freed by it, that of the first exited child; otherwise it frees nothing. */
  lemma WaitReturns(n: nat, m: nat, es: seq<Event>, s: State, i: nat, fs: seq<Event>, u: State) returns (v: State)
    requires 0 < n && 0 < m && Runs(n, m, es, s) && Waits(s, i, fs, u) && u.pc[i].WaitDone?
    ensures Began(s, i, fs, v)
    ensures FreedNothing(s, i, u) <==> Childless(v, i)
    ensures !Childless(v, i) ==> exists z: nat :: Freed(v, i, z, u) && FreedOnly(s, i, z, u)
    ensures Enabled(u, Step(i, Use)) ==> Apply(u, Step(i, Use)).pc[i] == Out
  {
    RunsInv(n, m, es, s);
    v := Along(s, i, fs, u);
    FreedOne(s, i, v, u);
  }

  lemma FreedOne(s: State, i: nat, v: State, u: State)
    requires FreedNothing(s, i, v) && Scanned(v, i, u) && u.pc[i].WaitDone?
    ensures FreedNothing(s, i, u) <==> Childless(v, i)
    ensures !Childless(v, i) ==> exists z: nat :: Freed(v, i, z, u) && FreedOnly(s, i, z, u)
  {
    if !Childless(v, i) {
      var z: nat :| Freed(v, i, z, u);
      assert u.reaps[z][i] == s.reaps[z][i] + 1;
    }
  }

  /** In every run, a step of wait that finds the process killed, or cannot copy out the exit status, frees nothing,
      and nothing has been freed before. */
  lemma WaitFails(n: nat, m: nat, es: seq<Event>, s: State, i: nat, fs: seq<Event>, t: State)
    requires 0 < n && 0 < m && Runs(n, m, es, s) && Waits(s, i, fs, t) && Shape(t) && Enabled(t, Step(i, Fail))
    ensures var u := Apply(t, Step(i, Fail)); FreedNothing(s, i, u) && u.st == t.st && u.par == t.par
  {
    RunsInv(n, m, es, s);
    var v := Along(s, i, fs, t);
    InCall(s, i, fs, t);
    FailStep(t, i);
  }

  lemma FailStep(t: State, i: nat)
    requires Inv(t) && Enabled(t, Step(i, Fail)) && InWait(Task(t.pc[i]))
    ensures t.pc[i].WaitScan?
    ensures var u := Apply(t, Step(i, Fail)); u.reaps == t.reaps && u.st == t.st && u.par == t.par
  {
    StepsNow(t, i, Fail);
  }
}
