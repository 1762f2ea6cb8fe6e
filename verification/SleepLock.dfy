/**
 Sleep locks over sleep and wakeup (kernel/sleeplock.c, kernel/proc.c) as a step machine:
 any number of processes on any number of CPUs, with every spin-lock acquisition, every
 release and every write to shared state between them a step of its own.  One sleep lock is
 modelled; what processes do besides using it appears as sleeping on other channels, being
 preempted, and waking others up.
 */
module SleepLock {
  import opened Cpus

  datatype Status = Runnable | Running | Sleeping
  datatype Chan = NoChan | ThisLock | OtherChan

  /** What a process does next. */
  datatype Pc =
    | Out                     // does not use the lock
    | AcqSpin                 // acquiresleep: acquire(&lk->lk)
    | AcqTest                 // while (lk->locked)
    | AcqSet                  // lk->locked = 1; lk->pid = ...
    | AcqDone                 // release(&lk->lk)
    | Has                     // holds the sleep lock
    | RelSpin                 // releasesleep: acquire(&lk->lk)
    | RelClear                // lk->locked = 0; lk->pid = 0
    | Scan(j: nat)            // wakeup: at the head of the loop, about to acquire j's lock
    | ScanTest(j: nat)        // if SLEEPING on lk, make it RUNNABLE
    | ScanRel(j: nat)         // release j's lock
    | RelDone                 // release(&lk->lk)
    | SleepOwn                // sleep: acquire(&p->lock)
    | SleepRel                // release(lk)
    | SleepChan               // p->chan = chan
    | SleepSet                // p->state = SLEEPING
    | NapSet                  // sleep on another channel: chan and state
    | YieldSet(k: Pc)         // yield: p->state = RUNNABLE
    | Switch(k: Pc)           // sched: swtch to the scheduler
    | Away(k: Pc)             // switched out
    | Resume(k: Pc)           // running again: p->chan = 0, release(&p->lock)
    | KickTest(j: nat)        // kill or another wakeup: if SLEEPING elsewhere or killed, make it RUNNABLE
    | KickRel(j: nat)

  datatype State = State(
    lk: Holder, locked: bool, pid: nat,
    plock: seq<Holder>, st: seq<Status>, chan: seq<Chan>, pc: seq<Pc>,
    cpu: seq<Cpu>, at: seq<nat>)

  /** at records on which CPU a process runs. */
  predicate Shape(s: State) {
    |s.st| == |s.pc| == |s.plock| == |s.chan| == |s.at|
  }

  /** Where a process may be preempted: it holds no spin lock. */
  predicate Open(k: Pc) { k.Out? || k.AcqSpin? || k.Has? || k.RelSpin? }

  /** What the process will do next, whether or not it is switched out. */
  function Task(pc: Pc): Pc {
    if pc.YieldSet? || pc.Switch? || pc.Away? || pc.Resume? then pc.k else pc
  }

  /** The process whose lock process i holds at this point; none is -1. */
  function Held(i: nat, pc: Pc): int {
    if pc.SleepRel? || pc.SleepChan? || pc.SleepSet? || pc.NapSet? || pc.YieldSet? || pc.Switch? || pc.Resume? then i
    else if pc.ScanTest? || pc.ScanRel? || pc.KickTest? || pc.KickRel? then pc.j
    else -1
  }

  predicate HoldsLk(pc: Pc) {
    || pc.AcqTest? || pc.AcqSet? || pc.AcqDone? || pc.RelClear? || pc.RelDone?
    || pc.Scan? || pc.ScanTest? || pc.ScanRel? || pc.SleepOwn? || pc.SleepRel?
  }

  /** The process holds the sleep lock. */
  predicate Owner(pc: Pc) {
    var k := Task(pc); k.AcqDone? || k.Has? || k.RelSpin? || k.RelClear?
  }

  datatype Event =
    | Grab(c: nat, j: nat)         // scheduler on c acquires j's lock
    | Choose(c: nat)               // and runs j if it is RUNNABLE
    | Drop(c: nat)                 // scheduler releases the lock
    | Step(i: nat, choice: Choice) // process i takes a step

  datatype Choice = Use | Preempt | Nap | Kick(j: nat)

  predicate Enabled(s: State, e: Event)
    requires Shape(s)
  {
    match e
    case Grab(c, j) => c < |s.cpu| && j < |s.pc| && s.cpu[c].Idle? && s.plock[j].Nobody?
    case Choose(c) => c < |s.cpu| && s.cpu[c].Got? && s.cpu[c].j < |s.pc|
    case Drop(c) => c < |s.cpu| && s.cpu[c].Back? && s.cpu[c].j < |s.pc|
    case Step(i, choice) => i < |s.pc| && s.at[i] < |s.cpu| && s.cpu[s.at[i]] == On(i) && CanStep(s, i, choice)
  }

  /** Spin locks must be free to be acquired. */
  predicate CanStep(s: State, i: nat, choice: Choice)
    requires Shape(s) && i < |s.pc|
  {
    match choice
    case Preempt => Open(s.pc[i]) && s.plock[i].Nobody?
    case Nap => s.pc[i].Out? && s.plock[i].Nobody?
    case Kick(j) => s.pc[i].Out? && j < |s.pc| && j != i && s.plock[j].Nobody?
    case Use =>
      match s.pc[i]
      case AcqSpin => s.lk.Nobody?
      case RelSpin => s.lk.Nobody?
      case SleepOwn => s.plock[i].Nobody?
      case Scan(j) => j < |s.pc| && j != i ==> s.plock[j].Nobody?
      case ScanTest(j) => j < |s.pc|
      case ScanRel(j) => j < |s.pc|
      case KickTest(j) => j < |s.pc|
      case KickRel(j) => j < |s.pc|
      case Away(_) => false
      case _ => true
  }

  /** What a step of process i writes: its pc, the sleep lock, one process's lock, one process's state,
      its own channel and the state of its CPU. */
  datatype Effect = Effect(
    pc: Pc, lk: Holder, locked: bool, pid: nat,
    lj: nat, lh: Holder, sj: nat, sv: Status, ch: Chan, cpu: Cpu)

  function Do(s: State, i: nat, e: Effect): State
    requires Shape(s) && i < |s.pc| && s.at[i] < |s.cpu| && e.lj < |s.pc| && e.sj < |s.pc|
  {
    State(e.lk, e.locked, e.pid,
          s.plock[e.lj := e.lh], s.st[e.sj := e.sv], s.chan[i := e.ch], s.pc[i := e.pc],
          s.cpu[s.at[i] := e.cpu], s.at)
  }

  function Next(s: State, i: nat, choice: Choice): (e: Effect)
    requires Shape(s) && i < |s.pc| && s.at[i] < |s.cpu| && CanStep(s, i, choice)
    ensures e.lj < |s.pc| && e.sj < |s.pc|
  {
    var e := Effect(s.pc[i], s.lk, s.locked, s.pid, i, s.plock[i], i, s.st[i], s.chan[i], s.cpu[s.at[i]]);
    match choice
    case Preempt => e.(pc := YieldSet(s.pc[i]), lh := Proc(i))
    case Nap => e.(pc := NapSet, lh := Proc(i))
    case Kick(j) => e.(pc := KickTest(j), lj := j, lh := Proc(i))
    case Use =>
      match s.pc[i]
      case Out => e.(pc := AcqSpin)
      case AcqSpin => e.(pc := AcqTest, lk := Proc(i))
      case AcqTest => e.(pc := if s.locked then SleepOwn else AcqSet)
      case AcqSet => e.(pc := AcqDone, locked := true, pid := i)
      case AcqDone => e.(pc := Has, lk := Nobody)
      case Has => e.(pc := RelSpin)
      case RelSpin => e.(pc := RelClear, lk := Proc(i))
      case RelClear => e.(pc := Scan(0), locked := false, pid := 0)
      case Scan(j) =>
        if j >= |s.pc| then e.(pc := RelDone)
        else if j == i then e.(pc := Scan(j + 1))
        else e.(pc := ScanTest(j), lj := j, lh := Proc(i))
      case ScanTest(j) =>
        e.(pc := ScanRel(j), sj := j, sv := if s.st[j].Sleeping? && s.chan[j].ThisLock? then Runnable else s.st[j])
      case ScanRel(j) => e.(pc := Scan(j + 1), lj := j, lh := Nobody)
      case RelDone => e.(pc := Out, lk := Nobody)
      case SleepOwn => e.(pc := SleepRel, lh := Proc(i))
      case SleepRel => e.(pc := SleepChan, lk := Nobody)
      case SleepChan => e.(pc := SleepSet, ch := ThisLock)
      case SleepSet => e.(pc := Switch(AcqSpin), sv := Sleeping)
      case NapSet => e.(pc := Switch(Out), ch := OtherChan, sv := Sleeping)
      case YieldSet(k) => e.(pc := Switch(k), sv := Runnable)
      case Switch(k) => e.(pc := Away(k), lh := Sched(s.at[i]), cpu := Back(i))
      case Away(k) => e
      case Resume(k) => e.(pc := k, ch := NoChan, lh := Nobody)
      case KickTest(j) => e.(pc := KickRel(j), sj := j, sv := if s.st[j].Sleeping? then Runnable else s.st[j])
      case KickRel(j) => e.(pc := Out, lj := j, lh := Nobody)
  }

  function Apply(s: State, e: Event): State
    requires Shape(s) && Enabled(s, e)
  {
    match e
    case Grab(c, j) => s.(cpu := s.cpu[c := Got(j)], plock := s.plock[j := Sched(c)])
    case Choose(c) =>
      var j := s.cpu[c].j;
      if s.st[j].Runnable? && s.pc[j].Away? then
        s.(st := s.st[j := Running], cpu := s.cpu[c := On(j)], plock := s.plock[j := Proc(j)], at := s.at[j := c],
           pc := s.pc[j := Resume(s.pc[j].k)])
      else s.(cpu := s.cpu[c := Back(j)])
    case Drop(c) => s.(cpu := s.cpu[c := Idle], plock := s.plock[s.cpu[c].j := Nobody])
    case Step(i, choice) => Do(s, i, Next(s, i, choice))
  }

  // The invariant.

  /** The sleep lock's spin lock is held by the process at a point between its acquire and release. */
  ghost predicate LkOk(s: State) {
    && (forall i :: 0 <= i < |s.pc| ==> (s.lk == Proc(i) <==> HoldsLk(s.pc[i])))
    && (s.lk.Proc? ==> s.lk.i < |s.pc|) && !s.lk.Sched?
  }

  /** The same for the processes' locks. */
  ghost predicate PlocksOk(s: State)
    requires Shape(s)
  {
    && (forall i, j :: 0 <= i < |s.pc| && 0 <= j < |s.pc| ==> (s.plock[j] == Proc(i) <==> Held(i, s.pc[i]) == j))
    && (forall i :: 0 <= i < |s.pc| ==> Held(i, s.pc[i]) < |s.pc|)
    && (forall j :: 0 <= j < |s.pc| && s.plock[j].Proc? ==> s.plock[j].i < |s.pc|)
    && (forall i :: 0 <= i < |s.pc| ==> NotSelf(i, s.pc[i]))
  }

  predicate NotSelf(i: nat, pc: Pc) {
    pc.ScanTest? || pc.ScanRel? || pc.KickTest? || pc.KickRel? ==> pc.j != i
  }

  ghost predicate CpusOk(s: State)
    requires Shape(s)
  {
    && (forall c, j :: 0 <= c < |s.cpu| && 0 <= j < |s.pc| ==>
       (s.plock[j] == Sched(c) <==> s.cpu[c] == Got(j) || s.cpu[c] == Back(j)))
    && (forall c :: 0 <= c < |s.cpu| && !s.cpu[c].Idle? ==> s.cpu[c].j < |s.pc|)
    && (forall j :: 0 <= j < |s.pc| && s.plock[j].Sched? ==> s.plock[j].c < |s.cpu|)
    && (forall j :: 0 <= j < |s.pc| ==> s.at[j] < |s.cpu|)
    && (forall c, j :: 0 <= c < |s.cpu| && 0 <= j < |s.pc| ==> (s.cpu[c] == On(j) <==> !s.pc[j].Away? && s.at[j] == c))
  }

  ghost predicate StatusOk(s: State)
    requires Shape(s)
  {
    forall i :: 0 <= i < |s.pc| ==>
      && (s.st[i].Running? <==> !s.pc[i].Switch? && !s.pc[i].Away?)
      && (s.pc[i].YieldSet? || s.pc[i].Switch? || s.pc[i].Away? || s.pc[i].Resume? ==> Open(s.pc[i].k))
  }

  /** The lock is held by whom it says; who is about to sleep has seen it held, and who is about to take it
      or is waking others up has seen it free. */
  predicate OwnerAt(s: State, i: nat)
    requires Shape(s) && i < |s.pc|
  {
    && (Owner(s.pc[i]) <==> s.locked && s.pid == i)
    && (s.pc[i].SleepOwn? || s.pc[i].SleepRel? ==> s.locked)
    && (s.pc[i].AcqSet? || s.pc[i].Scan? || s.pc[i].ScanTest? || s.pc[i].ScanRel? ==> !s.locked)
  }

  ghost predicate OwnerOk(s: State)
    requires Shape(s)
  {
    (forall i :: 0 <= i < |s.pc| ==> OwnerAt(s, i)) && (s.locked ==> s.pid < |s.pc|)
  }

  /** The process sleeps on the lock, or is past the point of no return to it. */
  predicate Committed(s: State, i: nat)
    requires Shape(s) && i < |s.pc|
  {
    s.pc[i].SleepChan? || s.pc[i].SleepSet? || (s.st[i].Sleeping? && s.chan[i].ThisLock?)
  }

  /** A releaser's scan has yet to reach process i. */
  predicate Pending(s: State, i: nat)
    requires Shape(s)
  {
    && s.lk.Proc? && s.lk.i < |s.pc|
    && match s.pc[s.lk.i]
       case Scan(j) => j <= i
       case ScanTest(j) => j <= i
       case ScanRel(j) => j < i
       case _ => false
  }

  /** If x is committed to sleeping, the lock is held or a wakeup is on its way to x. */
  predicate WakeAt(s: State, x: nat)
    requires Shape(s) && x < |s.pc|
  {
    Committed(s, x) ==> s.locked || Pending(s, x)
  }

  ghost predicate WakeOk(s: State)
    requires Shape(s)
  {
    forall i :: 0 <= i < |s.pc| ==> WakeAt(s, i)
  }

  predicate UnfoldInv(u: int) { true }

  ghost predicate Inv(s: State) {
    Shape(s) && forall u {:trigger UnfoldInv(u)} :: UnfoldInv(u) ==>
      LkOk(s) && PlocksOk(s) && CpusOk(s) && StatusOk(s) && OwnerOk(s) && WakeOk(s)
  }

  // Steps of a process.

  predicate LkMove(s: State, i: nat, e: Effect)
    requires i < |s.pc|
  {
    || (e.lk == s.lk && (HoldsLk(e.pc) <==> HoldsLk(s.pc[i])))
    || (s.lk.Nobody? && e.lk == Proc(i) && HoldsLk(e.pc))
    || (HoldsLk(s.pc[i]) && e.lk.Nobody? && !HoldsLk(e.pc))
  }

  predicate PlockMove(s: State, i: nat, e: Effect)
    requires Shape(s) && i < |s.pc| && e.lj < |s.pc| && s.at[i] < |s.cpu|
  {
    var (h, h') := (Held(i, s.pc[i]), Held(i, e.pc));
    && NotSelf(i, e.pc)
    && (|| (h' == h && e.lh == s.plock[e.lj])
        || (h == -1 && h' == e.lj && s.plock[e.lj].Nobody? && e.lh == Proc(i))
        || (h == e.lj && h' == -1 && !e.lh.Proc?))
  }

  predicate CpuMove(s: State, i: nat, e: Effect)
    requires Shape(s) && i < |s.pc| && e.lj < |s.pc| && s.at[i] < |s.cpu|
  {
    || (e.cpu == s.cpu[s.at[i]] && !e.pc.Away? && !e.lh.Sched? && !s.plock[e.lj].Sched?)
    || (e.cpu == s.cpu[s.at[i]] && !e.pc.Away? && e.lh == s.plock[e.lj])
    || (e.cpu == Back(i) && e.pc.Away? && e.lj == i && e.lh == Sched(s.at[i]) && s.plock[i] == Proc(i))
  }

  /** What the invariant says about the locks and the state of one process. */
  predicate At(s: State, i: nat)
    requires Shape(s) && i < |s.pc|
  {
    && (s.lk == Proc(i) <==> HoldsLk(s.pc[i])) && !s.lk.Sched?
    && Held(i, s.pc[i]) < |s.pc| && (Held(i, s.pc[i]) >= 0 ==> s.plock[Held(i, s.pc[i])] == Proc(i))
    && NotSelf(i, s.pc[i])
    && (s.plock[i] == Proc(i) ==> Held(i, s.pc[i]) == i)
    && (s.st[i].Running? <==> !s.pc[i].Switch? && !s.pc[i].Away?)
    && (s.pc[i].YieldSet? || s.pc[i].Switch? || s.pc[i].Away? || s.pc[i].Resume? ==> Open(s.pc[i].k))
  }

  lemma AtAll(s: State, i: nat)
    requires Shape(s) && LkOk(s) && PlocksOk(s) && StatusOk(s) && i < |s.pc|
    ensures At(s, i)
  {
  }

  /** Process i runs on its CPU and may take a step. */
  predicate Steps(s: State, i: nat, choice: Choice)
    requires Shape(s)
  {
    i < |s.pc| && s.at[i] < |s.cpu| && s.cpu[s.at[i]] == On(i) && !s.pc[i].Away? && CanStep(s, i, choice) && At(s, i)
  }

  lemma LkMoves(s: State, i: nat, choice: Choice)
    requires Shape(s) && Steps(s, i, choice)
    ensures LkMove(s, i, Next(s, i, choice))
  {
  }

  lemma PlockMoves(s: State, i: nat, choice: Choice)
    requires Shape(s) && Steps(s, i, choice)
    ensures PlockMove(s, i, Next(s, i, choice))
  {
  }

  lemma CpuMoves(s: State, i: nat, choice: Choice)
    requires Shape(s) && Steps(s, i, choice)
    ensures CpuMove(s, i, Next(s, i, choice))
  {
  }

  lemma LkKept(s: State, i: nat, e: Effect)
    requires Shape(s) && i < |s.pc| && s.at[i] < |s.cpu| && e.lj < |s.pc| && e.sj < |s.pc| && LkOk(s) && LkMove(s, i, e)
    ensures LkOk(Do(s, i, e))
  {
  }

  lemma PlocksKept(s: State, i: nat, e: Effect)
    requires Shape(s) && i < |s.pc| && s.at[i] < |s.cpu| && e.lj < |s.pc| && e.sj < |s.pc| && PlocksOk(s)
    requires PlockMove(s, i, e)
    ensures PlocksOk(Do(s, i, e))
  {
    var s' := Do(s, i, e);
    forall a, j | 0 <= a < |s.pc| && 0 <= j < |s.pc| ensures s'.plock[j] == Proc(a) <==> Held(a, s'.pc[a]) == j {
      assert s.plock[j] == Proc(a) <==> Held(a, s.pc[a]) == j;
      assert s.plock[e.lj] == Proc(i) <==> Held(i, s.pc[i]) == e.lj;
    }
  }

  lemma CpusKept(s: State, i: nat, e: Effect)
    requires Shape(s) && i < |s.pc| && s.at[i] < |s.cpu| && e.lj < |s.pc| && e.sj < |s.pc| && CpusOk(s)
    requires CpuMove(s, i, e)
    requires s.cpu[s.at[i]] == On(i)
    ensures CpusOk(Do(s, i, e))
  {
  }

  predicate StatusMove(s: State, i: nat, e: Effect)
    requires Shape(s) && i < |s.pc| && e.sj < |s.pc|
  {
    && (e.pc.YieldSet? || e.pc.Switch? || e.pc.Away? || e.pc.Resume? ==> Open(e.pc.k))
    && (|| e.sv == s.st[e.sj]
        || (e.sj != i && s.st[e.sj].Sleeping? && e.sv.Runnable?)
        || (e.sj == i && !e.sv.Running? && e.pc.Switch?))
    && (e.sj != i || e.sv == s.st[i] ==> (s.st[i].Running? <==> !e.pc.Switch? && !e.pc.Away?))
  }

  lemma StatusMoves(s: State, i: nat, choice: Choice)
    requires Shape(s) && Steps(s, i, choice)
    ensures StatusMove(s, i, Next(s, i, choice))
  {
  }

  lemma StatusKept(s: State, i: nat, e: Effect)
    requires Shape(s) && i < |s.pc| && s.at[i] < |s.cpu| && e.lj < |s.pc| && e.sj < |s.pc| && StatusOk(s)
    requires StatusMove(s, i, e)
    ensures StatusOk(Do(s, i, e))
  {
  }

  lemma OwnerSelf(s: State, i: nat, choice: Choice)
    requires Shape(s) && Steps(s, i, choice) && OwnerAt(s, i)
    ensures OwnerAt(Do(s, i, Next(s, i, choice)), i)
  {
  }

  lemma OwnerOther(s: State, i: nat, choice: Choice, x: nat)
    requires Shape(s) && Steps(s, i, choice) && x < |s.pc| && x != i && At(s, x) && OwnerAt(s, i) && OwnerAt(s, x)
    ensures OwnerAt(Do(s, i, Next(s, i, choice)), x)
  {
  }

  lemma WakeSelf(s: State, i: nat, choice: Choice)
    requires Shape(s) && Steps(s, i, choice) && OwnerAt(s, i) && WakeAt(s, i)
    ensures WakeAt(Do(s, i, Next(s, i, choice)), i)
  {
  }

  lemma WakeOther(s: State, i: nat, choice: Choice, x: nat)
    requires Shape(s) && Steps(s, i, choice) && x < |s.pc| && x != i && At(s, x) && OwnerAt(s, i) && WakeAt(s, x)
    ensures WakeAt(Do(s, i, Next(s, i, choice)), x)
  {
  }

  lemma StepInv(s: State, i: nat, choice: Choice)
    requires Inv(s) && Enabled(s, Step(i, choice))
    ensures Inv(Do(s, i, Next(s, i, choice)))
  {
    var e := Next(s, i, choice);
    var s' := Do(s, i, e);
    assert Steps(s, i, choice) by { assert UnfoldInv(0); AtAll(s, i); }
    assert LkOk(s') by { assert UnfoldInv(0); LkMoves(s, i, choice); LkKept(s, i, e); }
    assert PlocksOk(s') by { assert UnfoldInv(0); PlockMoves(s, i, choice); PlocksKept(s, i, e); }
    assert CpusOk(s') by { assert UnfoldInv(0); CpuMoves(s, i, choice); CpusKept(s, i, e); }
    assert StatusOk(s') by { assert UnfoldInv(0); StatusMoves(s, i, choice); StatusKept(s, i, e); }
    StepTail(s, i, choice);
  }

  lemma StepTail(s: State, i: nat, choice: Choice)
    requires Inv(s) && Steps(s, i, choice)
    ensures var s' := Do(s, i, Next(s, i, choice)); OwnerOk(s') && WakeOk(s')
  {
    var s' := Do(s, i, Next(s, i, choice));
    forall x | 0 <= x < |s.pc| ensures OwnerAt(s', x) && WakeAt(s', x) {
      assert At(s, x) && OwnerAt(s, x) && OwnerAt(s, i) && WakeAt(s, x) by { assert UnfoldInv(0); AtAll(s, x); }
      if x == i {
        OwnerSelf(s, i, choice);
        WakeSelf(s, i, choice);
      } else {
        OwnerOther(s, i, choice, x);
        WakeOther(s, i, choice, x);
      }
    }
    assert s'.locked ==> s'.pid < |s'.pc| by {
      assert s.locked ==> s.pid < |s.pc| by { assert UnfoldInv(0); }
    }
  }

  // Steps of a scheduler.

  lemma GrabInv(s: State, c: nat, j: nat)
    requires Inv(s) && Enabled(s, Grab(c, j))
    ensures Inv(Apply(s, Grab(c, j)))
  {
    var s' := Apply(s, Grab(c, j));
    assert LkOk(s') && PlocksOk(s') by { assert UnfoldInv(0); }
    assert CpusOk(s') by { assert UnfoldInv(0); }
    assert StatusOk(s') by { assert UnfoldInv(0); }
    SameUsers(s, s');
  }

  /** Nothing about the sleep lock depends on the schedulers. */
  lemma SameUsers(s: State, s': State)
    requires Inv(s) && Shape(s') && s'.pc == s.pc && s'.lk == s.lk && s'.locked == s.locked && s'.pid == s.pid
    requires s'.st == s.st && s'.chan == s.chan
    ensures OwnerOk(s') && WakeOk(s')
  {
    assert UnfoldInv(0);
    forall x | 0 <= x < |s.pc| ensures OwnerAt(s', x) && WakeAt(s', x) { assert OwnerAt(s, x) && WakeAt(s, x); }
  }

  lemma DropInv(s: State, c: nat)
    requires Inv(s) && Enabled(s, Drop(c))
    ensures Inv(Apply(s, Drop(c)))
  {
    var s' := Apply(s, Drop(c));
    assert s.plock[s.cpu[c].j] == Sched(c) by { assert UnfoldInv(0); }
    assert LkOk(s') && PlocksOk(s') by { assert UnfoldInv(0); }
    assert CpusOk(s') by { assert CpusOk(s) by { assert UnfoldInv(0); } }
    assert StatusOk(s') by { assert UnfoldInv(0); }
    SameUsers(s, s');
  }

  lemma PassInv(s: State, c: nat)
    requires Inv(s) && Enabled(s, Choose(c)) && !s.st[s.cpu[c].j].Runnable?
    ensures Inv(Apply(s, Choose(c)))
  {
    var s' := Apply(s, Choose(c));
    assert LkOk(s') && PlocksOk(s') by { assert UnfoldInv(0); }
    assert CpusOk(s') by { assert CpusOk(s) by { assert UnfoldInv(0); } }
    assert StatusOk(s') by { assert UnfoldInv(0); }
    SameUsers(s, s');
  }

  /** A RUNNABLE process whose lock the scheduler holds is switched out. */
  lemma RunnableAway(s: State, c: nat)
    requires Inv(s) && Enabled(s, Choose(c)) && s.st[s.cpu[c].j].Runnable?
    ensures s.pc[s.cpu[c].j].Away? && s.plock[s.cpu[c].j] == Sched(c)
  {
    assert UnfoldInv(0);
    AtAll(s, s.cpu[c].j);
  }

  lemma RunInv(s: State, c: nat)
    requires Inv(s) && Enabled(s, Choose(c)) && s.st[s.cpu[c].j].Runnable?
    ensures Inv(Apply(s, Choose(c)))
  {
    var s' := Apply(s, Choose(c));
    RunnableAway(s, c);
    assert LkOk(s') && StatusOk(s') by { assert UnfoldInv(0); }
    RunPlocks(s, c);
    RunCpus(s, c);
    assert OwnerOk(s') && WakeOk(s') by {
      assert UnfoldInv(0);
      forall x | 0 <= x < |s.pc| ensures OwnerAt(s', x) && WakeAt(s', x) { assert OwnerAt(s, x) && WakeAt(s, x); }
    }
  }

  lemma RunPlocks(s: State, c: nat)
    requires Inv(s) && Enabled(s, Choose(c)) && s.st[s.cpu[c].j].Runnable? && s.pc[s.cpu[c].j].Away?
    requires s.plock[s.cpu[c].j] == Sched(c)
    ensures PlocksOk(Apply(s, Choose(c)))
  {
    assert PlocksOk(s) by { assert UnfoldInv(0); }
  }

  lemma RunCpus(s: State, c: nat)
    requires Inv(s) && Enabled(s, Choose(c)) && s.st[s.cpu[c].j].Runnable? && s.pc[s.cpu[c].j].Away?
    requires s.plock[s.cpu[c].j] == Sched(c)
    ensures CpusOk(Apply(s, Choose(c)))
  {
    assert CpusOk(s) by { assert UnfoldInv(0); }
  }

  // Runs.

  /** n processes that have just been made runnable, and m CPUs. */
  function Start(n: nat, m: nat): State {
    State(Nobody, false, 0,
          seq(n, _ => Nobody), seq(n, _ => Runnable), seq(n, _ => NoChan), seq(n, _ => Away(Out)),
          seq(m, _ => Idle), seq(n, _ => 0))
  }

  /** The interleaving es leads from the start to s. */
  ghost predicate Runs(n: nat, m: nat, es: seq<Event>, s: State)
    decreases |es|
  {
    if es == [] then s == Start(n, m)
    else
      var e := es[|es| - 1];
      exists s0: State :: Runs(n, m, es[..|es| - 1], s0) && Shape(s0) && Enabled(s0, e) && s == Apply(s0, e)
  }

  lemma ApplyInv(s: State, e: Event)
    requires Inv(s) && Enabled(s, e)
    ensures Inv(Apply(s, e))
  {
    match e
    case Grab(c, j) => GrabInv(s, c, j);
    case Choose(c) => if s.st[s.cpu[c].j].Runnable? { RunInv(s, c); } else { PassInv(s, c); }
    case Drop(c) => DropInv(s, c);
    case Step(i, choice) => StepInv(s, i, choice);
  }

  lemma {:induction false} RunsInv(n: nat, m: nat, es: seq<Event>, s: State)
    requires Runs(n, m, es, s) && 0 < m
    ensures Inv(s)
    decreases |es|
  {
    if es != [] {
      var e := es[|es| - 1];
      var s0: State :| Runs(n, m, es[..|es| - 1], s0) && Shape(s0) && Enabled(s0, e) && s == Apply(s0, e);
      RunsInv(n, m, es[..|es| - 1], s0);
      ApplyInv(s0, e);
    }
  }

  /** In every run at most one process holds the sleep lock. */
  lemma MutualExclusion(n: nat, m: nat, es: seq<Event>, s: State, i: nat, j: nat)
    requires Runs(n, m, es, s) && 0 < m && i < |s.pc| && j < |s.pc| && Owner(s.pc[i]) && Owner(s.pc[j])
    ensures i == j && s.locked && s.pid == i
  {
    RunsInv(n, m, es, s);
    assert UnfoldInv(0);
    assert OwnerAt(s, i) && OwnerAt(s, j);
  }

  /** In every run, a process asleep on the lock, or past the last check before that, finds the lock held or
      a releaser whose scan has not reached it; so when the spin lock is free the sleep lock is held. */
  lemma NoLostWakeup(n: nat, m: nat, es: seq<Event>, s: State, i: nat)
    requires Runs(n, m, es, s) && 0 < m && i < |s.pc|
    ensures Shape(s) && (Committed(s, i) ==> s.locked || Pending(s, i))
    ensures Committed(s, i) && s.lk.Nobody? ==> s.locked
  {
    RunsInv(n, m, es, s);
    assert UnfoldInv(0);
    assert WakeAt(s, i);
  }

  /** In every run no process is on two CPUs, and one that is on a CPU is RUNNING or about to switch away. */
  lemma OneCpu(n: nat, m: nat, es: seq<Event>, s: State, c: nat, d: nat, i: nat)
    requires Runs(n, m, es, s) && 0 < m && c < |s.cpu| && d < |s.cpu| && i < |s.pc| && s.cpu[c] == On(i)
    requires s.cpu[d] == On(i)
    ensures c == d && Shape(s) && (s.st[i].Running? || s.pc[i].Switch?)
  {
    RunsInv(n, m, es, s);
    assert s.at[i] == c && s.at[i] == d && !s.pc[i].Away? by { assert CpusOk(s) by { assert UnfoldInv(0); } }
    assert StatusOk(s) by { assert UnfoldInv(0); }
  }

  /** In every run a process that calls sched holds its own lock and no other, and is not RUNNING. */
  lemma SchedLocks(n: nat, m: nat, es: seq<Event>, s: State, i: nat, j: nat)
    requires Runs(n, m, es, s) && 0 < m && i < |s.pc| && s.pc[i].Switch? && j < |s.pc|
    ensures Shape(s) && s.plock[i] == Proc(i) && s.lk != Proc(i) && (j != i ==> s.plock[j] != Proc(i))
    ensures !s.st[i].Running?
  {
    RunsInv(n, m, es, s);
    assert UnfoldInv(0);
  }

  /** In every run, an idle CPU can run any RUNNABLE process whose lock is free, in two steps, and it then goes on from
      where it was switched out. */
  lemma CanBeRun(n: nat, m: nat, es: seq<Event>, s: State, c: nat, j: nat)
    requires Runs(n, m, es, s) && 0 < m && Shape(s) && c < |s.cpu| && s.cpu[c].Idle?
    requires j < |s.pc| && s.st[j].Runnable? && s.plock[j].Nobody?
    ensures s.pc[j].Away? && Enabled(s, Grab(c, j)) && Enabled(Apply(s, Grab(c, j)), Choose(c))
    ensures var s' := Apply(Apply(s, Grab(c, j)), Choose(c));
            s'.cpu[c] == On(j) && s'.at[j] == c && s'.st[j].Running? && s'.pc[j] == Resume(s.pc[j].k)
  {
    RunsInv(n, m, es, s);
    GrabInv(s, c, j);
    RunnableAway(Apply(s, Grab(c, j)), c);
  }
}
