/**
 The life of processes (fork, exit, reparent, wait, freeproc, sleep, wakeup and the scheduler
 of kernel/proc.c) as a step machine: any number of process slots on any number of CPUs.
 Spin locks are acquired and released in steps; a critical section that holds one process's
 lock and touches only what that lock guards is a single step.  Slot 0 is init.
 */
module ExitWait {
  import opened Cpus

  datatype Status = Unused | Used | Runnable | Running | Sleeping | Zombie
  datatype Chan = NoChan | OwnChan | OtherChan  // OwnChan: wait sleeps on the waiting process's own address

  /** What a process does next. */
  datatype Pc =
    | Out                           // user code, or kernel code that is not of interest here
    | ForkBody(j: nat)              // fork: has allocated slot j and holds its lock
    | ForkWait(j: nat)              // acquire(&wait_lock)
    | ForkPar(j: nat)               // np->parent = p; release(&wait_lock)
    | ForkRun(j: nat)               // np->state = RUNNABLE under np->lock
    | ExitSpin                      // exit: acquire(&wait_lock)
    | Rep(j: nat)                   // reparent: at slot j
    | RepScan(j: nat, w: nat)       // wakeup(initproc) for slot j: at slot w
    | Wake(w: nat)                  // wakeup(p->parent): at slot w
    | ExitLock                      // acquire(&p->lock)
    | ExitZombie                    // p->state = ZOMBIE
    | ExitRel                       // release(&wait_lock)
    | WaitSpin                      // wait: acquire(&wait_lock)
    | WaitScan(j: nat, kids: bool)  // at slot j
    | WaitDone                      // release(&wait_lock) and return
    | WaitSleep                     // sleep: acquire(&p->lock)
    | WaitCommit                    // release(&wait_lock)
    | WaitChan                      // p->chan = chan
    | WaitSet                       // p->state = SLEEPING
    | NapSet                        // sleep on another channel: chan and state
    | YieldSet(k: Pc)               // yield: p->state = RUNNABLE
    | Switch(k: Pc)                 // sched: swtch to the scheduler
    | Away(k: Pc)                   // switched out
    | Resume(k: Pc)                 // running again: p->chan = 0, release(&p->lock)
    | Dead                          // after exit

  /** par holds the parents, -1 for none; maker, exits and reaps record who allocated a slot, how often its
      process has come to the end of exit and who has freed it in wait. */
  datatype State = State(
    wl: Holder, plock: seq<Holder>, st: seq<Status>, chan: seq<Chan>, par: seq<int>, pc: seq<Pc>,
    cpu: seq<Cpu>, at: seq<nat>, maker: seq<nat>, exits: seq<nat>, reaps: seq<multiset<nat>>)

  predicate Shape(s: State) {
    |s.pc| == |s.st| == |s.plock| == |s.chan| == |s.par| == |s.at| == |s.maker| == |s.exits| == |s.reaps| > 0
  }

  predicate Open(k: Pc) { k.Out? || k.WaitSpin? || k.ExitSpin? || k.ForkWait? || k.ForkRun? }

  function Task(pc: Pc): Pc {
    if pc.YieldSet? || pc.Switch? || pc.Away? || pc.Resume? then pc.k else pc
  }

  /** The process whose lock process i holds at this point; none is -1. */
  function Held(i: nat, pc: Pc): int {
    if pc.ForkBody? then pc.j
    else if pc.WaitCommit? || pc.WaitChan? || pc.WaitSet? || pc.NapSet? || pc.YieldSet? || pc.Switch? || pc.Resume?
         || pc.ExitZombie? || pc.ExitRel? then i
    else -1
  }

  predicate HoldsWl(pc: Pc) {
    || pc.ForkPar? || pc.Rep? || pc.RepScan? || pc.Wake? || pc.ExitLock? || pc.ExitZombie? || pc.ExitRel?
    || pc.WaitScan? || pc.WaitDone? || pc.WaitSleep? || pc.WaitCommit?
  }

  datatype Choice = Use | Fail | Preempt | Nap | Kick(j: nat) | Fork(j: nat) | Exit | Wait

  datatype Event =
    | Grab(c: nat, j: nat)         // scheduler on c acquires j's lock
    | Choose(c: nat)               // and runs j if it is RUNNABLE
    | Drop(c: nat)                 // scheduler releases the lock
    | Step(i: nat, choice: Choice) // process i takes a step

  predicate Enabled(s: State, e: Event)
    requires Shape(s)
  {
    match e
    case Grab(c, j) => c < |s.cpu| && j < |s.pc| && s.cpu[c].Idle? && s.plock[j].Nobody?
    case Choose(c) => c < |s.cpu| && s.cpu[c].Got? && s.cpu[c].j < |s.pc|
    case Drop(c) => c < |s.cpu| && s.cpu[c].Back? && s.cpu[c].j < |s.pc|
    case Step(i, choice) => i < |s.pc| && s.at[i] < |s.cpu| && s.cpu[s.at[i]] == On(i) && CanStep(s, i, choice)
  }

  /** Spin locks must be free to be acquired; init does not exit. */
  predicate CanStep(s: State, i: nat, choice: Choice)
    requires Shape(s) && i < |s.pc|
  {
    if choice.Preempt? || !(InExit(s.pc[i]) || InWait(s.pc[i])) then CanFork(s, i, choice)
    else if InExit(s.pc[i]) then choice.Use? && CanExit(s, i)
    else CanWait(s, i, choice)
  }

  predicate CanFork(s: State, i: nat, choice: Choice)
    requires Shape(s) && i < |s.pc|
  {
    match choice
    case Preempt => Open(s.pc[i]) && s.plock[i].Nobody?
    case Nap => s.pc[i].Out? && s.plock[i].Nobody?
    case Kick(j) => s.pc[i].Out? && j < |s.pc| && j != i && s.plock[j].Nobody?
    case Fork(j) => s.pc[i].Out? && j < |s.pc| && s.plock[j].Nobody? && s.st[j].Unused?
    case Exit => s.pc[i].Out? && i != 0
    case Wait => s.pc[i].Out?
    case Fail => s.pc[i].ForkBody? && s.pc[i].j < |s.pc|
    case Use =>
      match s.pc[i]
      case ForkBody(j) => j < |s.pc|
      case ForkWait(j) => s.wl.Nobody?
      case ForkPar(j) => j < |s.pc|
      case ForkRun(j) => j < |s.pc| && s.plock[j].Nobody?
      case NapSet => true
      case YieldSet(_) => true
      case Switch(_) => true
      case Resume(_) => true
      case _ => false
  }

  predicate CanExit(s: State, i: nat)
    requires Shape(s) && i < |s.pc|
  {
    match s.pc[i]
    case ExitSpin => s.wl.Nobody?
    case RepScan(_, k) => k < |s.pc| && k != i ==> s.plock[k].Nobody?
    case Wake(k) => k < |s.pc| && k != i ==> s.plock[k].Nobody?
    case ExitLock => s.plock[i].Nobody?
    case _ => true
  }

  predicate CanWait(s: State, i: nat, choice: Choice)
    requires Shape(s) && i < |s.pc|
  {
    match s.pc[i]
    case WaitSpin => choice.Use? && s.wl.Nobody?
    case WaitScan(_, _) => (choice.Use? || choice.Fail?) && Reached(s, i)
    case WaitSleep => choice.Use? && s.plock[i].Nobody?
    case _ => choice.Use?
  }

  /** wait's scan can look at the slot it has reached. */
  predicate Reached(s: State, i: nat)
    requires Shape(s) && i < |s.pc| && s.pc[i].WaitScan?
  {
    var j := s.pc[i].j; j < |s.pc| && s.par[j] == i ==> s.plock[j].Nobody?
  }

  /** Whether a step is the end of exit, or wait freeing a process. */
  datatype Mark = Unmarked | Exited | Reaped

  /** What a step of process i writes: its pc, wait_lock, one lock, one state, one parent, its own channel and
      the state of its CPU. */
  datatype Effect = Effect(pc: Pc, wl: Holder, lj: nat, lh: Holder, sj: nat, sv: Status, pj: nat, pv: int, ch: Chan,
                           cpu: Cpu, mark: Mark)

  predicate InRange(s: State, i: nat, e: Effect) {
    Shape(s) && i < |s.pc| && s.at[i] < |s.cpu| && e.lj < |s.pc| && e.sj < |s.pc| && e.pj < |s.pc|
  }

  function Do(s: State, i: nat, e: Effect): (s': State)
    requires InRange(s, i, e)
    ensures Shape(s')
  {
    var was := s.st[e.sj];
    State(e.wl, s.plock[e.lj := e.lh], s.st[e.sj := e.sv], s.chan[i := e.ch], s.par[e.pj := e.pv],
          (if e.sv.Used? && !was.Used? then s.pc[e.sj := Away(Out)] else s.pc)[i := e.pc],
          s.cpu[s.at[i] := e.cpu], s.at,
          if e.sv.Used? && !was.Used? then s.maker[e.sj := i] else s.maker,
          if e.mark.Exited? then s.exits[i := s.exits[i] + 1] else s.exits,
          if e.mark.Reaped? then s.reaps[e.sj := s.reaps[e.sj] + multiset{i}] else s.reaps)
  }

  function Same(s: State, i: nat): (e: Effect)
    requires Shape(s) && i < |s.pc| && s.at[i] < |s.cpu|
    ensures InRange(s, i, e)
  {
    Effect(s.pc[i], s.wl, i, s.plock[i], i, s.st[i], i, s.par[i], s.chan[i], s.cpu[s.at[i]], Unmarked)
  }

  /** Steps of fork, of sleep and yield, and the start of everything. */
  function NextFork(s: State, i: nat, choice: Choice): (e: Effect)
    requires Shape(s) && i < |s.pc| && s.at[i] < |s.cpu| && CanFork(s, i, choice)
    ensures InRange(s, i, e)
  {
    var e := Same(s, i);
    match choice
    case Preempt => e.(pc := YieldSet(s.pc[i]), lh := Proc(i))
    case Nap => e.(pc := NapSet, lh := Proc(i))
    case Kick(j) => e.(sj := j, sv := if s.st[j].Sleeping? then Runnable else s.st[j])
    case Fork(j) => e.(pc := ForkBody(j), lj := j, lh := Proc(i), sj := j, sv := Used)
    case Exit => e.(pc := ExitSpin)
    case Wait => e.(pc := WaitSpin)
    case _ =>
      match s.pc[i]
      case ForkBody(j) =>
        if choice.Fail? then e.(pc := Out, lj := j, lh := Nobody, sj := j, sv := Unused)
        else e.(pc := ForkWait(j), lj := j, lh := Nobody)
      case ForkWait(j) => e.(pc := ForkPar(j), wl := Proc(i))
      case ForkPar(j) => e.(pc := ForkRun(j), wl := Nobody, pj := j, pv := i)
      case ForkRun(j) => e.(pc := Out, sj := j, sv := Runnable)
      case NapSet => e.(pc := Switch(Out), ch := OtherChan, sv := Sleeping)
      case YieldSet(k) => e.(pc := Switch(k), sv := Runnable)
      case Switch(k) => e.(pc := Away(k), lh := Sched(s.at[i]), cpu := Back(i))
      case Resume(k) => e.(pc := k, ch := NoChan, lh := Nobody)
      case _ => e
  }

  /** Steps of exit. */
  function NextExit(s: State, i: nat): (e: Effect)
    requires Shape(s) && i < |s.pc| && s.at[i] < |s.cpu| && CanExit(s, i)
    ensures InRange(s, i, e)
  {
    var e := Same(s, i);
    match s.pc[i]
    case ExitSpin => e.(pc := Rep(0), wl := Proc(i))
    case Rep(j) =>
      if j >= |s.pc| then e.(pc := Wake(0))
      else if s.par[j] == i then e.(pc := RepScan(j, 0), pj := j, pv := 0)
      else e.(pc := Rep(j + 1))
    case RepScan(j, k) =>
      if k >= |s.pc| then e.(pc := Rep(j + 1))
      else if k == i then e.(pc := RepScan(j, k + 1))
      else e.(pc := RepScan(j, k + 1), sj := k, sv := Woken(s, k, 0))
    case Wake(k) =>
      if k >= |s.pc| then e.(pc := ExitLock)
      else if k == i then e.(pc := Wake(k + 1))
      else e.(pc := Wake(k + 1), sj := k, sv := Woken(s, k, s.par[i]))
    case ExitLock => e.(pc := ExitZombie, lh := Proc(i))
    case ExitZombie => e.(pc := ExitRel, sv := Zombie, mark := Exited)
    case ExitRel => e.(pc := Switch(Dead), wl := Nobody)
    case _ => e
  }

  /** wakeup(q) at slot k: only process q sleeps on q's address. */
  function Woken(s: State, k: nat, q: int): Status
    requires Shape(s) && k < |s.pc|
  {
    if k == q && s.st[k].Sleeping? && s.chan[k].OwnChan? then Runnable else s.st[k]
  }

  /** Steps of wait. */
  function NextWait(s: State, i: nat, choice: Choice): (e: Effect)
    requires Shape(s) && i < |s.pc| && s.at[i] < |s.cpu| && CanWait(s, i, choice)
    ensures InRange(s, i, e)
  {
    var e := Same(s, i);
    match s.pc[i]
    case WaitSpin => e.(pc := WaitScan(0, false), wl := Proc(i))
    case WaitScan(j, kids) =>
      if j >= |s.pc| then e.(pc := if !kids || choice.Fail? then WaitDone else WaitSleep)
      else if s.par[j] != i then e.(pc := WaitScan(j + 1, kids))
      else if !s.st[j].Zombie? then e.(pc := WaitScan(j + 1, true))
      else if choice.Fail? then e.(pc := WaitDone)
      else e.(pc := WaitDone, sj := j, sv := Unused, pj := j, pv := -1, mark := Reaped)
    case WaitDone => e.(pc := Out, wl := Nobody)
    case WaitSleep => e.(pc := WaitCommit, lh := Proc(i))
    case WaitCommit => e.(pc := WaitChan, wl := Nobody)
    case WaitChan => e.(pc := WaitSet, ch := OwnChan)
    case WaitSet => e.(pc := Switch(WaitSpin), sv := Sleeping)
    case _ => e
  }

  predicate InExit(pc: Pc) {
    pc.ExitSpin? || pc.Rep? || pc.RepScan? || pc.Wake? || pc.ExitLock? || pc.ExitZombie? || pc.ExitRel?
  }

  predicate InWait(pc: Pc) {
    pc.WaitSpin? || pc.WaitScan? || pc.WaitDone? || pc.WaitSleep? || pc.WaitCommit? || pc.WaitChan? || pc.WaitSet?
  }

  function Next(s: State, i: nat, choice: Choice): (e: Effect)
    requires Shape(s) && i < |s.pc| && s.at[i] < |s.cpu| && CanStep(s, i, choice)
    ensures InRange(s, i, e)
  {
    if choice.Preempt? || !(InExit(s.pc[i]) || InWait(s.pc[i])) then NextFork(s, i, choice)
    else if InExit(s.pc[i]) then NextExit(s, i)
    else NextWait(s, i, choice)
  }

  function Apply(s: State, e: Event): (s': State)
    requires Shape(s) && Enabled(s, e)
    ensures Shape(s')
  {
    match e
    case Grab(c, j) => s.(cpu := s.cpu[c := Got(j)], plock := s.plock[j := Sched(c)])
    case Choose(c) =>
      var j := s.cpu[c].j;
      if s.st[j].Runnable? && s.pc[j].Away? then
        s.(st := s.st[j := Running], cpu := s.cpu[c := On(j)], plock := s.plock[j := Proc(j)], at := s.at[j := c],
           pc := s.pc[j := Resume(s.pc[j].k)])
      else s.(cpu := s.cpu[c := Back(j)])
    case Drop(c) => s.(cpu := s.cpu[c := Idle], plock := s.plock[s.cpu[c].j := Nobody])
    case Step(i, choice) => Do(s, i, Next(s, i, choice))
  }

  // The invariant, as facts about one process or one pair of processes.

  /** Locks are held by whoever is between acquire and release, and the state fits the program counter. */
  predicate At(s: State, i: nat)
    requires Shape(s) && i < |s.pc|
  {
    && (s.wl == Proc(i) <==> HoldsWl(s.pc[i])) && !s.wl.Sched?
    && Held(i, s.pc[i]) < |s.pc| && (Held(i, s.pc[i]) >= 0 ==> s.plock[Held(i, s.pc[i])] == Proc(i))
    && (s.plock[i] == Proc(i) ==> Held(i, s.pc[i]) == i) && (s.pc[i].ForkBody? ==> s.pc[i].j != i)
    && StatusAt(s, i)
  }

  predicate StatusAt(s: State, i: nat)
    requires Shape(s) && i < |s.pc|
  {
    true == (
      var (c, t) := (s.pc[i], s.st[i]);
      && (t.Running? <==> !c.Switch? && !c.Away? && !c.ExitRel?)
      && (c.YieldSet? || c.Resume? ==> Open(c.k)) && (c.Switch? || c.Away? ==> Open(c.k) || c.k.Dead?) && !c.Dead?
      && (c.ExitRel? || c == Switch(Dead) ==> t.Zombie?)
      && (t.Zombie? ==> c.ExitRel? || c == Switch(Dead) || c == Away(Dead))
      && (t.Unused? ==> c == Away(Out) || c == Away(Dead)) && (t.Used? ==> c == Away(Out))
      && (t.Runnable? || t.Sleeping? ==> (c.Switch? || c.Away?) && Open(c.k)))
  }

  ghost predicate WlOk(s: State) {
    && (forall i :: 0 <= i < |s.pc| ==> (s.wl == Proc(i) <==> HoldsWl(s.pc[i])))
    && (s.wl.Proc? ==> s.wl.i < |s.pc|) && !s.wl.Sched?
  }

  ghost predicate PlocksOk(s: State)
    requires Shape(s)
  {
    && (forall i, j :: 0 <= i < |s.pc| && 0 <= j < |s.pc| ==> (s.plock[j] == Proc(i) <==> Held(i, s.pc[i]) == j))
    && (forall i :: 0 <= i < |s.pc| ==> Held(i, s.pc[i]) < |s.pc| && (s.pc[i].ForkBody? ==> s.pc[i].j != i))
    && (forall j :: 0 <= j < |s.pc| && s.plock[j].Proc? ==> s.plock[j].i < |s.pc|)
  }

  ghost predicate CpusOk(s: State)
    requires Shape(s)
  {
    && (forall c, j :: 0 <= c < |s.cpu| && 0 <= j < |s.pc| ==>
       (s.plock[j] == Sched(c) <==> s.cpu[c] == Got(j) || s.cpu[c] == Back(j)))
    && (forall c :: 0 <= c < |s.cpu| && !s.cpu[c].Idle? ==> s.cpu[c].j < |s.pc|)
    && (forall j :: 0 <= j < |s.pc| && s.plock[j].Sched? ==> s.plock[j].c < |s.cpu|)
    && (forall j :: 0 <= j < |s.pc| ==> s.at[j] < |s.cpu|)
    && (forall c, j :: 0 <= c < |s.cpu| && 0 <= j < |s.pc| ==> (s.cpu[c] == On(j) <==> !s.pc[j].Away? && s.at[j] == c))
  }

  /** The slot that a process in fork is making; none is -1. */
  function ForkOf(pc: Pc): int {
    var c := Task(pc);
    if c.ForkBody? || c.ForkWait? || c.ForkPar? || c.ForkRun? then c.j else -1
  }

  /** A USED slot is being made by the process that took it. */
  predicate UsedAt(s: State, j: nat)
    requires Shape(s) && j < |s.pc|
  {
    true == (
      s.st[j].Used? ==>
        s.maker[j] < |s.pc| && ForkOf(s.pc[s.maker[j]]) == j && (s.par[j] == -1 || s.par[j] == s.maker[j]))
  }

  /** Who is in fork has a USED slot of its own. */
  predicate ForkAt(s: State, i: nat)
    requires Shape(s) && i < |s.pc|
  {
    var c := Task(s.pc[i]);
    c.ForkBody? || c.ForkWait? || c.ForkPar? || c.ForkRun? ==>
      c.j < |s.pc| && c.j != i && s.st[c.j].Used? && s.maker[c.j] == i && s.par[c.j] == if c.ForkRun? then i else -1
  }

  /** Everyone but init has a parent. */
  predicate FamilyAt(s: State, j: nat)
    requires Shape(s) && j < |s.pc|
  {
    true == (
      && -1 <= s.par[j] < |s.pc| && s.par[j] != j && (s.st[j].Unused? ==> s.par[j] == -1)
      && (!s.st[j].Unused? && !s.st[j].Used? && j != 0 ==> s.par[j] >= 0)
      && (j == 0 ==> s.par[j] == -1 && !InExit(Task(s.pc[j])))
      && (j == 0 ==> !s.st[j].Unused? && !s.st[j].Used? && !s.st[j].Zombie?))
  }

  /** Every exit but at most the last has been answered by one wait. */
  predicate CountAt(s: State, j: nat)
    requires Shape(s) && j < |s.pc|
  {
    s.exits[j] == |s.reaps[j]| + if s.st[j].Zombie? then 1 else 0
  }

  /** How many slots are known not to be children of x. */
  function Bound(s: State, x: nat): nat
    requires Shape(s) && x < |s.pc|
  {
    if s.st[x].Unused? || s.st[x].Used? || s.st[x].Zombie? then |s.pc|
    else match s.pc[x]
      case Rep(j) => j
      case RepScan(j, _) => j + 1
      case Wake(_) => |s.pc|
      case ExitLock => |s.pc|
      case ExitZombie => |s.pc|
      case _ => 0
  }

  predicate KidsAt(s: State, x: nat, j: nat)
    requires Shape(s) && x < |s.pc| && j < |s.pc|
  {
    j < Bound(s, x) ==> s.par[j] != x
  }

  /** q sleeps in wait or is past the point of no return to it. */
  predicate Committed(s: State, q: nat)
    requires Shape(s) && q < |s.pc|
  {
    s.pc[q].WaitChan? || s.pc[q].WaitSet? || (s.st[q].Sleeping? && s.chan[q].OwnChan?)
  }

  /** A reparenting process is about to wake init. */
  predicate PendingInit(s: State)
    requires Shape(s)
  {
    s.wl.Proc? && 0 < s.wl.i < |s.pc| && s.pc[s.wl.i].RepScan? && s.pc[s.wl.i].w == 0
  }

  /** Nobody sleeps on an exited child, unless it is init that is about to be woken. */
  predicate ZombieAt(s: State, z: nat)
    requires Shape(s) && z < |s.pc|
  {
    s.st[z].Zombie? && 0 <= s.par[z] < |s.pc| && Committed(s, s.par[z]) ==> s.par[z] == 0 && PendingInit(s)
  }

  /** An exiting process that has woken its parent finds it awake until it lets go of wait_lock. */
  predicate AwakeAt(s: State, x: nat)
    requires Shape(s) && x < |s.pc|
  {
    && 0 <= s.par[x] < |s.pc| && ((s.pc[x].Wake? && s.par[x] < s.pc[x].w) || s.pc[x].ExitLock? || s.pc[x].ExitZombie?)
    ==> !Committed(s, s.par[x])
  }

  /** wait has found no exited child in the slots it has passed. */
  predicate ScanAt(s: State, i: nat, z: nat)
    requires Shape(s) && i < |s.pc| && z < |s.pc|
  {
    && s.par[z] == i && s.st[z].Zombie?
    ==> !s.pc[i].WaitSleep? && !s.pc[i].WaitCommit? && (s.pc[i].WaitScan? ==> s.pc[i].j <= z)
  }

  predicate UnfoldInv(u: int) { true }

  ghost predicate Inv(s: State) {
    && Shape(s)
    && forall u {:trigger UnfoldInv(u)} :: UnfoldInv(u) ==>
      && WlOk(s) && PlocksOk(s) && CpusOk(s) && AllAt(s)
  }

  predicate One(s: State, x: nat)
    requires Shape(s) && x < |s.pc|
  {
    true == (
      && StatusAt(s, x) && ForkAt(s, x) && UsedAt(s, x) && FamilyAt(s, x) && CountAt(s, x)
      && ZombieAt(s, x) && AwakeAt(s, x))
  }

  predicate Pair(s: State, x: nat, j: nat)
    requires Shape(s) && x < |s.pc| && j < |s.pc|
  {
    true == (KidsAt(s, x, j) && ScanAt(s, x, j))
  }

  ghost predicate AllAt(s: State)
    requires Shape(s)
  {
    && (forall x :: 0 <= x < |s.pc| ==> One(s, x))
    && (forall x, j :: 0 <= x < |s.pc| && 0 <= j < |s.pc| ==> Pair(s, x, j))
  }

  // Steps of a process: locks and CPUs.

  /** Process i runs on its CPU. */
  predicate Steps(s: State, i: nat)
    requires Shape(s)
  {
    && i < |s.pc| && s.at[i] < |s.cpu| && s.cpu[s.at[i]] == On(i) && !s.pc[i].Away?
    && At(s, i) && ForkAt(s, i) && FamilyAt(s, i)
  }

  predicate LockMove(s: State, i: nat, e: Effect)
    requires InRange(s, i, e)
  {
    || (e.wl == s.wl && (HoldsWl(e.pc) <==> HoldsWl(s.pc[i])))
    || (s.wl.Nobody? && e.wl == Proc(i) && HoldsWl(e.pc))
    || (HoldsWl(s.pc[i]) && e.wl.Nobody? && !HoldsWl(e.pc))
  }

  predicate PlockMove(s: State, i: nat, e: Effect)
    requires InRange(s, i, e)
  {
    var (h, h') := (Held(i, s.pc[i]), Held(i, e.pc));
    && (e.pc.ForkBody? ==> e.pc.j != i)
    && (|| (h' == h && e.lh == s.plock[e.lj])
        || (h == -1 && h' == e.lj && s.plock[e.lj].Nobody? && e.lh == Proc(i))
        || (h == e.lj && h' == -1 && !e.lh.Proc?))
  }

  predicate CpuMove(s: State, i: nat, e: Effect)
    requires InRange(s, i, e)
  {
    || (e.cpu == s.cpu[s.at[i]] && !e.pc.Away? && !e.lh.Sched? && !s.plock[e.lj].Sched?)
    || (e.cpu == s.cpu[s.at[i]] && !e.pc.Away? && e.lh == s.plock[e.lj])
    || (e.cpu == Back(i) && e.pc.Away? && e.lj == i && e.lh == Sched(s.at[i]) && s.plock[i] == Proc(i))
  }

  predicate Takes(s: State, e: Effect)
    requires Shape(s) && e.sj < |s.pc|
  {
    e.sv.Used? && !s.st[e.sj].Used?
  }

  /** Only a free slot is taken, and only who has taken it changes it. */
  predicate SlotMove(s: State, i: nat, e: Effect)
    requires InRange(s, i, e)
  {
    && (Takes(s, e) ==>
         s.st[e.sj].Unused? && e.sj != i && ForkOf(e.pc) == e.sj && e.pv == s.par[e.pj] && s.pc[e.sj].Away?)
    && (s.st[e.sj].Used? && !e.sv.Used? ==> s.maker[e.sj] == i)
    && (s.st[e.pj].Used? && e.pv != s.par[e.pj] ==> s.maker[e.pj] == i && e.pv == i)
    && var (f, f') := (ForkOf(s.pc[i]), ForkOf(e.pc));
    || (f' == f && !Takes(s, e))
    || (f == -1 && Takes(s, e))
    || (f == e.sj && f' == -1 && !e.sv.Used?)
  }

  predicate Move(s: State, i: nat, e: Effect) {
    InRange(s, i, e) && LockMove(s, i, e) && PlockMove(s, i, e) && CpuMove(s, i, e) && SlotMove(s, i, e)
  }

  lemma MovesFork(s: State, i: nat, choice: Choice)
    requires Shape(s) && Steps(s, i) && CanFork(s, i, choice)
    requires choice.Fork? ==> StatusAt(s, choice.j)
    ensures Move(s, i, NextFork(s, i, choice))
  {
  }

  lemma MovesExit(s: State, i: nat)
    requires Shape(s) && Steps(s, i) && InExit(s.pc[i]) && CanExit(s, i) && forall j :: 0 <= j < |s.pc| ==> UsedAt(s, j)
    ensures Move(s, i, NextExit(s, i))
  {
    if s.pc[i].Rep? && s.pc[i].j < |s.pc| { assert UsedAt(s, s.pc[i].j); }
  }

  lemma MovesWait(s: State, i: nat, choice: Choice)
    requires Shape(s) && Steps(s, i) && InWait(s.pc[i]) && CanWait(s, i, choice)
    ensures Move(s, i, NextWait(s, i, choice))
  {
  }

  lemma WlKept(s: State, i: nat, e: Effect)
    requires Move(s, i, e) && WlOk(s)
    ensures WlOk(Do(s, i, e))
  {
  }

  lemma PlocksKept(s: State, i: nat, e: Effect)
    requires Move(s, i, e) && PlocksOk(s)
    ensures PlocksOk(Do(s, i, e))
  {
    var s' := Do(s, i, e);
    forall a, j | 0 <= a < |s.pc| && 0 <= j < |s.pc| ensures s'.plock[j] == Proc(a) <==> Held(a, s'.pc[a]) == j {
      assert s.plock[j] == Proc(a) <==> Held(a, s.pc[a]) == j;
      assert s.plock[e.lj] == Proc(i) <==> Held(i, s.pc[i]) == e.lj;
    }
  }

  lemma CpusKept(s: State, i: nat, e: Effect)
    requires Move(s, i, e) && CpusOk(s) && s.cpu[s.at[i]] == On(i)
    ensures CpusOk(Do(s, i, e))
  {
  }

  // Steps of a process: what the invariant says about each process.

  /** The end of exit makes a ZOMBIE, wait's freeing unmakes one, and no other step does either. */
  predicate Counts(s: State, i: nat, e: Effect)
    requires InRange(s, i, e)
  {
    && (e.mark.Exited? <==> e.sv.Zombie? && !s.st[e.sj].Zombie?) && (e.mark.Exited? ==> e.sj == i)
    && (e.mark.Reaped? <==> s.st[e.sj].Zombie? && !e.sv.Zombie?)
  }

  lemma CountsNext(s: State, i: nat, choice: Choice)
    requires Shape(s) && Steps(s, i) && CanStep(s, i, choice) && (choice.Fork? ==> StatusAt(s, choice.j))
    ensures Counts(s, i, Next(s, i, choice))
  {
  }

  lemma CountKept(s: State, i: nat, e: Effect, x: nat)
    requires InRange(s, i, e) && Counts(s, i, e) && x < |s.pc| && CountAt(s, x)
    ensures CountAt(Do(s, i, e), x)
  {
  }

  lemma CountInv(s: State, i: nat, choice: Choice, x: nat)
    requires Inv(s) && Steps(s, i) && CanStep(s, i, choice) && x < |s.pc|
    ensures CountAt(Do(s, i, Next(s, i, choice)), x)
  {
    if choice.Fork? { KnownAll(s, choice.j); }
    CountsNext(s, i, choice);
    KnownAll(s, x);
    CountKept(s, i, Next(s, i, choice), x);
  }

  predicate Known(s: State, x: nat)
    requires Shape(s)
  {
    x < |s.pc| && At(s, x) && ForkAt(s, x) && FamilyAt(s, x)
  }

  lemma SlotOther(s: State, i: nat, e: Effect, x: nat)
    requires Move(s, i, e) && x < |s.pc| && x != i && ForkAt(s, x)
    ensures ForkAt(Do(s, i, e), x)
  {
  }

  lemma UsedKept(s: State, i: nat, e: Effect, j: nat)
    requires Move(s, i, e) && j < |s.pc| && UsedAt(s, j) && (s.st[e.sj].Unused? ==> ForkOf(s.pc[e.sj]) == -1)
    requires s.st[e.sj].Unused? ==> s.par[e.sj] == -1
    ensures UsedAt(Do(s, i, e), j)
  {
  }

  /** A step of i does not make another process commit to sleeping, or take back a pending wakeup of init. */
  predicate Calm(s: State, i: nat, s': State, q: nat)
    requires Shape(s) && Shape(s') && |s'.pc| == |s.pc| && q < |s.pc|
  {
    (q != i && Committed(s', q) ==> Committed(s, q)) && (PendingInit(s) && s.wl.i != i ==> PendingInit(s'))
  }

  predicate Special(pc: Pc) {
    pc.RepScan? || pc.Wake? || pc.ExitLock? || pc.ExitZombie? || pc.WaitScan? || pc.WaitSleep? || pc.WaitCommit?
  }

  /** A step that has nothing to do with exit and wait. */
  predicate Plain(s: State, i: nat, e: Effect) {
    && InRange(s, i, e) && !Special(s.pc[i]) && !Special(e.pc)
    && (e.sv.Zombie? <==> s.st[e.sj].Zombie?)
    && (e.pv != s.par[e.pj] ==> s.st[e.pj].Used? && s.wl == Proc(i) && e.sv == s.st[e.sj])
    && (Committed(Do(s, i, e), i) ==> Committed(s, i)) && (Takes(s, e) ==> s.pc[e.sj].Away?)
  }

  lemma PlainFork(s: State, i: nat, choice: Choice)
    requires Shape(s) && Steps(s, i) && CanFork(s, i, choice)
    requires choice.Fork? ==> StatusAt(s, choice.j)
    ensures Plain(s, i, NextFork(s, i, choice))
  {
  }

  lemma PlainZombie(s: State, i: nat, e: Effect, z: nat)
    requires Plain(s, i, e) && z < |s.pc| && ZombieAt(s, z)
    requires (s.par[z] >= 0 && s.par[z] < |s.pc| ==> Calm(s, i, Do(s, i, e), s.par[z]))
    ensures ZombieAt(Do(s, i, e), z)
  {
  }

  lemma PlainAwake(s: State, i: nat, e: Effect, x: nat)
    requires Plain(s, i, e) && x < |s.pc| && At(s, x) && AwakeAt(s, x)
    requires (s.par[x] >= 0 && s.par[x] < |s.pc| ==> Calm(s, i, Do(s, i, e), s.par[x]))
    ensures AwakeAt(Do(s, i, e), x)
  {
  }

  lemma PlainScan(s: State, i: nat, e: Effect, a: nat, z: nat)
    requires Plain(s, i, e) && a < |s.pc| && z < |s.pc| && ScanAt(s, a, z)
    ensures ScanAt(Do(s, i, e), a, z)
  {
  }

  lemma SlotFork(s: State, i: nat, choice: Choice)
    requires Shape(s) && Steps(s, i) && CanFork(s, i, choice)
    requires choice.Fork? ==> FamilyAt(s, choice.j)
    ensures ForkAt(Do(s, i, NextFork(s, i, choice)), i)
  {
  }

  lemma StatusFork(s: State, i: nat, choice: Choice, x: nat)
    requires Shape(s) && Steps(s, i) && CanFork(s, i, choice) && Known(s, x)
    ensures StatusAt(Do(s, i, NextFork(s, i, choice)), x)
  {
  }

  lemma FamilyFork(s: State, i: nat, choice: Choice, x: nat)
    requires Shape(s) && Steps(s, i) && CanFork(s, i, choice) && Known(s, x)
    ensures FamilyAt(Do(s, i, NextFork(s, i, choice)), x)
  {
  }

  lemma KidsFork(s: State, i: nat, choice: Choice, x: nat, j: nat)
    requires Shape(s) && Steps(s, i) && CanFork(s, i, choice) && StatusAt(s, 0) && FamilyAt(s, 0) && x < |s.pc|
    requires StatusAt(s, x) && j < |s.pc| && FamilyAt(s, j) && KidsAt(s, x, j)
    ensures KidsAt(Do(s, i, NextFork(s, i, choice)), x, j)
  {
  }

  lemma CalmFork(s: State, i: nat, choice: Choice, q: nat)
    requires Shape(s) && Steps(s, i) && CanFork(s, i, choice) && Known(s, q) && (s.wl.Proc? ==> Known(s, s.wl.i))
    ensures Calm(s, i, Do(s, i, NextFork(s, i, choice)), q)
  {
  }

  lemma StatusExit(s: State, i: nat, x: nat)
    requires Shape(s) && Steps(s, i) && InExit(s.pc[i]) && CanExit(s, i) && Known(s, x)
    ensures StatusAt(Do(s, i, NextExit(s, i)), x)
  {
  }

  lemma FamilyExit(s: State, i: nat, x: nat)
    requires Shape(s) && Steps(s, i) && InExit(s.pc[i]) && CanExit(s, i) && Known(s, x)
    ensures FamilyAt(Do(s, i, NextExit(s, i)), x)
  {
  }

  lemma KidsExitOwn(s: State, i: nat, j: nat)
    requires Shape(s) && Steps(s, i) && InExit(s.pc[i]) && CanExit(s, i) && FamilyAt(s, 0) && j < |s.pc|
    requires KidsAt(s, i, j)
    ensures KidsAt(Do(s, i, NextExit(s, i)), i, j)
  {
  }

  lemma KidsExit(s: State, i: nat, x: nat, j: nat)
    requires Shape(s) && Steps(s, i) && InExit(s.pc[i]) && CanExit(s, i)
    requires StatusAt(s, 0) && FamilyAt(s, 0) && x < |s.pc| && StatusAt(s, x) && j < |s.pc| && KidsAt(s, x, j)
    ensures KidsAt(Do(s, i, NextExit(s, i)), x, j)
  {
    if x == i {
      KidsExitOwn(s, i, j);
    } else {
      var s' := Do(s, i, NextExit(s, i));
      assert s'.par[j] != s.par[j] ==> s'.par[j] == 0;
      assert s'.pc[x] == s.pc[x] && (s'.st[x] == s.st[x] || (s.st[x].Sleeping? && s'.st[x].Runnable?));
    }
  }

  lemma CalmExit(s: State, i: nat, q: nat)
    requires Shape(s) && Steps(s, i) && InExit(s.pc[i]) && CanExit(s, i) && Known(s, q)
    requires (s.wl.Proc? ==> Known(s, s.wl.i))
    ensures Calm(s, i, Do(s, i, NextExit(s, i)), q)
  {
  }

  lemma ScanExit(s: State, i: nat, a: nat, z: nat)
    requires Shape(s) && Steps(s, i) && InExit(s.pc[i]) && CanExit(s, i) && Known(s, a) && Known(s, z)
    requires ScanAt(s, a, z)
    ensures ScanAt(Do(s, i, NextExit(s, i)), a, z)
  {
  }

  lemma ZombieExit(s: State, i: nat, z: nat)
    requires Shape(s) && Steps(s, i) && InExit(s.pc[i]) && CanExit(s, i) && z < |s.pc| && FamilyAt(s, z)
    requires ZombieAt(s, z) && ScanAt(s, i, z) && AwakeAt(s, i) && Known(s, 0)
    requires s.par[z] >= 0 ==> Calm(s, i, Do(s, i, NextExit(s, i)), s.par[z])
    ensures ZombieAt(Do(s, i, NextExit(s, i)), z)
  {
  }

  lemma AwakeExit(s: State, i: nat, x: nat)
    requires Shape(s) && Steps(s, i) && InExit(s.pc[i]) && CanExit(s, i) && Known(s, x) && AwakeAt(s, x)
    requires s.par[x] >= 0 ==> Known(s, s.par[x]) && Calm(s, i, Do(s, i, NextExit(s, i)), s.par[x])
    ensures AwakeAt(Do(s, i, NextExit(s, i)), x)
  {
  }

  lemma StatusWait(s: State, i: nat, choice: Choice, x: nat)
    requires Shape(s) && Steps(s, i) && InWait(s.pc[i]) && CanWait(s, i, choice) && Known(s, x)
    ensures StatusAt(Do(s, i, NextWait(s, i, choice)), x)
  {
  }

  lemma FamilyWait(s: State, i: nat, choice: Choice, x: nat)
    requires Shape(s) && Steps(s, i) && InWait(s.pc[i]) && CanWait(s, i, choice) && Known(s, x)
    ensures FamilyAt(Do(s, i, NextWait(s, i, choice)), x)
  {
  }

  lemma KidsWait(s: State, i: nat, choice: Choice, x: nat, j: nat)
    requires Shape(s) && Steps(s, i) && InWait(s.pc[i]) && CanWait(s, i, choice) && StatusAt(s, 0) && FamilyAt(s, 0)
    requires x < |s.pc| && StatusAt(s, x) && j < |s.pc| && FamilyAt(s, j) && KidsAt(s, x, j)
    ensures KidsAt(Do(s, i, NextWait(s, i, choice)), x, j)
  {
  }

  lemma CalmWait(s: State, i: nat, choice: Choice, q: nat)
    requires Shape(s) && Steps(s, i) && InWait(s.pc[i]) && CanWait(s, i, choice) && Known(s, q)
    requires (s.wl.Proc? ==> Known(s, s.wl.i))
    ensures Calm(s, i, Do(s, i, NextWait(s, i, choice)), q)
  {
  }

  lemma ScanWait(s: State, i: nat, choice: Choice, a: nat, z: nat)
    requires Shape(s) && Steps(s, i) && InWait(s.pc[i]) && CanWait(s, i, choice) && Known(s, a) && Known(s, z)
    requires ScanAt(s, a, z)
    ensures ScanAt(Do(s, i, NextWait(s, i, choice)), a, z)
  {
  }

  lemma ZombieWait(s: State, i: nat, choice: Choice, z: nat)
    requires Shape(s) && Steps(s, i) && InWait(s.pc[i]) && CanWait(s, i, choice) && z < |s.pc| && FamilyAt(s, z)
    requires ZombieAt(s, z) && ScanAt(s, i, z) && AwakeAt(s, i) && Known(s, 0)
    requires s.par[z] >= 0 ==> Calm(s, i, Do(s, i, NextWait(s, i, choice)), s.par[z])
    ensures ZombieAt(Do(s, i, NextWait(s, i, choice)), z)
  {
  }

  lemma AwakeWait(s: State, i: nat, choice: Choice, x: nat)
    requires Shape(s) && Steps(s, i) && InWait(s.pc[i]) && CanWait(s, i, choice) && Known(s, x) && AwakeAt(s, x)
    requires s.par[x] >= 0 ==> Known(s, s.par[x]) && Calm(s, i, Do(s, i, NextWait(s, i, choice)), s.par[x])
    ensures AwakeAt(Do(s, i, NextWait(s, i, choice)), x)
  {
  }

  // Putting it together.

  lemma KnownAll(s: State, x: nat)
    requires Inv(s) && x < |s.pc|
    ensures Known(s, x) && UsedAt(s, x) && CountAt(s, x) && ZombieAt(s, x) && AwakeAt(s, x)
  {
    assert UnfoldInv(0);
    assert One(s, x);
  }

  lemma KnownPair(s: State, x: nat, j: nat)
    requires Inv(s) && x < |s.pc| && j < |s.pc|
    ensures KidsAt(s, x, j) && ScanAt(s, x, j)
  {
    assert UnfoldInv(0);
    assert Pair(s, x, j);
  }

  lemma StepsNow(s: State, i: nat, choice: Choice)
    requires Inv(s) && Enabled(s, Step(i, choice))
    ensures Steps(s, i)
  {
    KnownAll(s, i);
    assert UnfoldInv(0);
  }

  lemma MoveInv(s: State, i: nat, e: Effect)
    requires Inv(s) && Move(s, i, e) && s.cpu[s.at[i]] == On(i) && AllAt(Do(s, i, e))
    ensures Inv(Do(s, i, e))
  {
    assert WlOk(Do(s, i, e)) by { assert UnfoldInv(0); WlKept(s, i, e); }
    assert PlocksOk(Do(s, i, e)) by { assert UnfoldInv(0); PlocksKept(s, i, e); }
    assert CpusOk(Do(s, i, e)) by { assert UnfoldInv(0); CpusKept(s, i, e); }
  }

  lemma Relatives(s: State, z: nat)
    requires Inv(s) && z < |s.pc|
    ensures s.par[z] >= 0 ==> Known(s, s.par[z])
    ensures s.wl.Proc? ==> Known(s, s.wl.i)
  {
    KnownAll(s, z);
    if s.par[z] >= 0 { KnownAll(s, s.par[z]); }
    assert s.wl.Proc? ==> s.wl.i < |s.pc| by { assert UnfoldInv(0); }
    if s.wl.Proc? { KnownAll(s, s.wl.i); }
  }

  lemma SlotInv(s: State, i: nat, e: Effect, x: nat)
    requires Inv(s) && Move(s, i, e) && x < |s.pc| && x != i
    ensures ForkAt(Do(s, i, e), x)
  {
    KnownAll(s, x);
    SlotOther(s, i, e, x);
  }

  lemma UsedInv(s: State, i: nat, e: Effect, x: nat)
    requires Inv(s) && Move(s, i, e) && x < |s.pc|
    ensures UsedAt(Do(s, i, e), x)
  {
    KnownAll(s, x);
    KnownAll(s, e.sj);
    UsedKept(s, i, e, x);
  }

  lemma OneFork(s: State, i: nat, choice: Choice, x: nat)
    requires Inv(s) && Steps(s, i) && CanFork(s, i, choice) && x < |s.pc| && Move(s, i, NextFork(s, i, choice))
    requires CountAt(Do(s, i, NextFork(s, i, choice)), x)
    ensures One(Do(s, i, NextFork(s, i, choice)), x)
  {
    var e := NextFork(s, i, choice);
    var s' := Do(s, i, e);
    assert StatusAt(s', x) by { KnownAll(s, x); StatusFork(s, i, choice, x); }
    assert FamilyAt(s', x) by { KnownAll(s, x); FamilyFork(s, i, choice, x); }
    assert ForkAt(s', x) by {
      if x != i {
        SlotInv(s, i, e, x);
      } else {
        if choice.Fork? { KnownAll(s, choice.j); }
        SlotFork(s, i, choice);
      }
    }
    UsedInv(s, i, e, x);
    assert ZombieAt(s', x) && AwakeAt(s', x) by { WakeupsFork(s, i, choice, x); }
  }

  lemma WakeupsFork(s: State, i: nat, choice: Choice, x: nat)
    requires Inv(s) && Steps(s, i) && CanFork(s, i, choice) && x < |s.pc|
    ensures ZombieAt(Do(s, i, NextFork(s, i, choice)), x) && AwakeAt(Do(s, i, NextFork(s, i, choice)), x)
  {
    KnownAll(s, x);
    KnownAll(s, i);
    KnownAll(s, 0);
    Relatives(s, x);
    if s.par[x] >= 0 { CalmFork(s, i, choice, s.par[x]); }
    if choice.Fork? { KnownAll(s, choice.j); }
    PlainFork(s, i, choice);
    PlainZombie(s, i, NextFork(s, i, choice), x);
    PlainAwake(s, i, NextFork(s, i, choice), x);
  }

  lemma PairFork(s: State, i: nat, choice: Choice, x: nat, j: nat)
    requires Inv(s) && Steps(s, i) && CanFork(s, i, choice) && x < |s.pc| && j < |s.pc|
    ensures Pair(Do(s, i, NextFork(s, i, choice)), x, j)
  {
    KnownAll(s, x);
    KnownAll(s, j);
    KnownAll(s, 0);
    KnownPair(s, x, j);
    KidsFork(s, i, choice, x, j);
    if choice.Fork? { KnownAll(s, choice.j); }
    PlainFork(s, i, choice);
    PlainScan(s, i, NextFork(s, i, choice), x, j);
  }

  lemma OneExit(s: State, i: nat, x: nat)
    requires Inv(s) && Steps(s, i) && InExit(s.pc[i]) && CanExit(s, i) && x < |s.pc| && Move(s, i, NextExit(s, i))
    requires CountAt(Do(s, i, NextExit(s, i)), x)
    ensures One(Do(s, i, NextExit(s, i)), x)
  {
    var e := NextExit(s, i);
    var s' := Do(s, i, e);
    assert StatusAt(s', x) by { KnownAll(s, x); StatusExit(s, i, x); }
    assert FamilyAt(s', x) by { KnownAll(s, x); FamilyExit(s, i, x); }
    assert ForkAt(s', x) by { if x != i { SlotInv(s, i, e, x); }  }
    UsedInv(s, i, e, x);
    assert ZombieAt(s', x) && AwakeAt(s', x) by { WakeupsExit(s, i, x); }
  }

  lemma WakeupsExit(s: State, i: nat, x: nat)
    requires Inv(s) && Steps(s, i) && InExit(s.pc[i]) && CanExit(s, i) && x < |s.pc|
    ensures ZombieAt(Do(s, i, NextExit(s, i)), x) && AwakeAt(Do(s, i, NextExit(s, i)), x)
  {
    KnownAll(s, x);
    KnownAll(s, i);
    KnownAll(s, 0);
    Relatives(s, x);
    if s.par[x] >= 0 { CalmExit(s, i, s.par[x]); }
    KnownPair(s, i, x);
    ZombieExit(s, i, x);
    AwakeExit(s, i, x);
  }

  lemma PairExit(s: State, i: nat, x: nat, j: nat)
    requires Inv(s) && Steps(s, i) && InExit(s.pc[i]) && CanExit(s, i) && x < |s.pc| && j < |s.pc|
    ensures Pair(Do(s, i, NextExit(s, i)), x, j)
  {
    KnownAll(s, x);
    KnownAll(s, j);
    KnownAll(s, 0);
    KnownPair(s, x, j);
    KidsExit(s, i, x, j);
    ScanExit(s, i, x, j);
  }

  lemma OneWait(s: State, i: nat, choice: Choice, x: nat)
    requires Inv(s) && Steps(s, i) && InWait(s.pc[i]) && CanWait(s, i, choice) && x < |s.pc|
    requires Move(s, i, NextWait(s, i, choice)) && CountAt(Do(s, i, NextWait(s, i, choice)), x)
    ensures One(Do(s, i, NextWait(s, i, choice)), x)
  {
    var e := NextWait(s, i, choice);
    var s' := Do(s, i, e);
    assert StatusAt(s', x) by { KnownAll(s, x); StatusWait(s, i, choice, x); }
    assert FamilyAt(s', x) by { KnownAll(s, x); FamilyWait(s, i, choice, x); }
    assert ForkAt(s', x) by { if x != i { SlotInv(s, i, e, x); }  }
    UsedInv(s, i, e, x);
    assert ZombieAt(s', x) && AwakeAt(s', x) by { WakeupsWait(s, i, choice, x); }
  }

  lemma WakeupsWait(s: State, i: nat, choice: Choice, x: nat)
    requires Inv(s) && Steps(s, i) && InWait(s.pc[i]) && CanWait(s, i, choice) && x < |s.pc|
    ensures ZombieAt(Do(s, i, NextWait(s, i, choice)), x) && AwakeAt(Do(s, i, NextWait(s, i, choice)), x)
  {
    KnownAll(s, x);
    KnownAll(s, i);
    KnownAll(s, 0);
    Relatives(s, x);
    if s.par[x] >= 0 { CalmWait(s, i, choice, s.par[x]); }
    KnownPair(s, i, x);
    ZombieWait(s, i, choice, x);
    AwakeWait(s, i, choice, x);
  }

  lemma PairWait(s: State, i: nat, choice: Choice, x: nat, j: nat)
    requires Inv(s) && Steps(s, i) && InWait(s.pc[i]) && CanWait(s, i, choice) && x < |s.pc| && j < |s.pc|
    ensures Pair(Do(s, i, NextWait(s, i, choice)), x, j)
  {
    KnownAll(s, x);
    KnownAll(s, j);
    KnownAll(s, 0);
    KnownPair(s, x, j);
    KidsWait(s, i, choice, x, j);
    ScanWait(s, i, choice, x, j);
  }

  lemma StepInv(s: State, i: nat, choice: Choice)
    requires Inv(s) && Enabled(s, Step(i, choice))
    ensures Inv(Do(s, i, Next(s, i, choice)))
  {
    StepsNow(s, i, choice);
    var e := Next(s, i, choice);
    var s' := Do(s, i, e);
    if choice.Preempt? || !(InExit(s.pc[i]) || InWait(s.pc[i])) {
      assert Move(s, i, e) by { if choice.Fork? { KnownAll(s, choice.j); } MovesFork(s, i, choice); }
      forall x | 0 <= x < |s.pc| ensures One(s', x) { CountInv(s, i, choice, x); OneFork(s, i, choice, x); }
      forall x, j | 0 <= x < |s.pc| && 0 <= j < |s.pc| ensures Pair(s', x, j) { PairFork(s, i, choice, x, j); }
    } else if InExit(s.pc[i]) {
      assert Move(s, i, e) by {
        forall j | 0 <= j < |s.pc| ensures UsedAt(s, j) { KnownAll(s, j); }
        MovesExit(s, i);
      }
      forall x | 0 <= x < |s.pc| ensures One(s', x) { CountInv(s, i, choice, x); OneExit(s, i, x); }
      forall x, j | 0 <= x < |s.pc| && 0 <= j < |s.pc| ensures Pair(s', x, j) { PairExit(s, i, x, j); }
    } else {
      MovesWait(s, i, choice);
      forall x | 0 <= x < |s.pc| ensures One(s', x) { CountInv(s, i, choice, x); OneWait(s, i, choice, x); }
      forall x, j | 0 <= x < |s.pc| && 0 <= j < |s.pc| ensures Pair(s', x, j) { PairWait(s, i, choice, x, j); }
    }
    MoveInv(s, i, e);
  }

  // Steps of a scheduler.

  /** What a scheduler does without running anyone matters to nobody. */
  lemma SameFacts(s: State, s': State)
    requires Inv(s) && Shape(s') && s'.pc == s.pc && s'.wl == s.wl && s'.st == s.st && s'.chan == s.chan
    requires s'.par == s.par
    requires s'.maker == s.maker && s'.exits == s.exits && s'.reaps == s.reaps
    ensures AllAt(s') && WlOk(s')
  {
    assert UnfoldInv(0);
    forall x | 0 <= x < |s.pc| ensures One(s', x) { assert One(s, x); }
    forall x, j | 0 <= x < |s.pc| && 0 <= j < |s.pc| ensures Pair(s', x, j) { assert Pair(s, x, j); }
  }

  lemma GrabInv(s: State, c: nat, j: nat)
    requires Inv(s) && Enabled(s, Grab(c, j))
    ensures Inv(Apply(s, Grab(c, j)))
  {
    var s' := Apply(s, Grab(c, j));
    assert PlocksOk(s') by { assert UnfoldInv(0); }
    assert CpusOk(s') by { assert CpusOk(s) by { assert UnfoldInv(0); } }
    SameFacts(s, s');
  }

  lemma DropInv(s: State, c: nat)
    requires Inv(s) && Enabled(s, Drop(c))
    ensures Inv(Apply(s, Drop(c)))
  {
    var s' := Apply(s, Drop(c));
    assert s.plock[s.cpu[c].j] == Sched(c) by { assert UnfoldInv(0); }
    assert PlocksOk(s') by { assert UnfoldInv(0); }
    assert CpusOk(s') by { assert CpusOk(s) by { assert UnfoldInv(0); } }
    SameFacts(s, s');
  }

  lemma PassInv(s: State, c: nat)
    requires Inv(s) && Enabled(s, Choose(c)) && !s.st[s.cpu[c].j].Runnable?
    ensures Inv(Apply(s, Choose(c)))
  {
    var s' := Apply(s, Choose(c));
    assert PlocksOk(s') by { assert UnfoldInv(0); }
    assert CpusOk(s') by { assert CpusOk(s) by { assert UnfoldInv(0); } }
    SameFacts(s, s');
  }

  /** A RUNNABLE process whose lock the scheduler holds is switched out. */
  lemma RunnableAway(s: State, c: nat)
    requires Inv(s) && Enabled(s, Choose(c)) && s.st[s.cpu[c].j].Runnable?
    ensures s.pc[s.cpu[c].j].Away? && s.plock[s.cpu[c].j] == Sched(c)
  {
    KnownAll(s, s.cpu[c].j);
    assert CpusOk(s) by { assert UnfoldInv(0); }
  }

  lemma RunOne(s: State, c: nat, x: nat)
    requires Inv(s) && Enabled(s, Choose(c)) && s.st[s.cpu[c].j].Runnable? && s.pc[s.cpu[c].j].Away? && x < |s.pc|
    ensures One(Apply(s, Choose(c)), x)
  {
    RunOwn(s, c, x);
    RunWakeups(s, c, x);
  }

  lemma RunOwn(s: State, c: nat, x: nat)
    requires Inv(s) && Enabled(s, Choose(c)) && s.st[s.cpu[c].j].Runnable? && s.pc[s.cpu[c].j].Away? && x < |s.pc|
    ensures var s' := Apply(s, Choose(c));
            StatusAt(s', x) && ForkAt(s', x) && UsedAt(s', x) && FamilyAt(s', x) && CountAt(s', x)
  {
    KnownAll(s, x);
    KnownAll(s, s.cpu[c].j);
  }

  lemma RunWakeups(s: State, c: nat, x: nat)
    requires Inv(s) && Enabled(s, Choose(c)) && s.st[s.cpu[c].j].Runnable? && s.pc[s.cpu[c].j].Away? && x < |s.pc|
    ensures var s' := Apply(s, Choose(c)); ZombieAt(s', x) && AwakeAt(s', x)
  {
    assert ZombieAt(s, x) && AwakeAt(s, x) by { KnownAll(s, x); }
    assert s.wl != Proc(s.cpu[c].j) by { KnownAll(s, s.cpu[c].j); }
  }

  lemma RunPair(s: State, c: nat, x: nat, j: nat)
    requires Inv(s) && Enabled(s, Choose(c)) && s.st[s.cpu[c].j].Runnable? && s.pc[s.cpu[c].j].Away? && x < |s.pc|
    requires j < |s.pc|
    ensures Pair(Apply(s, Choose(c)), x, j)
  {
    KnownPair(s, x, j);
  }

  lemma RunInv(s: State, c: nat)
    requires Inv(s) && Enabled(s, Choose(c)) && s.st[s.cpu[c].j].Runnable?
    ensures Inv(Apply(s, Choose(c)))
  {
    var s' := Apply(s, Choose(c));
    RunnableAway(s, c);
    assert WlOk(s') by { assert UnfoldInv(0); }
    assert PlocksOk(s') by { assert PlocksOk(s) by { assert UnfoldInv(0); } }
    assert CpusOk(s') by { assert CpusOk(s) by { assert UnfoldInv(0); } }
    forall x | 0 <= x < |s.pc| ensures One(s', x) { RunOne(s, c, x); }
    forall x, j | 0 <= x < |s.pc| && 0 <= j < |s.pc| ensures Pair(s', x, j) { RunPair(s, c, x, j); }
  }

  // Runs.

  /** n slots, of which only init is in use, and m CPUs. */
  function Start(n: nat, m: nat): State
    requires 0 < n
  {
    State(Nobody, seq(n, _ => Nobody), seq(n, i => if i == 0 then Runnable else Unused), seq(n, _ => NoChan),
          seq(n, _ => -1), seq(n, i => if i == 0 then Away(Out) else Away(Dead)), seq(m, _ => Idle),
          seq(n, _ => 0), seq(n, _ => 0), seq(n, _ => 0), seq(n, _ => multiset{}))
  }

  lemma StartInv(n: nat, m: nat)
    requires 0 < n && 0 < m
    ensures Inv(Start(n, m))
  {
    var s := Start(n, m);
    assert forall x :: 0 <= x < |s.pc| ==> One(s, x);
    assert forall x, j :: 0 <= x < |s.pc| && 0 <= j < |s.pc| ==> Pair(s, x, j);
    assert CpusOk(s);
  }

  /** The interleaving es leads from the start to s. */
  ghost predicate Runs(n: nat, m: nat, es: seq<Event>, s: State)
    requires 0 < n
    decreases |es|
  {
    if es == [] then s == Start(n, m)
    else
      var e := es[|es| - 1];
      exists s0: State :: Runs(n, m, es[..|es| - 1], s0) && Shape(s0) && Enabled(s0, e) && s == Apply(s0, e)
  }

  lemma ApplyInv(s: State, e: Event)
    requires Inv(s) && Enabled(s, e)
    ensures Inv(Apply(s, e))
  {
    match e
    case Grab(c, j) => GrabInv(s, c, j);
    case Choose(c) => if s.st[s.cpu[c].j].Runnable? { RunInv(s, c); } else { PassInv(s, c); }
    case Drop(c) => DropInv(s, c);
    case Step(i, choice) => StepInv(s, i, choice);
  }

  lemma {:induction false} RunsInv(n: nat, m: nat, es: seq<Event>, s: State)
    requires 0 < n && 0 < m && Runs(n, m, es, s)
    ensures Inv(s)
    decreases |es|
  {
    if es == [] {
      StartInv(n, m);
    } else {
      var e := es[|es| - 1];
      var s0: State :| Runs(n, m, es[..|es| - 1], s0) && Shape(s0) && Enabled(s0, e) && s == Apply(s0, e);
      RunsInv(n, m, es[..|es| - 1], s0);
      ApplyInv(s0, e);
    }
  }

  /** In every run, whenever wait_lock is free, nobody who sleeps in wait, or is past the last check before that,
      has an exited child. */
  lemma NoMissedExit(n: nat, m: nat, es: seq<Event>, s: State, z: nat)
    requires 0 < n && 0 < m && Runs(n, m, es, s) && z < |s.pc|
    ensures Shape(s)
    ensures s.st[z].Zombie? && s.wl.Nobody? ==> 0 <= s.par[z] < |s.pc| && !Committed(s, s.par[z])
  {
    RunsInv(n, m, es, s);
    KnownAll(s, z);
  }

  /** In every run, the parent of every process in use is a process that has not exited; so every exited process
      has somebody to wait for it. */
  lemma ParentsAlive(n: nat, m: nat, es: seq<Event>, s: State, z: nat)
    requires 0 < n && 0 < m && Runs(n, m, es, s) && 0 < z < |s.pc|
    ensures Shape(s)
    ensures !s.st[z].Unused? && !s.st[z].Used? ==>
              && 0 <= s.par[z] < |s.pc|
              && (s.st[s.par[z]].Runnable? || s.st[s.par[z]].Running? || s.st[s.par[z]].Sleeping?)
  {
    RunsInv(n, m, es, s);
    KnownAll(s, z);
    if s.par[z] >= 0 { KnownPair(s, s.par[z], z); }
  }

  /** In every run, each slot has been freed by wait as often as its process has exited, or once less while it is
      a ZOMBIE. */
  lemma ReapedOnce(n: nat, m: nat, es: seq<Event>, s: State, z: nat)
    requires 0 < n && 0 < m && Runs(n, m, es, s) && z < |s.pc|
    ensures Shape(s) && s.exits[z] == |s.reaps[z]| + if s.st[z].Zombie? then 1 else 0
  {
    RunsInv(n, m, es, s);
    KnownAll(s, z);
  }

  lemma ExitSparesZombies(s: State, i: nat, z: nat)
    requires Shape(s) && Steps(s, i) && InExit(s.pc[i]) && CanExit(s, i) && z < |s.pc| && s.st[z].Zombie?
    ensures Do(s, i, NextExit(s, i)).st[z].Zombie?
  {
  }

  /** Process i is in wait, at its exited child z, which is switched out. */
  predicate Reaps(s: State, i: nat, z: nat)
    requires Shape(s) && i < |s.pc| && z < |s.pc|
  {
    i == s.par[z] && s.pc[i].WaitScan? && s.pc[i].j == z && s.pc[z] == Away(Dead) && s.plock[z].Nobody?
  }

  lemma WaitReaps(s: State, i: nat, choice: Choice, z: nat)
    requires Shape(s) && Steps(s, i) && InWait(s.pc[i]) && CanWait(s, i, choice) && Known(s, z) && s.st[z].Zombie?
    ensures var s' := Do(s, i, NextWait(s, i, choice)); !s'.st[z].Zombie? ==> s'.st[z].Unused? && Reaps(s, i, z)
  {
  }

  lemma StepReaps(s: State, i: nat, choice: Choice, z: nat)
    requires Inv(s) && Enabled(s, Step(i, choice)) && z < |s.pc| && s.st[z].Zombie?
    ensures var s' := Do(s, i, Next(s, i, choice)); !s'.st[z].Zombie? ==> s'.st[z].Unused? && Reaps(s, i, z)
  {
    StepsNow(s, i, choice);
    KnownAll(s, z);
    if choice.Preempt? || !(InExit(s.pc[i]) || InWait(s.pc[i])) {
      if choice.Fork? { KnownAll(s, choice.j); }
      PlainFork(s, i, choice);
    } else if InExit(s.pc[i]) {
      ExitSparesZombies(s, i, z);
    } else {
      WaitReaps(s, i, choice, z);
    }
  }

  lemma SchedulersSpareZombies(s: State, e: Event, z: nat)
    requires Shape(s) && Enabled(s, e) && !e.Step? && z < |s.pc| && s.st[z].Zombie?
    ensures Apply(s, e).st[z].Zombie?
  {
  }

  /** In every run, an exited process stays a ZOMBIE until its current parent frees it in wait, and then it is
      switched out for good. */
  lemma ReapedByParent(n: nat, m: nat, es: seq<Event>, s: State, e: Event, z: nat, c: nat)
    requires 0 < n && 0 < m && Runs(n, m, es, s) && Shape(s) && Enabled(s, e) && z < |s.pc| && s.st[z].Zombie?
    requires c < |s.cpu|
    requires !Apply(s, e).st[z].Zombie?
    ensures e.Step? && Reaps(s, e.i, z) && Apply(s, e).st[z].Unused? && s.cpu[c] != On(z)
  {
    RunsInv(n, m, es, s);
    if !e.Step? {
      SchedulersSpareZombies(s, e, z);
      assert false;
    }
    StepReaps(s, e.i, e.choice, z);
    OffCpu(s, z, c);
  }

  lemma OffCpu(s: State, z: nat, c: nat)
    requires Inv(s) && z < |s.pc| && s.pc[z].Away? && c < |s.cpu|
    ensures s.cpu[c] != On(z)
  {
    assert CpusOk(s) by { assert UnfoldInv(0); }
  }

  /** In every run, an idle CPU can run any RUNNABLE process whose lock is free, in two steps, and it then goes on from
      where it was switched out. */
  lemma CanBeRun(n: nat, m: nat, es: seq<Event>, s: State, c: nat, j: nat)
    requires 0 < n && Runs(n, m, es, s) && 0 < m && Shape(s) && c < |s.cpu| && s.cpu[c].Idle?
    requires j < |s.pc| && s.st[j].Runnable? && s.plock[j].Nobody?
    ensures s.pc[j].Away? && Enabled(s, Grab(c, j)) && Enabled(Apply(s, Grab(c, j)), Choose(c))
    ensures var s' := Apply(Apply(s, Grab(c, j)), Choose(c));
            s'.cpu[c] == On(j) && s'.at[j] == c && s'.st[j].Running? && s'.pc[j] == Resume(s.pc[j].k)
  {
    RunsInv(n, m, es, s);
    GrabInv(s, c, j);
    RunnableAway(Apply(s, Grab(c, j)), c);
  }
}
