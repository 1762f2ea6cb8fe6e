/**
 Pipes (kernel/pipe.c) as a step machine: any number of readers and writers, whose steps
 under the pipe's lock are single bytes and single decisions.  sleep gives up the lock and
 wakeup moves all sleepers on a channel at once.
 */
module Pipe {
  import opened Blocks

  const PIPESIZE: nat := 512
  const WRAP: nat := 0x1_0000_0000  // nread and nwrite are uint

  /** What a thread is doing. */
  datatype Pc =
    | Out
    | Write(bytes: seq<Byte>, dirty: bool)  // pipewrite with the lock; dirty: has put bytes since it got it
    | WSleep(bytes: seq<Byte>)              // asleep on nwrite
    | WReady(bytes: seq<Byte>)              // woken, wants the lock
    | Check(n: nat)                         // piperead with the lock, in the waiting loop
    | RSleep(n: nat)                        // asleep on nread
    | RReady(n: nat)
    | Copy(n: nat, k: nat)                  // piperead with the lock, in the copying loop: n rounds left, k bytes done

  datatype Call = Writing(bytes: seq<Byte>) | Reading(n: nat)

  /** For the proof: all bytes ever put and taken, all calls ever made, the current or last call of each thread, the
      calls that put and took those bytes, and what the calls that are over have returned. */
  datatype State = State(
    data: seq<Byte>, nread: nat, nwrite: nat, readopen: bool, writeopen: bool, lock: int, pc: seq<Pc>,
    sent: seq<Byte>, got: seq<Byte>, calls: seq<Call>, call: seq<nat>,
    putBy: seq<nat>, takenBy: seq<nat>, ret: map<nat, int>)

  /** Whether the thread has been killed, or its access to user memory fails. */
  datatype Luck = Good | Killed | Fault

  datatype Event =
    | StartWrite(i: nat, bytes: seq<Byte>)
    | StartRead(i: nat, n: nat)
    | Resume(i: nat)                    // a woken thread gets the lock
    | Step(i: nat, luck: Luck)          // a step with the lock
    | CloseWrite
    | CloseRead
    | Kick(i: nat)                      // kill makes a sleeping thread runnable, whoever has the lock

  predicate HoldsLock(pc: Pc) { pc.Write? || pc.Check? || pc.Copy? }

  predicate Full(s: State) { s.nwrite == (s.nread + PIPESIZE) % WRAP }
  predicate Empty(s: State) { s.nread == s.nwrite }

  predicate Enabled(s: State, e: Event) {
    match e
    case StartWrite(i, _) => i < |s.pc| == |s.call| && s.pc[i].Out? && s.lock == -1
    case StartRead(i, _) => i < |s.pc| == |s.call| && s.pc[i].Out? && s.lock == -1
    case Resume(i) => i < |s.pc| && (s.pc[i].WReady? || s.pc[i].RReady?) && s.lock == -1
    case Step(i, _) =>
      && i < |s.pc| == |s.call| && HoldsLock(s.pc[i]) && |s.data| == PIPESIZE
      && (s.pc[i].Write? ==> s.call[i] < |s.calls| && s.calls[s.call[i]].Writing?)
    case CloseWrite => s.lock == -1
    case CloseRead => s.lock == -1
    case Kick(i) => i < |s.pc|
  }

  function WakeReader(pc: Pc): Pc { if pc.RSleep? then RReady(pc.n) else pc }
  function WakeWriter(pc: Pc): Pc { if pc.WSleep? then WReady(pc.bytes) else pc }

  function WakeReaders(pcs: seq<Pc>): (r: seq<Pc>)
    ensures |r| == |pcs| && forall i :: 0 <= i < |pcs| ==> r[i] == WakeReader(pcs[i])
  {
    if pcs == [] then [] else [WakeReader(pcs[0])] + WakeReaders(pcs[1..])
  }

  function WakeWriters(pcs: seq<Pc>): (r: seq<Pc>)
    ensures |r| == |pcs| && forall i :: 0 <= i < |pcs| ==> r[i] == WakeWriter(pcs[i])
  {
    if pcs == [] then [] else [WakeWriter(pcs[0])] + WakeWriters(pcs[1..])
  }

  /** Thread i goes to pc and gives up the lock. */
  function Leave(s: State, i: nat, pcs: seq<Pc>, pc: Pc): State
    requires i < |pcs|
  {
    s.(pc := pcs[i := pc], lock := -1)
  }

  /** Thread i returns r. */
  function Return(s: State, i: nat, pcs: seq<Pc>, r: int): State
    requires i < |pcs| && i < |s.call|
  {
    Leave(s, i, pcs, Out).(ret := s.ret[s.call[i] := r])
  }

  function StepWrite(s: State, i: nat, luck: Luck): State
    requires i < |s.pc| == |s.call| && s.pc[i].Write? && |s.data| == PIPESIZE
    requires s.call[i] < |s.calls| && s.calls[s.call[i]].Writing?
  {
    var bytes := s.pc[i].bytes;
    var done := |s.calls[s.call[i]].bytes| - |bytes|;
    if bytes == [] then Return(s, i, WakeReaders(s.pc), done)
    else if !s.readopen || luck.Killed? then Return(s, i, s.pc, -1)
    else if Full(s) then Leave(s, i, WakeReaders(s.pc), WSleep(bytes))
    else if luck.Fault? then Return(s, i, WakeReaders(s.pc), done)
    else Put(s, i, bytes)
  }

  function Put(s: State, i: nat, bytes: seq<Byte>): State
    requires i < |s.pc| == |s.call| && |s.data| == PIPESIZE && bytes != []
  {
    s.(data := s.data[s.nwrite % PIPESIZE := bytes[0]], nwrite := (s.nwrite + 1) % WRAP,
       sent := s.sent + [bytes[0]], putBy := s.putBy + [s.call[i]],
       pc := s.pc[i := Write(bytes[1..], true)])
  }

  function StepCheck(s: State, i: nat, luck: Luck): State
    requires i < |s.pc| == |s.call| && s.pc[i].Check?
  {
    if !Empty(s) || !s.writeopen then s.(pc := s.pc[i := Copy(s.pc[i].n, 0)])
    else if luck.Killed? then Return(s, i, s.pc, -1)
    else Leave(s, i, s.pc, RSleep(s.pc[i].n))
  }

  /** A byte that cannot be copied out is lost. */
  function StepCopy(s: State, i: nat, luck: Luck): State
    requires i < |s.pc| == |s.call| && s.pc[i].Copy? && |s.data| == PIPESIZE
  {
    var (n, k) := (s.pc[i].n, s.pc[i].k);
    if n == 0 || Empty(s) then Return(s, i, WakeWriters(s.pc), k)
    else if luck.Fault? then Get(s, i, 0, k)
    else Get(s, i, n - 1, k + 1)
  }

  function Get(s: State, i: nat, n: nat, k: nat): State
    requires i < |s.pc| == |s.call| && |s.data| == PIPESIZE
  {
    s.(nread := (s.nread + 1) % WRAP, got := s.got + [s.data[s.nread % PIPESIZE]], takenBy := s.takenBy + [s.call[i]],
       pc := s.pc[i := Copy(n, k)])
  }

  function Begin(s: State, i: nat, c: Call, pc: Pc): State
    requires i < |s.pc| == |s.call|
  {
    s.(lock := i, pc := s.pc[i := pc], calls := s.calls + [c], call := s.call[i := |s.calls|])
  }

  function Apply(s: State, e: Event): State
    requires Enabled(s, e)
  {
    match e
    case StartWrite(i, bytes) => Begin(s, i, Writing(bytes), Write(bytes, false))
    case StartRead(i, n) => Begin(s, i, Reading(n), Check(n))
    case Resume(i) =>
      s.(lock := i, pc := s.pc[i := if s.pc[i].WReady? then Write(s.pc[i].bytes, false) else Check(s.pc[i].n)])
    case Step(i, luck) =>
      if s.pc[i].Write? then StepWrite(s, i, luck)
      else if s.pc[i].Check? then StepCheck(s, i, luck)
      else StepCopy(s, i, luck)
    case CloseWrite => s.(writeopen := false, pc := WakeReaders(s.pc))
    case CloseRead => s.(readopen := false, pc := WakeWriters(s.pc))
    case Kick(i) => s.(pc := s.pc[i := WakeWriter(WakeReader(s.pc[i]))])
  }

  // The invariant.

  /** What is in the pipe: sent but not taken. */
  function Buffered(s: State): seq<Byte>
    requires |s.got| <= |s.sent|
  {
    s.sent[|s.got|..]
  }

  /** The ring holds the bytes in transit, at most PIPESIZE of them; the counters count modulo 2^32. */
  predicate DataOk(s: State) {
    true == (
      && |s.data| == PIPESIZE && s.got <= s.sent && |s.sent| - |s.got| <= PIPESIZE
      && s.nread == |s.got| % WRAP && s.nwrite == |s.sent| % WRAP
      && forall k :: |s.got| <= k < |s.sent| ==> s.data[k % PIPESIZE] == s.sent[k])
  }

  predicate LockOk(s: State) {
    true == (
      && -1 <= s.lock < |s.pc| == |s.call|
      && forall i :: 0 <= i < |s.pc| ==> (HoldsLock(s.pc[i]) <==> s.lock == i))
  }

  /** A writer sleeps only while the pipe is full and open for reading, or a reader is about to wake it. */
  predicate WritersOk(s: State) {
    forall i :: 0 <= i < |s.pc| && s.pc[i].WSleep? ==>
      s.readopen && (Full(s) || (0 <= s.lock < |s.pc| && s.pc[s.lock].Copy?))
  }

  /** A reader sleeps only while the pipe is open for writing; a writer that has put bytes finds the pipe not empty. */
  predicate ReadersOk(s: State) {
    && (forall i :: 0 <= i < |s.pc| && s.pc[i].RSleep? ==> s.writeopen)
    && (forall i :: 0 <= i < |s.pc| && s.pc[i].Write? && s.pc[i].dirty ==> !Empty(s))
  }

  ghost predicate Inv(s: State) {
    DataOk(s) && LockOk(s) && WritersOk(s) && ReadersOk(s)
  }

  // Sleeping readers.

  /** A reader sleeps only while the pipe is empty, or a writer is about to wake it. */
  predicate NoneStranded(s: State) {
    forall i :: 0 <= i < |s.pc| && s.pc[i].RSleep? ==>
      Empty(s) || (0 <= s.lock < |s.pc| && s.pc[s.lock].Write? && s.pc[s.lock].dirty)
  }

  /** The writer gives up although it has bytes left: the early return of pipewrite. */
  predicate GivesUp(s: State, e: Event) {
    e.Step? && e.i < |s.pc| && s.pc[e.i].Write? && s.pc[e.i].bytes != [] && (!s.readopen || e.luck.Killed?)
  }

  /** A writer gives up after putting bytes, while a reader sleeps. */
  predicate Strands(s: State, e: Event) {
    GivesUp(s, e) && s.pc[e.i].dirty && exists i :: 0 <= i < |s.pc| && s.pc[i].RSleep?
  }

  /** A writer does anything but give up, the last byte is taken, the write end is closed, or the only reader asleep
      is killed. */
  predicate Mends(s: State, e: Event) {
    || e.CloseWrite?
    || (e.Kick? && forall i :: 0 <= i < |s.pc| && s.pc[i].RSleep? ==> i == e.i)
    || (e.Step? && e.i < |s.pc| && s.pc[e.i].Write? && !GivesUp(s, e))
    || (e.Step? && e.i < |s.pc| && s.pc[e.i].Copy? && s.pc[e.i].n > 0 && |s.sent| == |s.got| + 1)
  }

  // Counters.

  lemma RingIndex(x: nat)
    ensures x % WRAP % PIPESIZE == x % PIPESIZE && (x % WRAP + 1) % WRAP == (x + 1) % WRAP
  {
  }

  lemma FullMeans(s: State)
    requires DataOk(s)
    ensures Full(s) <==> |s.sent| - |s.got| == PIPESIZE
    ensures Empty(s) <==> |s.sent| == |s.got|
  {
    CounterMeans(|s.got|, |s.sent| - |s.got|);
  }

  lemma CounterMeans(x: nat, n: nat)
    requires n <= PIPESIZE
    ensures (x + n) % WRAP == (x % WRAP + PIPESIZE) % WRAP <==> n == PIPESIZE
    ensures (x + n) % WRAP == x % WRAP <==> n == 0
  {
  }

  lemma PutData(s: State, i: nat, bytes: seq<Byte>)
    requires DataOk(s) && i < |s.pc| == |s.call| && bytes != [] && !Full(s)
    ensures DataOk(Put(s, i, bytes))
  {
    var s' := Put(s, i, bytes);
    FullMeans(s);
    RingIndex(|s.sent|);
    forall k | |s.got| <= k < |s'.sent| ensures s'.data[k % PIPESIZE] == s'.sent[k] {
      if k < |s.sent| { Apart(k, |s.sent|); }
    }
  }

  lemma Apart(k: nat, n: nat)
    requires k < n < k + PIPESIZE
    ensures k % PIPESIZE != n % PIPESIZE
  {
  }

  lemma GetData(s: State, i: nat, n: nat, k: nat)
    requires DataOk(s) && i < |s.pc| == |s.call| && !Empty(s)
    ensures DataOk(Get(s, i, n, k))
  {
    var s' := Get(s, i, n, k);
    FullMeans(s);
    RingIndex(|s.got|);
    assert s.data[|s.got| % PIPESIZE] == s.sent[|s.got|];
    assert s'.got == s.sent[..|s.got| + 1];
  }

  // Steps.

  lemma PutInv(s: State, i: nat, bytes: seq<Byte>)
    requires Inv(s) && i < |s.pc| && s.pc[i].Write? && bytes != [] && !Full(s)
    ensures Inv(Put(s, i, bytes))
  {
    PutData(s, i, bytes);
    FullMeans(Put(s, i, bytes));
  }

  lemma GetInv(s: State, i: nat, n: nat, k: nat)
    requires Inv(s) && i < |s.pc| && s.pc[i].Copy? && !Empty(s)
    ensures Inv(Get(s, i, n, k))
  {
    GetData(s, i, n, k);
  }

  /** What has been returned does not matter. */
  lemma ReturnInv(s: State, i: nat, pcs: seq<Pc>, r: int)
    requires i < |pcs| && i < |s.call| && Inv(Leave(s, i, pcs, Out))
    ensures Inv(Return(s, i, pcs, r))
  {
    var s' := Leave(s, i, pcs, Out);
    assert DataOk(s') && LockOk(s') && WritersOk(s') && ReadersOk(s');
  }

  /** A writer wakes the readers and leaves. */
  lemma WakeAndLeave(s: State, i: nat, pc: Pc)
    requires Inv(s) && i < |s.pc| && s.pc[i].Write? && (pc.Out? || (pc.WSleep? && Full(s) && s.readopen))
    ensures Inv(Leave(s, i, WakeReaders(s.pc), pc))
  {
    var s' := Leave(s, i, WakeReaders(s.pc), pc);
    assert DataOk(s');
    assert LockOk(s');
    assert WritersOk(s');
  }

  /** A writer gives up. */
  lemma AbortInv(s: State, i: nat)
    requires Inv(s) && i < |s.pc| && s.pc[i].Write?
    ensures Inv(Leave(s, i, s.pc, Out))
  {
    var s' := Leave(s, i, s.pc, Out);
    assert DataOk(s');
    assert LockOk(s');
    assert WritersOk(s');
  }

  lemma WriteInv(s: State, i: nat, luck: Luck)
    requires Inv(s) && Enabled(s, Step(i, luck)) && s.pc[i].Write?
    ensures Inv(StepWrite(s, i, luck))
  {
    var bytes := s.pc[i].bytes;
    var done := |s.calls[s.call[i]].bytes| - |bytes|;
    if bytes == [] {
      WakeAndLeave(s, i, Out);
      ReturnInv(s, i, WakeReaders(s.pc), done);
    } else if !s.readopen || luck.Killed? {
      AbortInv(s, i);
      ReturnInv(s, i, s.pc, -1);
    } else if Full(s) {
      WakeAndLeave(s, i, WSleep(bytes));
    } else if luck.Fault? {
      WakeAndLeave(s, i, Out);
      ReturnInv(s, i, WakeReaders(s.pc), done);
    } else {
      PutInv(s, i, bytes);
    }
  }

  lemma CheckInv(s: State, i: nat, luck: Luck)
    requires Inv(s) && i < |s.pc| && s.pc[i].Check?
    ensures Inv(StepCheck(s, i, luck))
  {
    var s' := StepCheck(s, i, luck);
    assert DataOk(s') && LockOk(s') && WritersOk(s');
  }

  lemma CopyInv(s: State, i: nat, luck: Luck)
    requires Inv(s) && i < |s.pc| && s.pc[i].Copy?
    ensures Inv(StepCopy(s, i, luck))
  {
    var s' := StepCopy(s, i, luck);
    if s.pc[i].n == 0 || Empty(s) {
      assert DataOk(s') && LockOk(s') && WritersOk(s');
    } else {
      GetInv(s, i, if luck.Fault? then 0 else s.pc[i].n - 1, if luck.Fault? then s.pc[i].k else s.pc[i].k + 1);
    }
  }

  lemma ApplyInv(s: State, e: Event)
    requires Inv(s) && Enabled(s, e)
    ensures Inv(Apply(s, e))
  {
    if e.Step? {
      if s.pc[e.i].Write? {
        WriteInv(s, e.i, e.luck);
      } else if s.pc[e.i].Check? {
        CheckInv(s, e.i, e.luck);
      } else {
        CopyInv(s, e.i, e.luck);
      }
    } else {
      var s' := Apply(s, e);
      assert DataOk(s') && LockOk(s') && WritersOk(s');
    }
  }

  // Runs.

  /** A new pipe and m threads. */
  function Start(m: nat): State {
    State(seq(PIPESIZE, _ => 0), 0, 0, true, true, -1, seq(m, _ => Out), [], [], [], seq(m, _ => 0), [], [], map[])
  }

  // A predicate of the form `forall u :: UnfoldP(u) ==> body` means `body`, but the verifier looks
  // inside P only in proofs that mention UnfoldP.
  predicate UnfoldRuns(u: int) { true }

  /** The interleaving es leads from the start to s. */
  ghost predicate Runs(m: nat, es: seq<Event>, s: State)
    decreases |es|
  {
    forall u {:trigger UnfoldRuns(u)} :: UnfoldRuns(u) ==>
      if es == [] then s == Start(m)
      else
        var e := es[|es| - 1];
        exists s0: State :: Runs(m, es[..|es| - 1], s0) && Enabled(s0, e) && s == Apply(s0, e)
  }

  lemma {:induction false} RunsInv(m: nat, es: seq<Event>, s: State)
    requires Runs(m, es, s)
    ensures Inv(s)
    decreases |es|
  {
    assert UnfoldRuns(0);
    if es != [] {
      var e := es[|es| - 1];
      var s0: State :| Runs(m, es[..|es| - 1], s0) && Enabled(s0, e) && s == Apply(s0, e);
      RunsInv(m, es[..|es| - 1], s0);
      ApplyInv(s0, e);
    }
  }

  /** In every run the bytes taken are those put, in order; at most PIPESIZE are in the pipe; and the tests for
      full and empty are right although the counters wrap around. */
  lemma BytesInOrder(m: nat, es: seq<Event>, s: State)
    requires Runs(m, es, s)
    ensures s.got <= s.sent && |Buffered(s)| <= PIPESIZE
    ensures (Full(s) <==> |Buffered(s)| == PIPESIZE) && (Empty(s) <==> Buffered(s) == [])
  {
    RunsInv(m, es, s);
    FullMeans(s);
  }

  /** In every run, an end of the pipe is open exactly as long as it has not been closed. */
  lemma {:induction false} EndsOpen(m: nat, es: seq<Event>, s: State)
    requires Runs(m, es, s)
    ensures (s.readopen <==> CloseRead !in es) && (s.writeopen <==> CloseWrite !in es)
    decreases |es|
  {
    assert UnfoldRuns(0);
    if es != [] {
      var (e, es0) := (es[|es| - 1], es[..|es| - 1]);
      var s0: State :| Runs(m, es0, s0) && Enabled(s0, e) && s == Apply(s0, e);
      EndsOpen(m, es0, s0);
      EndsStep(s0, e, s);
      assert es == es0 + [e];
      InBoth(es0, e, CloseRead);
      InBoth(es0, e, CloseWrite);
    }
  }

  lemma InBoth(es: seq<Event>, e: Event, x: Event)
    ensures x in es + [e] <==> x in es || x == e
  {
  }

  lemma EndsStep(s: State, e: Event, s': State)
    requires Enabled(s, e) && s' == Apply(s, e)
    ensures s'.readopen == (s.readopen && !e.CloseRead?) && s'.writeopen == (s.writeopen && !e.CloseWrite?)
  {
  }

  /** In every run, while the lock is free a writer sleeps only if the pipe is full and open for reading. */
  lemma WritersSleepRightly(m: nat, es: seq<Event>, s: State, i: nat)
    requires Runs(m, es, s) && s.lock == -1 && i < |s.pc| && s.pc[i].WSleep?
    ensures Full(s) && s.readopen
  {
    RunsInv(m, es, s);
  }

  /** In every run a reader sleeps only on a pipe that is open for writing. */
  lemma ReadersSleepOpen(m: nat, es: seq<Event>, s: State, i: nat)
    requires Runs(m, es, s) && i < |s.pc| && s.pc[i].RSleep?
    ensures s.writeopen
  {
    RunsInv(m, es, s);
  }

  lemma WriterStaysRight(s: State, i: nat, luck: Luck)
    requires Inv(s) && Enabled(s, Step(i, luck)) && s.pc[i].Write? && NoneStranded(s)
    ensures NoneStranded(StepWrite(s, i, luck)) <==> !Strands(s, Step(i, luck))
  {
    var s' := StepWrite(s, i, luck);
    if Strands(s, Step(i, luck)) {
      var j :| 0 <= j < |s.pc| && s.pc[j].RSleep?;
      assert s'.pc[j].RSleep? && !Empty(s');
    }
  }

  lemma StaysRight(s: State, e: Event)
    requires Inv(s) && Enabled(s, e) && NoneStranded(s)
    ensures NoneStranded(Apply(s, e)) <==> !Strands(s, e)
  {
    if e.Step? && s.pc[e.i].Write? { WriterStaysRight(s, e.i, e.luck); }
  }

  lemma WriterMends(s: State, i: nat, luck: Luck)
    requires Inv(s) && Enabled(s, Step(i, luck)) && s.pc[i].Write? && !NoneStranded(s)
    ensures NoneStranded(Apply(s, Step(i, luck))) <==> !GivesUp(s, Step(i, luck))
  {
    var s' := Apply(s, Step(i, luck));
    var j :| 0 <= j < |s.pc| && s.pc[j].RSleep? && !Empty(s);
    if GivesUp(s, Step(i, luck)) { assert s'.pc[j].RSleep?; }
  }

  lemma ReaderMends(s: State, i: nat, luck: Luck)
    requires Inv(s) && Enabled(s, Step(i, luck)) && s.pc[i].Copy? && !NoneStranded(s)
    ensures NoneStranded(Apply(s, Step(i, luck))) <==> s.pc[i].n > 0 && |s.sent| == |s.got| + 1
  {
    var s' := StepCopy(s, i, luck);
    var j :| 0 <= j < |s.pc| && s.pc[j].RSleep? && !Empty(s);
    CopyInv(s, i, luck);
    FullMeans(s);
    FullMeans(s');
    assert s'.pc[j].RSleep?;
  }

  lemma BecomesRight(s: State, e: Event)
    requires Inv(s) && Enabled(s, e) && !NoneStranded(s)
    ensures NoneStranded(Apply(s, e)) <==> Mends(s, e)
  {
    if e.Step? && s.pc[e.i].Write? {
      WriterMends(s, e.i, e.luck);
    } else if e.Step? && s.pc[e.i].Copy? {
      ReaderMends(s, e.i, e.luck);
    } else {
      var i :| 0 <= i < |s.pc| && s.pc[i].RSleep? && !Empty(s) && (e.Kick? && !Mends(s, e) ==> i != e.i);
      assert !Mends(s, e) ==> Apply(s, e).pc[i].RSleep?;
    }
  }

  /** Exactly when readers sleep rightly: in every run, after every event, no reader sleeps on a pipe that holds bytes
      with no writer about to wake it, if and only if that was so before and no writer has given up after putting
      bytes while a reader slept, or it was not so and the event has mended it. */
  lemma ReadersSleepRightly(m: nat, es: seq<Event>, s: State, e: Event)
    requires Runs(m, es, s) && Enabled(s, e)
    ensures NoneStranded(Apply(s, e)) <==> if NoneStranded(s) then !Strands(s, e) else Mends(s, e)
  {
    RunsInv(m, es, s);
    if NoneStranded(s) { StaysRight(s, e); } else { BecomesRight(s, e); }
  }

  /** A run in which no event strands a reader. */
  ghost predicate Careful(m: nat, es: seq<Event>, s: State)
    decreases |es|
  {
    if es == [] then s == Start(m)
    else
      var e := es[|es| - 1];
      exists s0: State :: Careful(m, es[..|es| - 1], s0) && Enabled(s0, e) && s == Apply(s0, e) && !Strands(s0, e)
  }

  /** A run in which no reader is stranded at any moment. */
  ghost predicate NeverStranded(m: nat, es: seq<Event>, s: State)
    decreases |es|
  {
    && NoneStranded(s)
    && if es == [] then s == Start(m)
       else
         var e := es[|es| - 1];
         exists s0: State :: NeverStranded(m, es[..|es| - 1], s0) && Enabled(s0, e) && s == Apply(s0, e)
  }

  lemma {:induction false} CarefulRuns(m: nat, es: seq<Event>, s: State)
    requires Careful(m, es, s)
    ensures Runs(m, es, s) && NeverStranded(m, es, s)
    decreases |es|
  {
    if es != [] {
      var e := es[|es| - 1];
      var s0: State :| Careful(m, es[..|es| - 1], s0) && Enabled(s0, e) && s == Apply(s0, e) && !Strands(s0, e);
      CarefulRuns(m, es[..|es| - 1], s0);
      ReadersSleepRightly(m, es[..|es| - 1], s0, e);
    }
  }

  lemma {:induction false} NeverStrandedCareful(m: nat, es: seq<Event>, s: State)
    requires NeverStranded(m, es, s)
    ensures Careful(m, es, s)
    decreases |es|
  {
    if es != [] {
      var e := es[|es| - 1];
      var s0: State :| NeverStranded(m, es[..|es| - 1], s0) && Enabled(s0, e) && s == Apply(s0, e);
      NeverStrandedCareful(m, es[..|es| - 1], s0);
      CarefulRuns(m, es[..|es| - 1], s0);
      ReadersSleepRightly(m, es[..|es| - 1], s0, e);
    }
  }

  /** Over whole runs: no reader is ever stranded exactly if no writer ever gives up after putting bytes while a
      reader sleeps. */
  lemma NeverStrandedExactly(m: nat, es: seq<Event>, s: State)
    ensures NeverStranded(m, es, s) <==> Careful(m, es, s)
  {
    if NeverStranded(m, es, s) { NeverStrandedCareful(m, es, s); }
    if Careful(m, es, s) { CarefulRuns(m, es, s); }
  }

  /** The events of a run in which thread 0 waits for a byte and thread 1 is killed after putting one. */
  function StrandingRun(b: Byte): seq<Event> {
    [StartRead(0, 1), Step(0, Good), StartWrite(1, [b, b]), Step(1, Good), Step(1, Killed)]
  }

  /** It does happen: a reader can be left asleep on a pipe that holds a byte. */
  lemma StrandedReader(b: Byte) returns (s: State)
    ensures Runs(2, StrandingRun(b), s) && s.lock == -1 && |s.pc| == 2 && s.pc[0].RSleep? && !Empty(s)
    ensures !NoneStranded(s)
  {
    var es := StrandingRun(b);
    s := ReaderWaits(b);
    s := Extend(2, es, 2, s);
    s := Extend(2, es, 3, s);
    assert |s.pc| == 2 && s.pc[0].RSleep? && s.pc[1].Write? && s.pc[1].dirty && s.pc[1].bytes == [b];
    assert s.nread == 0 && s.nwrite == 1;
    s := Extend(2, es, 4, s);
    assert es[..5] == es;
  }

  lemma ReaderWaits(b: Byte) returns (s: State)
    ensures Runs(2, StrandingRun(b)[..2], s) && Waiting(s)
  {
    var es := StrandingRun(b);
    s := Start(2);
    assert Runs(2, es[..0], s);
    s := Extend(2, es, 0, s);
    s := Extend(2, es, 1, s);
  }

  predicate Waiting(s: State) {
    && |s.pc| == 2 && s.pc[0].RSleep? && s.pc[1].Out? && s.lock == -1
    && s.nread == s.nwrite == 0 && s.readopen && |s.data| == PIPESIZE && |s.call| == 2
  }

  lemma Extend(m: nat, es: seq<Event>, k: nat, s: State) returns (s': State)
    requires k < |es| && Runs(m, es[..k], s) && Enabled(s, es[k])
    ensures Runs(m, es[..k + 1], s') && s' == Apply(s, es[k])
  {
    s' := Apply(s, es[k]);
    var fs := es[..k + 1];
    assert fs[..|fs| - 1] == es[..k] && fs[|fs| - 1] == es[k];
  }
}
