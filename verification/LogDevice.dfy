/**
 kernel/log.c as imperative code over an in-memory log header, a block cache and a disk.
 Every bwrite and every critical section is recorded in a ghost trace, and the trace is
 proved to be a run of LogMachine, so the theorems there hold of this code at every step.
 */
module LogDevice {
  import opened Blocks
  import opened LogMachine

  /** The disk and the in-memory header always fit together. */
  predicate Fits(s: State) {
    && GoodDisk(s.disk)
    && (!s.pc.Boot? ==> GoodList(s.lh, s.disk))
    && (s.active != {} ==> s.pc.Ready?)
  }

  lemma RunsFit(c: State, es: seq<Event>, s: State)
    requires Runs(c, es, s)
    ensures Fits(s) && (s.pc.Ready? && s.active == {} ==> s.lh == [])
  {
    RunRefines(c, es, s);
  }

  // What each step of the code does to the machine's state.

  lemma TraceReadHead(c: State, es: seq<Event>, s: State)
    requires Runs(c, es, s) && s.pc.Boot?
    ensures s.disk.head.n <= LOGSIZE == |s.disk.head.block|
    ensures Runs(c, es + [LogMachine.ReadHead], s.(lh := s.disk.head.block[..s.disk.head.n], pc := Recovering(0)))
  {
    RunsFit(c, es, s);
    RunsSnoc(c, es, s, LogMachine.ReadHead);
  }

  lemma TraceInstall(c: State, es: seq<Event>, s: State, t: nat)
    requires Runs(c, es, s) && s.pc == Installing(t) && t < |s.lh|
    ensures t < |s.disk.slot|
    ensures Runs(c, es + [Install],
                   s.(disk := s.disk.(home := s.disk.home[s.lh[t] := s.disk.slot[t]]),
                      cache := s.cache[s.lh[t] := s.disk.slot[t]],
                      pins := Unpin(s.pins, s.lh[t]), pc := Installing(t + 1)))
  {
    RunsFit(c, es, s);
    RunsSnoc(c, es, s, Install);
  }

  lemma TraceReinstall(c: State, es: seq<Event>, s: State, t: nat)
    requires Runs(c, es, s) && s.pc == Recovering(t) && t < |s.lh|
    ensures t < |s.disk.slot|
    ensures Runs(c, es + [Reinstall],
                   s.(disk := s.disk.(home := s.disk.home[s.lh[t] := s.disk.slot[t]]),
                      cache := s.cache[s.lh[t] := s.disk.slot[t]], pc := Recovering(t + 1)))
  {
    RunsFit(c, es, s);
    RunsSnoc(c, es, s, Reinstall);
  }

  lemma TraceLogBlock(c: State, es: seq<Event>, s: State, t: nat)
    requires Runs(c, es, s) && s.pc == WritingLog(t) && t < |s.lh|
    ensures t < |s.disk.slot| && s.lh[t] in s.disk.home
    ensures Runs(c, es + [LogBlock],
                   s.(disk := s.disk.(slot := s.disk.slot[t := Current(s, s.lh[t])]), pc := WritingLog(t + 1)))
  {
    RunsFit(c, es, s);
    RunsSnoc(c, es, s, LogBlock);
  }

  lemma TraceHead(c: State, es: seq<Event>, s: State)
    requires Runs(c, es, s) && s.pc == WritingLog(|s.lh|)
    ensures |s.lh| <= LOGSIZE == |s.disk.head.block|
    ensures Runs(c, es + [LogMachine.WriteHead],
                 s.(disk := s.disk.(head := SetHead(s.disk.head, s.lh)), pc := Installing(0)))
  {
    RunsFit(c, es, s);
    RunsSnoc(c, es, s, LogMachine.WriteHead);
  }

  lemma TraceClear(c: State, es: seq<Event>, s: State, e: Event)
    requires Runs(c, es, s)
    requires (e == ClearHead && s.pc == Installing(|s.lh|)) || (e == RecoverClear && s.pc == Recovering(|s.lh|))
    ensures |s.disk.head.block| == LOGSIZE
    ensures Runs(c, es + [e],
                 s.(disk := s.disk.(head := SetHead(s.disk.head, [])),
                    lh := [],
                    pc := if e == ClearHead then Finishing else Ready))
  {
    RunsFit(c, es, s);
    RunsSnoc(c, es, s, e);
    assert [] + s.disk.head.block[0..] == s.disk.head.block;
  }

  lemma TraceBegin(c: State, es: seq<Event>, s: State)
    requires Runs(c, es, s) && s.pc.Ready? && |s.lh| + (|s.active| + 1) * MAXOPBLOCKS <= LOGSIZE
    ensures Runs(c, es + [Begin(s.next)], s.(active := s.active + {s.next}, next := s.next + 1))
    ensures s.next !in s.active
  {
    RunsSnoc(c, es, s, Begin(s.next));
    RunRefines(c, es, s);
    RunIsSpecRun(c, es, s);
    OpAccounts(es, s.next);
  }

  lemma TraceEnd(c: State, es: seq<Event>, s: State, op: nat)
    requires Runs(c, es, s) && s.pc.Ready? && op in s.active
    ensures Runs(c, es + [End(op)],
                   s.(active := s.active - {op},
                      pc := if s.active != {op} then Ready else if s.lh != [] then WritingLog(0) else Finishing))
  {
    RunsSnoc(c, es, s, End(op));
  }

  lemma TraceFinish(c: State, es: seq<Event>, s: State)
    requires Runs(c, es, s) && s.pc.Finishing?
    ensures Runs(c, es + [Finish], s.(pc := Ready))
  {
    RunsSnoc(c, es, s, Finish);
  }

  lemma TraceWrite(c: State, es: seq<Event>, s: State, op: nat, b: nat, v: Block)
    requires Runs(c, es, s) && op in s.active && b in s.disk.home && !LogFull(s)
    ensures Runs(c, es + [Write(op, b, v)],
                   var s1 := s.(cache := s.cache[b := v]);
                   if b in s.lh then s1 else s1.(lh := s.lh + [b], pins := Pin(s.pins, b)))
  {
    RunsSnoc(c, es, s, Write(op, b, v));
  }

  lemma TraceLoad(c: State, es: seq<Event>, s: State, b: nat)
    requires Runs(c, es, s) && !s.pc.Boot? && b in s.disk.home && b !in s.cache
    ensures Runs(c, es + [Load(b)], s.(cache := s.cache[b := s.disk.home[b]]))
  {
    RunsSnoc(c, es, s, Load(b));
  }

  function Repeat(e: Event, n: nat): (es: seq<Event>)
    ensures |es| == n
  {
    if n == 0 then [] else Repeat(e, n - 1) + [e]
  }

  function CommitEvents(n: nat): seq<Event> {
    if n == 0 then [] else Repeat(LogBlock, n) + [LogMachine.WriteHead] + Repeat(Install, n) + [ClearHead]
  }

  function RecoverEvents(n: nat): seq<Event> {
    [LogMachine.ReadHead] + Repeat(Reinstall, n) + [RecoverClear]
  }

  lemma CommitTrace(es: seq<Event>, n: nat)
    requires n > 0
    ensures es + Repeat(LogBlock, n) + [LogMachine.WriteHead] + Repeat(Install, n) + [ClearHead] == es + CommitEvents(n)
  {
  }

  lemma RecoverTrace(es: seq<Event>, n: nat)
    ensures es + [LogMachine.ReadHead] + Repeat(Reinstall, n) + [RecoverClear] == es + RecoverEvents(n)
  {
  }

  // What a crash in the middle of the code leaves behind.

  lemma {:induction false} RunsPrefix(c: State, es: seq<Event>, s: State, k: nat) returns (s': State)
    requires Runs(c, es, s) && k <= |es|
    ensures Runs(c, es[..k], s')
    decreases |es|
  {
    if k < |es| {
      var s0 := RunsLast(c, es, s);
      s' := RunsPrefix(c, es[..|es| - 1], s0, k);
      assert es[..|es| - 1][..k] == es[..k];
    } else {
      s' := s;
      assert es[..k] == es;
    }
  }

  predicate Silent(e: Event) {
    !e.Begin? && !e.Write? && !e.End? && !e.WriteHead? && !e.Crash?
  }

  lemma {:induction false} SpecSilent(es: seq<Event>, fs: seq<Event>)
    requires forall i :: 0 <= i < |fs| ==> Silent(fs[i])
    ensures SpecAfter(es + fs) == SpecAfter(es)
  {
    if fs == [] {
      assert es + fs == es;
    } else {
      SpecSilent(es, fs[..|fs| - 1]);
      assert (es + fs)[..|es + fs| - 1] == es + fs[..|fs| - 1];
    }
  }

  lemma {:induction false} RepeatAll(e: Event, n: nat)
    ensures forall i :: 0 <= i < n ==> Repeat(e, n)[i] == e
  {
    if n > 0 { RepeatAll(e, n - 1); }
  }

  lemma SilentPrefix(es: seq<Event>, e: Event, n: nat, k: nat)
    requires Silent(e) && k <= n
    ensures SpecAfter(es + Repeat(e, n)[..k]) == SpecAfter(es)
  {
    RepeatAll(e, n);
    SpecSilent(es, Repeat(e, n)[..k]);
  }

  lemma SpecSnoc(es: seq<Event>, e: Event)
    ensures SpecAfter(es + [e]) == SpecApply(SpecAfter(es), e)
  {
    assert (es + [e])[..|es + [e]| - 1] == es;
  }

  /** The events of a commit from its header write on. */
  function InstallEvents(n: nat): seq<Event> {
    Repeat(Install, n) + [ClearHead]
  }

  lemma SpecInstall(es: seq<Event>, n: nat, j: nat)
    requires j <= n + 1
    ensures SpecAfter(es + InstallEvents(n)[..j]) == SpecAfter(es)
  {
    RepeatAll(Install, n);
    SpecSilent(es, InstallEvents(n)[..j]);
  }

  lemma CommitCut(es: seq<Event>, n: nat, k: nat)
    requires 0 < n && k <= 2 * n + 2
    ensures |CommitEvents(n)| == 2 * n + 2
    ensures k <= n ==> es + CommitEvents(n)[..k] == es + Repeat(LogBlock, n)[..k]
    ensures k > n ==> es + CommitEvents(n)[..k]
                      == (es + Repeat(LogBlock, n) + [LogMachine.WriteHead]) + InstallEvents(n)[..k - n - 1]
  {
    var all := Repeat(LogBlock, n) + [LogMachine.WriteHead] + InstallEvents(n);
    assert CommitEvents(n) == all;
    if k <= n {
      assert all[..k] == Repeat(LogBlock, n)[..k];
    } else {
      assert all[..k] == Repeat(LogBlock, n) + [LogMachine.WriteHead] + InstallEvents(n)[..k - n - 1];
    }
  }

  lemma SpecCommit(es: seq<Event>, n: nat, k: nat)
    requires 0 < n && k <= 2 * n + 2
    ensures |CommitEvents(n)| == 2 * n + 2
    ensures SpecAfter(es + CommitEvents(n)[..k])
            == if k <= n then SpecAfter(es) else SpecApply(SpecAfter(es), LogMachine.WriteHead)
  {
    if k <= n {
      CommitCut(es, n, k);
      SilentPrefix(es, LogBlock, n, k);
    } else {
      SpecCommitted(es, n, k);
    }
  }

  lemma SpecCommitted(es: seq<Event>, n: nat, k: nat)
    requires 0 < n < k <= 2 * n + 2
    ensures |CommitEvents(n)| == 2 * n + 2
    ensures SpecAfter(es + CommitEvents(n)[..k]) == SpecApply(SpecAfter(es), LogMachine.WriteHead)
  {
    CommitCut(es, n, k);
    SpecInstalling(es, n, k - n - 1);
  }

  lemma SpecInstalling(es: seq<Event>, n: nat, j: nat)
    requires j <= n + 1
    ensures SpecAfter(es + Repeat(LogBlock, n) + [LogMachine.WriteHead] + InstallEvents(n)[..j])
            == SpecApply(SpecAfter(es), LogMachine.WriteHead)
  {
    SpecHeadWritten(es, n);
    SpecInstall(es + Repeat(LogBlock, n) + [LogMachine.WriteHead], n, j);
  }

  lemma SpecHeadWritten(es: seq<Event>, n: nat)
    ensures SpecAfter(es + Repeat(LogBlock, n) + [LogMachine.WriteHead])
            == SpecApply(SpecAfter(es), LogMachine.WriteHead)
  {
    SpecSnoc(es + Repeat(LogBlock, n), LogMachine.WriteHead);
    SilentPrefix(es, LogBlock, n, n);
    assert Repeat(LogBlock, n)[..n] == Repeat(LogBlock, n);
  }

  /** What the disk recovers to after the first part of a run. */
  lemma ImageOfPrefix(c: State, es: seq<Event>, fs: seq<Event>, s: State, k: nat) returns (cut: State)
    requires Runs(c, es + fs, s) && k <= |fs|
    ensures Runs(c, es + fs[..k], cut) && GoodDisk(c.disk) && GoodDisk(cut.disk)
    ensures Recover(cut.disk) == Replay(Recover(c.disk), SpecAfter(es + fs[..k]).durable)
  {
    cut := RunsPrefix(c, es + fs, s, |es| + k);
    assert (es + fs)[..|es| + k] == es + fs[..k];
    CrashAtomicity(c, es + fs[..k], cut);
  }

  /** Cut the power after any `k` of commit's disk writes: up to and including the last log block the
      disk recovers to the contents before the transaction, from the header write on to those after it. */
  lemma CommitIsAtomic(c: State, es: seq<Event>, s: State, n: nat, k: nat) returns (cut: State)
    requires Runs(c, es + CommitEvents(n), s) && 0 < n && k <= 2 * n + 2
    ensures |CommitEvents(n)| == 2 * n + 2
    ensures Runs(c, es + CommitEvents(n)[..k], cut) && GoodDisk(c.disk) && GoodDisk(cut.disk)
    ensures var (base, a) := (Recover(c.disk), SpecAfter(es));
            Recover(cut.disk) == Replay(base, if k <= n then a.durable else a.durable + a.pending)
  {
    SpecCommit(es, n, k);
    cut := ImageOfPrefix(c, es, CommitEvents(n), s, k);
  }

  lemma SpecRecover(es: seq<Event>, n: nat, k: nat)
    requires k <= |RecoverEvents(n)|
    ensures SpecAfter(es + RecoverEvents(n)[..k]) == SpecAfter(es)
  {
    RepeatAll(Reinstall, n);
    SpecSilent(es, RecoverEvents(n)[..k]);
  }

  /** Cut the power anywhere inside recovery: the disk still recovers to the same contents. */
  lemma RecoveryIsIdempotent(c: State, es: seq<Event>, s: State, n: nat, k: nat) returns (cut: State)
    requires Runs(c, es + RecoverEvents(n), s) && k <= |RecoverEvents(n)|
    ensures Runs(c, es + RecoverEvents(n)[..k], cut) && GoodDisk(c.disk) && GoodDisk(cut.disk)
    ensures Recover(cut.disk) == Replay(Recover(c.disk), SpecAfter(es).durable)
  {
    SpecRecover(es, n, k);
    cut := ImageOfPrefix(c, es, RecoverEvents(n), s, k);
  }

  /** The events of the end_op that commits. */
  function LastEndEvents(op: nat, n: nat): seq<Event> {
    [End(op)] + CommitEvents(n) + [Finish]
  }

  lemma LastEndTrace(es: seq<Event>, op: nat, n: nat)
    ensures es + [End(op)] + CommitEvents(n) + [Finish] == es + LastEndEvents(op, n)
  {
  }

  lemma SpecLastEnd(es: seq<Event>, op: nat, n: nat)
    ensures var (a, a') := (SpecAfter(es), SpecAfter(es + [End(op)] + CommitEvents(n) + [Finish]));
            a'.durable == if n == 0 then a.durable else a.durable + a.pending
  {
    var es1 := es + [End(op)];
    SpecSnoc(es, End(op));
    SpecSnoc(es1 + CommitEvents(n), Finish);
    if n == 0 {
      assert es1 + CommitEvents(n) == es1;
    } else {
      SpecCommit(es1, n, 2 * n + 2);
      assert CommitEvents(n)[..2 * n + 2] == CommitEvents(n);
    }
  }

  /** After the last end_op everything that was logged is on the home blocks. */
  lemma LastEndInstalls(c: State, es: seq<Event>, s: State, op: nat, s': State)
    requires Runs(c, es, s) && s.pc.Ready? && s'.pc.Ready? && s'.active == {}
    requires Runs(c, es + [End(op)] + CommitEvents(|s.lh|) + [Finish], s')
    ensures GoodDisk(c.disk)
    ensures s'.disk.home == Replay(Recover(c.disk), SpecAfter(es).durable + SpecAfter(es).pending)
  {
    SpecLastEnd(es, op, |s.lh|);
    QuiescentIsDurable(c, es + [End(op)] + CommitEvents(|s.lh|) + [Finish], s');
    RunRefines(c, es, s);
    assert SpecAfter(es).durable + [] == SpecAfter(es).durable;
  }

  lemma LastMember(s: set<nat>, x: nat)
    requires x in s
    ensures |s - {x}| == |s| - 1 && (|s| == 1 <==> s == {x})
  {
    if |s| == 1 {
      assert |s - {x}| == 0;
      assert s == s - {x} + {x};
    }
  }

  class Log {
    // on disk
    var head: Header
    var slot: seq<Block>
    var home: map<nat, Block>
    // struct log
    var n: nat
    var block: array<nat>
    var outstanding: nat
    var committing: bool
    // buffer cache
    var cache: map<nat, Block>
    var pins: multiset<nat>
    // history
    ghost var pc: Pc
    ghost var active: set<nat>
    ghost var next: nat
    ghost var boot: State
    ghost var trace: seq<Event>

    ghost function View(): State
      reads this, block
    {
      State(Disk(head, slot, home), pc, if n <= block.Length then block[..n] else [], active, cache, pins, next)
    }

    ghost predicate Valid()
      reads this, block
    {
      true == (
        && n <= block.Length == LOGSIZE
        && Runs(boot, trace, View())
        && outstanding == |active|
        && committing == (pc.WritingLog? || pc.Installing? || pc.Finishing?))
    }

    /** Power on with the given disk contents. */
    constructor (head: Header, slot: seq<Block>, home: map<nat, Block>)
      requires GoodDisk(Disk(head, slot, home))
      ensures Valid() && fresh(block) && trace == [] && pc == Boot
      ensures this.head == head && this.slot == slot && this.home == home
    {
      this.head, this.slot, this.home := head, slot, home;
      n, outstanding, committing := 0, 0, false;
      cache, pins := map[], multiset{};
      pc, active, next, trace := Boot, {}, 0, [];
      boot := State(Disk(head, slot, home), Boot, [], {}, map[], multiset{}, 0);
      block := new nat[LOGSIZE];
    }

    method ReadHead()
      requires Valid() && pc.Boot?
      modifies this`n, this`pc, this`trace, block
      ensures Valid() && pc == Recovering(0) && trace == old(trace) + [LogMachine.ReadHead]
      ensures n == head.n
    {
      TraceReadHead(boot, trace, View());
      var i := 0;
      n := 0;
      while i < head.n
        invariant 0 <= i <= head.n <= LOGSIZE == block.Length && n == 0
        invariant block[..i] == head.block[..i]
        modifies block
      {
        block[i] := head.block[i];
        i := i + 1;
      }
      n := head.n;
      pc, trace := Recovering(0), trace + [LogMachine.ReadHead];
    }

    /** Builds the header in its buffer and writes it with a single bwrite. */
    method WriteHead()
      requires n <= block.Length == LOGSIZE == |head.block|
      modifies this`head
      ensures head == SetHead(old(head), block[..n])
    {
      var hb := head.block;
      var i := 0;
      while i < n
        invariant 0 <= i <= n && |hb| == LOGSIZE
        invariant hb == block[..i] + old(head.block)[i..]
      {
        hb := hb[i := block[i]];
        i := i + 1;
      }
      head := Header(n, hb);
    }

    /** Copies one logged block home. */
    method InstallBlock(tail: nat)
      requires Valid() && pc == Installing(tail) && tail < n
      modifies this`home, this`cache, this`pins, this`pc, this`trace
      ensures Valid() && pc == Installing(tail + 1) && trace == old(trace) + [Install]
    {
      ghost var s := View();
      TraceInstall(boot, trace, s, tail);
      var (b, data) := (block[tail], slot[tail]);
      cache := cache[b := data];
      home := home[b := data];
      pins := Unpin(pins, b);
      pc, trace := Installing(tail + 1), trace + [Install];
    }

    /** The same during recovery, when nothing is pinned. */
    method ReinstallBlock(tail: nat)
      requires Valid() && pc == Recovering(tail) && tail < n
      modifies this`home, this`cache, this`pc, this`trace
      ensures Valid() && pc == Recovering(tail + 1) && trace == old(trace) + [Reinstall]
    {
      TraceReinstall(boot, trace, View(), tail);
      var (b, data) := (block[tail], slot[tail]);
      cache := cache[b := data];
      home := home[b := data];
      pc, trace := Recovering(tail + 1), trace + [Reinstall];
    }

    /** Copies the logged blocks home, one bwrite per block. */
    method InstallTrans(recovering: bool)
      requires Valid() && pc == if recovering then Recovering(0) else Installing(0)
      modifies this`home, this`cache, this`pins, this`pc, this`trace
      ensures Valid() && pc == if recovering then Recovering(n) else Installing(n)
      ensures trace == old(trace) + Repeat(if recovering then Reinstall else Install, n)
    {
      var tail := 0;
      ghost var e := if recovering then Reinstall else Install;
      assert trace == old(trace) + Repeat(e, 0);
      while tail < n
        invariant 0 <= tail <= n && Valid()
        invariant pc == if recovering then Recovering(tail) else Installing(tail)
        invariant trace == old(trace) + Repeat(e, tail)
      {
        if recovering {
          ReinstallBlock(tail);
        } else {
          InstallBlock(tail);
        }
        tail := tail + 1;
        assert old(trace) + Repeat(e, tail - 1) + [e] == old(trace) + Repeat(e, tail);
      }
    }

    method LogOneBlock(tail: nat)
      requires Valid() && pc == WritingLog(tail) && tail < n
      modifies this`slot, this`pc, this`trace
      ensures Valid() && pc == WritingLog(tail + 1) && trace == old(trace) + [LogBlock]
    {
      TraceLogBlock(boot, trace, View(), tail);
      var b := block[tail];
      slot := slot[tail := if b in cache then cache[b] else home[b]];
      pc, trace := WritingLog(tail + 1), trace + [LogBlock];
    }

    /** Copies the logged blocks from the cache into the log, one bwrite per block. */
    method WriteLog()
      requires Valid() && pc == WritingLog(0)
      modifies this`slot, this`pc, this`trace
      ensures Valid() && pc == WritingLog(n) && trace == old(trace) + Repeat(LogBlock, n)
    {
      var tail := 0;
      assert trace == old(trace) + Repeat(LogBlock, 0);
      while tail < n
        invariant 0 <= tail <= n && Valid() && pc == WritingLog(tail)
        invariant trace == old(trace) + Repeat(LogBlock, tail)
      {
        LogOneBlock(tail);
        tail := tail + 1;
        assert old(trace) + Repeat(LogBlock, tail - 1) + [LogBlock] == old(trace) + Repeat(LogBlock, tail);
      }
    }

    /** The header write that commits. */
    method CommitHead()
      requires Valid() && pc == WritingLog(n)
      modifies this`head, this`pc, this`trace
      ensures Valid() && pc == Installing(0) && trace == old(trace) + [LogMachine.WriteHead]
    {
      TraceHead(boot, trace, View());
      WriteHead();
      pc, trace := Installing(0), trace + [LogMachine.WriteHead];
    }

    /** Erases the transaction from the log. */
    method ClearLog(ghost e: Event)
      requires Valid() && ((e == ClearHead && pc == Installing(n)) || (e == RecoverClear && pc == Recovering(n)))
      modifies this`head, this`n, this`pc, this`trace
      ensures Valid() && n == 0 && pc == (if e == ClearHead then Finishing else Ready) && trace == old(trace) + [e]
    {
      TraceClear(boot, trace, View(), e);
      n := 0;
      WriteHead();
      assert block[..n] == [];
      pc, trace := if e == ClearHead then Finishing else Ready, trace + [e];
    }

    /** Runs when no operation is active.  Afterwards the log is empty again. */
    method Commit()
      requires Valid() && pc == if n > 0 then WritingLog(0) else Finishing
      modifies this`head, this`slot, this`home, this`cache, this`pins, this`n, this`pc, this`trace
      ensures Valid() && pc == Finishing && n == 0
      ensures trace == old(trace) + CommitEvents(old(n))
    {
      if n > 0 {
        CommitTrace(trace, n);
        WriteLog();
        CommitHead();
        InstallTrans(false);
        ClearLog(ClearHead);
      }
    }

    /** Called once after power-on. */
    method RecoverFromLog()
      requires Valid() && pc == Boot
      modifies this`head, this`home, this`cache, this`pins, this`n, this`pc, this`trace, block
      ensures Valid() && pc == Ready && n == 0 && trace == old(trace) + RecoverEvents(old(head.n))
    {
      RecoverTrace(trace, head.n);
      ReadHead();
      InstallTrans(true);
      ClearLog(RecoverClear);
    }

    /** What every home block was last set to, committed or not. */
    ghost function Latest(): map<nat, Block>
      reads this
      requires GoodDisk(boot.disk)
    {
      LogMachine.Replay(Recover(boot.disk), SpecAfter(trace).durable + SpecAfter(trace).pending)
    }

    /** bread: from the cache, or from disk into the cache.  Either way the last logged contents. */
    method Bread(b: nat) returns (data: Block)
      requires Valid() && (committing || pc.Ready?) && b in home
      modifies this`cache, this`trace
      ensures Valid() && b in cache && cache[b] == data
      ensures GoodDisk(boot.disk) ==> b in Latest() && data == Latest()[b]
    {
      if b !in cache {
        TraceLoad(boot, trace, View(), b);
        cache, trace := cache[b := home[b]], trace + [Load(b)];
      }
      data := cache[b];
      ReadsLatest(boot, trace, View(), b);
    }

    /** One round of the loop in begin_op: `ok` is false where the caller goes to sleep. */
    method BeginOp() returns (ok: bool, ghost op: nat)
      requires Valid() && (committing || pc.Ready?)
      modifies this`outstanding, this`active, this`next, this`trace
      ensures Valid() && pc == old(pc)
      ensures ok == (!committing && n + (old(outstanding) + 1) * MAXOPBLOCKS <= LOGSIZE)
      ensures ok ==> op !in old(active) && active == old(active) + {op} && trace == old(trace) + [Begin(op)]
      ensures !ok ==> active == old(active) && trace == old(trace)
    {
      ok, op := false, next;
      if committing {
      } else if n + (outstanding + 1) * MAXOPBLOCKS > LOGSIZE {
      } else {
        TraceBegin(boot, trace, View());
        outstanding := outstanding + 1;
        active, next, trace := active + {op}, next + 1, trace + [Begin(op)];
        ok := true;
      }
    }

    /** The absorption loop of log_write. */
    method FindBlock(b: nat) returns (i: nat)
      requires n <= block.Length
      ensures i <= n && (i < n ==> block[i] == b) && (i == n <==> b !in block[..n])
    {
      i := 0;
      while i < n && block[i] != b
        invariant i <= n && b !in block[..i]
      {
        i := i + 1;
      }
    }

    /** Adds block b to the header unless it is there already, pinning it when it is new. */
    method RecordBlock(b: nat)
      requires n < block.Length
      modifies this`pins, this`n, block
      ensures n <= block.Length
      ensures if b in old(block[..n]) then block[..n] == old(block[..n]) && pins == old(pins)
              else block[..n] == old(block[..n]) + [b] && pins == Pin(old(pins), b)
    {
      var i := FindBlock(b);
      ghost var lh := block[..n];
      assert i < n ==> lh[i] == b;
      block[i] := b;
      if i == n {
        pins := Pin(pins, b);
        n := n + 1;
        assert block[..n] == lh + [b];
      } else {
        assert block[..n] == lh;
      }
    }

    /** The caller holds the buffer of block `b` with new contents `data`. */
    method LogWrite(b: nat, data: Block, ghost op: nat)
      requires Valid() && op in active && b in home && !LogFull(View())
      modifies this`cache, this`pins, this`n, this`trace, block
      ensures Valid() && pc == old(pc) && trace == old(trace) + [Write(op, b, data)]
      ensures b in block[..n] && block[..n] == if b in old(block[..n]) then old(block[..n]) else old(block[..n]) + [b]
    {
      TraceWrite(boot, trace, View(), op, b, data);
      cache := cache[b := data];
      RecordBlock(b);
      trace := trace + [Write(op, b, data)];
    }

    /** The first critical section of end_op. */
    method LeaveOp(ghost op: nat) returns (doCommit: bool)
      requires Valid() && pc.Ready? && op in active
      modifies this`outstanding, this`committing, this`pc, this`active, this`trace
      ensures Valid() && active == old(active) - {op} && doCommit == (old(active) == {op})
      ensures pc == if !doCommit then Ready else if n > 0 then WritingLog(0) else Finishing
      ensures trace == old(trace) + [End(op)]
    {
      TraceEnd(boot, trace, View(), op);
      LastMember(active, op);
      outstanding := outstanding - 1;
      doCommit := outstanding == 0;
      if doCommit {
        committing := true;
      }
      active, trace := active - {op}, trace + [End(op)];
      pc := if !doCommit then Ready else if n > 0 then WritingLog(0) else Finishing;
      assert n > 0 <==> block[..n] != [];
    }

    /** The last critical section of end_op. */
    method FinishCommit()
      requires Valid() && pc.Finishing?
      modifies this`committing, this`pc, this`trace
      ensures Valid() && pc == Ready && trace == old(trace) + [Finish]
    {
      TraceFinish(boot, trace, View());
      committing := false;
      pc, trace := Ready, trace + [Finish];
    }

    /** Ends one operation; the last one to end commits the whole group and leaves every block
        the group logged on its home location. */
    method EndOp(ghost op: nat)
      requires Valid() && pc.Ready? && op in active
      modifies this`head, this`slot, this`home, this`cache, this`pins, this`n,
               this`outstanding, this`committing, this`pc, this`active, this`trace
      ensures Valid() && pc == Ready && active == old(active) - {op}
      ensures trace == old(trace) + if old(active) == {op} then LastEndEvents(op, old(n)) else [End(op)]
      ensures old(active) != {op} ==> home == old(home) && n == old(n)
      ensures old(active) == {op} && GoodDisk(boot.disk) ==> n == 0 && home == old(Latest())
    {
      ghost var s := View();
      LastEndTrace(trace, op, n);
      var doCommit := LeaveOp(op);
      if doCommit {
        Commit();
        FinishCommit();
        LastEndInstalls(boot, old(trace), s, op, View());
      }
    }
  }
}
