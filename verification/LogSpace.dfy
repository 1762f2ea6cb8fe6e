/**
 Log space: what begin_op reserves, what log_write spends, and exactly when the
 "too big a transaction" panic of log_write cannot be reached.
 */
module LogSpace {
  import opened Blocks
  import opened LogMachine

  ghost function Sum(s: set<nat>, f: nat -> int): int {
    if s == {} then 0 else var x :| x in s; f(x) + Sum(s - {x}, f)
  }

  lemma {:induction false} SumRemove(s: set<nat>, f: nat -> int, x: nat)
    requires x in s
    ensures Sum(s, f) == f(x) + Sum(s - {x}, f)
  {
    var y :| y in s && Sum(s, f) == f(y) + Sum(s - {y}, f);
    if y != x {
      SumRemove(s - {y}, f, x);
      SumRemove(s - {x}, f, y);
      assert s - {y} - {x} == s - {x} - {y};
    }
  }

  lemma {:induction false} SumSame(s: set<nat>, f: nat -> int, g: nat -> int)
    requires forall x :: x in s ==> f(x) == g(x)
    ensures Sum(s, f) == Sum(s, g)
  {
    if s != {} {
      var x :| x in s;
      SumRemove(s, f, x);
      SumRemove(s, g, x);
      SumSame(s - {x}, f, g);
    }
  }

  lemma MulStep(n: nat, k: nat)
    ensures (n + 1) * k == n * k + k
  {
  }

  lemma {:induction false} SumAtMost(s: set<nat>, f: nat -> int, k: nat)
    requires forall x :: x in s ==> 0 <= f(x) <= k
    ensures 0 <= Sum(s, f) <= |s| * k
  {
    if s != {} {
      var x :| x in s;
      SumRemove(s, f, x);
      SumAtMost(s - {x}, f, k);
      MulStep(|s - {x}|, k);
    }
  }

  /** The distinct blocks operation `op` has logged, but for shared ones. */
  function Touched(es: seq<Event>, op: nat, shared: set<nat>): set<nat> {
    set r | r in OpWrites(es, op) && r.b !in shared :: r.b
  }

  /** No operation logs more than `k` distinct blocks that are not in `shared`. */
  ghost predicate Budgeted(es: seq<Event>, k: nat, shared: set<nat>) {
    forall op :: |Touched(es, op, shared)| <= k
  }

  ghost function Unspent(es: seq<Event>, k: nat, shared: set<nat>): nat -> int {
    (op: nat) => k - |Touched(es, op, shared)|
  }

  /** Log entries in use plus what the active operations may still add, both but for shared blocks. */
  ghost function Reserved(c: State, es: seq<Event>, k: nat, shared: set<nat>): int {
    |Entries(c, shared)| + Sum(c.active, Unspent(es, k, shared))
  }

  lemma TouchedStep(es: seq<Event>, op: nat, shared: set<nat>)
    requires es != []
    ensures var e := es[|es| - 1];
            Touched(es, op, shared)
            == Touched(es[..|es| - 1], op, shared) + if e.Write? && e.op == op && e.b !in shared then {e.b} else {}
  {
    var e := es[|es| - 1];
    var (ws, w) := (OpWrites(es[..|es| - 1], op), if e.Write? && e.op == op then [Rec(op, e.b, e.v)] else []);
    assert OpWrites(es, op) == ws + w;
    assert forall r :: r in ws + w <==> r in ws || r in w;
    if e.Write? && e.op == op {
      assert Rec(op, e.b, e.v) in w;
    }
  }

  lemma BudgetedPrefix(es: seq<Event>, k: nat, shared: set<nat>)
    requires Budgeted(es, k, shared) && es != []
    ensures Budgeted(es[..|es| - 1], k, shared)
  {
    var es' := es[..|es| - 1];
    forall op
      ensures |Touched(es', op, shared)| <= k
    {
      TouchedStep(es, op, shared);
      SubsetSize(Touched(es', op, shared), Touched(es, op, shared));
    }
  }

  /** The logged blocks, but for shared ones. */
  function Entries(c: State, shared: set<nat>): set<nat> {
    set b | b in c.lh && b !in shared
  }

  /** Two reservations at most share the log with a partly filled one, which leaves
      2 * (MAXOPBLOCKS - k) entries spare when every operation stays below `k`. */
  ghost predicate SpaceInv(c: State, es: seq<Event>, k: nat, shared: set<nat>) {
    c.pc.Ready? ==> Reserved(c, es, k, shared) <= LOGSIZE - 2 * (MAXOPBLOCKS - k)
  }

  /** Events other than log_write leave the unspent budgets alone. */
  lemma UnspentFrame(es: seq<Event>, k: nat, shared: set<nat>, s: set<nat>)
    requires es != [] && !es[|es| - 1].Write?
    ensures Sum(s, Unspent(es, k, shared)) == Sum(s, Unspent(es[..|es| - 1], k, shared))
  {
    forall op | op in s ensures Touched(es, op, shared) == Touched(es[..|es| - 1], op, shared) {
      TouchedStep(es, op, shared);
    }
    SumSame(s, Unspent(es, k, shared), Unspent(es[..|es| - 1], k, shared));
  }

  lemma BeginFits(used: nat, n: nat, m: nat, sum: int, k: nat)
    requires used + (n + 1) * MAXOPBLOCKS <= LOGSIZE && (n == 0 ==> used == 0)
    requires m <= n + 1 && sum <= m * k && k <= MAXOPBLOCKS
    ensures used + sum <= LOGSIZE - 2 * (MAXOPBLOCKS - k)
  {
    assert n <= 2;
    if m == 0 {} else if m == 1 {} else if m == 2 {} else {}
  }

  lemma SpaceBegin(c: State, es: seq<Event>, k: nat, shared: set<nat>)
    requires es != [] && es[|es| - 1] == Begin(c.next) && k <= MAXOPBLOCKS && Budgeted(es, k, shared)
    requires (c.active == {} ==> c.lh == []) && Enabled(c, Begin(c.next))
    ensures SpaceInv(Apply(c, Begin(c.next)), es, k, shared)
  {
    var (active', f) := (c.active + {c.next}, Unspent(es, k, shared));
    forall op | op in active' ensures 0 <= f(op) <= k {
      assert |Touched(es, op, shared)| <= k;
    }
    SumAtMost(active', f, k);
    MembersSize(c.lh);
    SubsetSize(Entries(c, shared), Members(c.lh));
    BeginFits(|c.lh|, |c.active|, |active'|, Sum(active', f), k);
  }

  /** A new entry is charged to the operation that makes it, unless it is shared. */
  lemma WriteCharged(c: State, es: seq<Event>, shared: set<nat>)
    requires es != [] && es[|es| - 1].Write? && Enabled(c, es[|es| - 1])
    requires Touched(es[..|es| - 1], es[|es| - 1].op, shared) <= Entries(c, shared)
    ensures var (es', e) := (es[..|es| - 1], es[|es| - 1]);
            |Entries(Apply(c, e), shared)| - |Entries(c, shared)|
            <= |Touched(es, e.op, shared)| - |Touched(es', e.op, shared)|
  {
    var (es', e) := (es[..|es| - 1], es[|es| - 1]);
    TouchedStep(es, e.op, shared);
    EntriesStep(c, e, shared);
    if e.b in c.lh || e.b in shared {
      SubsetSize(Touched(es', e.op, shared), Touched(es, e.op, shared));
    }
  }

  lemma EntriesStep(c: State, e: Event, shared: set<nat>)
    requires e.Write? && Enabled(c, e)
    ensures Entries(Apply(c, e), shared) == Entries(c, shared) + if e.b in c.lh || e.b in shared then {} else {e.b}
  {
  }

  lemma SpaceWrite(c: State, es: seq<Event>, k: nat, shared: set<nat>)
    requires es != [] && es[|es| - 1].Write? && Enabled(c, es[|es| - 1])
    requires Touched(es[..|es| - 1], es[|es| - 1].op, shared) <= Entries(c, shared)
    requires SpaceInv(c, es[..|es| - 1], k, shared)
    ensures SpaceInv(Apply(c, es[|es| - 1]), es, k, shared)
  {
    UnspentWrite(es, k, shared, c.active);
    WriteCharged(c, es, shared);
  }

  lemma UnspentWrite(es: seq<Event>, k: nat, shared: set<nat>, s: set<nat>)
    requires es != [] && es[|es| - 1].Write? && es[|es| - 1].op in s
    ensures var (es', op) := (es[..|es| - 1], es[|es| - 1].op);
            Sum(s, Unspent(es, k, shared))
            == Sum(s, Unspent(es', k, shared)) + |Touched(es', op, shared)| - |Touched(es, op, shared)|
  {
    var (es', op) := (es[..|es| - 1], es[|es| - 1].op);
    var (f, g) := (Unspent(es', k, shared), Unspent(es, k, shared));
    SumRemove(s, f, op);
    SumRemove(s, g, op);
    forall x | x in s - {op} ensures f(x) == g(x) {
      TouchedStep(es, x, shared);
    }
    SumSame(s - {op}, f, g);
  }

  lemma SpaceEnd(c: State, es: seq<Event>, k: nat, shared: set<nat>)
    requires es != [] && es[|es| - 1].End? && Enabled(c, es[|es| - 1])
    requires SpaceInv(c, es[..|es| - 1], k, shared) && Budgeted(es, k, shared)
    ensures SpaceInv(Apply(c, es[|es| - 1]), es, k, shared)
  {
    var op := es[|es| - 1].op;
    UnspentFrame(es, k, shared, c.active);
    SumRemove(c.active, Unspent(es, k, shared), op);
    assert |Touched(es, op, shared)| <= k;
  }

  lemma SpaceOther(c: State, es: seq<Event>, k: nat, shared: set<nat>)
    requires es != [] && Enabled(c, es[|es| - 1]) && Shape(c) && k <= MAXOPBLOCKS
    requires !es[|es| - 1].Begin? && !es[|es| - 1].Write? && !es[|es| - 1].End?
    requires SpaceInv(c, es[..|es| - 1], k, shared)
    ensures SpaceInv(Apply(c, es[|es| - 1]), es, k, shared)
  {
    UnspentFrame(es, k, shared, c.active);
  }

  /** While an operation stays active, log entries are only added. */
  lemma EntriesGrow(c: State, e: Event, op: nat, shared: set<nat>)
    requires Shape(c) && Enabled(c, e) && op in Apply(c, e).active
    ensures Entries(c, shared) + (if e.Write? && e.b !in shared then {e.b} else {}) <= Entries(Apply(c, e), shared)
    ensures op in c.active || (e == Begin(op) && op == c.next)
  {
    if e.Write? && e.b !in c.lh {
      assert (c.lh + [e.b])[|c.lh|] == e.b;
      assert forall b :: b in c.lh ==> b in c.lh + [e.b];
    }
  }

  lemma {:induction false} TouchedIsLogged(c: State, es: seq<Event>, s: State, op: nat, shared: set<nat>)
    requires Runs(c, es, s) && op in s.active
    ensures Touched(es, op, shared) <= Entries(s, shared)
    decreases |es|
  {
    if es == [] {
      RunsStart(c, s);
    } else {
      var (es', e) := (es[..|es| - 1], es[|es| - 1]);
      var s0 := RunsLast(c, es, s);
      TouchedStep(es, op, shared);
      RunShape(c, es', s0);
      EntriesGrow(s0, e, op, shared);
      if op in s0.active {
        TouchedIsLogged(c, es', s0, op, shared);
      } else {
        RunIsSpecRun(c, es', s0);
        OpAccounts(es', op);
        assert OpWrites(es', op) == [];
      }
    }
  }

  lemma RunShape(c: State, es: seq<Event>, s: State)
    requires Runs(c, es, s)
    ensures Shape(s) && s.next == SpecAfter(es).next && s.active == SpecAfter(es).active
  {
    RunRefines(c, es, s);
    var a := SpecAfter(es);
    InvShape(s, Replay(Recover(c.disk), a.durable), Replay(Recover(c.disk), a.durable + a.pending));
  }

  /** In every run in which no operation logs more than `k` distinct blocks besides shared ones, the
      entries in use and the unspent budgets together, but for shared blocks, never exceed the bound. */
  lemma {:induction false} SpaceBound(c: State, es: seq<Event>, s: State, k: nat, shared: set<nat>)
    requires Runs(c, es, s) && Budgeted(es, k, shared) && k <= MAXOPBLOCKS
    ensures SpaceInv(s, es, k, shared)
    decreases |es|
  {
    if es == [] {
      RunsStart(c, s);
    } else {
      var (es', e) := (es[..|es| - 1], es[|es| - 1]);
      var s0 := RunsLast(c, es, s);
      BudgetedPrefix(es, k, shared);
      SpaceBound(c, es', s0, k, shared);
      RunShape(c, es', s0);
      match e
      case Begin(_) => SpaceBegin(s0, es, k, shared);
      case Write(op, _, _) => TouchedIsLogged(c, es', s0, op, shared); SpaceWrite(s0, es, k, shared);
      case End(_) => SpaceEnd(s0, es, k, shared);
      case _ => SpaceOther(s0, es, k, shared);
    }
  }

  lemma ApplySlots(c: State, e: Event)
    requires Enabled(c, e)
    ensures |Apply(c, e).disk.slot| == |c.disk.slot|
  {
  }

  lemma {:induction false} SlotsFixed(c: State, es: seq<Event>, s: State)
    requires Runs(c, es, s)
    ensures |s.disk.slot| == |c.disk.slot|
    decreases |es|
  {
    if es == [] {
      RunsStart(c, s);
    } else {
      var s0 := RunsLast(c, es, s);
      SlotsFixed(c, es[..|es| - 1], s0);
      ApplySlots(s0, es[|es| - 1]);
    }
  }

  /** On a disk laid out by mkfs (nlog == LOGSIZE), log_write never panics for lack of space
      if every operation logs at most `k` distinct blocks. */
  ghost predicate NeverFull(k: nat) {
    forall c: State, es: seq<Event>, s: State ::
      Runs(c, es, s) && |c.disk.slot| == LOGSIZE - 1 && Budgeted(es, k, {}) && s.active != {} ==> !LogFull(s)
  }

  lemma RunDistinct(c: State, es: seq<Event>, s: State)
    requires Runs(c, es, s) && s.active != {}
    ensures Distinct(s.lh)
  {
    RunRefines(c, es, s);
  }

  /** While an operation is active, the entries but for shared ones stay within the bound. */
  lemma EntriesBound(c: State, es: seq<Event>, s: State, k: nat, shared: set<nat>)
    requires Runs(c, es, s) && Budgeted(es, k, shared) && k <= MAXOPBLOCKS && s.active != {}
    ensures |Entries(s, shared)| <= LOGSIZE - 2 * (MAXOPBLOCKS - k)
    ensures Distinct(s.lh) && |s.disk.slot| == |c.disk.slot|
  {
    SpaceBound(c, es, s, k, shared);
    RunShape(c, es, s);
    SlotsFixed(c, es, s);
    var f := Unspent(es, k, shared);
    forall op | op in s.active ensures 0 <= f(op) <= k {
      assert |Touched(es, op, shared)| <= k;
    }
    SumAtMost(s.active, f, k);
    RunDistinct(c, es, s);
  }

  lemma SmallBudgetNeverFull(k: nat)
    requires k < MAXOPBLOCKS
    ensures NeverFull(k)
  {
    forall c: State, es: seq<Event>, s: State |
      Runs(c, es, s) && |c.disk.slot| == LOGSIZE - 1 && Budgeted(es, k, {}) && s.active != {}
      ensures !LogFull(s)
    {
      EntriesBound(c, es, s, k, {});
      MembersSize(s.lh);
      assert Entries(s, {}) == Members(s.lh);
    }
  }

  // The witness for a budget of MAXOPBLOCKS: three operations fill the log.

  function Writes(op: nat, lo: nat, n: nat): seq<Event> {
    if n == 0 then [] else Writes(op, lo, n - 1) + [Write(op, lo + n - 1, [])]
  }

  function Range(lo: nat, n: nat): (r: seq<nat>)
    ensures |r| == n && forall x :: x in r <==> lo <= x < lo + n
  {
    if n == 0 then [] else Range(lo, n - 1) + [lo + n - 1]
  }

  lemma Snoc(c: State, es: seq<Event>, s: State, e: Event) returns (s': State)
    requires Runs(c, es, s) && Enabled(s, e)
    ensures s' == Apply(s, e) && Runs(c, es + [e], s')
  {
    s' := Apply(s, e);
    RunsSnoc(c, es, s, e);
  }

  /** `s'` is `s` with `blocks` logged on top, whatever the cache holds. */
  predicate Logs(s: State, s': State, blocks: seq<nat>) {
    true == (s' == s.(lh := s.lh + blocks, cache := s'.cache, pins := s'.pins))
  }

  lemma LogsOne(s: State, s1: State, op: nat, lo: nat, n: nat)
    requires Logs(s, s1, Range(lo, n)) && op in s.active && lo + n in s.disk.home && lo + n !in s.lh
    requires |s.lh| + n < |s.disk.slot| && |s.lh| + n < LOGSIZE
    ensures Enabled(s1, Write(op, lo + n, [])) && Logs(s, Apply(s1, Write(op, lo + n, [])), Range(lo, n + 1))
  {
    assert s.lh + Range(lo, n + 1) == s.lh + Range(lo, n) + [lo + n];
    assert lo + n !in s1.lh;
  }

  predicate CanLog(s: State, op: nat, lo: nat, n: nat) {
    && op in s.active && |s.lh| + n <= |s.disk.slot| && |s.lh| + n <= LOGSIZE
    && forall i :: lo <= i < lo + n ==> i in s.disk.home && i !in s.lh
  }

  lemma {:induction false} RunWrites(c: State, es: seq<Event>, s: State, op: nat, lo: nat, n: nat) returns (s': State)
    requires Runs(c, es, s) && CanLog(s, op, lo, n)
    ensures Runs(c, es + Writes(op, lo, n), s') && Logs(s, s', Range(lo, n))
  {
    if n == 0 {
      s' := s;
      assert es + Writes(op, lo, n) == es;
      assert s.lh + Range(lo, n) == s.lh;
    } else {
      var s1 := RunWrites(c, es, s, op, lo, n - 1);
      s' := RunOneMore(c, es, s, s1, op, lo, n - 1);
    }
  }

  lemma RunOneMore(c: State, es: seq<Event>, s: State, s1: State, op: nat, lo: nat, n: nat) returns (s': State)
    requires Runs(c, es + Writes(op, lo, n), s1) && Logs(s, s1, Range(lo, n)) && CanLog(s, op, lo, n + 1)
    ensures Runs(c, es + Writes(op, lo, n + 1), s') && Logs(s, s', Range(lo, n + 1))
  {
    LogsOne(s, s1, op, lo, n);
    s' := Snoc(c, es + Writes(op, lo, n), s1, Write(op, lo + n, []));
    assert es + Writes(op, lo, n) + [Write(op, lo + n, [])] == es + Writes(op, lo, n + 1);
  }

  lemma {:induction false} RangeConcat(lo: nat, m: nat, n: nat)
    ensures Range(lo, m) + Range(lo + m, n) == Range(lo, m + n)
  {
    if n == 0 {
      assert Range(lo, m) + [] == Range(lo, m);
    } else {
      RangeConcat(lo, m, n - 1);
    }
  }

  /** Operation op logs the next n blocks. */
  lemma LogNext(c: State, es: seq<Event>, s: State, op: nat, m: nat, n: nat) returns (s': State)
    requires Runs(c, es, s) && op in s.active && s.lh == Range(0, m) && m + n <= LOGSIZE - 1 == |s.disk.slot|
    requires forall i :: 0 <= i < m + n ==> i in s.disk.home
    ensures Runs(c, es + Writes(op, m, n), s') && s'.active == s.active && s'.next == s.next && s'.pc == s.pc
    ensures s'.disk == s.disk && s'.lh == Range(0, m + n)
  {
    s' := RunWrites(c, es, s, op, m, n);
    RangeConcat(0, m, n);
  }

  lemma {:induction false} OpWritesConcat(es: seq<Event>, fs: seq<Event>, op: nat)
    ensures OpWrites(es + fs, op) == OpWrites(es, op) + OpWrites(fs, op)
  {
    if fs == [] {
      assert es + fs == es;
    } else {
      OpWritesConcat(es, fs[..|fs| - 1], op);
      assert (es + fs)[..|es + fs| - 1] == es + fs[..|fs| - 1];
    }
  }

  lemma {:induction false} WritesCount(op: nat, lo: nat, n: nat, op': nat)
    ensures |OpWrites(Writes(op, lo, n), op')| == if op == op' then n else 0
  {
    if n > 0 {
      WritesCount(op, lo, n - 1, op');
      var es := Writes(op, lo, n);
      assert es[..|es| - 1] == Writes(op, lo, n - 1);
    }
  }

  lemma {:induction false} TouchedAtMost(rs: seq<Rec>)
    ensures |set r | r in rs :: r.b| <= |rs|
  {
    if rs != [] {
      var rs' := rs[..|rs| - 1];
      TouchedAtMost(rs');
      assert (set r | r in rs :: r.b) == (set r | r in rs' :: r.b) + {rs[|rs| - 1].b};
    }
  }

  lemma TouchedFew(es: seq<Event>, op: nat)
    ensures |Touched(es, op, {})| <= |OpWrites(es, op)|
  {
    TouchedAtMost(OpWrites(es, op));
    assert Touched(es, op, {}) == set r | r in OpWrites(es, op) :: r.b;
  }

  lemma {:induction false} NoWrites(es: seq<Event>, op: nat)
    requires forall i :: 0 <= i < |es| ==> !es[i].Write?
    ensures OpWrites(es, op) == []
  {
    if es != [] { NoWrites(es[..|es| - 1], op); }
  }

  /** An empty mkfs log with at least 3n home blocks. */
  predicate FreshDisk(d: Disk, n: nat) {
    true == (GoodDisk(d) && d.head.n == 0 && |d.slot| == LOGSIZE - 1 && forall i :: 0 <= i < 3 * n ==> i in d.home)
  }

  function BootEvents(): seq<Event> {
    [ReadHead, RecoverClear, Begin(0), Begin(1)]
  }

  /** Operations 0 and 1 start; 0 logs n blocks and ends; 2 starts while n entries are in use;
      then 1 logs n blocks and 2 one less. */
  function FillEvents(n: nat): seq<Event>
    requires n > 0
  {
    BootEvents() + Writes(0, 0, n) + [End(0), Begin(2)] + Writes(1, n, n) + Writes(2, 2 * n, n - 1)
  }

  lemma BootTwo(c: State, s: State, e1: Event, e2: Event, es: seq<Event>) returns (s': State)
    requires Runs(c, es, s) && Enabled(s, e1) && Enabled(Apply(s, e1), e2)
    ensures s' == Apply(Apply(s, e1), e2) && Runs(c, es + [e1, e2], s')
  {
    var s1 := Snoc(c, es, s, e1);
    s' := Snoc(c, es + [e1], s1, e2);
    assert es + [e1] + [e2] == es + [e1, e2];
  }

  lemma FillBoot(d: Disk, c: State, n: nat) returns (s: State)
    requires FreshDisk(d, n) && c == State(d, Boot, [], {}, map[], multiset{}, 0)
    ensures Runs(c, BootEvents(), s) && s == State(d, Ready, [], {0, 1}, map[], multiset{}, 2)
  {
    assert Runs(c, [], c);
    assert d.head.block[..0] == [];
    s := BootTwo(c, c, ReadHead, RecoverClear, []);
    assert s == State(d, Ready, [], {}, map[], multiset{}, 0);
    assert [] + [ReadHead, RecoverClear] == [ReadHead, RecoverClear];
    s := BootTwo(c, s, Begin(0), Begin(1), [ReadHead, RecoverClear]);
    assert [ReadHead, RecoverClear] + [Begin(0), Begin(1)] == BootEvents();
  }

  lemma FillSwitch(c: State, es: seq<Event>, s: State, n: nat) returns (s': State)
    requires Runs(c, es, s) && s.pc.Ready? && s.active == {0, 1} && s.next == 2 && |s.lh| == n == MAXOPBLOCKS
    ensures Runs(c, es + [End(0), Begin(2)], s')
    ensures s'.active == {1, 2} && s'.lh == s.lh && s'.disk == s.disk
  {
    s' := Snoc(c, es, s, End(0));
    assert s'.active == {1};
    s' := Snoc(c, es + [End(0)], s', Begin(2));
    assert es + [End(0)] + [Begin(2)] == es + [End(0), Begin(2)];
  }

  lemma Fill(d: Disk, c: State, n: nat) returns (s: State)
    requires FreshDisk(d, n) && c == State(d, Boot, [], {}, map[], multiset{}, 0) && n == MAXOPBLOCKS
    ensures Runs(c, FillEvents(n), s)
    ensures s.active == {1, 2} && |s.lh| == LOGSIZE - 1 == |s.disk.slot|
  {
    s := FillBoot(d, c, n);
    s := LogNext(c, BootEvents(), s, 0, 0, n);
    s := FillSwitch(c, BootEvents() + Writes(0, 0, n), s, n);
    var es := BootEvents() + Writes(0, 0, n) + [End(0), Begin(2)];
    s := LogNext(c, es, s, 1, n, n);
    s := LogNext(c, es + Writes(1, n, n), s, 2, 2 * n, n - 1);
  }

  lemma WritesAdd(es: seq<Event>, op': nat, lo: nat, n: nat, op: nat)
    ensures |OpWrites(es + Writes(op', lo, n), op)| == |OpWrites(es, op)| + if op' == op then n else 0
  {
    OpWritesConcat(es, Writes(op', lo, n), op);
    WritesCount(op', lo, n, op);
  }

  lemma FillFirst(n: nat, op: nat)
    ensures |OpWrites(BootEvents() + Writes(0, 0, n) + [End(0), Begin(2)], op)| == if op == 0 then n else 0
  {
    NoWrites(BootEvents(), op);
    WritesAdd(BootEvents(), 0, 0, n, op);
    OpWritesConcat(BootEvents() + Writes(0, 0, n), [End(0), Begin(2)], op);
    NoWrites([End(0), Begin(2)], op);
  }

  lemma FillRest(es: seq<Event>, n: nat, op: nat)
    requires n > 0 && |OpWrites(es, op)| == if op == 0 then n else 0
    ensures |OpWrites(es + Writes(1, n, n) + Writes(2, 2 * n, n - 1), op)| <= n
  {
    WritesAdd(es, 1, n, n, op);
    WritesAdd(es + Writes(1, n, n), 2, 2 * n, n - 1, op);
  }

  lemma FillBudget(n: nat, op: nat)
    requires n > 0
    ensures |Touched(FillEvents(n), op, {})| <= n
  {
    FillFirst(n, op);
    FillRest(BootEvents() + Writes(0, 0, n) + [End(0), Begin(2)], n, op);
    TouchedFew(FillEvents(n), op);
  }

  lemma FullRefutes(c: State, es: seq<Event>, s: State, k: nat)
    requires |c.disk.slot| == LOGSIZE - 1 && Runs(c, es, s) && Budgeted(es, k, {})
    requires s.active != {} && LogFull(s)
    ensures !NeverFull(k)
  {
  }

  lemma LargeBudgetFills(d: Disk, k: nat, n: nat)
    requires n == MAXOPBLOCKS <= k && FreshDisk(d, n)
    ensures !NeverFull(k)
  {
    var c := State(d, Boot, [], {}, map[], multiset{}, 0);
    var s := Fill(d, c, n);
    forall op ensures |Touched(FillEvents(n), op, {})| <= k {
      FillBudget(n, op);
    }
    FullRefutes(c, FillEvents(n), s, k);
  }

  /** The exact budget: the panic is out of reach if and only if every operation stays strictly
      below MAXOPBLOCKS distinct blocks, one less than begin_op reserves for it. */
  lemma ExactBudget(k: nat)
    ensures NeverFull(k) <==> k < MAXOPBLOCKS
  {
    if k < MAXOPBLOCKS {
      SmallBudgetNeverFull(k);
    } else {
      var d := Disk(Header(0, seq(LOGSIZE, _ => 0)), seq(LOGSIZE - 1, _ => []), map b | b in Range(0, LOGSIZE) :: []);
      LargeBudgetFills(d, k, MAXOPBLOCKS);
    }
  }
}
