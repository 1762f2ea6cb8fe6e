/**
 Log space when operations log some blocks in common, as the blocks of the free bitmap are: absorption
 charges a shared block once, so the log holds more operations than their budgets add up to.
 */
module LogShared {
  import opened Blocks
  import opened LogMachine
  import opened LogSpace

  /** No operation logs more than MAXOPBLOCKS distinct blocks, or more than `k` that are not shared. */
  ghost predicate Mixed(es: seq<Event>, k: nat, shared: set<nat>) {
    forall op :: |Touched(es, op, shared)| <= k && |Touched(es, op, {})| <= MAXOPBLOCKS
  }

  /** On a disk laid out by mkfs log_write never panics for lack of space while such operations run, if
      they share at most `m` blocks. */
  ghost predicate NeverFullShared(k: nat, m: nat) {
    forall c: State, es: seq<Event>, s: State, shared: set<nat> ::
      Runs(c, es, s) && |c.disk.slot| == LOGSIZE - 1 && Mixed(es, k, shared) && |shared| <= m && s.active != {} ==>
        !LogFull(s)
  }

  lemma FewShared(k: nat, m: nat)
    requires k <= MAXOPBLOCKS && 2 * k + m <= LOGSIZE - MAXOPBLOCKS - 2
    ensures NeverFullShared(k, m)
  {
    forall c: State, es: seq<Event>, s: State, shared: set<nat> |
      Runs(c, es, s) && |c.disk.slot| == LOGSIZE - 1 && Mixed(es, k, shared) && |shared| <= m && s.active != {}
      ensures !LogFull(s)
    {
      assert Budgeted(es, k, shared) by {
        forall op ensures |Touched(es, op, shared)| <= k { assert |Touched(es, op, {})| <= MAXOPBLOCKS; }
      }
      EntriesBound(c, es, s, k, shared);
      MembersSize(s.lh);
      assert Members(s.lh) <= Entries(s, shared) + shared;
      SubsetSize(Members(s.lh), Entries(s, shared) + shared);
    }
  }

  // The witness above the threshold.

  /** The blocks lo, lo + 1 and so on, n of them. */
  function Span(lo: nat, n: nat): set<nat> { Members(Range(lo, n)) }

  lemma {:induction false} SpanSize(lo: nat, n: nat)
    ensures |Span(lo, n)| == n
  {
    if n > 0 {
      SpanSize(lo, n - 1);
      assert Span(lo, n) == Span(lo, n - 1) + {lo + n - 1};
    }
  }

  lemma {:induction false} WritesTouch(op: nat, lo: nat, n: nat, op': nat, shared: set<nat>)
    ensures Touched(Writes(op, lo, n), op', shared) == if op == op' then Span(lo, n) - shared else {}
  {
    if n > 0 {
      WritesTouch(op, lo, n - 1, op', shared);
      var es := Writes(op, lo, n);
      assert es[..|es| - 1] == Writes(op, lo, n - 1);
      TouchedStep(es, op', shared);
      assert Span(lo, n) == Span(lo, n - 1) + {lo + n - 1};
    }
  }

  lemma TouchedConcat(es: seq<Event>, fs: seq<Event>, op: nat, shared: set<nat>)
    ensures Touched(es + fs, op, shared) == Touched(es, op, shared) + Touched(fs, op, shared)
  {
    OpWritesConcat(es, fs, op);
  }

  /** Operation op ends and another begins. */
  lemma Replace(c: State, es: seq<Event>, s: State, op: nat) returns (s': State)
    requires Runs(c, es, s) && s.pc.Ready? && op in s.active && s.active != {op} && s.next !in s.active
    requires |s.lh| + |s.active| * MAXOPBLOCKS <= LOGSIZE
    ensures Runs(c, es + [End(op), Begin(s.next)], s') && s'.active == s.active - {op} + {s.next} && s'.pc.Ready?
    ensures s'.next == s.next + 1 && s'.disk == s.disk && s'.lh == s.lh
  {
    var s1 := Snoc(c, es, s, End(op));
    assert |s1.active| == |s.active| - 1;
    s' := Snoc(c, es + [End(op)], s1, Begin(s.next));
    assert es + [End(op)] + [Begin(s.next)] == es + [End(op), Begin(s.next)];
  }

  /** Operations 1 and 2, which share nothing, leave n entries while 0 is active; then 3 begins. */
  function FirstEvents(n: nat, k: nat): seq<Event>
    requires k <= n
  {
    BootEvents() + Writes(1, 0, k) + [End(1), Begin(2)] + Writes(2, k, n - k) + [End(2), Begin(3)]
  }

  /** Operation 0 logs n blocks more, of which it shares all but k, and 3 likewise, one less. */
  function SharedEvents(n: nat, k: nat): seq<Event>
    requires k < n
  {
    FirstEvents(n, k) + Writes(0, n, n) + Writes(3, 2 * n, n - 1)
  }

  function SharedBlocks(n: nat, k: nat): set<nat>
    requires k < n
  {
    Members(Range(n + k, n - k) + Range(2 * n + k, n - 1 - k))
  }

  lemma RunFirst(d: Disk, c: State, n: nat, k: nat) returns (s: State)
    requires FreshDisk(d, n) && c == State(d, Boot, [], {}, map[], multiset{}, 0) && k <= n == MAXOPBLOCKS
    ensures Runs(c, FirstEvents(n, k), s) && s.active == {0, 3} && s.disk == d && s.lh == Range(0, n)
  {
    s := FillBoot(d, c, n);
    s := LogNext(c, BootEvents(), s, 1, 0, k);
    var es := BootEvents() + Writes(1, 0, k);
    s := Replace(c, es, s, 1);
    assert s.active == {0, 2};
    es := es + [End(1), Begin(2)];
    s := LogNext(c, es, s, 2, k, n - k);
    es := es + Writes(2, k, n - k);
    s := Replace(c, es, s, 2);
    assert s.active == {0, 3};
  }

  lemma RunShared(d: Disk, c: State, n: nat, k: nat) returns (s: State)
    requires FreshDisk(d, n) && c == State(d, Boot, [], {}, map[], multiset{}, 0) && k < n == MAXOPBLOCKS
    ensures Runs(c, SharedEvents(n, k), s) && s.active == {0, 3} && |s.lh| == LOGSIZE - 1 == |s.disk.slot|
  {
    s := RunFirst(d, c, n, k);
    s := LogNext(c, FirstEvents(n, k), s, 0, n, n);
    s := LogNext(c, FirstEvents(n, k) + Writes(0, n, n), s, 3, 2 * n, n - 1);
  }

  lemma FirstTouched(n: nat, k: nat, op: nat, shared: set<nat>)
    requires k <= n
    ensures Touched(FirstEvents(n, k), op, shared)
            == if op == 1 then Span(0, k) - shared else if op == 2 then Span(k, n - k) - shared else {}
  {
    var es1 := BootEvents() + Writes(1, 0, k);
    var es2 := es1 + [End(1), Begin(2)];
    var es3 := es2 + Writes(2, k, n - k);
    NoWrites(BootEvents(), op);
    NoWrites([End(1), Begin(2)], op);
    NoWrites([End(2), Begin(3)], op);
    WritesTouch(1, 0, k, op, shared);
    WritesTouch(2, k, n - k, op, shared);
    TouchedConcat(BootEvents(), Writes(1, 0, k), op, shared);
    TouchedConcat(es1, [End(1), Begin(2)], op, shared);
    TouchedConcat(es2, Writes(2, k, n - k), op, shared);
    TouchedConcat(es3, [End(2), Begin(3)], op, shared);
  }

  lemma SharedTouched(n: nat, k: nat, op: nat, shared: set<nat>)
    requires k < n
    ensures Touched(SharedEvents(n, k), op, shared) ==
            if op == 0 then Span(n, n) - shared
            else if op == 3 then Span(2 * n, n - 1) - shared
            else Touched(FirstEvents(n, k), op, shared)
  {
    FirstTouched(n, k, op, shared);
    WritesTouch(0, n, n, op, shared);
    WritesTouch(3, 2 * n, n - 1, op, shared);
    TouchedConcat(FirstEvents(n, k), Writes(0, n, n), op, shared);
    TouchedConcat(FirstEvents(n, k) + Writes(0, n, n), Writes(3, 2 * n, n - 1), op, shared);
  }

  lemma SpanLess(lo: nat, n: nat, shared: set<nat>)
    ensures |Span(lo, n) - shared| <= n
  {
    SpanSize(lo, n);
    SubsetSize(Span(lo, n) - shared, Span(lo, n));
  }

  lemma OwnBlocks(n: nat, k: nat)
    requires k < n
    ensures Span(n, n) - SharedBlocks(n, k) == Span(n, k) && Span(2 * n, n - 1) - SharedBlocks(n, k) == Span(2 * n, k)
  {
  }

  /** No operation of the run logs more than k blocks of its own, or n in all. */
  lemma SharedMixed(n: nat, k: nat, op: nat)
    requires k < n <= 2 * k
    ensures |Touched(SharedEvents(n, k), op, SharedBlocks(n, k))| <= k
  {
    var shared := SharedBlocks(n, k);
    SharedTouched(n, k, op, shared);
    FirstTouched(n, k, op, shared);
    if op == 0 || op == 3 {
      OwnBlocks(n, k);
      SpanSize(if op == 0 then n else 2 * n, k);
    } else {
      SpanLess(0, k, shared);
      SpanLess(k, n - k, shared);
    }
  }

  lemma SharedTotal(n: nat, k: nat, op: nat)
    requires k < n
    ensures |Touched(SharedEvents(n, k), op, {})| <= n
  {
    SharedTouched(n, k, op, {});
    FirstTouched(n, k, op, {});
    if op == 0 {
      SpanLess(n, n, {});
    } else if op == 1 {
      SpanLess(0, k, {});
    } else if op == 2 {
      SpanLess(k, n - k, {});
    } else {
      SpanLess(2 * n, n - 1, {});
    }
  }

  lemma SharedSize(n: nat, k: nat)
    requires k < n
    ensures |SharedBlocks(n, k)| <= 2 * n - 1 - 2 * k
  {
    MembersSize(Range(n + k, n - k) + Range(2 * n + k, n - 1 - k));
  }

  lemma TouchedMinus(es: seq<Event>, op: nat, shared: set<nat>)
    ensures Touched(es, op, shared) == Touched(es, op, {}) - shared
  {
  }

  lemma NotFull(c: State, es: seq<Event>, s: State, k: nat, m: nat, shared: set<nat>)
    requires NeverFullShared(k, m) && Runs(c, es, s) && |c.disk.slot| == LOGSIZE - 1
    requires Mixed(es, k, shared) && |shared| <= m && s.active != {}
    ensures !LogFull(s)
  {
  }

  lemma FullRefutesShared(c: State, es: seq<Event>, s: State, k: nat, m: nat, shared: set<nat>)
    requires |c.disk.slot| == LOGSIZE - 1 && Runs(c, es, s) && Mixed(es, k, shared) && |shared| <= m
    requires s.active != {} && LogFull(s)
    ensures !NeverFullShared(k, m)
  {
  }

  lemma ManySharedFill(d: Disk, n: nat, k: nat, m: nat)
    requires FreshDisk(d, n) && k < n == MAXOPBLOCKS <= 2 * k && 2 * k + m > 2 * n - 2
    ensures !NeverFullShared(k, m)
  {
    var c := State(d, Boot, [], {}, map[], multiset{}, 0);
    var s := RunShared(d, c, n, k);
    var (es, shared) := (SharedEvents(n, k), SharedBlocks(n, k));
    forall op ensures |Touched(es, op, shared)| <= k && |Touched(es, op, {})| <= MAXOPBLOCKS {
      SharedMixed(n, k, op);
      SharedTotal(n, k, op);
    }
    SharedSize(n, k);
    FullRefutesShared(c, es, s, k, m, shared);
  }

  /** The exact number of shared blocks: with operations of at most MAXOPBLOCKS blocks each, k of them their own, the
      panic is out of reach if and only if two such budgets and all m shared blocks leave room for the MAXOPBLOCKS
      entries that begin_op finds at most, with two to spare. */
  lemma ExactShared(k: nat, m: nat)
    requires k < MAXOPBLOCKS <= 2 * k
    ensures NeverFullShared(k, m) <==> MAXOPBLOCKS + 2 * k + m <= LOGSIZE - 2
  {
    if MAXOPBLOCKS + 2 * k + m <= LOGSIZE - 2 {
      FewShared(k, m);
    } else {
      var d := Disk(Header(0, seq(LOGSIZE, _ => 0)), seq(LOGSIZE - 1, _ => []), map b | b in Range(0, LOGSIZE) :: []);
      ManySharedFill(d, MAXOPBLOCKS, k, m);
    }
  }
}
