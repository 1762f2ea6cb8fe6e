/**
 What calls of pipewrite and piperead (kernel/pipe.c) do, in every run of Pipe: the bytes a write has put are
 the first ones of its argument, in their order, and the bytes a read has taken are the next ones of the pipe.
 */
module PipeCalls {
  import opened Blocks
  import opened Pipe

  /** The elements of xs that belong to call c, in their order. */
  function Of(xs: seq<Byte>, tags: seq<nat>, c: nat): (r: seq<Byte>)
    requires |xs| == |tags|
    ensures |r| <= |xs|
  {
    if xs == [] then []
    else
      var r := Of(xs[..|xs| - 1], tags[..|tags| - 1], c);
      if tags[|tags| - 1] == c then r + [xs[|xs| - 1]] else r
  }

  lemma OfMore(xs: seq<Byte>, tags: seq<nat>, x: Byte, t: nat, c: nat)
    requires |xs| == |tags|
    ensures Of(xs + [x], tags + [t], c) == Of(xs, tags, c) + if t == c then [x] else []
  {
    assert (xs + [x])[..|xs|] == xs && (tags + [t])[..|tags|] == tags;
  }

  lemma {:induction false} OfNone(xs: seq<Byte>, tags: seq<nat>, c: nat)
    requires |xs| == |tags| && c !in tags
    ensures Of(xs, tags, c) == []
  {
    if xs != [] { OfNone(xs[..|xs| - 1], tags[..|tags| - 1], c); }
  }

  /** Every byte put or taken belongs to a call that writes or reads. */
  predicate Tagged(s: State) {
    && |s.putBy| == |s.sent| && |s.takenBy| == |s.got| && |s.call| == |s.pc|
    && (forall k :: 0 <= k < |s.putBy| ==> s.putBy[k] < |s.calls| && s.calls[s.putBy[k]].Writing?)
    && (forall k :: 0 <= k < |s.takenBy| ==> s.takenBy[k] < |s.calls| && s.calls[s.takenBy[k]].Reading?)
    && (forall c :: c in s.ret ==> c < |s.calls|)
  }

  /** The bytes that call c has put into the pipe, and those that it has taken from it. */
  function PutOf(s: State, c: nat): seq<Byte>
    requires Tagged(s)
  {
    Of(s.sent, s.putBy, c)
  }

  function TakenOf(s: State, c: nat): seq<Byte>
    requires Tagged(s)
  {
    Of(s.got, s.takenBy, c)
  }

  /** Nothing comes between what call c has taken. */
  predicate Together(tags: seq<nat>, c: nat) {
    forall x, y, z :: 0 <= x < y < z < |tags| && tags[x] == c && tags[z] == c ==> tags[y] == c
  }

  /** From the first byte that call c has taken on, it has taken all. */
  predicate AtEnd(tags: seq<nat>, c: nat) {
    forall x, y :: 0 <= x < y < |tags| && tags[x] == c ==> tags[y] == c
  }

  predicate CallAt(s: State, c: nat)
    requires Tagged(s) && c < |s.calls|
  {
    true == match s.calls[c]
    case Writing(bytes) =>
      && PutOf(s, c) <= bytes && (c in s.ret ==> s.ret[c] == -1 || s.ret[c] == |PutOf(s, c)|)
    case Reading(n) =>
      && |TakenOf(s, c)| <= n && Together(s.takenBy, c)
      && (c in s.ret ==> || (s.ret[c] == -1 && TakenOf(s, c) == [])
                         || s.ret[c] == |TakenOf(s, c)| || s.ret[c] + 1 == |TakenOf(s, c)|)
  }

  predicate InWrite(pc: Pc) { pc.Write? || pc.WSleep? || pc.WReady? }

  predicate ThreadAt(s: State, i: nat)
    requires Tagged(s) && i < |s.pc|
  {
    var (pc, c) := (s.pc[i], s.call[i]);
    !pc.Out? ==>
      && c < |s.calls| && c !in s.ret
      && if InWrite(pc) then s.calls[c] == Writing(PutOf(s, c) + pc.bytes)
         else if pc.Copy? then
           && s.calls[c].Reading? && AtEnd(s.takenBy, c) && pc.n + |TakenOf(s, c)| <= s.calls[c].n
           && (|TakenOf(s, c)| == pc.k || (pc.n == 0 && |TakenOf(s, c)| == pc.k + 1))
           && (|TakenOf(s, c)| == pc.k ==> pc.n + pc.k == s.calls[c].n)
         else s.calls[c] == Reading(pc.n) && c !in s.takenBy
  }

  predicate OwnCall(s: State, i: nat, j: nat)
    requires |s.call| == |s.pc| && i < |s.pc| && j < |s.pc|
  {
    i != j && !s.pc[i].Out? && !s.pc[j].Out? ==> s.call[i] != s.call[j]
  }

  predicate UnfoldHist(u: int) { true }

  ghost predicate Hist(s: State) {
    && Tagged(s)
    && forall u {:trigger UnfoldHist(u)} :: UnfoldHist(u) ==>
      && (forall c :: 0 <= c < |s.calls| ==> CallAt(s, c))
      && (forall i :: 0 <= i < |s.pc| ==> ThreadAt(s, i))
      && (forall i, j :: 0 <= i < |s.pc| && 0 <= j < |s.pc| ==> OwnCall(s, i, j))
  }

  // Steps.

  lemma BeginHist(s: State, i: nat, call: Call, pc: Pc)
    requires Hist(s) && i < |s.pc| && s.pc[i].Out?
    requires call == match pc case Write(bytes, _) => Writing(bytes) case Check(n) => Reading(n) case _ => Reading(0)
    requires pc.Write? || pc.Check?
    ensures Hist(Begin(s, i, call, pc))
  {
    var s' := Begin(s, i, call, pc);
    assert UnfoldHist(0);
    assert Tagged(s');
    OfNone(s.sent, s.putBy, |s.calls|);
    OfNone(s.got, s.takenBy, |s.calls|);
    forall c | 0 <= c < |s'.calls| ensures CallAt(s', c) { if c < |s.calls| { assert CallAt(s, c); } }
    forall j | 0 <= j < |s.pc| ensures ThreadAt(s', j) { assert ThreadAt(s, j); }
    forall a, b | 0 <= a < |s.pc| && 0 <= b < |s.pc| ensures OwnCall(s', a, b) {
      assert OwnCall(s, a, b) && ThreadAt(s, a) && ThreadAt(s, b);
    }
  }

  /** pc' is at the same point of the same call as pc, as far as its bytes are concerned. */
  predicate SameWork(pc: Pc, pc': Pc) {
    || pc' == pc
    || (InWrite(pc) && InWrite(pc') && pc'.bytes == pc.bytes)
    || (InCheck(pc) && InCheck(pc') && pc'.n == pc.n)
    || (pc.Check? && pc' == Copy(pc.n, 0))
  }

  predicate InCheck(pc: Pc) { pc.Check? || pc.RSleep? || pc.RReady? }

  lemma MoveHist(s: State, s': State)
    requires Hist(s) && |s'.pc| == |s.pc| && (forall i :: 0 <= i < |s.pc| ==> SameWork(s.pc[i], s'.pc[i]))
    requires s'.sent == s.sent && s'.got == s.got && s'.calls == s.calls && s'.call == s.call
    requires s'.putBy == s.putBy && s'.takenBy == s.takenBy && s'.ret == s.ret
    ensures Hist(s')
  {
    assert UnfoldHist(0);
    forall c | 0 <= c < |s.calls| ensures CallAt(s', c) { assert CallAt(s, c); }
    forall i | 0 <= i < |s.pc| ensures ThreadAt(s', i) {
      assert ThreadAt(s, i);
      if s.pc[i].Check? && s'.pc[i].Copy? { OfNone(s.got, s.takenBy, s.call[i]); }
    }
    forall i, j | 0 <= i < |s.pc| && 0 <= j < |s.pc| ensures OwnCall(s', i, j) { assert OwnCall(s, i, j); }
  }

  lemma ReturnHist(s: State, i: nat, r: int)
    requires Hist(s) && i < |s.pc| && !s.pc[i].Out?
    requires InWrite(s.pc[i]) ==> r == -1 || r == |PutOf(s, s.call[i])|
    requires InCheck(s.pc[i]) ==> r == -1
    requires s.pc[i].Copy? ==> r == s.pc[i].k
    ensures Hist(Return(s, i, s.pc, r))
  {
    var s' := Return(s, i, s.pc, r);
    assert UnfoldHist(0);
    assert ThreadAt(s, i);
    assert Tagged(s');
    forall c | 0 <= c < |s.calls| ensures CallAt(s', c) {
      assert CallAt(s, c);
      if c == s.call[i] && InCheck(s.pc[i]) { OfNone(s.got, s.takenBy, c); }
    }
    forall j | 0 <= j < |s.pc| ensures ThreadAt(s', j) { assert ThreadAt(s, j) && OwnCall(s, i, j); }
    forall a, b | 0 <= a < |s.pc| && 0 <= b < |s.pc| ensures OwnCall(s', a, b) { assert OwnCall(s, a, b); }
  }

  lemma PutHist(s: State, i: nat, bytes: seq<Byte>)
    requires Hist(s) && i < |s.pc| && s.pc[i].Write? && s.pc[i].bytes == bytes != [] && |s.data| == PIPESIZE
    ensures Hist(Put(s, i, bytes))
  {
    var s' := Put(s, i, bytes);
    assert UnfoldHist(0);
    assert ThreadAt(s, i);
    assert Tagged(s');
    forall c | 0 <= c < |s.calls| ensures CallAt(s', c) {
      assert CallAt(s, c);
      OfMore(s.sent, s.putBy, bytes[0], s.call[i], c);
    }
    forall j | 0 <= j < |s.pc| ensures ThreadAt(s', j) {
      assert ThreadAt(s, j) && OwnCall(s, i, j);
      OfMore(s.sent, s.putBy, bytes[0], s.call[i], s.call[j]);
      assert PutOf(s, s.call[i]) + bytes == PutOf(s, s.call[i]) + [bytes[0]] + bytes[1..];
    }
    forall a, b | 0 <= a < |s.pc| && 0 <= b < |s.pc| ensures OwnCall(s', a, b) { assert OwnCall(s, a, b); }
  }

  lemma GetHist(s: State, i: nat, n: nat, k: nat)
    requires Hist(s) && i < |s.pc| && s.pc[i].Copy? && s.pc[i].n > 0 && |s.data| == PIPESIZE
    requires (n == s.pc[i].n - 1 && k == s.pc[i].k + 1) || (n == 0 && k == s.pc[i].k)
    requires forall j :: 0 <= j < |s.pc| && j != i ==> !s.pc[j].Copy?
    ensures Hist(Get(s, i, n, k))
  {
    var s' := Get(s, i, n, k);
    var x := s.data[s.nread % PIPESIZE];
    assert UnfoldHist(0);
    assert ThreadAt(s, i);
    assert Tagged(s');
    forall c | 0 <= c < |s.calls| ensures CallAt(s', c) {
      assert CallAt(s, c);
      OfMore(s.got, s.takenBy, x, s.call[i], c);
    }
    forall j | 0 <= j < |s.pc| ensures ThreadAt(s', j) {
      assert ThreadAt(s, j) && OwnCall(s, i, j);
      OfMore(s.got, s.takenBy, x, s.call[i], s.call[j]);
    }
    forall a, b | 0 <= a < |s.pc| && 0 <= b < |s.pc| ensures OwnCall(s', a, b) { assert OwnCall(s, a, b); }
  }

  lemma WakeReturnHist(s: State, i: nat, r: int)
    requires Hist(s) && i < |s.pc| && InWrite(s.pc[i]) && (r == -1 || r == |PutOf(s, s.call[i])|)
    ensures Hist(Return(s, i, WakeReaders(s.pc), r))
  {
    ReturnHist(s, i, r);
    MoveHist(Return(s, i, s.pc, r), Return(s, i, WakeReaders(s.pc), r));
  }

  lemma WriteHist(s: State, i: nat, luck: Luck)
    requires Hist(s) && Enabled(s, Step(i, luck)) && s.pc[i].Write?
    ensures Hist(StepWrite(s, i, luck))
  {
    var bytes := s.pc[i].bytes;
    var done := |s.calls[s.call[i]].bytes| - |bytes|;
    assert done == |PutOf(s, s.call[i])| by { assert UnfoldHist(0); assert ThreadAt(s, i); }
    if bytes == [] {
      WakeReturnHist(s, i, done);
    } else if !s.readopen || luck.Killed? {
      ReturnHist(s, i, -1);
    } else if Full(s) {
      MoveHist(s, StepWrite(s, i, luck));
    } else if luck.Fault? {
      WakeReturnHist(s, i, done);
    } else {
      PutHist(s, i, bytes);
    }
  }

  lemma CheckHist(s: State, i: nat, luck: Luck)
    requires Hist(s) && Enabled(s, Step(i, luck)) && s.pc[i].Check?
    ensures Hist(StepCheck(s, i, luck))
  {
    if Empty(s) && s.writeopen && luck.Killed? {
      ReturnHist(s, i, -1);
    } else {
      MoveHist(s, StepCheck(s, i, luck));
    }
  }

  lemma CopyHist(s: State, i: nat, luck: Luck)
    requires Inv(s) && Hist(s) && Enabled(s, Step(i, luck)) && s.pc[i].Copy?
    ensures Hist(StepCopy(s, i, luck))
  {
    var (n, k) := (s.pc[i].n, s.pc[i].k);
    if n == 0 || Empty(s) {
      ReturnHist(s, i, k);
      MoveHist(Return(s, i, s.pc, k), StepCopy(s, i, luck));
    } else {
      assert LockOk(s);
      GetHist(s, i, if luck.Fault? then 0 else n - 1, if luck.Fault? then k else k + 1);
    }
  }

  lemma ApplyHist(s: State, e: Event)
    requires Inv(s) && Hist(s) && Enabled(s, e)
    ensures Hist(Apply(s, e))
  {
    match e
    case StartWrite(i, bytes) => BeginHist(s, i, Writing(bytes), Write(bytes, false));
    case StartRead(i, n) => BeginHist(s, i, Reading(n), Check(n));
    case Step(i, luck) =>
      if s.pc[i].Write? { WriteHist(s, i, luck); }
      else if s.pc[i].Check? { CheckHist(s, i, luck); }
      else { CopyHist(s, i, luck); }
    case _ => MoveHist(s, Apply(s, e));
  }

  lemma {:induction false} RunsHist(m: nat, es: seq<Event>, s: State)
    requires Runs(m, es, s)
    ensures Inv(s) && Hist(s)
    decreases |es|
  {
    RunsInv(m, es, s);
    assert UnfoldRuns(0);
    if es != [] {
      var e := es[|es| - 1];
      var s0: State :| Runs(m, es[..|es| - 1], s0) && Enabled(s0, e) && s == Apply(s0, e);
      RunsHist(m, es[..|es| - 1], s0);
      RunsInv(m, es[..|es| - 1], s0);
      ApplyHist(s0, e);
    }
  }

  // Writes.

  /** In every run, what a call of pipewrite has put is the beginning of its argument, in that order; while it goes on,
      the rest is what it has left; and when it is over it has returned how much it has put, or -1. */
  lemma WritesInOrder(m: nat, es: seq<Event>, s: State, c: nat, i: nat)
    requires Runs(m, es, s) && c < |s.calls| && s.calls[c].Writing? && i < |s.pc|
    ensures Tagged(s) && PutOf(s, c) <= s.calls[c].bytes
    ensures InWrite(s.pc[i]) && s.call[i] == c ==> s.calls[c].bytes == PutOf(s, c) + s.pc[i].bytes
    ensures c in s.ret ==> s.ret[c] == -1 || s.ret[c] == |PutOf(s, c)|
  {
    RunsHist(m, es, s);
    assert UnfoldHist(0);
    assert CallAt(s, c) && ThreadAt(s, i);
  }

  lemma {:induction false} OfPrefix(xs: seq<Byte>, tags: seq<nat>, c: nat, k: nat)
    requires |xs| == |tags| && k <= |xs|
    ensures Of(xs[..k], tags[..k], c) <= Of(xs, tags, c)
  {
    if k == |xs| {
      assert xs[..k] == xs && tags[..k] == tags;
    } else {
      var (ys, us) := (xs[..|xs| - 1], tags[..|tags| - 1]);
      OfPrefix(ys, us, c, k);
      assert ys[..k] == xs[..k] && us[..k] == tags[..k];
    }
  }

  /** In every run, the bytes put are an interleaving of the arguments: each is the next byte of the call it is from. */
  lemma SentInterleaves(m: nat, es: seq<Event>, s: State, k: nat)
    requires Runs(m, es, s) && k < |s.sent|
    ensures Tagged(s)
    ensures var c := s.putBy[k];
            var j := |Of(s.sent[..k], s.putBy[..k], c)|;
            c < |s.calls| && s.calls[c].Writing? && j < |s.calls[c].bytes| && s.sent[k] == s.calls[c].bytes[j]
  {
    RunsHist(m, es, s);
    var c := s.putBy[k];
    assert CallAt(s, c) by { assert UnfoldHist(0); }
    OfPrefix(s.sent, s.putBy, c, k + 1);
    assert s.sent[..k + 1] == s.sent[..k] + [s.sent[k]] && s.putBy[..k + 1] == s.putBy[..k] + [c];
    OfMore(s.sent[..k], s.putBy[..k], s.sent[k], c, c);
  }

  /** Only a thread's own step makes it return. */
  lemma OwnReturn(s: State, e: Event, i: nat)
    requires Inv(s) && Enabled(s, e) && i < |s.pc| && !s.pc[i].Out? && Apply(s, e).pc[i].Out?
    ensures e.Step? && e.i == i && HoldsLock(s.pc[i])
  {
    if e.Step? && e.i != i { OthersStay(s, e.i, e.luck, i); }
  }

  lemma OthersStay(s: State, j: nat, luck: Luck, i: nat)
    requires Enabled(s, Step(j, luck)) && i < |s.pc| && i != j && !s.pc[i].Out?
    ensures !Apply(s, Step(j, luck)).pc[i].Out?
  {
    var s' := Apply(s, Step(j, luck));
    if s.pc[j].Write? {
      WriterWakes(s, j, luck, i);
    } else if s.pc[j].Copy? {
      assert s'.pc[i] == s.pc[i] || s'.pc[i] == WakeWriter(s.pc[i]);
    }
  }

  lemma WriterWakes(s: State, j: nat, luck: Luck, i: nat)
    requires Enabled(s, Step(j, luck)) && s.pc[j].Write? && i < |s.pc| && i != j
    ensures var s' := StepWrite(s, j, luck); s'.pc[i] == s.pc[i] || s'.pc[i] == WakeReader(s.pc[i])
  {
    var woken := WakeReaders(s.pc);
    assert woken[i] == WakeReader(s.pc[i]);
  }

  /** How a write ends. */
  predicate Written(s: State, s': State, i: nat, luck: Luck)
    requires i < |s.pc| == |s.call|
  {
    var c := s.call[i];
    && Tagged(s') && c < |s.calls| && s.calls[c].Writing? && c in s'.ret
    && (s'.ret[c] == -1 <==> GivesUp(s, Step(i, luck)))
    && (s'.ret[c] != -1 ==> s'.ret[c] == |PutOf(s', c)| && (PutOf(s', c) == s.calls[c].bytes || luck.Fault?))
  }

  lemma WriteEnds(s: State, i: nat, luck: Luck)
    requires Hist(s) && Enabled(s, Step(i, luck)) && s.pc[i].Write? && StepWrite(s, i, luck).pc[i].Out?
    ensures Written(s, StepWrite(s, i, luck), i, luck)
  {
    WriteHist(s, i, luck);
    assert ThreadAt(s, i) by { assert UnfoldHist(0); }
  }

  /** In every run, a call of pipewrite comes back with everything written, unless its process is killed or the pipe
      has no reader, and then it gives -1, or it cannot read its argument. */
  lemma WriteReturns(m: nat, es: seq<Event>, s: State, e: Event, i: nat)
    requires Runs(m, es, s) && Enabled(s, e) && i < |s.pc| && InWrite(s.pc[i]) && Apply(s, e).pc[i].Out?
    ensures e.Step? && e.i == i && |s.call| == |s.pc| && Written(s, Apply(s, e), i, e.luck)
  {
    RunsHist(m, es, s);
    OwnReturn(s, e, i);
    WriteEnds(s, i, e.luck);
  }

  // Reads.

  lemma {:induction false} TakenSlice(xs: seq<Byte>, tags: seq<nat>, c: nat) returns (a: nat)
    requires |xs| == |tags| && Together(tags, c)
    ensures a + |Of(xs, tags, c)| <= |xs| && Of(xs, tags, c) == xs[a..a + |Of(xs, tags, c)|]
    ensures forall k :: 0 <= k < |tags| ==> (tags[k] == c <==> a <= k < a + |Of(xs, tags, c)|)
    ensures Of(xs, tags, c) == [] ==> a == |xs|
  {
    if xs == [] {
      a := 0;
    } else {
      var (ys, us) := (xs[..|xs| - 1], tags[..|tags| - 1]);
      a := TakenSlice(ys, us, c);
      var n := |Of(ys, us, c)|;
      if tags[|tags| - 1] == c {
        if n > 0 { assert tags[a] == c && us[|us| - 1] == c; }
        assert a + n == |ys| && xs[a..a + n + 1] == ys[a..a + n] + [xs[|ys|]];
      } else if n == 0 {
        a := |xs|;
      } else {
        assert xs[a..a + n] == ys[a..a + n];
      }
    }
  }

  /** In every run, what a call of piperead has taken are successive bytes of those put, at most as many as it asked
      for; no other call has taken any of them. */
  lemma ReadsInOrder(m: nat, es: seq<Event>, s: State, c: nat) returns (a: nat)
    requires Runs(m, es, s) && c < |s.calls| && s.calls[c].Reading?
    ensures Tagged(s) && |TakenOf(s, c)| <= s.calls[c].n
    ensures a + |TakenOf(s, c)| <= |s.got| <= |s.sent| && TakenOf(s, c) == s.sent[a..a + |TakenOf(s, c)|]
    ensures forall k :: 0 <= k < |s.got| ==> (s.takenBy[k] == c <==> a <= k < a + |TakenOf(s, c)|)
  {
    RunsHist(m, es, s);
    assert CallAt(s, c) by { assert UnfoldHist(0); }
    a := TakenSlice(s.got, s.takenBy, c);
  }

  /** A reader that has just left the waiting loop has found bytes or a pipe without writers. */
  predicate Justified(s: State, i: nat)
    requires i < |s.pc|
  {
    s.pc[i].Copy? && s.pc[i].k == 0 && s.pc[i].n > 0 ==> !Empty(s) || !s.writeopen
  }

  lemma JustifiedKept(s: State, e: Event, i: nat)
    requires Inv(s) && Enabled(s, e) && i < |s.pc| && Justified(s, i)
    ensures Justified(Apply(s, e), i)
  {
    assert LockOk(s);
  }

  lemma JustifiedStep(s: State, e: Event, s': State)
    requires Inv(s) && Enabled(s, e) && s' == Apply(s, e) && forall i :: 0 <= i < |s.pc| ==> Justified(s, i)
    ensures forall i :: 0 <= i < |s'.pc| ==> Justified(s', i)
  {
    assert |s'.pc| == |s.pc|;
    forall i | 0 <= i < |s.pc| ensures Justified(s', i) { JustifiedKept(s, e, i); }
  }

  lemma {:induction false} RunsJustified(m: nat, es: seq<Event>, s: State)
    requires Runs(m, es, s)
    ensures forall i :: 0 <= i < |s.pc| ==> Justified(s, i)
    decreases |es|
  {
    assert UnfoldRuns(0);
    if es != [] {
      var e := es[|es| - 1];
      var s0: State :| Runs(m, es[..|es| - 1], s0) && Enabled(s0, e) && s == Apply(s0, e);
      RunsInv(m, es[..|es| - 1], s0);
      RunsJustified(m, es[..|es| - 1], s0);
      JustifiedStep(s0, e, s);
    }
  }

  /** How a read ends. */
  predicate IsRead(s: State, s': State, i: nat, luck: Luck)
    requires i < |s.pc| == |s.call|
  {
    var c := s.call[i];
    && Tagged(s) && Tagged(s') && c < |s.calls| && s.calls[c].Reading? && c in s'.ret
    && TakenOf(s', c) == TakenOf(s, c)
    && (s'.ret[c] == -1 <==> s.pc[i].Check? && luck.Killed?)
    && (s'.ret[c] == -1 ==> TakenOf(s, c) == [])
    && (s'.ret[c] != -1 ==> |TakenOf(s, c)| == s'.ret[c] || |TakenOf(s, c)| == s'.ret[c] + 1 <= s.calls[c].n)
    && (s'.ret[c] != -1 && s'.ret[c] < s.calls[c].n ==> Empty(s) || |TakenOf(s, c)| == s'.ret[c] + 1)
    && (s'.ret[c] != -1 && TakenOf(s, c) == [] ==> s.calls[c].n == 0 || (Empty(s) && !s.writeopen))
  }

  lemma CheckEnds(s: State, i: nat, luck: Luck)
    requires Hist(s) && Enabled(s, Step(i, luck)) && s.pc[i].Check? && StepCheck(s, i, luck).pc[i].Out?
    ensures IsRead(s, StepCheck(s, i, luck), i, luck)
  {
    CheckHist(s, i, luck);
    assert ThreadAt(s, i) by { assert UnfoldHist(0); }
    OfNone(s.got, s.takenBy, s.call[i]);
  }

  lemma CopyEnds(s: State, i: nat, luck: Luck)
    requires Inv(s) && Hist(s) && Enabled(s, Step(i, luck)) && s.pc[i].Copy? && StepCopy(s, i, luck).pc[i].Out?
    requires Justified(s, i)
    ensures IsRead(s, StepCopy(s, i, luck), i, luck)
  {
    CopyHist(s, i, luck);
    assert ThreadAt(s, i) by { assert UnfoldHist(0); }
  }

  /** No byte that i has taken in its call has been lost. */
  predicate Kept(s: State, i: nat)
    requires Tagged(s) && i < |s.pc|
  {
    s.pc[i].Copy? ==> |TakenOf(s, s.call[i])| == s.pc[i].k
  }

  lemma KeptCopy(s: State, i: nat, luck: Luck)
    requires Hist(s) && Enabled(s, Step(i, luck)) && s.pc[i].Copy? && Kept(s, i) && !luck.Fault?
    requires Tagged(StepCopy(s, i, luck))
    ensures |StepCopy(s, i, luck).pc| == |s.pc| && Kept(StepCopy(s, i, luck), i)
  {
    OfMore(s.got, s.takenBy, s.data[s.nread % PIPESIZE], s.call[i], s.call[i]);
  }

  lemma KeptCheck(s: State, i: nat, luck: Luck)
    requires Hist(s) && Enabled(s, Step(i, luck)) && s.pc[i].Check? && Tagged(StepCheck(s, i, luck))
    ensures |StepCheck(s, i, luck).pc| == |s.pc| && Kept(StepCheck(s, i, luck), i)
  {
    assert ThreadAt(s, i) by { assert UnfoldHist(0); }
    OfNone(s.got, s.takenBy, s.call[i]);
  }

  lemma NoCopy(s: State, i: nat, luck: Luck)
    requires Enabled(s, Step(i, luck)) && s.pc[i].Write?
    ensures |StepWrite(s, i, luck).pc| == |s.pc| && !StepWrite(s, i, luck).pc[i].Copy?
  {
  }

  /** What bytes i has taken, and how many it has counted. */
  predicate SameCopy(s: State, s': State, i: nat) {
    && i < |s.pc| == |s'.pc| == |s.call| == |s'.call|
    && (s'.pc[i].Copy? ==>
          s.pc[i] == s'.pc[i] && s'.call[i] == s.call[i] && s'.got == s.got && s'.takenBy == s.takenBy)
  }

  /** Other steps leave it alone, since it has the lock while it takes bytes. */
  lemma KeptOther(s: State, j: nat, luck: Luck, i: nat)
    requires LockOk(s) && Enabled(s, Step(j, luck)) && i < |s.pc| && j != i
    ensures SameCopy(s, Apply(s, Step(j, luck)), i)
  {
    assert HoldsLock(s.pc[j]) && s.lock == j;
    assert !HoldsLock(s.pc[i]);
    if s.pc[j].Write? { OtherWrite(s, j, luck, i); }
    else if s.pc[j].Check? { assert SameCopy(s, StepCheck(s, j, luck), i); }
    else { OtherCopy(s, j, luck, i); }
  }

  lemma OtherWrite(s: State, j: nat, luck: Luck, i: nat)
    requires Enabled(s, Step(j, luck)) && s.pc[j].Write? && i < |s.pc| == |s.call| && j != i
    ensures SameCopy(s, StepWrite(s, j, luck), i)
  {
  }

  lemma OtherCopy(s: State, j: nat, luck: Luck, i: nat)
    requires Enabled(s, Step(j, luck)) && s.pc[j].Copy? && i < |s.pc| == |s.call| && j != i && !s.pc[i].Copy?
    ensures SameCopy(s, StepCopy(s, j, luck), i)
  {
  }

  lemma KeptElse(s: State, e: Event, i: nat)
    requires LockOk(s) && Enabled(s, e) && i < |s.pc| && !e.Step?
    ensures SameCopy(s, Apply(s, e), i)
  {
  }

  lemma KeptStep(s: State, e: Event, s': State, i: nat)
    requires Inv(s) && Hist(s) && Enabled(s, e) && s' == Apply(s, e) && i < |s.pc| && Kept(s, i) && e != Step(i, Fault)
    requires Tagged(s')
    ensures i < |s'.pc| && Kept(s', i)
  {
    if !e.Step? {
      KeptElse(s, e, i);
    } else if e.i != i {
      KeptOther(s, e.i, e.luck, i);
    } else if s.pc[i].Write? {
      NoCopy(s, i, e.luck);
    } else if s.pc[i].Check? {
      KeptCheck(s, i, e.luck);
    } else {
      KeptCopy(s, i, e.luck);
    }
  }

  lemma AllKept(s: State, e: Event, s': State, es: seq<Event>)
    requires Inv(s) && Hist(s) && Enabled(s, e) && s' == Apply(s, e) && Hist(s')
    requires forall i :: 0 <= i < |s.pc| && Step(i, Fault) !in es ==> Kept(s, i)
    ensures forall i :: 0 <= i < |s'.pc| && Step(i, Fault) !in es + [e] ==> Kept(s', i)
  {
    assert |s'.pc| == |s.pc|;
    forall i | 0 <= i < |s'.pc| && Step(i, Fault) !in es + [e] ensures Kept(s', i) {
      assert (es + [e])[|es|] == e;
      KeptStep(s, e, s', i);
    }
  }

  lemma {:induction false} RunsKept(m: nat, es: seq<Event>, s: State)
    requires Runs(m, es, s)
    ensures Hist(s) && forall i :: 0 <= i < |s.pc| && Step(i, Fault) !in es ==> Kept(s, i)
    decreases |es|
  {
    RunsHist(m, es, s);
    assert UnfoldRuns(0);
    if es != [] {
      var (e, es0) := (es[|es| - 1], es[..|es| - 1]);
      var s0: State :| Runs(m, es0, s0) && Enabled(s0, e) && s == Apply(s0, e);
      RunsHist(m, es0, s0);
      RunsKept(m, es0, s0);
      AllKept(s0, e, s, es0);
      assert es0 + [e] == es;
    }
  }

  /** In every run, a call of piperead comes back with -1 and nothing taken exactly if its process is killed while it
      waits.  Otherwise it has as many bytes as it asked for, or has emptied the pipe, or a byte was lost because it
      could not be copied out; and if it has none, it asked for none, or the pipe has no writer.  Its result is how
      many it has taken, unless a byte was lost. */
  lemma ReadReturns(m: nat, es: seq<Event>, s: State, e: Event, i: nat)
    requires Runs(m, es, s) && Enabled(s, e) && i < |s.pc| && !InWrite(s.pc[i]) && !s.pc[i].Out?
    requires Apply(s, e).pc[i].Out?
    ensures e.Step? && e.i == i && |s.call| == |s.pc| && IsRead(s, Apply(s, e), i, e.luck)
    ensures var s' := Apply(s, e); Step(i, Fault) !in es && s'.ret[s.call[i]] != -1 ==>
              s'.ret[s.call[i]] == |TakenOf(s', s.call[i])|
  {
    RunsKept(m, es, s);
    RunsHist(m, es, s);
    RunsJustified(m, es, s);
    OwnReturn(s, e, i);
    if s.pc[i].Check? { CheckEnds(s, i, e.luck); } else { CopyEnds(s, i, e.luck); }
  }

  lemma Onward(m: nat, es: seq<Event>, s: State, e: Event, s': State)
    requires Runs(m, es, s) && Enabled(s, e) && s' == Apply(s, e)
    ensures Runs(m, es + [e], s')
  {
    var fs := es + [e];
    assert fs[..|fs| - 1] == es && fs[|fs| - 1] == e;
  }

  /** A writer that sleeps has bytes left. */
  predicate Laden(pc: Pc) { pc.WSleep? || pc.WReady? ==> pc.bytes != [] }

  lemma LadenWrite(s: State, i: nat, luck: Luck)
    requires Enabled(s, Step(i, luck)) && s.pc[i].Write? && forall j :: 0 <= j < |s.pc| ==> Laden(s.pc[j])
    ensures forall j :: 0 <= j < |StepWrite(s, i, luck).pc| ==> Laden(StepWrite(s, i, luck).pc[j])
  {
  }

  lemma LadenRead(s: State, i: nat, luck: Luck)
    requires Enabled(s, Step(i, luck)) && !s.pc[i].Write? && forall j :: 0 <= j < |s.pc| ==> Laden(s.pc[j])
    ensures forall j :: 0 <= j < |Apply(s, Step(i, luck)).pc| ==> Laden(Apply(s, Step(i, luck)).pc[j])
  {
    if s.pc[i].Copy? && !(s.pc[i].n == 0 || Empty(s)) {
      assert forall j :: 0 <= j < |s.pc| && j != i ==> Apply(s, Step(i, luck)).pc[j] == s.pc[j];
    }
  }

  lemma LadenElse(s: State, e: Event, s': State)
    requires Enabled(s, e) && s' == Apply(s, e) && !e.Step? && forall j :: 0 <= j < |s.pc| ==> Laden(s.pc[j])
    ensures forall j :: 0 <= j < |s'.pc| ==> Laden(s'.pc[j])
  {
    assert |s'.pc| == |s.pc|;
    forall j | 0 <= j < |s.pc| ensures Laden(s'.pc[j]) { assert Laden(s.pc[j]); }
  }

  lemma LadenStep(s: State, e: Event, s': State)
    requires Enabled(s, e) && s' == Apply(s, e) && forall j :: 0 <= j < |s.pc| ==> Laden(s.pc[j])
    ensures forall j :: 0 <= j < |s'.pc| ==> Laden(s'.pc[j])
  {
    if !e.Step? {
      LadenElse(s, e, s');
    } else if s.pc[e.i].Write? {
      LadenWrite(s, e.i, e.luck);
    } else {
      LadenRead(s, e.i, e.luck);
    }
  }

  lemma {:induction false} RunsLaden(m: nat, es: seq<Event>, s: State)
    requires Runs(m, es, s)
    ensures forall i :: 0 <= i < |s.pc| ==> Laden(s.pc[i])
    decreases |es|
  {
    assert UnfoldRuns(0);
    if es != [] {
      var (e, es0) := (es[|es| - 1], es[..|es| - 1]);
      var s0: State :| Runs(m, es0, s0) && Enabled(s0, e) && s == Apply(s0, e);
      RunsLaden(m, es0, s0);
      LadenStep(s0, e, s);
    }
  }

  /** In every run, a process that is killed while it sleeps in a call comes back from it as soon as it gets the lock,
      with -1; only a reader finds what has been put since before it looks. */
  lemma KillEnds(m: nat, es: seq<Event>, s: State, i: nat) returns (u: State)
    requires Runs(m, es, s) && s.lock == -1 && i < |s.pc| && (s.pc[i].WSleep? || s.pc[i].RSleep?)
    ensures Runs(m, es + [Kick(i)] + [Resume(i)] + [Step(i, Killed)], u) && |u.pc| == |s.pc| == |s.call|
    ensures u.sent == s.sent && u.got == s.got && u.call == s.call
    ensures s.pc[i].WSleep? || Empty(s) ==>
              u.pc[i].Out? && s.call[i] in u.ret && u.ret[s.call[i]] == -1
    ensures s.pc[i].RSleep? && !Empty(s) ==> u.pc[i] == Copy(s.pc[i].n, 0)
  {
    RunsHist(m, es, s);
    RunsLaden(m, es, s);
    assert Laden(s.pc[i]) && ThreadAt(s, i) by { assert UnfoldHist(0); }
    if s.pc[i].RSleep? { ReadersSleepOpen(m, es, s, i); }
    var s1 := Apply(s, Kick(i));
    Onward(m, es, s, Kick(i), s1);
    var s2 := Apply(s1, Resume(i));
    Onward(m, es + [Kick(i)], s1, Resume(i), s2);
    u := Apply(s2, Step(i, Killed));
    Onward(m, es + [Kick(i)] + [Resume(i)], s2, Step(i, Killed), u);
  }

  /** In every run, whoever has the lock can go on. */
  lemma HolderSteps(m: nat, es: seq<Event>, s: State, luck: Luck)
    requires Runs(m, es, s) && s.lock != -1
    ensures 0 <= s.lock < |s.pc| && Enabled(s, Step(s.lock, luck))
  {
    RunsHist(m, es, s);
    assert LockOk(s) && DataOk(s);
    assert ThreadAt(s, s.lock) by { assert UnfoldHist(0); }
  }
}
