/**
 What calls of pipewrite and piperead (kernel/pipe.c) come to, in every run of Pipe, when nobody else uses the
 pipe meanwhile: they go on until they return or have to sleep.
 */
module PipeAlone {
  import opened Blocks
  import opened Pipe
  import opened PipeCalls

  function Min(a: nat, b: nat): nat { if a < b then a else b }

  function Room(s: State): int { PIPESIZE - (|s.sent| - |s.got|) }

  predicate Own(fs: seq<Event>, i: nat) {
    forall k :: 0 <= k < |fs| ==> fs[k] == Step(i, Good)
  }

  // Writing.

  /** From s on, i has put as many of these bytes as there was room for, and has returned their number or sleeps. */
  predicate WriteOver(s: State, i: nat, bytes: seq<Byte>, u: State) {
    && i < |s.pc| == |s.call| && 0 <= Room(s) && |u.pc| == |s.pc|
    && var k := Min(|bytes|, Room(s));
    && u.sent == s.sent + bytes[..k] && u.got == s.got && u.lock == -1 && u.call == s.call && u.calls == s.calls
    && (forall j :: 0 <= j < |s.pc| && j != i ==> u.pc[j] == WakeReader(s.pc[j]))
    && u.pc[i] == (if k == |bytes| then Out else WSleep(bytes[k..]))
    && (k == |bytes| ==>
          var c := s.call[i];
          c < |s.calls| && s.calls[c].Writing? && c in u.ret && u.ret[c] == |s.calls[c].bytes|)
  }

  lemma CanGoOn(m: nat, es: seq<Event>, s: State, i: nat)
    requires Runs(m, es, s) && i < |s.pc| && HoldsLock(s.pc[i])
    ensures Enabled(s, Step(i, Good)) && s.lock == i && 0 <= Room(s) && (Full(s) <==> Room(s) == 0)
    ensures |s.got| <= |s.sent| && (Empty(s) <==> Room(s) == PIPESIZE)
  {
    RunsInv(m, es, s);
    assert LockOk(s);
    HolderSteps(m, es, s, Good);
    BytesInOrder(m, es, s);
  }

  lemma StopsWriting(s: State, i: nat, u: State)
    requires Enabled(s, Step(i, Good)) && s.pc[i].Write? && 0 <= Room(s) && s.readopen
    requires (Full(s) <==> Room(s) == 0) && u == StepWrite(s, i, Good) && (s.pc[i].bytes == [] || Full(s))
    ensures WriteOver(s, i, s.pc[i].bytes, u)
  {
    var bytes := s.pc[i].bytes;
    assert bytes[..0] == [] && bytes[0..] == bytes && s.sent + [] == s.sent;
  }

  lemma PutsOne(s: State, i: nat, t: State, u: State)
    requires Enabled(s, Step(i, Good)) && s.pc[i].Write? && s.pc[i].bytes != [] && Room(s) > 0
    requires t == Put(s, i, s.pc[i].bytes) && WriteOver(t, i, s.pc[i].bytes[1..], u)
    ensures WriteOver(s, i, s.pc[i].bytes, u)
  {
    var (bytes, k) := (s.pc[i].bytes, Min(|s.pc[i].bytes|, Room(s)));
    assert Room(t) == Room(s) - 1 && Min(|bytes[1..]|, Room(t)) == k - 1;
    assert bytes[..k] == [bytes[0]] + bytes[1..][..k - 1] && bytes[1..][k - 1..] == bytes[k..];
    assert t.sent + bytes[1..][..k - 1] == s.sent + bytes[..k];
  }

  lemma {:induction false} WriteRest(m: nat, es: seq<Event>, s: State, i: nat, bytes: seq<Byte>)
    returns (fs: seq<Event>, u: State)
    requires Runs(m, es, s) && i < |s.pc| && s.pc[i].Write? && s.pc[i].bytes == bytes && s.readopen
    ensures Own(fs, i) && Runs(m, es + fs, u) && WriteOver(s, i, bytes, u)
    decreases |bytes|
  {
    CanGoOn(m, es, s, i);
    var t := StepWrite(s, i, Good);
    Onward(m, es, s, Step(i, Good), t);
    if bytes == [] || Full(s) {
      fs, u := [Step(i, Good)], t;
      StopsWriting(s, i, u);
    } else {
      assert t == Put(s, i, bytes);
      var gs;
      gs, u := WriteRest(m, es + [Step(i, Good)], t, i, bytes[1..]);
      fs := [Step(i, Good)] + gs;
      assert es + [Step(i, Good)] + gs == es + fs;
      PutsOne(s, i, t, u);
    }
  }

  /** In every run, pipewrite left alone on a pipe with a reader puts as many bytes as there is room for, wakes the
      readers, and returns, with the number of bytes, if that is all; otherwise it sleeps. */
  lemma WriteAlone(m: nat, es: seq<Event>, s: State, i: nat, bytes: seq<Byte>) returns (fs: seq<Event>, u: State)
    requires Runs(m, es, s) && s.lock == -1 && i < |s.pc| && s.pc[i].Out? && s.readopen
    ensures Own(fs, i) && Runs(m, es + ([StartWrite(i, bytes)] + fs), u) && |s.call| == |s.pc|
    ensures WriteOver(Begin(s, i, Writing(bytes), Write(bytes, false)), i, bytes, u)
  {
    RunsInv(m, es, s);
    assert LockOk(s);
    var t := Begin(s, i, Writing(bytes), Write(bytes, false));
    var e := StartWrite(i, bytes);
    Onward(m, es, s, e, t);
    fs, u := WriteRest(m, es + [e], t, i, bytes);
    assert es + [e] + fs == es + ([e] + fs);
  }

  // Reading.

  /** From s on, i has taken n bytes, or all there were, has woken the writers and returned how many. */
  predicate ReadOver(s: State, i: nat, n: nat, k0: nat, u: State) {
    && i < |s.pc| == |s.call| && |s.got| <= |s.sent| && |u.pc| == |s.pc|
    && var k := Min(n, |Buffered(s)|);
    && u.got == s.got + Buffered(s)[..k] && u.sent == s.sent && u.lock == -1 && u.call == s.call
    && (forall j :: 0 <= j < |s.pc| && j != i ==> u.pc[j] == WakeWriter(s.pc[j]))
    && u.pc[i].Out? && s.call[i] in u.ret && u.ret[s.call[i]] == k0 + k
  }

  lemma StopsReading(s: State, i: nat, u: State)
    requires Enabled(s, Step(i, Good)) && s.pc[i].Copy? && |s.got| <= |s.sent| && (Empty(s) <==> Buffered(s) == [])
    requires u == StepCopy(s, i, Good) && (s.pc[i].n == 0 || Empty(s))
    ensures ReadOver(s, i, s.pc[i].n, s.pc[i].k, u)
  {
    assert Buffered(s)[..0] == [] && s.got + [] == s.got;
  }

  lemma TakesOne(s: State, i: nat, t: State, u: State)
    requires Enabled(s, Step(i, Good)) && s.pc[i].Copy? && s.pc[i].n > 0 && |s.got| < |s.sent|
    requires t == Get(s, i, s.pc[i].n - 1, s.pc[i].k + 1) && t.got <= t.sent
    requires ReadOver(t, i, s.pc[i].n - 1, s.pc[i].k + 1, u)
    ensures ReadOver(s, i, s.pc[i].n, s.pc[i].k, u)
  {
    var (b, k) := (Buffered(s), Min(s.pc[i].n, |Buffered(s)|));
    assert t.got[|s.got|] == s.sent[|s.got|] == b[0];
    assert Buffered(t) == b[1..] && b[..k] == [b[0]] + b[1..][..k - 1];
    assert t.got + Buffered(t)[..k - 1] == s.got + b[..k];
  }

  lemma {:induction false} ReadRest(m: nat, es: seq<Event>, s: State, i: nat, n: nat)
    returns (fs: seq<Event>, u: State)
    requires Runs(m, es, s) && i < |s.pc| && s.pc[i].Copy? && s.pc[i].n == n
    ensures Own(fs, i) && Runs(m, es + fs, u) && ReadOver(s, i, n, s.pc[i].k, u)
    decreases n
  {
    CanGoOn(m, es, s, i);
    var t := StepCopy(s, i, Good);
    Onward(m, es, s, Step(i, Good), t);
    if n == 0 || Empty(s) {
      fs, u := [Step(i, Good)], t;
      StopsReading(s, i, u);
    } else {
      BytesInOrder(m, es + [Step(i, Good)], t);
      assert t == Get(s, i, n - 1, s.pc[i].k + 1);
      var gs;
      gs, u := ReadRest(m, es + [Step(i, Good)], t, i, n - 1);
      fs := [Step(i, Good)] + gs;
      assert es + [Step(i, Good)] + gs == es + fs;
      TakesOne(s, i, t, u);
    }
  }

  /** In every run, piperead left alone goes to sleep if the pipe is empty and has a writer; otherwise it takes the next
      bytes, n of them or all there are, and returns how many. */
  lemma ReadAlone(m: nat, es: seq<Event>, s: State, i: nat, n: nat) returns (fs: seq<Event>, u: State)
    requires Runs(m, es, s) && s.lock == -1 && i < |s.pc| && s.pc[i].Out?
    ensures Own(fs, i) && Runs(m, es + ([StartRead(i, n)] + fs), u) && |s.call| == |s.pc|
    ensures var t := Begin(s, i, Reading(n), Check(n));
            if Empty(s) && s.writeopen then u == t.(pc := t.pc[i := RSleep(n)], lock := -1) else ReadOver(t, i, n, 0, u)
  {
    RunsInv(m, es, s);
    assert LockOk(s);
    var t := Begin(s, i, Reading(n), Check(n));
    var (e, e') := (StartRead(i, n), Step(i, Good));
    Onward(m, es, s, e, t);
    CanGoOn(m, es + [e], t, i);
    var v := StepCheck(t, i, Good);
    Onward(m, es + [e], t, e', v);
    if Empty(s) && s.writeopen {
      fs, u := [e'], v;
      assert es + [e] + [e'] == es + ([e] + fs);
    } else {
      assert v == t.(pc := t.pc[i := Copy(n, 0)]);
      var gs;
      gs, u := ReadRest(m, es + [e] + [e'], v, i, n);
      fs := [e'] + gs;
      assert es + [e] + [e'] + gs == es + ([e] + fs);
      assert ReadOver(v, i, n, 0, u) && Buffered(v) == Buffered(t);
    }
  }
}
