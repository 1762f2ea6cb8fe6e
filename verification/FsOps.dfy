/**
 Block allocation, block mapping, truncation, reading and writing of kernel/fs.c,
 and the chunked write of kernel/file.c.
 */
module FsOps {
  import opened Blocks
  import opened FsState
  import LogMachine
  import LogShared
  import LogSpace

  const BPB: nat := 8192
  const IPB: nat := 16

  // The predicates below have the form `forall u :: UnfoldP(u) ==> body`.  They mean `body`, but the
  // verifier looks inside P only in proofs that mention UnfoldP.
  predicate UnfoldSound(u: int) { true }
  predicate UnfoldSameFiles(u: int) { true }
  predicate UnfoldFillsHoles(u: int) { true }
  predicate UnfoldWrote(u: int) { true }
  predicate UnfoldProgress(u: int) { true }
  predicate UnfoldInStep(u: int) { true }
  predicate UnfoldSpliced(u: int) { true }
  predicate UnfoldHoleFree(u: int) { true }
  predicate UnfoldCovers(u: int) { true }
  predicate UnfoldReads(u: int) { true }
  predicate UnfoldOthersSame(u: int) { true }

  /** The invariant of FsState, kept folded. */
  ghost predicate Sound(fs: FS, owner: map<nat, Slot>) {
    forall u {:trigger UnfoldSound(u)} :: UnfoldSound(u) ==> Inv(fs, owner)
  }

  /** No file changes size or contents. */
  ghost predicate SameFiles(fs: FS, fs': FS) {
    && Wf(fs) && Wf(fs') && |fs'.ino| == |fs.ino|
    && forall u {:trigger UnfoldSameFiles(u)} :: UnfoldSameFiles(u) ==>
      && (forall i :: 0 <= i < |fs.ino| ==> fs'.ino[i].size == fs.ino[i].size)
      && (forall i, off :: 0 <= i < |fs.ino| && 0 <= off < MAXFILE * BSIZE ==>
         ByteAt(fs', i, off) == ByteAt(fs, i, off))
  }

  /** Only empty slots of inode i are filled. */
  ghost predicate FillsHoles(fs: FS, fs': FS, i: nat) {
    && Wf(fs) && Wf(fs') && |fs'.ino| == |fs.ino| && |fs'.bit| == |fs.bit|
    && forall u {:trigger UnfoldFillsHoles(u)} :: UnfoldFillsHoles(u) ==>
      && (forall i', k :: 0 <= i' < |fs.ino| && 0 <= k < NSLOTS && (i' != i || Ptr(fs, i', k) != 0)
            ==> Ptr(fs', i', k) == Ptr(fs, i', k))
  }

  lemma FillEffect(fs: FS, owner: map<nat, Slot>, i: nat, k: nat, r: nat)
    requires Wf(fs) && Sound(fs, owner) && CanFill(fs, i, k, r) && !fs.bit[r] && Ptr(fs, i, k) == 0
    ensures var fs' := Filled(fs, i, k, r);
            Sound(fs', owner[r := Slot(i, k)]) && SameFiles(fs, fs') && FillsHoles(fs, fs', i) && Ptr(fs', i, k) == r
  {
    assert UnfoldSound(0);
    var fs' := Filled(fs, i, k, r);
    FillInv(fs, owner, i, k, r);
    FillPtr(fs, owner, i, k, r, i, k);
    forall i', k' | 0 <= i' < |fs.ino| && 0 <= k' < NSLOTS && (i' != i || Ptr(fs, i', k') != 0)
      ensures Ptr(fs', i', k') == Ptr(fs, i', k')
    {
      FillPtr(fs, owner, i, k, r, i', k');
    }
    forall i', off | 0 <= i' < |fs.ino| && 0 <= off < MAXFILE * BSIZE
      ensures ByteAt(fs', i', off) == ByteAt(fs, i', off)
    {
      FillBytes(fs, owner, i, k, r, i', off);
    }
  }

  lemma SameFilesTransitive(a: FS, b: FS, c: FS)
    requires SameFiles(a, b) && SameFiles(b, c)
    ensures SameFiles(a, c)
  {
    assert UnfoldSameFiles(0);
  }

  lemma FillsHolesTransitive(a: FS, b: FS, c: FS, i: nat)
    requires FillsHoles(a, b, i) && FillsHoles(b, c, i)
    ensures FillsHoles(a, c, i)
  {
  }

  lemma FilledStays(fs: FS, fs': FS, i: nat, i': nat, k: nat)
    requires FillsHoles(fs, fs', i) && i' < |fs.ino| && k < NSLOTS && (i' != i || Ptr(fs, i', k) != 0)
    ensures Ptr(fs', i', k) == Ptr(fs, i', k)
  {
    assert UnfoldFillsHoles(0);
  }

  /** Bitmap blocks that cover the given blocks. */
  function BitmapBlocks(bmapstart: nat, a: set<nat>): set<nat> {
    set r | r in a :: r / BPB + bmapstart
  }

  /** log_write was called only for the bitmap blocks of `a` and for `extra`. */
  predicate LogsOnly(before: set<nat>, after: set<nat>, bmapstart: nat, a: set<nat>, extra: set<nat>) {
    true == (after <= before + BitmapBlocks(bmapstart, a) + (extra - {0}))
  }

  lemma AllocLogs(before: set<nat>, bmapstart: nat, addr: nat, ib: nat)
    requires addr != 0 && ib != 0
    ensures LogsOnly(before, before + {addr / BPB + bmapstart, addr} + {ib}, bmapstart, {addr}, {addr, ib})
  {
    assert addr / BPB + bmapstart in BitmapBlocks(bmapstart, {addr});
  }

  lemma LogsNothing(before: set<nat>, bmapstart: nat, extra: set<nat>)
    ensures LogsOnly(before, before, bmapstart, {}, extra)
  {
  }

  lemma LogsOne(before: set<nat>, after: set<nat>, bmapstart: nat, a: set<nat>, extra: set<nat>, x: nat)
    requires LogsOnly(before, after, bmapstart, a, extra) && x in extra && x != 0
    ensures LogsOnly(before, after + {x}, bmapstart, a, extra)
  {
  }

  lemma LogsOnlyTransitive(l0: set<nat>, l1: set<nat>, l2: set<nat>, bmapstart: nat, a: set<nat>, a': set<nat>,
                           extra: set<nat>)
    requires LogsOnly(l0, l1, bmapstart, a, extra) && LogsOnly(l1, l2, bmapstart, a', extra)
    ensures LogsOnly(l0, l2, bmapstart, a + a', extra)
  {
    assert BitmapBlocks(bmapstart, a + a') == BitmapBlocks(bmapstart, a) + BitmapBlocks(bmapstart, a');
  }

  /** What has changed outside inode i has been passed to log_write: blocks, and bitmap bits by their bitmap blocks. */
  ghost predicate Covers(fs: FS, fs': FS, i: nat, l0: set<nat>, l: set<nat>, bmapstart: nat) {
    && l0 <= l && |fs'.blk| == |fs.blk| && |fs'.bit| == |fs.bit| && |fs'.ino| == |fs.ino|
    && forall u {:trigger UnfoldCovers(u)} :: UnfoldCovers(u) ==>
      && (forall b :: 0 <= b < |fs.blk| && fs'.blk[b] != fs.blk[b] ==> b in l)
      && (forall b :: 0 <= b < |fs.bit| && fs'.bit[b] != fs.bit[b] ==> b / BPB + bmapstart in l)
      && (forall x :: 0 <= x < |fs.ino| && x != i ==> fs'.ino[x] == fs.ino[x])
  }

  /** And so have inodes, by their blocks: everything that has changed is in the transaction. */
  ghost predicate AllLogged(fs: FS, fs': FS, l0: set<nat>, l: set<nat>, bmapstart: nat, inodestart: nat) {
    && l0 <= l && |fs'.blk| == |fs.blk| && |fs'.bit| == |fs.bit| && |fs'.ino| == |fs.ino|
    && (forall b :: 0 <= b < |fs.blk| && fs'.blk[b] != fs.blk[b] ==> b in l)
    && (forall b :: 0 <= b < |fs.bit| && fs'.bit[b] != fs.bit[b] ==> b / BPB + bmapstart in l)
    && (forall x :: 0 <= x < |fs.ino| && fs'.ino[x] != fs.ino[x] ==> x / IPB + inodestart in l)
  }

  lemma CoversNothing(fs: FS, i: nat, l: set<nat>, bmapstart: nat)
    ensures Covers(fs, fs, i, l, l, bmapstart)
  {
  }

  lemma CoversMore(a: FS, b: FS, c: FS, i: nat, l0: set<nat>, l1: set<nat>, l2: set<nat>, bmapstart: nat)
    requires Covers(a, b, i, l0, l1, bmapstart) && Covers(b, c, i, l1, l2, bmapstart)
    ensures Covers(a, c, i, l0, l2, bmapstart)
  {
    assert UnfoldCovers(0);
  }

  lemma AllocCovers(fs: FS, r: nat, i: nat, l: set<nat>, bmapstart: nat)
    requires Wf(fs) && r < |fs.bit|
    ensures Covers(fs, Allocated(fs, r), i, l, l + {r / BPB + bmapstart, r}, bmapstart)
  {
  }

  lemma InodeCovers(fs: FS, i: nat, x: Inode, l: set<nat>, bmapstart: nat)
    requires i < |fs.ino|
    ensures Covers(fs, fs.(ino := fs.ino[i := x]), i, l, l, bmapstart)
  {
  }

  lemma BlockCovers(fs: FS, b: nat, data: Block, i: nat, l: set<nat>, bmapstart: nat)
    requires b < |fs.blk|
    ensures Covers(fs, fs.(blk := fs.blk[b := data]), i, l, l + {b}, bmapstart)
  {
  }

  lemma BitCovers(fs: FS, b: nat, i: nat, l: set<nat>, bmapstart: nat)
    requires b < |fs.bit|
    ensures Covers(fs, fs.(bit := fs.bit[b := false]), i, l, l + {b / BPB + bmapstart}, bmapstart)
  {
  }

  /** The inode itself is logged last. */
  lemma CoversAll(fs: FS, fs': FS, i: nat, x: Inode, l0: set<nat>, l: set<nat>, bmapstart: nat, inodestart: nat)
    requires Covers(fs, fs', i, l0, l, bmapstart) && i < |fs'.ino|
    ensures AllLogged(fs, fs'.(ino := fs'.ino[i := x]), l0, l + {i / IPB + inodestart}, bmapstart, inodestart)
  {
    assert UnfoldCovers(0);
  }

  /** Blocks of a disk of size blocks, one for a hole and one for a missing indirect block. */
  ghost predicate AllocsAtMost(size: nat, a: set<nat>, hole: bool, noIndirect: bool) {
    true == (|a| <= (if hole then 1 else 0) + (if noIndirect then 1 else 0) && forall r :: r in a ==> r < size)
  }

  lemma PtrInRange(fs: FS, owner: map<nat, Slot>, i: nat, k: nat)
    requires Wf(fs) && Sound(fs, owner) && i < |fs.ino| && k < NSLOTS && Ptr(fs, i, k) != 0
    ensures Ptr(fs, i, k) < |fs.blk| && fs.bit[Ptr(fs, i, k)]
  {
    assert UnfoldSound(0);
  }

  lemma MetadataMarked(fs: FS, owner: map<nat, Slot>)
    requires Wf(fs) && Sound(fs, owner)
    ensures forall b :: 0 <= b < fs.nmeta ==> fs.bit[b]
  {
    assert UnfoldSound(0);
  }

  /** Exactly the bytes off .. off+|data| of inode i change, to data. */
  ghost predicate Wrote(fs: FS, fs': FS, i: nat, off: nat, data: seq<Byte>) {
    && Wf(fs) && Wf(fs') && |fs'.ino| == |fs.ino|
    && forall u {:trigger UnfoldWrote(u)} :: UnfoldWrote(u) ==>
      && (forall i' :: 0 <= i' < |fs.ino| ==> fs'.ino[i'].size == fs.ino[i'].size)
      && (forall i', x :: 0 <= i' < |fs.ino| && 0 <= x < MAXFILE * BSIZE ==>
            ByteAt(fs', i', x) == if i' == i && off <= x < off + |data| then data[x - off] else ByteAt(fs, i', x))
  }

  lemma BlockRange(bn: nat, q: nat, m: nat, x: nat)
    requires q + m <= BSIZE
    ensures bn * BSIZE + q <= x < bn * BSIZE + q + m <==> x / BSIZE == bn && q <= x % BSIZE < q + m
    ensures x / BSIZE == bn ==> x == bn * BSIZE + x % BSIZE
  {
  }

  lemma SlotInjective(bn: nat, bn': nat)
    requires bn < MAXFILE && bn' < MAXFILE && SlotOf(bn) == SlotOf(bn')
    ensures bn == bn'
  {
  }

  lemma StoreByte(fs: FS, owner: map<nat, Slot>, i: nat, bn: nat, q: nat, data: seq<Byte>, i': nat, x: nat)
    requires Inv(fs, owner) && i < |fs.ino| && i' < |fs.ino| && bn < MAXFILE && q + |data| <= BSIZE
    requires x < MAXFILE * BSIZE
    requires 0 < Ptr(fs, i, SlotOf(bn)) < |fs.blk|
    ensures var p := Ptr(fs, i, SlotOf(bn));
            ByteAt(SetBlock(fs, p, Patch(fs.blk[p], q, data)), i', x)
            == if i' == i && bn * BSIZE + q <= x < bn * BSIZE + q + |data|
               then data[x - (bn * BSIZE + q)]
               else ByteAt(fs, i', x)
  {
    var p := Ptr(fs, i, SlotOf(bn));
    assert owner[p] == Slot(i, SlotOf(bn));
    SetBlockBytes(fs, owner, p, Patch(fs.blk[p], q, data), i', x);
    BlockRange(bn, q, |data|, x);
    if SlotOf(x / BSIZE) == SlotOf(bn) { SlotInjective(x / BSIZE, bn); }
  }

  lemma StoreEffect(fs: FS, owner: map<nat, Slot>, i: nat, bn: nat, q: nat, data: seq<Byte>)
    requires Wf(fs) && Sound(fs, owner) && i < |fs.ino| && bn < MAXFILE && q + |data| <= BSIZE
    requires 0 < Ptr(fs, i, SlotOf(bn)) < |fs.blk|
    ensures var p := Ptr(fs, i, SlotOf(bn));
            var fs' := SetBlock(fs, p, Patch(fs.blk[p], q, data));
            Sound(fs', owner) && Wrote(fs, fs', i, bn * BSIZE + q, data) && FillsHoles(fs, fs', i)
            && Ptr(fs', i, SlotOf(bn)) == p && Ptr(fs', i, NDIRECT) == Ptr(fs, i, NDIRECT)
  {
    assert UnfoldSound(0);
    var p := Ptr(fs, i, SlotOf(bn));
    var fs' := SetBlock(fs, p, Patch(fs.blk[p], q, data));
    assert owner[p] == Slot(i, SlotOf(bn));
    SetBlockInv(fs, owner, p, Patch(fs.blk[p], q, data));
    forall i', x | 0 <= i' < |fs.ino| && 0 <= x < MAXFILE * BSIZE
      ensures ByteAt(fs', i', x) == if i' == i && bn * BSIZE + q <= x < bn * BSIZE + q + |data|
                                    then data[x - (bn * BSIZE + q)] else ByteAt(fs, i', x)
    {
      StoreByte(fs, owner, i, bn, q, data, i', x);
    }
  }

  lemma WroteAfterSame(a: FS, b: FS, c: FS, i: nat, off: nat, data: seq<Byte>)
    requires SameFiles(a, b) && Wrote(b, c, i, off, data)
    ensures Wrote(a, c, i, off, data)
  {
    assert UnfoldSameFiles(0);
  }

  lemma WroteNothing(fs: FS, fs': FS, i: nat, off: nat)
    requires SameFiles(fs, fs')
    ensures Wrote(fs, fs', i, off, [])
  {
    assert UnfoldSameFiles(0);
  }

  lemma SameFilesReflexive(fs: FS)
    requires Wf(fs)
    ensures SameFiles(fs, fs)
  {
  }

  lemma FillsHolesReflexive(fs: FS, i: nat)
    requires Wf(fs)
    ensures FillsHoles(fs, fs, i)
  {
  }

  lemma WroteTransitive(a: FS, b: FS, c: FS, i: nat, off: nat, d: seq<Byte>, e: seq<Byte>)
    requires Wrote(a, b, i, off, d) && Wrote(b, c, i, off + |d|, e)
    ensures Wrote(a, c, i, off, d + e)
  {
  }

  /** What a run of writei's loop has done: t file blocks touched, h of them empty before,
      a the blocks allocated and d the data blocks logged. */
  datatype Tally = Tally(t: nat, h: nat, a: set<nat>, d: set<nat>)

  ghost predicate Counted(fs0: FS, fs: FS, i: nat, off: nat, y: Tally)
    requires Wf(fs0) && Wf(fs) && i < |fs0.ino| && i < |fs.ino| && off < MAXFILE * BSIZE
  {
    true == (
      && |y.d| <= y.t && y.h <= y.t && (forall r :: r in y.a ==> r < |fs0.bit|)
      && (y.t > 0 && Ptr(fs0, i, SlotOf(off / BSIZE)) != 0 ==> y.h <= y.t - 1)
      && |y.a| + (if Ptr(fs, i, NDIRECT) == 0 then 1 else 0) <= y.h + if Ptr(fs0, i, NDIRECT) == 0 then 1 else 0)
  }

  lemma CountOne(fs0: FS, fs1: FS, fs2: FS, i: nat, off: nat, bn: nat, addr: nat, a: set<nat>, y: Tally)
    returns (y': Tally)
    requires FillsHoles(fs0, fs1, i) && FillsHoles(fs1, fs2, i) && i < |fs0.ino| && off < MAXFILE * BSIZE
    requires bn < MAXFILE
    requires Counted(fs0, fs1, i, off, y) && bn == off / BSIZE + y.t
    requires AllocsAtMost(|fs1.bit|, a, Ptr(fs1, i, SlotOf(bn)) == 0, Ptr(fs1, i, NDIRECT) == 0 != Ptr(fs2, i, NDIRECT))
    ensures y'.t == y.t + 1 && y'.a == y.a + a && y'.d == y.d + if addr == 0 then {} else {addr}
    ensures Counted(fs0, fs2, i, off, y')
  {
    var hole := Ptr(fs0, i, SlotOf(bn)) == 0;
    if !hole { FilledStays(fs0, fs1, i, i, SlotOf(bn)); }
    if Ptr(fs1, i, NDIRECT) != 0 { FilledStays(fs1, fs2, i, i, NDIRECT); }
    y' := Tally(y.t + 1, y.h + (if hole then 1 else 0), y.a + a, y.d + if addr == 0 then {} else {addr});
    assert |y.a + a| <= |y.a| + |a|;
  }

  /** Every file block that overlaps the bytes off .. off+n is mapped. */
  ghost predicate Mapped(fs: FS, i: nat, off: nat, n: nat)
    requires Wf(fs) && i < |fs.ino|
  {
    n > 0 ==> forall bn :: off / BSIZE <= bn < MAXFILE && bn * BSIZE < off + n ==> Ptr(fs, i, SlotOf(bn)) != 0
  }

  /** None of the bytes off .. off+n that the file has lies in a hole. */
  ghost predicate NoHoleIn(fs: FS, i: nat, off: nat, n: nat)
    requires Wf(fs) && i < |fs.ino|
  {
    forall x :: off <= x < off + n && x < fs.ino[i].size ==> Ptr(fs, i, SlotOf(x / BSIZE)) != 0
  }

  lemma MappedBytes(fs: FS, i: nat, off: nat, n: nat, n': nat)
    requires Wf(fs) && i < |fs.ino| && off <= fs.ino[i].size
    requires n' == if off + n > fs.ino[i].size then fs.ino[i].size - off else n
    ensures Mapped(fs, i, off, n') <==> NoHoleIn(fs, i, off, n)
  {
    if NoHoleIn(fs, i, off, n) && n' > 0 {
      forall bn | off / BSIZE <= bn < MAXFILE && bn * BSIZE < off + n' ensures Ptr(fs, i, SlotOf(bn)) != 0 {
        var x := if bn * BSIZE < off then off else bn * BSIZE;
        assert x / BSIZE == bn;
        assert off <= x < off + n' && x < fs.ino[i].size;
      }
    }
  }

  lemma MappedStep(fs1: FS, fs2: FS, i: nat, off: nat, n: nat, bn: nat, q: nat, m: nat)
    requires FillsHoles(fs1, fs2, i) && i < |fs1.ino| && Mapped(fs1, i, off, n)
    requires bn < MAXFILE && bn * BSIZE + q == off + n && q + m <= BSIZE && (m > 0 ==> Ptr(fs2, i, SlotOf(bn)) != 0)
    ensures Mapped(fs2, i, off, n + m)
  {
    forall bn' | n + m > 0 && off / BSIZE <= bn' < MAXFILE && bn' * BSIZE < off + n + m
      ensures Ptr(fs2, i, SlotOf(bn')) != 0
    {
      if n > 0 && bn' * BSIZE < off + n {
        FilledStays(fs1, fs2, i, i, SlotOf(bn'));
      } else {
        assert bn' == bn;
      }
    }
  }

  lemma MappedMore(fs: FS, i: nat, off: nat, d: nat, bn: nat, q: nat, m: nat, n: nat)
    requires Wf(fs) && i < |fs.ino| && bn < MAXFILE && bn * BSIZE + q == off + d && q < BSIZE
    requires 0 < m && q + m <= BSIZE && d + m <= n
    ensures Mapped(fs, i, off, d) && Ptr(fs, i, SlotOf(bn)) != 0 ==> Mapped(fs, i, off, d + m)
    ensures Mapped(fs, i, off, d + m) ==> Mapped(fs, i, off, d)
    ensures Mapped(fs, i, off, n) ==> Mapped(fs, i, off, d) && Ptr(fs, i, SlotOf(bn)) != 0
  {
    if Mapped(fs, i, off, d) && Ptr(fs, i, SlotOf(bn)) != 0 {
      FillsHolesReflexive(fs, i);
      MappedStep(fs, fs, i, off, d, bn, q, m);
    }
    assert off / BSIZE <= bn;
  }

  predicate UnfoldLoggedIff(u: int) { true }

  /** After reading d bytes: nothing has been logged and nothing changed, unless a hole was met on a disk that was
      not full. */
  ghost predicate LoggedIff(fs0: FS, fs: FS, i: nat, off: nat, d: nat, full: bool, l0: set<nat>, l: set<nat>)
    requires Wf(fs0) && i < |fs0.ino|
  {
    forall u {:trigger UnfoldLoggedIff(u)} :: UnfoldLoggedIff(u) ==>
      LogsIff(fs0, i, off, d, full, l0, l) && (Mapped(fs0, i, off, d) || full ==> fs == fs0)
  }

  ghost predicate LogsIff(fs0: FS, i: nat, off: nat, d: nat, full: bool, l0: set<nat>, l: set<nat>)
    requires Wf(fs0) && i < |fs0.ino|
  {
    true == if Mapped(fs0, i, off, d) || full then l == l0 else l != {}
  }

  /** One more block has been read, or the reading stops at it. */
  lemma LoggedNext(fs0: FS, fs1: FS, fs2: FS, i: nat, off: nat, d: nat, bn: nat, q: nat, m: nat, n: nat,
                   full: bool, full1: bool, l0: set<nat>, l1: set<nat>, l2: set<nat>)
    requires Wf(fs0) && i < |fs0.ino| && Wf(fs1) && i < |fs1.ino|
    requires bn < MAXFILE && bn * BSIZE + q == off + d && q < BSIZE
    requires 0 < m && q + m <= BSIZE && d + m <= n && (fs1 == fs0 ==> full1 == full)
    requires LoggedIff(fs0, fs1, i, off, d, full, l0, l1)
    requires l1 <= l2 && (Ptr(fs1, i, SlotOf(bn)) == 0 && !full1 ==> l2 != {})
    requires Ptr(fs1, i, SlotOf(bn)) != 0 || full1 ==> fs2 == fs1 && l2 == l1
    ensures LoggedIff(fs0, fs2, i, off, d + m, full, l0, l2)
    ensures Ptr(fs1, i, SlotOf(bn)) == 0 ==> LoggedIff(fs0, fs2, i, off, n, full, l0, l2)
  {
    assert UnfoldLoggedIff(0);
    MappedMore(fs0, i, off, d, bn, q, m, n);
  }

  /** Everything writei's loop has done so far: `data` is written at off, log_write has been called
      only for what the tally allows. */
  ghost predicate Progress(fs0: FS, fs: FS, i: nat, off: nat, data: seq<Byte>, l0: set<nat>, l: set<nat>,
                           bmapstart: nat, y: Tally) {
    true == (
      && Wf(fs0) && Wf(fs) && i < |fs0.ino| == |fs.ino| && off < MAXFILE * BSIZE
      && forall u {:trigger UnfoldProgress(u)} :: UnfoldProgress(u) ==>
        && Wrote(fs0, fs, i, off, data) && FillsHoles(fs0, fs, i)
        && Counted(fs0, fs, i, off, y) && Mapped(fs, i, off, |data|)
        && LogsOnly(l0, l, bmapstart, y.a, y.d + {Ptr(fs, i, NDIRECT)}) && Covers(fs0, fs, i, l0, l, bmapstart))
  }

  lemma ProgressStart(fs: FS, i: nat, off: nat, l: set<nat>, bmapstart: nat)
    requires Wf(fs) && i < |fs.ino| && off < MAXFILE * BSIZE
    ensures Progress(fs, fs, i, off, [], l, l, bmapstart, Tally(0, 0, {}, {}))
  {
    SameFilesReflexive(fs);
    WroteNothing(fs, fs, i, off);
    FillsHolesReflexive(fs, i);
    LogsNothing(l, bmapstart, {} + {Ptr(fs, i, NDIRECT)});
    CoversNothing(fs, i, l, bmapstart);
  }

  lemma LogStep(l0: set<nat>, l1: set<nat>, l2: set<nat>, bmapstart: nat, y: Tally, a: set<nat>,
                addr: nat, ib1: nat, ib2: nat)
    requires LogsOnly(l0, l1, bmapstart, y.a, y.d + {ib1}) && LogsOnly(l1, l2, bmapstart, a, {addr, ib2})
    requires ib1 == 0 || ib1 == ib2
    ensures LogsOnly(l0, l2, bmapstart, y.a + a, y.d + (if addr == 0 then {} else {addr}) + {ib2})
  {
    var extra := y.d + (if addr == 0 then {} else {addr}) + {ib2};
    assert LogsOnly(l0, l1, bmapstart, y.a, extra);
    assert LogsOnly(l1, l2, bmapstart, a, extra);
    LogsOnlyTransitive(l0, l1, l2, bmapstart, y.a, a, extra);
  }

  lemma ProgressStep(fs0: FS, fs1: FS, fs2: FS, i: nat, off: nat, d1: seq<Byte>, d2: seq<Byte>,
                     l0: set<nat>, l1: set<nat>, l2: set<nat>, bmapstart: nat, y: Tally,
                     bn: nat, addr: nat, a: set<nat>)
    returns (y': Tally)
    requires Progress(fs0, fs1, i, off, d1, l0, l1, bmapstart, y) && bn < MAXFILE && bn == off / BSIZE + y.t
    requires bn * BSIZE <= off + |d1| && off + |d1| + |d2| <= (bn + 1) * BSIZE
    requires FillsHoles(fs1, fs2, i) && Wrote(fs1, fs2, i, off + |d1|, d2)
    requires (d2 != [] ==> Ptr(fs2, i, SlotOf(bn)) != 0)
    requires AllocsAtMost(|fs1.bit|, a, Ptr(fs1, i, SlotOf(bn)) == 0, Ptr(fs1, i, NDIRECT) == 0 != Ptr(fs2, i, NDIRECT))
    requires LogsOnly(l1, l2, bmapstart, a, {addr, Ptr(fs2, i, NDIRECT)}) && Covers(fs1, fs2, i, l1, l2, bmapstart)
    ensures Progress(fs0, fs2, i, off, d1 + d2, l0, l2, bmapstart, y') && y'.t == y.t + 1
  {
    assert UnfoldProgress(0);
    WroteTransitive(fs0, fs1, fs2, i, off, d1, d2);
    FillsHolesTransitive(fs0, fs1, fs2, i);
    MappedStep(fs1, fs2, i, off, |d1|, bn, off + |d1| - bn * BSIZE, |d2|);
    if Ptr(fs1, i, NDIRECT) != 0 { FilledStays(fs1, fs2, i, i, NDIRECT); }
    y' := CountOne(fs0, fs1, fs2, i, off, bn, addr, a, y);
    LogStep(l0, l1, l2, bmapstart, y, a, addr, Ptr(fs1, i, NDIRECT), Ptr(fs2, i, NDIRECT));
    CoversMore(fs0, fs1, fs2, i, l0, l1, l2, bmapstart);
  }

  /** The loop's arithmetic: the next byte of an n-byte write at off lies in the block after the t already
      touched, and t is at most what an n-byte range at off can touch. */
  ghost predicate InStep(off: nat, tot: nat, n: nat, t: nat) {
    forall u {:trigger UnfoldInStep(u)} :: UnfoldInStep(u) ==>
      (tot < n ==> (off + tot) / BSIZE == off / BSIZE + t) && t * BSIZE <= off % BSIZE + n + BSIZE - 1
  }

  lemma NextBlock(off: nat, tot: nat, n: nat, t: nat, bn: nat, q: nat, m: nat)
    requires tot < n && InStep(off, tot, n, t) && off + n <= MAXFILE * BSIZE
    requires bn == (off + tot) / BSIZE && q == (off + tot) % BSIZE
    requires m == if n - tot < BSIZE - q then n - tot else BSIZE - q
    ensures bn == off / BSIZE + t && bn < MAXFILE && bn * BSIZE + q == off + tot && 0 < m && q + m <= BSIZE
    ensures tot + m <= n
    ensures InStep(off, tot + m, n, t + 1) && InStep(off, n, n, t + 1)
  {
    assert UnfoldInStep(0);
  }

  /** The byte sequence c with d written over it at off, growing it if d reaches past the end. */
  function Splice(c: seq<Byte>, off: nat, d: seq<Byte>): (r: seq<Byte>)
    requires off <= |c|
    ensures |r| == if off + |d| > |c| then off + |d| else |c|
    ensures forall x :: 0 <= x < |r| ==> r[x] == if off <= x < off + |d| then d[x - off] else c[x]
  {
    c[..off] + d + if off + |d| <= |c| then c[off + |d|..] else []
  }

  function SetSize(fs: FS, i: nat, size: nat): (fs': FS)
    requires Wf(fs) && i < |fs.ino| && size <= MAXFILE * BSIZE
    ensures Wf(fs')
  {
    fs.(ino := fs.ino[i := fs.ino[i].(size := size)])
  }

  lemma SetSizePtr(fs: FS, i: nat, size: nat, i': nat, k: nat)
    requires Wf(fs) && i < |fs.ino| && size <= MAXFILE * BSIZE && i' < |fs.ino| && k < NSLOTS
    ensures Ptr(SetSize(fs, i, size), i', k) == Ptr(fs, i', k)
  {
  }

  lemma SetSizeSound(fs: FS, owner: map<nat, Slot>, i: nat, size: nat)
    requires Wf(fs) && Sound(fs, owner) && i < |fs.ino| && size <= MAXFILE * BSIZE
    ensures Sound(SetSize(fs, i, size), owner)
  {
    assert UnfoldSound(0);
    var fs' := SetSize(fs, i, size);
    forall i', k | 0 <= i' < |fs.ino| && 0 <= k < NSLOTS
      ensures Ptr(fs', i', k) == Ptr(fs, i', k)
    {
      SetSizePtr(fs, i, size, i', k);
    }
    assert PointersOwned(fs', owner);
    assert OwnersPoint(fs', owner);
  }

  lemma SetSizeByte(fs: FS, i: nat, size: nat, i': nat, x: nat)
    requires Wf(fs) && i < |fs.ino| && size <= MAXFILE * BSIZE && i' < |fs.ino| && x < MAXFILE * BSIZE
    ensures ByteAt(SetSize(fs, i, size), i', x) == ByteAt(fs, i', x)
  {
    SetSizePtr(fs, i, size, i', SlotOf(x / BSIZE));
  }

  /** Writing d at off and raising the size splices d into the file and leaves all other files alone. */
  lemma SplicedContents(fs0: FS, fs1: FS, i: nat, off: nat, d: seq<Byte>)
    requires Wrote(fs0, fs1, i, off, d) && i < |fs0.ino| && off <= fs0.ino[i].size && off + |d| <= MAXFILE * BSIZE
    ensures fs1.ino[i].size == fs0.ino[i].size
    ensures var fs2 := SetSize(fs1, i, if off + |d| > fs0.ino[i].size then off + |d| else fs0.ino[i].size);
            && Contents(fs2, i) == Splice(Contents(fs0, i), off, d)
            && forall i' :: 0 <= i' < |fs0.ino| && i' != i ==> Contents(fs2, i') == Contents(fs0, i')
  {
    assert UnfoldWrote(0);
    var size := if off + |d| > fs0.ino[i].size then off + |d| else fs0.ino[i].size;
    var fs2 := SetSize(fs1, i, size);
    forall x | 0 <= x < size
      ensures Contents(fs2, i)[x] == Splice(Contents(fs0, i), off, d)[x]
    {
      SetSizeByte(fs1, i, size, i, x);
    }
    forall i' | 0 <= i' < |fs0.ino| && i' != i
      ensures Contents(fs2, i') == Contents(fs0, i')
    {
      forall x | 0 <= x < fs0.ino[i'].size
        ensures Contents(fs2, i')[x] == Contents(fs0, i')[x]
      {
        SetSizeByte(fs1, i, size, i', x);
      }
    }
  }

  /** Every block below the end of the file is mapped. */
  ghost predicate HoleFree(fs: FS, i: nat)
    requires Wf(fs) && i < |fs.ino|
  {
    forall u {:trigger UnfoldHoleFree(u)} :: UnfoldHoleFree(u) ==>
      forall bn :: 0 <= bn < MAXFILE && bn * BSIZE < fs.ino[i].size ==> Ptr(fs, i, SlotOf(bn)) != 0
  }

  lemma HoleFreeStays(fs0: FS, fs1: FS, i: nat, off: nat, n: nat, size: nat)
    requires HoleFreeArgs(fs0, fs1, i) && HoleFree(fs0, i) && off <= fs0.ino[i].size && FillsHoles(fs0, fs1, i)
    requires Mapped(fs1, i, off, n)
    requires size == (if off + n > fs0.ino[i].size then off + n else fs0.ino[i].size) <= MAXFILE * BSIZE
    ensures HoleFree(SetSize(fs1, i, size), i)
  {
    assert UnfoldHoleFree(0);
    var fs2 := SetSize(fs1, i, size);
    forall bn | 0 <= bn < MAXFILE && bn * BSIZE < size
      ensures Ptr(fs2, i, SlotOf(bn)) != 0
    {
      SetSizePtr(fs1, i, size, i, SlotOf(bn));
      if bn * BSIZE < fs0.ino[i].size {
        FilledStays(fs0, fs1, i, i, SlotOf(bn));
      }
    }
  }

  predicate HoleFreeArgs(fs0: FS, fs1: FS, i: nat) {
    Wf(fs0) && Wf(fs1) && i < |fs0.ino| && i < |fs1.ino|
  }

  /** The log_write calls of one writei of n bytes at off, where `mapped` says that the first block was
      mapped before: bitmap blocks for the allocated blocks, the data blocks, the indirect and the inode block. */
  ghost predicate Accounted(size: nat, l0: set<nat>, l: set<nat>, bmapstart: nat, off: nat, n: nat,
                            mapped: bool, y: Tally, ib: nat, iblock: nat)
  {
    true == (
      && (forall r :: r in y.a ==> r < size)
      && LogsOnly(l0, l, bmapstart, y.a, y.d + {ib} + {iblock})
      && |y.d| <= y.t && y.h <= y.t && |y.a| <= y.h + 1
      && (mapped && y.t > 0 ==> y.h <= y.t - 1)
      && InStep(off, n, n, y.t))
  }

  lemma AccountUpdate(fs0: FS, fs: FS, i: nat, off: nat, d: seq<Byte>, n: nat, l0: set<nat>, l: set<nat>,
                      bmapstart: nat, y: Tally, iblock: nat)
    requires Progress(fs0, fs, i, off, d, l0, l, bmapstart, y) && InStep(off, n, n, y.t) && iblock != 0
    ensures Accounted(|fs0.bit|, l0, l + {iblock}, bmapstart, off, n,
                      Ptr(fs0, i, SlotOf(off / BSIZE)) != 0, y, Ptr(fs, i, NDIRECT), iblock)
  {
    assert UnfoldProgress(0);
    var extra := y.d + {Ptr(fs, i, NDIRECT)} + {iblock};
    assert LogsOnly(l0, l, bmapstart, y.a, extra);
    LogsOne(l0, l, bmapstart, y.a, extra, iblock);
  }

  lemma {:induction false} BitmapBlocksSize(bmapstart: nat, a: set<nat>)
    ensures |BitmapBlocks(bmapstart, a)| <= |a|
  {
    if a != {} {
      var x :| x in a;
      var a' := a - {x};
      BitmapBlocksSize(bmapstart, a');
      var one := {x / BPB + bmapstart};
      assert forall r :: r in a ==> r in a' || r == x;
      assert BitmapBlocks(bmapstart, a) <= BitmapBlocks(bmapstart, a') + one;
      SubsetSize(BitmapBlocks(bmapstart, a), BitmapBlocks(bmapstart, a') + one);
    }
  }

  /** The bitmap of a disk of at most n * BPB blocks takes up at most n blocks. */
  lemma {:induction false} BitmapBounded(bmapstart: nat, a: set<nat>, n: nat)
    requires forall r :: r in a ==> r < n * BPB
    ensures |BitmapBlocks(bmapstart, a)| <= n
    decreases n
  {
    if n == 0 {
      assert a == {};
      BitmapBlocksSize(bmapstart, a);
    } else {
      var a' := set r | r in a && r < (n - 1) * BPB;
      BitmapBounded(bmapstart, a', n - 1);
      var one := {n - 1 + bmapstart};
      assert forall r :: r in a ==> r in a' || r / BPB == n - 1;
      assert BitmapBlocks(bmapstart, a) <= BitmapBlocks(bmapstart, a') + one;
      SubsetSize(BitmapBlocks(bmapstart, a), BitmapBlocks(bmapstart, a') + one);
    }
  }

  /** The blocks of the bitmap of a disk of size blocks. */
  function MapBlocks(bmapstart: nat, size: nat): set<nat> {
    LogShared.Span(bmapstart, (size + BPB - 1) / BPB)
  }

  const CHUNKOWN: nat := 6  // four data blocks, the indirect block and the inode's

  /** No more blocks than begin_op reserves, and few besides the bitmap's; fewer in all if the bitmap is small. */
  ghost predicate ChunkSized(l: set<nat>, bmapstart: nat, size: nat) {
    && |l| <= MAXOPBLOCKS && |l - MapBlocks(bmapstart, size)| <= CHUNKOWN
    && (size <= 3 * BPB ==> |l| < MAXOPBLOCKS)
  }

  lemma InMap(bmapstart: nat, a: set<nat>, size: nat)
    requires forall r :: r in a ==> r < size
    ensures BitmapBlocks(bmapstart, a) <= MapBlocks(bmapstart, size)
  {
    forall r | r in a ensures r / BPB + bmapstart in MapBlocks(bmapstart, size) {
      MapIndex(r, size);
    }
  }

  lemma MapIndex(r: nat, size: nat)
    requires r < size
    ensures r / BPB < (size + BPB - 1) / BPB
  {
  }

  /** A write of at most three blocks' worth of bytes to a file without holes, in an otherwise empty
      transaction, logs at most MAXOPBLOCKS distinct blocks, however large the disk, and at most six that are
      not of the bitmap. */
  lemma ChunkBudget(fs0: FS, i: nat, off: nat, n: nat, l: set<nat>, bmapstart: nat, y: Tally, ib: nat, iblock: nat)
    requires Wf(fs0) && i < |fs0.ino| && HoleFree(fs0, i) && off <= fs0.ino[i].size && 0 < n <= 3 * BSIZE
    requires off + n <= MAXFILE * BSIZE
    requires Accounted(|fs0.bit|, {}, l, bmapstart, off, n, Ptr(fs0, i, SlotOf(off / BSIZE)) != 0, y, ib, iblock)
    ensures ChunkSized(l, bmapstart, |fs0.bit|)
  {
    var (maps, rest) := (BitmapBlocks(bmapstart, y.a), y.d + {ib} + {iblock});
    assert l <= maps + rest;
    BitmapBlocksSize(bmapstart, y.a);
    if |fs0.bit| <= 3 * BPB { BitmapBounded(bmapstart, y.a, 3); }
    InMap(bmapstart, y.a, |fs0.bit|);
    RestSize(y.d, ib, iblock);
    SubsetSize(l, maps + rest);
    SubsetSize(l - MapBlocks(bmapstart, |fs0.bit|), rest);
    ChunkTally(fs0, i, off, n, y);
  }

  lemma RestSize(d: set<nat>, ib: nat, iblock: nat)
    ensures |d + {ib} + {iblock}| <= |d| + 2
  {
  }

  lemma ChunkTally(fs0: FS, i: nat, off: nat, n: nat, y: Tally)
    requires Wf(fs0) && i < |fs0.ino| && HoleFree(fs0, i) && off <= fs0.ino[i].size && 0 < n <= 3 * BSIZE
    requires off + n <= MAXFILE * BSIZE && InStep(off, n, n, y.t) && y.h <= y.t && |y.a| <= y.h + 1
    requires Ptr(fs0, i, SlotOf(off / BSIZE)) != 0 && y.t > 0 ==> y.h <= y.t - 1
    ensures y.t <= 4 && |y.a| <= 4
  {
    assert UnfoldInStep(0) && UnfoldHoleFree(0);
    if off % BSIZE == 0 {
      assert y.t <= 3;
    } else {
      assert y.t <= 4;
      assert off / BSIZE * BSIZE < fs0.ino[i].size;
    }
  }

  /** d is spliced into inode i at off, every other file is unchanged, and no hole appears. */
  ghost predicate Spliced(fs0: FS, fs: FS, i: nat, off: nat, d: seq<Byte>) {
    true == (
      && Wf(fs0) && Wf(fs) && i < |fs0.ino| == |fs.ino| && |fs.bit| == |fs0.bit| && off <= fs0.ino[i].size
      && fs.ino[i].size == (if off + |d| > fs0.ino[i].size then off + |d| else fs0.ino[i].size)
      && (HoleFree(fs0, i) ==> HoleFree(fs, i))
      && forall u {:trigger UnfoldSpliced(u)} :: UnfoldSpliced(u) ==>
        && Contents(fs, i) == Splice(Contents(fs0, i), off, d)
        && (forall i' :: 0 <= i' < |fs.ino| && i' != i ==> Contents(fs, i') == Contents(fs0, i')))
  }

  lemma ProgressLogged(fs0: FS, fs1: FS, i: nat, off: nat, d: seq<Byte>, l0: set<nat>, l: set<nat>, bmapstart: nat,
                       y: Tally, inodestart: nat, size: nat)
    requires Progress(fs0, fs1, i, off, d, l0, l, bmapstart, y) && size <= MAXFILE * BSIZE
    ensures AllLogged(fs0, SetSize(fs1, i, size), l0, l + {i / IPB + inodestart}, bmapstart, inodestart)
  {
    assert Covers(fs0, fs1, i, l0, l, bmapstart) by { assert UnfoldProgress(0); }
    CoversAll(fs0, fs1, i, fs1.ino[i].(size := size), l0, l, bmapstart, inodestart);
  }

  lemma WriteDone(fs0: FS, fs1: FS, owner: map<nat, Slot>, i: nat, off: nat, d: seq<Byte>, l0: set<nat>, l: set<nat>,
                  bmapstart: nat, y: Tally)
    requires Progress(fs0, fs1, i, off, d, l0, l, bmapstart, y) && Sound(fs1, owner)
    requires off <= fs0.ino[i].size && off + |d| <= MAXFILE * BSIZE
    ensures fs1.ino[i].size == fs0.ino[i].size
    ensures var fs2 := SetSize(fs1, i, if off + |d| > fs0.ino[i].size then off + |d| else fs0.ino[i].size);
            Sound(fs2, owner) && Spliced(fs0, fs2, i, off, d) && Ptr(fs2, i, NDIRECT) == Ptr(fs1, i, NDIRECT)
  {
    assert Wrote(fs0, fs1, i, off, d) && FillsHoles(fs0, fs1, i) && Mapped(fs1, i, off, |d|) by {
      assert UnfoldProgress(0);
    }
    var size := if off + |d| > fs0.ino[i].size then off + |d| else fs0.ino[i].size;
    SplicedContents(fs0, fs1, i, off, d);
    SetSizeSound(fs1, owner, i, size);
    SetSizePtr(fs1, i, size, i, NDIRECT);
    if HoleFree(fs0, i) {
      HoleFreeStays(fs0, fs1, i, off, |d|, size);
    }
  }

  lemma WriteEnds(fs0: FS, fs1: FS, owner: map<nat, Slot>, i: nat, off: nat, d: seq<Byte>, n: nat, l0: set<nat>,
                  l: set<nat>, bmapstart: nat, y: Tally, inodestart: nat) returns (fs2: FS)
    requires Progress(fs0, fs1, i, off, d, l0, l, bmapstart, y) && Sound(fs1, owner) && InStep(off, n, n, y.t)
    requires off <= fs0.ino[i].size && off + |d| <= MAXFILE * BSIZE && 0 < inodestart
    ensures fs1.ino[i].size <= MAXFILE * BSIZE && Wf(fs2) && Sound(fs2, owner) && Spliced(fs0, fs2, i, off, d)
    ensures fs2 == SetSize(fs1, i, if off + |d| > fs1.ino[i].size then off + |d| else fs1.ino[i].size)
    ensures Accounted(|fs0.bit|, l0, l + {i / IPB + inodestart}, bmapstart, off, n,
                      Ptr(fs0, i, SlotOf(off / BSIZE)) != 0, y, Ptr(fs2, i, NDIRECT), i / IPB + inodestart)
    ensures AllLogged(fs0, fs2, l0, l + {i / IPB + inodestart}, bmapstart, inodestart)
  {
    WriteDone(fs0, fs1, owner, i, off, d, l0, l, bmapstart, y);
    AccountUpdate(fs0, fs1, i, off, d, n, l0, l, bmapstart, y, i / IPB + inodestart);
    var size := if off + |d| > fs1.ino[i].size then off + |d| else fs1.ino[i].size;
    ProgressLogged(fs0, fs1, i, off, d, l0, l, bmapstart, y, inodestart, size);
    fs2 := SetSize(fs1, i, size);
  }

  lemma SplicedNothing(fs: FS, i: nat, off: nat)
    requires Wf(fs) && i < |fs.ino| && off <= fs.ino[i].size
    ensures Spliced(fs, fs, i, off, [])
  {
    assert Splice(Contents(fs, i), off, []) == Contents(fs, i);
  }

  lemma SpliceTwice(c: seq<Byte>, off: nat, d: seq<Byte>, e: seq<Byte>)
    requires off <= |c|
    ensures Splice(Splice(c, off, d), off + |d|, e) == Splice(c, off, d + e)
  {
  }

  lemma SplicedTransitive(a: FS, b: FS, c: FS, i: nat, off: nat, d: seq<Byte>, e: seq<Byte>)
    requires Spliced(a, b, i, off, d) && Spliced(b, c, i, off + |d|, e)
    ensures Spliced(a, c, i, off, d + e)
  {
    assert UnfoldSpliced(0);
    SpliceTwice(Contents(a, i), off, d, e);
  }

  lemma ChunkSplice(a: FS, b: FS, c: FS, i: nat, off: nat, src: seq<Byte>, n: nat, n1: nat, r: nat)
    requires n + n1 <= |src| && r <= n1 && Spliced(a, b, i, off, src[..n])
    requires Spliced(b, c, i, off + n, src[n..n + n1][..r])
    ensures Spliced(a, c, i, off, src[..n + r])
  {
    SplicedTransitive(a, b, c, i, off, src[..n], src[n..n + n1][..r]);
    assert src[..n] + src[n..n + n1][..r] == src[..n + r];
  }

  /** Operations that log no more than chunks do never fill the log, if the bitmap takes up no more than six blocks:
      it is shared, so that absorption charges each of its blocks once. */
  lemma ChunksFitLog(c: LogMachine.State, es: seq<LogMachine.Event>, s: LogMachine.State, bmapstart: nat, size: nat)
    requires LogMachine.Runs(c, es, s) && |c.disk.slot| == LOGSIZE - 1 && s.active != {} && size <= 6 * BPB
    requires forall op :: ChunkSized(LogSpace.Touched(es, op, {}), bmapstart, size)
    ensures !LogMachine.LogFull(s)
  {
    var (shared, k, m) := (MapBlocks(bmapstart, size), CHUNKOWN, (size + BPB - 1) / BPB);
    forall op ensures |LogSpace.Touched(es, op, shared)| <= k && |LogSpace.Touched(es, op, {})| <= MAXOPBLOCKS {
      assert ChunkSized(LogSpace.Touched(es, op, {}), bmapstart, size);
      LogShared.TouchedMinus(es, op, shared);
    }
    LogShared.SpanSize(bmapstart, m);
    LogShared.ExactShared(k, m);
    LogShared.NotFull(c, es, s, k, m, shared);
  }

  /** filewrite's chunk size: what MAXOPBLOCKS allows next to inode, indirect block and two blocks of slop. */
  const CHUNK: nat := 3072  // ((MAXOPBLOCKS-1-1-2) / 2) * BSIZE

  /** In a file without holes the block that holds a byte before the end is mapped, and stays so. */
  lemma InsideMapped(fs0: FS, fs1: FS, i: nat, bn: nat, q: nat)
    requires FillsHoles(fs0, fs1, i) && i < |fs0.ino| && HoleFree(fs0, i) && bn < MAXFILE
    requires bn * BSIZE + q < fs0.ino[i].size
    ensures Ptr(fs1, i, SlotOf(bn)) != 0
  {
    assert UnfoldHoleFree(0);
    FilledStays(fs0, fs1, i, i, SlotOf(bn));
  }

  // Truncation.

  /** Files other than i keep size and contents. */
  ghost predicate OthersSame(fs: FS, fs': FS, i: nat) {
    && Wf(fs) && Wf(fs') && |fs'.ino| == |fs.ino|
    && forall u {:trigger UnfoldOthersSame(u)} :: UnfoldOthersSame(u) ==>
      && (forall i' :: 0 <= i' < |fs.ino| && i' != i ==> fs'.ino[i'].size == fs.ino[i'].size)
      && (forall i', x :: 0 <= i' < |fs.ino| && i' != i && 0 <= x < MAXFILE * BSIZE ==>
         ByteAt(fs', i', x) == ByteAt(fs, i', x))
  }

  lemma OthersSameTransitive(a: FS, b: FS, c: FS, i: nat)
    requires OthersSame(a, b, i) && OthersSame(b, c, i)
    ensures OthersSame(a, c, i)
  {
  }

  lemma OthersSameReflexive(fs: FS, i: nat)
    requires Wf(fs)
    ensures OthersSame(fs, fs, i)
  {
  }

  /** Freeing one slot: the block was marked, the other slots keep their pointers. */
  lemma FreeEffect(fs: FS, owner: map<nat, Slot>, i: nat, k: nat)
    requires Wf(fs) && Sound(fs, owner) && CanFree(fs, i, k)
    ensures var (p, fs') := (Ptr(fs, i, k), Freed(fs, i, k));
            && fs.bit[p] && p in owner && owner[p] == Slot(i, k)
            && Sound(fs', owner - {p}) && OthersSame(fs, fs', i)
            && forall k' :: 0 <= k' < NSLOTS ==> Ptr(fs', i, k') == if k' == k then 0 else Ptr(fs, i, k')
  {
    assert UnfoldSound(0);
    var (p, fs') := (Ptr(fs, i, k), Freed(fs, i, k));
    FreeInv(fs, owner, i, k);
    forall k' | 0 <= k' < NSLOTS
      ensures Ptr(fs', i, k') == if k' == k then 0 else Ptr(fs, i, k')
    {
      FreePtr(fs, owner, i, k, i, k');
    }
    forall i', x | 0 <= i' < |fs.ino| && i' != i && 0 <= x < MAXFILE * BSIZE
      ensures ByteAt(fs', i', x) == ByteAt(fs, i', x)
    {
      FreeBytes(fs, owner, i, k, i', x);
    }
  }

  /** The contents of a free block do not matter. */
  lemma FreeBlockContents(fs: FS, owner: map<nat, Slot>, b: nat, data: Block, i: nat)
    requires Wf(fs) && Sound(fs, owner) && b < |fs.blk| && b !in owner && |data| == BSIZE && i < |fs.ino|
    ensures var fs' := SetBlock(fs, b, data);
            && Sound(fs', owner) && OthersSame(fs, fs', i)
            && forall k :: 0 <= k < NSLOTS ==> Ptr(fs', i, k) == Ptr(fs, i, k)
  {
    assert UnfoldSound(0);
    var fs' := SetBlock(fs, b, data);
    SetBlockInv(fs, owner, b, data);
    forall i', x | 0 <= i' < |fs.ino| && i' != i && 0 <= x < MAXFILE * BSIZE
      ensures ByteAt(fs', i', x) == ByteAt(fs, i', x)
    {
      SetBlockBytes(fs, owner, b, data, i', x);
    }
  }

  /** owner' is owner without some of the slots of inode i. */
  predicate Releases(owner: map<nat, Slot>, owner': map<nat, Slot>, i: nat) {
    true == (
      && owner'.Keys <= owner.Keys
      && forall b :: b in owner ==> (if b in owner' then owner'[b] == owner[b] else owner[b].i == i))
  }

  lemma ReleasesTransitive(o1: map<nat, Slot>, o2: map<nat, Slot>, o3: map<nat, Slot>, i: nat)
    requires Releases(o1, o2, i) && Releases(o2, o3, i)
    ensures Releases(o1, o3, i)
  {
  }

  /** itrunc in the middle of its second loop: entries below j of the indirect block ib are free, but only
      the shadow contents sh say so, because itrunc does not clear them on disk. */
  ghost predicate Truncating(fs: FS, owner: map<nat, Slot>, i: nat, ib: nat, j: nat, sh: Block) {
    true == (
      && Wf(fs) && i < |fs.ino| && 0 < ib < |fs.blk| && |sh| == BSIZE && j <= NINDIRECT
      && Sound(SetBlock(fs, ib, sh), owner)
      && fs.ino[i].addrs[NDIRECT] == ib
      && (forall j' :: 0 <= j' < NINDIRECT ==> GetUint(sh, j') == if j' < j then 0 else GetUint(fs.blk[ib], j')))
  }

  lemma ShadowPtr(fs: FS, i: nat, ib: nat, sh: Block, k: nat)
    requires Wf(fs) && i < |fs.ino| && 0 < ib < |fs.blk| && |sh| == BSIZE && fs.ino[i].addrs[NDIRECT] == ib
    requires k < NSLOTS
    ensures Ptr(SetBlock(fs, ib, sh), i, k) == if k <= NDIRECT then fs.ino[i].addrs[k] else GetUint(sh, k - NDIRECT - 1)
  {
  }

  lemma TruncateEntry(fs: FS, owner: map<nat, Slot>, i: nat, ib: nat, j: nat, sh: Block)
    requires Truncating(fs, owner, i, ib, j, sh) && j < NINDIRECT
    ensures var (a, sh') := (GetUint(fs.blk[ib], j), PutUint(sh, j, 0));
            if a == 0 then Truncating(fs, owner, i, ib, j + 1, sh)
            else
              && a < |fs.bit| && fs.bit[a] && a in owner
              && Truncating(fs.(bit := fs.bit[a := false]), owner - {a}, i, ib, j + 1, sh')
              && Releases(owner, owner - {a}, i)
              && OthersSame(SetBlock(fs, ib, sh), SetBlock(fs.(bit := fs.bit[a := false]), ib, sh'), i)
  {
    var (a, k, fs1) := (GetUint(fs.blk[ib], j), NDIRECT + 1 + j, SetBlock(fs, ib, sh));
    ShadowPtr(fs, i, ib, sh, k);
    if a != 0 {
      PtrInRange(fs1, owner, i, k);
      FreeEffect(fs1, owner, i, k);
      assert Freed(fs1, i, k) == SetBlock(fs.(bit := fs.bit[a := false]), ib, PutUint(sh, j, 0));
      forall j' | 0 <= j' < NINDIRECT
        ensures GetUint(PutUint(sh, j, 0), j') == if j' == j then 0 else GetUint(sh, j')
      {
        PutGet(sh, j, 0, j');
      }
    }
  }

  /** Freeing the indirect block itself once all its entries are free. */
  lemma TruncateIndirect(fs: FS, owner: map<nat, Slot>, i: nat, ib: nat, sh: Block)
    requires Truncating(fs, owner, i, ib, NINDIRECT, sh)
    ensures fs.bit[ib] && ib in owner
    ensures var fs' := SetAddr(fs.(bit := fs.bit[ib := false]), i, NDIRECT, 0);
            && Wf(fs') && Sound(fs', owner - {ib}) && Releases(owner, owner - {ib}, i)
            && OthersSame(SetBlock(fs, ib, sh), fs', i)
            && forall k :: NDIRECT <= k < NSLOTS ==> Ptr(fs', i, k) == 0
  {
    var fs1 := SetBlock(fs, ib, sh);
    forall k | 0 <= k < NSLOTS
      ensures Ptr(fs1, i, k) == if k <= NDIRECT then fs.ino[i].addrs[k] else 0
    {
      ShadowPtr(fs, i, ib, sh, k);
    }
    FreeEffect(fs1, owner, i, NDIRECT);
    var fs2 := Freed(fs1, i, NDIRECT);
    FreeBlockContents(fs2, owner - {ib}, ib, fs.blk[ib], i);
    var fs' := SetAddr(fs.(bit := fs.bit[ib := false]), i, NDIRECT, 0);
    assert fs.blk[ib := sh][ib := fs.blk[ib]] == fs.blk;
    assert SetBlock(fs2, ib, fs.blk[ib]) == fs';
    OthersSameTransitive(fs1, fs2, fs', i);
  }

  lemma TruncateSize(fs0: FS, fs: FS, owner: map<nat, Slot>, i: nat)
    requires OthersSame(fs0, fs, i) && Sound(fs, owner) && i < |fs.ino|
    requires forall k :: 0 <= k < NSLOTS ==> Ptr(fs, i, k) == 0
    ensures var fs' := SetSize(fs, i, 0);
            Sound(fs', owner) && OthersSame(fs0, fs', i) && forall k :: 0 <= k < NSLOTS ==> Ptr(fs', i, k) == 0
  {
    var fs' := SetSize(fs, i, 0);
    SetSizeSound(fs, owner, i, 0);
    forall k | 0 <= k < NSLOTS ensures Ptr(fs', i, k) == 0 { SetSizePtr(fs, i, 0, i, k); }
    assert OthersSame(fs, fs', i) by {
      forall i', x | 0 <= i' < |fs.ino| && i' != i && 0 <= x < MAXFILE * BSIZE
        ensures ByteAt(fs', i', x) == ByteAt(fs, i', x)
      {
        SetSizeByte(fs, i, 0, i', x);
      }
    }
    OthersSameTransitive(fs0, fs, fs', i);
  }

  lemma AllReleased(fs: FS, owner: map<nat, Slot>, owner': map<nat, Slot>, i: nat)
    requires Wf(fs) && Sound(fs, owner') && Releases(owner, owner', i) && i < |fs.ino|
    requires forall k :: 0 <= k < NSLOTS ==> Ptr(fs, i, k) == 0
    ensures owner' == map b | b in owner && owner[b].i != i :: owner[b]
  {
    assert UnfoldSound(0);
    forall b | b in owner' ensures owner'[b].i != i {
      assert Ptr(fs, owner'[b].i, owner'[b].k) == b;
    }
  }

  // Reading.

  /** data are the bytes of inode i from off on. */
  ghost predicate Reads(fs: FS, i: nat, off: nat, data: seq<Byte>) {
    && Wf(fs) && i < |fs.ino| && off + |data| <= MAXFILE * BSIZE
    && forall u {:trigger UnfoldReads(u)} :: UnfoldReads(u) ==>
      forall x :: off <= x < off + |data| ==> data[x - off] == ByteAt(fs, i, x)
  }

  lemma ReadsBlock(fs: FS, owner: map<nat, Slot>, i: nat, bn: nat, q: nat, m: nat)
    requires Wf(fs) && Sound(fs, owner) && i < |fs.ino| && bn < MAXFILE && q + m <= BSIZE && Ptr(fs, i, SlotOf(bn)) != 0
    ensures Ptr(fs, i, SlotOf(bn)) < |fs.blk|
    ensures Reads(fs, i, bn * BSIZE + q, fs.blk[Ptr(fs, i, SlotOf(bn))][q..q + m])
  {
    PtrInRange(fs, owner, i, SlotOf(bn));
    var p := Ptr(fs, i, SlotOf(bn));
    var off := bn * BSIZE + q;
    forall x | off <= x < off + m
      ensures fs.blk[p][q..q + m][x - off] == ByteAt(fs, i, x)
    {
      BlockRange(bn, q, m, x);
    }
  }

  lemma ReadsAppend(fs0: FS, fs1: FS, i: nat, off: nat, d: seq<Byte>, e: seq<Byte>)
    requires Reads(fs0, i, off, d) && SameFiles(fs0, fs1) && Reads(fs1, i, off + |d|, e)
    ensures Reads(fs0, i, off, d + e)
  {
    assert UnfoldReads(0) && UnfoldSameFiles(0);
    forall x | off <= x < off + |d + e|
      ensures (d + e)[x - off] == ByteAt(fs0, i, x)
    {
      assert ByteAt(fs1, i, x) == ByteAt(fs0, i, x);
    }
  }

  lemma ReadsContents(fs: FS, i: nat, off: nat, data: seq<Byte>)
    requires Reads(fs, i, off, data) && off + |data| <= fs.ino[i].size
    ensures data == Contents(fs, i)[off..off + |data|]
  {
    assert UnfoldReads(0);
  }

  class FileSystem {
    const nmeta: nat
    const bmapstart: nat
    const inodestart: nat
    var bit: seq<bool>
    var blk: seq<Block>
    var ino: seq<Inode>
    /** The blocks passed to log_write since begin_op. */
    var logged: set<nat>
    ghost var owner: map<nat, Slot>

    ghost function View(): FS
      reads this
    {
      FS(nmeta, bit, blk, ino)
    }

    ghost predicate Valid()
      reads this
    {
      true == (Wf(View()) && Sound(View(), owner))
    }

    ghost predicate Full()
      reads this
    {
      forall b :: 0 <= b < |bit| ==> bit[b]
    }

    /** Mounts a file system that satisfies the invariant, such as a fresh image. */
    constructor (fs: FS, bmapstart: nat, inodestart: nat, ghost owner: map<nat, Slot>)
      requires Inv(fs, owner)
      ensures Valid() && View() == fs && this.owner == owner && logged == {}
      ensures this.bmapstart == bmapstart && this.inodestart == inodestart
    {
      nmeta, this.bmapstart, this.inodestart := fs.nmeta, bmapstart, inodestart;
      bit, blk, ino, logged := fs.bit, fs.blk, fs.ino, {};
      this.owner := owner;
    }

    method Bzero(b: nat)
      requires b < |blk|
      modifies this`blk, this`logged
      ensures blk == old(blk)[b := ZeroBlock()] && logged == old(logged) + {b}
    {
      blk := blk[b := ZeroBlock()];
      logged := logged + {b};
    }

    /** Finds the first free block, marks it and zeroes it; 0 means out of space. */
    method Balloc() returns (r: nat)
      requires Valid()
      modifies this`bit, this`blk, this`logged
      ensures r == 0 ==> false !in bit && View() == old(View()) && logged == old(logged)
      ensures r != 0 ==>
                && nmeta <= r < |old(bit)| && !old(bit)[r] && (forall b :: 0 <= b < r ==> old(bit)[b])
                && View() == Allocated(old(View()), r)
                && logged == old(logged) + {r / BPB + bmapstart, r}
    {
      MetadataMarked(View(), owner);
      var b := 0;
      while b < |bit|
        invariant 0 <= b && View() == old(View()) && logged == old(logged)
        invariant forall x :: 0 <= x < b && x < |bit| ==> bit[x]
      {
        var bi := 0;
        while bi < BPB && b + bi < |bit|
          invariant 0 <= bi <= BPB && View() == old(View()) && logged == old(logged)
          invariant forall x :: 0 <= x < b + bi && x < |bit| ==> bit[x]
        {
          if !bit[b + bi] {
            bit := bit[b + bi := true];
            logged := logged + {(b + bi) / BPB + bmapstart};
            Bzero(b + bi);
            return b + bi;
          }
          bi := bi + 1;
        }
        b := b + BPB;
      }
      return 0;
    }

    /** Frees a marked block; on an unmarked one the source panics. */
    method Bfree(b: nat)
      requires b < |bit| && bit[b]
      modifies this`bit, this`logged
      ensures bit == old(bit)[b := false] && logged == old(logged) + {b / BPB + bmapstart}
    {
      bit := bit[b := false];
      logged := logged + {b / BPB + bmapstart};
    }

    /** The direct and indirect pointers in the inode: allocate if the slot is empty.
        `a` is the set of blocks allocated. */
    method EnsureAddr(i: nat, k: nat) returns (addr: nat, ghost a: set<nat>)
      requires Valid() && i < |ino| && k <= NDIRECT
      modifies this`bit, this`blk, this`ino, this`logged, this`owner
      ensures Valid() && SameFiles(old(View()), View()) && FillsHoles(old(View()), View(), i)
      ensures addr == 0 ==> Full()
      ensures addr != 0 ==> Ptr(View(), i, k) == addr
      ensures Ptr(old(View()), i, k) != 0 ==> addr != 0
      ensures (a == if addr == 0 || Ptr(old(View()), i, k) != 0 then {} else {addr}) && forall r :: r in a ==>
              r < |old(bit)|
      ensures LogsOnly(old(logged), logged, bmapstart, a, {addr})
      ensures Covers(old(View()), View(), i, old(logged), logged, bmapstart)
      ensures old(logged) <= logged && (Ptr(old(View()), i, k) == 0 && !old(Full()) ==> logged != {})
      ensures Ptr(old(View()), i, k) != 0 || old(Full()) ==> View() == old(View()) && logged == old(logged)
    {
      a := {};
      CoversNothing(View(), i, logged, bmapstart);
      addr := ino[i].addrs[k];
      if addr == 0 {
        addr := Balloc();
        if addr == 0 {
          return;
        }
        AllocCovers(old(View()), addr, i, old(logged), bmapstart);
        InodeCovers(View(), i, ino[i].(addrs := ino[i].addrs[k := addr]), logged, bmapstart);
        CoversMore(old(View()), View(), View().(ino := ino[i := ino[i].(addrs := ino[i].addrs[k := addr])]), i,
                   old(logged), logged, logged, bmapstart);
        ino := ino[i := ino[i].(addrs := ino[i].addrs[k := addr])];
        FillEffect(old(View()), owner, i, k, addr);
        owner := owner[addr := Slot(i, k)];
        a := {addr};
        AllocLogs(old(logged), bmapstart, addr, addr);
      }
    }

    /** Stores the freshly allocated block addr in entry j; fs0 is the state before the allocation. */
    method StoreEntry(i: nat, j: nat, addr: nat, ghost fs0: FS)
      requires Wf(fs0) && Sound(fs0, owner) && i < |fs0.ino| && j < NINDIRECT && Ptr(fs0, i, NDIRECT) != 0
      requires Ptr(fs0, i, NDIRECT + 1 + j) == 0 && addr < |fs0.bit| && !fs0.bit[addr] && View() == Allocated(fs0, addr)
      modifies this`blk, this`logged, this`owner
      ensures Valid() && SameFiles(fs0, View()) && FillsHoles(fs0, View(), i)
      ensures Ptr(View(), i, NDIRECT + 1 + j) == addr
      ensures logged == old(logged) + {ino[i].addrs[NDIRECT]}
      ensures Covers(old(View()), View(), i, old(logged), logged, bmapstart)
    {
      var ib := ino[i].addrs[NDIRECT];
      PtrInRange(fs0, owner, i, NDIRECT);
      BlockCovers(View(), ib, PutUint(blk[ib], j, addr), i, logged, bmapstart);
      blk := blk[ib := PutUint(blk[ib], j, addr)];
      logged := logged + {ib};
      assert View() == Filled(fs0, i, NDIRECT + 1 + j, addr);
      FillEffect(fs0, owner, i, NDIRECT + 1 + j, addr);
      owner := owner[addr := Slot(i, NDIRECT + 1 + j)];
    }

    /** The entries of the indirect block. */
    method EnsureEntry(i: nat, j: nat) returns (addr: nat, ghost a: set<nat>)
      requires Valid() && i < |ino| && j < NINDIRECT && Ptr(View(), i, NDIRECT) != 0
      modifies this`bit, this`blk, this`logged, this`owner
      ensures Valid() && SameFiles(old(View()), View()) && FillsHoles(old(View()), View(), i)
      ensures addr == 0 ==> Full()
      ensures addr != 0 ==> Ptr(View(), i, NDIRECT + 1 + j) == addr
      ensures Ptr(old(View()), i, NDIRECT + 1 + j) != 0 ==> addr != 0
      ensures a == if addr == 0 || Ptr(old(View()), i, NDIRECT + 1 + j) != 0 then {} else {addr}
      ensures forall r :: r in a ==> r < |old(bit)|
      ensures LogsOnly(old(logged), logged, bmapstart, a, {addr, ino[i].addrs[NDIRECT]})
      ensures Covers(old(View()), View(), i, old(logged), logged, bmapstart)
      ensures old(logged) <= logged && (Ptr(old(View()), i, NDIRECT + 1 + j) == 0 && !old(Full()) ==> logged != {})
      ensures Ptr(old(View()), i, NDIRECT + 1 + j) != 0 || old(Full()) ==>
                View() == old(View()) && logged == old(logged)
    {
      a := {};
      PtrInRange(View(), owner, i, NDIRECT);
      addr := GetUint(blk[ino[i].addrs[NDIRECT]], j);
      if addr == 0 {
        addr, a := FillEntry(i, j);
      } else {
        SameFilesReflexive(View());
        FillsHolesReflexive(View(), i);
        CoversNothing(View(), i, logged, bmapstart);
      }
    }

    /** Allocates the block of an empty entry. */
    method FillEntry(i: nat, j: nat) returns (addr: nat, ghost a: set<nat>)
      requires Valid() && i < |ino| && j < NINDIRECT
      requires Ptr(View(), i, NDIRECT) != 0 && Ptr(View(), i, NDIRECT + 1 + j) == 0
      modifies this`bit, this`blk, this`logged, this`owner
      ensures Valid() && SameFiles(old(View()), View()) && FillsHoles(old(View()), View(), i)
      ensures addr == 0 <==> old(Full())
      ensures addr == 0 ==> View() == old(View()) && logged == old(logged) && a == {}
      ensures addr != 0 ==>
                Ptr(View(), i, NDIRECT + 1 + j) == addr && a == {addr} && addr < |old(bit)| && addr in logged
      ensures old(logged) <= logged && LogsOnly(old(logged), logged, bmapstart, a, {addr, ino[i].addrs[NDIRECT]})
      ensures Covers(old(View()), View(), i, old(logged), logged, bmapstart)
    {
      a := {};
      SameFilesReflexive(View());
      FillsHolesReflexive(View(), i);
      CoversNothing(View(), i, logged, bmapstart);
      addr := Balloc();
      if addr != 0 {
        ghost var (fs1, l1) := (View(), logged);
        AllocCovers(old(View()), addr, i, old(logged), bmapstart);
        StoreEntry(i, j, addr, old(View()));
        a := {addr};
        AllocLogs(old(logged), bmapstart, addr, ino[i].addrs[NDIRECT]);
        CoversMore(old(View()), fs1, View(), i, old(logged), l1, logged, bmapstart);
      }
    }

    method BmapIndirect(i: nat, j: nat) returns (addr: nat, ghost a: set<nat>)
      requires Valid() && i < |ino| && j < NINDIRECT
      modifies this`bit, this`blk, this`ino, this`logged, this`owner
      ensures Valid() && SameFiles(old(View()), View()) && FillsHoles(old(View()), View(), i)
      ensures addr == 0 ==> Full()
      ensures addr != 0 ==> Ptr(View(), i, NDIRECT + 1 + j) == addr && Ptr(View(), i, NDIRECT) != 0
      ensures Ptr(old(View()), i, NDIRECT + 1 + j) != 0 ==> addr != 0
      ensures AllocsAtMost(|old(bit)|, a, Ptr(old(View()), i, NDIRECT + 1 + j) == 0,
                           Ptr(old(View()), i, NDIRECT) == 0 != Ptr(View(), i, NDIRECT))
      ensures LogsOnly(old(logged), logged, bmapstart, a, {addr, Ptr(View(), i, NDIRECT)})
      ensures Covers(old(View()), View(), i, old(logged), logged, bmapstart)
      ensures old(logged) <= logged && (Ptr(old(View()), i, NDIRECT + 1 + j) == 0 && !old(Full()) ==> logged != {})
      ensures Ptr(old(View()), i, NDIRECT + 1 + j) != 0 || old(Full()) ==>
                View() == old(View()) && logged == old(logged)
    {
      var ib;
      ib, a := EnsureAddr(i, NDIRECT);
      addr := 0;
      if ib != 0 {
        ghost var (fs1, logged1, a1) := (View(), logged, a);
        ghost var a2;
        if Ptr(old(View()), i, NDIRECT + 1 + j) != 0 {
          FilledStays(old(View()), fs1, i, i, NDIRECT + 1 + j);
        }
        addr, a2 := EnsureEntry(i, j);
        SameFilesTransitive(old(View()), fs1, View());
        FillsHolesTransitive(old(View()), fs1, View(), i);
        a := a1 + a2;
        LogsOnlyTransitive(old(logged), logged1, logged, bmapstart, a1, a2, {addr, ib});
        CoversMore(old(View()), fs1, View(), i, old(logged), logged1, logged, bmapstart);
      }
    }

    /** The disk block of file block bn, allocated if there is none; 0 if out of space. */
    method Bmap(i: nat, bn: nat) returns (addr: nat, ghost a: set<nat>)
      requires Valid() && i < |ino| && bn < MAXFILE
      modifies this`bit, this`blk, this`ino, this`logged, this`owner
      ensures Valid() && SameFiles(old(View()), View()) && FillsHoles(old(View()), View(), i)
      ensures addr == 0 ==> Full()
      ensures addr != 0 ==> Ptr(View(), i, SlotOf(bn)) == addr
      ensures Ptr(old(View()), i, SlotOf(bn)) != 0 ==> addr != 0
      ensures AllocsAtMost(|old(bit)|, a, Ptr(old(View()), i, SlotOf(bn)) == 0,
                           Ptr(old(View()), i, NDIRECT) == 0 != Ptr(View(), i, NDIRECT))
      ensures LogsOnly(old(logged), logged, bmapstart, a, {addr, Ptr(View(), i, NDIRECT)})
      ensures Covers(old(View()), View(), i, old(logged), logged, bmapstart)
      ensures old(logged) <= logged && (Ptr(old(View()), i, SlotOf(bn)) == 0 && !old(Full()) ==> logged != {})
      ensures Ptr(old(View()), i, SlotOf(bn)) != 0 || old(Full()) ==> View() == old(View()) && logged == old(logged)
    {
      if bn < NDIRECT {
        addr, a := EnsureAddr(i, bn);
      } else {
        addr, a := BmapIndirect(i, bn - NDIRECT);
      }
    }

    /** Copies data into the block addr that maps file block bn, and logs it. */
    method StoreBlock(i: nat, bn: nat, q: nat, data: seq<Byte>, addr: nat)
      requires Valid() && i < |ino| && bn < MAXFILE && q + |data| <= BSIZE && Ptr(View(), i, SlotOf(bn)) == addr != 0
      modifies this`blk, this`logged
      ensures Valid() && FillsHoles(old(View()), View(), i) && Wrote(old(View()), View(), i, bn * BSIZE + q, data)
      ensures Ptr(View(), i, SlotOf(bn)) == addr && Ptr(View(), i, NDIRECT) == Ptr(old(View()), i, NDIRECT)
      ensures logged == old(logged) + {addr}
      ensures Covers(old(View()), View(), i, old(logged), logged, bmapstart)
    {
      PtrInRange(View(), owner, i, SlotOf(bn));
      StoreEffect(View(), owner, i, bn, q, data);
      BlockCovers(View(), addr, Patch(blk[addr], q, data), i, logged, bmapstart);
      blk := blk[addr := Patch(blk[addr], q, data)];
      logged := logged + {addr};
    }

    /** One round of the loop in writei: the bytes that fall into one block. */
    method WriteBlock(i: nat, bn: nat, q: nat, data: seq<Byte>) returns (addr: nat, ghost a: set<nat>)
      requires Valid() && i < |ino| && bn < MAXFILE && q + |data| <= BSIZE
      modifies this`bit, this`blk, this`ino, this`logged, this`owner
      ensures Valid() && FillsHoles(old(View()), View(), i)
      ensures Wrote(old(View()), View(), i, bn * BSIZE + q, if addr != 0 then data else [])
      ensures addr == 0 ==> Full()
      ensures addr != 0 ==> Ptr(View(), i, SlotOf(bn)) == addr
      ensures AllocsAtMost(|old(bit)|, a, Ptr(old(View()), i, SlotOf(bn)) == 0,
                           Ptr(old(View()), i, NDIRECT) == 0 != Ptr(View(), i, NDIRECT))
      ensures LogsOnly(old(logged), logged, bmapstart, a, {addr, Ptr(View(), i, NDIRECT)})
      ensures Covers(old(View()), View(), i, old(logged), logged, bmapstart)
    {
      addr, a := Bmap(i, bn);
      ghost var (fs1, logged1) := (View(), logged);
      if addr == 0 {
        WroteNothing(old(View()), fs1, i, bn * BSIZE + q);
      } else {
        StoreBlock(i, bn, q, data, addr);
        WroteAfterSame(old(View()), fs1, View(), i, bn * BSIZE + q, data);
        FillsHolesTransitive(old(View()), fs1, View(), i);
        LogsOne(old(logged), logged1, bmapstart, a, {addr, Ptr(View(), i, NDIRECT)}, addr);
        CoversMore(old(View()), fs1, View(), i, old(logged), logged1, logged, bmapstart);
      }
    }

    /** One round of writei's loop; m == 0 means out of space. */
    method WriteRound(i: nat, off: nat, tot: nat, src: seq<Byte>, ghost fs0: FS, ghost l0: set<nat>, ghost y: Tally)
      returns (m: nat, ghost y': Tally)
      requires Valid() && tot < |src| && off + |src| <= MAXFILE * BSIZE && InStep(off, tot, |src|, y.t)
      requires Progress(fs0, View(), i, off, src[..tot], l0, logged, bmapstart, y)
      modifies this`bit, this`blk, this`ino, this`logged, this`owner
      ensures Valid() && tot + m <= |src| && (m == 0 ==> Full())
      ensures Progress(fs0, View(), i, off, src[..tot + m], l0, logged, bmapstart, y')
      ensures InStep(off, if m == 0 then |src| else tot + m, |src|, y'.t)
    {
      var o := off + tot;
      var (bn, q) := (o / BSIZE, o % BSIZE);
      m := if |src| - tot < BSIZE - q then |src| - tot else BSIZE - q;
      NextBlock(off, tot, |src|, y.t, bn, q, m);
      m, y' := WriteAt(i, off, tot, m, bn, q, src, fs0, l0, y);
    }

    method WriteAt(i: nat, off: nat, tot: nat, m: nat, bn: nat, q: nat, src: seq<Byte>, ghost fs0: FS,
                   ghost l0: set<nat>, ghost y: Tally)
      returns (m': nat, ghost y': Tally)
      requires Valid() && 0 < m && tot + m <= |src| && q + m <= BSIZE && bn < MAXFILE && bn * BSIZE + q == off + tot
      requires Progress(fs0, View(), i, off, src[..tot], l0, logged, bmapstart, y)
      requires bn == off / BSIZE + y.t
      modifies this`bit, this`blk, this`ino, this`logged, this`owner
      ensures Valid() && (m' == m || (m' == 0 && Full()))
      ensures Progress(fs0, View(), i, off, src[..tot + m'], l0, logged, bmapstart, y')
      ensures y'.t == y.t + 1
    {
      ghost var (fs1, logged1) := (View(), logged);
      var addr;
      ghost var a;
      addr, a := WriteBlock(i, bn, q, src[tot..tot + m]);
      m' := if addr == 0 then 0 else m;
      ghost var d := if addr == 0 then [] else src[tot..tot + m];
      y' := ProgressStep(fs0, fs1, View(), i, off, src[..tot], d, l0, logged1, logged, bmapstart, y, bn, addr, a);
      assert src[..tot] + d == src[..tot + m'];
    }

    /** The loop of writei. */
    method WriteLoop(i: nat, off: nat, src: seq<Byte>) returns (tot: nat, ghost y: Tally)
      requires Valid() && i < |ino| && off + |src| <= MAXFILE * BSIZE && off < MAXFILE * BSIZE
      modifies this`bit, this`blk, this`ino, this`logged, this`owner
      ensures Valid() && tot <= |src| && (tot < |src| ==> Full())
      ensures Progress(old(View()), View(), i, off, src[..tot], old(logged), logged, bmapstart, y)
      ensures InStep(off, |src|, |src|, y.t)
    {
      tot, y := 0, Tally(0, 0, {}, {});
      ProgressStart(View(), i, off, logged, bmapstart);
      assert src[..0] == [];
      while tot < |src|
        invariant Valid() && tot <= |src|
        invariant Progress(old(View()), View(), i, off, src[..tot], old(logged), logged, bmapstart, y)
        invariant InStep(off, tot, |src|, y.t)
      {
        var m;
        m, y := WriteRound(i, off, tot, src, old(View()), old(logged), y);
        tot := tot + m;
        if m == 0 {
          break;
        }
      }
    }

    /** Copies the in-memory inode to its block; here only the logging is visible. */
    method Iupdate(i: nat)
      modifies this`logged
      ensures logged == old(logged) + {i / IPB + inodestart}
    {
      logged := logged + {i / IPB + inodestart};
    }

    /** writei after its checks, for at least one byte. */
    method WriteChecked(i: nat, off: nat, src: seq<Byte>) returns (tot: nat, ghost y: Tally)
      requires Valid() && i < |ino| && 0 < |src| && off <= ino[i].size && off + |src| <= MAXFILE * BSIZE
      requires 0 < inodestart
      modifies this`bit, this`blk, this`ino, this`logged, this`owner
      ensures Valid() && tot <= |src| && (tot < |src| ==> Full())
      ensures Spliced(old(View()), View(), i, off, src[..tot])
      ensures Accounted(|old(bit)|, old(logged), logged, bmapstart, off, |src|,
                        Ptr(old(View()), i, SlotOf(off / BSIZE)) != 0, y,
                        Ptr(View(), i, NDIRECT), i / IPB + inodestart)
      ensures AllLogged(old(View()), View(), old(logged), logged, bmapstart, inodestart)
    {
      ghost var (fs0, l0) := (View(), logged);
      tot, y := WriteLoop(i, off, src);
      ghost var (fs1, l1, d) := (View(), logged, src[..tot]);
      ghost var fs2 := WriteEnds(fs0, fs1, owner, i, off, d, |src|, l0, l1, bmapstart, y, inodestart);
      Grow(i, off + tot);
      assert View() == fs2;
    }

    /** The end of writei: the size and the inode. */
    method Grow(i: nat, off: nat)
      requires Wf(View()) && i < |ino| && off <= MAXFILE * BSIZE
      modifies this`ino, this`logged
      ensures View() == SetSize(old(View()), i, if off > old(ino)[i].size then off else old(ino)[i].size)
      ensures logged == old(logged) + {i / IPB + inodestart}
    {
      if off > ino[i].size {
        ino := ino[i := ino[i].(size := off)];
      }
      Iupdate(i);
    }

    /** Writes src at off; the source is readable, so the only failure inside is lack of space. */
    method Writei(i: nat, off: nat, src: seq<Byte>) returns (r: int, ghost y: Tally)
      requires Valid() && i < |ino| && off < U32 && |src| < U32 && 0 < inodestart
      modifies this`bit, this`blk, this`ino, this`logged, this`owner
      ensures Valid()
      ensures r < 0 <==> off > old(ino)[i].size || off + |src| > MAXFILE * BSIZE
      ensures r < 0 ==> r == -1 && View() == old(View()) && logged == old(logged)
      ensures r >= 0 ==> r <= |src| && (r < |src| ==> false !in bit) && Spliced(old(View()), View(), i, off, src[..r])
      ensures r >= 0 && |src| > 0 ==>
                Accounted(|old(bit)|, old(logged), logged, bmapstart, off, |src|,
                          Ptr(old(View()), i, SlotOf(off / BSIZE)) != 0, y,
                          Ptr(View(), i, NDIRECT), i / IPB + inodestart)
      ensures AllLogged(old(View()), View(), old(logged), logged, bmapstart, inodestart)
    {
      y := Tally(0, 0, {}, {});
      if off > ino[i].size || (off + |src|) % U32 < off {
        return -1, y;
      }
      if off + |src| > MAXFILE * BSIZE {
        return -1, y;
      }
      if |src| == 0 {
        SplicedNothing(View(), i, off);
        assert src[..0] == [];
        Iupdate(i);
        return 0, y;
      }
      r, y := WriteChecked(i, off, src);
    }

    /** One transaction of filewrite: begin_op, writei, end_op. */
    method WriteChunk(i: nat, off: nat, src: seq<Byte>) returns (r: int)
      requires Valid() && i < |ino| && off < U32 && 0 < |src| <= CHUNK && 0 < inodestart
      modifies this`bit, this`blk, this`ino, this`logged, this`owner
      ensures Valid()
      ensures r < 0 <==> off > old(ino)[i].size || off + |src| > MAXFILE * BSIZE
      ensures r < 0 ==> View() == old(View())
      ensures r >= 0 ==> r <= |src| && (r < |src| ==> false !in bit) && Spliced(old(View()), View(), i, off, src[..r])
      ensures HoleFree(old(View()), i) ==> ChunkSized(logged, bmapstart, |old(bit)|)
      ensures AllLogged(old(View()), View(), {}, logged, bmapstart, inodestart)
    {
      logged := {};
      ghost var y;
      r, y := Writei(i, off, src);
      if r >= 0 && HoleFree(old(View()), i) {
        ChunkBudget(old(View()), i, off, |src|, logged, bmapstart, y, Ptr(View(), i, NDIRECT), i / IPB + inodestart);
      }
    }

    /** One round of filewrite, after n bytes. */
    method WriteNext(i: nat, off: nat, n: nat, n1: nat, src: seq<Byte>, ghost fs0: FS) returns (r: int)
      requires Valid() && 0 < n1 <= CHUNK && n + n1 <= |src| && 0 < inodestart
      requires Spliced(fs0, View(), i, off, src[..n])
      modifies this`bit, this`blk, this`ino, this`logged, this`owner
      ensures Valid() && r <= n1 && (r < n1 ==> Full() || off + n + n1 > MAXFILE * BSIZE)
      ensures Spliced(fs0, View(), i, off, src[..n + if r < 0 then 0 else r])
      ensures HoleFree(fs0, i) ==> ChunkSized(logged, bmapstart, |fs0.bit|)
    {
      ghost var fs1 := View();
      assert off + n <= fs1.ino[i].size && |src[..n]| == n;
      r := WriteChunk(i, off + n, src[n..n + n1]);
      if r >= 0 {
        ChunkSplice(fs0, fs1, View(), i, off, src, n, n1, r);
      }
    }

    /** The loop of filewrite, from an offset inside the file: n bytes are written when it stops. */
    method FilewriteLoop(i: nat, off: nat, src: seq<Byte>) returns (n: nat, ghost txs: seq<set<nat>>)
      requires Valid() && i < |ino| && off <= ino[i].size && 0 < inodestart
      modifies this`bit, this`blk, this`ino, this`logged, this`owner
      ensures Valid() && n <= |src| && Spliced(old(View()), View(), i, off, src[..n])
      ensures n < |src| ==> Full() || off + |src| > MAXFILE * BSIZE
      ensures HoleFree(old(View()), i) ==> forall l :: l in txs ==> ChunkSized(l, bmapstart, |old(bit)|)
    {
      n, txs := 0, [];
      SplicedNothing(View(), i, off);
      assert src[..0] == [];
      while n < |src|
        invariant Valid() && n <= |src| && Spliced(old(View()), View(), i, off, src[..n])
        invariant HoleFree(old(View()), i) ==> forall l :: l in txs ==> ChunkSized(l, bmapstart, |old(bit)|)
      {
        var n1 := if |src| - n > CHUNK then CHUNK else |src| - n;
        var r := WriteNext(i, off, n, n1, src, old(View()));
        txs := txs + [logged];
        if r > 0 {
          n := n + r;
        }
        if r != n1 {
          break;
        }
      }
    }

    /** filewrite on an inode: writes src at off in chunks, one transaction each.  `off'` is the new file
        offset and `txs` the blocks that each transaction logged. */
    method Filewrite(i: nat, off: nat, src: seq<Byte>) returns (ret: int, off': nat, ghost txs: seq<set<nat>>)
      requires Valid() && i < |ino| && off < U32 && 0 < inodestart
      modifies this`bit, this`blk, this`ino, this`logged, this`owner
      ensures Valid() && off <= off' <= off + |src|
      ensures off <= old(ino)[i].size ==> Spliced(old(View()), View(), i, off, src[..off' - off])
      ensures off > old(ino)[i].size ==> off' == off && View() == old(View())
      ensures ret == if off' == off + |src| then |src| else -1
      ensures off' < off + |src| ==> false !in bit || off > old(ino)[i].size || off + |src| > MAXFILE * BSIZE
      ensures HoleFree(old(View()), i) ==> forall l :: l in txs ==> ChunkSized(l, bmapstart, |old(bit)|)
    {
      var n := 0;
      txs := [];
      if off <= ino[i].size {
        n, txs := FilewriteLoop(i, off, src);
      }
      // otherwise writei refuses the first chunk, if there is one
      off' := off + n;
      ret := if n == |src| then |src| else -1;
    }

    /** One round of readi: the bytes that lie in one block. */
    method ReadBlock(i: nat, bn: nat, q: nat, m: nat) returns (data: seq<Byte>, addr: nat)
      requires Valid() && i < |ino| && bn < MAXFILE && q + m <= BSIZE
      modifies this`bit, this`blk, this`ino, this`logged, this`owner
      ensures Valid() && SameFiles(old(View()), View()) && FillsHoles(old(View()), View(), i)
      ensures if addr == 0 then Full() && data == [] else |data| == m && Reads(View(), i, bn * BSIZE + q, data)
      ensures Ptr(old(View()), i, SlotOf(bn)) != 0 ==> addr != 0
      ensures old(logged) <= logged && (Ptr(old(View()), i, SlotOf(bn)) == 0 && !old(Full()) ==> logged != {})
      ensures Ptr(old(View()), i, SlotOf(bn)) != 0 || old(Full()) ==> View() == old(View()) && logged == old(logged)
    {
      ghost var a;
      addr, a := Bmap(i, bn);
      data := [];
      if addr != 0 {
        ReadsBlock(View(), owner, i, bn, q, m);
        data := blk[addr][q..q + m];
      }
    }

    /** The loop of readi.  log_write is called exactly if a hole is met and the disk has a free block. */
    method ReadLoop(i: nat, off: nat, n: nat) returns (data: seq<Byte>)
      requires Valid() && i < |ino| && off + n <= ino[i].size
      modifies this`bit, this`blk, this`ino, this`logged, this`owner
      ensures Valid() && SameFiles(old(View()), View())
      ensures |data| <= n && Reads(old(View()), i, off, data) && (|data| < n ==> Full())
      ensures HoleFree(old(View()), i) ==> |data| == n
      ensures LoggedIff(old(View()), View(), i, off, n, old(Full()), old(logged), logged)
    {
      data := [];
      SameFilesReflexive(View());
      FillsHolesReflexive(View(), i);
      while |data| < n
        invariant Valid() && SameFiles(old(View()), View()) && FillsHoles(old(View()), View(), i)
        invariant |data| <= n && Reads(old(View()), i, off, data)
        invariant LoggedIff(old(View()), View(), i, off, |data|, old(Full()), old(logged), logged)
      {
        var o := off + |data|;
        var (bn, q) := (o / BSIZE, o % BSIZE);
        var m := if n - |data| < BSIZE - q then n - |data| else BSIZE - q;
        ghost var fs1 := View();
        if HoleFree(old(View()), i) { InsideMapped(old(View()), fs1, i, bn, q); }
        ghost var (l1, full1) := (logged, Full());
        var (more, addr) := (data, 0);
        more, addr := ReadBlock(i, bn, q, m);
        LoggedNext(old(View()), fs1, View(), i, off, |data|, bn, q, m, n, old(Full()), full1, old(logged), l1, logged);
        SameFilesTransitive(old(View()), fs1, View());
        FillsHolesTransitive(old(View()), fs1, View(), i);
        if addr == 0 {
          return;
        }
        assert bn * BSIZE + q == off + |data|;
        ReadsAppend(old(View()), View(), i, off, data, more);
        data := data + more;
      }
    }

    /** Reads n bytes at off into a writable destination.  Outside a transaction, where log_write panics, the read is
        safe exactly if it meets no hole or the disk is full. */
    method Readi(i: nat, off: nat, n: nat) returns (data: seq<Byte>)
      requires Valid() && i < |ino| && off < U32 && n < U32
      modifies this`bit, this`blk, this`ino, this`logged, this`owner
      ensures Valid() && SameFiles(old(View()), View())
      ensures off > old(ino)[i].size || off + n >= U32 ==> data == [] && View() == old(View()) && logged == old(logged)
      ensures off <= old(ino)[i].size && off + n < U32 ==>
                var (c, end) := (Contents(old(View()), i), off + |data|);
                && |data| <= n && end <= |c| && data == c[off..end]
                && (|data| < n && end < |c| ==> false !in bit && !HoleFree(old(View()), i))
                && (NoHoleIn(old(View()), i, off, n) || old(Full()) ==> View() == old(View()) && logged == old(logged))
                && (!NoHoleIn(old(View()), i, off, n) && !old(Full()) ==> logged != {})
    {
      SameFilesReflexive(View());
      if off > ino[i].size || (off + n) % U32 < off {
        return [];
      }
      var n' := if off + n > ino[i].size then ino[i].size - off else n;
      data := ReadLoop(i, off, n');
      ReadsContents(old(View()), i, off, data);
      MappedBytes(old(View()), i, off, n, n');
      assert UnfoldLoggedIff(0);
    }

    /** Frees the block in a pointer of the inode itself, if there is one. */
    method FreeAddr(i: nat, k: nat)
      requires Valid() && i < |ino| && k < NDIRECT
      modifies this`bit, this`ino, this`logged, this`owner
      ensures Valid() && OthersSame(old(View()), View(), i) && Releases(old(owner), owner, i)
      ensures forall k' :: 0 <= k' < NSLOTS ==> Ptr(View(), i, k') == if k' == k then 0 else Ptr(old(View()), i, k')
      ensures Covers(old(View()), View(), i, old(logged), logged, bmapstart)
    {
      OthersSameReflexive(View(), i);
      CoversNothing(View(), i, logged, bmapstart);
      var p := ino[i].addrs[k];
      if p != 0 {
        PtrInRange(View(), owner, i, k);
        FreeEffect(View(), owner, i, k);
        Bfree(p);
        BitCovers(old(View()), p, i, old(logged), bmapstart);
        InodeCovers(View(), i, ino[i].(addrs := ino[i].addrs[k := 0]), logged, bmapstart);
        ghost var fs1 := View();
        ino := ino[i := ino[i].(addrs := ino[i].addrs[k := 0])];
        CoversMore(old(View()), fs1, View(), i, old(logged), logged, logged, bmapstart);
        assert View() == Freed(old(View()), i, k);
        owner := owner - {p};
      }
    }

    method FreeDirect(i: nat)
      requires Valid() && i < |ino|
      modifies this`bit, this`ino, this`logged, this`owner
      ensures Valid() && OthersSame(old(View()), View(), i) && Releases(old(owner), owner, i)
      ensures forall k :: 0 <= k < NSLOTS ==> Ptr(View(), i, k) == if k < NDIRECT then 0 else Ptr(old(View()), i, k)
      ensures Covers(old(View()), View(), i, old(logged), logged, bmapstart)
    {
      OthersSameReflexive(View(), i);
      CoversNothing(View(), i, logged, bmapstart);
      var k := 0;
      while k < NDIRECT
        invariant k <= NDIRECT && Valid() && OthersSame(old(View()), View(), i) && Releases(old(owner), owner, i)
        invariant forall k' :: 0 <= k' < NSLOTS ==> Ptr(View(), i, k') == if k' < k then 0 else Ptr(old(View()), i, k')
        invariant Covers(old(View()), View(), i, old(logged), logged, bmapstart)
      {
        ghost var (fs1, owner1, l1) := (View(), owner, logged);
        FreeAddr(i, k);
        CoversMore(old(View()), fs1, View(), i, old(logged), l1, logged, bmapstart);
        OthersSameTransitive(old(View()), fs1, View(), i);
        ReleasesTransitive(old(owner), owner1, owner, i);
        k := k + 1;
      }
    }

    /** One round of the second loop of itrunc. */
    method FreeEntry(i: nat, ib: nat, j: nat, ghost sh: Block) returns (ghost sh': Block)
      requires Truncating(View(), owner, i, ib, j, sh) && j < NINDIRECT
      modifies this`bit, this`logged, this`owner
      ensures Truncating(View(), owner, i, ib, j + 1, sh') && Releases(old(owner), owner, i)
      ensures OthersSame(SetBlock(old(View()), ib, sh), SetBlock(View(), ib, sh'), i)
      ensures Covers(old(View()), View(), i, old(logged), logged, bmapstart)
    {
      TruncateEntry(View(), owner, i, ib, j, sh);
      CoversNothing(View(), i, logged, bmapstart);
      OthersSameReflexive(SetBlock(View(), ib, sh), i);
      sh' := sh;
      var a := GetUint(blk[ib], j);
      if a != 0 {
        BitCovers(View(), a, i, logged, bmapstart);
        Bfree(a);
        owner := owner - {a};
        sh' := PutUint(sh, j, 0);
      }
    }

    method FreeEntries(i: nat, ib: nat) returns (ghost sh: Block)
      requires Valid() && i < |ino| && ino[i].addrs[NDIRECT] == ib != 0
      modifies this`bit, this`logged, this`owner
      ensures Truncating(View(), owner, i, ib, NINDIRECT, sh) && Releases(old(owner), owner, i)
      ensures OthersSame(old(View()), SetBlock(View(), ib, sh), i)
      ensures Covers(old(View()), View(), i, old(logged), logged, bmapstart)
    {
      PtrInRange(View(), owner, i, NDIRECT);
      CoversNothing(View(), i, logged, bmapstart);
      sh := blk[ib];
      assert SetBlock(View(), ib, sh) == View();
      OthersSameReflexive(View(), i);
      var j := 0;
      while j < NINDIRECT
        invariant j <= NINDIRECT && Truncating(View(), owner, i, ib, j, sh) && Releases(old(owner), owner, i)
        invariant OthersSame(old(View()), SetBlock(View(), ib, sh), i)
        invariant Covers(old(View()), View(), i, old(logged), logged, bmapstart)
      {
        ghost var (fs1, owner1) := (SetBlock(View(), ib, sh), owner);
        ghost var (fs2, l2) := (View(), logged);
        sh := FreeEntry(i, ib, j, sh);
        CoversMore(old(View()), fs2, View(), i, old(logged), l2, logged, bmapstart);
        OthersSameTransitive(old(View()), fs1, SetBlock(View(), ib, sh), i);
        ReleasesTransitive(old(owner), owner1, owner, i);
        j := j + 1;
      }
    }

    /** The indirect block, its entries and the pointer to it. */
    method FreeIndirect(i: nat)
      requires Valid() && i < |ino|
      modifies this`bit, this`ino, this`logged, this`owner
      ensures Valid() && OthersSame(old(View()), View(), i) && Releases(old(owner), owner, i) && |ino| == |old(ino)|
      ensures forall k :: NDIRECT <= k < NSLOTS ==> Ptr(View(), i, k) == 0
      ensures forall k :: 0 <= k < NDIRECT ==> Ptr(View(), i, k) == Ptr(old(View()), i, k)
      ensures Covers(old(View()), View(), i, old(logged), logged, bmapstart)
    {
      OthersSameReflexive(View(), i);
      CoversNothing(View(), i, logged, bmapstart);
      var ib := ino[i].addrs[NDIRECT];
      if ib != 0 {
        ghost var sh := FreeEntries(i, ib);
        ghost var (fs1, owner1, l1) := (View(), owner, logged);
        TruncateIndirect(fs1, owner, i, ib, sh);
        BitCovers(fs1, ib, i, l1, bmapstart);
        Bfree(ib);
        ghost var fs2 := View();
        CoversMore(old(View()), fs1, fs2, i, old(logged), l1, logged, bmapstart);
        InodeCovers(fs2, i, ino[i].(addrs := ino[i].addrs[NDIRECT := 0]), logged, bmapstart);
        ino := ino[i := ino[i].(addrs := ino[i].addrs[NDIRECT := 0])];
        CoversMore(old(View()), fs2, View(), i, old(logged), logged, logged, bmapstart);
        owner := owner - {ib};
        OthersSameTransitive(old(View()), SetBlock(fs1, ib, sh), View(), i);
        ReleasesTransitive(old(owner), owner1, owner, i);
      }
    }

    /** Frees every block of inode i, exactly those, and leaves all other files alone. */
    method Itrunc(i: nat)
      requires Valid() && i < |ino|
      modifies this`bit, this`ino, this`logged, this`owner
      ensures Valid() && OthersSame(old(View()), View(), i)
      ensures ino[i].size == 0 && forall k :: 0 <= k < NSLOTS ==> Ptr(View(), i, k) == 0
      ensures owner == map b | b in old(owner) && old(owner)[b].i != i :: old(owner)[b]
      ensures AllLogged(old(View()), View(), old(logged), logged, bmapstart, inodestart)
    {
      FreeDirect(i);
      ghost var (fs1, owner1, l1) := (View(), owner, logged);
      FreeIndirect(i);
      ghost var (fs2, l2) := (View(), logged);
      CoversMore(old(View()), fs1, fs2, i, old(logged), l1, l2, bmapstart);
      ReleasesTransitive(old(owner), owner1, owner, i);
      OthersSameTransitive(old(View()), fs1, fs2, i);
      TruncateSize(old(View()), fs2, owner, i);
      AllReleased(fs2, old(owner), owner, i);
      ino := ino[i := ino[i].(size := 0)];
      Iupdate(i);
      CoversAll(old(View()), fs2, i, ino[i], old(logged), l2, bmapstart, inodestart);
    }
  }
}
