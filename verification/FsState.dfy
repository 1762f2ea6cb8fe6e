/**
 The on-disk state of the file system as kernel/fs.c sees it through the log: the free
 bitmap, the blocks, and the inodes with their direct, indirect and indirect-entry slots.
 */
module FsState {
  import opened Blocks

  const BSIZE: nat := 1024
  const NDIRECT: nat := 12
  const NINDIRECT: nat := 256
  const MAXFILE: nat := 268
  const NSLOTS: nat := 269     // NDIRECT direct slots, the indirect pointer, NINDIRECT entries
  const U32: nat := 0x1_0000_0000

  datatype Inode = Inode(addrs: seq<nat>, size: nat)

  /** Blocks below `nmeta` hold the boot block, super block, log, inodes and bitmap. */
  datatype FS = FS(nmeta: nat, bit: seq<bool>, blk: seq<Block>, ino: seq<Inode>)

  /** Slot k of inode i: k < 12 direct, k == 12 the indirect pointer, k > 12 entry k - 13 of the indirect block. */
  datatype Slot = Slot(i: nat, k: nat)

  function ZeroBlock(): (z: Block)
    ensures |z| == BSIZE && forall x :: 0 <= x < BSIZE ==> z[x] == 0
  {
    seq(BSIZE, _ => 0)
  }

  // Little-endian block numbers inside an indirect block.

  function GetUint(a: Block, j: nat): nat
    requires |a| == BSIZE && j < NINDIRECT
  {
    var (b0: int, b1: int, b2: int, b3: int) := (a[4 * j], a[4 * j + 1], a[4 * j + 2], a[4 * j + 3]);
    b0 + 256 * b1 + 65536 * b2 + 16777216 * b3
  }

  function PutUint(a: Block, j: nat, v: nat): (r: Block)
    requires |a| == BSIZE && j < NINDIRECT && v < U32
    ensures |r| == BSIZE
  {
    a[4 * j := v % 256][4 * j + 1 := v / 256 % 256][4 * j + 2 := v / 65536 % 256][4 * j + 3 := v / 16777216]
  }

  lemma PutGet(a: Block, j: nat, v: nat, j': nat)
    requires |a| == BSIZE && j < NINDIRECT && j' < NINDIRECT && v < U32
    ensures GetUint(PutUint(a, j, v), j') == if j' == j then v else GetUint(a, j')
  {
    var r := PutUint(a, j, v);
    if j' == j {
      assert r[4 * j] == v % 256 && r[4 * j + 1] == v / 256 % 256;
      assert r[4 * j + 2] == v / 65536 % 256 && r[4 * j + 3] == v / 16777216;
    } else {
      assert r[4 * j'] == a[4 * j'] && r[4 * j' + 1] == a[4 * j' + 1];
      assert r[4 * j' + 2] == a[4 * j' + 2] && r[4 * j' + 3] == a[4 * j' + 3];
    }
  }

  lemma ZeroGet(j: nat)
    requires j < NINDIRECT
    ensures GetUint(ZeroBlock(), j) == 0
  {
  }

  // Pointers.

  predicate Wf(fs: FS) {
    true == (
      && 0 < fs.nmeta <= |fs.bit| == |fs.blk| < U32
      && (forall b :: 0 <= b < |fs.blk| ==> |fs.blk[b]| == BSIZE)
      && (forall i :: 0 <= i < |fs.ino| ==> |fs.ino[i].addrs| == NDIRECT + 1 && fs.ino[i].size <= MAXFILE * BSIZE))
  }

  /** The block number in slot (i, k), 0 if none. */
  function Ptr(fs: FS, i: nat, k: nat): nat
    requires Wf(fs) && i < |fs.ino| && k < NSLOTS
  {
    var addrs := fs.ino[i].addrs;
    if k <= NDIRECT then addrs[k]
    else if addrs[NDIRECT] == 0 || addrs[NDIRECT] >= |fs.blk| then 0
    else GetUint(fs.blk[addrs[NDIRECT]], k - NDIRECT - 1)
  }

  /** The slot that maps file block bn. */
  function SlotOf(bn: nat): (k: nat)
    requires bn < MAXFILE
    ensures k < NSLOTS && k != NDIRECT
  {
    if bn < NDIRECT then bn else bn + 1
  }

  function ByteAt(fs: FS, i: nat, off: nat): Byte
    requires Wf(fs) && i < |fs.ino| && off < MAXFILE * BSIZE
  {
    var b := Ptr(fs, i, SlotOf(off / BSIZE));
    if b == 0 || b >= |fs.blk| then 0 else fs.blk[b][off % BSIZE]
  }

  /** What a reader of inode i sees; an unmapped block reads as zeros. */
  function Contents(fs: FS, i: nat): (s: seq<Byte>)
    requires Wf(fs) && i < |fs.ino|
    ensures |s| == fs.ino[i].size
  {
    seq(fs.ino[i].size, off requires 0 <= off < fs.ino[i].size <= MAXFILE * BSIZE => ByteAt(fs, i, off))
  }

  // Ownership.

  predicate Valid(fs: FS, s: Slot) {
    s.i < |fs.ino| && s.k < NSLOTS
  }

  /** Every non-zero pointer names a data block of which it is the only owner. */
  predicate PointersOwned(fs: FS, owner: map<nat, Slot>)
    requires Wf(fs)
  {
    forall i, k :: 0 <= i < |fs.ino| && 0 <= k < NSLOTS && Ptr(fs, i, k) != 0 ==>
      Ptr(fs, i, k) in owner && owner[Ptr(fs, i, k)] == Slot(i, k)
  }

  /** Every owned block is a data block that its owner points to. */
  predicate OwnersPoint(fs: FS, owner: map<nat, Slot>)
    requires Wf(fs)
  {
    forall b :: b in owner ==>
      fs.nmeta <= b < |fs.bit| && Valid(fs, owner[b]) && Ptr(fs, owner[b].i, owner[b].k) == b
  }

  /** The bitmap marks exactly the metadata and the owned blocks. */
  predicate BitmapExact(fs: FS, owner: map<nat, Slot>) {
    forall b :: 0 <= b < |fs.bit| ==> (fs.bit[b] <==> b < fs.nmeta || b in owner)
  }

  predicate Inv(fs: FS, owner: map<nat, Slot>) {
    true == (Wf(fs) && PointersOwned(fs, owner) && OwnersPoint(fs, owner) && BitmapExact(fs, owner))
  }

  /** Block ownership: no block is referenced twice over all slots of all inodes, no metadata block is
      referenced, and the bitmap is set exactly for metadata and referenced blocks. */
  lemma Ownership(fs: FS, owner: map<nat, Slot>)
    requires Inv(fs, owner)
    ensures Wf(fs)
    ensures forall i, k, i', k' :: 0 <= i < |fs.ino| && 0 <= k < NSLOTS && 0 <= i' < |fs.ino| && 0 <= k' < NSLOTS
                && Ptr(fs, i, k) == Ptr(fs, i', k') != 0
              ==> i == i' && k == k'
    ensures forall i, k :: 0 <= i < |fs.ino| && 0 <= k < NSLOTS && Ptr(fs, i, k) != 0 ==>
            fs.nmeta <= Ptr(fs, i, k) < |fs.bit|
    ensures forall b :: fs.nmeta <= b < |fs.bit| ==>
              (fs.bit[b] <==> exists i, k :: 0 <= i < |fs.ino| && 0 <= k < NSLOTS && Ptr(fs, i, k) == b)
  {
    forall b | fs.nmeta <= b < |fs.bit| && fs.bit[b]
      ensures exists i, k :: 0 <= i < |fs.ino| && 0 <= k < NSLOTS && Ptr(fs, i, k) == b
    {
      assert b in owner;
      assert Ptr(fs, owner[b].i, owner[b].k) == b;
    }
  }

  // Filling an empty slot with a freshly allocated, zeroed block.

  predicate CanFill(fs: FS, i: nat, k: nat, r: nat) {
    && Wf(fs) && i < |fs.ino| && k < NSLOTS && r < |fs.bit|
    && (k > NDIRECT ==> 0 < fs.ino[i].addrs[NDIRECT] < |fs.blk|)
  }

  function SetAddr(fs: FS, i: nat, k: nat, v: nat): FS
    requires Wf(fs) && i < |fs.ino| && k <= NDIRECT
  {
    fs.(ino := fs.ino[i := fs.ino[i].(addrs := fs.ino[i].addrs[k := v])])
  }

  function SetEntry(fs: FS, i: nat, j: nat, v: nat): FS
    requires Wf(fs) && i < |fs.ino| && j < NINDIRECT && 0 < fs.ino[i].addrs[NDIRECT] < |fs.blk| && v < U32
  {
    var ib := fs.ino[i].addrs[NDIRECT];
    fs.(blk := fs.blk[ib := PutUint(fs.blk[ib], j, v)])
  }

  /** balloc's effect: mark block r and zero it. */
  function Allocated(fs: FS, r: nat): FS
    requires Wf(fs) && r < |fs.bit|
  {
    fs.(bit := fs.bit[r := true], blk := fs.blk[r := ZeroBlock()])
  }

  function Filled(fs: FS, i: nat, k: nat, r: nat): (fs': FS)
    requires CanFill(fs, i, k, r)
    ensures Wf(fs')
  {
    var fs1 := Allocated(fs, r);
    if k <= NDIRECT then SetAddr(fs1, i, k, r) else SetEntry(fs1, i, k - NDIRECT - 1, r)
  }

  lemma FillPtr(fs: FS, owner: map<nat, Slot>, i: nat, k: nat, r: nat, i': nat, k': nat)
    requires Inv(fs, owner) && CanFill(fs, i, k, r) && !fs.bit[r] && Ptr(fs, i, k) == 0
    requires i' < |fs.ino| && k' < NSLOTS
    ensures Ptr(Filled(fs, i, k, r), i', k') == if i' == i && k' == k then r else Ptr(fs, i', k')
  {
    var fs' := Filled(fs, i, k, r);
    assert Ptr(fs, i', NDIRECT) == fs.ino[i'].addrs[NDIRECT] && Ptr(fs, i, NDIRECT) == fs.ino[i].addrs[NDIRECT];
    if k' > NDIRECT {
      if k > NDIRECT {
        PutGet(fs.blk[fs.ino[i].addrs[NDIRECT]], k - NDIRECT - 1, r, k' - NDIRECT - 1);
      } else if k == NDIRECT && i' == i {
        ZeroGet(k' - NDIRECT - 1);
      }
    }
  }

  lemma FillInv(fs: FS, owner: map<nat, Slot>, i: nat, k: nat, r: nat)
    requires Inv(fs, owner) && CanFill(fs, i, k, r) && !fs.bit[r] && Ptr(fs, i, k) == 0
    ensures Inv(Filled(fs, i, k, r), owner[r := Slot(i, k)])
  {
    var (fs', owner') := (Filled(fs, i, k, r), owner[r := Slot(i, k)]);
    forall i', k' | 0 <= i' < |fs.ino| && 0 <= k' < NSLOTS
      ensures Ptr(fs', i', k') == if i' == i && k' == k then r else Ptr(fs, i', k')
    {
      FillPtr(fs, owner, i, k, r, i', k');
    }
    assert r !in owner;
    assert PointersOwned(fs', owner');
    assert OwnersPoint(fs', owner');
    assert BitmapExact(fs', owner');
  }

  lemma FillBytes(fs: FS, owner: map<nat, Slot>, i: nat, k: nat, r: nat, i': nat, off: nat)
    requires Inv(fs, owner) && CanFill(fs, i, k, r) && !fs.bit[r] && Ptr(fs, i, k) == 0
    requires i' < |fs.ino| && off < MAXFILE * BSIZE
    ensures ByteAt(Filled(fs, i, k, r), i', off) == ByteAt(fs, i', off)
  {
    var k' := SlotOf(off / BSIZE);
    FillPtr(fs, owner, i, k, r, i', k');
    var p := Ptr(fs, i', k');
    if p != 0 {
      assert owner[p] == Slot(i', k') && r !in owner;
      if k > NDIRECT {
        assert Ptr(fs, i, NDIRECT) == fs.ino[i].addrs[NDIRECT];
        assert owner[fs.ino[i].addrs[NDIRECT]] == Slot(i, NDIRECT);
      }
    }
  }

  // Emptying a slot and freeing its block.

  predicate CanFree(fs: FS, i: nat, k: nat) {
    && Wf(fs) && i < |fs.ino| && k < NSLOTS && 0 < Ptr(fs, i, k) < |fs.bit|
    && (k == NDIRECT ==> forall k' :: NDIRECT < k' < NSLOTS ==> Ptr(fs, i, k') == 0)
  }

  function Freed(fs: FS, i: nat, k: nat): (fs': FS)
    requires CanFree(fs, i, k)
    ensures Wf(fs')
  {
    var fs1 := fs.(bit := fs.bit[Ptr(fs, i, k) := false]);
    if k <= NDIRECT then SetAddr(fs1, i, k, 0) else SetEntry(fs1, i, k - NDIRECT - 1, 0)
  }

  lemma FreePtr(fs: FS, owner: map<nat, Slot>, i: nat, k: nat, i': nat, k': nat)
    requires Inv(fs, owner) && CanFree(fs, i, k) && i' < |fs.ino| && k' < NSLOTS
    ensures Ptr(Freed(fs, i, k), i', k') == if i' == i && k' == k then 0 else Ptr(fs, i', k')
  {
    assert Ptr(fs, i', NDIRECT) == fs.ino[i'].addrs[NDIRECT] && Ptr(fs, i, NDIRECT) == fs.ino[i].addrs[NDIRECT];
    if k' > NDIRECT && k > NDIRECT {
      PutGet(fs.blk[fs.ino[i].addrs[NDIRECT]], k - NDIRECT - 1, 0, k' - NDIRECT - 1);
    }
  }

  lemma FreeInv(fs: FS, owner: map<nat, Slot>, i: nat, k: nat)
    requires Inv(fs, owner) && CanFree(fs, i, k)
    ensures fs.bit[Ptr(fs, i, k)] && Inv(Freed(fs, i, k), owner - {Ptr(fs, i, k)})
  {
    var p := Ptr(fs, i, k);
    var (fs', owner') := (Freed(fs, i, k), owner - {p});
    forall i', k' | 0 <= i' < |fs.ino| && 0 <= k' < NSLOTS
      ensures Ptr(fs', i', k') == if i' == i && k' == k then 0 else Ptr(fs, i', k')
    {
      FreePtr(fs, owner, i, k, i', k');
    }
    assert owner[p] == Slot(i, k);
    assert PointersOwned(fs', owner');
    assert OwnersPoint(fs', owner');
    assert BitmapExact(fs', owner');
  }

  lemma FreeBytes(fs: FS, owner: map<nat, Slot>, i: nat, k: nat, i': nat, off: nat)
    requires Inv(fs, owner) && CanFree(fs, i, k) && i' < |fs.ino| && off < MAXFILE * BSIZE && i' != i
    ensures ByteAt(Freed(fs, i, k), i', off) == ByteAt(fs, i', off)
  {
    var k' := SlotOf(off / BSIZE);
    FreePtr(fs, owner, i, k, i', k');
    var p := Ptr(fs, i', k');
    if p != 0 && k > NDIRECT {
      assert owner[p] == Slot(i', k');
      assert Ptr(fs, i, NDIRECT) == fs.ino[i].addrs[NDIRECT];
      assert owner[fs.ino[i].addrs[NDIRECT]] == Slot(i, NDIRECT);
    }
  }

  // Changing the contents of a block.

  function SetBlock(fs: FS, b: nat, data: Block): (fs': FS)
    requires Wf(fs) && b < |fs.blk| && |data| == BSIZE
    ensures Wf(fs')
  {
    fs.(blk := fs.blk[b := data])
  }

  /** A block that is not an indirect block can be rewritten without changing any pointer. */
  lemma SetBlockInv(fs: FS, owner: map<nat, Slot>, b: nat, data: Block)
    requires Inv(fs, owner) && b < |fs.blk| && |data| == BSIZE && (b in owner ==> owner[b].k != NDIRECT)
    ensures Inv(SetBlock(fs, b, data), owner)
    ensures forall i, k :: 0 <= i < |fs.ino| && 0 <= k < NSLOTS ==> Ptr(SetBlock(fs, b, data), i, k) == Ptr(fs, i, k)
  {
    var fs' := SetBlock(fs, b, data);
    forall i, k | 0 <= i < |fs.ino| && 0 <= k < NSLOTS
      ensures Ptr(fs', i, k) == Ptr(fs, i, k)
    {
      assert Ptr(fs, i, NDIRECT) == fs.ino[i].addrs[NDIRECT];
    }
    assert PointersOwned(fs', owner);
    assert OwnersPoint(fs', owner);
  }

  lemma SetBlockBytes(fs: FS, owner: map<nat, Slot>, b: nat, data: Block, i: nat, off: nat)
    requires Inv(fs, owner) && b < |fs.blk| && |data| == BSIZE && (b in owner ==> owner[b].k != NDIRECT)
    requires i < |fs.ino| && off < MAXFILE * BSIZE
    ensures ByteAt(SetBlock(fs, b, data), i, off)
            == if b in owner && owner[b] == Slot(i, SlotOf(off / BSIZE)) then data[off % BSIZE] else ByteAt(fs, i, off)
  {
    SetBlockInv(fs, owner, b, data);
    var p := Ptr(fs, i, SlotOf(off / BSIZE));
    if b in owner && owner[b] == Slot(i, SlotOf(off / BSIZE)) {
      assert p == b;
    } else if p != 0 {
      assert owner[p] == Slot(i, SlotOf(off / BSIZE));
    }
  }
}
