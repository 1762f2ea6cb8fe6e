/**
 mkfs/mkfs.c: building the initial image with a counter of the next free block, and
 writing the bitmap at the end.  The finished image satisfies the invariant that the
 kernel's file-system operations keep.
 */
module Mkfs {
  import opened Blocks
  import opened FsState
  import opened FsOps

  /** The bitmap mkfs's balloc writes at the end: the first `used` blocks. */
  function FirstBits(size: nat, used: nat): (b: seq<bool>)
    ensures |b| == size && forall x :: 0 <= x < size ==> (b[x] <==> x < used)
  {
    seq(size, x requires 0 <= x < size => x < used)
  }

  /** Bytes from the end of the file on read as zeros. */
  ghost predicate ZeroTail(fs: FS, i: nat)
    requires Wf(fs) && i < |fs.ino|
  {
    forall x :: fs.ino[i].size <= x < MAXFILE * BSIZE ==> ByteAt(fs, i, x) == 0
  }

  lemma EmptyImage(fs: FS)
    requires Wf(fs) && fs.bit == FirstBits(|fs.blk|, fs.nmeta)
    requires forall i :: 0 <= i < |fs.ino| ==> fs.ino[i] == Inode(seq(NDIRECT + 1, _ => 0), 0)
    ensures Sound(fs, map[]) && forall i :: 0 <= i < |fs.ino| ==> ZeroTail(fs, i)
  {
  }

  /** Taking the next free block is what the kernel's balloc does on the final bitmap. */
  lemma TakeNext(fs: FS, f: nat)
    requires Wf(fs) && f < |fs.blk| && fs.bit == FirstBits(|fs.blk|, f) && fs.blk[f] == ZeroBlock()
    ensures fs.(bit := FirstBits(|fs.blk|, f + 1)) == Allocated(fs, f)
  {
    assert FirstBits(|fs.blk|, f + 1) == FirstBits(|fs.blk|, f)[f := true];
    assert fs.blk[f := ZeroBlock()] == fs.blk;
  }

  /** Everything allocated lies below the counter. */
  lemma BelowCounter(fs: FS, owner: map<nat, Slot>, f: nat, i: nat, k: nat)
    requires Wf(fs) && Sound(fs, owner) && fs.bit == FirstBits(|fs.blk|, f) && i < |fs.ino| && k < NSLOTS
    requires Ptr(fs, i, k) != 0
    ensures Ptr(fs, i, k) < f && Ptr(fs, i, k) < |fs.blk|
  {
    PtrInRange(fs, owner, i, k);
  }


  /** Appending d at the end of inode i, before the size is raised: tails other than i's stay zero. */
  ghost predicate Appended(fs0: FS, fs: FS, i: nat, d: seq<Byte>) {
    && Wf(fs0) && i < |fs0.ino| && Wrote(fs0, fs, i, fs0.ino[i].size, d) && fs0.ino[i].size + |d| <= MAXFILE * BSIZE
  }

  lemma AppendedTails(fs0: FS, fs: FS, i: nat, d: seq<Byte>)
    requires Appended(fs0, fs, i, d) && forall i' :: 0 <= i' < |fs0.ino| ==> ZeroTail(fs0, i')
    ensures fs.ino[i].size == fs0.ino[i].size
    ensures var fs' := SetSize(fs, i, fs0.ino[i].size + |d|);
            && (forall i' :: 0 <= i' < |fs0.ino| ==> ZeroTail(fs', i'))
            && Contents(fs', i) == Contents(fs0, i) + d
            && forall i' :: 0 <= i' < |fs0.ino| && i' != i ==> Contents(fs', i') == Contents(fs0, i')
  {
    var off := fs0.ino[i].size;
    SplicedContents(fs0, fs, i, off, d);
    assert UnfoldWrote(0);
    var fs' := SetSize(fs, i, off + |d|);
    assert Splice(Contents(fs0, i), off, d) == Contents(fs0, i) + d;
    forall i', x | 0 <= i' < |fs0.ino| && fs'.ino[i'].size <= x < MAXFILE * BSIZE
      ensures ByteAt(fs', i', x) == 0
    {
      SetSizeByte(fs, i, off + |d|, i', x);
      assert ZeroTail(fs0, i');
      assert ByteAt(fs, i', x) == ByteAt(fs0, i', x);
    }
  }

  lemma StepsFit(off: nat, tot: nat, n: nat, t: nat)
    requires InStep(off, tot, n, t)
    ensures t <= n / BSIZE + 2
  {
    assert UnfoldInStep(0);
  }

  lemma AppendMore(fs0: FS, fs1: FS, fs2: FS, i: nat, data: seq<Byte>, n: nat, n1: nat)
    requires n + n1 <= |data| && Appended(fs0, fs1, i, data[..n]) && fs0.ino[i].size + n + n1 <= MAXFILE * BSIZE
    requires Wrote(fs1, fs2, i, fs0.ino[i].size + n, data[n..n + n1])
    ensures Appended(fs0, fs2, i, data[..n + n1])
  {
    WroteTransitive(fs0, fs1, fs2, i, fs0.ino[i].size, data[..n], data[n..n + n1]);
    assert data[..n] + data[n..n + n1] == data[..n + n1];
  }

  lemma RoundUp(size: nat)
    requires size < MAXFILE * BSIZE
    ensures size < (size / BSIZE + 1) * BSIZE <= MAXFILE * BSIZE
  {
  }

  lemma RaisedContents(fs: FS, i: nat, size: nat)
    requires Wf(fs) && i < |fs.ino| && ZeroTail(fs, i) && fs.ino[i].size <= size <= MAXFILE * BSIZE
    ensures var (c, c') := (Contents(fs, i), Contents(SetSize(fs, i, size), i));
            c'[..|c|] == c && forall x :: |c| <= x < |c'| ==> c'[x] == 0
    ensures forall i' :: 0 <= i' < |fs.ino| && i' != i ==> Contents(SetSize(fs, i, size), i') == Contents(fs, i')
  {
    var fs' := SetSize(fs, i, size);
    forall i', x | 0 <= i' < |fs.ino| && 0 <= x < MAXFILE * BSIZE
      ensures ByteAt(fs', i', x) == ByteAt(fs, i', x)
    {
      SetSizeByte(fs, i, size, i', x);
    }
  }

  class Image {
    const nmeta: nat
    var freeblock: nat
    var blk: seq<Block>
    var ino: seq<Inode>
    ghost var owner: map<nat, Slot>

    /** The file system as it would be if the bitmap were written now. */
    ghost function View(): FS
      reads this
    {
      FS(nmeta, FirstBits(|blk|, freeblock), blk, ino)
    }

    ghost predicate Partial()
      reads this
    {
      && nmeta <= freeblock <= |blk|
      && Wf(View()) && Sound(View(), owner)
      && (forall b :: freeblock <= b < |blk| ==> blk[b] == ZeroBlock())
    }

    /** Between appends the bytes past the end of every file are zero as well. */
    ghost predicate Valid()
      reads this
    {
      Partial() && forall i :: 0 <= i < |ino| ==> ZeroTail(View(), i)
    }

    /** All sectors zeroed, no inode in use. */
    constructor (nmeta: nat, size: nat, ninodes: nat)
      requires 0 < nmeta <= size < U32
      ensures Valid() && freeblock == nmeta && |blk| == size && |ino| == ninodes
      ensures forall i :: 0 <= i < ninodes ==> Contents(View(), i) == []
    {
      this.nmeta := nmeta;
      freeblock := nmeta;
      blk := seq(size, _ => ZeroBlock());
      ino := seq(ninodes, _ => Inode(seq(NDIRECT + 1, _ => 0), 0));
      owner := map[];
      new;
      EmptyImage(View());
    }

    /** The block in direct slot or indirect pointer k of inode i, taken from the counter if there is none. */
    method EnsureAddr(i: nat, k: nat) returns (x: nat)
      requires Partial() && i < |ino| && k <= NDIRECT && freeblock < |blk|
      modifies this`freeblock, this`ino, this`owner
      ensures Partial() && SameFiles(old(View()), View()) && FillsHoles(old(View()), View(), i)
      ensures Ptr(View(), i, k) == x != 0 && old(freeblock) <= freeblock <= old(freeblock) + 1
    {
      x := ino[i].addrs[k];
      SameFilesReflexive(View());
      FillsHolesReflexive(View(), i);
      if x == 0 {
        x := freeblock;
        ghost var fs := View();
        TakeNext(fs, x);
        FillEffect(fs, owner, i, k, x);
        freeblock := freeblock + 1;
        ino := ino[i := ino[i].(addrs := ino[i].addrs[k := x])];
        assert View() == Filled(fs, i, k, x);
        owner := owner[x := Slot(i, k)];
      }
    }

    /** The same for entry j of the indirect block. */
    method EnsureEntry(i: nat, j: nat) returns (x: nat)
      requires Partial() && i < |ino| && j < NINDIRECT && Ptr(View(), i, NDIRECT) != 0 && freeblock < |blk|
      modifies this`freeblock, this`blk, this`owner
      ensures Partial() && SameFiles(old(View()), View()) && FillsHoles(old(View()), View(), i) && |blk| == |old(blk)|
      ensures Ptr(View(), i, NDIRECT + 1 + j) == x != 0 && old(freeblock) <= freeblock <= old(freeblock) + 1
    {
      var ib := ino[i].addrs[NDIRECT];
      BelowCounter(View(), owner, freeblock, i, NDIRECT);
      x := GetUint(blk[ib], j);
      SameFilesReflexive(View());
      FillsHolesReflexive(View(), i);
      if x == 0 {
        x := freeblock;
        ghost var fs := View();
        TakeNext(fs, x);
        FillEffect(fs, owner, i, NDIRECT + 1 + j, x);
        freeblock := freeblock + 1;
        blk := blk[ib := PutUint(blk[ib], j, x)];
        assert View() == Filled(fs, i, NDIRECT + 1 + j, x);
        owner := owner[x := Slot(i, NDIRECT + 1 + j)];
      }
    }

    /** The block of file block fbn. */
    method EnsureBlock(i: nat, fbn: nat) returns (x: nat)
      requires Partial() && i < |ino| && fbn < MAXFILE && freeblock + 2 <= |blk|
      modifies this`freeblock, this`blk, this`ino, this`owner
      ensures Partial() && SameFiles(old(View()), View()) && FillsHoles(old(View()), View(), i) && |blk| == |old(blk)|
      ensures Ptr(View(), i, SlotOf(fbn)) == x != 0 && freeblock <= old(freeblock) + 2
    {
      if fbn < NDIRECT {
        x := EnsureAddr(i, fbn);
      } else {
        x := EnsureAddr(i, NDIRECT);
        ghost var fs1 := View();
        x := EnsureEntry(i, fbn - NDIRECT);
        SameFilesTransitive(old(View()), fs1, View());
        FillsHolesTransitive(old(View()), fs1, View(), i);
      }
    }

    /** One round of iappend's loop: read the sector, copy, write it back. */
    method AppendRound(i: nat, off: nat, fbn: nat, data: seq<Byte>)
      requires Partial() && i < |ino| && fbn < MAXFILE && freeblock + 2 <= |blk|
      requires fbn * BSIZE <= off && off + |data| <= (fbn + 1) * BSIZE
      modifies this`freeblock, this`blk, this`ino, this`owner
      ensures Partial() && Wrote(old(View()), View(), i, off, data) && |blk| == |old(blk)|
      ensures freeblock <= old(freeblock) + 2
    {
      var x := EnsureBlock(i, fbn);
      ghost var fs1 := View();
      BelowCounter(fs1, owner, freeblock, i, SlotOf(fbn));
      PutSector(i, fbn, off - fbn * BSIZE, data, x);
      WroteAfterSame(old(View()), fs1, View(), i, off, data);
    }

    /** Reads the sector x of file block fbn, copies data into it and writes it back. */
    method PutSector(i: nat, fbn: nat, q: nat, data: seq<Byte>, x: nat)
      requires Partial() && i < |ino| && fbn < MAXFILE && q + |data| <= BSIZE && Ptr(View(), i, SlotOf(fbn)) == x != 0
      requires x < freeblock <= |blk|
      modifies this`blk
      ensures Partial() && Wrote(old(View()), View(), i, fbn * BSIZE + q, data) && |blk| == |old(blk)|
    {
      StoreEffect(View(), owner, i, fbn, q, data);
      var buf := blk[x];
      blk := blk[x := Patch(buf, q, data)];
      assert View() == SetBlock(old(View()), x, Patch(old(View()).blk[x], q, data));
    }

    /** The loop of iappend; the bytes go in at the old end of the file, at most k blocks in all. */
    method AppendLoop(i: nat, off: nat, data: seq<Byte>, ghost k: nat)
      requires Partial() && i < |ino| && off == ino[i].size && off + |data| <= MAXFILE * BSIZE
      requires k == |data| / BSIZE + 2 && freeblock + 2 * k <= |blk|
      modifies this`freeblock, this`blk, this`ino, this`owner
      ensures Partial() && Appended(old(View()), View(), i, data) && |blk| == |old(blk)|
      ensures freeblock <= old(freeblock) + 2 * k
    {
      ghost var (fs0, free0, t) := (View(), freeblock, 0);
      var n := 0;
      SameFilesReflexive(fs0);
      WroteNothing(fs0, fs0, i, off);
      assert data[..0] == [];
      while n < |data|
        invariant Partial() && n <= |data| && |blk| == |old(blk)| && freeblock <= free0 + 2 * t && 0 <= t <= k
        invariant Appended(fs0, View(), i, data[..n]) && InStep(off, n, |data|, t)
      {
        var n1 := AppendNext(i, off, n, data, fs0, t, k);
        n, t := n + n1, t + 1;
      }
      assert data[..n] == data;
    }

    method AppendNext(i: nat, off: nat, n: nat, data: seq<Byte>, ghost fs0: FS, ghost t: nat, ghost k: nat)
      returns (n1: nat)
      requires Partial() && n < |data| && k == |data| / BSIZE + 2 && freeblock + 2 * (k - t) <= |blk| && t <= k
      requires Appended(fs0, View(), i, data[..n]) && InStep(off, n, |data|, t)
      requires off == fs0.ino[i].size && off + |data| <= MAXFILE * BSIZE
      modifies this`freeblock, this`blk, this`ino, this`owner
      ensures Partial() && |blk| == |old(blk)| && freeblock <= old(freeblock) + 2 && t < k
      ensures 0 < n1 <= |data| - n && Appended(fs0, View(), i, data[..n + n1]) && InStep(off, n + n1, |data|, t + 1)
    {
      var (fbn, q) := ((off + n) / BSIZE, (off + n) % BSIZE);
      n1 := if |data| - n < BSIZE - q then |data| - n else BSIZE - q;
      NextBlock(off, n, |data|, t, fbn, q, n1);
      StepsFit(off, n + n1, |data|, t + 1);
      ghost var fs1 := View();
      AppendRound(i, off + n, fbn, data[n..n + n1]);
      AppendMore(fs0, fs1, View(), i, data, n, n1);
    }

    /** Appends data to inode i.  mkfs itself does not check that the disk is large enough. */
    method Iappend(i: nat, data: seq<Byte>)
      requires Valid() && i < |ino| && ino[i].size + |data| <= MAXFILE * BSIZE
      requires freeblock + 2 * (|data| / BSIZE + 2) <= |blk|
      modifies this`freeblock, this`blk, this`ino, this`owner
      ensures Valid() && |blk| == |old(blk)| && |ino| == |old(ino)|
      ensures Contents(View(), i) == old(Contents(View(), i)) + data
      ensures forall i' :: 0 <= i' < |ino| && i' != i ==> Contents(View(), i') == old(Contents(View(), i'))
      ensures freeblock <= old(freeblock) + 2 * (|data| / BSIZE + 2)
    {
      ghost var fs0 := View();
      var off := ino[i].size;
      AppendLoop(i, off, data, |data| / BSIZE + 2);
      ghost var fs1 := View();
      AppendedTails(fs0, fs1, i, data);
      off := off + |data|;
      SetSizeSound(fs1, owner, i, off);
      ino := ino[i := ino[i].(size := off)];
      assert View() == SetSize(fs1, i, off);
    }

    /** mkfs's balloc: marks the first freeblock blocks one by one. */
    method WriteBitmap() returns (bits: seq<bool>)
      requires freeblock <= |blk|
      ensures bits == FirstBits(|blk|, freeblock)
    {
      bits := seq(|blk|, _ => false);
      var i := 0;
      while i < freeblock
        invariant 0 <= i <= freeblock && |bits| == |blk|
        invariant forall x :: 0 <= x < |bits| ==> (bits[x] <==> x < i)
      {
        bits := bits[i := true];
        i := i + 1;
      }
    }

    /** Rounds the root directory's size up and writes the bitmap.  The image satisfies the kernel's
        invariant; the root directory is extended by zero bytes, even by a whole unmapped block when it
        filled its last block exactly. */
    method Finish(root: nat) returns (fs: FS)
      requires Valid() && root < |ino| && ino[root].size < MAXFILE * BSIZE
      modifies this`ino
      ensures Inv(fs, owner) && fs.nmeta == nmeta && |fs.ino| == |old(ino)|
      ensures var (c, c') := (old(Contents(View(), root)), Contents(fs, root));
              |c| < |c'| && |c'| % BSIZE == 0 && c'[..|c|] == c && forall x :: |c| <= x < |c'| ==> c'[x] == 0
      ensures forall i :: 0 <= i < |fs.ino| && i != root ==> Contents(fs, i) == old(Contents(View(), i))
    {
      ghost var fs0 := View();
      var off := (ino[root].size / BSIZE + 1) * BSIZE;
      RoundUp(ino[root].size);
      SetSizeSound(fs0, owner, root, off);
      RaisedContents(fs0, root, off);
      ino := ino[root := ino[root].(size := off)];
      var bits := WriteBitmap();
      fs := FS(nmeta, bits, blk, ino);
      assert fs == SetSize(fs0, root, off);
      assert UnfoldSound(0);
    }
  }
}
