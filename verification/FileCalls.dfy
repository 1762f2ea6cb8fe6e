/**
 Reading files through read and write calls (fileread and filewrite of kernel/file.c over readi and writei
 of kernel/fs.c): what is written is read back, and reading on gives the whole file.
 */
module FileCalls {
  import opened Blocks
  import opened FsState
  import opened FsOps

  /** fileread on an inode: the bytes from the file offset on, which moves behind them. */
  method Fileread(fs: FileSystem, i: nat, off: nat, n: nat) returns (data: seq<Byte>, off': nat)
    requires fs.Valid() && i < |fs.ino| && off < U32 && n < U32
    modifies fs`bit, fs`blk, fs`ino, fs`logged, fs`owner
    ensures fs.Valid() && SameFiles(old(fs.View()), fs.View())
    ensures off' == off + |data| && |data| <= n
    ensures off > |Contents(old(fs.View()), i)| || off + n >= U32 ==> data == []
    ensures off <= |Contents(old(fs.View()), i)| && off + n < U32 ==>
              var c := Contents(old(fs.View()), i);
              && off' <= |c| && data == c[off..off']
              && (|data| < n && off' < |c| ==> false !in fs.bit && !HoleFree(old(fs.View()), i))
    ensures HoleFree(old(fs.View()), i) ==> fs.View() == old(fs.View())
  {
    data := fs.Readi(i, off, n);
    off' := off + |data|;
    if HoleFree(old(fs.View()), i) { HoleFreeIn(old(fs.View()), i, off, n); }
  }

  lemma HoleFreeIn(fs: FS, i: nat, off: nat, n: nat)
    requires Wf(fs) && i < |fs.ino| && HoleFree(fs, i)
    ensures NoHoleIn(fs, i, off, n)
  {
    assert UnfoldHoleFree(0);
  }

  lemma SameContents(a: FS, b: FS, i: nat)
    requires SameFiles(a, b) && i < |a.ino|
    ensures Contents(a, i) == Contents(b, i)
  {
    assert UnfoldSameFiles(0);
  }

  /** Reading n bytes at a time until there is nothing more gives the whole file; less only from a file with holes, on
      a full disk. */
  method ReadAll(fs: FileSystem, i: nat, n: nat) returns (data: seq<Byte>)
    requires fs.Valid() && i < |fs.ino| && 0 < n < 0x8000_0000
    modifies fs`bit, fs`blk, fs`ino, fs`logged, fs`owner
    ensures fs.Valid() && SameFiles(old(fs.View()), fs.View()) && data <= Contents(old(fs.View()), i)
    ensures data == Contents(old(fs.View()), i) || (false !in fs.bit && !HoleFree(old(fs.View()), i))
  {
    SameFilesReflexive(fs.View());
    ghost var c := Contents(fs.View(), i);
    var (off, more) := (0, [0]);
    data := [];
    while more != []
      invariant fs.Valid() && i < |fs.ino| && SameFiles(old(fs.View()), fs.View())
      invariant off <= |c| == fs.ino[i].size && data == c[..off]
      invariant HoleFree(old(fs.View()), i) ==> fs.View() == old(fs.View())
      invariant more == [] && off < |c| ==> false !in fs.bit && !HoleFree(old(fs.View()), i)
      decreases |c| - off, |more|
    {
      ghost var (fs1, off1) := (fs.View(), off);
      SameContents(old(fs.View()), fs1, i);
      more, off := Fileread(fs, i, off, n);
      data := data + more;
      SameFilesTransitive(old(fs.View()), fs1, fs.View());
      SameContents(old(fs.View()), fs.View(), i);
      assert c[..off1] + c[off1..off] == c[..off];
    }
  }

  /** What writei has written, readi gives back. */
  method WriteAndRead(fs: FileSystem, i: nat, off: nat, src: seq<Byte>) returns (r: int, data: seq<Byte>)
    requires fs.Valid() && i < |fs.ino| && off < U32 && |src| < U32 && 0 < fs.inodestart
    modifies fs`bit, fs`blk, fs`ino, fs`logged, fs`owner
    ensures r < 0 <==> off > old(fs.ino)[i].size || off + |src| > MAXFILE * BSIZE
    ensures r >= 0 ==> r <= |src| && data <= src[..r]
    ensures r >= 0 && HoleFree(old(fs.View()), i) ==> data == src[..r]
  {
    ghost var y;
    r, y := fs.Writei(i, off, src);
    data := [];
    if r >= 0 {
      ghost var fs1 := fs.View();
      assert Contents(fs1, i) == Splice(Contents(old(fs.View()), i), off, src[..r]) by { assert UnfoldSpliced(0); }
      data := fs.Readi(i, off, r);
      assert data == Contents(fs1, i)[off..off + |data|];
    }
  }
}
