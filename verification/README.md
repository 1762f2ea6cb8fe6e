# Proofs about xv6

A Dafny 4.11 model of the parts of xv6 (the teaching operating system for RISC-V) whose
correctness is not evident from reading one function: the crash-safe disk, the file system,
virtual memory, blocking and process exit, the virtio disk driver, and three user-level
algorithms.  `dafny verify dfyconfig.toml` checks everything.

How the source appears in the model:

- Code that works in place is a class, with the source's loops as loops and its fields as fields.
  Each method is tied to a function or relation on values, and the theorems are about those.
- What several processes, CPUs or devices do together is a step machine: a state, a set of
  events with a guard and an effect, and the predicate `Runs` for all finite interleavings.
  The theorems hold for every run, any number of processes and any number of CPUs.
- A `panic` is a precondition, proved of every caller in the model, or unreachable.
- Blocks, pages, inodes, processes and memory are of any number; constants such as LOGSIZE,
  MAXOPBLOCKS, NDIRECT, PIPESIZE, MAXARGS and the 16-bit and 32-bit wrap-arounds are the source's.
- Predicates of the form `forall u {:trigger UnfoldP(u)} :: UnfoldP(u) ==> body` mean just
  `body`; the trigger only keeps the verifier from looking inside where that is not needed.  In the
  same way `true == (body)` means `body`, proved as a whole and not conjunct by conjunct.

The modules:

- `LogMachine`, `LogSpace`, `LogShared`, `LogDevice`: the redo log.  The machine has every single-block write as
  a step and a crash between any two, also inside recovery; it refines a map of blocks with atomic
  transactions.  `LogDevice` is the code, whose ghost trace is a run of the machine.
- `BufferCache`, `CachedLog`: the ring of buffers with its reference counts, and the log on top of it:
  what bread, log_write, write_log and install_trans do to the ring is a run of `LogMachine`.
- `FsState`, `FsOps`, `FileCalls`, `Mkfs`: block ownership and file contents, from the image mkfs builds
  through bmap, writei, readi, itrunc, filewrite and fileread, including when the disk is full.
- `LinkCount`, `Directories`, `Paths`: link counts through create, link, unlink, open and close; where names lead
  before and after these calls; and path names.
- `VmState`, `VmEffects`, `VmTree`, `VmOps`, `VmCopy`, `VmProc`: Sv39 page tables (section 4.4 of the RISC-V
  Privileged Architecture, version 20211203) as finite maps, page ownership, user copies, and what a
  process sees of its memory as it grows, shrinks and forks.
- `SleepLock`, `ExitWait`, `Pipe`: sleep and wakeup, exit and wait, pipes: what holds in every run.
  `SleepCalls`, `WaitCalls`, `ProcCalls`, `PipeCalls`, `PipeAlone`: what single calls among all others come to.
  `Blocks` and `Cpus` hold what several modules share.
- `Virtio`, `VirtioProtocol`, `VirtioCalls`: descriptors, split virtqueues (section 2.6 of VIRTIO 1.1) with the
  device as a partner, and what one disk request comes to.
- `Arena`, `Malloc`, `ShellGrammar`, `ShellSyntax`, `ShellMap`, `ShellParser`, `ShellText`, `ShellLexing`, `Grep`,
  `GrepLaws`: the allocator of user programs, the shell's parser and grep.

Where the code does less than its comments or its design promise, the model follows the code:

- log.c reserves MAXOPBLOCKS blocks per operation, but operations that use them all can fill the
  log: `LogSpace.ExactBudget` shows that one less is safe and that MAXOPBLOCKS is not, with the
  log size that mkfs writes.  Blocks that operations have in common, such as the bitmap's, take up
  one entry for all: `LogShared.ExactShared` says how many of these are safe, and `FsOps.ChunksFitLog`
  that the chunks of filewrite cannot fill the log of a disk with at most six bitmap blocks.
- sys_link and create in a directory that has been removed, or with a link count at the largest
  short, leave wrong link counts.  `LinkCount.LinkedInv`, `LinkCount.CreatedFile` and
  `LinkCount.CreatedDir` show that the counts are right exactly in all other cases, and
  `LinkCount.CreateInRemoved` and `LinkCount.LinkTooOften` reach the two cases by calls.
- pipewrite may return early without waking the readers of what it has written.
  `Pipe.ReadersSleepRightly` says which events strand a sleeping reader and which end that,
  `Pipe.NeverStrandedExactly` which runs never strand one, and `Pipe.StrandedReader` is one that does.
- readi may allocate: `FsOps.FileSystem.Readi` says exactly when a read outside a transaction calls
  log_write, which panics there.
- malloc passes a request through an int: `Malloc.RequestExact` says for which requests the
  argument of sbrk is right.
- grep stops at a line that does not fit its buffer: `Grep.NothingLost` says exactly when that loses output,
  `Grep.FitsExactly` for which inputs no pattern loses any, and `Grep.LostLine` is an input that does.
- The shell refuses commands with MAXARGS words or more: `ShellGrammar.RoundTrip` and
  `ShellSyntax.ParsesExactly` are equivalences.
- mkfs rounds up the size of the root directory, so that it may end in an unmapped block: `Mkfs.Image.Finish`.


## Model

| member | source | states |
|---|---|---|
| `LogMachine.RunRefines` | kernel/log.c:68-235 | every run, with crashes anywhere, refines a map of blocks with a list of committed and a list of pending writes |
| `LogMachine.CrashAtomicity` | kernel/log.c:68-203 | at every moment of every run the disk recovers to a replay of committed writes in which each operation appears with all its writes in order or not at all |
| `LogMachine.OnlyCommitPoint` | kernel/log.c:99-114 | no event other than the header write of commit, crashes and recovery steps included, changes what the disk recovers to |
| `LogMachine.StepWriteHead` | kernel/log.c:192-203 | at that header write the image the disk recovers to changes from the committed contents to the current ones |
| `LogMachine.RecoveredContents` | kernel/log.c:116-123 | when recovery clears the header the home blocks hold exactly the committed writes |
| `LogMachine.ReadsLatest` | kernel/bio.c:91-103 | what bread returns for a block, cached or not, is its last logged contents |
| `LogMachine.UncommittedStaysCached` | kernel/log.c:205-235 | before the commit point no home block holds uncommitted contents, and every logged block is pinned and cached until it is installed |
| `LogMachine.CachedMatchesHome` | kernel/bio.c:71-82 | a cached block that is not pinned equals its home block, so recycling its buffer loses nothing |
| `LogMachine.QuiescentIsDurable` | kernel/log.c:144-175 | whenever no operation is active everything logged is committed and home |
| `LogMachine.OpAccounts` | kernel/log.c:126-235 | in every run of the specification all writes of an operation are committed, all are pending, or none is either; an active operation's are all pending |
| `LogSpace.SpaceBound` | kernel/log.c:126-175 | in every run in which operations log at most k distinct blocks, any set of shared blocks aside, the other entries in use plus all unspent budgets are at most LOGSIZE - 2 * (MAXOPBLOCKS - k) |
| `LogSpace.SmallBudgetNeverFull` | kernel/log.c:214-221 | with fewer than MAXOPBLOCKS blocks per operation log_write never panics, on mkfs's log size |
| `LogSpace.LargeBudgetFills` | kernel/log.c:214-221 | with MAXOPBLOCKS or more there is a run that fills the log |
| `LogSpace.ExactBudget` | kernel/log.c:214-235 | the panic is out of reach if and only if operations stay below MAXOPBLOCKS |
| `LogShared.FewShared` | kernel/log.c:214-221 | operations of at most MAXOPBLOCKS blocks, at most k of them outside m shared ones, never fill the log if MAXOPBLOCKS + 2 * k + m is at most LOGSIZE - 2: absorption charges a shared block once |
| `LogShared.ManySharedFill` | kernel/log.c:214-235 | with more shared blocks there is a run that fills it |
| `LogShared.ExactShared` | kernel/log.c:214-235 | for 2 * k from MAXOPBLOCKS and k below MAXOPBLOCKS the panic is out of reach if and only if MAXOPBLOCKS + 2 * k + m is at most LOGSIZE - 2 |
| `LogDevice.CommitIsAtomic` | kernel/log.c:192-203 | a power cut after any k of commit's writes recovers to the old contents up to the last log block and to the new contents from the header write on |
| `LogDevice.RecoveryIsIdempotent` | kernel/log.c:116-123 | a power cut anywhere inside recovery recovers to the same contents |
| `LogDevice.LastEndInstalls` | kernel/log.c:144-175 | after the last end_op the home blocks hold everything that was logged |
| `LogDevice.Log.constructor` | kernel/log.c:54-65 | power-on with any well-formed disk, including one with a committed but uninstalled log |
| `LogDevice.Log.ReadHead` | kernel/log.c:85-97 | the in-memory header becomes the one on disk, as a step of the machine |
| `LogDevice.Log.WriteHead` | kernel/log.c:99-114 | one bwrite replaces the header, of which only the first n entries change |
| `LogDevice.Log.InstallTrans` | kernel/log.c:67-83 | n single-block steps of the machine, unpinning the blocks unless recovering |
| `LogDevice.Log.WriteLog` | kernel/log.c:177-191 | n single-block steps that touch only the log |
| `LogDevice.Log.Commit` | kernel/log.c:193-203 | write_log, header, install_trans and clearing, in this order, are a run of the machine that empties the log |
| `LogDevice.Log.RecoverFromLog` | kernel/log.c:116-123 | recovery is a run of the machine that ends ready with an empty log |
| `LogDevice.Log.Bread` | kernel/bio.c:91-103 | returns the last logged contents of the block |
| `LogDevice.Log.BeginOp` | kernel/log.c:125-142 | admits an operation exactly if no commit runs and its reservation fits |
| `LogDevice.Log.FindBlock` | kernel/log.c:222-227 | the absorption search finds the block's entry exactly if there is one |
| `LogDevice.Log.RecordBlock` | kernel/log.c:222-234 | a new block is appended and pinned once, a known one is absorbed |
| `LogDevice.Log.LogWrite` | kernel/log.c:205-235 | the write joins the pending ones; the header lists the block once |
| `LogDevice.Log.EndOp` | kernel/log.c:144-175 | the last operation to end commits, and then all home blocks are up to date; an earlier one changes no block |
| `BufferCache.Unlink` | kernel/bio.c:126-128 | bypassing a buffer leaves a well-linked ring without it |
| `BufferCache.Insert` | kernel/bio.c:129-132 | linking a buffer behind the head leaves a well-linked ring with it in front |
| `BufferCache.BreadKeeps` | kernel/bio.c:91-103 | recycling and filling a clean buffer changes the visible contents of no block |
| `BufferCache.Cache.constructor` | kernel/bio.c:36-53 | all buffers are linked, none presents a block |
| `BufferCache.Cache.Find` | kernel/bio.c:61-70 | the search along next finds the block's buffer exactly if there is one |
| `BufferCache.Cache.Recycle` | kernel/bio.c:72-85 | the search along prev finds the least recently released buffer without references, or there is none |
| `BufferCache.Cache.Bget` | kernel/bio.c:58-89 | keeps at most one buffer per block with a non-zero device, refcnt equal to holders plus pins, and the ring a permutation of the buffers; recycles only when the block is nowhere cached |
| `BufferCache.Cache.Bread` | kernel/bio.c:91-103 | returns the contents of the block and changes those of none; no unwritten buffer can be recycled, since every method keeps such buffers referenced |
| `BufferCache.Cache.Bwrite` | kernel/bio.c:105-112 | the disk gets the buffer, which is then no longer unwritten, and no block looks different |
| `BufferCache.Cache.Modify` | kernel/bio.c:8-14 | a holder's change shows in its own block and in no other, and marks the buffer as unwritten |
| `BufferCache.Cache.Brelse` | kernel/bio.c:114-137 | one holder less; a buffer without references moves to the front of the ring, the order of the others stays |
| `BufferCache.Cache.Bpin` | kernel/bio.c:139-144 | one pin more, all invariants kept |
| `BufferCache.Cache.Bunpin` | kernel/bio.c:146-151 | one pin less, all invariants kept |
| `CachedLog.PinnedCached` | kernel/log.c:205-235 | in every run what is pinned is cached |
| `CachedLog.BreadRuns` | kernel/bio.c:58-103 | whatever the ring does to find a buffer, recycling and filling included, is a run of the machine that changes neither committed nor pending writes |
| `CachedLog.LoggedCache.constructor` | kernel/log.c:54-65 | after a crash an empty ring over the same disk is the machine after its crash |
| `CachedLog.LoggedCache.Fetch` | kernel/bio.c:91-103 | bread of a home block or log slot is a run of the machine and leaves buffers in use alone |
| `CachedLog.LoggedCache.Release` | kernel/bio.c:114-137 | brelse meets the cache's demand: a changed buffer keeps a reference, because it is pinned |
| `CachedLog.LoggedCache.Read` | kernel/bio.c:91-103 | through the ring a reader gets the last logged contents of every run |
| `CachedLog.LoggedCache.LogWrite` | kernel/log.c:205-235 | changing a held buffer and pinning it if the block is new in the log is the machine's write |
| `CachedLog.LoggedCache.LogBlock` | kernel/log.c:177-191 | a round of write_log over the ring is a run of the machine with one write of a log block; the pinned buffer is always there |
| `CachedLog.LoggedCache.InstallBlock` | kernel/log.c:67-83 | a round of install_trans over the ring is a run of the machine with one write of a home block, unpinning it unless recovering |
| `CachedLog.LoggedCache.WriteLog` | kernel/log.c:177-191 | all rounds of write_log over the ring; two buffers without references are enough and are so again afterwards |
| `CachedLog.LoggedCache.InstallTrans` | kernel/log.c:67-83 | all rounds of install_trans over the ring, in commit and in recovery, with the same two buffers |
| `CachedLog.LoggedCache.Commit` | kernel/log.c:193-203 | over the ring the pending writes become the committed ones, nothing else does, and the log is empty again |
| `CachedLog.LoggedCache.RecoverFromLog` | kernel/log.c:116-123 | over an empty ring recovery ends ready with an empty log and changes neither committed nor pending writes |
| `CachedLog.LoggedCache.EnoughBuffers` | kernel/bio.c:58-89 | two buffers more than the log has entries leave two without references while nobody holds one |
| `CachedLog.LoggedCache.EndOp` | kernel/log.c:144-175 | while the log is not full, NBUF buffers are enough: the last end_op commits exactly the pending writes, and bget never lacks a buffer |
| `FsState.Ownership` | kernel/fs.c:65-105 | no block is in two slots of the same or of different inodes, no metadata block is in any, and the bitmap is set exactly for metadata and referenced blocks |
| `FsOps.FileSystem.constructor` | kernel/fs.c:40-47 | starts from any image that satisfies the invariant, mkfs's in particular |
| `FsOps.FileSystem.Balloc` | kernel/fs.c:63-88 | the first free block, never 0 or a metadata block, marked and zeroed; on a full disk nothing changes |
| `FsOps.FileSystem.Bfree` | kernel/fs.c:90-105 | clears the bit of a set block; every caller in the model proves it set, so the panic is out of reach |
| `FsOps.FileSystem.Bmap` | kernel/fs.c:372-421 | the block of the slot, allocated if needed on both levels, with ownership kept, no file's contents changed, and a bound on the blocks logged; fails only on a full disk |
| `FsOps.SplicedContents` | kernel/fs.c:498-539 | storing the bytes and raising the size is splicing into the file's byte sequence, with all other files equal |
| `FsOps.FileSystem.Writei` | kernel/fs.c:498-539 | replaces exactly the bytes written, extends the size accordingly, leaves other files alone; -1 exactly for a bad range; short only on a full disk; every block, bitmap bit and inode that has changed is in the transaction |
| `FsOps.ReadsContents` | kernel/fs.c:467-496 | bytes gathered block by block are a slice of the file |
| `FsOps.FileSystem.Readi` | kernel/fs.c:467-496 | the slice of the contents from off, of n bytes or up to the end of the file, and shorter only if the disk is full and the file has a hole; nothing for a bad range; log_write is not called, so that the read is safe outside a transaction, exactly if no hole is met or the disk is full, and then nothing changes at all; in the other case no contents do |
| `FsOps.FileSystem.FreeDirect` | kernel/fs.c:431-436 | frees the direct blocks and no others, with the invariant kept at every round |
| `FsOps.FileSystem.FreeIndirect` | kernel/fs.c:438-449 | frees the indirect entries and the indirect block, each once |
| `FsOps.FileSystem.Itrunc` | kernel/fs.c:423-453 | frees exactly the blocks the inode owned; all other files are equal; everything that has changed is in the transaction |
| `FsOps.SplicedTransitive` | kernel/file.c:149-175 | two chunks written one behind the other are one write |
| `FsOps.ChunkBudget` | kernel/file.c:149-175 | a chunk written to a file without holes logs at most MAXOPBLOCKS distinct blocks on a disk of any size, at most six of them outside the bitmap, and fewer than MAXOPBLOCKS if the bitmap has at most three blocks |
| `FsOps.ChunksFitLog` | kernel/file.c:149-175 | in every run of operations that log no more than chunks do, log_write never panics if the bitmap has at most six blocks |
| `FsOps.FileSystem.WriteChunk` | kernel/file.c:162-167 | one transaction of filewrite: it logs no more than ChunkBudget says, and all that it changes |
| `FsOps.FileSystem.Filewrite` | kernel/file.c:132-181 | splices a prefix of the source, all of it unless the disk is full or the file too large; the offset and the result say how much; each of its transactions logs no more than ChunkBudget says |
| `FileCalls.Fileread` | kernel/file.c:104-130 | the bytes of the file from the offset on, which moves behind them; fewer than asked for only at the end of the file, or at a hole on a full disk |
| `FileCalls.ReadAll` | user/cat.c:7-24 | reading n bytes at a time until read gives none yields the whole contents, less only from a file with holes on a full disk |
| `FileCalls.WriteAndRead` | kernel/fs.c:467-539 | what writei has written readi gives back, all of it from a file without holes |
| `Mkfs.Image.constructor` | mkfs/mkfs.c:108-111 | an empty image, all files empty |
| `Mkfs.Image.EnsureBlock` | mkfs/mkfs.c:265-282 | takes blocks from the counter as the kernel's bmap would from the final bitmap, changing no contents |
| `Mkfs.Image.Iappend` | mkfs/mkfs.c:252-296 | appends the bytes to the file and changes no other |
| `Mkfs.Image.WriteBitmap` | mkfs/mkfs.c:236-250 | the bits of the first blocks, one by one |
| `Mkfs.Image.Finish` | mkfs/mkfs.c:165-172 | the finished image satisfies the kernel's invariant; the root directory is padded with zeros to a block boundary, by a whole unmapped block if it ended at one |
| `LinkCount.CountsRight` | kernel/sysfile.c:123-302 | every nlink is the number of entries other than "." that name the inode in directories not removed, and nothing named is free |
| `LinkCount.NamedOnce` | kernel/sysfile.c:217-230 | an empty directory is named once, by its parent, and ".." leads there |
| `LinkCount.ParentTwice` | kernel/sysfile.c:225-227 | the parent of a directory has a second link, so unlink never takes its last one |
| `LinkCount.LinkedInv` | kernel/sysfile.c:123-170 | sys_link leaves every link count right if and only if the directory is not removed and the count does not wrap |
| `LinkCount.CreatedFile` | kernel/sysfile.c:245-302 | create of a file or device leaves every link count right if and only if the directory is not removed |
| `LinkCount.WithDirInRemoved` | kernel/sysfile.c:281-297 | a directory made in a removed one brings that one's ".." back to life, which makes the count of the old parent wrong |
| `LinkCount.CreatedDir` | kernel/sysfile.c:245-302 | create of a directory leaves every link count right if and only if the parent is not removed and its count does not wrap |
| `LinkCount.RemovedDirectory` | kernel/sysfile.c:188-243 | a directory can be removed and still be referenced |
| `LinkCount.CreateInRemoved` | kernel/sysfile.c:245-302 | a sequence of calls after which the link counts are wrong |
| `LinkCount.LinkTooOften` | kernel/sysfile.c:122-170 | a sequence of calls that makes a link count wrap to a negative number |
| `LinkCount.FileTree.constructor` | mkfs/mkfs.c:117-162 | the file system mkfs makes, the root with all its files, satisfies the invariant |
| `LinkCount.FileTree.Dirlookup` | kernel/fs.c:549-575 | the first entry with the name, exactly if there is one |
| `LinkCount.FileTree.Dirlink` | kernel/fs.c:577-606 | fails exactly if the name is taken or there is no room, and then changes nothing; otherwise fills the first empty entry |
| `LinkCount.FileTree.IsDirEmpty` | kernel/sysfile.c:172-186 | true exactly if there is nothing but "." and ".." |
| `LinkCount.FileTree.Iput` | kernel/fs.c:329-362 | frees an inode exactly if it has neither links nor references |
| `LinkCount.FileTree.Hold` | kernel/fs.c:243-277 | a new reference keeps an inode from being freed |
| `LinkCount.FileTree.Release` | kernel/fs.c:329-362 | dropping a reference frees the inode exactly if nothing names or refers to it any more |
| `LinkCount.FileTree.Link` | kernel/sysfile.c:122-170 | one more name and one more link, or nothing changed; right counts exactly as LinkedInv says |
| `LinkCount.FileTree.Unlink` | kernel/sysfile.c:188-243 | removes exactly the first entry with the name and its counts, frees the inode if nothing refers to it, keeps all counts right; refuses ".", ".." and directories in use without a change; nlink below 1 is out of reach |
| `LinkCount.FileTree.Ialloc` | kernel/fs.c:195-219 | the first free inode, or there is none |
| `LinkCount.FileTree.CreateNew` | kernel/sysfile.c:263-302 | fails exactly if there is no inode or no room, and then every change is undone |
| `LinkCount.FileTree.Create` | kernel/sysfile.c:245-302 | for an existing name that very inode if a file is asked for and it is a file or device, and 0 in all other cases; otherwise the first free inode under the name, or 0 exactly if it cannot be made, and then nothing has changed; right counts exactly as CreatedFile and CreatedDir say |
| `Directories.LinkedFinds` | kernel/sysfile.c:122-170 | after sys_link the new name leads to the inode, and every other name in every directory where it led before |
| `Directories.CreatedFinds` | kernel/sysfile.c:245-302 | after create the new name leads to the new inode, in a new directory "." and ".." lead to itself and to its parent and nothing else leads anywhere, and every other name leads where it did |
| `Directories.RemovedFinds` | kernel/sysfile.c:188-243 | after sys_unlink the name leads nowhere and every other name where it did, unless it is in a directory freed with its last name |
| `Directories.LinkedApart` | kernel/sysfile.c:122-170 | sys_link keeps names unique in every directory |
| `Directories.CreatedApart` | kernel/sysfile.c:245-302 | create keeps names unique in every directory |
| `Directories.RemovedApart` | kernel/sysfile.c:188-243 | sys_unlink keeps names unique in every directory |
| `Paths.PartsWritten` | kernel/fs.c:610-645 | the parts of a path are the names it was written with, cut to DIRSIZ, however many slashes stand before, between and behind them |
| `Paths.AnyPath` | kernel/fs.c:610-645 | every string is a path written so |
| `Paths.Skipelem` | kernel/fs.c:610-645 | takes the first part, if there is one, and leaves the others, without slashes in front |
| `Paths.ResolveConcat` | kernel/fs.c:647-684 | a path leads where its end leads from where its beginning leads |
| `Paths.Namex` | kernel/fs.c:647-684 | the inode that the parts lead to from the root or the current directory, 0 if they lead nowhere; for nameiparent the directory that all but the last part lead to, and that part |
| `VmState.MakePte` | kernel/riscv.h:367-371 | page and flags are recovered from the entry |
| `VmState.FlagsTell` | kernel/riscv.h:360-371 | an entry is writable, usable by user code or a mapping exactly if it was made with PTE_W, with PTE_U, or with one of PTE_R, PTE_W and PTE_X |
| `VmState.PathInjective` | kernel/riscv.h:373-376 | the three 9-bit indices determine the page number |
| `VmState.LookupNode` | kernel/vm.c:85-103 | following the tables from any level reaches the entry that the tree's finite map holds |
| `VmState.UserUnique` | kernel/vm.c:174-199 | no two pages are owned by one mapping |
| `VmState.PageConservation` | kernel/kalloc.c:46-82 | free pages, table pages, user pages and pages in other hands add up to all pages |
| `VmEffects.AllocsUndone` | kernel/vm.c:241-253 | freeing what was allocated leaves at most new table pages, all of this tree |
| `VmEffects.AllocsThenUnmaps` | kernel/vm.c:330-339 | what was mapped into an empty range and unmapped again leaves every translation and every other page as before |
| `VmEffects.AllocsOther` | kernel/vm.c:306-340 | allocating in one tree leaves the mappings and the bytes of another alone |
| `VmTree.MadeAndDestroyed` | kernel/proc.c:174-206 | a tree made and destroyed again leaves page ownership, translations and bytes as they were |
| `VmTree.ProcTreeGrown` | kernel/vm.c:230-256 | uvmalloc and uvmcopy extend a process's address space to the new size |
| `VmTree.ProcTreeShrunk` | kernel/vm.c:258-274 | uvmdealloc leaves the address space of the smaller size |
| `VmOps.Memory.constructor` | kernel/kalloc.c:26-40 | every page from start to end is on the free list once |
| `VmOps.Memory.Kalloc` | kernel/kalloc.c:65-82 | takes the first free page; 0 exactly if there is none; no translation changes |
| `VmOps.Memory.Kfree` | kernel/kalloc.c:42-63 | a page its holder gives up is on the free list once more and nowhere else |
| `VmOps.Memory.Walk` | kernel/vm.c:73-103 | finds or makes the table that holds the entry, changes no translation, and fails only without the table or without memory |
| `VmOps.Memory.Mappages` | kernel/vm.c:138-172 | adds exactly the requested pages, on failure exactly a prefix of them, and no other translation changes |
| `VmOps.Memory.Uvmunmap` | kernel/vm.c:174-199 | removes exactly the requested pages and frees exactly those the mappings own |
| `VmOps.Memory.Uvmcreate` | kernel/vm.c:201-212 | an empty tree on a fresh page, or nothing changed |
| `VmOps.Memory.Uvmalloc` | kernel/vm.c:230-256 | fresh zeroed pages at exactly the new page numbers, or 0 with every page that was allocated freed again; it fails exactly if a kalloc found no page |
| `VmOps.Memory.Uvmdealloc` | kernel/vm.c:258-274 | unmaps and frees exactly the pages beyond the new size |
| `VmOps.Memory.Freewalk` | kernel/vm.c:276-294 | frees every table of the subtree and nothing else; a leaf is never met |
| `VmOps.Memory.Uvmfree` | kernel/vm.c:296-304 | every page and table of the tree is free, no other page is touched |
| `VmOps.Memory.Uvmcopy` | kernel/vm.c:306-340 | the child has pages of its own with the parent's bytes and flags, or what it got is freed again; it fails exactly if a kalloc found no page |
| `VmOps.Memory.ProcPagetable` | kernel/proc.c:174-206 | a tree with only trampoline and trapframe, or 0 with page ownership, translations and bytes as before; it fails exactly if a kalloc found no page |
| `VmOps.Memory.ProcFreepagetable` | kernel/proc.c:208-216 | every page of the process and of its tree is free, no other page is touched |
| `VmCopy.ProcTreeUserOwned` | kernel/proc.c:174-206 | the page tables of processes are such that user copies apply to them |
| `VmCopy.Walkaddr` | kernel/vm.c:105-126 | the page behind a user address exactly if user code may read there |
| `VmCopy.Copyin` | kernel/vm.c:385-408 | succeeds exactly if every byte is readable, and copies exactly the bytes of the address space, on failure the readable prefix; memory is unchanged |
| `VmCopy.StringDecided` | kernel/vm.c:410-451 | a copy that is terminated, or ended at max or at an unreadable byte, decides whether a NUL can be reached |
| `VmCopy.Copyinstr` | kernel/vm.c:410-451 | succeeds if and only if a NUL lies within max readable bytes, and has then copied up to the first |
| `VmCopy.Copyout` | kernel/vm.c:355-383 | succeeds exactly if every byte may be written, and overwrites exactly those bytes of the address space, on failure the writable prefix |
| `VmProc.GrownAccess` | kernel/vm.c:230-256 | after uvmalloc user code can read zeros at every new address, and can write there exactly if xperm has PTE_W |
| `VmProc.TreeEnds` | kernel/proc.c:174-206 | a process can use no address at or beyond the end of its last page, trampoline and trapframe included |
| `VmProc.Growproc` | kernel/proc.c:257-275 | the process has n bytes more, readable, writable and zero from the next page on, or n less, or is as before if a kalloc found no page; what it keeps reads and can be written as before, and beyond its size there is nothing |
| `VmProc.ForkMemory` | kernel/vm.c:306-340 | after uvmcopy the child can read and write where the parent could, and reads the same bytes; the parent sees what it saw |
| `VmProc.CopyOutAndIn` | kernel/vm.c:355-408 | copyin brings back what copyout has written, wherever copyout could write |
| `SleepLock.MutualExclusion` | kernel/sleeplock.c:21-41 | in every run at most one process holds the sleep lock, and the lock names it |
| `SleepLock.NoLostWakeup` | kernel/proc.c:545-592 | in every run, who sleeps on the lock or is past the last check finds it held or a releaser's scan yet to come; with the spin lock free it is held |
| `SleepLock.OneCpu` | kernel/proc.c:437-481 | in every run no process is on two CPUs |
| `SleepLock.SchedLocks` | kernel/proc.c:483-508 | in every run who enters sched holds just its own lock and is not RUNNING, so sched's checks never panic |
| `SleepLock.CanBeRun` | kernel/proc.c:437-481 | in every run an idle CPU can run any RUNNABLE process whose lock is free, which then goes on from where it was switched out |
| `SleepCalls.AcquireAlone` | kernel/sleeplock.c:21-31 | in every run, acquiresleep left alone has the lock if it was free, and sleeps on it otherwise |
| `SleepCalls.ReleaseAlone` | kernel/sleeplock.c:33-41 | in every run, releasesleep left alone frees the lock and makes RUNNABLE exactly those who sleep on it |
| `SleepCalls.HoldingRight` | kernel/sleeplock.c:43-52 | in every run holdingsleep says yes exactly to the process that has the lock |
| `SleepCalls.KillAlone` | kernel/proc.c:594-616 | in every run kill makes a sleeper RUNNABLE and changes nothing else |
| `SleepCalls.NapAlone` | kernel/proc.c:545-574 | in every run, sleep on another channel, left alone, leaves the process asleep there and off its CPU, with nothing else changed |
| `SleepCalls.YieldReturns` | kernel/proc.c:483-519 | in every run a process that is preempted and run again goes on where it was, with nothing else changed |
| `ExitWait.NoMissedExit` | kernel/proc.c:388-435 | in every run, while wait_lock is free nobody who sleeps in wait has an exited child |
| `ExitWait.ParentsAlive` | kernel/proc.c:328-386 | in every run the parent of every process has not exited |
| `ExitWait.ReapedOnce` | kernel/proc.c:343-435 | in every run, how often a process has come to the end of exit equals how often processes in wait have freed it, each of them recorded, or is one more while it is a ZOMBIE: no other step enters or leaves that state |
| `ExitWait.ReapedByParent` | kernel/proc.c:388-435 | in every run an exited process stays a ZOMBIE until its current parent frees it in wait, and then it runs on no CPU |
| `ExitWait.CanBeRun` | kernel/proc.c:437-481 | in every run an idle CPU can run any RUNNABLE process whose lock is free, which then goes on from where it was switched out |
| `WaitCalls.WaitReturns` | kernel/proc.c:388-435 | in every run, among any steps of others: a whole call of wait that does not fail has freed nothing if and only if the process had no child when its last scan began; otherwise it has freed the first exited child, once, and nobody else |
| `WaitCalls.WaitFails` | kernel/proc.c:388-435 | in every run, a call of wait that is killed or cannot copy out the status has freed nothing |
| `ProcCalls.ForkAlone` | kernel/proc.c:277-326 | in every run, fork left alone leaves a RUNNABLE child of the process in a slot that was UNUSED, and nothing else changed |
| `ProcCalls.ForkFails` | kernel/proc.c:277-326 | in every run, a fork that fails changes no state, parent or lock |
| `ProcCalls.ExitAlone` | kernel/proc.c:328-386 | in every run, exit left alone makes the process a ZOMBIE, gives exactly its children to init, and wakes init and the parent if they sleep in wait, and nobody else |
| `ProcCalls.WaitAlone` | kernel/proc.c:388-435 | in every run, wait left alone comes back if there is an exited child or no child at all, and otherwise sleeps on its own address; WaitReturns says what it has freed |
| `ProcCalls.NapAlone` | kernel/proc.c:545-574 | in every run, sleep for anything but a child, left alone, leaves the process asleep and off its CPU, with nothing else changed |
| `ProcCalls.CallsBegin` | kernel/proc.c:343-435 | in every run any process outside a call can call wait, and any but init exit |
| `ProcCalls.KillWakes` | kernel/proc.c:594-616 | in every run kill makes a sleeper RUNNABLE and changes nothing else |
| `Virtio.Descriptors.AllocDesc` | kernel/virtio_disk.c:155-166 | takes the first free descriptor, or there is none |
| `Virtio.Descriptors.FreeDesc` | kernel/virtio_disk.c:168-182 | frees and clears just this descriptor |
| `Virtio.Descriptors.Alloc3Desc` | kernel/virtio_disk.c:199-213 | takes the first three, or none exactly if there are fewer |
| `Virtio.Descriptors.FreeChain` | kernel/virtio_disk.c:184-197 | follows the links and frees exactly the chain |
| `VirtioProtocol.Outstanding` | kernel/virtio_disk.c:215-292 | in every run requests are disjoint triples, together exactly the descriptors not free, and at most NUM / 3 |
| `VirtioProtocol.RingsSurviveWrap` | kernel/virtio_disk.c:262-327 | in every run comparing 16-bit indices tells exactly whether a ring has an entry, which is then the oldest |
| `VirtioProtocol.ServesOwnRequest` | kernel/virtio_disk.c:236-270 | in every run the device transfers between a request's own buffer and block and touches nothing else |
| `VirtioProtocol.CompletesOwnBuffer` | kernel/virtio_disk.c:294-327 | in every run the handler meets only good statuses and releases only the waiting buffer of the request |
| `VirtioProtocol.OneStageAtATime` | kernel/virtio_disk.c:215-327 | in every run a request moves one stage at a time and goes away only when completed, so with a device that serves once what it fetched it is completed once |
| `VirtioProtocol.ChainOfRequest` | kernel/virtio_disk.c:184-197 | in every run the links of a request are the chain that free_chain frees |
| `VirtioProtocol.NoIdleWaiter` | kernel/virtio_disk.c:226-235 | in every run who sleeps for descriptors does so while fewer than three are free |
| `VirtioCalls.RequestServed` | kernel/virtio_disk.c:215-327 | in every run, among any other requests: between a call of virtio_disk_rw and its end there is a moment at which its request is served, a write storing the buffer as it was submitted in its block and a read bringing the block as it is at that moment, which is what the call then finds |
| `VirtioCalls.RequestAlone` | kernel/virtio_disk.c:215-327 | in every run, with empty rings, a call left alone with the device goes through, has transferred exactly between its buffer and block, and leaves the driver as it was |
| `VirtioCalls.SomeFree` | kernel/virtio_disk.c:199-213 | some descriptor is always free: requests take three of the eight each |
| `VirtioCalls.SleepersAsleep` | kernel/virtio_disk.c:155-235 | in every run a process sleeps for descriptors if and only if it has gone to sleep and since then none have been freed and no other call has lacked any: with two requests there are always descriptors that such a call gets and gives back, waking the others |
| `Arena.FreeListCircular` | user/umalloc.c:24-44 | the list is one circle through all free blocks in address order |
| `Arena.BlocksApart` | user/umalloc.c:24-44 | blocks are disjoint and no two free ones touch |
| `Arena.UnitsConserved` | user/umalloc.c:24-90 | free and live units add up to the units from sbrk |
| `Arena.PlaceStep` | user/umalloc.c:30-32 | each step of free's search is at the place or gets closer to it |
| `Arena.AheadShrinks` | user/umalloc.c:73-89 | each step of malloc's search gets closer to any given element |
| `Malloc.RequestExact` | user/umalloc.c:46-61 | sbrk is asked for the bytes needed if and only if that is less than 2^31; they are the units needed or 4096, whichever is more |
| `Malloc.UserDataIgnored` | user/umalloc.c:24-90 | the invariant does not depend on what users write into their blocks |
| `Malloc.SizesFit` | user/umalloc.c:11-17 | no size overflows its field while memory stays below 2^36 bytes |
| `Malloc.Allocator.Free` | user/umalloc.c:24-44 | the block leaves the live ones, is merged with free neighbours, and no other live block changes |
| `Malloc.Allocator.Morecore` | user/umalloc.c:46-61 | new units join the free list, or nothing changes |
| `Malloc.Allocator.Malloc` | user/umalloc.c:63-90 | a block of the right size that was not live, with all live blocks kept; it is the end of the first block from freep on that is large enough; sbrk at most once and only if no free block is large enough; 0 only if sbrk fails |
| `ShellGrammar.RoundTrip` | user/sh.c:323-447 | a command comes back from its printed form if and only if no simple command in it has MAXARGS words or more |
| `ShellSyntax.ParsesExactly` | user/sh.c:323-447 | the parser takes a line of tokens as command c if and only if the line is one of the grammar's, with redirections before, between and behind the words, that means c |
| `ShellLexing.LexesExactly` | user/sh.c:266-309 | gettoken reads the tokens ts from a text if and only if the text spells them, with any white space around them and words as long as possible |
| `ShellLexing.TextMeans` | user/sh.c:266-447 | a text is read as command c if and only if it spells a line of the grammar that means c |
| `ShellMap.LineCommutes` | user/sh.c:345-360 | parsing commutes with any renaming of words |
| `ShellParser.Parser.GetToken` | user/sh.c:266-309 | takes exactly the next token of the text and says where its word stands |
| `ShellParser.Parser.Peek` | user/sh.c:311-321 | tells exactly whether the next token is one of the symbols, consuming nothing |
| `ShellParser.Parser.ParseRedirs` | user/sh.c:375-398 | takes the redirections the grammar takes |
| `ShellParser.Parser.ParseExec` | user/sh.c:416-447 | agrees with the grammar on every input, panics included |
| `ShellParser.Parser.ParseBlock` | user/sh.c:400-414 | agrees with the grammar on every input, panics included |
| `ShellParser.Parser.ParsePipe` | user/sh.c:362-373 | agrees with the grammar on every input, panics included |
| `ShellParser.Parser.ParseLine` | user/sh.c:345-360 | agrees with the grammar on every input, panics included |
| `ShellParser.Parser.ParseCmd` | user/sh.c:328-343 | terminates on every input, with a command exactly if the grammar takes all of it |
| `ShellText.RenderedParsesBack` | user/sh.c:266-447 | any command of plain words, rendered as text, is read back character by character |
| `ShellText.WordsApart` | user/sh.c:266-309 | the words of any text are disjoint, and none starts at the end of another |
| `ShellText.NulTerminate` | user/sh.c:449-494 | writes NULs exactly at the ends of the command's words |
| `ShellText.WordsTerminated` | user/sh.c:449-494 | clearing the ends of words leaves every word whole and terminated |
| `ShellText.ParseCommand` | user/sh.c:328-343 | afterwards every word of the command is a C string in the buffer, equal to its token |
| `Grep.Match` | user/grep.c:72-82 | true if and only if the text matches the parsed pattern under the declarative semantics |
| `Grep.MatchHere` | user/grep.c:84-96 | true if and only if the text starts with a match |
| `Grep.MatchStar` | user/grep.c:98-106 | true if and only if some number of suitable characters is followed by a match |
| `Grep.HereStar` | user/grep.c:98-106 | what a starred character means in the declarative semantics: any number of repetitions |
| `GrepLaws.WordAnywhere` | user/grep.c:72-82 | a word matches a line exactly if it stands somewhere in it, with any character for a dot |
| `GrepLaws.WordAtStart` | user/grep.c:72-82 | with ^ exactly if the line begins with it |
| `GrepLaws.WordAtEnd` | user/grep.c:84-96 | with $ exactly if the line ends with it |
| `GrepLaws.WordWhole` | user/grep.c:72-96 | with both exactly if it is the line |
| `GrepLaws.WordStarWord` | user/grep.c:84-106 | with a starred character between two words and both ends fixed, exactly if the line is the first word, any number of suitable characters and the second word |
| `Grep.Grep` | user/grep.c:11-35 | for every input and every way read splits it, exactly the selected lines |
| `Grep.GrepLines` | user/grep.c:11-35 | with lines of at most 1023 bytes, exactly the matching newline-terminated lines |
| `Grep.AllSelected` | user/grep.c:18-34 | with such lines the selection is all matching lines |
| `Grep.NothingLost` | user/grep.c:18-34 | output is lost if and only if a matching line comes at or after an overlong one |
| `Grep.FitsExactly` | user/grep.c:18-34 | no pattern loses a line of an input if and only if all its lines have at most 1023 bytes |
| `Grep.LostLine` | user/grep.c:18-34 | an input whose matching line is lost |
| `Pipe.BytesInOrder` | kernel/pipe.c:76-130 | in every run the bytes taken are a prefix of those put, at most PIPESIZE are buffered, and the tests for full and empty are right while the counters wrap; PipeCalls says whose bytes they are |
| `Pipe.WritersSleepRightly` | kernel/pipe.c:76-103 | in every run, while the lock is free a writer sleeps only if the pipe is full and open for reading |
| `Pipe.ReadersSleepOpen` | kernel/pipe.c:105-130 | in every run a reader sleeps only on a pipe open for writing |
| `Pipe.ReadersSleepRightly` | kernel/pipe.c:76-130 | in every run, after every event: readers sleep only on an empty pipe or one whose writer is about to wake them, if and only if that held before and no writer gave up after putting bytes while a reader slept, or it did not hold and a writer went on, the last byte was taken, the write end was closed or kill woke the only sleeping reader |
| `Pipe.NeverStrandedExactly` | kernel/pipe.c:76-130 | over whole runs, no reader is ever left asleep on bytes if and only if no writer ever gives up after putting bytes while a reader sleeps |
| `Pipe.StrandedReader` | kernel/pipe.c:82-87 | a run that leaves a reader asleep on a pipe that holds a byte |
| `Pipe.EndsOpen` | kernel/pipe.c:58-74 | in every run an end is open exactly as long as it has not been closed |
| `PipeCalls.WritesInOrder` | kernel/pipe.c:76-103 | in every run, among any other calls: what a call of pipewrite has put is the beginning of its argument, in order; while it goes on it has the rest left; and it returns how much it has put, or -1 |
| `PipeCalls.SentInterleaves` | kernel/pipe.c:76-103 | in every run the bytes put are an interleaving of the arguments of the calls |
| `PipeCalls.WriteReturns` | kernel/pipe.c:76-103 | in every run pipewrite returns all of its argument's length, or -1 exactly if it finds itself killed or nobody reading, or what it could put before its argument could not be read |
| `PipeCalls.ReadsInOrder` | kernel/pipe.c:105-130 | in every run what a call of piperead has taken are successive bytes of those put, at most as many as it asked for, and no other call has them |
| `PipeCalls.ReadReturns` | kernel/pipe.c:105-130 | in every run piperead returns how much it has taken, one less if a byte could not be copied out, or -1 exactly if killed while it waits, with nothing taken; less than asked for only if the pipe is then empty or that byte is lost, and nothing taken only if none was asked for or there is no writer |
| `PipeAlone.WriteAlone` | kernel/pipe.c:76-103 | in every run, pipewrite left alone puts as many bytes as there is room for, wakes the readers and nobody else, and returns their number if that is all and sleeps with the rest otherwise |
| `PipeAlone.ReadAlone` | kernel/pipe.c:105-130 | in every run, piperead left alone sleeps if the pipe is empty and has a writer, and otherwise takes the next n bytes or all there are, wakes the writers and nobody else, and returns how many |
| `PipeCalls.KillEnds` | kernel/proc.c:594-616 | in every run, a process killed while it sleeps in pipewrite or piperead comes back with -1 as soon as it gets the lock, only a reader that finds bytes goes on with them |
| `PipeCalls.HolderSteps` | kernel/pipe.c:76-130 | in every run who has the pipe's lock can go on |

## Left out

- Assembly, traps, timer, PLIC, UART, start-up and swtch's register saving: hardware effects; swtch is a hand-over step.
- The memory model: steps are atomic and sequentially consistent; fences and compiler barriers do not appear.
- exec, system-call argument fetching, console, printf, file descriptor tables and the small user programs: plumbing or terminal I/O.
- Concurrency between file-system calls: FsOps and LinkCount run one call at a time, inside one transaction or one chunk.
- LogMachine.CrashAtomicity: the log is given as a header with a list of block numbers, not as bytes; blocks of the log area are not read through the cache; a single-block write is atomic.
- LogDevice.Log.BeginOp: one round of the loop; sleeping and being woken is SleepLock's subject.
- BufferCache.Cache.Bget: the panic for lack of buffers is a precondition; the buffers' sleep locks are modelled in SleepLock, not here.
- CachedLog.LoggedCache.LogWrite: changing a buffer and log_write are one event, as in LogMachine; the header block does not go through the ring.
- FsOps.FileSystem.Writei: the source can be read; a failing either_copyin, which can leave part of a cached block changed, is not modelled.
- FsOps.FileSystem.Bmap: the panic for a file block out of range is a precondition; the bitmap and the inodes are values, not bytes in blocks.
- Mkfs.Image.Iappend: the disk is large enough, which mkfs does not check; host files are byte sequences and byte order is left out.
- Paths.Namex: the references and locks it takes on the way are left out; LinkCount gets the directory and the last name from it.
- LinkCount.FileTree.Link: both names are on one device, the only one there is.
- LinkCount.FileTree.Create: a removed directory whose ".." is looked up may name a freed inode, on which ilock panics; that lookup is excluded.
- LinkCount.FileTree.Iput: only the inode is freed; itrunc is in FsOps.
- VmOps.Memory.Mappages: addresses are page numbers, since the source demands page alignment; remapping is a precondition as it is a panic.
- VmOps.Memory.Kfree: the junk that fills a freed page is modelled as having no contents.
- VmProc.Growproc: growing into the trapframe, which panics in mappages, is a precondition.
- VmCopy.Copyout: the kernel side of a copy is a byte sequence; the address space is that of a process, whose user pages it owns.
- ExitWait.NoMissedExit: what a process does between system calls, memory and files are left out; kill appears as a wakeup; a critical section under one process's lock is one step.
- ProcCalls.ForkAlone: that nobody else moves is part of the statement; what holds among all others is in ExitWait and WaitCalls.
- VirtioProtocol.OneStageAtATime: that the device serves a request it has fetched only once is its guard, an assumption on the device.
- VirtioProtocol.Outstanding: initialisation and feature negotiation, and a device that reports errors (a panic), are left out.
- Malloc.Allocator.Malloc: sbrk is a parameter, gives 16-byte aligned memory above all earlier memory and below 2^36 bytes; requests are below 2^31 bytes, where RequestExact says the source is right.
- ShellParser.Parser.ParseCmd: a panic of the parser is the result None; running the command is left out.
- Grep.Grep: input without NUL bytes; the text printed is the output, file names and exit codes are left out.
- Pipe.BytesInOrder: allocation and file references are left out; sleep and wakeup are atomic as SleepLock justifies; whether a process is killed is open at every check.
