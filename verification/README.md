# xv6 in Dafny

A model of the stateful core of xv6 for the x86, in the variant that adds containers, and proofs of what
that core promises: the write-ahead log and the buffer cache, the file system on top of them and the
image that mkfs makes for it, directories and link counts, page tables and the page allocator, the
user-level allocator, the process table, pipes, the shell's parser and grep's matcher.

`dafny verify dfyconfig.toml` checks the whole project.  Each module models one part:

- **WriteAheadLog**, **GroupCommit**, **GroupProgress**, **LogReservation**, **LogChunks**, **LogDevice** (log.c).
  The disk is a sequence of blocks and a block write is atomic.  WriteAheadLog has the writes of commit and
  recovery as sequences that a crash may cut anywhere.  GroupCommit is a state machine over begin_op,
  log_write, end_op, single block writes and crashes, with any number of calls in flight; GroupProgress has
  what its steps wait for.  LogReservation asks how large the log must be for calls that keep to their
  reservation, LogChunks for those of filewrite, which do not.  LogDevice has the functions of log.c as
  methods that update the header and the disk, proved to issue exactly those writes.
- **BufferRing**, **Bcache** (bio.c).  The circular list through prev and next, and the cache at the
  granularity of its locks.  `Latest` is the last contents stored for a block by bwrite or log_write.
  **CommitCache** has commit() as a caller of that cache, beside processes that only read.
- **FsFormat**, **FsImage**, **FsSpace**, **FileSystem** (fs.c, file.c) and **Mkfs** (mkfs.c).  `Image` says who
  owns each block; `Content` is a file as a flat byte array; `Lack` counts the blocks that a range of a file
  still needs.  **ChunkLog** and **FsCrash** join the chunks of filewrite to the log: what two of them log, and
  what a disk holds after a crash in the commit of one.
- **Directory**, **DirBytes**, **Links**, **LinksLaws**, **LinksRuns**, **Path** (fs.c, sysfile.c).  Slots of a
  directory as a map of names, and as bytes that readi and writei move; link counts and ".." as a state machine
  in which each change of a count or an entry is a step, with what each call does among others, and runs of it
  that go wrong; path elements.
- **PageTable**, **Kalloc**, **Vm**, **VmCopy** (kalloc.c, vm.c).  Physical memory is a sequence of frames
  of 1024 words; every frame has one use.  `Entry` is the flat view of a two-level page table.
- **FreeList**, **Umalloc** (umalloc.c).  Sizes and addresses count headers of 8 bytes.
- **Proc**, **ProcRuns** (proc.c), **Pipe** (pipe.c).  One method for each stretch of code that holds the lock;
  ProcRuns has any run of them between a sleep and a wakeup.
- **Shell**, **ShellGrammar**, **ShellText**, **ShellStrings**, **ShellRoundTrip** (sh.c), **Grep** (grep.c).
  ShellGrammar states the grammar of command lines as a relation between tokens and commands, ShellText what
  the tokens of a line are, character by character.
- **Sets** counts elements of sets, **Words** has the 32-bit bound.

Some laws that one would like do not hold of the code as it stands; the project proves when they do, and
shows for each that the failing case is reached.

- No size of the log is right for three calls that keep to MAXOPBLOCKS: up to LOGSIZE blocks, as mkfs makes
  it, log_write can panic (`CapacityExact`), and beyond, commit() can find every buffer pinned
  (`EitherPanic`).  commit() finds no buffer exactly when the blocks recorded and the buffers in the hands of
  processes that only read are NBUF together (`CommitCache.Commit`); in the log of mkfs one such buffer is enough
  (`HandsOver`).
- One chunk of filewrite may log more than its call reserves.  One at a time is safe in the log that mkfs
  makes; two that share a commit can panic in a log of any size (`SafeExactly`, `ChunksExactly`).  Two of the
  largest size that extend different files from inside a block do: they log 32 blocks or more (`TwoChunks`).
- writei over quota leaves the inode in its block as it was; a block that the call allocated is lost with it
  exactly when the inode had no slot filled for it (`Writei`, `FirstByteLoses`).  Otherwise a crash in the commit
  of a chunk leaves the old files or the new ones; there it can leave a block that is in use and in no file
  (`CrashInChunk`).
- Over quota writei also makes dirlink and sys_unlink panic; dirlink panics as well without a slot, and for
  want of blocks exactly when those that its slots lack are not free (`DirBytes.Dirlink`, `StopsFilled`,
  `DirBytes.Clear`).
- create panics without a free inode, and every call that brings an inode into a full inode cache panics
  (`PanicsExactly`, `NoInodeReached`, `CacheFullReached`).
- nlink is a short: at 32767 links the next sys_link loses the count (`StepKeepsExactly`, `WrapReached`).
  A directory never has that many (`DirectoryLinks`).
- ".." of a directory that was removed while in use can name a freed inode, and then ilock panics
  (`PanicsExactly`, `DotdotPanics`); in a directory that an entry names it cannot (`DotdotHolds`).
- copyuvm loses one page at certain counts of free pages and at no others (`Copyuvm`, `LeaksOne`).
- pipewrite by a killed process can fill the pipe and leave readers asleep (`WriteSegment`,
  `ReaderLeftAsleep`).
- From two gigabytes on malloc tells sbrk to give memory back, and near four it wraps; the block has room in
  memory if and only if a free block was large enough and nothing wrapped, or the request is smaller
  (`Malloc`, `HalfGoesBackwards`, `WrapGivesNoRoom`).

## Model

| member | source | states |
|---|---|---|
| WriteAheadLog.HeadRoundTrip | log.c:84-113 | The list of block numbers that write_head stores as words is the list read_head loads, whatever the header block held before. |
| WriteAheadLog.CommitPrefixAt | log.c:177-202 | The contents of every disk block after the first k block writes of commit(). |
| WriteAheadLog.RecoveredAt | log.c:115-122 | The contents of every disk block after a completed recovery. |
| WriteAheadLog.RecoverClean | log.c:115-122 | Recovering a disk whose header count is 0 changes no home block. |
| WriteAheadLog.CommitAtomic | log.c:192-202 | Cut off after any number of block writes, commit() leaves a disk whose recovery has all home blocks old before the header write and all new after it. |
| WriteAheadLog.RecoverIdempotent | log.c:115-122 | A recovery cut off after any number of block writes and done again gives the same home blocks as one that was not cut off. |
| WriteAheadLog.RecoverDespiteCuts | log.c:115-122 | So does one cut off any number of times. |
| WriteAheadLog.CutsLast | log.c:115-122 | Each recovery runs on the disk that the one before it left, and may be cut off anywhere. |
| WriteAheadLog.CrashAtomicity | log.c:69-122 | A crash anywhere in commit(), then any number of crashes anywhere in recovery, then a completed recovery: home blocks all old or all new, as the header write decides, and the header count is 0. |
| GroupCommit.StepKeeps | log.c:125-233 | Every step of every call, of commit(), of recovery and every crash keeps the invariant of the log. |
| GroupCommit.RunKeeps | log.c:125-233 | So does every run. |
| GroupCommit.RecoversDurable | log.c:115-202 | In every such state recovery yields exactly the effect of the durable transactions. |
| GroupCommit.GroupCommitAtomic | log.c:125-174 | After any run of interleaved calls with crashes, recovery yields the first k whole transactions, and no call is split over two. |
| GroupCommit.DurableStays | log.c:192-202 | No step, a crash included, loses a transaction that a crash would have kept. |
| GroupCommit.NeverHappens | log.c:145-174 | The panics for log.committing and for a log_write outside a transaction are unreachable, begin_op does not succeed during commit(), and every crash is recoverable. |
| GroupCommit.BeginsExactly | log.c:125-141 | In every reachable state begin_op admits a call if and only if neither commit() nor recovery is under way and the recorded blocks leave room, within 30, for ten from each call in flight and from this one; otherwise it sleeps. |
| GroupProgress.OutcomesExactly | log.c:143-233 | When each other step goes through, waits or fails: log_write panics if and only if 30 blocks, or all but the header of the log area, are recorded; end_op of a call goes through unless it is inside log_write; block writes and the end of commit() or recovery come exactly in their turn. |
| GroupProgress.Completes | log.c:115-202 | commit() and recovery end by their own steps: the log is then empty and the disk holds all transactions handed over. |
| GroupProgress.Drains | log.c:143-202 | Once the calls in flight return, and no other begins, their one transaction is on the disk and the log is empty. |
| GroupProgress.NeverStuck | log.c:125-202 | No run gets stuck: from every reachable state with no log_write half done, the ends of the calls in flight and of commit() or recovery go through and lead to an empty log, where begin_op admits a call. |
| LogReservation.StepReserves | log.c:125-141 | Recorded blocks plus the unused reservations of the calls in flight stay within LOGSIZE at every step. |
| LogReservation.ReservationSuffices | log.c:213-221 | In a log of more than LOGSIZE blocks no run of calls that keep to MAXOPBLOCKS reaches the capacity panic. |
| LogReservation.SmallLogPanics | mkfs.c:25 | In a log of LOGSIZE blocks or fewer some such run does. |
| LogReservation.CapacityExact | log.c:218-219 | The capacity panic is out of reach of calls that keep to MAXOPBLOCKS if and only if the log has more than LOGSIZE blocks. |
| LogChunks.FootprintsFit | log.c:213-230 | While at most k calls share a commit, each recording at most f distinct blocks, no run panics or overruns the header if k * f is less than the room of the log. |
| LogChunks.TogetherPanic | log.c:218-221 | Otherwise k calls that begin together reach the panic, even on a block that would be absorbed, since the capacity test comes first. |
| LogChunks.SafeExactly | log.c:125-141 | For one, two or three calls to a commit, as many as begin_op admits at once: no run of them panics if and only if k * f is less than the room. |
| LogChunks.ChunksExactly | file.c:157-180 | Calls of up to 21 blocks, as filewrite makes them, are safe if and only if they are alone in their commits. |
| LogChunks.FewBlocksFit | log.c:213-230 | Calls made one at a time that log no block outside a set of 21 never panic, in a log at least as large as the one mkfs makes. |
| LogChunks.BothLog | log.c:213-230 | Two calls that begin together and then log blocks, each log_write whole but in any order: the run panics, or the log holds all of them within its room. |
| LogChunks.IdleBegins | log.c:125-174 | With no call in flight and no commit() under way the log is empty and the next call is admitted. |
| LogChunks.ManyBlocksPanic | log.c:218-219 | If they log more than LOGSIZE blocks together it panics, in a log of any size and in any order. |
| LogChunks.SomeWrites | log.c:213-230 | There are such runs for any two sets of blocks. |
| LogDevice.Log.BWrite | bio.c:108-116 | One block reaches the disk and its buffer is no longer pinned. |
| LogDevice.Log.WriteHead | log.c:98-113 | The header block gets the count and the block numbers, the rest of it stays. |
| LogDevice.Log.ReadHead | log.c:84-96 | The in-memory header becomes the one on disk. |
| LogDevice.Log.WriteLog | log.c:176-190 | The loop issues the first n writes of the commit sequence, log block by log block. |
| LogDevice.Log.CopyOne | log.c:183-188 | One turn of that loop: a pinned buffer goes to its log block. |
| LogDevice.Log.InstallTrans | log.c:68-82 | The loop issues the next n writes, home block by home block, and unpins exactly these buffers. |
| LogDevice.Log.InstallOne | log.c:75-80 | One turn of that loop: a log block goes home and its buffer is unpinned. |
| LogDevice.Log.InstallAndClear | log.c:198-200 | Installing and then writing a header with count 0 completes the sequence. |
| LogDevice.Log.CommitSome | log.c:195-201 | commit() with a transaction in the header. |
| LogDevice.Log.Commit | log.c:192-202 | The disk writes issued are exactly the commit sequence about which crash atomicity is proved; afterwards the log is empty and nothing is pinned. |
| LogDevice.Log.RecoverFromLog | log.c:115-122 | The disk writes issued are exactly the recovery sequence. |
| LogDevice.Log.BeginOp | log.c:125-141 | The call starts if and only if no commit is running and the recorded blocks leave room, within 30, for ten from each call in flight and from this one; otherwise it sleeps. |
| LogDevice.Log.LogWrite | log.c:213-233 | The block number is recorded once, by absorption if it is there, and its buffer pinned; it panics just when the log is full or no call is open. |
| LogDevice.Log.EndOp | log.c:143-174 | The last call out commits; the others leave the log alone. |
| BufferRing.UnlinkKeeps | bio.c:132-133 | Unlinking a buffer from the ring leaves a well-formed doubly linked ring of the others in the same order. |
| BufferRing.PushKeeps | bio.c:134-137 | Linking a buffer after the head leaves a well-formed ring with it first. |
| Bcache.Cache.constructor | bio.c:38-56 | binit links all buffers, the last one first; no buffer is valid. |
| Bcache.Cache.LinkAll | bio.c:46-55 | The loop of binit makes one ring of all buffers. |
| Bcache.Cache.PushFront | bio.c:134-137 | The four assignments that put a buffer first. |
| Bcache.Cache.MoveFront | bio.c:132-137 | Unlinking and putting first keeps the ring and all contents. |
| Bcache.Cache.Lookup | bio.c:68-76 | The scan finds a buffer of the block if and only if there is one. |
| Bcache.Cache.LeastRecent | bio.c:78-91 | The backward scan finds, among the buffers with no references that are not dirty, the one released longest ago; it finds none only if there is none. |
| Bcache.Cache.Bget | bio.c:58-93 | A cached block gains a reference; otherwise the least recently released idle buffer is recycled; it panics if and only if the block is not cached and no buffer is idle. |
| Bcache.Cache.Acquire | bio.c:72-74 | A counted caller takes the free sleep lock; the contents it finds are settled. |
| Bcache.Cache.Fill | bio.c:101-105 | After bread the holder sees the last contents stored for the block, or those of the disk if there are none. |
| Bcache.Cache.Iderw | memide.c:38-60 | A dirty buffer goes to the disk, one that is not valid comes from it. |
| Bcache.Cache.Bread | bio.c:95-106 | bread as a whole when no one holds the block: locked, valid, with the last contents stored, other buffers untouched. |
| Bcache.Cache.Bwrite | bio.c:108-116 | The contents go to the disk and become the last ones stored; without the lock it panics and changes nothing. |
| Bcache.Cache.Edit | log.c:208-212 | The holder changes the contents in memory; they do not count as stored until logged or written. |
| Bcache.Cache.LogWrite | log.c:231-231 | The contents become the last ones stored and the buffer stays until it is written. |
| Bcache.Cache.ReleaseSleep | bio.c:118-126 | The lock is let go and the reference still counted; without the lock it panics. |
| Bcache.Cache.Drop | bio.c:128-138 | A reference goes; the last one moves the buffer to the front of the list, the others keep their order. |
| Bcache.Cache.Brelse | bio.c:118-141 | Both halves: no contents change, and a buffer that no one waits for is first in the list. |
| Bcache.RecentMoved | bio.c:128-138 | The list stays in order of release, most recent first, and a permutation of all buffers. |
| Bcache.StoreKeeps | bio.c:108-116 | Storing contents keeps every buffer and the disk in step with the last contents stored. |
| Bcache.RecycleKeeps | bio.c:81-91 | Recycling an idle buffer for a block not cached forgets nothing and keeps buffers of a device other than 0 unique. |
| Bcache.FillKeeps | bio.c:101-105 | What is read from the disk for a buffer that is not valid is the last contents stored. |
| CommitCache.AllBusy | bio.c:78-92 | Every buffer is pinned or in a reader's hands if and only if the pinned blocks and the readers' buffers are NBUF together, and they are never more. |
| CommitCache.Copy | log.c:183-188 | One turn of the loop of write_log, or of install_trans, through the cache: it finds a buffer unless all are pinned or in readers' hands, copies the last contents stored and, when installing, unpins the block. |
| CommitCache.WriteHead | log.c:98-113 | The header through the cache; it finds a buffer unless all are pinned or in readers' hands. |
| CommitCache.WriteLog | log.c:176-190 | The log area gets the last contents stored of each block; the first read panics if and only if the recorded blocks and the readers' buffers are NBUF. |
| CommitCache.InstallTrans | log.c:68-82 | Every block goes home and is no longer pinned, with fewer than NBUF buffers pinned or in readers' hands. |
| CommitCache.Commit | log.c:192-202 | commit() of a transaction panics for want of a buffer if and only if its blocks and the buffers that processes which only read have are NBUF together, with nothing on the disk; otherwise every block outside the log area is on the disk as last stored, nothing is pinned and the readers keep theirs. |
| CommitCache.HandsOver | param.h:10-12 | Calls that keep to their reservations hand n blocks to commit() in some run if and only if the log area has a header and room for n. |
| CommitCache.EitherPanic | param.h:10-12 | So even without readers a log of any size has a run that ends in the panic of log_write or in that of bget. |
| FsImage.ImageMeans | fs.c:380-410 | No block is named twice by all direct, indirect and indirect-entry numbers, each lies between nmeta and the size and is marked, and every marked block is named. |
| FsImage.PutDinodeAt | fs.c:236-243 | What iupdate makes of an inode block reads back as the inode, and the other inodes of the block stay. |
| FsImage.AllocateFresh | fs.c:58-81 | A block that balloc takes and a slot names keeps the ownership exact and every file as it was. |
| FsImage.FreeDirect | fs.c:424-429 | Freeing a direct block: its bit was set, the ownership stays exact, other files keep their blocks. |
| FsImage.FreeEntry | fs.c:434-437 | The same for an entry of the indirect block, while earlier entries are already free. |
| FsImage.FreeIndirect | fs.c:439-440 | The same for the indirect block itself, once all its entries are free. |
| FsSpace.SpareIs | fs.c:58-81 | No block is free if and only if as many are owned as there are beyond the metadata. |
| FsSpace.LackThen | fs.c:380-410 | What two overlapping ranges of a file lack together is what the first lacks and then the second, the indirect block counted once. |
| FsSpace.FetchedThen | fs.c:380-410 | Getting the blocks of one range after those of another takes exactly what both lack together. |
| FsSpace.RecordedMore | fs.c:514-520 | Each block got keeps the earlier ones logged, with the free-map block and the indirect block of each that was new. |
| FileSystem.Fs.ScanBitmap | fs.c:68-77 | The first clear bit of a free-map block. |
| FileSystem.Fs.Iupdate | fs.c:230-246 | The inode goes into its block, which is logged; no other inode on the disk and no block from the free map on changes. |
| FileSystem.Fs.Balloc | fs.c:58-81 | The lowest free block, never 0 or metadata and never one an inode names, is marked and zeroed, and both blocks logged; it panics if and only if every block is in use. |
| FileSystem.Fs.FindFree | fs.c:65-79 | The first block whose bit is clear, if there is one. |
| FileSystem.Fs.Bfree | fs.c:83-99 | Clears exactly one bit; panics if and only if it was clear. |
| FileSystem.Fs.MarkAndZero | fs.c:71-75 | Marks one block and zeroes it, and logs what it changes. |
| FileSystem.Fs.Bmap | fs.c:380-410 | The number of the n-th block, allocated if necessary, with the indirect block; it panics if and only if the number is out of range or fewer blocks are free than are missing, and takes exactly these.  No file changes, no other slot, and block numbers once given stay; every block that changes is logged, a new one with its free-map and indirect blocks. |
| FileSystem.Fs.BmapIndirect | fs.c:394-407 | The same for a block beyond the direct ones. |
| FileSystem.Fs.AllocateSlot | fs.c:389-403 | An empty slot gets a free block if and only if there is one; no file and no other slot changes; what is logged. |
| FileSystem.Fs.LoadIndirect | fs.c:396-399 | The indirect block is there afterwards unless no block was free; no file changes. |
| FileSystem.Fs.TruncateDirect | fs.c:424-429 | Exactly the direct blocks become free. |
| FileSystem.Fs.TruncateIndirect | fs.c:431-441 | Exactly the entries and the indirect block become free. |
| FileSystem.Fs.TruncateBlocks | fs.c:424-441 | Both together: every slot of the inode is empty and its blocks are no one's. |
| FileSystem.Fs.Itrunc | fs.c:412-445 | The panic for freeing a free block cannot happen, exactly the blocks of the inode become free, every other file keeps its contents, the inode is saved and no other inode on the disk changes; every block that changed is logged. |
| FileSystem.Fs.Readi | fs.c:459-486 | Exactly the slice of the flat byte array, clipped at the size, across blocks and the indirect boundary; no file changes.  It panics if and only if the range lacks more blocks than are free, and otherwise takes exactly these. |
| FileSystem.Fs.ReadBlock | fs.c:480-483 | One turn of the loop of readi: the part of the slice in one block. |
| FileSystem.Fs.WriteBlock | fs.c:515-519 | One turn of the loop of writei: the part of src that falls into one block; it fails if and only if the blocks it lacks are not free, and logs every block that it changes. |
| FileSystem.Fs.WriteLoop | fs.c:514-520 | The loop of writei puts every byte in place; it fails if and only if the range lacks more blocks than are free.  However it ends, every block that changed is logged and no more than it touches; if it ends well, so are all blocks of the range and what it took to get them, and exactly the blocks that were missing are taken.  The inode changes if and only if it had an empty slot in the range. |
| FileSystem.Fs.Writei | fs.c:488-542 | The file becomes its old bytes with src laid over them at off, grown if needed, and no other file or inode changes; out of range changes nothing; over quota the bytes are in place but the file does not grow; it panics if and only if the range lacks more blocks than are free.  A saved inode stays saved if and only if the file grew or the inode had a slot filled for every byte.  However it ends, every block that changed is logged, and no more than the touched blocks and the inode; otherwise than after a panic all blocks of the range are, and the inode block if the file grew. |
| FileSystem.Fs.GrowInode | fs.c:535-538 | The end of writei: the new size goes into the inode and the inode into its block. |
| FileSystem.FirstByteLoses | fs.c:525-539 | So a first byte written to an empty file over quota leaves its block lost. |
| FileSystem.OtherContents | fs.c:514-520 | The flat contents of every other file are unchanged. |
| FileSystem.ChunkTouches | file.c:157-163 | A chunk of filewrite touches at most 14 data blocks, the indirect block, the inode and the free map: 21 blocks on a disk of FSSIZE. |
| FileSystem.Fs.WriteChunk | file.c:170-180 | One transaction of filewrite lays its bytes over the file; whatever its outcome, every block that changed is logged, and on a disk of FSSIZE these are at most 21, so that no run of the log that records only these, one call at a time, panics or overruns.  After success they include all blocks of the range and, if the file grew, the inode block. |
| FileSystem.Fs.FileWrite | file.c:156-188 | Which chunk ends the loop, and how, decided by the state before the call: the first that is out of range, lacks more blocks with those before it than are free, or hits the quota.  It succeeds if and only if there is nothing to write, or the whole range is in range, no chunk hits the quota and the blocks that the range lacks are free.  The bytes up to the new offset, where that chunk starts, are laid over the file and no others; a chunk over quota is laid over it as well, as far as the file reached before. |
| FileSystem.Fs.WriteNext | file.c:170-186 | One turn of that loop: its outcome from the state before the first. |
| FileSystem.StarvedIs | file.c:163-180 | What a chunk lacks in the state that it finds is more than is free if and only if all chunks up to it lack more than was free before the first. |
| FileSystem.PassesAll | file.c:163-188 | If every chunk passes, all of the bytes are in range and there are blocks enough for them. |
| FileSystem.PassesNot | file.c:163-188 | If one does not, they are not. |
| ChunkLog.DataCount | fs.c:380-410 | The blocks of a range of a file, once all are there, are as many as the range is long. |
| ChunkLog.ChunkFull | file.c:163-180 | A chunk of the largest size that extends a file from inside a block logs its 14 data blocks, the indirect block, a free-map block and the inode block. |
| ChunkLog.OtherSlots | fs.c:514-520 | A chunk leaves every slot of every other file alone. |
| ChunkLog.BothFull | file.c:163-180 | Two such chunks log at least 32 blocks, and calls that log these in one commit panic, in a log of any size. |
| ChunkLog.ExtendOne | file.c:170-180 | One such chunk succeeds if and only if the blocks that it lacks are free. |
| ChunkLog.TwoChunks | file.c:170-180 | Two such chunks on different files succeed if 30 blocks are free, and then log at least 32 blocks; if their calls share a commit, log_write panics, however large the log. |
| FsCrash.HoldsFrom | fs.c:297-322 | If every inode is saved, a disk that agrees with the cache from the inodes on is by itself a file system with the same files. |
| FsCrash.LostFrom | fs.c:525-539 | If a block number is only in the inode in memory, the disk marks a block in use that no inode on it names: it is no file system, whoever owns what. |
| FsCrash.AfterIs | log.c:69-202 | After a crash anywhere in the commit and any number in the recoveries, a completed recovery has the blocks before the transaction or those after it. |
| FsCrash.CanCommit | file.c:170-180 | On a disk of FSSIZE the log of mkfs takes what a chunk logged. |
| FsCrash.CrashInChunk | file.c:170-180 | A chunk, its commit cut off anywhere, recoveries cut off anywhere and one that completes: if the header was not written the disk holds the old files; if it was, it holds the file with src laid over it and the other files as they were, if and only if the chunk grew the file or found every slot filled; otherwise it is no file system. |
| Mkfs.LayoutOk | mkfs.c:23-27 | The layout: 20000 blocks and 200 inodes, the inodes from block 32, the free map from 58 and files from 63 on, as computed from the sizes. |
| Mkfs.Image.constructor | mkfs.c:108-115 | A zeroed disk with all inodes empty, its first free block after the metadata. |
| Mkfs.Image.Ialloc | mkfs.c:223-235 | The next inode number, its inode empty and every other inode as before. |
| Mkfs.Image.Ensure | mkfs.c:271-286 | A slot gets the next free block unless it has one, if and only if there is one; no file and no other slot changes. |
| Mkfs.Image.AppendBlock | mkfs.c:269-293 | One turn of the loop of iappend: it takes exactly the blocks that the piece lacks, and fails if and only if they are not there. |
| Mkfs.Image.Iappend | mkfs.c:255-297 | The file gains exactly the data at its end, other files stay, blocks are owned once; it takes exactly the blocks that the longer file needs and the shorter does not, and fails if and only if these are not there or the file gets too large. |
| Mkfs.TurnCost | mkfs.c:269-293 | A piece of a file that has just its blocks lacks exactly what the size of the file before and after it says. |
| Mkfs.TurnTight | mkfs.c:269-293 | After it the file has just its blocks again. |
| Mkfs.Image.MarkUsed | mkfs.c:237-251 | The free map is exact; it gives up if and only if more than one free-map block would be needed. |
| Mkfs.Image.PadRoot | mkfs.c:158-163 | The root directory is padded with empty entries to the next block boundary. |
| Mkfs.Image.CopyFile | mkfs.c:152-153 | A host file copied block by block arrives whole, with the same blocks and failures as in one piece. |
| Mkfs.Image.AddFile | mkfs.c:145-153 | One more entry in the root and one more file with its contents, if and only if both fit; the blocks that it takes. |
| Mkfs.Image.Build | mkfs.c:117-165 | The finished image satisfies the ownership that fs.c keeps, the root holds all entries in order and every file its contents.  It succeeds if and only if no file is larger than a file can be and the blocks of all, of their indirect blocks and of the root directory end within the first free-map block. |
| Path.Skipelem | fs.c:614-650 | Taking elements off one by one gives the components between slashes, cut to DIRSIZ, empty ones left out; null if and only if there is none. |
| Directory.DirFile.Dirlookup | fs.c:553-579 | Finds the slot of a name, cut to DIRSIZ, if and only if the directory has the name. |
| Directory.DirFile.Dirlink | fs.c:581-609 | Adds exactly this name, cut to DIRSIZ, unless it is there, reusing an empty slot and leaving all others. |
| Directory.DirFile.Clear | sysfile.c:219-222 | Removes exactly the name of the slot. |
| Directory.DirFile.Isdirempty | sysfile.c:168-182 | True if and only if the directory has no names but "." and "..". |
| DirBytes.EncodeHolds | fs.c:603-606 | The 16 bytes that dirlink writes stand for the number and the name cut to DIRSIZ. |
| DirBytes.PutEntry | fs.c:603-606 | Laying an entry over the bytes of a directory sets one slot, or adds one at the end, and leaves all others. |
| DirBytes.Namecmp | fs.c:547-551 | Comparing a name with the bytes of an entry tells whether the name, cut to DIRSIZ, is the entry's. |
| DirBytes.ReadEntry | fs.c:564-565 | readi of 16 bytes yields an entry; no file changes, and it panics if and only if the slots so far lack more blocks than were free. |
| DirBytes.Dirlookup | fs.c:553-579 | On the bytes of the file: the inode number that the directory's map has for the name, or nothing if it has none; no file changes.  It panics if and only if the slots up to that entry, or all of them, lack more blocks than are free. |
| DirBytes.FindEmpty | fs.c:594-601 | The first slot with number 0, or the end of the file; after dirlookup it cannot panic. |
| DirBytes.WriteEntry | fs.c:603-606 | writei of an entry sets the slot, and no other file changes; it fails if and only if the container is over its quota, the directory has the largest size, or the block of the slot is not there and the blocks to get it are not free. |
| DirBytes.Dirlink | fs.c:581-609 | On the bytes of the file: the map of the directory gains exactly this name, and then no block of the directory is missing, or has it already.  It panics if and only if the slots that it needs lack more blocks than are free or, for a name not there, the container is over its quota or the directory has the largest size and no empty slot. |
| DirBytes.StopsFilled | fs.c:594-606 | In a directory with no block missing a name that is there is found; for any other, want of blocks stops dirlink if and only if the block of the empty slot is not there and cannot be got: on a full disk, if and only if it is not there. |
| DirBytes.Clear | sysfile.c:219-222 | On the bytes: the map loses exactly the name of the slot; it panics if and only if over quota or for want of the slot's block. |
| Directory.NamesAdd | fs.c:603-606 | Writing an empty slot adds a name to the map that the directory stands for. |
| Directory.NamesDel | sysfile.c:219-222 | Clearing a slot removes its name from that map. |
| Links.LinkStartKeeps | sysfile.c:134-143 | Counting up before the entry is written keeps the invariant below 32767 links. |
| Links.LinkEntryKeeps | sysfile.c:147-153 | The entry uses up the count and finds a slot; it must not name a directory. |
| Links.LowerKeeps | sysfile.c:159-163 | The failed sys_link, and the end of sys_unlink, lower the count after the entry is gone. |
| Links.UnlinkKeeps | sysfile.c:202-222 | Clearing the entry, which is not that of a directory with entries, leaves counts outstanding for the inode and, for a directory, its parent. |
| Links.UnlinkParentKeeps | sysfile.c:229-233 | The parent's count for ".." goes down. |
| Links.CreateKeeps | sysfile.c:269-276 | A fresh inode with nlink 1 and no entry yet, its parent locked. |
| Links.CreateCountKeeps | sysfile.c:278-280 | The parent is counted up for ".." before the entry, and ".." of the new directory leads to it. |
| Links.CreateEntryKeeps | sysfile.c:286-291 | The name is still free, there is a slot, and the entry uses up the count. |
| Links.FreeKeeps | fs.c:341-362 | iput frees only an inode that no entry names and no call refers to; entries of a freed directory only make counts too high. |
| Links.StepKeeps | sysfile.c:119-292 | Every step that does not wrap a count keeps the invariant: counts cover entries and are exact until a directory is freed with entries in it, for directories always; directories are named once, and ".." of a named directory leads back. |
| Links.RunKeeps | sysfile.c:119-292 | So does every run. |
| Links.StepKeepsExactly | sysfile.c:141-142 | Each step keeps link counts at or above the entries if and only if it is not a sys_link at 32767 links; there the count is below the number of entries. |
| Links.PanicsExactly | sysfile.c:212-213 | A step panics if and only if dirlink finds no slot, create no free inode, an inode not in use no slot in the inode cache, or a lookup of ".." a freed inode; the panics for nlink below 1, for an entry naming a freed inode and for a name already taken in create are unreachable. |
| Links.StepCached | fs.c:250-282 | No more than NINODE inodes are ever in use. |
| Links.DotdotHolds | fs.c:553-579 | In the root, and in every directory that an entry names, ".." leads to an allocated directory, the one that holds the entry. |
| Links.DirectoryLinks | sysfile.c:278-280 | The link count of a directory is bounded by the slots of a directory, far below 32767. |
| Links.CreateCountFits | sysfile.c:278-280 | So mkdir never wraps it. |
| Links.NeverUndercounts | sysfile.c:119-292 | After every run of interleaved calls without wrap-around, nlink is at least the number of entries naming the inode; for directories always, and for files until a directory is freed with entries in it, it is exactly that number, one for each directory in it, the counts that calls in flight have outstanding, and one for the root.  Every entry names an allocated inode, no more than NINODE inodes are in use, and the next step panics only for the four reasons. |
| Links.InitialInv | mkfs.c:117-150 | The image that mkfs makes satisfies the invariant, its counts exact, if the files fit in the root directory. |
| LinksLaws.RefusedExactly | sysfile.c:119-292 | When each step goes through, waits for a locked directory, panics or is refused, all four if and only if: sys_link refuses a directory and a name that is there, sys_unlink a name that is not there and a directory that holds an entry, create a name that is there. |
| LinksLaws.EntryGoes | sysfile.c:185-236 | An entry keeps its inode until it goes, which it does by its own sys_unlink, and not if it names a directory that holds an entry, or with its directory when that is freed. |
| LinksLaws.EntryComes | sysfile.c:119-292 | An entry comes from a sys_link or create that has counted its inode, and names that inode. |
| LinksLaws.HolderKept | sysfile.c:168-213 | A directory that holds an entry keeps the entry that names it. |
| LinksLaws.HolderKeptRun | sysfile.c:168-213 | So it does over any run of interleaved calls. |
| LinksLaws.CallStaysRun | sysfile.c:119-292 | What a call under way remembers, and the kind of its inode, are the same after any steps of other calls. |
| LinksLaws.GivesName | sysfile.c:119-156 | sys_link with any steps of other calls in between adds exactly the new name, for the inode it was given, and its kind is what it was. |
| LinksLaws.Creates | sysfile.c:242-292 | create of a file or device likewise: the name was not there, the inode is the first free one, of the kind asked for. |
| LinksLaws.MakesDirectory | sysfile.c:242-292 | mkdir likewise, and ".." of the new directory leads to the one that names it. |
| LinksLaws.FreedExactly | fs.c:341-362 | iput frees the inode if and only if it was the last reference and the count is 0; otherwise one reference goes and nothing else. |
| LinksRuns.Mkdir | sysfile.c:242-292 | The steps of mkdir in a quiet system. |
| LinksRuns.Rmdir | sysfile.c:185-236 | The steps of unlink of an empty directory. |
| LinksRuns.Link | sysfile.c:119-156 | The steps of sys_link. |
| LinksRuns.DotdotPanics | fs.c:297-322 | A run from a root directory without entries: a and a/b are made, b and then a removed by a process in b, and the lookup of ".." panics. |
| LinksRuns.WrapReached | sysfile.c:141-142 | A run from one file to 32767 links of it, all of them entered, and the sys_link that wraps the count. |
| LinksRuns.NoInodeReached | fs.c:204-224 | A run from a fresh root directory: files are made until no inode is left, and create panics. |
| LinksRuns.CacheFullReached | fs.c:250-282 | A run from a fresh root directory: 49 files stay open, and create panics in iget although inodes are free. |
| Kalloc.Memory.constructor | kalloc.c:37-51 | kinit1 and kinit2 put every frame above the kernel image on the free list, once. |
| Kalloc.Memory.FreeRange | kalloc.c:53-60 | Frees exactly the frames of the range. |
| Kalloc.Memory.Kfree | kalloc.c:62-94 | The frame is first in the free list, filled with junk; an address outside free memory panics. |
| Kalloc.Memory.Kalloc | kalloc.c:96-128 | The first free frame leaves the list and no other changes; null if and only if the list is empty. |
| PageTable.AddTableKeeps | vm.c:45-53 | A blank page table in place of a missing one changes no entry of any address space. |
| PageTable.SetLeafEntries | vm.c:73-73 | Writing an entry changes that entry and no other, of this or any other address space. |
| PageTable.SetLeafKeeps | vm.c:73-73 | Frames stay in one use each, and the uses agree with all page tables. |
| Vm.Walkpgdir | vm.c:32-55 | The table of an address; a missing one is made only on request and if and only if there is a page; the flat view does not change. |
| Vm.InstallTable | vm.c:47-52 | A fresh page is cleared and entered as a page table; the flat view does not change. |
| Vm.MapOne | vm.c:69-73 | One turn of the loop of mappages: exactly one entry, or the reason why not; it fails for want of a table if and only if the table is missing and no page is free. |
| Vm.SetEntry | vm.c:73-73 | One entry of the flat view changes, and a user frame belongs to it from then on. |
| Vm.Mappages | vm.c:57-80 | Adds exactly its range to the flat view, and succeeds if and only if the free pages cover the missing tables; it panics exactly at the first page mapped already. |
| Vm.Deallocuvm | vm.c:251-279 | Removes exactly the present pages of its range and frees exactly their frames, though it skips missing tables; its panics are unreachable. |
| Vm.DeallocOne | vm.c:266-276 | One turn of the loop of deallocuvm: one page, or a whole missing table. |
| Vm.Freevm | vm.c:281-298 | Every page, table and directory of the address space is on the free list, each once; no other frame changes. |
| Vm.TearOne | vm.c:291-296 | One turn of the loop of freevm: one page table goes. |
| Vm.FreeDir | vm.c:297-297 | The directory itself goes. |
| Vm.Allocuvm | vm.c:219-249 | New blank writable pages on frames that were free, nothing else changed; it succeeds if and only if the free pages cover the new pages and the missing tables; on failure the mapping is what it was, and at most page tables were added. |
| Vm.GrowOne | vm.c:234-241 | One turn of the loop of allocuvm, before it cleans up, with what it takes from the free pages. |
| Vm.Place | vm.c:240-241 | Filling a fresh page and mapping it; it fails if and only if the table is missing and no page is left. |
| Vm.GiveUp | vm.c:235-238 | The clean-up without a page. |
| Vm.GiveBack | vm.c:241-246 | The clean-up with a page that found no table. |
| Vm.RestoredAll | vm.c:234-246 | Unmapping what was grown restores the mapping and the use of every frame but new tables. |
| VmCopy.Setupkvm | vm.c:117-136 | An address space with exactly the kernel's mapping, made of 65 frames, if and only if so many are free; otherwise every frame is as before. |
| VmCopy.Copyuvm | vm.c:313-343 | The child has the parent's flags and contents on frames of its own, the parent is unchanged; it succeeds if and only if the free frames cover the kernel's tables, the pages and their tables.  On failure every frame is back but one page that found no table, and that one is lost if and only if the free frames run out between a page and its table. |
| VmCopy.CopyOne | vm.c:326-336 | One turn of the loop of copyuvm, its outcome decided by the number of free frames. |
| VmCopy.LeaksOne | vm.c:332-336 | With one frame more than the kernel's tables need, copying any process of at least a page loses it. |
| VmCopy.BornGone | vm.c:340-342 | Taking a new address space down again leaves every frame as it was before. |
| VmCopy.AddedGone | vm.c:335-341 | With a page that found no table, every frame but that one. |
| VmCopy.OtherSpace | vm.c:325-337 | Building one address space leaves the entries and page contents of every other as they were. |
| FreeList.InsertOrdered | umalloc.c:29-43 | Freeing a block keeps the list in address order with no two free blocks adjacent. |
| FreeList.InsertSum | umalloc.c:32-41 | It adds exactly the block's units. |
| FreeList.InsertApart | umalloc.c:32-41 | Blocks handed out do not overlap the new free list. |
| FreeList.TakeOrdered | umalloc.c:75-83 | Allocating keeps the order, and the block handed out overlaps no free block. |
| FreeList.TakeSum | umalloc.c:75-83 | It removes exactly the units handed out. |
| FreeList.TakeApart | umalloc.c:75-83 | Blocks handed out before overlap neither the new free list nor the new block. |
| FreeList.TakeInsert | umalloc.c:24-44 | Freeing a block just allocated restores the free list. |
| Umalloc.RoomExact | umalloc.c:69-69 | Rounding up leaves room for nbytes if and only if it does not wrap, and never a whole unit to spare. |
| Umalloc.ClaimIs | umalloc.c:52-54 | morecore asks for 4096 units, or for those of a request that needs more. |
| Umalloc.WrapGivesNoRoom | umalloc.c:69-69 | malloc of the largest unsigned int asks for a header and no room. |
| Umalloc.SbrkArgument | umalloc.c:54-54 | For which requests the argument of sbrk is a positive int, and what it is otherwise. |
| Umalloc.HalfGoesBackwards | umalloc.c:54-54 | malloc of two gigabytes makes it negative. |
| Umalloc.SbrkIs | sysproc.c:64-76 | sbrk with the claim of morecore: told to obtain memory it succeeds if and only if there is memory and the break stays below the limit, and moves it up by the claim; told to give memory back it reports failure if and only if nothing would be left, and moves the break down unless that would go below 0. |
| Umalloc.SbrkExtends | sysproc.c:64-76 | The same by the size of the request. |
| Umalloc.PlaceStops | umalloc.c:30-32 | The tests of the search loop of free hold at the place of the block and nowhere else in the ring. |
| Umalloc.Heap.constructor | umalloc.c:21-22 | No memory yet, nothing handed out. |
| Umalloc.Heap.FindPlace | umalloc.c:30-32 | The search of free ends, at the last free block below the one to free. |
| Umalloc.Heap.Relink | umalloc.c:33-42 | What the assignments of free leave in the two headers they touch; no other header changes. |
| Umalloc.Heap.FreeBlock | umalloc.c:24-44 | In the headers in memory the ring becomes the free list with the block joined to its neighbours. |
| Umalloc.Heap.Free | umalloc.c:24-44 | The block is free again, everything else handed out stays, free plus live units stay what morecore obtained. |
| Umalloc.Heap.MoreCore | umalloc.c:46-61 | At least 4096 more units are linked in where memory ended, with a free block that is large enough, whether or not sbrk obtained them; or nothing but the break changes.  Which of the two, and where the break is, by the memory there is and the size of the request. |
| Umalloc.Heap.Init | umalloc.c:70-73 | The first call makes base a ring of its own. |
| Umalloc.Heap.Refill | umalloc.c:86-88 | After morecore some free block is large enough, and the search starts again. |
| Umalloc.Heap.Carve | umalloc.c:75-84 | The end of the block found, or the whole block, is handed out. |
| Umalloc.Heap.HandOut | umalloc.c:74-84 | The same within malloc, with what the block is worth. |
| Umalloc.StageEnd | umalloc.c:74-90 | What is known of the block when the search ends: it lies in memory and has room if and only if a free block was large enough and nothing wrapped, or the request is below two gigabytes. |
| Umalloc.Heap.Raise | proc.c:169-188 | The program may move the break up between the calls. |
| Umalloc.Heap.Cut | umalloc.c:76-82 | The header updates for that. |
| Umalloc.Heap.Malloc | umalloc.c:63-90 | For every request, a block that overlaps no other; morecore is called at most once and exactly when no free block is large enough; the loop ends.  If it is called for a request of at most two gigabytes less 16, null is returned if and only if there is no memory or the claim would take the break to the limit, and otherwise the break is up by the claim; larger requests likewise, by what sbrk is then told.  The block lies in the process's memory with room for nbytes if and only if a free block was large enough and the rounding did not wrap, or nbytes is at most two gigabytes less 16; the break and the next call's memory stay sound exactly when sbrk was not told to go back. |
| Proc.ExitKeeps | proc.c:275-288 | After exit no process sleeps in wait() with an exited child, and all children have a live parent. |
| Proc.ExitLedger | proc.c:288-288 | A process exits once. |
| Proc.ReapKeeps | proc.c:319-331 | Reaping a zombie keeps the table's invariant. |
| Proc.ReapLedger | proc.c:319-331 | A process is reaped once, and only after it exited. |
| Proc.WokenKeeps | proc.c:509-517 | Waking never leaves a process asleep in wait() with an exited child. |
| Proc.ForkKeeps | proc.c:213-232 | A forked process has a live parent. |
| Proc.NothingLost | proc.c:302-344 | A process that exited and was not reaped is a zombie whose parent is alive and not asleep in wait(). |
| Proc.ProcTable.constructor | proc.c:131-167 | The table after userinit. |
| Proc.ProcTable.Allocproc | proc.c:88-102 | The first free slot, with a process number never used before, and no other slot changes; fails if and only if all slots are in use. |
| Proc.ProcTable.ForkFail | proc.c:206-211 | Out of memory the slot is free again. |
| Proc.ProcTable.ForkParent | proc.c:213-213 | The parent is entered without the lock and is alive. |
| Proc.ProcTable.ForkDone | proc.c:230-242 | The child becomes runnable. |
| Proc.ProcTable.Exit | proc.c:247-291 | The process is a zombie, its parent is awake, all its children are init's, init is awake if one has exited, and every other process is as it was; each exit is recorded once; init must not exit. |
| Proc.ProcTable.PassChildren | proc.c:278-285 | The loop gives every child to init, and wakes init if a child has exited. |
| Proc.ProcTable.WaitScan | proc.c:302-344 | The first exited child is reaped if and only if there is one, never twice; without children, or killed, it gives up; otherwise, with children and not killed, it sleeps. |
| Proc.ProcTable.Reap | proc.c:320-331 | The zombie's slot is free and its number recorded as reaped. |
| Proc.ProcTable.Sleep | proc.c:467-504 | Sleeping on a channel that is not a process keeps the table's invariant. |
| Proc.ProcTable.Wakeup | proc.c:506-526 | No process sleeps on the channel afterwards; those that did are runnable with all else the same, and every other process is as it was. |
| Proc.ProcTable.Wakeup1 | proc.c:509-517 | The same of the loop of wakeup1. |
| Proc.ProcTable.Kill | proc.c:528-555 | Fails if and only if no process in use has the number or the caller may not; otherwise that process is marked killed and, if asleep, runnable, with all else the same, and every other process is as it was. |
| Proc.ProcTable.Schedule | proc.c:395-399 | A runnable process runs. |
| Proc.ProcTable.Yield | proc.c:436-444 | A running process is runnable again. |
| ProcRuns.Perform | proc.c:88-555 | Whatever any process does under the lock, a process asleep on a channel other than a process is made runnable if it is that channel's wakeup or its own kill, and sleeps on if not. |
| ProcRuns.Run | proc.c:88-555 | So over any run: it sleeps on until the first of these. |
| ProcRuns.SleepAndWake | proc.c:467-526 | sleep by one process, any run of the others and then wakeup of the channel: the process is runnable unless it was roused before, and no one sleeps on the channel. |
| Pipe.FullEmpty | pipe.c:85-106 | On wrapped 32-bit counters the tests of pipe.c tell a full, an empty and any other pipe apart. |
| Pipe.PipeState.constructor | pipe.c:33-36 | An empty pipe, open at both ends. |
| Pipe.PipeState.Put | pipe.c:93-93 | One byte enters the ring at the wrapped counter. |
| Pipe.PipeState.Take | pipe.c:116-116 | The oldest byte leaves the ring. |
| Pipe.PipeState.WriteSegment | pipe.c:77-98 | Bytes are accepted in order; what happens when they do not fit; readers are woken unless the write fails; no one sleeps for nothing afterwards, if and only if it is not a killed writer with more than 512 bytes left while readers sleep. |
| Pipe.PipeState.ReadSegment | pipe.c:100-121 | The next bytes accepted are delivered, as many as asked for and there are; a reader sleeps only on an empty pipe with the write end open, and only if it was not killed. |
| Pipe.PipeState.Close | pipe.c:59-75 | The end is closed and the other side woken; the pipe goes when both are closed. |
| Pipe.PipeState.Kill | proc.c:545-548 | Waking a sleeper by kill keeps the sleeping rule. |
| Pipe.ReaderLeftAsleep | pipe.c:77-98 | A reader asleep on a new pipe and a killed writer with 513 bytes: the pipe is full and the reader sleeps on. |
| Shell.Peek | sh.c:310-320 | Whether the next token starts with one of the characters. |
| Shell.Gettoken | sh.c:265-308 | The next token, its extent and the start of the one after, on which LexesExactly speaks of the characters. |
| Shell.Parseredirs | sh.c:374-397 | The loop collects the redirections that the function Redirs collects. |
| Shell.Parseexec | sh.c:415-446 | Returns the command of the function Simple, of which the grammar is proved. |
| Shell.Parseblock | sh.c:399-413 | The same for Block. |
| Shell.Parsepipe | sh.c:361-372 | The same for Pipeline. |
| Shell.Parseline | sh.c:344-359 | The same for Line, with the loop over ampersands. |
| ShellText.Parsecmd | sh.c:327-342 | On every input the parser ends; it returns a command if and only if the grammar derives it from the tokens that the line spells out with blanks between them, and a syntax error if and only if none is derivable. |
| ShellText.LexesExactly | sh.c:265-308 | A line has the tokens ts if and only if it is ts spelled out with blanks around them: blanks are the space, tab, carriage return, newline and vertical tab, words are made of all characters but these and the seven symbols, and between two words, or between two arrows that would run together, there is a blank. |
| ShellText.LexesAt | sh.c:265-308 | Tokens spelled out, with any blanks, from any place in the input on are the tokens read there. |
| ShellText.LexedAt | sh.c:265-308 | Every rest of an input is its tokens spelled out with some blanks. |
| ShellText.ParsesText | sh.c:327-446 | A line spelled out from tokens, with any blanks, parses to exactly the commands that the grammar derives from the tokens, on the text of the words. |
| ShellGrammar.ParsesExactly | sh.c:327-446 | The grammar derives a command from the tokens of a line if and only if the parser returns it. |
| ShellGrammar.Unambiguous | sh.c:327-446 | No line has two readings. |
| ShellGrammar.WrapIs | sh.c:374-397 | The redirections of a command are wrapped around it in order, the last outermost. |
| ShellGrammar.LineSound | sh.c:344-359 | What is parsed as a line at any place is a line of the grammar, and the cursor has passed exactly its tokens. |
| ShellGrammar.LineComplete | sh.c:344-359 | A line of the grammar, followed by the end or by a closing parenthesis, is parsed with the grammar's command, up to its end. |
| ShellGrammar.PipeComplete | sh.c:361-372 | The same for pipelines, before an ampersand or semicolon too. |
| ShellGrammar.BackedComplete | sh.c:350-353 | The same for pipelines with ampersands. |
| ShellGrammar.SimpleComplete | sh.c:415-446 | The same for simple commands, their words and redirections in any order, and for blocks. |
| ShellGrammar.ArgsComplete | sh.c:429-445 | The argument loop takes words and redirections in any order. |
| ShellGrammar.RedirsComplete | sh.c:374-397 | The loop of parseredirs takes all redirections and stops at the first other token. |
| ShellGrammar.TokensSpell | sh.c:265-308 | The tokens spell the line without its blanks. |
| ShellGrammar.TokensWhole | sh.c:265-308 | Every word is as long as it can be, to both sides. |
| ShellStrings.LineWords | sh.c:344-446 | Every argument and file of a parsed command is a whole word of the input. |
| ShellStrings.Nulterminate | sh.c:448-493 | NULs at the ends of all arguments and files, and nowhere else. |
| ShellStrings.WordReads | sh.c:448-493 | No end of a word lies inside another word, so each reads whole. |
| ShellStrings.ParseAndTerminate | sh.c:327-342 | Afterwards every argument and file name reads as its token. |
| ShellRoundTrip.RoundTrip | sh.c:327-446 | Printing any command of words without blanks and symbols, at most nine to a command, with parentheses around every part, with any blanks that keep the tokens apart and either form of the output arrow, and parsing it gives the command back: no command is out of the parser's reach. |
| ShellRoundTrip.PrintsLine | sh.c:327-446 | The grammar derives every such command from its tokens. |
| ShellRoundTrip.BlanksDo | sh.c:265-308 | Blanks of any kind and number between all tokens keep them apart. |
| Grep.MatchHere | grep.c:84-96 | True if and only if the text starts with a word of the pattern's language. |
| Grep.MatchStar | grep.c:98-106 | True if and only if some number of matching characters is followed by such a word. |
| Grep.Match | grep.c:72-82 | True if and only if the text contains a match in the language of the pattern, with the anchors ^ and $. |
| Grep.BeginsMany | grep.c:98-106 | What a starred first character means for the language. |
| Grep.BeginsOne | grep.c:93-94 | What a plain first character means for the language. |
| Grep.PrintParse | grep.c:72-106 | Reading a string as a pattern and writing the pattern out gives the string back. |
| Grep.ParsePrint | grep.c:72-106 | A pattern written out reads as itself if and only if no plain character stands before a starred or plain star, and it does not end in a plain dollar sign. |

## Left out

- Containers: quotas, stop, scheduling and the container branches of namex; the quota test of writei and filewrite and the authorization in kill are parameters.
- pause and resume, which overwrite process states without the table lock.
- Hardware, interrupts, traps, exec, the console, and the files and pipes behind file descriptors.
- Spinlocks and context switches are taken as atomic; a section that holds a lock is one step or one method call.
- The type, device numbers and link count in an inode block: iupdate has the size and the addresses, and the other words stay.
- Device files in readi and writei.
- namex and the locking order of path lookup; iget, idup and ilock appear only as reference counts.
- The memory counter of kalloc.c and inituvm, loaduvm, clearpteu and copyout in vm.c.
- runcmd in sh.c and the line buffering of grep.c.
- Bcache.Cache.Bread: says nothing about waiting for a holder; with one, bread is Bget, then Acquire when the lock is free, then Fill.
- Bcache.Cache.Fill: speaks of devices other than 0, because all buffers start out as block 0 of device 0 and only other devices have one buffer to a block; the root file system is on device 1.
- Bcache.Cache.Iderw: leaves out the panics for a device other than 1 and for a block beyond the disk, since the disk is a map without a size here.
- LogDevice.Log.LogWrite: takes the capacity test, which is made without the lock, and the recording as one step; GroupCommit has them apart.
- LogDevice.Log.EndOp: runs commit() to its end; what other calls do meanwhile is in GroupCommit.
- CommitCache.Commit: takes the buffers of processes that only read to be the same during the commit and of other blocks than commit() uses; for one of those commit() would wait, which bget does without a panic.
- FileSystem.Fs.Writei: a panic of balloc on a full disk ends the run, and nothing is said of the bytes written before it.
- FileSystem.Fs.FileWrite: says nothing of the contents after a panic on a full disk.
- Mkfs.Image.constructor: leaves out the write of the superblock; its numbers are the constant SB.
- Mkfs.Image.Build: asks for no more files than there are inodes, which mkfs does not check; it also stops when the disk is full, where mkfs writes on beyond its end and gives up only at the free map.
- Directory.DirFile.Dirlookup: works on records of a number and a name; DirBytes has the bytes.
- Directory.DirFile.Dirlink: the same, and writing the slot does not fail there.
- DirBytes.Dirlink: names are strings of bytes other than 0, and the inode number fits its two bytes, as the number of inodes ensures.
- Links.NeverUndercounts: takes the file system calls at the granularity of their changes to counts and entries; the panics that PanicsExactly lists end the run.
- Links.PanicsExactly: leaves out the panics of dirlink for want of disk blocks and over a container's quota; DirBytes.Dirlink has them.
- ChunkLog.TwoChunks: runs one chunk after the other and then lets their log_writes come in any order; the blocks that balloc picks for chunks that interleave may be others.
- FsCrash.CrashInChunk: has the chunk alone in its commit; GroupCommitAtomic has the transactions of many calls, without saying what they mean for the files.
- Kalloc.Memory.Kfree: asks that the page is not free already, which the source does not check.
- Vm.Deallocuvm: asks for oldsz up to KERNBASE, as all callers have it; beyond, the skip over missing tables would wrap around.
- Vm.Mappages: asks that the range does not wrap around the end of the address space.
- Umalloc.Heap.Malloc: asks that the break is a multiple of 8, and takes the stores into a block beyond the break to succeed, where the process would fault.
- Proc.ProcTable.Allocproc: process numbers do not wrap around.
- Shell.Parseexec: builds the command from values where the source fills argv in place inside a command already wrapped in redirections.
