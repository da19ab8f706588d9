# xv6 in Dafny

A model of the parts of xv6 for RISC-V that carry the most state, with an MLFQ scheduler, and proofs about them.
Each component is modelled in the form it has in the source: structures that are updated in place are classes, loops
are loops with invariants, and each such method is proved against a specification on values, about which the main
results are stated.

- **Log and buffer cache** (`Blocks`, `LogSpec`, `LogReservation`, `BufferList`, `CacheSpec`, `CacheOps`,
  `BufferCache`, `LogRounds`, `Log`; `CommitSteps`, `LogSystem`, `LogRuns`, `CommitRuns`, `FullCache`): what each block
  write of commit and recovery leaves on disk, the LRU cache under the log, and both together over every interleaving
  of operations, readers and the commit, one step on one buffer at a time.
- **File system** (`Bitmap`, `Inodes`, `Truncate`, `Files`, `BlockMap`, `InodeStore`, `Space`, `Changes`, `FileOps`,
  `Writes`, `FileSystem`, `FileCrash`): which block belongs to which slot of which inode, the bytes of files, how many
  bytes a write moves, which blocks it stores to and which it logs, and what a crash leaves. A disk block is here what
  bread returns for it: its latest contents (`LogRuns.EveryReadIsLatest`), or, for a block that was stored to and not
  logged, what the disk has, from the time its buffer is recycled (`LogRuns.LatestChanges`,
  `FileSystem.Volume.Recycle`).
- **Directories** (`Names`, `Directory`, `DirOps`): a directory as a map from names to inode numbers.
- **Virtual memory** (`Sv39`, `PageTable`, `Translation`, `Paths`, `Ranges`, `Growth`, `Vm`, `Fork`, `Teardown`,
  `FreeWalk`, `UserCopy`, `Mmu`): three-level page tables as a map from pages to leaves, the page allocator, growing,
  copying and tearing down address spaces and exactly when there is memory for it, copying to and from user memory, and
  what the machine's own walk makes of the tables.
- **User-level allocator** (`HeapBlocks`, `FreeList`, `Umalloc`, `NextFit`, `Malloc`): the circular free list as a
  tiling of the heap, and which block malloc takes.
- **Scheduler** (`Mlfq`, `Scheduler`): the five queues and their rings, aging, demotion and preemption.
- **Sleeping** (`SleepWakeup`, `SleepLock`): sleep and wakeup interleaved at every lock operation, and sleep locks as
  a client of them.
- **Disk driver** (`Virtqueue`, `VirtioDisk`): descriptor chains, the two rings with 16-bit indices, and a device that
  knows no more than what the descriptors tell it.
- **Pipes** (`Pipe`): the ring with 32-bit counters.
- **Shell parser** (`ShellGrammar`, `ShellLexer`, `ShellTree`, `Shell`): the recursive-descent parser against the
  grammar it reads, what its tree says about the line, and the termination of strings in place.

Where the code and what one would expect of it differ, the code is modelled, and a result says exactly when the
expectation holds:

- Three operations of MAXOPBLOCKS blocks do not fit in the log (`LogReservation.PanicUnreachableIff`).
- A commit among readers may find no buffer: `FullCache.CommitWithoutBuffer` is a run that ends so, and
  `LogRuns.CanGetIff` says when bget finds one.
- A write whose source cannot be read to its end may leave bytes in a block that do not count and are not logged:
  exactly when is `Writes.LoggedIff` and `Space.NoneStrayIff`, the first such byte is `Writes.StrayByte`, and
  `FileSystem.LostByte` reads it once and then reads the old byte, with no write in between.
- dirlink stores the inode number as an unsigned short (`DirOps.LinkThenLookup`).
- copyin and copyout ask for PTE_U only: `Mmu.UserAccess` says where user code itself could not load or store.

Some invariants are written as a recursion over buffers, descriptors, files or pages. That keeps their quantified
clauses out of proofs that do not need them; a lemma next to each (`...Iff`) gives its plain meaning.

## Model

| member | source | states |
|---|---|---|
| `LogSpec.HeadRoundTrip` | kernel/log.c:86-114 | the header block that write_head encodes is decoded by read_head to the same list of blocks, whatever else the block held |
| `LogSpec.CrashAtomicity` | kernel/log.c:68-203 | stop commit after any number of its block writes, and then any number of recoveries after any number of theirs: the first recovery that completes leaves every home block old or every home block new, decided only by whether the header write had happened |
| `LogSpec.AnyNumberOfCrashes` | kernel/log.c:116-123 | recovery is idempotent under crashes: any sequence of interrupted recoveries recovers to the same home blocks as one that is not interrupted |
| `LogSpec.CommitIsAtomic` | kernel/log.c:193-203 | after each single block write of commit the disk recovers to the old or to the new home blocks |
| `LogRounds.EveryWriteIsAtomic` | kernel/log.c:178-203 | the same for the disks that a commit over the buffer cache leaves, also while readers hold other buffers, as long as every modification was logged |
| `LogRounds.DirtyIsLogged` | kernel/log.c:205-235 | a block whose latest contents are not on disk is in the log, once every modification was logged |
| `LogRounds.SpareIff` | kernel/bio.c:73-88 | a block that is not cached finds a buffer exactly when pinned blocks plus other buffers in use are fewer than NBUF |
| `LogRounds.SpareAtCommit` | kernel/log.c:178-203 | with nobody inside a bread ... brelse bracket a commit finds a buffer, since the log holds at most LOGSIZE - 1 blocks |
| `Log.Log.constructor` | kernel/log.c:54-65 | initlog leaves the recovered disk, with the cache as on disk, an empty log, and in the history exactly the writes of recovery |
| `Log.Log.BeginOp` | kernel/log.c:125-142 | an operation is admitted exactly when the log has room for MAXOPBLOCKS blocks of it and of every outstanding operation |
| `Log.Log.LogWrite` | kernel/log.c:214-235 | panics exactly for a full log or outside an operation; otherwise absorbs a logged block or appends and pins it, and the log stays consistent with the cache |
| `Log.Log.EndOp` | kernel/log.c:145-175 | the last end_op commits: the history grows by exactly the writes of commit, the disk ends with the latest contents of all home blocks, nothing stays logged or pinned, and buffers that others hold are unchanged |
| `Log.Log.WriteHead` | kernel/log.c:101-114 | one block write, which puts the list of logged blocks into the header |
| `Log.Log.ReadHead` | kernel/log.c:85-97 | the list that the header on disk holds, without any write |
| `Log.Log.WriteLog` | kernel/log.c:177-191 | the log blocks get the cached contents of the logged blocks, and every intermediate disk is in the history |
| `Log.Log.InstallTrans` | kernel/log.c:67-83 | the home blocks get the contents of the log blocks, and outside recovery lose their pin |
| `Log.Log.Bread` | kernel/log.c:205-213 | a client bread returns the latest contents of its block and leaves every logged block pinned |
| `Log.Log.Modify` | kernel/log.c:205-213 | a client that changes a buffer it owns leaves the log consistent |
| `Log.Log.Brelse` | kernel/log.c:205-213 | a client that releases a buffer, with what it modified logged or not, leaves the log consistent |
| `CommitSteps.AfterIsCommit` | kernel/log.c:67-203 | write by write: the disk with the target of each write replaced by what it stores is the disk after so many writes of write_log, write_head, install_trans and write_head |
| `LogSystem.StepKeeps` | kernel/log.c:125-235 | every single step of begin_op, bget, acquiresleep, the read and the modification of a buffer, log_write, brelse, end_op, and of commit (memmove, bwrite, bunpin, brelse), by operations, by readers outside operations and by the commit, in any order, keeps the invariant of log, cache and history; brelse is allowed with or without log_write before it, and who waits in bget has a reference |
| `LogSystem.SourceHas` | kernel/log.c:177-191 | also among readers, the buffer that commit copies from has what this write of it is to store |
| `LogRuns.EveryDiskIsAtomic` | kernel/log.c:125-235 | over any interleaving of these steps from initlog on every disk that any block write ever left recovers to all of one version or all of the next, where a version is the one before with the logged blocks as the cache had them |
| `LogRuns.Durable` | kernel/log.c:193-203 | stop at any step: between commits the disk recovers to the last version, during one to all of it or all of the one before |
| `LogRuns.EveryReadIsLatest` | kernel/bio.c:91-103 | over any interleaving who has read a block has its latest contents |
| `LogRuns.LatestChanges` | kernel/bio.c:57-103 | and the latest contents of a home block change only when a client stores in its buffer, or when bget recycles a buffer that differs from the disk, to what the disk has |
| `LogRuns.NothingLost` | kernel/log.c:205-213 | when every buffer that was modified is logged before its brelse, as the source asks, the latter does not happen: every bread returns what was stored last |
| `LogRuns.VersionIsLatest` | kernel/log.c:193-203 | and each version is all that clients have stored when its commit begins |
| `LogRuns.LoggedIsPinned` | kernel/log.c:214-235 | over any interleaving every logged block stays pinned in the cache, with its latest contents, until its commit has installed it |
| `LogRuns.OneBufferPerBlock` | kernel/bio.c:57-89 | over any interleaving no two buffers hold the same block, whatever bget recycles |
| `LogRuns.CanGetIff` | kernel/bio.c:57-89 | at any step of any run bget finds a buffer exactly when the block is cached, or the logged blocks not yet installed and the other buffers that somebody has or waits for are fewer than NBUF |
| `FullCache.CommitWithoutBuffer` | kernel/bio.c:73-88 | from any disk without a transaction: three operations that log 29 blocks, and a reader of one more, bring commit to its first bread with every buffer in use, so that bget panics |
| `CommitRuns.CommitEnds` | kernel/log.c:177-203 | from wherever a round of commit can begin with its buffers free and one to spare, its steps lead through all rounds to the end of commit, with the version that it makes durable |
| `LogReservation.ReservationHolds` | kernel/log.c:125-235 | in every run logged blocks plus unused reservations stay within LOGSIZE |
| `LogReservation.PanicUnreachableIff` | kernel/log.c:214-219 | with log.size equal to LOGSIZE, "too big a transaction" is unreachable exactly for operations that log at most MAXOPBLOCKS - 1 distinct blocks: the header takes one of the blocks |
| `BufferCache.Bcache.constructor` | kernel/bio.c:35-53 | binit: all buffers linked, none referenced, every block up to date on disk |
| `BufferCache.Bcache.Bget` | kernel/bio.c:57-89 | the buffer of the block, or the least recently released unreferenced one recycled for it; "no buffers" exactly when the block is not cached and all buffers are referenced |
| `BufferCache.Bcache.Brelse` | kernel/bio.c:115-137 | drops one reference and, at zero, moves the buffer to the list head |
| `BufferCache.Bcache.Bwrite` | kernel/bio.c:105-112 | the disk gets the contents of the locked buffer, and nothing else changes |
| `BufferList.MovedHolds` | kernel/bio.c:125-134 | unlinking and relinking at the head leaves a doubly linked list of all buffers in order of last release |
| `CacheSpec.RecycleLosesNothingIff` | kernel/bio.c:73-88 | recycling a buffer loses nothing exactly when the buffer is as its block on disk |
| `CacheSpec.RecycleOk` | kernel/bio.c:73-83 | recycling keeps every block in at most one buffer, and every uncached block up to date on disk |
| `Bitmap.PutDiskBitAt` | kernel/fs.c:65-105 | setting or clearing the bit of one block changes the bit of no other |
| `Bitmap.PutBitIs` | kernel/fs.c:77-103 | setting a clear bit of a byte adds its weight, clearing a set one takes it away, and otherwise nothing changes |
| `Bitmap.FindFree` | kernel/fs.c:71-86 | the first block whose bit is clear, or none |
| `Bitmap.MarkUsed` | mkfs/mkfs.c:234-248 | mkfs marks exactly the first blocks |
| `Inodes.Ownership` | kernel/fs.c:65-453 | between calls a bitmap bit is set exactly when the block is metadata or is in some inode |
| `Inodes.OwnedOnce` | kernel/fs.c:382-421 | a block is in one slot of one inode only, is never both a data and an indirect block, and no two inodes share an indirect block |
| `Truncate.TruncatedIs` | kernel/fs.c:425-453 | itrunc frees exactly the blocks that belong to its inode; no other owner and no block outside the bitmap changes |
| `Truncate.NeverFreesFree` | kernel/fs.c:91-105 | every bfree of itrunc meets a set bit: "freeing free block" is not reached |
| `BlockMap.TakeIs` | kernel/fs.c:382-421 | a block that balloc hands out goes to one vacant place and no other block changes hands, no mapped slot moves and no byte of any file changes |
| `BlockMap.BmapIs` | kernel/fs.c:382-421 | bmap gives the file its block or leaves the disk full, also when it runs out between the indirect block and the entry; nothing stays handed out without a place |
| `BlockMap.EveryRun` | kernel/fs.c:382-453 | after any sequence of bmap and itrunc calls the bitmap, the inodes and the owners agree, and no block is handed out without a place |
| `BlockMap.OwnershipInRuns` | kernel/fs.c:382-453 | so after any such sequence a bit is set exactly for metadata and for blocks of inodes |
| `BlockMap.NoPanicInRuns` | kernel/fs.c:91-105 | and no bfree of a following itrunc panics |
| `Space.BmapSpace` | kernel/fs.c:382-421 | bmap finds or makes the block exactly when there are as many free blocks as the slot needs, none, one or two, and then takes exactly those |
| `InodeStore.DinodeRoundTrip` | kernel/fs.c:225-241 | size and addresses of an inode are read back from its inode block, and the other inodes of the block are untouched |
| `InodeStore.UpdatedSynced` | kernel/fs.c:225-241 | after iupdate of the one inode that differed, all inodes on disk are as in memory |
| `Files.WriteFiles` | kernel/fs.c:514-527 | a copy into one block of a file changes exactly those bytes of that file |
| `Files.WrittenContents` | kernel/fs.c:505-539 | after writing t at an offset within the file its contents are what came before the offset, t, and what lay behind |
| `Files.ReadBack` | kernel/fs.c:471-539 | reading where one has written gives what was written |
| `Files.RefusedIff` | kernel/fs.c:509-512 | the tests of writei, with their wrapping sum, refuse exactly the writes that begin behind the end or would make the file too large, for all offsets and lengths |
| `Space.CompleteIff` | kernel/fs.c:505-539 | all bytes of a write count exactly when its source can be read to its end and the free blocks are enough for its slots |
| `Space.NoneStrayIff` | kernel/fs.c:505-539 | no byte is moved that does not count exactly when the source can be read to its end, or ends where a block ends, or the free blocks are not enough up to there |
| `Space.OutcomeUnique` | kernel/fs.c:505-539 | how many bytes count and how many are moved is decided by what is there before the call |
| `Changes.BmapTouch` | kernel/fs.c:382-421 | bmap stores to no block that it does not log |
| `Changes.AllLoggedIff` | kernel/log.c:205-213 | an operation has logged all that it stored to exactly when the one block it may have left is logged as well |
| `Changes.FirmChange` | kernel/log.c:205-235 | the blocks as they are without what was stored and not logged change from one transaction to the next in the logged blocks only |
| `FileSystem.Volume.constructor` | mkfs/mkfs.c:93-111 | mkfs leaves a valid file system with empty files, in memory as on disk, and exactly the blocks behind the metadata free |
| `FileSystem.Volume.Balloc` | kernel/fs.c:65-88 | the first free block, marked and zeroed; 0 exactly when all are in use; the bitmap block and the block are stored to and logged, and no other |
| `FileSystem.Volume.Bfree` | kernel/fs.c:91-105 | clears the bit of the block, whose bitmap block alone is stored to and logged, or panics exactly when it is clear |
| `FileSystem.Volume.Bmap` | kernel/fs.c:382-421 | the returned block is the slot of the file afterwards; the state is one of the two-step transitions that the run theorems are about; 0 only on a full disk; stored to and logged are exactly the blocks of these transitions; readi and writei call it in range only, so "bmap: out of range" is not reached |
| `FileSystem.Volume.Itrunc` | kernel/fs.c:425-453 | the file is empty, exactly its blocks are free, all other files are as they were, the inode on disk agrees, and what it stores to is logged: bitmap blocks and the inode block |
| `FileSystem.Volume.Iupdate` | kernel/fs.c:225-241 | the inode goes to its place in its inode block, which alone is stored to and logged; files and blocks are unchanged |
| `FileSystem.Volume.Recycle` | kernel/bio.c:73-83 | when the buffer of a block that was stored to and not logged is recycled, the block is again what the disk has, and so are those bytes of its file; nothing else changes and all invariants hold |
| `FileSystem.Volume.Readi` | kernel/fs.c:471-496 | the contents of the file from the offset on, as far as they go, with the 32-bit wrap check; -1 after a destination that cannot be written to its end; no block is allocated, stored to or logged |
| `FileSystem.Volume.Writei` | kernel/fs.c:505-539 | -1 exactly for a hole, a wrap or a file too large; otherwise the moved bytes are in the file from the offset on and the size is the larger of old size and the end of those that count, both numbers exactly as the free blocks and the readable source give them; the block in which a source ends is stored to and not logged, all other blocks it stores to are logged, and they are bitmap, indirect, written and inode blocks |
| `Writes.LoggedIff` | kernel/fs.c:505-539 | a write has logged all that it stored to exactly when the source can be read to its end, or ends where a block ends, or the free blocks are not enough up to there, or the block in which it ends is new: all decided before the call |
| `Writes.StrayByte` | kernel/fs.c:519-526 | not so for a write of one block over an existing one of which one byte can be read: it returns 0, the byte is in the file, and the block is not logged |
| `FileSystem.LostByte` | kernel/fs.c:519-526 | on a file system that mkfs made: such a write, two reads of the byte and a recycled buffer between them; the first read gives the new byte, the second the old one |
| `Writes.NeverStuck` | kernel/fs.c:505-539 | a write within the file always finds its blocks |
| `Writes.ChunkLogs` | kernel/file.c:151-158 | a write of at most three blocks of bytes logs at most six blocks more than the bitmap has |
| `Writes.ChunkTraced` | kernel/file.c:159-165 | such a write is a transaction: what it changes for good is in the blocks it logs, all behind the log region |
| `FileSystem.Volume.FileWrite` | kernel/file.c:150-177 | the chunks of a filewrite together put the source into the file, the offset moves by what counts, -1 for a short write; the transactions are all listed, with the state before and after each, as many as there are chunks of 3072 bytes up to the one that falls short, and each logs at most six blocks more than the bitmap has |
| `FileSystem.FilewriteFits` | kernel/file.c:151-158 | with one bitmap block that is seven blocks; "too big a transaction" is unreachable for operations of that size exactly when the bitmap has at most three blocks |
| `FileCrash.CrashInTransaction` | kernel/log.c:193-203 | a crash after any block write of the commit of a transaction, and any crashes in recovery: the disk recovers to the file system before it or after it, with bitmap, inodes and owners in agreement, every bit set exactly for metadata and blocks of inodes, and the files as they are without what was not logged |
| `FileCrash.CrashInFilewrite` | kernel/file.c:150-177 | so a crash at any block write of any transaction of a filewrite |
| `Names.Strncmp` | kernel/string.c:60-68 | 0 exactly when both buffers hold the same name, up to a NUL or n bytes |
| `Names.Strncpy` | kernel/string.c:70-81 | the name and NULs up to n bytes |
| `Names.CopyKeepsName` | kernel/string.c:60-81 | what strncpy stored compares equal to what it copied |
| `Names.SkipElem` | kernel/fs.c:622-645 | the first element of the path cut to DIRSIZ bytes, and a rest with exactly the other elements; nothing for a path without elements |
| `DirOps.LookupIsMap` | kernel/fs.c:551-575 | in a directory dirlookup finds exactly what the map binds |
| `DirOps.DirLookup` | kernel/fs.c:551-575 | the number and place of the first live entry with the name, nothing, or the panic on an incomplete last entry; no change |
| `DirOps.DirLink` | kernel/fs.c:579-606 | -1 without change exactly when the name is bound or there is no room for the entry, in the largest file or in free blocks; otherwise one entry is in the first free place and no other file changes |
| `DirOps.LinkIsMap` | kernel/fs.c:579-606 | a successful dirlink adds exactly one binding, to the number as an unsigned short, and none for a multiple of 65536 |
| `DirOps.LinkThenLookup` | kernel/fs.c:543-606 | a later dirlookup of any name with the same first DIRSIZ bytes returns the number exactly when it is between 1 and 65535 |
| `DirOps.LinkKeepsOthers` | kernel/fs.c:579-606 | any other name is found as before |
| `DirOps.Unlink` | kernel/sysfile.c:211-224 | the entry that dirlookup finds is cleared; the write of the empty entry always succeeds, so "unlink: writei" is not reached |
| `DirOps.LinkThenUnlink` | kernel/sysfile.c:211-224 | unlinking what was linked gives back the old map |
| `DirOps.DirectoryIsMap` | kernel/fs.c:551-606 | over any sequence of links and unlinks, some without room, no two live entries agree on DIRSIZ bytes and the directory means what the same changes make of a map |
| `Sv39.PteRoundTrip` | kernel/riscv.h:341-352 | an entry gives back the address and the flags it was made of |
| `Sv39.FlagsTested` | kernel/riscv.h:341-352 | of an entry made with any of PTE_R, PTE_W, PTE_X and PTE_U the tests of the source read exactly these |
| `Sv39.IndicesDetermine` | kernel/riscv.h:354-363 | page addresses below MAXVA with the same three indices are equal |
| `PageTable.LeafSlotsDistinct` | kernel/vm.c:85-103 | distinct pages, or pages of distinct trees, never share a leaf slot |
| `PageTable.AttachInv` | kernel/vm.c:92-100 | adding a page-table page keeps the invariant of all trees |
| `Translation.OwnedOnce` | kernel/vm.c:142-249 | no two leaves of any address spaces own the same physical page |
| `Translation.Conservation` | kernel/kalloc.c:33-82 | free, page-table, user and kernel pages are disjoint and are all the pages that freerange handed out |
| `Translation.MapLeafOk` | kernel/vm.c:142-165 | filling in one leaf entry changes the translation of exactly that page |
| `Translation.UnmapOk` | kernel/vm.c:170-192 | clearing one leaf entry removes exactly that page from the translation |
| `Paths.NeedIs` | kernel/vm.c:85-103 | the pages that mapping a run of pages takes: as many as it owns, and one for each page-table page on the paths to them that is not there, counted once |
| `Paths.DemandIs` | kernel/vm.c:142-333 | what mappages, uvmalloc and uvmcopy ask of the free list when no page of the range is in the way: exactly that |
| `Ranges.AddThenDrop` | kernel/vm.c:142-192 | unmapping what was mapped gives back the old translation |
| `Vm.Memory.constructor` | kernel/kalloc.c:26-40 | kinit: all pages free, nothing mapped |
| `Vm.Memory.Kalloc` | kernel/kalloc.c:68-82 | a page that was free and belongs to nobody else, filled; 0 exactly when there is none |
| `Vm.Memory.Kfree` | kernel/kalloc.c:46-63 | the panic exactly for an address that is not one of a page behind the kernel; otherwise the page is free again, filled, and nothing else changes |
| `Vm.Memory.Walk` | kernel/vm.c:85-103 | the slot of the address, at most adding page-table pages, which change no translation; the panic exactly above MAXVA |
| `Vm.Memory.MapPages` | kernel/vm.c:142-165 | maps pages from the first on, with the end of the range modulo 2^64: the panic exactly for size 0, for a page above MAXVA and for one that is mapped, if there is memory for the page tables up to there; -1 exactly when the free pages are fewer than those that are missing; otherwise all up to the last |
| `Vm.Memory.UvmUnmap` | kernel/vm.c:170-192 | succeeds exactly for a page-aligned range that is mapped throughout; then exactly its pages are unmapped and, if wanted, freed |
| `Vm.Memory.UvmAlloc` | kernel/vm.c:225-249 | grows by zeroed pages with the wanted flags; fails exactly when the free pages on entry are fewer than the pages to add and the page-table pages that are missing, and then undoes everything: the translation, the owned pages and the contents of all other pages are as before |
| `Vm.Memory.UvmDealloc` | kernel/vm.c:255-267 | unmaps and frees exactly the pages between the two sizes |
| `Fork.UvmCopy` | kernel/vm.c:305-333 | the child gets its own pages with the contents and flags of the parent; fails exactly when the free pages are fewer than the pages of the parent and the missing page-table pages of the child, and then everything is undone |
| `FreeWalk.UvmCreate` | kernel/vm.c:196-205 | an empty address space, or 0 exactly without memory |
| `FreeWalk.FreeWalk` | kernel/vm.c:271-287 | panics exactly when a leaf is left; otherwise frees the page and all page-table pages below it, and nothing else |
| `FreeWalk.UvmFree` | kernel/vm.c:291-297 | succeeds exactly when all pages of the process are mapped and nothing lies above; then every page of the tree and every user page is free and no other address space changes |
| `UserCopy.WalkAddr` | kernel/vm.c:108-126 | the physical address exactly for valid user pages; which these are is `UserCopy.MappedForUser` |
| `UserCopy.UserApart` | kernel/vm.c:351-371 | two user pages, of one or of two processes, never share memory |
| `UserCopy.CopyOut` | kernel/vm.c:351-371 | succeeds exactly when every touched page is valid and user-mapped; memory is as after storing the copied bytes one by one through the translation |
| `UserCopy.StoredAt` | kernel/vm.c:351-371 | then every address space sees those bytes at those addresses of this one, and no other change |
| `UserCopy.StoredElsewhere` | kernel/vm.c:351-371 | and pages outside the range are untouched |
| `UserCopy.CopyIn` | kernel/vm.c:376-396 | the bytes at the addresses, exactly when every touched page is valid and user-mapped |
| `UserCopy.CopyInStr` | kernel/vm.c:402-439 | a string, exactly when a NUL lies within max bytes before any page that cannot be used |
| `UserCopy.NewMemory` | kernel/vm.c:225-249 | whatever xperm is, user code may use every address that uvmalloc has added, and copyin reads zeros there |
| `UserCopy.ChildReads` | kernel/vm.c:305-333 | a child may use exactly the addresses that its parent could, and reads there what its parent reads |
| `UserCopy.MappedForUser` | kernel/vm.c:142-165 | what mappages has mapped user code may use exactly when perm has PTE_U |
| `Mmu.TranslateIs` | kernel/vm.c:72-103 | the walk that the machine does in Sv39, from the bits of addresses and entries, gives exactly the addresses that the map of the tree gives, for the accesses that the leaf allows, and page faults otherwise |
| `Mmu.UserAccess` | kernel/vm.c:351-396 | a load from user mode succeeds exactly on the pages that copyin accepts and that have PTE_R, a store exactly on those that have PTE_W as well; they reach the byte that copyin and copyout use |
| `Mmu.NewMemoryUsable` | kernel/vm.c:225-249 | memory that uvmalloc has added can be loaded from user mode, stored to exactly with PTE_W and executed exactly with PTE_X in xperm, and not used from supervisor mode |
| `HeapBlocks.TilesOrder` | user/umalloc.c:24-90 | blocks do not overlap |
| `HeapBlocks.FreeBlockCoalesced` | user/umalloc.c:30-41 | after free no two free blocks are side by side |
| `HeapBlocks.FreeBlockLive` | user/umalloc.c:24-44 | free takes exactly its block from the live ones |
| `Umalloc.FreedListed` | user/umalloc.c:24-44 | free keeps the circular list sorted by address, complete, and in agreement with the block sizes |
| `Umalloc.CutListed` | user/umalloc.c:78-86 | so does cutting a block off the tail of a larger one |
| `Umalloc.StopsIff` | user/umalloc.c:30-33 | the search of free stops at exactly one place of the circular list |
| `NextFit.FirstFit` | user/umalloc.c:72-84 | the place where the search around the list stops is the first large enough block behind freep, in the order of addresses with one wrap |
| `NextFit.NoneFits` | user/umalloc.c:72-87 | a search that has gone around without stopping has seen every free block: none is large enough |
| `Malloc.Allocator.Free` | user/umalloc.c:24-44 | the heap is the old one with the block freed and merged with free neighbours |
| `Malloc.Allocator.MoreCore` | user/umalloc.c:46-61 | fails exactly when sbrk does, without change; otherwise the new memory is a free block, merged with what lies below |
| `Malloc.Allocator.Malloc` | user/umalloc.c:63-90 | a block of the wanted size is live in addition, apart from all others: the first free block behind freep that is large enough, without sbrk, whenever there is one; otherwise a new one at the end of the heap; 0 exactly when no free block is large enough and sbrk fails |
| `Mlfq.Membership` | kernel/proc.c:34-81 | a process is in the queue of its own level, once, exactly when in_queue says so |
| `Mlfq.Room` | kernel/proc.c:34-42 | "Full queue" cannot happen for a process that is not queued |
| `Mlfq.PassChoice` | kernel/proc.c:783-821 | the scheduler runs, among the runnable processes of the best level, the one queued longest, and none only when none is runnable |
| `Mlfq.EveryRun` | kernel/proc.c:34-81 | all this, and that queued processes are runnable and have waited less than the aging limit, in every run of the scheduler, ticks, traps, sleeps, wakeups, exits and reaps |
| `Mlfq.Aging` | kernel/proc.c:894-905 | a process that waits is at level 0 after 30 queued ticks per level |
| `Mlfq.AgingExact` | kernel/proc.c:882-905 | a process keeps its level for 29 ticks in its queue, and with the thirtieth leaves it for the next better level |
| `Mlfq.CreditRun` | kernel/proc.c:867-910 | while it waits, its level never gets worse and each queued tick counts towards the next |
| `Mlfq.WaitCounts` | kernel/proc.c:884-888 | while a process stays queued its waiting time counts the ticks |
| `Mlfq.Dispatched` | kernel/proc.c:783-821 | a process that the scheduler runs has its whole slice before it, at the level that it had |
| `Mlfq.RunCounts` | kernel/proc.c:871-873 | while a process runs, its running time counts the ticks and its level stays |
| `Mlfq.Demotion` | kernel/trap.c:101-125 | a process that was dispatched at a level and has run for 1, 2, 4, 8 or 16 ticks of the run, for that level, is one level down after the next timer interrupt, but not below the last, and has given up the processor; before that it keeps its level and gives up exactly when a better queue is not empty |
| `Mlfq.GivenUp` | kernel/proc.c:786-795 | the next pass puts it into the queue of its level, with a new slice and the whole wait before it |
| `Mlfq.FirstCome` | kernel/proc.c:34-81 | who is in a queue stays before all who come into it later |
| `Mlfq.LevelChanges` | kernel/proc.c:868-909 | a process begins at level 0, and in any step its level changes by one only, to the better after 30 ticks of waiting and to the worse at a timer interrupt after its slice; sleep and wakeup leave it where it is |
| `Scheduler.Push` | kernel/proc.c:34-45 | the ring of the queue gets the process at its end |
| `Scheduler.Pop` | kernel/proc.c:52-61 | the ring loses its first process |
| `Scheduler.Delete` | kernel/proc.c:64-81 | the loop that moves entries up removes exactly the process with the pid, wherever the ring wraps |
| `Scheduler.Machine.SchedulePass` | kernel/proc.c:783-821 | one pass over the rings is the specified pass, with a loop bound that shrinks while it runs |
| `Scheduler.Machine.UpdateTime` | kernel/proc.c:867-910 | one tick over the process table is the specified tick |
| `Scheduler.Machine.TimerTrap` | kernel/trap.c:101-125 | the timer part of the trap handlers, for user and kernel traps, is the specified one: what it does to a process over its run is `Mlfq.Demotion` |
| `SleepWakeup.NoLostWakeup` | kernel/proc.c:935-983 | for any clients that hold the lock of a channel when they sleep on it or wake it up, over any interleaving at lock operations: when a wakeup has gone through the table nobody who had committed to sleep on the channel still sleeps or is on the way |
| `SleepWakeup.NoStrayWakeup` | kernel/proc.c:935-1010 | over any interleaving a process sleeps on its channel until a wakeup of that channel gets to it, or a kill |
| `SleepWakeup.AsleepUntilWoken` | kernel/proc.c:966-1010 | and these make it runnable |
| `SleepWakeup.SleepReturns` | kernel/proc.c:935-962 | sleep returns with the lock that its caller gave up |
| `SleepWakeup.NextInv` | kernel/proc.c:935-1010 | every step of sleep, wakeup, locking and kill keeps the invariant behind it |
| `SleepLock.MutualExclusion` | kernel/sleeplock.c:21-41 | at most one process is between acquiresleep and releasesleep, over any interleaving |
| `SleepLock.NoLostWakeup` | kernel/sleeplock.c:21-41 | when wakeup has returned in releasesleep, nobody who called sleep before is still asleep or on the way |
| `SleepLock.SleepersAreWoken` | kernel/sleeplock.c:21-41 | whoever sleeps does so while the lock is held or while its releaser has still to wake it |
| `SleepLock.NoDeadlock` | kernel/sleeplock.c:21-41 | no interleaving leaves processes stuck in acquiresleep or releasesleep: some of them can go on, unless a process has the lock and has yet to call releasesleep |
| `SleepLock.FreeLockIsTaken` | kernel/sleeplock.c:21-31 | acquiresleep on a free lock returns after three steps with the lock taken and owned by its caller |
| `SleepLock.StepInv` | kernel/sleeplock.c:21-41 | acquiresleep and releasesleep as clients of sleep and wakeup: every step keeps the invariant behind these |
| `Virtqueue.EveryRun` | kernel/virtio_disk.c:156-327 | in every run with a device that completes what it fetched in any order: free descriptors and three per request make up all, chains are disjoint, and the rings never overflow, also after the 16-bit indices have wrapped |
| `Virtqueue.SubmitInv` | kernel/virtio_disk.c:215-277 | a submitted request gets its own chain and ring slot |
| `Virtqueue.HandleInv` | kernel/virtio_disk.c:308-323 | an entry of the used ring belongs to a request in flight whose buffer waits for it, with status 0 |
| `Virtqueue.ServeIs` | kernel/virtio_disk.c:229-257 | a device that reads nothing but the descriptors of a chain and its header finds a command that it can carry out, and carries out the request: data direction, sector and place of the status are right |
| `Virtqueue.NextStore` | kernel/virtio_disk.c:215-327 | disk and buffers change only when the device carries out a request, as the request says |
| `Virtqueue.RequestDone` | kernel/virtio_disk.c:215-292 | whatever driver, device and other requests do in the meantime, in any order, when the interrupt of a request has been handled its status is 0, a read has left the block of the disk in the buffer, and a write the buffer on the disk |
| `VirtioDisk.Disk.Start` | kernel/virtio_disk.c:215-277 | a request for the block and the buffer is submitted exactly when three descriptors are free, that is, with at most one request in flight |
| `VirtioDisk.Disk.DeviceFetch` | kernel/virtio_disk.c:262-272 | the device finds in the avail ring the heads in the order of submission |
| `VirtioDisk.Disk.DeviceComplete` | kernel/virtio_disk.c:229-257 | from the descriptors alone, the device does what the request asks for |
| `VirtioDisk.Disk.Interrupt` | kernel/virtio_disk.c:294-327 | every finished request is noted, and the used index catches up |
| `VirtioDisk.HandledBufs` | kernel/virtio_disk.c:308-323 | exactly the buffers of finished requests are released |
| `VirtioDisk.Disk.End` | kernel/virtio_disk.c:281-292 | the three descriptors of the request, and no others, are free again |
| `Pipe.Fifo` | kernel/pipe.c:76-130 | over any interleaving of writers and readers the bytes consumed are a prefix of the bytes written |
| `Pipe.GuardsRight` | kernel/pipe.c:76-130 | the 32-bit counters tell full and empty right, also after they wrapped |
| `Pipe.PipeBuf.Write` | kernel/pipe.c:76-103 | the written bytes are appended to the stream up to the first byte at which it stops; it fails exactly when the reader is closed or a kill is noticed there, sleeps exactly when the pipe is full otherwise, and returns early only for an address that cannot be read |
| `Pipe.PipeBuf.Read` | kernel/pipe.c:106-130 | the returned bytes are the next of the stream; a byte whose copy fails is consumed all the same |
| `ShellGrammar.AcceptsIff` | user/sh.c:345-447 | the parser accepts exactly the token sequences of the grammar whose argument vectors fit, as the line that they are |
| `ShellGrammar.Unambiguous` | user/sh.c:345-447 | a token sequence is at most one line of the grammar |
| `ShellGrammar.LineOccurs` | user/sh.c:345-447 | each word token is in the tree of its line as often as in the line |
| `ShellLexer.WordsLexed` | user/sh.c:266-309 | the word tokens are exactly the longest runs of characters that are neither white space nor symbols, each once |
| `ShellLexer.LexIff` | user/sh.c:266-309 | a line is white space and tokens in exactly one way, with longest words and double angle brackets taken together, and that is how the shell reads it |
| `ShellTree.LineTells` | user/sh.c:345-447 | the tree of a line tells how its tokens are to be read: argument vectors are in the order of the line, the symbol of a redirection stands in front of its file and outer redirections come later, between the left and the right side of a pipe there is a bar and of a list a semicolon, and what runs in the background is the whole pipeline in front of an ampersand |
| `ShellTree.LineCount` | user/sh.c:345-360 | there is a command in the background for each ampersand |
| `ShellTree.TreeRoundTrip` | user/sh.c:345-447 | every tree whose argument vectors fit is what the parser makes of the line written for it, with parentheses where they are needed |
| `ShellTree.AcceptedTells` | user/sh.c:328-447 | all this of every accepted line, in its characters: at each pipe and each list every word on the left ends before every word on the right begins, and so do earlier arguments before later ones |
| `Shell.GetToken` | user/sh.c:266-309 | the next token and the cursor behind it; the cursor advances on every token and stays within the line |
| `Shell.Peek` | user/sh.c:311-321 | whether the next token begins with one of the symbols; no token is passed |
| `Shell.ParseOne` | user/sh.c:345-360 | parseline agrees with the parser on tokens, in its tree, its panics and where it stops; what the tree says is `ShellTree.LineTells` |
| `Shell.ParseBars` | user/sh.c:362-373 | parsepipe agrees with the parser on tokens, in its tree, its panics and where it stops |
| `Shell.Redirections` | user/sh.c:375-398 | parseredirs agrees with the parser on tokens |
| `Shell.ParseBlock` | user/sh.c:400-414 | parseblock agrees with the parser on tokens |
| `Shell.ParseExec` | user/sh.c:416-447 | parseexec agrees with the parser on tokens; an argument vector has room for its null pointer |
| `Shell.ParseCmd` | user/sh.c:328-343 | a tree for exactly the lines of the grammar, and a panic for all others |
| `Shell.NulTerminate` | user/sh.c:450-494 | a NUL behind every word of the tree, and no other character changes |
| `Shell.WordsOnce` | user/sh.c:345-447 | in the tree of an accepted line every word of the line occurs exactly once, and nothing else |
| `Shell.WordIsString` | user/sh.c:450-494 | after nulterminate every word is a string of its own: no NUL was written into another word |
| `Shell.ParseBuffer` | user/sh.c:328-343 | on the buffer: a tree in which every word of the line is once, in the order of the line, with its symbols as `ShellTree.AcceptedTells` has it, and afterwards every word is a string of its own; or a panic, without a change |

## Left out

- LogRuns.EveryDiskIsAtomic: writes reach the disk in order and one block at a time; an end_op is by a process that
  has released its buffers, and only operations modify buffers. That a waiting process is woken is `SleepLock`.
- LogRuns.NothingLost: asks clients for log_write before brelse of what they modified; `LogRuns.LatestChanges` does not.
- Log.Log.EndOp: runs commit on its own, with its buffers free, one to spare and all modifications logged;
  `LogSystem` has its steps among those of others, without these conditions.
- Log.Log.Bread: asks that the buffer is not locked and that there is one; in `LogSystem` the caller waits, and
  `LogRuns.CanGetIff` says when there is none.
- BufferCache.Bcache.Bget: one device; waiting for a locked buffer is the precondition of `Acquire`.
- InodeStore.DinodeRoundTrip: models size and addresses; type, major, minor and nlink are not modelled.
- FileSystem.Volume.Iupdate: the same.
- FileSystem.Volume.Writei: does not write through `Log`; it records the blocks it stores to and logs, as an operation
  whose blocks no other operation has logged before. A buffer recycled in the middle of a call is recycled after it
  here. Device and inode types, link counts, inode reference counts and locks (iget, ilock, iput, ialloc) are not
  modelled.
- FileCrash.CrashInTransaction: one operation per commit; what a commit of several does to the disk is `LogRuns`.
- FileSystem.Volume.FileWrite: inodes only; pipes and devices are dispatched elsewhere in the source.
- FileSystem.Volume.constructor: does not model the root directory that mkfs adds to the empty file system.
- DirOps.DirLookup: does not model the check of the inode type nor the reference that iget takes; the inode number
  is the result.
- DirOps.Unlink: models the directory entry only; the refusal of . and .., the test that a directory is empty and the
  link counts are not modelled.
- Vm.Memory.MapPages: models ranges that no tree owns; single pages that a tree comes to own are mapped by `MapOne`,
  since mappages is called with one page there.
- Vm.Memory.UvmUnmap: with do_free, asks that the pages in the range are owned by the tree, as its callers ensure.
- Vm.Memory.UvmDealloc: asks for a process size of at most MAXVA, which uvmalloc has ensured, and for owned pages.
- Fork.UvmCopy: asks for the same of the parent.
- FreeWalk.UvmFree: asks for the same of the process.
- UserCopy.WalkAddr: takes page addresses, which all its callers round down to.
- FreeWalk.FreeWalk: clears an entry before it frees the page below it; the source does so after. The pages are
  unreachable for others in both orders.
- UserCopy.CopyOut: does not model the user's address arithmetic modulo 2^64; a range that would wrap meets a page
  above MAXVA first.
- uvmfirst, uvmclear, kvmmap and the kernel's own page table, exec and the trampoline are not modelled.
- Malloc.Allocator.Malloc: does not model sizes whose number of bytes overflows an int, nor what callers store in
  their blocks; other users of sbrk may move the break between calls.
- Scheduler.Machine.TimerTrap: a trap gives up the processor at most once, while the loop of the source may do so once
  per better level that is not empty; in `Mlfq.EveryRun` the further times are yields, which a run may have anywhere.
- The RR, FCFS, PBS and lottery schedulers, wait, fork and exit beyond their effect on process states are not modelled.
- SleepWakeup.NoLostWakeup: spinlocks are atomic; interrupts are not modelled.
- VirtioDisk.Disk.Start: takes a block that the disk has; a device that reports an error, memory barriers and the bytes
  of a sector, which are one number here, are not modelled; the sleep for free descriptors is a failed attempt.
- Mmu.TranslateIs: addresses in the upper half and the accessed and dirty bits are not modelled.
- Pipe.PipeBuf.Write: one stretch between sleeps is one call; closing and freeing a pipe are not modelled.
- Shell.ParseExec: the argument vector is put into the tree when it is complete, while the source extends a node that
  redirections already point to. The kind of a redirection stands for its mode and file descriptor. Memory for nodes,
  running a command and reading a line are not modelled.
- Interrupts, traps, context switches, the console, networking and user programs other than the shell's parser and the
  allocator are not modelled.
