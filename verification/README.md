# xv6 for RISC-V, modelled and proved

A Dafny model of the parts of this xv6 kernel and its user programs that are hardest to get
right, with proofs of what they promise for every input, every interleaving or every run:

| part | files | what is proved |
|---|---|---|
| redo log | `RedoLog` | a crash anywhere in commit, then any crashes inside recovery, leaves all of a transaction or none of it |
| log and buffer cache together | `LogCache`, `LogCacheSafety`, `LogRuns` | every interleaving of operations, commits and crashes is a run of a plain array of blocks |
| log space | `LogSpace`, `FileWrite` | what operations may log, and exactly when the guard in `log_write` panics on operations that keep their promise |
| files across a crash | `DiskImage`, `CrashedFiles` | a crash in any run leaves the disk holding the file system of the last commit, consistent and with its contents |
| blocks and file contents | `FsBlocks`, `FsState`, `FileBlocks`, `Truncate`, `FileOps`, `FileWrite` | block ownership, and reads and writes that are reads and writes of a byte sequence |
| directories | `Links`, `LinkOps`, `LinkCalls`, `LinkTable`, `RemovedDirectories` | link counts over every sequence of link, unlink and create, and exactly when a call breaks them |
| virtual memory | `Sv39`, `PageTables`, `PageWords`, `PageOps`, `AddressSpaces` | the three-level tree of stored words is a flat map; every page has exactly one owner, out of memory or not |
| processes | `SleepWakeup`, `Processes`, `ProcessSteps`, `ProcessRuns`, `Scheduler` | no lost wakeup, exit and wait, dispatch, times, choice of the next process |
| user allocator | `FreeList`, `Umalloc` | the Kernighan and Ritchie ring stays ordered and merged, units are conserved |
| disk driver | `VirtioRing`, `VirtioDisk` | descriptor chains and the two rings under any completion order |
| buffer list | `BufList` | one doubly linked ring in recency order, least recently used recycling |
| shell | `Shell`, `ShellWords`, `ShellRoundTrip`, `ShellParser` | termination, round trip, string termination |
| dates | `Calendar` | the conversion against a calendar counted out day by day |

Objects that the source updates in place are classes here (`RedoLog.Log`, `FileOps.FileSystem`,
`FileWrite.File`, `LinkTable.Inodes`, `PageOps.Memory`, `AddressSpaces.Spaces`, `Umalloc.Heap`,
`VirtioDisk.Disk`, `BufList.Bcache`, `ShellParser.Parser`). Each method is tied to a function on
values, and the properties are proved of that function. Protocols between processes, CPUs and
crashes are state machines whose steps are the source's lock and disk operations.

## How the model reads the source

- A write of one disk block is atomic. Taking and releasing a spinlock are atomic; a stretch of
  code under one lock that takes no other lock is one step.
- Sizes such as NBUF, LOGSIZE, NPROC, the number of inodes, of descriptors and of pages are
  parameters. The shipped values appear only where a statement is about them.
- Integers are unbounded except where the source's width matters: the sums checked by `readi` and
  `writei`, the 16-bit ring indices, the 32-bit times and the 32-bit year are modelled with their
  wrap-around.
- What comes from outside is a parameter: whether a copy to or from user memory succeeds (each
  copied piece is all or nothing), whether a directory can grow, what `sbrk` answers, who else
  holds an inode, which process the scheduler picked, when the clock ticks.
- A panic is a result of its own (`ok == false`, `Panic`, `Fail`, `None`) where the caller can
  meet it, and a requirement where the proof is that it cannot be met.
- Directory operations are taken one call at a time; `sys_link` releases the inode between its
  two halves, and a call that runs in between is not modelled.
- The kernel keeps copies of an inode in memory and on disk; `inodes` and `dinodes` are those two.

Where the code does less than a reader of it might expect, the code is kept and the exact
condition is proved:

- `log_write` tests its guard before looking whether the block is already logged, so an operation
  that logs a block a second time panics on a full header although it needs no room. Operations
  that keep their promise never meet the panic exactly when none may log anything, none is ever let
  in, or the guard is above the largest header reached with an operation open (`GuardExact`). The
  guard of the source is never above `LOGSIZE`, so with room for two operations some run panics
  however long the log is (`RoomForTwoPanics`), and the shipped sizes are a case of that
  (`ShippedSizesPanic`).
- `create` and `sys_link` do not look whether the parent directory is still linked. The counts stay
  exact precisely when the call adds no entry or the parent is linked (`LinkKeepsExactly`,
  `CreateKeepsExactly`). In a directory removed while a process works in it, `create` makes a file
  whose link count nothing accounts for (`CreateInRemovedDirectory`). `create` can also meet the
  panic of `ilock`, exactly for `..` of a removed directory whose parent inode is free again
  (`CreateMeetsFreeParent`). Both come at the end of a run from a fresh file system.
- The comment over "round robin" notwithstanding, the search starts at slot 0 every time. In
  priority mode nobody is chosen exactly when no runnable process has a priority of at least 0;
  `allocproc` gives 5 or 10 and nothing changes that, so somebody is chosen whenever one is runnable.
- `seconds_to_rtcdate` stores the year in an `int`, here with wrap-around. Converting back gives the original seconds
  exactly below `TOO_LATE`, the first second of the year 2147483648 (`ConversionExact`,
  `TooLateFails`). Its one caller never gets there, whatever the timer shows (`DatetimeExact`).
- `morecore` hands `sbrk` an `int`. Above `MAX_REQUEST` bytes less is asked for than is recorded
  (`AskedExactly`, `HugeRequest`); `malloc` is proved for the requests up to it.

## Model

| member | source | states |
|---|---|---|
| DiskBlocks.HeadRoundTrip | kernel/log.c:87-114 | a log header written by write_head reads back through read_head as the same list of block numbers |
| DiskBlocks.RecoveryIdempotent | kernel/log.c:68-123 | recovery stopped after any of its writes and started again ends in the state one undisturbed recovery gives |
| DiskBlocks.RepeatedCrashes | kernel/log.c:68-123 | so does recovery interrupted any number of times |
| RedoLog.CrashAtomicity | kernel/log.c:68-203 | after a crash between any two writes of commit and any number of crashes inside recovery, a finished recovery leaves the home blocks all old if the first header write had not happened, all new if it had, and the log empty |
| RedoLog.CommitTraceAt | kernel/log.c:178-203 | the disk states commit passes through are, write by write, those the crash theorem speaks of |
| RedoLog.Log.LogWrite | kernel/log.c:214-235 | a block is added to the header once, the buffer keeps the new data; refused exactly when the header is at its limit, even for a block already there, or outside a transaction |
| RedoLog.Log.WriteLog | kernel/log.c:178-191 | the log area receives the cached values of the logged blocks, one write each, home blocks untouched |
| RedoLog.Log.WriteHead | kernel/log.c:103-114 | one write that makes the header list exactly the logged blocks |
| RedoLog.Log.InstallTrans | kernel/log.c:69-83 | each logged block goes from the log to its home, in order, one write each |
| RedoLog.Log.RecoverFromLog | kernel/log.c:117-123 | the disk becomes the recovered disk, by the traced writes |
| RedoLog.Log.Commit | kernel/log.c:194-203 | the traced writes of a whole commit; nothing at all when nothing was logged; every logged buffer unpinned |
| LogCacheSafety.NextInv | kernel/log.c:126-235 | every step of every process, of commit and of a crash keeps the invariant of log and cache |
| LogCacheSafety.CrashGivesCommitted | kernel/log.c:117-123 | whatever the state, recovering its disk gives the last committed array |
| LogCacheSafety.KeepLogWrite | kernel/log.c:215-235 | log_write pins the buffer it logs and keeps the space reserved for the other operations |
| LogCacheSafety.KeepGetMiss | kernel/bio.c:73-87 | recycling a buffer keeps cache and log in agreement |
| LogCacheSafety.KeepInstall | kernel/log.c:69-83 | installing one block while other processes use the cache keeps the invariant |
| LogRuns.StepRefines | kernel/log.c:126-235 | each step is a step of a plain array of blocks, and bread returns the array's value |
| LogRuns.RunRefines | kernel/log.c:126-235 | every run, crashes included, is a run of the plain array |
| LogRuns.CrashYieldsLastSync | kernel/log.c:145-203 | after a crash the array is the one at the last commit, when no operation was open: the operations of a group survive together or not at all |
| LogRuns.RecycledHasCopyOnDisk | kernel/bio.c:73-87 | a buffer bget may recycle holds nothing that is not on its home block |
| LogRuns.ReferencesCounted | kernel/bio.c:58-151 | in every reachable state a buffer's count is its users plus its pin, and no two buffers hold one block |
| LogSpace.RunReserved | kernel/log.c:126-235 | in every reachable state the logged blocks and all unused reservations fit the log |
| LogSpace.GuardExact | kernel/log.c:214-235 | over every run of operations that keep their promise, logging new blocks, absorbed ones or the same again, no call of log_write panics if and only if no block may be logged, no operation is ever let in, or the guard is above Most, the largest header while an operation is open |
| LogSpace.SourceGuard | kernel/log.c:220-221 | with the guard as written, the smaller of LOGSIZE and the log's entries, that is: the header holds more than one operation and less than two, and the log is long enough for one |
| LogSpace.RoomForTwoPanics | kernel/log.c:126-142 | with room for two operations some run panics, however long the log is |
| LogSpace.ShippedSizesPanic | mkfs/mkfs.c:25 | LOGSIZE 30, MAXOPBLOCKS 10 and mkfs's log put the guard at 29, and some run meets it |
| FileWrite.ChunkFitsBudget | kernel/file.c:149-162 | a chunk of filewrite logs at most MAXOPBLOCKS blocks wherever it starts |
| FileWrite.File.Transaction | kernel/file.c:158-167 | one chunk: at most MAXOPBLOCKS blocks logged, every block it changes among them, and a consistent file system afterwards |
| FileWrite.File.Filewrite | kernel/file.c:135-181 | each transaction logs at most MAXOPBLOCKS distinct blocks; the file's bytes are overwritten by exactly what the offset moved over; other files untouched |
| FsBlocks.WordPut | kernel/fs.c:398-418 | an indirect entry written reads back, the others keep their value |
| FsBlocks.BitSet | kernel/fs.c:65-105 | setting a bitmap bit sets that bit and no other |
| FsBlocks.BitCleared | kernel/fs.c:91-105 | clearing one clears that one and no other |
| FsState.OwnershipMeans | kernel/fs.c:65-105 | the set bits are exactly the metadata blocks and the blocks reached from inodes, each reached once |
| FsState.BmapInjective | kernel/fs.c:382-421 | two file blocks with the same disk block are the same block of the same file |
| FileOps.FileSystem.Balloc | kernel/fs.c:65-88 | the lowest free block, zeroed and marked; 0 exactly when none is free |
| FileOps.FileSystem.Bfree | kernel/fs.c:92-105 | clears exactly that bit; the panic exactly when it was clear |
| FileOps.FileSystem.Bmap | kernel/fs.c:383-421 | the block number of a file block, allocated if absent, ownership kept even when the disk runs out between the indirect block and the data block |
| FileOps.FileSystem.Readi | kernel/fs.c:472-496 | the matching slice of the file's bytes and nothing past its size, 0 past the end or on overflow; -1 on a failed copy, with the blocks copied before it; nothing allocated |
| FileOps.FileSystem.Writei | kernel/fs.c:506-539 | -1 exactly when refused; otherwise the first tot bytes replace those at off, the size becomes the larger of the two ends, other files keep their bytes, short only when the disk is full or a copy failed; at most WriteBudget blocks are logged, every block that changes on the disk among them |
| FileOps.FileSystem.Itrunc | kernel/fs.c:426-453 | never frees a free block, frees exactly the blocks of this file, leaves it empty and the others as they were; every block that changes on the disk is logged |
| FileBlocks.WroteContents | kernel/fs.c:506-539 | what writei's loop leaves in the blocks is the overwritten byte sequence |
| FsState.TracedIsCall | kernel/fs.c:226-243 | when only one inode changed in memory and iupdate wrote it back, every disk block that differs was logged |
| DiskImage.BytesRoundTrip | kernel/fs.h:47-51 | a block of bytes survives being stored as the words the log moves |
| DiskImage.InodeRoundTrip | kernel/fs.c:226-312 | what iupdate stores ilock reads back, and the other inodes of the block stay |
| DiskImage.OneReading | kernel/fs.h:32-51 | the blocks of a disk determine the bitmap, the inodes and the data: it holds one file system at most |
| DiskImage.UntouchedShows | kernel/fs.c:226-243 | a disk block a call does not log holds after the call what it should |
| CrashedFiles.CallsCompose | kernel/log.c:126-175 | calls that follow each other are to the log one call that logs the blocks of both |
| CrashedFiles.StepKeepsView | kernel/log.c:126-235 | every step of log, cache, commit and crash keeps array and committed array in agreement with the file system |
| CrashedFiles.CrashKeepsFiles | kernel/log.c:117-203 | after a crash anywhere in a run that carries file system calls, side by side or not, recovery leaves a disk that holds exactly the consistent file system the calls finished before the last commit had made |
| Links.InitInv | mkfs/mkfs.c:117-128 | the empty file system mkfs makes has exact link counts |
| Links.NamedIsAllocated | kernel/fs.c:336-362 | whatever a linked directory names is allocated and, past the entry for itself, has a link |
| LinkOps.PutKeeps | kernel/fs.c:337-362 | iput frees only inodes that nothing names and keeps every count exact |
| LinkOps.EmptyDirHasOneLink | kernel/sysfile.c:215-232 | an empty directory is named by its parent's one entry only, so its link count is 1 |
| LinkOps.ParentKeepsALink | kernel/sysfile.c:222-226 | losing a subdirectory's entry never takes a directory's last link |
| LinkCalls.LinkKeepsExactly | kernel/sysfile.c:122-179 | sys_link keeps all link counts exact if and only if it adds no entry or adds it to a linked directory, and exact counts bring the tree shape with them |
| LinkCalls.FailedLinkUndoes | kernel/sysfile.c:163-169 | a failed sys_link takes its increment back |
| LinkCalls.UnlinkKeeps | kernel/sysfile.c:189-243 | sys_unlink keeps all counts exact in any directory and never meets its panic; a failed one changes nothing |
| LinkCalls.RelinkedMiscounts | kernel/sysfile.c:245-302 | mkdir in an unlinked directory brings its .. back to life, and the inode that names then has more names than links |
| LinkCalls.CreateKeepsExactly | kernel/sysfile.c:245-302 | create keeps all link counts exact if and only if it adds no entry or adds it to a linked directory; it panics if and only if it meets the stale .. of a removed directory |
| RemovedDirectories.CreateInRemovedDirectory | kernel/sysfile.c:245-302 | a run from a fresh file system (mkdir a, unlink a while it is held) after which create makes a file with a link count of 1 and no name |
| RemovedDirectories.CreateMeetsFreeParent | kernel/fs.c:292-318 | a run (mkdir a, mkdir a/b, unlink both while b is held) after which create of .. panics in ilock |
| LinkCalls.RunConserves | kernel/sysfile.c:123-302 | over every sequence of calls with linked parents each link count is the number of entries naming the inode, and every name leads to an allocated inode |
| LinkTable.Inodes.Dirlookup | kernel/fs.c:552-575 | the first used entry with that name |
| LinkTable.Inodes.Dirlink | kernel/fs.c:580-606 | fails exactly when the name is there or the directory cannot grow; otherwise fills the first empty entry |
| LinkTable.Inodes.IsDirEmpty | kernel/sysfile.c:174-186 | whether nothing but the first two entries is in use |
| LinkTable.Inodes.Ialloc | kernel/fs.c:199-219 | claims the first free inode, or none |
| LinkTable.Inodes.SysLink | kernel/sysfile.c:124-170 | ends in the table the call's function gives, with its exact condition for the counts |
| LinkTable.Inodes.SysUnlink | kernel/sysfile.c:189-243 | ends in the table the call's function gives; counts exact |
| LinkTable.Inodes.Create | kernel/sysfile.c:245-302 | create in place, with its undo path, ends as the function on tables says, the panic included |
| Sv39.AddressRoundTrip | kernel/riscv.h:366-371 | PTE2PA and PTE_FLAGS undo PA2PTE with flags or-ed in |
| Sv39.EntryRoundTrip | kernel/riscv.h:359-371 | an empty, table or leaf entry is read back as what was written |
| Sv39.PxDetermines | kernel/riscv.h:373-382 | below MAXVA the three indices determine the page |
| PageWords.MirrorsPut | kernel/vm.c:92-101 | storing PA2PTE of a page with its flags into a table stores that entry and no other |
| PageWords.ReadWord | kernel/riscv.h:366-382 | the bit tests on a stored word tell empty, table and leaf apart, and PTE2PA and PTE_FLAGS give back page and flags |
| PageWords.TranslationIsFlat | kernel/vm.c:75-104 | for every address below MAXVA, translation through the three levels of stored words gives what the flat map says about its page |
| PageWords.WalkInjective | kernel/vm.c:87-104 | no two pages below MAXVA, in one tree or two, end at the same stored entry |
| PageTables.OnlyThatEntry | kernel/vm.c:87-104 | writing one entry changes how that entry reads and no other, in any tree |
| PageTables.WrittenSound | kernel/vm.c:145-200 | filling an empty entry or emptying one keeps every page with one owner |
| PageOps.OnlyTablesTaken | kernel/vm.c:234-257 | when an operation fails without changing a mapping, the pages it keeps are page-table pages in that tree |
| PageOps.AllReturned | kernel/vm.c:280-305 | every page of a freed tree is on the free list |
| PageOps.OnePageEach | kernel/vm.c:234-258 | k mapped user pages are k different pages of memory, so no address space outgrows it |
| PageOps.Memory.constructor | kernel/kalloc.c:27-40 | every page between the bounds is on the free list once |
| PageOps.Memory.Kalloc | kernel/kalloc.c:69-82 | the head of the free list, or none when it is empty |
| PageOps.Memory.Walk | kernel/vm.c:87-104 | with alloc no mapping of any tree changes, only tables are added, failing only when pages run out; without alloc nothing changes |
| PageOps.Memory.Mappages | kernel/vm.c:145-173 | exactly the requested range is mapped, in the stored words, or a prefix of it when tables cannot be had, and nothing else changes |
| PageOps.Memory.Uvmunmap | kernel/vm.c:179-200 | removes exactly its range, user pages or the two special ones; with do_free pushes each user page once, without it the pages stay with the caller |
| PageOps.Memory.Uvmalloc | kernel/vm.c:234-258 | the new pages, or no mapping changed and every user page it took returned, for any new size: memory runs out before the trapframe is reached |
| PageOps.Memory.Uvmdealloc | kernel/vm.c:264-275 | exactly the pages between the sizes are unmapped and freed |
| PageOps.Memory.Freewalk | kernel/vm.c:280-295 | the tables of an empty tree go back to the free list, nothing else changes |
| PageOps.Memory.Uvmfree | kernel/vm.c:300-305 | every page of the tree is free afterwards and no other tree has changed |
| PageOps.Memory.Uvmcopy | kernel/vm.c:314-341 | a fresh page with the same flags for each page, or no mapping changed and every user page returned |
| PageOps.Memory.ProcPagetable | kernel/proc.c:255-284 | a tree with the two special pages, or exactly the same pages free as before |
| PageOps.Memory.ProcFreepagetable | kernel/proc.c:289-294 | everything the tree owned is free, the two special pages are not |
| AddressSpaces.ExactlyOnePlace | kernel/kalloc.c:46-82 | a page is in exactly one of: one position of the free list, a holder, a root, one entry of one tree |
| AddressSpaces.NoSharing | kernel/vm.c:314-341 | no user page is mapped twice below TRAPFRAME |
| AddressSpaces.Spaces.Create | kernel/proc.c:255-284 | creating an address space keeps every page owned and every other space intact |
| AddressSpaces.Spaces.Grow | kernel/proc.c:337-353 | growing by any amount keeps every page with one owner |
| AddressSpaces.Spaces.Shrink | kernel/proc.c:338-353 | shrinking does |
| AddressSpaces.Spaces.Copy | kernel/vm.c:314-341 | fork's copy does, and a failure leaves every mapping as it was |
| AddressSpaces.Spaces.Free | kernel/proc.c:289-294 | freeing does, and returns everything |
| SleepWakeup.NoLostWakeup | kernel/proc.c:783-827 | whenever a condition holds and its lock is free, nobody sleeps on its channel or is about to |
| SleepWakeup.StepKeepsInv | kernel/proc.c:783-827 | each lock operation of sleep, wakeup and kill keeps a waker under way for every sleeper whose condition holds |
| SleepLocks.SleepLockSafe | kernel/sleeplock.c:22-41 | a sleep lock has at most one holder, and a free one has no sleeper |
| ProcessRuns.StepKeepsInv | kernel/proc.c:358-827 | each step of fork, wait, exit, sleep, the schedulers and the clock keeps the invariant of the process table |
| ProcessRuns.ParentsAreAlive | kernel/proc.c:409-470 | in every reachable state no parent pointer refers to an unused or exited slot |
| ProcessRuns.NoSleeperHasZombie | kernel/proc.c:409-583 | whenever wait_lock is free nobody sleeps in wait with a zombie child |
| ProcessRuns.OnlyTheParentReaps | kernel/proc.c:476-583 | a zombie leaves the table only when its current parent reaps it under wait_lock |
| ProcessRuns.ReapedOnce | kernel/proc.c:425-583 | each exit is reaped once, the last one perhaps not yet |
| ProcessRuns.FreedOffCpu | kernel/proc.c:227-250 | a slot is freed only when it is no CPU's c->proc |
| ProcessRuns.DispatchSafe | kernel/proc.c:680-754 | a process whose lock is free is RUNNING exactly when it is some CPU's c->proc, and never two CPUs' |
| ProcessRuns.ExitTimes | kernel/proc.c:456-458 | run_time never exceeds the time since creation, and exit's wrapped subtractions give the true times |
| Scheduler.ChooseRoundRobin | kernel/proc.c:616-621 | the lowest runnable slot, or nobody exactly when none is runnable |
| Scheduler.ChooseFcfs | kernel/proc.c:623-643 | the oldest runnable process, the lowest slot among equals |
| Scheduler.ChoosePriority | kernel/proc.c:644-673 | the greatest priority, the lowest slot among equals; somebody exactly when some runnable process has a priority of at least 0, which with allocproc's priorities is whenever one is runnable |
| FreeList.InsertedTidy | user/umalloc.c:25-44 | merging a freed block in keeps the ring ordered with no two blocks overlapping or touching |
| FreeList.InsertedCovers | user/umalloc.c:25-44 | exactly the freed units become free |
| FreeList.InsertedTotal | user/umalloc.c:25-44 | and their number is added |
| FreeList.CarvedCovers | user/umalloc.c:75-83 | exactly the units handed out stop being free |
| FreeList.CarvedTidy | user/umalloc.c:75-83 | cutting a piece off keeps the ring ordered and merged |
| Umalloc.StopsIffHere | user/umalloc.c:30-32 | free's loop ends at the one gap the block belongs into |
| Umalloc.Heap.Free | user/umalloc.c:25-44 | the block's units join the free ones, other live blocks and the total stay |
| Umalloc.Heap.Morecore | user/umalloc.c:47-61 | the units sbrk gave are free and a large enough block is on the ring |
| Umalloc.AskedExactly | user/umalloc.c:47-61 | morecore asks sbrk for what it records if and only if the request is at most MAX_REQUEST bytes |
| Umalloc.HugeRequest | user/umalloc.c:47-61 | the largest request asks for 16 bytes and records 2^28 + 1 units |
| Umalloc.Heap.Search | user/umalloc.c:74-87 | one trip round the ring finds a large enough block or shows there is none |
| Umalloc.Heap.Malloc | user/umalloc.c:64-90 | for requests up to MAX_REQUEST bytes: asks sbrk at most once and only when nothing is large enough; the block returned was free or is new, apart from all live ones; units are conserved; fails only when sbrk does |
| VirtioRing.PushRing | kernel/virtio_disk.c:272-277 | adding an entry overwrites none still unread, across the wrap of the 16-bit index |
| VirtioRing.PopRing | kernel/virtio_disk.c:312-323 | the oldest entry is read, in order |
| VirtioRing.EmptyRing | kernel/virtio_disk.c:312 | equal indices mean an empty ring |
| VirtioRing.ChainsDisjoint | kernel/virtio_disk.c:202-213 | live chains share no descriptor, and their descriptors are in use |
| VirtioRing.RingsFit | kernel/virtio_disk.c:216-277 | never more entries wait in a ring than a third of its slots |
| VirtioDisk.SubmittedGood | kernel/virtio_disk.c:216-277 | a submitted request keeps chains, rings and flags in order |
| VirtioDisk.CompletedGood | kernel/virtio_disk.c:295-327 | so does the device completing any request it holds |
| VirtioDisk.Disk.Alloc3Desc | kernel/virtio_disk.c:202-213 | three free descriptors, or nothing changed and fewer than three free |
| VirtioDisk.Disk.Submit | kernel/virtio_disk.c:216-281 | a chain of header, data and status for exactly this request, announced once; nothing changed when descriptors are short |
| VirtioDisk.Disk.Intr | kernel/virtio_disk.c:295-327 | with the device picking up and completing requests before every look at its index: the loop ends, every completion is seen, each request acknowledged once, and exactly the buffers of those requests are released |
| VirtioDisk.Disk.FreeChain | kernel/virtio_disk.c:186-197 | frees exactly the three descriptors of the chain |
| VirtioDisk.Disk.Finish | kernel/virtio_disk.c:284-291 | gives the three descriptors back; free ones plus three per request remain all of them |
| BufList.MutuallyInverse | kernel/bio.c:37-53 | next and prev undo each other all round the ring |
| BufList.Unlinked | kernel/bio.c:128-129 | taking a buffer out leaves one cycle of the others |
| BufList.Inserted | kernel/bio.c:130-133 | putting it in behind head makes one cycle of all again |
| BufList.ToFrontSorted | kernel/bio.c:126-134 | the ring stays sorted by when each buffer was last moved to the front |
| BufList.Bcache.constructor | kernel/bio.c:37-53 | one ring through head and every buffer |
| BufList.Bcache.FindUnused | kernel/bio.c:75-87 | the least recently used buffer nobody holds, or none exactly when all are held |
| BufList.Bcache.Bget | kernel/bio.c:59-89 | the cached buffer, or the least recently used unused one taken over; at most one buffer per block stays true; the panic exactly when neither exists |
| BufList.Bcache.Brelse | kernel/bio.c:117-137 | one reference fewer, and the last holder moves the buffer to the front |
| ShellRoundTrip.RoundTrip | user/sh.c:329-447 | any command tree of legal words, written out with all its parentheses, parses back to itself |
| ShellWords.StringsAreTokens | user/sh.c:451-494 | after nulterminate every argument and file string is exactly its token |
| ShellWords.EndOutside | user/sh.c:451-494 | no terminator lands inside a word |
| Shell.GetToken | user/sh.c:267-309 | the token at a position: a word is a whole word, and anything but the end moves on |
| Shell.ParseLine | user/sh.c:346-360 | parsing ends on every line, moves forward, and yields whole words and fewer than MAXARGS arguments |
| Shell.ParseCmd | user/sh.c:329-343 | what it accepts is a tree of whole words of the line with fewer than MAXARGS arguments each |
| ShellParser.Parser.NextToken | user/sh.c:267-309 | the loops of gettoken find that token |
| ShellParser.Parser.Redirs | user/sh.c:376-398 | the loop of parseredirs |
| ShellParser.Parser.Args | user/sh.c:417-447 | the loop of parseexec |
| ShellParser.Parser.Line | user/sh.c:346-360 | the recursive parser as it moves its position along the line |
| ShellParser.NulTerminate | user/sh.c:451-494 | overwrites the character after each word and no other |
| ShellParser.Parsecmd | user/sh.c:329-343 | the tree, and every word of it a C string in the buffer |
| Calendar.DateIsRight | kernel/sysutil.c:54-70 | the date is a real Gregorian date, and counting the days up to it gives the day number it came from |
| Calendar.EveryDateReached | kernel/sysutil.c:54-70 | every date from 1970 on is the conversion of its own day number |
| Calendar.OrderKept | kernel/sysutil.c:54-70 | later dates have greater day numbers |
| Calendar.YearFits | kernel/sysutil.c:54-70 | the year fits an int exactly for the seconds before TOO_LATE |
| Calendar.ConversionExact | kernel/sysutil.c:42-71 | date and time convert back to the original seconds if and only if these are below TOO_LATE, 67767976233532800 |
| Calendar.TooLateFails | kernel/sysutil.c:61-67 | that second itself comes out in the year -2147483648 |
| Calendar.DatetimeExact | kernel/sysutil.c:83-95 | whatever the 64-bit timer shows, sys_datetime's date and time are right |
| Calendar.ConversionOrdered | kernel/sysutil.c:42-71 | earlier seconds give earlier dates or times |

## Left out

- Path lookup (`namex`, `skipelem`), open file tables, pipes and the console: easier relatives of what is here.
- The contents of user pages (`memset`, `memmove`, `copyin`, `copyout`): the model follows who owns a page, where it is mapped, and what page-table pages hold.
- `exec` and ELF loading, trap handling, assembly, device registers other than the virtio rings, and start-up code.
- Memory ordering: `__sync_synchronize` and the inside of spinlocks are taken to work.
- Fairness and liveness of scheduling: the code does not provide them.
- `sys_random` and the remaining user programs: thin or textbook.
- Shell commands other than parsing (`runcmd`, `cd`): process calls and I/O.
- CrashedFiles.CrashKeepsFiles: calls that run side by side are taken to leave what they would leave one after the other, which inode and buffer locks are there for; the directory calls of `LinkCalls` are not carried through the log.
- FileOps.FileSystem.Writei: a copy that fails within a chunk is taken to have copied nothing of that chunk.
- FileOps.FileSystem.Readi: a copy that fails within a chunk is taken to have copied nothing of that chunk.
- LinkTable.Inodes.Create: assumes that nobody else holds the inode `ialloc` has just claimed.
- PageOps.Memory.constructor: memory has fewer pages than there are page numbers below TRAPFRAME, as the 128 MB between KERNBASE and PHYSTOP do.
- PageOps.Memory.Mappages: the permissions include one of R, W and X, as every caller's do.
- Umalloc.Heap.Malloc: requests above MAX_REQUEST bytes are excluded, for which `AskedExactly` shows that morecore gets less than it records, and so is a program that shrinks its own heap.
- VirtioDisk.Disk.Submit: a buffer is submitted only while no request for it is under way, which its sleep lock ensures.
- Scheduler.ChooseFcfs: the table is taken not to change during the search.
- SleepWakeup.NoLostWakeup: the conditions are those of the protocol (the condition is changed under its lock, and a wakeup follows before the lock is released).
