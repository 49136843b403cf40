# Verified models of an xv6 kernel with MLFQ scheduling and swapping

This project models the parts of a RISC-V teaching kernel (xv6, extended with a multi-level feedback
queue scheduler and a swap area) whose correctness spans many functions, and proves what those parts
are for.  Each module follows the source's own form: objects that are updated in place are classes
whose methods are tied to specification functions, loops are loops, and protocols are state machines
over their single steps.

| part | modules |
|---|---|
| write-ahead log and buffer cache | `Blocks`, `DiskLog`, `LogRuns`, `BufferCache`, `Log`, `LogSystem`, `LogLaws` |
| demand paging and swap | `PageTable`, `Frames`, `Eviction`, `PagingSteps`, `Lifecycle`, `FlatMemory`, `Paging`, `FlatLaws` |
| block allocator and file contents, mkfs, files through the log | `FileBlocks`, `FileSystem`, `FileLaws`, `Mkfs`, `Journal` |
| scheduling and blocking protocols | `Mlfq`, `MlfqLaws`, `SleepLock`, `Virtio`, `VirtioLaws` |
| user-level algorithms | `Heap`, `HeapLaws`, `Regex` |

`Basics` holds what several modules share. The modules named `...Laws` say what the operations mean to their
callers without the specification functions that the methods are proved against.

## Main results

- **Crash safety.** A commit cut off after any single-block write, followed by any number of cut-off
  recoveries and a completed one, leaves the whole old or the whole new data region, decided by the header
  write. Over every interleaving of operations, commits, crashes and recoveries, the recovered disk is
  exactly the groups whose header write completed, and no operation is split between groups. The log code
  over the buffer cache, started on any readable disk, makes only such runs. To its callers every block has
  contents now and contents that a power failure leaves: a change is seen at once, is safe when the last
  operation ends, and is gone after a restart before that.
- **Crash-consistent files.** Writes and truncations whose blocks, the inode's among them, go through that
  log: power lost at any single block write of any run, the boot and the recoveries included, leaves a disk
  that can be mounted again, as the volume before or after the operation under way, with bitmap and files
  in agreement. What has returned is durable, and a `filewrite` cut off leaves whole chunks of its bytes.
  This starts from a disk as mkfs writes it.
- **Swap transparency.** From boot, any run of userinit, user loads, stores and fetches, kernel faults,
  growth, shrinking, fork, exit and rescheduling is a run of a machine in which every process simply has an
  array of pages: no frames, no slots, no page tables. This covers the fork whose own allocation evicts the
  page being copied and the swap-in whose allocation evicts another page. Every answer is the flat
  machine's, and no frame leaks to the kernel. A run ends early in one of two panics. One is for want of
  memory: the free list is empty, and no page can be evicted or no swap slot is free. The other is a user
  access that the flat machine does not allow. That machine in turn answers as a map from addresses to bytes
  does: a byte reads as it was last stored, new memory reads as zero, grown eagerly or lazily, a child starts
  with its parent's bytes, and a load or store is allowed exactly below the size.
- **File refinement.** Any run of writes, reads and truncations is a run on plain byte sequences, holes or
  not. A write splices in as many bytes as it returned, and it and a read fall short only when no block is
  free; the bitmap, the maps and the ownership of every block stay consistent, and each `filewrite` chunk
  fits the log's reservation, if the file has no holes or the bitmap no more than four blocks. A run stops
  early exactly at a read of a hole outside a transaction while a block is free. mkfs builds an image with
  these invariants exactly when the inodes, blocks, file sizes and bitmap block suffice, and the kernel's
  runs start from that image. A read returns the bytes from its offset to its count or the end of the file, a
  write changes exactly the bytes it covers, and both are tied to the bytes, words and bits on the disk.
- **Allocator.** Any sequence of malloc, free, stores into live blocks and growth by the program is a run
  of next fit on plain lists of blocks. It keeps one address-ordered, fully coalesced cycle through `base`,
  live blocks apart, and free plus live equal to what sbrk gave; what a program stores in a block stays
  there until another store reaches those bytes or the block is freed. A block has room for the request and
  less than a header more, and the addresses on the list and in it are exactly those there were before.
- **Protocols.** No wakeup of a sleep lock is lost at the level of single lock and store steps, and whom a
  sleeper waits for can always move; the virtio driver, from its initialisation, serves each request once,
  for its own buffer, across 16-bit wraparound; the scheduler's arrays follow a function of its operations,
  and its queues hold exactly the runnable processes but for sleepers killed since the last boost. What each
  does for its callers is proved too: a process's own steps take a free lock, wait for a taken one and
  release it to all sleepers; a block of the disk holds what was last written to it, and a read gets what was
  there at its transfer. For every process, a tick, a wakeup, a dispatch and a boost are said to change its
  record and the queues in just one way, read off the tables before.

## Where the code does less than its comments promise

- `log_write` tests for a full log before it looks for a block to absorb. An operation that still has a
  reserved block never meets that panic (`LogRuns.ReservedSlotFits`), but three operations that log
  MAXOPBLOCKS blocks each reach a state in which even absorption panics (`LogRuns.AbsorptionCanPanic`).
- NBUF equals LOGBLOCKS, and logged blocks stay pinned. With the cache otherwise quiet, a commit finds a
  buffer for its log blocks exactly when fewer than LOGBLOCKS blocks are logged (`Log.CommitNeedsABuffer`).
  Three operations from boot reach a cache with no buffer left (`Log.LogStarvesCommit`);
  `LogSystem.System.Exec` says exactly which calls panic.
- `fileread` calls `readi` outside a transaction. A read panics in `log_write` exactly when a block of its
  range is missing and a block is free (`FileSystem.Volume.Readi`).
- mkfs rounds the root directory's size up to the next block even if it is whole blocks already. The
  image's root has no hole exactly when the entries do not fill whole blocks (`Mkfs.RootHole`). With 62
  files they do, and the first read past them panics (`Mkfs.FullRootIsFatal`).
- A read inside a transaction, such as a directory lookup, may fill a hole, and nobody writes the inode
  back. Once the transaction is committed, bitmap and files on the disk agree exactly when bmap had no
  address to store into the inode (`Journal.Mount.Lookup`). In that root directory they do not
  (`Journal.LookupLeaks`).
- `usertrap` panics whenever `vmfault` returns 0. Below the size a user access is refused exactly when the
  page's flags forbid it, and in the pages beyond the size always; on the last page past the size it goes
  through exactly while that page is resident and its flags permit it (`FlatMemory.DeniedIs`).
- malloc passes a 64-bit byte count to `sbrk(int)`. The count survives exactly for requests of at most
  0x7fffffe0 bytes (`Heap.AskedIsEnough`), and the allocator's books balance after a request that needed
  new memory exactly then (`Heap.Allocator.Malloc`); one byte more asks sbrk to shrink the process
  (`Heap.LargeRequestShrinks`), and then the header that morecore stores at the old break can itself fault.
- kkill makes a sleeper runnable without queuing it. The queues stay complete exactly when the victim is
  not asleep (`Mlfq.KillStrands`), and over any run such a victim stays unqueued exactly until a boost
  (`Mlfq.KilledWaits`).
- The boost happens only if the scheduler runs at a tick that is a multiple of 128. While one process
  computes alone, it never does, for any number of ticks, exactly when no slice on its way down to level 3
  ends at a boost and those at level 3 do not end at multiples of 16 (`Mlfq.LoneBoost`). So it can happen
  that a killed sleeper starves (`Mlfq.KilledSleeperStarves`).

## How to read the contracts

Ghost state records ownership: a role for every physical frame and an owner for every swap slot
(`Frames.Own`), an owner for every disk block (`FileBlocks.Owner`), the chain each descriptor belongs to
(`Virtio.Track`), the free and live heap blocks (`Heap.Blocks`), and the killed sleepers that are in no
queue (`lost` in `Mlfq.Machine`). `FlatMemory.FrameOwnership`, `FlatMemory.SlotOwnership` and
`FileSystem.BlockOwnership` restate the ownership invariants in terms of the kernel's own tables alone. A
kernel panic that can happen is an outcome of the call, with its condition; a panic that cannot happen is
proved unreachable. In `Log.Logger` and `BufferCache.Cache` the panics for a full log and for want of a
buffer are preconditions, which `LogSystem.System` turns into outcomes. The blocks of `FileBlocks.Fs` are
those that readers see, and its inodes those in memory; `Journal.On` says that a disk holds both. The
moment of a sbrk failure, the device's choice of the request to complete, the interleaving and the crash
points are parameters.

## Model

| member | source | states |
|---|---|---|
| `DiskLog.Redo` | kernel/log.c:66-84 | installing the whole log again over a partly installed one gives the same disk as installing it once |
| `DiskLog.CutRecovery` | kernel/log.c:117-124 | a recovery cut off after any number of writes leaves a disk that recovers to the same data region |
| `DiskLog.RebootRecovers` | kernel/log.c:117-124 | any number of cut-off recoveries and a completed one equal a single recovery, with the log empty |
| `DiskLog.HomeUntouched` | kernel/log.c:194-204 | up to the header write of a commit no home block has changed |
| `DiskLog.HeaderCommits` | kernel/log.c:103-115 | once the header write is done, recovery yields the old data region with the whole group applied |
| `DiskLog.CrashAtomicity` | kernel/log.c:194-204 | a commit cut off anywhere, then any reboots, leaves all of the group or none of it, decided exactly by the header write |
| `DiskLog.EachBlock` | kernel/log.c:194-204 | the same for each block: a block of the group has its new contents exactly if the header write happened, its old ones otherwise, and any other block outside the log is as it was |
| `DiskLog.HeaderBytes` | kernel/log.c:35-38 | the header block holds the count and the block numbers as little-endian words, in that order |
| `LogRuns.RecoversToDurable` | kernel/log.c:117-124 | in every state of a run, recovering the disk gives the initial data with the durable groups applied in order |
| `LogRuns.RunInv` | kernel/log.c:127-236 | data, history and space invariants hold after every interleaving of begin, log_write, end, commit writes, crashes and recovery writes |
| `LogRuns.OperationAtomicity` | kernel/log.c:127-236 | after any run and any crashes the disk is exactly the durable groups, and each operation is wholly in one group or in none |
| `LogRuns.LogReservation` | kernel/log.c:127-176 | header length plus unspent reservations fit the log, the header has no duplicates, and nothing is outstanding while committing |
| `LogRuns.ReservedSlotFits` | kernel/log.c:215-222 | an operation with an unspent block never meets the full-log panic |
| `LogRuns.FillLog` | kernel/log.c:215-236 | a legal run that fills the log to LOGBLOCKS blocks |
| `LogRuns.AbsorptionCanPanic` | kernel/log.c:215-232 | a legal run after which log_write panics for a block already in the header |
| `BufferCache.Unlink` | kernel/bio.c:128-129 | taking a buffer out of the doubly linked ring leaves a ring of the others in the same order |
| `BufferCache.LinkFront` | kernel/bio.c:130-133 | linking a buffer behind the head makes it the first of the ring |
| `BufferCache.Cache.constructor` | kernel/bio.c:36-54 | all buffers linked and idle, and the cache shows the disk |
| `BufferCache.Cache.Scan` | kernel/bio.c:66-75 | the buffer of a block if one is cached, and otherwise proof that none is |
| `BufferCache.Cache.ScanLru` | kernel/bio.c:75-88 | the unreferenced buffer that was released longest ago |
| `BufferCache.Cache.Bget` | kernel/bio.c:58-90 | the one buffer of the block, locked, or one more reference and a wait exactly when another process holds it; a recycled buffer is the least recently released unreferenced one and no pinned block is lost |
| `BufferCache.Cache.Bread` | kernel/bio.c:92-103 | the buffer holds what was last written or logged for the block, unless the call waits for its holder |
| `BufferCache.Cache.Resume` | kernel/bio.c:66-72 | a waiter gets the lock its holder dropped, and sees what was last written or logged |
| `BufferCache.Cache.SetData` | kernel/bio.c:92-103 | the holder's store changes that block of the block store and no other |
| `BufferCache.Cache.Bwrite` | kernel/bio.c:106-112 | one atomic write of the buffer's block, which no reader can notice |
| `BufferCache.Cache.Brelse` | kernel/bio.c:116-137 | the last release makes the buffer the most recently released; the cache still shows the block store exactly when the contents are pinned or on disk |
| `BufferCache.Cache.Bpin` | kernel/bio.c:139-144 | one more reference, and the block is pinned to this buffer, which can no longer be recycled |
| `BufferCache.Cache.Bunpin` | kernel/bio.c:146-151 | the pin is dropped; the cache still shows the block store exactly when somebody holds the buffer or its contents are on disk |
| `Log.Logger.WriteLog` | kernel/log.c:179-191 | the disk writes are copies of the logged blocks' cached contents, in header order |
| `Log.Logger.WriteHead` | kernel/log.c:103-115 | one write of the header block with the logged block numbers |
| `Log.Logger.ReadHead` | kernel/log.c:87-98 | the in-memory header is the one on disk |
| `Log.Logger.InstallTrans` | kernel/log.c:66-84 | each log block is written to its home; pins are dropped unless recovering |
| `Log.Logger.RecoverFromLog` | kernel/log.c:117-124 | the writes are exactly the recovery writes of the disk as found |
| `Log.Logger.Commit` | kernel/log.c:194-204 | the block writes are exactly the commit sequence of the group; no reader outside the log area sees a change |
| `Log.Logger.LogWrite` | kernel/log.c:215-236 | the block is absorbed or appended and pinned; the block store is unchanged |
| `Log.Logger.BeginOp` | kernel/log.c:127-143 | admitted exactly when no commit runs and ten blocks for every operation, the new one included, still fit in thirty |
| `Log.Logger.EndOp` | kernel/log.c:147-176 | the last operation commits the group and the others change nothing on disk |
| `Log.QuietIdle` | kernel/log.c:215-236 | with only logged blocks referenced, the idle buffers are those not pinned |
| `Log.CommitNeedsABuffer` | kernel/log.c:179-191 | in a quiet cache commit can get a buffer exactly when fewer than LOGBLOCKS blocks are logged |
| `Log.QuietByCount` | kernel/bio.c:139-151 | a cache with no more references than pins has only pinned buffers in use |
| `Log.Logger.Modify` | kernel/log.c:206-236 | bread, a change, log_write and brelse change that block for all readers, write nothing to disk and leave the cache quiet |
| `Log.Logger.Read` | kernel/bio.c:92-137 | bread and brelse give the block's last contents and change nothing for anyone |
| `Log.LogStarvesCommit` | kernel/log.c:179-236 | from boot and recovery, three operations of MAXOPBLOCKS blocks each lead to a quiet cache with a full log and no buffer for its commit |
| `LogSystem.RecoverRun` | kernel/log.c:117-124 | the recovery writes, one by one, are legal steps of the run model and end with an empty log and the same durable groups |
| `LogSystem.CommitRun` | kernel/log.c:194-204 | so are the commit writes; they leave the disk commit leaves, and the group is durable unless it is empty |
| `LogSystem.CutSurvives` | kernel/log.c:147-204 | power lost after any k writes of the last end_op's commit and again during recovery: the disk is whole groups, and no operation is split |
| `LogSystem.System.constructor` | kernel/log.c:53-64 | boot from any readable disk gives a running system in a legal run |
| `LogSystem.System.BeginOp` | kernel/log.c:127-143 | a begin step exactly when ten blocks for every operation, the new one included, still fit in thirty |
| `LogSystem.System.Put` | kernel/log.c:215-236 | a log_write step; panics exactly when the log is full, and never for an operation with an unspent block |
| `LogSystem.System.Get` | kernel/bio.c:92-103 | the last contents logged for the block, or else the disk's; panics exactly when the log is full and the block is not in it |
| `LogSystem.System.EndOp` | kernel/log.c:147-176 | the operation leaves, and the last one returns with its group durable and the log empty; panics exactly when it is the last and the log is full |
| `LogSystem.System.Restart` | kernel/log.c:53-64 | power lost between calls is a crash step, and booting makes all the recovery steps |
| `LogSystem.System.Exec` | kernel/log.c:53-236 | one call makes the legal steps of the run model that belong to it, a commit or recovery to its end, or panics, exactly when the call applies and the full log makes it |
| `LogSystem.System.Run` | kernel/log.c:53-236 | any sequence of calls and restarts is one legal run of the run model, whose disk is the disk |
| `LogLaws.SeenNow` | kernel/log.c:216-238 | what a reader sees of a block is the durable groups with the group in the log applied over them |
| `LogLaws.CallIs` | kernel/log.c:127-238 | every call of a run, for every block outside the log: a log_write changes what is seen of its own block, a read gets what is seen, the end of the last operation makes what is seen safe, and a restart goes back to what is safe |
| `LogLaws.FailsIs` | kernel/log.c:219-223 | a call panics exactly when thirty blocks are logged and it is a log_write, a read of a block that is not logged, or the end of the last operation |
| `PageTable.WalkDown` | kernel/vm.c:212-230 | each level of a walk is a table of that process at that place, and the walk reads the flat page map |
| `PageTable.LookupIsSv39` | kernel/riscv.h:373-375 | the flat page map is what the hardware finds by bits 38 to 30, 29 to 21 and 20 to 12 of the address |
| `PageTable.StoreLeaf` | kernel/vm.c:278-284 | a store into a leaf entry changes one page of one process in the flat maps and keeps all trees |
| `PageTable.HangTable` | kernel/vm.c:222-227 | hanging a zeroed table below a missing entry changes no page of any process |
| `PageTable.OutsideTrees` | kernel/vm.c:212-230 | a store into a frame that is no table changes no page map |
| `PageTable.Uproot` | kernel/vm.c:395-421 | with a process's root and tables out of service, the trees of all other processes are still well formed in the same memory |
| `PageTable.PlantRoot` | kernel/vm.c:293-301 | a new root page gives an empty page map and leaves the others |
| `Eviction.Sweep` | kernel/vm.c:75-99 | one revolution takes away the second chances of all eligible frames and returns the best frame without one |
| `Eviction.FindVictim` | kernel/vm.c:73-104 | a victim within two sweeps exactly when a frame is eligible: second chances respected, lowest priority first, ties in clock order, hand back where it was |
| `Eviction.VictimIs` | kernel/vm.c:78-97 | the victim is a frame of a process that no other CPU runs, without a second chance unless every such frame has one, of the greatest queue level among those, and of several the first the hand comes to |
| `Eviction.ExhaustedIs` | kernel/vm.c:100-101 | memory is exhausted exactly when no frame is free, and none may be taken or every swap slot is used |
| `Frames.EvictMove` | kernel/vm.c:105-131 | moving a page to a slot keeps ownership of all frames and slots, and every page's contents and flags |
| `Frames.MapMove` | kernel/vm.c:278-284 | giving a kernel frame to an empty page keeps ownership |
| `Frames.SwapInMove` | kernel/vm.c:642-679 | bringing a page back from its slot keeps ownership, contents and flags |
| `Frames.UnmapFrameMove` | kernel/vm.c:327-331 | unmapping a resident page puts its frame on the free list, keeps ownership and changes no other page |
| `Frames.UnmapSlotMove` | kernel/vm.c:319-326 | unmapping a swapped page frees its slot |
| `Paging.AllocSwapIndex` | kernel/vm.c:50-62 | the first unused slot, or -1 exactly when all are used |
| `Paging.WalkRead` | kernel/vm.c:212-230 | without allocation, the leaf table if both upper entries are valid |
| `Paging.Kernel.constructor` | kernel/kalloc.c:43-57 | after freerange the free list holds exactly the managed frames, nobody owns anything and there is no process |
| `Paging.Kernel.EvictPage` | kernel/vm.c:70-131 | panics exactly when no frame is eligible or no slot is free, before the call and at the panic; otherwise the best victim's frame is returned and no page looks different |
| `Paging.Kernel.Kalloc` | kernel/kalloc.c:95-114 | the head of the free list, or an evicted frame; every page keeps contents and flags; panics exactly when memory is exhausted |
| `Paging.Kernel.Kfree` | kernel/kalloc.c:63-89 | the frame is junked, cleared in the frame table and listed once |
| `Paging.Kernel.Walk` | kernel/vm.c:212-230 | the leaf table, created if need be, with no page of any process changed even if creating it evicted one; panics only when memory is exhausted |
| `Paging.Kernel.MapPage` | kernel/vm.c:260-289 | insert of one page into the flat page map; every other page keeps contents and flags |
| `Paging.Kernel.UnmapPage` | kernel/vm.c:316-332 | removal of one page; its frame or slot is free again and no other page changes |
| `Paging.Kernel.UvmUnmap` | kernel/vm.c:307-333 | all pages of the range are gone, everything else is as before |
| `Paging.Kernel.UvmDealloc` | kernel/vm.c:379-391 | the pages beyond the new size are gone, unless the new size is not smaller |
| `Paging.Kernel.UvmAlloc` | kernel/vm.c:337-372 | the new pages exist, are zero and have the flags asked for; everything else is as before; `FlatLaws.NewIsZero` says that each of their bytes reads 0 |
| `Paging.Kernel.SwapIn` | kernel/vm.c:642-679 | the page is resident again with its contents and flags, and no other page changes though the frame may come from evicting one |
| `Paging.Kernel.VmFault` | kernel/vm.c:631-716 | a swapped page returns with its contents and flags, a lazy one becomes zeros with user read and write, anything else is refused, and nested eviction changes no other page; `FlatLaws.NewIsZero` says what zeros are |
| `Paging.Kernel.CopyPage` | kernel/vm.c:436-497 | the child's page equals the parent's although the copy's own allocation may evict it |
| `Paging.Kernel.UvmCopy` | kernel/vm.c:429-503 | the child has exactly the parent's pages, and nothing else changes |
| `Paging.Kernel.FreeWalk` | kernel/vm.c:395-411 | every table page below is freed exactly once; a leftover leaf is impossible |
| `Paging.Kernel.GrowProc` | kernel/sysproc.c:39-66 | growth and shrinking on the flat machine, with the 64-bit wrap of a negative size; returns the old size, or -1 beyond the trapframe |
| `Paging.Kernel.SbrkLazy` | kernel/sysproc.c:54-66 | only the size moves, up to the trapframe; returns the old size, or -1 beyond it |
| `Paging.Kernel.PageFault` | kernel/vm.c:631-716 | a fault is a fault of the flat machine, refused exactly beyond the size or on a mapped page, and otherwise the page is then mapped |
| `Paging.Kernel.Translate` | kernel/trap.c:71-77 | an access goes through exactly on a valid user entry that permits it |
| `Paging.Kernel.UserAccess` | kernel/trap.c:71-77 | a load, store or fetch does what it does on the flat machine, and is refused exactly when the page's flags or the size deny it; `FlatLaws.PokeIs` says what a store does there |
| `Paging.Kernel.MapHigh` | kernel/proc.c:280-297 | a kernel entry at the top of a page table, with every user page as before |
| `Paging.Kernel.ProcPagetable` | kernel/proc.c:269-300 | an empty user address space, with the trampoline and trapframe entries at the top |
| `Paging.Kernel.AllocProc` | kernel/proc.c:203-217 | a trapframe page of its own and an empty address space that maps it |
| `Paging.Kernel.UserInit` | kernel/proc.c:312-327 | the first process: an empty space on the flat machine, from a kernel that has none |
| `Paging.Kernel.ForkProc` | kernel/proc.c:354-372 | a trapframe, and an address space that is the parent's |
| `Paging.Kernel.FreePagetable` | kernel/proc.c:303-309 | every page, slot and table is given back, and no frame is left with the process |
| `Paging.Kernel.FreeProc` | kernel/proc.c:246-265 | the trapframe and every page, slot and table of the process are given back |
| `Paging.Kernel.Exec` | kernel/vm.c:70-716 | one operation is one step of the flat machine with its answer, refused exactly when the access is denied; it panics for want of memory only when memory is exhausted |
| `Paging.Kernel.Run` | kernel/vm.c:70-716 | any run is the same run of the flat machine with the same answers, ownership consistent and no frame lost to the kernel, unless a panic cuts it short: memory is exhausted for that process, or the flat machine does not allow the access |
| `FlatLaws.PokeIs` | kernel/trap.c:71-77 | after a store of v at va, va reads v and every other address reads what it did |
| `FlatLaws.NewIsZero` | kernel/vm.c:337-372 | every byte of memory that growth adds reads 0, in a page of 4096 bytes, eagerly allocated or first touched after lazy growth |
| `FlatLaws.AllowedIs` | kernel/vm.c:631-716 | a load or store is allowed exactly below the size, and a fetch never, since exec is not part of the model |
| `FlatLaws.StepShows` | kernel/sysproc.c:39-66 | every step of the flat machine is that step of a map from addresses to bytes: store, growth, shrinking, lazy growth, fork and exit |
| `FlatLaws.RunShows` | kernel/trap.c:37-96 | so is every run |
| `FlatLaws.BootAndRun` | kernel/trap.c:37-96 | from boot, every answer the paging kernel gives is the one the map from addresses to bytes gives; a refusal is beyond the size or a fetch, and want of memory comes only when memory is exhausted |
| `FlatMemory.FrameOwnership` | kernel/kalloc.c:63-114 | each frame is on the free list once, or recorded for the one page that maps it, or mapped by no user page |
| `FlatMemory.SlotOwnership` | kernel/vm.c:50-131 | a slot is marked used exactly when a swap entry names it, and then just one does |
| `FlatMemory.DeniedIs` | kernel/vm.c:631-716 | which user accesses are denied: below the size exactly those the flat machine does not allow, in pages beyond it all, and past the size on the last page exactly those to a page not resident or not permitting it |
| `FileBlocks.BitsMove` | kernel/fs.c:78-80 | setting or clearing one bit changes the state of that block only |
| `FileBlocks.ExtendedOk` | kernel/fs.c:411-438 | a fresh block attached to a file keeps ownership and no file reads differently |
| `FileBlocks.IndirectedOk` | kernel/fs.c:423-429 | a fresh indirect block keeps ownership and no file reads differently |
| `FileBlocks.StoredOk` | kernel/fs.c:543-550 | writing a file's block changes those bytes of that file only |
| `FileBlocks.DetachedOk` | kernel/fs.c:455-460 | a file's block has its bit set when it is freed, and the other files stay |
| `FileBlocks.IndFreedOk` | kernel/fs.c:462-472 | an emptied indirect block can be freed likewise |
| `FileSystem.Volume.Balloc` | kernel/fs.c:66-89 | the first free block, marked and zeroed, or 0 exactly when none is free; outside a transaction the panic exactly when one is |
| `FileSystem.Volume.Bfree` | kernel/fs.c:92-106 | the block's bit is cleared and nothing else changes |
| `FileSystem.Volume.constructor` | kernel/fs.c:41-48 | an image that satisfies the invariant is taken as it is, without log recovery |
| `FileSystem.Volume.Bmap` | kernel/fs.c:405-444 | the block of the file, allocated if missing, 0 only when the disk is full; no file reads differently, exactly which blocks are logged, and exactly when the inode changes; panics exactly when it must allocate outside a transaction |
| `FileSystem.Volume.BmapIndirect` | kernel/fs.c:421-441 | the same for a block that the indirect block names |
| `FileSystem.Volume.NewBlock` | kernel/fs.c:411-438 | a missing block is attached, or none is free; exactly which blocks are logged |
| `FileSystem.Volume.NeedIndirect` | kernel/fs.c:423-429 | the indirect block, allocated if missing, with no file reading differently |
| `FileSystem.Volume.ReadRange` | kernel/fs.c:505-518 | the bytes of the range up to the first hole that cannot be filled |
| `FileSystem.Volume.Readi` | kernel/fs.c:494-520 | the slice of the file's bytes from off to the count or the end, with the 32-bit overflow check, cut short only at a hole with no block free; panics exactly outside a transaction with a hole in the range and a block free |
| `FileSystem.Volume.ReadOne` | kernel/fs.c:506-517 | one turn of the loop: the bytes of one block; exactly when the inode changes, which is then not among the blocks logged |
| `FileSystem.Volume.WriteChunk` | kernel/fs.c:539-552 | one block's share of a write is in place and tallied |
| `FileSystem.Volume.StoreChunk` | kernel/fs.c:543-550 | the bytes of a turn are in their block, which is logged |
| `FileSystem.Volume.WriteRange` | kernel/fs.c:539-552 | writei's loop: the bytes up to the first block that cannot be had, with the tally of the blocks logged |
| `FileSystem.Volume.Writei` | kernel/fs.c:528-562 | refusals by size, overflow and file limit; otherwise the first r bytes are spliced in, fewer than asked only on a full disk, no other file changes, every changed block and the inode's is logged, and 3072 bytes log at most ten blocks, without holes or with at most four bitmap blocks |
| `FileSystem.WriteIsSplice` | kernel/fs.c:528-562 | the contents after a write are the splice of the contents before; other contents are equal |
| `FileSystem.CountStep` | kernel/fs.c:405-444 | the blocks logged for one block of a write are covered by its tally of data, bitmap and indirect blocks |
| `FileSystem.ApartStep` | kernel/fs.c:405-444 | of these blocks, those outside the bitmap are no more than the data blocks and the indirect block |
| `FileSystem.Volume.Filewrite` | kernel/file.c:134-181 | the bytes by which the offset moves are in place, -1 unless that is all of them, and every chunk's transaction logs at most MAXOPBLOCKS blocks, without holes or with at most four bitmap blocks |
| `FileSystem.LogsExtended` | kernel/fs.c:411-438 | giving a file a block changes only blocks that are logged, and no other inode |
| `FileSystem.WroteMore` | kernel/file.c:152-176 | one chunk more of a write |
| `FileSystem.Volume.Itrunc` | kernel/fs.c:448-476 | exactly the file's blocks become free, no other file changes, "freeing free block" cannot happen, and every changed block is logged: bitmap blocks and the inode's only |
| `FileSystem.Volume.Exec` | kernel/fs.c:448-562 | each operation on a file is that operation on a plain byte sequence, refused exactly for a bad range; it falls short only on a full disk, and panics exactly for a read of a hole outside a transaction with a block free |
| `FileSystem.Volume.Run` | kernel/fs.c:448-562 | so is every sequence of operations, step by step and answers included, up to its end or that panic, which never comes if no file has a hole |
| `FileLaws.ReadGets` | kernel/fs.c:494-520 | a read returns the bytes from off to the count or the end of the file and changes no file; fewer only with no block free and a block missing where it stops |
| `FileLaws.WriteSets` | kernel/fs.c:528-562 | a write that is not refused changes exactly the bytes it covers, makes the file as long as they reach and leaves every other file alone; fewer bytes than asked only on a full disk, and refusal exactly beyond the end or the largest file |
| `FileLaws.ReadBack` | kernel/fs.c:494-562 | a read of the range just written returns the bytes written |
| `FileLaws.TruncateEmpties` | kernel/fs.c:448-487 | a truncated file is empty and every other file is as it was |
| `FileLaws.FatalIs` | kernel/file.c:120-123 | a read panics exactly outside a transaction, with some block free and a block missing that holds a byte it would return |
| `FileLaws.OnDisk` | kernel/fs.c:405-440 | byte p of a file is byte p % 1024 of the block the inode names for p / 1024, directly or as a little-endian word of its indirect block, and 0 where there is none |
| `FileLaws.FreeBits` | kernel/fs.c:67-110 | a block is free exactly when its bit, b % 8 of byte b / 8 of the bitmap, is 0 |
| `FileSystem.FatalNeedsHole` | kernel/file.c:119-122 | a read panics only in a file that had a hole when the run began |
| `FileSystem.BlockOwnership` | kernel/fs.c:66-106 | a bit is set exactly when the block is metadata or named in one place by one file |
| `Mkfs.LayoutFits` | mkfs/mkfs.c:92-103 | the computed layout is well formed: inodes, bitmap and metadata do not overlap |
| `Mkfs.KernelLayout` | mkfs/mkfs.c:92-103 | with FSSIZE 2000 and NINODES 200 the inodes start at block 33, the bitmap at 46 and the data at 47 |
| `Mkfs.Regions` | mkfs/mkfs.c:92-103 | the log and its header end where the inodes start, and every inode and every bit lies in its own region |
| `Mkfs.BumpBlock` | mkfs/mkfs.c:270-285 | the next block becomes a file's data block with ownership intact |
| `Mkfs.Builder.constructor` | mkfs/mkfs.c:92-115 | the empty image: only metadata is owned and every file is empty |
| `Mkfs.Builder.IAppend` | mkfs/mkfs.c:254-296 | the bytes are appended to that file, its blocks are exactly those it needs, the counter moves by just as many and no other file changes |
| `Mkfs.Builder.AppendBytes` | mkfs/mkfs.c:263-293 | the bytes are in blocks behind those the file has, and the counter moved by just as many blocks |
| `Mkfs.Builder.WriteBitmap` | mkfs/mkfs.c:236-250 | with the bitmap written the image satisfies the file system's invariant |
| `Mkfs.Builder.Place` | mkfs/mkfs.c:268-285 | the block of that place, with a data and an indirect block taken exactly where missing |
| `Mkfs.Builder.AppendFile` | mkfs/mkfs.c:159-160 | the whole file is appended exactly when its size and its blocks fit |
| `Mkfs.TooLarge` | mkfs/mkfs.c:117-163 | a build that stops part of the way had no room for the whole |
| `Mkfs.RootHole` | mkfs/mkfs.c:165-170 | the rounded root size leaves a hole exactly when the size was whole blocks, and then it is the last block |
| `Mkfs.RootEntries` | mkfs/mkfs.c:126-170 | the root directory holds its own two entries, then the entry of each file in order, 16 bytes each, and zeros up to its size |
| `Mkfs.Builder.Build` | mkfs/mkfs.c:68-175 | succeeds exactly when the image has room, taking exactly the blocks the files need, in order; then it satisfies the invariant, every file holds its bytes without holes and the root its entries, in just the blocks they need |
| `Mkfs.MakeAndRun` | mkfs/mkfs.c:68-175 | an image is built if it has room, taken as a volume and used: the run starts from the files mkfs was given, and each step has its answer and falls short only on a full disk |
| `Mkfs.FullRootIsFatal` | kernel/file.c:119-122 | 62 files on an image of the kernel's size: reading the root past its entries outside a transaction panics |
| `Journal.InodePut` | kernel/fs.c:226-242 | an inode stored by iupdate reads back, and its neighbours in the block are untouched |
| `Journal.InodeBytes` | kernel/fs.h:32-45 | inode n is 64 bytes of block inodestart + n / 16, with its size at byte 8 and its thirteen addresses from byte 12 on, little-endian |
| `Journal.LoadOk` | kernel/fs.c:293-318 | a disk that holds a volume's inodes, bitmap and file blocks loads as that volume, whatever the log holds |
| `Journal.Flushed` | kernel/fs.c:226-242 | once the logged blocks of a transaction are on the disk, the volume after it is |
| `Journal.SeenBase` | kernel/bio.c:92-103 | a block the transaction has not logged is read as the durable groups leave it |
| `Journal.Ended` | kernel/log.c:147-204 | the commit of its blocks makes the volume after the transaction durable |
| `Journal.CrashHolds` | kernel/log.c:117-124 | power lost at the end of a run and during recovery leaves the volume of the durable groups |
| `Journal.AtomicSteps` | kernel/log.c:127-204 | steps that make at most one group durable: power lost at any of them leaves the volume with it or without it |
| `Journal.Remounts` | kernel/fs.c:41-48 | such a disk can be mounted again, as the same volume |
| `Journal.Mount.constructor` | kernel/fs.c:41-48 | mounting recovers the log and takes the volume on the disk; a crash meanwhile loses nothing |
| `Journal.Mount.LogAll` | kernel/log.c:215-236 | every block of the transaction is read, changed and logged, within the reservation |
| `Journal.Mount.Transact` | kernel/file.c:158-163 | a write or truncation between begin_op and end_op is that operation on plain byte sequences, and power lost at any block write of it leaves the volume before or after |
| `Journal.Mount.Exec` | kernel/file.c:106-181 | so for each operation; a read has no transaction and panics exactly at a hole with a block free |
| `Journal.Mount.Lasts` | kernel/log.c:147-176 | what has returned survives every crash |
| `Journal.Mount.Run` | kernel/file.c:106-181 | any sequence of operations, each on the volume the last one left, and power lost at any moment of operation i leaves the volume before or after it |
| `Journal.Mount.Filewrite` | kernel/file.c:134-181 | any write in chunks: at every moment of it a crash leaves the first chunks of the bytes, and every other file as it was |
| `Journal.EveryMoment` | kernel/log.c:53-236 | every moment of a run lies between two of its volumes, one of which is on the disk |
| `Journal.MountAndRun` | kernel/fs.c:41-48 | from mounting on, power lost at any moment leaves one of the volumes between the operations |
| `Journal.WrittenOn` | mkfs/mkfs.c:186-198 | the image with its inodes stored by winode holds the volume that was built |
| `Journal.MakeMountAndRun` | mkfs/mkfs.c:68-175 | so for the image mkfs makes, starting with the files it was given |
| `Journal.Orphaned` | kernel/fs.c:411-418 | a block that only an inode in memory names: no assignment of owners makes the disk consistent |
| `Journal.ReadCommits` | kernel/fs.c:494-520 | after the transaction of a read, bitmap and files on the disk agree exactly when the inode in memory did not change |
| `Journal.Mount.Lookup` | kernel/fs.c:574-597 | a read of one block in a transaction leaves a consistent disk exactly when bmap had no address to store into the inode |
| `Journal.LookupLeaks` | kernel/fs.c:574-597 | 62 files on an image of the kernel's size, and a lookup past the entries: the disk is not consistent |
| `Mlfq.PushOk` | kernel/proc.c:71-87 | a process that becomes runnable and is pushed keeps the queue invariant |
| `Mlfq.Room` | kernel/proc.c:71-87 | there is always room for a process that is not queued |
| `Mlfq.BoostOk` | kernel/proc.c:635-661 | a boost establishes the invariant whatever the queues held, with no process lost |
| `Mlfq.Push` | kernel/proc.c:71-87 | the process is appended, or dropped exactly when the queue is full |
| `Mlfq.Pop` | kernel/proc.c:89-102 | the array shift removes the head and leaves the other queues |
| `Mlfq.Scheduler.constructor` | kernel/proc.c:56-66 | empty queues and no process |
| `Mlfq.Scheduler.PushProc` | kernel/proc.c:71-87 | no push of a newly runnable process is dropped |
| `Mlfq.Scheduler.Fork` | kernel/proc.c:434-439 | the child is runnable at the end of queue 0 |
| `Mlfq.Scheduler.Boost` | kernel/proc.c:635-661 | every active process is at level 0, in table order |
| `Mlfq.Scheduler.Dispatch` | kernel/proc.c:664-727 | the head of the lowest-numbered non-empty queue runs; nobody if all are empty |
| `Mlfq.Scheduler.Schedule` | kernel/proc.c:601-731 | a boost exactly when one is due, then that dispatch |
| `Mlfq.Scheduler.Decide` | kernel/proc.c:773-823 | charge, demotion and preemption of the running process: it yields exactly when its slice of 2, 4, 8 or 16 ticks is used up or a process waits in a higher queue, and goes down a level exactly when the slice is used up with fewer calls than ticks |
| `Mlfq.Scheduler.EventTick` | kernel/proc.c:773-830 | exactly when its slice is used up or a process waits in a higher queue, the running process leaves the CPU for the end of the queue of its new level; otherwise it goes on and the queues stay |
| `Mlfq.Scheduler.Wakeup` | kernel/proc.c:902-917 | exactly the sleepers on the channel join their queues, in table order |
| `Mlfq.Scheduler.Tick` | kernel/proc.c:773-830 | a clock tick is that wakeup followed by the charge |
| `Mlfq.Scheduler.Sleep` | kernel/proc.c:871-893 | the running process leaves the CPU and is in no queue |
| `Mlfq.Scheduler.Exit` | kernel/proc.c:492-501 | so does an exiting one |
| `Mlfq.KillStrands` | kernel/proc.c:922-942 | kkill keeps the queues complete exactly when its victim is not asleep, whoever runs; otherwise the victim is runnable and in no queue |
| `Mlfq.Scheduler.Kill` | kernel/proc.c:922-942 | the victim is runnable if it slept, and the queues are as before |
| `Mlfq.NoneLost` | kernel/proc.c:922-942 | no killed sleeper is outstanding exactly when every runnable process is in the queue of its level |
| `Mlfq.LostStep` | kernel/proc.c:635-661 | a boosting step queues all killed sleepers, and any other step none |
| `Mlfq.KilledWaits` | kernel/proc.c:635-661 | over any run a killed sleeper stays unqueued throughout exactly when no step boosts |
| `Mlfq.NeverBoosted` | kernel/proc.c:616-622 | a process that computes alone and whose slices miss the boosts: for any number of ticks nobody is boosted and a killed sleeper stays unqueued |
| `Mlfq.BoostComes` | kernel/proc.c:616-622 | a lone process one of whose slices meets a boost: the boost comes |
| `Mlfq.LoneBoost` | kernel/proc.c:616-622 | a lone process lets no boost happen, for any number of ticks, exactly when no slice on its way down ends at one and those at level 3 do not end at multiples of 16 |
| `Mlfq.LastLevelBoost` | kernel/proc.c:616-622 | at level 3 that is the phase of the clock: exactly when the slice did not start at a multiple of 16 |
| `Mlfq.KilledSleeperStarves` | kernel/proc.c:922-942 | a run from boot, by system calls of running processes, after which a killed sleeper is runnable and in no queue for any number of ticks |
| `Mlfq.Scheduler.Exec` | kernel/proc.c:601-942 | one operation on the arrays is one step of the scheduler function |
| `Mlfq.Scheduler.Run` | kernel/proc.c:601-942 | every run is that of the scheduler function, with each runnable process queued once, at its level, and nothing else, but for sleepers killed since the last boost |
| `MlfqLaws.TickedIs` | kernel/proc.c:773-823 | the decision of a tick, both ways: yield exactly when the slice is used up or a higher queue has someone |
| `MlfqLaws.SliceEnds` | kernel/proc.c:773-830 | a tick that ends the slice leaves the CPU free and the process last in its queue, one level down exactly with fewer calls than ticks |
| `MlfqLaws.Preempts` | kernel/proc.c:812-830 | a tick with someone in a higher queue, or woken into one by it, leaves the CPU free and the process last in the queue of its level |
| `MlfqLaws.GoesOn` | kernel/proc.c:812-823 | otherwise the process goes on, charged with the tick |
| `MlfqLaws.TickElsewhere` | kernel/trap.c:173-181 | a tick advances the 32-bit clock, wakes the sleepers on it and touches no other process |
| `MlfqLaws.WakeupIs` | kernel/proc.c:902-917 | a wakeup makes exactly the sleepers on its channel runnable, each at the end of its own queue, and leaves sleepers on other channels, all other processes and what was queued as they were |
| `MlfqLaws.WokenExactly` | kernel/proc.c:902-917 | those it adds to a queue are in table order |
| `MlfqLaws.ScheduleIs` | kernel/proc.c:664-731 | without a boost the head of the first queue that has one gets the CPU, and nothing else changes |
| `MlfqLaws.BoostIs` | kernel/proc.c:618-662 | at a positive multiple of 128 ticks not yet served, every runnable process goes to level 0 with a new slice, nobody is lost any more, and the first of the table runs |
| `MlfqLaws.RecordsAre` | kernel/proc.c:922-942 | a killed sleeper is runnable in no queue, killing any other process changes nothing here, and reaping and counting system calls change one record |
| `SleepLock.StepOk` | kernel/sleeplock.c:21-41 | every single step of acquiresleep, releasesleep, sleep, wakeup, preemption and kill keeps the invariant |
| `SleepLock.MutualExclusion` | kernel/sleeplock.c:21-41 | in every run at most one process has the lock; `SleepLock.Acquires` says that a process gets it |
| `SleepLock.NoLostWakeup` | kernel/proc.c:871-917 | in every run no process sleeps on a free lock outside its spinlock |
| `SleepLock.Acquires` | kernel/sleeplock.c:21-31 | from a free lock, five steps of its own bring a process into the critical section with locked set, its pid stored and the spinlock free |
| `SleepLock.Blocks` | kernel/proc.c:871-898 | from a taken lock, seven steps of its own put it to sleep on the lock, with all spinlocks free |
| `SleepLock.Resumes` | kernel/proc.c:888-898 | a process woken and dispatched takes a free lock with seven steps of its own |
| `SleepLock.Releases` | kernel/sleeplock.c:33-41 | the holder, with the p->locks free, leaves with the lock free and every process that slept on it runnable |
| `SleepLock.KilledSleepsAgain` | kernel/proc.c:922-942 | a sleeper killed while the lock is taken goes back to sleep on it and the state is as before |
| `SleepLock.PreemptedGoesOn` | kernel/trap.c:164-165 | a process preempted without a spinlock makes no step until it is dispatched, and then goes on where it was |
| `SleepLock.HoldingSleep` | kernel/sleeplock.c:43-52 | holdingsleep is true exactly for the process that has the lock |
| `SleepLock.SleeperNotStranded` | kernel/proc.c:871-917 | while a process sleeps on the lock, the one it waits for can move: the holder, or who has the lock's spinlock, or who has the p->lock that one wants |
| `Virtio.QueuedOk` | kernel/virtio_disk.c:215-281 | queuing a request keeps the invariant and overwrites no unread ring entry |
| `Virtio.RingPush` | kernel/virtio_disk.c:271-277 | a new ring entry overwrites none that is unread |
| `Virtio.Positions` | kernel/virtio_disk.c:271-277 | the wraparound of a uint16 index does not move ring positions |
| `Virtio.TransferIs` | kernel/virtio_disk.c:238-265 | the descriptor chain leads the device to the request's own block, buffer and status byte |
| `Virtio.ServedOk` | kernel/virtio_disk.c:309-314 | a completion in any order keeps the invariant |
| `Virtio.Unseen` | kernel/virtio_disk.c:309-313 | the handler's index test says exactly whether a completion is unseen |
| `Virtio.Completion` | kernel/virtio_disk.c:314-320 | the entry read is the oldest unseen completion, with good status and its own buffer |
| `Virtio.FreedOk` | kernel/virtio_disk.c:283-289 | freeing the chain keeps the invariant |
| `Virtio.FilledOk` | kernel/bio.c:92-112 | the owner of an idle buffer may change its block and data without touching any request |
| `Virtio.DisjointChains` | kernel/virtio_disk.c:201-213 | requests under way share neither a descriptor nor a buffer |
| `Virtio.ExactlyOnce` | kernel/virtio_disk.c:215-327 | over any run each request moves its data once and is finished once, but for the one under way |
| `Virtio.AllOnce` | kernel/virtio_disk.c:215-327 | so for every buffer that was idle at the start |
| `Virtio.Driver.constructor` | kernel/virtio_disk.c:120-146 | all descriptors free, both rings empty, and the disk and the buffers as given |
| `Virtio.Driver.AllocDesc` | kernel/virtio_disk.c:156-166 | the lowest-numbered free descriptor is taken, or none is free |
| `Virtio.Driver.FreeDesc` | kernel/virtio_disk.c:169-182 | the descriptor is cleared and free |
| `Virtio.Driver.Own` | kernel/bio.c:92-112 | that change, and nothing else |
| `Virtio.Driver.Alloc3Desc` | kernel/virtio_disk.c:201-213 | three different descriptors, or none taken exactly when fewer than three are free |
| `Virtio.Driver.Submit` | kernel/virtio_disk.c:215-281 | the request is waiting, or nothing changed because fewer than three descriptors are free |
| `Virtio.Driver.DeviceTake` | kernel/virtio_disk.c:271-281 | the device takes the oldest untaken chain, which no caller can notice |
| `Virtio.Driver.DeviceComplete` | kernel/virtio_disk.c:247-265 | the device moves the data of that request and of no other |
| `Virtio.Driver.Interrupt` | kernel/virtio_disk.c:294-327 | every completion is reported to its own buffer, once, and the status panic cannot happen |
| `Virtio.Driver.FreeChain` | kernel/virtio_disk.c:185-197 | exactly the three descriptors of the chain are freed |
| `Virtio.Driver.Finish` | kernel/virtio_disk.c:283-291 | the request is gone and its descriptors are free |
| `Virtio.Driver.Run` | kernel/virtio_disk.c:156-327 | every interleaving is a run of a simple disk whose events are those of the driver's and device's steps, each request is served exactly once, and free descriptors plus three per request equal NUM |
| `Virtio.InitAndRun` | kernel/virtio_disk.c:120-327 | from initialisation, every event is the one its operation causes, every request of every buffer moves its data once and is finished once, and the disk is what the events make of it |
| `VirtioLaws.StoreIsLast` | kernel/virtio_disk.c:215-292 | over any run every block holds what was last written to it |
| `VirtioLaws.RequestRuns` | kernel/virtio_disk.c:215-327 | a request from queueing to closing, whatever others do: a write carries the data it was queued with, a read leaves the buffer alone until its one transfer and then has what was last written to its block before it |
| `VirtioLaws.CanMove` | kernel/virtio_disk.c:215-327 | a request under way can always be moved on: it is with the device or in the avail ring, or in the used ring, or its flag is down |
| `VirtioLaws.Reaches` | kernel/virtio_disk.c:270-277 | every chain in the avail ring is with the device once those before it and itself have been taken |
| `VirtioLaws.ReportIs` | kernel/virtio_disk.c:294-327 | an interrupt reports every request served and moves no data |
| `VirtioLaws.FlagIs` | kernel/virtio_disk.c:280-285 | a buffer's flag is up exactly while it has a request that has not been reported |
| `VirtioLaws.SectorIs` | kernel/virtio_disk.c:218 | the sector of block b starts at byte 1024 * b |
| `VirtioLaws.TransferTo` | kernel/virtio_disk.c:234-268 | a chain whose three descriptors have the lengths and directions the device expects moves the block at the byte its sector names, in the direction of its header |
| `VirtioLaws.RingEntries` | kernel/virtio_disk.c:270-277 | the requests under way are the ring entries between the two 16-bit indices, modulo 8 |
| `Heap.CoalesceSpaced` | user/umalloc.c:33-42 | freeing leaves blocks in address order with a gap between any two |
| `Heap.CoalesceSum` | user/umalloc.c:33-42 | freeing adds exactly the block's units to the free list |
| `Heap.FreedLinked` | user/umalloc.c:33-43 | the stores of free make the list of the coalesced blocks |
| `Heap.FreedUntouched` | user/umalloc.c:33-43 | the stores of free change no byte of a live block |
| `Heap.StopsAt` | user/umalloc.c:30-32 | the search of free stops at one node only, the one the block belongs behind |
| `Heap.TakenShape` | user/umalloc.c:75-84 | cutting or unlinking a block keeps the list and conserves units |
| `Heap.TakenUntouched` | user/umalloc.c:75-84 | nor do those of malloc |
| `Heap.FreeUndoesMalloc` | user/umalloc.c:24-90 | freeing a block at once restores the free list |
| `Heap.AskedIsEnough` | user/umalloc.c:52-54 | sbrk's int argument is the block's length exactly for requests up to 0x7fffffe0 bytes |
| `Heap.LargeRequestShrinks` | user/umalloc.c:52-54 | the next larger request passes a negative argument |
| `Heap.Allocator.constructor` | user/umalloc.c:21-22 | the unused allocator satisfies the invariant |
| `Heap.Allocator.Search` | user/umalloc.c:29-32 | terminates at the node behind which the block belongs |
| `Heap.Allocator.FreeBlock` | user/umalloc.c:24-44 | the block joins the list and coalesces with both neighbours where they touch |
| `Heap.Allocator.Morecore` | user/umalloc.c:46-61 | the new block at the break joins the list, or nothing changes when sbrk refuses |
| `Heap.Allocator.Take` | user/umalloc.c:75-84 | the tail of the block is handed out and units are conserved |
| `Heap.Allocator.Malloc` | user/umalloc.c:63-90 | terminates; null exactly when nothing fits and sbrk refuses; otherwise just enough units from the first block behind freep that is large enough; no byte of a live block changes; the invariant survives growth exactly for requests sbrk's int can carry |
| `Heap.Allocator.Free` | user/umalloc.c:24-44 | the block is coalesced into the free list and is no longer live; no byte of another live block changes |
| `Heap.StoreOk` | user/umalloc.c:24-90 | a program's store into a block it holds keeps the allocator's invariant, whatever the fields it overlaps read as afterwards |
| `Heap.Allocator.ExecMalloc` | user/umalloc.c:63-90 | a program's malloc is next fit on plain lists, or breaks the books exactly when it grows by more than sbrk's int |
| `Heap.Allocator.ExecFree` | user/umalloc.c:24-44 | a program's free of a pointer it holds |
| `Heap.Allocator.ExecGrow` | kernel/sysproc.c:39-66 | growth by the program itself, eager or lazy, keeps the invariant |
| `Heap.Allocator.ExecStore` | user/umalloc.c:63-90 | a program's store sets those eight bytes and changes none of a live block that it does not overlap |
| `Heap.Allocator.Exec` | user/umalloc.c:24-90 | one call is one step on plain lists of free and live blocks and leaves the contents of live blocks to the program, unless it is a request too large for sbrk's int, and then exactly the books are broken |
| `Heap.Allocator.Run` | user/umalloc.c:24-90 | any sequence of calls, up to its end or the first such request, keeps the invariant and is that sequence of steps on plain lists of blocks |
| `HeapLaws.MallocIs` | user/umalloc.c:63-90 | a block with room for the request and less than a header more, whose addresses with those on the list are the ones there were, with at least 64 KiB obtained only if no free block has room |
| `HeapLaws.MallocGrows` | user/umalloc.c:46-60 | then sbrk is asked for the request rounded up, and no block is handed out exactly when it refuses |
| `HeapLaws.TookIs` | user/umalloc.c:71-84 | the first block from freep on, going round, that is large enough; the piece is its end |
| `HeapLaws.FreeIs` | user/umalloc.c:24-44 | the block's addresses join those on the list, which stays in order with no two blocks touching |
| `Heap.ContentsStay` | user/umalloc.c:24-90 | over any run, the bytes inside a block that stays live are as they were, but for the program's own stores that reach them |
| `Regex.MatchHere` | user/grep.c:85-96 | true exactly when a prefix of the text is in the pattern's language, which must be all of it under a final `$` |
| `Regex.MatchStar` | user/grep.c:99-106 | true exactly when some number of fitting characters is followed by a match |
| `Regex.Match` | user/grep.c:72-82 | true exactly when some substring is in the language, a prefix under `^` and a suffix under a final `$` |
| `Regex.WordMatches` | user/grep.c:72-107 | a word without special characters is found anywhere, with `^` at the beginning, with `$` at the end, with both as the whole line, and nowhere else |
| `Regex.DotIsAny` | user/grep.c:84-96 | `.` matches any one character |
| `Regex.StarIsAll` | user/grep.c:98-107 | a starred character matches exactly the repetitions of it, and everything if it is `.` |
| `Regex.HereOne` | user/grep.c:93-94 | a literal or dot takes one fitting character |
| `Regex.HereMany` | user/grep.c:89-90 | a starred character takes any number of fitting characters |

## Left out

- Page table entries are records of their fields; their bit layout, the kernel's own page table and physical address arithmetic are not modelled.
- exec and argument passing: they work on a page table that is not yet its owner's.
- The kernel stacks, and copyin and copyout themselves; `PageFault` is their fault and `UserAccess` an access by the process.
- uvmclear and the unused second loop of kfork.
- Paging on several CPUs at once, TLB flushes, memory fences and the memory statistics counters.
- yield in the scheduler model: like kkill it leaves a runnable process unqueued until the next boost.
- The round-robin scheduler and the logging inside the MLFQ scheduler.
- Directories, path lookup, inode reference counts, link counts and types; an inode is its size and addresses.
- User copies that fail in the middle of readi or writei, pipes and devices in filewrite.
- ireclaim at mount, which frees the inodes of unlinked files, and file operations that run concurrently and share a group; the log's own runs have such groups.
- mkfs's reading of host files and its name handling; an image too small for its files is refused here, while the program writes past its end.
- Device initialisation and feature negotiation of the virtio disk, and device errors.
- grep's reading of files line by line.
- Paging.Kernel.EvictPage: the frame table is taken to cover every managed frame, as NFRAMES does.
- Paging.Kernel.MapPage: maps one page at a time, because every call on a user page table does; larger ranges occur only in the kernel's own table.
- Mkfs.Builder.AppendFile: refuses a file that does not fit, because writing past the end of the image is not modelled.
- Mkfs.Builder.Build: refuses a too small image likewise.
- Heap.Allocator.Run: stops at a request above 0x7fffffe0 bytes that needed new memory, because from then on the allocator hands out memory it was not given.
- Heap.Allocator.ExecGrow: only growth, because a program that shrinks its heap takes memory from live blocks.
- FileSystem.Volume.constructor: does not recover the log, because `Journal.Mount` does.
- Journal.Mount.Run: layouts with more than four bitmap blocks are excluded, because a chunk that fills holes may then log eleven blocks; and so are reads inside a transaction, because of what `Journal.Mount.Lookup` states.
