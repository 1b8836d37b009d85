# xv6 in Dafny

A model of the hard parts of the xv6 RISC-V kernel and of its modified shell, with proofs. Each
part follows the C code's own branches, error returns and constants.

- **Write-ahead log** (`LogFormat`, `LogCrash`, `LogSystem`, `LogDevice`): the on-disk format and the
  lists of disk writes that commit and recovery make; a step system of processes, group commit,
  crashes and reboots; and the log as an object whose methods issue exactly those writes.
- **Buffer cache** (`BufferSpec`, `BufferProof`, `BufferCache`): a step system of callers with
  references, sleep-locks and pins, and the doubly linked LRU list in place.
- **Virtio disk** (`VirtioSpec`, `VirtioProof`, `VirtioDriver`): driver threads, interrupts and a device
  that completes requests in any order (sections 2.6 and 5.2 of VirtIO 1.1), over rings with 16-bit
  indices, while idle buffers are recycled and changed.
- **Blocks and inodes** (`Bitmap`, `FsSpec`, `FsLog`, `Fs`, `FullDisk`): the bitmap in bytes, the block map with its
  indirect block in little-endian words, reading and writing byte ranges, truncation, the chunks of
  `filewrite`, the count of their log entries, and a disk on which a chunk needs all of them.
- **Inode table** (`Itable`, `ItableProof`): references, sleep-locks and generations of an inode number
  while `iput` frees it and `ialloc` brings it back.
- **Processes** (`ProcSpec`, `ProcProof`, `ProcWait`, `ProcSteps`, `ProcTheorems`, `ProcFamily`, `ProcThread`):
  schedulers on any number of CPUs, interrupt handlers that call `wakeup`, `sleep`, `fork`, `exit`, `wait`,
  with the owner of every lock, the parents and children, and what a whole call does for its thread.
- **Page tables** (`VmSpec`, `Vm`): three-level Sv39 tables (section 4.4 of the RISC-V Privileged
  Architecture manual, version 20211203) over the page allocator, with an owner for every page and
  entries that only lend a page, up to the page tables of processes.
- **malloc** (`FreeList`, `Umalloc`): the circular, coalescing free list of section 8.7 of The C
  Programming Language, second edition, in a memory of headers.
- **Shell** (`ShellSpec`, `ShellGrammar`, `ShellProof`, `ShellWords`, `ShellParser`, `ShellJobs`) and **grep**
  (`Grep`): the parser against a grammar of tokens, the job table over command lines, the matcher
  against a declarative meaning, and the line filter.

Concurrent parts are step systems: a state, a function that gives the next state of each step, and
theorems over every sequence of steps from every initial state. `acquire` and `release` of a lock,
and the write of one disk block, are atomic. Sequential code is methods on objects, each tied to a
function of the old state about which the properties are proved.

Inputs from outside are parameters or free choices: the answer of `sbrk`, how much of a file a
`read` returns, how many bytes of user memory can be copied (`limit`), which child `wait` reaps, whether
`fork`, `pipe` and `open` succeed, when a timer interrupt comes, what the device completes next, and where
a crash falls.

Where the code decides against a simpler claim, the model keeps the code:

- `grep` stops at a line of more than 1023 bytes or with a NUL, so it prints all matching lines for
  every pattern exactly when there is no such line (`Grep.AllPrintedIffFitting`, with an input in
  `Grep.LongLineHides`).
- `iput` can leave an allocated inode without links unfreed for good: exactly when the last reference
  is dropped at the end of an `iput` that freed an earlier inode of that number, or with a copy in
  memory that is not valid (`ItableProof.OrphansExactly`, with a run in `ItableProof.FreshInodeLost`).
- A user copy that fails part way has changed bytes of its block that `writei` neither counts nor logs;
  `Fs.FileSystem.Writei` says which, and `FullDisk.TornWrite` is such a write.
- `bget` panics for lack of buffers exactly when no buffer holds the block and each one is pinned or in
  use (`BufferProof.NoBuffers`), and a run leads there (`BufferProof.BuffersRunOut`).
- A chunk of `filewrite` stays within ten log entries, and on some disk it needs all ten. The bound
  rests on files having no holes: with a hole, the same chunk makes eleven (`FullDisk.Demand`).
- A command with `&` runs in the background as a whole exactly when each of its pipelines has a plain
  simple command on its left (`ShellJobs.BackgroundExactly`); `a < f | b &` is waited for
  (`ShellJobs.RedirectedLeftWaits`).
- An empty line ends the shell, since `getcmd` treats it as the end of the input.

## Model

| member | source | states |
|---|---|---|
| LogCrash.PartialInstall | kernel/log.c:68-83 | installing any number of the logged blocks leaves what recovery will produce unchanged: redo is idempotent |
| LogCrash.FullInstall | kernel/log.c:68-83 | installing all of them makes the home blocks what recovery promises |
| LogCrash.RecoveryCrashPoint | kernel/log.c:116-123 | a crash after any write of recovery leaves a disk that recovers to the same home blocks |
| LogCrash.RecoveryIsAtomic | kernel/log.c:116-123 | this holds for every crash point of recovery |
| LogCrash.RecoveryCompletes | kernel/log.c:116-123 | recovery without a crash ends with an empty log and the recovered home blocks |
| LogCrash.AnyCrashesRecover | kernel/log.c:116-123 | any number of crashes during recovery still ends in the same home blocks |
| LogCrash.HeaderCommits | kernel/log.c:102-114 | once the header names the logged blocks, recovery yields the old home blocks overlaid with all of the transaction |
| LogCrash.CommitEarly | kernel/log.c:178-203 | a crash before the header write recovers exactly the old home blocks |
| LogCrash.CommitLate | kernel/log.c:193-203 | a crash at or after the header write recovers exactly the new home blocks |
| LogCrash.CommitIsAtomic | kernel/log.c:193-203 | for every crash point of commit the outcome is one of the two, and the new one from the header write on |
| LogCrash.CommitCompletes | kernel/log.c:193-203 | commit without a crash leaves an empty log and the new home blocks |
| LogSystem.ReserveLogWrite | kernel/log.c:214-235 | a log_write within its operation's budget keeps the reservation of every outstanding operation |
| LogSystem.Booted | kernel/log.c:54-65 | booting from any disk with a readable header ends in an initial state, with the home blocks that were recoverable |
| LogSystem.InvStep | kernel/log.c:126-235 | every step of begin_op, log_write, end_op, commit, crash and recovery keeps the invariant |
| LogSystem.NoPanic | kernel/log.c:146-235 | in no interleaving does log_write or end_op panic, each operation keeping to its own budget |
| LogSystem.CrashAtomicity | kernel/log.c:116-203 | after a crash at any moment, and any further crashes, the home blocks are those of a prefix of history that no operation straddles and that holds all that was committed |
| LogSystem.Durability | kernel/log.c:193-235 | the content given to log_write is what the block has after any later crashes and recoveries, once a commit has finished, until the block is logged again |
| LogSystem.SleeperHasWaker | kernel/log.c:126-142 | whoever sleeps in begin_op waits for a commit under way or an outstanding operation |
| LogSystem.SleeperWakes | kernel/log.c:126-175 | from there some sequence of steps does wake it |
| LogDevice.Log.constructor | kernel/log.c:54-65 | initlog recovers: the home blocks become the recovered ones, by exactly the recovery writes |
| LogDevice.Log.WriteLog | kernel/log.c:178-191 | the writes are the cached blocks into the log slots, in order |
| LogDevice.Log.WriteHead | kernel/log.c:102-114 | one write, of the header |
| LogDevice.Log.InstallTrans | kernel/log.c:68-83 | the writes are the log slots into their home blocks, in order, and unpin unless recovering |
| LogDevice.Log.Commit | kernel/log.c:193-203 | issues exactly the commit writes, which are atomic against crashes, and makes the transaction the home blocks |
| LogDevice.Log.ReadHead | kernel/log.c:86-97 | the in-memory header becomes the one on disk |
| LogDevice.Log.RecoverFromLog | kernel/log.c:116-123 | issues exactly the recovery writes, and home becomes what was recoverable |
| LogDevice.Log.TryBeginOp | kernel/log.c:126-142 | goes ahead if and only if no commit is under way and the log has room for one more operation, and sleeps otherwise |
| LogDevice.Log.LogWrite | kernel/log.c:214-235 | absorbs or appends the block, and panics exactly when the log is full or no operation is open |
| LogDevice.Log.EndOp | kernel/log.c:146-175 | the last operation commits: after a crash between any two of the writes that it issues, recovery gives the old home blocks up to the header write and all of the new ones from it on; other operations issue no write and leave the log as it is; panics exactly when a commit is under way |
| BufferProof.InvStep | kernel/bio.c:58-151 | every step of every caller keeps list, counts, pins, uniqueness and contents right, also when others lock a buffer between the unlock and the count in brelse |
| BufferProof.BreadReturnsLatest | kernel/bio.c:92-103 | bread of a block of a nonzero device returns the content last given to that block, in every run |
| BufferProof.BreadReturnsWritten | kernel/bio.c:92-137 | what a caller stores in a buffer is what every later bread of the block returns, after any recycling, logging and writing in between, until somebody stores into the block again |
| BufferProof.BreadReturnsStored | kernel/bio.c:92-103 | a block that nobody has stored into since boot reads as the disk was |
| BufferProof.OneBufferPerBlock | kernel/bio.c:58-89 | a block of a nonzero device is in at most one buffer |
| BufferProof.BgetGivesBlock | kernel/bio.c:58-137 | from bget to brelse the caller's buffer is of the block that was asked for, whatever is recycled meanwhile |
| BufferProof.RecyclesLeastRecent | kernel/bio.c:73-85 | bget recycles the unused buffer whose last release lies furthest back in the run, never one that is pinned or in use |
| BufferProof.NoBuffers | kernel/bio.c:58-89 | bget panics if and only if no buffer holds the block and every buffer is pinned or in use |
| BufferProof.BuffersRunOut | kernel/bio.c:58-89 | from any initial state, as many bget calls for different blocks as there are buffers lead to a state where the next one panics |
| BufferProof.QuietDiskIsCurrent | kernel/bio.c:106-151 | with nothing pinned, the disk holds the latest content of every block |
| BufferProof.QuietDiskHasWritten | kernel/bio.c:106-151 | with nothing pinned and nobody at work on the block, the disk holds what the last caller stored into it |
| BufferCache.BufferList.constructor | kernel/bio.c:36-53 | binit links all buffers into one circular list |
| BufferCache.BufferList.Bget | kernel/bio.c:58-89 | the two scans find the cached buffer, or the last unused one, or panic |
| BufferCache.BufferList.Brelse | kernel/bio.c:124-136 | one reference less; the last release moves the buffer to the front and keeps the order of the others |
| BufferCache.BufferList.Releasesleep | kernel/bio.c:119-122 | the lock is free, and it panics if and only if the caller does not hold it |
| BufferCache.BufferList.Bpin | kernel/bio.c:140-144 | one more reference, and the list stays |
| BufferCache.BufferList.Bunpin | kernel/bio.c:147-151 | one reference less, and the list stays |
| VirtioProof.InvStep | kernel/virtio_disk.c:215-327 | every step of a driver thread, the interrupt handler and the device keeps chains, rings and contents right, and so does any change to a buffer that no request uses |
| VirtioProof.NoPanic | kernel/virtio_disk.c:156-327 | no panic of the driver, and no chain the device cannot read, in any run |
| VirtioProof.FreeOrInOneChain | kernel/virtio_disk.c:156-213 | each descriptor is free or in exactly one chain of three |
| VirtioProof.UnreadEntriesIntact | kernel/virtio_disk.c:265-275 | avail entries the device has not read are never overwritten, also when the 16-bit indices have wrapped |
| VirtioProof.DecodeIsRequest | kernel/virtio_disk.c:232-263 | the device reads from a chain exactly the request the driver wrote |
| VirtioProof.ReturnsAfterTransfer | kernel/virtio_disk.c:280-292 | virtio_disk_rw returns only after its own request is done, and then buffer and disk agree on its data |
| VirtioProof.TransfersData | kernel/virtio_disk.c:215-292 | from the call that got descriptors to its return, whatever runs in between: a write leaves the buffer's data at the call on its sector, a read leaves the sector's content at the call, still there, in the buffer |
| VirtioProof.SectorsDiffer | kernel/virtio_disk.c:218 | different block numbers below 2 to the 31 have different sectors |
| VirtioProof.InterruptClearsOwner | kernel/virtio_disk.c:294-327 | each completion clears b->disk of the buffer of that very request |
| VirtioProof.SleeperHasChain | kernel/virtio_disk.c:201-231 | whenever a thread sleeps for descriptors, another one has a request under way |
| VirtioProof.SleeperWakes | kernel/virtio_disk.c:201-327 | from there the device and the handler can always go on until a chain is given back and the sleeper is woken |
| VirtioDriver.Descriptors.AllocDesc | kernel/virtio_disk.c:156-166 | the first free descriptor, or -1 when there is none |
| VirtioDriver.Descriptors.FreeDesc | kernel/virtio_disk.c:169-182 | the descriptor is cleared and free |
| VirtioDriver.Descriptors.FreeChain | kernel/virtio_disk.c:185-197 | all descriptors of the chain are cleared and free, and no others |
| VirtioDriver.Descriptors.Alloc3Desc | kernel/virtio_disk.c:201-213 | three different descriptors, or none and everything as before |
| Bitmap.BitChanged | kernel/fs.c:75-77 | setting or clearing the bit of block b changes that bit of that byte and no other |
| FsSpec.WordPut | kernel/fs.c:407-414 | a block number stored in the indirect block reads back, and the other words stay |
| FsSpec.AllocDirect | kernel/fs.c:388-396 | a new block behind an entry of addrs keeps ownership, bitmap and the bytes of every file |
| FsSpec.AllocLeaf | kernel/fs.c:407-416 | a new block behind a word of the indirect block keeps ownership, bitmap and the bytes of every file |
| FsSpec.WriteData | kernel/fs.c:516-528 | overwriting a data block changes the bytes of that part of that file, and no slot and no other file |
| FsSpec.FreeDirect | kernel/fs.c:432-448 | freeing the block of an entry keeps the invariant; the block was in use and owned by that entry |
| FsSpec.FreeLeaf | kernel/fs.c:442-445 | freeing a block named in the indirect block keeps the invariant; it was in use and owned by that word |
| FsSpec.EmptyFsOk | kernel/fs.c:65-105 | a disk with empty inodes and only metadata in use meets the invariant |
| Fs.FileSystem.Balloc | kernel/fs.c:65-88 | returns the first free block, marked and zeroed, or 0 if and only if every block is in use |
| Fs.FileSystem.Bzero | kernel/fs.c:50-59 | the block is zero and logged |
| Fs.FileSystem.Bfree | kernel/fs.c:91-105 | clears that bit and no other, and panics if and only if the block is free |
| Fs.FileSystem.Bmap | kernel/fs.c:382-421 | the block of the file, allocated if there was none, 0 only on a full disk; nothing changes for a mapped block, and each block that changes, data, indirect or bitmap, is in the log and belongs to the file |
| Fs.FileSystem.Itrunc | kernel/fs.c:425-453 | exactly the blocks of that inode become free, never one that is free already, and their bitmap blocks are logged; size and addresses are cleared, type, device numbers and links stay, and other inodes and files are as they were |
| Fs.FileSystem.Iupdate | kernel/fs.c:225-241 | the whole inode on disk becomes the one in memory |
| Fs.FileSystem.Readi | kernel/fs.c:471-496 | returns that range of the flat bytes, clipped to the size; allocates nothing, changes nothing and logs nothing |
| Fs.FileSystem.Writei | kernel/fs.c:505-539 | overwrites that range of the flat bytes, all of it or up to a full disk or a failed copy, whose readable bytes have changed without counting; the exact error condition; no holes; the size grows to the end of what was written, type, device numbers and links stay, and so do all other inodes; every other block that changed belongs to the file and is in the log, with the bitmap blocks; the log entries within their bound, and when exactly at it, for files with and without holes |
| Fs.FileSystem.WriteOp | kernel/file.c:155-174 | one chunk changes bytes, size and no other field of the inode as writei does, with at most nine log entries before the final iupdate and ten in all; where free blocks lie in different bitmap blocks and the file ends in its last direct block, exactly ten, or eleven if that block is a hole; a short write means that the copy failed or that all that was free is used |
| Fs.FileSystem.Filewrite | kernel/file.c:134-181 | each chunk in its turn writes its bytes to the file as it finds it, whatever others did in between, within the ten log entries, up to the end or the first chunk that is not written in full; all bytes exactly when n is returned |
| Fs.WholeWrite | kernel/file.c:134-181 | if others leave the file alone, the chunks together are one overwrite of the counted bytes, plus those of a failed copy that fall into the file |
| FsLog.BoundChunk | kernel/file.c:155 | the bound of nine for any offset, by counting data, bitmap and indirect blocks, and of ten with a hole |
| FsLog.RoundMet | kernel/fs.c:516-528 | if free blocks lie in different bitmap blocks and the file ends here, a round of writei uses exactly the entries its bound allows: two, or one if it starts inside a block that is there |
| FsLog.NewLeafStep | kernel/fs.c:407-416 | a block behind the indirect block then costs two entries, and the indirect block one, once |
| FsLog.FullChunk | kernel/file.c:149-155 | a full chunk from inside the last direct block on then needs ten entries, or eleven with a hole |
| FullDisk.DiskOk | kernel/fs.c:65-105 | a disk whose only free blocks are the first ones of each bitmap block's range, the rest belonging to full files, meets the invariant |
| FullDisk.DiskTidy | kernel/fs.c:382-421 | that disk meets the condition for using all log entries, with the last direct block there or a hole |
| FullDisk.Demand | kernel/file.c:149-174 | one chunk of filewrite to inode 1 of that disk is written in full with exactly ten log entries, and with eleven if its first block is a hole |
| FullDisk.TornWrite | kernel/fs.c:521-524 | a write that returns 0 and has changed a byte of the file |
| Fs.BlocksConserved | kernel/fs.c:65-105 | free, owned and metadata blocks always add up to the disk |
| ItableProof.InvStep | kernel/fs.c:198-362 | every step of iget, idup, ilock, iunlock, iput and ialloc keeps the table's invariant |
| ItableProof.OneEntryPerInode | kernel/fs.c:246-277 | at most one entry in use per inode number |
| ItableProof.IlockLoadsFresh | kernel/fs.c:292-317 | ilock leaves the inode on disk, of the generation its reference was made for, and never finds one without a type |
| ItableProof.IgetNamed | kernel/fs.c:246-317 | as long as the reference from iget is held, ilock through it loads the inode of the number that was asked for |
| ItableProof.IdupSame | kernel/fs.c:281-317 | and through a reference from idup the inode of the reference that was copied |
| ItableProof.TypeAsked | kernel/fs.c:198-317 | as long as the reference from ialloc is held, ilock through it finds the type that was asked for, and as many links as were made and not removed since |
| ItableProof.IputFreesItsOwn | kernel/fs.c:336-362 | iput writes to disk only the generation it has the last reference to, while nobody else has one or is about to get one |
| ItableProof.IputNeverWaits | kernel/fs.c:341-346 | the last reference to an inode without links finds it unlocked |
| ItableProof.OrphanMade | kernel/fs.c:336-362 | a step leaves an allocated inode without links and references if and only if it drops the last reference at the end of an iput that freed an earlier generation, or with a copy that is not valid |
| ItableProof.OrphanStays | kernel/fs.c:247-276 | no step finds such an inode again |
| ItableProof.OrphansExactly | kernel/fs.c:336-362 | over every run, such an inode is there if and only if it was at boot or some step left it |
| ItableProof.FreshInodeLost | kernel/sysfile.c:295-299 | a run of two ialloc references and one entry that leaves one |
| ItableProof.Scan | kernel/fs.c:254-267 | the scan of iget returns the entry in use, or else the first empty one, or else the panic |
| ProcTheorems.InvStep | kernel/proc.c:279-609 | every step of every CPU, process and interrupt handler keeps the process table's invariant |
| ProcTheorems.OneCpuPerProcess | kernel/proc.c:461-536 | when p->lock is free, p is RUNNING if and only if a CPU has it as its process; no two CPUs have the same process or its kernel stack |
| ProcTheorems.SchedLocks | kernel/proc.c:507-525 | a process that calls sched holds its own lock and no other |
| ProcSteps.HandlerStep | kernel/trap.c:163-171 | a handler that takes a lock, scans in wakeup and lets go keeps the invariant of the table |
| ProcTheorems.HandlerKeeps | kernel/proc.c:595-609 | a step of another CPU that does not touch the lock of a handler leaves everyone the handler has passed awake |
| ProcTheorems.NoLostWakeup | kernel/proc.c:564-609 | when any wakeup under a lock is done, in a process, in an interrupt handler or in exit and reparent, nobody who let go of that lock in sleep on that channel is still asleep |
| ProcTheorems.WokenIsRunnable | kernel/proc.c:564-609 | in any step, a process leaves such a sleep only by becoming RUNNABLE |
| ProcTheorems.WakeupReachesSleeper | kernel/proc.c:564-609 | so the run up to the end of that wakeup, whoever issued it, passes through a state where the sleeper is RUNNABLE |
| ProcTheorems.NoZombieForgotten | kernel/proc.c:330-450 | while wait_lock is free, no process, init included, is asleep in wait with a ZOMBIE child |
| ProcWait.RestZombie | kernel/proc.c:371-381 | when exit sets ZOMBIE the parent is awake |
| ProcWait.WaitAdopt | kernel/proc.c:335-339 | handing a dead child to init is covered until init has been woken |
| ProcWait.RestDoze | kernel/proc.c:576-581 | letting go of the lock in sleep cannot slip behind a wakeup under that lock |
| ProcFamily.FamilyStep | kernel/proc.c:279-450 | every step keeps parents and children right: who has children has not passed reparent, everyone alive but init has a parent, and a scan of exit has left nobody behind it |
| ProcFamily.ParentCanWait | kernel/proc.c:330-430 | over every run, whoever runs, sleeps or is a ZOMBIE, init aside, has a parent, and every parent is alive and not yet past reparent, so it can still call wait |
| ProcFamily.ExitLeavesNone | kernel/proc.c:330-385 | over every run, a process past reparent is nobody's parent |
| ProcFamily.ExitHandsOver | kernel/proc.c:330-385 | whoever had p as its parent has init as its parent once p is past reparent, unless it was reaped |
| ProcFamily.ForkMakesChild | kernel/proc.c:279-326 | fork makes one USED slot RUNNABLE, whose parent is the caller |
| ProcFamily.EffectOf | kernel/proc.c:279-640 | a step changes the state of at most one process and the parent of at most one, and only so: fork takes UNUSED to USED to RUNNABLE or back to UNUSED, the scheduler RUNNABLE to RUNNING, sched RUNNING to RUNNABLE or SLEEPING, exit RUNNING to ZOMBIE, wait ZOMBIE to UNUSED, a wakeup on its channel or kill SLEEPING to RUNNABLE; parents change in fork, wait and reparent |
| ProcFamily.WaitReapsOwn | kernel/proc.c:390-450 | wait and wait_noblock return with a ZOMBIE child of the caller's own, and free its slot and nothing else |
| ProcFamily.EveryExitReapedOnce | kernel/proc.c:344-450 | over every run, the number of ZOMBIEs is exits minus reaps: none is lost and none is reaped twice |
| ProcFamily.WokenByItsChannel | kernel/proc.c:596-640 | a step ends a sleep only by a wakeup on the sleeper's own channel or by kill |
| ProcThread.YieldReturns | kernel/proc.c:529-537 | yield goes back to where the process was, and until then the process is never asleep |
| ProcThread.SleepReturnsLocked | kernel/proc.c:565-592 | sleep returns with the very lock it was called with, held |
| ProcThread.WakeupEndsSleep | kernel/proc.c:565-609 | a process that called sleep with a channel and a lock and is still asleep when another calls wakeup on that channel under that lock has been RUNNABLE by the time that wakeup is done |
| ProcThread.HandlerEndsSleep | kernel/virtio_disk.c:294-327 | the same for the wakeup of an interrupt handler |
| ProcThread.WaitCountsChildren | kernel/proc.c:399-427 | at the end of its scan wait has seen a child if and only if the caller has one |
| VmSpec.MapLeaf | kernel/vm.c:161-165 | storing a leaf entry keeps every frame with exactly one owner |
| VmSpec.UnmapLeaf | kernel/vm.c:187-197 | clearing a leaf entry gives back the frame that this entry alone owned |
| VmSpec.LentLeaf | kernel/vm.c:158-165 | an entry for a page of somebody else changes no owner |
| VmSpec.HangMid | kernel/vm.c:91-101 | a new table behind a root entry keeps ownership |
| VmSpec.HangMidWalk | kernel/vm.c:91-101 | and changes no lookup of any page table |
| VmSpec.HangLow | kernel/vm.c:91-101 | the same one level down |
| Vm.Kernel.constructor | kernel/kalloc.c:26-40 | every page of the range is free, once |
| Vm.Kernel.Kalloc | kernel/kalloc.c:68-82 | takes the first free page, and fails if and only if there is none |
| Vm.Kernel.Kfree | kernel/kalloc.c:46-63 | the page, owned by the caller, becomes the first free one |
| Vm.Kernel.Walk | kernel/vm.c:85-103 | the lowest table for the page; fails only for want of memory or, without alloc, of a table; no mapping changes, and nobody else gains or loses a page |
| Vm.Kernel.MapPage | kernel/vm.c:158-165 | maps that page and nothing else, as the page table's own or lent by others; panics if and only if it is beyond the address space or mapped already; fails only for want of memory and then maps nothing |
| Vm.Kernel.Mappages | kernel/vm.c:143-172 | the pages go to consecutive frames and nothing else changes; it stops, with the earlier pages mapped, at the first one that makes it panic, or when memory runs out |
| Vm.Kernel.Uvmunmap | kernel/vm.c:177-199 | panics if and only if some page is not mapped; otherwise those pages lose their mappings, the page table's own go back to the allocator or, without do_free, to the caller, and nothing else changes |
| Vm.Kernel.Uvmcreate | kernel/vm.c:203-212 | a page table that maps nothing, for one page, or nothing changes |
| Vm.Kernel.Uvmalloc | kernel/vm.c:233-256 | for any 64-bit size, maps all pages up to it, zeroed, or restores the map, never reaches the walk or remap panic, changes the contents of no page in use, and leaves no page in anybody's hands |
| Vm.Kernel.Uvmdealloc | kernel/vm.c:263-274 | the pages between the two rounded sizes, and no others, are unmapped and free; panics if and only if one of them is not mapped |
| Vm.Kernel.Uvmcopy | kernel/vm.c:312-340 | the child maps copies with the parent's flags and contents, or keeps the map it had; the contents of all pages in use stay, and no page is left in anybody's hands |
| Vm.Kernel.Freewalk | kernel/vm.c:278-294 | what is free then is exactly what was free and all tables of that page table; other page tables keep their maps and pages |
| Vm.Kernel.Uvmfree | kernel/vm.c:298-304 | what is free then is exactly what was free and all that the page table had, each page once; other page tables keep their maps and pages |
| Vm.Kernel.ProcPagetable | kernel/proc.c:177-206 | a page table with just the trampoline and the trapframe, which stay property of others, or every page has the owner it had |
| Vm.Kernel.ProcFreepagetable | kernel/proc.c:211-216 | all pages of the process and its tables are free, each once, and neither the trampoline nor the trapframe is |
| Vm.PagesConserved | kernel/kalloc.c:46-82 | free pages, table pages, mapped pages and pages in hand always add up to RAM |
| Vm.RamBound | kernel/memlayout.h:39-59 | with the first n pages mapped and another page in hand, n is below the number of RAM pages |
| FreeList.InsertOk | user/umalloc.c:24-44 | a freed block goes in with the list sorted, coalesced and without overlaps |
| FreeList.InsertUnits | user/umalloc.c:24-44 | and adds exactly its own units |
| FreeList.CarveOk | user/umalloc.c:74-81 | an allocation leaves the list sorted and coalesced |
| FreeList.CarveUnits | user/umalloc.c:74-81 | and takes exactly the allocated units, which were free |
| FreeList.CarveThenInsert | user/umalloc.c:24-90 | freeing what was just allocated gives the same list back |
| Umalloc.FreeStoresLink | user/umalloc.c:32-43 | the stores of free turn the circular list into the list with the block inserted |
| Umalloc.MallocStoresLink | user/umalloc.c:74-83 | the stores of malloc turn it into the list with the block carved out |
| Umalloc.Heap.FindBelow | user/umalloc.c:30-32 | the search of free ends, at the list block right below |
| Umalloc.Heap.Free | user/umalloc.c:24-44 | the block's units become free, the rest of the heap's partition stays, and no unit of another block is written to |
| Umalloc.Heap.Morecore | user/umalloc.c:47-61 | the new chunk joins the free list, or nothing changes |
| Umalloc.Heap.Search | user/umalloc.c:73-88 | one round ends, with the first block after freep that fits if and only if one fits |
| Umalloc.Heap.Malloc | user/umalloc.c:63-90 | a new block of enough units, cut from the end of the first block after freep that fits, or the first after the new chunk joined the list; 0 if and only if nothing fits and sbrk fails; free and live units make up what sbrk gave, and no unit of a block in use is written to |
| ShellSpec.GetToken | user/sh.c:416-459 | the token lies in the line, and one that is not the end moves the cursor |
| ShellSpec.ParseLine | user/sh.c:495-510 | parsing ends with the cursor in bounds |
| ShellParser.NextToken | user/sh.c:416-459 | the scanning loops find that token |
| ShellParser.LookAhead | user/sh.c:461-471 | says whether the next token begins with one of the characters |
| ShellParser.Redirs | user/sh.c:525-548 | the loop reads the redirections of the grammar |
| ShellParser.ExecPart | user/sh.c:566-597 | the loop reads the command of the grammar, with its limit on arguments |
| ShellParser.Block | user/sh.c:550-564 | reads the block that the grammar theorems speak of |
| ShellParser.PipePart | user/sh.c:512-523 | reads the pipeline that the grammar theorems speak of |
| ShellParser.Line | user/sh.c:495-510 | reads the line of the grammar |
| ShellParser.Command | user/sh.c:478-493 | parses the whole line, and then every argument and file name is a string that is exactly its token |
| ShellGrammar.Accepts | user/sh.c:478-597 | a line with the tokens of a sentence, whatever the spaces, is parsed as what the sentence stands for: pipelines bind tighter than & and & tighter than lists, any number of &, redirections anywhere among the words |
| ShellGrammar.AcceptsExactly | user/sh.c:478-597 | the parser accepts a line if and only if its tokens are a sentence of the grammar, and gives the command that every such sentence stands for |
| ShellProof.Unambiguous | user/sh.c:478-597 | two sentences with the same tokens, made of words that a NUL-free line can hold, stand for the same command |
| ShellProof.RoundTrip | user/sh.c:416-597 | every legal tree comes back from its printing with every part in brackets, and from its printing with brackets only where they are needed |
| ShellWords.LineWords | user/sh.c:416-597 | every argument and file name of a parsed line is a whole word of it, and no command has more than nine |
| ShellWords.Nulterminate | user/sh.c:600-644 | every string of the command ends where its token ends, and no other token is damaged |
| ShellJobs.FreeSlot | user/sh.c:64-73 | fewer than NPROC unreaped children leave a free slot |
| ShellJobs.Shell.AddJob | user/sh.c:66-73 | the pid is recorded in a free slot, which always exists |
| ShellJobs.Shell.Settle | user/sh.c:108-111 | a reaped job is reported and removed, once, and any other child changes nothing |
| ShellJobs.Shell.ReapZombies | user/sh.c:104-113 | every child that had exited is reaped, and every recorded job stays either in the table, unreaped, or reported once |
| ShellJobs.Shell.WaitForForeground | user/sh.c:115-129 | the same, until the foreground process is reaped |
| ShellJobs.Shell.RunExec | user/sh.c:190-207 | one process is forked; a background one is recorded and still a child, a foreground one is reaped; the shell ends exactly when the fork fails, and then records nothing |
| ShellJobs.Shell.RunPipe | user/sh.c:227-273 | two processes are forked; the left one of a background pipeline is recorded, a foreground pipeline is reaped on both sides; the shell ends exactly when a fork or the pipe fails |
| ShellJobs.Shell.RunCmd | user/sh.c:156-281 | the pids that fork gave out are those of the launches that the parsed command and the answers of open call for, in order: one each, two for a pipeline; foreground ones are reaped, each background launch has one recorded job; the shell ends exactly when a fork or pipe fails, with the launches so far the beginning of those |
| ShellJobs.OnePlan | user/sh.c:156-281 | the parsed command and the answers of open determine the launches and how many answers are asked for |
| ShellJobs.Shell.RunLine | user/sh.c:304-322 | one round: what had exited is reaped, an empty or wrong line ends the session and starts nothing, any other is carried out |
| ShellJobs.Shell.Session | user/sh.c:286-324 | over any command lines, what was forked is what the parsed lines call for, up to an empty or wrong line or a failed fork; foreground processes and all that had exited before are reaped; each background launch gives one recorded job, which is in the table and unreaped or was reported once |
| ShellJobs.SetBackMarks | user/sh.c:132-153 | every simple command is marked, except under a & of its own, and the shape of pipelines stays |
| ShellJobs.BackgroundExactly | user/sh.c:132-153 | a command with & launches everything in the background if and only if the left side of each of its pipelines is a plain simple command |
| ShellJobs.RedirectedLeftWaits | user/sh.c:250-265 | a background pipeline with a redirection on its left is launched in the foreground, always |
| ShellJobs.ForegroundOnly | user/sh.c:156-281 | a command without & launches nothing in the background |
| Grep.MatchHere | user/grep.c:85-96 | true if and only if the text from there on begins with one piece per pattern item |
| Grep.MatchStar | user/grep.c:99-106 | true if and only if some run of the character can be followed by the rest |
| Grep.Match | user/grep.c:72-82 | agrees with the declarative meaning of ^ . * and $ |
| Grep.Run | user/grep.c:11-35 | prints exactly the matching terminated lines up to the first one with more than 1023 bytes or a NUL, however the reads split the input |
| Grep.FilteredPart | user/grep.c:18-34 | the lines not printed are exactly the matching ones from the first line that does not fit on |
| Grep.FittingLinesAllPrinted | user/grep.c:18-34 | with no such line, all matching lines are printed |
| Grep.AllPrintedIffFitting | user/grep.c:18-34 | all matching lines are printed for every pattern if and only if no line has more than 1023 bytes or a NUL |
| Grep.LongLineHides | user/grep.c:18-34 | an input on which a short matching line is not printed |

## Left out

- Assembly, traps, PLIC, UART, boot code, and the atomic swap and memory ordering inside spinlocks.
- `printf`, `ls`, `cat`, `wc` and the other small commands.
- Directories, path names, and the system calls above the inode layer.
- Pipes and the console.
- `exec` beyond the sizes it passes to `uvmalloc`, and `copyin`, `copyout`, `copyinstr`.
- `wait_noblock` takes no lock; it is one atomic step here, which is an assumption.
- Interrupt handlers take one lock at a time, other than `wait_lock`, as all of them do; what they do to devices is not part of the process model.
- A process of the model holds at most one lock besides its own `p->lock`, while `log_write` and `iput` hold a second one for a short time.
- The `killed` flag is not modelled: `wait` may return early at any time it would test it.
- Process numbers and exit statuses: a process is its slot in the table.
- A `log_write` is not limited by anything but its own operation's budget, which the callers other than `filewrite` are assumed to keep.
- Callers of the buffer cache are assumed to call `log_write` or `bwrite` after changing a buffer and before `brelse`, which a failed copy in `writei` does not, and to ask the disk driver for locked buffers only.
- Fs.FileSystem.Filewrite: nobody else moves the offset of the open file between two chunks.
- `fsinit`: reading the superblock and the test of its magic number.
- Itable has link counts change together with directory entries in one step, since the directories themselves are not modelled.
- Vm.Kernel.Uvmunmap: with do_free, the pages must be the page table's own, since freeing a lent page is the caller's error.
- Vm.Kernel.Uvmdealloc: the number of pages must fit an int, as it does for all sizes below MAXVA.
- Vm.Kernel.Uvmcopy: every page of the parent must be mapped and no page of the child, as for all callers, so its panics are not modelled.
- Vm.Kernel.Uvmfree: exactly the pages below the size must be mapped, as for all callers, so its panics are not modelled.
- Page contents are opaque values, and addresses are page numbers, so the alignment panics are not modelled.
- Vm.Kernel.Freewalk: written once per level; the C function tells the levels apart by the flags of the entries.
- Umalloc.Heap.Malloc: addresses count header-sized units, so alignment is not modelled; the request must fit a positive int in bytes, as `sbrk` demands.
- ShellJobs.Shell.WaitForForeground: after the right side of a pipeline was reaped first, the second wait lasts until no child is left; no prompt return is claimed.
- ShellJobs.Shell.Fork: pids only grow, so the wrap-around of the pid counter is not modelled.
- ShellJobs.Shell.RunCmd: what the children do, the effect of `cd` and the output of `jobs` are not modelled.
- Grep.File.Read: a read that fails is not modelled.
