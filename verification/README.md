# A verified model of an xv6 kernel and its scheduling simulators

This project models, in Dafny, the parts of an extended xv6 (RISC-V) kernel, of its user programs and of two
stand-alone scheduling simulators in which correctness depends on more than one function, and proves what those
parts are for. `dafny verify dfyconfig.toml` checks everything.

| files | what they model | main results |
|---|---|---|
| RedoLog, CrashAtomicity | the redo log of `log.c` as sequences of block writes | a crash at any write, and at any write of any number of recoveries, is all or nothing |
| LogMachine, LogInvariant, LogSafety, LogTheorems, LogOverflow, LogSlack, LogStarve | log and buffer cache as one interleaved state machine: processes, operations, single block writes, crashes, recovery | whole operations survive, the cache behaves as a plain disk, space admission, when log_write and when bget can panic |
| FsCalls, DiskWords, CrashQuiet, CrashFs | that machine with the file system on top, and its layout on disk | crashes leave one owner per block and a bitmap that agrees, if and only if no commit finds an inode with a pointer filled by a read and not written back |
| LruRing, BufferCache, LogCode | `bio.c` and `log.c` as classes that update fields and pointers | the code issues exactly the writes of the plan, and how many buffers it takes to complete them; least recently used is what the ring holds |
| PageTable, VmCode, VmGrow, VmFree, VmProc | `vm.c`, `kalloc.c` and the page-table functions of `proc.c` | the three-level table is a page map; how much memory each operation takes; rollback; every page returned once; three pages make a process table |
| FreeList, Umalloc, HeapUnits | `umalloc.c` | canonical free ring, disjoint blocks, conservation, termination |
| FsLayout, FsSteps, FsCode, Mkfs, Mount, RootHole | `fs.c`, `fileread`, `filewrite`, `mkfs.c` | one owner per block, files are byte sequences, seven blocks per operation, from an empty disk to a mounted one |
| ProcMachine, ProcInvariant, ProcSafety, ProcTheorems, ProcWait | fork, exit, wait, sleep, wakeup, kill of `proc.c` as interleaved steps | no lost wakeup, live parents, each exit returned once, how wait ends, orphans, when a kill is missed |
| VirtQueue, VirtioDisk | `virtio_disk.c` and a device | disjoint chains, rings never overrun, flags cleared for completed requests only |
| ShLexer, ShParser, ShGrammar, ShRoundTrip, ShTerminate | the parser of `sh.c` | sound and complete for a grammar, a line for every tree, harmless in-place termination |
| Grep | the matcher of `grep.c` | sound and complete for a meaning stated by splitting the text |
| Mlfq, MlfqPeak, MlfqStage, MlfqOrder, MlfqRun, Lottery | the simulators | when a queue overflows, the whole schedule, fair shares, who gets each tick, when the lottery ends |
| Common | an option type and a fact about sets | |

## Findings

- `begin_op` reserves for LOGSIZE blocks, but `log_write` refuses at `log.size - 1`, and `mkfs` makes `nlog` equal
  to LOGSIZE; `log_write` also tests for a full log before it looks whether the block is already there, so a longer
  log area does not help (`LogOverflow.FullLogRefusesAbsorption`). `LogTheorems.LogWritePanicsIff` is the exact
  condition in a state and `LogSlack.LogPanicsIff` the one on the configuration: a transaction can grow to LOGSIZE
  less twice what operations leave of their reservation, and `log_write` can panic if and only if that reaches what
  the log takes. At the numbers xv6 is built with this means operations of ten blocks (`LogSlack.StockLogPanicsIff`,
  `LogOverflow.MkfsLogIsOneShort`). Those of `filewrite` log at most seven (`FsCode.FileSystem.FileWrite`); how many
  `create`, `link`, `unlink` and `iput` log is not part of this model.
- `bget` panics when every buffer is referenced. That can happen if and only if the buffers that processes hold or
  wait for at a time, and the blocks the log pins, can be more than NBUF (`LogStarve.StarvesIff`). xv6 has 64
  processes of up to two buffers and a log of up to 29 blocks, so it can with its 30 buffers and with any number
  below 128 plus the peak of the log (`LogStarve.StockStarvesIff`).
- Rounding up the root directory in `mkfs` leaves an unmapped block below `size` exactly when the directory already
  filled whole blocks (`Mkfs.RoundedRootIsMapped`, `Mount.MakeAndMount`). Reading such a range allocates: `readi`
  changes the file system if and only if a block of the range is unmapped and the disk is not full
  (`FsCode.FileSystem.Readi`). `fileread` calls it outside any operation, so the kernel then panics with "log_write
  outside of trans" unless some other operation happens to run (`FsCode.FileSystem.FileRead`). Inside an operation,
  as in a lookup, the bitmap is logged and the inode is not, since `readi` never calls `iupdate`: the image that gets
  committed has a block in use that nothing refers to, if and only if the pointer filled is one of the inode and no
  later call writes the inode back (`FsCalls.OneCall`, `FsCalls.SoundAfter`, `CrashFs.CrashSoundIff`). A root
  directory of 64 entries does both (`RootHole.ReadPanics`, `RootHole.LookupLeaks`).
- `enqueue` of the MLFQ simulator drops a pid when a queue reaches the end of its array, which starts over only when
  the queue becomes empty. `MlfqRun.Scheduler.Mlfq` has the exact condition on the input, and a queue overflows if and
  only if some process never finishes. One process always fits; two bursts of 414 ticks do not
  (`MlfqRun.TwoLongBursts`).
- The lottery simulator ends if and only if every process has a ticket and a positive burst
  (`Lottery.Simulation.Run`, `Lottery.Simulation.RunFor`).
- `wait` looks at the killed flag before `sleep` takes the process lock again. A kill in between is missed: the
  process sleeps with the flag set until a child exits (`ProcWait.KillIsMissedIff`, `ProcWait.AKillIsMissed`).
- One buffer that nobody references is enough for a commit, two are for recovery. With a single buffer a boot over a
  log that is not empty panics in `bget` (`LogCode.Log.Commit`, `LogCode.BootAndRecover`).
- The second rollback of `proc_pagetable` is never taken: the trapframe shares its table with the trampoline
  (`VmProc.TrapframeFits`).

## How it is modelled

- **Log and cache.** Block writes are atomic and happen one at a time; a crash may fall between any two. LOGSIZE,
  the log area, MAXOPBLOCKS and NBUF are parameters of `RedoLog.Geometry`. Blocks are sequences of words, and
  there is one device, ROOTDEV; a buffer of device 0 is an unused one. In the state machine the copy into a locked
  buffer and its write are one step, and process 0 runs recovery. In `LogCode` a failing `bget` (a kernel panic)
  makes the operation stop with a result; the disk is then whatever prefix of the plan was written.
- **Virtual memory.** Page-table entries are records; sizes are unbounded; panics that a caller must avoid
  (remap, unmapping an unmapped page) are preconditions. Freed pages disappear from `frames`; filling them with
  junk is not represented.
- **User heap.** Addresses count header-sized units, `base` is at 0, below the heap. The answer of `sbrk` is a
  parameter: nothing, or a region the heap does not have.
- **File system.** A block is 1024 bytes, and indirect blocks are read as little-endian words of those bytes. The
  bitmap is a sequence of bits, the inode table a sequence of inodes with the in-core and the on-disk copy apart.
  `logged` collects the block numbers passed to `log_write` since `begin_op`, and `stray` records a `log_write` with no
  operation running, which is a panic. A hole reads as zero, which is what
  `bmap` makes of it; so the contracts of `readi` and `writei` need no assumption on the image. The kernel-buffer
  copy path, which cannot fail part-way, is modelled.
- **Processes.** `wait_lock` and the process locks held across other locks are explicit; a short critical section
  under one process lock is one step that needs that lock to be free. `wakeup` and `reparent` go slot by slot.
- **Disk queue.** The device takes requests from the avail ring in order and completes each taken request once, in
  any order, with status 0. Ring indices are 16 bits wide; section 2.6 and section 5.2 of Virtio 1.1 are followed.
- **Shell.** A panic is a result. Words are positions in the line, as in the source. The grammar (`ShGrammar.IsLine`)
  is a predicate on how a line is put together, apart from the parser.
- **Crash of a file system.** `DiskWords` reads inodes, data and bitmap off the 32-bit words of a disk as `fs.h` lays
  them out. `CrashFs.Story` says what a run has to do with the file system: whenever no operation is running, the
  home blocks as the cache has them read as its disk part, a transaction is a sequence of `readi`, `writei` and
  `itrunc` calls, and after a boot the inodes are those on disk. What a call does is proved of the code
  (`FsCalls.Perform`).
- **Buffers.** A process asks for one buffer at a time; `Geometry.held` bounds how many it holds or waits for. In this
  kernel that is two: `bmap` and `itrunc` hold an indirect block over the bitmap, `write_log` and `install_trans` two
  blocks.
- **Simulators.** `rand()` is an arbitrary function of the time. The process list is given, with distinct pids for
  MLFQ.

## Model

| member | source | states |
|---|---|---|
| `CrashAtomicity.CommitIsAtomic` | System Call Enhancements in xv6 OS/kernel/log.c:178-203 | stopping commit() after any number of its block writes leaves a disk that boots to the old file system before the header write and to the new one from it on |
| `CrashAtomicity.CommitCompletes` | System Call Enhancements in xv6 OS/kernel/log.c:193-203 | an uninterrupted commit leaves the new contents in their home blocks and an empty log |
| `CrashAtomicity.RecoveryIsRestartable` | System Call Enhancements in xv6 OS/kernel/log.c:116-123 | recovery cut short after any write changes nothing the next boot will find |
| `CrashAtomicity.RecoveryCompletes` | System Call Enhancements in xv6 OS/kernel/log.c:68-123 | recovery that finishes puts exactly the logged values home and empties the log |
| `CrashAtomicity.CrashThenBoots` | System Call Enhancements in xv6 OS/kernel/log.c:68-203 | a commit cut anywhere, any number of recoveries cut anywhere and one that finishes end in exactly the old or the new file system, the new one if and only if the header write was done |
| `CrashAtomicity.RepeatedBoots` | System Call Enhancements in xv6 OS/kernel/log.c:116-123 | any sequence of interrupted boots and one finished boot end where a single boot would |
| `LogTheorems.InitHolds` | System Call Enhancements in xv6 OS/kernel/log.c:54-65 | a machine freshly powered on over a legal image satisfies the invariant |
| `LogTheorems.StepKeeps` | System Call Enhancements in xv6 OS/kernel/log.c:68-235 | every step of cache, operations, commit, crash and recovery keeps the invariant |
| `LogTheorems.RunKeeps` | System Call Enhancements in xv6 OS/kernel/log.c:68-235 | the invariant holds in every state of every run |
| `LogTheorems.ReachableInv` | System Call Enhancements in xv6 OS/kernel/log.c:68-235 | the invariant holds in every reachable state |
| `LogTheorems.CrashYieldsWholeOperations` | System Call Enhancements in xv6 OS/kernel/log.c:126-203 | at any moment of any interleaving, power loss and boot yield a prefix of the modification history that holds each operation wholly or not at all |
| `LogTheorems.CommitPointIsTheHeaderWrite` | System Call Enhancements in xv6 OS/kernel/log.c:99-114 | the durable file system moves at the non-empty header write, to everything written so far, and at no other step |
| `LogTheorems.CommitIsDurable` | System Call Enhancements in xv6 OS/kernel/log.c:193-203 | when the committing end_op is done, all modifications survive a crash |
| `LogTheorems.BreadReturnsLastWrite` | System Call Enhancements in xv6 OS/kernel/bio.c:58-103 | a held, valid buffer is the only one for its block and holds the last value written to it |
| `LogTheorems.PinnedIsNotRecycled` | System Call Enhancements in xv6 OS/kernel/bio.c:139-151 | a logged, uninstalled block is cached and bget cannot recycle its buffer |
| `LogTheorems.BgetFindsVictim` | System Call Enhancements in xv6 OS/kernel/bio.c:58-89 | bget finds the block or a buffer to recycle, and does not panic, while references and pins leave one buffer over |
| `LogTheorems.ReservationsFit` | System Call Enhancements in xv6 OS/kernel/log.c:126-142 | in every interleaving, lh.n plus unused reservations is at most LOGSIZE |
| `LogTheorems.NoLostWakeup` | System Call Enhancements in xv6 OS/kernel/log.c:126-175 | a process asleep in begin_op faces a running commit or too little space |
| `LogTheorems.LogWritePanicsIff` | System Call Enhancements in xv6 OS/kernel/log.c:214-235 | an operation within its budget makes log_write panic exactly when the log area is used up or the log is at LOGSIZE and the block is already in it |
| `LogOverflow.FullLogPanics` | System Call Enhancements in xv6 OS/kernel/log.c:126-142 | for every geometry in which two operations can run at once: if LOGSIZE less twice the slack of an operation reaches what the log takes, some run has log_write panic |
| `LogOverflow.FillUp` | System Call Enhancements in xv6 OS/kernel/log.c:126-142 | begin_op lets transactions grow to LOGSIZE less twice the slack of an operation, or to what the log takes |
| `LogOverflow.MkfsLogIsOneShort` | System Call Enhancements in xv6 OS/mkfs/mkfs.c:25 | at the numbers xv6 is built with, operations that each stay within what begin_op reserved make log_write panic |
| `LogOverflow.FullLogRefusesAbsorption` | System Call Enhancements in xv6 OS/kernel/log.c:220-228 | for every log whose area is longer than LOGSIZE: some run has log_write refuse a block that is already in the log, because fullness is tested before absorption |
| `LogSlack.SlackMeansNoPanic` | System Call Enhancements in xv6 OS/kernel/log.c:214-235 | in every run, operations that leave a block of their reservation unused never make log_write panic, when the log area holds one of them and LOGSIZE less twice that slack |
| `LogSlack.LogPanicsIff` | System Call Enhancements in xv6 OS/kernel/log.c:214-235 | for every geometry in which two operations can run at once, log_write panics in some run if and only if LOGSIZE less twice the slack of an operation is at least the smaller of LOGSIZE and the log blocks |
| `LogSlack.StockLogPanicsIff` | System Call Enhancements in xv6 OS/kernel/param.h:9-11 | with LOGSIZE 30, MAXOPBLOCKS 10 and 30 log blocks log_write panics in some run if and only if operations may log ten blocks |
| `LogSlack.RunPeak` | System Call Enhancements in xv6 OS/kernel/log.c:126-175 | in no run is the log longer than LOGSIZE less twice the slack of an operation |
| `LogStarve.StarvesIff` | System Call Enhancements in xv6 OS/kernel/bio.c:58-89 | bget panics for want of a buffer in some run if and only if the buffers processes hold or wait for at a time and the blocks the log pins can be more than NBUF |
| `LogStarve.EnoughBuffers` | System Call Enhancements in xv6 OS/kernel/bio.c:75-88 | with as many buffers, no run has bget panic |
| `LogStarve.TooFewBuffers` | System Call Enhancements in xv6 OS/kernel/bio.c:75-88 | with fewer, some run has |
| `LogStarve.StockStarvesIff` | System Call Enhancements in xv6 OS/kernel/param.h:1-13 | at the other numbers of xv6 that is exactly with fewer buffers than 128 plus the peak of the log, and NBUF is 30 |
| `LogStarve.RefsAreTakes` | System Call Enhancements in xv6 OS/kernel/bio.c:58-89 | references counted by buffer and by process are the same references |
| `LogStarve.RunModest` | System Call Enhancements in xv6 OS/kernel/bio.c:58-137 | in every run only processes have buffers, each within its bound |
| `LogSlack.RunSnug` | System Call Enhancements in xv6 OS/kernel/log.c:126-175 | in every run, with nobody running the log is empty, and with one operation left either the log is all its own or some slack is gone for good |
| `CrashQuiet.DurableIsGood` | System Call Enhancements in xv6 OS/kernel/log.c:145-203 | a property of the file system that each transaction keeps holds of what is durable in every state of every run |
| `CrashQuiet.CrashKeepsGood` | System Call Enhancements in xv6 OS/kernel/log.c:68-203 | and of what recovery yields after power is lost at any moment |
| `CrashQuiet.QuietAgain` | System Call Enhancements in xv6 OS/kernel/log.c:193-203 | the steps of commit, and recovery as a whole, keep every property of the home blocks as the cache shows them |
| `CrashFs.CrashSoundIff` | System Call Enhancements in xv6 OS/kernel/log.c:68-203 | in a run whose transactions are sequences of readi, writei and itrunc calls, recovery after a crash at any moment always yields one owner per block and a bitmap that agrees, if and only if every commit finds each inode in which a read has filled a pointer written back since |
| `CrashFs.CommitIff` | System Call Enhancements in xv6 OS/kernel/log.c:193-203 | a commit makes a sound image durable exactly if all inodes are written back then |
| `CrashFs.RunIsGood` | System Call Enhancements in xv6 OS/kernel/log.c:116-203 | as long as commits find that, every state of the run has the kernel invariant in memory and a sound image durable |
| `FsCalls.SoundIff` | System Call Enhancements in xv6 OS/kernel/fs.c:225-241 | the image on disk is sound exactly if no inode has a pointer in memory that is not on disk |
| `FsCalls.BehindAfter` | System Call Enhancements in xv6 OS/kernel/fs.c:471-539 | which inodes those are after a call: one more after a readi that fills a pointer, one less after a writei or itrunc |
| `FsCalls.OneCall` | System Call Enhancements in xv6 OS/kernel/fs.c:471-496 | an operation of one call leaves a sound image exactly if it is no readi that meets an empty direct or indirect pointer while a block is free |
| `FsCalls.SoundAfter` | System Call Enhancements in xv6 OS/kernel/fs.c:471-539 | and one of many calls exactly if every inode a readi has filled is written back by a later call |
| `FsCalls.Perform` | System Call Enhancements in xv6 OS/kernel/fs.c:425-539 | readi, writei and itrunc do to memory, disk and pointers what these results assume |
| `FsCalls.Operation` | System Call Enhancements in xv6 OS/kernel/file.c:157-167 | begin_op, any calls, end_op: the exact condition for a sound image, and no log_write outside a transaction |
| `FsCalls.BootedIsGood` | System Call Enhancements in xv6 OS/kernel/fs.c:41-47 | what a boot makes of a sound image has the invariant of the kernel |
| `DiskWords.ReadsHome` | System Call Enhancements in xv6 OS/kernel/fs.h:12-52 | inodes, data and bitmap as laid out on disk depend on blocks outside the log alone |
| `DiskWords.ReadBack` | System Call Enhancements in xv6 OS/kernel/fs.h:12-52 | every image whose numbers fit 32 bits is read back from the disk it is written to, bit by bit and byte by byte |
| `RootHole.WholeBlockRoot` | System Call Enhancements in xv6 OS/mkfs/mkfs.c:117-170 | mkfs with 64 directory entries makes a root directory of two blocks of which one is there |
| `RootHole.ReadPanics` | System Call Enhancements in xv6 OS/kernel/file.c:120-124 | reading its second block with no operation running has log_write panic |
| `RootHole.LookupLeaks` | System Call Enhancements in xv6 OS/kernel/fs.c:551-574 | looking up a missing name in it, inside an operation, leaves a block marked in use on disk that no inode on disk refers to |
| `RootHole.BehindTheHole` | System Call Enhancements in xv6 OS/kernel/fs.c:560-562 | from the read at the hole on, the inode in memory is ahead of the one on disk |
| `LruRing.Unlink` | System Call Enhancements in xv6 OS/kernel/bio.c:128-129 | taking a buffer out of the doubly linked ring leaves a ring of the others in the same order |
| `LruRing.PushFront` | System Call Enhancements in xv6 OS/kernel/bio.c:130-133 | putting a buffer behind the head gives a ring with it in front |
| `LruRing.Relink` | System Call Enhancements in xv6 OS/kernel/bio.c:126-134 | the relinking of brelse moves the buffer to the front and keeps the order of the rest |
| `BufferCache.NewRing` | System Call Enhancements in xv6 OS/kernel/bio.c:43-52 | binit builds a ring of all buffers in recency order |
| `BufferCache.LeastRecent` | System Call Enhancements in xv6 OS/kernel/bio.c:76-78 | the last unreferenced buffer of the ring is the one released longest ago |
| `BufferCache.Cache.constructor` | System Call Enhancements in xv6 OS/kernel/bio.c:36-53 | a fresh cache is consistent with its disk and holds no block of the device |
| `BufferCache.Cache.FindCached` | System Call Enhancements in xv6 OS/kernel/bio.c:65-73 | the forward scan finds the buffer of a block exactly if there is one |
| `BufferCache.Cache.FindVictim` | System Call Enhancements in xv6 OS/kernel/bio.c:75-88 | the backward scan finds the unreferenced buffer released longest ago, and fails only if every buffer is referenced |
| `BufferCache.Cache.Bget` | System Call Enhancements in xv6 OS/kernel/bio.c:58-89 | bget returns the one buffer of the block with one more reference, recycling the least recently used unreferenced buffer if it has to; what is forgotten is exactly what the recycled buffer had beyond the disk |
| `BufferCache.Cache.Bread` | System Call Enhancements in xv6 OS/kernel/bio.c:92-103 | bread returns the current value of the block, read from disk only when it is not cached; it fails exactly if no reference to the block is out and as many blocks are referenced as there are buffers |
| `BufferCache.BusyIs` | System Call Enhancements in xv6 OS/kernel/bio.c:75-88 | the referenced blocks and the unreferenced buffers make up all buffers, so bget fails exactly if every buffer is referenced |
| `BufferCache.GetsIs` | System Call Enhancements in xv6 OS/kernel/bio.c:58-89 | bread of a block gets a buffer exactly if that block is referenced or some buffer is not |
| `BufferCache.Cache.Fill` | System Call Enhancements in xv6 OS/kernel/log.c:76-76 | changing a held buffer changes the current value of its block and nothing else |
| `BufferCache.Cache.Bwrite` | System Call Enhancements in xv6 OS/kernel/bio.c:106-112 | bwrite is one block write of the buffer contents |
| `BufferCache.Cache.Brelse` | System Call Enhancements in xv6 OS/kernel/bio.c:116-137 | brelse drops a reference, whatever the buffer holds; the last one makes the buffer the most recently used |
| `BufferCache.Cache.MoveToFront` | System Call Enhancements in xv6 OS/kernel/bio.c:128-133 | the pointer updates of brelse keep the ring linked and in recency order |
| `BufferCache.Cache.Bpin` | System Call Enhancements in xv6 OS/kernel/bio.c:139-144 | bpin adds a reference to the buffer of that block alone |
| `BufferCache.Cache.Bunpin` | System Call Enhancements in xv6 OS/kernel/bio.c:146-151 | bunpin takes a reference back from any referenced buffer |
| `LogCode.PackHead` | System Call Enhancements in xv6 OS/kernel/log.c:103-114 | write_head encodes n and the block numbers into the header block |
| `LogCode.UnpackHead` | System Call Enhancements in xv6 OS/kernel/log.c:87-97 | read_head decodes what write_head encoded |
| `LogCode.Log.CopyOut` | System Call Enhancements in xv6 OS/kernel/log.c:183-190 | one turn of write_log issues the next planned write, the cached home block into its log block, and fails exactly if the cache has no buffer for one of the two |
| `LogCode.Log.CopyHome` | System Call Enhancements in xv6 OS/kernel/log.c:73-82 | one turn of install_trans issues the next planned write and drops the pin outside recovery; the references are exact, and so is when it fails |
| `LogCode.Log.WriteHead` | System Call Enhancements in xv6 OS/kernel/log.c:102-114 | write_head issues the header write of the plan, exactly if the header gets a buffer |
| `LogCode.Log.WriteLog` | System Call Enhancements in xv6 OS/kernel/log.c:178-191 | write_log issues the first lh.n planned writes in order, all of them exactly if every log block gets a buffer |
| `LogCode.Log.InstallTrans` | System Call Enhancements in xv6 OS/kernel/log.c:68-83 | install_trans issues the next lh.n planned writes and leaves no pin; it completes exactly if every log block gets a buffer, and in recovery every home block with it |
| `LogCode.Log.Commit` | System Call Enhancements in xv6 OS/kernel/log.c:193-203 | the disk writes of commit over the cache are a prefix of the commit plan, so every moment boots to old or new; commit completes if and only if the log is empty or header and log blocks each get a buffer, one unreferenced buffer is always enough, and then the new file system is in place |
| `LogCode.Log.LogTransaction` | System Call Enhancements in xv6 OS/kernel/log.c:197-198 | log blocks first, then the header that commits them |
| `LogCode.Log.EraseTransaction` | System Call Enhancements in xv6 OS/kernel/log.c:199-201 | home blocks, then the emptied header |
| `LogCode.Log.ClearLog` | System Call Enhancements in xv6 OS/kernel/log.c:121-122 | lh.n = 0 and write_head end both commit and recovery |
| `LogCode.Log.LogWrite` | System Call Enhancements in xv6 OS/kernel/log.c:214-235 | log_write refuses exactly when the log is full or no operation is running; otherwise it absorbs a logged block or appends it once and pins its buffer |
| `LogCode.Log.ReadHead` | System Call Enhancements in xv6 OS/kernel/log.c:86-97 | read_head gives the header on disk, exactly if it gets a buffer |
| `LogCode.Log.ReplayLog` | System Call Enhancements in xv6 OS/kernel/log.c:116-123 | install_trans(1) and the emptied header, as planned, completed exactly if every block of the log with its home block and the header get buffers |
| `LogCode.Log.Recover` | System Call Enhancements in xv6 OS/kernel/log.c:116-123 | at every moment of recovery the next boot finds the same file system; recovery completes if and only if every log block with its home block and the header get buffers, two unreferenced buffers are always enough, and then that file system is in place and the log is empty |
| `LogCode.BootAndRecover` | System Call Enhancements in xv6 OS/kernel/log.c:54-65 | on the fresh cache of binit recovery completes if and only if there are two buffers, or one and an empty log |
| `LogCode.OneIsEnough` | System Call Enhancements in xv6 OS/kernel/bio.c:75-88 | one unreferenced buffer is enough for log blocks and header one after the other |
| `LogCode.TwoAreEnough` | System Call Enhancements in xv6 OS/kernel/bio.c:75-88 | two are enough for each log block together with its home block |
| `PageTable.PxOfAddress` | System Call Enhancements in xv6 OS/kernel/riscv.h:373-376 | the three page-table indices as the PX macro computes them from an address |
| `PageTable.PxInjective` | System Call Enhancements in xv6 OS/kernel/riscv.h:373-376 | the three indices determine the page below MAXVA |
| `PageTable.LookupIsEntry` | System Call Enhancements in xv6 OS/kernel/vm.c:68-84 | in a well-formed tree the hardware walk finds exactly the entry of the level-0 table at the place of the page |
| `PageTable.SetLeafView` | System Call Enhancements in xv6 OS/kernel/vm.c:143-172 | writing a leaf or an invalid entry inserts or removes exactly one page of the page map |
| `PageTable.HangView` | System Call Enhancements in xv6 OS/kernel/vm.c:94-99 | a fresh empty table maps nothing new |
| `PageTable.TreeFrame` | System Call Enhancements in xv6 OS/kernel/vm.c:85-103 | a tree and its page map depend on its own table pages alone |
| `PageTable.MappedEntry` | System Call Enhancements in xv6 OS/kernel/vm.c:177-199 | a page is mapped exactly if its level-0 entry is valid, and that entry is a leaf |
| `VmCode.Memory.Kalloc` | System Call Enhancements in xv6 OS/kernel/kalloc.c:68-82 | kalloc takes the first page of the free list, which nobody uses |
| `VmCode.Memory.Kfree` | System Call Enhancements in xv6 OS/kernel/kalloc.c:46-63 | kfree puts a page back in front |
| `VmCode.Memory.constructor` | System Call Enhancements in xv6 OS/kernel/kalloc.c:26-40 | kinit puts exactly the whole pages between the end of the kernel and PHYSTOP on the free list, each once |
| `VmCode.Memory.Walk` | System Call Enhancements in xv6 OS/kernel/vm.c:85-103 | walk returns the level-0 table of the page; adding tables or failing half-way changes no translation; with alloc it succeeds if and only if there are as many free pages as tables missing on the way, and takes exactly those |
| `VmCode.Memory.WalkStep` | System Call Enhancements in xv6 OS/kernel/vm.c:90-101 | one turn of its loop goes one table further, adding it exactly if it is missing; it fails exactly if no page is free then |
| `VmCode.Memory.AddTable` | System Call Enhancements in xv6 OS/kernel/vm.c:94-99 | the allocating branch of walk keeps the tree well formed and the page map as it was |
| `VmCode.Memory.MapPages` | System Call Enhancements in xv6 OS/kernel/vm.c:143-172 | mappages inserts n pages into the page map, or on failure the first k; no other translation changes, every page taken is a table, and it succeeds if and only if there are as many free pages as tables missing for the n pages |
| `VmCode.Memory.MapOne` | System Call Enhancements in xv6 OS/kernel/vm.c:159-170 | one turn of mappages inserts one page, exactly if there are as many free pages as tables missing on the way |
| `VmCode.TwoEach` | System Call Enhancements in xv6 OS/kernel/vm.c:85-103 | two tables a page are always enough |
| `VmCode.Memory.UnmapPages` | System Call Enhancements in xv6 OS/kernel/vm.c:177-199 | uvmunmap removes exactly n pages from the page map and returns exactly their physical pages if asked to |
| `VmCode.Memory.UnmapOne` | System Call Enhancements in xv6 OS/kernel/vm.c:186-198 | one turn of uvmunmap removes one page |
| `VmGrow.AddPage` | System Call Enhancements in xv6 OS/kernel/vm.c:240-253 | one page of uvmalloc or uvmcopy succeeds if and only if there is a free page besides the tables missing for it; on failure the page goes back |
| `VmGrow.UvmAlloc` | System Call Enhancements in xv6 OS/kernel/vm.c:232-256 | uvmalloc adds zeroed pages on frames of their own if and only if there are free pages for them and for the tables missing; on failure the translation is as before and every data page is back |
| `VmGrow.UvmDealloc` | System Call Enhancements in xv6 OS/kernel/vm.c:262-274 | uvmdealloc unmaps and returns exactly the pages above the new size |
| `VmGrow.UvmUndo` | System Call Enhancements in xv6 OS/kernel/vm.c:337-339 | undoing the first k pages restores the page map and the data pages |
| `VmGrow.ReadPage` | System Call Enhancements in xv6 OS/kernel/vm.c:320-326 | walk without alloc finds the parent page and its flags and changes nothing |
| `VmGrow.UvmCopy` | System Call Enhancements in xv6 OS/kernel/vm.c:312-340 | uvmcopy gives the child copies of the parent pages with the same flags if and only if there are free pages for them and for the tables missing in the child, three a page being always enough; the parent is untouched, and failure leaves no trace but empty tables |
| `VmFree.FreeWalk` | System Call Enhancements in xv6 OS/kernel/vm.c:278-294 | freewalk meets no leaf and returns every table page at and below its argument once |
| `VmFree.EmptyMeansNoLeaves` | System Call Enhancements in xv6 OS/kernel/vm.c:298-304 | once the page map is empty no table holds a leaf |
| `VmFree.UvmFree` | System Call Enhancements in xv6 OS/kernel/vm.c:298-304 | uvmfree returns every data page and table page of an address space once, and no other |
| `VmFree.ProcFreePagetable` | System Call Enhancements in xv6 OS/kernel/proc.c:210-216 | freeing a table that maps [0, PGROUNDUP(sz)), trapframe and trampoline hits no panic and returns every data and table page once, and no other |
| `VmProc.UvmCreate` | System Call Enhancements in xv6 OS/kernel/vm.c:203-212 | uvmcreate gives an empty page map on one page, or nothing exactly if no page is free |
| `VmProc.ProcPagetable` | System Call Enhancements in xv6 OS/kernel/proc.c:176-206 | proc_pagetable maps exactly trampoline and trapframe; it fails exactly with fewer than three free pages, and then, by either rollback, every page is back |
| `VmProc.TrapframeFits` | System Call Enhancements in xv6 OS/kernel/proc.c:198-203 | once the trampoline is mapped the table for the trapframe is there, so the second rollback is never taken |
| `VmProc.ThreeTables` | System Call Enhancements in xv6 OS/kernel/proc.c:190-194 | a page table that maps anything took three pages at least |
| `VmProc.FreshCost` | System Call Enhancements in xv6 OS/kernel/vm.c:85-103 | under a root alone a page needs two tables |
| `VmProc.GrownIsProcMap` | System Call Enhancements in xv6 OS/kernel/vm.c:232-256 | growth leaves the page map of a process, as proc_freepagetable needs it |
| `VmProc.ShrunkIsProcMap` | System Call Enhancements in xv6 OS/kernel/vm.c:262-274 | and so does shrinking |
| `FreeList.FreedCanonical` | System Call Enhancements in xv6 OS/user/umalloc.c:24-44 | free keeps the list in ascending order with no two blocks touching |
| `FreeList.FreedCovers` | System Call Enhancements in xv6 OS/user/umalloc.c:33-42 | free adds exactly the units of the block, whichever neighbours it merges with |
| `FreeList.TakenCanonical` | System Call Enhancements in xv6 OS/user/umalloc.c:75-82 | malloc keeps the list canonical |
| `FreeList.TakenCovers` | System Call Enhancements in xv6 OS/user/umalloc.c:75-82 | malloc moves exactly the units it hands out |
| `Umalloc.FreedLinked` | System Call Enhancements in xv6 OS/user/umalloc.c:33-42 | the header fields free writes spell out the merged list |
| `Umalloc.FreedPartition` | System Call Enhancements in xv6 OS/user/umalloc.c:24-44 | free moves the units of the block from in use to free |
| `Umalloc.FreedHeap` | System Call Enhancements in xv6 OS/user/umalloc.c:24-44 | free keeps the whole heap invariant |
| `Umalloc.TakenLinked` | System Call Enhancements in xv6 OS/user/umalloc.c:75-82 | the header fields malloc writes spell out the shortened list |
| `Umalloc.TakenHeap` | System Call Enhancements in xv6 OS/user/umalloc.c:75-86 | malloc keeps the whole heap invariant |
| `Umalloc.GrantedHeap` | System Call Enhancements in xv6 OS/user/umalloc.c:54-58 | a fresh region joins the heap as a block in use |
| `Umalloc.StopTest` | System Call Enhancements in xv6 OS/user/umalloc.c:30-32 | the stopping test of free holds exactly at the place of the block, the wrap-around included |
| `Umalloc.NotAskedTwice` | System Call Enhancements in xv6 OS/user/umalloc.c:86-88 | after morecore the search succeeds before it is back at freep |
| `Umalloc.PayloadIsApart` | System Call Enhancements in xv6 OS/user/umalloc.c:84-84 | no header the allocator reads lies in the payload of a block in use |
| `Umalloc.Heap.constructor` | System Call Enhancements in xv6 OS/user/umalloc.c:21-22 | the allocator starts with nothing in use |
| `Umalloc.Heap.FindPlace` | System Call Enhancements in xv6 OS/user/umalloc.c:30-32 | the search loop of free ends at the place of the block |
| `Umalloc.Heap.Free` | System Call Enhancements in xv6 OS/user/umalloc.c:24-44 | free puts the block in its place, merges neighbours, keeps the heap invariant and changes nothing else |
| `Umalloc.Heap.Relink` | System Call Enhancements in xv6 OS/user/umalloc.c:33-42 | the stores of free, one by one, are the two adjacency merges |
| `Umalloc.Heap.Morecore` | System Call Enhancements in xv6 OS/user/umalloc.c:46-61 | morecore adds what sbrk gave as a free block, or changes nothing |
| `Umalloc.Heap.FirstAfterFreep` | System Call Enhancements in xv6 OS/user/umalloc.c:74-74 | the search of malloc starts behind freep |
| `Umalloc.Heap.NextBlock` | System Call Enhancements in xv6 OS/user/umalloc.c:74-74 | and goes round the ring |
| `Umalloc.Heap.Search` | System Call Enhancements in xv6 OS/user/umalloc.c:74-89 | the search ends at the first large enough block after freep; sbrk is asked at most once, exactly if no free block is large enough |
| `Umalloc.Heap.Carve` | System Call Enhancements in xv6 OS/user/umalloc.c:75-84 | a fitting block is unlinked or its tail is cut off, and freep is the block before it |
| `Umalloc.Heap.Malloc` | System Call Enhancements in xv6 OS/user/umalloc.c:63-90 | malloc returns a block disjoint from all in use, of as many units as the bytes and a header need, from the next fit, and leaves freep at the block before it; or null exactly if nothing fits and sbrk refuses; sbrk is asked for 4096 units at least |
| `Umalloc.Heap.UserStore` | System Call Enhancements in xv6 OS/user/umalloc.c:84-84 | a program writing its own payload cannot disturb the heap invariant |
| `HeapUnits.UnitsAreConserved` | System Call Enhancements in xv6 OS/user/umalloc.c:24-90 | free units plus units in use equal the units obtained from sbrk |
| `FsLayout.EntryAfterSet` | System Call Enhancements in xv6 OS/kernel/fs.c:407-413 | writing one entry of an indirect block changes that entry alone |
| `FsLayout.BitMeansOneReference` | System Call Enhancements in xv6 OS/kernel/fs.c:65-105 | a bitmap bit above the metadata is set if and only if exactly one slot of one inode refers to the block |
| `FsLayout.OwnedAdd` | System Call Enhancements in xv6 OS/kernel/fs.c:382-421 | a free block put into an empty slot keeps every block at one owner |
| `FsLayout.AddPointer` | System Call Enhancements in xv6 OS/kernel/fs.c:388-406 | filling a direct or the indirect pointer with a zeroed block changes that slot alone |
| `FsLayout.AddEntry` | System Call Enhancements in xv6 OS/kernel/fs.c:407-415 | filling an entry of the indirect block changes that slot alone |
| `FsLayout.AddPointerBytes` | System Call Enhancements in xv6 OS/kernel/fs.c:388-406 | and no byte of any file |
| `FsLayout.AddEntryBytes` | System Call Enhancements in xv6 OS/kernel/fs.c:407-415 | and no byte of any file |
| `FsLayout.WriteData` | System Call Enhancements in xv6 OS/kernel/fs.c:516-528 | writing file data moves no slot of any inode |
| `FsLayout.WriteBytes` | System Call Enhancements in xv6 OS/kernel/fs.c:516-528 | writing into a block of a file changes exactly those bytes of that file |
| `FsCode.FileSystem.Balloc` | System Call Enhancements in xv6 OS/kernel/fs.c:65-88 | balloc marks and zeroes the lowest free block and logs the bitmap block and the block; 0 only when no block is free |
| `FsCode.FileSystem.constructor` | System Call Enhancements in xv6 OS/kernel/fs.c:41-47 | a file system read from a valid image, with no operation running, is valid |
| `FsCode.FileSystem.FillPointer` | System Call Enhancements in xv6 OS/kernel/fs.c:388-406 | balloc for a pointer kept in the inode keeps the ownership invariant |
| `FsCode.FileSystem.FillEntry` | System Call Enhancements in xv6 OS/kernel/fs.c:407-415 | balloc for an indirect entry keeps the ownership invariant |
| `FsCode.FileSystem.Bmap` | System Call Enhancements in xv6 OS/kernel/fs.c:382-421 | bmap returns the block of the file, allocating at most it and the indirect block, and exactly the unmapped ones; ownership is kept, no byte of any file changes; 0 exactly if the block is unmapped and the free blocks do not suffice |
| `FsCode.FileSystem.BmapDirect` | System Call Enhancements in xv6 OS/kernel/fs.c:388-396 | the direct half of bmap, with the exact condition for 0 |
| `FsCode.FileSystem.BmapIndirect` | System Call Enhancements in xv6 OS/kernel/fs.c:399-418 | the indirect half of bmap, with the exact condition for 0, which one free block and a missing indirect block also meet |
| `FsSteps.OneLeftIs` | System Call Enhancements in xv6 OS/kernel/fs.c:399-418 | taking the only free block for the indirect block leaves none for the entry |
| `FsCode.FileSystem.Readi` | System Call Enhancements in xv6 OS/kernel/fs.c:471-496 | readi returns exactly content[off..off+len]: up to the end of the file or n bytes where the blocks are mapped, otherwise up to the first block that cannot be had on a full disk; nothing exactly if n is 0, off is at or past the end, off + n overflows or the first block cannot be had. It changes inodes, blocks, bitmap or log if and only if some block of the range is unmapped and the disk is not full, and then log_write panics if and only if no operation is running; it fills a pointer of the inode if and only if one of the range is empty and the disk is not full |
| `FsCode.FileSystem.ReadBlock` | System Call Enhancements in xv6 OS/kernel/fs.c:483-486 | one turn of readi, with the same exact account of what bmap allocates |
| `FsCode.FileSystem.FileRead` | System Call Enhancements in xv6 OS/kernel/file.c:120-124 | fileread calls readi outside any operation: with no operation running log_write panics if and only if the range has an unmapped block and the disk is not full; a file without holes is read to its end or for n bytes |
| `FsCode.FileSystem.WriteChunk` | System Call Enhancements in xv6 OS/kernel/fs.c:516-528 | one turn of writei writes the bytes that go into one block; it stops only at an unmapped block of a full disk |
| `FsCode.FileSystem.Writei` | System Call Enhancements in xv6 OS/kernel/fs.c:505-539 | writei answers -1 if and only if off is past the end of the file or the range past 268 KB; otherwise it makes the content old[..off] + data[..tot] + old tail, short only if the disk is full and the next block unmapped, leaves all other files alone, keeps blocks below size mapped, and logs no more than the blocks it spans, the indirect, bitmap and inode blocks |
| `FsCode.FileSystem.Itrunc` | System Call Enhancements in xv6 OS/kernel/fs.c:425-453 | itrunc frees every block of the file once, never a free one, and leaves all other files alone |
| `FsCode.FileSystem.FreeDirect` | System Call Enhancements in xv6 OS/kernel/fs.c:432-437 | each direct block of the file is freed once |
| `FsCode.FileSystem.FreeIndirect` | System Call Enhancements in xv6 OS/kernel/fs.c:439-449 | each block of the indirect table is freed once, and the table |
| `FsCode.FileSystem.FileWrite` | System Call Enhancements in xv6 OS/kernel/file.c:148-175 | filewrite writes the data chunk by chunk, each inside its own operation, and answers -1 for a bad range and otherwise only on a full disk; every chunk logs at most seven distinct blocks when the bitmap is one block, and inodes in memory and on disk agree after it as before |
| `FsSteps.OpIsSmall` | System Call Enhancements in xv6 OS/kernel/file.c:149-160 | a chunk of at most three blocks at any offset logs at most seven distinct blocks |
| `FsSteps.MappedEverywhere` | System Call Enhancements in xv6 OS/kernel/fs.c:471-496 | a file without holes has no unmapped block in any range readi reads |
| `FsSteps.FollowedUp` | System Call Enhancements in xv6 OS/kernel/fs.c:482-487 | one turn of readi fills a pointer of the inode exactly if it is the first empty one of the range and a block was free |
| `FsSteps.OverwriteTwice` | System Call Enhancements in xv6 OS/kernel/file.c:157-173 | two consecutive chunks written one after the other are one write |
| `FsSteps.Truncated` | System Call Enhancements in xv6 OS/kernel/fs.c:425-453 | after itrunc the remaining blocks have their owners and the bitmap agrees |
| `Mkfs.FreshImage` | System Call Enhancements in xv6 OS/mkfs/mkfs.c:108-111 | the zeroed image satisfies the image invariant |
| `Mkfs.Image.constructor` | System Call Enhancements in xv6 OS/mkfs/mkfs.c:108-118 | mkfs starts from an image with no owned block |
| `Mkfs.Image.TakePointer` | System Call Enhancements in xv6 OS/mkfs/mkfs.c:270-279 | taking freeblock for a pointer keeps ownership |
| `Mkfs.Image.TakeEntry` | System Call Enhancements in xv6 OS/mkfs/mkfs.c:279-283 | taking freeblock for an indirect entry keeps ownership |
| `Mkfs.Image.FileBlock` | System Call Enhancements in xv6 OS/mkfs/mkfs.c:268-285 | the block of a file block, taken from freeblock if need be |
| `Mkfs.Image.TableBlock` | System Call Enhancements in xv6 OS/mkfs/mkfs.c:276-278 | the indirect block, taken from freeblock exactly if there is none |
| `Mkfs.MissingIs` | System Call Enhancements in xv6 OS/mkfs/mkfs.c:268-285 | the blocks taken for the next bytes are what the file size adds to the need of the file |
| `Mkfs.Image.DirectBlock` | System Call Enhancements in xv6 OS/mkfs/mkfs.c:270-274 | the direct half of that lookup |
| `Mkfs.Image.IndirectBlock` | System Call Enhancements in xv6 OS/mkfs/mkfs.c:275-284 | the indirect half |
| `Mkfs.Image.AppendChunk` | System Call Enhancements in xv6 OS/mkfs/mkfs.c:267-293 | one turn of the loop of iappend |
| `Mkfs.Image.Iappend` | System Call Enhancements in xv6 OS/mkfs/mkfs.c:254-296 | iappend appends the bytes to the file, leaves other files alone and maps exactly the blocks below each size; freeblock is nmeta and the blocks all sizes need, and mkfs dies exactly if the file gets too large or these do not fit |
| `Mkfs.Image.Balloc` | System Call Enhancements in xv6 OS/mkfs/mkfs.c:236-250 | balloc dies unless freeblock < BPB; else the bitmap has a bit set exactly for metadata and owned blocks |
| `Mkfs.ImageIsValid` | System Call Enhancements in xv6 OS/mkfs/mkfs.c:236-250 | an image with its bitmap satisfies the invariant the kernel keeps |
| `Mkfs.RoundedRootIsMapped` | System Call Enhancements in xv6 OS/mkfs/mkfs.c:165-170 | rounding up the root directory keeps all blocks below size mapped if and only if its size was not already whole blocks |
| `Mkfs.Image.FixRoot` | System Call Enhancements in xv6 OS/mkfs/mkfs.c:165-170 | rounding up the root directory keeps the image valid if and only if the directory was not at the maximal file size, keeps its content as a prefix and leaves other files alone |
| `Mount.Populate` | System Call Enhancements in xv6 OS/mkfs/mkfs.c:117-163 | any sequence of iappend calls goes through exactly if everything fits, and leaves each file with what was appended to it |
| `Mount.NextFits` | System Call Enhancements in xv6 OS/mkfs/mkfs.c:254-296 | the next append goes through exactly if what there is then fits |
| `Mount.Fsinit` | System Call Enhancements in xv6 OS/kernel/fs.c:41-47 | the kernel starts on the inodes, blocks and bitmap of the image, in a valid state |
| `Mount.MakeAndMount` | System Call Enhancements in xv6 OS/mkfs/mkfs.c:93-175 | mkfs followed by fsinit gives a file system exactly if no file gets too large, all blocks fit the image and one bitmap block, and the root directory stays below the limit; it is valid, sound on disk, holds what was appended, and has no hole but the one of a root directory of whole blocks |
| `Mount.MountedIsSound` | System Call Enhancements in xv6 OS/kernel/fs.c:41-47 | a mounted image is sound on disk, with nothing in memory ahead of it |
| `ProcTheorems.InitHolds` | System Call Enhancements in xv6 OS/kernel/proc.c:231-255 | the table after userinit satisfies the invariant |
| `ProcTheorems.StepKeeps` | System Call Enhancements in xv6 OS/kernel/proc.c:279-451 | every step of fork, exit, wait, sleep, wakeup, kill and the scheduler keeps the invariant |
| `ProcTheorems.RunKeeps` | System Call Enhancements in xv6 OS/kernel/proc.c:279-608 | the invariant holds in every state of every run |
| `ProcTheorems.ReachableInv` | System Call Enhancements in xv6 OS/kernel/proc.c:279-608 | the invariant holds in every reachable state |
| `ProcTheorems.NobodySleepsOverAZombie` | System Call Enhancements in xv6 OS/kernel/proc.c:346-451 | whenever wait_lock is free, no process asleep in wait has a ZOMBIE child |
| `ProcTheorems.ParentsAreAlive` | System Call Enhancements in xv6 OS/kernel/proc.c:346-402 | every recorded parent is neither ZOMBIE nor UNUSED |
| `ProcTheorems.EachExitIsReturnedOnce` | System Call Enhancements in xv6 OS/kernel/proc.c:406-451 | no pid is returned by two waits, and the status is the one given to exit |
| `ProcTheorems.ReapedIsOffItsStack` | System Call Enhancements in xv6 OS/kernel/proc.c:419-437 | wait frees a child only when it no longer runs and nobody has it as parent |
| `ProcTheorems.InitLives` | System Call Enhancements in xv6 OS/kernel/proc.c:367-368 | init never exits and has no parent |
| `ProcWait.KidsKeeps` | System Call Enhancements in xv6 OS/kernel/proc.c:416-441 | every step keeps that havekids says whether wait has met a child, and that nobody without a child goes to sleep in wait |
| `ProcWait.RunKids` | System Call Enhancements in xv6 OS/kernel/proc.c:406-455 | so it does in every state of every run |
| `ProcWait.WaitEnds` | System Call Enhancements in xv6 OS/kernel/proc.c:416-454 | the scan of wait ends in one of four ways: it collects a zombie child and returns its pid and status; it finds one whose status cannot be copied out; it answers -1, for a process without children or a killed one, with no zombie child; or it goes to sleep, for a process that is not killed and has children, none of them a zombie |
| `ProcWait.ScanGoesOn` | System Call Enhancements in xv6 OS/kernel/proc.c:418-440 | in the middle of the scan wait collects or passes a slot by whether it is a zombie child |
| `ProcWait.ScanDecides` | System Call Enhancements in xv6 OS/kernel/proc.c:443-451 | at the end of it wait can answer -1 if and only if the process is killed or no slot has it as parent, and can go to sleep if and only if neither holds |
| `ProcWait.SleepersHaveChildren` | System Call Enhancements in xv6 OS/kernel/proc.c:443-451 | nobody sleeps in wait without a child |
| `ProcWait.ParentStays` | System Call Enhancements in xv6 OS/kernel/proc.c:306-355 | a parent is written only under wait_lock: from nobody, or by the process that was the parent |
| `ProcWait.ParentsMove` | System Call Enhancements in xv6 OS/kernel/proc.c:346-355 | as long as a slot stays in use its process has the parent it had or init |
| `ProcWait.OrphansGoToInit` | System Call Enhancements in xv6 OS/kernel/proc.c:346-355 | a child has its first parent while that one lives, and init from the moment it is gone |
| `ProcWait.WaitReturnsTheStatus` | System Call Enhancements in xv6 OS/kernel/proc.c:363-437 | in every run, what wait returns for a pid is the status that process called exit with |
| `ProcWait.KillWakes` | System Call Enhancements in xv6 OS/kernel/proc.c:613-632 | kill sets the flag, makes a sleeper ready to run, and changes nothing else |
| `ProcWait.KillIsMissedIff` | System Call Enhancements in xv6 OS/kernel/proc.c:443-451 | a process comes to sleep in wait with the killed flag set if and only if the kill falls between the look at the flag and the p->lock of sleep |
| `ProcWait.AKillIsMissed` | System Call Enhancements in xv6 OS/kernel/proc.c:443-451 | a run in which that happens |
| `VirtQueue.ChainsAreDisjoint` | System Call Enhancements in xv6 OS/kernel/virtio_disk.c:155-213 | chains in flight are disjoint triples of descriptors that are not free |
| `VirtQueue.AddChain` | System Call Enhancements in xv6 OS/kernel/virtio_disk.c:226-265 | a request takes three free descriptors and leaves the other chains as they are |
| `VirtQueue.DropChain` | System Call Enhancements in xv6 OS/kernel/virtio_disk.c:184-197 | giving a chain back frees its three descriptors and leaves the other chains as they are |
| `VirtQueue.RingWrite` | System Call Enhancements in xv6 OS/kernel/virtio_disk.c:271-277 | writing the next ring entry overwrites none that is waiting, 16-bit wrap-around included |
| `VirtQueue.RingRead` | System Call Enhancements in xv6 OS/kernel/virtio_disk.c:312-324 | the next entry read is the oldest waiting one |
| `VirtQueue.RingIndex` | System Call Enhancements in xv6 OS/kernel/virtio_disk.c:312-312 | the 16-bit indices are equal exactly if nothing is waiting |
| `VirtQueue.QueuesAreShort` | System Call Enhancements in xv6 OS/kernel/virtio_disk.c:228-233 | no ring ever holds more than two waiting entries |
| `VirtioDisk.Disk.constructor` | System Call Enhancements in xv6 OS/kernel/virtio_disk.c:144-146 | all descriptors start free |
| `VirtioDisk.Disk.AllocDesc` | System Call Enhancements in xv6 OS/kernel/virtio_disk.c:155-166 | alloc_desc takes the lowest free descriptor |
| `VirtioDisk.Disk.Alloc3` | System Call Enhancements in xv6 OS/kernel/virtio_disk.c:199-213 | alloc3_desc takes three distinct free descriptors, or none exactly if fewer than three are free |
| `VirtioDisk.Disk.Format` | System Call Enhancements in xv6 OS/kernel/virtio_disk.c:235-265 | the descriptors spell out the request: header, data with the right direction, status |
| `VirtioDisk.Disk.Record` | System Call Enhancements in xv6 OS/kernel/virtio_disk.c:261-269 | the buffer is recorded and marked as owned by the disk |
| `VirtioDisk.Disk.Publish` | System Call Enhancements in xv6 OS/kernel/virtio_disk.c:271-277 | the request joins the avail ring |
| `VirtioDisk.Disk.Start` | System Call Enhancements in xv6 OS/kernel/virtio_disk.c:235-281 | from the three descriptors to the notification |
| `VirtioDisk.Disk.Submit` | System Call Enhancements in xv6 OS/kernel/virtio_disk.c:215-281 | a request is published for a buffer not in flight, exactly if three descriptors are free; free descriptors number NUM - 3 * live chains; its sector is 2 * blockno, modulo 2^32 |
| `VirtioDisk.Disk.DeviceTake` | System Call Enhancements in xv6 OS/kernel/virtio_disk.c:271-281 | the device reads off the descriptors exactly the request that was published, oldest first: 16 bytes of header, 1024 of data in the right direction, one status byte |
| `VirtioDisk.Disk.ReadChain` | System Call Enhancements in xv6 OS/kernel/virtio_disk.c:244-263 | following the chain gives exactly those three |
| `VirtioDisk.Disk.DeviceComplete` | System Call Enhancements in xv6 OS/kernel/virtio_disk.c:309-310 | a taken request enters the used ring once |
| `VirtioDisk.Disk.IntrOne` | System Call Enhancements in xv6 OS/kernel/virtio_disk.c:312-324 | one turn of virtio_disk_intr, without its status panic |
| `VirtioDisk.Disk.Intr` | System Call Enhancements in xv6 OS/kernel/virtio_disk.c:294-327 | virtio_disk_intr clears b->disk for exactly the completed requests |
| `VirtioDisk.Disk.FreeChain` | System Call Enhancements in xv6 OS/kernel/virtio_disk.c:184-197 | free_chain terminates and frees the three descriptors of the chain |
| `VirtioDisk.Disk.Forget` | System Call Enhancements in xv6 OS/kernel/virtio_disk.c:288-288 | the record of the buffer is cleared |
| `VirtioDisk.Disk.Finish` | System Call Enhancements in xv6 OS/kernel/virtio_disk.c:283-291 | once b->disk is 0 the three descriptors of the request are given back |
| `ShLexer.GetToken` | System Call Enhancements in xv6 OS/user/sh.c:266-309 | a token lies inside the line, is empty only at its end, and a word is a maximal run of word characters |
| `ShLexer.GetTokenCode` | System Call Enhancements in xv6 OS/user/sh.c:266-309 | gettoken computes that token |
| `ShLexer.PeekCode` | System Call Enhancements in xv6 OS/user/sh.c:311-321 | peek skips white space and looks at one character |
| `ShParser.ParseRedirsCode` | System Call Enhancements in xv6 OS/user/sh.c:375-398 | parseredirs wraps redirections in order, or panics without a file |
| `ShParser.Refill` | System Call Enhancements in xv6 OS/user/sh.c:437-438 | an argument goes into the execcmd under the redirections |
| `ShParser.ParseExecCode` | System Call Enhancements in xv6 OS/user/sh.c:416-447 | parseexec on every line, with termination |
| `ShParser.ParseBlockCode` | System Call Enhancements in xv6 OS/user/sh.c:400-414 | parseblock on every line, with termination |
| `ShParser.ParsePipeCode` | System Call Enhancements in xv6 OS/user/sh.c:362-373 | parsepipe on every line, with termination |
| `ShParser.ParseLineCode` | System Call Enhancements in xv6 OS/user/sh.c:345-360 | parseline on every line, with termination |
| `ShGrammar.RedirsSound` | System Call Enhancements in xv6 OS/user/sh.c:375-398 | what parseredirs reads is a sequence of redirections, as long as it goes |
| `ShGrammar.RedirsComplete` | System Call Enhancements in xv6 OS/user/sh.c:375-398 | and every such sequence is read |
| `ShGrammar.ArgsSound` | System Call Enhancements in xv6 OS/user/sh.c:432-443 | what the argument loop reads is words with redirections between them, fewer than MAXARGS |
| `ShGrammar.ArgsComplete` | System Call Enhancements in xv6 OS/user/sh.c:432-443 | and all of those are read |
| `ShGrammar.ExecSound` | System Call Enhancements in xv6 OS/user/sh.c:416-447 | what parseexec accepts is a command: words and redirections, or a line in parentheses with redirections behind it |
| `ShGrammar.ExecComplete` | System Call Enhancements in xv6 OS/user/sh.c:400-447 | and every command is read as the tree it stands for |
| `ShGrammar.PipeSound` | System Call Enhancements in xv6 OS/user/sh.c:362-373 | what parsepipe accepts is commands with | between them, grouped to the right |
| `ShGrammar.PipeComplete` | System Call Enhancements in xv6 OS/user/sh.c:362-373 | and every such pipeline is read as its tree |
| `ShGrammar.BacksSound` | System Call Enhancements in xv6 OS/user/sh.c:351-354 | the loop over & reads any number of them |
| `ShGrammar.ItemComplete` | System Call Enhancements in xv6 OS/user/sh.c:351-354 | and all of them |
| `ShGrammar.LineSound` | System Call Enhancements in xv6 OS/user/sh.c:345-360 | what parseline accepts is a line of the grammar, and the tree is what that line stands for |
| `ShGrammar.LineComplete` | System Call Enhancements in xv6 OS/user/sh.c:345-360 | every line of the grammar is accepted, with the tree it stands for, up to its end |
| `ShGrammar.ParsesIff` | System Call Enhancements in xv6 OS/user/sh.c:328-447 | parsecmd gives a tree if and only if the line is one of the grammar that stands for that tree; it panics on every other line |
| `ShGrammar.OneTree` | System Call Enhancements in xv6 OS/user/sh.c:328-447 | a line of the grammar stands for one tree |
| `ShRoundTrip.LexBack` | System Call Enhancements in xv6 OS/user/sh.c:266-309 | gettoken reads back pieces laid out with any white space, needed only between two words and between > and > or >> |
| `ShRoundTrip.LexAll` | System Call Enhancements in xv6 OS/user/sh.c:266-309 | and every line is such a layout of the pieces gettoken reads |
| `ShRoundTrip.ReadBack` | System Call Enhancements in xv6 OS/user/sh.c:328-447 | a line of the grammar is read as what it stands for, however it is laid out |
| `ShRoundTrip.FormIs` | System Call Enhancements in xv6 OS/user/sh.c:345-447 | every tree has a line with parentheses only around operands of a higher level |
| `ShRoundTrip.RoundTrip` | System Call Enhancements in xv6 OS/user/sh.c:328-447 | for every tree with legal words and fewer than MAXARGS arguments per command, parsing that line gives the tree back |
| `ShRoundTrip.TreesAreLegal` | System Call Enhancements in xv6 OS/user/sh.c:328-447 | the trees parsecmd can give are exactly those |
| `ShTerminate.LineRecordsWords` | System Call Enhancements in xv6 OS/user/sh.c:345-447 | every word the parser records is a word of the line, for every line |
| `ShTerminate.Nulterminate` | System Call Enhancements in xv6 OS/user/sh.c:449-494 | nulterminate writes a NUL at the end of every recorded word and nowhere else |
| `ShTerminate.TerminationIsHarmless` | System Call Enhancements in xv6 OS/user/sh.c:449-494 | after nulterminate every argument and file name reads as exactly the word gettoken delimited |
| `ShTerminate.ParseCmdCode` | System Call Enhancements in xv6 OS/user/sh.c:328-343 | parsecmd: the tree, and every word in it readable in place |
| `Grep.BeginsOne` | System Call Enhancements in xv6 OS/user/grep.c:93-94 | a plain character or . takes one fitting character |
| `Grep.BeginsStar` | System Call Enhancements in xv6 OS/user/grep.c:98-106 | a starred character takes any number of fitting characters |
| `Grep.BeginsEnd` | System Call Enhancements in xv6 OS/user/grep.c:91-92 | a final $ matches only the end |
| `Grep.MatchHere` | System Call Enhancements in xv6 OS/user/grep.c:84-96 | matchhere is true exactly if the text begins with something the expression stands for |
| `Grep.MatchStar` | System Call Enhancements in xv6 OS/user/grep.c:98-106 | matchstar tries every number of repetitions that fits |
| `Grep.Match` | System Call Enhancements in xv6 OS/user/grep.c:72-82 | match is true exactly if the text satisfies the meaning of the expression |
| `Mlfq.TraceGrows` | schedulling_algorithms/sched_algo_mlfq_existing.c:142-160 | slices follow each other, start after arrival and add up to the time served |
| `MlfqOrder.NextTurn` | schedulling_algorithms/sched_algo_mlfq_existing.c:136-141 | whoever is at the head of the first queue that is not empty has the next turn of all, and its length is the rest of the burst or the quantum of its level |
| `MlfqOrder.RoundGoesOn` | schedulling_algorithms/sched_algo_mlfq_existing.c:136-160 | all queues together stay sorted by turn and list position, within one round |
| `MlfqOrder.OrderStep` | schedulling_algorithms/sched_algo_mlfq_existing.c:139-160 | a dispatch keeps that order, and the slice begins when the processor is free and the process has arrived |
| `MlfqPeak.Dispatched` | schedulling_algorithms/sched_algo_mlfq_existing.c:139-160 | in a round of the last level the head goes to the end while it has turns left, and the enqueues made grow by one |
| `MlfqPeak.LoneHead` | schedulling_algorithms/sched_algo_mlfq_existing.c:71-82 | the head that is alone is the last of the longest, in its last shared round, and by then the enqueues made are the closed-form peak |
| `MlfqPeak.CrowdedHead` | schedulling_algorithms/sched_algo_mlfq_existing.c:58-69 | while others wait, one more enqueue stays within the peak |
| `MlfqStage.RoomGoesOn` | schedulling_algorithms/sched_algo_mlfq_existing.c:152-160 | a dispatch that uses up its quantum overflows exactly if the next queue is full, which happens only if the load is too much |
| `MlfqStage.RoomEnds` | schedulling_algorithms/sched_algo_mlfq_existing.c:145-151 | a finishing dispatch loses nobody |
| `MlfqStage.EmptyFits` | schedulling_algorithms/sched_algo_mlfq_existing.c:139-162 | a run that gets to empty queues without overflow had at most MAX processes and a peak of at most MAX |
| `MlfqRun.Scheduler.Enqueue` | schedulling_algorithms/sched_algo_mlfq_existing.c:58-69 | enqueue appends the pid unless the queue is at its end |
| `MlfqRun.Scheduler.Dequeue` | schedulling_algorithms/sched_algo_mlfq_existing.c:71-82 | dequeue takes the first pid |
| `MlfqRun.Scheduler.FindProcess` | schedulling_algorithms/sched_algo_mlfq_existing.c:84-93 | find_process finds the first process with the pid |
| `MlfqRun.Scheduler.Take` | schedulling_algorithms/sched_algo_mlfq_existing.c:140-141 | the head of a queue leaves it |
| `MlfqRun.Scheduler.Finish` | schedulling_algorithms/sched_algo_mlfq_existing.c:145-151 | a process that needs no more than the quantum finishes with its figures, at the end of that slice |
| `MlfqRun.Scheduler.Run` | schedulling_algorithms/sched_algo_mlfq_existing.c:152-154 | otherwise it runs for the quantum |
| `MlfqRun.Scheduler.Put` | schedulling_algorithms/sched_algo_mlfq_existing.c:155-159 | and is enqueued one level down, or again at the last level |
| `MlfqRun.Scheduler.Demote` | schedulling_algorithms/sched_algo_mlfq_existing.c:152-160 | keeping every process in one place; it is dropped only by a full queue |
| `MlfqRun.Scheduler.Dispatch` | schedulling_algorithms/sched_algo_mlfq_existing.c:139-162 | one dispatch leaves less work or a shorter queue |
| `MlfqRun.Scheduler.Fill` | schedulling_algorithms/sched_algo_mlfq_existing.c:126-134 | every process goes into level 0 in list order, up to MAX |
| `MlfqRun.Scheduler.FillOne` | schedulling_algorithms/sched_algo_mlfq_existing.c:129-133 | one enqueue of that loop, dropped exactly if the queue is at its end |
| `MlfqRun.Scheduler.Drain` | schedulling_algorithms/sched_algo_mlfq_existing.c:139-162 | a level is emptied, and none above it refilled |
| `MlfqRun.Scheduler.Mlfq` | schedulling_algorithms/sched_algo_mlfq_existing.c:122-169 | mlfq terminates; a queue overflows if and only if there are more than MAX processes or the closed-form peak of level 2 exceeds MAX, and if and only if some process is lost; every other burst b is dispatched exactly 1, 2 or 2 + ceil((b-6)/8) times with remain 0, slices never overlap and ct >= at + bt; the slices are in order of turn and list position, each begins as soon as the one before it ends and its process has arrived, and ct is the end of the last one |
| `MlfqRun.OneFits` | schedulling_algorithms/sched_algo_mlfq_existing.c:71-82 | one process never overflows, however long its burst |
| `MlfqRun.TwoLongAreTooMuch` | schedulling_algorithms/sched_algo_mlfq_existing.c:58-69 | two bursts of 414 are too much |
| `MlfqRun.TwoLongBursts` | schedulling_algorithms/sched_algo_mlfq_existing.c:122-169 | mlfq on two bursts of 414 leaves a process with time remaining |
| `Lottery.CalculateTotalTickets` | schedulling_algorithms/sched_algo_lottery_existing.c:70-80 | the tickets of all eligible processes |
| `Lottery.LotteryDraw` | schedulling_algorithms/sched_algo_lottery_existing.c:82-97 | the winner holds the drawn ticket; nobody wins exactly if nobody holds it, which with tickets and bursts positive is when nobody is eligible |
| `Lottery.OneWinner` | schedulling_algorithms/sched_algo_lottery_existing.c:82-97 | a ticket has one holder |
| `Lottery.FairShare` | schedulling_algorithms/sched_algo_lottery_existing.c:82-97 | an eligible process wins on exactly tt of the total_tickets numbers |
| `Lottery.SomeoneWins` | schedulling_algorithms/sched_algo_lottery_existing.c:82-97 | with positive tickets every number drawn has a holder |
| `Lottery.TurnedOk` | schedulling_algorithms/sched_algo_lottery_existing.c:161-188 | a round serves one tick of work, or finds nobody eligible |
| `Lottery.TurnedStuck` | schedulling_algorithms/sched_algo_lottery_existing.c:161-188 | a process without tickets or without work stays unfinished, whatever is drawn |
| `Lottery.RecordMore` | schedulling_algorithms/sched_algo_lottery_existing.c:175-186 | a tick changes remaining time, rt and ct as the record of ticks says |
| `Lottery.RoundIsTick` | schedulling_algorithms/sched_algo_lottery_existing.c:161-188 | a round gives the next tick to the holder of the drawn ticket among those that have arrived and have ticks to come, or to nobody if there is none |
| `Lottery.Simulation.Round` | schedulling_algorithms/sched_algo_lottery_existing.c:163-187 | one round of the main loop: the holder of the drawn ticket runs for one tick, or time passes |
| `Lottery.Simulation.RunFor` | schedulling_algorithms/sched_algo_lottery_existing.c:161-188 | if some process has no ticket or no work, the loop has not ended after any number of rounds, whatever is drawn |
| `Lottery.Simulation.Run` | schedulling_algorithms/sched_algo_lottery_existing.c:159-188 | with positive tickets and bursts and any draws the loop ends with every process completed and current_time at most the latest arrival plus the sum of bursts; each tick went to the holder of the ticket drawn for it, every process got as many as its burst, rt is the first of them less the arrival and ct the time after the last |
| `Lottery.Simulation.CalculateMetrics` | schedulling_algorithms/sched_algo_lottery_existing.c:99-109 | ct = at + bt + wt and 0 <= rt <= wt |

## Left out

- VmCode.Memory.Kfree: the panic on an address that is misaligned or outside kernel memory, and filling the page with junk, are not modelled.
- VmCode.Memory.Walk: takes virtual page numbers; the packing of a page-table entry into 64 bits is not modelled.
- Umalloc.Heap.Morecore: the conversion of the request to the int argument of sbrk, which truncates sizes of 2 GB and more, is not modelled.
- FsCode.FileSystem.FileWrite: other processes may write the same file between two chunks; the content result is for a writer that is alone. A failing copy from user memory is not modelled.
- FsCode.FileSystem.Readi: a failing copy to user memory, which makes readi return -1, is not modelled.
- FsCode.FileSystem.Balloc: the packing of the bitmap into bytes is not modelled.
- VirtioDisk.Disk.Alloc3: the loop over three descriptors is written out; sleeping and waking on free descriptors is not modelled.
- VirtioDisk.Disk.Submit: returns where virtio_disk_rw would sleep for descriptors and try again.
- CrashFs.CrashSoundIff: that concurrent operations of one transaction amount to calls one after the other is assumed; inode locks, which see to that, are not modelled. Calls other than readi, writei and itrunc are not covered.
- FsCode.FileSystem.constructor: the magic number check and the log recovery of fsinit are not part of it; recovery is LogCode.Log.Recover.
- Mount.Fsinit: reads neither the superblock nor its magic number, and does not run initlog; the superblock is a parameter.
- FsCode.FileSystem.FileRead: a failing copy to user memory is not modelled.
- Lottery.Simulation.RunFor: remaining_time is unbounded; in C it would wrap around after 2^31 rounds of the same process.
- LogTheorems.BreadReturnsLastWrite: is about ROOTDEV, the only device the kernel uses, and about processes that log a buffer they changed before they release it. A writei whose copy from user memory fails half-way through a block does not; what it changed is then lost if the buffer is recycled.
- copyin, copyout and walkaddr: they read through the page map and would add easier members.
- directories, path names, inode reference counts and inode allocation in fs.c: layers above the ones modelled.
- sfork: it shares a page table without ownership and keeps the lock of the child, so it is outside both invariants.
- the second scheduler, sys_count_zombies and the tagged-pipe calls: duplicate definitions or names not defined in the source.
- kill(0), which marks an unused slot as killed, is allowed in the model but nothing is claimed about it.
- wrap-around of the int nextpid.
- bubble_sort of the MLFQ simulator: its swap goes through a link it has overwritten; the list is taken as given.
- sched_algo_mlfqs_improved.c, sched_algo_lottery_improved.c and sched_algo_sa.c.
- pipes, console, sleep locks, spin locks, string functions: easier members; locks are atomic steps here.
- traps, UART, PLIC, start-up, assembly, exec, printf, system-call plumbing, runcmd, grep's read loop, all input and output of the simulators.
