# xv6 with kernel threads: a verified model

This project models the parts of an x86 xv6 teaching kernel (extended with threads that share an address
space, kernel semaphores and a missionaries-and-cannibals program) whose correctness is hard to see from the
code, and proves properties of all their runs and all their inputs.

The seven parts are independent of each other except where said.

**Redo log and buffer cache** (`RedoLog`, `LogSystem`, `LogCapacity`, `LogDevice`, `BufferCache`,
`CacheRefinement`). Every block write of `commit()` and of recovery is one step and a crash may fall between
any two. `RedoLog` proves commit atomic under crashes, recovery included, however often recovery itself is cut
off. `LogSystem` runs any number of concurrent operations (each critical section of `begin_op`, `end_op` and
`log_write`, with the unlocked size test and the clearing of `committing` as steps of their own) and proves that a
crash at any moment leaves exactly what readers saw at the last commit. `BufferCache` is the linked list of thirty buffers;
`CacheRefinement` proves that the kernel with this cache is matched step by step by `LogSystem`, so that crash
safety carries over. `LogDevice` is the code itself, proved to perform exactly the engine's writes in order.

**Blocks and inodes** (`FsBitmap`, `FsOwnership`, `FsContent`, `FsInode`, `FsInodeTable`, `DiskLayout`, `FsWriting`,
`FileSystem`). The bitmap allocator and the direct and indirect block maps refine flat byte files. No block is ever
owned twice, and no chunk of `filewrite` logs more blocks than one operation may, which is what `LogSystem` asks of
its operations. `DiskLayout` says where on the disk each byte of an inode, the bitmap, a file and the log's header
lies.

**Processes** (`ProcTable`, `Scheduling`, `SchedulingSteps`, `SchedulingRuns`, `Directories`,
`SchedulingLaws`, `AddressSpaces`, `SharedDirectory`, `ProcScans`). A machine with any number of CPUs, process slots
and sleep locks; each critical section, each hand-over of a lock inside `sleep` and each context switch is a step.
One invariant gives the absence of lost wakeups, the match of running processes and CPUs, and unique pids.
`SchedulingLaws` proves that sleep locks exclude, for which reasons a slot changes its state, and what the calls
answer. `Directories` says exactly
which steps free a page directory too early, and `AddressSpaces` that programs which join their threads take none.

**Missionaries and cannibals** (`Missionaries`, `MissionariesSafety`, `MissionariesChoice`, `MissionariesLength`,
`MissionariesEnds`, `MissionariesCode`). Any party, any schedule: what is printed is right, every schedule comes to
an end, which passengers can be stranded is known exactly, and so is for which parties everyone always crosses.

**Allocators** (`FreeList`, `HeapLinks`, `Malloc`; `PageTables`, `VmFrames`, `VirtualMemory`). The circular free
list of `malloc`, and two-level page tables over a list of free frames.

**Pipes** (`PipeRing`, `PipeStream`, `PipeAnswers`) and **text** (`Grep`; `ShellGrammar`, `ShellLanguage`,
`ShellRoundTrip`, `ShellParser`, `ShellStrings`). The shell's parser is proved to decide a grammar over tokens and to
build the tree of the derivation.

`Common`, `Bytes`, `Iteration` and `Runs` hold what the parts share; `Runs` has the induction over runs.

Code that works in place is modelled as a class with the source's fields, and its methods are proved against
functions about which the rest is proved. Protocols are state machines: a run is a sequence of actions, each of
which must be possible where it is taken.

## What the model shows about the code

- `log_write` tests the size of the transaction before it takes `log.lock` (log.c:218). With a log of LOGSIZE
  blocks, as mkfs lays it out, two operations can pass the test together and the transaction outgrows the log
  area (`LogCapacity.LogCanOverflow`). A run stays inside exactly when the test still held each time a block was
  added (`LogCapacity.RunFitsExactly`), and always if the log has more than LOGSIZE blocks
  (`LogCapacity.LogNeverOverflows`). The header array itself is safe in every run (`LogSystem.LogBounded`).
- The greedy choice of boats can strand one missionary and two cannibals, in the party of six and six as well
  (`MissionariesEnds.FinishesExactly` says for which parties it cannot).
- `wait` reaps a thread like a child and frees the page directory the caller runs on
  (`SharedDirectory.WaitFreesSharedDirectory`). A step frees a directory too early if and only if it is an `exec`
  or a `wait` that frees one which another slot uses (`Directories.StepFreesExactly`), and a run without such steps
  accounts for every directory (`Directories.RunFreesExactly`, `Directories.SafeRunsAccounted`). Programs that join
  their threads first, as the thread documentation asks, take no such step (`AddressSpaces.DirectoriesAccounted`).
- `allocuvm` over pages that are mapped already, which happens when one thread grows after another has, panics with
  "remap" if the free frames last to the first of them, and otherwise unmaps and frees those pages along with its
  own (`VirtualMemory.Vm.AllocUvm`).
- A pipe writer that is killed, or has lost its reader, while writing more than the pipe holds returns without
  waking a reader that sleeps (`PipeStream.LostWakeup`); `PipeStream.StepReaders` says that these turns are
  the only ones that leave a reader asleep in front of bytes.
- `malloc` of more than 2^32 - 8 bytes rounds up past 2^32 and hands out a block without room for a single byte; up
  to there the block holds what was asked for and less than one header more (`HeapLinks.UnitsFit`,
  `Malloc.Heap.Malloc`).
- `log_write` panics on a full log even when it would add nothing. Where the log has more than LOGSIZE blocks, an
  operation within its budget meets the panic exactly then (`LogSystem.TooBigExactly`).
- `writei` puts the inode on disk only when the size grows. The disk copy stays current because a write inside
  a file whose blocks below its size are mapped allocates nothing (`FileSystem.FileSystem.Writei`).

## Model

| member | source | states |
|---|---|---|
| `RedoLog.HeadRoundTrip` | log.c:86-113 | whatever the header block held before, the block numbers written by write_head are those read_head reads back |
| `RedoLog.StepKeepsEngine` | log.c:69-122 | every single block write of commit or recovery keeps the invariant that ties the header, the log slots, the pinned buffers and the home blocks together |
| `RedoLog.StepRecovers` | log.c:69-122 | a block write leaves what recovery would restore as it was, unless it is the header write of a commit, which changes it to what readers see |
| `RedoLog.WritesCount` | log.c:69-202 | commit and recovery end after exactly the number of block writes their phase announces |
| `RedoLog.RecoverIsAfterCrash` | log.c:116-122 | recovery, cut off and restarted any number of times at any writes, restores the contents foretold by the disk it first found |
| `RedoLog.CommitPoint` | log.c:178-202 | before the header write a crash leaves the old contents, from it on the whole transaction |
| `RedoLog.CrashAtomic` | log.c:69-202 | crash atomicity: stopped after any number of writes and recovered through any number of interrupted recoveries, the home blocks are exactly the old ones or exactly the new ones, and which is decided by the header write |
| `RedoLog.BootOk` | log.c:86-122 | any disk whose header names distinct home blocks is one recovery can start from |
| `LogSystem.RoomToAppend` | log.c:126-141 | the space begin_op reserves is enough: an operation within MAXOPBLOCKS distinct blocks finds room in the header array whatever the others did |
| `LogSystem.BeginWaitsExactly` | log.c:126-141 | begin_op keeps a process waiting exactly while a commit runs or while MAXOPBLOCKS more blocks from each of the processes that would then be in an operation might not fit; with nobody in an operation it never waits |
| `LogSystem.TooBigExactly` | log.c:218-219 | with more than LOGSIZE log blocks, the panic "too big a transaction" meets an operation within its budget exactly when the log is full, and then only on a block that is in the log already |
| `LogSystem.LastOpTouchesNothing` | log.c:146-174 | when the last operation ends no buffer holds a change that was not logged |
| `LogSystem.BootedInv` | log.c:53-66 | a machine that comes up with any disk recovery can start from satisfies the invariant, so every run from boot is covered |
| `LogSystem.FreshInv` | log.c:193-202 | so does a machine with an empty log and an empty cache |
| `LogSystem.StepKeepsInv` | log.c:126-233 | every step of any process, of commit, of recovery and every crash keeps the system's invariant as long as added blocks fit |
| `LogSystem.RunKeepsInv` | log.c:126-233 | so does every run |
| `LogSystem.LogBounded` | log.c:126-174 | in every run, for any size of the log area: at most LOGSIZE blocks are logged, none twice, recovery could start, and no operation is open from the end of the last one until committing is cleared, so the panic "log.committing" is unreachable |
| `LogSystem.ViewAfter` | log.c:69-82 | what readers see changes only where an operation modifies a block; loading, evicting, logging, committing and installing are invisible |
| `LogSystem.ReadsLastGiven` | bio.c:97-116 | between crashes a block reads as the contents last given to it |
| `LogSystem.QuietView` | log.c:193-202 | between transactions the disk holds what readers see |
| `LogSystem.CommitsPublish` | log.c:193-202 | only the committing header write changes what a crash leaves, and it happens with no operation open |
| `LogSystem.CrashLeavesLastCommit` | log.c:126-233 | at any moment of any run a crash leaves exactly what readers saw at the last commit |
| `LogSystem.RecoveryRestoresLastCommit` | log.c:116-122 | the recovered file system, however often recovery was interrupted, is the one readers saw at the last commit |
| `LogCapacity.LogCanOverflow` | log.c:214-233 | with 2 to LOGSIZE log blocks there is a run from a state that satisfies the invariant, each operation within its budget and past the size test, that logs as many blocks as the area has, one more than it has slots |
| `LogCapacity.StepFitsExactly` | log.c:214-233 | one step leaves the log area exactly when it adds a block the size test would now refuse |
| `LogCapacity.RunFitsExactly` | log.c:214-233 | a run stays in the log area if and only if the size test still held, under the lock, whenever a block was added |
| `LogCapacity.LogNeverOverflows` | mkfs.c:25 | with more than LOGSIZE log blocks, one more than mkfs makes, every run stays in the log area |
| `LogDevice.Log.constructor` | log.c:53-66 | initlog leaves the disk as one uninterrupted recovery does, with an empty log |
| `LogDevice.Log.WriteHead` | log.c:102-113 | the header block is its old contents with the count and the block numbers written over them |
| `LogDevice.Log.WriteLog` | log.c:178-190 | the disks passed through are those of the engine's logging writes, in order |
| `LogDevice.Log.InstallTrans` | log.c:70-82 | the disks passed through are those of the engine's installing writes, in order |
| `LogDevice.Log.Commit` | log.c:193-202 | commit passes through exactly the engine's disks, so every crash point of the code is one of those proved atomic |
| `LogDevice.Log.ReadHead` | log.c:86-96 | the in-memory header is the one on disk |
| `LogDevice.Log.RecoverFromLog` | log.c:116-122 | recovery passes through exactly the engine's disks and ends with the recovered one |
| `LogDevice.Log.TryBegin` | log.c:126-141 | an operation is admitted exactly when the log system lets it begin, and the fields are then those of its next state; else they are unchanged |
| `LogDevice.Log.TryEnd` | log.c:146-164 | the panic is taken exactly where the log system cannot end the operation, never in a state of a run; else the fields are those of its next state, and the caller commits exactly when no operation is left open |
| `LogDevice.Log.EndOp` | log.c:146-174 | from any state of a run: no panic, and when the last operation ends the log, the cache and the disk are those after all of the commit's writes |
| `LogDevice.Log.LogWrite` | log.c:222-232 | the block is absorbed if it was logged and else added at the end, and its buffer is pinned |
| `BufferCache.Find` | bio.c:69-76 | the lookup answers exactly when some buffer of the list has the block, with such a buffer |
| `BufferCache.Victim` | bio.c:81-91 | the choice is the last recyclable buffer of the list, and there is none only if no buffer is recyclable |
| `BufferCache.ToFrontKeepsOrder` | bio.c:130-138 | moving a buffer to the front leaves the list a permutation of all buffers |
| `BufferCache.PutKeepsRecency` | bio.c:121-141 | the list stays sorted by time of release |
| `BufferCache.VictimIsLeastRecent` | bio.c:81-91 | the recycled buffer was released before every other that could have been recycled |
| `BufferCache.UnlinkJoins` | bio.c:132-133 | joining the neighbours takes a buffer out of the doubly linked circle and leaves the rest in order |
| `BufferCache.PushJoins` | bio.c:134-137 | linking behind the head puts a buffer first in the doubly linked circle |
| `BufferCache.Bcache.constructor` | bio.c:39-56 | binit links all buffers, none referenced, into one circle, the last first |
| `BufferCache.Bcache.Search` | bio.c:69-76 | the walk along next finds what the list of buffers says is there |
| `BufferCache.Bcache.SearchVictim` | bio.c:81-91 | the walk along prev finds the least recently released recyclable buffer |
| `BufferCache.Bcache.Bget` | bio.c:62-93 | a hit counts a reference; a miss renames the victim, invalid and with one reference; no other buffer changes |
| `BufferCache.Bcache.MoveToFront` | bio.c:132-137 | the pointer writes give the list with the buffer in front and the rest in order |
| `BufferCache.Bcache.Brelse` | bio.c:121-141 | one reference less, and at none the buffer is the most recent |
| `CacheRefinement.KStepKeepsInv` | bio.c:62-141 | at most one buffer holds any block, reference counts are those of the holders, and a pinned, locked or changed buffer is valid, after every step |
| `CacheRefinement.NeverRecyclesInUse` | bio.c:81-91 | a recycled buffer is referenced, locked, pinned and changed by nobody |
| `CacheRefinement.WriteAbs` | log.c:70-113 | copying from one buffer the committer holds to the other and writing that is the log system's next block write |
| `CacheRefinement.KernelStepMatched` | bio.c:62-141 | each step of the kernel with its thirty buffers is matched by steps of the system with a plain map of buffers |
| `CacheRefinement.KernelRefines` | bio.c:62-141 | so is every run |
| `CacheRefinement.BufferShowsBlock` | bio.c:97-106 | in every reachable state a valid buffer holds its block as the log system sees it |
| `CacheRefinement.BreadReturnsLastGiven` | bio.c:97-116 | between crashes bread returns the contents last given to the block |
| `CacheRefinement.BootedSafe` | bio.c:39-56 | a kernel that comes up with the cache of binit and any disk recovery can start from satisfies the invariants |
| `CacheRefinement.KernelAlwaysFits` | mkfs.c:25 | with more than LOGSIZE log blocks every run of the kernel stays in the log area |
| `CacheRefinement.KernelCrashSafe` | log.c:69-233 | after any run of the kernel that fits the log, recovery restores what processes saw at the last commit |
| `FsBitmap.BitAfter` | fs.c:66-69 | setting or clearing one bit leaves all other bits of the byte |
| `FsBitmap.UsedAfterMark` | fs.c:82-95 | marking a block changes that block's bit and no other, for any number of bitmap blocks |
| `FsOwnership.FreshSound` | fs.h:8-22 | a disk with its metadata marked and no file is sound: the invariant can be established |
| `FsOwnership.FreeIsUnowned` | fs.c:57-78 | a block whose bit is clear belongs to no inode slot, direct, indirect or listed, and is not metadata |
| `FsOwnership.AllocKeeps` | fs.c:57-78 | allocation keeps every block owned at most once and marked, and changes no file |
| `FsOwnership.AssignKeeps` | fs.c:378-388 | a fresh zeroed block put into an empty slot keeps ownership exclusive and every file's bytes |
| `FsOwnership.EntryKeeps` | fs.c:389-395 | so does one entered into the indirect block |
| `FsOwnership.UnassignKeeps` | fs.c:414-432 | emptying a slot leaves its block with no owner and everybody else's blocks as they were |
| `FsOwnership.FreeKeeps` | fs.c:82-95 | clearing the bit of an unowned block keeps the disk sound |
| `FsContent.WriteKeeps` | fs.c:498-504 | writing a file's block changes that file block and nothing else in any file |
| `FsContent.FilesAfterWrite` | fs.c:498-504 | in terms of bytes: exactly the written stretch of exactly that file |
| `FsContent.SpliceFile` | fs.c:482-511 | writing into the blocks and then cutting at the new size is writing into the file |
| `FsInode.UnpackPacked` | fs.h:29-36 | the sixteen words of a dinode hold its fields, negative shorts included, and give them back |
| `FsInode.LoadAfterStore` | fs.c:221-236 | an inode stored in its block is read back by ilock and the other seven inodes of the block are untouched; `DiskLayout.InodeLayout` says which bytes hold it |
| `FsInodeTable.StoreOnDisk` | fs.c:221-236 | writing an inode into its block changes that inode on disk and no other, in the same block or elsewhere |
| `FsInodeTable.HeadWriteKeeps` | fs.c:221-236 | a write below the bitmap changes no bit, no block map and no file |
| `DiskLayout.InodeLayout` | fs.c:298-306 | ilock of inode i gets an inode exactly when the 64 bytes from 512 * inodestart + 64 * i on are its dinode: four little-endian signed shorts, the size at 8, the thirteen addresses from 12 on |
| `DiskLayout.StoreTouches` | fs.c:221-236 | iupdate changes no byte of the disk outside those 64 |
| `DiskLayout.BitLayout` | fs.h:44-48 | block b is in use exactly when bit b % 8 of byte b / 8 of the bitmap is set |
| `DiskLayout.FileLayout` | fs.c:373-400 | byte o of a file is byte o % 512 of the block named by direct address o / 512, or behind the first twelve blocks by the entry o / 512 - 12 of the indirect block; an unmapped block reads as zeroes |
| `DiskLayout.HeadLayout` | log.c:34-37 | the header block is a count and after it that many block numbers, all little-endian |
| `DiskLayout.LogLayout` | log.c:70-82 | what a crash leaves: the block that entry k of the header names has the contents of the k-th block behind the header, all others their own |
| `FsWriting.ChunkFits` | file.c:127-133 | for every offset, a chunk of filewrite costs at most MAXOPBLOCKS blocks |
| `FsWriting.TurnSpan` | fs.c:498-504 | each turn of the writing loop adds one block to those spanned, and the first costs no bitmap block if it was mapped |
| `FsWriting.Bill` | fs.c:482-511 | the distinct blocks logged by a write are bounded by the span, the indirect block, the bitmap blocks and the inode |
| `FsWriting.WithinBudget` | file.c:127-145 | every operation of a filewrite, not the first alone, stays within MAXOPBLOCKS if the blocks below the size were mapped at the start |
| `FileSystem.FileSystem.constructor` | fs.c:172-185 | a sound disk gives a valid file system with every inode as its inode block holds it |
| `FileSystem.FileSystem.Balloc` | fs.c:57-78 | the lowest free block, marked and zeroed and logged with its bitmap block, or none if and only if all are in use |
| `FileSystem.FileSystem.Bfree` | fs.c:82-95 | clears the bit and nothing else; the panic is exactly the case of a clear bit |
| `FileSystem.FileSystem.Bmap` | fs.c:373-400 | the block of a file block, the same as before if there was one; new blocks change no file's bytes; fails only out of range or on a full disk; what it logs is bounded |
| `FileSystem.FileSystem.Itrunc` | fs.c:408-435 | exactly the inode's blocks become free, other files keep their bytes, the inode on disk is the empty one and the panic "freeing free block" is not reached |
| `FileSystem.FileSystem.Iupdate` | fs.c:221-236 | of the whole disk exactly the 64 bytes of the inode change, to its dinode, so that ilock reads the in-memory inode back and every other inode as before; no file, block map or bit changes; the block is logged |
| `FileSystem.FileSystem.Readi` | fs.c:453-476 | the bytes off..min(off+n, size) of the file, or -1 exactly as the checks with 32-bit wrap-around say; changes nothing if the blocks below the size are mapped |
| `FileSystem.FileSystem.Writei` | fs.c:482-511 | exactly the bytes off..off+n change, the size is the larger of the two, "mapped below size" is kept, the on-disk inode stays equal to the one in memory, other files are untouched, and the number of blocks logged is bounded |
| `FileSystem.FileSystem.WriteChunk` | file.c:136-150 | one transaction stores its chunk, moves the offset, logs every block it changes, and logs at most MAXOPBLOCKS |
| `FileSystem.FileSystem.FileWrite` | file.c:118-156 | the whole buffer is stored at the offset, or -1 with exactly the chunks before the refused one; there is one transaction for each chunk stored, transaction k takes the file system from its kth to its next state by storing chunk k and logging what changed, and each stays within MAXOPBLOCKS |
| `ProcTable.FirstReady` | proc.c:283-303 | the scan finds the first zombie the caller may reap and overlooks none |
| `SchedulingSteps.SwtchKeeps` | proc.c:461-477 | a switch to the scheduler hands ptable.lock over and leaves CPUs and running processes matched |
| `SchedulingSteps.TurnKeeps` | proc.c:429-447 | so does each turn of the scheduler's loop |
| `SchedulingSteps.RunnableIsOff` | proc.c:429-447 | a process a scheduler may pick is on no CPU |
| `SchedulingSteps.AllocKeeps` | proc.c:74-117 | taking a slot keeps pids distinct and every other invariant |
| `SchedulingSteps.PublishKeeps` | proc.c:182-224 | so does making a forked or cloned slot runnable |
| `SchedulingSteps.ZombieIsOff` | proc.c:289-301 | a zombie found under ptable.lock has been switched away from for good |
| `SchedulingSteps.ReapKeeps` | proc.c:275-314 | reaping keeps every invariant |
| `SchedulingSteps.ExitIs` | proc.c:230-270 | after exit the parent is awake and so is init if it was handed a zombie |
| `SchedulingSteps.ExitWait` | proc.c:230-270 | no wakeup of wait or join is lost by an exit or a thread_exit, nor by handing zombies to init |
| `SchedulingSteps.LookNoneWait` | proc.c:305-312 | a process goes to sleep in wait or join only with nothing to reap |
| `SchedulingSteps.HolderKeeps` | sleeplock.c:23-32 | the steps of acquiresleep between the two locks of sleep keep every invariant; that they exclude is `SchedulingLaws.MutualExclusion` |
| `SchedulingSteps.ReleaseKeeps` | sleeplock.c:35-42 | releasesleep before its wakeup keeps every invariant: the pending wakeup stands for the sleepers |
| `SchedulingSteps.WakeKeeps` | proc.c:553-569 | wakeup makes all sleepers on the channel runnable and keeps every invariant |
| `SchedulingSteps.StepInv` | proc.c:74-592 | every step of every CPU keeps the invariant |
| `SchedulingRuns.ReachableInv` | proc.c:122-155 | so it holds in every state reachable from userinit |
| `SchedulingRuns.RunningMatchesCpus` | proc.c:418-487 | with ptable.lock free, running slots and CPUs with a process are in one-to-one correspondence |
| `SchedulingRuns.PidsDistinct` | proc.c:88-91 | non-zero pids are distinct and below nextpid |
| `SchedulingRuns.NoLockSleeper` | sleeplock.c:23-42 | nobody sleeps on a sleep lock that is free and whose spinlock is free |
| `SchedulingRuns.NoWaitSleeper` | proc.c:275-386 | nobody sleeps in wait or join while a matching zombie exists, however it became their child |
| `SchedulingRuns.NoZombieRuns` | proc.c:230-270 | no CPU comes back into a process that has exited |
| `SchedulingRuns.ReapedIsOff` | proc.c:289-301 | whoever is reaped, its stack freed, is on no CPU |
| `SchedulingRuns.JoinAnswers` | proc.c:367-386 | join of a positive pid returns -1 or that pid after reaping the one slot that has it, and frees no directory |
| `SchedulingRuns.JoinedOnce` | proc.c:367-386 | after that no slot ever has the pid again, so it is not joined twice |
| `SchedulingLaws.AcquireReturns` | sleeplock.c:23-32 | whoever is in acquiresleep, asleep or not, leaves it only from the test of the lock, which was not locked and then is |
| `SchedulingLaws.WaitReturns` | proc.c:275-386 | whoever is in wait or join, asleep or not, leaves it only by a pass of its loop, with an answer |
| `SchedulingLaws.OthersStay` | proc.c:74-592 | where a process is in a call is changed by no step of another |
| `SchedulingLaws.TestExactly` | sleeplock.c:23-32 | acquiresleep's test comes through exactly when the lock is not locked, leaves it locked with the caller's pid, and else changes no lock |
| `SchedulingLaws.LockedIsHeld` | sleeplock.c:23-42 | in every run a sleep lock is locked exactly while somebody has come out of acquiresleep for it and releasesleep has not been called since |
| `SchedulingLaws.MutualExclusion` | sleeplock.c:23-42 | mutual exclusion in every run: nobody comes out of acquiresleep while somebody holds the lock |
| `SchedulingLaws.StateChanges` | proc.c:74-592 | a slot changes state only along the edges of the life of a process, each by its own cause: allocproc and its undoing, the end of fork or clone, the scheduler's scan at that slot, the process's own yield, sleep or exit, a wakeup on what it sleeps on, kill of its pid or the exit of its child, and the wait or join of its parent |
| `SchedulingLaws.KillExactly` | proc.c:575-592 | kill answers 0 exactly when some slot has the pid, and then one such slot is marked killed and not asleep, its state kept if it was not asleep, and no other slot changes; else it answers -1 and changes nothing |
| `SchedulingLaws.KillStrikes` | proc.c:575-592 | for a pid other than 0 it is the one slot that has it |
| `SchedulingLaws.AllocAnswers` | proc.c:74-93 | fork and clone fail at once exactly when no slot is free; otherwise a free slot becomes an embryo with the next pid and nothing else changes |
| `SchedulingLaws.ForkAnswers` | proc.c:182-224 | the answer is the pid of the child, which is ready to run, a child of the caller, and on the caller's directory exactly if it is a thread |
| `SchedulingLaws.WaitAnswers` | proc.c:275-386 | a pass of wait or join answers with the pid of an awaited zombie, whose slot is then free, if there is one; fails exactly if there is none and nobody is awaited or the caller was killed; and sleeps on the caller otherwise |
| `SchedulingLaws.ExitHandsOver` | proc.c:230-270 | exit leaves a zombie, gives its children and nobody else to init, and its parent does not sleep on; thread_exit leaves the children where they are |
| `Directories.StepFreesExactly` | proc.c:275-314 | a step leaves directories in use unfreed and none freed twice, and all of them accounted for, if and only if it is not an exec or a wait that frees a directory another slot uses |
| `Directories.RunFreesExactly` | proc.c:182-386 | the same of whole runs |
| `Directories.SafeRunsAccounted` | exec.c:97-103 | in such a run every directory made since boot is owned by exactly one process or was freed |
| `AddressSpaces.SoleUser` | proc.c:319-386 | a process whose threads are joined, or a zombie, is alone on its directory |
| `AddressSpaces.DisciplinedIsSafe` | README_THREADS.md:94-98 | no step that follows the joining discipline frees a directory in use elsewhere |
| `AddressSpaces.StepAddr` | proc.c:182-386 | every step that follows the joining discipline keeps threads on the directory of a creator that has not exited |
| `AddressSpaces.DirectoriesAccounted` | README_THREADS.md:94-98 | runs where threads are joined before their creator waits, exits or execs, make no children and do not exec are among those: no directory in use is freed, none is freed twice, none is lost |
| `SharedDirectory.WaitFreesSharedDirectory` | proc.c:275-314 | without that discipline a reachable state has init running on a freed directory |
| `ProcScans.Ptable.Wakeup1` | proc.c:553-560 | exactly the sleepers on the channel become runnable |
| `ProcScans.Ptable.Allocate` | proc.c:74-93 | the first unused slot becomes an embryo with the next pid |
| `ProcScans.Ptable.Kill` | proc.c:575-592 | the first slot with the pid is marked, and is not asleep any more; pid 0 marks an unused slot |
| `ProcScans.Ptable.Look` | proc.c:281-313 | one pass of wait or join: reap the first match, give up without children or when killed, else block |
| `ProcScans.Ptable.Exit` | proc.c:230-270 | the table after exit as the state machine has it, with the parent woken before the children are handed over |
| `ProcScans.Ptable.ThreadExit` | proc.c:352-364 | the table after thread_exit as the state machine has it |
| `Missionaries.Choose` | missionaries.asm:12-54 | the boat chosen is legal and fits those waiting, (3,0) only if (2,1) does not fit, (0,3) only if neither does, and none only if none can be formed |
| `MissionariesSafety.StepKeepsInv` | missionaries.asm:12-289 | every step of every thread keeps the invariant that counts permits, passengers and printed lines |
| `MissionariesSafety.FullBoat` | missionaries.asm:116-210 | with three aboard no permit of the boat is left anywhere, so none is spent on another boat |
| `MissionariesSafety.BoardingHasSeat` | missionaries.asm:116-210 | whoever boards finds a boat with a free seat |
| `MissionariesSafety.RowingAlone` | missionaries.asm:116-210 | while one rows the boat is theirs and full and its ROW line not yet printed |
| `MissionariesSafety.SafeCrossing` | missionaries.asm:12-289 | on every schedule and for every party, the three who board between a boat's selection and its ROW line are exactly its missionaries and cannibals, the boat is (2,1), (3,0) or (0,3), boats row one at a time in order, and nobody boards twice |
| `MissionariesChoice.StepKeepsLines` | missionaries.asm:12-245 | after every step those waiting are, by the lines printed, the arrivals less the seats of the selected boats |
| `MissionariesChoice.BoatsByPreference` | missionaries.asm:12-245 | on every schedule, by the printed lines alone: each selected boat is (2,1) if those who had arrived and were not taken could fill it, else (3,0), else (0,3); and everybody arrives once, as what they are, before boarding |
| `MissionariesLength.LimitDrops` | ksync.c:69-109 | every step lowers a bound made of the permits still to be posted and the places of the threads, although each post wakes all sleepers |
| `MissionariesLength.EverySchedule` | missionaries.asm:12-289 | with n passengers no schedule has more than n * n + 13 * n + 1 steps |
| `MissionariesEnds.NoBoatMissed` | missionaries.asm:189-205 | with mu free and no boat under way, those waiting fill no legal boat |
| `MissionariesEnds.StuckShape` | ksync.c:69-109 | when nobody can move, mu is free, all are asleep or done, and those asleep are those counted as waiting: no wakeup and no permit is lost |
| `MissionariesEnds.Realise` | missionaries.asm:12-289 | any split of the party into legal boats and a rest that fills none is the end of some schedule |
| `MissionariesEnds.StrandedExactly` | missionaries.asm:12-289 | a group can be left behind if and only if it fills no legal boat and the others split into legal boats |
| `MissionariesEnds.LeftOfThree` | missionaries.asm:12-289 | of a party divisible by three nobody is left behind, or one missionary and two cannibals |
| `MissionariesEnds.FinishesExactly` | missionaries.asm:12-289 | every schedule comes to an end with everyone across if and only if the party has a size divisible by three and counts for which no split leaves one missionary and two cannibals: m a multiple of 3 with m = 0 or c < 3, m one more with c < 2, or m two more with m < 5 or c < 4 |
| `MissionariesEnds.PassMeansAllCrossed` | missionaries.asm:375-439 | the PASS line is printed only when nobody is left and three times the number of boats is the party: four boats for six and six |
| `MissionariesCode.Crossing.TryFormBoat` | missionaries.asm:12-99 | the globals, the line printed and the permits posted are those of the state machine's step, whose choice `MissionariesChoice.BoatsByPreference` describes |
| `MissionariesCode.Crossing.Arrive` | missionaries.asm:218-245 | the globals, the output and the permits are those of the state machine's arrival: the thread is counted before a boat is formed |
| `MissionariesCode.Crossing.Board` | missionaries.asm:116-161 | the globals and the output are those of the state machine's boarding step; in a run the third passenger alone learns the trip, and those aboard are then exactly its missionaries and cannibals |
| `MissionariesCode.Crossing.FreeBoat` | missionaries.asm:189-205 | the globals, the output and the permits are those of the state machine's reset: the boat is freed before the next is formed |
| `FreeList.InsertedOrdered` | umalloc.c:25-44 | freeing keeps the list in address order with a gap between any two chunks: fully coalesced |
| `FreeList.InsertedUnits` | umalloc.c:25-44 | exactly the units of the chunk become free |
| `FreeList.WithoutOrdered` | umalloc.c:75-83 | allocating keeps the order and the gaps |
| `FreeList.WithoutUnits` | umalloc.c:75-83 | exactly the units handed out are free no more |
| `HeapLinks.LinksInserted` | umalloc.c:33-43 | the merges of free leave headers that link exactly the new list into a circle |
| `HeapLinks.LinksTaken` | umalloc.c:75-83 | so does cutting the tail off a chunk or unlinking it |
| `HeapLinks.UnitsFit` | umalloc.c:69 | the rounded size has room for the bytes, and one header less would not, exactly up to 2^32 - 8 bytes; a larger request is taken for one of no bytes |
| `HeapLinks.Asked` | umalloc.c:52-54 | sbrk is asked for what is needed, but never for less than 32768 bytes |
| `Malloc.Heap.Seek` | umalloc.c:30-32 | free's search ends, at the chunk after which the block belongs, from wherever it starts on the circle |
| `Malloc.Heap.Free` | umalloc.c:25-44 | the block leaves those in use and joins the free list at its address, merged with what it touches; free and used blocks still partition the memory obtained |
| `Malloc.Heap.Morecore` | umalloc.c:47-61 | the new memory, at least 4096 units, is added to the free list and one chunk is then large enough |
| `Malloc.Heap.Malloc` | umalloc.c:64-90 | a block disjoint from all in use that holds the bytes asked for, and would not with one header less, exactly for requests up to 2^32 - 8 bytes; or null only if sbrk failed; without sbrk it is the end of the first chunk behind freep that is large enough; sbrk is asked at most once and only if no chunk was large enough; the search ends |
| `PageTables.TakenConserved` | kalloc.c:83-95 | taking a frame keeps free and used frames a partition of all |
| `PageTables.GivenConserved` | kalloc.c:60-77 | so does giving one back |
| `PageTables.WalkIs` | mmu.h:74-77 | an address is looked up in the directory entry of its top ten bits and the table entry of the next ten |
| `PageTables.NewTableSound` | vm.c:44-53 | a new empty table keeps every frame used for one thing only, and changes no mapping |
| `PageTables.SetLookup` | vm.c:61-80 | writing an entry changes the mapping of that page of that directory alone |
| `PageTables.MapSound` | vm.c:61-80 | mapping a frame just taken keeps every frame used for one thing only |
| `PageTables.RetireSound` | vm.c:284-298 | taking a directory without user pages out of use loses no frame |
| `VmFrames.JumpSkipsNothing` | vm.c:266-268 | deallocuvm's jump over a missing table passes no mapped page |
| `VmFrames.DropsAll` | vm.c:284-298 | the pages, tables and directory freed by freevm are all the frames of the address space |
| `VmFrames.GrownBack` | vm.c:316-345 | undoing what was built since leaves exactly the frames in use before |
| `VmFrames.OutcomeFailed` | vm.c:222-249 | if the frames run out at a page, the growth neither succeeds nor meets a mapped page, counting one frame for each page and one for each missing table |
| `VmFrames.GaveUpClean` | vm.c:222-249 | a growth that ran out over unmapped pages changed no mapping, kept every frame and its bytes, and left at most tables behind |
| `VirtualMemory.Vm.constructor` | kalloc.c:47-53 | freerange leaves every page of the range on the free list once |
| `VirtualMemory.Vm.Kalloc` | kalloc.c:83-95 | the first free frame, none only when the list is empty |
| `VirtualMemory.Vm.Kfree` | kalloc.c:60-77 | the frame is free again and its bytes are junk |
| `VirtualMemory.Vm.Walk` | vm.c:36-55 | the table that serves the page, made if asked for, with no mapping changed; none only without one or without memory |
| `VirtualMemory.Vm.SetupKvm` | vm.c:119-136 | a new directory with exactly the kernel's mappings, or nothing taken; the panic "remap" is not reached |
| `VirtualMemory.Vm.AllocUvm` | vm.c:222-249 | from the mappings and the number of free frames it follows which of success, failure and the panic "remap" it is; on success the new pages are zeroed, writable and the only new mappings; on failure all pages between the sizes are unmapped and their frames given back; other mappings and bytes are kept |
| `VirtualMemory.Vm.DeallocUvm` | vm.c:256-279 | exactly the pages between the two sizes are unmapped and their frames freed, other mappings and bytes kept |
| `VirtualMemory.Vm.FreeVm` | vm.c:284-298 | every user page, table and the directory is freed exactly once, nothing of any other address space is |
| `VirtualMemory.Vm.CopyUvm` | vm.c:316-345 | on success the same bytes and flags on frames of its own, the parent unchanged; out of memory nothing is leaked; it panics only if a page below the size is not mapped |
| `PipeRing.GapMoves` | pipe.c:79-121 | the counters' difference modulo 2^32 moves by one with each byte, across the wrap |
| `PipeRing.PutQueue` | pipe.c:93 | storing at nwrite % PIPESIZE appends to the bytes between the counters |
| `PipeRing.GetQueue` | pipe.c:113-116 | the byte at nread % PIPESIZE is the oldest of them |
| `PipeRing.Ring.Fill` | pipe.c:84-94 | as many bytes as there is room for are appended in order |
| `PipeRing.Ring.Drain` | pipe.c:113-117 | up to n of the oldest bytes come out in order and the rest stay |
| `PipeStream.StepReaders` | pipe.c:79-121 | a step leaves no reader asleep in front of bytes or a closed pipe if and only if it is not the turn of a writer that gives up after filling the pipe |
| `PipeStream.PipeIsStream` | pipe.c:60-121 | for any interleaving of readers, writers, closes and kills, the bytes stored are those delivered followed by those buffered, at most 512, and no writer sleeps while there is room or no reader; `PipeAnswers` ties both to what the calls return |
| `PipeStream.NoReaderLeft` | pipe.c:60-121 | in runs without such turns no reader is left asleep |
| `PipeStream.EndOfFile` | pipe.c:101-121 | a read returns no bytes exactly when it asked for none, or the pipe is empty and its write end closed |
| `PipeStream.LostWakeup` | pipe.c:84-91 | a run that leaves a reader asleep in front of a full pipe |
| `PipeAnswers.ReadAnswer` | pipe.c:101-121 | a read that returns bytes returns the oldest in the pipe, as many as asked for or as there are, and leaves the rest; it returns bytes or none exactly when the pipe is not empty or has no writer, and fails exactly when killed before an empty pipe |
| `PipeAnswers.WriteAnswer` | pipe.c:79-98 | a write appends its next bytes until the pipe is full, returns their number exactly when all are in, fails exactly when some are left and it is killed or nobody can read, and sleeps otherwise |
| `PipeAnswers.WritersKeepTheirWord` | pipe.c:79-98 | at every moment of every run a pipewrite has put in a prefix of its bytes: all of them if it returned their number, not all if it failed |
| `PipeAnswers.ReadersGetWhatWasWritten` | pipe.c:79-121 | in every run the bytes returned to readers, return after return, followed by those in the pipe, are the bytes put in by the writers, turn after turn |
| `Grep.OneOccurs` | grep.c:91-94 | consuming one character is the meaning of a literal or a dot |
| `Grep.StarOccurs` | grep.c:99-106 | trying each number of repetitions is the meaning of a star |
| `Grep.Match` | grep.c:73-82 | 1 exactly when some stretch of the text is denoted by the pattern, anchors respected; ends on every input |
| `Grep.MatchHere` | grep.c:85-96 | 1 exactly when the pattern matches at the start of the text, a final "$", "$*" and a leading "*" as the code reads them |
| `Grep.MatchStar` | grep.c:99-106 | 1 exactly when some number of repetitions is followed by a match |
| `ShellGrammar.GetToken` | sh.c:267-309 | a token moves the cursor unless the line is at its end, and a word is a maximal run of word characters |
| `ShellLanguage.TokenText` | sh.c:267-309 | the token is the text behind the blanks, as long as it can be (">>" and not ">" twice), and the blanks after it are passed too |
| `ShellLanguage.LineSound` | sh.c:346-447 | whatever the parser reads has a derivation in the grammar with the same tokens and the same tree |
| `ShellLanguage.LineComplete` | sh.c:346-447 | whatever has a derivation is read, to its end and with the derived tree |
| `ShellLanguage.ParsesExactly` | sh.c:329-447 | parsecmd gives a tree if and only if the tokens of the whole line derive it in the grammar, where both ">" and ">>" make a redirection for writing |
| `ShellLanguage.RefusesExactly` | sh.c:329-343 | a line is refused if and only if no derivation has its tokens: nothing left over is overlooked |
| `ShellLanguage.UnbalancedRefused` | sh.c:401-414 | a line with an unclosed parenthesis, or one closed too often, is refused |
| `ShellRoundTrip.ArgsParse` | sh.c:417-447 | printed arguments and redirections are read back in order |
| `ShellRoundTrip.BlockParses` | sh.c:401-414 | a line in parentheses is read back, with the redirections after it |
| `ShellRoundTrip.LineParses` | sh.c:346-373 | a printed line is read back up to what follows it: "|" binds before "&" and that before ";", to the right |
| `ShellRoundTrip.RoundTrip` | sh.c:329-447 | every command tree with proper words and fewer than MAXARGS arguments is parsed back from its printing, which has parentheses only where the grammar needs them |
| `ShellRoundTrip.BareLine` | sh.c:346-373 | lists of background pipelines of simple commands are printed without any parentheses |
| `ShellParser.Parser.Peek` | sh.c:312-321 | skips blanks and tells whether one of the characters follows |
| `ShellParser.Parser.GetToken` | sh.c:267-309 | the cursor and the token are the grammar's |
| `ShellParser.Parser.ParseRedirs` | sh.c:376-398 | the loop collects the grammar's redirections or panics where it does |
| `ShellParser.Parser.ParseExec` | sh.c:417-447 | the same for a simple command; ends on every input |
| `ShellParser.Parser.ParseBlock` | sh.c:401-414 | the same for parentheses, the panic without an opening one included |
| `ShellParser.Parser.ParsePipe` | sh.c:363-373 | the same for pipes |
| `ShellParser.Parser.ParseLine` | sh.c:346-360 | the same for lists and background commands |
| `ShellParser.Parser.ParseCmd` | sh.c:329-343 | the parser with its cursor accepts what the grammar accepts, with the same tree; left-over text is an error |
| `ShellStrings.LineWords` | sh.c:346-360 | every word in a parsed tree is a maximal run of word characters of the line |
| `ShellStrings.NulTerminate` | sh.c:451-494 | exactly the characters after the words of the tree become NUL |
| `ShellStrings.WordsAreStrings` | sh.c:451-494 | after that each word is a C string equal to its slice of the line: no NUL falls into a word |

## Left out

- Boot, trap entry, interrupts, device drivers, the inside of spinlocks and memory ordering: acquire, release, swtch and xchg are atomic steps.
- Path lookup, directories, ialloc, iget, iput and link counts; system-call argument fetching; the loading part of exec.
- File system calls of other processes between the critical sections of one call, and between the chunks of one filewrite: the file system is modelled one call at a time, relying on the inode lock.
- FileSystem.FileSystem.Readi: calls on devices are handed on and go no further; so are filewrite's calls on pipes.
- FileSystem.FileSystem.FileWrite: takes a byte sequence, so a negative count, which the code returns from at once, does not arise.
- CacheRefinement.WriteAbs: the committer gets, locks, reads and releases its buffers in steps like everybody else; copying into a buffer it holds locked and writing that buffer are one step.
- LogDevice.Log.BRead: the class reads and writes a map of buffers; the linked list of buffers is in `BufferCache`.
- Reading and writing one block is atomic, as in memide.c; torn block writes are not modelled.
- ksync.c is a skeleton whose steps are given as comments: semaphores follow those steps; the mutexes, whose bodies are missing, are plain blocking mutexes as the documentation says. The object table, creation and destruction are not modelled.
- Killed threads inside the missionaries program, the random party of its configuration and the random yields: any schedule is allowed, so yields add nothing.
- SchedulingSteps.PublishKeeps: what fork and clone write into their own embryo without the lock is folded into the critical section that makes it runnable.
- Liveness and fairness of the scheduler, the weights of the stochastic policy, pid wrap-around and holdingsleep.
- PipeStream.PipeIsStream: sleep and wakeup are atomic there; that sleep loses no wakeup is proved for sleep locks, wait and join. A negative count does not arise.
- Malloc.Heap.Malloc: sbrk, when it succeeds, gives as many headers as asked for, above all it gave before; what it does with 2^31 bytes or more, which it takes for a negative number, is not modelled.
- VirtualMemory.Vm.Kalloc: the free list is a sequence, not links inside the free pages; pages have contents as values; the kernel's mappings are given in pages. Page directories are not shared here.
- VirtualMemory.Vm.Kfree: the frame belongs to the allocator, so the panic on a bad address does not arise.
- ShellRoundTrip.RoundTrip: the printing uses one blank between words and ">" for output, so append redirections, which the parser turns into the same tree, are not printed; `ShellLanguage` covers them.
- The read loop of grep, runcmd and the main loop of the shell; console, printf and string routines.
