# Verified models of the xv6-pdx kernel

This project models the parts of the xv6-pdx teaching kernel whose correctness depends on whole
runs rather than on one function: the write-ahead log over the buffer cache, the process table with
its state lists and multi-level feedback queue, the inode layer and its directories, two-level page
tables over the page allocator, pipes, and three user-level cores (the heap allocator, the shell
parser and the matcher of `grep`).

Where the C code changes things in place the model is a class with the same fields (link arrays,
buffers, counters) and methods with the same loops and branches. Each such method is proved against
a specification on values. Where the code is a protocol between processes, CPUs or crashes, the
model is a state machine whose steps are the sections of code that run under one lock, or single
disk writes, and the theorems are about every run. A `panic` is a result (`!ok`, `Panic`, ...), and
it is proved when it can be reached.

| file | subject |
|---|---|
| `Common.dfy` | the sizes of the log, distinct lists, ranges |
| `LogMachine.dfy` | block layout of the log; the log and cache as a machine with crashes |
| `LogReservation.dfy` | the space that `begin_op` reserves |
| `BufferCache.dfy`, `Log.dfy` | `bio.c` and `log.c` in place, over a disk written block by block |
| `LogRefines.dfy` | the commits and recoveries of the machine write what those of `Log.dfy` write |
| `LogDurable.dfy` | when the changes of an operation are durable, and that commits can be finished |
| `ProcTable.dfy`, `ProcMachine.dfy`, `ProcProgress.dfy` | the locked sections of `proc.c`, all runs of them, scheduling progress |
| `ProcFields.dfy`, `ProcLife.dfy` | what each section changes, field by field; the life of a child carried through |
| `ProcKids.dfy` | children stay children until `wait` reaps them |
| `ProcLists.dfy` | the same sections in place, on `next` links with a head and a tail per list |
| `Inode.dfy`, `Links.dfy` | blocks and bytes of files; directories and link counts |
| `PageTable.dfy` | `vm.c` and `kalloc.c` |
| `Pipe.dfy` | the ring buffer, and any number of readers and writers of it |
| `Heap.dfy`, `Grep.dfy` | `umalloc.c`, the matcher of `grep.c` |
| `Shell.dfy`, `ShellSyntax.dfy` | the parser of `sh.c`; a grammar of command lines that it is exact for |

The sizes NPROC, MAXPRIO, the number of CPUs, buffers, blocks, inodes and physical pages are
parameters; LOGSIZE, MAXOPBLOCKS, BSIZE, PIPESIZE, MAXARGS and the page geometry are the constants
of the source. Block contents and bytes are values; arithmetic that wraps in C (pipe counters, file
offsets) wraps in the model.

## Where the code differs from what one would expect

The models follow the code. Each of these natural properties is false of it; there is a concrete
case, and a statement of exactly when the property holds.

- A sleeping reader means an empty pipe. `pipewrite` returns without waking readers when the pipe is
  full and the writer is killed or the read end is closed (pipe.c:84-88): a reader can stay asleep on
  a full pipe (`PipeMachine.ReaderLeftAsleep`), and these returns are the only cause
  (`PipeMachine.ReadersWaitExactly`).
- Operations that add no more than MAXOPBLOCKS blocks each never meet the panic of `log_write`. It
  panics on a full header before it looks whether the block is already there (log.c:215), and one
  entry early because `mkfs` gives the log LOGSIZE blocks (mkfs.c:25). With that layout the property
  fails (`LogReservation.SmallLogPanics`). With a larger log it fails too
  (`LogReservation.RelogPanics`), exactly when an operation that has used up its reservation logs a
  block again while the header is full (`LogReservation.PanicExactly`,
  `LogReservation.QuietExactly`). Counting calls instead of blocks is enough
  (`LogReservation.LargeLogIsQuiet`).
- A chunk of `filewrite` fits the reservation of its `begin_op`. It is sized by LOGSIZE: a full chunk
  logs between 13 and 17 blocks (`InodeLayer.ChunkLogs`), and MAXOPBLOCKS is 10. The number is known
  exactly (`InodeLayer.LogsExactly`, `InodeLayer.LogCostBySize`), and writes of a length fit at every
  offset of every file if and only if it is at most 3073 bytes (`InodeLayer.SafeLength`).
- `setpriority` keeps every process on the list for its state. It puts a running process whose
  priority changes on a ready list and leaves it RUNNING (proc.c:1293-1299). A run gets there
  whenever there are two priorities (`ProcMachine.TwoPrioritiesMove`); this and nothing else breaks
  the lists (`ProcMachine.SetPriorityExact`). With MAXPRIO = 0, as configured, it cannot happen.
- `deallocuvm` unmaps every page of its range. It steps over 4 MB when it meets a missing page table,
  from wherever it is, and can miss pages behind the gap (`Vm.PageMissed`, `Vm.MissedExactly`); not in
  `freevm` nor when user pages have no gap (`Vm.NothingMissed`).
- Pages are conserved when memory runs out. `allocuvm` ignores a failing `mappages` and loses the page
  (`Vm.GrowthLoses`), `setupkvm` loses what it has taken (`Vm.SetupLoses`), and `copyuvm` loses a page
  that it could not map (`Vm.CopyLoses`). `Vm.Vm.Allocuvm`, `Vm.Vm.Setupkvm` and `Vm.Vm.Copyuvm` say for
  which numbers of free pages that happens, and which pages are lost. With room for the largest size
  nothing is (`Vm.Vm.Lifetime`).
- Link counts are right. A new entry in a directory that has been removed but is still held breaks
  them (`LinkCounts.RemovedButHeld`), and only that does (`LinkCounts.LinkExact`,
  `LinkCounts.MakeFileExact`, `LinkCounts.MakeDirExact`).

Some more of the code's behaviour that the models keep:

- `&` does not separate commands in the shell: `c & d` is a syntax error (`ShellSyntax.NoWordBehindAmp`).
- `kill` puts a sleeper on ready list 0 whatever its priority, so ready list 0 holds killed processes
  too. After `kill` of an embryo whose `fork` then fails the flag stays set on the free slot.
- `wait` compares the pid of the parent, which is absent for init and fresh embryos; an absent parent
  is taken as no match. Its `havekids` is not reset between rounds; that makes no difference
  (`ProcKids.HavekidsStays`).

## Model

| member | source | states |
|---|---|---|
| `LogLayout.DurableAt` | CS333/xv6-pdx/log.c:68-95 | Block by block, what recovery would leave on disk: the log copy of a block the on-disk header names, the home copy of any other block. |
| `LogLayout.LogBlockWrite` | CS333/xv6-pdx/log.c:174-187 | Writing a log block while the on-disk header is empty changes nothing durable. |
| `LogLayout.HeaderWriteGroup` | CS333/xv6-pdx/log.c:100-112 | One header write makes all the blocks it names durable at once, with their log copies, and changes no other block. |
| `LogLayout.HomeWrite` | CS333/xv6-pdx/log.c:68-81 | Installing a logged block at home changes nothing durable. |
| `LogLayout.HeaderClear` | CS333/xv6-pdx/log.c:189-199 | Clearing the header once every logged block is at home changes nothing durable. |
| `LogMachine.LogWriteKeepsInv` | CS333/xv6-pdx/log.c:210-230 | `log_write` keeps the machine invariant (header distinct and in range, clean buffers equal to the disk, pinned buffers logged). |
| `LogMachine.CopyToLogKeepsInv` | CS333/xv6-pdx/log.c:174-187 | So does each single log-block write of a commit. |
| `LogMachine.WriteHeadKeepsInv` | CS333/xv6-pdx/log.c:100-112 | So does the header write. |
| `LogMachine.InstallBlockKeepsInv` | CS333/xv6-pdx/log.c:68-81 | So does each single home-block write, in a commit and in a recovery, also one that repeats an interrupted recovery. |
| `LogMachine.ClearHeadKeepsInv` | CS333/xv6-pdx/log.c:189-199 | So does clearing the header. |
| `LogMachine.ReadHeadKeepsInv` | CS333/xv6-pdx/log.c:84-95 | So does reading the header at boot. |
| `LogMachine.StepKeepsInv` | CS333/xv6-pdx/log.c:114-230 | Every step keeps the invariant: cache hits, misses and recycling, modifications, `log_write`, each single disk write, crash, and start of recovery. |
| `LogMachine.InvAlways` | CS333/xv6-pdx/log.c:52-230 | The invariant holds in every state of every run. |
| `LogMachine.StepDurable` | CS333/xv6-pdx/log.c:68-199 | Of all steps only the header write of a commit changes what is durable, and it adds exactly the contents of the logged blocks. |
| `LogMachine.CrashAtomicity` | CS333/xv6-pdx/log.c:68-199 | Crash atomicity: for every run, with crashes between any two disk writes and during recovery, repeatedly, the durable contents are the initial ones with a whole number of committed groups applied in commit order. |
| `LogMachine.HomeBlocksAfterRecovery` | CS333/xv6-pdx/log.c:114-121 | Whenever nothing is being installed, the home blocks on disk are exactly that store: nothing uncommitted, nothing lost. |
| `LogMachine.CommitWroteHeader` | CS333/xv6-pdx/log.c:189-199 | A commit past its header write has its group as the last one in the store, and still has it however long installing takes. |
| `LogMachine.CommitReturned` | CS333/xv6-pdx/log.c:189-199 | When a commit returns, the group it committed is in the store, at its place, and stays there in every later state of the run, crashes included. |
| `LogMachine.GroupsGrow` | CS333/xv6-pdx/log.c:189-199 | The committed groups of an earlier moment are the first of those of any later one. |
| `LogMachine.CommitMakesViewDurable` | CS333/xv6-pdx/log.c:189-199 | The header write makes durable what readers see in every block nobody holds, logged or not. |
| `LogMachine.PinnedAreLogged` | CS333/xv6-pdx/log.c:210-230 | In every run, between commits, the dirty buffers are exactly the entries of the in-memory header, which are distinct. |
| `LogDurable.OutstandingCounts` | CS333/xv6-pdx/log.c:124-172 | The count of outstanding operations is that of the `begin_op` and `end_op` steps since the last crash. |
| `LogDurable.LastEndOpCommits` | CS333/xv6-pdx/log.c:144-172 | The last `end_op` of a run starts a commit of everything logged, if anything is. |
| `LogDurable.SettledRunIsDurable` | CS333/xv6-pdx/log.c:144-199 | In every run: when all operations have ended and no commit is going on, the header is empty and what readers see in every block nobody holds is durable. |
| `LogDurable.FinishedSurvives` | CS333/xv6-pdx/log.c:144-199 | Durability: what an operation stored, and nobody overwrote before all operations had ended and the commit was over, is durable at every later step, across any crashes and recoveries, until a later commit of that block. |
| `LogDurable.OwnStepEnabled` | CS333/xv6-pdx/log.c:68-199 | While nobody holds a buffer, a commit or recovery can always do its next step. |
| `LogDurable.Finishes` | CS333/xv6-pdx/log.c:68-199 | It ends after exactly as many steps as are left by its phase; readers see what they saw, and a recovery changes nothing durable. |
| `LogDurable.WriteBecomesDurable` | CS333/xv6-pdx/log.c:124-230 | From every settled state a whole operation can be carried through, from `begin_op` over `bread`, `log_write` and `brelse` to the end of its commit: the durable contents are the old ones with that block changed. |
| `LogMachine.NoSteal` | CS333/xv6-pdx/log.c:68-81 | A home block on disk changes only by installation, when the header on disk names it. |
| `LogMachine.RecycleKeepsInv` | CS333/xv6-pdx/bio.c:83-94 | Recycling a clean free buffer keeps the machine invariant. |
| `LogMachine.CacheIsFlatMap` | CS333/xv6-pdx/bio.c:62-142 | The cache is one flat block map: outside recovery and crashes, no step changes what `bread` returns for a block except a modification of that block by a running operation. |
| `LogMachine.ReadsLatestWrite` | CS333/xv6-pdx/bio.c:62-142 | Over any run without a crash, `bread` returns what was stored last, however often the block was released, recycled, committed or installed in between. |
| `LogMachine.CrashKeepsInv` | CS333/xv6-pdx/memide.c:38-59 | A crash keeps the disk as the single-block writes left it, loses the cache and the in-memory header, and keeps the invariant that recovery needs. |
| `LogReservation.StepKeepsReserved` | CS333/xv6-pdx/log.c:124-140 | Header length plus all unused reservations stays within LOGSIZE over every step, as long as no operation adds more than MAXOPBLOCKS blocks to the header; a `log_write` that finds the header full repeats a block, by an operation that has used up its reservation. |
| `LogReservation.ReservedAlways` | CS333/xv6-pdx/log.c:124-172 | The same in every run, for any number of interleaved operations. |
| `LogReservation.PanicExactly` | CS333/xv6-pdx/log.c:210-217 | With a log larger than LOGSIZE a `log_write` of such a run panics if and only if the header is full; then the block is already in the header and the operation has used up its reservation. |
| `LogReservation.QuietExactly` | CS333/xv6-pdx/log.c:210-217 | Such a run has no panic if and only if no operation repeats a block while the header is full. |
| `LogReservation.LargeLogIsQuiet` | CS333/xv6-pdx/log.c:210-217 | With a log larger than LOGSIZE no run reaches the "too big a transaction" panic if no operation that has used up its reservation calls `log_write` again. |
| `LogRefines.AccountFollows` | CS333/xv6-pdx/log.c:124-230 | The account of reservations follows the log machine: every step of the machine is a step of the account or leaves it alone, and `log_write` goes through only where the account does not panic. |
| `LogRefines.PanicsAlike` | CS333/xv6-pdx/log.c:210-217 | It goes through exactly there. |
| `LogReservation.RelogPanics` | CS333/xv6-pdx/log.c:210-224 | For every size of the log there is a run that panics although each operation adds at most MAXOPBLOCKS blocks and logs at most as many distinct ones. |
| `LogReservation.SmallLogPanics` | CS333/xv6-pdx/mkfs.c:25 | With a log of LOGSIZE blocks or fewer some run of operations that keep to their reservation reaches the panic. |
| `BufferCache.UnlinkKeepsRing` | CS333/xv6-pdx/bio.c:131-132 | Unlinking a buffer from the doubly linked list leaves the list without it, both ways round. |
| `BufferCache.InsertFrontKeepsRing` | CS333/xv6-pdx/bio.c:133-136 | Linking a buffer in after the head puts it at the front, both ways round. |
| `BufferCache.MoveToFrontKeeps` | CS333/xv6-pdx/bio.c:123-142 | Moving a released buffer to the front keeps the list a permutation of all buffers in order of last release. |
| `BufferCache.RefillKeepsView` | CS333/xv6-pdx/bio.c:83-109 | Recycling a clean free buffer and reading another block into it changes no block that callers see. |
| `BufferCache.SameBlockKeeps` | CS333/xv6-pdx/bio.c:99-120 | Changing one buffer of a block changes what callers see of that block and no other. |
| `BufferCache.SameBlockKeepsUnique` | CS333/xv6-pdx/bio.c:62-97 | At most one buffer per device and block. |
| `BufferCache.Bcache.constructor` | CS333/xv6-pdx/bio.c:39-59 | All buffers unused and on the list, links consistent. |
| `BufferCache.Bcache.Brelse` | CS333/xv6-pdx/bio.c:123-142 | The buffer is free, at the front of the list, and the list is in order of last release again. |
| `BufferCache.Bcache.FindCached` | CS333/xv6-pdx/bio.c:70-81 | The buffer that caches the block, or none and then no buffer does. |
| `BufferCache.Bcache.FindRecyclable` | CS333/xv6-pdx/bio.c:83-94 | Of all clean buffers nobody holds, the one released longest ago; none only if there is none. |
| `BufferCache.Bcache.Bget` | CS333/xv6-pdx/bio.c:62-97 | A cached block: that buffer, made busy, or sleep if it is held. Otherwise the least recently released clean free buffer. Panic exactly when there is neither. |
| `BufferCache.Bcache.Bread` | CS333/xv6-pdx/bio.c:99-110 | A busy buffer with the contents of the block; a miss takes them from the disk, and callers see the same as before. |
| `BufferCache.Bcache.Bwrite` | CS333/xv6-pdx/bio.c:112-120 | Exactly that block is written to the disk, as one more entry of the write history, and the buffer is clean. |
| `BufferCache.Bcache.Release` | CS333/xv6-pdx/bio.c:123-142 | Giving up a buffer that is pinned or equal to the disk keeps all blocks as callers see them. |
| `Log.InstallPrefix` | CS333/xv6-pdx/log.c:68-81 | An installation stopped after any number of its writes leaves the durable contents as they were. |
| `Log.RecoverAnyPrefix` | CS333/xv6-pdx/log.c:114-121 | So does a recovery stopped after any number of its writes, none and all included. |
| `Log.RecoverRestores` | CS333/xv6-pdx/log.c:114-121 | A completed recovery has every block at home with its durable contents. |
| `Log.LogPrefix` | CS333/xv6-pdx/log.c:174-187 | `write_log` stopped anywhere leaves the durable contents as they were. |
| `Log.HeaderCommits` | CS333/xv6-pdx/log.c:100-112 | Right after the header write the durable contents have the whole group. |
| `Log.CommitEndsLikeRecovery` | CS333/xv6-pdx/log.c:189-199 | The writes of a commit after its header write are those of a recovery from that disk. |
| `Log.CommitAnyPrefix` | CS333/xv6-pdx/log.c:189-199 | A commit stopped after any number of its writes has made durable nothing of its group before the header write and all of it from then on. |
| `Log.Log.constructor` | CS333/xv6-pdx/log.c:52-65 | An empty header over a clean cache. |
| `Log.Log.WriteLog` | CS333/xv6-pdx/log.c:174-187 | The disk writes are exactly the logged blocks as callers see them, in header order, into the log area; succeeds if the logged blocks are pinned and one clean buffer is free. |
| `Log.Log.InstallTrans` | CS333/xv6-pdx/log.c:68-81 | The disk writes are exactly the log copies to their home blocks, in order; those blocks are no longer pinned. |
| `Log.Log.WriteHead` | CS333/xv6-pdx/log.c:100-112 | One disk write: the header block with the count and the entries, its other words kept. |
| `Log.Log.ReadHead` | CS333/xv6-pdx/log.c:84-95 | The in-memory header becomes the one on disk. |
| `Log.Log.Commit` | CS333/xv6-pdx/log.c:189-199 | The disk writes are exactly log blocks, header, home blocks, empty header, in this order, or none for an empty header; buffers of other blocks may be held and stay as they are; succeeds with one clean free buffer. |
| `Log.Log.Recover` | CS333/xv6-pdx/log.c:114-121 | The disk writes are exactly those of a recovery, and every home block ends with its durable contents; never fails with two buffers. |
| `Log.Log.LogWrite` | CS333/xv6-pdx/log.c:210-230 | Panics exactly when the header is full or no operation is running, even for a block already logged; otherwise the block is in the header once and its buffer pinned. |
| `Log.Log.BeginOp` | CS333/xv6-pdx/log.c:124-140 | Admitted exactly when nothing commits and all reservations fit. |
| `Log.Log.EndOp` | CS333/xv6-pdx/log.c:144-172 | The last operation commits: exactly the writes of a commit, the header empty, the logged blocks unpinned; earlier ones write nothing. Held buffers stay as they are. |
| `LogRefines.SameKept` | CS333/xv6-pdx/log.c:189-199 | During a commit of the machine no step of any process changes what a home block reads. |
| `LogRefines.CommitRefines` | CS333/xv6-pdx/log.c:174-199 | Refinement: a commit of the machine has at every moment done the first w of the writes that `Log.Commit` does, w being the number of its disk-writing steps so far, whatever other processes have read, released or recycled in between; it has done all of them exactly when the header is cleared. |
| `LogRefines.CommitAgrees` | CS333/xv6-pdx/log.c:189-199 | From the same disk and the same view, a whole commit of the machine and `Log.Commit` end with the same disk and every block reading the same. |
| `LogRefines.RecoverRefines` | CS333/xv6-pdx/log.c:68-121 | The same for a recovery between two crashes: the first w of the writes of `Log.Recover`, and all of them exactly when the header is cleared. |
| `ProcTable.RemoveMembers` | CS333/xv6-pdx/proc.c:1073-1114 | Removing a slot from a list without repetitions takes out that slot and no other. |
| `ProcTable.MoveKeepsPartition` | CS333/xv6-pdx/proc.c:1057-1114 | Taking a slot off its list and appending it to the list for its new state keeps every slot on exactly one list, the one for its state. |
| `ProcMachine.YieldKeeps` | CS333/xv6-pdx/proc.c:766-787 | `yield` reaches no panic and keeps the invariant, also when the budget is used up and the process is demoted. |
| `ProcMachine.SleepOnOtherKeeps` | CS333/xv6-pdx/proc.c:813-851 | `sleep` on any channel but a process address keeps it. |
| `ProcMachine.WakeupOk` | CS333/xv6-pdx/proc.c:867-888 | `wakeup1` moves exactly the sleepers on the channel to the ready lists of their priorities and touches nobody else. |
| `ProcMachine.WakeupKeeps` | CS333/xv6-pdx/proc.c:890-896 | `wakeup` on such a channel keeps the invariant. |
| `ProcMachine.PickKeeps` | CS333/xv6-pdx/proc.c:674-702 | The pick of the scheduler keeps it, for any CPU that runs nothing. |
| `ProcMachine.PromoteNoPanic` | CS333/xv6-pdx/proc.c:624-672 | None of the three panics of a promotion can be reached. |
| `ProcMachine.PromoteKeeps` | CS333/xv6-pdx/proc.c:624-672 | A promotion keeps the invariant. |
| `ProcMachine.KillKeeps` | CS333/xv6-pdx/proc.c:922-988 | `kill` keeps the invariant, for a process in any state or none. |
| `ProcMachine.SetPriorityKeeps` | CS333/xv6-pdx/proc.c:1272-1369 | `setpriority` keeps it for ready and sleeping processes and for unchanged or invalid priorities. |
| `ProcMachine.SetPriorityBreaks` | CS333/xv6-pdx/proc.c:1286-1302 | Raising or lowering a running process always breaks the partition. |
| `ProcMachine.SetPriorityExact` | CS333/xv6-pdx/proc.c:1272-1369 | `setpriority` keeps the invariant if and only if it does not change the priority of a running process. |
| `ProcMachine.TwoPrioritiesMove` | CS333/xv6-pdx/proc.c:1286-1302 | With two or more priorities, for any number of slots and CPUs, a run from boot reaches such a state. |
| `ProcMachine.AllocProcKeeps` | CS333/xv6-pdx/proc.c:68-150 | `allocproc` in `fork` keeps the invariant, with a free slot and without. |
| `ProcMachine.AbortForkKeeps` | CS333/xv6-pdx/proc.c:247-262 | Giving the embryo back when memory runs out keeps it. |
| `ProcMachine.FinishForkKeeps` | CS333/xv6-pdx/proc.c:283-296 | Making the embryo runnable keeps it. |
| `ProcMachine.SetParentKeeps` | CS333/xv6-pdx/proc.c:263-264 | Setting the parent of the embryo keeps it. |
| `ProcMachine.ChildIsOwn` | CS333/xv6-pdx/proc.c:479-537 | The test on the pid of the parent finds exactly the own children, in every state, embryos included. |
| `ProcMachine.WaitKeeps` | CS333/xv6-pdx/proc.c:467-555 | `wait` keeps the invariant, whether it reaps, returns or sleeps. |
| `ProcMachine.WaitReapsOwn` | CS333/xv6-pdx/proc.c:476-499 | What `wait` reaps is an own zombie child, and it finds one whenever there is one. |
| `ProcMachine.WaitCountsKids` | CS333/xv6-pdx/proc.c:500-543 | `wait` reports no children exactly when no slot names the caller as its parent. |
| `ProcKids.StepKeepsChild` | CS333/xv6-pdx/proc.c:467-555 | A child stays a child of the same parent over every step except the parent's own `wait` that reaps and its exit. |
| `ProcKids.ChildStays` | CS333/xv6-pdx/proc.c:467-555 | The same over whole runs. |
| `ProcKids.RoundIsWait` | CS333/xv6-pdx/proc.c:473-543 | A round of `wait` that starts with `havekids` set does what one does that counts afresh, when the caller has a child. |
| `ProcKids.HavekidsStays` | CS333/xv6-pdx/proc.c:473-553 | So not resetting `havekids` makes no difference: after any number of rounds and steps of others a round with the flag left set is one with the flag reset. |
| `ProcMachine.ExitFamily` | CS333/xv6-pdx/proc.c:369-407 | After `exit` no slot names the process as its parent, and the parent relation is in order. |
| `ProcMachine.ExitKeeps` | CS333/xv6-pdx/proc.c:347-420 | `exit` reaches no panic, keeps the invariant, leaves a zombie and no children. |
| `ProcMachine.StepKeepsInv` | CS333/xv6-pdx/proc.c:611-988 | Every locked section, by any CPU, completes and keeps the invariant, `setpriority` on a running process with another priority excepted. |
| `ProcMachine.InitialInv` | CS333/xv6-pdx/proc.c:154-210 | The table that `userinit` leaves satisfies the invariant. |
| `ProcMachine.BootInitial` | CS333/xv6-pdx/proc.c:154-210 | There is such a table for every configuration. |
| `ProcMachine.InvAlways` | CS333/xv6-pdx/proc.c:68-988 | The invariant holds in every state of every run, for any number of CPUs, slots and priorities. |
| `ProcMachine.NoPanic` | CS333/xv6-pdx/proc.c:68-988 | No run reaches a panic of the lists, of `assertState`, of `sched` or of a promotion. |
| `ProcMachine.OnOneList` | CS333/xv6-pdx/proc.c:1057-1114 | In every reachable table each slot is on exactly one list, once; it is the list for its state, and on ready list i it has priority i, or i is 0 and it has been killed. |
| `ProcMachine.RunningIsCurrent` | CS333/xv6-pdx/proc.c:674-702 | In every reachable table the running list is exactly the processes current on some CPU, none on two. |
| `ProcMachine.NoLostWakeup` | CS333/xv6-pdx/proc.c:369-553 | In every reachable table a process asleep on its own address has no zombie child, and the parent of every zombie is live and not a zombie. |
| `ProcFields.YieldFields` | CS333/xv6-pdx/proc.c:766-787 | `yield`: the process is ready, last on the list of its priority, and charged; a used-up budget is renewed and demotes it if it can be; the CPU is free; nothing else changes. |
| `ProcFields.SleepFields` | CS333/xv6-pdx/proc.c:813-851 | `sleep`: asleep on the channel, last on the sleep list, charged in the same way; nothing else changes. |
| `ProcFields.PickFields` | CS333/xv6-pdx/proc.c:674-702 | The scheduler takes the first process of the best ready list that is not empty, and nobody only if nobody is ready; it runs, its channel is cleared. |
| `ProcFields.PromoteFields` | CS333/xv6-pdx/proc.c:624-672 | A promotion takes one off the priority of every running or sleeping process and of every ready one not on list 0, down to 0, and changes no other field. |
| `ProcFields.AllocProcFields` | CS333/xv6-pdx/proc.c:68-150 | The first free slot becomes an embryo with the next pid, priority 0 and a full budget; none is taken only if there is none. |
| `ProcFields.AbortForkFields` | CS333/xv6-pdx/proc.c:247-262 | The embryo is a free slot again and nothing else changes. |
| `ProcFields.FinishForkFields` | CS333/xv6-pdx/proc.c:283-296 | The child is ready with the priority of its parent, last on that list; nothing else changes. |
| `ProcFields.SearchFinds` | CS333/xv6-pdx/proc.c:922-988 | The searches of `kill` and `setpriority` succeed exactly when a used slot, or a live one, has the pid. |
| `ProcFields.KillFields` | CS333/xv6-pdx/proc.c:922-988 | `kill` marks the process with the pid in every state; a sleeper becomes ready, last on list 0; nothing else changes, and nothing at all if no used slot has the pid. |
| `ProcFields.SetPriorityFields` | CS333/xv6-pdx/proc.c:1272-1369 | `setpriority` gives the live process with the pid the priority and a full budget; with a new priority a ready or running one goes to the end of that ready list, a sleeper stays; nothing else changes, and nothing at all out of range or without such a process. |
| `ProcFields.WaitFields` | CS333/xv6-pdx/proc.c:467-555 | `wait` clears a zombie child and frees its slot if there is one; does nothing without children or when killed; else sleeps on the own address, charged. |
| `ProcFields.ExitFields` | CS333/xv6-pdx/proc.c:347-420 | `exit`: the process is a zombie, charged; its children belong to init; exactly its parent, and init if a child was a zombie, are woken out of `wait`. |
| `ProcFields.WakeupOrder` | CS333/xv6-pdx/proc.c:867-888 | The woken processes join the ready lists of their priorities at the end, in the order of the sleep list. |
| `ProcLife.LifeOfAChild` | CS333/xv6-pdx/proc.c:236-555 | From every state with a free slot, a childless process that has not been killed and nobody ready, `fork`, `wait`, the `exit` of the child and `wait` can be carried through: the slot of the child is free again, and besides the pid counter and the charge nothing has changed. |
| `ProcMachine.OnePriorityNeverMoves` | CS333/xv6-pdx/param.h:21 | With MAXPRIO = 0 the excepted branch of `setpriority` is unreachable. |
| `ProcMachine.NoPanicAsConfigured` | CS333/xv6-pdx/param.h:21 | With MAXPRIO = 0 no run reaches a panic, nothing excepted. |
| `ProcProgress.StaysReady` | CS333/xv6-pdx/proc.c:766-988 | A section other than a pick, a promotion or a `setpriority` on it leaves a ready process on its list, with no more processes ahead. |
| `ProcProgress.PickCloser` | CS333/xv6-pdx/proc.c:674-702 | A pick takes the process, or leaves it no later; a pick from list 0 brings it one place closer. |
| `ProcProgress.PromoteUp` | CS333/xv6-pdx/proc.c:641-657 | A promotion moves a ready process to the next better list, and within list 0 not at all. |
| `ProcProgress.StepRank` | CS333/xv6-pdx/proc.c:624-758 | The pair (list, place) of a waiting process never grows: the list falls by one with each promotion and changes in no other way; on list 0 the place falls with every pick. |
| `ProcProgress.QueueFalls` | CS333/xv6-pdx/proc.c:624-672 | While a process waits, its list number is what the promotions so far have left of it. |
| `ProcProgress.PositionFalls` | CS333/xv6-pdx/proc.c:674-702 | On list 0 the picks that pass it are no more than the places it moves up. |
| `ProcProgress.PickedInTime` | CS333/xv6-pdx/proc.c:624-702 | Progress: after MAXPRIO promotions a process that is still waiting has seen fewer than NPROC picks since. |
| `ProcLinks.AddFirst` | CS333/xv6-pdx/proc.c:1060-1063 | Appending to an empty list: head and tail are the process; all other chains are kept. |
| `ProcLinks.AddLast` | CS333/xv6-pdx/proc.c:1064-1068 | Appending behind the tail gives the chain with the process at its end; all other chains are kept. |
| `ProcLinks.RemoveFirst` | CS333/xv6-pdx/proc.c:1083-1086 | Unlinking the head is right although the tail is left alone: the tail matters only while the list is not empty. |
| `ProcLinks.RemoveLast` | CS333/xv6-pdx/proc.c:1103-1111 | Unlinking the last of several moves the tail back. |
| `ProcLinks.RemoveMiddle` | CS333/xv6-pdx/proc.c:1106-1111 | Unlinking from the middle keeps both ends. |
| `ProcLists.RaisedAt` | CS333/xv6-pdx/proc.c:641-657 | List by list: after the first i ready lists have been raised in turn, list 0 is the old lists 0 and 1 joined in order, and each list below i the old one after it. |
| `ProcLists.RaisedIsPromoted` | CS333/xv6-pdx/proc.c:641-657 | A promotion turns the ready lists into 0 and 1 joined, 2, 3, ..., empty, with order kept. |
| `ProcLists.PromotedByList` | CS333/xv6-pdx/proc.c:630-668 | The three passes visit each process once: every priority above 0 of a running, ready or sleeping process falls by exactly one. |
| `ProcLists.WokenUp` | CS333/xv6-pdx/proc.c:867-888 | After a wakeup nobody sleeps on the channel. |
| `ProcLists.ZombieStep` | CS333/xv6-pdx/proc.c:401-407 | Waking init again after another zombie child has been handed over has no further effect. |
| `ProcLists.AllAdopted` | CS333/xv6-pdx/proc.c:374-407 | Going through the lists one by one reaches every child. |
| `ProcLists.SameZombies` | CS333/xv6-pdx/proc.c:401-407 | The zombie children that the last pass finds are those there were before the exit. |
| `ProcLists.PTable.constructor` | CS333/xv6-pdx/proc.c:154-210 | The links, lists and fields that boot leaves are the initial table. |
| `ProcLists.PTable.InitFreeList` | CS333/xv6-pdx/proc.c:1134-1146 | Every slot is on the free list, in order. |
| `ProcLists.PTable.UserInit` | CS333/xv6-pdx/proc.c:154-210 | The table is an initial one: the first process ready and alone, all other slots free. |
| `ProcLists.PTable.StateListAdd` | CS333/xv6-pdx/proc.c:1057-1071 | The chain of that list has the process at its end; nothing else changes. |
| `ProcLists.PTable.Walk` | CS333/xv6-pdx/proc.c:1080-1095 | The position of the process on the chain, or that it is not there. |
| `ProcLists.PTable.StateListRemove` | CS333/xv6-pdx/proc.c:1073-1114 | Fails exactly when the process is not on the list, changing nothing; otherwise takes out that process only. |
| `ProcLists.PTable.Relist` | CS333/xv6-pdx/proc.c:766-787 | Remove, check the state, change, append: done exactly as specified, or a panic exactly when the process is not there or in another state. |
| `ProcLists.PTable.Sched` | CS333/xv6-pdx/proc.c:722-763 | Charge and demotion, on the links, are those of the specification; so is every panic. |
| `ProcLists.PTable.Yield` | CS333/xv6-pdx/proc.c:766-787 | The links, fields and panics after `yield` are those of the specification. |
| `ProcLists.PTable.Sleep` | CS333/xv6-pdx/proc.c:813-851 | So for `sleep`. |
| `ProcLists.PTable.Wakeup` | CS333/xv6-pdx/proc.c:867-888 | The loop reads the link before it moves a sleeper away, and ends with the table of the specification. |
| `ProcLists.PTable.FirstReady` | CS333/xv6-pdx/proc.c:675-682 | The best ready list that is not empty. |
| `ProcLists.PTable.Pick` | CS333/xv6-pdx/proc.c:674-702 | The head of the best ready list runs on this CPU; nothing changes when all are empty. |
| `ProcLists.PTable.AllocProc` | CS333/xv6-pdx/proc.c:68-150 | The first free slot becomes an embryo with the next pid, or none is free. |
| `ProcLists.PTable.AbortFork` | CS333/xv6-pdx/proc.c:247-262 | The embryo is a free slot again. |
| `ProcLists.PTable.FinishFork` | CS333/xv6-pdx/proc.c:283-296 | The embryo is ready at the end of its list. |
| `ProcLists.PTable.Promote` | CS333/xv6-pdx/proc.c:624-672 | The passes over running, ready and sleeping lists, on the links, give the promoted table. |
| `ProcLists.PTable.Kill` | CS333/xv6-pdx/proc.c:922-988 | The searches in list order give the table of the specification, and 0 exactly when a used slot has the pid; then exactly that process is marked, and woken to ready list 0 if it slept. |
| `ProcLists.PTable.SetPriority` | CS333/xv6-pdx/proc.c:1272-1369 | So for `setpriority`, with the result -1 exactly for an invalid priority or no such process, and the fields of the process as in `SetPriorityFields`. |
| `ProcLists.PTable.Wait` | CS333/xv6-pdx/proc.c:467-555 | One round, from whatever `havekids` the rounds before have left, returns the pid of the reaped child, -1 for no children or a killed caller, or sleeps, with the table of the specification. |
| `ProcLists.PTable.Exit` | CS333/xv6-pdx/proc.c:347-420 | The passes over all lists with their wakeups give the table of the specification, and no panic. |
| `InodeDisk.GainedOwned` | CS333/xv6-pdx/fs.c:366-394 | Giving a file a fresh block keeps ownership: blocks of files are distinct, marked used and never metadata. |
| `InodeDisk.GainedPeek` | CS333/xv6-pdx/fs.c:366-394 | Giving a file a data block changes no byte that any file reads; the block is zero. |
| `InodeDisk.GainedIndirectPeek` | CS333/xv6-pdx/fs.c:379-383 | Nor does giving it an indirect block, because `balloc` has zeroed it. |
| `InodeDisk.PutOwned` | CS333/xv6-pdx/fs.c:494-500 | Writing bytes into a data block keeps ownership. |
| `InodeDisk.PutPeek` | CS333/xv6-pdx/fs.c:494-500 | It changes exactly the bytes of that file at those offsets, and no other file. |
| `InodeDisk.TruncatedOwned` | CS333/xv6-pdx/fs.c:401-429 | Truncation keeps ownership. |
| `InodeDisk.TruncatedPeek` | CS333/xv6-pdx/fs.c:401-429 | It changes no byte of another file. |
| `InodeDisk.TruncatedNoLeak` | CS333/xv6-pdx/fs.c:401-429 | It leaks no block: what is marked used afterwards is metadata or belongs to a file. |
| `InodeDisk.GainedNoLeak` | CS333/xv6-pdx/fs.c:366-394 | Nor does giving a file a block. |
| `InodeLayer.FreeNext` | CS333/xv6-pdx/fs.c:401-425 | The next block to be freed is still marked used, so "freeing free block" is unreachable. |
| `InodeLayer.AllFreed` | CS333/xv6-pdx/fs.c:401-425 | When both loops are done exactly the blocks of the inode have been freed. |
| `InodeLayer.BlocksDistinct` | CS333/xv6-pdx/fs.c:366-394 | Distinct block indexes of a file have distinct blocks. |
| `InodeLayer.WroteUpdated` | CS333/xv6-pdx/fs.c:477-507 | Writing the blocks and then recording the size is one splice of the byte sequence of the file. |
| `InodeLayer.Fs.constructor` | CS333/xv6-pdx/fs.c:53-75 | An empty disk satisfies the invariant. |
| `InodeLayer.Fs.Balloc` | CS333/xv6-pdx/fs.c:53-75 | The first free block, marked and zeroed; panics exactly when there is none. |
| `InodeLayer.Fs.Bfree` | CS333/xv6-pdx/fs.c:78-93 | The block is free; panics exactly when it already was. |
| `InodeLayer.Fs.Bmap` | CS333/xv6-pdx/fs.c:366-394 | The block of that index, allocated if there is none: no file reads differently, ownership is kept, and a mapped block costs nothing. Fails only past MAXFILE or with no free block. |
| `InodeLayer.Fs.Itrunc` | CS333/xv6-pdx/fs.c:401-429 | All blocks of the file are freed, each once and no other, and the file is empty; no panic. |
| `InodeLayer.Fs.Readi` | CS333/xv6-pdx/fs.c:449-473 | The bytes of the file from the offset on, as many as there are; refused exactly past the end or on wrap-around. A file without holes is read without any change. |
| `InodeLayer.Fs.Writei` | CS333/xv6-pdx/fs.c:477-507 | The byte sequence of the file is spliced and grown, no other file changes and no holes appear; refused exactly past the end, past MAXFILE or on wrap-around. The logged blocks are exactly the data blocks it reaches, the map blocks of the new ones, the indirect block if that gains an entry, and the inode block if the file grows. |
| `InodeLayer.ReadBack` | CS333/xv6-pdx/fs.c:449-507 | Reading what was written gives it back, every other byte is as before, and the file is as long as it has to be. |
| `InodeLayer.SnugKept` | CS333/xv6-pdx/fs.c:477-507 | Files that have exactly the blocks their size needs stay so over every write. |
| `InodeLayer.ChunkLogs` | CS333/xv6-pdx/file.c:132-151 | With a free map of one block a chunk logs exactly `LogCost` blocks, at most 17, and keeps to MAXOPBLOCKS if and only if that number does; a full chunk logs at least 13, more than MAXOPBLOCKS, for every offset and free map. |
| `InodeLayer.LogsExactly` | CS333/xv6-pdx/file.c:132-151 | The number of logged blocks: the blocks the write reaches, one for the map if a block is new, one for the indirect block if that gains an entry, one for the inode if the file grows. |
| `InodeLayer.LogCostBySize` | CS333/xv6-pdx/file.c:132-151 | For such files that number depends on the size of the file, the offset and the length alone. |
| `InodeLayer.SafeLength` | CS333/xv6-pdx/file.c:132-151 | A length keeps to MAXOPBLOCKS at every offset of every such file if and only if it is at most 3073 bytes, less than half a chunk. |
| `InodeLayer.UpdatedTrans` | CS333/xv6-pdx/file.c:134-151 | Two writes one after the other are one write of both. |
| `InodeLayer.Fs.WriteChunk` | CS333/xv6-pdx/file.c:134-147 | One chunk, one transaction: the file is spliced, and the number of logged blocks is exactly that of `LogsExactly`, by size alone when the file has just the blocks it needs. |
| `InodeLayer.Fs.Filewrite` | CS333/xv6-pdx/file.c:116-156 | The file has exactly the bytes of the chunks that were accepted, the offset moved by as many; it stops early only when `writei` refuses a chunk. |
| `LinkCounts.OneEntryInv` | CS333/xv6-pdx/sysfile.c:115-235 | Adding or removing one entry for a file, with its count, keeps the invariant: counts are the entries other than "." in linked directories, names are unique, ".." names the parent. |
| `LinkCounts.LinkExact` | CS333/xv6-pdx/sysfile.c:115-162 | A new link keeps the counts right if and only if the directory has not been removed. |
| `LinkCounts.UnlinkKeeps` | CS333/xv6-pdx/sysfile.c:208-226 | Removing an entry of a file keeps the invariant, and its count was positive: the panic is unreachable. |
| `LinkCounts.OnlyName` | CS333/xv6-pdx/sysfile.c:208-226 | An empty directory has exactly one link, its entry in the parent. |
| `LinkCounts.ParentStays` | CS333/xv6-pdx/sysfile.c:218-221 | Its parent has at least two, so it stays linked. |
| `LinkCounts.RemoveDirKeeps` | CS333/xv6-pdx/sysfile.c:208-226 | Removing an empty directory, with the count of its parent, keeps the invariant. |
| `LinkCounts.MakeFileExact` | CS333/xv6-pdx/sysfile.c:238-286 | A new file or device keeps it if and only if the parent has not been removed. |
| `LinkCounts.MakeDirExact` | CS333/xv6-pdx/sysfile.c:238-286 | So does a new directory with "." and "..". |
| `LinkCounts.RemovedButHeld` | CS333/xv6-pdx/sysfile.c:238-286 | A correct file system with a removed directory where a new link, a new file and a new directory each break the counts. |
| `Directories.Dirs.IsDirEmpty` | CS333/xv6-pdx/sysfile.c:164-178 | True exactly when no entry behind the first two is in use. |
| `Directories.Dirs.Link` | CS333/xv6-pdx/sysfile.c:115-162 | Succeeds exactly for a file, a parent that was found and a new name; a failure restores the count; the invariant holds afterwards unless the parent has been removed. |
| `Directories.Dirs.Unlink` | CS333/xv6-pdx/sysfile.c:181-235 | Succeeds exactly when the name is not a dot, is there, and names a file or an empty directory; then the name is gone, the counts are right and no panic is reached; otherwise nothing changes. |
| `Directories.Dirs.Create` | CS333/xv6-pdx/sysfile.c:238-286 | An existing name: its inode exactly if a file is asked for and it is one, and nothing changes; a new name: a new inode of the kind asked for with its links. Panics exactly when a new inode is needed and there is none; the invariant holds afterwards unless the parent has been removed. |
| `LinkCounts.ReclaimKeeps` | CS333/xv6-pdx/fs.c:327-347 | Freeing an inode without links keeps the invariant. |
| `Directories.Dirs.DirLookup` | CS333/xv6-pdx/fs.c:520-544 | The position of the entry with the name, or none and then there is none. |
| `Directories.Dirs.DirLink` | CS333/xv6-pdx/fs.c:547-574 | Refused exactly when the name is present; otherwise the first free place or a new one at the end has the entry. |
| `Directories.Dirs.Ialloc` | CS333/xv6-pdx/fs.c:176-196 | The first unused inode; 0 exactly when there is none. |
| `Directories.Dirs.Reclaim` | CS333/xv6-pdx/fs.c:327-347 | The inode is unused and the invariant kept. |
| `PageMap.AddTableSame` | CS333/xv6-pdx/vm.c:45-64 | A new zeroed page table changes no translation of any address space. |
| `PageMap.PutPteLookup` | CS333/xv6-pdx/vm.c:70-90 | Storing an entry changes the translation of that page in that space and no other. |
| `PageMap.PutPteSound` | CS333/xv6-pdx/vm.c:70-90 | It keeps the page tables sound: no user page is mapped twice, tables and directories are nobody else's pages. |
| `PageMap.TearDown` | CS333/xv6-pdx/vm.c:277-293 | With no user page left, giving up a directory with its tables leaves all other spaces sound. |
| `PageMap.MovesLookup` | CS333/xv6-pdx/vm.c:220-337 | Work on one address space changes no translation of another. |
| `Vm.VisitsAll` | CS333/xv6-pdx/vm.c:249-273 | From the start of a table's range, or from a page with a table, the walk comes to every page that has a table. |
| `Vm.VisitsAfter` | CS333/xv6-pdx/vm.c:259-262 | From a page without a table it comes to nothing before the same place in the next table's range. |
| `Vm.MissedExactly` | CS333/xv6-pdx/vm.c:249-273 | It misses exactly the mapped pages before that place. |
| `Vm.NothingMissed` | CS333/xv6-pdx/vm.c:249-273 | It misses nothing from a multiple of 4 MB on, or when its first page is mapped if any page of the range is. |
| `Vm.NoUserLeft` | CS333/xv6-pdx/vm.c:277-293 | After the walk of `freevm` the space has no user page. |
| `Vm.ShrunkBack` | CS333/xv6-pdx/vm.c:220-243 | A failing growth leaves exactly the translations there were. |
| `Vm.AllBytesMapped` | CS333/xv6-pdx/vm.c:220-243 | A space that had all its bytes has them after a growth that lost no page. |
| `Vm.NothingAbove` | CS333/xv6-pdx/vm.c:249-273 | Shrinking a space that had all its bytes leaves no page above. |
| `Vm.PagesConserved` | CS333/xv6-pdx/vm.c:277-293 | Over the life of an address space, from its free directory page to the end of `freevm`, every page is again what it was, if every step moved pages only between the free list and the space. |
| `Vm.OnePageLess` | CS333/xv6-pdx/vm.c:277-293 | If one page was lost on the way, all pages but that one are again what they were. |
| `Vm.LifeConserves` | CS333/xv6-pdx/vm.c:128-293 | Any sequence of growths that get stuck nowhere and of shrinkings, between `setupkvm` and `freevm`, gives back every page. |
| `Vm.NotStuck` | CS333/xv6-pdx/vm.c:231-240 | A growth gets stuck only on the last free page, at a page that needs a new table: not with enough free pages, nor when the free list is empty before a page is taken. |
| `Vm.MissingAbove` | CS333/xv6-pdx/vm.c:45-90 | The tables a growth needs are those of the 4 MB regions that the space has never reached. |
| `Vm.Vm.Walk` | CS333/xv6-pdx/vm.c:45-64 | The page table for a page, made if asked for, at the cost of one free page; no translation changes. Fails exactly when there is none and none is wanted or no page is free. |
| `Vm.Vm.MapOne` | CS333/xv6-pdx/vm.c:70-90 | Exactly this page gets a translation; "remap" exactly when it had one; out of pages exactly when its table is missing and no page is free. Every other page stays where it was. |
| `Vm.Vm.MapPages` | CS333/xv6-pdx/vm.c:70-90 | For user and kernel addresses: exactly the pages of the range get translations, in order, and no other changes; it takes one free page for each missing table and runs out only with fewer. |
| `Vm.Vm.Deallocuvm` | CS333/xv6-pdx/vm.c:249-273 | Exactly the mapped pages that the walk comes to are unmapped and freed; every address that is left reads as before. If all addresses below the old size were mapped, no page that begins at the new size or later and below the old one is left. |
| `Vm.Vm.Freevm` | CS333/xv6-pdx/vm.c:277-293 | Exactly the pages of this space, directory and tables included, are freed; no other page changes. |
| `Vm.Vm.Setupkvm` | CS333/xv6-pdx/vm.c:128-144 | A new space with exactly the kernel mappings, at the cost of one page and the kernel tables; fails exactly with fewer free pages, and then exactly the free pages are lost. |
| `Vm.Vm.Allocuvm` | CS333/xv6-pdx/vm.c:220-243 | In bytes: exactly the pages that begin at `oldsz` or later and below `newsz` read zero, or nothing is added, decided exactly by the number of free pages; every other address reads as before. One page is lost if and only if it is the last free one and its table is missing; if that is the last page of the range the call still succeeds, without it. Otherwise, if all addresses below `oldsz` were mapped, all below `newsz` are. |
| `Vm.Vm.Copyuvm` | CS333/xv6-pdx/vm.c:309-337 | Every address in a page that begins below `sz` reads in the child as in the parent, with the same flags, from fresh pages, and no other user address is mapped; parent and others are untouched. Succeeds exactly with enough free pages. A failure gives back every page, except that all free pages are lost when `setupkvm` fails and one is exactly when it could not be mapped. |
| `Vm.Vm.Lifetime` | CS333/xv6-pdx/vm.c:128-293 | With free pages for the largest size, making a space, resizing it any number of times to any sizes and freeing it leaves every page, and the set of free pages, as before. |
| `Vm.PageMissed` | CS333/xv6-pdx/vm.c:249-273 | A page behind a missing table that the walk steps over. |
| `Vm.GrowthLoses` | CS333/xv6-pdx/vm.c:231-240 | A growth that reports success without its page, which is lost. |
| `Vm.SetupLoses` | CS333/xv6-pdx/vm.c:133-142 | A failing `setupkvm` that loses a page. |
| `Vm.CopyLoses` | CS333/xv6-pdx/vm.c:318-336 | A failing `copyuvm` that loses a page. |
| `Vm.Vm.Resize` | CS333/xv6-pdx/proc.c:213-231 | Growing and shrinking as `growproc` does: with room for the largest size it never fails nor loses a page, and what the space has taken is known exactly by its size and the largest it has had. |
| `Vm.Vm.constructor` | CS333/xv6-pdx/kalloc.c:45-52 | The pages after the kernel are free, each once. |
| `Vm.Vm.Kfree` | CS333/xv6-pdx/kalloc.c:59-77 | The page is free, first on the list, filled with ones; no translation changes. |
| `Vm.Vm.Kalloc` | CS333/xv6-pdx/kalloc.c:82-95 | A free page, no longer free; null exactly when there is none. |
| `HeapList.InsertOrdered` | CS333/xv6-pdx/umalloc.c:30-43 | Linking in a block at its place keeps the list ordered by address and disjoint. |
| `HeapList.UpperJoined` | CS333/xv6-pdx/umalloc.c:33-37 | Joining with the block after it, when they touch, keeps the list ordered, and free memory is the old plus the new. |
| `HeapList.MergeOrdered` | CS333/xv6-pdx/umalloc.c:38-42 | So does joining with the block before. |
| `HeapList.Freed` | CS333/xv6-pdx/umalloc.c:24-44 | The free memory after `free` and the remaining allocated blocks are together all memory, without overlap. |
| `HeapList.Taken` | CS333/xv6-pdx/umalloc.c:75-85 | So are they after an allocation. |
| `HeapList.Grown` | CS333/xv6-pdx/umalloc.c:46-61 | Memory fresh from `sbrk` joins the heap. |
| `HeapCanonical.FreeListDetermined` | CS333/xv6-pdx/umalloc.c:24-90 | The free list is determined by the memory and the allocated blocks alone: two heaps that agree on these have the same list, sizes included. |
| `Heap.AllSmall` | CS333/xv6-pdx/umalloc.c:74-89 | Once round the ring without a fit means no free block is large enough. |
| `Heap.Heap.Between` | CS333/xv6-pdx/umalloc.c:30-32 | The tests of the search hold at the right place and nowhere else. |
| `Heap.Heap.FindPlace` | CS333/xv6-pdx/umalloc.c:30-32 | The search ends, at the place where the block belongs by address. |
| `Heap.Heap.JoinUpper` | CS333/xv6-pdx/umalloc.c:33-37 | The block takes over the free block behind it exactly when they touch. |
| `Heap.Heap.JoinLower` | CS333/xv6-pdx/umalloc.c:38-42 | The free block in front takes it over exactly when they touch, else it is linked in; the list is coalesced. |
| `Heap.Heap.constructor` | CS333/xv6-pdx/umalloc.c:21-22 | An empty heap. |
| `Heap.Heap.Free` | CS333/xv6-pdx/umalloc.c:24-44 | Exactly this block becomes free; the list is a circular, address-ordered, disjoint, fully coalesced list, and free and allocated bytes are together what `sbrk` gave. |
| `Heap.Heap.MoreCore` | CS333/xv6-pdx/umalloc.c:46-61 | The new memory is free and holds a block large enough, also when it was joined with others; null exactly when `sbrk` fails. |
| `Heap.Heap.Carve` | CS333/xv6-pdx/umalloc.c:75-85 | The whole block or its tail is allocated, apart from all others. |
| `Heap.Heap.Malloc` | CS333/xv6-pdx/umalloc.c:63-90 | An allocated block of the rounded-up size, apart from all others; null only when `sbrk` fails and no free block is large enough; memory is asked for only when none is. The search ends. |
| `Heap.Heap.AllocateAndFree` | CS333/xv6-pdx/umalloc.c:24-90 | `free` undoes `malloc`: unless memory came in, the free list is what it was. |
| `PipeBuffer.SamePlace` | CS333/xv6-pdx/pipe.c:84-115 | Counters that wrap at 2^32 index the ring as unbounded ones would, because PIPESIZE divides 2^32. |
| `PipeBuffer.Pipe.constructor` | CS333/xv6-pdx/pipe.c:21-56 | An empty open pipe. |
| `PipeBuffer.Pipe.Deposit` | CS333/xv6-pdx/pipe.c:92 | The byte is behind all others, with wrapped counters. |
| `PipeBuffer.Pipe.Withdraw` | CS333/xv6-pdx/pipe.c:112-116 | The byte that comes out is the oldest. |
| `PipeBuffer.Pipe.Write` | CS333/xv6-pdx/pipe.c:77-97 | The bytes accepted up to the next sleep or the end are the next ones of the caller, as many as fit; done exactly when all are in, else the pipe is full and the call fails if it was killed or the read end is closed, and sleeps otherwise. |
| `PipeBuffer.Pipe.Read` | CS333/xv6-pdx/pipe.c:99-120 | The oldest bytes, as many as there are up to n; sleeps exactly when empty with the write end open. |
| `PipeMachine.WriteKeepsInv` | CS333/xv6-pdx/pipe.c:77-97 | A section of a writer keeps the machine invariant. |
| `PipeMachine.ReadKeepsInv` | CS333/xv6-pdx/pipe.c:99-120 | So does one of a reader. |
| `PipeMachine.StepKeepsInv` | CS333/xv6-pdx/pipe.c:58-120 | So does every step, closing the ends and starting calls included. |
| `PipeMachine.InvAlways` | CS333/xv6-pdx/pipe.c:58-120 | It holds in every state of every run, for any number of readers and writers. |
| `PipeMachine.Fifo` | CS333/xv6-pdx/pipe.c:77-120 | What has been read and then what is buffered is what was deposited, in order, and the bytes of each call come in its own order. |
| `PipeMachine.NeverBothAsleep` | CS333/xv6-pdx/pipe.c:58-120 | Whenever the lock is free a sleeping writer means a full pipe with its read end open, and no reader sleeps. |
| `PipeMachine.WriteOutcome` | CS333/xv6-pdx/pipe.c:77-97 | What a section of a writer leads to, by the state it leaves. |
| `PipeMachine.WriterReturns` | CS333/xv6-pdx/pipe.c:77-97 | A write that returns its count has put all its bytes into the pipe, in order and once; it returns -1 only with bytes left over, and only if a section of it found the pipe full when it was killed or the read end was closed. |
| `PipeMachine.LiveWriterSendsAll` | CS333/xv6-pdx/pipe.c:77-97 | In every run: never killed and with the read end open, a write returns only when all its bytes are in the pipe. |
| `PipeMachine.ReaderReturns` | CS333/xv6-pdx/pipe.c:99-120 | A read that returns a count has got the oldest bytes, as many as it wanted or all there were; none only at the end of the file or if it wanted none; it returns -1 only when killed on an empty pipe that could still be written. |
| `PipeMachine.KilledCallsEnd` | CS333/xv6-pdx/pipe.c:84-120 | A sleeping call that is killed ends with its next section. |
| `PipeMachine.ReadersWaitExactly` | CS333/xv6-pdx/pipe.c:77-97 | "A sleeping reader means an empty pipe with the write end open" is kept by a step if and only if it is not a writer that fills the pipe and gives up while readers sleep. |
| `PipeMachine.ReadersWaitAlways` | CS333/xv6-pdx/pipe.c:58-120 | In runs without such steps it always holds. |
| `PipeMachine.ReaderLeftAsleep` | CS333/xv6-pdx/pipe.c:84-88 | A run in which it fails. |
| `PipeMachine.NextWriterWakes` | CS333/xv6-pdx/pipe.c:84-96 | A later section of a writer that does not give up wakes every reader. |
| `ShellRoundTrip.WordsRoundTrip` | CS333/xv6-pdx/sh.c:514-545 | The words of a simple command, written with spaces, are read back as they are. |
| `ShellRoundTrip.RoundTrip` | CS333/xv6-pdx/sh.c:426-545 | For every command tree with at most nine legal words per simple command, parsing its canonical text gives the tree and leaves what follows. |
| `ShellRoundTrip.LineRoundTrip` | CS333/xv6-pdx/sh.c:426-441 | A whole line with that text is parsed to the tree, with no leftovers. |
| `ShellWords.BuildsExactly` | CS333/xv6-pdx/sh.c:426-545 | The parser builds exactly the well-formed commands: a command tree comes out of some line if and only if its words are legal and no simple command has more than nine. |
| `ShellWords.TokenOk` | CS333/xv6-pdx/sh.c:364-407 | A word token is a longest run of word characters, and lies where the cursor says. |
| `ShellWords.ParsedWordsOk` | CS333/xv6-pdx/sh.c:426-545 | Every word of any parsed line stands in the line where the command says, and ends where no word goes on. |
| `ShellWords.EndsOutside` | CS333/xv6-pdx/sh.c:548-592 | No terminator falls on a character of a word. |
| `ShellWords.ReadsBack` | CS333/xv6-pdx/sh.c:548-592 | After all terminators have been written each word, read up to the first null, is itself. |
| `ShellSyntax.SameLine` | CS333/xv6-pdx/sh.c:426-545 | Parsing the text is parsing its tokens. |
| `ShellSyntax.ParsesExactly` | CS333/xv6-pdx/sh.c:426-545 | The parser is exact: a text is accepted if and only if its tokens are a line of the grammar (words and redirections in any order, blocks, pipes, `&` and `;`, at most nine words), and the command is what that line means: redirections from left to right, pipes and lists to the right, `&` on its own pipeline. |
| `ShellSyntax.WordsExactly` | CS333/xv6-pdx/sh.c:364-545 | The words of a parsed command, arguments and files, are exactly the longest runs of word characters of the line, each with its place: none is dropped and none made up. |
| `ShellSyntax.TokensSpell` | CS333/xv6-pdx/sh.c:364-407 | The tokens spell the line, but for white space. |
| `ShellSyntax.NoWordBehindAmp` | CS333/xv6-pdx/sh.c:443-458 | A line with a word behind `&` is refused. |
| `ShellParser.PeekAt` | CS333/xv6-pdx/sh.c:409-419 | The cursor behind the white space, and whether one of the characters comes next. |
| `ShellParser.NextToken` | CS333/xv6-pdx/sh.c:364-407 | The token and the cursor are those of the grammar. |
| `ShellParser.ParseRedirs` | CS333/xv6-pdx/sh.c:473-496 | The redirections in order, or the panic for a missing file, as in the grammar. |
| `ShellParser.ParseArgs` | CS333/xv6-pdx/sh.c:514-545 | The loop over words and redirections agrees with the grammar, panics for syntax and too many words included. |
| `ShellParser.ParseExecAt` | CS333/xv6-pdx/sh.c:498-545 | So do simple commands and blocks. |
| `ShellParser.ParsePipeAt` | CS333/xv6-pdx/sh.c:460-471 | So do pipes. |
| `ShellParser.ParseLineAt` | CS333/xv6-pdx/sh.c:443-458 | So do lines with `&` and `;`. Parsing ends on every line. |
| `ShellParser.NulTerminate` | CS333/xv6-pdx/sh.c:548-592 | A null behind every word of the command and no other change to the buffer. |
| `ShellParser.ParseCommand` | CS333/xv6-pdx/sh.c:426-441 | For every line: the command of the grammar or a panic, and in the buffer every word of it reads as itself. |
| `Grep.ConsIn` | CS333/xv6-pdx/grep.c:85-96 | A text is in the language of a pattern when its parts are in those of the first item and the rest. |
| `Grep.ConsOut` | CS333/xv6-pdx/grep.c:85-96 | And only then. |
| `Grep.MatchHere` | CS333/xv6-pdx/grep.c:85-96 | True exactly when a prefix of the text, all of it before a final `$`, is in the language of the pattern. |
| `Grep.MatchStar` | CS333/xv6-pdx/grep.c:98-106 | The same for a run of a character, then the pattern. |
| `Grep.Match` | CS333/xv6-pdx/grep.c:72-82 | True exactly when some substring is in the language of the pattern, at the start after `^` and up to the end before a final `$`, for all patterns and texts. |
| `Grep.ParseSpells` | CS333/xv6-pdx/grep.c:85-106 | Every regular expression is the text of the pattern it is read as. |
| `Grep.ParseWritten` | CS333/xv6-pdx/grep.c:85-106 | Every pattern that can be written is read back from its text. |
| `Grep.LiteralMatch` | CS333/xv6-pdx/grep.c:72-106 | A pattern without special characters matches exactly the texts that contain it. |
| `Grep.ItemMeans` | CS333/xv6-pdx/grep.c:85-106 | `.` stands for any character, `c*` for any run of `c`, and `.*` for anything. |

## Left out

- Log.Log.Commit: requires that nobody holds a block of the log area or a logged one, where the kernel's `bread` would sleep until it is released; commits that wait are those of `LogMachine`, tied to the class by `LogRefines`.
- Log.Log.EndOp: the same holds for the operation that commits.
- InodeLayer.ChunkLogs: the exact number is stated for a free map of one block, up to 4096 blocks, as `mkfs` makes it.
- Vm.Vm.MapPages: requires user frames to be pages taken from the free list that nothing maps, as its callers pass them.
- Vm.Vm.Resize: a `growproc` that shrinks to nothing keeps the old size in `proc->sz` (proc.c:221-224); the model goes on from what is mapped.
- Vm.Vm.Allocuvm: requires the added range to be unmapped, and Vm.Vm.Copyuvm requires every page below `sz` to be mapped; otherwise the kernel panics.
- Vm.Vm.Deallocuvm: requires the old size to end below the kernel; addresses do not wrap at 2^32.
- Vm.Vm.Setupkvm: the kernel map is a parameter, taken to be without overlap and above the user part.
- Heap.Heap.Malloc: the answer of `sbrk` is a parameter, taken to be memory the heap does not have yet; requests and addresses near 2^32 do not wrap.
- Directories.Dirs.Link: starts behind the path lookups, and so do `Unlink` and `Create`; names longer than DIRSIZ, which the kernel cuts, and link counts beyond 16 bits are not modelled.
- ProcLists.PTable.AllocProc: pids do not overflow; a failing kernel-stack allocation is the separate step `AbortFork`.
- ProcProgress.PickedInTime: the promotion deadline is not modelled, a promotion and a pick are separate steps.
- ShellParser.ParseExecAt: redirections are collected and wrapped around the command afterwards, not one by one.
- InodeLayer.Fs.Filewrite: covers the inode branch of `filewrite`; permissions and the pipe branch are not modelled.
- Lock internals, interrupts, context switches and memory ordering: a locked section is one step.
- The packing of free-map bits, page-table entries and log headers into bytes.
- In-core inodes, their reference counts, `iupdate`, and the device branches of `readi` and `writei`.
- Path walking (`skipelem`, `namex`), open files and file descriptors.
- `copyout`, `uva2ka`, `clearpteu`, `loaduvm`, `inituvm` and the TLB.
- The disk driver beyond single-block writes, boot, traps, console, `exec`, system-call arguments.
- `chown`, `chgrp`, `chmod`, uid and gid, process dumps, `getprocs`: simple field accesses.
- `mkfs` beyond the size of the log and the shape of an empty file system.
- Running commands in the shell, its builtins, and the line loop of `grep`.
