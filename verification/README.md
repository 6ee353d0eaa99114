# Verified models of xv6

This project models the parts of this xv6 (the RISC-V kernel, its shell, its user
allocator and mkfs, with the added MLFQ and lottery schedulers) whose correctness is
hardest to see from the code, and proves what they promise: for every input, for every
reachable state, and for the protocols over every run. `dafny verify dfyconfig.toml`
checks everything; there are no assumptions in it.

Code that updates things in place is a class whose methods have the source's loops and
are proved against specification functions; what the source promises is then proved of
those functions. Code that several processes or a device interleave is a state machine
whose steps are the lock-held regions (or single table slots, or single disk writes),
with an invariant proved step by step and then over every run. `panic` is a stop; where a
row says that a panic is unreachable, its condition is proved never to hold.

| modules | what they model | main results |
|---|---|---|
| Params, Collections, Arith | param.h and small shared lemmas | |
| Blocks, RedoLog, LogDisk, LogCode, LogRuns, LogSpace | log.c | crash atomicity over every run and crash point; no operation is split; admission and the exact condition for the "too big" panic |
| BufCache, LruRing | bio.c | the cache refines a plain map from block to contents; the LRU ring |
| Bitmap, FsOwner, FsBytes, FsInode, FsTrunc, FsCode, FsRuns, FileCode, FsCrash | fs.c, file.c | over any sequence of calls bitmap and block slots agree exactly, inodes on disk are those in memory, no holes appear and files act as byte sequences; every write chunk fits the log and logs all that it changes, so that a crash at any point of any commit leaves the files before it or those after it |
| Mkfs | mkfs.c | the image satisfies those invariants, with the exact condition for holes |
| LinkCount, Links, DirNames, LinksCode, LinkRuns, LinkWraps | directories and links in fs.c, sysfile.c | directories are maps from names, which every operation changes at its own name only; link counts, which are shorts, are exact all along a run if and only if none passes 32767; exactly when an operation would unbalance them |
| PageMem, PageWalk, VmSpan, VmCode, VmCopy, VmFree, VmBoot, VmLife, VmProcs | kalloc.c, vm.c, and the pages that allocproc, growproc, fork and freeproc take and give back | three-level tables refine a flat map; every page has one owner; copies are disjoint; destruction frees exactly the tree; over any sequence of calls every page is accounted for and no process's bytes change but by its own calls; exactly when the panics are reached |
| Lifecycle, LifecycleSteps, LifecycleRuns, LifecycleStory | fork, exit, wait, sleep, wakeup, kill in proc.c | no lost wakeup; wait sleeps exactly with a child and not killed; parents are alive; each zombie is reaped once, by its parent |
| Mlfq, Lottery | the schedulers in proc.c | priority between levels and order within them; bounded waiting and exactly when it fails; exact proportionality |
| VirtioState, VirtioSteps, VirtioCode, VirtioRuns | virtio_disk.c (sections 2.6 and 5.2 of Virtio 1.1) | every return is matched with its own submission and completion, in any order, across index wrap-around; a sector holds the last completed write to it; every descriptor is free or in exactly one chain |
| Pipes | pipe.c | what reads return, one after the other, is what writers stored, across counter wrap-around |
| FreeList, Umalloc | umalloc.c | ordered, coalesced, disjoint, conserved; live payloads untouched; at most one morecore |
| ShellSyntax, ShellAccept, ShellGrammar, ShellPrint, ShellRoundTrip, ShellCode | sh.c's parser | exactly which lines are accepted, and that every tree follows the grammar; print then parse is the identity, on every tree the parser can make; every word reads back as its token |

Some promises turn out not to hold of the code as it stands. Each is stated with the exact
condition under which it does hold:

- begin_op reserves up to LOGSIZE blocks, but log_write panics one entry earlier on an
  image whose log region has LOGSIZE blocks including its header, which is what mkfs
  makes; the panic is unreachable if and only if there are LOGSIZE slots besides the
  header (`LogSpace.TooBigExactly`).
- The MLFQ search for the smallest queue number starts from refmin1. A runnable process is
  dispatched within 48 + NPROC rounds, or never; and it is dispatched if and only if it does
  not get a number at or past refmin1 in queue 0 before that (`Mlfq.ServedExactly`).
- mkfs rounds the root directory's size up past its last block if and only if the
  directory's length is a multiple of BSIZE (`Mkfs.RootRounding`).
- malloc gets the memory it takes for granted if and only if the request to sbrk is below
  2 GiB, since sbrk takes an int (`Umalloc.Allocator.Morecore`, `Umalloc.MorecoreBacked`).
- link counts are shorts and sys_link does not look for room in them: they are exact all
  along a run if and only if no link takes one past 32767 (`LinkRuns.RunExact`), and
  otherwise the number of references as a short holds it (`LinkRuns.CountsWrap`). One link
  more, and unlink panics (`LinkWraps.UnlinkPanicReached`); with 65536, iput frees an inode
  that is still named (`LinkWraps.NamedInodeFreed`).
- create, mkdir and link do not look at the directory's own link count: counts stay balanced
  if and only if the directory has links (`Links.NewFileBalanced`, `Links.LinkDoneBalanced`;
  for mkdir also room for one more, `Links.NewDirBalanced`), and there are runs in which it
  has none (`LinkRuns.DeadDirReached`).
- writei whose copy from the caller fails reports only whole chunks, but the bytes copied
  before the failure are in the cached block, which is not logged: the file is what the
  reported count says if and only if those bytes lie past its end or were there already
  (`FsBytes.WriteStopped`, `FsBytes.PartlyExactly`).
- a buffer let go with its last reference is safe to recycle if and only if it agrees with
  the disk (`BufCache.RecycleExactly`).

Where comments and code disagree the code is followed: the lottery's tie-break on arrival
time is never reached, because the first process that covers the draw ends the walk.

## Model

| member | source | states |
|---|---|---|
| `RedoLog.CommitPhaseStep` | initial-xv6/src/kernel/log.c:193-203 | Each block write of commit, in its order (slots, header, homes, empty header), takes the disk from phase k to phase k+1, where the phase says exactly which slots, header and home blocks have changed. |
| `RedoLog.CommitPhaseView` | initial-xv6/src/kernel/log.c:193-203 | At every phase the disk stands for the old contents if the header write has not landed and for all of the transaction if it has; never for a part of it. |
| `RedoLog.CommitAtomic` | initial-xv6/src/kernel/log.c:193-203 | For every transaction and every number of completed writes, the disk is recoverable and stands for the old contents or for the whole new contents, with the header write as the only switch. |
| `RedoLog.CommitTraceAt` | initial-xv6/src/kernel/log.c:178-203 | The i-th disk state that commit leaves behind is the one after i+1 of its writes, so the crash statement covers every state the code passes through. |
| `RedoLog.InstallKeepsLogical` | initial-xv6/src/kernel/log.c:68-83 | Installing one logged block leaves what the disk stands for unchanged and makes that home block right. |
| `RedoLog.RecoveryIdempotent` | initial-xv6/src/kernel/log.c:116-123 | However often recovery is cut short and started again, the disk stands for the same contents; a completed recovery has them in the home blocks and an empty log. |
| `RedoLog.RecoveryPieces` | initial-xv6/src/kernel/log.c:116-123 | The installing loop and the header write of recovery together: home blocks become what the disk stood for, through exactly the specified states. |
| `LogDisk.PutHead` | initial-xv6/src/kernel/log.c:102-114 | The header block that write_head builds, over whatever stale words the buffer held, reads back as exactly the given block list. |
| `LogDisk.WriteSlot` | initial-xv6/src/kernel/log.c:178-191 | Writing block start+1+i changes log slot i and neither the header nor any home block. |
| `LogDisk.WriteHome` | initial-xv6/src/kernel/log.c:68-83 | Writing a block outside the log region changes that home block and nothing of the log. |
| `LogDisk.WriteHeader` | initial-xv6/src/kernel/log.c:102-114 | Writing the header block changes the block list and no slot or home block. |
| `LogCode.Log.constructor` | initial-xv6/src/kernel/log.c:54-65 | initlog before recovery: on any disk that has a log region the object invariant holds with nothing in memory. |
| `LogCode.Log.BWrite` | initial-xv6/src/kernel/bio.c:106-112 | One block of the disk changes, and the abstract view stays that of the disk. |
| `LogCode.Log.ReadHead` | initial-xv6/src/kernel/log.c:86-97 | The in-memory header becomes the list that is on disk. |
| `LogCode.Log.WriteHead` | initial-xv6/src/kernel/log.c:102-114 | One disk write; the list on disk becomes the in-memory one, all else on disk is as before. |
| `LogCode.Log.LogOne` | initial-xv6/src/kernel/log.c:178-191 | One disk write puts the pinned buffer of entry `tail` into its slot. |
| `LogCode.Log.InstallOne` | initial-xv6/src/kernel/log.c:68-83 | One disk write puts slot `tail` into its home block. |
| `LogCode.Log.WriteLog` | initial-xv6/src/kernel/log.c:178-191 | The loop fills the slots in order, and the disk states on the way are exactly those of the specification. |
| `LogCode.Log.InstallTrans` | initial-xv6/src/kernel/log.c:68-83 | The loop installs every entry in order, unpins each buffer unless recovering, and passes through exactly the specified disk states. |
| `LogCode.Log.CommitSome` | initial-xv6/src/kernel/log.c:193-203 | The four phases of a non-empty commit put together: home blocks updated by the whole transaction, log empty, every intermediate disk state accounted for. |
| `LogCode.Log.Commit` | initial-xv6/src/kernel/log.c:193-203 | After commit the home blocks hold the transaction and the log is empty; an empty transaction writes nothing; every disk state on the way is in the trace settled by RedoLog.CommitAtomic. |
| `LogCode.Log.TryBeginOp` | initial-xv6/src/kernel/log.c:126-142 | A caller is admitted exactly when no commit runs and the log has room for MAXOPBLOCKS more per outstanding operation, itself included. |
| `LogCode.Log.LogWrite` | initial-xv6/src/kernel/log.c:214-235 | Absorption: a block already in the transaction keeps its place, a new one goes to the end, either way with the new contents; the call panics exactly when the list is at LOGSIZE or at log.size - 1, or no operation is outstanding. |
| `LogCode.Log.EndOp` | initial-xv6/src/kernel/log.c:146-175 | Only the last outstanding operation commits, and then the home blocks receive everything logged since the previous commit; otherwise the disk is untouched. |
| `LogCode.Log.RecoverFromLog` | initial-xv6/src/kernel/log.c:116-123 | From any recoverable disk, home blocks become what the disk stood for and the log empty, through exactly the specified states. |
| `LogRuns.InvStep` | initial-xv6/src/kernel/log.c:126-235 | Every step of begin_op, log_write, end_op, commit, crash and recovery keeps the run invariant: disk, pinned buffers, committed history and space budget agree. |
| `LogRuns.RunsAreAtomic` | initial-xv6/src/kernel/log.c:68-235 | Over every run, with crashes at any point, recoveries included, the disk always stands for the starting contents followed by exactly the transactions whose header write completed. |
| `LogRuns.BootInv` | initial-xv6/src/kernel/log.c:54-65 | Any well-formed disk is a valid start of a run. |
| `LogRuns.RunsFromBoot` | initial-xv6/src/kernel/log.c:54-235 | From any well-formed disk: whenever neither recovery nor commit is under way, the home blocks themselves hold the committed transactions and nothing else. |
| `LogRuns.HeaderWrite` | initial-xv6/src/kernel/log.c:102-114 | The header write is the commit point: with this one block write the disk comes to stand for all pending updates. |
| `LogRuns.OperationsAreAtomic` | initial-xv6/src/kernel/log.c:126-175 | No operation is split: in every run from boot, if a committed transaction holds an update of an operation, it holds every log_write that operation ever made, in order; no other transaction holds any, and none is pending. |
| `LogRuns.NothingLost` | initial-xv6/src/kernel/log.c:126-235 | Over every run without a crash, all log_writes made, in order, are those committed followed by those pending. |
| `LogRuns.IdleIsDurable` | initial-xv6/src/kernel/log.c:147-201 | Whenever no operation is outstanding and no commit running, nothing is pending and the home blocks hold it all. |
| `LogRuns.SpaceStep` | initial-xv6/src/kernel/log.c:126-235 | Logged blocks plus the unspent budgets of all outstanding operations never exceed LOGSIZE, a running commit has no outstanding operation, and an idle log is empty; every step keeps this. |
| `LogRuns.SleepersHaveWaker` | initial-xv6/src/kernel/log.c:126-175 | Whenever a process sleeps in begin_op, an outstanding operation can end or a commit can go on, and either wakes it. |
| `LogRuns.EndOpWakes` | initial-xv6/src/kernel/log.c:147-175 | An end_op with other operations outstanding empties the set of sleepers at once; the last one starts the commit. |
| `LogRuns.SleepsExactly` | initial-xv6/src/kernel/log.c:126-175 | Over every run: a process sleeps in begin_op exactly if it went to sleep there and since then no end_op with others outstanding, no end of a commit and no crash has come. |
| `LogRuns.IdleLogAdmits` | initial-xv6/src/kernel/log.c:126-142 | With nothing outstanding and no commit running, begin_op admits its caller. |
| `LogSpace.ShapeKept` | initial-xv6/src/kernel/log.c:54-235 | No run changes the number of log slots or the set of home blocks. |
| `LogSpace.RoomWithAllSlots` | initial-xv6/src/kernel/log.c:214-221 | If the log region has LOGSIZE slots besides the header, no run panics when an admitted operation logs a new block. |
| `LogSpace.PanicWithFewSlots` | initial-xv6/src/kernel/log.c:214-221 | With fewer slots, three operations within their budgets reach the panic. |
| `LogSpace.TooBigExactly` | initial-xv6/src/kernel/log.c:214-221 | "too big a transaction" is unreachable for new blocks if and only if there are at least LOGSIZE slots. mkfs makes one fewer, so the guarantee of begin_op does not hold of its images. |
| `LogSpace.FullLogRefusesRewrite` | initial-xv6/src/kernel/log.c:219-228 | Even with all slots, a full log refuses to absorb a rewrite of a block it already holds, because the guard comes before absorption. |
| `Mlfq.Scheduler.constructor` | initial-xv6/src/kernel/proc.c:148-160 | The table at boot satisfies the scheduler's invariant. |
| `Mlfq.Scheduler.Interrupt` | initial-xv6/src/kernel/proc.c:601-612 | Between lock-held regions an interrupt can only make sleepers runnable. |
| `Mlfq.Scheduler.Switch` | initial-xv6/src/kernel/proc.c:697-701 | While the chosen process has the hart it may wake, fork and reap others; when it gives the hart back its queue, counts and number are as before. |
| `Mlfq.Scheduler.FindLevel` | initial-xv6/src/kernel/proc.c:603-612 | The level found is no higher than that of any process runnable throughout the scan, and some process is runnable there; 4 only if none was runnable throughout. |
| `Mlfq.Scheduler.Select` | initial-xv6/src/kernel/proc.c:654-668 | The process chosen is runnable at the level, and none that was runnable there throughout has a smaller number below refmin1. |
| `Mlfq.Scheduler.Age` | initial-xv6/src/kernel/proc.c:674-693 | A runnable process passed over waits one more; at 48 it goes to the tail of queue 0, with a number not given out before. |
| `Mlfq.Scheduler.Dispatch` | initial-xv6/src/kernel/proc.c:697-714 | A turn is charged, and the process drops one level, to its tail and with a fresh slice, exactly when its slice is used up; its waiting count restarts. |
| `Mlfq.Scheduler.Visit` | initial-xv6/src/kernel/proc.c:670-718 | At one slot of the second pass: the chosen process runs, and if it was in queue 0 it leaves it; any other runnable process ages; queue 0 gains members only at its tail. |
| `Mlfq.Scheduler.Pass` | initial-xv6/src/kernel/proc.c:670-718 | The whole second pass: everyone runnable but the chosen one ages once, and a choice from queue 0 is demoted. |
| `Mlfq.Scheduler.AgeOthers` | initial-xv6/src/kernel/proc.c:624-646 | After each turn at level 3 every other runnable process has aged, exactly as Age says, and nothing else has changed. |
| `Mlfq.Scheduler.Sweep` | initial-xv6/src/kernel/proc.c:614-651 | A round at level 3 dispatches every process that was runnable at its start. |
| `Mlfq.Scheduler.Serve` | initial-xv6/src/kernel/proc.c:654-718 | A round below level 3: the process with the least visible number at the level has the hart, and everyone else runnable ages. |
| `Mlfq.Scheduler.Round` | initial-xv6/src/kernel/proc.c:599-719 | One turn of the endless loop keeps the table invariant (queues 0 to 3, waits below 48 outside queue 0, queue 0 numbers below roqd[0]) and relates the tables before and after, and the slots that were given the hart, by RoundRel, from which the waiting theorems follow. RoundRel also says that nobody runs while somebody of a higher level is runnable throughout, that below level 3 one process runs, the one with the least number at its level, that a round is idle only if nobody was runnable or a number past refmin1 is about, and how who runs is charged. |
| `Mlfq.RankDecreases` | initial-xv6/src/kernel/proc.c:599-719 | A runnable process that is passed over in a round, and is not in queue 0 at or past refmin1, is strictly closer to its turn. |
| `Mlfq.WaitsAtMostRank` | initial-xv6/src/kernel/proc.c:599-719 | It runs before as many rounds as its rank have gone by. |
| `Mlfq.BoundedWaiting` | initial-xv6/src/kernel/proc.c:599-719 | Whatever the others do, a runnable process is dispatched within 48 + NPROC rounds while roqd[0] has not passed refmin1. |
| `Mlfq.SeenWaits` | initial-xv6/src/kernel/proc.c:654-668 | A runnable process in queue 0 with a number below refmin1 waits at most NPROC rounds, whatever roqd[0] is. |
| `Mlfq.NeverRuns` | initial-xv6/src/kernel/proc.c:654-693 | With such a process in the table, no runnable process outside the visible part of queue 0 is dispatched in any later round. |
| `Mlfq.ServedBesideUnseen` | initial-xv6/src/kernel/proc.c:599-719 | Once any process waits in queue 0 with a number at or past refmin1, a runnable process is ever dispatched again if and only if it is in queue 0 with a number below refmin1. |
| `Mlfq.RunsOrLost` | initial-xv6/src/kernel/proc.c:599-719 | Within as many rounds as its rank, a runnable process has run or has got a number the search cannot see. |
| `Mlfq.LostStays` | initial-xv6/src/kernel/proc.c:654-668 | A process that has got such a number is in no round dispatched. |
| `Mlfq.ServedExactly` | initial-xv6/src/kernel/proc.c:599-719 | For every run of at least 48 + NPROC rounds and every process runnable at its start: it is ever dispatched if and only if it is not, within the first 48 + NPROC rounds and before it runs, in queue 0 with a number at or past refmin1; and if it is ever dispatched, it is so within 48 + NPROC rounds. |
| `Mlfq.AgesOut` | initial-xv6/src/kernel/proc.c:674-693 | How it comes about: with roqd[0] at refmin1 and somebody runnable in queue 0, a process elsewhere that is passed over for the 48th time gets a number the search cannot see, whatever else happens in the round. |
| `Mlfq.BrinkRound` | initial-xv6/src/kernel/proc.c:654-693 | A concrete round in which this happens to a process that could be seen before. |
| `Mlfq.LosesSlot0` | initial-xv6/src/kernel/proc.c:599-719 | The code run on that table: every execution of the round loses that process. |
| `Lottery.Rg` | initial-xv6/src/kernel/proc.c:60-71 | The draw lies in [0, total), for any tick count and any positive int total. |
| `Lottery.MixUndone` | initial-xv6/src/kernel/proc.c:62-65 | The three shifts, in 64 bits, can be undone: no two tick counts are mixed into the same number. |
| `Lottery.DrawsDiffer` | initial-xv6/src/kernel/proc.c:60-71 | Different tick counts give different mixed numbers, and the draw is what such a number leaves over a multiple of the total. |
| `Lottery.WinnerExactly` | initial-xv6/src/kernel/proc.c:790-813 | A slot wins exactly the draws between the tickets before it and those up to and including it. |
| `Lottery.SomeoneWins` | initial-xv6/src/kernel/proc.c:790-813 | Every draw below the total has a winner, and it is runnable. |
| `Lottery.Proportional` | initial-xv6/src/kernel/proc.c:766-813 | Of the total number of draws, each slot wins exactly as many as it holds runnable tickets. |
| `Lottery.WakingAdds` | initial-xv6/src/kernel/proc.c:770-776 | Processes woken meanwhile never lower the sum of runnable tickets. |
| `Lottery.RestGrows` | initial-xv6/src/kernel/proc.c:790-813 | Nor do they lower the tickets still ahead of the walk. |
| `Lottery.Scheduler.constructor` | initial-xv6/src/kernel/proc.c:148-160 | The table at boot, every slot unused and without tickets, satisfies the invariant. |
| `Lottery.Scheduler.Interrupt` | initial-xv6/src/kernel/proc.c:764-813 | Outside the locked regions only sleepers change, and only to runnable. |
| `Lottery.Scheduler.Total` | initial-xv6/src/kernel/proc.c:770-776 | The sum lies between the total at the start of the scan and the total at its end. |
| `Lottery.Scheduler.Walk` | initial-xv6/src/kernel/proc.c:790-813 | A draw below the total finds a runnable winner whatever is woken during the walk, and the exact winner of the draw if nothing is. |
| `Lottery.Scheduler.Choose` | initial-xv6/src/kernel/proc.c:766-813 | With somebody runnable and an int-sized total, no round is left without a runnable winner. |
| `Pipes.Wrap` | initial-xv6/src/kernel/pipe.c:76-130 | 32-bit counters that wrap still tell the number of bytes inside, full and empty included. |
| `Pipes.Count` | initial-xv6/src/kernel/pipe.c:95 | Incrementing a wrapped counter selects the ring slot of the unbounded count. |
| `Pipes.SlotsDiffer` | initial-xv6/src/kernel/pipe.c:95 | Two bytes in the pipe at once never share a slot. |
| `Pipes.Pipe.constructor` | initial-xv6/src/kernel/pipe.c:22-45 | A new pipe is empty, open at both ends and satisfies the invariant. |
| `Pipes.Pipe.Fifo` | initial-xv6/src/kernel/pipe.c:76-130 | With no failed copyout, the results of all reads so far, one after the other, are a prefix of what all writers stored, and nwrite - nread in uint arithmetic is the number of bytes inside, at most PIPESIZE. |
| `Pipes.Pipe.PutByte` | initial-xv6/src/kernel/pipe.c:92-96 | A byte goes behind all bytes stored, and no unread byte is overwritten. |
| `Pipes.Pipe.TakeByte` | initial-xv6/src/kernel/pipe.c:121-125 | The oldest unread byte comes out. |
| `Pipes.Pipe.Sleep` | initial-xv6/src/kernel/pipe.c:88-90 | Whatever others do meanwhile, the histories only grow and the ring stays consistent. |
| `Pipes.Pipe.PipeWrite` | initial-xv6/src/kernel/pipe.c:76-103 | The bytes of one write appear among all stored bytes in their order, and every other byte the pipe has gained meanwhile is one that others stored while the writer slept; without sleep the pipe gains exactly these bytes. The count returned is the number stored, short only at a failed copyin, and only with readers; -1 only without readers or when killed; it sleeps only on a full pipe. |
| `Pipes.Pipe.AwaitData` | initial-xv6/src/kernel/pipe.c:112-119 | The wait ends with data in the pipe or no writers; it fails only when killed, and sleeps only, on an empty pipe that has writers. |
| `Pipes.Pipe.CopyOut` | initial-xv6/src/kernel/pipe.c:120-126 | The oldest bytes nobody has taken, in order, up to n or until the pipe is empty; they become the latest of the recorded results, and none is lost unless a copyout fails. |
| `Pipes.Pipe.PipeRead` | initial-xv6/src/kernel/pipe.c:105-130 | A read returns, and records as the latest result, a contiguous run of bytes that nobody had taken when it was called; without a failed copyout it ends at the last byte taken, is as long as asked for and present, and is empty only if the writers are gone. If it need not sleep, they are the next unread bytes, and nothing else is taken. |
| `Blocks.SetWord` | initial-xv6/src/kernel/fs.c:407-413 | Storing a uint in a block of bytes: that word reads back and all other words are unchanged. |
| `Bitmap.PutBit` | initial-xv6/src/kernel/fs.c:65-105 | Setting or clearing one bitmap bit leaves every other bit alone. |
| `FsOwner.OneSlotPerBlock` | initial-xv6/src/kernel/fs.c:382-421 | A block is reached from at most one slot (direct, indirect or the indirect block itself) of at most one inode. |
| `FsOwner.TakeOk` | initial-xv6/src/kernel/fs.c:65-88 | Taking a free block breaks no ownership, disturbs no mapping and yields a zeroed block that nothing refers to. |
| `FsOwner.SetAddr` | initial-xv6/src/kernel/fs.c:388-406 | Storing a fresh block in an inode keeps bitmap and slots in exact agreement. |
| `FsOwner.SetEntry` | initial-xv6/src/kernel/fs.c:407-415 | So does storing it in an indirect block. |
| `FsOwner.ClearAddr` | initial-xv6/src/kernel/fs.c:432-437 | Forgetting a direct address releases exactly that block. |
| `FsOwner.ClearIndirect` | initial-xv6/src/kernel/fs.c:439-449 | Forgetting the indirect block releases it and everything it listed. |
| `FsOwner.PutDiskBitBits` | initial-xv6/src/kernel/fs.c:65-105 | Setting or clearing a block's bit changes the set of blocks in use by that block alone. |
| `FsOwner.KeptVal` | initial-xv6/src/kernel/fs.c:382-421 | Allocation never moves a block that is already mapped. |
| `FsBytes.RewriteBytes` | initial-xv6/src/kernel/fs.c:516-528 | Writing a data block changes the bytes of that block of that file, and of no other block or file. |
| `FsBytes.ChunkIsWritten` | initial-xv6/src/kernel/fs.c:516-528 | One turn of the copy loop stores its chunk at its offset and nothing else. |
| `FsBytes.WriteMore` | initial-xv6/src/kernel/fs.c:516-528 | Consecutive chunks make up one longer write. |
| `FsBytes.WriteFinished` | initial-xv6/src/kernel/fs.c:505-539 | After the loop and the size update the file is its old contents with the written bytes spliced in, other files are unchanged and there are still no holes. |
| `FsBytes.WriteStopped` | initial-xv6/src/kernel/fs.c:516-539 | A write cut short by a failed copy: the file is its old contents with all copied bytes over them, cut at the size, which counts whole chunks only; other files are unchanged and there are still no holes. |
| `FsBytes.PartlyExactly` | initial-xv6/src/kernel/fs.c:516-539 | Such a file is the one the reported count describes if and only if the bytes copied beyond that count lay past its end or were there already. |
| `FsBytes.WrittenAnyway` | initial-xv6/src/kernel/fs.c:522-526 | A block that was changed and not logged reads like one that was. |
| `FsBytes.TouchedBound` | initial-xv6/src/kernel/file.c:148-160 | A write of at most three blocks' worth of bytes touches at most four blocks, three if aligned. |
| `FsBytes.ReadChunk` | initial-xv6/src/kernel/fs.c:482-494 | Without holes, a chunk of a mapped block is that part of the file. |
| `FsBytes.SetNodeGood` | initial-xv6/src/kernel/fs.c:225-241 | Changing an inode's type, link count or size moves no block. |
| `FsTrunc.TruncNext` | initial-xv6/src/kernel/fs.c:432-437 | Each turn of the loop over direct blocks frees one block that is marked in use, and keeps bitmap, slots and other files right. |
| `FsTrunc.TruncDrainStep` | initial-xv6/src/kernel/fs.c:442-445 | Each turn over the indirect entries does the same while the indirect block still lists what is being freed. |
| `FsTrunc.TruncDrainEnd` | initial-xv6/src/kernel/fs.c:446-448 | Afterwards the indirect block itself can go, and ownership is exact again. |
| `FsTrunc.TruncDone` | initial-xv6/src/kernel/fs.c:425-453 | The finished truncation: an empty file, other files with their contents, no holes. |
| `FsTrunc.BareOwner` | initial-xv6/src/kernel/fs.c:425-453 | Exactly the truncated inode's blocks went back to the bitmap. |
| `FsCode.Fs.Balloc` | initial-xv6/src/kernel/fs.c:65-88 | The lowest clear bit is found, marked and its block zeroed; 0 means every block is in use. |
| `FsCode.Fs.AllocAddr` | initial-xv6/src/kernel/fs.c:388-406 | A fresh block becomes a direct or the indirect block; on a full disk nothing changes. All that is changed is logged. |
| `FsCode.Fs.AllocEntry` | initial-xv6/src/kernel/fs.c:407-415 | A fresh block becomes an indirect entry, logging bitmap, data and indirect block only. All that is changed is logged. |
| `FsCode.Fs.EnsureIndirect` | initial-xv6/src/kernel/fs.c:400-406 | The indirect block is there afterwards unless the disk is full; an existing one is left alone. |
| `FsCode.Fs.BmapDirect` | initial-xv6/src/kernel/fs.c:388-396 | The mapped block, or a fresh one; 0 only on a full disk. |
| `FsCode.Fs.BmapIndirect` | initial-xv6/src/kernel/fs.c:399-418 | The same for the blocks past the direct ones. |
| `FsCode.Fs.Bmap` | initial-xv6/src/kernel/fs.c:382-421 | An already mapped block is returned with no change at all; otherwise a block owned by this slot only; 0 only on a full disk. Ownership and earlier mappings are kept. Every block changed on the way is logged. |
| `FsCode.Fs.WriteChunk` | initial-xv6/src/kernel/fs.c:516-528 | The chunk is in the file and logged; or the copy failed, and its first bytes are there and not logged; or the disk is full and nothing of it is. In the first and last case every block that differs is in the transaction, in the second all but that one. A mapped block costs no bitmap block. |
| `FsCode.Fs.WriteTurn` | initial-xv6/src/kernel/fs.c:516-528 | A loop turn keeps the tally of distinct logged blocks: bitmap, data, indirect. |
| `FsCode.Fs.WriteLoop` | initial-xv6/src/kernel/fs.c:516-528 | The loop stores a prefix of the source, all of it unless the disk is full or a copy fails; past the last whole chunk it has copied less than a block, up to the byte that cannot be read. |
| `FsCode.Fs.Writei` | initial-xv6/src/kernel/fs.c:505-539 | -1 exactly for an offset past the end, a 32-bit overflow or a size past the limit, and then no change; otherwise the first r bytes replace exactly [off, off+r), the size is the maximum, r is short only on a full disk or a failed copy, and only after a failed copy are further bytes below the size overwritten, fewer than a block of them; all other bytes and files are unchanged; at most three blocks' worth logs at most MAXOPBLOCKS blocks. Every block in which the disk differs afterwards is in the transaction, but for the one of a chunk whose copy failed; so is the inode's block, and the disk holds all inodes afterwards if it did before. |
| `FsInode.DinodeRoundTrip` | initial-xv6/src/kernel/fs.c:225-241 | What iupdate writes into an inode block ilock reads back, field by field, signed link count included. |
| `FsInode.OtherDinodes` | initial-xv6/src/kernel/fs.c:225-241 | The fifteen other inodes of the block read as before. |
| `FsInode.UpdateSaves` | initial-xv6/src/kernel/fs.c:225-241 | If all inodes were on the disk and one has changed since, they all are again after its iupdate. |
| `FsInode.UpdateKeeps` | initial-xv6/src/kernel/fs.c:225-241 | iupdate changes no byte of any file and keeps bitmap and slots in agreement. |
| `FsInode.CoveredTrans` | initial-xv6/src/kernel/fs.c:382-528 | Consecutive steps that log what they change log what they change together. |
| `FsCode.Fs.Ialloc` | initial-xv6/src/kernel/fs.c:198-219 | The first free inode becomes an empty one of the given type, and -1 exactly if there is none; no block is dropped, because free inodes own none; all contents are unchanged. The inode's block is the one changed, is logged, and holds the inode. |
| `FsCode.Fs.SetNlink` | initial-xv6/src/kernel/sysfile.c:145-146 | A new link count changes the contents of no file; the inode's block holds it and is logged. |
| `FsCode.Fs.Bfree` | initial-xv6/src/kernel/fs.c:91-105 | The bit of a block in use is cleared, and nothing else. |
| `FsCode.Fs.FreeDirect` | initial-xv6/src/kernel/fs.c:432-437 | The loop frees the direct blocks, each of them in use. |
| `FsCode.Fs.FreeEntries` | initial-xv6/src/kernel/fs.c:442-445 | The loop frees what the indirect block lists, each of them in use. |
| `FsCode.Fs.FreeIndirect` | initial-xv6/src/kernel/fs.c:439-449 | The indirect block and all it lists are freed, if there is one. |
| `FsCode.Fs.Itrunc` | initial-xv6/src/kernel/fs.c:425-453 | "freeing free block" is unreachable; exactly the inode's blocks become free; every other file reads as before; the blocks logged are bitmap blocks and the inode's, among them every block that differs afterwards; the disk holds all inodes afterwards if it did before. |
| `FsCode.Fs.Iput` | initial-xv6/src/kernel/fs.c:336-362 | Exactly the last reference to a valid inode without links truncates and frees it; any other call changes nothing on disk. Every block that differs is in the transaction, and the disk holds all inodes afterwards if it did before. |
| `FsCode.Fs.ReadOne` | initial-xv6/src/kernel/fs.c:482-494 | A turn of the loop returns its part of the file and allocates nothing. |
| `FsCode.Fs.ReadLoop` | initial-xv6/src/kernel/fs.c:482-494 | The loop returns the slice asked for, or -1 at a failed copy. |
| `FsCode.Fs.Readi` | initial-xv6/src/kernel/fs.c:471-496 | The slice clipped at the size, empty for an offset past the end or a 32-bit overflow; the file system does not change, so reading outside a transaction is sound. |
| `FileCode.File.WriteChunkOp` | initial-xv6/src/kernel/file.c:157-174 | One chunk of a write, as a transaction within MAXOPBLOCKS: the offset moves on by the bytes that count, the contents by the bytes copied; the transaction holds every block that differs afterwards, but for that of a chunk whose copy failed. |
| `FileCode.File.FileWrite` | initial-xv6/src/kernel/file.c:134-181 | The file is its old contents with the first k bytes patched in at the offset, which moves by k; after a failed copy also with the bytes copied before it, as far as they lie below the size; the call reports n exactly if k is n; it stops early only when the disk is full, a copy fails or the next chunk is refused; every chunk fits the log. Between the chunks' transactions the file has a whole number of chunks, and each transaction holds all that changes in it. |
| `FileCode.File.FileRead` | initial-xv6/src/kernel/file.c:106-130 | What is returned is the slice at the offset, which moves past it; the file system does not change; a negative count acts as a large unsigned one. |
| `FsCrash.MountSaved` | initial-xv6/src/kernel/fs.c:293-316 | A disk with the same blocks from the inodes on, read again after a reboot, is a sound file system with the same files, types and link counts. |
| `FsCrash.StandsNext` | initial-xv6/src/kernel/log.c:68-114 | The blocks of a transaction over the old disk are the new disk: a file operation loses nothing by being committed block by block. |
| `FsCrash.CrashInCommit` | initial-xv6/src/kernel/log.c:68-201 | A crash after any number of the commit's writes leaves, once recovered, exactly the files before the operation or exactly those after it, according to whether the header was written. |
| `FsCrash.FilesSurvive` | initial-xv6/src/kernel/log.c:54-235 | Over any run of the log, crashes anywhere, whenever neither commit nor recovery is under way the home blocks hold the files of the last committed state. |
| `FsCrash.ChunksLead` | initial-xv6/src/kernel/file.c:157-174 | Each chunk of filewrite is such an operation: all that it changes is in its transaction, of at most MAXOPBLOCKS blocks. |
| `FsCrash.WriteCutOff` | initial-xv6/src/kernel/file.c:157-174 | filewrite cut off by a crash after m of its transactions leaves a sound file system in which the file has its first m chunks, whole, and no more. |
| `FsRuns.Perform` | initial-xv6/src/kernel/fs.c:198-539 | Each of writei, readi, itrunc, iput, ialloc and a change of links acts on the files exactly as the same call acts on byte sequences, and keeps bitmap and slots in agreement, files without holes, free inodes without blocks, and every inode on the disk as it is in memory. Every block that a call changes is in its transaction, unless a copy from its caller fails. |
| `FsRuns.Run` | initial-xv6/src/kernel/fs.c:198-539 | So does any sequence of calls, each on the files the one before left. |
| `FsRuns.FromImage` | initial-xv6/src/kernel/fs.c:198-539 | Starting from an image that mkfs made, whose files are those given. |
| `Mkfs.BitsAt` | initial-xv6/src/mkfs/mkfs.c:234-248 | The bitmap block built bit by bit has exactly the first `used` bits set. |
| `Mkfs.TakeIsMarked` | initial-xv6/src/mkfs/mkfs.c:266-283 | Handing out the next block is, on the image as it will be marked, a kernel block allocation. |
| `Mkfs.Builder.constructor` | initial-xv6/src/mkfs/mkfs.c:108-111 | The blank image: every sector zero, the first free block after the metadata. |
| `Mkfs.Builder.PlaceDirect` | initial-xv6/src/mkfs/mkfs.c:268-272 | A direct block is found or handed out; failure only on a full image. |
| `Mkfs.Builder.PlaceTable` | initial-xv6/src/mkfs/mkfs.c:274-276 | The indirect block likewise. |
| `Mkfs.Builder.PlaceIndirect` | initial-xv6/src/mkfs/mkfs.c:273-283 | An indirect entry likewise. |
| `Mkfs.Builder.Place` | initial-xv6/src/mkfs/mkfs.c:266-283 | The file block's home: owned by this slot alone, earlier mappings kept, nothing else new. |
| `Mkfs.Builder.AppendTurn` | initial-xv6/src/mkfs/mkfs.c:265-291 | A turn stores its chunk; failure only on a full image or a file past its limit. |
| `Mkfs.Builder.Iappend` | initial-xv6/src/mkfs/mkfs.c:252-294 | The file grows by exactly the source, all other files keep their contents, no holes and no blocks past the end; failure only on a full image or a file past its limit. |
| `Mkfs.Builder.Ialloc` | initial-xv6/src/mkfs/mkfs.c:220-232 | A blank inode becomes an empty file, in its block too; all contents are unchanged. |
| `Mkfs.Builder.CopyFile` | initial-xv6/src/mkfs/mkfs.c:157-158 | The inode holds exactly the input file. |
| `Mkfs.Builder.AddFile` | initial-xv6/src/mkfs/mkfs.c:150-160 | One more entry in the root directory and one more file with its data. |
| `Mkfs.Builder.AddFiles` | initial-xv6/src/mkfs/mkfs.c:117-161 | The root directory holds the dot entries and one entry per file, in order, and each inode its file. |
| `Mkfs.Builder.WriteBitmap` | initial-xv6/src/mkfs/mkfs.c:234-248 | The bitmap on the image marks exactly the blocks handed out. |
| `Mkfs.RootRounding` | initial-xv6/src/mkfs/mkfs.c:163-168 | Rounding the root's size up leaves the image without holes if and only if the length was not a multiple of BSIZE. |
| `Mkfs.Builder.Make` | initial-xv6/src/mkfs/mkfs.c:68-173 | The image satisfies the ownership invariant that the kernel starts from, its inode blocks hold the inodes, and free inodes have no blocks; it has no holes if and only if the root directory's length is not a multiple of BSIZE, and then files and directory read back; failure only on a full image, with too few inodes, or for a file past its limit. |
| `PageMem.AllocOk` | initial-xv6/src/kernel/kalloc.c:68-82 | Taking a page keeps every page either on the free list or held by exactly one owner, and no table changes. |
| `PageMem.ReleaseOk` | initial-xv6/src/kernel/kalloc.c:46-63 | So does giving one back that nothing uses any more. |
| `PageWalk.PathOk` | initial-xv6/src/kernel/vm.c:85-103 | Following entries from a live root leads only to tables of that very path. |
| `PageWalk.NoAlias` | initial-xv6/src/kernel/vm.c:85-103 | Distinct virtual pages, of one tree or of two, never share a leaf entry. |
| `PageWalk.FramesDistinct` | initial-xv6/src/kernel/vm.c:142-165 | Distinct user pages, of one tree or of two, own distinct frames. |
| `PageWalk.PutLeafMaps` | initial-xv6/src/kernel/vm.c:142-165 | Writing a leaf entry changes the flat map at that one page of that one tree. |
| `PageWalk.AttachKeeps` | initial-xv6/src/kernel/vm.c:96-99 | A new zeroed table changes no lookup in any tree. |
| `PageWalk.SlotPath` | initial-xv6/src/kernel/vm.c:85-103 | Every entry of a bottom table is the entry of exactly the page number its path spells. |
| `PageWalk.PathSlot` | initial-xv6/src/kernel/vm.c:85-103 | Conversely a page number's entry spells that page number. |
| `VmCode.Vm.Kalloc` | initial-xv6/src/kernel/kalloc.c:68-82 | The head of the free list, or 0 exactly when the list is empty. No other page changes. |
| `VmCode.Vm.Kfree` | initial-xv6/src/kernel/kalloc.c:46-63 | The page goes to the head of the list; no table changes. No other page changes. |
| `VmCode.Vm.Grow` | initial-xv6/src/kernel/vm.c:96-99 | A missing table is added as one page from the free list; no lookup changes. |
| `VmCode.EntryThere` | initial-xv6/src/kernel/vm.c:179-185 | In every live tree an entry at the bottom level is 0 or a leaf, so its valid bit alone tells whether a page is mapped. |
| `VmCode.Vm.Walk` | initial-xv6/src/kernel/vm.c:85-103 | The entry's place is that of the flat map; missing tables are created only if asked, change no lookup, and need at most two pages; it panics exactly at and past MAXVA. |
| `VmCode.Vm.MapPage` | initial-xv6/src/kernel/vm.c:153-163 | One page is added to the flat map and no other lookup changes; it panics exactly if the page is mapped or past MAXVA; failure leaves all lookups alone and needs fewer than two free pages. |
| `VmCode.Vm.Mappages` | initial-xv6/src/kernel/vm.c:142-165 | The range maps to consecutive pages with the given flags and no other lookup of any tree changes; on failure exactly the first n are mapped, and either the free list is empty or it panics, which it does exactly for an empty range or if page n of the range is mapped already or past MAXVA. |
| `VmCode.Vm.UnmapPage` | initial-xv6/src/kernel/vm.c:179-191 | One lookup becomes 0 and its frame is freed if asked; it panics, with no change, exactly if the page is past MAXVA or not mapped; "not a leaf" is unreachable. |
| `VmCode.Vm.Uvmunmap` | initial-xv6/src/kernel/vm.c:170-192 | The lookups of the first m pages become 0, exactly their frames go back if asked, everything else stays; m is all of them unless it panics, which it does exactly for an unaligned address or if page m is not mapped. |
| `VmSpan.SpanUndo` | initial-xv6/src/kernel/vm.c:225-249 | Unmapping what a call has mapped restores every lookup and every page in use, up to spare tables. |
| `VmCode.Vm.AddPage` | initial-xv6/src/kernel/vm.c:236-246 | One more page holding the given bytes, on a page that was free; a failure frees it again, and three free pages rule failure out. |
| `VmCode.Vm.Undo` | initial-xv6/src/kernel/vm.c:237-246 | The clean-up path does restore every lookup and page. |
| `VmCode.Vm.Uvmalloc` | initial-xv6/src/kernel/vm.c:225-249 | The new pages are zeroed, have the flags asked for and come from the free list; a failure leaves every lookup and page in use as before, and happens only with fewer than three free pages per page asked for. |
| `VmCopy.Uvmdealloc` | initial-xv6/src/kernel/vm.c:255-267 | Exactly the pages between the two sizes are unmapped and freed; growing is a no-op. |
| `VmCopy.FindPte` | initial-xv6/src/kernel/vm.c:313-319 | Looking up the parent's entry changes nothing and yields the flat map's value. |
| `VmCopy.Uvmcopy` | initial-xv6/src/kernel/vm.c:305-333 | Every page of the child has the parent's flags and bytes, the parent and all other trees are untouched; a failure leaves every lookup, the child's included, as before and happens only with fewer than three free pages per page. |
| `VmCopy.CopyDisjoint` | initial-xv6/src/kernel/vm.c:305-333 | No frame of the child is one of the parent's. |
| `VmFree.Freewalk` | initial-xv6/src/kernel/vm.c:271-287 | Exactly the tables of the subtree are freed; the panic on a leaf is unreachable once the pages are unmapped; the recursion ends. |
| `VmFree.Uvmfree` | initial-xv6/src/kernel/vm.c:291-297 | Exactly the tree's tables and user frames are freed. |
| `VmFree.UnmapKernel` | initial-xv6/src/kernel/proc.c:333-334 | Unmapping trampoline and trapframe frees neither page. |
| `VmFree.ProcFreePagetable` | initial-xv6/src/kernel/proc.c:331-336 | The tree's tables and user frames return to the free list, all of them and nothing else; trampoline and trapframe stay allocated; all other trees keep their lookups. |
| `VmFree.DestroyedFree` | initial-xv6/src/kernel/proc.c:331-336 | Of the pages in use before, exactly those of the tree are on the free list afterwards. |
| `VmFree.FreedMaps` | initial-xv6/src/kernel/vm.c:271-287 | Freeing one tree leaves every lookup of every other tree alone. |
| `VmFree.BareTree` | initial-xv6/src/kernel/vm.c:271-287 | A tree with no page mapped has no leaf left for freewalk to panic on. |
| `VmBoot.Freerange` | initial-xv6/src/kernel/kalloc.c:33-40 | Boot puts on the free list exactly the pages that lie wholly between the two addresses, neither of which need be aligned, and this establishes the page invariant. |
| `VmBoot.Uvmcreate` | initial-xv6/src/kernel/vm.c:196-205 | A new root with every lookup 0, and no other tree changed. |
| `VmLife.SpaceElsewhere` | initial-xv6/src/kernel/vm.c:142-333 | Whatever is done to one tree, every other process keeps its address space: the same lookups, the same frames, the same bytes. |
| `VmLife.Moved` | initial-xv6/src/kernel/vm.c:142-333 | So do all of them, and the kernel's own pages. |
| `VmLife.Gone` | initial-xv6/src/kernel/proc.c:331-336 | Destroying a tree leaves them all as they are too. |
| `VmLife.NoTrees` | initial-xv6/src/kernel/proc.c:275-291 | Where there is no root, every page in use is the kernel's own. |
| `VmProcs.ProcPagetable` | initial-xv6/src/kernel/proc.c:296-328 | An address space of no bytes with trampoline and trapframe mapped, out of reach of user code, or 0 with every page taken given back, from each of its failure paths; five free pages are always enough; no other process changes. |
| `VmProcs.SizeFits` | initial-xv6/src/kernel/proc.c:382-401 | No process has more pages than there are, so growing reaches neither the trapframe nor MAXVA. |
| `VmProcs.Procs.constructor` | initial-xv6/src/kernel/proc.c:148-160 | Before the first process the pages in use are the kernel's. |
| `VmProcs.Procs.Allocproc` | initial-xv6/src/kernel/proc.c:209-269 | A trapframe of its own and an empty address space, or 0 with nothing taken, which six free pages rule out; no process's memory changes. |
| `VmProcs.Procs.Growproc` | initial-xv6/src/kernel/proc.c:382-401 | The size moves by n (not below 0), pages added are zeroed, the pages that stay keep their bytes, and so do all other processes; -1 only with fewer than three free pages per page asked for, and then no process's memory is different. |
| `VmProcs.Procs.Fork` | initial-xv6/src/kernel/proc.c:412-424 | The child has the parent's size, bytes and flags on pages of its own, or there is no child and its trapframe and tree are given back; no process's memory changes. Six free pages, and three more per page copied, are always enough. |
| `VmProcs.Procs.Freeproc` | initial-xv6/src/kernel/proc.c:275-291 | The trapframe and the whole tree go back; no other process's memory changes. |
| `VmProcs.Accounted` | initial-xv6/src/kernel/proc.c:209-291 | Every page in use is the kernel's own, or one process's trapframe, table or memory. |
| `VmProcs.AllReturned` | initial-xv6/src/kernel/proc.c:209-291 | With the last process gone, the pages in use are exactly those in use before the first. |
| `VmProcs.Perform` | initial-xv6/src/kernel/proc.c:209-424 | Any of these calls keeps the account, and changes no byte of any process but the one it is about. |
| `VmProcs.Run` | initial-xv6/src/kernel/proc.c:209-424 | Any sequence of these calls, on any processes: every page in use is accounted for, and when no process is left exactly the pages in use at the start are. |
| `FreeList.MergeOk` | initial-xv6/src/user/umalloc.c:33-42 | Joining a freed block with the neighbours it touches leaves a list in address order, with no two blocks touching and the freed units added. |
| `FreeList.RingJoined` | initial-xv6/src/user/umalloc.c:33-35 | The two header writes of the upper join make the ring of the joined list. |
| `FreeList.RingInserted` | initial-xv6/src/user/umalloc.c:36-37 | The insertion's header writes make the ring of the longer list. |
| `FreeList.RingDown` | initial-xv6/src/user/umalloc.c:38-40 | So do those of the lower join. |
| `FreeList.RingRemove` | initial-xv6/src/user/umalloc.c:76-77 | Unlinking a block makes the ring of the shorter list. |
| `FreeList.RingShrink` | initial-xv6/src/user/umalloc.c:78-82 | Cutting off a block's tail keeps the ring. |
| `Umalloc.Allocator.constructor` | initial-xv6/src/user/umalloc.c:18-22 | Before the first call the heap invariant holds with nothing live and nothing free. |
| `Umalloc.Allocator.FindPlace` | initial-xv6/src/user/umalloc.c:30-32 | The search around the ring ends, at the one block the freed one follows in address order. |
| `Umalloc.Allocator.LinkUp` | initial-xv6/src/user/umalloc.c:33-37 | The upper join, as header writes on the ring. |
| `Umalloc.Allocator.LinkDown` | initial-xv6/src/user/umalloc.c:38-42 | The lower join, as header writes on the ring. |
| `Umalloc.Allocator.Link` | initial-xv6/src/user/umalloc.c:33-42 | Together: the ring of the merged list; no other header's size changes. |
| `Umalloc.Allocator.Free` | initial-xv6/src/user/umalloc.c:24-44 | The block leaves the live ones and joins the free list where it belongs, merged; all other live blocks, and the total from sbrk, stay; no word of another live block's payload is written. |
| `Umalloc.Allocator.Sbrk` | initial-xv6/src/kernel/sysproc.c:116-127 | Failure, or the break moves by the int of bytes asked for, down if it is negative, from the address returned, which is at or above the old break. |
| `Umalloc.Allocator.Morecore` | initial-xv6/src/user/umalloc.c:46-61 | On success some free block is large enough, nothing live changed and no word of a live payload was written; what the allocator then takes for its own lies below the break if and only if less than 2 GiB were asked for. On failure nothing changed. |
| `Umalloc.Allocator.Carve` | initial-xv6/src/user/umalloc.c:75-85 | A whole block or its tail becomes live, of the size asked for, disjoint from all others. |
| `Umalloc.Allocator.Init` | initial-xv6/src/user/umalloc.c:70-73 | The first call sets up the ring of the base header. |
| `Umalloc.Allocator.Malloc` | initial-xv6/src/user/umalloc.c:63-90 | Ends after at most one morecore, called only if no free block fits; the new block is large enough and disjoint from all free and live blocks; no word of a live payload is written; units from sbrk stay free plus live units; 0 only if sbrk refuses; all of it stays below the break if and only if sbrk was not asked for 2 GiB or more. |
| `Umalloc.Units` | initial-xv6/src/user/umalloc.c:69 | The unit count is the smallest that holds the header and the bytes. |
| `Umalloc.MorecoreBacked` | initial-xv6/src/user/umalloc.c:46-55 | The memory morecore takes for granted is really below the new break if and only if the request is below 2 GiB, because sbrk takes an int. |
| `Umalloc.PayloadApart` | initial-xv6/src/user/umalloc.c:24-90 | A unit of a live block's payload is no header and in no free block. |
| `Umalloc.ScribbleOk` | initial-xv6/src/user/umalloc.c:24-90 | Whatever a program writes into its payloads, the allocator's invariant stays. |
| `Umalloc.LargestRequest` | initial-xv6/src/user/umalloc.c:46-69 | A concrete failure: for the largest uint, sbrk is asked for 16 bytes. |
| `ShellSyntax.LineIn` | initial-xv6/src/user/sh.c:345-360 | Every word of a parsed command is a token of the line, and no EXEC has more than MAXARGS - 1 words. |
| `ShellSyntax.ArgsIn` | initial-xv6/src/user/sh.c:416-447 | The words and file names that parseexec collects are tokens, within the argument limit. |
| `ShellSyntax.PipeIn` | initial-xv6/src/user/sh.c:362-373 | The same for pipelines. |
| `ShellSyntax.BlockIn` | initial-xv6/src/user/sh.c:400-414 | The same for parenthesised commands. |
| `ShellRoundTrip.RoundTrip` | initial-xv6/src/user/sh.c:266-447 | For every command tree the grammar can express, with valid words and at most MAXARGS - 1 of them, parsing its print gives the tree back. |
| `ShellRoundTrip.Reprinted` | initial-xv6/src/user/sh.c:328-447 | Every tree the parser makes of any line can be printed, so the round trip covers all that the shell can be told. |
| `ShellSyntax.TokenIs` | initial-xv6/src/user/sh.c:266-309 | A token is what its characters say, the longest word or sign that starts there, and only white space lies before and after it. |
| `ShellAccept.AcceptsExactly` | initial-xv6/src/user/sh.c:328-447 | A line is parsed without a panic if and only if its tokens, read from left to right with a count of open parentheses, are accepted: words up to MAXARGS - 1, a file after every redirection sign, parentheses only where a command starts, after an ampersand only the end of a list element, and all closed at the end. |
| `ShellGrammar.ParsesByGrammar` | initial-xv6/src/user/sh.c:328-447 | The tree parsecmd returns is one the grammar, a relation between token sequences and trees, gives to the tokens of the whole line: words and redirections in their order, pipes, lists, ampersands and blocks where they stand. |
| `ShellCode.Parser.constructor` | initial-xv6/src/user/sh.c:328-334 | Parsing starts at the head of the line. |
| `ShellCode.Parser.Peek` | initial-xv6/src/user/sh.c:311-321 | White space is skipped, and the answer is whether the next character is one of the given ones. |
| `ShellCode.Parser.Blanks` | initial-xv6/src/user/sh.c:272-274 | The position of the first character that is not white. |
| `ShellCode.Parser.Letters` | initial-xv6/src/user/sh.c:296-300 | The end of the word. |
| `ShellCode.Parser.Gettoken` | initial-xv6/src/user/sh.c:266-309 | The token, its bounds and the position after it are those of the grammar. |
| `ShellCode.Parser.Parseredirs` | initial-xv6/src/user/sh.c:375-398 | All redirections at this point, in order, or the panic for a missing file name. |
| `ShellCode.Parser.Parseargs` | initial-xv6/src/user/sh.c:430-443 | All words and redirections up to a closing symbol, or the panic for a bad token or too many words. |
| `ShellCode.Parser.Parseexec` | initial-xv6/src/user/sh.c:416-447 | Refines the grammar's reading of a command; ends on every line. |
| `ShellCode.Parser.Parseblock` | initial-xv6/src/user/sh.c:400-414 | Refines the grammar's reading of a block; ends. |
| `ShellCode.Parser.Parsepipe` | initial-xv6/src/user/sh.c:362-373 | Refines the grammar's reading of a pipeline; ends. |
| `ShellCode.Parser.Parsebacks` | initial-xv6/src/user/sh.c:351-354 | Every ampersand wraps once. |
| `ShellCode.Parser.Parseline` | initial-xv6/src/user/sh.c:345-360 | Refines the grammar's reading of a line; ends. |
| `ShellCode.Parser.Parsecmd` | initial-xv6/src/user/sh.c:334-340 | A result for the whole line, or the panic for leftovers or a syntax error; never a partial parse. |
| `ShellCode.Nulterminate` | initial-xv6/src/user/sh.c:450-494 | A NUL after every word of the command, at any depth, and no other character changed. |
| `ShellCode.NoCutInside` | initial-xv6/src/user/sh.c:450-494 | No NUL falls inside a word. |
| `ShellCode.ReadsBack` | initial-xv6/src/user/sh.c:450-494 | Each word, read as a C string, is exactly its token. |
| `ShellCode.ParseAndCut` | initial-xv6/src/user/sh.c:328-343 | parsecmd in full: the tree is the grammar's and every word reads back as its token. |
| `LruRing.Unlink` | initial-xv6/src/kernel/bio.c:128-129 | Taking a buffer out of the doubly linked ring leaves the ring of the others. |
| `LruRing.LinkFront` | initial-xv6/src/kernel/bio.c:130-133 | Putting one in at the head makes the ring with it in front. |
| `BufCache.MovedRing` | initial-xv6/src/kernel/bio.c:128-133 | The six assignments of brelse move one buffer to the head of the same ring. |
| `BufCache.RecycleOk` | initial-xv6/src/kernel/bio.c:77-87 | Recycling an unreferenced buffer for an uncached block loses nothing: at most one buffer per block, and the map readers see is the same. |
| `BufCache.RecycleExactly` | initial-xv6/src/kernel/bio.c:77-87 | Recycling a buffer for an uncached block is invisible to readers if and only if the buffer agreed with the disk. |
| `BufCache.LoadOk` | initial-xv6/src/kernel/bio.c:92-103 | So does filling an invalid buffer from the disk. |
| `BufCache.FlushOk` | initial-xv6/src/kernel/bio.c:106-112 | So does writing a buffer out, after which it agrees with the disk. |
| `BufCache.ModifyOk` | initial-xv6/src/kernel/bio.c:106-112 | A holder's change to its buffer is a change of the map at that block alone. |
| `BufCache.SetRefOk` | initial-xv6/src/kernel/bio.c:116-151 | Changing a reference count changes nothing that is read, and unreferenced buffers still agree with the disk if and only if this one keeps a reference or agrees. |
| `BufCache.Oldest` | initial-xv6/src/kernel/bio.c:77-87 | The unreferenced buffer nearest the tail is the one released longest ago. |
| `BufCache.Bcache.constructor` | initial-xv6/src/kernel/bio.c:36-53 | A ring of all buffers, and the map is the disk. |
| `BufCache.Bcache.Lookup` | initial-xv6/src/kernel/bio.c:65-73 | The block's buffer, or -1 exactly if it has none. |
| `BufCache.Bcache.Victim` | initial-xv6/src/kernel/bio.c:76-88 | The unreferenced buffer nearest the tail, or -1 exactly if every buffer is referenced. |
| `BufCache.Bcache.Bget` | initial-xv6/src/kernel/bio.c:58-89 | A referenced buffer for the block; a cached one is never replaced, one in use never recycled, the one recycled is the least recently used; panic exactly if none is free; the map is unchanged. |
| `BufCache.Bcache.Bread` | initial-xv6/src/kernel/bio.c:92-103 | The buffer returned holds what the map says, and the map is unchanged. |
| `BufCache.Bcache.Bwrite` | initial-xv6/src/kernel/bio.c:106-112 | The disk comes to hold the buffer's data at its block and is otherwise as it was; no reader can see a difference. |
| `BufCache.Bcache.Write` | initial-xv6/src/kernel/bio.c:106-112 | A holder's change: the map changes at that block and nowhere else. |
| `BufCache.Bcache.Bpin` | initial-xv6/src/kernel/bio.c:139-144 | One more reference; the map is unchanged. |
| `BufCache.Bcache.Bunpin` | initial-xv6/src/kernel/bio.c:146-151 | One reference fewer; the map is unchanged; the invariant stays if and only if a reference is left or the buffer agrees with the disk. |
| `BufCache.Bcache.Brelse` | initial-xv6/src/kernel/bio.c:116-137 | A buffer whose last reference goes is at the head of the list; the ring keeps all buffers; the map is unchanged; the invariant stays if and only if a reference is left or the buffer agrees with the disk. The buffers keep their order of last use, but for this one, which is now the latest. |
| `LifecycleSteps.StepInv` | initial-xv6/src/kernel/proc.c:405-575 | Every step of fork, failing forks included, exit, reparent, wait (and waitx, which takes the same steps), sleep, wakeup and kill, one lock-held region or one table slot at a time, keeps the invariant; part of it is that a scan has noted a child exactly if it has passed one, and that whoever sleeps in wait, or is about to, has one. |
| `LifecycleSteps.Frame` | initial-xv6/src/kernel/proc.c:405-575 | No step changes a process that it does not name. |
| `LifecycleRuns.BootInv` | initial-xv6/src/kernel/proc.c:351-375 | The table with init alone satisfies it. |
| `LifecycleRuns.RunInv` | initial-xv6/src/kernel/proc.c:405-575 | So does every state of every interleaving. |
| `LifecycleRuns.NoLostWakeup` | initial-xv6/src/kernel/proc.c:525-575 | Whenever wait_lock is free, no process that sleeps in wait, or is past the point of no return on its way there, has a zombie child. |
| `LifecycleRuns.ParentsAlive` | initial-xv6/src/kernel/proc.c:462-521 | At every moment a parent is neither a zombie nor a free slot, and every process but init that has started has one. |
| `LifecycleRuns.ReapedOnce` | initial-xv6/src/kernel/proc.c:525-575 | No pid is reaped twice in a run. |
| `LifecycleRuns.OnlyParentReaps` | initial-xv6/src/kernel/proc.c:537-563 | A zombie goes only through wait by its current parent, which returns its pid and frees the slot. |
| `LifecycleRuns.OneHolder` | initial-xv6/src/kernel/proc.c:479-575 | wait_lock has at most one holder. |
| `LifecycleRuns.WaitDecides` | initial-xv6/src/kernel/proc.c:564-573 | Over every run: at the end of its scan a wait goes on to sleep exactly if the process has a child and is not killed; otherwise it returns -1 and lets wait_lock go. |
| `LifecycleRuns.WaitGoesOn` | initial-xv6/src/kernel/proc.c:564-573 | There exactly one of the two is open to it. |
| `LifecycleRuns.WaitReturns` | initial-xv6/src/kernel/proc.c:525-575 | A wait that returns gives the pid of a zombie child, reaped, or -1: without children, killed, or at a zombie whose status cannot be copied out and which stays. |
| `LifecycleRuns.SleepsForSomeone` | initial-xv6/src/kernel/proc.c:564-573 | Whenever wait_lock is free, who sleeps in wait, or is on the way there, has a child that is not a zombie yet. |
| `LifecycleStory.WaitSleepsAndIsWoken` | initial-xv6/src/kernel/proc.c:405-575 | In a table of any size there is a run in which init forks, waits and sleeps, the child's exit makes it runnable, and its wait returns the child's pid. |
| `LifecycleStory.StoryIsRun` | initial-xv6/src/kernel/proc.c:405-575 | All of that is one run from boot. |
| `LifecycleRuns.ParentMoves` | initial-xv6/src/kernel/proc.c:405-563 | A process's parent changes only when its fork sets it, when the parent exits, and then to init, and when it is reaped. |
| `LifecycleRuns.ForkMakes` | initial-xv6/src/kernel/proc.c:405-457 | A fork that ends has made a runnable child of its caller, in the slot and with the pid it was given at its beginning. |
| `LifecycleRuns.KilledExactly` | initial-xv6/src/kernel/proc.c:938-992 | A slot is marked killed exactly if kill has found it since it was last freed. |
| `LifecycleRuns.KilledStep` | initial-xv6/src/kernel/proc.c:938-961 | kill wakes its victim, whatever it sleeps on. |
| `LifecycleRuns.StatesMove` | initial-xv6/src/kernel/proc.c:405-961 | Process states move only along their diagram: allocproc takes a free slot, fork starts it, the scheduler runs it, it yields, sleeps or dies, wakeup and kill make it runnable, wait frees it. |
| `VirtioState.AtMostTwo` | initial-xv6/src/kernel/virtio_disk.c:201-213 | Eight descriptors in chains of three: at most two requests at a time. |
| `VirtioState.RingsShort` | initial-xv6/src/kernel/virtio_disk.c:201-327 | At most two entries of either ring are unread. |
| `VirtioState.PushOk` | initial-xv6/src/kernel/virtio_disk.c:271-277 | Writing at a ring's end overwrites nothing unread, even as the 16-bit index wraps. |
| `VirtioState.PopOk` | initial-xv6/src/kernel/virtio_disk.c:312-324 | The slot at the reader's index holds the oldest unread entry. |
| `VirtioSteps.SubmitOk` | initial-xv6/src/kernel/virtio_disk.c:235-277 | Formatting and queueing a request on three free descriptors keeps the protocol invariant and touches no other chain. |
| `VirtioSteps.ChainReads` | initial-xv6/src/kernel/virtio_disk.c:238-265 | The device that follows a chain sees exactly the operation, sector and buffer the driver asked for. |
| `VirtioSteps.TakeOk` | initial-xv6/src/kernel/virtio_disk.c:271-277 | The device taking the next available entry keeps the invariant. |
| `VirtioSteps.CompleteOk` | initial-xv6/src/kernel/virtio_disk.c:312-324 | The device completing any request it works on, in any order, keeps it. |
| `VirtioSteps.AckOk` | initial-xv6/src/kernel/virtio_disk.c:312-324 | The interrupt handler's entry is a request's head with status 0, and it is that request's own buffer that is marked done. |
| `VirtioSteps.RwReturns` | initial-xv6/src/kernel/virtio_disk.c:283-289 | A caller that finds its buffer released: the device has done this very request, and a block read is in the buffer. |
| `VirtioSteps.FinishOk` | initial-xv6/src/kernel/virtio_disk.c:288-289 | Freeing the chain afterwards keeps the invariant. |
| `VirtioCode.Driver.AllocDesc` | initial-xv6/src/kernel/virtio_disk.c:156-166 | The lowest free descriptor, or -1 exactly if none is free. |
| `VirtioCode.Driver.Alloc3Desc` | initial-xv6/src/kernel/virtio_disk.c:201-213 | Three distinct free descriptors; none is taken exactly if there are not three. |
| `VirtioCode.Driver.Start` | initial-xv6/src/kernel/virtio_disk.c:215-281 | The request is queued with three descriptors that were free and its buffer marked, or there are no three free and nothing has changed that matters; neither the disk nor any buffer nor any other request is touched. |
| `VirtioCode.Driver.FreeChain` | initial-xv6/src/kernel/virtio_disk.c:185-197 | Following the links frees exactly the chain's three descriptors. |
| `VirtioCode.Driver.End` | initial-xv6/src/kernel/virtio_disk.c:283-292 | The request was done, a block read is in its buffer, and its three descriptors are free again; nothing else changes. |
| `VirtioCode.Driver.Intr` | initial-xv6/src/kernel/virtio_disk.c:294-327 | All reported completions are acknowledged, the panic on a bad status is unreachable, and only buffers of requests the device has done are released. |
| `VirtioRuns.FillOk` | initial-xv6/src/kernel/virtio_disk.c:215-281 | A caller that fills a buffer no request uses disturbs nothing. |
| `VirtioRuns.Ready` | initial-xv6/src/kernel/virtio_disk.c:215-327 | Under the invariant every step the driver or device may take makes sense. |
| `VirtioRuns.StepInv` | initial-xv6/src/kernel/virtio_disk.c:215-327 | Every step of driver, device and interrupt handler keeps the invariant. |
| `VirtioRuns.BootInv` | initial-xv6/src/kernel/virtio_disk.c:61-153 | The driver's initial state satisfies it. |
| `VirtioRuns.RunInv` | initial-xv6/src/kernel/virtio_disk.c:215-327 | So does every state of every run, with completions in any order. |
| `VirtioRuns.FewInFlight` | initial-xv6/src/kernel/virtio_disk.c:201-327 | At every moment at most two requests are in flight and at most two entries of a ring unread. |
| `VirtioRuns.Persists` | initial-xv6/src/kernel/virtio_disk.c:215-327 | A step that does not submit or complete a request leaves it, and its buffer, as they are. |
| `VirtioRuns.JustCompleted` | initial-xv6/src/kernel/virtio_disk.c:238-265 | A completion moves the block the request names between its buffer and its sector. |
| `VirtioRuns.SubmittedBefore` | initial-xv6/src/kernel/virtio_disk.c:215-281 | Every request in flight was submitted by an earlier step with this buffer and operation, and has been in flight since. |
| `VirtioRuns.CompletedBefore` | initial-xv6/src/kernel/virtio_disk.c:294-327 | Every request that counts as served was completed by an earlier step, and a block read is the one the disk held then. |
| `VirtioRuns.ReturnsAfterCompletion` | initial-xv6/src/kernel/virtio_disk.c:283-292 | For every return of virtio_disk_rw in every run there are an earlier step that submitted this very request, with this buffer and operation, and a step between them in which the device completed it; after that completion the sector holds what the buffer held at submission, for a write; for a read the buffer holds what the sector held then. |
| `VirtioRuns.DiskFrame` | initial-xv6/src/kernel/virtio_disk.c:215-327 | No step changes a sector but the completion of a write, and that only the one it names, to what the buffer holds. |
| `VirtioRuns.BufferFrame` | initial-xv6/src/kernel/virtio_disk.c:215-327 | No step changes a buffer but its holder's and the completion of a read into it. |
| `VirtioRuns.DiskHolds` | initial-xv6/src/kernel/virtio_disk.c:215-327 | At every moment of every run a sector holds the block of the last completed write to it: what the buffer held when virtio_disk_rw was called for it. |
| `VirtioRuns.DiskUnwritten` | initial-xv6/src/kernel/virtio_disk.c:215-327 | Before the first such write it holds what it held at the start. |
| `VirtioRuns.BufferHolds` | initial-xv6/src/kernel/virtio_disk.c:215-327 | A buffer holds what its holder last put there, or the sector of the last read into it as the disk had it at that completion. |
| `VirtioRuns.Moves` | initial-xv6/src/kernel/virtio_disk.c:215-327 | A request moves on at its own steps only: taken, completed, acknowledged, and at the return it is gone and its descriptors are free. |
| `VirtioRuns.SomeAdvances` | initial-xv6/src/kernel/virtio_disk.c:215-327 | As long as requests are in flight, one of them can move on. |
| `VirtioRuns.OnlyCompletionsLog` | initial-xv6/src/kernel/virtio_disk.c:294-327 | The record of what the device did is written by its completions alone, each for the request it was working on. |
| `VirtioRuns.OneChainEach` | initial-xv6/src/kernel/virtio_disk.c:185-213 | At every moment of every run a descriptor is in use if and only if it is in some chain of three, and it is in at most one. |
| `Links.LinkBeginOk` | initial-xv6/src/kernel/sysfile.c:145-147 | nlink is a short and link does not look for room in it: the first half of a link keeps every count equal, as a short, to the entries plus the links in progress, however many there are. |
| `Links.LinkBeginExact` | initial-xv6/src/kernel/sysfile.c:145-147 | Where counts are exact, the first half of a link keeps them exact if and only if the count is below 32767. |
| `Links.LinkDoneOk` | initial-xv6/src/kernel/sysfile.c:149-157 | Entering the name completes the balance, and keeps exact counts exact. |
| `Links.LinkDoneBalanced` | initial-xv6/src/kernel/sysfile.c:149-157 | sys_link does not look at the directory's own link count: the counts stay balanced if and only if it has links. |
| `Links.LinkUndoOk` | initial-xv6/src/kernel/sysfile.c:163-169 | The undo restores the balance, whatever happened meanwhile; an exact count it finds positive, and leaves exact. |
| `Links.UndoUndoes` | initial-xv6/src/kernel/sysfile.c:145-169 | A link begun and undone leaves the state as it was, even if the count wrapped in between. |
| `Links.NewFileOk` | initial-xv6/src/kernel/sysfile.c:265-293 | Creating a file keeps counts and tree, and exact counts exact. |
| `Links.NewDirOk` | initial-xv6/src/kernel/sysfile.c:265-293 | Creating a directory keeps them, the parent's link for ".." included, where the parent's count has room. |
| `Links.NewFileBalanced` | initial-xv6/src/kernel/sysfile.c:245-302 | create does not look at the directory's own link count: the new file's count is right if and only if the directory has links. |
| `Links.NewDirBalanced` | initial-xv6/src/kernel/sysfile.c:245-302 | mkdir does not look at it either: the counts stay balanced if and only if the directory has links and fewer than 32767. |
| `Links.MkdirFits` | initial-xv6/src/kernel/sysfile.c:284-289 | With at most 32767 inodes the second condition always holds: a directory is named at most once by every other and once by the one it stands in. |
| `Links.RevivedCount` | initial-xv6/src/kernel/sysfile.c:284-289 | In a directory without links mkdir brings it back to life, and the count of the inode its ".." names is then one too low. |
| `Links.UnlinkFacts` | initial-xv6/src/kernel/sysfile.c:211-216 | sys_unlink panics on the count it finds if and only if the number of references, modulo 65536, is 0 or above 32767; never while counts are exact, and never for a directory. |
| `Links.EmptyDirOnce` | initial-xv6/src/kernel/sysfile.c:173-186 | An empty directory has exactly one link. |
| `Links.ParentKeepsLink` | initial-xv6/src/kernel/sysfile.c:225-228 | A directory that loses an empty subdirectory keeps a link of its own. |
| `Links.UnlinkOk` | initial-xv6/src/kernel/sysfile.c:188-243 | Unlinking a file or empty directory keeps counts and tree; exact counts stay exact, with neither decrement going below zero. |
| `Links.FreedOk` | initial-xv6/src/kernel/fs.c:336-362 | An inode that iput frees is named by no entry and by no link in progress, and all stays balanced, if and only if it has fewer than 65536 references; always where counts are exact. |
| `DirNames.LookupFirst` | initial-xv6/src/kernel/fs.c:552-572 | A name leads where the first slot in use for it says. |
| `DirNames.EnteredLookup` | initial-xv6/src/kernel/fs.c:580-606 | dirlink of a new name: it leads to the new inode, and every other name of the directory where it did. |
| `DirNames.EnteredUnique` | initial-xv6/src/kernel/fs.c:580-606 | dirlink keeps the names of a directory distinct. |
| `DirNames.ErasedLookup` | initial-xv6/src/kernel/sysfile.c:222-224 | Emptying a slot takes its name away and no other, since names are distinct. |
| `DirNames.LinkDoneNames` | initial-xv6/src/kernel/sysfile.c:149-157 | link: of all names of all directories only the new one leads elsewhere now, to the inode. |
| `DirNames.NewFileNames` | initial-xv6/src/kernel/sysfile.c:265-293 | create of a file: likewise. |
| `DirNames.NewDirNames` | initial-xv6/src/kernel/sysfile.c:265-293 | mkdir: likewise, and in the new directory "." and ".." lead to itself and to its parent and no other name leads anywhere. |
| `DirNames.UnlinkNames` | initial-xv6/src/kernel/sysfile.c:188-243 | unlink: of all names only this one leads elsewhere now, nowhere. |
| `Links.RootInv` | initial-xv6/src/mkfs/mkfs.c:117-128 | The root directory that mkfs writes satisfies the invariant. |
| `LinksCode.Directories.constructor` | initial-xv6/src/mkfs/mkfs.c:117-128 | The root directory that mkfs writes, with exact counts. |
| `LinksCode.Directories.Dirlookup` | initial-xv6/src/kernel/fs.c:551-575 | The first slot in use for the name, or -1 if there is none: where the directory, as a map from names, sends it. |
| `LinksCode.Directories.Slot` | initial-xv6/src/kernel/fs.c:579-606 | The first empty slot or the end, and -1 exactly if the name is taken or the disk refuses. |
| `LinksCode.Directories.Ialloc` | initial-xv6/src/kernel/fs.c:198-219 | The first free inode, or -1 exactly if there is none. |
| `LinksCode.Directories.Create` | initial-xv6/src/kernel/sysfile.c:245-302 | A new file or directory with its entry, or the existing file; the failures are exactly the listed ones, and none leaves a trace; it panics exactly if the name leads to a free inode, which only the ".." of a directory without links can do; the counts stay balanced if and only if nothing was made or the directory has links (and room in its count, for a directory). The new name leads to the new inode, every other name of every directory where it did, and names stay distinct. |
| `LinksCode.Directories.LinkStart` | initial-xv6/src/kernel/sysfile.c:138-147 | Directories are refused; otherwise the count, a short, goes up with a link in progress; exact counts stay exact if and only if it was below 32767. |
| `LinksCode.Directories.LinkFinish` | initial-xv6/src/kernel/sysfile.c:149-170 | The entry is made exactly if the name is new and the disk takes it, otherwise the count is restored; the counts stay balanced if and only if it was restored or the directory has links. The name leads to the inode then and every other name where it did; after the undo every name does. |
| `LinksCode.Directories.Isdirempty` | initial-xv6/src/kernel/sysfile.c:173-186 | True exactly if nothing but the dot entries is in use. |
| `LinksCode.Directories.SysUnlink` | initial-xv6/src/kernel/sysfile.c:188-243 | Done exactly for a name other than the dots that leads to a file or an empty directory whose count is positive; panics exactly if that count is below 1, which it never is while counts are exact; refused without a change otherwise. The name leads nowhere then, and every other name where it did. |
| `LinksCode.Directories.LastIput` | initial-xv6/src/kernel/fs.c:336-362 | The inode is freed exactly if its count is 0; nothing names it then, and the balance stays, if and only if it has fewer than 65536 references. |
| `LinkRuns.CountsSuffice` | initial-xv6/src/kernel/sysfile.c:123-243 | While counts are exact no decrement takes one below zero, unlink does not panic, and iput frees only what nothing names. |
| `LinkRuns.StepInv` | initial-xv6/src/kernel/sysfile.c:123-302 | Every step, the two halves of a link apart and with no limit on links, keeps the counts right as shorts if and only if it does not free an inode that is still named. |
| `LinkRuns.StepExact` | initial-xv6/src/kernel/sysfile.c:123-302 | Every step keeps exact counts exact if and only if it does not take a count past 32767. |
| `LinkRuns.StepNames` | initial-xv6/src/kernel/sysfile.c:123-302 | Every step keeps the names in use in one directory distinct, and changes where names lead only as its call says. |
| `LinkRuns.RunInv` | initial-xv6/src/kernel/sysfile.c:123-302 | All states of a run have counts right as shorts if and only if it frees no inode that is still named. |
| `LinkRuns.RunExact` | initial-xv6/src/kernel/sysfile.c:123-302 | All states of a run have exact counts if and only if it takes no count past 32767. |
| `LinkRuns.RunNames` | initial-xv6/src/kernel/sysfile.c:123-302 | Names stay distinct along every run that frees no inode still named, and a name leads where it did until a step that is about it. |
| `LinkRuns.LinksBalance` | initial-xv6/src/kernel/sysfile.c:123-302 | After any run from the root that mkfs writes that takes no count past 32767, each inode's count is the number of entries that name it (not ".", in directories with links) plus the links in progress, and no entry leads to a free inode. |
| `LinkRuns.CountsWrap` | initial-xv6/src/kernel/sysfile.c:123-302 | After any run at all, up to the first free of an inode still named, each count is that number as a short holds it. No directory has a name twice. |
| `LinkRuns.DeadDirReached` | initial-xv6/src/kernel/sysfile.c:188-302 | Such directories occur: a run that makes a directory and removes it leaves one without links. |
| `LinkWraps.BulkRun` | initial-xv6/src/kernel/sysfile.c:123-161 | Any number of links to one file in one directory is a run, with no count taken past 32767 if there is room for them. |
| `LinkWraps.Reached` | initial-xv6/src/kernel/sysfile.c:123-302 | A run from mkfs's root to any number of links in four directories, and the count it ends with. |
| `LinkWraps.LimitReached` | initial-xv6/src/kernel/sysfile.c:123-161 | 32767 links to one file, however spread over four directories no longer than a file can be and with different names, leave its count exact and at its limit. |
| `LinkWraps.LimitPassed` | initial-xv6/src/kernel/sysfile.c:145-147 | There the first half of one more link makes the counts inexact, though still right as shorts. |
| `LinkWraps.UnlinkPanicReached` | initial-xv6/src/kernel/sysfile.c:145-216 | The failing input: with one link more, complete and none in progress, the count is -32768 while 32768 entries name the file, and unlink of one of them panics. |
| `LinkWraps.NamedInodeFreed` | initial-xv6/src/kernel/fs.c:336-362 | With 65536 links in four such directories the count is 0, and the last iput frees the inode that all of them still name. |
| `LinksCode.Balanced` | initial-xv6/src/kernel/sysfile.c:123-302 | Where counts are exact and no link is in progress, the count is the number of entries. |

## Left out

- `LinksCode.Directories.LinkFinish`: path lookup and the device comparison come before it; that an inode number is a ushort is not modelled.
- `LinksCode.Directories.SysUnlink`: one step; the source drops the directory's lock before it lowers the count, but holds the inode's lock over both.
- `Umalloc.Allocator.Malloc`: requires that all earlier grants lie below the break, which it keeps exactly unless it asks sbrk for 2 GiB or more.
- `Umalloc.Allocator.Free`: requires a pointer that malloc returned and that was not freed since; C callers owe that.
- `FsCode.Fs.Writei`: the disk is what bread returns; that bytes copied before a failed copy, being neither logged nor written, can revert when their buffer is recycled is stated by `BufCache.RecycleExactly` alone.
- `FsInode.UpdateSaves`: the major and minor numbers of device inodes stay as the block has them.
- `FsCrash.FilesSurvive`: is given the states between which the committed transactions lead; which calls of which processes the log puts in one transaction is decided in LogRuns, and that each call leads from one state to the next with all that it changes logged is what FsCode and FileCode promise.
- `FileCode.File.FileWrite`: a chunk is one step, and no other process acts on the file system between two chunks; in the source the inode lock keeps other writers of this file out of a chunk, but other processes may allocate and write meanwhile.
- `FileCode.BeginOp`: the log's own admission is in LogCode and LogRuns; here it only resets the tally of logged blocks that the end of the chunk checks against MAXOPBLOCKS.
- `Mkfs.Builder.Make`: reports failure where the source would hand out blocks or inodes past the end of the image; directory entries are given as byte strings.
- `VmCode.Vm.Uvmunmap`: requires, if frames are to be freed, that the mapped pages own theirs; that is what its callers owe kfree.
- `BufCache.Bcache.Brelse`: sleep-locks, and the panic for a caller that does not hold one, are not modelled.
- `VirtioCode.Driver.Intr`: the device completes requests successfully, in any order; a device that reports an error makes the source panic.
- `VirtioCode.Driver.Start`: one turn of the loop that sleeps for descriptors; that a sleeper is woken in the end is not stated.
- `Pipes.Pipe.PipeWrite`: the caller is woken a given number of times; that the other side's wakeup comes is not stated.
- `ShellCode.Parser.Parseargs`: gathers words and redirections apart, while the source fills an execcmd that redirections already wrap.
- `Mlfq.Scheduler.Round`: one hart; roqd, qnumber and wwpqtct are unbounded here and ints in the source, so numbers past 2^31 differ; npnq, which does not count queue populations, the event log and pids are left out.
- `Lottery.Scheduler.Choose`: requires a runnable process; with none, rg takes a remainder by zero, and the walk finds no winner whatever it yields. Nothing is said of a ticket total that overflows an int.
- `LifecycleSteps.StepInv`: the process table is a value and wait_lock and p->lock are program points; exit statuses, pid overflow, and what waitx reports about times, are left out.
- Spinlock atomics and fences: a lock-held region is one step.
- iget and the in-memory inode table, ilock, skipelem and namex, open, mknod and device files, file reference counts.
- `VmProcs.Procs.Growproc`: requires an int, as its callers pass; exec, which replaces an address space, is not among the calls.
- copyin, copyout, exec, the kernel page table, uvmclear and uvmfirst.
- The disk driver's initialisation, interrupts, traps, sigalarm, the console, system-call plumbing, time accounting.
- The round-robin scheduler, and MLFQ on several harts, where a chosen process can be demoted before it is dispatched.
