# A verified model of cannedBSD

cannedBSD is a small Unix kernel that runs in user space: a cooperative
scheduler with pipes, descriptors, wait, exec and interrupts, a RAM file system
behind a VFS with mounts, a tree walker, a canonical terminal and a shell. This
project models its logic in Dafny and proves what the design relies on. The
whole project is checked by `dafny verify dfyconfig.toml`.

How the files follow the program:

| files | what they model |
|---|---|
| `KernelState`, `KernelInvariant`, `KernelDescriptors`, `KernelCalls`, `KernelIo`, `KernelLife`, `KernelRuns` | the kernel tables of `src/core.c` as one value, every call as a step from one yield to the next, and the invariant all steps keep |
| `KernelPromises`, `KernelFairness`, `KernelInterrupts`, `KernelPolls` | what holds in every reachable state and over every run; the interrupt protocol; what poll reports and when it returns |
| `KernelResults` | what each kernel call answers, and what it leaves in the descriptor table, the pipe and the task list |
| `Kernel`, `PipeRing`, `PipeTransfer` | the same operations as the program writes them: loops over the task list and the descriptor tables, the 4096-byte ring, and the pipe calls carried out on it |
| `Rings`, `Terminal`, `TerminalLaws` | `src/terminal.c`: two rings and an edit buffer against a pure line editor, and what that makes of keystrokes |
| `Path`, `PathLaws` | path normalisation, dirname and basename; what a dot, two dots, a name and a slash do to a path |
| `FsTree`, `FsInvariant`, `Vfs`, `FsLaws`, `FsMoves` | the file system as a value, the tree invariant, resolution and the working directory across mounts, and where every path leads after each call |
| `Ramfs`, `VfsStore`, `Files` | child and sibling pointers against child lists, and the path calls carried out on them; the data buffer against a sequence of bytes |
| `Directories`, `Iteration` | look-ahead directory handles, and reading a directory while it changes |
| `Subtrees`, `TreeExists`, `Fts`, `Rm`, `RmTree`, `WalkCycles`, `RmLost`, `RmCwd`, `EmptyStart`, `RmMain`, `RmLaws` | the explicit-stack walk of `libc/cb_fts.c`, and `rm -r` deleting underneath it |
| `Shell`, `ShellScan`, `ShellLaws` | the lexer and the line splitter of `src/shell.c`, that they agree, and that a spelt line reads back |
| `KernelSlots`, `KernelFiles`, `Pipeline`, `PipelineRun`, `PipelineEnds` | the descriptor plumbing of `run_pipeline` over the kernel's own calls, and end of file along a pipeline |
| `Strtol`, `StrtolLaws`, `Memmove` | the strtoimax body with the `%Nd` formatter it inverts, and what it answers for a written number; the word-copying memmove |
| `Common` | shared types |

A method that models a loop of the program is proved equal to a function on
values (`ensures View() == ...`), and the theorems are about those functions.
The modules ending in `Laws`, and `FsMoves`, `KernelResults`, `KernelPolls` and
`KernelInterrupts`, pin the functions down by laws that do not mention them.
What the host decides (console readiness, the clock, memory, the user's
answers) is a parameter.

The limits of the tree walk, which the theorems about it assume, are those of
the program: at most 16 directories nested (the handles of a task,
`src/internal.h:230`), every path as built and as normalised shorter than 1024
bytes, and nothing mounted below the start. `..` is resolved by the normaliser,
on the text of the path.

Four properties one would expect turned out to need a condition. The first three
are proved to hold if and only if the condition does, and the fourth to hold under
it and to fail without it:

- `rm -rf` of a directory removes it and succeeds unless the caller's working
  directory is strictly inside. Every call first spells out the working
  directory (`src/vfs.c:148-156`), which fails once that directory has been
  removed; from then on every entry is reported, every rmdir fails, the
  ancestors stay and the exit status is 1 (`RmCwd.RmSucceedsIff`).
- A walk started at the empty path opens the working directory but names its
  entries from the root, because a child's path is built as `"" + "/" + name`
  (`libc/cb_fts.c:88-98`). The names are right only when the working directory
  is the root (`Path.EmptyStartIsRoot`); otherwise no entry of the working
  directory is ever removed, and a file of the root with the same name is
  (`EmptyStart.EmptyStartSpares`, `EmptyStart.EmptyStartRemovesOther`).
- A directory handle returns exactly the entries that were to come if and only
  if the calls made meanwhile are harmless to them (`Iteration.DrainExactIff`,
  `Iteration.LastCallDecides`). A call that removes the look-ahead entry lets it
  come and loses what is behind it, unless it was the last; one that renames it
  leads the handle into the list the entry is put on, which is harmless only at
  the front of its own list or, for the last entry, in an empty directory; one
  that removes or renames a later entry skips it. What is returned after any
  sequence of calls is computed exactly (`Iteration.IterationIsExact`).
- An accepted interrupt request ends its target with status 130 in every run
  whose picks never cease, unless the target is running at that moment
  (`KernelInterrupts.InterruptIsDelivered`). A running task is not preempted
  (`src/core.c:546-561`), and if it next blocks it sleeps with the interrupt
  pending until something else wakes it, possibly for ever
  (`KernelInterrupts.StrandedInterrupt`).

## Model

| member | source | states |
|---|---|---|
| `KernelRuns.StepKeeps` | src/core.c:378-512 | every call, wake, pick, exec completion and interrupt keeps the kernel invariant: exact counts, live pipes, no blocked task with something to do, one list entry per task |
| `KernelRuns.Reachable` | src/core.c:2069-2180 | every state of every run from boot satisfies that invariant |
| `KernelPromises.NoLostPipeWakeup` | src/core.c:391-456 | in every reachable state a task blocked reading a pipe still holds its end, the pipe is empty and has an open writer; one blocked writing has a full pipe and an open reader |
| `KernelPromises.NoLostWaitOrPollWakeup` | src/core.c:1049-1168 | a task blocked in waitpid has a matching child and none of its matching children has exited; one blocked in poll watches only open descriptors with nothing to report: an end whose other end is open, an empty pipe if it waits to read, a full one if it waits to write |
| `KernelPromises.ReapedOnce` | src/core.c:1013-1080 | over every run each child is reaped at most once, by its parent, with the status it exited with |
| `KernelPromises.ExactReferences` | src/core.c:191-262 | every open file's count is the number of descriptor slots holding it over all tasks, and every file is last-closed at most once, exactly when no slot holds it |
| `KernelPromises.PipeLifetime` | src/core.c:496-512 | a pipe exists exactly while one of its ends is open, and counts its readers and writers exactly |
| `KernelPromises.PipeConservation` | src/core.c:391-456 | bytes received followed by the bytes in the ring are the bytes sent, for every interleaving, and the ring never exceeds 4096 |
| `KernelPromises.PendingIsDeliverable` | src/core.c:524-561 | a pending interrupt implies default disposition and an executor that supports interrupts, installed and pending alike |
| `KernelInterrupts.InterruptBeforeReturn` | src/core.c:563-581 | a task picked with an interrupt pending exits with 130; otherwise it resumes its call with none pending |
| `KernelInterrupts.RequestRaises` | src/core.c:546-561 | a request to a live task that supports and does not ignore interrupts leaves it pending and not blocked; nothing else changes, and no other request changes anything |
| `KernelInterrupts.SignalsAre` | src/core.c:534-581 | after every step: the pending bit of every task is set by an accepted request alone, and cleared by the switch to the task and by its own choice to ignore alone; its disposition is changed by itself alone; only an exited task disappears |
| `KernelInterrupts.SetInterruptReturns` | src/core.c:534-544 | the setter answers the previous disposition, discards a pending interrupt only when it ignores, and is refused without support |
| `KernelInterrupts.SpawnKeepsSignals` | src/core.c:655-726 | a child inherits the disposition and no pending interrupt; the parent keeps both |
| `KernelInterrupts.PendingIsDelivered` | src/core.c:563-581 | on every infinite run whose picks never cease, a runnable task with an interrupt pending ends with status 130 |
| `KernelInterrupts.InterruptIsDelivered` | src/core.c:546-581 | so does the target of every accepted request that was not running, blocked and between two programs included |
| `KernelInterrupts.StrandedInterrupt` | src/core.c:546-581 | a running target that then blocks in a read of its own pipe sleeps with the interrupt pending after every further sequence of steps without a second request |
| `KernelPolls.PollAnswers` | src/core.c:1087-1168 | poll answers the number of descriptors that are closed or have something to report, at once; with none it answers 0 if told not to wait and else sleeps; too many descriptors and a timeout without a clock are refused |
| `KernelPolls.PollGoesRound` | src/core.c:1113-1167 | a woken poll answers what is reported now, gives up after its time, or sleeps again |
| `KernelPolls.ReadAgrees` | src/core.c:472-482 | a readable descriptor is reported ready for reading if and only if a read from it does not block |
| `KernelPolls.WriteAgrees` | src/core.c:484-494 | a writable one ready for writing if and only if a write of one byte does not block |
| `KernelPolls.TickWakesWhom` | src/core.c:2133-2144 | a round of the scheduler wakes exactly the polls whose time is over by the 64-bit clock difference and, if the console is ready, the console readers and polls |
| `KernelPolls.IdleWakesWhom` | src/core.c:2146-2160 | with nothing runnable every poll is woken, and console readers when the console was waited for |
| `KernelPolls.WaitingUntouched` | src/core.c:792-810 | nothing about a task waiting for its turn changes but its pending bit |
| `KernelPolls.PollTimesOut` | src/core.c:2126-2180 | on every infinite run whose picks never cease, a poll whose time a round has found to be over returns, or its task was interrupted |
| `KernelResults.CloseAnswers` | src/core.c:1184-1191 | close empties the slot and answers 0, or -1 for a closed one |
| `KernelResults.DupAnswers` | src/core.c:1324-1341 | dup answers the lowest free slot, which then names the same file without the flag; -1 and no change for a closed one or a full table |
| `KernelResults.Dup2Answers` | src/core.c:1343-1359 | dup2 answers the new descriptor, which then names the same file without the flag; onto itself nothing changes; -1 for a closed or an impossible one |
| `KernelResults.CloexecAnswers` | src/core.c:1361-1372 | the flag of that slot alone is set |
| `KernelResults.OpenAnswers` | src/core.c:1171-1182 | open answers the lowest free slot, with a new file of the mode asked for; with a full table it leaves no file behind |
| `KernelResults.ReadAnswers` | src/core.c:391-418 | a read takes from the front of the pipe as much as asked for or all there is, and answers that number; 0 when it is empty and no writer is open; otherwise it sleeps |
| `KernelResults.WriteAnswers` | src/core.c:420-456 | a write appends all its bytes and answers their number, or fills the pipe and sleeps with the count so far; -1 without a reader |
| `KernelResults.ReadResumes` | src/core.c:391-418 | a woken read takes what is there then, or finds the last writer gone, or sleeps again |
| `KernelResults.WriteResumes` | src/core.c:420-456 | a woken write goes on behind the bytes it has moved, and answers the whole count, or what was moved before the last reader went |
| `KernelResults.TransferRefused` | src/core.c:1193-1243 | a closed descriptor, or one open for the other direction only, is refused and nothing else happens |
| `KernelResults.YieldAnswers` | src/core.c:1082-1085 | yield gives up the turn, runnable |
| `KernelResults.ExitAnswers` | src/core.c:1013-1029 | exit leaves a zombie without descriptors whose status is the low byte; the boot task's status ends the kernel |
| `KernelResults.WaitAnswers` | src/core.c:1049-1080 | waitpid answers the first exited matching child in list order, hands over its status and takes out its record alone; -1 exactly without a matching child; otherwise it sleeps |
| `KernelResults.WaitResumes` | src/core.c:1049-1080 | a woken waitpid does what the same call would do then |
| `KernelResults.SpawnAnswers` | src/core.c:655-726 | spawn succeeds exactly when memory is granted and no action is refused; the child is the new list head, runnable, with the caller's table after the actions |
| `KernelResults.ActionEntries` | src/core.c:618-653 | a dup2 action names the file again without its flag, onto itself too; a close action empties the slot |
| `KernelResults.ExecAnswers` | src/core.c:741-790 | exec is refused exactly when the new program could not take a pending or ignored interrupt; otherwise the scheduler closes the flagged descriptors alone and the task is runnable |
| `KernelFairness.ScanStopsAt` | src/core.c:792-810 | the circular scan of the task list never passes a runnable task |
| `KernelFairness.StepRank` | src/core.c:655-810 | a pick of another task lowers a waiting task's rank (wrap-around phase, then distance), and no other step, including spawns at the list head and reaps, raises it |
| `KernelFairness.EventuallyPicked` | src/core.c:792-810 | from any state that keeps the invariant a waiting task is picked after finitely many picks |
| `KernelFairness.StarvationFree` | src/core.c:2126-2180 | the same of every infinite run from boot in which picks keep happening |
| `KernelIo.InstalledAt` | src/core.c:209-223 | installing a file in a slot releases the old one, moves one reference and keeps all other slots |
| `KernelIo.PipeCallKeeps` | src/core.c:1374-1423 | making a pipe keeps the invariant on success and on each failure path |
| `KernelCalls.ClosedFrom` | src/core.c:255-262 | closing all descriptors empties the table and releases exactly what it held |
| `KernelLife.FdsCopied` | src/core.c:700-706 | a child gets the parent's descriptors with their flags, each with a reference of its own |
| `KernelLife.ClosedOnExecFrom` | src/core.c:748-752 | exec closes exactly the descriptors flagged close-on-exec |
| `KernelLife.WaitKeeps` | src/core.c:1049-1080 | reaping keeps the invariant, and the schedule cursor never points at the reaped child |
| `KernelLife.ExitKeeps` | src/core.c:1013-1029 | exit keeps the invariant and leaves a zombie that holds no descriptor |
| `Kernel.Machine.WakePipeWaiters` | src/core.c:378-389 | the list walk makes runnable exactly the tasks blocked on a pipe or in poll |
| `Kernel.Machine.OpenFileRelease` | src/core.c:196-207 | dropping a reference, and on the last one the close operation, as specified |
| `Kernel.Machine.FdCloseAt` | src/core.c:240-253 | closing one descriptor, or EBADF |
| `Kernel.Machine.FdCloseAll` | src/core.c:255-262 | the loop closes every slot |
| `Kernel.Machine.FdCloseOnExec` | src/core.c:748-752 | the loop closes the flagged slots |
| `Kernel.Machine.FreeSlot` | src/core.c:225-238 | the lowest free slot, or none |
| `Kernel.Machine.FdInstallRetained` | src/core.c:209-223 | a retained file placed in a slot |
| `Kernel.Machine.Dup2` | src/core.c:1343-1359 | dup2 with its error cases and the equal-descriptor case |
| `Kernel.Machine.PipeReadPass` | src/core.c:391-418 | one pass of the read loop: take, end of file, or block |
| `Kernel.Machine.PipeWriteLoop` | src/core.c:420-456 | the write loop up to completion, broken pipe or block, with partial counts |
| `Kernel.Machine.WakeWaitingParent` | src/core.c:728-739 | the parent waiting for this child, or for any, is woken and nobody else |
| `Kernel.Machine.FindWaitable` | src/core.c:1031-1047 | the first matching zombie, and whether a matching child exists |
| `Kernel.Machine.PickRunnable` | src/core.c:792-810 | the walk from the cursor picks the task the circular scan finds |
| `Kernel.Machine.ExitCurrent` | src/core.c:1013-1029 | descriptors closed, status kept, parent woken, boot status recorded |
| `Kernel.Machine.Unlink` | src/core.c:1062-1069 | the child leaves the task list and the order of the rest is kept |
| `Kernel.Machine.WaitpidPass` | src/core.c:1049-1080 | reap, ECHILD or block |
| `Kernel.Machine.CopyDescriptors` | src/core.c:700-706 | the copy loop of task creation |
| `Kernel.Machine.ApplySpawnActions` | src/core.c:618-653 | the actions in order, up to the first refused |
| `Kernel.Machine.CountReady` | src/core.c:1087-1168 | the number of polled descriptors that report anything |
| `PipeRing.Ring.Take` | src/core.c:407-417 | the two-part wrap-around copy takes exactly the front of the queue |
| `PipeRing.Ring.Put` | src/core.c:440-451 | the two-part wrap-around copy appends exactly the bytes that fit |
| `PipeRing.QueueAdvances` | src/core.c:407-417 | moving the read position drops the front of the queue |
| `PipeRing.PutAppends` | src/core.c:440-451 | two splices at the write position append to the queue |
| `PipeTransfer.ReadThrough` | src/core.c:391-418 | while the ring holds the pipe's bytes, a read through it is the kernel's step, the bytes copied out are the bytes received, and the ring goes on holding the rest |
| `PipeTransfer.WriteThrough` | src/core.c:420-456 | the write loop through the ring is the kernel's step up to its end, a broken pipe or a block |
| `Terminal.Engine.Feed` | src/terminal.c:30-53 | a byte is taken exactly when the engine can accept, and the records delivered, queued and pending stay those of the editor on the bytes taken |
| `Terminal.Engine.NoteSourceEof` | src/terminal.c:55-61 | end of the source commits the unfinished line as its last record, once |
| `Terminal.Engine.Read` | src/terminal.c:68-92 | each read returns the front of the first record only, never across records; not ready, end of file and bad destinations are told apart; the backlog shrinks |
| `Terminal.Engine.CommitPending` | src/terminal.c:5-18 | a pending line enters the queue as one record when it fits, and stays pending otherwise |
| `Terminal.Engine.EchoAck` | src/terminal.c:101-108 | acknowledged echo leaves the front of the echo buffer; too large a count changes nothing |
| `Terminal.PendingIsReadable` | src/terminal.c:5-18 | a pending line implies that a record is readable, so it is never stranded |
| `Terminal.DrainedIsComplete` | src/terminal.c:68-92 | when nothing is left to read, the records delivered are exactly the editor's |
| `Terminal.EditorOnlyAppends` | src/terminal.c:30-53 | later input never changes a record or echo already produced |
| `Terminal.RecordsFit` | src/terminal.c:30-53 | every record fits its buffer and has a newline at most as its last byte |
| `TerminalLaws.TypedText` | src/terminal.c:43-46 | typed text goes behind the line and is echoed up to 1023 bytes; more is neither kept nor echoed; no record is made |
| `TerminalLaws.Rubbed` | src/terminal.c:34-39 | n backspaces take the last n bytes off the line, or all of it, with back, blank, back as the echo of each |
| `TerminalLaws.RubbedOutIsUntyped` | src/terminal.c:34-46 | text that fits, rubbed out, leaves the line and the records as they were |
| `TerminalLaws.EndedByKey` | src/terminal.c:40-42 | text and byte 4: one more record, the line with the text, and no echo for the key |
| `TerminalLaws.EndedByNewline` | src/terminal.c:33-50 | text and a newline or a return: one more record, with the newline, which is echoed |
| `TerminalLaws.EndedBySource` | src/terminal.c:55-61 | the end of the source makes a record of an unfinished line, and of nothing else |
| `TerminalLaws.RecordsCounted` | src/terminal.c:30-61 | there are as many records as bytes 4, 10 and 13, and one for a line the source left unfinished |
| `TerminalLaws.LinesReadBack` | src/terminal.c:30-53 | lines typed one after the other are the records, each with its newline, and the echo is all of them |
| `TerminalLaws.ReadersGetTheLines` | src/terminal.c:68-92 | once nothing is left to read, readers have been given exactly the lines typed |
| `TerminalLaws.WaitsOnlyWhenFull` | src/terminal.c:5-18 | a finished line waits outside the queue only while 16 records are queued or the 1024 bytes have no room for it |
| `TerminalLaws.AcceptsIff` | src/terminal.c:25-28 | a byte is accepted exactly when all echo is acknowledged, the source has not ended and every record made has reached the queue |
| `Path.NormalizePath` | src/vfs.c:85-146 | the in-place normaliser yields the component-stack fold with its limits, rendered and zero-terminated, or the right error |
| `Path.NormalizeIsFold` | src/vfs.c:85-146 | a result is the plain fold over the components, canonical, and fits |
| `Path.NormalizeIdempotent` | src/vfs.c:85-146 | a normalised path normalises to itself from any directory |
| `Path.TableNeverFills` | src/vfs.c:85-146 | into at most 1024 bytes every path normalises as it would with no limit on the number of components |
| `Path.SplitPath` | upstream/netbsd/lib/libc/gen/dirname.c:47-91 | what dirname and basename return for a path, joined by a slash, normalises as the path does, for every directory and size, when neither input overflows |
| `Path.Dirname` | upstream/netbsd/lib/libc/gen/dirname.c:47-91 | the components of the result are all but the last; `.` and `/` where there are none |
| `Path.Basename` | upstream/netbsd/lib/libc/gen/basename.c:48-89 | the last component; `.` for the empty path and `/` for slashes only |
| `PathLaws.Refused` | src/vfs.c:94-96 | EINVAL exactly for a buffer below two bytes or a directory that is not absolute |
| `PathLaws.AbsoluteIgnoresCwd` | src/vfs.c:97-100 | an absolute path is taken as it is; slashes alone are the root |
| `PathLaws.RelativeGoesBehind` | src/vfs.c:101-106 | a relative path is taken behind the directory and a slash; the empty one names the directory |
| `PathLaws.DotSaysNothing` | src/vfs.c:122-123 | a path with `/.` behind it normalises as the path does |
| `PathLaws.TwoDotsGoUp` | src/vfs.c:124-130 | a path with `/..` behind it normalises to the path's stack without its last name, the root to itself |
| `PathLaws.NameGoesDown` | src/vfs.c:131-144 | a path with `/name` behind it normalises to the stack with the name, exactly when that fits the output and the table, and is ENAMETOOLONG otherwise |
| `PathLaws.DownAndUp` | src/vfs.c:124-144 | `/name/..` behind a path says nothing, provided that the way down fits |
| `PathLaws.SlashesSayNothing` | src/vfs.c:112-115 | more slashes than one say what one says, at the end nothing |
| `PathLaws.TextOfResult` | src/vfs.c:109-144 | the result is written as `/` and the names with single slashes between them |
| `PathLaws.CdUp` | src/vfs.c:124-130 | the path `..` names the parent of the directory, the root's is the root |
| `Path.NormalizeChild` | libc/cb_fts.c:66-99 | a path with `/name` put behind it normalises to the path's stack with the name pushed |
| `Path.EmptyStartIsRoot` | libc/cb_fts.c:66-99 | with the empty start a child is named from the root; right if and only if the working directory is the root |
| `FsInvariant.CreateKeeps` | src/ramfs.c:118-146 | creation keeps a tree with agreeing links and unique sibling names, and a failed one changes nothing |
| `FsInvariant.UnlinkKeeps` | src/ramfs.c:237-255 | unlink keeps the tree, and a failed one changes nothing |
| `FsInvariant.RmdirKeeps` | src/ramfs.c:354-374 | rmdir of an empty directory keeps the tree, and a failed one changes nothing |
| `FsInvariant.RenameKeeps` | src/vfs.c:512-637 | rename, replacing a target or not, keeps the tree acyclic, and a failed one changes nothing |
| `FsInvariant.MovedKeeps` | src/ramfs.c:381-408 | relinking under a directory that is not below the node keeps every node on a finite way to its root |
| `FsInvariant.NewRootKeeps` | src/ramfs.c:480-504 | a file system about to be mounted, holding bin, tmp, home and home/user, keeps the invariant |
| `FsInvariant.MountKeeps` | src/vfs.c:678-739 | mounting such a file system keeps the mount table one-to-one and its points linked, and a failed mount changes nothing |
| `FsInvariant.ResolveLive` | src/vfs.c:158-198 | resolution reaches only linked nodes and roots |
| `FsInvariant.AlwaysATree` | src/ramfs.c:118-146 | after every sequence of calls, mounts included, the file system is a finite tree and every linked node climbs to the root of its own file system |
| `FsLaws.ResolvesIff` | src/vfs.c:158-198 | a path resolves to n exactly when its names lead there, child by child and through every mount on the way |
| `FsLaws.LookupIff` | src/ramfs.c:188-213 | a name is found exactly when a node of that name has the directory as parent |
| `FsLaws.ResolveParts` | src/vfs.c:158-198 | a path is followed part by part |
| `FsLaws.CreateSucceedsIff` | src/vfs.c:420-449 | a creation succeeds exactly when its directory exists, has no entry of that name and memory is granted; an occupied path is EEXIST |
| `FsLaws.CreateMakes` | src/ramfs.c:118-146 | after it the path leads to a new node of the kind asked for, named by the last component, without children, first in its directory's list; nothing else changed |
| `FsLaws.CreateElsewhere` | src/ramfs.c:118-146 | every path that does not go through the new node leads where it led |
| `FsLaws.CreateBelowMkdir` | src/vfs.c:420-449 | a directory just made takes a first entry |
| `FsMoves.UnlinkSucceedsIff` | src/vfs.c:451-475 | unlink succeeds exactly on a path to something other than a directory, with the error of every other case; after it the path gives ENOENT and the list lost that entry alone |
| `FsMoves.RmdirSucceedsIff` | src/vfs.c:477-510 | rmdir succeeds exactly on a path to an empty directory that has a parent and is neither mounted nor mounted on; after it the path gives ENOENT |
| `FsMoves.RemovalElsewhere` | src/ramfs.c:237-255 | every path that did not go through the removed entry leads where it led |
| `FsMoves.BelowIsRefused` | src/vfs.c:564-580 | in one file system the upward walk from what a longer path leads to meets what a shorter one leads to |
| `FsMoves.RenameSucceedsIff` | src/vfs.c:512-637 | a rename succeeds exactly when the source exists and is neither mounted nor mounted on, the new directory exists in the same file system and not at or below the source, and the new name is free, replaceable with memory, or the old one |
| `FsMoves.RenameMoves` | src/vfs.c:512-637 | after it the new path leads to the node the old one led to, the old path gives ENOENT unless it is the new one, and of all other nodes only a replaced file lost its place |
| `FsMoves.RenameCarries` | src/ramfs.c:381-408 | what lay below the old path lies below the new one; every path through neither leads where it led |
| `FsMoves.MountShows` | src/vfs.c:678-739 | a mount succeeds exactly with fewer than four others, an unmounted root and a directory that is no root and not mounted on; after it that path leads to the mounted root |
| `FsMoves.BesideMount` | src/vfs.c:678-739 | every path that does not go through the place of the mount leads where it led |
| `FsMoves.BelowMount` | src/vfs.c:678-739 | what lies below the mount is what lies below the mounted root |
| `FsMoves.NewRootHolds` | src/ramfs.c:480-504 | a new file system holds /bin, /tmp, /home and /home/user, and can be mounted |
| `Vfs.ResolveText` | src/vfs.c:158-198 | the cursor loop over a normalised path resolves its components, mounts included |
| `Vfs.CollectParts` | src/vfs.c:43-64 | the upward loop collects the nodes that name the working directory, across mounts |
| `Vfs.RenderParts` | src/vfs.c:65-82 | the buffer loop writes their names, or reports that they do not fit |
| `Vfs.UpDown` | src/vfs.c:48-57 | crossing a mount upwards undoes crossing it downwards |
| `Vfs.GetcwdAfterChdir` | src/vfs.c:639-676 | getcwd right after chdir(p) returns p normalised, across nested mounts |
| `Ramfs.Store.FindByName` | src/ramfs.c:188-199 | the sibling walk finds the child of that name, or none |
| `Ramfs.Store.ChildAt` | src/ramfs.c:312-329 | the index-th child in list order, or none |
| `Ramfs.Store.NextSibling` | src/ramfs.c:341-347 | the sibling behind a node; none for a node that was removed |
| `Ramfs.Store.CutFromList` | src/ramfs.c:245-250 | the link walk takes exactly that node out of its parent's pointer list |
| `VfsStore.ResolvePath` | src/vfs.c:158-198 | the loop over the components, with its mount loop, resolves the path on the stored nodes |
| `VfsStore.CreateAt` | src/vfs.c:420-449 | creation by path on the stored nodes is creation on the child lists, every refusal included, and keeps the tree |
| `VfsStore.UnlinkAt` | src/vfs.c:451-475 | unlink by path on the stored nodes, with the protection of mounts and every error, is unlink on the child lists, and keeps the tree |
| `VfsStore.RmdirAt` | src/vfs.c:477-510 | the same of rmdir |
| `VfsStore.AncestorWalk` | src/vfs.c:564-580 | the bounded upward walk finds whether a directory is at or below a node |
| `VfsStore.RenameAt` | src/vfs.c:512-637 | rename by path on the stored nodes, with its checks in their order and the replaced target, is rename on the child lists, and keeps the tree |
| `Files.NeverStale` | src/ramfs.c:278-310 | after every history of writes and truncations each byte is that of the latest write there since the file was last cut below it, or zero |
| `Files.OwedBeyond` | src/ramfs.c:257-276 | no byte beyond the end is owed anything but zero |
| `Files.WriteReadsBack` | src/ramfs.c:538-595 | a write reads back; what precedes it is the old file, padded with zeros |
| `Files.SliceAt` | src/ramfs.c:511-536 | a read returns the bytes from the offset on, as many as asked for or as there are |
| `Files.Doubled` | src/ramfs.c:290-298 | the doubling loop ends, never passes SIZE_MAX, and gives less than twice what is needed |
| `Files.Node.Truncate` | src/ramfs.c:278-310 | the file is cut, or extended with zeros; every error leaves it as it was; the size never exceeds the buffer |
| `Files.Node.Store` | src/ramfs.c:565-591 | the bytes are written at their place with zeros in any gap, or nothing changes when memory is refused |
| `Files.Open` | src/ramfs.c:257-276 | directories and truncated executables are refused; O_TRUNC on a writable open empties the file, even when memory for the open is refused; an append starts at its end |
| `Files.OpenFile.Read` | src/ramfs.c:511-536 | the slice at the offset, empty at the end, and the offset moves by its length |
| `Files.OpenFile.Write` | src/ramfs.c:538-595 | every result and error, the new contents, and where the offset ends up: within the buffer after a write |
| `Files.OpenFile.Seek` | src/ramfs.c:597-626 | the sum is formed exactly when it is a valid offset; otherwise EINVAL and no move |
| `Directories.Task.Open` | src/core.c:1679-1718 | the lowest free handle gets the first child as its look-ahead, or EMFILE |
| `Iteration.EffectIs` | src/ramfs.c:237-408 | every call removes one node, moves one node (after removing a target), or leaves every list in place but for new entries at the front |
| `Iteration.IterationIsExact` | src/core.c:1720-1788 | for every sequence of reads and calls, whatever they do, the entries returned are exactly those computed on the list of what is still to come |
| `Iteration.RemovalLeaves` | src/ramfs.c:237-255 | after the removal of the j-th entry to come: the head comes alone, any other is skipped |
| `Iteration.RenamingLeaves` | src/ramfs.c:381-408 | after its renaming: the head is followed by the list it is put on, any other is skipped |
| `Iteration.DrainExactIff` | src/core.c:1720-1788 | reading to the end after one call returns exactly the entries that were to come if and only if the call is harmless to them |
| `Iteration.EachChildOnce` | src/core.c:1679-1788 | with only harmless calls meanwhile, every child present at opendir is returned exactly once, in list order, nothing made later, and the end comes exactly after the last |
| `Iteration.LastCallDecides` | src/core.c:1720-1788 | after any harmless calls and reads, one more call and reading to the end complete the list if and only if that call is harmless too |
| `Subtrees.DetachIsErase` | src/ramfs.c:237-255 | detaching a node takes it out of every list and changes nothing else |
| `TreeExists.TreeOf` | src/ramfs.c:118-146 | below every linked node there is a finite tree without repeated nodes |
| `Fts.Stream.Next` | libc/cb_fts.c:211-281 | the loop of fts_read: skipped frames popped, next entry classified, or the post-order visit, or the next argument |
| `Fts.Stream.ClassifyEntry` | libc/cb_fts.c:143-181 | NS, DEFAULT, DC, DNR or D with a frame pushed |
| `Fts.Stream.CycleDetected` | libc/cb_fts.c:128-135 | whether the directory is on the stack |
| `Fts.ReadHeld` | libc/cb_fts.c:211-281 | every read, in any file system state, keeps frame i on descriptor i and no directory on the stack twice |
| `Fts.DepthIsHandles` | libc/cb_fts.c:211-281 | the depth of the walk is the number of handles it holds |
| `Rm.WalkForest` | libc/cb_fts.c:211-281 | the walk with its client visits any list of trees as the recursion does, with its levels and paths, and removes exactly what the recursion removes, while the ancestors' handles stay open |
| `Rm.SkipUndoes` | libc/cb_fts.c:225-235 | a skipped directory is left at the next read with no further visit |
| `RmTree.RmWalksAll` | upstream/netbsd/bin/rm/rm.c:159-276 | for every list of arguments, missing ones included, and every set of answers, rm -r ends after exactly the visits of the recursion, with its file system, its status and no handle open |
| `RmTree.RmRemovesSubtree` | upstream/netbsd/bin/rm/rm.c:159-276 | rm -rf within the limits, from outside the subtree, ends with status 0 and the subtree erased |
| `RmTree.RootMissing` | upstream/netbsd/bin/rm/rm.c:200-213 | a missing argument yields one NS visit, changes nothing, and fails unless -f is given and the error is ENOENT, ENAMETOOLONG or ENOTDIR |
| `RmTree.WalkIsRecursion` | libc/cb_fts.c:211-324 | a client that only skips gets the recursive pre-order and post-order, and the file system is unchanged |
| `RmTree.WalkIsOrdinary` | libc/cb_fts.c:143-181 | a walk that only looks, over a tree within the limits, visits no DC, DNR or NS |
| `RmTree.RmIsOrdinary` | libc/cb_fts.c:143-181 | nor does rm -r deleting underneath its walk, on arguments that exist when their turn comes |
| `Vfs.OnePath` | src/vfs.c:158-198 | a node has one path, of any length, mounts included |
| `WalkCycles.NoCycles` | libc/cb_fts.c:128-159 | no run, on any arguments but the empty path, with any client, depth and lengths, ever visits a DC |
| `RmTree.TurnsHoldHandles` | libc/cb_fts.c:211-281 | at every moment of every run the walk holds as many handles as it is deep |
| `RmCwd.TurnsPinned` | src/vfs.c:148-156 | no run of rm removes a directory while the caller's working directory is, or was, below it |
| `RmLost.RmFailsInside` | upstream/netbsd/bin/rm/rm.c:159-276 | with the working directory strictly inside, rm -rf ends within the turns it would take otherwise, with every handle closed and a failing status |
| `RmCwd.RmSucceedsIff` | upstream/netbsd/bin/rm/rm.c:159-276 | within the limits rm -rf ends, and it erases the subtree, and it succeeds, if and only if the working directory is not strictly inside |
| `EmptyStart.EmptyStartSpares` | libc/cb_fts.c:66-99 | rm started at the empty path, the working directory not being the root, removes no entry of the working directory, whatever the flags, the answers and the turns |
| `EmptyStart.EmptyStartRemovesOther` | libc/cb_fts.c:66-99 | two turns of rm -rf so started remove the file of the root that has the name of the working directory's first entry |
| `RmMain.React` | upstream/netbsd/bin/rm/rm.c:188-266 | the switch of rm_tree on one visit |
| `RmMain.RemoveTrees` | upstream/netbsd/bin/rm/rm.c:159-276 | the loop of rm_tree ends and gives the recursion's file system and status |
| `RmLaws.GoesIff` | upstream/netbsd/bin/rm/rm.c:214-250 | a node below goes exactly when every directory above it was to be examined, its removal was agreed to and, for a directory, all its entries went; -f agrees to everything |
| `RmLaws.RmObeysAnswers` | upstream/netbsd/bin/rm/rm.c:159-276 | a whole run of rm -r on one argument removes exactly the nodes its answers let go, and no others |
| `RmMain.OnlyTheSubtree` | upstream/netbsd/bin/rm/rm.c:159-276 | nodes outside keep everything, the parent's list loses exactly the subtree, and the removed nodes are unlinked and empty |
| `RmMain.PathGone` | upstream/netbsd/bin/rm/rm.c:159-276 | the path that led to the subtree resolves to ENOENT |
| `Shell.LexerAndSplitterAgree` | src/shell.c:135-244 | in a line that lexes both scanners find the same first separating semicolon and cut the tokens there |
| `Shell.SegmentsLexAlike` | src/shell.c:645-687 | a line that lexes lexes segment by segment to the same tokens, semicolons between segments |
| `Shell.SegmentsHaveNoSemicolon` | src/shell.c:645-687 | no segment of any line, if it lexes, holds a semicolon token |
| `Shell.SegmentsCover` | src/shell.c:645-687 | the segments with semicolons between them are the line |
| `Shell.WordPasses` | src/shell.c:174-217 | the splitter passes over a word of the lexer and is outside quotes after it |
| `ShellLaws.CharactersListed` | src/shell.c:78-167 | the blanks, delimiters and name characters, listed |
| `ShellLaws.NameIff` | src/shell.c:78-126 | a name has at most 127 name characters and does not begin with a digit |
| `ShellLaws.TokenLimit` | src/shell.c:135-244 | a spelt line of up to 128 tokens is taken whole, a longer one refused |
| `ShellLaws.LineReadsBack` | src/shell.c:135-244 | a line spelt from tokens, with plain, backslashed, single- and double-quoted text, `${name}` and `$?`, lexes to those tokens with quotes gone and expansions done |
| `ShellLaws.AnyTextCanBeSpelt` | src/shell.c:167-229 | every text, the empty one too, can be written as a word that means it in every environment |
| `ShellLaws.InSingle` | src/shell.c:174-217 | inside single quotes everything up to the next one stands for itself |
| `ShellLaws.NameExpands` | src/shell.c:78-126 | `$` and the longest run of name characters expands to that name's value, inside double quotes too |
| `ShellLaws.DollarAlone` | src/shell.c:78-126 | a `$` before anything else is itself |
| `ShellLaws.BadNameRefused` | src/shell.c:78-126 | a name that begins with a digit or has 128 characters is refused |
| `ShellLaws.Unfinished` | src/shell.c:167-229 | a quote or a brace that is not closed, and a backslash at the end, are refused |
| `ShellScan.Expand` | src/shell.c:78-126 | the cursor loops of an expansion: status, braces, name, lone dollar, and every refusal |
| `ShellScan.LexWord` | src/shell.c:167-229 | the word loop: quotes, backslashes, expansions and where the word ends |
| `ShellScan.LexTokens` | src/shell.c:135-244 | the token loop with its limit of 128 tokens |
| `ShellScan.ExecuteLine` | src/shell.c:645-687 | the splitting loop runs the segments in order, skips blank ones and stops at an exit |
| `KernelSlots.SlotsActedAll` | src/core.c:618-653 | the spawn actions do to the child's table what they say, and are refused exactly when one names a closed descriptor |
| `KernelSlots.SlotsSpawned` | src/core.c:655-726 | a spawn adds one table, the parent's with the actions applied, or changes no table |
| `KernelSlots.SlotsPiped` | src/core.c:1374-1423 | a pipe takes the two lowest free slots, or changes no table |
| `KernelFiles.PipeAddsEnds` | src/core.c:1374-1423 | a call to pipe adds at most a read end and a write end of one new pipe, under the next two numbers |
| `KernelFiles.SpawnCloses` | src/core.c:655-726 | a spawn adds no open file and changes none's kind |
| `Pipeline.StagePiped` | src/shell.c:494-521 | the actions of a stage are never refused and leave it its own pipe ends as 0 and 1, or its redirections |
| `PipelineRun.BuildActions` | src/shell.c:446-521 | the action array of 34 places holds exactly those actions and is never overrun |
| `PipelineRun.RunPipeline` | src/shell.c:457-557 | from any state of the kernel's with 0 to 2 open, once the redirections are open (which here they are if and only if there are slots): the shell ends with the table it began with, every stage spawned holds only its own ends, and file first + 2k and first + 2k + 1 are the read and the write end of pipe pipe0 + k and the only ones, also when a pipe or a spawn fails; with memory and slots enough every stage is spawned |
| `PipelineRun.WriteEndHeld` | src/shell.c:457-557 | the write end of pipe k is held exactly by stage k, as 1, unless its output is redirected |
| `PipelineRun.ReadEndHeld` | src/shell.c:457-557 | the read end of pipe k is held exactly by stage k + 1, as 0, unless its input is redirected |
| `PipelineEnds.OneWriter` | src/shell.c:457-557 | pipe k then has one write end with one reference, descriptor 1 of stage k |
| `PipelineEnds.LastWriterExits` | src/core.c:505-512 | when the only task with a write end of a pipe exits, the pipe has no writer |
| `PipelineEnds.EndOfFileAfterExit` | src/core.c:391-418 | when stage k exits, stage k + 1 still holds its end, and once the pipe is empty its read returns end of file instead of blocking |
| `Strtol.Strtoimax` | upstream/netbsd/common/lib/libc/stdlib/_strtol.h:67-197 | for every string and base the exact value clamped to the type, ERANGE exactly on clamping, EINVAL on a bad base, and the right end |
| `StrtolLaws.DigitIff` | upstream/netbsd/common/lib/libc/stdlib/_strtol.h:149-160 | exactly the 36 listed characters, in either case, are digits, each with its place in the list as value |
| `StrtolLaws.PlainNumber` | upstream/netbsd/common/lib/libc/stdlib/_strtol.h:67-197 | digits of the base asked for, in either case, after blanks and a sign, convert to their value with that sign or the nearest bound with ERANGE, and the end is behind the last digit |
| `StrtolLaws.ChosenBase` | upstream/netbsd/common/lib/libc/stdlib/_strtol.h:103-122 | in base 0 a leading 0 means octal and any other digit decimal |
| `StrtolLaws.PrefixedHex` | upstream/netbsd/common/lib/libc/stdlib/_strtol.h:103-122 | 0x or 0X before a hexadecimal digit is a prefix in base 16 and chooses it in base 0 |
| `StrtolLaws.LoneZero` | upstream/netbsd/common/lib/libc/stdlib/_strtol.h:103-122 | 0x without a digit behind it is the number 0, and the x is not read |
| `StrtolLaws.NoNumber` | upstream/netbsd/common/lib/libc/stdlib/_strtol.h:193-197 | without a digit nothing is converted and the end is the beginning |
| `StrtolLaws.NumbersReadBack` | upstream/netbsd/common/lib/libc/stdlib/_strtol.h:67-197 | every number written in any base by repeated division reads back as itself, or clamped with ERANGE |
| `StrtolLaws.FieldIs` | libc/cb_libc.c:1402-1426 | a `%Nd` field is blanks up to the width, a minus sign if negative, and the decimal digits without leading zeros |
| `Strtol.Accumulate` | upstream/netbsd/common/lib/libc/stdlib/_strtol.h:139-193 | the cutoff test keeps the accumulator in range at every digit and detects exactly the overflows |
| `Strtol.FormatInt` | libc/cb_libc.c:1402-1426 | the digit buffer holds the decimal text of every int, padded to the width |
| `Strtol.ParseWidth` | libc/cb_libc.c:1389-1401 | the width is read exactly when it is at most 32, without overflow |
| `Strtol.FormatRoundTrip` | libc/cb_libc.c:1388-1426 | strtoimax reads back what `%Nd` wrote, for every int and width up to 32 |
| `Memmove.MoveMemory` | upstream/netbsd/common/lib/libc/string/bcopy.c:86-154 | the word-copying path equals copying from a snapshot, for every length, alignment and overlap |
| `Memmove.MovedAt` | upstream/netbsd/common/lib/libc/string/bcopy.c:86-191 | byte by byte: the target range holds the source's old bytes, every other byte stays |
| `Memmove.MoveBytes` | upstream/netbsd/common/lib/libc/string/bcopy.c:170-191 | so does the byte-copying path |
| `Memmove.WordApart` | upstream/netbsd/common/lib/libc/string/bcopy.c:100-121 | addresses congruent modulo the word size are at least one word apart |
| `Memmove.MaskTests` | upstream/netbsd/common/lib/libc/string/bcopy.c:104-140 | for words of 4 and of 8 bytes the bit tests on the addresses say whether both are aligned and whether they are aligned alike |

## Left out

- The host: context switches, the console device, the clock and the Macintosh port. A task runs until it yields; readiness, time and memory are parameters.
- Wrap-around of pid_t, of inode numbers and of the task's errno cell; pids, files and nodes are numbered without bound.
- Node reference counts and the release of memory: a node that is removed stays in the model's node table, unlinked. The look-ahead node that `dir_close_all` does not release (src/core.c:264-274) is therefore not visible.
- Memory failure outside pipe, spawn, rename, creation, file growth and exec.
- Timestamps, modes, owners, link counts and device numbers.
- Console bytes: a console read is modelled by its blocking, its bytes by the terminal engine.
- The failure of exec to create its new instance, which the kernel treats as fatal.
- run_pipeline when a redirection does not open: its cleanup then reads `inputs` and `outputs` of later stages that were never set (src/shell.c:477-486, 552-557), so nothing is claimed of those runs.
- Whether the file of a redirection exists: in the plumbing an open fails only for want of a descriptor.
- run_pipeline from its waits on, and the descriptors of other stages' redirections that a stage inherits and keeps.
- execute_segment's grouping of tokens into stages, builtins, and redirections of builtins.
- The `%s` and `%%` conversions of format_output and its writes.
- The copies of dirname and basename into bounded buffers; their results are taken before truncation.
- fts_set on an entry other than the one just returned, fts_close in the middle of a walk, and FTS_XDEV.
- rm's options other than -f, -r and -i, and the wording of its messages; `check` is a function of the path.
- NULL pointers passed where the program requires or rejects them.
- Files.OpenFile.Write: does not model the overflow of the 64-bit signed offset past 2^63 - 1; the contract shows that it takes a granted buffer of more than that many bytes.
