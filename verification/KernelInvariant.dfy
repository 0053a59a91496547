/**
 The invariant of the kernel: what every step keeps. `loose` is the multiset of
 references held by local variables in the middle of an operation; it is empty
 whenever a step ends.
 */
module KernelInvariant {
  import opened Common
  import opened KernelState

  // ----- Reference counts -------------------------------------------------

  ghost function Slots(pids: set<Pid>): (r: set<(Pid, int)>)
    ensures forall p, d :: (p, d) in r <==> p in pids && 0 <= d < MAX_FDS
  {
    set p, d | p in pids && 0 <= d < MAX_FDS :: (p, d)
  }

  ghost predicate Holds(tasks: map<Pid, Task>, h: (Pid, int), f: FileId) {
    h.0 in tasks && 0 <= h.1 < |tasks[h.0].fds| && tasks[h.0].fds[h.1].file == Some(f)
  }

  /** The descriptor slots, over all tasks, that refer to f. */
  ghost function Holders(tasks: map<Pid, Task>, f: FileId): set<(Pid, int)> {
    set h | h in Slots(tasks.Keys) && Holds(tasks, h, f)
  }

  ghost predicate Shape(tasks: map<Pid, Task>, nextPid: nat) {
    forall p :: p in tasks ==> |tasks[p].fds| == MAX_FDS && tasks[p].ppid < p <= nextPid
  }

  /** A file's count is exactly the number of slots, plus loose references, to it. */
  ghost predicate Counted(tasks: map<Pid, Task>, files: map<FileId, OpenFile>, loose: multiset<FileId>, f: FileId)
    requires f in files
  {
    files[f].references == |Holders(tasks, f)| + loose[f] && files[f].references > 0
  }

  ghost predicate SlotsLive(tasks: map<Pid, Task>, files: map<FileId, OpenFile>) {
    forall p, d :: p in tasks && 0 <= d < |tasks[p].fds| && tasks[p].fds[d].file.Some?
      ==> tasks[p].fds[d].file.value in files
  }

  ghost predicate Counts(tasks: map<Pid, Task>, files: map<FileId, OpenFile>, loose: multiset<FileId>) {
    && (forall f :: f in files ==> Counted(tasks, files, loose, f))
    && (forall f :: f in loose ==> f in files)
    && SlotsLive(tasks, files)
  }

  // ----- Pipes ---------------------------------------------------------------

  ghost function Ends(files: map<FileId, OpenFile>, q: PipeId, e: End): set<FileId> {
    set f | f in files && files[f].kind == PipeEnd(q, e)
  }

  /** A pipe counts its open ends and lives exactly as long as it has one. */
  ghost predicate PipeOk(files: map<FileId, OpenFile>, q: PipeId, p: Pipe) {
    && p.readers == |Ends(files, q, ReadEnd)|
    && p.writers == |Ends(files, q, WriteEnd)|
    && p.readers + p.writers > 0
    && |p.contents| <= PIPE_SIZE
  }

  ghost predicate Pipes(files: map<FileId, OpenFile>, pipes: map<PipeId, Pipe>) {
    && (forall q :: q in pipes ==> PipeOk(files, q, pipes[q]))
    && (forall f :: f in files && files[f].kind.PipeEnd? ==> files[f].kind.pipe in pipes)
  }

  /** Bytes received, then bytes in the ring, are the bytes sent. */
  ghost predicate Fifo(pipes: map<PipeId, Pipe>, sent: map<PipeId, seq<Byte>>, received: map<PipeId, seq<Byte>>) {
    && (forall q :: q in pipes ==> Log(received, q) + pipes[q].contents == Log(sent, q))
    && (forall q :: q in received ==> received[q] <= Log(sent, q))
  }

  ghost predicate PipeIds(pipes: map<PipeId, Pipe>, nextPipe: nat, sent: map<PipeId, seq<Byte>>,
                          received: map<PipeId, seq<Byte>>)
  {
    forall q :: q in pipes || q in sent || q in received ==> q < nextPipe
  }

  /** Every file ever created is open or was closed, and closed once. */
  ghost predicate FileIds(files: map<FileId, OpenFile>, nextFile: nat, closed: seq<FileId>) {
    && (forall f :: f in files ==> f < nextFile && f !in closed)
    && (forall f :: f in closed ==> f < nextFile)
    && (forall i, j :: 0 <= i < j < |closed| ==> closed[i] != closed[j])
    && (forall f :: 0 <= f < nextFile ==> f in files || f in closed)
  }

  // ----- Blocked tasks ---------------------------------------------------------

  ghost predicate HasFile(t: Task, f: FileId) {
    exists d :: 0 <= d < |t.fds| && t.fds[d].file == Some(f)
  }

  /** A suspended pipe call still owns its file, so its pipe cannot have been freed. */
  ghost predicate OwnsFile(files: map<FileId, OpenFile>, t: Task) {
    match t.call
    case PipeReadCall(f, q, count) =>
      HasFile(t, f) && f in files && files[f].kind == PipeEnd(q, ReadEnd) && count > 0
    case PipeWriteCall(f, q, data, total) =>
      HasFile(t, f) && f in files && files[f].kind == PipeEnd(q, WriteEnd) && total < |data|
    case _ => true
  }

  ghost predicate Owned(tasks: map<Pid, Task>, files: map<FileId, OpenFile>) {
    forall p :: p in tasks ==> OwnsFile(files, tasks[p])
  }

  ghost predicate PipeBlockOk(pipes: map<PipeId, Pipe>, c: Call) {
    match c
    case PipeReadCall(f, q, count) =>
      q in pipes && pipes[q].contents == [] && pipes[q].writers > 0
    case PipeWriteCall(f, q, data, total) =>
      q in pipes && |pipes[q].contents| == PIPE_SIZE && pipes[q].readers > 0
    case _ => false
  }

  ghost predicate PollBlockOk(files: map<FileId, OpenFile>, pipes: map<PipeId, Pipe>, t: Task) {
    t.call.PollCall? &&
    forall i :: 0 <= i < |t.call.fds| ==> !PollReady(files, pipes, t.fds, t.call.fds[i], false)
  }

  /** A blocked pipe or poll call really has nothing to do. */
  ghost predicate NothingToDo(files: map<FileId, OpenFile>, pipes: map<PipeId, Pipe>, t: Task) {
    && (t.state.BlockedPipe? ==> PipeBlockOk(pipes, t.call))
    && (t.state.BlockedPoll? ==> PollBlockOk(files, pipes, t))
    && (t.call.NoCall? ==> !t.state.BlockedPipe? && !t.state.BlockedPoll? && !t.state.BlockedWait?)
    && (t.state.ExecPending? || t.state.Zombie? ==> t.call.NoCall?)
  }

  ghost predicate IoWaits(tasks: map<Pid, Task>, files: map<FileId, OpenFile>, pipes: map<PipeId, Pipe>) {
    forall p :: p in tasks ==> NothingToDo(files, pipes, tasks[p])
  }

  /** A blocked waitpid has a matching child, and none of them has exited. */
  ghost predicate WaitBlockOk(tasks: map<Pid, Task>, p: Pid, c: Call) {
    c.WaitCall? &&
    (exists k :: ChildOf(tasks, p, c.target, k)) &&
    (forall k :: ChildOf(tasks, p, c.target, k) ==> !tasks[k].state.Zombie?)
  }

  ghost predicate ChildWaits(tasks: map<Pid, Task>) {
    forall p :: p in tasks && tasks[p].state.BlockedWait? ==> WaitBlockOk(tasks, p, tasks[p].call)
  }

  // ----- Interrupts and deaths ----------------------------------------------

  ghost predicate InterruptOk(t: Task) {
    && (t.pending ==> !t.ignoring && t.supports)
    && (t.state.ExecPending? <==> t.execTarget.Some?)
    && (t.pending && t.execTarget.Some? ==> t.execTarget.value)
    && (t.execTarget.Some? && t.ignoring ==> t.execTarget.value)
  }

  ghost predicate Interrupts(tasks: map<Pid, Task>) {
    forall p :: p in tasks ==> InterruptOk(tasks[p])
  }

  predicate NoFiles(t: Task) {
    forall d :: 0 <= d < |t.fds| ==> t.fds[d].file.None?
  }

  /** A zombie holds no descriptor and keeps the status it exited with. */
  ghost predicate DeathOk(p: Pid, t: Task, parents: map<Pid, Pid>, exits: map<Pid, int>) {
    && (t.state.Zombie? ==> NoFiles(t))
    && p in parents && parents[p] == t.ppid
    && (t.state.Zombie? <==> p in exits)
    && (p in exits ==> t.exitStatus == exits[p])
  }

  ghost predicate Deaths(tasks: map<Pid, Task>, parents: map<Pid, Pid>, exits: map<Pid, int>) {
    forall p :: p in tasks ==> DeathOk(p, tasks[p], parents, exits)
  }

  ghost predicate ReapOk(pids: set<Pid>, parents: map<Pid, Pid>, exits: map<Pid, int>, r: Reap) {
    && r.child !in pids && r.child in exits && r.status == exits[r.child]
    && r.child in parents && r.parent == parents[r.child]
  }

  ghost predicate Reaps(pids: set<Pid>, nextPid: nat, parents: map<Pid, Pid>, exits: map<Pid, int>, reaps: seq<Reap>) {
    && (forall p :: p in exits || p in parents ==> p <= nextPid)
    && (forall i :: 0 <= i < |reaps| ==> ReapOk(pids, parents, exits, reaps[i]))
    && (forall i, j :: 0 <= i < j < |reaps| ==> reaps[i].child != reaps[j].child)
  }

  /** Everything but the task list; it holds in the middle of operations too. */
  ghost predicate Core(s: State, loose: multiset<FileId>) {
    && Shape(s.tasks, s.nextPid)
    && Counts(s.tasks, s.files, loose)
    && Pipes(s.files, s.pipes)
    && Fifo(s.pipes, s.hist.sent, s.hist.received)
    && PipeIds(s.pipes, s.nextPipe, s.hist.sent, s.hist.received)
    && FileIds(s.files, s.nextFile, s.hist.closed)
    && Owned(s.tasks, s.files)
    && IoWaits(s.tasks, s.files, s.pipes)
    && ChildWaits(s.tasks)
    && Interrupts(s.tasks)
    && Deaths(s.tasks, s.hist.parents, s.hist.exits)
    && Reaps(s.tasks.Keys, s.nextPid, s.hist.parents, s.hist.exits, s.hist.reaps)
  }

  // ----- The task list ---------------------------------------------------------

  ghost predicate Listed(pids: set<Pid>, order: seq<Pid>) {
    && (forall p :: p in pids <==> p in order)
    && (forall i, j :: 0 <= i < j < |order| ==> order[i] != order[j])
  }

  ghost predicate Turns(s: State) {
    && (s.cursor.Some? ==> s.cursor.value in s.tasks)
    && (s.current.Some? ==> s.cursor == s.current && s.tasks[s.current.value].state.Running? &&
                            s.tasks[s.current.value].call.NoCall?)
    && (forall p :: p in s.tasks && s.tasks[p].state.Running? ==> s.current == Some(p))
    && (forall p :: p in s.tasks && s.tasks[p].state.ExecPending? ==> s.cursor == Some(p))
  }

  ghost predicate Inv(s: State) {
    Core(s, multiset{}) && Listed(s.tasks.Keys, s.order) && Turns(s)
  }
}
