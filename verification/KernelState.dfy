/**
 The tables of the kernel (tasks, descriptor slots, open files, pipes) as one
 value, and every operation on them as a function of that value. An operation
 runs from one yield of the calling task to the next, which is the only
 interleaving point of the scheduler, so each function below is one atomic step.
 Pointers are identifiers; identifiers are never reused.
 */
module KernelState {
  import opened Common

  const MAX_FDS := 64
  const PIPE_SIZE := 4096
  const CLOCK_MODULUS := 0x1_0000_0000_0000_0000

  type Pid = int
  type FileId = nat
  type PipeId = nat

  datatype TaskState =
    | Runnable | Running | BlockedPipe | BlockedConsole | BlockedWait
    | BlockedPoll | ExecPending | Zombie

  datatype End = ReadEnd | WriteEnd

  datatype FileKind =
    | ConsoleIn | ConsoleOut
    | NodeFile(canRead: bool, canWrite: bool)
    | PipeEnd(pipe: PipeId, end: End)

  datatype OpenFile = OpenFile(references: int, kind: FileKind)

  datatype FdEntry = FdEntry(file: Option<FileId>, closeOnExec: bool)

  const EMPTY_SLOT := FdEntry(None, false)

  datatype Pipe = Pipe(contents: seq<Byte>, readers: int, writers: int)

  datatype PollFd = PollFd(fd: int, wantRead: bool, wantWrite: bool)

  /** The place inside a kernel call at which a task is suspended. */
  datatype Call =
    | NoCall
    | PipeReadCall(file: FileId, pipe: PipeId, count: nat)
    | PipeWriteCall(file: FileId, pipe: PipeId, data: seq<Byte>, total: nat)
    | ConsoleReadCall
    | WaitCall(target: Pid)
    | PollCall(fds: seq<PollFd>, timeout: int, start: nat)

  datatype Task = Task(
    ppid: Pid,
    state: TaskState,
    fds: seq<FdEntry>,
    call: Call,
    ret: int,
    exitStatus: int,
    ignoring: bool,           // interrupt disposition
    pending: bool,            // interrupt pending
    supports: bool,           // the installed executor delivers interrupts
    execTarget: Option<bool>) // the same, of the program an exec will install

  datatype Reap = Reap(parent: Pid, child: Pid, status: int)

  /** What has happened so far; no operation reads it. */
  datatype History = History(
    sent: map<PipeId, seq<Byte>>,
    received: map<PipeId, seq<Byte>>,
    closed: seq<FileId>,
    parents: map<Pid, Pid>,
    exits: map<Pid, int>,
    reaps: seq<Reap>)

  datatype State = State(
    tasks: map<Pid, Task>,
    order: seq<Pid>,          // the linked task list, head first
    current: Option<Pid>,
    cursor: Option<Pid>,
    nextPid: nat,
    files: map<FileId, OpenFile>,
    nextFile: nat,
    pipes: map<PipeId, Pipe>,
    nextPipe: nat,
    bootPid: Pid,
    bootStatus: Option<int>,
    hist: History)

  /** What the host answers during one step: console readiness and the clock. */
  datatype Env = Env(consoleReady: bool, now: nat)

  datatype Action = Dup2Action(from: int, to: int) | CloseAction(fd: int) | BadAction

  datatype ApiCall =
    | Read(fd: int, count: nat)
    | Write(fd: int, data: seq<Byte>)
    | Close(fd: int)
    | Dup(fd: int)
    | Dup2(oldFd: int, newFd: int)
    | SetCloexec(fd: int, enabled: bool)
    | MakePipe(readerAllocated: bool, writerAllocated: bool)
    | Open(canRead: bool, canWrite: bool)
    | Spawn(supported: bool, actions: seq<Action>, vectorsAllocated: bool, instanceCreated: bool)
    | Exec(supported: bool)
    | Exit(status: int)
    | Waitpid(target: Pid)
    | Poll(fds: seq<PollFd>, timeout: int)
    | Yield
    | SetInterrupt(ignore: bool)

  datatype Op =
    | Tick(env: Env)
    | Idle(consolePolled: bool)
    | Pick(env: Env)
    | FinishExec
    | RequestInterrupt(pid: Pid)
    | Api(call: ApiCall, env: Env)

  // ----- Waking -----------------------------------------------------------

  predicate PipeWaiter(t: Task) {
    t.state.BlockedPipe? || t.state.BlockedPoll?
  }

  /** cb_wake_pipe_tasks: every pipe or poll waiter becomes runnable. */
  function WakePipeTasks(tasks: map<Pid, Task>): map<Pid, Task> {
    map p | p in tasks :: if PipeWaiter(tasks[p]) then tasks[p].(state := Runnable) else tasks[p]
  }

  function WakeConsoleTasks(tasks: map<Pid, Task>): map<Pid, Task> {
    map p | p in tasks ::
      if tasks[p].state.BlockedConsole? || tasks[p].state.BlockedPoll?
      then tasks[p].(state := Runnable) else tasks[p]
  }

  predicate Expired(c: Call, now: nat) {
    c.PollCall? && c.timeout > 0 && (now == 0 || (now - c.start) % CLOCK_MODULUS >= c.timeout)
  }

  function WakeExpired(tasks: map<Pid, Task>, now: nat): map<Pid, Task> {
    map p | p in tasks ::
      if tasks[p].state.BlockedPoll? && Expired(tasks[p].call, now)
      then tasks[p].(state := Runnable) else tasks[p]
  }

  function WakePollTasks(tasks: map<Pid, Task>): map<Pid, Task> {
    map p | p in tasks ::
      if tasks[p].state.BlockedPoll? then tasks[p].(state := Runnable) else tasks[p]
  }

  predicate Waits(t: Task, child: Pid) {
    t.state.BlockedWait? && t.call.WaitCall? && (t.call.target == child || t.call.target == -1)
  }

  /** wake_waiting_parent: the list holds each pid once, so at most one task matches. */
  function WakeParent(tasks: map<Pid, Task>, child: Pid): map<Pid, Task>
    requires child in tasks
  {
    var p := tasks[child].ppid;
    if p in tasks && Waits(tasks[p], child) then tasks[p := tasks[p].(state := Runnable)] else tasks
  }

  // ----- Open files and descriptor slots ----------------------------------

  function DropEnd(p: Pipe, e: End): Pipe {
    if e.ReadEnd? then p.(readers := p.readers - 1) else p.(writers := p.writers - 1)
  }

  /** The last_close operation of a file that has just lost its last reference. */
  function LastClose(s: State, kind: FileKind): State {
    if kind.PipeEnd? && kind.pipe in s.pipes then
      var p := DropEnd(s.pipes[kind.pipe], kind.end);
      s.(tasks := WakePipeTasks(s.tasks),
         pipes := if p.readers == 0 && p.writers == 0 then s.pipes - {kind.pipe}
                  else s.pipes[kind.pipe := p])
    else s
  }

  /** cb_open_file_release. */
  function Release(s: State, f: FileId): State {
    if f !in s.files then s
    else if s.files[f].references != 1 then
      s.(files := s.files[f := s.files[f].(references := s.files[f].references - 1)])
    else
      LastClose(s.(files := s.files - {f}, hist := s.hist.(closed := s.hist.closed + [f])),
                s.files[f].kind)
  }

  /** cb_open_file_retain. */
  function Retain(s: State, f: FileId): State {
    if f !in s.files then s
    else s.(files := s.files[f := s.files[f].(references := s.files[f].references + 1)])
  }

  /** cb_open_file_create: the new file has the identifier s.nextFile. */
  function CreateFile(s: State, kind: FileKind): State {
    s.(files := s.files[s.nextFile := OpenFile(1, kind)], nextFile := s.nextFile + 1)
  }

  predicate HasSlot(s: State, p: Pid, d: int) {
    p in s.tasks && 0 <= d < |s.tasks[p].fds|
  }

  function SlotFile(s: State, p: Pid, d: int): Option<FileId> {
    if HasSlot(s, p, d) then s.tasks[p].fds[d].file else None
  }

  function SetSlot(s: State, p: Pid, d: int, e: FdEntry): State {
    if HasSlot(s, p, d)
    then s.(tasks := s.tasks[p := s.tasks[p].(fds := s.tasks[p].fds[d := e])])
    else s
  }

  /** fd_close on an open descriptor; a closed one is left alone. */
  function FdClose(s: State, p: Pid, d: int): State {
    if SlotFile(s, p, d).None? then s
    else Release(SetSlot(s, p, d, EMPTY_SLOT), SlotFile(s, p, d).value)
  }

  function FdCloseFrom(s: State, p: Pid, d: nat): State
    decreases MAX_FDS - d
  {
    if d >= MAX_FDS then s else FdCloseFrom(FdClose(s, p, d), p, d + 1)
  }

  predicate ClosesOnExec(s: State, p: Pid, d: int) {
    HasSlot(s, p, d) && s.tasks[p].fds[d].closeOnExec
  }

  function FdCloseOnExecFrom(s: State, p: Pid, d: nat): State
    decreases MAX_FDS - d
  {
    if d >= MAX_FDS then s
    else FdCloseOnExecFrom(if ClosesOnExec(s, p, d) then FdClose(s, p, d) else s, p, d + 1)
  }

  /** fd_install_at: the old file of the slot is released before the new one is retained. */
  function FdInstallAt(s: State, p: Pid, f: FileId, d: int, retain: bool): State {
    var s1 := SetSlot(FdClose(s, p, d), p, d, FdEntry(Some(f), false));
    if retain then Retain(s1, f) else s1
  }

  /** The lowest free slot at or after d, or MAX_FDS. */
  function FirstFree(fds: seq<FdEntry>, d: nat): (r: nat)
    ensures d <= r
    ensures r < |fds| ==> fds[r].file.None?
    ensures d <= |fds| ==> r <= |fds|
    ensures forall k :: d <= k < r && k < |fds| ==> fds[k].file.Some?
    decreases |fds| - d
  {
    if d >= |fds| || fds[d].file.None? then d else FirstFree(fds, d + 1)
  }

  // ----- Returning to the program and blocking -----------------------------

  function Return(s: State, p: Pid, r: int): State
    requires p in s.tasks
  {
    s.(tasks := s.tasks[p := s.tasks[p].(call := NoCall, ret := r)])
  }

  /** cb_task_yield_as up to the switch away from the task. */
  function Block(s: State, p: Pid, state: TaskState, call: Call): State
    requires p in s.tasks
  {
    s.(tasks := s.tasks[p := s.tasks[p].(state := state, call := call)], current := None)
  }

  // ----- Pipes --------------------------------------------------------------

  /** One pass of the loop of pipe_read. */
  function PipeRead(s: State, p: Pid, f: FileId, q: PipeId, count: nat): State
    requires p in s.tasks
  {
    if q !in s.pipes then s
    else
      var c := s.pipes[q].contents;
      if count == 0 then Return(s, p, 0)
      else if c == [] then
        if s.pipes[q].writers == 0 then Return(s, p, 0)
        else Block(s, p, BlockedPipe, PipeReadCall(f, q, count))
      else
        var amount := Min(count, |c|);
        var s1 := s.(pipes := s.pipes[q := s.pipes[q].(contents := c[amount..])],
                     tasks := WakePipeTasks(s.tasks),
                     hist := s.hist.(received := s.hist.received[q := Log(s.hist.received, q) + c[..amount]]));
        Return(s1, p, amount)
  }

  function Log(m: map<PipeId, seq<Byte>>, q: PipeId): seq<Byte> {
    if q in m then m[q] else []
  }

  /** The loop of pipe_write from `total` bytes on. */
  function PipeWrite(s: State, p: Pid, f: FileId, q: PipeId, data: seq<Byte>, total: nat): State
    requires p in s.tasks
    decreases |data| - total
  {
    if q !in s.pipes then s
    else if total >= |data| then Return(s, p, total)
    else if s.pipes[q].readers == 0 then Return(s, p, if total == 0 then -1 else total)
    else
      var c := s.pipes[q].contents;
      if |c| >= PIPE_SIZE then Block(s, p, BlockedPipe, PipeWriteCall(f, q, data, total))
      else
        var amount := Min(|data| - total, PIPE_SIZE - |c|);
        PipeWrite(Push(s, q, data[total..total + amount]), p, f, q, data, total + amount)
  }

  function Push(s: State, q: PipeId, bytes: seq<Byte>): (s': State)
    requires q in s.pipes
    ensures s'.tasks.Keys == s.tasks.Keys
  {
    s.(pipes := s.pipes[q := s.pipes[q].(contents := s.pipes[q].contents + bytes)],
       tasks := WakePipeTasks(s.tasks),
       hist := s.hist.(sent := s.hist.sent[q := Log(s.hist.sent, q) + bytes]))
  }

  // ----- Exit and wait --------------------------------------------------------

  /** api_exit. */
  function ExitTask(s: State, p: Pid, status: int): State
    requires p in s.tasks
  {
    var s1 := FdCloseFrom(s, p, 0);
    if p !in s1.tasks then s1
    else
      var code := status % 256;
      var t := s1.tasks[p].(state := Zombie, call := NoCall, exitStatus := code);
      var tasks := s1.tasks[p := t];
      s1.(tasks := WakeParent(tasks, p),
          current := None,
          bootStatus := if p == s.bootPid then Some(code) else s.bootStatus,
          hist := s1.hist.(exits := s1.hist.exits[p := code]))
  }

  predicate ChildOf(tasks: map<Pid, Task>, parent: Pid, target: Pid, c: Pid) {
    c in tasks && tasks[c].ppid == parent && (target == -1 || c == target)
  }

  /** find_waitable_child: the first matching zombie of the list. */
  function FindZombie(tasks: map<Pid, Task>, order: seq<Pid>, parent: Pid, target: Pid): (r: Option<Pid>)
    ensures r.Some? ==> r.value in order && ChildOf(tasks, parent, target, r.value) && tasks[r.value].state.Zombie?
    ensures r.None? ==> forall c :: c in order && ChildOf(tasks, parent, target, c) ==> !tasks[c].state.Zombie?
  {
    if order == [] then None
    else if ChildOf(tasks, parent, target, order[0]) && tasks[order[0]].state.Zombie? then Some(order[0])
    else FindZombie(tasks, order[1..], parent, target)
  }

  predicate HasChild(tasks: map<Pid, Task>, order: seq<Pid>, parent: Pid, target: Pid) {
    exists c :: c in order && ChildOf(tasks, parent, target, c)
  }

  function Without(order: seq<Pid>, p: Pid): seq<Pid> {
    if order == [] then []
    else if order[0] == p then order[1..]
    else [order[0]] + Without(order[1..], p)
  }

  /** One pass of the loop of api_waitpid. */
  function WaitPass(s: State, p: Pid, target: Pid): State
    requires p in s.tasks
  {
    var z := FindZombie(s.tasks, s.order, p, target);
    if z.Some? then
      var c := z.value;
      var s1 := s.(order := Without(s.order, c),
                   cursor := if s.cursor == Some(c) then None else s.cursor,
                   hist := s.hist.(reaps := s.hist.reaps + [Reap(p, c, s.tasks[c].exitStatus)]));
      var s2 := FdCloseFrom(s1, c, 0);
      if p in s2.tasks && p != c then Return(s2.(tasks := s2.tasks - {c}), p, c) else s2
    else if !HasChild(s.tasks, s.order, p, target) then Return(s, p, -1)
    else Block(s, p, BlockedWait, WaitCall(target))
  }

  // ----- Poll -----------------------------------------------------------------

  /** Whether a descriptor's poll operation reports anything. */
  predicate FileReady(pipes: map<PipeId, Pipe>, kind: FileKind, pf: PollFd, console: bool) {
    match kind
    case ConsoleIn => pf.wantRead && console
    case ConsoleOut => pf.wantWrite
    case NodeFile(r, w) => (pf.wantRead && r) || (pf.wantWrite && w)
    case PipeEnd(q, e) =>
      q in pipes &&
      if e.ReadEnd? then pipes[q].writers == 0 || (pf.wantRead && pipes[q].contents != [])
      else pipes[q].readers == 0 || (pf.wantWrite && |pipes[q].contents| < PIPE_SIZE)
  }

  predicate PollReady(files: map<FileId, OpenFile>, pipes: map<PipeId, Pipe>, fds: seq<FdEntry>, pf: PollFd,
                      console: bool) {
    pf.fd >= 0 &&
    (pf.fd >= |fds| || fds[pf.fd].file.None? ||
     (fds[pf.fd].file.value in files &&
      FileReady(pipes, files[fds[pf.fd].file.value].kind, pf, console)))
  }

  function ReadyCount(s: State, fds: seq<FdEntry>, polled: seq<PollFd>, console: bool): (n: nat)
    ensures n == 0 <==> forall i :: 0 <= i < |polled| ==> !PollReady(s.files, s.pipes, fds, polled[i], console)
  {
    if polled == [] then 0
    else
      assert polled == [polled[0]] + polled[1..];
      (if PollReady(s.files, s.pipes, fds, polled[0], console) then 1 else 0) + ReadyCount(s, fds, polled[1..], console)
  }

  /** One pass of the loop of api_poll. */
  function PollPass(s: State, p: Pid, polled: seq<PollFd>, timeout: int, start: nat, env: Env): State
    requires p in s.tasks
  {
    var ready := ReadyCount(s, s.tasks[p].fds, polled, env.consoleReady);
    if ready > 0 || timeout == 0 then Return(s, p, ready)
    else if timeout > 0 && env.now == 0 then Return(s, p, -1)
    else if timeout > 0 && (env.now - start) % CLOCK_MODULUS >= timeout then Return(s, p, 0)
    else Block(s, p, BlockedPoll, PollCall(polled, timeout, start))
  }

  // ----- Spawn and exec ---------------------------------------------------------

  /** The descriptor loop of task_create, from slot d on. */
  function CopyFdsFrom(s: State, parent: Pid, child: Pid, d: nat): State
    decreases MAX_FDS - d
  {
    if d >= MAX_FDS then s
    else if SlotFile(s, parent, d).None? then CopyFdsFrom(s, parent, child, d + 1)
    else
      var s1 := SetSlot(s, child, d, s.tasks[parent].fds[d]);
      CopyFdsFrom(Retain(s1, SlotFile(s, parent, d).value), parent, child, d + 1)
  }

  predicate ActionOk(s: State, p: Pid, a: Action) {
    match a
    case Dup2Action(from, to) =>
      0 <= from < MAX_FDS && 0 <= to < MAX_FDS && SlotFile(s, p, from).Some?
    case CloseAction(_) => true
    case BadAction => false
  }

  function ClearCloexec(s: State, p: Pid, d: int): State {
    if HasSlot(s, p, d) then SetSlot(s, p, d, s.tasks[p].fds[d].(closeOnExec := false)) else s
  }

  function ApplyAction(s: State, p: Pid, a: Action): State {
    match a
    case Dup2Action(from, to) =>
      if SlotFile(s, p, from).None? then s
      else
        ClearCloexec(if from == to then s
                     else FdInstallAt(s, p, SlotFile(s, p, from).value, to, true), p, to)
    case CloseAction(fd) => FdClose(s, p, fd)
    case BadAction => s
  }

  /** task_apply_actions: stops at the first action that is refused. */
  function ApplyActions(s: State, p: Pid, actions: seq<Action>): (State, bool)
    decreases |actions|
  {
    if actions == [] then (s, true)
    else if !ActionOk(s, p, actions[0]) then (s, false)
    else ApplyActions(ApplyAction(s, p, actions[0]), p, actions[1..])
  }

  function EmptyFds(): (fds: seq<FdEntry>)
    ensures |fds| == MAX_FDS
    ensures forall d :: 0 <= d < MAX_FDS ==> fds[d] == EMPTY_SLOT
  {
    seq(MAX_FDS, (_: int) => EMPTY_SLOT)
  }

  function NewTask(ppid: Pid, ignoring: bool, supported: bool): Task {
    Task(ppid, Runnable, EmptyFds(), NoCall, 0, 0, ignoring, false, supported, None)
  }

  /** The fail label of task_create. */
  function AbandonTask(s: State, child: Pid): State {
    var s1 := FdCloseFrom(s, child, 0);
    s1.(tasks := s1.tasks - {child})
  }

  function SpawnTask(s: State, p: Pid, supported: bool, actions: seq<Action>,
                     vectorsAllocated: bool, instanceCreated: bool): State
    requires p in s.tasks
  {
    var child := s.nextPid + 1;
    var s1 := s.(nextPid := child,
                 tasks := s.tasks[child := NewTask(p, s.tasks[p].ignoring, supported)],
                 hist := s.hist.(parents := s.hist.parents[child := p]));
    var (s2, ok) := if !vectorsAllocated then (s1, false)
                    else ApplyActions(CopyFdsFrom(s1, p, child, 0), child, actions);
    if ok && instanceCreated then
      var s3 := s2.(order := [child] + s2.order);
      if p in s3.tasks then Return(s3, p, child) else s3
    else
      var s3 := AbandonTask(s2, child);
      if p in s3.tasks then Return(s3, p, -1) else s3
  }

  predicate InterruptSupported(t: Task) {
    t.supports && (t.state.ExecPending? && t.execTarget.Some? ==> t.execTarget.value)
  }

  function ExecTask(s: State, p: Pid, supported: bool): State
    requires p in s.tasks
  {
    var t := s.tasks[p];
    if (t.pending || t.ignoring) && !supported then Return(s, p, -1)
    else
      s.(tasks := s.tasks[p := t.(state := ExecPending, call := NoCall, execTarget := Some(supported))],
         current := None)
  }

  /** task_finish_exec, run by the scheduler right after the calling task's turn. */
  function FinishExecTask(s: State): State {
    if s.cursor.Some? && s.cursor.value in s.tasks && s.tasks[s.cursor.value].state.ExecPending? &&
       s.tasks[s.cursor.value].execTarget.Some?
    then
      var p := s.cursor.value;
      var s1 := FdCloseOnExecFrom(s, p, 0);
      if p !in s1.tasks then s1
      else
        s1.(tasks := s1.tasks[p := s1.tasks[p].(state := Runnable, supports := s.tasks[p].execTarget.value,
                                                execTarget := None)])
    else s
  }

  // ----- Interrupts -----------------------------------------------------------

  function RequestInterruptTo(s: State, p: Pid): State {
    if p !in s.tasks || s.tasks[p].state.Zombie? || !InterruptSupported(s.tasks[p]) || s.tasks[p].ignoring
    then s
    else
      var t := s.tasks[p].(pending := true);
      var blocked := t.state.BlockedPipe? || t.state.BlockedConsole? || t.state.BlockedWait? || t.state.BlockedPoll?;
      s.(tasks := s.tasks[p := if blocked then t.(state := Runnable) else t])
  }

  function SetInterruptOf(s: State, p: Pid, ignore: bool): State
    requires p in s.tasks
  {
    var t := s.tasks[p];
    if !InterruptSupported(t) then Return(s, p, -1)
    else
      Return(s.(tasks := s.tasks[p := t.(ignoring := ignore, pending := t.pending && !ignore)]),
             p, if t.ignoring then 1 else 0)
  }

  // ----- Descriptor calls -------------------------------------------------------

  function DupFd(s: State, p: Pid, fd: int): State
    requires p in s.tasks
  {
    if SlotFile(s, p, fd).None? then Return(s, p, -1)
    else
      var f := SlotFile(s, p, fd).value;
      var d := FirstFree(s.tasks[p].fds, 0);
      if d >= |s.tasks[p].fds| then
        // cb_open_file_retain followed by cb_open_file_release
        var s1 := Release(Retain(s, f), f);
        if p in s1.tasks then Return(s1, p, -1) else s1
      else Return(SetSlot(Retain(s, f), p, d, FdEntry(Some(f), false)), p, d)
  }

  function DupFd2(s: State, p: Pid, oldFd: int, newFd: int): State
    requires p in s.tasks
  {
    if SlotFile(s, p, oldFd).None? || !(0 <= newFd < MAX_FDS) then Return(s, p, -1)
    else if oldFd == newFd then Return(s, p, newFd)
    else
      var s1 := FdInstallAt(s, p, SlotFile(s, p, oldFd).value, newFd, true);
      if p in s1.tasks then Return(s1, p, newFd) else s1
  }

  /** fd_install of a file held by the caller, released again when no slot is free. */
  function InstallOrRelease(s: State, p: Pid, f: FileId): State
    requires p in s.tasks
  {
    var d := FirstFree(s.tasks[p].fds, 0);
    if d < |s.tasks[p].fds| then Return(SetSlot(s, p, d, FdEntry(Some(f), false)), p, d)
    else
      var s1 := Release(s, f);
      if p in s1.tasks then Return(s1, p, -1) else s1
  }

  function AddEnd(p: Pipe, e: End): Pipe {
    if e.ReadEnd? then p.(readers := p.readers + 1) else p.(writers := p.writers + 1)
  }

  function PipesWithEnd(pipes: map<PipeId, Pipe>, q: PipeId, e: End): map<PipeId, Pipe> {
    pipes[q := AddEnd(if q in pipes then pipes[q] else Pipe([], 0, 0), e)]
  }

  /** A new file that is an end of q, which may be a new pipe. */
  function CreateEnd(s: State, q: PipeId, e: End): State {
    s.(files := s.files[s.nextFile := OpenFile(1, PipeEnd(q, e))],
       nextFile := s.nextFile + 1,
       pipes := PipesWithEnd(s.pipes, q, e),
       nextPipe := if q == s.nextPipe then q + 1 else s.nextPipe)
  }

  /** api_pipe, with its failure paths. */
  function PipeCall(s: State, p: Pid, readerAllocated: bool, writerAllocated: bool): State
    requires p in s.tasks
  {
    if !readerAllocated then Return(s, p, -1)
    else
      var reader, writer := s.nextFile, s.nextFile + 1;
      var s1 := CreateEnd(s, s.nextPipe, ReadEnd);
      if !writerAllocated then
        var s2 := Release(s1, reader);
        if p in s2.tasks then Return(s2, p, -1) else s2
      else
        var s2 := CreateEnd(s1, s.nextPipe, WriteEnd);
        var d := FirstFree(s.tasks[p].fds, 0);
        if d >= |s.tasks[p].fds| then
          var s3 := Release(Release(s2, reader), writer);
          if p in s3.tasks then Return(s3, p, -1) else s3
        else
          var s3 := SetSlot(s2, p, d, FdEntry(Some(reader), false));
          var e := FirstFree(s3.tasks[p].fds, 0);
          if e >= |s3.tasks[p].fds| then
            var s4 := Release(FdClose(s3, p, d), writer);
            if p in s4.tasks then Return(s4, p, -1) else s4
          else Return(SetSlot(s3, p, e, FdEntry(Some(writer), false)), p, 0)
  }

  // ----- The steps -----------------------------------------------------------

  function ReadCall(s: State, p: Pid, fd: int, count: nat, env: Env): State
    requires p in s.tasks
  {
    if SlotFile(s, p, fd).None? || SlotFile(s, p, fd).value !in s.files then Return(s, p, -1)
    else
      var f := SlotFile(s, p, fd).value;
      match s.files[f].kind
      case PipeEnd(q, ReadEnd) => PipeRead(s, p, f, q, count)
      case ConsoleIn => if count == 0 then Return(s, p, 0) else ConsolePass(s, p, env)
      case NodeFile(true, _) => Return(s, p, 0)
      case _ => Return(s, p, -1)
  }

  /** One pass of the loop of console_read; the bytes read belong to the host. */
  function ConsolePass(s: State, p: Pid, env: Env): State
    requires p in s.tasks
  {
    if env.consoleReady then Return(s, p, 0) else Block(s, p, BlockedConsole, ConsoleReadCall)
  }

  function WriteCall(s: State, p: Pid, fd: int, data: seq<Byte>): State
    requires p in s.tasks
  {
    if SlotFile(s, p, fd).None? || SlotFile(s, p, fd).value !in s.files then Return(s, p, -1)
    else
      var f := SlotFile(s, p, fd).value;
      match s.files[f].kind
      case PipeEnd(q, WriteEnd) => PipeWrite(s, p, f, q, data, 0)
      case ConsoleOut => Return(s, p, |data|)
      case NodeFile(_, true) => Return(s, p, |data|)
      case _ => Return(s, p, -1)
  }

  function ApiStep(s: State, p: Pid, call: ApiCall, env: Env): State
    requires p in s.tasks
  {
    match call
    case Read(fd, count) => ReadCall(s, p, fd, count, env)
    case Write(fd, data) => WriteCall(s, p, fd, data)
    case Close(fd) =>
      if SlotFile(s, p, fd).None? then Return(s, p, -1)
      else
        var s1 := FdClose(s, p, fd);
        if p in s1.tasks then Return(s1, p, 0) else s1
    case Dup(fd) => DupFd(s, p, fd)
    case Dup2(oldFd, newFd) => DupFd2(s, p, oldFd, newFd)
    case SetCloexec(fd, enabled) =>
      if SlotFile(s, p, fd).None? then Return(s, p, -1)
      else Return(SetSlot(s, p, fd, s.tasks[p].fds[fd].(closeOnExec := enabled)), p, 0)
    case MakePipe(readerAllocated, writerAllocated) => PipeCall(s, p, readerAllocated, writerAllocated)
    case Open(canRead, canWrite) =>
      InstallOrRelease(CreateFile(s, NodeFile(canRead, canWrite)), p, s.nextFile)
    case Spawn(supported, actions, vectorsAllocated, instanceCreated) =>
      SpawnTask(s, p, supported, actions, vectorsAllocated, instanceCreated)
    case Exec(supported) => ExecTask(s, p, supported)
    case Exit(status) => ExitTask(s, p, status)
    case Waitpid(target) => WaitPass(s, p, target)
    case Poll(fds, timeout) =>
      if |fds| > MAX_FDS || (timeout > 0 && env.now == 0) then Return(s, p, -1)
      else PollPass(s, p, fds, timeout, env.now, env)
    case Yield => Block(s, p, Runnable, NoCall)
    case SetInterrupt(ignore) => SetInterruptOf(s, p, ignore)
  }

  /** The suspended call of p goes round its loop again after a wake. */
  function Resume(s: State, p: Pid, env: Env): State
    requires p in s.tasks
  {
    match s.tasks[p].call
    case NoCall => s
    case PipeReadCall(f, q, count) => PipeRead(s, p, f, q, count)
    case PipeWriteCall(f, q, data, total) => PipeWrite(s, p, f, q, data, total)
    case ConsoleReadCall => ConsolePass(s, p, env)
    case WaitCall(target) => WaitPass(s, p, target)
    case PollCall(fds, timeout, start) => PollPass(s, p, fds, timeout, start, env)
  }

  function IndexOf(order: seq<Pid>, p: Pid): (i: nat)
    ensures i <= |order|
    ensures i < |order| ==> order[i] == p
    ensures forall k :: 0 <= k < i ==> order[k] != p
  {
    if order == [] || order[0] == p then 0 else 1 + IndexOf(order[1..], p)
  }

  /** Where pick_runnable starts: after the cursor, or at the head of the list. */
  function StartIndex(s: State): nat {
    if s.cursor.Some? && IndexOf(s.order, s.cursor.value) + 1 < |s.order|
    then IndexOf(s.order, s.cursor.value) + 1
    else 0
  }

  predicate RunnableAt(tasks: map<Pid, Task>, order: seq<Pid>, i: nat)
    requires i < |order|
  {
    order[i] in tasks && tasks[order[i]].state.Runnable?
  }

  /** The circular scan of pick_runnable, from i, over n more entries. */
  function Scan(tasks: map<Pid, Task>, order: seq<Pid>, i: nat, n: nat): (r: Option<nat>)
    requires i < |order|
    ensures r.Some? ==> r.value < |order| && RunnableAt(tasks, order, r.value)
    decreases n
  {
    if n == 0 then None
    else if RunnableAt(tasks, order, i) then Some(i)
    else Scan(tasks, order, if i + 1 < |order| then i + 1 else 0, n - 1)
  }

  function Picked(s: State): (r: Option<Pid>)
    ensures r.Some? ==> r.value in s.order && r.value in s.tasks && s.tasks[r.value].state.Runnable?
  {
    if s.order == [] then None
    else
      var i := Scan(s.tasks, s.order, StartIndex(s), |s.order|);
      if i.None? then None else Some(s.order[i.value])
  }

  /** Whether the task that ran last is waiting for task_finish_exec. */
  predicate AwaitingExec(s: State) {
    s.cursor.Some? && s.cursor.value in s.tasks && s.tasks[s.cursor.value].state.ExecPending?
  }

  /** The scheduler may pick: nobody runs and the boot task has not finished. */
  predicate Scheduling(s: State) {
    s.current.None? && s.bootStatus.None? && !AwaitingExec(s)
  }

  function Dispatch(s: State, p: Pid): State
    requires p in s.tasks
  {
    s.(current := Some(p), cursor := Some(p), tasks := s.tasks[p := s.tasks[p].(state := Running)])
  }

  /** One turn's start: pick, switch, deliver an interrupt, go round the suspended loop. */
  function PickStep(s: State, env: Env): State {
    if !Scheduling(s) || Picked(s).None? then s
    else
      var p := Picked(s).value;
      var s1 := Dispatch(s, p);
      if s1.tasks[p].pending && !s1.tasks[p].ignoring
      then ExitTask(s1.(tasks := s1.tasks[p := s1.tasks[p].(pending := false, call := NoCall)]), p, 130)
      else Resume(s1, p, env)
  }

  function Step(s: State, op: Op): State {
    match op
    case Tick(env) =>
      var woken := if env.consoleReady then WakeConsoleTasks(s.tasks) else s.tasks;
      s.(tasks := WakeExpired(woken, env.now))
    case Idle(consolePolled) =>
      s.(tasks := WakePollTasks(if consolePolled then WakeConsoleTasks(s.tasks) else s.tasks))
    case Pick(env) => PickStep(s, env)
    case FinishExec => if s.current.None? then FinishExecTask(s) else s
    case RequestInterrupt(pid) => RequestInterruptTo(s, pid)
    case Api(call, env) =>
      if s.current.Some? && s.current.value in s.tasks then ApiStep(s, s.current.value, call, env) else s
  }

  function Run(s: State, ops: seq<Op>): State
    decreases |ops|
  {
    if ops == [] then s else Run(Step(s, ops[0]), ops[1..])
  }

  /** cb_kernel_boot: one task with the three console descriptors. */
  function Boot(supported: bool): State {
    var fds := EmptyFds()[0 := FdEntry(Some(0), false)][1 := FdEntry(Some(1), false)][2 := FdEntry(Some(2), false)];
    State(map[1 := NewTask(0, false, supported).(fds := fds)], [1], None, None, 1,
          map[0 := OpenFile(1, ConsoleIn), 1 := OpenFile(1, ConsoleOut), 2 := OpenFile(1, ConsoleOut)], 3,
          map[], 0, 1, None, History(map[], map[], [], map[1 := 0], map[], []))
  }
}
