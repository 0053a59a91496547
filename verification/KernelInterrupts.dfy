/**
 The interrupt protocol over whole runs: what a request does, what else can
 touch the pending bit and the disposition of a task, and that an accepted
 request ends the task it was sent to.
 */
module KernelInterrupts {
  import opened Common
  import opened KernelState
  import opened KernelInvariant
  import opened KernelDescriptors
  import opened KernelCalls
  import opened KernelIo
  import opened KernelLife
  import opened KernelRuns
  import opened KernelPromises
  import opened KernelFairness

  // ----- What calls leave of a task's interrupt fields --------------------------

  ghost predicate SameSignals(t: Task, t': Task) {
    t'.pending == t.pending && t'.ignoring == t.ignoring && t'.supports == t.supports
  }

  ghost predicate SignalsKept(tasks: map<Pid, Task>, tasks': map<Pid, Task>) {
    tasks'.Keys == tasks.Keys && forall p :: p in tasks ==> SameSignals(tasks[p], tasks'[p])
  }

  lemma ReleaseKeepsSignals(s: State, f: FileId)
    ensures SignalsKept(s.tasks, Release(s, f).tasks)
  {
  }

  lemma CloseKeepsSignals(s: State, p: Pid, d: int)
    ensures SignalsKept(s.tasks, FdClose(s, p, d).tasks)
  {
    hide Release;
    if SlotFile(s, p, d).Some? {
      ReleaseKeepsSignals(SetSlot(s, p, d, EMPTY_SLOT), SlotFile(s, p, d).value);
    }
  }

  lemma {:induction false} CloseAllKeepsSignals(s: State, p: Pid, d: nat)
    ensures SignalsKept(s.tasks, FdCloseFrom(s, p, d).tasks)
    decreases MAX_FDS - d
  {
    hide FdClose;
    if d < MAX_FDS {
      CloseKeepsSignals(s, p, d);
      CloseAllKeepsSignals(FdClose(s, p, d), p, d + 1);
    }
  }

  lemma {:induction false} CloseOnExecKeepsSignals(s: State, p: Pid, d: nat)
    ensures SignalsKept(s.tasks, FdCloseOnExecFrom(s, p, d).tasks)
    decreases MAX_FDS - d
  {
    hide FdClose, ClosesOnExec;
    if d < MAX_FDS {
      CloseKeepsSignals(s, p, d);
      CloseOnExecKeepsSignals(if ClosesOnExec(s, p, d) then FdClose(s, p, d) else s, p, d + 1);
    }
  }

  lemma InstallKeepsSignals(s: State, p: Pid, f: FileId, d: int, retain: bool)
    ensures SignalsKept(s.tasks, FdInstallAt(s, p, f, d, retain).tasks)
  {
    hide FdClose;
    CloseKeepsSignals(s, p, d);
  }

  lemma {:induction false} CopyKeepsSignals(s: State, parent: Pid, child: Pid, d: nat)
    ensures SignalsKept(s.tasks, CopyFdsFrom(s, parent, child, d).tasks)
    decreases MAX_FDS - d
  {
    hide SetSlot;
    if d < MAX_FDS {
      if SlotFile(s, parent, d).None? {
        CopyKeepsSignals(s, parent, child, d + 1);
      } else {
        var s1 := SetSlot(s, child, d, s.tasks[parent].fds[d]);
        SlotKeepsSignals(s, child, d, s.tasks[parent].fds[d]);
        CopyKeepsSignals(Retain(s1, SlotFile(s, parent, d).value), parent, child, d + 1);
      }
    }
  }

  lemma SlotKeepsSignals(s: State, p: Pid, d: int, e: FdEntry)
    ensures SignalsKept(s.tasks, SetSlot(s, p, d, e).tasks)
  {
  }

  lemma ActionKeepsSignals(s: State, p: Pid, a: Action)
    ensures SignalsKept(s.tasks, ApplyAction(s, p, a).tasks)
  {
    hide FdClose, FdInstallAt;
    match a
    case Dup2Action(from, to) =>
      if SlotFile(s, p, from).Some? && from != to {
        InstallKeepsSignals(s, p, SlotFile(s, p, from).value, to, true);
      }
    case CloseAction(fd) => CloseKeepsSignals(s, p, fd);
    case BadAction =>
  }

  lemma {:induction false} ActionsKeepSignals(s: State, p: Pid, actions: seq<Action>)
    ensures SignalsKept(s.tasks, ApplyActions(s, p, actions).0.tasks)
    decreases |actions|
  {
    hide ApplyAction, ActionOk;
    if actions != [] && ActionOk(s, p, actions[0]) {
      ActionKeepsSignals(s, p, actions[0]);
      ActionsKeepSignals(ApplyAction(s, p, actions[0]), p, actions[1..]);
    }
  }

  lemma ExitKeepsSignals(s: State, p: Pid, status: int)
    requires p in s.tasks
    ensures SignalsKept(s.tasks, ExitTask(s, p, status).tasks)
  {
    hide FdCloseFrom;
    CloseAllKeepsSignals(s, p, 0);
  }

  lemma {:induction false} WriteKeepsSignals(s: State, p: Pid, f: FileId, q: PipeId, data: seq<Byte>, total: nat)
    requires p in s.tasks
    ensures SignalsKept(s.tasks, PipeWrite(s, p, f, q, data, total).tasks)
    decreases |data| - total
  {
    if q in s.pipes && total < |data| && s.pipes[q].readers != 0 && |s.pipes[q].contents| < PIPE_SIZE {
      var amount := Min(|data| - total, PIPE_SIZE - |s.pipes[q].contents|);
      WriteKeepsSignals(Push(s, q, data[total..total + amount]), p, f, q, data, total + amount);
    }
  }

  ghost predicate OwnSignalsKept(s: State, s': State, p: Pid)
    requires p in s.tasks
  {
    p in s'.tasks && SameSignals(s.tasks[p], s'.tasks[p])
  }

  lemma WaitKeepsSignals(s: State, p: Pid, target: Pid)
    requires Acting(s, p)
    ensures OwnSignalsKept(s, WaitPass(s, p, target), p)
  {
    hide Core, Others, Without, FdCloseFrom;
    var z := FindZombie(s.tasks, s.order, p, target);
    if z.Some? {
      var c := z.value;
      ZombieFacts(s, c);
      var s1 := s.(order := Without(s.order, c),
                   cursor := if s.cursor == Some(c) then None else s.cursor,
                   hist := s.hist.(reaps := s.hist.reaps + [Reap(p, c, s.tasks[c].exitStatus)]));
      CloseAllKeepsSignals(s1, c, 0);
    }
  }

  lemma ActingPid(s: State, p: Pid)
    requires Acting(s, p)
    ensures p <= s.nextPid
  {
  }

  /** A spawn keeps the parent's fields and gives the child the disposition but no pending interrupt. */
  lemma SpawnKeepsSignals(s: State, p: Pid, supported: bool, actions: seq<Action>, vectors: bool, instance: bool)
    requires Acting(s, p)
    ensures var s' := SpawnTask(s, p, supported, actions, vectors, instance);
      var child := s.nextPid + 1;
      && OwnSignalsKept(s, s', p)
      && (child in s'.tasks ==>
            s'.tasks[child].ignoring == s.tasks[p].ignoring && !s'.tasks[child].pending)
  {
    hide Core, Listed, Others, FdCloseFrom, CopyFdsFrom, ApplyActions;
    ActingPid(s, p);
    var child := s.nextPid + 1;
    var s1 := s.(nextPid := child,
                 tasks := s.tasks[child := NewTask(p, s.tasks[p].ignoring, supported)],
                 hist := s.hist.(parents := s.hist.parents[child := p]));
    CopyKeepsSignals(s1, p, child, 0);
    ActionsKeepSignals(CopyFdsFrom(s1, p, child, 0), child, actions);
    var s2 := if !vectors then s1 else ApplyActions(CopyFdsFrom(s1, p, child, 0), child, actions).0;
    CloseAllKeepsSignals(s2, child, 0);
  }

  lemma PipeCallKeepsSignals(s: State, p: Pid, readerAllocated: bool, writerAllocated: bool)
    requires p in s.tasks
    ensures SignalsKept(s.tasks, PipeCall(s, p, readerAllocated, writerAllocated).tasks)
  {
    hide Release, FdClose, SetSlot, CreateEnd, FirstFree;
    if readerAllocated {
      var reader, writer := s.nextFile, s.nextFile + 1;
      var s1 := CreateEnd(s, s.nextPipe, ReadEnd);
      CreateKeepsTasks(s, s.nextPipe, ReadEnd);
      if !writerAllocated {
        ReleaseKeepsSignals(s1, reader);
      } else {
        var s2 := CreateEnd(s1, s.nextPipe, WriteEnd);
        CreateKeepsTasks(s1, s.nextPipe, WriteEnd);
        var d := FirstFree(s.tasks[p].fds, 0);
        if d >= |s.tasks[p].fds| {
          ReleaseKeepsSignals(s2, reader);
          ReleaseKeepsSignals(Release(s2, reader), writer);
        } else {
          var s3 := SetSlot(s2, p, d, FdEntry(Some(reader), false));
          SlotKeepsSignals(s2, p, d, FdEntry(Some(reader), false));
          CloseKeepsSignals(s3, p, d);
          ReleaseKeepsSignals(FdClose(s3, p, d), writer);
          SlotKeepsSignals(s3, p, FirstFree(s3.tasks[p].fds, 0), FdEntry(Some(writer), false));
        }
      }
    }
  }

  lemma CreateKeepsTasks(s: State, q: PipeId, e: End)
    ensures CreateEnd(s, q, e).tasks == s.tasks
  {
  }

  lemma DupKeepsSignals(s: State, p: Pid, fd: int)
    requires p in s.tasks
    ensures SignalsKept(s.tasks, DupFd(s, p, fd).tasks)
  {
    hide Release, FirstFree;
    if SlotFile(s, p, fd).Some? {
      var f := SlotFile(s, p, fd).value;
      ReleaseKeepsSignals(Retain(s, f), f);
    }
  }

  lemma Dup2KeepsSignals(s: State, p: Pid, oldFd: int, newFd: int)
    requires p in s.tasks
    ensures SignalsKept(s.tasks, DupFd2(s, p, oldFd, newFd).tasks)
  {
    hide FdInstallAt;
    if SlotFile(s, p, oldFd).Some? {
      InstallKeepsSignals(s, p, SlotFile(s, p, oldFd).value, newFd, true);
    }
  }

  lemma OpenKeepsSignals(s: State, p: Pid, f: FileId)
    requires p in s.tasks
    ensures SignalsKept(s.tasks, InstallOrRelease(s, p, f).tasks)
  {
    hide Release, FirstFree;
    ReleaseKeepsSignals(s, f);
  }

  lemma PipeReadKeepsSignals(s: State, p: Pid, f: FileId, q: PipeId, count: nat)
    requires p in s.tasks
    ensures SignalsKept(s.tasks, PipeRead(s, p, f, q, count).tasks)
  {
  }

  lemma ReadKeepsSignals(s: State, p: Pid, fd: int, count: nat, env: Env)
    requires p in s.tasks
    ensures SignalsKept(s.tasks, ReadCall(s, p, fd, count, env).tasks)
  {
    hide PipeRead;
    if SlotFile(s, p, fd).Some? && SlotFile(s, p, fd).value in s.files {
      var f := SlotFile(s, p, fd).value;
      if s.files[f].kind.PipeEnd? {
        PipeReadKeepsSignals(s, p, f, s.files[f].kind.pipe, count);
      }
    }
  }

  lemma WriteCallKeepsSignals(s: State, p: Pid, fd: int, data: seq<Byte>)
    requires p in s.tasks
    ensures SignalsKept(s.tasks, WriteCall(s, p, fd, data).tasks)
  {
    hide PipeWrite;
    if SlotFile(s, p, fd).Some? && SlotFile(s, p, fd).value in s.files {
      var f := SlotFile(s, p, fd).value;
      if s.files[f].kind.PipeEnd? {
        WriteKeepsSignals(s, p, f, s.files[f].kind.pipe, data, 0);
      }
    }
  }

  /** No call but SetInterrupt touches its own task's interrupt fields. */
  lemma ApiKeepsSignals(s: State, p: Pid, call: ApiCall, env: Env)
    requires Acting(s, p) && !call.SetInterrupt?
    ensures OwnSignalsKept(s, ApiStep(s, p, call, env), p)
  {
    hide Core, Listed, Others, ReadCall, WriteCall, FdClose, SpawnTask, ExitTask, WaitPass, PipeCall, InstallOrRelease,
         DupFd, DupFd2, ReadyCount;
    match call
    case Read(fd, count) => ReadKeepsSignals(s, p, fd, count, env);
    case Write(fd, data) => WriteCallKeepsSignals(s, p, fd, data);
    case Close(fd) => CloseKeepsSignals(s, p, fd);
    case Dup(fd) => DupKeepsSignals(s, p, fd);
    case Dup2(oldFd, newFd) => Dup2KeepsSignals(s, p, oldFd, newFd);
    case SetCloexec(fd, enabled) =>
    case MakePipe(r, w) => PipeCallKeepsSignals(s, p, r, w);
    case Open(canRead, canWrite) =>
      OpenKeepsSignals(CreateFile(s, NodeFile(canRead, canWrite)), p, s.nextFile);
    case Spawn(supported, actions, v, i) => SpawnKeepsSignals(s, p, supported, actions, v, i);
    case Exec(supported) =>
    case Exit(status) => ExitKeepsSignals(s, p, status);
    case Waitpid(target) => WaitKeepsSignals(s, p, target);
    case Poll(fds, timeout) =>
    case Yield =>
  }

  lemma ResumeKeepsSignals(s: State, p: Pid, env: Env)
    requires Acting(s, p)
    ensures OwnSignalsKept(s, Resume(s, p, env), p)
  {
    hide Core, Others, Listed, WaitPass, PipeWrite, PipeRead, ReadyCount;
    match s.tasks[p].call
    case PipeReadCall(f, q, count) => PipeReadKeepsSignals(s, p, f, q, count);
    case PipeWriteCall(f, q, data, total) => WriteKeepsSignals(s, p, f, q, data, total);
    case WaitCall(target) => WaitKeepsSignals(s, p, target);
    case _ =>
  }

  // ----- Delivery ---------------------------------------------------------------

  /**
   A task that is switched to with an interrupt pending exits with status 130;
   any other comes back to its program, or blocks again, with none pending.
   */
  lemma InterruptBeforeReturn(s: State, env: Env)
    requires Inv(s) && Scheduling(s) && Picked(s).Some?
    ensures var p := Picked(s).value;
      var s' := Step(s, Pick(env));
      && p in s'.tasks
      && (if s.tasks[p].pending
          then s'.tasks[p].state.Zombie? && s'.tasks[p].exitStatus == 130 && s'.current.None?
          else !s'.tasks[p].pending)
  {
    hide Core, Listed, Others, Turns, Acting, ExitTask, Resume, Picked;
    var p := Picked(s).value;
    PickedRuns(s);
    Dispatched(s, p);
    var s1 := Dispatch(s, p);
    if s.tasks[p].pending {
      SignalsOk(s, p);
      Delivered(s1, p);
      ExitKeeps(s1.(tasks := s1.tasks[p := s1.tasks[p].(pending := false, call := NoCall)]), p, 130);
    } else {
      ResumeKeepsSignals(s1, p, env);
    }
  }

  // ----- Requests ---------------------------------------------------------------

  /** Whether a request to a task is accepted. */
  ghost predicate Accepts(t: Task) {
    !t.state.Zombie? && t.supports && !t.ignoring && (t.state.ExecPending? ==> t.execTarget == Some(true))
  }

  /** An accepted request leaves its target pending and not blocked; nothing else changes, and no other request does. */
  lemma RequestRaises(s: State, p: Pid)
    requires Inv(s)
    ensures var s' := Step(s, RequestInterrupt(p));
      if p in s.tasks && Accepts(s.tasks[p]) then
        && s' == s.(tasks := s.tasks[p := s'.tasks[p]])
        && s'.tasks[p] == s.tasks[p].(pending := true, state := s'.tasks[p].state)
        && s'.tasks[p].state ==
           (if s.tasks[p].state in {BlockedPipe, BlockedConsole, BlockedWait, BlockedPoll} then Runnable
            else s.tasks[p].state)
      else s' == s
  {
    if p in s.tasks {
      SignalsOk(s, p);
    }
  }

  lemma SignalsOk(s: State, p: Pid)
    requires Inv(s) && p in s.tasks
    ensures InterruptOk(s.tasks[p])
  {
    hide Shape, Counts, Fifo, PipeIds, FileIds, Deaths, Listed, Turns, Owned, Pipes, IoWaits, ChildWaits, Reaps;
  }

  /** The running task p makes the call. */
  ghost predicate Calls(s: State, op: Op, p: Pid, call: ApiCall) {
    s.current == Some(p) && op.Api? && op.call == call
  }

  /**
   The pending bit and the disposition of p after any step. The bit is set by an
   accepted request alone, and cleared by the switch to p and by p's choice to
   ignore alone; the disposition is changed by p alone.
   */
  ghost predicate SignalsAfter(s: State, op: Op, p: Pid, t': Task)
    requires p in s.tasks
  {
    var t := s.tasks[p];
    && t'.pending == (if op == RequestInterrupt(p) && Accepts(t) then true
                      else if Picks(s, op, p) then false
                      else if Calls(s, op, p, SetInterrupt(true)) then false
                      else t.pending)
    && t'.ignoring == (if t.supports && Calls(s, op, p, SetInterrupt(true)) then true
                       else if t.supports && Calls(s, op, p, SetInterrupt(false)) then false
                       else t.ignoring)
  }

  /** What every step makes of the interrupt fields of every task; only an exited task ever disappears. */
  lemma SignalsAre(s: State, op: Op, p: Pid)
    requires Inv(s) && p in s.tasks
    ensures p !in Step(s, op).tasks ==> s.tasks[p].state.Zombie?
    ensures p in Step(s, op).tasks ==> SignalsAfter(s, op, p, Step(s, op).tasks[p])
  {
    hide Core, Listed, Turns, ApiStep, PickStep, FinishExecTask, Picked, Scheduling;
    SignalsOk(s, p);
    match op
    case Tick(env) =>
    case Idle(polled) =>
    case Pick(env) =>
      if IsPick(s, op) { PickSignals(s, env, p); } else { NoPick(s, env); }
    case FinishExec => if s.current.None? { FinishExecSignals(s, p); }
    case RequestInterrupt(pid) => RequestRaises(s, pid);
    case Api(call, env) =>
      if s.current.Some? && s.current.value in s.tasks {
        ApiSignals(s, s.current.value, call, env, p);
      }
  }

  lemma PickSignals(s: State, env: Env, p: Pid)
    requires Inv(s) && p in s.tasks && IsPick(s, Pick(env))
    ensures var s' := PickStep(s, env);
      && (p !in s'.tasks ==> s.tasks[p].state.Zombie?)
      && (p in s'.tasks ==> s'.tasks[p].ignoring == s.tasks[p].ignoring)
      && (p in s'.tasks ==> s'.tasks[p].pending == (Picked(s) != Some(p) && s.tasks[p].pending))
  {
    hide Core, Listed, Others, Turns, ExitTask, Resume, Picked;
    var c := Picked(s).value;
    PickedRuns(s);
    var s1 := Dispatch(s, c);
    if p != c {
      PickMoves(s, env);
    } else {
      SignalsOk(s, p);
      InterruptBeforeReturn(s, env);
      Dispatched(s, c);
      if s1.tasks[c].pending && !s1.tasks[c].ignoring {
        ExitKeepsSignals(s1.(tasks := s1.tasks[c := s1.tasks[c].(pending := false, call := NoCall)]), c, 130);
      } else {
        ResumeKeepsSignals(s1, c, env);
      }
    }
  }

  lemma FinishExecSignals(s: State, p: Pid)
    requires p in s.tasks
    ensures var s' := FinishExecTask(s);
      p in s'.tasks && s'.tasks[p].pending == s.tasks[p].pending && s'.tasks[p].ignoring == s.tasks[p].ignoring
  {
    hide FdCloseOnExecFrom;
    if s.cursor.Some? {
      CloseOnExecKeepsSignals(s, s.cursor.value, 0);
    }
  }

  lemma ApiSignals(s: State, c: Pid, call: ApiCall, env: Env, p: Pid)
    requires Inv(s) && p in s.tasks && s.current == Some(c) && c in s.tasks
    ensures var s' := ApiStep(s, c, call, env);
      && (p !in s'.tasks ==> s.tasks[p].state.Zombie?)
      && (p in s'.tasks ==> SignalsAfter(s, Api(call, env), p, s'.tasks[p]))
  {
    hide Core, Listed, Others, ApiStep;
    InvIsActing(s);
    SignalsOk(s, p);
    if p != c {
      ActingHasSlots(s, c);
      ApiKeeps(s, c, call, env);
    } else if !call.SetInterrupt? {
      ApiKeepsSignals(s, c, call, env);
    } else {
      SetInterruptReturns(s, c, call.ignore, env);
    }
  }

  /** The setter answers the previous disposition and leaves a pending interrupt alone unless it ignores. */
  lemma SetInterruptReturns(s: State, p: Pid, ignore: bool, env: Env)
    requires Inv(s) && s.current == Some(p)
    ensures var s' := Step(s, Api(SetInterrupt(ignore), env));
      && p in s.tasks && s' == s.(tasks := s.tasks[p := s'.tasks[p]])
      && s'.tasks[p] == (if s.tasks[p].supports
                         then s.tasks[p].(ret := if s.tasks[p].ignoring then 1 else 0, ignoring := ignore,
                                          pending := s.tasks[p].pending && !ignore)
                         else s.tasks[p].(ret := -1))
  {
    hide Core, Listed, Others;
    InvIsActing(s);
  }

  // ----- Infinite runs ------------------------------------------------------------

  ghost predicate Pending(s: State, p: Pid) {
    p in s.tasks && s.tasks[p].pending
  }

  /** A pending interrupt stays with a task that waits for its turn. */
  lemma WaitingStaysPending(s: State, op: Op, p: Pid)
    requires Inv(s) && Waiting(s, p) && Pending(s, p) && !Picks(s, op, p)
    ensures Pending(Step(s, op), p)
  {
    hide Core, Listed, Step, Picked, IsPick;
    SignalsAre(s, op, p);
  }

  lemma {:induction false} PendingUntil(run: nat -> State, ops: nat -> Op, p: Pid, i: nat, n: nat)
    requires forall k: nat :: run(k + 1) == Step(run(k), ops(k))
    requires Inv(run(i)) && Pending(run(i), p) && i <= n
    requires forall k :: i <= k < n ==> Waiting(run(k), p) && !Picks(run(k), ops(k), p)
    ensures Inv(run(n)) && Pending(run(n), p)
    decreases n
  {
    hide Inv, Step, Picks, Waiting, Pending;
    if i < n {
      PendingUntil(run, ops, p, i, n - 1);
      StepKeeps(run(n - 1), ops(n - 1));
      WaitingStaysPending(run(n - 1), ops(n - 1), p);
      assert run(n - 1 + 1) == Step(run(n - 1), ops(n - 1));
    }
  }

  ghost predicate ExitedWith(s: State, p: Pid, status: int) {
    p in s.tasks && s.tasks[p].state.Zombie? && s.tasks[p].exitStatus == status
  }

  lemma PickEndsPending(s: State, op: Op, p: Pid)
    requires Inv(s) && Pending(s, p) && Picks(s, op, p)
    ensures ExitedWith(Step(s, op), p, 130)
  {
    hide Core, Listed, Turns, Step, Picked;
    InterruptBeforeReturn(s, op.env);
  }

  /** Between two programs: nothing but the completion of the exec moves the task. */
  lemma ExecWaits(s: State, op: Op, p: Pid)
    requires Inv(s) && Pending(s, p) && s.tasks[p].state.ExecPending?
    ensures !IsPick(s, op)
    ensures Pending(Step(s, op), p)
    ensures if op.FinishExec? then Waiting(Step(s, op), p) else Step(s, op).tasks[p].state.ExecPending?
  {
    hide Core, Listed, FdCloseOnExecFrom;
    SignalsAre(s, op, p);
    SignalsOk(s, p);
    CloseOnExecKeepsSignals(s, p, 0);
  }

  lemma ExecEnds(run: nat -> State, ops: nat -> Op, p: Pid, i: nat, j: nat) returns (m: nat)
    requires forall k: nat :: run(k + 1) == Step(run(k), ops(k))
    requires Inv(run(i)) && Pending(run(i), p) && run(i).tasks[p].state.ExecPending?
    requires i <= j && IsPick(run(j), ops(j))
    ensures i < m && Waiting(run(m), p) && Pending(run(m), p) && Inv(run(m))
    decreases j - i
  {
    hide Inv, Step, IsPick, Waiting;
    ExecWaits(run(i), ops(i), p);
    StepKeeps(run(i), ops(i));
    assert run(i + 1) == Step(run(i), ops(i));
    if ops(i).FinishExec? {
      m := i + 1;
    } else {
      m := ExecEnds(run, ops, p, i + 1, j);
    }
  }

  /** A task that is runnable with an interrupt pending ends with status 130. */
  lemma PendingIsDelivered(run: nat -> State, ops: nat -> Op, nextPick: nat -> nat, p: Pid, m: nat) returns (n: nat)
    requires forall k: nat :: run(k + 1) == Step(run(k), ops(k))
    requires forall k: nat :: nextPick(k) >= k && IsPick(run(nextPick(k)), ops(nextPick(k)))
    requires Inv(run(m)) && Waiting(run(m), p) && Pending(run(m), p)
    ensures m < n && ExitedWith(run(n), p, 130)
  {
    hide Inv, Step, IsPick, ExitedWith, Waiting, Pending;
    var e := EventuallyPicked(run, ops, nextPick, p, m, nextPick(m));
    PendingUntil(run, ops, p, m, e);
    PickEndsPending(run(e), ops(e), p);
    assert run(e + 1) == Step(run(e), ops(e));
    n := e + 1;
  }

  /**
   On every infinite run whose picks never cease, an accepted request ends its
   target with status 130, unless the target is running at that moment. (A
   running target is never preempted: see StrandedInterrupt.)
   */
  lemma InterruptIsDelivered(supported: bool, run: nat -> State, ops: nat -> Op, nextPick: nat -> nat, p: Pid, i: nat)
    returns (n: nat)
    requires run(0) == Boot(supported)
    requires forall k: nat :: run(k + 1) == Step(run(k), ops(k))
    requires forall k: nat :: nextPick(k) >= k && IsPick(run(nextPick(k)), ops(nextPick(k)))
    requires ops(i) == RequestInterrupt(p) && p in run(i).tasks && Accepts(run(i).tasks[p])
    requires !run(i).tasks[p].state.Running?
    ensures i < n && ExitedWith(run(n), p, 130)
  {
    hide Inv, Step, IsPick, ExitedWith;
    RunIsReachable(supported, run, ops, i);
    StepKeeps(run(i), ops(i));
    RequestRaises(run(i), p);
    assert run(i + 1) == Step(run(i), ops(i));
    var m := i + 1;
    if run(i + 1).tasks[p].state.ExecPending? {
      m := ExecEnds(run, ops, p, i + 1, nextPick(i + 1));
    }
    n := PendingIsDelivered(run, ops, nextPick, p, m);
  }

  // ----- The running target ---------------------------------------------------------

  /** The only task sleeps on a pipe of its own. */
  ghost predicate Alone(s: State) {
    && s.tasks.Keys == {1} && s.order == [1] && s.current.None?
    && s.tasks[1].state.BlockedPipe? && s.tasks[1].execTarget.None?
  }

  lemma AloneStays(s: State, op: Op)
    requires Alone(s) && op != RequestInterrupt(1)
    ensures Step(s, op) == s
  {
    match op
    case Tick(env) => assert Step(s, op).tasks == s.tasks;
    case Idle(polled) => assert Step(s, op).tasks == s.tasks;
    case Pick(env) => assert !RunnableAt(s.tasks, s.order, 0); assert StartIndex(s) == 0; assert Picked(s).None?;
    case _ =>
  }

  lemma {:induction false} AloneForever(s: State, ops: seq<Op>)
    requires Alone(s) && RequestInterrupt(1) !in ops
    ensures Run(s, ops) == s
    decreases |ops|
  {
    hide Step, Alone;
    if ops != [] {
      AloneStays(s, ops[0]);
      AloneForever(s, ops[1..]);
    }
  }

  const STRANDING := [Pick(Env(false, 1)), Api(MakePipe(true, true), Env(false, 1)), RequestInterrupt(1),
                      Api(Read(3, 1), Env(false, 1))]

  /**
   A request to a running task is accepted but may never be delivered: when the
   task then blocks in a read of its own empty pipe, it sleeps with the
   interrupt pending whatever happens, short of a second request.
   */
  lemma StrandedInterrupt(ops: seq<Op>)
    requires RequestInterrupt(1) !in ops
    ensures var before := Run(Boot(true), STRANDING[..2]);
      before.current == Some(1) && 1 in before.tasks && Accepts(before.tasks[1])
    ensures var s := Run(Run(Boot(true), STRANDING), ops);
      1 in s.tasks && s.tasks[1].pending && s.tasks[1].state.BlockedPipe?
  {
    hide PipeCall, FirstFree, PickStep;
    var e := Env(false, 1);
    var s0 := Boot(true);
    var s1 := Step(s0, Pick(e));
    assert s1 == Dispatch(s0, 1) by { FirstTurn(e); }
    var s2 := Step(s1, Api(MakePipe(true, true), e));
    var s3 := Step(s2, RequestInterrupt(1));
    var s4 := Step(s3, Api(Read(3, 1), e));
    FirstPipe(s1);
    assert STRANDING[..2] == [Pick(e), Api(MakePipe(true, true), e)];
    RunOfTwo(s0, Pick(e), Api(MakePipe(true, true), e));
    RunOfTwo(s2, RequestInterrupt(1), Api(Read(3, 1), e));
    assert STRANDING == STRANDING[..2] + [RequestInterrupt(1), Api(Read(3, 1), e)];
    RunOfParts(s0, STRANDING[..2], [RequestInterrupt(1), Api(Read(3, 1), e)]);
    assert Alone(s4);
    assert s4.tasks[1].pending;
    AloneForever(s4, ops);
  }

  lemma FirstTurn(env: Env)
    ensures Step(Boot(true), Pick(env)) == Dispatch(Boot(true), 1)
  {
    var s := Boot(true);
    assert RunnableAt(s.tasks, s.order, 0);
    assert Picked(s) == Some(1);
  }

  lemma FirstPipe(s: State)
    requires s == Dispatch(Boot(true), 1)
    ensures var s' := PipeCall(s, 1, true, true);
      && s'.current == Some(1) && s'.order == [1] && s'.tasks.Keys == {1} && |s'.tasks[1].fds| == MAX_FDS
      && s'.tasks[1] == s.tasks[1].(fds := s'.tasks[1].fds)
      && s'.tasks[1].fds[3].file == Some(3) && 3 in s'.files && s'.files[3].kind == PipeEnd(0, ReadEnd)
      && 0 in s'.pipes && s'.pipes[0] == Pipe([], 1, 1)
  {
    var fds := s.tasks[1].fds;
    assert fds[3].file.None?;
    LowestFree(fds, 3);
    var s2 := CreateEnd(CreateEnd(s, 0, ReadEnd), 0, WriteEnd);
    var s3 := SetSlot(s2, 1, 3, FdEntry(Some(3), false));
    LowestFree(s3.tasks[1].fds, 4);
  }

  lemma LowestFree(fds: seq<FdEntry>, d: nat)
    requires d < |fds| && fds[d].file.None? && forall k :: 0 <= k < d ==> fds[k].file.Some?
    ensures FirstFree(fds, 0) == d
  {
  }

  lemma RunOfTwo(s: State, a: Op, b: Op)
    ensures Run(s, [a, b]) == Step(Step(s, a), b)
  {
    hide Step;
    assert [a, b][1..] == [b];
    assert [b][1..] == [];
    assert Run(Step(s, a), [b]) == Run(Step(Step(s, a), b), []);
  }

  lemma {:induction false} RunOfParts(s: State, a: seq<Op>, b: seq<Op>)
    ensures Run(s, a + b) == Run(Run(s, a), b)
    decreases |a|
  {
    hide Step;
    if a == [] {
      assert a + b == b;
    } else {
      assert (a + b)[1..] == a[1..] + b;
      RunOfParts(Step(s, a[0]), a[1..], b);
    }
  }
}
