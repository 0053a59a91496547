/**
 Every step keeps the invariant, so it holds in every state any run reaches;
 the promises of the kernel follow from it.
 */
module KernelRuns {
  import opened Common
  import opened KernelState
  import opened KernelInvariant
  import opened KernelDescriptors
  import opened KernelCalls
  import opened KernelIo
  import opened KernelLife

  // ----- Interrupts ------------------------------------------------------------

  lemma SetInterruptKeeps(s: State, p: Pid, ignore: bool)
    requires Calling(s, p)
    ensures Inv(SetInterruptOf(s, p, ignore)) && Steady(s, SetInterruptOf(s, p, ignore), p)
  {
    hide Core, Listed;
    RunningIsCalm(s, p);
    var t := s.tasks[p];
    if !InterruptSupported(t) {
      Returned(s, p, -1);
    } else {
      var t' := t.(ignoring := ignore, pending := t.pending && !ignore);
      var s1 := s.(tasks := s.tasks[p := t']);
      assert s1.tasks.Keys == s.tasks.Keys;
      Updated(s, p, t');
      Returned(s1, p, if t.ignoring then 1 else 0);
    }
  }

  lemma RequestInterruptKeeps(s: State, p: Pid)
    requires Inv(s)
    ensures Inv(RequestInterruptTo(s, p))
  {
    hide Shape, Counts, Pipes, Fifo, PipeIds, FileIds, ChildWaits, Deaths, Reaps, Listed, PipeBlockOk, PollBlockOk,
         HasFile;
    if p in s.tasks && !s.tasks[p].state.Zombie? && InterruptSupported(s.tasks[p]) && !s.tasks[p].ignoring {
      var t := s.tasks[p].(pending := true);
      var t' := if Blocked(t) then t.(state := Runnable) else t;
      assert InterruptOk(s.tasks[p]) && OwnsFile(s.files, s.tasks[p]) && NothingToDo(s.files, s.pipes, s.tasks[p]);
      InterruptedUpdate(s, p, t, t');
      Updated(s, p, t');
      assert s.tasks[p := t'].Keys == s.tasks.Keys;
    }
  }

  lemma InterruptedUpdate(s: State, p: Pid, t: Task, t': Task)
    requires p in s.tasks && t == s.tasks[p].(pending := true)
    requires InterruptSupported(t) && !t.ignoring && !t.state.Zombie? && InterruptOk(s.tasks[p])
    requires t' == if Blocked(t) then t.(state := Runnable) else t
    requires OwnsFile(s.files, s.tasks[p]) && NothingToDo(s.files, s.pipes, s.tasks[p])
    ensures OwnUpdate(s, p, t')
  {
  }

  // ----- The scheduler ------------------------------------------------------------

  lemma WakesKeepInv(s: State, tasks': map<Pid, Task>)
    requires Inv(s) && Wakes(s.tasks, tasks')
    ensures Inv(s.(tasks := tasks'))
  {
    hide Core, Listed, Turns;
    WakesKeep(s, tasks', multiset{});
    assert s.(tasks := tasks').tasks.Keys == s.tasks.Keys;
    assert Turns(s.(tasks := tasks')) by { TurnsAfterWakes(s, tasks'); }
  }

  lemma TurnsAfterWakes(s: State, tasks': map<Pid, Task>)
    requires Turns(s) && Wakes(s.tasks, tasks')
    ensures Turns(s.(tasks := tasks'))
  {
    if s.current.Some? {
      UnblockedStay(s.tasks, tasks', s.current.value);
    }
  }

  lemma UnblockedStay(tasks: map<Pid, Task>, tasks': map<Pid, Task>, c: Pid)
    requires Wakes(tasks, tasks') && c in tasks && !Blocked(tasks[c])
    ensures tasks'[c] == tasks[c]
  {
  }

  lemma TickWakes(tasks: map<Pid, Task>, env: Env)
    ensures Wakes(tasks, WakeExpired(if env.consoleReady then WakeConsoleTasks(tasks) else tasks, env.now))
  {
  }

  lemma IdleWakes(tasks: map<Pid, Task>, polled: bool)
    ensures Wakes(tasks, WakePollTasks(if polled then WakeConsoleTasks(tasks) else tasks))
  {
  }

  /** A picked task runs, still inside the call it was suspended in. */
  lemma Dispatched(s: State, p: Pid)
    requires Inv(s) && Scheduling(s) && p in s.tasks && s.tasks[p].state.Runnable?
    ensures Acting(Dispatch(s, p), p)
  {
    hide Shape, Counts, Pipes, Fifo, PipeIds, FileIds, ChildWaits, Deaths, Reaps, Listed, PipeBlockOk, PollBlockOk,
         HasFile;
    var t' := s.tasks[p].(state := Running);
    assert InterruptOk(s.tasks[p]) && OwnsFile(s.files, s.tasks[p]) && NothingToDo(s.files, s.pipes, s.tasks[p]);
    assert OwnUpdate(s, p, t') by { DispatchedUpdate(s, p, t'); }
    Updated(s, p, t');
    assert s.tasks[p := t'].Keys == s.tasks.Keys;
    CoreIgnoresTurns(s.(tasks := s.tasks[p := t']), Some(p));
    CoreIgnoresCursor(s.(tasks := s.tasks[p := t'], current := Some(p)), Some(p));
  }

  lemma DispatchedUpdate(s: State, p: Pid, t': Task)
    requires p in s.tasks && s.tasks[p].state.Runnable? && t' == s.tasks[p].(state := Running)
    requires InterruptOk(s.tasks[p]) && OwnsFile(s.files, s.tasks[p]) && NothingToDo(s.files, s.pipes, s.tasks[p])
    ensures OwnUpdate(s, p, t')
  {
  }

  lemma CoreIgnoresCursor(s: State, cursor: Option<Pid>)
    requires Core(s, multiset{})
    ensures Core(s.(cursor := cursor), multiset{})
  {
    hide Shape, Counts, Pipes, Fifo, PipeIds, FileIds, Owned, IoWaits, ChildWaits, Interrupts, Deaths, Reaps;
  }

  lemma ActingOwns(s: State, p: Pid)
    requires Acting(s, p)
    ensures OwnsFile(s.files, s.tasks[p])
  {
    hide Shape, Counts, Pipes, Fifo, PipeIds, FileIds, IoWaits, ChildWaits, Interrupts, Deaths, Reaps, Listed, Others;
  }

  lemma ResumeKeeps(s: State, p: Pid, env: Env)
    requires Acting(s, p)
    ensures Inv(Resume(s, p, env)) && Moved(s, Resume(s, p, env), p)
  {
    hide Core, Listed, Others, Moved, Steady;
    ActingOwns(s, p);
    SelfSteady(s, p);
    match s.tasks[p].call {
    case NoCall => ActingIsInv(s, p);
    case PipeReadCall(f, q, count) => PipeReadKeeps(s, p, f, q, count);
    case PipeWriteCall(f, q, data, total) => PipeWriteKeeps(s, p, f, q, data, total);
    case ConsoleReadCall => ConsoleKeeps(s, p, env);
    case WaitCall(target) => WaitKeeps(s, p, target);
    case PollCall(fds, timeout, start) => PollKeeps(s, p, fds, timeout, start, env);
    }
    if !s.tasks[p].call.WaitCall? {
      SteadyMoves(s, Resume(s, p, env), p);
    }
  }

  lemma SelfSteady(s: State, p: Pid)
    ensures Steady(s, s, p)
  {
  }

  /** A pending interrupt is delivered as an exit with status 130 before the call goes on. */
  lemma Delivered(s: State, p: Pid)
    requires Acting(s, p)
    ensures var s1 := s.(tasks := s.tasks[p := s.tasks[p].(pending := false, call := NoCall)]);
      Calling(s1, p)
  {
    hide Shape, Counts, Pipes, Fifo, PipeIds, FileIds, Owned, IoWaits, ChildWaits, Deaths, Reaps, Listed;
    assert InterruptOk(s.tasks[p]);
    var t' := s.tasks[p].(pending := false, call := NoCall);
    Updated(s, p, t');
    assert s.tasks[p := t'].Keys == s.tasks.Keys;
    ActingHasSlots(s, p);
  }

  lemma PickKeeps(s: State, env: Env)
    requires Inv(s)
    ensures Inv(PickStep(s, env))
  {
    hide Core, Listed, Others, Turns, Inv, Acting, ExitTask, Resume, Picked;
    if Scheduling(s) && Picked(s).Some? {
      var p := Picked(s).value;
      PickedRuns(s);
      Dispatched(s, p);
      var s1 := Dispatch(s, p);
      if s1.tasks[p].pending && !s1.tasks[p].ignoring {
        Delivered(s1, p);
        ExitKeeps(s1.(tasks := s1.tasks[p := s1.tasks[p].(pending := false, call := NoCall)]), p, 130);
      } else {
        ResumeKeeps(s1, p, env);
      }
    }
  }

  lemma PickedRuns(s: State)
    requires Picked(s).Some?
    ensures Picked(s).value in s.tasks && s.tasks[Picked(s).value].state.Runnable?
  {
  }

  // ----- Steps and runs --------------------------------------------------------------

  lemma ApiKeeps(s: State, p: Pid, call: ApiCall, env: Env)
    requires Calling(s, p)
    ensures Inv(ApiStep(s, p, call, env)) && Moved(s, ApiStep(s, p, call, env), p)
  {
    hide Core, Listed, Others, Inv, Moved, Steady, ReadCall, WriteCall, FdClose, SpawnTask, ExitTask, WaitPass,
         PollPass, PipeCall, InstallOrRelease, DupFd, DupFd2, ExecTask, SetInterruptOf;
    match call {
    case Read(fd, count) => ReadKeeps(s, p, fd, count, env);
    case Write(fd, data) => WriteKeeps(s, p, fd, data);
    case Close(fd) => CloseKeeps(s, p, fd);
    case Dup(fd) => DupKeeps(s, p, fd);
    case Dup2(oldFd, newFd) => Dup2Keeps(s, p, oldFd, newFd);
    case SetCloexec(fd, enabled) => CloexecKeeps(s, p, fd, enabled);
    case MakePipe(r, w) => PipeCallKeeps(s, p, r, w);
    case Open(canRead, canWrite) => OpenKeeps(s, p, canRead, canWrite);
    case Spawn(supported, actions, v, i) => SpawnKeeps(s, p, supported, actions, v, i);
    case Exec(supported) => ExecKeeps(s, p, supported);
    case Exit(status) => ExitKeeps(s, p, status);
    case Waitpid(target) => WaitKeeps(s, p, target);
    case Poll(fds, timeout) =>
      if |fds| > MAX_FDS || (timeout > 0 && env.now == 0) {
        Returned(s, p, -1);
      } else {
        PollKeeps(s, p, fds, timeout, env.now, env);
      }
    case Yield => YieldKeeps(s, p);
    case SetInterrupt(ignore) => SetInterruptKeeps(s, p, ignore);
    }
    if !call.Spawn? && !call.Waitpid? {
      SteadyMoves(s, ApiStep(s, p, call, env), p);
    }
  }

  lemma YieldKeeps(s: State, p: Pid)
    requires Calling(s, p)
    ensures Inv(Block(s, p, Runnable, NoCall)) && Steady(s, Block(s, p, Runnable, NoCall), p)
  {
    hide Core, Listed, Others;
    RunningIsCalm(s, p);
    BlockedAs(s, p, Runnable, NoCall);
  }

  /** The invariant is kept by every operation of the kernel, by the host's and by interrupts. */
  lemma StepKeeps(s: State, op: Op)
    requires Inv(s)
    ensures Inv(Step(s, op))
  {
    hide Core, Listed, Others, Turns, ApiStep, PickStep, RequestInterruptTo, FinishExecTask, Wakes, WakeExpired,
         WakePollTasks, WakeConsoleTasks;
    match op
    case Tick(env) =>
      TickWakes(s.tasks, env);
      WakesKeepInv(s, WakeExpired(if env.consoleReady then WakeConsoleTasks(s.tasks) else s.tasks, env.now));
    case Idle(polled) =>
      IdleWakes(s.tasks, polled);
      WakesKeepInv(s, WakePollTasks(if polled then WakeConsoleTasks(s.tasks) else s.tasks));
    case Pick(env) => PickKeeps(s, env);
    case FinishExec => if s.current.None? { FinishExecKeeps(s); }
    case RequestInterrupt(pid) => RequestInterruptKeeps(s, pid);
    case Api(call, env) =>
      if s.current.Some? && s.current.value in s.tasks {
        InvIsActing(s);
        ActingHasSlots(s, s.current.value);
        ApiKeeps(s, s.current.value, call, env);
      }
  }

  lemma BootCounts(supported: bool)
    ensures var s := Boot(supported); Counts(s.tasks, s.files, multiset{})
  {
    var s := Boot(supported);
    assert s.tasks.Keys == {1};
    forall f | f in s.files ensures Counted(s.tasks, s.files, multiset{}, f) {
      assert Holders(s.tasks, f) == {(1, f)};
    }
  }

  lemma BootOk(supported: bool)
    ensures Inv(Boot(supported))
  {
    hide Counts;
    BootCounts(supported);
  }

  lemma {:induction false} RunKeeps(s: State, ops: seq<Op>)
    requires Inv(s)
    ensures Inv(Run(s, ops))
    decreases |ops|
  {
    hide Inv;
    if ops != [] {
      StepKeeps(s, ops[0]);
      RunKeeps(Step(s, ops[0]), ops[1..]);
    }
  }

  /** Every state that any sequence of operations reaches from boot satisfies the invariant. */
  lemma Reachable(supported: bool, ops: seq<Op>)
    ensures Inv(Run(Boot(supported), ops))
  {
    hide Inv, Run;
    BootOk(supported);
    RunKeeps(Boot(supported), ops);
  }
}
