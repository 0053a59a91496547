/**
 What poll reports, said without its own readiness test: a descriptor is
 reported exactly when the call it was polled for would not block, each one
 counts once, and a poll with a timeout returns.
 */
module KernelPolls {
  import opened Common
  import opened KernelState
  import opened KernelInvariant
  import opened KernelDescriptors
  import opened KernelCalls
  import opened KernelIo
  import opened KernelLife
  import opened KernelRuns
  import opened KernelPromises
  import opened KernelFairness
  import opened KernelInterrupts

  // ----- What is reported ---------------------------------------------------------

  /** Descriptor d of p is open on a file of that kind. */
  ghost predicate IsOpen(s: State, p: Pid, d: int, kind: FileKind) {
    SlotFile(s, p, d).Some? && SlotFile(s, p, d).value in s.files && s.files[SlotFile(s, p, d).value].kind == kind
  }

  /** A negative descriptor is skipped; any other is reported unless it is quiet, console input only when ready. */
  ghost predicate Reported(s: State, p: Pid, pf: PollFd, console: bool)
    requires p in s.tasks
  {
    && pf.fd >= 0
    && (!Quiet(s.files, s.pipes, s.tasks[p].fds, pf) ||
        (IsOpen(s, p, pf.fd, ConsoleIn) && pf.wantRead && console))
  }

  ghost function ReportedSet(s: State, p: Pid, fds: seq<PollFd>, console: bool): set<int>
    requires p in s.tasks
  {
    set i | 0 <= i < |fds| && Reported(s, p, fds[i], console)
  }

  lemma InvFiles(s: State)
    requires Inv(s)
    ensures SlotsLive(s.tasks, s.files) && Pipes(s.files, s.pipes)
  {
    hide Shape, Fifo, PipeIds, FileIds, Deaths, Listed, Turns, Owned, Pipes, IoWaits, ChildWaits, Reaps, Interrupts;
  }

  lemma ReadyIsReported(s: State, p: Pid, pf: PollFd, console: bool)
    requires SlotsLive(s.tasks, s.files) && Pipes(s.files, s.pipes) && p in s.tasks
    ensures PollReady(s.files, s.pipes, s.tasks[p].fds, pf, console) == Reported(s, p, pf, console)
  {
    if 0 <= pf.fd < |s.tasks[p].fds| && s.tasks[p].fds[pf.fd].file.Some? {
      var kind := s.files[s.tasks[p].fds[pf.fd].file.value].kind;
      if kind.PipeEnd? {
        assert PipeOk(s.files, kind.pipe, s.pipes[kind.pipe]);
      }
    }
  }

  lemma {:induction false} CountOfLast(s: State, fds: seq<FdEntry>, polled: seq<PollFd>, pf: PollFd, console: bool)
    ensures ReadyCount(s, fds, polled + [pf], console)
         == ReadyCount(s, fds, polled, console) + if PollReady(s.files, s.pipes, fds, pf, console) then 1 else 0
  {
    hide PollReady;
    if polled == [] {
      assert polled + [pf] == [pf] && [pf][1..] == [];
    } else {
      assert (polled + [pf])[1..] == polled[1..] + [pf];
      CountOfLast(s, fds, polled[1..], pf, console);
    }
  }

  lemma {:induction false} CountIsReported(s: State, p: Pid, polled: seq<PollFd>, console: bool)
    requires SlotsLive(s.tasks, s.files) && Pipes(s.files, s.pipes) && p in s.tasks
    ensures ReadyCount(s, s.tasks[p].fds, polled, console) == |ReportedSet(s, p, polled, console)|
  {
    hide PollReady, Reported, SlotsLive, Pipes;
    if polled != [] {
      var n := |polled| - 1;
      var front := polled[..n];
      assert polled == front + [polled[n]];
      CountOfLast(s, s.tasks[p].fds, front, polled[n], console);
      CountIsReported(s, p, front, console);
      ReadyIsReported(s, p, polled[n], console);
      ReportedWithLast(s, p, front, polled[n], console);
    } else {
      assert ReportedSet(s, p, polled, console) == {};
    }
  }

  lemma ReportedWithLast(s: State, p: Pid, front: seq<PollFd>, pf: PollFd, console: bool)
    requires p in s.tasks
    ensures |ReportedSet(s, p, front + [pf], console)|
         == |ReportedSet(s, p, front, console)| + if Reported(s, p, pf, console) then 1 else 0
  {
    hide Reported;
    var n := |front|;
    assert forall i :: 0 <= i < n ==> (front + [pf])[i] == front[i];
    assert ReportedSet(s, p, front + [pf], console)
        == ReportedSet(s, p, front, console) + if Reported(s, p, pf, console) then {n} else {};
  }

  /**
   poll answers the number of reported descriptors; with none it answers 0 at
   once if told not to wait, and else sleeps. Too many descriptors, or a timeout
   without a clock, are refused.
   */
  lemma PollAnswers(s: State, p: Pid, fds: seq<PollFd>, timeout: int, env: Env)
    requires Inv(s) && s.current == Some(p)
    ensures p in s.tasks
    ensures var s' := Step(s, Api(Poll(fds, timeout), env));
      var n := |ReportedSet(s, p, fds, env.consoleReady)|;
      if |fds| > 64 || (timeout > 0 && env.now == 0) then s' == s.(tasks := s.tasks[p := s.tasks[p].(ret := -1)])
      else if n > 0 || timeout == 0 then s' == s.(tasks := s.tasks[p := s.tasks[p].(ret := n)])
      else
        s' == s.(tasks := s.tasks[p := s.tasks[p].(state := BlockedPoll, call := PollCall(fds, timeout, env.now))],
                 current := None)
  {
    hide Core, Listed, Others, ReadyCount, ReportedSet;
    InvIsActing(s);
    InvFiles(s);
    CountIsReported(s, p, fds, env.consoleReady);
  }

  /** A woken poll looks again: it answers what is reported now, gives up after its time, or goes back to sleep. */
  lemma PollGoesRound(s: State, p: Pid, env: Env)
    requires Inv(s) && Scheduling(s) && Picked(s) == Some(p)
    requires !s.tasks[p].pending && s.tasks[p].call.PollCall?
    ensures var s' := Step(s, Pick(env));
      var n := |ReportedSet(s, p, s.tasks[p].call.fds, env.consoleReady)|;
      var c := s.tasks[p].call;
      && p in s'.tasks
      && (if n > 0 || c.timeout == 0 then s'.current == Some(p) && s'.tasks[p].ret == n
          else if c.timeout > 0 && env.now == 0 then s'.current == Some(p) && s'.tasks[p].ret == -1
          else if c.timeout > 0 && (env.now - c.start) % CLOCK_MODULUS >= c.timeout
          then s'.current == Some(p) && s'.tasks[p].ret == 0
          else s'.current.None? && s'.tasks[p].state.BlockedPoll? && s'.tasks[p].call == c)
  {
    hide Core, Listed, Others, Turns, ReadyCount, ReportedSet, Picked;
    PickedRuns(s);
    Dispatched(s, p);
    var s1 := Dispatch(s, p);
    InvFiles(s);
    DispatchKeepsSlots(s, p);
    CountIsReported(s1, p, s.tasks[p].call.fds, env.consoleReady);
    assert ReportedSet(s1, p, s.tasks[p].call.fds, env.consoleReady)
        == ReportedSet(s, p, s.tasks[p].call.fds, env.consoleReady) by {
      SameReports(s, s1, p, s.tasks[p].call.fds, env.consoleReady);
    }
  }

  lemma DispatchKeepsSlots(s: State, p: Pid)
    requires p in s.tasks && SlotsLive(s.tasks, s.files)
    ensures SlotsLive(Dispatch(s, p).tasks, s.files)
  {
  }

  lemma SameReports(s: State, s1: State, p: Pid, fds: seq<PollFd>, console: bool)
    requires p in s.tasks && s1 == Dispatch(s, p)
    ensures ReportedSet(s1, p, fds, console) == ReportedSet(s, p, fds, console)
  {
    hide Quiet;
  }

  // ----- Agreement with the calls ---------------------------------------------------

  predicate CanRead(kind: FileKind) {
    kind.ConsoleIn? || (kind.PipeEnd? && kind.end.ReadEnd?) || (kind.NodeFile? && kind.canRead)
  }

  predicate CanWrite(kind: FileKind) {
    kind.ConsoleOut? || (kind.PipeEnd? && kind.end.WriteEnd?) || (kind.NodeFile? && kind.canWrite)
  }

  lemma ReportedOfOne(s: State, p: Pid, pf: PollFd, console: bool)
    requires p in s.tasks
    ensures |ReportedSet(s, p, [pf], console)| == if Reported(s, p, pf, console) then 1 else 0
  {
    hide Reported;
    assert ReportedSet(s, p, [pf], console) == if Reported(s, p, pf, console) then {0} else {};
  }

  /** A readable descriptor is polled ready for reading if and only if a read from it does not block. */
  lemma ReadAgrees(s: State, p: Pid, fd: int, kind: FileKind, count: nat, env: Env)
    requires Inv(s) && s.current == Some(p) && IsOpen(s, p, fd, kind) && CanRead(kind) && count > 0
    ensures var polled := Step(s, Api(Poll([PollFd(fd, true, false)], 0), env));
      var read := Step(s, Api(Read(fd, count), env));
      && p in polled.tasks && polled.tasks[p].ret in {0, 1}
      && (polled.tasks[p].ret == 1 <==> read.current == Some(p))
  {
    hide Core, Listed, Others, ReportedSet, ReadyCount, Ends, PipeRead;
    InvIsActing(s);
    InvFiles(s);
    var pf := PollFd(fd, true, false);
    PollAnswers(s, p, [pf], 0, env);
    ReportedOfOne(s, p, pf, env.consoleReady);
    if kind.PipeEnd? {
      assert PipeOk(s.files, kind.pipe, s.pipes[kind.pipe]);
      ReadBlocksIff(s, p, SlotFile(s, p, fd).value, kind.pipe, count);
    }
  }

  lemma ReadBlocksIff(s: State, p: Pid, f: FileId, q: PipeId, count: nat)
    requires p in s.tasks && s.current == Some(p) && q in s.pipes && PipeOk(s.files, q, s.pipes[q]) && count > 0
    ensures PipeRead(s, p, f, q, count).current == Some(p)
       <==> s.pipes[q].contents != [] || Ends(s.files, q, WriteEnd) == {}
  {
  }

  /** The same of writing one byte. */
  lemma WriteAgrees(s: State, p: Pid, fd: int, kind: FileKind, b: Byte, env: Env)
    requires Inv(s) && s.current == Some(p) && IsOpen(s, p, fd, kind) && CanWrite(kind)
    ensures var polled := Step(s, Api(Poll([PollFd(fd, false, true)], 0), env));
      var written := Step(s, Api(Write(fd, [b]), env));
      && p in polled.tasks && polled.tasks[p].ret in {0, 1}
      && (polled.tasks[p].ret == 1 <==> written.current == Some(p))
  {
    hide Core, Listed, Others, ReportedSet, ReadyCount, Ends, PipeWrite;
    InvIsActing(s);
    InvFiles(s);
    var pf := PollFd(fd, false, true);
    PollAnswers(s, p, [pf], 0, env);
    ReportedOfOne(s, p, pf, env.consoleReady);
    if kind.PipeEnd? {
      assert PipeOk(s.files, kind.pipe, s.pipes[kind.pipe]);
      WriteBlocksIff(s, p, SlotFile(s, p, fd).value, kind.pipe, b);
    }
  }

  lemma WriteBlocksIff(s: State, p: Pid, f: FileId, q: PipeId, b: Byte)
    requires p in s.tasks && s.current == Some(p) && q in s.pipes && PipeOk(s.files, q, s.pipes[q])
    ensures PipeWrite(s, p, f, q, [b], 0).current == Some(p)
       <==> |s.pipes[q].contents| < PIPE_SIZE || Ends(s.files, q, ReadEnd) == {}
  {
    if s.pipes[q].readers != 0 && |s.pipes[q].contents| < PIPE_SIZE {
      var s1 := Push(s, q, [b]);
      assert PipeWrite(s1, p, f, q, [b], 1) == Return(s1, p, 1);
      assert [b][0..1] == [b];
    }
  }

  // ----- Being woken ----------------------------------------------------------------

  /** A sleeping poll whose time is over, by the clock's unsigned 64-bit difference. */
  ghost predicate TimeIsUp(t: Task, now: nat) {
    && t.state.BlockedPoll? && t.call.PollCall? && t.call.timeout > 0
    && (now == 0 || (now - t.call.start) % 0x1_0000_0000_0000_0000 >= t.call.timeout)
  }

  /** A round of the scheduler wakes exactly the sleepers whose event has come. */
  lemma TickWakesWhom(s: State, env: Env)
    ensures var s' := Step(s, Tick(env));
      && s' == s.(tasks := s'.tasks) && s'.tasks.Keys == s.tasks.Keys
      && forall p :: p in s.tasks ==>
           s'.tasks[p] ==
           (if TimeIsUp(s.tasks[p], env.now) || (env.consoleReady && s.tasks[p].state in {BlockedConsole, BlockedPoll})
            then s.tasks[p].(state := Runnable) else s.tasks[p])
  {
  }

  /** With nothing runnable every poll looks again, and console readers after the console was waited for. */
  lemma IdleWakesWhom(s: State, polled: bool)
    ensures var s' := Step(s, Idle(polled));
      && s' == s.(tasks := s'.tasks) && s'.tasks.Keys == s.tasks.Keys
      && forall p :: p in s.tasks ==>
           s'.tasks[p] ==
           (if s.tasks[p].state.BlockedPoll? || (polled && s.tasks[p].state.BlockedConsole?)
            then s.tasks[p].(state := Runnable) else s.tasks[p])
  {
  }

  // ----- Timeouts over infinite runs --------------------------------------------------

  /** While a task waits for its turn nothing about it changes but its pending bit. */
  lemma WaitingUntouched(s: State, op: Op, t: Pid)
    requires Inv(s) && Waiting(s, t) && !Picks(s, op, t)
    ensures Waiting(Step(s, op), t)
    ensures Step(s, op).tasks[t] == s.tasks[t].(pending := Step(s, op).tasks[t].pending)
  {
    hide Core, Listed, ApiStep, PickStep, FinishExecTask, Picked, Scheduling;
    StepRank(s, op, t);
    match op
    case Tick(env) =>
    case Idle(polled) =>
    case Pick(env) =>
      if IsPick(s, op) { PickMoves(s, env); PickedRuns(s); } else { NoPick(s, env); }
    case FinishExec => if s.current.None? { FinishExecUntouched(s, t); }
    case RequestInterrupt(pid) =>
    case Api(call, env) =>
      if s.current.Some? && s.current.value in s.tasks {
        InvIsActing(s);
        ActingHasSlots(s, s.current.value);
        ApiKeeps(s, s.current.value, call, env);
      }
  }

  lemma FinishExecUntouched(s: State, t: Pid)
    requires Inv(s) && s.current.None? && Waiting(s, t)
    ensures t in FinishExecTask(s).tasks && FinishExecTask(s).tasks[t] == s.tasks[t]
  {
    hide Core, Listed, FdCloseOnExecFrom;
    if s.cursor.Some? && s.tasks[s.cursor.value].state.ExecPending? {
      var p := s.cursor.value;
      PendingIsIdle(s, p);
      ClosedOnExecFrom(s, p, 0);
    }
  }

  lemma {:induction false} CallUntil(run: nat -> State, ops: nat -> Op, p: Pid, i: nat, n: nat)
    requires forall k: nat :: run(k + 1) == Step(run(k), ops(k))
    requires Inv(run(i)) && p in run(i).tasks && i <= n
    requires forall k :: i <= k < n ==> Waiting(run(k), p) && !Picks(run(k), ops(k), p)
    ensures Inv(run(n)) && p in run(n).tasks && run(n).tasks[p].call == run(i).tasks[p].call
    decreases n
  {
    hide Inv, Step, Picks;
    if i < n {
      CallUntil(run, ops, p, i, n - 1);
      StepKeeps(run(n - 1), ops(n - 1));
      WaitingUntouched(run(n - 1), ops(n - 1), p);
      assert run(n - 1 + 1) == Step(run(n - 1), ops(n - 1));
    }
  }

  /** p is back in its program, or was interrupted. */
  ghost predicate PollOver(s: State, p: Pid) {
    s.current == Some(p) || ExitedWith(s, p, 130)
  }

  /**
   On every infinite run whose picks never cease, a poll with a timeout returns:
   once a round of the scheduler finds its time over, and the clock does not go
   back before that moment, its task is picked and the call is over.
   */
  lemma PollTimesOut(supported: bool, run: nat -> State, ops: nat -> Op, nextPick: nat -> nat, p: Pid, i: nat)
    returns (n: nat)
    requires run(0) == Boot(supported)
    requires forall k: nat :: run(k + 1) == Step(run(k), ops(k))
    requires forall k: nat :: nextPick(k) >= k && IsPick(run(nextPick(k)), ops(nextPick(k)))
    requires p in run(i).tasks && ops(i).Tick? && TimeIsUp(run(i).tasks[p], ops(i).env.now)
    requires forall k: nat :: k > i && ops(k).Pick? ==> TimeIsUp(run(i).tasks[p], ops(k).env.now)
    ensures i < n && PollOver(run(n), p)
  {
    hide Inv, Step, Scheduling, Picked;
    RunIsReachable(supported, run, ops, i);
    StepKeeps(run(i), ops(i));
    TickWakesWhom(run(i), ops(i).env);
    assert run(i + 1) == Step(run(i), ops(i));
    var e := EventuallyPicked(run, ops, nextPick, p, i + 1, nextPick(i + 1));
    CallUntil(run, ops, p, i + 1, e);
    PickOfPoll(run(e), ops(e), p, run(i).tasks[p]);
    assert run(e + 1) == Step(run(e), ops(e));
    n := e + 1;
  }

  lemma PickOfPoll(s: State, op: Op, p: Pid, t: Task)
    requires Inv(s) && Picks(s, op, p) && p in s.tasks && s.tasks[p].call == t.call && TimeIsUp(t, op.env.now)
    ensures PollOver(Step(s, op), p)
  {
    hide Core, Listed, Turns, Step, Picked, ReportedSet;
    if s.tasks[p].pending {
      InterruptBeforeReturn(s, op.env);
    } else {
      PollGoesRound(s, p, op.env);
    }
  }
}
