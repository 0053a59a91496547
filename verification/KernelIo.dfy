/** Pipe transfers, polling and descriptor calls of the running task. */
module KernelIo {
  import opened Common
  import opened KernelState
  import opened KernelInvariant
  import opened KernelDescriptors
  import opened KernelCalls

  // ----- Pipe transfers --------------------------------------------------------

  /** A transfer on q: new contents and logs that keep FIFO order; everybody who waits is woken. */
  ghost predicate Transfer(s: State, s': State, q: PipeId) {
    && q in s.pipes && q in s'.pipes
    && s'.pipes == s.pipes[q := s.pipes[q].(contents := s'.pipes[q].contents)]
    && s' == s.(pipes := s'.pipes, tasks := WakePipeTasks(s.tasks),
                hist := s.hist.(sent := s'.hist.sent, received := s'.hist.received))
    && |s'.pipes[q].contents| <= PIPE_SIZE
  }

  lemma PipesAfterTransfer(files: map<FileId, OpenFile>, pipes: map<PipeId, Pipe>, q: PipeId, c: seq<Byte>)
    requires Pipes(files, pipes) && q in pipes && |c| <= PIPE_SIZE
    ensures Pipes(files, pipes[q := pipes[q].(contents := c)])
  {
    forall r | r in pipes ensures PipeOk(files, r, pipes[q := pipes[q].(contents := c)][r]) {
      assert PipeOk(files, r, pipes[r]);
    }
  }

  lemma Transferred(s: State, s': State, p: Pid, q: PipeId)
    requires Acting(s, p) && Transfer(s, s', q)
    requires Fifo(s'.pipes, s'.hist.sent, s'.hist.received)
    requires PipeIds(s'.pipes, s'.nextPipe, s'.hist.sent, s'.hist.received)
    ensures Acting(s', p) && s'.tasks[p] == s.tasks[p]
  {
    hide Shape, Counts, Pipes, Fifo, PipeIds, FileIds, Owned, IoWaits, ChildWaits, Interrupts, Deaths, Reaps,
         Listed, Wakes, TasksFrame;
    PipeWakes(s.tasks);
    WakesKeep(s, WakePipeTasks(s.tasks), multiset{});
    PipesAfterTransfer(s.files, s.pipes, q, s'.pipes[q].contents);
    WokenWaitForNothing(s.tasks, s.files, s.pipes, s.files, s'.pipes);
    assert s'.tasks.Keys == s.tasks.Keys;
  }

  function Taken(s: State, q: PipeId, amount: nat): State
    requires q in s.pipes && amount <= |s.pipes[q].contents|
  {
    var c := s.pipes[q].contents;
    s.(pipes := s.pipes[q := s.pipes[q].(contents := c[amount..])],
       tasks := WakePipeTasks(s.tasks),
       hist := s.hist.(received := s.hist.received[q := Log(s.hist.received, q) + c[..amount]]))
  }

  lemma FifoAfterTake(pipes: map<PipeId, Pipe>, sent: map<PipeId, seq<Byte>>, received: map<PipeId, seq<Byte>>,
                      q: PipeId, amount: nat)
    requires Fifo(pipes, sent, received) && q in pipes && amount <= |pipes[q].contents|
    ensures Fifo(pipes[q := pipes[q].(contents := pipes[q].contents[amount..])], sent,
                 received[q := Log(received, q) + pipes[q].contents[..amount]])
  {
    var c := pipes[q].contents;
    assert Log(received, q) + c == Log(received, q) + c[..amount] + c[amount..];
  }

  lemma FifoAfterPush(pipes: map<PipeId, Pipe>, sent: map<PipeId, seq<Byte>>, received: map<PipeId, seq<Byte>>,
                      q: PipeId, bytes: seq<Byte>)
    requires Fifo(pipes, sent, received) && q in pipes
    ensures Fifo(pipes[q := pipes[q].(contents := pipes[q].contents + bytes)],
                 sent[q := Log(sent, q) + bytes], received)
  {
    var c := pipes[q].contents;
    assert Log(received, q) + (c + bytes) == Log(sent, q) + bytes;
  }

  lemma PipeBounded(s: State, q: PipeId)
    requires Core(s, multiset{}) && q in s.pipes
    ensures |s.pipes[q].contents| <= PIPE_SIZE
    ensures s.pipes[q].readers >= 0 && s.pipes[q].writers >= 0
    ensures q < s.nextPipe
  {
    assert PipeOk(s.files, q, s.pipes[q]);
  }

  lemma TakenFrom(s: State, p: Pid, q: PipeId, amount: nat)
    requires Acting(s, p) && q in s.pipes && amount <= |s.pipes[q].contents|
    ensures Acting(Taken(s, q, amount), p) && Steady(s, Taken(s, q, amount), p)
  {
    hide Core, Pipes, Others, Listed;
    var s' := Taken(s, q, amount);
    PipeBounded(s, q);
    assert Fifo(s.pipes, s.hist.sent, s.hist.received) &&
           PipeIds(s.pipes, s.nextPipe, s.hist.sent, s.hist.received) by { CoreHasFifo(s); }
    FifoAfterTake(s.pipes, s.hist.sent, s.hist.received, q, amount);
    Transferred(s, s', p, q);
  }

  lemma CoreHasFifo(s: State)
    requires Core(s, multiset{})
    ensures Fifo(s.pipes, s.hist.sent, s.hist.received)
    ensures PipeIds(s.pipes, s.nextPipe, s.hist.sent, s.hist.received)
  {
    hide Shape, Counts, Pipes, FileIds, Owned, IoWaits, ChildWaits, Interrupts, Deaths, Reaps;
  }

  lemma Pushed(s: State, p: Pid, q: PipeId, bytes: seq<Byte>)
    requires Acting(s, p) && q in s.pipes && |s.pipes[q].contents| + |bytes| <= PIPE_SIZE
    ensures Acting(Push(s, q, bytes), p) && Push(s, q, bytes).tasks[p] == s.tasks[p]
    ensures Push(s, q, bytes).files == s.files && Steady(s, Push(s, q, bytes), p)
  {
    hide Core, Pipes, Others, Listed;
    var s' := Push(s, q, bytes);
    PipeBounded(s, q);
    CoreHasFifo(s);
    FifoAfterPush(s.pipes, s.hist.sent, s.hist.received, q, bytes);
    Transferred(s, s', p, q);
  }

  /** p is inside a pipe call on the file f, an end of q. */
  ghost predicate OnPipe(s: State, p: Pid, f: FileId, q: PipeId, e: End) {
    p in s.tasks && HasFile(s.tasks[p], f) && f in s.files && s.files[f].kind == PipeEnd(q, e)
  }

  lemma PipeLives(s: State, p: Pid, f: FileId, q: PipeId, e: End)
    requires Acting(s, p) && OnPipe(s, p, f, q, e)
    ensures q in s.pipes
  {
  }

  lemma PipeReadKeeps(s: State, p: Pid, f: FileId, q: PipeId, count: nat)
    requires Acting(s, p) && OnPipe(s, p, f, q, ReadEnd)
    ensures Inv(PipeRead(s, p, f, q, count)) && Steady(s, PipeRead(s, p, f, q, count), p)
  {
    hide Core, Others, Listed, Pipes, Steady;
    PipeLives(s, p, f, q, ReadEnd);
    PipeBounded(s, q);
    var c := s.pipes[q].contents;
    if count == 0 || (c == [] && s.pipes[q].writers == 0) {
      Returned(s, p, 0);
    } else if c == [] {
      RunningIsCalm(s, p);
      BlockedAs(s, p, BlockedPipe, PipeReadCall(f, q, count));
    } else {
      var s1 := Taken(s, q, Min(count, |c|));
      TakenFrom(s, p, q, Min(count, |c|));
      Returned(s1, p, Min(count, |c|));
      SteadyTrans(s, s1, Return(s1, p, Min(count, |c|)), p);
    }
  }

  /** A running task is neither exec-pending nor dead. */
  lemma RunningIsCalm(s: State, p: Pid)
    requires Acting(s, p)
    ensures InterruptOk(s.tasks[p]) && s.tasks[p].execTarget.None?
  {
    hide Shape, Counts, Pipes, Fifo, PipeIds, FileIds, Owned, IoWaits, ChildWaits, Deaths, Reaps, Listed, Others;
    assert InterruptOk(s.tasks[p]);
  }

  lemma PipeWriteKeeps(s: State, p: Pid, f: FileId, q: PipeId, data: seq<Byte>, total: nat)
    requires Acting(s, p) && OnPipe(s, p, f, q, WriteEnd)
    ensures Inv(PipeWrite(s, p, f, q, data, total)) && Steady(s, PipeWrite(s, p, f, q, data, total), p)
    decreases |data| - total
  {
    hide Core, Others, Listed, Pipes, Steady;
    PipeLives(s, p, f, q, WriteEnd);
    PipeBounded(s, q);
    var c := s.pipes[q].contents;
    if total >= |data| {
      Returned(s, p, total);
    } else if s.pipes[q].readers == 0 {
      Returned(s, p, if total == 0 then -1 else total);
    } else if |c| >= PIPE_SIZE {
      RunningIsCalm(s, p);
      BlockedAs(s, p, BlockedPipe, PipeWriteCall(f, q, data, total));
    } else {
      var amount := Min(|data| - total, PIPE_SIZE - |c|);
      var s1 := Push(s, q, data[total..total + amount]);
      Pushed(s, p, q, data[total..total + amount]);
      PipeWriteKeeps(s1, p, f, q, data, total + amount);
      SteadyTrans(s, s1, PipeWrite(s1, p, f, q, data, total + amount), p);
    }
  }

  // ----- Poll and console -------------------------------------------------------

  /** Console readiness can only add to what a poll reports. */
  lemma PollReadyMonotone(s: State, fds: seq<FdEntry>, pf: PollFd, console: bool)
    requires !PollReady(s.files, s.pipes, fds, pf, console)
    ensures !PollReady(s.files, s.pipes, fds, pf, false)
  {
  }

  lemma PollKeeps(s: State, p: Pid, polled: seq<PollFd>, timeout: int, start: nat, env: Env)
    requires Acting(s, p)
    ensures Inv(PollPass(s, p, polled, timeout, start, env))
    ensures Steady(s, PollPass(s, p, polled, timeout, start, env), p)
  {
    hide Core, Others, Listed, PollReady, Steady;
    var ready := ReadyCount(s, s.tasks[p].fds, polled, env.consoleReady);
    if ready > 0 || timeout == 0 {
      Returned(s, p, ready);
    } else if timeout > 0 && env.now == 0 {
      Returned(s, p, -1);
    } else if timeout > 0 && (env.now - start) % CLOCK_MODULUS >= timeout {
      Returned(s, p, 0);
    } else {
      RunningIsCalm(s, p);
      forall i | 0 <= i < |polled| ensures !PollReady(s.files, s.pipes, s.tasks[p].fds, polled[i], false) {
        PollReadyMonotone(s, s.tasks[p].fds, polled[i], env.consoleReady);
      }
      BlockedAs(s, p, BlockedPoll, PollCall(polled, timeout, start));
    }
  }

  lemma ConsoleKeeps(s: State, p: Pid, env: Env)
    requires Acting(s, p)
    ensures Inv(ConsolePass(s, p, env)) && Steady(s, ConsolePass(s, p, env), p)
  {
    hide Core, Others, Listed, Steady;
    if env.consoleReady {
      Returned(s, p, 0);
    } else {
      RunningIsCalm(s, p);
      BlockedAs(s, p, BlockedConsole, ConsoleReadCall);
    }
  }

  lemma SlotLive(s: State, p: Pid, d: int, loose: multiset<FileId>)
    requires Core(s, loose) && HasSlot(s, p, d) && s.tasks[p].fds[d].file.Some?
    ensures s.tasks[p].fds[d].file.value in s.files
  {
    hide Shape, Pipes, Fifo, PipeIds, FileIds, Owned, IoWaits, ChildWaits, Interrupts, Deaths, Reaps;
  }

  lemma ReadKeeps(s: State, p: Pid, fd: int, count: nat, env: Env)
    requires Acting(s, p)
    ensures Inv(ReadCall(s, p, fd, count, env)) && Steady(s, ReadCall(s, p, fd, count, env), p)
  {
    hide Core, Others, Listed, Steady;
    if SlotFile(s, p, fd).None? {
      Returned(s, p, -1);
    } else {
      var f := SlotFile(s, p, fd).value;
      SlotLive(s, p, fd, multiset{});
      match s.files[f].kind
      case PipeEnd(q, ReadEnd) => PipeReadKeeps(s, p, f, q, count);
      case ConsoleIn => if count == 0 { Returned(s, p, 0); } else { ConsoleKeeps(s, p, env); }
      case NodeFile(true, _) => Returned(s, p, 0);
      case _ => Returned(s, p, -1);
    }
  }

  lemma WriteKeeps(s: State, p: Pid, fd: int, data: seq<Byte>)
    requires Acting(s, p)
    ensures Inv(WriteCall(s, p, fd, data)) && Steady(s, WriteCall(s, p, fd, data), p)
  {
    hide Core, Others, Listed, Steady;
    if SlotFile(s, p, fd).None? {
      Returned(s, p, -1);
    } else {
      var f := SlotFile(s, p, fd).value;
      SlotLive(s, p, fd, multiset{});
      match s.files[f].kind
      case PipeEnd(q, WriteEnd) => PipeWriteKeeps(s, p, f, q, data, 0);
      case ConsoleOut => Returned(s, p, |data|);
      case NodeFile(_, true) => Returned(s, p, |data|);
      case _ => Returned(s, p, -1);
    }
  }

  // ----- Descriptor calls --------------------------------------------------------

  /** p runs and is outside any call, as at the start of every API function. */
  ghost predicate Calling(s: State, p: Pid) {
    Acting(s, p) && s.tasks[p].call.NoCall? && |s.tasks[p].fds| == MAX_FDS
  }

  lemma ActingHasSlots(s: State, p: Pid)
    requires Acting(s, p)
    ensures |s.tasks[p].fds| == MAX_FDS
  {
  }

  /** The end of a descriptor call: the frame and the invariant are enough to return. */
  lemma FinishCall(s: State, s': State, p: Pid, r: int)
    requires Calling(s, p) && Frame(s, s', p) && Core(s', multiset{})
    ensures p in s'.tasks && Inv(Return(s', p, r)) && Steady(s, Return(s', p, r), p)
  {
    hide Core, Frame, Others, Listed, Steady;
    StillActing(s, s', p);
    Returned(s', p, r);
    FrameSteady(s, s', p);
    SteadyTrans(s, s', Return(s', p, r), p);
  }

  /** fd_install of a loose reference in a free slot. */
  lemma Installed(s: State, p: Pid, d: int, f: FileId, loose: multiset<FileId>, flag: bool := false)
    requires Core(s, loose) && HasSlot(s, p, d) && s.tasks[p].call.NoCall? && !s.tasks[p].state.Zombie?
    requires s.tasks[p].fds[d].file.None? && f in loose
    ensures Core(SetSlot(s, p, d, FdEntry(Some(f), flag)), loose - multiset{f})
    ensures Frame(s, SetSlot(s, p, d, FdEntry(Some(f), flag)), p)
  {
    hide Core, Frame;
    assert loose - multiset{f} + multiset{f} == loose;
    SlotChanged(s, p, d, FdEntry(Some(f), flag), loose, loose - multiset{f});
  }

  lemma CloseKeeps(s: State, p: Pid, fd: int)
    requires Calling(s, p)
    ensures Inv(ApiStep(s, p, Close(fd), Env(false, 0))) && Steady(s, ApiStep(s, p, Close(fd), Env(false, 0)), p)
  {
    hide Core, Frame, Others, Listed, Steady;
    if SlotFile(s, p, fd).None? {
      Returned(s, p, -1);
    } else {
      FdClosed(s, p, fd, multiset{});
      FinishCall(s, FdClose(s, p, fd), p, 0);
    }
  }

  lemma DupKeeps(s: State, p: Pid, fd: int)
    requires Calling(s, p)
    ensures Inv(DupFd(s, p, fd)) && Steady(s, DupFd(s, p, fd), p)
  {
    hide Core, Frame, Others, Listed, Steady;
    if SlotFile(s, p, fd).None? {
      Returned(s, p, -1);
    } else {
      var f := SlotFile(s, p, fd).value;
      var d := FirstFree(s.tasks[p].fds, 0);
      SlotLive(s, p, fd, multiset{});
      Retained(s, f, multiset{});
      var s1 := Retain(s, f);
      assert multiset{} + multiset{f} == multiset{f};
      assert multiset{f} - multiset{f} == multiset{};
      if d >= |s.tasks[p].fds| {
        Released(s1, f, multiset{f});
        FrameTrans(s, s1, Release(s1, f), p);
        FinishCall(s, Release(s1, f), p, -1);
      } else {
        Installed(s1, p, d, f, multiset{f});
        FrameTrans(s, s1, SetSlot(s1, p, d, FdEntry(Some(f), false)), p);
        FinishCall(s, SetSlot(s1, p, d, FdEntry(Some(f), false)), p, d);
      }
    }
  }

  /** fd_install_at with a file that another slot of the same task holds. */
  lemma InstalledAt(s: State, p: Pid, from: int, to: int)
    requires Core(s, multiset{}) && HasSlot(s, p, from) && HasSlot(s, p, to)
    requires s.tasks[p].call.NoCall? && !s.tasks[p].state.Zombie?
    requires from != to && s.tasks[p].fds[from].file.Some?
    ensures var s' := FdInstallAt(s, p, s.tasks[p].fds[from].file.value, to, true);
      && Core(s', multiset{}) && Frame(s, s', p)
      && p in s'.tasks
      && s'.tasks[p].fds == s.tasks[p].fds[to := FdEntry(s.tasks[p].fds[from].file, false)]
  {
    hide Core, Frame;
    var f := s.tasks[p].fds[from].file.value;
    var s1 := FdClose(s, p, to);
    FdClosed(s, p, to, multiset{});
    FrameOwner(s, s1, p, multiset{});
    assert s1.tasks[p].fds[to].file.None? && s1.tasks[p].fds[from] == s.tasks[p].fds[from];
    assert s1.tasks[p].fds[to := EMPTY_SLOT] == s.tasks[p].fds[to := EMPTY_SLOT];
    SlotLive(s1, p, from, multiset{});
    // the slot is written before the file is retained: the order of the two does not show
    var s2 := Retain(s1, f);
    Retained(s1, f, multiset{});
    assert multiset{} + multiset{f} == multiset{f};
    assert multiset{f} - multiset{f} == multiset{};
    var e := FdEntry(Some(f), false);
    Installed(s2, p, to, f, multiset{f});
    var s3 := SetSlot(s2, p, to, e);
    assert s3 == Retain(SetSlot(s1, p, to, e), f);
    FrameTrans(s, s1, s2, p);
    FrameTrans(s, s2, s3, p);
    assert s3.tasks[p].fds == s.tasks[p].fds[to := e];
  }

  lemma Dup2Keeps(s: State, p: Pid, oldFd: int, newFd: int)
    requires Calling(s, p)
    ensures Inv(DupFd2(s, p, oldFd, newFd)) && Steady(s, DupFd2(s, p, oldFd, newFd), p)
  {
    hide Core, Frame, Others, Listed, Steady;
    if SlotFile(s, p, oldFd).None? || !(0 <= newFd < MAX_FDS) {
      Returned(s, p, -1);
    } else if oldFd == newFd {
      Returned(s, p, newFd);
    } else {
      InstalledAt(s, p, oldFd, newFd);
      FinishCall(s, FdInstallAt(s, p, SlotFile(s, p, oldFd).value, newFd, true), p, newFd);
    }
  }

  lemma CloexecKeeps(s: State, p: Pid, fd: int, enabled: bool)
    requires Calling(s, p)
    ensures Inv(ApiStep(s, p, SetCloexec(fd, enabled), Env(false, 0)))
    ensures Steady(s, ApiStep(s, p, SetCloexec(fd, enabled), Env(false, 0)), p)
  {
    hide Core, Frame, Others, Listed, Steady;
    if SlotFile(s, p, fd).None? {
      Returned(s, p, -1);
    } else {
      var e := s.tasks[p].fds[fd].(closeOnExec := enabled);
      SlotChanged(s, p, fd, e, multiset{}, multiset{});
      FinishCall(s, SetSlot(s, p, fd, e), p, 0);
    }
  }

  lemma OpenKeeps(s: State, p: Pid, canRead: bool, canWrite: bool)
    requires Calling(s, p)
    ensures var s' := InstallOrRelease(CreateFile(s, NodeFile(canRead, canWrite)), p, s.nextFile);
      Inv(s') && Steady(s, s', p)
  {
    hide Core, Frame, Others, Listed, Steady;
    var f := s.nextFile;
    var s1 := CreateFile(s, NodeFile(canRead, canWrite));
    CreatedFile(s, NodeFile(canRead, canWrite), multiset{});
    assert multiset{} + multiset{f} == multiset{f};
    assert multiset{f} - multiset{f} == multiset{};
    var d := FirstFree(s1.tasks[p].fds, 0);
    if d < |s1.tasks[p].fds| {
      Installed(s1, p, d, f, multiset{f});
      FrameTrans(s, s1, SetSlot(s1, p, d, FdEntry(Some(f), false)), p);
      FinishCall(s, SetSlot(s1, p, d, FdEntry(Some(f), false)), p, d);
    } else {
      Released(s1, f, multiset{f});
      FrameTrans(s, s1, Release(s1, f), p);
      FinishCall(s, Release(s1, f), p, -1);
    }
  }

  // ----- api_pipe -------------------------------------------------------------------

  /** The state of api_pipe once both ends exist and belong to local variables. */
  function BothEnds(s: State): State {
    CreateEnd(CreateEnd(s, s.nextPipe, ReadEnd), s.nextPipe, WriteEnd)
  }

  lemma BothEndsCreated(s: State, p: Pid)
    requires Core(s, multiset{})
    ensures Core(BothEnds(s), multiset{s.nextFile, s.nextFile + 1})
    ensures Frame(s, BothEnds(s), p) && BothEnds(s).tasks == s.tasks
  {
    hide Core, Frame;
    var s1 := CreateEnd(s, s.nextPipe, ReadEnd);
    EndCreated(s, s.nextPipe, ReadEnd, multiset{});
    assert multiset{} + multiset{s.nextFile} == multiset{s.nextFile};
    EndCreated(s1, s.nextPipe, WriteEnd, multiset{s.nextFile});
    assert multiset{s.nextFile} + multiset{s.nextFile + 1} == multiset{s.nextFile, s.nextFile + 1};
    FrameTrans(s, s1, BothEnds(s), p);
  }

  /** Dropping both loose ends again. */
  lemma BothEndsDropped(s: State, s2: State, p: Pid, reader: FileId, writer: FileId)
    requires Calling(s, p) && Frame(s, s2, p) && Core(s2, multiset{reader, writer})
    ensures var s3 := Release(Release(s2, reader), writer); Frame(s, s3, p) && Core(s3, multiset{})
  {
    hide Core, Frame, Others, Listed, Steady;
    Released(s2, reader, multiset{reader, writer});
    assert multiset{reader, writer} - multiset{reader} == multiset{writer};
    var s3 := Release(s2, reader);
    Released(s3, writer, multiset{writer});
    assert multiset{writer} - multiset{writer} == multiset{};
    FrameTrans(s, s2, s3, p);
    FrameTrans(s, s3, Release(s3, writer), p);
  }

  lemma NoWriterKeeps(s: State, p: Pid)
    requires Calling(s, p)
    ensures var s2 := Release(CreateEnd(s, s.nextPipe, ReadEnd), s.nextFile);
      p in s2.tasks && Inv(Return(s2, p, -1)) && Steady(s, Return(s2, p, -1), p)
  {
    hide Core, Frame, Others, Listed, Steady;
    var s1 := CreateEnd(s, s.nextPipe, ReadEnd);
    EndCreated(s, s.nextPipe, ReadEnd, multiset{});
    assert multiset{} + multiset{s.nextFile} == multiset{s.nextFile};
    Released(s1, s.nextFile, multiset{s.nextFile});
    assert multiset{s.nextFile} - multiset{s.nextFile} == multiset{};
    FrameTrans(s, s1, Release(s1, s.nextFile), p);
    FinishCall(s, Release(s1, s.nextFile), p, -1);
  }

  /** Installing the read end, then the write end or, with no slot left, undoing both. */
  lemma EndsInstalled(s: State, p: Pid, d: nat)
    requires Calling(s, p) && d == FirstFree(s.tasks[p].fds, 0) && d < MAX_FDS
    ensures var s3 := SetSlot(BothEnds(s), p, d, FdEntry(Some(s.nextFile), false));
      && p in s3.tasks && |s3.tasks[p].fds| == MAX_FDS
      && var e := FirstFree(s3.tasks[p].fds, 0);
         if e < MAX_FDS then
           var s4 := Return(SetSlot(s3, p, e, FdEntry(Some(s.nextFile + 1), false)), p, 0);
           Inv(s4) && Steady(s, s4, p)
         else
           var s4 := Release(FdClose(s3, p, d), s.nextFile + 1);
           p in s4.tasks && Inv(Return(s4, p, -1)) && Steady(s, Return(s4, p, -1), p)
  {
    hide Core, Frame, Others, Listed, Steady;
    var reader, writer := s.nextFile, s.nextFile + 1;
    var s2 := BothEnds(s);
    BothEndsCreated(s, p);
    Installed(s2, p, d, reader, multiset{reader, writer});
    assert multiset{reader, writer} - multiset{reader} == multiset{writer};
    var s3 := SetSlot(s2, p, d, FdEntry(Some(reader), false));
    FrameTrans(s, s2, s3, p);
    var e := FirstFree(s3.tasks[p].fds, 0);
    assert multiset{writer} - multiset{writer} == multiset{};
    if e < MAX_FDS {
      Installed(s3, p, e, writer, multiset{writer});
      var s4 := SetSlot(s3, p, e, FdEntry(Some(writer), false));
      FrameTrans(s, s3, s4, p);
      FinishCall(s, s4, p, 0);
    } else {
      FdClosed(s3, p, d, multiset{writer});
      var s4 := FdClose(s3, p, d);
      Released(s4, writer, multiset{writer});
      FrameTrans(s, s3, s4, p);
      FrameTrans(s, s4, Release(s4, writer), p);
      FinishCall(s, Release(s4, writer), p, -1);
    }
  }

  lemma PipeCallKeeps(s: State, p: Pid, readerAllocated: bool, writerAllocated: bool)
    requires Calling(s, p)
    ensures Inv(PipeCall(s, p, readerAllocated, writerAllocated))
    ensures Steady(s, PipeCall(s, p, readerAllocated, writerAllocated), p)
  {
    hide Core, Frame, Others, Listed, Inv, FdClose, Release, Steady;
    var d := FirstFree(s.tasks[p].fds, 0);
    if !readerAllocated {
      Returned(s, p, -1);
    } else if !writerAllocated {
      NoWriterKeeps(s, p);
    } else if d >= |s.tasks[p].fds| {
      BothEndsCreated(s, p);
      BothEndsDropped(s, BothEnds(s), p, s.nextFile, s.nextFile + 1);
      FinishCall(s, Release(Release(BothEnds(s), s.nextFile), s.nextFile + 1), p, -1);
    } else {
      EndsInstalled(s, p, d);
    }
  }
}
