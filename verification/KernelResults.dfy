/**
 What each kernel call answers, and what it leaves in the caller's descriptor
 table, in the pipe and in the task list, said of the states before and after.
 */
module KernelResults {
  import opened Common
  import opened KernelState
  import opened KernelInvariant
  import opened KernelDescriptors
  import opened KernelCalls
  import opened KernelIo
  import opened KernelLife
  import opened KernelRuns
  import opened KernelSlots
  import opened KernelPolls

  /** The running task p and its descriptor table. */
  ghost predicate At(s: State, p: Pid) {
    Inv(s) && s.current == Some(p)
  }

  lemma Caller(s: State, p: Pid)
    requires At(s, p)
    ensures Calling(s, p)
  {
    InvIsActing(s);
    ActingHasSlots(s, p);
  }

  predicate OpenAt(t: Task, d: int) {
    0 <= d < |t.fds| && t.fds[d].file.Some?
  }

  /** p goes on with result r and this table. */
  ghost predicate Answers(s': State, p: Pid, r: int, fds: seq<FdEntry>) {
    s'.current == Some(p) && p in s'.tasks && s'.tasks[p].ret == r && s'.tasks[p].fds == fds
  }

  /** d is the lowest free slot. */
  predicate LowestFreeSlot(fds: seq<FdEntry>, d: int) {
    0 <= d < |fds| && fds[d].file.None? && forall k :: 0 <= k < d ==> fds[k].file.Some?
  }

  predicate TableFull(fds: seq<FdEntry>) {
    forall k :: 0 <= k < |fds| ==> fds[k].file.Some?
  }

  // ----- Descriptor calls -----------------------------------------------------------

  /** close empties the slot, or refuses a closed one. */
  lemma CloseAnswers(s: State, p: Pid, fd: int, env: Env)
    requires At(s, p)
    ensures p in s.tasks
    ensures var s' := Step(s, Api(Close(fd), env));
      var t := s.tasks[p];
      if OpenAt(t, fd) then Answers(s', p, 0, t.fds[fd := FdEntry(None, false)]) else Answers(s', p, -1, t.fds)
  {
    hide Core, Frame, Others, Listed, Inv, Steady;
    Caller(s, p);
    if OpenAt(s.tasks[p], fd) {
      FdClosed(s, p, fd, multiset{});
      StillActing(s, FdClose(s, p, fd), p);
    }
  }

  /** dup puts the same file in the lowest free slot, without its close-on-exec flag. */
  lemma DupAnswers(s: State, p: Pid, fd: int, env: Env)
    requires At(s, p)
    ensures p in s.tasks
    ensures var s' := Step(s, Api(Dup(fd), env));
      var t := s.tasks[p];
      if !OpenAt(t, fd) || TableFull(t.fds) then Answers(s', p, -1, t.fds)
      else
        && p in s'.tasks && LowestFreeSlot(t.fds, s'.tasks[p].ret)
        && Answers(s', p, s'.tasks[p].ret, t.fds[s'.tasks[p].ret := FdEntry(t.fds[fd].file, false)])
  {
    hide Core, Others, Listed, Inv;
    Caller(s, p);
    var t := s.tasks[p];
    if OpenAt(t, fd) {
      var f := SlotFile(s, p, fd).value;
      var d := FirstFree(t.fds, 0);
      SlotLive(s, p, fd, multiset{});
      if d >= |t.fds| {
        Retained(s, f, multiset{});
        assert multiset{} + multiset{f} == multiset{f};
        Released(Retain(s, f), f, multiset{f});
        FrameOwner2(Retain(s, f), Release(Retain(s, f), f), p, multiset{f});
      } else {
        assert !TableFull(t.fds);
      }
    }
  }

  /** dup2 makes newFd another name of oldFd's file, without the flag; onto itself it does nothing. */
  lemma Dup2Answers(s: State, p: Pid, oldFd: int, newFd: int, env: Env)
    requires At(s, p)
    ensures p in s.tasks
    ensures var s' := Step(s, Api(Dup2(oldFd, newFd), env));
      var t := s.tasks[p];
      if !OpenAt(t, oldFd) || newFd < 0 || newFd >= 64 then Answers(s', p, -1, t.fds)
      else if oldFd == newFd then Answers(s', p, newFd, t.fds)
      else |t.fds| == 64 && Answers(s', p, newFd, t.fds[newFd := FdEntry(t.fds[oldFd].file, false)])
  {
    hide Core, Frame, Others, Listed, Inv, Steady, FdInstallAt;
    Caller(s, p);
    if OpenAt(s.tasks[p], oldFd) && 0 <= newFd < MAX_FDS && oldFd != newFd {
      InstalledAt(s, p, oldFd, newFd);
      StillActing(s, FdInstallAt(s, p, SlotFile(s, p, oldFd).value, newFd, true), p);
    }
  }

  lemma CloexecAnswers(s: State, p: Pid, fd: int, enabled: bool, env: Env)
    requires At(s, p)
    ensures p in s.tasks
    ensures var s' := Step(s, Api(SetCloexec(fd, enabled), env));
      var t := s.tasks[p];
      if OpenAt(t, fd) then Answers(s', p, 0, t.fds[fd := FdEntry(t.fds[fd].file, enabled)])
      else Answers(s', p, -1, t.fds)
  {
    hide Core, Others, Listed, Inv;
    Caller(s, p);
  }

  /** open: a new file of the mode asked for, in the lowest free slot. */
  lemma OpenAnswers(s: State, p: Pid, canRead: bool, canWrite: bool, env: Env)
    requires At(s, p)
    ensures p in s.tasks
    ensures var s' := Step(s, Api(Open(canRead, canWrite), env));
      var t := s.tasks[p];
      if TableFull(t.fds) then Answers(s', p, -1, t.fds) && s'.files == s.files
      else
        && p in s'.tasks && LowestFreeSlot(t.fds, s'.tasks[p].ret)
        && Answers(s', p, s'.tasks[p].ret, t.fds[s'.tasks[p].ret := FdEntry(Some(s.nextFile), false)])
        && s.nextFile !in s.files
        && s'.files == s.files[s.nextFile := OpenFile(1, NodeFile(canRead, canWrite))]
  {
    hide Core, Others, Listed, Inv;
    Caller(s, p);
    NewFileIsNew(s);
    var t := s.tasks[p];
    var s1 := CreateFile(s, NodeFile(canRead, canWrite));
    if FirstFree(t.fds, 0) >= |t.fds| {
      assert s1.files - {s.nextFile} == s.files;
    } else {
      assert !TableFull(t.fds);
    }
  }

  lemma NewFileIsNew(s: State)
    requires Core(s, multiset{})
    ensures s.nextFile !in s.files && s.nextPipe !in s.pipes
  {
    hide Shape, Counts, Pipes, Fifo, Owned, IoWaits, ChildWaits, Interrupts, Deaths, Reaps;
  }

  // ----- Pipe reads and writes --------------------------------------------------------

  ghost predicate OnEnd(s: State, p: Pid, fd: int, q: PipeId, e: End) {
    p in s.tasks && OpenAt(s.tasks[p], fd) && s.tasks[p].fds[fd].file.value in s.files
    && s.files[s.tasks[p].fds[fd].file.value].kind == PipeEnd(q, e)
  }

  lemma EndHasPipe(s: State, p: Pid, fd: int, q: PipeId, e: End)
    requires At(s, p) && OnEnd(s, p, fd, q, e)
    ensures q in s.pipes && PipeOk(s.files, q, s.pipes[q])
    ensures Log(s.hist.received, q) + s.pipes[q].contents == Log(s.hist.sent, q)
  {
    hide Shape, Counts, PipeIds, FileIds, Owned, IoWaits, ChildWaits, Interrupts, Deaths, Reaps, Listed, Turns;
  }

  /** The bytes that moved: from the front of the pipe to what was received. */
  ghost predicate Took(s: State, s': State, q: PipeId, n: int)
    requires q in s.pipes
  {
    && 0 <= n <= |s.pipes[q].contents| && q in s'.pipes
    && s'.pipes == s.pipes[q := s.pipes[q].(contents := s.pipes[q].contents[n..])]
    && Log(s'.hist.received, q) == Log(s.hist.received, q) + s.pipes[q].contents[..n]
    && s'.hist.sent == s.hist.sent && s'.files == s.files
  }

  /**
   read on a pipe: with bytes there it takes as many as asked for or all of
   them; without, it answers 0 when no writer is left and sleeps otherwise.
   */
  lemma ReadAnswers(s: State, p: Pid, fd: int, q: PipeId, count: nat, env: Env)
    requires At(s, p) && OnEnd(s, p, fd, q, ReadEnd)
    ensures q in s.pipes
    ensures var s' := Step(s, Api(Read(fd, count), env));
      var fds := s.tasks[p].fds;
      if count > 0 && s.pipes[q].contents == [] && Ends(s.files, q, WriteEnd) != {} then
        && s'.current.None? && p in s'.tasks && s'.tasks[p].state.BlockedPipe? && s'.pipes == s.pipes
        && s'.tasks[p].call == PipeReadCall(fds[fd].file.value, q, count)
      else
        && p in s'.tasks && Answers(s', p, s'.tasks[p].ret, fds) && Took(s, s', q, s'.tasks[p].ret)
        && s'.tasks[p].ret <= count
        && (s'.tasks[p].ret == count || s'.pipes[q].contents == [])
  {
    hide Core, Others, Listed, Inv, PipeRead, Took, Ends;
    Caller(s, p);
    EndHasPipe(s, p, fd, q, ReadEnd);
    assert |Ends(s.files, q, WriteEnd)| == 0 <==> Ends(s.files, q, WriteEnd) == {};
    ReadTakes(s, p, s.tasks[p].fds[fd].file.value, q, count);
  }

  lemma ReadTakes(s: State, p: Pid, f: FileId, q: PipeId, count: nat)
    requires q in s.pipes && p in s.tasks && s.tasks[p].state.Running? && s.current == Some(p)
    ensures var s' := PipeRead(s, p, f, q, count);
      if count > 0 && s.pipes[q].contents == [] && s.pipes[q].writers != 0 then
        && s'.current.None? && p in s'.tasks && s'.tasks[p].state.BlockedPipe? && s'.pipes == s.pipes
        && s'.tasks[p].call == PipeReadCall(f, q, count)
      else
        && p in s'.tasks && Answers(s', p, s'.tasks[p].ret, s.tasks[p].fds) && Took(s, s', q, s'.tasks[p].ret)
        && s'.tasks[p].ret <= count && (s'.tasks[p].ret == count || s'.pipes[q].contents == [])
  {
    var c := s.pipes[q].contents;
    if count == 0 || c == [] {
      assert c[0..] == c && c[..0] == [];
      assert s.pipes[q := s.pipes[q].(contents := c)] == s.pipes;
      assert Log(s.hist.received, q) + [] == Log(s.hist.received, q);
    }
  }

  /** The bytes that moved: what was sent, and the contents, grow by them. */
  ghost predicate Gave(s: State, s': State, q: PipeId, bytes: seq<Byte>)
    requires q in s.pipes
  {
    && q in s'.pipes && s'.pipes == s.pipes[q := s.pipes[q].(contents := s.pipes[q].contents + bytes)]
    && Log(s'.hist.sent, q) == Log(s.hist.sent, q) + bytes
    && s'.hist.received == s.hist.received && s'.files == s.files
  }

  /**
   The loop of a write that has moved `total` bytes so far: without a reader it
   answers -1, or the bytes moved before; otherwise it moves all the rest, or as
   much as fits and sleeps on a full pipe.
   */
  lemma WriteGives(s: State, p: Pid, f: FileId, q: PipeId, data: seq<Byte>, total: nat)
    requires q in s.pipes && p in s.tasks && s.tasks[p].state.Running? && s.current == Some(p)
    requires |s.pipes[q].contents| <= PIPE_SIZE && total <= |data|
    ensures var s' := PipeWrite(s, p, f, q, data, total);
      var room := PIPE_SIZE - |s.pipes[q].contents|;
      var rest := data[total..];
      if rest == [] then Answers(s', p, total, s.tasks[p].fds) && Gave(s, s', q, [])
      else if s.pipes[q].readers == 0 then
        Answers(s', p, if total == 0 then -1 else total, s.tasks[p].fds) && Gave(s, s', q, [])
      else if |rest| <= room then Answers(s', p, |data|, s.tasks[p].fds) && Gave(s, s', q, rest)
      else
        && s'.current.None? && p in s'.tasks && s'.tasks[p].state.BlockedPipe? && Gave(s, s', q, rest[..room])
        && s'.tasks[p].call == PipeWriteCall(f, q, data, total + room)
  {
    hide Gave;
    var room := PIPE_SIZE - |s.pipes[q].contents|;
    var rest := data[total..];
    GaveNothing(s, p, q);
    if rest != [] && s.pipes[q].readers != 0 {
      if |rest| <= room {
        WritesAll(s, p, f, q, data, total);
      } else if room > 0 {
        WritesSome(s, p, f, q, data, total);
      } else {
        assert rest[..room] == [];
      }
    }
  }

  lemma WritesAll(s: State, p: Pid, f: FileId, q: PipeId, data: seq<Byte>, total: nat)
    requires q in s.pipes && p in s.tasks && s.tasks[p].state.Running? && s.current == Some(p)
    requires 0 < |data| - total <= PIPE_SIZE - |s.pipes[q].contents| && s.pipes[q].readers != 0
    ensures var s' := PipeWrite(s, p, f, q, data, total);
      Answers(s', p, |data|, s.tasks[p].fds) && Gave(s, s', q, data[total..])
  {
    hide Gave;
    assert data[total..|data|] == data[total..];
    var s1 := Push(s, q, data[total..]);
    GavePushed(s, p, q, data[total..]);
    assert PipeWrite(s1, p, f, q, data, |data|) == Return(s1, p, |data|);
    GaveThenReturned(s, s1, p, q, data[total..], |data|);
  }

  lemma WritesSome(s: State, p: Pid, f: FileId, q: PipeId, data: seq<Byte>, total: nat)
    requires q in s.pipes && p in s.tasks && s.tasks[p].state.Running? && s.current == Some(p)
    requires 0 < PIPE_SIZE - |s.pipes[q].contents| < |data| - total && s.pipes[q].readers != 0
    ensures var s' := PipeWrite(s, p, f, q, data, total);
      var room := PIPE_SIZE - |s.pipes[q].contents|;
      && s'.current.None? && p in s'.tasks && s'.tasks[p].state.BlockedPipe?
      && Gave(s, s', q, data[total..][..room])
      && s'.tasks[p].call == PipeWriteCall(f, q, data, total + room)
  {
    hide Gave;
    var room := PIPE_SIZE - |s.pipes[q].contents|;
    var bytes := data[total..total + room];
    assert bytes == data[total..][..room];
    var s1 := Push(s, q, bytes);
    GavePushed(s, p, q, bytes);
    var c := PipeWriteCall(f, q, data, total + room);
    assert PipeWrite(s1, p, f, q, data, total + room) == Block(s1, p, BlockedPipe, c);
    GaveThenBlocked(s, s1, p, q, bytes, c);
  }

  lemma GaveNothing(s: State, p: Pid, q: PipeId)
    requires q in s.pipes && p in s.tasks
    ensures forall r :: Gave(s, Return(s, p, r), q, [])
    ensures forall c :: Gave(s, Block(s, p, BlockedPipe, c), q, [])
  {
    assert s.pipes[q].contents + [] == s.pipes[q].contents;
    assert s.pipes[q := s.pipes[q].(contents := s.pipes[q].contents + [])] == s.pipes;
    assert Log(s.hist.sent, q) + [] == Log(s.hist.sent, q);
  }

  lemma GavePushed(s: State, p: Pid, q: PipeId, bytes: seq<Byte>)
    requires q in s.pipes && p in s.tasks && s.tasks[p].state.Running?
    ensures Gave(s, Push(s, q, bytes), q, bytes)
    ensures Push(s, q, bytes).tasks[p] == s.tasks[p] && Push(s, q, bytes).current == s.current
    ensures Push(s, q, bytes).pipes == s.pipes[q := s.pipes[q].(contents := s.pipes[q].contents + bytes)]
  {
  }

  lemma GaveThenReturned(s: State, s1: State, p: Pid, q: PipeId, bytes: seq<Byte>, r: int)
    requires q in s.pipes && p in s1.tasks && Gave(s, s1, q, bytes)
    ensures Gave(s, Return(s1, p, r), q, bytes)
  {
  }

  lemma GaveThenBlocked(s: State, s1: State, p: Pid, q: PipeId, bytes: seq<Byte>, c: Call)
    requires q in s.pipes && p in s1.tasks && Gave(s, s1, q, bytes)
    ensures Gave(s, Block(s1, p, BlockedPipe, c), q, bytes)
  {
  }

  /** write on a pipe. */
  lemma WriteAnswers(s: State, p: Pid, fd: int, q: PipeId, data: seq<Byte>, env: Env)
    requires At(s, p) && OnEnd(s, p, fd, q, WriteEnd)
    ensures q in s.pipes
    ensures var s' := Step(s, Api(Write(fd, data), env));
      var fds := s.tasks[p].fds;
      var room := 4096 - |s.pipes[q].contents|;
      if data == [] then Answers(s', p, 0, fds) && Gave(s, s', q, [])
      else if Ends(s.files, q, ReadEnd) == {} then Answers(s', p, -1, fds) && Gave(s, s', q, [])
      else if |data| <= room then Answers(s', p, |data|, fds) && Gave(s, s', q, data)
      else
        && 0 <= room && s'.current.None? && p in s'.tasks && s'.tasks[p].state.BlockedPipe?
        && Gave(s, s', q, data[..room]) && s'.tasks[p].call == PipeWriteCall(fds[fd].file.value, q, data, room)
  {
    hide Core, Others, Listed, Inv, PipeWrite, Gave;
    Caller(s, p);
    EndHasPipe(s, p, fd, q, WriteEnd);
    assert |Ends(s.files, q, ReadEnd)| == 0 <==> Ends(s.files, q, ReadEnd) == {};
    WriteGives(s, p, s.tasks[p].fds[fd].file.value, q, data, 0);
    assert data[0..] == data;
  }

  /** A descriptor that is closed or open for the other direction only is refused, and nothing else happens. */
  lemma TransferRefused(s: State, p: Pid, fd: int, count: nat, data: seq<Byte>, env: Env)
    requires At(s, p)
    ensures p in s.tasks
    ensures var refused := s.(tasks := s.tasks[p := s.tasks[p].(ret := -1)]);
      var t := s.tasks[p];
      if !OpenAt(t, fd) then
        Step(s, Api(Read(fd, count), env)) == refused && Step(s, Api(Write(fd, data), env)) == refused
      else
        && t.fds[fd].file.value in s.files
        && var kind := s.files[t.fds[fd].file.value].kind;
        && (!CanRead(kind) ==> Step(s, Api(Read(fd, count), env)) == refused)
        && (!CanWrite(kind) ==> Step(s, Api(Write(fd, data), env)) == refused)
  {
    hide Core, Others, Listed, PipeRead, PipeWrite;
    Caller(s, p);
    if OpenAt(s.tasks[p], fd) {
      SlotLive(s, p, fd, multiset{});
    }
  }

  /** yield gives up the turn and stays runnable. */
  lemma YieldAnswers(s: State, p: Pid, env: Env)
    requires At(s, p)
    ensures p in s.tasks
    ensures Step(s, Api(Yield, env)) == s.(tasks := s.tasks[p := s.tasks[p].(state := Runnable)], current := None)
  {
    hide Core, Others, Listed;
    Caller(s, p);
  }

  // ----- Exit and wait ------------------------------------------------------------------

  /** The low eight bits of a status, two's complement for a negative one. */
  predicate LowByte(status: int, code: int) {
    0 <= code < 256 && (status - code) % 256 == 0
  }

  /** exit leaves a zombie with the low byte of the status and no descriptors; the boot task's ends the kernel. */
  lemma ExitAnswers(s: State, p: Pid, status: int, env: Env)
    requires At(s, p)
    ensures p in s.tasks
    ensures var s' := Step(s, Api(Exit(status), env));
      && s'.current.None? && s'.order == s.order && Bystanders(s.tasks, s'.tasks, p)
      && p in s'.tasks && s'.tasks[p].state.Zombie? && NoFiles(s'.tasks[p])
      && LowByte(status, s'.tasks[p].exitStatus)
      && s'.bootStatus == (if p == s.bootPid then Some(s'.tasks[p].exitStatus) else s.bootStatus)
  {
    hide Core, Frame, Others, Listed, Inv, Steady, Bystanders, FdCloseFrom, LowByte, NoFiles;
    Caller(s, p);
    ExitKeeps(s, p, status);
    SteadyMeans(s, ExitTask(s, p, status), p);
    ZombieIsEmpty(ExitTask(s, p, status), p);
    LowByteIs(status);
    ClosedFrom(s, p, 0, multiset{});
    FrameKeepsBoot(s, FdCloseFrom(s, p, 0), p);
  }

  lemma SteadyMeans(s: State, s': State, p: Pid)
    requires Steady(s, s', p)
    ensures s'.order == s.order && Bystanders(s.tasks, s'.tasks, p)
  {
  }

  lemma ZombieIsEmpty(s: State, p: Pid)
    requires Inv(s) && p in s.tasks && s.tasks[p].state.Zombie?
    ensures NoFiles(s.tasks[p])
  {
    hide Core, Listed, Turns, NoFiles;
    ZombieFacts(s, p);
  }

  lemma LowByteIs(status: int)
    ensures LowByte(status, status % 256)
  {
  }

  /** c is a child that a waitpid(target) of p may return. */
  ghost predicate Match(s: State, p: Pid, target: Pid, c: Pid) {
    c in s.tasks && s.tasks[c].ppid == p && (target == -1 || target == c)
  }

  ghost predicate Reapable(s: State, p: Pid, target: Pid, c: Pid) {
    Match(s, p, target, c) && s.tasks[c].state.Zombie?
  }

  /**
   waitpid: the first exited child in list order is answered, its status handed
   over and its record taken out; with no child at all it fails; otherwise it sleeps.
   */
  lemma WaitAnswers(s: State, p: Pid, target: Pid, env: Env) returns (i: nat)
    requires At(s, p)
    ensures p in s.tasks
    ensures var s' := Step(s, Api(Waitpid(target), env));
      if exists c :: Reapable(s, p, target, c) then
        && i < |s.order| && Reapable(s, p, target, s.order[i])
        && (forall j :: 0 <= j < i ==> !Reapable(s, p, target, s.order[j]))
        && var c := s.order[i];
        && s'.tasks == (s.tasks - {c})[p := s.tasks[p].(ret := c)] && c != p
        && s'.order == s.order[..i] + s.order[i + 1..] && s'.current == Some(p)
        && s'.hist.reaps == s.hist.reaps + [Reap(p, c, s.tasks[c].exitStatus)]
      else if !exists c :: Match(s, p, target, c) then
        s' == s.(tasks := s.tasks[p := s.tasks[p].(ret := -1)])
      else
        s' == s.(tasks := s.tasks[p := s.tasks[p].(state := BlockedWait, call := WaitCall(target))], current := None)
  {
    hide Core, Others, Without, Inv, FdCloseFrom, FindZombie, Listed;
    Caller(s, p);
    ListedMeans(s.tasks.Keys, s.order);
    i := FirstZombie(s.tasks, s.order, p, target);
    if i < |s.order| {
      var c := s.order[i];
      assert Reapable(s, p, target, c);
      ZombieFacts(s, c);
      var s1 := s.(order := Without(s.order, c),
                   cursor := if s.cursor == Some(c) then None else s.cursor,
                   hist := s.hist.(reaps := s.hist.reaps + [Reap(p, c, s.tasks[c].exitStatus)]));
      NothingToClose(s1, c, 0);
      WithoutAt(s.order, i);
    } else {
      assert forall c :: Match(s, p, target, c) <==> ChildOf(s.tasks, p, target, c);
    }
  }

  lemma ListedMeans(pids: set<Pid>, order: seq<Pid>)
    requires Listed(pids, order)
    ensures forall p :: p in pids <==> p in order
    ensures forall i, j :: 0 <= i < j < |order| ==> order[i] != order[j]
  {
  }

  lemma {:induction false} WithoutAt(order: seq<Pid>, i: nat)
    requires i < |order| && forall i, j :: 0 <= i < j < |order| ==> order[i] != order[j]
    ensures Without(order, order[i]) == order[..i] + order[i + 1..]
  {
    if i > 0 {
      WithoutAt(order[1..], i - 1);
      assert order[..i] + order[i + 1..] == [order[0]] + (order[1..][..i - 1] + order[1..][i..]);
    }
  }

  lemma {:induction false} FirstZombie(tasks: map<Pid, Task>, order: seq<Pid>, p: Pid, target: Pid) returns (i: nat)
    ensures i <= |order|
    ensures forall j :: 0 <= j < i ==> !(ChildOf(tasks, p, target, order[j]) && tasks[order[j]].state.Zombie?)
    ensures i < |order| ==> ChildOf(tasks, p, target, order[i]) && tasks[order[i]].state.Zombie?
    ensures FindZombie(tasks, order, p, target) == if i < |order| then Some(order[i]) else None
  {
    if order == [] {
      i := 0;
    } else if ChildOf(tasks, p, target, order[0]) && tasks[order[0]].state.Zombie? {
      i := 0;
    } else {
      var k := FirstZombie(tasks, order[1..], p, target);
      i := k + 1;
      assert forall j :: 1 <= j < |order| ==> order[j] == order[1..][j - 1];
    }
  }

  // ----- Spawn and exec -------------------------------------------------------------------

  /**
   spawn succeeds exactly when memory is granted and no action is refused. The
   child is the new head of the list, runnable, with its caller's disposition,
   nothing pending and the caller's table after the actions; a failed spawn
   leaves the list and every table as they were.
   */
  lemma SpawnAnswers(s: State, p: Pid, supported: bool, actions: seq<Action>, vectors: bool, instance: bool, env: Env)
    requires At(s, p)
    ensures p in s.tasks
    ensures var s' := Step(s, Api(Spawn(supported, actions, vectors, instance), env));
      var child := s.nextPid + 1;
      var table := ActedAll(TableOf(s.tasks[p].fds), actions);
      && child !in s.tasks && s'.nextPid == child && s'.current == Some(p) && p in s'.tasks
      && (if vectors && instance && table.Some? then
            && s'.tasks[p].ret == child && s'.order == [child] + s.order && child in s'.tasks
            && s'.tasks[child] == Task(p, Runnable, s'.tasks[child].fds, NoCall, 0, 0, s.tasks[p].ignoring, false,
                                       supported, None)
            && TableOf(s'.tasks[child].fds) == table.value
          else s'.tasks[p].ret == -1 && s'.order == s.order && child !in s'.tasks)
  {
    hide Core, Listed, Frame, Others, Inv, AbandonTask, EmptyFds, ActedAll, SpawnTask, KernelSlots.Slots;
    Caller(s, p);
    var child := s.nextPid + 1;
    BirthBegins(s, p, supported);
    SlotsSpawned(s, p, supported, actions, vectors, instance);
    SpawnList(s, p, supported, actions, vectors, instance);
    var s' := SpawnTask(s, p, supported, actions, vectors, instance);
    TableIs(s, p);
    InTasks(s, child);
    InTasks(s', child);
    if child in s'.tasks {
      TableIs(s', child);
    }
  }

  /** The same without the tables. */
  lemma SpawnList(s: State, p: Pid, supported: bool, actions: seq<Action>, vectors: bool, instance: bool)
    requires Calling(s, p)
    ensures var s' := SpawnTask(s, p, supported, actions, vectors, instance);
      var child := s.nextPid + 1;
      && s'.current == s.current && p in s'.tasks
      && (if s'.tasks[p].ret == child then
            && s'.order == [child] + s.order && child in s'.tasks
            && s'.tasks[child] == NewTask(p, s.tasks[p].ignoring, supported).(fds := s'.tasks[child].fds)
          else s'.order == s.order)
  {
    hide Core, Listed, Frame, Others, AbandonTask, EmptyFds, CopyFdsFrom, ApplyActions;
    var c := s.nextPid + 1;
    var s1 := WithEmbryo(s, p, supported);
    BirthBegins(s, p, supported);
    var s3 := s1;
    if vectors {
      FreshSlots(s1, c, p, s.tasks[p].ignoring, supported);
      FdsCopied(s1, p, c, 0);
      var s2 := CopyFdsFrom(s1, p, c, 0);
      ActionsApplied(s2, p, c, actions);
      s3 := ApplyActions(s2, c, actions).0;
      FrameTrans(s1, s2, s3, c);
    } else {
      SameFrame(s1, c);
    }
    FrameOwner(s1, s3, c, multiset{});
    FrameOther(s1, s3, c, p);
    FrameList(s1, s3, c);
    Abandoned(s3, p, c);
  }

  lemma FrameList(s: State, s': State, p: Pid)
    requires Frame(s, s', p)
    ensures s'.order == s.order && s'.current == s.current
  {
  }

  /** A dup2 action names the file again without its flag, onto itself too; a close action empties the slot. */
  lemma ActionEntries(s: State, p: Pid, c: Pid, a: Action)
    requires Birth(s, p, c) && ActionOk(s, c, a)
    ensures var s' := ApplyAction(s, c, a);
      var fds := s.tasks[c].fds;
      && c in s'.tasks
      && match a
         case Dup2Action(from, to) =>
           && 0 <= from < |fds| && 0 <= to < |fds|
           && s'.tasks[c].fds == fds[to := FdEntry(fds[from].file, false)]
         case CloseAction(d) =>
           s'.tasks[c].fds == if OpenAt(s.tasks[c], d) then fds[d := FdEntry(None, false)] else fds
         case BadAction => true
  {
    hide Core, Frame;
    match a
    case Dup2Action(from, to) =>
      var s1 := if from == to then s else FdInstallAt(s, c, s.tasks[c].fds[from].file.value, to, true);
      if from != to {
        InstalledAt(s, c, from, to);
      }
      var fds := s.tasks[c].fds;
      assert s1.tasks[c].fds[to := s1.tasks[c].fds[to].(closeOnExec := false)]
          == fds[to := FdEntry(fds[from].file, false)];
    case CloseAction(d) =>
      if HasSlot(s, c, d) {
        FdClosed(s, c, d, multiset{});
      }
  }

  /**
   exec is refused exactly when the new program could not take an interrupt that
   is pending or ignored; otherwise the task waits for the scheduler, which
   closes the flagged descriptors and makes it runnable under the new program.
   */
  lemma ExecAnswers(s: State, p: Pid, supported: bool, env: Env)
    requires At(s, p)
    ensures p in s.tasks
    ensures var s' := Step(s, Api(Exec(supported), env));
      var t := s.tasks[p];
      if !supported && (t.pending || t.ignoring) then s' == s.(tasks := s.tasks[p := t.(ret := -1)])
      else
        var s2 := Step(s', FinishExec);
        && s'.current.None? && Picked(s') != Some(p) && !Scheduling(s')
        && p in s2.tasks && |s2.tasks[p].fds| == |t.fds| && Scheduling(s2) == s.bootStatus.None?
        && s2.tasks[p] == t.(state := Runnable, fds := s2.tasks[p].fds, supports := supported, execTarget := None)
        && (forall d :: 0 <= d < |t.fds| ==>
              s2.tasks[p].fds[d] == if t.fds[d].closeOnExec && t.fds[d].file.Some? then FdEntry(None, false)
                                    else t.fds[d])
  {
    hide Core, Listed, Frame, Others, Picked, FdCloseOnExecFrom;
    Caller(s, p);
    ExecKeeps(s, p, supported);
    var s' := ExecTask(s, p, supported);
    if supported || !(s.tasks[p].pending || s.tasks[p].ignoring) {
      assert Picked(s') != Some(p) by { PickedIsRunnable(s', p); }
      ClosedOnExecFrom(s', p, 0);
      FrameBoot(s', FdCloseOnExecFrom(s', p, 0), p);
    }
  }

  lemma PickedIsRunnable(s: State, p: Pid)
    requires p in s.tasks && !s.tasks[p].state.Runnable?
    ensures Picked(s) != Some(p)
  {
  }

  lemma FrameBoot(s: State, s': State, p: Pid)
    requires Frame(s, s', p)
    ensures s'.bootStatus == s.bootStatus && s'.current == s.current && s'.cursor == s.cursor
  {
  }

  // ----- Going on after a sleep -------------------------------------------------------------

  /** A woken read takes what is there now, or finds the last writer gone. */
  lemma ReadResumes(s: State, p: Pid, env: Env)
    requires Inv(s) && Scheduling(s) && Picked(s) == Some(p) && !s.tasks[p].pending && s.tasks[p].call.PipeReadCall?
    ensures var s' := Step(s, Pick(env));
      var c := s.tasks[p].call;
      && c.pipe in s.pipes
      && if s.pipes[c.pipe].contents == [] && Ends(s.files, c.pipe, WriteEnd) != {} then
           s'.current.None? && p in s'.tasks && s'.tasks[p].state.BlockedPipe? && s'.tasks[p].call == c
         else
           && p in s'.tasks && Answers(s', p, s'.tasks[p].ret, s.tasks[p].fds) && Took(s, s', c.pipe, s'.tasks[p].ret)
           && s'.tasks[p].ret <= c.count && (s'.tasks[p].ret == c.count || s'.pipes[c.pipe].contents == [])
  {
    hide Core, Listed, Others, Turns, Picked, PipeRead, Took;
    PickedRuns(s);
    Dispatched(s, p);
    var s1 := Dispatch(s, p);
    ActingOwns(s1, p);
    var c := s.tasks[p].call;
    PipeLives(s1, p, c.file, c.pipe, ReadEnd);
    PipeIsOk(s, c.pipe);
    ReadTakes(s1, p, c.file, c.pipe, c.count);
    TookAlike(s, s1, Step(s, Pick(env)), c.pipe);
  }

  lemma TookAlike(s: State, s1: State, s': State, q: PipeId)
    requires s1.pipes == s.pipes && s1.files == s.files && s1.hist == s.hist && q in s.pipes
    ensures forall n :: Took(s1, s', q, n) ==> Took(s, s', q, n)
  {
  }

  /** The picked task, back in its turn, as if it had not made its call yet. */
  ghost function Afresh(s: State, p: Pid): State
    requires p in s.tasks
  {
    s.(current := Some(p), cursor := Some(p), tasks := s.tasks[p := s.tasks[p].(state := Running, call := NoCall)])
  }

  /** A woken waitpid does what the same call would do now. */
  lemma WaitResumes(s: State, p: Pid, env: Env)
    requires Inv(s) && Scheduling(s) && Picked(s) == Some(p) && !s.tasks[p].pending && s.tasks[p].call.WaitCall?
    ensures Step(s, Pick(env)) == Step(Afresh(s, p), Api(Waitpid(s.tasks[p].call.target), env))
  {
    hide Core, Listed, Others, Turns, Picked, WaitPass;
    PickedRuns(s);
    Dispatched(s, p);
    WaitSame(Dispatch(s, p), Afresh(s, p), p, s.tasks[p].call.target);
  }

  lemma WaitSame(s: State, s2: State, p: Pid, target: Pid)
    requires Acting(s, p) && s2 == s.(tasks := s.tasks[p := s.tasks[p].(call := NoCall)])
    ensures WaitPass(s, p, target) == WaitPass(s2, p, target)
  {
    hide Core, Others, Without, FdCloseFrom, Listed, FindZombie;
    NotOwnParent(s, p);
    FindSame(s.tasks, s2.tasks, s.order, p, target);
    var z := FindZombie(s.tasks, s.order, p, target);
    if z.Some? {
      ZombieFacts(s, z.value);
      ReapSame(s, s2, p, target, z.value);
    } else {
      assert HasChild(s.tasks, s.order, p, target) == HasChild(s2.tasks, s.order, p, target) by {
        assert forall c :: ChildOf(s.tasks, p, target, c) <==> ChildOf(s2.tasks, p, target, c);
      }
    }
  }

  lemma ReapSame(s: State, s2: State, p: Pid, target: Pid, c: Pid)
    requires p in s.tasks && s2 == s.(tasks := s.tasks[p := s.tasks[p].(call := NoCall)])
    requires c in s.tasks && c != p && NoFiles(s.tasks[c])
    requires FindZombie(s.tasks, s.order, p, target) == Some(c) == FindZombie(s2.tasks, s.order, p, target)
    ensures WaitPass(s, p, target) == WaitPass(s2, p, target)
  {
    hide Without, FdCloseFrom, FindZombie, HasChild, NoFiles;
    var h := s.hist.(reaps := s.hist.reaps + [Reap(p, c, s.tasks[c].exitStatus)]);
    var cursor := if s.cursor == Some(c) then None else s.cursor;
    NothingToClose(s.(order := Without(s.order, c), cursor := cursor, hist := h), c, 0);
    NothingToClose(s2.(order := Without(s.order, c), cursor := cursor, hist := h), c, 0);
    assert (s.tasks - {c})[p := s.tasks[p].(call := NoCall, ret := c)]
        == (s2.tasks - {c})[p := s.tasks[p].(call := NoCall, ret := c)];
  }

  lemma {:induction false} FindSame(tasks: map<Pid, Task>, tasks2: map<Pid, Task>, order: seq<Pid>, p: Pid, target: Pid)
    requires p in tasks && tasks2 == tasks[p := tasks[p].(call := NoCall)]
    ensures FindZombie(tasks, order, p, target) == FindZombie(tasks2, order, p, target)
  {
    if order != [] {
      FindSame(tasks, tasks2, order[1..], p, target);
    }
  }

  /** A woken write goes on behind the bytes it has moved. */
  lemma WriteResumes(s: State, p: Pid, env: Env)
    requires Inv(s) && Scheduling(s) && Picked(s) == Some(p) && !s.tasks[p].pending && s.tasks[p].call.PipeWriteCall?
    ensures var s' := Step(s, Pick(env));
      var c := s.tasks[p].call;
      && c.pipe in s.pipes && |s.pipes[c.pipe].contents| <= 4096 && 0 < |c.data| - c.total
      && var room := 4096 - |s.pipes[c.pipe].contents|;
      var rest := c.data[c.total..];
      if Ends(s.files, c.pipe, ReadEnd) == {} then
        Answers(s', p, if c.total == 0 then -1 else c.total, s.tasks[p].fds) && Gave(s, s', c.pipe, [])
      else if |rest| <= room then
        Answers(s', p, |c.data|, s.tasks[p].fds) && Gave(s, s', c.pipe, rest)
      else
        && s'.current.None? && p in s'.tasks && s'.tasks[p].state.BlockedPipe? && Gave(s, s', c.pipe, rest[..room])
        && s'.tasks[p].call == c.(total := c.total + room)
  {
    hide Core, Listed, Others, Turns, Picked, PipeWrite, Gave;
    PickedRuns(s);
    Dispatched(s, p);
    var s1 := Dispatch(s, p);
    ActingOwns(s1, p);
    var c := s.tasks[p].call;
    PipeLives(s1, p, c.file, c.pipe, WriteEnd);
    PipeIsOk(s, c.pipe);
    WriteGives(s1, p, c.file, c.pipe, c.data, c.total);
    GaveAlike(s, s1, Step(s, Pick(env)), c.pipe);
  }

  lemma PipeIsOk(s: State, q: PipeId)
    requires Inv(s) && q in s.pipes
    ensures PipeOk(s.files, q, s.pipes[q])
    ensures s.pipes[q].readers == 0 <==> Ends(s.files, q, ReadEnd) == {}
    ensures s.pipes[q].writers == 0 <==> Ends(s.files, q, WriteEnd) == {}
  {
    hide Shape, Counts, Fifo, PipeIds, FileIds, Owned, IoWaits, ChildWaits, Interrupts, Deaths, Reaps, Listed, Turns;
    assert PipeOk(s.files, q, s.pipes[q]);
  }

  lemma GaveAlike(s: State, s1: State, s': State, q: PipeId)
    requires s1.pipes == s.pipes && s1.files == s.files && s1.hist == s.hist && q in s.pipes
    ensures forall bytes :: Gave(s1, s', q, bytes) ==> Gave(s, s', q, bytes)
  {
  }
}
