/** Every kernel call keeps the invariant. */
module KernelCalls {
  import opened Common
  import opened KernelState
  import opened KernelInvariant
  import opened KernelDescriptors

  // ----- Closing ---------------------------------------------------------------

  /** A task outside any call is not woken by its own descriptor operation. */
  lemma FrameOwner(s: State, s': State, p: Pid, loose: multiset<FileId>)
    requires Core(s, loose) && Frame(s, s', p) && p in s.tasks && s.tasks[p].call.NoCall?
    ensures p in s'.tasks && s'.tasks[p] == s.tasks[p].(fds := s'.tasks[p].fds)
  {
    hide Shape, Counts, Pipes, Fifo, PipeIds, FileIds, Owned, ChildWaits, Interrupts, Deaths, Reaps;
    assert NothingToDo(s.files, s.pipes, s.tasks[p]);
  }

  /** Slots of the task p in s' are those of s, except that d is now e. */
  ghost predicate OnlySlot(s: State, s': State, p: Pid, d: int, e: FdEntry) {
    HasSlot(s, p, d) && p in s'.tasks && s'.tasks[p].fds == s.tasks[p].fds[d := e]
  }

  lemma FdClosed(s: State, p: Pid, d: int, loose: multiset<FileId>)
    requires Core(s, loose) && HasSlot(s, p, d) && s.tasks[p].call.NoCall?
    ensures Core(FdClose(s, p, d), loose) && Frame(s, FdClose(s, p, d), p)
    ensures s.tasks[p].fds[d].file.Some? ==> OnlySlot(s, FdClose(s, p, d), p, d, EMPTY_SLOT)
    ensures SlotFile(FdClose(s, p, d), p, d).None?
  {
    hide Core, Frame;
    if s.tasks[p].fds[d].file.Some? {
      var f := s.tasks[p].fds[d].file.value;
      var s1 := SetSlot(s, p, d, EMPTY_SLOT);
      SlotChanged(s, p, d, EMPTY_SLOT, loose, loose + multiset{f});
      Released(s1, f, loose + multiset{f});
      assert loose + multiset{f} - multiset{f} == loose;
      FrameTrans(s, s1, Release(s1, f), p);
      assert s1.tasks[p].call.NoCall?;
      FrameOwner2(s1, Release(s1, f), p, loose + multiset{f});
    } else {
      SameFrame(s, p);
    }
  }

  lemma SameFrame(s: State, p: Pid)
    ensures Frame(s, s, p)
  {
  }

  /** A release changes no slots at all. */
  lemma FrameOwner2(s: State, s': State, p: Pid, loose: multiset<FileId>)
    requires Core(s, loose) && p in s.tasks && s.tasks[p].call.NoCall?
    requires forall r :: Frame(s, s', r)
    ensures p in s'.tasks && s'.tasks[p] == s.tasks[p]
  {
    hide Shape, Counts, Pipes, Fifo, PipeIds, FileIds, Owned, ChildWaits, Interrupts, Deaths, Reaps;
    assert NothingToDo(s.files, s.pipes, s.tasks[p]);
    assert Frame(s, s', p + 1);
  }

  lemma ClosedFrom(s: State, p: Pid, d: nat, loose: multiset<FileId>)
    requires Core(s, loose) && p in s.tasks && s.tasks[p].call.NoCall? && |s.tasks[p].fds| == MAX_FDS
    ensures Core(FdCloseFrom(s, p, d), loose) && Frame(s, FdCloseFrom(s, p, d), p)
    ensures p in FdCloseFrom(s, p, d).tasks
    ensures var t' := FdCloseFrom(s, p, d).tasks[p];
      && t' == s.tasks[p].(fds := t'.fds) && |t'.fds| == MAX_FDS
      && (forall k :: 0 <= k < d && k < MAX_FDS ==> t'.fds[k] == s.tasks[p].fds[k])
      && (forall k :: d <= k < MAX_FDS ==> t'.fds[k].file.None?)
    decreases MAX_FDS - d
  {
    hide Core, Frame;
    if d >= MAX_FDS {
      SameFrame(s, p);
    } else {
      var s1 := FdClose(s, p, d);
      FdClosed(s, p, d, loose);
      FrameOwner(s, s1, p, loose);
      ClosedFrom(s1, p, d + 1, loose);
      FrameTrans(s, s1, FdCloseFrom(s1, p, d + 1), p);
    }
  }

  /** A step of p leaves every other task as it is, wakes it, or reaps it if it has exited. */
  ghost predicate Bystanders(tasks: map<Pid, Task>, tasks': map<Pid, Task>, p: Pid) {
    forall t :: t in tasks && t != p ==>
      if t in tasks'
      then tasks'[t] == tasks[t] || (Blocked(tasks[t]) && tasks'[t] == tasks[t].(state := Runnable))
      else tasks[t].state.Zombie?
  }

  /** A step of p that leaves the task list as it is. */
  ghost predicate Steady(s: State, s': State, p: Pid) {
    && s'.cursor == s.cursor && s'.order == s.order
    && s.tasks.Keys <= s'.tasks.Keys && Bystanders(s.tasks, s'.tasks, p)
  }

  lemma FrameSteady(s: State, s': State, p: Pid)
    requires Frame(s, s', p)
    ensures Steady(s, s', p)
  {
  }

  lemma SteadyTrans(s0: State, s1: State, s2: State, p: Pid)
    requires Steady(s0, s1, p) && Steady(s1, s2, p)
    ensures Steady(s0, s2, p)
  {
  }

  // ----- The running task -------------------------------------------------------

  /** Nobody but p runs or is between two programs. */
  ghost predicate Others(tasks: map<Pid, Task>, p: Pid) {
    forall r :: r in tasks && r != p ==> !tasks[r].state.Running? && !tasks[r].state.ExecPending?
  }

  /** p runs, possibly in the middle of a call. */
  ghost predicate Acting(s: State, p: Pid) {
    && Core(s, multiset{}) && Listed(s.tasks.Keys, s.order) && Others(s.tasks, p)
    && p in s.tasks && s.tasks[p].state.Running? && s.current == Some(p) && s.cursor == Some(p)
  }

  lemma InvIsActing(s: State)
    requires Inv(s) && s.current.Some?
    ensures Acting(s, s.current.value) && s.tasks[s.current.value].call.NoCall?
  {
    hide Core, Listed;
  }

  lemma ActingIsInv(s: State, p: Pid)
    requires Acting(s, p) && s.tasks[p].call.NoCall?
    ensures Inv(s)
  {
    hide Core, Listed;
  }

  lemma StillActing(s: State, s': State, p: Pid)
    requires Acting(s, p) && s.tasks[p].call.NoCall?
    requires Frame(s, s', p) && Core(s', multiset{})
    ensures Acting(s', p) && s'.tasks[p].call.NoCall?
  {
    hide Core, Listed, Frame;
    FrameOwner(s, s', p, multiset{});
    OthersFrame(s, s', p);
  }

  lemma OthersFrame(s: State, s': State, p: Pid)
    requires Others(s.tasks, p) && Frame(s, s', p)
    ensures Others(s'.tasks, p) && s'.tasks.Keys == s.tasks.Keys && s'.order == s.order
    ensures s'.current == s.current && s'.cursor == s.cursor
  {
  }

  /** A change of p's own record that keeps its slots, its parent and whether it is a zombie. */
  ghost predicate OwnUpdate(s: State, p: Pid, t': Task) {
    && p in s.tasks
    && t'.fds == s.tasks[p].fds && t'.ppid == s.tasks[p].ppid
    && t'.exitStatus == s.tasks[p].exitStatus
    && (t'.state.Zombie? <==> s.tasks[p].state.Zombie?)
    && OwnsFile(s.files, t') && NothingToDo(s.files, s.pipes, t') && InterruptOk(t')
    && (t'.state.BlockedWait? ==> WaitBlockOk(s.tasks, p, t'.call))
  }

  lemma ChildWaitsAfterUpdate(tasks: map<Pid, Task>, p: Pid, t': Task)
    requires ChildWaits(tasks) && p in tasks
    requires t'.ppid == tasks[p].ppid && (t'.state.Zombie? ==> tasks[p].state.Zombie?)
    requires t'.state.BlockedWait? ==> WaitBlockOk(tasks, p, t'.call)
    ensures ChildWaits(tasks[p := t'])
  {
    var tasks' := tasks[p := t'];
    forall r | r in tasks' && tasks'[r].state.BlockedWait? ensures WaitBlockOk(tasks', r, tasks'[r].call) {
      assert WaitBlockOk(tasks, r, tasks'[r].call);
      ChildOfDependsOnParents(tasks, tasks', r, tasks'[r].call.target);
    }
  }

  lemma Updated(s: State, p: Pid, t': Task)
    requires Core(s, multiset{}) && OwnUpdate(s, p, t')
    ensures Core(s.(tasks := s.tasks[p := t']), multiset{})
  {
    hide Counts, Pipes, Fifo, PipeIds, FileIds, ChildWaits, Reaps, OwnsFile, NothingToDo, InterruptOk, WaitBlockOk;
    var tasks' := s.tasks[p := t'];
    assert tasks'.Keys == s.tasks.Keys;
    CountsDependOnSlots(s.tasks, tasks', s.files, multiset{});
    ChildWaitsAfterUpdate(s.tasks, p, t');
  }

  lemma Returned(s: State, p: Pid, r: int)
    requires Acting(s, p)
    ensures Inv(Return(s, p, r)) && Acting(Return(s, p, r), p)
    ensures Steady(s, Return(s, p, r), p)
  {
    hide Shape, Counts, Pipes, Fifo, PipeIds, FileIds, Owned, IoWaits, ChildWaits, Deaths, Reaps, Listed;
    assert InterruptOk(s.tasks[p]);
    Updated(s, p, s.tasks[p].(call := NoCall, ret := r));
    assert s.tasks[p := s.tasks[p].(call := NoCall, ret := r)].Keys == s.tasks.Keys;
    ActingIsInv(Return(s, p, r), p);
  }

  /** A yield into a state whose reason to wait holds. */
  lemma BlockedAs(s: State, p: Pid, state: TaskState, call: Call)
    requires Acting(s, p)
    requires state.Runnable? || state.BlockedPipe? || state.BlockedPoll? || state.BlockedWait? || state.BlockedConsole?
    requires OwnUpdate(s, p, s.tasks[p].(state := state, call := call))
    ensures Inv(Block(s, p, state, call))
    ensures Steady(s, Block(s, p, state, call), p)
  {
    hide Core, Listed, OwnUpdate;
    Updated(s, p, s.tasks[p].(state := state, call := call));
    assert s.tasks[p := s.tasks[p].(state := state, call := call)].Keys == s.tasks.Keys;
    CoreIgnoresTurns(s.(tasks := s.tasks[p := s.tasks[p].(state := state, call := call)]), None);
  }

  lemma CoreIgnoresTurns(s: State, current: Option<Pid>)
    requires Core(s, multiset{})
    ensures Core(s.(current := current), multiset{})
  {
    hide Shape, Counts, Pipes, Fifo, PipeIds, FileIds, Owned, IoWaits, ChildWaits, Interrupts, Deaths, Reaps;
  }
}
