/** Spawn, exec, exit, wait and interrupts keep the invariant. */
module KernelLife {
  import opened Common
  import opened KernelState
  import opened KernelInvariant
  import opened KernelDescriptors
  import opened KernelCalls
  import opened KernelIo

  // ----- Spawn ------------------------------------------------------------------

  function WithEmbryo(s: State, p: Pid, supported: bool): State
    requires p in s.tasks
  {
    var child := s.nextPid + 1;
    s.(nextPid := child,
       tasks := s.tasks[child := NewTask(p, s.tasks[p].ignoring, supported)],
       hist := s.hist.(parents := s.hist.parents[child := p]))
  }

  lemma CountsWithEmbryo(tasks: map<Pid, Task>, files: map<FileId, OpenFile>, c: Pid, t: Task)
    requires Counts(tasks, files, multiset{}) && c !in tasks && NoFiles(t)
    ensures Counts(tasks[c := t], files, multiset{})
  {
    forall f | f in files ensures Counted(tasks[c := t], files, multiset{}, f) {
      assert Counted(tasks, files, multiset{}, f);
      assert Holders(tasks[c := t], f) == Holders(tasks, f);
    }
  }

  /** A new child matters only to a task that waits for children. */
  lemma ChildWaitsWithEmbryo(tasks: map<Pid, Task>, c: Pid, t: Task)
    requires ChildWaits(tasks) && c !in tasks && !t.state.BlockedWait?
    requires t.ppid in tasks && !tasks[t.ppid].state.BlockedWait?
    ensures ChildWaits(tasks[c := t])
  {
    var tasks' := tasks[c := t];
    forall r | r in tasks' && tasks'[r].state.BlockedWait? ensures WaitBlockOk(tasks', r, tasks'[r].call) {
      assert WaitBlockOk(tasks, r, tasks[r].call);
      assert forall k :: ChildOf(tasks', r, tasks[r].call.target, k) <==> ChildOf(tasks, r, tasks[r].call.target, k);
    }
  }

  lemma ReapsWithEmbryo(pids: set<Pid>, nextPid: nat, parents: map<Pid, Pid>, exits: map<Pid, int>, reaps: seq<Reap>,
                        p: Pid)
    requires Reaps(pids, nextPid, parents, exits, reaps)
    ensures Reaps(pids + {nextPid + 1}, nextPid + 1, parents[nextPid + 1 := p], exits, reaps)
  {
    forall i | 0 <= i < |reaps| ensures ReapOk(pids + {nextPid + 1}, parents[nextPid + 1 := p], exits, reaps[i]) {
      assert ReapOk(pids, parents, exits, reaps[i]);
    }
  }

  lemma NewTaskIsEmpty(p: Pid, ignoring: bool, supported: bool)
    ensures NoFiles(NewTask(p, ignoring, supported))
  {
  }

  lemma EmbryoAdded(s: State, p: Pid, supported: bool)
    requires Core(s, multiset{}) && p in s.tasks && s.tasks[p].state.Running?
    ensures Core(WithEmbryo(s, p, supported), multiset{})
    ensures s.nextPid + 1 !in s.tasks && p <= s.nextPid
  {
    hide Counts, Pipes, Fifo, PipeIds, FileIds, ChildWaits, Reaps, NoFiles, EmptyFds, NothingToDo, PollBlockOk;
    var c := s.nextPid + 1;
    var t := NewTask(p, s.tasks[p].ignoring, supported);
    NewTaskIsEmpty(p, s.tasks[p].ignoring, supported);
    CountsWithEmbryo(s.tasks, s.files, c, t);
    ChildWaitsWithEmbryo(s.tasks, c, t);
    ReapsWithEmbryo(s.tasks.Keys, s.nextPid, s.hist.parents, s.hist.exits, s.hist.reaps, p);
    assert s.tasks[c := t].Keys == s.tasks.Keys + {c};
    EmbryoIsIdle(s.files, s.pipes, t);
    EmbryoHasNotExited(s);
  }

  lemma EmbryoIsIdle(files: map<FileId, OpenFile>, pipes: map<PipeId, Pipe>, t: Task)
    requires t.call.NoCall? && t.state.Runnable?
    ensures NothingToDo(files, pipes, t)
  {
  }

  lemma EmbryoHasNotExited(s: State)
    requires Reaps(s.tasks.Keys, s.nextPid, s.hist.parents, s.hist.exits, s.hist.reaps)
    ensures s.nextPid + 1 !in s.hist.exits
  {
  }

  /** The frame of the child's descriptors, seen from another task. */
  lemma FrameOther(s: State, s': State, c: Pid, p: Pid)
    requires Frame(s, s', c) && p in s.tasks && p != c && s.tasks[p].state.Running?
    ensures p in s'.tasks && s'.tasks[p] == s.tasks[p]
  {
  }

  /** What task_create is in the middle of: p runs, its embryo c takes shape. */
  ghost predicate Birth(s: State, p: Pid, c: Pid) {
    && Core(s, multiset{}) && p in s.tasks && c in s.tasks && p != c
    && s.tasks[p].state.Running? && s.tasks[p].call.NoCall?
    && s.tasks[c].call.NoCall? && s.tasks[c].state.Runnable?
    && |s.tasks[p].fds| == MAX_FDS && |s.tasks[c].fds| == MAX_FDS
  }

  lemma BirthGoesOn(s: State, s': State, p: Pid, c: Pid)
    requires Birth(s, p, c) && Frame(s, s', c) && Core(s', multiset{})
    ensures Birth(s', p, c) && s'.tasks[p] == s.tasks[p]
  {
    hide Core, Frame;
    FrameOwner(s, s', c, multiset{});
    FrameOther(s, s', c, p);
    AllHaveSlots(s');
  }

  lemma AllHaveSlots(s: State)
    requires Core(s, multiset{})
    ensures forall p :: p in s.tasks ==> |s.tasks[p].fds| == MAX_FDS
  {
  }

  /** One round of the descriptor loop: the child's slot d becomes the parent's. */
  lemma SlotCopied(s: State, p: Pid, c: Pid, d: nat)
    requires Birth(s, p, c) && d < MAX_FDS && s.tasks[c].fds[d] == EMPTY_SLOT
    requires s.tasks[p].fds[d].file.Some?
    ensures var s' := Retain(SetSlot(s, c, d, s.tasks[p].fds[d]), s.tasks[p].fds[d].file.value);
      && Birth(s', p, c) && Frame(s, s', c) && s'.tasks[p] == s.tasks[p]
      && s'.tasks[c].fds == s.tasks[c].fds[d := s.tasks[p].fds[d]]
  {
    hide Core, Frame;
    var e := s.tasks[p].fds[d];
    var f := e.file.value;
    SlotLive(s, p, d, multiset{});
    Retained(s, f, multiset{});
    assert multiset{} + multiset{f} == multiset{f};
    assert multiset{f} - multiset{f} == multiset{};
    var s1 := Retain(s, f);
    Installed(s1, c, d, f, multiset{f}, e.closeOnExec);
    var s2 := SetSlot(s1, c, d, e);
    FrameTrans(s, s1, s2, c);
    BirthGoesOn(s, s2, p, c);
    assert s2 == Retain(SetSlot(s, c, d, e), f);
  }

  /** The slots from d on that the parent has open are copied, flags included. */
  lemma FdsCopied(s: State, p: Pid, c: Pid, d: nat)
    requires Birth(s, p, c)
    requires forall k :: d <= k < MAX_FDS ==> s.tasks[c].fds[k] == EMPTY_SLOT
    ensures var s' := CopyFdsFrom(s, p, c, d);
      && Birth(s', p, c) && Frame(s, s', c) && s'.tasks[p] == s.tasks[p]
      && (forall k :: 0 <= k < MAX_FDS && k < d ==> s'.tasks[c].fds[k] == s.tasks[c].fds[k])
      && (forall k :: d <= k < MAX_FDS ==>
            s'.tasks[c].fds[k] == if s.tasks[p].fds[k].file.Some? then s.tasks[p].fds[k] else EMPTY_SLOT)
    decreases MAX_FDS - d
  {
    hide Core, Frame;
    if d >= MAX_FDS {
      SameFrame(s, c);
    } else if s.tasks[p].fds[d].file.None? {
      FdsCopied(s, p, c, d + 1);
    } else {
      SlotCopied(s, p, c, d);
      var s1 := Retain(SetSlot(s, c, d, s.tasks[p].fds[d]), s.tasks[p].fds[d].file.value);
      FdsCopied(s1, p, c, d + 1);
      FrameTrans(s, s1, CopyFdsFrom(s1, p, c, d + 1), c);
    }
  }

  lemma ActionApplied(s: State, p: Pid, c: Pid, a: Action)
    requires Birth(s, p, c) && ActionOk(s, c, a)
    ensures Birth(ApplyAction(s, c, a), p, c) && Frame(s, ApplyAction(s, c, a), c)
  {
    hide Core, Frame;
    match a
    case Dup2Action(from, to) =>
      var s1 := if from == to then s else FdInstallAt(s, c, s.tasks[c].fds[from].file.value, to, true);
      if from == to {
        SameFrame(s, c);
      } else {
        InstalledAt(s, c, from, to);
      }
      BirthGoesOn(s, s1, p, c);
      SlotChanged(s1, c, to, s1.tasks[c].fds[to].(closeOnExec := false), multiset{}, multiset{});
      FrameTrans(s, s1, ClearCloexec(s1, c, to), c);
      BirthGoesOn(s, ClearCloexec(s1, c, to), p, c);
    case CloseAction(fd) =>
      if HasSlot(s, c, fd) {
        FdClosed(s, c, fd, multiset{});
      } else {
        SameFrame(s, c);
      }
      BirthGoesOn(s, FdClose(s, c, fd), p, c);
  }

  lemma ActionsApplied(s: State, p: Pid, c: Pid, actions: seq<Action>)
    requires Birth(s, p, c)
    ensures var (s', ok) := ApplyActions(s, c, actions); Birth(s', p, c) && Frame(s, s', c)
    decreases |actions|
  {
    hide Core, Frame, Birth, ActionOk, ApplyAction;
    if actions == [] || !ActionOk(s, c, actions[0]) {
      SameFrame(s, c);
    } else {
      var s1 := ApplyAction(s, c, actions[0]);
      ActionApplied(s, p, c, actions[0]);
      ActionsApplied(s1, p, c, actions[1..]);
      var (s2, ok) := ApplyActions(s1, c, actions[1..]);
      FrameTrans(s, s1, s2, c);
    }
  }

  // ----- A task goes away ----------------------------------------------------------

  lemma CountsWithout(tasks: map<Pid, Task>, files: map<FileId, OpenFile>, c: Pid)
    requires Counts(tasks, files, multiset{}) && c in tasks && NoFiles(tasks[c])
    ensures Counts(tasks - {c}, files, multiset{})
  {
    forall f | f in files ensures Counted(tasks - {c}, files, multiset{}, f) {
      assert Counted(tasks, files, multiset{}, f);
      assert Holders(tasks - {c}, f) == Holders(tasks, f);
    }
  }

  lemma ChildWaitsWithout(tasks: map<Pid, Task>, c: Pid)
    requires ChildWaits(tasks) && c in tasks
    requires tasks[c].ppid in tasks ==> !tasks[tasks[c].ppid].state.BlockedWait?
    ensures ChildWaits(tasks - {c})
  {
    var tasks' := tasks - {c};
    forall r | r in tasks' && tasks'[r].state.BlockedWait? ensures WaitBlockOk(tasks', r, tasks'[r].call) {
      assert WaitBlockOk(tasks, r, tasks[r].call);
      assert forall k :: ChildOf(tasks', r, tasks[r].call.target, k) <==> ChildOf(tasks, r, tasks[r].call.target, k);
    }
  }

  lemma ReapsWithout(pids: set<Pid>, nextPid: nat, parents: map<Pid, Pid>, exits: map<Pid, int>, reaps: seq<Reap>,
                     c: Pid)
    requires Reaps(pids, nextPid, parents, exits, reaps)
    ensures Reaps(pids - {c}, nextPid, parents, exits, reaps)
  {
    forall i | 0 <= i < |reaps| ensures ReapOk(pids - {c}, parents, exits, reaps[i]) {
      assert ReapOk(pids, parents, exits, reaps[i]);
    }
  }

  /** A task without descriptors, whose parent is not waiting, can be freed. */
  lemma TaskRemoved(s: State, c: Pid)
    requires Core(s, multiset{}) && c in s.tasks && NoFiles(s.tasks[c])
    requires s.tasks[c].ppid in s.tasks ==> !s.tasks[s.tasks[c].ppid].state.BlockedWait?
    ensures Core(s.(tasks := s.tasks - {c}), multiset{})
  {
    hide Counts, Pipes, Fifo, PipeIds, FileIds, ChildWaits, Reaps, NoFiles, NothingToDo, OwnsFile;
    CountsWithout(s.tasks, s.files, c);
    ChildWaitsWithout(s.tasks, c);
    ReapsWithout(s.tasks.Keys, s.nextPid, s.hist.parents, s.hist.exits, s.hist.reaps, c);
    assert (s.tasks - {c}).Keys == s.tasks.Keys - {c};
  }

  lemma Abandoned(s: State, p: Pid, c: Pid)
    requires Birth(s, p, c) && s.tasks[c].ppid == p
    ensures var s' := AbandonTask(s, c);
      && Core(s', multiset{}) && p in s'.tasks && s'.tasks[p] == s.tasks[p]
      && TasksFrame(s.tasks - {c}, s'.tasks, c) && s'.order == s.order
      && s'.current == s.current && s'.cursor == s.cursor
  {
    hide Core, Frame;
    ClosedFrom(s, c, 0, multiset{});
    var s1 := FdCloseFrom(s, c, 0);
    BirthGoesOn(s, s1, p, c);
    TaskRemoved(s1, c);
    AbandonFrame(s, s1, c);
  }

  lemma AbandonFrame(s: State, s1: State, c: Pid)
    requires Frame(s, s1, c)
    ensures TasksFrame(s.tasks - {c}, s1.tasks - {c}, c)
    ensures s1.order == s.order && s1.current == s.current && s1.cursor == s.cursor
  {
  }

  // ----- Spawn, put together ----------------------------------------------------------

  lemma BirthBegins(s: State, p: Pid, supported: bool)
    requires Calling(s, p)
    ensures Birth(WithEmbryo(s, p, supported), p, s.nextPid + 1)
    ensures WithEmbryo(s, p, supported).tasks[p] == s.tasks[p]
    ensures s.nextPid + 1 !in s.tasks
  {
    hide Core, Others, Listed;
    EmbryoAdded(s, p, supported);
  }

  lemma ListedWith(pids: set<Pid>, order: seq<Pid>, c: Pid)
    requires Listed(pids, order) && c !in pids
    ensures Listed(pids + {c}, [c] + order)
  {
  }

  /** From the embryo to the return of a failed spawn. */
  lemma SpawnFails(s: State, p: Pid, supported: bool, s2: State)
    requires Calling(s, p)
    requires Birth(s2, p, s.nextPid + 1) && Frame(WithEmbryo(s, p, supported), s2, s.nextPid + 1)
    ensures var s3 := AbandonTask(s2, s.nextPid + 1);
      p in s3.tasks && Inv(Return(s3, p, -1)) && Moved(s, Return(s3, p, -1), p)
  {
    hide Core, Listed, Frame, Moved, Steady;
    var c := s.nextPid + 1;
    var s1 := WithEmbryo(s, p, supported);
    BirthBegins(s, p, supported);
    FrameOwner(s1, s2, c, multiset{});
    Abandoned(s2, p, c);
    var s3 := AbandonTask(s2, c);
    AbandonedTurns(s, s1, s2, s3, p, c);
    Returned(s3, p, -1);
    SteadyTrans(s, s3, Return(s3, p, -1), p);
    SteadyMoves(s, Return(s3, p, -1), p);
  }

  lemma AbandonedTurns(s: State, s1: State, s2: State, s3: State, p: Pid, c: Pid)
    requires Others(s.tasks, p) && c !in s.tasks && p in s.tasks && s1.tasks.Keys == s.tasks.Keys + {c}
    requires forall r :: r in s.tasks ==> s1.tasks[r] == s.tasks[r]
    requires s1.order == s.order && s1.current == s.current && s1.cursor == s.cursor
    requires Frame(s1, s2, c) && TasksFrame(s2.tasks - {c}, s3.tasks, c)
    requires s3.order == s2.order && s3.current == s2.current && s3.cursor == s2.cursor
    ensures s3.tasks.Keys == s.tasks.Keys && Others(s3.tasks, p)
    ensures s3.order == s.order && s3.current == s.current && s3.cursor == s.cursor
    ensures Steady(s, s3, p)
  {
  }

  lemma SpawnSucceeds(s: State, p: Pid, supported: bool, s2: State)
    requires Calling(s, p)
    requires Birth(s2, p, s.nextPid + 1) && Frame(WithEmbryo(s, p, supported), s2, s.nextPid + 1)
    ensures var s3 := s2.(order := [s.nextPid + 1] + s2.order);
      Inv(Return(s3, p, s.nextPid + 1)) && Moved(s, Return(s3, p, s.nextPid + 1), p)
  {
    hide Core, Listed, Frame, Moved, Steady;
    var c := s.nextPid + 1;
    var s1 := WithEmbryo(s, p, supported);
    BirthBegins(s, p, supported);
    BornTurns(s, s1, s2, p, c);
    ListedWith(s.tasks.Keys, s.order, c);
    var s3 := s2.(order := [c] + s2.order);
    CoreIgnoresOrder(s2, s3.order);
    FrameOwner(s1, s2, c, multiset{});
    FrameOther(s1, s2, c, p);
    Returned(s3, p, c);
    BornMoves(s, s2, p, c);
  }

  lemma BornMoves(s: State, s2: State, p: Pid, c: Pid)
    requires Steady(s, s2, p) && p in s2.tasks
    ensures Moved(s, Return(s2.(order := [c] + s2.order), p, c), p)
  {
  }

  lemma BornTurns(s: State, s1: State, s2: State, p: Pid, c: Pid)
    requires Others(s.tasks, p) && c !in s.tasks && p in s.tasks && s1.tasks.Keys == s.tasks.Keys + {c}
    requires forall r :: r in s.tasks ==> s1.tasks[r] == s.tasks[r]
    requires s1.tasks[c].state.Runnable?
    requires s1.order == s.order && s1.current == s.current && s1.cursor == s.cursor
    requires Frame(s1, s2, c)
    ensures s2.tasks.Keys == s.tasks.Keys + {c} && Others(s2.tasks, p)
    ensures s2.order == s.order && s2.current == s.current && s2.cursor == s.cursor
    ensures Steady(s, s2, p)
  {
  }

  lemma CoreIgnoresOrder(s: State, order: seq<Pid>)
    requires Core(s, multiset{})
    ensures Core(s.(order := order), multiset{})
  {
    hide Shape, Counts, Pipes, Fifo, PipeIds, FileIds, Owned, IoWaits, ChildWaits, Interrupts, Deaths, Reaps;
  }

  lemma SpawnKeeps(s: State, p: Pid, supported: bool, actions: seq<Action>, vectorsAllocated: bool,
                   instanceCreated: bool)
    requires Calling(s, p)
    ensures var s' := SpawnTask(s, p, supported, actions, vectorsAllocated, instanceCreated);
      Inv(s') && Moved(s, s', p)
  {
    hide Core, Listed, Frame, Others, Inv, AbandonTask, EmptyFds, Moved;
    var c := s.nextPid + 1;
    var s1 := WithEmbryo(s, p, supported);
    BirthBegins(s, p, supported);
    if !vectorsAllocated {
      SameFrame(s1, c);
      SpawnFails(s, p, supported, s1);
    } else {
      FreshSlots(s1, c, p, s.tasks[p].ignoring, supported);
      FdsCopied(s1, p, c, 0);
      var s2 := CopyFdsFrom(s1, p, c, 0);
      ActionsApplied(s2, p, c, actions);
      var (s3, ok) := ApplyActions(s2, c, actions);
      FrameTrans(s1, s2, s3, c);
      if ok && instanceCreated {
        SpawnSucceeds(s, p, supported, s3);
      } else {
        SpawnFails(s, p, supported, s3);
      }
    }
  }

  lemma FreshSlots(s: State, c: Pid, p: Pid, ignoring: bool, supported: bool)
    requires c in s.tasks && s.tasks[c] == NewTask(p, ignoring, supported)
    ensures |s.tasks[c].fds| == MAX_FDS && forall k :: 0 <= k < MAX_FDS ==> s.tasks[c].fds[k] == EMPTY_SLOT
  {
  }

  // ----- Exec ------------------------------------------------------------------------

  lemma ExecKeeps(s: State, p: Pid, supported: bool)
    requires Calling(s, p)
    ensures Inv(ExecTask(s, p, supported)) && Steady(s, ExecTask(s, p, supported), p)
  {
    hide Core, Listed;
    RunningIsCalm(s, p);
    var t := s.tasks[p];
    if (t.pending || t.ignoring) && !supported {
      Returned(s, p, -1);
    } else {
      var t' := t.(state := ExecPending, call := NoCall, execTarget := Some(supported));
      Updated(s, p, t');
      assert s.tasks[p := t'].Keys == s.tasks.Keys;
      CoreIgnoresTurns(s.(tasks := s.tasks[p := t']), None);
    }
  }

  lemma ClosedOnExecFrom(s: State, p: Pid, d: nat)
    requires Core(s, multiset{}) && p in s.tasks && s.tasks[p].call.NoCall? && |s.tasks[p].fds| == MAX_FDS
    ensures var s' := FdCloseOnExecFrom(s, p, d);
      && Core(s', multiset{}) && Frame(s, s', p) && p in s'.tasks
      && s'.tasks[p] == s.tasks[p].(fds := s'.tasks[p].fds) && |s'.tasks[p].fds| == MAX_FDS
      && (forall k :: 0 <= k < MAX_FDS && k < d ==> s'.tasks[p].fds[k] == s.tasks[p].fds[k])
      && (forall k :: d <= k < MAX_FDS ==>
            s'.tasks[p].fds[k] == if s.tasks[p].fds[k].closeOnExec && s.tasks[p].fds[k].file.Some? then EMPTY_SLOT
                                  else s.tasks[p].fds[k])
    decreases MAX_FDS - d
  {
    hide Core, Frame;
    if d >= MAX_FDS {
      SameFrame(s, p);
    } else {
      var s1 := if ClosesOnExec(s, p, d) then FdClose(s, p, d) else s;
      if ClosesOnExec(s, p, d) {
        FdClosed(s, p, d, multiset{});
        FrameOwner(s, s1, p, multiset{});
      } else {
        SameFrame(s, p);
      }
      ClosedOnExecFrom(s1, p, d + 1);
      FrameTrans(s, s1, FdCloseOnExecFrom(s1, p, d + 1), p);
    }
  }

  lemma PendingIsIdle(s: State, p: Pid)
    requires Core(s, multiset{}) && p in s.tasks && s.tasks[p].state.ExecPending?
    ensures s.tasks[p].call.NoCall? && |s.tasks[p].fds| == MAX_FDS
    ensures InterruptOk(s.tasks[p])
  {
    hide Counts, Pipes, Fifo, PipeIds, FileIds, Owned, ChildWaits, Deaths, Reaps;
    assert NothingToDo(s.files, s.pipes, s.tasks[p]);
  }

  lemma FinishExecKeeps(s: State)
    requires Inv(s) && s.current.None?
    ensures Inv(FinishExecTask(s))
  {
    hide Core, Listed, Frame;
    if s.cursor.Some? && s.tasks[s.cursor.value].state.ExecPending? {
      var p := s.cursor.value;
      PendingIsIdle(s, p);
      ClosedOnExecFrom(s, p, 0);
      var s1 := FdCloseOnExecFrom(s, p, 0);
      var t' := s1.tasks[p].(state := Runnable, supports := s.tasks[p].execTarget.value, execTarget := None);
      Updated(s1, p, t');
      ExecTurns(s, s1, p, t');
    }
  }

  lemma ExecTurns(s: State, s1: State, p: Pid, t': Task)
    requires Turns(s) && s.current.None? && s.cursor == Some(p) && Frame(s, s1, p) && p in s1.tasks
    requires Listed(s.tasks.Keys, s.order) && t'.state.Runnable?
    ensures var s2 := s1.(tasks := s1.tasks[p := t']); Turns(s2) && Listed(s2.tasks.Keys, s2.order)
  {
    hide Listed;
    assert s1.tasks[p := t'].Keys == s.tasks.Keys;
  }

  // ----- Exit ------------------------------------------------------------------------

  /** The bookkeeping of api_exit once the descriptors are closed. */
  function Buried(s: State, p: Pid, code: int): State
    requires p in s.tasks
  {
    s.(tasks := WakeParent(s.tasks[p := s.tasks[p].(state := Zombie, call := NoCall, exitStatus := code)], p),
       current := None,
       bootStatus := if p == s.bootPid then Some(code) else s.bootStatus,
       hist := s.hist.(exits := s.hist.exits[p := code]))
  }

  /** The one task that could be waiting for p is woken, so no waiter overlooks the zombie. */
  lemma ChildWaitsAfterDeath(tasks: map<Pid, Task>, p: Pid, z: Task)
    requires ChildWaits(tasks) && p in tasks && z.ppid == tasks[p].ppid && z.state.Zombie?
    ensures ChildWaits(WakeParent(tasks[p := z], p))
  {
    var t1 := tasks[p := z];
    var t2 := WakeParent(t1, p);
    forall r | r in t2 && t2[r].state.BlockedWait? ensures WaitBlockOk(t2, r, t2[r].call) {
      assert WaitBlockOk(tasks, r, tasks[r].call);
      ChildOfDependsOnParents(tasks, t2, r, t2[r].call.target);
    }
  }

  lemma DeathsAfterDeath(tasks: map<Pid, Task>, parents: map<Pid, Pid>, exits: map<Pid, int>, p: Pid, code: int)
    requires Deaths(tasks, parents, exits) && p in tasks && NoFiles(tasks[p])
    ensures Deaths(WakeParent(tasks[p := tasks[p].(state := Zombie, call := NoCall, exitStatus := code)], p),
                   parents, exits[p := code])
  {
    hide NoFiles;
    var t2 := WakeParent(tasks[p := tasks[p].(state := Zombie, call := NoCall, exitStatus := code)], p);
    forall r | r in t2 ensures DeathOk(r, t2[r], parents, exits[p := code]) {
      assert DeathOk(r, tasks[r], parents, exits);
      if r == p {
        assert NoFiles(t2[r]) by { EmptyStaysEmpty(tasks[p], t2[p]); }
      }
    }
  }

  lemma EmptyStaysEmpty(t: Task, t': Task)
    requires NoFiles(t) && t'.fds == t.fds
    ensures NoFiles(t')
  {
  }

  lemma ReapsAfterDeath(pids: set<Pid>, nextPid: nat, parents: map<Pid, Pid>, exits: map<Pid, int>, reaps: seq<Reap>,
                        p: Pid, code: int)
    requires Reaps(pids, nextPid, parents, exits, reaps) && p in pids && p <= nextPid
    ensures Reaps(pids, nextPid, parents, exits[p := code], reaps)
  {
    forall i | 0 <= i < |reaps| ensures ReapOk(pids, parents, exits[p := code], reaps[i]) {
      assert ReapOk(pids, parents, exits, reaps[i]);
    }
  }

  lemma BuriedKeeps(s: State, p: Pid, code: int)
    requires Acting(s, p) && s.tasks[p].call.NoCall? && NoFiles(s.tasks[p])
    ensures Inv(Buried(s, p, code))
  {
    hide Counts, Pipes, Fifo, PipeIds, FileIds, ChildWaits, Deaths, Reaps, NoFiles, Listed, PipeBlockOk, PollBlockOk;
    var z := s.tasks[p].(state := Zombie, call := NoCall, exitStatus := code);
    var t2 := WakeParent(s.tasks[p := z], p);
    assert t2.Keys == s.tasks.Keys;
    CountsDependOnSlots(s.tasks, t2, s.files, multiset{});
    ChildWaitsAfterDeath(s.tasks, p, z);
    DeathsAfterDeath(s.tasks, s.hist.parents, s.hist.exits, p, code);
    ReapsAfterDeath(s.tasks.Keys, s.nextPid, s.hist.parents, s.hist.exits, s.hist.reaps, p, code);
  }

  lemma ExitKeeps(s: State, p: Pid, status: int)
    requires Calling(s, p)
    ensures Inv(ExitTask(s, p, status))
    ensures var s' := ExitTask(s, p, status);
      p in s'.tasks && s'.tasks[p].state.Zombie? && s'.tasks[p].exitStatus == status % 256 && s'.current.None?
    ensures Steady(s, ExitTask(s, p, status), p)
  {
    hide Core, Listed, Frame, FdCloseFrom, Inv, Steady;
    ClosedFrom(s, p, 0, multiset{});
    var s1 := FdCloseFrom(s, p, 0);
    StillActing(s, s1, p);
    FrameKeepsBoot(s, s1, p);
    BuriedKeeps(s1, p, status % 256);
    assert ExitTask(s, p, status) == Buried(s1, p, status % 256);
    NotOwnParent(s1, p);
    FrameSteady(s, s1, p);
    BuriedSteady(s1, p, status % 256);
    SteadyTrans(s, s1, Buried(s1, p, status % 256), p);
  }

  lemma BuriedSteady(s: State, p: Pid, code: int)
    requires p in s.tasks
    ensures Steady(s, Buried(s, p, code), p)
  {
  }

  lemma NotOwnParent(s: State, p: Pid)
    requires Acting(s, p)
    ensures s.tasks[p].ppid != p
  {
  }

  lemma FrameKeepsBoot(s: State, s': State, p: Pid)
    requires Frame(s, s', p)
    ensures s'.bootPid == s.bootPid && s'.bootStatus == s.bootStatus
  {
  }

  // ----- Wait ------------------------------------------------------------------------

  lemma NothingToClose(s: State, c: Pid, d: nat)
    requires c in s.tasks && NoFiles(s.tasks[c])
    ensures FdCloseFrom(s, c, d) == s
    decreases MAX_FDS - d
  {
    if d < MAX_FDS {
      NothingToClose(s, c, d + 1);
    }
  }

  lemma WithoutOne(order: seq<Pid>, c: Pid)
    requires forall i, j :: 0 <= i < j < |order| ==> order[i] != order[j]
    ensures forall r :: r in Without(order, c) <==> r in order && r != c
    ensures forall i, j :: 0 <= i < j < |Without(order, c)| ==> Without(order, c)[i] != Without(order, c)[j]
  {
    if order != [] {
      assert order == [order[0]] + order[1..];
      WithoutOne(order[1..], c);
      forall i | 0 <= i < |order[1..]| ensures order[1..][i] != order[0] {
        assert order[1..][i] == order[i + 1];
      }
      if order[0] != c {
        var rest := Without(order[1..], c);
        assert forall i :: 0 <= i < |rest| ==> rest[i] in order[1..];
      }
    }
  }

  lemma ReapsAfterReap(pids: set<Pid>, nextPid: nat, parents: map<Pid, Pid>, exits: map<Pid, int>, reaps: seq<Reap>,
                       r: Reap)
    requires Reaps(pids, nextPid, parents, exits, reaps) && r.child in pids && r.child in exits && r.child in parents
    requires r.status == exits[r.child] && r.parent == parents[r.child]
    ensures Reaps(pids - {r.child}, nextPid, parents, exits, reaps + [r])
  {
    hide ReapOk;
    ReapsWithout(pids, nextPid, parents, exits, reaps, r.child);
    forall i | 0 <= i < |reaps| ensures reaps[i].child != r.child {
      ReapOkMeans(pids, parents, exits, reaps[i]);
    }
    ReapOkHolds(pids - {r.child}, parents, exits, r);
  }

  lemma ReapOkMeans(pids: set<Pid>, parents: map<Pid, Pid>, exits: map<Pid, int>, r: Reap)
    requires ReapOk(pids, parents, exits, r)
    ensures r.child !in pids
  {
  }

  lemma ReapOkHolds(pids: set<Pid>, parents: map<Pid, Pid>, exits: map<Pid, int>, r: Reap)
    requires r.child !in pids && r.child in exits && r.status == exits[r.child]
    requires r.child in parents && r.parent == parents[r.child]
    ensures ReapOk(pids, parents, exits, r)
  {
  }

  /** A zombie child of the running task p is unlinked, its status handed over. */
  function Reaped(s: State, p: Pid, c: Pid): State
    requires c in s.tasks
  {
    s.(order := Without(s.order, c),
       tasks := s.tasks - {c},
       hist := s.hist.(reaps := s.hist.reaps + [Reap(p, c, s.tasks[c].exitStatus)]))
  }

  lemma ZombieFacts(s: State, c: Pid)
    requires Core(s, multiset{}) && c in s.tasks && s.tasks[c].state.Zombie?
    ensures NoFiles(s.tasks[c]) && c in s.hist.exits && s.hist.exits[c] == s.tasks[c].exitStatus
    ensures c in s.hist.parents && s.hist.parents[c] == s.tasks[c].ppid
  {
    hide Shape, Counts, Pipes, Fifo, PipeIds, FileIds, Owned, IoWaits, ChildWaits, Interrupts, Reaps;
    assert DeathOk(c, s.tasks[c], s.hist.parents, s.hist.exits);
  }

  lemma ReapedCore(s: State, p: Pid, c: Pid)
    requires Acting(s, p) && c in s.tasks && s.tasks[c].state.Zombie? && s.tasks[c].ppid == p
    ensures Core(Reaped(s, p, c), multiset{})
  {
    hide Shape, Counts, Pipes, Fifo, PipeIds, FileIds, Owned, IoWaits, ChildWaits, Interrupts, Deaths, Reaps,
         Listed, Others, Without;
    ZombieFacts(s, c);
    TaskRemoved(s, c);
    ReapsAfterReap(s.tasks.Keys, s.nextPid, s.hist.parents, s.hist.exits, s.hist.reaps,
                   Reap(p, c, s.tasks[c].exitStatus));
    assert (s.tasks - {c}).Keys == s.tasks.Keys - {c};
  }

  lemma ReapedActs(s: State, p: Pid, c: Pid)
    requires Acting(s, p) && c in s.tasks && s.tasks[c].state.Zombie? && s.tasks[c].ppid == p
    ensures Acting(Reaped(s, p, c), p) && c != p
  {
    hide Core;
    ReapedCore(s, p, c);
    WithoutOne(s.order, c);
    assert (s.tasks - {c}).Keys == s.tasks.Keys - {c};
  }

  /** A step of p moved the list: nothing, a new head, or a reaped zombie taken out. */
  ghost predicate Moved(s: State, s': State, p: Pid) {
    && s'.cursor == s.cursor && Bystanders(s.tasks, s'.tasks, p)
    && (|| s'.order == s.order
        || (|s'.order| == |s.order| + 1 && s'.order[1..] == s.order)
        || (exists c :: c in s.tasks && s.tasks[c].state.Zombie? && c != p && s'.order == Without(s.order, c)))
  }

  lemma SteadyMoves(s: State, s': State, p: Pid)
    requires Steady(s, s', p)
    ensures Moved(s, s', p)
  {
  }

  lemma ReapMoves(s: State, p: Pid, c: Pid, r: int)
    requires c in s.tasks && s.tasks[c].state.Zombie? && c != p && p in s.tasks
    ensures Moved(s, Return(Reaped(s, p, c), p, r), p)
  {
  }

  /** waitpid: the reaped child is never the cursor, which the waiting task itself is. */
  lemma WaitKeeps(s: State, p: Pid, target: Pid)
    requires Acting(s, p)
    ensures Inv(WaitPass(s, p, target)) && Moved(s, WaitPass(s, p, target), p)
    ensures FindZombie(s.tasks, s.order, p, target).Some? ==>
              s.cursor != FindZombie(s.tasks, s.order, p, target)
  {
    hide Core, Others, Without, Moved, Steady;
    var z := FindZombie(s.tasks, s.order, p, target);
    if z.Some? {
      var c := z.value;
      ReapedActs(s, p, c);
      ZombieFacts(s, c);
      var s1 := s.(order := Without(s.order, c),
                   cursor := if s.cursor == Some(c) then None else s.cursor,
                   hist := s.hist.(reaps := s.hist.reaps + [Reap(p, c, s.tasks[c].exitStatus)]));
      NothingToClose(s1, c, 0);
      Returned(Reaped(s, p, c), p, c);
      ReapMoves(s, p, c, c);
    } else {
      if !HasChild(s.tasks, s.order, p, target) {
        Returned(s, p, -1);
      } else {
        RunningIsCalm(s, p);
        BlockedAs(s, p, BlockedWait, WaitCall(target));
      }
      SteadyMoves(s, WaitPass(s, p, target), p);
    }
  }
}
