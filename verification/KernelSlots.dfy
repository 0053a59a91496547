/**
 What the descriptor calls of the kernel do to the descriptor tables alone:
 each table as a sequence of open files.
 */
module KernelSlots {
  import opened Common
  import opened KernelState

  type Table = seq<Option<FileId>>

  function TableOf(fds: seq<FdEntry>): (t: Table)
    ensures |t| == |fds| && forall d :: 0 <= d < |fds| ==> t[d] == fds[d].file
  {
    seq(|fds|, d requires 0 <= d < |fds| => fds[d].file)
  }

  function Slots(tasks: map<Pid, Task>): map<Pid, Table> {
    map p | p in tasks :: TableOf(tasks[p].fds)
  }

  function Closed(t: Table, d: int): (r: Table)
    ensures |r| == |t|
  {
    if 0 <= d < |t| then t[d := None] else t
  }

  predicate Allowed(t: Table, a: Action) {
    match a
    case Dup2Action(from, to) => 0 <= from < MAX_FDS && 0 <= to < MAX_FDS && from < |t| && t[from].Some?
    case CloseAction(_) => true
    case BadAction => false
  }

  /** One spawn action on a table */
  function Acted(t: Table, a: Action): (r: Table)
    ensures |r| == |t|
  {
    match a
    case Dup2Action(from, to) => if 0 <= from < |t| && 0 <= to < |t| && t[from].Some? then t[to := t[from]] else t
    case CloseAction(d) => Closed(t, d)
    case BadAction => t
  }

  /** All of them, up to the first that is refused */
  function ActedAll(t: Table, actions: seq<Action>): Option<Table>
    decreases |actions|
  {
    if actions == [] then Some(t)
    else if !Allowed(t, actions[0]) then None
    else ActedAll(Acted(t, actions[0]), actions[1..])
  }

  // ----- One slot --------------------------------------------------------------------------

  lemma SlotsSet(s: State, p: Pid, d: int, e: FdEntry)
    requires HasSlot(s, p, d)
    ensures Slots(SetSlot(s, p, d, e).tasks) == Slots(s.tasks)[p := Slots(s.tasks)[p][d := e.file]]
  {
    var tasks' := SetSlot(s, p, d, e).tasks;
    assert tasks'.Keys == s.tasks.Keys;
    assert TableOf(tasks'[p].fds) == TableOf(s.tasks[p].fds)[d := e.file];
  }

  lemma SlotsWoken(tasks: map<Pid, Task>)
    ensures Slots(WakePipeTasks(tasks)) == Slots(tasks)
  {
  }

  lemma SlotsReleased(s: State, f: FileId)
    ensures Slots(Release(s, f).tasks) == Slots(s.tasks)
    ensures Release(s, f).nextFile == s.nextFile && Release(s, f).nextPid == s.nextPid
    ensures Release(s, f).nextPipe == s.nextPipe
  {
    hide Slots;
    SlotsWoken(s.tasks);
  }

  lemma SlotsReturned(s: State, p: Pid, r: int)
    requires p in s.tasks
    ensures Slots(Return(s, p, r).tasks) == Slots(s.tasks)
  {
  }

  lemma SlotsClosed(s: State, p: Pid, d: int)
    requires p in s.tasks
    ensures Slots(FdClose(s, p, d).tasks) == Slots(s.tasks)[p := Closed(Slots(s.tasks)[p], d)]
    ensures FdClose(s, p, d).nextFile == s.nextFile && FdClose(s, p, d).nextPid == s.nextPid
  {
    hide Release;
    var t := Slots(s.tasks)[p];
    if SlotFile(s, p, d).Some? {
      SlotsSet(s, p, d, EMPTY_SLOT);
      SlotsReleased(SetSlot(s, p, d, EMPTY_SLOT), SlotFile(s, p, d).value);
    } else {
      assert Closed(t, d) == t;
    }
  }

  lemma InTasks(s: State, p: Pid)
    ensures p in Slots(s.tasks) <==> p in s.tasks
  {
  }

  // ----- Spawn ------------------------------------------------------------------------------

  lemma SlotsInstalled(s: State, p: Pid, f: FileId, d: int)
    requires HasSlot(s, p, d)
    ensures Slots(FdInstallAt(s, p, f, d, true).tasks) == Slots(s.tasks)[p := Slots(s.tasks)[p][d := Some(f)]]
    ensures FdInstallAt(s, p, f, d, true).nextFile == s.nextFile && FdInstallAt(s, p, f, d, true).nextPid == s.nextPid
  {
    hide FdClose, Slots;
    SlotsClosed(s, p, d);
    var s1 := FdClose(s, p, d);
    StillThere(s, s1, p, d);
    SlotsSet(s1, p, d, FdEntry(Some(f), false));
    TableSize(s, p);
    OverClosed(Slots(s.tasks)[p], d, Some(f));
  }

  lemma OverClosed(t: Table, d: int, f: Option<FileId>)
    requires 0 <= d < |t|
    ensures Closed(t, d)[d := f] == t[d := f]
  {
  }

  lemma StillThere(s: State, s1: State, p: Pid, d: int)
    requires HasSlot(s, p, d) && Slots(s1.tasks) == Slots(s.tasks)[p := Closed(Slots(s.tasks)[p], d)]
    ensures HasSlot(s1, p, d)
  {
    assert p in Slots(s1.tasks);
  }

  lemma SlotsActed(s: State, p: Pid, a: Action)
    requires p in s.tasks && |s.tasks[p].fds| == MAX_FDS && ActionOk(s, p, a)
    ensures Slots(ApplyAction(s, p, a).tasks) == Slots(s.tasks)[p := Acted(Slots(s.tasks)[p], a)]
    ensures ApplyAction(s, p, a).nextFile == s.nextFile && ApplyAction(s, p, a).nextPid == s.nextPid
  {
    hide FdClose, FdInstallAt;
    match a {
      case Dup2Action(from, to) =>
        var t := Slots(s.tasks)[p];
        var s1 := s;
        if from != to {
          s1 := FdInstallAt(s, p, SlotFile(s, p, from).value, to, true);
          SlotsInstalled(s, p, SlotFile(s, p, from).value, to);
        } else {
          assert t[to := t[from]] == t;
        }
        SlotsUnflagged(s1, p, to);
      case CloseAction(d) => SlotsClosed(s, p, d);
    }
  }

  lemma SlotsUnflagged(s: State, p: Pid, d: int)
    ensures Slots(ClearCloexec(s, p, d).tasks) == Slots(s.tasks)
  {
    if HasSlot(s, p, d) {
      var e := s.tasks[p].fds[d].(closeOnExec := false);
      SlotsSet(s, p, d, e);
      assert TableOf(s.tasks[p].fds)[d := e.file] == TableOf(s.tasks[p].fds);
    }
  }

  /** task_apply_actions does to the table what ActedAll does, and is refused exactly when it is. */
  lemma {:induction false} SlotsActedAll(s: State, p: Pid, actions: seq<Action>)
    requires p in s.tasks && |s.tasks[p].fds| == MAX_FDS
    ensures var (s', ok) := ApplyActions(s, p, actions);
      var r := ActedAll(Slots(s.tasks)[p], actions);
      && ok == r.Some? && s'.nextFile == s.nextFile && s'.nextPid == s.nextPid
      && p in Slots(s'.tasks) && Slots(s'.tasks) == Slots(s.tasks)[p := Slots(s'.tasks)[p]]
      && (ok ==> Slots(s'.tasks) == Slots(s.tasks)[p := r.value])
    decreases |actions|
  {
    hide ApplyAction;
    assert p in Slots(s.tasks);
    if actions == [] {
    } else {
      assert ActionOk(s, p, actions[0]) == Allowed(Slots(s.tasks)[p], actions[0]);
      if ActionOk(s, p, actions[0]) {
        SlotsActed(s, p, actions[0]);
        var s1 := ApplyAction(s, p, actions[0]);
        SameSize(s, s1, p, Acted(Slots(s.tasks)[p], actions[0]));
        SlotsActedAll(s1, p, actions[1..]);
      }
    }
  }

  lemma SameSize(s: State, s1: State, p: Pid, t: Table)
    requires p in s.tasks && |s.tasks[p].fds| == MAX_FDS
    requires Slots(s1.tasks) == Slots(s.tasks)[p := t] && |t| == MAX_FDS
    ensures p in s1.tasks && |s1.tasks[p].fds| == MAX_FDS && Slots(s1.tasks)[p] == t
  {
    assert p in Slots(s1.tasks);
  }

  lemma {:induction false} SlotsCopied(s: State, parent: Pid, child: Pid, d: nat)
    requires parent in s.tasks && child in s.tasks && parent != child && d <= MAX_FDS
    requires |s.tasks[parent].fds| == MAX_FDS && |s.tasks[child].fds| == MAX_FDS
    requires forall k :: d <= k < MAX_FDS ==> s.tasks[child].fds[k].file.None?
    requires forall k :: 0 <= k < d ==> s.tasks[child].fds[k].file == s.tasks[parent].fds[k].file
    ensures var s' := CopyFdsFrom(s, parent, child, d);
      && Slots(s'.tasks) == Slots(s.tasks)[child := Slots(s.tasks)[parent]]
      && s'.nextFile == s.nextFile && s'.nextPid == s.nextPid
    decreases MAX_FDS - d
  {
    hide Slots;
    if d == MAX_FDS {
      AllCopied(s, parent, child);
    } else if SlotFile(s, parent, d).None? {
      SlotsCopied(s, parent, child, d + 1);
    } else {
      var e := s.tasks[parent].fds[d];
      var s1 := SetSlot(s, child, d, e);
      SlotsSet(s, child, d, e);
      var s2 := Retain(s1, e.file.value);
      SlotsCopied(s2, parent, child, d + 1);
      CopiedMore(s, s2, parent, child, d, e.file);
    }
  }

  lemma CopiedMore(s: State, s2: State, parent: Pid, child: Pid, d: nat, f: Option<FileId>)
    requires parent in s.tasks && child in s.tasks && parent != child && d < |s.tasks[child].fds|
    requires Slots(s2.tasks) == Slots(s.tasks)[child := Slots(s.tasks)[child][d := f]]
    ensures parent in s2.tasks
    ensures Slots(s2.tasks)[child := Slots(s2.tasks)[parent]] == Slots(s.tasks)[child := Slots(s.tasks)[parent]]
  {
    assert parent in Slots(s2.tasks);
  }

  lemma AllCopied(s: State, parent: Pid, child: Pid)
    requires parent in s.tasks && child in s.tasks && |s.tasks[parent].fds| == |s.tasks[child].fds|
    requires forall k :: 0 <= k < |s.tasks[parent].fds| ==> s.tasks[child].fds[k].file == s.tasks[parent].fds[k].file
    ensures Slots(s.tasks)[child := Slots(s.tasks)[parent]] == Slots(s.tasks)
  {
    assert TableOf(s.tasks[child].fds) == TableOf(s.tasks[parent].fds);
  }

  lemma {:induction false} SlotsClosedFrom(s: State, p: Pid, d: nat)
    requires p in s.tasks
    ensures var s' := FdCloseFrom(s, p, d);
      && p in s'.tasks && Slots(s'.tasks) == Slots(s.tasks)[p := Slots(s'.tasks)[p]]
      && s'.nextFile == s.nextFile && s'.nextPid == s.nextPid
    decreases MAX_FDS - d
  {
    hide FdClose, Slots;
    if d < MAX_FDS {
      var s1 := FdClose(s, p, d);
      SlotsClosed(s, p, d);
      InTasks(s, p);
      InTasks(s1, p);
      SlotsClosedFrom(s1, p, d + 1);
    }
    InTasks(s, p);
    assert Slots(s.tasks)[p := Slots(s.tasks)[p]] == Slots(s.tasks);
  }

  /** A spawn gives the child the parent's table with the actions applied, or changes no table. */
  lemma SlotsSpawned(s: State, p: Pid, supported: bool, actions: seq<Action>, vectors: bool, instance: bool)
    requires p in s.tasks && |s.tasks[p].fds| == MAX_FDS && s.nextPid + 1 !in s.tasks
    ensures var s' := SpawnTask(s, p, supported, actions, vectors, instance);
      var child := s.nextPid + 1;
      var r := ActedAll(Slots(s.tasks)[p], actions);
      && p in s'.tasks && s'.nextFile == s.nextFile && s'.nextPid == child
      && if vectors && instance && r.Some?
         then Slots(s'.tasks) == Slots(s.tasks)[child := r.value] && s'.tasks[p].ret == child
         else Slots(s'.tasks) == Slots(s.tasks) && s'.tasks[p].ret == -1
  {
    hide Slots, CopyFdsFrom, ApplyActions, AbandonTask, ActedAll;
    var child, S := s.nextPid + 1, Slots(s.tasks);
    var born := NewTask(p, s.tasks[p].ignoring, supported);
    var s1 := s.(nextPid := child, tasks := s.tasks[child := born],
                 hist := s.hist.(parents := s.hist.parents[child := p]));
    SlotsBorn(s.tasks, child, born);
    InTasks(s, p);
    InTasks(s, child);
    var s2, ok := s1, false;
    if vectors {
      SlotsCopied(s1, p, child, 0);
      var sc := CopyFdsFrom(s1, p, child, 0);
      assert Slots(sc.tasks) == S[child := S[p]];
      TableSize(s, p);
      HasTable(sc, child, S[p]);
      SlotsActedAll(sc, child, actions);
      s2, ok := ApplyActions(sc, child, actions).0, ApplyActions(sc, child, actions).1;
    }
    assert child in Slots(s2.tasks) && Slots(s2.tasks) == S[child := Slots(s2.tasks)[child]];
    if ok && instance {
      InTasks(s2, p);
      SlotsReturned(s2.(order := [child] + s2.order), p, child);
    } else {
      SlotsAbandoned(S, s2, child);
      var s3 := AbandonTask(s2, child);
      InTasks(s3, p);
      SlotsReturned(s3, p, -1);
    }
  }

  lemma SlotsBorn(tasks: map<Pid, Task>, child: Pid, t: Task)
    ensures Slots(tasks[child := t]) == Slots(tasks)[child := TableOf(t.fds)]
  {
  }

  lemma TableSize(s: State, p: Pid)
    requires p in s.tasks
    ensures p in Slots(s.tasks) && |Slots(s.tasks)[p]| == |s.tasks[p].fds|
  {
  }

  lemma HasTable(s: State, p: Pid, t: Table)
    requires p in Slots(s.tasks) && Slots(s.tasks)[p] == t
    ensures p in s.tasks && |s.tasks[p].fds| == |t|
  {
  }

  lemma SlotsAbandoned(S: map<Pid, Table>, s: State, child: Pid)
    requires child !in S && child in Slots(s.tasks) && Slots(s.tasks) == S[child := Slots(s.tasks)[child]]
    ensures var s' := AbandonTask(s, child);
      Slots(s'.tasks) == S && s'.nextFile == s.nextFile && s'.nextPid == s.nextPid
  {
    hide FdCloseFrom;
    SlotsClosedFrom(s, child, 0);
    var s1 := FdCloseFrom(s, child, 0);
    assert Slots(s1.tasks) == S[child := Slots(s1.tasks)[child]];
    SlotsWithout(s1.tasks, child);
    assert S[child := Slots(s1.tasks)[child]] - {child} == S;
  }

  lemma SlotsWithout(tasks: map<Pid, Task>, child: Pid)
    ensures Slots(tasks - {child}) == Slots(tasks) - {child}
  {
  }

  // ----- open, pipe and close ----------------------------------------------------------------

  /** The lowest free slot from d on */
  function Lowest(t: Table, d: nat): (r: nat)
    ensures d <= r && (d <= |t| ==> r <= |t|) && (r < |t| ==> t[r].None?)
    ensures forall k :: d <= k < r && k < |t| ==> t[k].Some?
    decreases |t| - d
  {
    if d >= |t| || t[d].None? then d else Lowest(t, d + 1)
  }

  lemma {:induction false} LowestIsFirstFree(fds: seq<FdEntry>, d: nat)
    ensures Lowest(TableOf(fds), d) == FirstFree(fds, d)
    decreases |fds| - d
  {
    if d < |fds| && fds[d].file.Some? {
      LowestIsFirstFree(fds, d + 1);
    }
  }

  lemma SlotsOpened(s: State, p: Pid, kind: FileKind)
    requires p in s.tasks
    ensures var s' := InstallOrRelease(CreateFile(s, kind), p, s.nextFile);
      var t := Slots(s.tasks)[p];
      var d := Lowest(t, 0);
      && p in s'.tasks && s'.nextFile == s.nextFile + 1 && s'.nextPid == s.nextPid
      && if d < |t| then Slots(s'.tasks) == Slots(s.tasks)[p := t[d := Some(s.nextFile)]] && s'.tasks[p].ret == d
         else Slots(s'.tasks) == Slots(s.tasks) && s'.tasks[p].ret == -1
  {
    hide Slots, Release, SetSlot;
    TableSize(s, p);
    var s1 := CreateFile(s, kind);
    var fds := s.tasks[p].fds;
    LowestIsFirstFree(fds, 0);
    assert Slots(s.tasks)[p] == TableOf(fds) by { TableIs(s, p); }
    var d := FirstFree(fds, 0);
    if d < |fds| {
      SlotsSet(s1, p, d, FdEntry(Some(s.nextFile), false));
      var s2 := SetSlot(s1, p, d, FdEntry(Some(s.nextFile), false));
      SetKeeps(s1, p, d, FdEntry(Some(s.nextFile), false));
      SlotsReturned(s2, p, d);
    } else {
      SlotsReleased(s1, s.nextFile);
      InTasks(s, p);
      InTasks(Release(s1, s.nextFile), p);
      SlotsReturned(Release(s1, s.nextFile), p, -1);
    }
  }

  lemma TableIs(s: State, p: Pid)
    requires p in s.tasks
    ensures p in Slots(s.tasks) && Slots(s.tasks)[p] == TableOf(s.tasks[p].fds)
  {
  }

  lemma SetKeeps(s: State, p: Pid, d: int, e: FdEntry)
    requires HasSlot(s, p, d)
    ensures p in SetSlot(s, p, d, e).tasks && |SetSlot(s, p, d, e).tasks[p].fds| == |s.tasks[p].fds|
    ensures SetSlot(s, p, d, e).nextFile == s.nextFile && SetSlot(s, p, d, e).nextPid == s.nextPid
  {
  }

  /** Both ends in the two lowest free slots, or no table changed */
  lemma SlotsPiped(s: State, p: Pid, reader: bool, writer: bool)
    requires p in s.tasks
    ensures var s' := PipeCall(s, p, reader, writer);
      var t := Slots(s.tasks)[p];
      var d := Lowest(t, 0);
      var t1 := if d < |t| then t[d := Some(s.nextFile)] else t;
      var e := Lowest(t1, 0);
      && p in s'.tasks && s'.nextFile >= s.nextFile && s'.nextPid == s.nextPid
      && if reader && writer && d < |t| && e < |t|
         then && Slots(s'.tasks) == Slots(s.tasks)[p := t1[e := Some(s.nextFile + 1)]] && s'.tasks[p].ret == 0
              && s'.nextFile == s.nextFile + 2
         else Slots(s'.tasks) == Slots(s.tasks) && s'.tasks[p].ret == -1
  {
    hide Slots, Release, SetSlot, FdClose;
    TableIs(s, p);
    InTasks(s, p);
    var fds := s.tasks[p].fds;
    LowestIsFirstFree(fds, 0);
    var s1 := CreateEnd(s, s.nextPipe, ReadEnd);
    var s2 := CreateEnd(s1, s.nextPipe, WriteEnd);
    var d := FirstFree(fds, 0);
    if !reader {
      SlotsReturned(s, p, -1);
    } else if !writer {
      GivenUp(s, s1, p, s.nextFile);
    } else if d >= |fds| {
      SlotsReleased(s2, s.nextFile);
      GivenUp(s, Release(s2, s.nextFile), p, s.nextFile + 1);
    } else {
      SecondEnd(s, s2, p, d);
    }
  }

  lemma GivenUp(s: State, s1: State, p: Pid, f: FileId)
    requires Slots(s1.tasks) == Slots(s.tasks) && p in s.tasks
    ensures var s2 := Release(s1, f);
      && p in s2.tasks && Slots(Return(s2, p, -1).tasks) == Slots(s.tasks) && Return(s2, p, -1).tasks[p].ret == -1
      && s2.nextFile == s1.nextFile && s2.nextPid == s1.nextPid
  {
    hide Slots, Release;
    SlotsReleased(s1, f);
    InTasks(s, p);
    InTasks(Release(s1, f), p);
    SlotsReturned(Release(s1, f), p, -1);
  }

  lemma SecondEnd(s: State, s2: State, p: Pid, d: nat)
    requires p in s.tasks && d == FirstFree(s.tasks[p].fds, 0) < |s.tasks[p].fds| && s2.tasks == s.tasks
    ensures var s3 := SetSlot(s2, p, d, FdEntry(Some(s.nextFile), false));
      var t1 := TableOf(s.tasks[p].fds)[d := Some(s.nextFile)];
      && p in s3.tasks && |s3.tasks[p].fds| == |s.tasks[p].fds|
      && var e := FirstFree(s3.tasks[p].fds, 0);
      && e == Lowest(t1, 0)
      && if e < |s3.tasks[p].fds| then
           var s4 := SetSlot(s3, p, e, FdEntry(Some(s.nextFile + 1), false));
           && p in s4.tasks && Slots(Return(s4, p, 0).tasks) == Slots(s.tasks)[p := t1[e := Some(s.nextFile + 1)]]
           && s4.nextFile == s2.nextFile && s4.nextPid == s2.nextPid
         else
           var s4 := Release(FdClose(s3, p, d), s.nextFile + 1);
           && p in s4.tasks && Slots(Return(s4, p, -1).tasks) == Slots(s.tasks)
           && s4.nextFile == s2.nextFile && s4.nextPid == s2.nextPid
  {
    hide Slots, Release, SetSlot, FdClose;
    var f := FdEntry(Some(s.nextFile), false);
    var s3 := SetSlot(s2, p, d, f);
    SetKeeps(s2, p, d, f);
    SlotsSet(s2, p, d, f);
    TableIs(s, p);
    TableIs(s3, p);
    LowestIsFirstFree(s3.tasks[p].fds, 0);
    var t, e := TableOf(s.tasks[p].fds), FirstFree(s3.tasks[p].fds, 0);
    if e < |s3.tasks[p].fds| {
      var g := FdEntry(Some(s.nextFile + 1), false);
      SetKeeps(s3, p, e, g);
      SlotsSet(s3, p, e, g);
      SlotsReturned(SetSlot(s3, p, e, g), p, 0);
    } else {
      SlotsClosed(s3, p, d);
      OverClosed2(t, d, Some(s.nextFile));
      var s4 := FdClose(s3, p, d);
      assert Slots(s4.tasks) == Slots(s.tasks)[p := t];
      assert Slots(s4.tasks) == Slots(s.tasks);
      GivenUp(s, s4, p, s.nextFile + 1);
    }
  }

  lemma OverClosed2(t: Table, d: nat, f: Option<FileId>)
    requires d < |t| && t[d].None?
    ensures Closed(t[d := f], d) == t
  {
  }

  /** The close call */
  lemma SlotsCloseCall(s: State, p: Pid, d: int, env: Env)
    requires p in s.tasks
    ensures var s' := ApiStep(s, p, Close(d), env);
      && p in s'.tasks && Slots(s'.tasks) == Slots(s.tasks)[p := Closed(Slots(s.tasks)[p], d)]
      && s'.nextFile == s.nextFile && s'.nextPid == s.nextPid
  {
    hide Slots, FdClose;
    TableIs(s, p);
    if SlotFile(s, p, d).None? {
      assert Closed(TableOf(s.tasks[p].fds), d) == TableOf(s.tasks[p].fds);
      SlotsReturned(s, p, -1);
      assert Slots(s.tasks)[p := Slots(s.tasks)[p]] == Slots(s.tasks);
    } else {
      SlotsClosed(s, p, d);
      InTasks(FdClose(s, p, d), p);
      SlotsReturned(FdClose(s, p, d), p, 0);
    }
  }
}
