/**
 What the descriptor calls do to the table of open files: all but pipe and open
 only take files away, and none of them changes who runs.
 */
module KernelFiles {
  import opened Common
  import opened KernelState

  /** No file is new, and none has changed its kind. */
  ghost predicate Fewer(files: map<FileId, OpenFile>, files': map<FileId, OpenFile>) {
    forall f :: f in files' ==> f in files && files'[f].kind == files[f].kind
  }

  /** A call that may close files and does not yield */
  ghost predicate OnlyCloses(s: State, s': State) {
    Fewer(s.files, s'.files) && s'.current == s.current && s'.nextPipe == s.nextPipe
  }

  lemma ClosesTwice(s: State, s1: State, s2: State)
    requires OnlyCloses(s, s1) && OnlyCloses(s1, s2)
    ensures OnlyCloses(s, s2)
  {
  }

  lemma ReleaseCloses(s: State, f: FileId)
    ensures OnlyCloses(s, Release(s, f))
  {
    hide WakePipeTasks;
  }

  lemma FdCloseCloses(s: State, p: Pid, d: int)
    ensures OnlyCloses(s, FdClose(s, p, d))
  {
    hide Release;
    if SlotFile(s, p, d).Some? { ReleaseCloses(SetSlot(s, p, d, EMPTY_SLOT), SlotFile(s, p, d).value); }
  }

  lemma InstallCloses(s: State, p: Pid, f: FileId, d: int)
    ensures OnlyCloses(s, FdInstallAt(s, p, f, d, true))
  {
    hide FdClose;
    FdCloseCloses(s, p, d);
  }

  lemma ActionCloses(s: State, p: Pid, a: Action)
    ensures OnlyCloses(s, ApplyAction(s, p, a))
  {
    hide FdClose, FdInstallAt, SetSlot;
    match a {
      case Dup2Action(from, to) =>
        if SlotFile(s, p, from).Some? {
          InstallCloses(s, p, SlotFile(s, p, from).value, to);
          var s1 := if from == to then s else FdInstallAt(s, p, SlotFile(s, p, from).value, to, true);
          SetCloses(s1, p, to);
        }
      case CloseAction(d) => FdCloseCloses(s, p, d);
      case BadAction =>
    }
  }

  lemma SetCloses(s: State, p: Pid, d: int)
    ensures OnlyCloses(s, ClearCloexec(s, p, d))
  {
  }

  lemma {:induction false} ActionsClose(s: State, p: Pid, actions: seq<Action>)
    ensures OnlyCloses(s, ApplyActions(s, p, actions).0)
    decreases |actions|
  {
    hide ApplyAction;
    if actions != [] && ActionOk(s, p, actions[0]) {
      ActionCloses(s, p, actions[0]);
      var s1 := ApplyAction(s, p, actions[0]);
      ActionsClose(s1, p, actions[1..]);
      ClosesTwice(s, s1, ApplyActions(s1, p, actions[1..]).0);
    }
  }

  lemma {:induction false} CopyCloses(s: State, parent: Pid, child: Pid, d: nat)
    ensures OnlyCloses(s, CopyFdsFrom(s, parent, child, d))
    decreases MAX_FDS - d
  {
    if d < MAX_FDS {
      if SlotFile(s, parent, d).None? {
        CopyCloses(s, parent, child, d + 1);
      } else {
        var s1 := Retain(SetSlot(s, child, d, s.tasks[parent].fds[d]), SlotFile(s, parent, d).value);
        CopyCloses(s1, parent, child, d + 1);
      }
    }
  }

  lemma {:induction false} CloseFromCloses(s: State, p: Pid, d: nat)
    ensures OnlyCloses(s, FdCloseFrom(s, p, d))
    decreases MAX_FDS - d
  {
    hide FdClose;
    if d < MAX_FDS {
      FdCloseCloses(s, p, d);
      CloseFromCloses(FdClose(s, p, d), p, d + 1);
    }
  }

  lemma SpawnCloses(s: State, p: Pid, supported: bool, actions: seq<Action>, vectors: bool, instance: bool)
    requires p in s.tasks
    ensures OnlyCloses(s, SpawnTask(s, p, supported, actions, vectors, instance))
  {
    hide CopyFdsFrom, ApplyActions, FdCloseFrom, Fewer;
    var child := s.nextPid + 1;
    var s1 := s.(nextPid := child,
                 tasks := s.tasks[child := NewTask(p, s.tasks[p].ignoring, supported)],
                 hist := s.hist.(parents := s.hist.parents[child := p]));
    var s2 := s1;
    assert OnlyCloses(s, s1) by { SameFiles(s, s1); }
    if vectors {
      var sc := CopyFdsFrom(s1, p, child, 0);
      CopyCloses(s1, p, child, 0);
      ActionsClose(sc, child, actions);
      s2 := ApplyActions(sc, child, actions).0;
      ClosesTwice(s1, sc, s2);
      ClosesTwice(s, s1, s2);
    }
    CloseFromCloses(s2, child, 0);
    ClosesTwice(s, s2, FdCloseFrom(s2, child, 0));
  }

  lemma SameFiles(s: State, s1: State)
    requires s1.files == s.files && s1.current == s.current && s1.nextPipe == s.nextPipe
    ensures OnlyCloses(s, s1)
  {
  }

  lemma CloseCallCloses(s: State, p: Pid, d: int, env: Env)
    requires p in s.tasks
    ensures OnlyCloses(s, ApiStep(s, p, Close(d), env))
  {
    hide FdClose;
    FdCloseCloses(s, p, d);
  }

  /** A call to pipe adds at most the two ends of the next pipe, under the next two numbers. */
  ghost predicate AddsEnds(files: map<FileId, OpenFile>, files': map<FileId, OpenFile>, next: FileId, q: PipeId) {
    forall f :: f in files' ==>
      || (f in files && files'[f].kind == files[f].kind)
      || (f == next && files'[f].kind == PipeEnd(q, ReadEnd))
      || (f == next + 1 && files'[f].kind == PipeEnd(q, WriteEnd))
  }

  lemma FewerOfAdded(s: State, s1: State, s2: State)
    requires AddsEnds(s.files, s1.files, s.nextFile, s.nextPipe) && Fewer(s1.files, s2.files)
    ensures AddsEnds(s.files, s2.files, s.nextFile, s.nextPipe)
  {
  }

  lemma PipeAddsEnds(s: State, p: Pid, reader: bool, writer: bool)
    requires p in s.tasks
    ensures var s' := PipeCall(s, p, reader, writer);
      AddsEnds(s.files, s'.files, s.nextFile,
               s.nextPipe) && s'.current == s.current && (reader && writer ==> s'.nextPipe == s.nextPipe + 1)
  {
    hide Release, FdClose, SetSlot, FirstFree, Fewer, AddsEnds;
    var s1 := CreateEnd(s, s.nextPipe, ReadEnd);
    var s2 := CreateEnd(s1, s.nextPipe, WriteEnd);
    EndsAdded(s);
    SameFiles(s, s);
    ReleaseCloses(s1, s.nextFile);
    FewerOfAdded(s, s1, Release(s1, s.nextFile));
    if reader && writer { RestOfPipe(s, s2, p); }
  }

  lemma EndsAdded(s: State)
    ensures var s1 := CreateEnd(s, s.nextPipe, ReadEnd);
      && AddsEnds(s.files, s.files, s.nextFile, s.nextPipe) && AddsEnds(s.files, s1.files, s.nextFile, s.nextPipe)
      && AddsEnds(s.files, CreateEnd(s1, s.nextPipe, WriteEnd).files, s.nextFile, s.nextPipe)
  {
  }

  /** What the call does once both ends are there only takes files away. */
  lemma RestOfPipe(s: State, s2: State, p: Pid)
    requires p in s.tasks && s2 == CreateEnd(CreateEnd(s, s.nextPipe, ReadEnd), s.nextPipe, WriteEnd)
    requires AddsEnds(s.files, s2.files, s.nextFile, s.nextPipe)
    ensures var s' := PipeCall(s, p, true, true);
      AddsEnds(s.files, s'.files, s.nextFile, s.nextPipe) && s'.current == s.current && s'.nextPipe == s.nextPipe + 1
  {
    hide Release, FdClose, SetSlot, FirstFree, Fewer, AddsEnds;
    var f := s.nextFile;
    SameFiles(s2, s2);
    FewerOfAdded(s, s2, s2);
    ReleaseCloses(s2, f);
    ReleaseCloses(Release(s2, f), f + 1);
    ClosesTwice(s2, Release(s2, f), Release(Release(s2, f), f + 1));
    FewerOfAdded(s, s2, Release(Release(s2, f), f + 1));
    var d := FirstFree(s.tasks[p].fds, 0);
    var s3 := SetSlot(s2, p, d, FdEntry(Some(f), false));
    SlotOnly(s2, p, d, FdEntry(Some(f), false));
    FdCloseCloses(s3, p, d);
    ReleaseCloses(FdClose(s3, p, d), f + 1);
    ClosesTwice(s3, FdClose(s3, p, d), Release(FdClose(s3, p, d), f + 1));
    FewerOfAdded(s, s2, Release(FdClose(s3, p, d), f + 1));
    if p in s3.tasks {
      var e := FirstFree(s3.tasks[p].fds, 0);
      SlotOnly(s3, p, e, FdEntry(Some(f + 1), false));
      FewerOfAdded(s, s2, SetSlot(s3, p, e, FdEntry(Some(f + 1), false)));
    }
  }

  lemma SlotOnly(s: State, p: Pid, d: int, e: FdEntry)
    ensures var s' := SetSlot(s, p, d, e);
      OnlyCloses(s, s') && s'.files == s.files && s'.nextPipe == s.nextPipe && s'.tasks.Keys == s.tasks.Keys
  {
    assert SetSlot(s, p, d, e).tasks.Keys == s.tasks.Keys;
  }

}
