/**
 Descriptor operations keep the invariant: each moves one reference between a
 slot and a local variable, or gives it back.
 */
module KernelDescriptors {
  import opened Common
  import opened KernelState
  import opened KernelInvariant

  // ----- What an operation leaves alone ---------------------------------------

  /** Same task, except that a pipe or poll waiter may have been woken. */
  ghost predicate SameButWoken(t: Task, t': Task) {
    t' == t || (PipeWaiter(t) && t' == t.(state := Runnable))
  }

  /** Other tasks are at most woken; p at most has other slots. */
  ghost predicate TasksFrame(tasks: map<Pid, Task>, tasks': map<Pid, Task>, p: Pid) {
    && tasks'.Keys == tasks.Keys
    && (forall r :: r in tasks && r != p ==> SameButWoken(tasks[r], tasks'[r]))
    && (p in tasks ==> SameButWoken(tasks[p].(fds := tasks'[p].fds), tasks'[p]))
  }

  /** A descriptor operation of p: scheduling data and the other histories stay. */
  ghost predicate Frame(s: State, s': State, p: Pid) {
    && TasksFrame(s.tasks, s'.tasks, p)
    && s'.order == s.order && s'.current == s.current && s'.cursor == s.cursor && s'.nextPid == s.nextPid
    && s'.bootPid == s.bootPid && s'.bootStatus == s.bootStatus
    && s'.hist == s.hist.(closed := s'.hist.closed)
    && s'.nextFile >= s.nextFile && s'.nextPipe >= s.nextPipe
  }

  lemma TasksFrameTrans(t0: map<Pid, Task>, t1: map<Pid, Task>, t2: map<Pid, Task>, p: Pid)
    requires TasksFrame(t0, t1, p) && TasksFrame(t1, t2, p)
    ensures TasksFrame(t0, t2, p)
  {
  }

  lemma FrameTrans(s0: State, s1: State, s2: State, p: Pid)
    requires Frame(s0, s1, p) && Frame(s1, s2, p)
    ensures Frame(s0, s2, p)
  {
    hide TasksFrame;
    TasksFrameTrans(s0.tasks, s1.tasks, s2.tasks, p);
  }

  // ----- Changing one slot ---------------------------------------------------

  ghost function One(f: Option<FileId>): multiset<FileId> {
    if f.Some? then multiset{f.value} else multiset{}
  }

  lemma HoldersOfUpdate(tasks: map<Pid, Task>, p: Pid, d: int, e: FdEntry, g: FileId)
    requires p in tasks && 0 <= d < |tasks[p].fds| == MAX_FDS
    ensures Holders(tasks[p := tasks[p].(fds := tasks[p].fds[d := e])], g)
         == Holders(tasks, g) - {(p, d)} + (if e.file == Some(g) then {(p, d)} else {})
    ensures (p, d) in Holders(tasks, g) <==> tasks[p].fds[d].file == Some(g)
  {
    assert tasks[p := tasks[p].(fds := tasks[p].fds[d := e])].Keys == tasks.Keys;
  }

  lemma Pointwise(a: multiset<FileId>, x: Option<FileId>, b: multiset<FileId>, y: Option<FileId>, f: FileId)
    requires a + One(x) == b + One(y)
    ensures a[f] + (if x == Some(f) then 1 else 0) == b[f] + (if y == Some(f) then 1 else 0)
  {
    assert (a + One(x))[f] == (b + One(y))[f];
  }

  lemma CountedAfterUpdate(tasks: map<Pid, Task>, files: map<FileId, OpenFile>, p: Pid, d: int, e: FdEntry,
                           loose: multiset<FileId>, loose': multiset<FileId>, f: FileId)
    requires p in tasks && 0 <= d < |tasks[p].fds| == MAX_FDS
    requires loose' + One(e.file) == loose + One(tasks[p].fds[d].file)
    requires f in files && Counted(tasks, files, loose, f)
    ensures Counted(tasks[p := tasks[p].(fds := tasks[p].fds[d := e])], files, loose', f)
  {
    HoldersOfUpdate(tasks, p, d, e, f);
    Pointwise(loose', e.file, loose, tasks[p].fds[d].file, f);
  }

  lemma CountsAfterUpdate(tasks: map<Pid, Task>, files: map<FileId, OpenFile>, p: Pid, d: int, e: FdEntry,
                          loose: multiset<FileId>, loose': multiset<FileId>)
    requires Counts(tasks, files, loose)
    requires p in tasks && 0 <= d < |tasks[p].fds| == MAX_FDS
    requires loose' + One(e.file) == loose + One(tasks[p].fds[d].file)
    ensures Counts(tasks[p := tasks[p].(fds := tasks[p].fds[d := e])], files, loose')
  {
    hide Counted;
    var tasks' := tasks[p := tasks[p].(fds := tasks[p].fds[d := e])];
    forall f | f in files ensures Counted(tasks', files, loose', f) {
      CountedAfterUpdate(tasks, files, p, d, e, loose, loose', f);
    }
    forall f: FileId ensures f in loose' || e.file == Some(f) ==> f in files {
      Pointwise(loose', e.file, loose, tasks[p].fds[d].file, f);
    }
  }

  /** A task outside any call may have any slots, as far as everything else goes. */
  lemma SlotsAreFree(tasks: map<Pid, Task>, files: map<FileId, OpenFile>, pipes: map<PipeId, Pipe>, p: Pid,
                     fds: seq<FdEntry>)
    requires p in tasks && tasks[p].call.NoCall?
    requires Owned(tasks, files) && IoWaits(tasks, files, pipes) && ChildWaits(tasks)
    ensures var tasks' := tasks[p := tasks[p].(fds := fds)];
      Owned(tasks', files) && IoWaits(tasks', files, pipes) && ChildWaits(tasks')
  {
    var tasks' := tasks[p := tasks[p].(fds := fds)];
    forall r | r in tasks' && tasks'[r].state.BlockedWait? ensures WaitBlockOk(tasks', r, tasks'[r].call) {
      assert NothingToDo(files, pipes, tasks[r]);
      assert WaitBlockOk(tasks, r, tasks[r].call);
      ChildOfDependsOnParents(tasks, tasks', r, tasks[r].call.target);
    }
  }

  lemma ChildOfDependsOnParents(tasks: map<Pid, Task>, tasks': map<Pid, Task>, p: Pid, target: Pid)
    requires tasks'.Keys == tasks.Keys
    requires forall r :: r in tasks ==> tasks'[r].ppid == tasks[r].ppid
    ensures forall c :: ChildOf(tasks', p, target, c) <==> ChildOf(tasks, p, target, c)
  {
  }

  /** Filling, clearing or flagging one slot of a task that is not inside a call. */
  lemma SlotChanged(s: State, p: Pid, d: int, e: FdEntry, loose: multiset<FileId>, loose': multiset<FileId>)
    requires Core(s, loose)
    requires HasSlot(s, p, d) && s.tasks[p].call.NoCall?
    requires s.tasks[p].state.Zombie? ==> e.file.None?
    requires loose' + One(e.file) == loose + One(s.tasks[p].fds[d].file)
    ensures Core(SetSlot(s, p, d, e), loose')
    ensures Frame(s, SetSlot(s, p, d, e), p)
  {
    hide Counts, Pipes, Fifo, PipeIds, FileIds, Owned, IoWaits, ChildWaits, Reaps;
    CountsAfterUpdate(s.tasks, s.files, p, d, e, loose, loose');
    SlotsAreFree(s.tasks, s.files, s.pipes, p, s.tasks[p].fds[d := e]);
    assert SetSlot(s, p, d, e).tasks.Keys == s.tasks.Keys;
  }

  // ----- Waking --------------------------------------------------------------

  lemma HoldersDependOnSlots(tasks: map<Pid, Task>, tasks': map<Pid, Task>, f: FileId)
    requires tasks'.Keys == tasks.Keys
    requires forall r :: r in tasks ==> tasks'[r].fds == tasks[r].fds
    ensures Holders(tasks', f) == Holders(tasks, f)
  {
  }

  lemma CountsDependOnSlots(tasks: map<Pid, Task>, tasks': map<Pid, Task>, files: map<FileId, OpenFile>,
                            loose: multiset<FileId>)
    requires Counts(tasks, files, loose)
    requires tasks'.Keys == tasks.Keys
    requires forall r :: r in tasks ==> tasks'[r].fds == tasks[r].fds
    ensures Counts(tasks', files, loose)
  {
    forall f | f in files ensures Counted(tasks', files, loose, f) {
      assert Counted(tasks, files, loose, f);
      HoldersDependOnSlots(tasks, tasks', f);
    }
  }

  predicate Blocked(t: Task) {
    t.state.BlockedPipe? || t.state.BlockedPoll? || t.state.BlockedConsole? || t.state.BlockedWait?
  }

  /** Tasks that became runnable, out of any blocked state, are never wrong to run. */
  ghost predicate Wakes(tasks: map<Pid, Task>, tasks': map<Pid, Task>) {
    && tasks'.Keys == tasks.Keys
    && (forall r :: r in tasks ==>
          tasks'[r] == tasks[r] || (Blocked(tasks[r]) && tasks'[r] == tasks[r].(state := Runnable)))
  }

  lemma WakesKeep(s: State, tasks': map<Pid, Task>, loose: multiset<FileId>)
    requires Core(s, loose) && Wakes(s.tasks, tasks')
    ensures Core(s.(tasks := tasks'), loose)
  {
    hide Counts, Pipes, Fifo, PipeIds, FileIds, ChildWaits, Reaps;
    CountsDependOnSlots(s.tasks, tasks', s.files, loose);
    WakesKeepChildWaits(s.tasks, tasks');
  }

  lemma WakesKeepChildWaits(tasks: map<Pid, Task>, tasks': map<Pid, Task>)
    requires ChildWaits(tasks) && Wakes(tasks, tasks')
    ensures ChildWaits(tasks')
  {
    forall r | r in tasks' && tasks'[r].state.BlockedWait? ensures WaitBlockOk(tasks', r, tasks'[r].call) {
      assert WaitBlockOk(tasks, r, tasks[r].call);
      ChildOfDependsOnParents(tasks, tasks', r, tasks[r].call.target);
    }
  }

  /** After cb_wake_pipe_tasks nobody waits for a pipe, so pipes may change freely. */
  lemma WokenWaitForNothing(tasks: map<Pid, Task>, files: map<FileId, OpenFile>, pipes: map<PipeId, Pipe>,
                            files': map<FileId, OpenFile>, pipes': map<PipeId, Pipe>)
    requires IoWaits(tasks, files, pipes)
    ensures IoWaits(WakePipeTasks(tasks), files', pipes')
  {
    var tasks' := WakePipeTasks(tasks);
    forall r | r in tasks' ensures NothingToDo(files', pipes', tasks'[r]) {
      assert NothingToDo(files, pipes, tasks[r]);
    }
  }

  // ----- Counting up and down -------------------------------------------------

  /** Only the reference count of f differs. */
  ghost predicate Recounted(files: map<FileId, OpenFile>, files': map<FileId, OpenFile>, f: FileId) {
    && f in files && f in files'
    && files' == files[f := files[f].(references := files'[f].references)]
  }

  lemma KindsSame(files: map<FileId, OpenFile>, files': map<FileId, OpenFile>, f: FileId)
    requires Recounted(files, files', f)
    ensures files'.Keys == files.Keys
    ensures forall g :: g in files ==> files'[g].kind == files[g].kind
    ensures forall q, e :: Ends(files', q, e) == Ends(files, q, e)
  {
    assert files'.Keys == files.Keys;
    forall q, e ensures Ends(files', q, e) == Ends(files, q, e) { }
  }

  lemma RecountKeepsIo(tasks: map<Pid, Task>, files: map<FileId, OpenFile>, files': map<FileId, OpenFile>,
                       pipes: map<PipeId, Pipe>, f: FileId)
    requires Recounted(files, files', f)
    requires Pipes(files, pipes) && Owned(tasks, files) && IoWaits(tasks, files, pipes)
    ensures Pipes(files', pipes) && Owned(tasks, files') && IoWaits(tasks, files', pipes)
  {
    hide Ends;
    KindsSame(files, files', f);
    forall q | q in pipes ensures PipeOk(files', q, pipes[q]) {
      assert PipeOk(files, q, pipes[q]);
    }
    forall r | r in tasks ensures OwnsFile(files', tasks[r]) && NothingToDo(files', pipes, tasks[r]) {
      assert OwnsFile(files, tasks[r]) && NothingToDo(files, pipes, tasks[r]);
    }
  }

  lemma CountsAfterRecount(tasks: map<Pid, Task>, files: map<FileId, OpenFile>, files': map<FileId, OpenFile>,
                           f: FileId, loose: multiset<FileId>, loose': multiset<FileId>)
    requires Recounted(files, files', f) && Counts(tasks, files, loose)
    requires files'[f].references == files[f].references - loose[f] + loose'[f] > 0
    requires forall g :: g != f ==> loose'[g] == loose[g]
    ensures Counts(tasks, files', loose')
  {
    KindsSame(files, files', f);
    forall g | g in files' ensures Counted(tasks, files', loose', g) {
      assert Counted(tasks, files, loose, g);
    }
    forall g | g in loose' ensures g in files' {
      if g != f { assert g in loose; }
    }
  }

  lemma Recount(s: State, s': State, f: FileId, loose: multiset<FileId>, loose': multiset<FileId>)
    requires Core(s, loose) && Recounted(s.files, s'.files, f) && s' == s.(files := s'.files)
    requires s'.files[f].references == s.files[f].references - loose[f] + loose'[f] > 0
    requires forall g :: g != f ==> loose'[g] == loose[g]
    ensures Core(s', loose')
  {
    hide Shape, Counts, Pipes, Fifo, PipeIds, Owned, IoWaits, ChildWaits, Interrupts, Deaths, Reaps;
    CountsAfterRecount(s.tasks, s.files, s'.files, f, loose, loose');
    RecountKeepsIo(s.tasks, s.files, s'.files, s.pipes, f);
    KindsSame(s.files, s'.files, f);
  }

  lemma Retained(s: State, f: FileId, loose: multiset<FileId>)
    requires Core(s, loose) && f in s.files
    ensures Core(Retain(s, f), loose + multiset{f})
    ensures forall p :: Frame(s, Retain(s, f), p)
    ensures Retain(s, f).tasks == s.tasks && Retain(s, f).pipes == s.pipes
    ensures Retain(s, f).files.Keys == s.files.Keys
  {
    hide Shape, Pipes, Fifo, PipeIds, FileIds, Owned, IoWaits, ChildWaits, Interrupts, Deaths, Reaps, SlotsLive;
    assert Counted(s.tasks, s.files, loose, f);
    Recount(s, Retain(s, f), f, loose, loose + multiset{f});
  }

  // ----- The last reference goes away --------------------------------------------

  /** A file whose only reference is loose has no holder, so it can go. */
  lemma CountsAfterRemoval(tasks: map<Pid, Task>, nextPid: nat, files: map<FileId, OpenFile>, f: FileId,
                           loose: multiset<FileId>)
    requires Shape(tasks, nextPid) && Counts(tasks, files, loose)
    requires f in files && f in loose && files[f].references == 1
    ensures Counts(tasks, files - {f}, loose - multiset{f})
    ensures Holders(tasks, f) == {}
    ensures forall r, d :: r in tasks && 0 <= d < |tasks[r].fds| ==> tasks[r].fds[d].file != Some(f)
  {
    assert Counted(tasks, files, loose, f);
    assert |Holders(tasks, f)| == 0;
    var loose' := loose - multiset{f};
    forall r, d | r in tasks && 0 <= d < |tasks[r].fds| ensures tasks[r].fds[d].file != Some(f) {
      assert (r, d) !in Holders(tasks, f);
    }
    forall g | g in files - {f} ensures Counted(tasks, files - {f}, loose', g) {
      assert Counted(tasks, files, loose, g);
    }
  }

  /** Nobody waits for a file that nobody holds. */
  lemma IoAfterRemoval(tasks: map<Pid, Task>, files: map<FileId, OpenFile>, pipes: map<PipeId, Pipe>, f: FileId)
    requires forall r, d :: r in tasks && 0 <= d < |tasks[r].fds| ==> tasks[r].fds[d].file != Some(f)
    requires Owned(tasks, files) && IoWaits(tasks, files, pipes) && SlotsLive(tasks, files)
    ensures Owned(tasks, files - {f}) && IoWaits(tasks, files - {f}, pipes)
  {
    forall r | r in tasks ensures OwnsFile(files - {f}, tasks[r]) {
      assert OwnsFile(files, tasks[r]);
    }
    forall r | r in tasks ensures NothingToDo(files - {f}, pipes, tasks[r]) {
      assert NothingToDo(files, pipes, tasks[r]);
    }
  }

  lemma PipesAfterPlainRemoval(files: map<FileId, OpenFile>, pipes: map<PipeId, Pipe>, f: FileId)
    requires Pipes(files, pipes) && f in files && !files[f].kind.PipeEnd?
    ensures Pipes(files - {f}, pipes)
  {
    forall q | q in pipes ensures PipeOk(files - {f}, q, pipes[q]) {
      assert PipeOk(files, q, pipes[q]);
      assert Ends(files - {f}, q, ReadEnd) == Ends(files, q, ReadEnd);
      assert Ends(files - {f}, q, WriteEnd) == Ends(files, q, WriteEnd);
    }
  }

  function PipesAfterClose(pipes: map<PipeId, Pipe>, q: PipeId, e: End): map<PipeId, Pipe>
    requires q in pipes
  {
    var p := DropEnd(pipes[q], e);
    if p.readers == 0 && p.writers == 0 then pipes - {q} else pipes[q := p]
  }

  lemma EndsAfterRemoval(files: map<FileId, OpenFile>, f: FileId, r: PipeId, e: End)
    requires f in files
    ensures |Ends(files - {f}, r, e)| == |Ends(files, r, e)| - (if files[f].kind == PipeEnd(r, e) then 1 else 0)
  {
    assert Ends(files - {f}, r, e) == Ends(files, r, e) - {f};
  }

  lemma PipeOkAfterRemoval(files: map<FileId, OpenFile>, r: PipeId, p: Pipe, f: FileId, q: PipeId, e: End)
    requires PipeOk(files, r, p) && f in files && files[f].kind == PipeEnd(q, e)
    ensures r != q ==> PipeOk(files - {f}, r, p)
    ensures r == q && DropEnd(p, e).readers + DropEnd(p, e).writers > 0 ==> PipeOk(files - {f}, r, DropEnd(p, e))
    ensures r == q ==> DropEnd(p, e).readers == |Ends(files - {f}, q, ReadEnd)|
    ensures r == q ==> DropEnd(p, e).writers == |Ends(files - {f}, q, WriteEnd)|
  {
    hide Ends;
    EndsAfterRemoval(files, f, r, ReadEnd);
    EndsAfterRemoval(files, f, r, WriteEnd);
  }

  lemma PipesAfterEndRemoval(files: map<FileId, OpenFile>, pipes: map<PipeId, Pipe>, f: FileId, q: PipeId, e: End)
    requires Pipes(files, pipes) && f in files && files[f].kind == PipeEnd(q, e)
    ensures q in pipes && Pipes(files - {f}, PipesAfterClose(pipes, q, e))
  {
    hide PipeOk;
    var files' := files - {f};
    var pipes' := PipesAfterClose(pipes, q, e);
    PipeOkAfterRemoval(files, q, pipes[q], f, q, e);
    forall r | r in pipes' ensures PipeOk(files', r, pipes'[r]) {
      PipeOkAfterRemoval(files, r, pipes[r], f, q, e);
    }
    forall g | g in files' && files'[g].kind.PipeEnd? && files'[g].kind.pipe == q ensures q in pipes' {
      assert g in Ends(files', q, files'[g].kind.end);
    }
  }

  lemma FifoAfterClose(pipes: map<PipeId, Pipe>, sent: map<PipeId, seq<Byte>>, received: map<PipeId, seq<Byte>>,
                       nextPipe: nat, q: PipeId, e: End)
    requires Fifo(pipes, sent, received) && PipeIds(pipes, nextPipe, sent, received) && q in pipes
    ensures Fifo(PipesAfterClose(pipes, q, e), sent, received)
    ensures PipeIds(PipesAfterClose(pipes, q, e), nextPipe, sent, received)
  {
  }

  lemma FileIdsAfterRemoval(files: map<FileId, OpenFile>, nextFile: nat, closed: seq<FileId>, f: FileId)
    requires FileIds(files, nextFile, closed) && f in files
    ensures FileIds(files - {f}, nextFile, closed + [f])
  {
  }

  lemma Removed(s: State, f: FileId, loose: multiset<FileId>)
    requires Core(s, loose) && f in s.files && f in loose && s.files[f].references == 1 && !s.files[f].kind.PipeEnd?
    ensures Core(Release(s, f), loose - multiset{f})
    ensures Release(s, f).tasks == s.tasks
  {
    hide Shape, Counts, Pipes, Fifo, PipeIds, FileIds, Owned, IoWaits, ChildWaits, Interrupts, Deaths, Reaps, SlotsLive;
    CountsAfterRemoval(s.tasks, s.nextPid, s.files, f, loose);
    assert SlotsLive(s.tasks, s.files) by { CountsImplySlotsLive(s.tasks, s.files, loose); }
    IoAfterRemoval(s.tasks, s.files, s.pipes, f);
    PipesAfterPlainRemoval(s.files, s.pipes, f);
    FileIdsAfterRemoval(s.files, s.nextFile, s.hist.closed, f);
  }

  lemma CountsImplySlotsLive(tasks: map<Pid, Task>, files: map<FileId, OpenFile>, loose: multiset<FileId>)
    requires Counts(tasks, files, loose)
    ensures SlotsLive(tasks, files)
  {
  }

  lemma PipeWakes(tasks: map<Pid, Task>)
    ensures Wakes(tasks, WakePipeTasks(tasks))
    ensures forall p :: TasksFrame(tasks, WakePipeTasks(tasks), p)
  {
  }

  lemma RemovedEnd(s: State, f: FileId, q: PipeId, e: End, loose: multiset<FileId>)
    requires Core(s, loose) && f in s.files && f in loose && s.files[f] == OpenFile(1, PipeEnd(q, e))
    ensures Core(Release(s, f), loose - multiset{f})
    ensures Release(s, f).tasks == WakePipeTasks(s.tasks)
  {
    hide Shape, Counts, Pipes, Fifo, PipeIds, FileIds, Owned, IoWaits, ChildWaits, Interrupts, Deaths, Reaps,
         SlotsLive, Wakes, TasksFrame;
    var tasks' := WakePipeTasks(s.tasks);
    PipeWakes(s.tasks);
    var s1 := s.(tasks := tasks');
    WakesKeep(s, tasks', loose);
    CountsAfterRemoval(tasks', s.nextPid, s.files, f, loose);
    CountsImplySlotsLive(tasks', s.files, loose);
    IoAfterRemoval(tasks', s.files, s.pipes, f);
    PipesAfterEndRemoval(s.files, s.pipes, f, q, e);
    WokenWaitForNothing(s.tasks, s.files, s.pipes, s.files - {f}, PipesAfterClose(s.pipes, q, e));
    FileIdsAfterRemoval(s.files, s.nextFile, s.hist.closed, f);
    FifoAfterClose(s.pipes, s.hist.sent, s.hist.received, s.nextPipe, q, e);
  }

  /** Giving back a loose reference, whether or not it is the last. */
  lemma Released(s: State, f: FileId, loose: multiset<FileId>)
    requires Core(s, loose) && f in loose
    ensures Core(Release(s, f), loose - multiset{f})
    ensures forall p :: Frame(s, Release(s, f), p)
  {
    hide Shape, Pipes, Fifo, PipeIds, FileIds, Owned, IoWaits, ChildWaits, Interrupts, Deaths, Reaps, SlotsLive,
         TasksFrame;
    assert f in s.files && Counted(s.tasks, s.files, loose, f);
    SameTasksFrame(s.tasks);
    if s.files[f].references != 1 {
      Recount(s, Release(s, f), f, loose, loose - multiset{f});
    } else if s.files[f].kind.PipeEnd? {
      RemovedEnd(s, f, s.files[f].kind.pipe, s.files[f].kind.end, loose);
      PipeWakes(s.tasks);
    } else {
      Removed(s, f, loose);
    }
  }

  lemma SameTasksFrame(tasks: map<Pid, Task>)
    ensures forall p :: TasksFrame(tasks, tasks, p)
  {
  }

  // ----- New files ---------------------------------------------------------------

  lemma CountsAfterCreate(tasks: map<Pid, Task>, files: map<FileId, OpenFile>, f: FileId, kind: FileKind,
                          loose: multiset<FileId>)
    requires Counts(tasks, files, loose) && f !in files
    ensures Counts(tasks, files[f := OpenFile(1, kind)], loose + multiset{f})
  {
    var files' := files[f := OpenFile(1, kind)];
    assert Holders(tasks, f) == {};
    assert f !in loose;
    forall g | g in files' ensures Counted(tasks, files', loose + multiset{f}, g) {
      if g != f { assert Counted(tasks, files, loose, g); }
    }
  }

  /** A new file, and a pipe that gains an end with it, make no suspended call ready. */
  lemma IoAfterCreate(tasks: map<Pid, Task>, files: map<FileId, OpenFile>, pipes: map<PipeId, Pipe>,
                      pipes': map<PipeId, Pipe>, f: FileId, kind: FileKind)
    requires Owned(tasks, files) && IoWaits(tasks, files, pipes) && SlotsLive(tasks, files) && Pipes(files, pipes)
    requires f !in files
    requires forall q :: q in pipes ==> q in pipes' && pipes'[q].contents == pipes[q].contents
    requires forall q :: q in pipes ==> pipes'[q].readers >= pipes[q].readers && pipes'[q].writers >= pipes[q].writers
    ensures Owned(tasks, files[f := OpenFile(1, kind)])
    ensures IoWaits(tasks, files[f := OpenFile(1, kind)], pipes')
  {
    hide PipeOk;
    var files' := files[f := OpenFile(1, kind)];
    forall r | r in tasks ensures OwnsFile(files', tasks[r]) {
      assert OwnsFile(files, tasks[r]);
    }
    forall r | r in tasks ensures NothingToDo(files', pipes', tasks[r]) {
      assert NothingToDo(files, pipes, tasks[r]);
      if tasks[r].state.BlockedPoll? {
        forall i | 0 <= i < |tasks[r].call.fds|
          ensures !PollReady(files', pipes', tasks[r].fds, tasks[r].call.fds[i], false)
        {
          assert !PollReady(files, pipes, tasks[r].fds, tasks[r].call.fds[i], false);
          PipesCountUp(files, pipes);
        }
      }
    }
  }

  lemma PipesCountUp(files: map<FileId, OpenFile>, pipes: map<PipeId, Pipe>)
    requires Pipes(files, pipes)
    ensures forall q :: q in pipes ==> pipes[q].readers >= 0 && pipes[q].writers >= 0
  {
    forall q | q in pipes ensures pipes[q].readers >= 0 && pipes[q].writers >= 0 {
      assert PipeOk(files, q, pipes[q]);
    }
  }

  lemma FileIdsAfterCreate(files: map<FileId, OpenFile>, nextFile: nat, closed: seq<FileId>, file: OpenFile)
    requires FileIds(files, nextFile, closed)
    ensures nextFile !in files && FileIds(files[nextFile := file], nextFile + 1, closed)
  {
  }

  lemma PipesAfterCreate(files: map<FileId, OpenFile>, pipes: map<PipeId, Pipe>, f: FileId, kind: FileKind)
    requires Pipes(files, pipes) && f !in files && !kind.PipeEnd?
    ensures Pipes(files[f := OpenFile(1, kind)], pipes)
  {
    var files' := files[f := OpenFile(1, kind)];
    forall q | q in pipes ensures PipeOk(files', q, pipes[q]) {
      assert PipeOk(files, q, pipes[q]);
      assert Ends(files', q, ReadEnd) == Ends(files, q, ReadEnd);
      assert Ends(files', q, WriteEnd) == Ends(files, q, WriteEnd);
    }
  }

  lemma CreatedFile(s: State, kind: FileKind, loose: multiset<FileId>)
    requires Core(s, loose) && !kind.PipeEnd?
    ensures Core(CreateFile(s, kind), loose + multiset{s.nextFile})
    ensures forall p :: Frame(s, CreateFile(s, kind), p)
  {
    hide Shape, Counts, Pipes, Fifo, PipeIds, FileIds, Owned, IoWaits, ChildWaits, Interrupts, Deaths, Reaps,
         SlotsLive, TasksFrame;
    FileIdsAfterCreate(s.files, s.nextFile, s.hist.closed, OpenFile(1, kind));
    CountsAfterCreate(s.tasks, s.files, s.nextFile, kind, loose);
    CountsImplySlotsLive(s.tasks, s.files, loose);
    IoAfterCreate(s.tasks, s.files, s.pipes, s.pipes, s.nextFile, kind);
    PipesAfterCreate(s.files, s.pipes, s.nextFile, kind);
    SameTasksFrame(s.tasks);
  }

  // ----- New pipe ends -------------------------------------------------------------

  lemma EndsAfterCreate(files: map<FileId, OpenFile>, f: FileId, q: PipeId, e: End, r: PipeId, end: End)
    requires f !in files
    ensures |Ends(files[f := OpenFile(1, PipeEnd(q, e))], r, end)|
         == |Ends(files, r, end)| + (if r == q && end == e then 1 else 0)
  {
    var files' := files[f := OpenFile(1, PipeEnd(q, e))];
    if r == q && end == e {
      assert Ends(files', r, end) == Ends(files, r, end) + {f};
    } else {
      assert Ends(files', r, end) == Ends(files, r, end);
    }
  }

  lemma PipesAfterEnd(files: map<FileId, OpenFile>, pipes: map<PipeId, Pipe>, f: FileId, q: PipeId, e: End)
    requires Pipes(files, pipes) && f !in files
    ensures Pipes(files[f := OpenFile(1, PipeEnd(q, e))], PipesWithEnd(pipes, q, e))
  {
    var files' := files[f := OpenFile(1, PipeEnd(q, e))];
    var pipes' := PipesWithEnd(pipes, q, e);
    forall r | r in pipes' ensures PipeOk(files', r, pipes'[r]) {
      EndsAfterCreate(files, f, q, e, r, ReadEnd);
      EndsAfterCreate(files, f, q, e, r, WriteEnd);
      if r in pipes {
        assert PipeOk(files, r, pipes[r]);
      } else {
        assert Ends(files, r, ReadEnd) == {} && Ends(files, r, WriteEnd) == {};
      }
    }
  }

  lemma FifoAfterEnd(pipes: map<PipeId, Pipe>, sent: map<PipeId, seq<Byte>>, received: map<PipeId, seq<Byte>>,
                     nextPipe: nat, q: PipeId, e: End)
    requires Fifo(pipes, sent, received) && PipeIds(pipes, nextPipe, sent, received)
    requires q in pipes || q == nextPipe
    ensures Fifo(PipesWithEnd(pipes, q, e), sent, received)
    ensures PipeIds(PipesWithEnd(pipes, q, e), if q == nextPipe then q + 1 else nextPipe, sent, received)
  {
    if q !in pipes {
      assert q !in sent && q !in received;
    }
  }

  lemma EndCreated(s: State, q: PipeId, e: End, loose: multiset<FileId>)
    requires Core(s, loose)
    requires q in s.pipes || q == s.nextPipe
    ensures Core(CreateEnd(s, q, e), loose + multiset{s.nextFile})
    ensures forall p :: Frame(s, CreateEnd(s, q, e), p)
  {
    hide Shape, Counts, Pipes, Fifo, PipeIds, FileIds, Owned, IoWaits, ChildWaits, Interrupts, Deaths, Reaps,
         SlotsLive, TasksFrame;
    FileIdsAfterCreate(s.files, s.nextFile, s.hist.closed, OpenFile(1, PipeEnd(q, e)));
    CountsAfterCreate(s.tasks, s.files, s.nextFile, PipeEnd(q, e), loose);
    CountsImplySlotsLive(s.tasks, s.files, loose);
    IoAfterCreate(s.tasks, s.files, s.pipes, PipesWithEnd(s.pipes, q, e), s.nextFile, PipeEnd(q, e));
    PipesAfterEnd(s.files, s.pipes, s.nextFile, q, e);
    FifoAfterEnd(s.pipes, s.hist.sent, s.hist.received, s.nextPipe, q, e);
    SameTasksFrame(s.tasks);
  }
}
