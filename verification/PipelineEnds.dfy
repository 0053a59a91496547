/**
 What the plumbing is for: each pipe of a pipeline has one writer, and when that
 stage exits the next one reads to the end of the file.
 */
module PipelineEnds {
  import opened Common
  import opened KernelState
  import K = KernelInvariant
  import KernelIo
  import KernelLife
  import opened KernelSlots
  import opened KernelFiles
  import opened Pipeline
  import opened PipelineRun

  /** A state of the kernel in which a pipeline has been set up */
  ghost predicate SetUp(S: map<Pid, Table>, s: State, stages: seq<Stage>, pids: seq<Pid>, first: FileId,
                        pipe0: PipeId) {
    K.Inv(s) && Kinds(s.files, first, pipe0) && Plumbed(S, Slots(s.tasks), stages, pids, first)
  }

  lemma SlotIs(s: State, r: Pid, d: int)
    requires r in s.tasks && 0 <= d < |s.tasks[r].fds|
    ensures r in Slots(s.tasks) && d < |Slots(s.tasks)[r]| && Slots(s.tasks)[r][d] == s.tasks[r].fds[d].file
  {
  }

  /** A file a slot holds is open. */
  lemma HeldIsOpen(s: State, r: Pid, d: int, f: FileId)
    requires K.Inv(s) && r in Slots(s.tasks) && 0 <= d < |Slots(s.tasks)[r]| && Slots(s.tasks)[r][d] == Some(f)
    ensures f in s.files && K.Counted(s.tasks, s.files, multiset{}, f)
    ensures s.files[f].kind.PipeEnd? ==>
              && s.files[f].kind.pipe in s.pipes
              && K.PipeOk(s.files, s.files[f].kind.pipe, s.pipes[s.files[f].kind.pipe])
  {
    hide K.Fifo, K.PipeIds, K.Owned, K.IoWaits, K.ChildWaits, K.Interrupts, K.Deaths, K.Reaps, K.Listed, K.Turns,
         K.Counted, K.PipeOk;
    assert s.tasks[r].fds[d].file == Some(f);
  }

  /** The number of the file tells the end it is. */
  lemma EndOfNumber(files: map<FileId, OpenFile>, first: FileId, pipe0: PipeId, k: nat, e: End)
    requires Kinds(files, first, pipe0)
    ensures var f := first + 2 * k + if e.WriteEnd? then 1 else 0;
      && (f in files ==> files[f].kind == PipeEnd(pipe0 + k, e))
      && (forall g :: g in files && files[g].kind == PipeEnd(pipe0 + k, e) ==> g == f)
  {
    var f := first + 2 * k + if e.WriteEnd? then 1 else 0;
    if f in files {
      assert KindOk(f, files[f].kind, first, pipe0);
    }
    forall g | g in files && files[g].kind == PipeEnd(pipe0 + k, e) ensures g == f {
      assert KindOk(g, files[g].kind, first, pipe0);
    }
  }

  /** f is the only write end of q, and descriptor 1 of p is all that holds it. */
  ghost predicate SoleWriter(s: State, f: FileId, q: PipeId, p: Pid) {
    && f in s.files && s.files[f] == OpenFile(1, PipeEnd(q, WriteEnd)) && K.Holders(s.tasks, f) == {(p, 1)}
    && q in s.pipes && s.pipes[q].writers == 1
  }

  /** Pipe k has one open write end, held by one descriptor: 1 of stage k. */
  lemma OneWriter(S: map<Pid, Table>, s: State, stages: seq<Stage>, pids: seq<Pid>, first: FileId, pipe0: PipeId,
                  k: nat)
    requires k + 1 < |stages| && k < |pids| && !stages[k].output && SetUp(S, s, stages, pids, first, pipe0)
    ensures SoleWriter(s, first + 2 * k + 1, pipe0 + k, pids[k])
  {
    hide K.Inv, Kinds, Plumbed, K.Holders, Slots;
    var f, q := first + 2 * k + 1, pipe0 + k;
    StageIsTask(S, Slots(s.tasks), stages, pids, first, k);
    WriteEndHeld(S, Slots(s.tasks), stages, pids, first, k, pids[k], 1);
    HeldIsOpen(s, pids[k], 1, f);
    EndOfNumber(s.files, first, pipe0, k, WriteEnd);
    HoldersAre(S, s, stages, pids, first, pipe0, k);
    assert K.Ends(s.files, q, WriteEnd) == {f};
  }

  lemma StageIsTask(S: map<Pid, Table>, F: map<Pid, Table>, stages: seq<Stage>, pids: seq<Pid>, first: FileId, k: nat)
    requires Plumbed(S, F, stages, pids, first) && k < |pids|
    ensures pids[k] in F && |F[pids[k]]| == MAX_FDS && k < |stages|
  {
    assert StageHolds(F[pids[k]], stages, first, k);
  }

  lemma HoldersAre(S: map<Pid, Table>, s: State, stages: seq<Stage>, pids: seq<Pid>, first: FileId, pipe0: PipeId,
                   k: nat)
    requires k + 1 < |stages| && k < |pids| && !stages[k].output && SetUp(S, s, stages, pids, first, pipe0)
    ensures K.Holders(s.tasks, first + 2 * k + 1) == {(pids[k], 1)}
  {
    hide K.Inv, Kinds, Plumbed;
    var f := first + 2 * k + 1;
    StageIsTask(S, Slots(s.tasks), stages, pids, first, k);
    WriteEndHeld(S, Slots(s.tasks), stages, pids, first, k, pids[k], 1);
    Sizes(s);
    forall h | h in K.Holders(s.tasks, f) ensures h == (pids[k], 1) {
      SlotIs(s, h.0, h.1);
      WriteEndHeld(S, Slots(s.tasks), stages, pids, first, k, h.0, h.1);
    }
    assert (pids[k], 1) in K.Holders(s.tasks, f);
  }

  lemma Sizes(s: State)
    requires K.Inv(s)
    ensures forall r :: r in s.tasks ==> |s.tasks[r].fds| == MAX_FDS
  {
    hide K.Fifo, K.PipeIds, K.Owned, K.IoWaits, K.ChildWaits, K.Interrupts, K.Deaths, K.Reaps, K.Listed, K.Turns,
         K.Counts, K.Pipes;
  }

  // ----- Exit ---------------------------------------------------------------------------------------

  lemma ExitSlots(s: State, p: Pid, status: int)
    requires KernelIo.Calling(s, p)
    ensures var s' := ExitTask(s, p, status);
      && Fewer(s.files, s'.files) && K.Inv(s') && p in s'.tasks && K.NoFiles(s'.tasks[p])
      && s'.tasks.Keys == s.tasks.Keys
      && (forall r :: r in s'.tasks && r != p ==> r in s.tasks && TableOf(s'.tasks[r].fds) == TableOf(s.tasks[r].fds))
  {
    hide K.Inv, FdCloseFrom, Fewer;
    KernelLife.ExitKeeps(s, p, status);
    var s1 := FdCloseFrom(s, p, 0);
    CallingIn(s, p);
    SlotsClosedFrom(s, p, 0);
    CloseFromCloses(s, p, 0);
    var s' := ExitTask(s, p, status);
    ZombieIsEmpty(s', p);
    assert s'.tasks.Keys == s1.tasks.Keys;
    assert Slots(s1.tasks).Keys == s1.tasks.Keys && Slots(s.tasks).Keys == s.tasks.Keys;
    forall r | r in s'.tasks && r != p ensures r in s.tasks && TableOf(s'.tasks[r].fds) == TableOf(s.tasks[r].fds) {
      assert r in s1.tasks && s'.tasks[r].fds == s1.tasks[r].fds;
      assert r in Slots(s1.tasks) && r in Slots(s.tasks);
    }
  }

  lemma CallingIn(s: State, p: Pid)
    requires KernelIo.Calling(s, p)
    ensures p in s.tasks
  {
  }

  lemma ZombieIsEmpty(s: State, p: Pid)
    requires K.Inv(s) && p in s.tasks && s.tasks[p].state.Zombie?
    ensures K.NoFiles(s.tasks[p])
  {
    hide K.Fifo, K.PipeIds, K.Owned, K.IoWaits, K.ChildWaits, K.Interrupts, K.Reaps, K.Listed, K.Turns, K.Counts,
         K.Pipes;
    assert K.DeathOk(p, s.tasks[p], s.hist.parents, s.hist.exits);
  }

  /** An open file has a holder. */
  lemma OpenIsHeld(s: State, f: FileId) returns (r: Pid, d: int)
    requires K.Inv(s) && f in s.files
    ensures r in s.tasks && 0 <= d < |s.tasks[r].fds| && s.tasks[r].fds[d].file == Some(f)
  {
    hide K.Fifo, K.PipeIds, K.Owned, K.IoWaits, K.ChildWaits, K.Interrupts, K.Deaths, K.Reaps, K.Listed, K.Turns,
         K.Pipes;
    assert K.Counted(s.tasks, s.files, multiset{}, f);
    assert K.Holders(s.tasks, f) != {};
    var h :| h in K.Holders(s.tasks, f);
    r, d := h.0, h.1;
  }

  /** Descriptor d of task r is a write end of q. */
  ghost predicate WritesTo(s: State, r: Pid, d: int, q: PipeId) {
    var f := SlotFile(s, r, d);
    f.Some? && f.value in s.files && s.files[f.value].kind == PipeEnd(q, WriteEnd)
  }

  /** When the only task with a write end of a pipe exits, the pipe has no writer, if it is there at all. */
  lemma LastWriterExits(s: State, p: Pid, status: int, q: PipeId)
    requires KernelIo.Calling(s, p)
    requires forall r, d :: r != p ==> !WritesTo(s, r, d, q)
    ensures var s' := ExitTask(s, p, status); q in s'.pipes ==> s'.pipes[q].writers == 0
  {
    hide K.Inv, ExitTask, KernelIo.Calling;
    CallingIn(s, p);
    ExitSlots(s, p, status);
    var s' := ExitTask(s, p, status);
    forall f | f in s'.files ensures s'.files[f].kind != PipeEnd(q, WriteEnd) {
      var r, d := OpenIsHeld(s', f);
      if r != p {
        assert TableOf(s'.tasks[r].fds)[d] == TableOf(s.tasks[r].fds)[d];
        assert !WritesTo(s, r, d, q);
      }
    }
    assert K.Ends(s'.files, q, WriteEnd) == {};
    if q in s'.pipes { PipeCounts(s', q); }
  }

  lemma PipeCounts(s: State, q: PipeId)
    requires K.Inv(s) && q in s.pipes
    ensures s.pipes[q].writers == |K.Ends(s.files, q, WriteEnd)|
  {
    hide K.Fifo, K.PipeIds, K.Owned, K.IoWaits, K.ChildWaits, K.Interrupts, K.Deaths, K.Reaps, K.Listed, K.Turns,
         K.Counts, K.Ends;
    assert K.PipeOk(s.files, q, s.pipes[q]);
  }

  /**
   When stage k exits, stage k + 1 still holds its end of pipe k, and once it has read what is in the pipe its next read
   returns end of file instead of blocking.
   */
  lemma EndOfFileAfterExit(S: map<Pid, Table>, s: State, stages: seq<Stage>, pids: seq<Pid>, first: FileId,
                           pipe0: PipeId,
                           k: nat, status: int, count: nat)
    requires SetUp(S, s, stages, pids, first, pipe0) && k + 1 < |stages| && k + 1 < |pids|
    requires !stages[k].output && !stages[k + 1].input && KernelIo.Calling(s, pids[k])
    ensures var s', r, q := ExitTask(s, pids[k], status), pids[k + 1], pipe0 + k;
      && r in s'.tasks && SlotFile(s', r, 0) == Some(first + 2 * k)
      && first + 2 * k in s'.files && s'.files[first + 2 * k].kind == PipeEnd(q, ReadEnd)
      && q in s'.pipes && s'.pipes[q].writers == 0
      && (s'.pipes[q].contents == [] ==> PipeRead(s', r, first + 2 * k, q, count) == Return(s', r, 0))
  {
    hide K.Inv, Kinds, Plumbed, ExitTask, KernelIo.Calling, Slots;
    var p, r, q, f := pids[k], pids[k + 1], pipe0 + k, first + 2 * k;
    CallingIn(s, p);
    var s' := ExitTask(s, p, status);
    ExitSlots(s, p, status);
    StageIsTask(S, Slots(s.tasks), stages, pids, first, k + 1);
    ReadEndHeld(S, Slots(s.tasks), stages, pids, first, k, r, 0);
    StagesDiffer(S, Slots(s.tasks), stages, pids, first, k);
    InTasks(s, r);
    TableIs(s, r);
    ReaderStays(s, s', p, r, f);
    KindsFewer(s.files, s'.files, first, pipe0);
    EndOfNumber(s'.files, first, pipe0, k, ReadEnd);
    OnlyWriter(S, s, stages, pids, first, pipe0, k, q);
    LastWriterExits(s, p, status, q);
  }

  lemma StagesDiffer(S: map<Pid, Table>, F: map<Pid, Table>, stages: seq<Stage>, pids: seq<Pid>, first: FileId, k: nat)
    requires Plumbed(S, F, stages, pids, first) && k + 1 < |pids|
    ensures pids[k] != pids[k + 1]
  {
    hide StageHolds;
  }

  /** Exit takes nothing from another task. */
  lemma ReaderStays(s: State, s': State, p: Pid, r: Pid, f: FileId)
    requires r in s.tasks && Slots(s.tasks)[r] == TableOf(s.tasks[r].fds)
    requires |TableOf(s.tasks[r].fds)| == MAX_FDS && TableOf(s.tasks[r].fds)[0] == Some(f)
    requires r in s'.tasks && TableOf(s'.tasks[r].fds) == TableOf(s.tasks[r].fds) && K.Inv(s')
    ensures SlotFile(s', r, 0) == Some(f) && f in s'.files
    ensures s'.files[f].kind.PipeEnd? ==> s'.files[f].kind.pipe in s'.pipes
  {
    hide K.Inv;
    SlotIs(s', r, 0);
    HeldIsOpen(s', r, 0, f);
  }

  /** No task but stage k holds a write end of pipe k. */
  lemma OnlyWriter(S: map<Pid, Table>, s: State, stages: seq<Stage>, pids: seq<Pid>, first: FileId, pipe0: PipeId,
                   k: nat,
                   q: PipeId)
    requires k + 1 < |stages| && k < |pids| && q == pipe0 + k && SetUp(S, s, stages, pids, first, pipe0)
    ensures forall r, d :: r != pids[k] ==> !WritesTo(s, r, d, q)
  {
    hide K.Inv, Kinds, Plumbed;
    EndOfNumber(s.files, first, pipe0, k, WriteEnd);
    forall r, d | r != pids[k] ensures !WritesTo(s, r, d, q) {
      if HasSlot(s, r, d) {
        SlotIs(s, r, d);
        WriteEndHeld(S, Slots(s.tasks), stages, pids, first, k, r, d);
      }
    }
  }
}
