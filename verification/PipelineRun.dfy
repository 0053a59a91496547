/**
 run_pipeline as written, over the kernel's own calls: it opens the
 redirections, makes the pipes, spawns the stages and closes the shell's
 copies.
 */
module PipelineRun {
  import opened Common
  import opened KernelState
  import opened KernelSlots
  import opened KernelFiles
  import opened Pipeline
  import KernelInvariant
  import KernelRuns

  /** The shell p, alone, has the table t; everybody else's is as in S. */
  ghost predicate Shell(S: map<Pid, Table>, s: State, p: Pid, t: Table) {
    p in S && Slots(s.tasks) == S[p := t]
  }

  lemma ShellIn(S: map<Pid, Table>, s: State, p: Pid, t: Table)
    requires Shell(S, s, p, t)
    ensures p in s.tasks && p in Slots(s.tasks) && Slots(s.tasks)[p] == t && |s.tasks[p].fds| == |t|
  {
    assert p in Slots(s.tasks);
  }

  /** t is t0 with the descriptors in mine open as well, all above 2 and all free in t0. */
  ghost predicate Extra(t0: Table, t: Table, mine: set<int>) {
    && |t| == |t0| == MAX_FDS
    && (forall d :: d in mine ==> 3 <= d < |t0| && t0[d].None?)
    && (forall d :: 0 <= d < |t| && d !in mine ==> t[d] == t0[d])
  }

  ghost predicate Below(t: Table, limit: FileId) {
    forall d :: 0 <= d < |t| && t[d].Some? ==> t[d].value < limit
  }

  ghost predicate StandardOpen(t: Table) {
    |t| == MAX_FDS && t[0].Some? && t[1].Some? && t[2].Some?
  }

  /** p runs, in a state that keeps the kernel's invariant. */
  ghost predicate Running(s: State, p: Pid) {
    KernelInvariant.Inv(s) && s.current == Some(p)
  }

  lemma CallKeeps(s: State, p: Pid, call: ApiCall, env: Env)
    requires Running(s, p) && p in s.tasks
    ensures KernelInvariant.Inv(ApiStep(s, p, call, env))
  {
    hide KernelInvariant.Inv, ApiStep;
    KernelRuns.StepKeeps(s, Api(call, env));
  }

  /** The shell's state between its calls: t0 is the table it started with, t the present one. */
  ghost predicate Sound(S: map<Pid, Table>, t0: Table, s: State, p: Pid, t: Table, mine: set<int>) {
    && p in s.tasks && Shell(S, s, p, t) && Extra(t0, t, mine) && StandardOpen(t) && Below(t, s.nextFile)
    && Running(s, p)
  }

  /** The free slots of a table */
  ghost function FreeSlots(t: Table): set<int> {
    set d | 0 <= d < |t| && t[d].None?
  }

  lemma SlotTaken(t: Table, d: int, f: FileId)
    requires 0 <= d < |t| && t[d].None?
    ensures |FreeSlots(t[d := Some(f)])| == |FreeSlots(t)| - 1 && |FreeSlots(t)| > 0
  {
    assert FreeSlots(t[d := Some(f)]) == FreeSlots(t) - {d} && d in FreeSlots(t);
  }

  lemma NoSlotFree(t: Table)
    requires Lowest(t, 0) == |t|
    ensures |FreeSlots(t)| == 0
  {
    assert FreeSlots(t) == {};
  }

  // ----- The redirections -----------------------------------------------------------------

  /** One open for the shell: the lowest free descriptor, above 2 */
  method OpenOne(ghost S: map<Pid, Table>, ghost t0: Table, s0: State, p: Pid, ghost t: Table, writing: bool, env: Env,
                 ghost mine: set<int>)
    returns (s: State, fd: int, ghost t': Table)
    requires p in s0.tasks && Sound(S, t0, s0, p, t, mine)
    ensures p in s.tasks && s.nextPid == s0.nextPid && fd >= -1 && s.nextFile >= s0.nextFile
    ensures Sound(S, t0, s, p, t', if fd < 0 then mine else mine + {fd})
    ensures if fd < 0 then t' == t && |FreeSlots(t)| == 0
            else && 3 <= fd < |t| && t[fd].None? && t' == t[fd := Some(s0.nextFile)]
                 && |FreeSlots(t')| == |FreeSlots(t)| - 1
  {
    hide Slots, InstallOrRelease, KernelInvariant.Inv, FreeSlots;
    ShellIn(S, s0, p, t);
    var kind := NodeFile(!writing, writing);
    CallKeeps(s0, p, Open(!writing, writing), env);
    s := ApiStep(s0, p, Open(!writing, writing), env);
    SlotsOpened(s0, p, kind);
    OpenKeepsCurrent(s0, p, kind);
    if Lowest(t, 0) < |t| { SlotTaken(t, Lowest(t, 0), s0.nextFile); } else { NoSlotFree(t); }
    fd := s.tasks[p].ret;
    t' := if fd < 0 then t else t[fd := Some(s0.nextFile)];
    assert S[p := t][p := t'] == S[p := t'];
  }

  lemma OpenKeepsCurrent(s: State, p: Pid, kind: FileKind)
    requires p in s.tasks
    ensures InstallOrRelease(CreateFile(s, kind), p, s.nextFile).current == s.current
  {
    hide FirstFree;
    ReleaseCloses(CreateFile(s, kind), s.nextFile);
  }

  function FdSet(fds: seq<int>): set<int> {
    set d | d in fds && d >= 0
  }

  /** fds says which of the redirections asked for are open. */
  ghost predicate Redirected(t: Table, fds: seq<int>, wanted: seq<bool>) {
    && |fds| <= |wanted|
    && forall i :: 0 <= i < |fds| ==> if wanted[i] then 3 <= fds[i] < |t| && t[fds[i]].Some? else fds[i] == -1
  }

  function Wants(stages: seq<Stage>, output: bool): (r: seq<bool>)
    ensures |r| == |stages|
    ensures forall i :: 0 <= i < |stages| ==> r[i] == if output then stages[i].output else stages[i].input
  {
    seq(|stages|, i requires 0 <= i < |stages| => if output then stages[i].output else stages[i].input)
  }

  /** One redirection of a stage, if it is asked for */
  method Redirect(ghost S: map<Pid, Table>, ghost t0: Table, s0: State, p: Pid, ghost t: Table, asked: bool,
                  writing: bool,
                  env: Env, ghost mine: set<int>)
    returns (s: State, fd: int, ok: bool, ghost t': Table)
    requires p in s0.tasks && Sound(S, t0, s0, p, t, mine)
    ensures p in s.tasks && s.nextPid == s0.nextPid && fd >= -1 && s.nextFile >= s0.nextFile
    ensures (asked && ok <==> fd >= 0) && (!asked ==> ok)
    ensures Sound(S, t0, s, p, t', if fd < 0 then mine else mine + {fd})
    ensures if fd < 0 then t' == t && (!ok ==> |FreeSlots(t)| == 0)
            else && 3 <= fd < |t| && t[fd].None? && t' == t[fd := Some(s0.nextFile)]
                 && |FreeSlots(t')| == |FreeSlots(t)| - 1
  {
    hide Sound, FreeSlots;
    s, fd, ok, t' := s0, -1, true, t;
    if asked {
      s, fd, t' := OpenOne(S, t0, s0, p, t, writing, env, mine);
      ok := fd >= 0;
    }
  }

  lemma FdSetMore(fds: seq<int>, fd: int)
    ensures FdSet(fds + [fd]) == FdSet(fds) + if fd < 0 then {} else {fd}
  {
  }

  /** The redirections asked for */
  function Wanted(stages: seq<Stage>): nat {
    if stages == [] then 0
    else Wanted(stages[..|stages| - 1]) + (if stages[|stages| - 1].input then 1 else 0)
         + (if stages[|stages| - 1].output then 1 else 0)
  }

  lemma WantedMore(stages: seq<Stage>, k: nat)
    requires k < |stages|
    ensures Wanted(stages[..k + 1]) ==
            Wanted(stages[..k]) + (if stages[k].input then 1 else 0) + (if stages[k].output then 1 else 0)
  {
    assert stages[..k + 1][..k] == stages[..k];
  }

  lemma {:induction false} WantedGrows(stages: seq<Stage>, k: nat)
    requires k <= |stages|
    ensures Wanted(stages[..k]) <= Wanted(stages)
    decreases |stages| - k
  {
    if k < |stages| {
      WantedMore(stages, k);
      WantedGrows(stages, k + 1);
    } else {
      assert stages[..k] == stages;
    }
  }

  /** open_redirections for every stage: they all open if and only if there is a slot for each. */
  method OpenAll(ghost S: map<Pid, Table>, ghost t0: Table, s0: State, p: Pid, stages: seq<Stage>, env: Env)
    returns (s: State, inputs: seq<int>, outputs: seq<int>, ready: bool, ghost t: Table)
    requires p in s0.tasks && Sound(S, t0, s0, p, t0, {})
    ensures p in s.tasks && s.nextPid == s0.nextPid && s.nextFile >= s0.nextFile
    ensures ready <==> |FreeSlots(t0)| >= Wanted(stages)
    ensures ready ==> |FreeSlots(t)| == |FreeSlots(t0)| - Wanted(stages)
    ensures ready ==> && |inputs| == |outputs| == |stages| && Sound(S, t0, s, p, t, FdSet(inputs) + FdSet(outputs))
                       && Redirected(t, inputs, Wants(stages, false)) && Redirected(t, outputs, Wants(stages, true))
  {
    hide Sound, FdSet, Redirected, FreeSlots, Wanted;
    s, inputs, outputs, t := s0, [], [], t0;
    ghost var mine: set<int> := {};
    var index := 0;
    NoFds();
    assert Wanted(stages[..0]) == 0 by { NoneWanted(stages); }
    NoneRedirected(t, Wants(stages, false));
    NoneRedirected(t, Wants(stages, true));
    while index < |stages|
      invariant 0 <= index <= |stages| && |inputs| == |outputs| == index && s.nextPid == s0.nextPid
      invariant s.nextFile >= s0.nextFile
      invariant p in s.tasks && Sound(S, t0, s, p, t, mine) && mine == FdSet(inputs) + FdSet(outputs)
      invariant |FreeSlots(t)| == |FreeSlots(t0)| - Wanted(stages[..index])
      invariant Redirected(t, inputs, Wants(stages, false)) && Redirected(t, outputs, Wants(stages, true))
    {
      var ok, fd;
      WantedMore(stages, index);
      WantedGrows(stages, index + 1);
      ghost var before := t;
      s, fd, ok, t := Redirect(S, t0, s, p, t, stages[index].input, false, env, mine);
      if !ok { ready := false; return; }
      StillRedirected(before, t, inputs, outputs, stages, fd);
      FdSetMore(inputs, fd);
      RedirectedMore(t, inputs, Wants(stages, false), fd);
      inputs, mine := inputs + [fd], if fd < 0 then mine else mine + {fd};
      before := t;
      s, fd, ok, t := Redirect(S, t0, s, p, t, stages[index].output, true, env, mine);
      if !ok { ready := false; return; }
      StillRedirected(before, t, inputs, outputs, stages, fd);
      FdSetMore(outputs, fd);
      RedirectedMore(t, outputs, Wants(stages, true), fd);
      outputs, mine := outputs + [fd], if fd < 0 then mine else mine + {fd};
      index := index + 1;
    }
    assert stages[..|stages|] == stages;
    ready := true;
  }

  lemma NoneWanted(stages: seq<Stage>)
    ensures Wanted(stages[..0]) == 0
  {
  }

  lemma NoneRedirected(t: Table, wanted: seq<bool>)
    ensures Redirected(t, [], wanted)
  {
  }

  lemma RedirectedMore(t: Table, fds: seq<int>, wanted: seq<bool>, fd: int)
    requires Redirected(t, fds, wanted) && |fds| < |wanted|
    requires if wanted[|fds|] then 3 <= fd < |t| && t[fd].Some? else fd == -1
    ensures Redirected(t, fds + [fd], wanted)
  {
  }

  lemma NoFds()
    ensures FdSet([]) == {}
  {
  }

  lemma StillRedirected(t: Table, t': Table, inputs: seq<int>, outputs: seq<int>, stages: seq<Stage>, fd: int)
    requires Redirected(t, inputs, Wants(stages, false)) && Redirected(t, outputs, Wants(stages, true))
    requires t' == t || (0 <= fd < |t| == |t'| && t'[fd].Some? && t' == t[fd := t'[fd]])
    ensures Redirected(t', inputs, Wants(stages, false)) && Redirected(t', outputs, Wants(stages, true))
  {
  }

  // ----- The pipes ----------------------------------------------------------------------------

  function PipeSet(pipes: seq<Ends>): set<int> {
    (set e | e in pipes :: e.read) + (set e | e in pipes :: e.write)
  }

  /** The pipes made so far, with the files from first on */
  ghost predicate Laid(t: Table, pipes: seq<Ends>, first: FileId) {
    && (forall k :: 0 <= k < |pipes| ==> PipeWired(t, pipes[k], first + 2 * k))
    && (forall d :: 0 <= d < |t| && t[d].Some? && t[d].value >= first ==> Listed(pipes, d))
  }

  lemma NoneLaid(t: Table, first: FileId)
    requires Below(t, first)
    ensures Laid(t, [], first)
  {
  }

  lemma LaidMore(t: Table, t': Table, pipes: seq<Ends>, first: FileId, e: Ends)
    requires Laid(t, pipes, first) && |t| == |t'| && 3 <= e.read < |t| && 3 <= e.write < |t| && e.read != e.write
    requires t[e.read].None? && t[e.write].None?
    requires t' == t[e.read := Some(first + 2 * |pipes|)][e.write := Some(first + 2 * |pipes| + 1)]
    ensures Laid(t', pipes + [e], first)
  {
    hide Listed;
    var pipes' := pipes + [e];
    forall k | 0 <= k < |pipes'| ensures PipeWired(t', pipes'[k], first + 2 * k) {
      if k < |pipes| { assert PipeWired(t, pipes[k], first + 2 * k); }
    }
    forall d | 0 <= d < |t'| && t'[d].Some? && t'[d].value >= first ensures Listed(pipes', d) {
      ListedLast(pipes', d);
      assert pipes'[..|pipes|] == pipes;
    }
  }

  lemma PipeSetMore(pipes: seq<Ends>, e: Ends)
    ensures PipeSet(pipes + [e]) == PipeSet(pipes) + {e.read, e.write}
  {
    var pipes' := pipes + [e];
    assert forall x :: x in pipes' <==> x in pipes || x == e;
    assert e in pipes';
    forall x | x in PipeSet(pipes) ensures x in PipeSet(pipes') {
      if x in set y | y in pipes :: y.read {
        var y :| y in pipes && y.read == x;
        assert y in pipes';
      } else {
        var y :| y in pipes && y.write == x;
        assert y in pipes';
      }
    }
  }

  /**
   The files from first on are the ends of the pipes from pipe0 on, two for each: pipe pipe0 + k is read through file
   first + 2k and written through file first + 2k + 1, and through no other.
   */
  ghost predicate Kinds(files: map<FileId, OpenFile>, first: FileId, pipe0: PipeId) {
    forall f :: f in files ==> KindOk(f, files[f].kind, first, pipe0)
  }

  ghost predicate KindOk(f: FileId, kind: FileKind, first: FileId, pipe0: PipeId) {
    if kind.PipeEnd? && kind.pipe >= pipe0
    then f == first + 2 * (kind.pipe - pipe0) + if kind.end.WriteEnd? then 1 else 0
    else f < first
  }

  lemma KindsStart(s: State)
    requires KernelInvariant.Inv(s)
    ensures Kinds(s.files, s.nextFile, s.nextPipe)
  {
    hide KernelInvariant.Fifo, KernelInvariant.Counts, KernelInvariant.Owned, KernelInvariant.PipeOk,
         KernelInvariant.IoWaits, KernelInvariant.ChildWaits, KernelInvariant.Interrupts, KernelInvariant.Deaths,
         KernelInvariant.Reaps, KernelInvariant.Listed, KernelInvariant.Turns, KernelInvariant.Shape;
  }

  lemma KindsFewer(files: map<FileId, OpenFile>, files': map<FileId, OpenFile>, first: FileId, pipe0: PipeId)
    requires Kinds(files, first, pipe0) && Fewer(files, files')
    ensures Kinds(files', first, pipe0)
  {
  }

  lemma KindsAdded(files: map<FileId, OpenFile>, files': map<FileId, OpenFile>, first: FileId, pipe0: PipeId, k: nat)
    requires Kinds(files, first, pipe0) && AddsEnds(files, files', first + 2 * k, pipe0 + k)
    ensures Kinds(files', first, pipe0)
  {
  }

  /** One pipe for the shell: two new descriptors above 2, or nothing */
  method MakeOne(ghost S: map<Pid, Table>, ghost t0: Table, s0: State, p: Pid, ghost t: Table, env: Env,
                 memory: (bool, bool),
                 ghost mine: set<int>)
    returns (s: State, e: Ends, ok: bool, ghost t': Table)
    requires p in s0.tasks && Sound(S, t0, s0, p, t, mine)
    ensures p in s.tasks && s.nextPid == s0.nextPid && AddsEnds(s0.files, s.files, s0.nextFile, s0.nextPipe)
    ensures Sound(S, t0, s, p, t', if ok then mine + {e.read, e.write} else mine)
    ensures memory == (true, true) && |FreeSlots(t)| >= 2 ==> ok
    ensures ok ==> s.nextPipe == s0.nextPipe + 1 && |FreeSlots(t')| == |FreeSlots(t)| - 2
    ensures if !ok then t' == t
            else && s.nextFile == s0.nextFile + 2 && 3 <= e.read < |t| && 3 <= e.write < |t| && e.read != e.write
                 && t[e.read].None? && t[e.write].None?
                 && t' == t[e.read := Some(s0.nextFile)][e.write := Some(s0.nextFile + 1)]
  {
    hide Slots, PipeCall, Running, AddsEnds, FreeSlots;
    ShellIn(S, s0, p, t);
    TableIs(s0, p);
    var table := TableOf(s0.tasks[p].fds);
    PipeKeepsRunning(s0, p, env, memory);
    s := ApiStep(s0, p, MakePipe(memory.0, memory.1), env);
    SlotsPiped(s0, p, memory.0, memory.1);
    TwoSlots(t, s0.nextFile);
    ok := s.tasks[p].ret == 0;
    t' := t;
    e := Ends(-1, -1);
    if ok {
      var r := Lowest(table, 0);
      var w := Lowest(table[r := Some(s0.nextFile)], 0);
      e := Ends(r, w);
      t' := t[r := Some(s0.nextFile)][w := Some(s0.nextFile + 1)];
    }
    assert S[p := t][p := t'] == S[p := t'];
  }

  lemma PipeKeepsRunning(s: State, p: Pid, env: Env, memory: (bool, bool))
    requires Running(s, p) && p in s.tasks
    ensures var s' := ApiStep(s, p, MakePipe(memory.0, memory.1), env);
      && Running(s', p) && AddsEnds(s.files, s'.files, s.nextFile, s.nextPipe)
      && (memory == (true, true) ==> s'.nextPipe == s.nextPipe + 1)
  {
    hide PipeCall, KernelInvariant.Inv, AddsEnds;
    CallKeeps(s, p, MakePipe(memory.0, memory.1), env);
    PipeAddsEnds(s, p, memory.0, memory.1);
  }

  /** Two free slots are enough for a pipe. */
  lemma TwoSlots(t: Table, f: FileId)
    ensures var d := Lowest(t, 0);
      if d < |t| then
        var t1 := t[d := Some(f)];
        var e := Lowest(t1, 0);
        if e < |t1| then |FreeSlots(t1[e := Some(f + 1)])| == |FreeSlots(t)| - 2 else |FreeSlots(t)| < 2
      else |FreeSlots(t)| < 2
  {
    hide FreeSlots;
    var d := Lowest(t, 0);
    if d < |t| {
      SlotTaken(t, d, f);
      var t1 := t[d := Some(f)];
      var e := Lowest(t1, 0);
      if e < |t1| { SlotTaken(t1, e, f + 1); } else { NoSlotFree(t1); }
    } else {
      NoSlotFree(t);
    }
  }

  method MakePipes(ghost S: map<Pid, Table>, ghost t0: Table, s0: State, p: Pid, ghost t1: Table, count: nat, env: Env,
                   memory: nat -> (bool, bool), ghost mine0: set<int>)
    returns (s: State, pipes: seq<Ends>, ok: bool, ghost t: Table)
    requires p in s0.tasks && Sound(S, t0, s0, p, t1, mine0) && Below(t1, s0.nextFile)
    ensures p in s.tasks && s.nextPid == s0.nextPid && Sound(S, t0, s, p, t, mine0 + PipeSet(pipes))
    ensures ok ==> |pipes| == count
    ensures (forall k :: memory(k) == (true, true)) && |FreeSlots(t1)| >= 2 * count ==> ok
    ensures Kinds(s.files, s0.nextFile, s0.nextPipe)
    ensures Laid(t, pipes, s0.nextFile)
    ensures Settled(t1, t)
  {
    hide Sound, PipeSet, Laid, Redirected, PipeWired, Listed, FreeSlots, Kinds, AddsEnds;
    s, pipes, t := s0, [], t1;
    SoundRuns(S, t0, s0, p, t1, mine0);
    KindsStart(s0);
    ghost var mine := mine0;
    NoneLaid(t1, s0.nextFile);
    assert PipeSet([]) == {} by { NoPipes(); }
    while |pipes| < count
      invariant |pipes| <= count && s.nextPid == s0.nextPid && s.nextFile == s0.nextFile + 2 * |pipes|
      invariant p in s.tasks && Sound(S, t0, s, p, t, mine) && mine == mine0 + PipeSet(pipes)
      invariant Laid(t, pipes, s0.nextFile) && Settled(t1, t)
      invariant s.nextPipe == s0.nextPipe + |pipes| && Kinds(s.files, s0.nextFile, s0.nextPipe)
      invariant |FreeSlots(t)| == |FreeSlots(t1)| - 2 * |pipes|
    {
      var e, made;
      ghost var before, files := t, s.files;
      s, e, made, t := MakeOne(S, t0, s, p, t, env, memory(|pipes|), mine);
      KindsAdded(files, s.files, s0.nextFile, s0.nextPipe, |pipes|);
      if !made { ok := false; return; }
      LaidMore(before, t, pipes, s0.nextFile, e);
      PipeSetMore(pipes, e);
      pipes, mine := pipes + [e], mine + {e.read, e.write};
    }
    ok := true;
  }

  lemma SoundRuns(S: map<Pid, Table>, t0: Table, s: State, p: Pid, t: Table, mine: set<int>)
    requires Sound(S, t0, s, p, t, mine)
    ensures Running(s, p) && KernelInvariant.Inv(s) && p in s.tasks
  {
    hide Shell, Extra, StandardOpen, Below, KernelInvariant.Inv;
  }

  /** What was open stays open, with the same file. */
  ghost predicate Settled(t: Table, t': Table) {
    |t'| == |t| && forall d :: 0 <= d < |t| && t[d].Some? ==> t'[d] == t[d]
  }

  lemma NoPipes()
    ensures PipeSet([]) == {}
  {
  }

  // ----- The actions ---------------------------------------------------------------------------

  /** add_action */
  method AddAction(actions: array<Action>, count: nat, a: Action) returns (count': nat)
    requires count < actions.Length
    modifies actions
    ensures count' == count + 1 && actions[..count'] == old(actions[..count]) + [a]
  {
    actions[count] := a;
    count' := count + 1;
  }

  /** The action array of one stage: it has 34 places, and they suffice. */
  method BuildActions(inputs: seq<int>, outputs: seq<int>, pipes: seq<Ends>, i: nat)
    returns (actions: array<Action>, count: nat)
    requires i < |inputs| == |outputs| == |pipes| + 1 <= MAX_STAGES
    ensures fresh(actions) && count <= actions.Length == MAX_ACTIONS
    ensures actions[..count] == StageActions(inputs, outputs, pipes, i)
  {
    hide StageActions, PipeCloses, Dup2If, CloseIf;
    actions, count := new Action[MAX_ACTIONS], 0;
    var input, output := SourceInput(inputs, pipes, i), SourceOutput(outputs, pipes, i);
    StageActionsAre(inputs, outputs, pipes, i);
    assert actions[..0] == [];
    count := AddDup2If(actions, count, input, 0, []);
    count := AddDup2If(actions, count, output, 1, [] + Dup2If(input, 0));
    ghost var dups := [] + Dup2If(input, 0) + Dup2If(output, 1);
    count := AddPipeCloses(actions, count, pipes, dups);
    count := AddCloseIf(actions, count, inputs[i], dups + PipeCloses(pipes));
    if outputs[i] != inputs[i] {
      count := AddCloseIf(actions, count, outputs[i], dups + PipeCloses(pipes) + CloseIf(inputs[i]));
    }
  }

  lemma StageActionsAre(inputs: seq<int>, outputs: seq<int>, pipes: seq<Ends>, i: nat)
    requires i < |inputs| == |outputs| == |pipes| + 1
    ensures var dups := [] + Dup2If(SourceInput(inputs, pipes, i), 0) + Dup2If(SourceOutput(outputs, pipes, i), 1);
      StageActions(inputs, outputs, pipes, i) == dups + PipeCloses(pipes) + CloseIf(inputs[i])
                                                 + (if outputs[i] != inputs[i] then CloseIf(outputs[i]) else [])
  {
  }

  method AddDup2If(actions: array<Action>, count: nat, from: int, to: int,
                   ghost before: seq<Action>) returns (count': nat)
    requires count < actions.Length && actions[..count] == before
    modifies actions
    ensures count <= count' <= count + 1 && actions[..count'] == before + Dup2If(from, to)
  {
    count' := count;
    if from >= 0 { count' := AddAction(actions, count, Dup2Action(from, to)); }
  }

  method AddCloseIf(actions: array<Action>, count: nat, fd: int, ghost before: seq<Action>) returns (count': nat)
    requires count < actions.Length && actions[..count] == before
    modifies actions
    ensures count <= count' <= count + 1 && actions[..count'] == before + CloseIf(fd)
  {
    count' := count;
    if fd >= 0 { count' := AddAction(actions, count, CloseAction(fd)); }
  }

  method AddPipeCloses(actions: array<Action>, count0: nat, pipes: seq<Ends>,
                       ghost before: seq<Action>) returns (count: nat)
    requires count0 + 2 * |pipes| <= actions.Length && actions[..count0] == before
    modifies actions
    ensures count == count0 + 2 * |pipes| && actions[..count] == before + PipeCloses(pipes)
  {
    count := count0;
    var k := 0;
    while k < |pipes|
      invariant 0 <= k <= |pipes| && count == count0 + 2 * k
      invariant actions[..count] == before + PipeCloses(pipes[..k])
    {
      assert pipes[..k + 1][..k] == pipes[..k];
      count := AddAction(actions, count, CloseAction(pipes[k].read));
      count := AddAction(actions, count, CloseAction(pipes[k].write));
      k := k + 1;
    }
    assert pipes[..|pipes|] == pipes;
  }

  // ----- The stages ----------------------------------------------------------------------------

  /** S1 is S and, for each stage spawned, a task that holds just its own ends. */
  ghost predicate Spawned(S: map<Pid, Table>, S1: map<Pid, Table>, base: nat, pids: seq<Pid>, t: Table,
                          inputs: seq<int>,
                          outputs: seq<int>, pipes: seq<Ends>, first: FileId) {
    && S1.Keys == S.Keys + (set q | q in pids)
    && (forall q :: q in S ==> q <= base && q in S1 && S1[q] == S[q])
    && |pids| <= |inputs|
    && (forall j :: 0 <= j < |pids| ==>
          pids[j] == base + 1 + j && pids[j] in S1 && Piped(S1[pids[j]], t, inputs, outputs, pipes, first, j))
  }

  lemma SpawnedMore(S: map<Pid, Table>, S1: map<Pid, Table>, base: nat, pids: seq<Pid>, t: Table, inputs: seq<int>,
                    outputs: seq<int>, pipes: seq<Ends>, first: FileId, c: Table)
    requires Spawned(S, S1, base, pids, t, inputs, outputs, pipes, first) && |pids| < |inputs|
    requires Piped(c, t, inputs, outputs, pipes, first, |pids|)
    ensures var child := base + 1 + |pids|;
      child !in S1 && Spawned(S, S1[child := c], base, pids + [child], t, inputs, outputs, pipes, first)
  {
    hide Piped;
    var child := base + 1 + |pids|;
    assert child !in S1.Keys;
    var pids', S2 := pids + [child], S1[child := c];
    assert (set q | q in pids') == (set q | q in pids) + {child};
    forall j | 0 <= j < |pids'|
      ensures pids'[j] == base + 1 + j && pids'[j] in S2 && Piped(S2[pids'[j]], t, inputs, outputs, pipes, first, j) {
      if j < |pids| { assert pids'[j] == pids[j]; }
    }
  }

  lemma NoneSpawned(S: map<Pid, Table>, base: nat, t: Table, inputs: seq<int>, outputs: seq<int>, pipes: seq<Ends>,
                    first: FileId)
    requires forall q :: q in S ==> q <= base
    ensures Spawned(S, S, base, [], t, inputs, outputs, pipes, first)
  {
    var none: seq<Pid> := [];
    assert (set q | q in none) == {};
  }

  /** One spawn with the actions of its stage */
  method SpawnOne(ghost S: map<Pid, Table>, ghost S1: map<Pid, Table>, ghost t0: Table, s0: State, p: Pid,
                  ghost t: Table,
                  ghost mine: set<int>, inputs: seq<int>, outputs: seq<int>, pipes: seq<Ends>, ghost first: FileId,
                  pids: seq<Pid>, ghost base: nat, env: Env, loading: (bool, bool))
    returns (s: State, pid: Pid, ghost S2: map<Pid, Table>)
    requires p in s0.tasks && Sound(S1, t0, s0, p, t, mine) && Wired(t, inputs, outputs, pipes, first)
    requires |inputs| <= MAX_STAGES && |pids| < |inputs| && s0.nextPid == base + |pids| && p in S
    requires Spawned(S, S1, base, pids, t, inputs, outputs, pipes, first)
    ensures p in s.tasks && Sound(S2, t0, s, p, t, mine) && Fewer(s0.files, s.files)
    ensures loading == (true, true) ==> pid >= 0
    ensures if pid < 0 then S2 == S1
            else && s.nextPid == base + |pids| + 1
                 && Spawned(S, S2, base, pids + [pid], t, inputs, outputs, pipes, first)
  {
    hide Wired, Piped, Slots, SpawnTask, StageActions, ActedAll, Spawned, Extra, StandardOpen, Below, Running, Fewer;
    ShellIn(S1, s0, p, t);
    WiredMeans(t, inputs, outputs, pipes, first);
    StagePiped(t, inputs, outputs, pipes, first, |pids|);
    ghost var c := ActedAll(t, StageActions(inputs, outputs, pipes, |pids|)).value;
    SpawnedMore(S, S1, base, pids, t, inputs, outputs, pipes, first, c);
    var actions, count := BuildActions(inputs, outputs, pipes, |pids|);
    ghost var child := s0.nextPid + 1;
    ChildIsNew(S, S1, s0, p, t, base, pids, inputs, outputs, pipes, first);
    SlotsSpawned(s0, p, true, actions[..count], loading.0, loading.1);
    SpawnKeepsRunning(s0, p, actions[..count], loading, env);
    s := ApiStep(s0, p, Spawn(true, actions[..count], loading.0, loading.1), env);
    pid := s.tasks[p].ret;
    S2 := if pid < 0 then S1 else S1[child := c];
    assert S1[p := t][child := c] == S1[child := c][p := t];
  }

  lemma SpawnKeepsRunning(s: State, p: Pid, actions: seq<Action>, loading: (bool, bool), env: Env)
    requires Running(s, p) && p in s.tasks
    ensures var s' := ApiStep(s, p, Spawn(true, actions, loading.0, loading.1), env);
      Running(s', p) && Fewer(s.files, s'.files)
  {
    hide SpawnTask, KernelInvariant.Inv, Fewer;
    CallKeeps(s, p, Spawn(true, actions, loading.0, loading.1), env);
    SpawnCloses(s, p, true, actions, loading.0, loading.1);
  }

  lemma WiredMeans(t: Table, inputs: seq<int>, outputs: seq<int>, pipes: seq<Ends>, first: FileId)
    requires Wired(t, inputs, outputs, pipes, first)
    ensures |t| == MAX_FDS && |inputs| == |outputs| == |pipes| + 1
  {
  }

  lemma ChildIsNew(S: map<Pid, Table>, S1: map<Pid, Table>, s: State, p: Pid, t: Table, base: nat, pids: seq<Pid>,
                   inputs: seq<int>, outputs: seq<int>, pipes: seq<Ends>, first: FileId)
    requires Shell(S1, s, p, t) && Spawned(S, S1, base, pids, t, inputs, outputs, pipes, first) && p in S
    requires s.nextPid == base + |pids|
    ensures s.nextPid + 1 !in s.tasks && p != s.nextPid + 1
  {
    hide Piped;
    InTasks(s, s.nextPid + 1);
    assert s.nextPid + 1 !in S1.Keys;
  }

  /** The spawn loop: it stops at the first spawn that fails. */
  method SpawnAll(ghost S: map<Pid, Table>, ghost t0: Table, s0: State, p: Pid, ghost t: Table, ghost mine: set<int>,
                  inputs: seq<int>, outputs: seq<int>, pipes: seq<Ends>, ghost first: FileId, ghost pipe0: PipeId,
                  env: Env, loading: nat -> (bool, bool))
    returns (s: State, pids: seq<Pid>, ghost S1: map<Pid, Table>)
    requires p in s0.tasks && Sound(S, t0, s0, p, t, mine) && Wired(t, inputs, outputs, pipes, first)
    requires |inputs| <= MAX_STAGES && p in S && forall q :: q in S ==> q <= s0.nextPid
    requires Kinds(s0.files, first, pipe0)
    ensures p in s.tasks && Sound(S1, t0, s, p, t, mine) && Kinds(s.files, first, pipe0)
    ensures Spawned(S, S1, s0.nextPid, pids, t, inputs, outputs, pipes, first)
    ensures (forall k :: loading(k) == (true, true)) ==> |pids| == |inputs|
  {
    hide Wired, Piped, Spawned, Sound, Kinds, Fewer;
    s, pids, S1 := s0, [], S;
    NoneSpawned(S, s0.nextPid, t, inputs, outputs, pipes, first);
    while |pids| < |inputs|
      invariant |pids| <= |inputs| && s.nextPid == s0.nextPid + |pids|
      invariant p in s.tasks && Sound(S1, t0, s, p, t, mine) && Kinds(s.files, first, pipe0)
      invariant Spawned(S, S1, s0.nextPid, pids, t, inputs, outputs, pipes, first)
      decreases |inputs| - |pids|
    {
      var pid;
      ghost var files := s.files;
      s, pid, S1 := SpawnOne(S, S1, t0, s, p, t, mine, inputs, outputs, pipes, first, pids, s0.nextPid, env,
                             loading(|pids|));
      KindsFewer(files, s.files, first, pipe0);
      if pid < 0 { return; }
      pids := pids + [pid];
    }
  }

  // ----- The shell's copies ----------------------------------------------------------------------

  method CloseOne(ghost S: map<Pid, Table>, ghost t0: Table, s0: State, p: Pid, ghost t: Table, fd: int, env: Env,
                  ghost mine: set<int>)
    returns (s: State, ghost t': Table)
    requires p in s0.tasks && Sound(S, t0, s0, p, t, mine) && 3 <= fd < |t0| && t0[fd].None?
    ensures p in s.tasks && Sound(S, t0, s, p, t', mine - {fd}) && Fewer(s0.files, s.files)
  {
    hide Slots, FdClose, ApiStep, KernelInvariant.Inv, Fewer;
    ShellIn(S, s0, p, t);
    CallKeeps(s0, p, Close(fd), env);
    CloseCallCloses(s0, p, fd, env);
    s := ApiStep(s0, p, Close(fd), env);
    SlotsCloseCall(s0, p, fd, env);
    t' := Closed(t, fd);
    assert S[p := t][p := t'] == S[p := t'];
  }

  method ClosePipes(ghost S: map<Pid, Table>, ghost t0: Table, s0: State, p: Pid, ghost t1: Table, pipes: seq<Ends>,
                    env: Env,
                    ghost mine: set<int>)
    returns (s: State, ghost t: Table)
    requires p in s0.tasks && Sound(S, t0, s0, p, t1, mine) && PipeSet(pipes) <= mine
    ensures p in s.tasks && Sound(S, t0, s, p, t, mine - PipeSet(pipes)) && Fewer(s0.files, s.files)
  {
    hide Sound, PipeSet, Extra, Fewer;
    s, t := s0, t1;
    FewerSame(s.files);
    SoundExtra(S, t0, s0, p, t1, mine);
    var index := 0;
    assert PipeSet(pipes[..0]) == {} by { NoPipes(); }
    assert mine - {} == mine;
    while index < |pipes|
      invariant 0 <= index <= |pipes| && p in s.tasks && Fewer(s0.files, s.files)
      invariant Sound(S, t0, s, p, t, mine - PipeSet(pipes[..index]))
    {
      ghost var left := mine - PipeSet(pipes[..index]);
      EndsAreMine(t0, t1, pipes, index, mine);
      ghost var files := s.files;
      s, t := CloseOne(S, t0, s, p, t, pipes[index].read, env, left);
      FewerTwice(s0.files, files, s.files);
      files := s.files;
      s, t := CloseOne(S, t0, s, p, t, pipes[index].write, env, left - {pipes[index].read});
      FewerTwice(s0.files, files, s.files);
      PipeSetMore(pipes[..index], pipes[index]);
      assert pipes[..index + 1] == pipes[..index] + [pipes[index]];
      assert left - {pipes[index].read} - {pipes[index].write} == mine - PipeSet(pipes[..index + 1]);
      index := index + 1;
    }
    assert pipes[..|pipes|] == pipes;
  }

  lemma FewerSame(files: map<FileId, OpenFile>)
    ensures Fewer(files, files)
  {
  }

  lemma FewerTwice(a: map<FileId, OpenFile>, b: map<FileId, OpenFile>, c: map<FileId, OpenFile>)
    requires Fewer(a, b) && Fewer(b, c)
    ensures Fewer(a, c)
  {
  }

  lemma SoundExtra(S: map<Pid, Table>, t0: Table, s: State, p: Pid, t: Table, mine: set<int>)
    requires Sound(S, t0, s, p, t, mine)
    ensures Extra(t0, t, mine)
  {
    hide Shell, Extra, StandardOpen, Below, Running;
  }

  lemma EndsAreMine(t0: Table, t: Table, pipes: seq<Ends>, k: nat, mine: set<int>)
    requires Extra(t0, t, mine) && PipeSet(pipes) <= mine && k < |pipes|
    ensures 3 <= pipes[k].read < |t0| && t0[pipes[k].read].None? && 3 <= pipes[k].write < |t0|
    ensures t0[pipes[k].write].None?
  {
    assert pipes[k] in pipes;
    assert pipes[k].read in PipeSet(pipes) && pipes[k].write in PipeSet(pipes);
  }

  method CloseRedirections(ghost S: map<Pid, Table>, ghost t0: Table, s0: State, p: Pid, ghost t1: Table,
                           inputs: seq<int>,
                           outputs: seq<int>, env: Env, ghost mine: set<int>)
    returns (s: State, ghost t: Table)
    requires p in s0.tasks && Sound(S, t0, s0, p, t1, mine) && mine == FdSet(inputs) + FdSet(outputs)
    requires |inputs| == |outputs|
    ensures p in s.tasks && Sound(S, t0, s, p, t, {}) && Fewer(s0.files, s.files)
  {
    hide Sound, FdSet, Extra, Fewer;
    s, t := s0, t1;
    FewerSame(s.files);
    SoundExtra(S, t0, s0, p, t1, mine);
    var index := 0;
    ghost var left := mine;
    NoFds();
    assert inputs[..0] == [] && outputs[..0] == [];
    while index < |inputs|
      invariant 0 <= index <= |inputs| && p in s.tasks && Sound(S, t0, s, p, t, left) && Fewer(s0.files, s.files)
      invariant left <= mine && left !! FdSet(inputs[..index]) && left !! FdSet(outputs[..index])
    {
      assert inputs[..index + 1] == inputs[..index] + [inputs[index]];
      assert outputs[..index + 1] == outputs[..index] + [outputs[index]];
      FdSetMore(inputs[..index], inputs[index]);
      FdSetMore(outputs[..index], outputs[index]);
      FdsAreMine(t0, t1, inputs, outputs, index, mine);
      ghost var files := s.files;
      if inputs[index] >= 0 {
        s, t := CloseOne(S, t0, s, p, t, inputs[index], env, left);
        FewerTwice(s0.files, files, s.files);
        left := left - {inputs[index]};
      }
      files := s.files;
      if outputs[index] >= 0 {
        s, t := CloseOne(S, t0, s, p, t, outputs[index], env, left);
        FewerTwice(s0.files, files, s.files);
        left := left - {outputs[index]};
      }
      index := index + 1;
    }
    assert inputs[..|inputs|] == inputs && outputs[..|outputs|] == outputs;
    assert left == {};
  }

  lemma FdsAreMine(t0: Table, t: Table, inputs: seq<int>, outputs: seq<int>, k: nat, mine: set<int>)
    requires Extra(t0, t, mine) && mine == FdSet(inputs) + FdSet(outputs) && k < |inputs| == |outputs|
    ensures inputs[k] >= 0 ==> 3 <= inputs[k] < |t0| && t0[inputs[k]].None?
    ensures outputs[k] >= 0 ==> 3 <= outputs[k] < |t0| && t0[outputs[k]].None?
  {
    if inputs[k] >= 0 { assert inputs[k] in mine; }
    if outputs[k] >= 0 { assert outputs[k] in mine; }
  }

  // ----- The whole pipeline ----------------------------------------------------------------------

  /**
   Of the files first and later, which are the ends of the pipes, stage j holds only its own: 0 to read, 1 to write.
   */
  ghost predicate StageHolds(c: Table, stages: seq<Stage>, first: FileId, j: nat)
    requires j < |stages|
  {
    && |c| == MAX_FDS
    && (forall d :: 0 <= d < |c| && c[d].Some? && c[d].value >= first ==>
          || (d == 0 && j > 0 && !stages[j].input && c[d].value == first + 2 * (j - 1))
          || (d == 1 && j + 1 < |stages| && !stages[j].output && c[d].value == first + 2 * j + 1))
    && (j > 0 && !stages[j].input ==> c[0] == Some(first + 2 * (j - 1)))
    && (j + 1 < |stages| && !stages[j].output ==> c[1] == Some(first + 2 * j + 1))
  }

  /** The tables F after the pipeline is set up, S being those before: only the stages are new. */
  ghost predicate Plumbed(S: map<Pid, Table>, F: map<Pid, Table>, stages: seq<Stage>, pids: seq<Pid>, first: FileId) {
    && |pids| <= |stages| && F.Keys == S.Keys + (set q | q in pids)
    && (forall q :: q in S ==> q in F && F[q] == S[q] && Below(S[q], first))
    && (forall i, j :: 0 <= i < j < |pids| ==> pids[i] != pids[j])
    && (forall j :: 0 <= j < |pids| ==> pids[j] !in S && pids[j] in F && StageHolds(F[pids[j]], stages, first, j))
  }

  lemma LaidIsWired(t1: Table, t: Table, inputs: seq<int>, outputs: seq<int>, pipes: seq<Ends>, first: FileId,
                    stages: seq<Stage>)
    requires Laid(t, pipes, first) && Settled(t1, t) && Below(t1, first) && |t| == MAX_FDS
    requires |inputs| == |outputs| == |pipes| + 1 == |stages|
    requires Redirected(t1, inputs, Wants(stages, false)) && Redirected(t1, outputs, Wants(stages, true))
    ensures Wired(t, inputs, outputs, pipes, first)
    ensures Redirected(t, inputs, Wants(stages, false)) && Redirected(t, outputs, Wants(stages, true))
  {
    hide Listed, PipeWired;
  }

  lemma PipedHolds(c: Table, t: Table, inputs: seq<int>, outputs: seq<int>, pipes: seq<Ends>, first: FileId,
                   stages: seq<Stage>, j: nat)
    requires Wired(t, inputs, outputs, pipes, first) && Piped(c, t, inputs, outputs, pipes, first, j)
    requires |stages| == |inputs|
    requires Redirected(t, inputs, Wants(stages, false)) && Redirected(t, outputs, Wants(stages, true))
    ensures StageHolds(c, stages, first, j)
  {
    hide PipeWired;
    RedirectionsOk(t, inputs, outputs, pipes, first, j);
    ListedHigh(t, inputs, outputs, pipes, first);
    hide Listed;
    NothingNewer(t, inputs, outputs, pipes, first, 0);
    NothingNewer(t, inputs, outputs, pipes, first, 1);
    assert Wants(stages, false)[j] == stages[j].input && Wants(stages, true)[j] == stages[j].output;
  }

  lemma NothingLeft(t0: Table, t: Table)
    requires Extra(t0, t, {})
    ensures t == t0
  {
  }

  lemma SpawnedPlumbed(S: map<Pid, Table>, S1: map<Pid, Table>, base: nat, pids: seq<Pid>, t: Table, inputs: seq<int>,
                       outputs: seq<int>, pipes: seq<Ends>, first: FileId, stages: seq<Stage>)
    requires Spawned(S, S1, base, pids, t, inputs, outputs, pipes, first) && |stages| == |inputs|
    requires Wired(t, inputs, outputs, pipes, first)
    requires Redirected(t, inputs, Wants(stages, false)) && Redirected(t, outputs, Wants(stages, true))
    requires forall q :: q in S ==> Below(S[q], first)
    ensures Plumbed(S, S1, stages, pids, first)
  {
    hide Wired, Piped, Redirected, StageHolds, Below;
    forall j | 0 <= j < |pids| ensures pids[j] !in S && pids[j] in S1 && StageHolds(S1[pids[j]], stages, first, j) {
      PipedHolds(S1[pids[j]], t, inputs, outputs, pipes, first, stages, j);
    }
  }

  lemma NobodyPlumbed(S: map<Pid, Table>, stages: seq<Stage>, first: FileId)
    requires forall q :: q in S ==> Below(S[q], first)
    ensures Plumbed(S, S, stages, [], first)
  {
    hide Below;
    var none: seq<Pid> := [];
    assert (set q | q in none) == {};
  }

  lemma BelowMore(S: map<Pid, Table>, a: FileId, b: FileId)
    requires a <= b && forall q :: q in S ==> Below(S[q], a)
    ensures forall q :: q in S ==> Below(S[q], b)
  {
  }

  /**
   run_pipeline up to its waits, from any state of the kernel's. It opens every redirection if and only if there are
   slots for them. Then, whether or not a pipe or a spawn fails on the way, the shell ends with the table it began with
   and each stage spawned holds only its own ends of the pipes; and nothing fails if memory and slots suffice.
   */
  method RunPipeline(s0: State, p: Pid, stages: seq<Stage>, env: Env, memory: nat -> (bool, bool),
                     loading: nat -> (bool, bool))
    returns (s: State, ready: bool, pids: seq<Pid>, first: FileId, pipe0: PipeId)
    requires 0 < |stages| <= MAX_STAGES && Running(s0, p) && p in s0.tasks && StandardOpen(TableOf(s0.tasks[p].fds))
    ensures ready <==> |FreeSlots(TableOf(s0.tasks[p].fds))| >= Wanted(stages)
    ensures ready ==> Plumbed(Slots(s0.tasks), Slots(s.tasks), stages, pids, first)
    ensures ready ==> KernelInvariant.Inv(s) && Kinds(s.files, first, pipe0)
    ensures && |FreeSlots(TableOf(s0.tasks[p].fds))| >= Wanted(stages) + 2 * (|stages| - 1)
            && (forall k :: memory(k) == (true, true)) && (forall k :: loading(k) == (true, true))
            ==> |pids| == |stages|
  {
    hide Sound, Wired, Piped, Spawned, Redirected, Laid, Settled, Plumbed, Slots, FdSet, PipeSet, Kinds, FreeSlots,
         Wanted, KernelInvariant.Inv, Below, StandardOpen, Fewer;
    ghost var S := Slots(s0.tasks);
    ghost var t0 := TableOf(s0.tasks[p].fds);
    InvIsFresh(s0);
    StartsSound(s0, p);
    var inputs, outputs;
    ghost var t1, t;
    s, inputs, outputs, ready, t1 := OpenAll(S, t0, s0, p, stages, env);
    pids, first, pipe0 := [], s.nextFile, s.nextPipe;
    if !ready { return; }
    ghost var redirections := FdSet(inputs) + FdSet(outputs);
    var pipes, made;
    SoundMeans(S, t0, s, p, t1, redirections);
    BelowMore(S, s0.nextFile, first);
    s, pipes, made, t := MakePipes(S, t0, s, p, t1, |stages| - 1, env, memory, redirections);
    ghost var S1, mine := S, redirections + PipeSet(pipes);
    NobodyPlumbed(S, stages, first);
    if made {
      SoundMeans(S, t0, s, p, t, mine);
      LaidIsWired(t1, t, inputs, outputs, pipes, first, stages);
      ghost var base := s.nextPid;
      s, pids, S1 := SpawnAll(S, t0, s, p, t, mine, inputs, outputs, pipes, first, pipe0, env, loading);
      SpawnedPlumbed(S, S1, base, pids, t, inputs, outputs, pipes, first, stages);
    }
    ghost var files := s.files;
    s := Cleanup(S1, t0, s, p, t, inputs, outputs, pipes, env, mine);
    KindsFewer(files, s.files, first, pipe0);
    SameTable(S, S1, s, p, t0, stages, pids, first);
  }

  /** The cleanup loops: the shell has the table it began with. */
  method Cleanup(ghost S: map<Pid, Table>, ghost t0: Table, s0: State, p: Pid, ghost t: Table, inputs: seq<int>,
                 outputs: seq<int>, pipes: seq<Ends>, env: Env, ghost mine: set<int>) returns (s: State)
    requires p in s0.tasks && Sound(S, t0, s0, p, t, mine) && |inputs| == |outputs|
    requires mine == FdSet(inputs) + FdSet(outputs) + PipeSet(pipes)
    ensures Shell(S, s, p, t0) && KernelInvariant.Inv(s) && Fewer(s0.files, s.files)
  {
    hide Shell, PipeSet, FdSet, Extra, Sound, Fewer, KernelInvariant.Inv;
    ghost var t1, t2;
    SoundExtra(S, t0, s0, p, t, mine);
    s, t1 := ClosePipes(S, t0, s0, p, t, pipes, env, mine);
    ghost var left, files := FdSet(inputs) + FdSet(outputs), s.files;
    SoundFewer(S, t0, t, s, p, t1, mine, mine - PipeSet(pipes), left);
    s, t2 := CloseRedirections(S, t0, s, p, t1, inputs, outputs, env, left);
    FewerTwice(s0.files, files, s.files);
    SoundExtra(S, t0, s, p, t2, {});
    NothingLeft(t0, t2);
    SoundShell(S, t0, s, p, t2, {});
  }

  lemma SoundShell(S: map<Pid, Table>, t0: Table, s: State, p: Pid, t: Table, mine: set<int>)
    requires Sound(S, t0, s, p, t, mine)
    ensures Shell(S, s, p, t) && KernelInvariant.Inv(s)
  {
    hide Shell, Extra, StandardOpen, Below, KernelInvariant.Inv;
  }

  /**
   In a state that keeps the invariant no table holds a file that is yet to be made, and no pid is ahead of the last.
   */
  lemma InvIsFresh(s: State)
    requires KernelInvariant.Inv(s)
    ensures forall q :: q in s.tasks ==>
              q <= s.nextPid && |s.tasks[q].fds| == MAX_FDS && Below(TableOf(s.tasks[q].fds), s.nextFile)
  {
    hide KernelInvariant.Fifo, KernelInvariant.Pipes, KernelInvariant.PipeIds, KernelInvariant.Owned,
         KernelInvariant.IoWaits, KernelInvariant.ChildWaits, KernelInvariant.Interrupts, KernelInvariant.Deaths,
         KernelInvariant.Reaps, KernelInvariant.Listed, KernelInvariant.Turns, KernelInvariant.Counted;
    forall q | q in s.tasks ensures Below(TableOf(s.tasks[q].fds), s.nextFile) {
      var t := TableOf(s.tasks[q].fds);
      forall d | 0 <= d < |t| && t[d].Some? ensures t[d].value < s.nextFile {
        assert s.tasks[q].fds[d].file.value in s.files;
      }
    }
  }

  lemma StartsSound(s: State, p: Pid)
    requires Running(s, p) && p in s.tasks && StandardOpen(TableOf(s.tasks[p].fds))
    requires forall q :: q in s.tasks ==> q <= s.nextPid && Below(TableOf(s.tasks[q].fds), s.nextFile)
    ensures var S, t0 := Slots(s.tasks), TableOf(s.tasks[p].fds);
      && Sound(S, t0, s, p, t0, {}) && p in S && S[p] == t0
      && forall q :: q in S ==> q <= s.nextPid && Below(S[q], s.nextFile)
  {
    hide Below, Running;
    TableIs(s, p);
    assert Slots(s.tasks)[p := TableOf(s.tasks[p].fds)] == Slots(s.tasks);
  }

  lemma SoundMeans(S: map<Pid, Table>, t0: Table, s: State, p: Pid, t: Table, mine: set<int>)
    requires Sound(S, t0, s, p, t, mine)
    ensures p in S && Below(t, s.nextFile) && |t| == MAX_FDS
  {
    hide Below, Slots, Running;
  }

  lemma SoundFewer(S: map<Pid, Table>, t0: Table, t: Table, s: State, p: Pid, t1: Table, mine: set<int>, less: set<int>,
                   left: set<int>)
    requires Extra(t0, t, mine) && Sound(S, t0, s, p, t1, less) && less <= left <= mine
    ensures Sound(S, t0, s, p, t1, left)
  {
    hide Below, Shell, Running;
  }

  lemma SameTable(S: map<Pid, Table>, S1: map<Pid, Table>, s: State, p: Pid, t0: Table, stages: seq<Stage>,
                  pids: seq<Pid>, first: FileId)
    requires Shell(S1, s, p, t0) && p in S && S[p] == t0 && Plumbed(S, S1, stages, pids, first)
    ensures Plumbed(S, Slots(s.tasks), stages, pids, first)
  {
    hide Slots, StageHolds, Below;
    assert S1[p := t0] == S1;
  }

  /**
   Whoever holds the write end of pipe k is stage k, and holds it as 1; and it does unless its output is redirected.
   */
  lemma WriteEndHeld(S: map<Pid, Table>, F: map<Pid, Table>, stages: seq<Stage>, pids: seq<Pid>, first: FileId, k: nat,
                     r: Pid, d: nat)
    requires Plumbed(S, F, stages, pids, first) && k + 1 < |stages| && r in F && d < |F[r]|
    ensures F[r][d] == Some(first + 2 * k + 1) <==> k < |pids| && r == pids[k] && d == 1 && !stages[k].output
  {
    if r in S {
      assert Below(F[r], first);
      assert k < |pids| ==> pids[k] !in S;
    } else {
      var j := StageOf(S, F, stages, pids, first, r);
      assert StageHolds(F[r], stages, first, j);
    }
  }

  lemma StageOf(S: map<Pid, Table>, F: map<Pid, Table>, stages: seq<Stage>, pids: seq<Pid>, first: FileId,
                r: Pid) returns (j: nat)
    requires Plumbed(S, F, stages, pids, first) && r in F && r !in S
    ensures j < |pids| && pids[j] == r
  {
    hide StageHolds, Below;
    assert r in F.Keys && r in pids;
    j :| 0 <= j < |pids| && pids[j] == r;
  }

  /**
   Whoever holds the read end of pipe k is stage k + 1, and holds it as 0; and it does unless its input is redirected.
   */
  lemma ReadEndHeld(S: map<Pid, Table>, F: map<Pid, Table>, stages: seq<Stage>, pids: seq<Pid>, first: FileId, k: nat,
                    r: Pid, d: nat)
    requires Plumbed(S, F, stages, pids, first) && k + 1 < |stages| && r in F && d < |F[r]|
    ensures F[r][d] == Some(first + 2 * k) <==> k + 1 < |pids| && r == pids[k + 1] && d == 0 && !stages[k + 1].input
  {
    if r in S {
      assert Below(F[r], first);
      assert k + 1 < |pids| ==> pids[k + 1] !in S;
    } else {
      var j := StageOf(S, F, stages, pids, first, r);
      assert StageHolds(F[r], stages, first, j);
    }
  }
}
