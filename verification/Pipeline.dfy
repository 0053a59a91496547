/**
 The descriptor plumbing of run_pipeline: which spawn actions it makes, and
 what every task's table holds once all stages run and the shell has closed its
 copies.
 */
module Pipeline {
  import opened Common
  import opened KernelState
  import opened KernelSlots

  const MAX_STAGES := 16
  const MAX_ACTIONS := 2 + 2 * (MAX_STAGES - 1) + 2

  /** Whether a stage has its input, its output redirected */
  datatype Stage = Stage(input: bool, output: bool)

  /** The descriptors of the two ends of a pipe */
  datatype Ends = Ends(read: int, write: int)

  // ----- The actions of one stage ----------------------------------------------------------

  function PipeCloses(pipes: seq<Ends>): (r: seq<Action>)
    ensures |r| == 2 * |pipes|
  {
    if pipes == [] then []
    else
      var last := pipes[|pipes| - 1];
      PipeCloses(pipes[..|pipes| - 1]) + [CloseAction(last.read), CloseAction(last.write)]
  }

  function SourceInput(inputs: seq<int>, pipes: seq<Ends>, i: nat): int
    requires i < |inputs| == |pipes| + 1
  {
    if inputs[i] >= 0 then inputs[i] else if i > 0 then pipes[i - 1].read else -1
  }

  function SourceOutput(outputs: seq<int>, pipes: seq<Ends>, i: nat): int
    requires i < |outputs| == |pipes| + 1
  {
    if outputs[i] >= 0 then outputs[i] else if i < |pipes| then pipes[i].write else -1
  }

  function Dup2If(from: int, to: int): seq<Action> {
    if from >= 0 then [Dup2Action(from, to)] else []
  }

  function CloseIf(fd: int): seq<Action> {
    if fd >= 0 then [CloseAction(fd)] else []
  }

  function StageActions(inputs: seq<int>, outputs: seq<int>, pipes: seq<Ends>, i: nat): seq<Action>
    requires i < |inputs| == |outputs| == |pipes| + 1
  {
    Dup2If(SourceInput(inputs, pipes, i), 0) + Dup2If(SourceOutput(outputs, pipes, i), 1)
    + PipeCloses(pipes)
    + CloseIf(inputs[i]) + (if outputs[i] != inputs[i] then CloseIf(outputs[i]) else [])
  }

  // ----- What they do to a table -------------------------------------------------------------

  predicate Listed(pipes: seq<Ends>, d: int) {
    exists k :: 0 <= k < |pipes| && (pipes[k].read == d || pipes[k].write == d)
  }

  /** A descriptor of the shell's that is redirected or is not (-1) */
  predicate RedirectionOk(t: Table, fd: int, first: FileId) {
    fd == -1 || (3 <= fd < |t| && t[fd].Some? && t[fd].value < first)
  }

  /**
   The shell's table before the first spawn: pipe k has the files first + 2k and
   first + 2k + 1, on descriptors of its own above 2, and nothing newer is open.
   */
  ghost predicate Wired(t: Table, inputs: seq<int>, outputs: seq<int>, pipes: seq<Ends>, first: FileId) {
    && |t| == MAX_FDS && |inputs| == |outputs| == |pipes| + 1
    && (forall k :: 0 <= k < |pipes| ==> PipeWired(t, pipes[k], first + 2 * k))
    && (forall d :: 0 <= d < |t| && t[d].Some? && t[d].value >= first ==> Listed(pipes, d))
    && (forall i :: 0 <= i < |inputs| ==> RedirectionOk(t, inputs[i], first) && RedirectionOk(t, outputs[i], first))
  }

  ghost predicate PipeWired(t: Table, e: Ends, f: FileId) {
    && 3 <= e.read < |t| && 3 <= e.write < |t|
    && t[e.read] == Some(f) && t[e.write] == Some(f + 1)
  }

  /** The table of stage i: the ends of pipes it holds are its own, as 0 and 1, unless they are redirected. */
  ghost predicate Piped(c: Table, t: Table, inputs: seq<int>, outputs: seq<int>, pipes: seq<Ends>, first: FileId,
                        i: nat) {
    && |c| == |t| == MAX_FDS && i < |inputs| == |outputs| == |pipes| + 1
    && (forall d :: 2 <= d < |c| && c[d].Some? ==> c[d] == t[d] && c[d].value < first)
    && c[0] == (if inputs[i] >= 0 && inputs[i] < |t| then t[inputs[i]]
                else if i > 0 then Some(first + 2 * (i - 1)) else t[0])
    && c[1] == (if outputs[i] >= 0 && outputs[i] < |t| then t[outputs[i]]
                else if i < |pipes| then Some(first + 2 * i + 1) else t[1])
  }

  lemma {:induction false} ActedAppend(t: Table, a: seq<Action>, b: seq<Action>)
    ensures ActedAll(t, a + b) == var r := ActedAll(t, a); if r.Some? then ActedAll(r.value, b) else None
    decreases |a|
  {
    if a == [] {
      assert a + b == b;
    } else {
      assert (a + b)[1..] == a[1..] + b;
      if Allowed(t, a[0]) { ActedAppend(Acted(t, a[0]), a[1..], b); }
    }
  }

  lemma OneActed(t: Table, a: Action)
    ensures ActedAll(t, [a]) == if Allowed(t, a) then Some(Acted(t, a)) else None
  {
    assert [a][1..] == [];
  }

  /** Closing every pipe descriptor empties exactly those slots. */
  lemma {:induction false} ClosesActed(t: Table, pipes: seq<Ends>)
    ensures var r := ActedAll(t, PipeCloses(pipes));
      && r.Some? && |r.value| == |t|
      && forall d :: 0 <= d < |t| ==> r.value[d] == if Listed(pipes, d) then None else t[d]
    decreases |pipes|
  {
    if pipes != [] {
      var front, last := pipes[..|pipes| - 1], pipes[|pipes| - 1];
      ClosesActed(t, front);
      var closes := [CloseAction(last.read), CloseAction(last.write)];
      ActedAppend(t, PipeCloses(front), closes);
      var r := ActedAll(t, PipeCloses(front)).value;
      TwoClosed(r, last.read, last.write);
      forall d | 0 <= d < |t| ensures Listed(pipes, d) <==> Listed(front, d) || last.read == d || last.write == d {
        ListedLast(pipes, d);
      }
    }
  }

  lemma ListedLast(pipes: seq<Ends>, d: int)
    requires pipes != []
    ensures Listed(pipes, d) <==>
      Listed(pipes[..|pipes| - 1], d) || pipes[|pipes| - 1].read == d || pipes[|pipes| - 1].write == d
  {
    var front, last := pipes[..|pipes| - 1], pipes[|pipes| - 1];
    if Listed(front, d) {
      var k :| 0 <= k < |front| && (front[k].read == d || front[k].write == d);
      assert pipes[k] == front[k];
    }
    if Listed(pipes, d) {
      var k :| 0 <= k < |pipes| && (pipes[k].read == d || pipes[k].write == d);
      if k < |front| { assert front[k] == pipes[k]; }
    }
  }

  lemma TwoClosed(t: Table, a: int, b: int)
    ensures ActedAll(t, [CloseAction(a), CloseAction(b)]) == Some(Closed(Closed(t, a), b))
  {
    assert [CloseAction(a), CloseAction(b)][1..] == [CloseAction(b)];
    OneActed(Closed(t, a), CloseAction(b));
  }

  lemma Dup2Acted(t: Table, from: int, to: int)
    requires |t| == MAX_FDS && 0 <= to < MAX_FDS && (from < 0 || (from < |t| && t[from].Some?))
    ensures ActedAll(t, Dup2If(from, to)) == Some(if from >= 0 then t[to := t[from]] else t)
  {
    if from >= 0 { OneActed(t, Dup2Action(from, to)); }
  }

  lemma CloseActed(t: Table, fd: int)
    ensures ActedAll(t, CloseIf(fd)) == Some(Closed(t, fd))
  {
    if fd >= 0 { OneActed(t, CloseAction(fd)); }
  }

  /** The actions of a stage are never refused, and leave it exactly its own ends. */
  lemma StagePiped(t: Table, inputs: seq<int>, outputs: seq<int>, pipes: seq<Ends>, first: FileId, i: nat)
    requires Wired(t, inputs, outputs, pipes, first) && i < |inputs|
    ensures var r := ActedAll(t, StageActions(inputs, outputs, pipes, i));
      r.Some? && Piped(r.value, t, inputs, outputs, pipes, first, i)
  {
    hide ActedAll, Listed, PipeCloses;
    var src, dst := SourceInput(inputs, pipes, i), SourceOutput(outputs, pipes, i);
    SourcesOpen(t, inputs, outputs, pipes, first, i);
    var a1, a2, a3, a4 := Dup2If(src, 0), Dup2If(dst, 1), PipeCloses(pipes), CloseIf(inputs[i]);
    var a5 := if outputs[i] != inputs[i] then CloseIf(outputs[i]) else [];
    Dup2Acted(t, src, 0);
    var t1 := if src >= 0 then t[0 := t[src]] else t;
    Dup2Acted(t1, dst, 1);
    ActedAppend(t, a1, a2);
    var t2 := if dst >= 0 then t1[1 := t1[dst]] else t1;
    ClosesActed(t2, pipes);
    ActedAppend(t, a1 + a2, a3);
    var t3 := ActedAll(t2, a3).value;
    CloseActed(t3, inputs[i]);
    ActedAppend(t, a1 + a2 + a3, a4);
    var t4 := Closed(t3, inputs[i]);
    CloseActed(t4, outputs[i]);
    NothingActed(t4);
    ActedAppend(t, a1 + a2 + a3 + a4, a5);
    var c := if outputs[i] != inputs[i] then Closed(t4, outputs[i]) else t4;
    assert StageActions(inputs, outputs, pipes, i) == a1 + a2 + a3 + a4 + a5;
    StageTable(t, t3, c, inputs, outputs, pipes, first, i);
  }

  lemma NothingActed(t: Table)
    ensures ActedAll(t, []) == Some(t)
  {
  }

  lemma SourcesOpen(t: Table, inputs: seq<int>, outputs: seq<int>, pipes: seq<Ends>, first: FileId, i: nat)
    requires Wired(t, inputs, outputs, pipes, first) && i < |inputs|
    ensures var src := SourceInput(inputs, pipes, i); src == -1 || (3 <= src < |t| && t[src].Some?)
    ensures var dst := SourceOutput(outputs, pipes, i); dst == -1 || (3 <= dst < |t| && t[dst].Some?)
  {
    hide Listed;
    assert RedirectionOk(t, inputs[i], first) && RedirectionOk(t, outputs[i], first);
    if i > 0 { assert PipeWired(t, pipes[i - 1], first + 2 * (i - 1)); }
    if i < |pipes| { assert PipeWired(t, pipes[i], first + 2 * i); }
  }

  lemma StageTable(t: Table, t3: Table, c: Table, inputs: seq<int>, outputs: seq<int>, pipes: seq<Ends>, first: FileId,
                   i: nat)
    requires Wired(t, inputs, outputs, pipes, first) && i < |inputs| && |t3| == |t| == |c|
    requires var src, dst := SourceInput(inputs, pipes, i), SourceOutput(outputs, pipes, i);
      && (src < |t| && dst < |t|)
      && forall d :: 0 <= d < |t| ==>
           t3[d] == if Listed(pipes, d) then None
                    else if d == 0 then (if src >= 0 then t[src] else t[0])
                    else if d == 1 then (if dst >= 0 then t[dst] else t[1]) else t[d]
    requires c == if outputs[i] != inputs[i] then Closed(Closed(t3, inputs[i]), outputs[i]) else Closed(t3, inputs[i])
    ensures Piped(c, t, inputs, outputs, pipes, first, i)
  {
    hide Listed;
    var src, dst := SourceInput(inputs, pipes, i), SourceOutput(outputs, pipes, i);
    ListedHigh(t, inputs, outputs, pipes, first);
    RedirectionsOk(t, inputs, outputs, pipes, first, i);
    HighClosed(t3, inputs[i], outputs[i]);
    assert c[0] == t3[0] && c[1] == t3[1];
    forall d | 2 <= d < |c| && c[d].Some? ensures c[d] == t[d] && c[d].value < first {
      assert c[d] == t3[d];
      NothingNewer(t, inputs, outputs, pipes, first, d);
    }
  }

  /** Closing descriptors above 2 leaves 0 and 1, and opens nothing. */
  lemma HighClosed(t: Table, a: int, b: int)
    requires |t| == MAX_FDS && (a < 0 || a >= 3) && (b < 0 || b >= 3)
    ensures var c := Closed(Closed(t, a), b);
      c[0] == t[0] && c[1] == t[1] && forall d :: 2 <= d < |t| && c[d].Some? ==> c[d] == t[d]
    ensures var c := Closed(t, a);
      c[0] == t[0] && c[1] == t[1] && forall d :: 2 <= d < |t| && c[d].Some? ==> c[d] == t[d]
  {
  }

  lemma NothingNewer(t: Table, inputs: seq<int>, outputs: seq<int>, pipes: seq<Ends>, first: FileId, d: int)
    requires Wired(t, inputs, outputs, pipes, first) && 0 <= d < |t| && !Listed(pipes, d)
    ensures t[d].Some? ==> t[d].value < first
  {
    hide Listed;
  }

  lemma RedirectionsOk(t: Table, inputs: seq<int>, outputs: seq<int>, pipes: seq<Ends>, first: FileId, i: nat)
    requires Wired(t, inputs, outputs, pipes, first) && i < |inputs|
    ensures RedirectionOk(t, inputs[i], first) && RedirectionOk(t, outputs[i], first)
    ensures i > 0 ==> 3 <= pipes[i - 1].read < |t| && t[pipes[i - 1].read] == Some(first + 2 * (i - 1))
    ensures i < |pipes| ==> 3 <= pipes[i].write < |t| && t[pipes[i].write] == Some(first + 2 * i + 1)
  {
    hide Listed;
    if i > 0 { assert PipeWired(t, pipes[i - 1], first + 2 * (i - 1)); }
    if i < |pipes| { assert PipeWired(t, pipes[i], first + 2 * i); }
  }

  lemma ListedHigh(t: Table, inputs: seq<int>, outputs: seq<int>, pipes: seq<Ends>, first: FileId)
    requires Wired(t, inputs, outputs, pipes, first)
    ensures forall d :: Listed(pipes, d) ==> 3 <= d < |t|
  {
    forall d | Listed(pipes, d) ensures 3 <= d < |t| {
      var k :| 0 <= k < |pipes| && (pipes[k].read == d || pipes[k].write == d);
      assert PipeWired(t, pipes[k], first + 2 * k);
    }
  }
}
