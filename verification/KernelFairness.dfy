/**
 Starvation freedom of pick_runnable: on every infinite run in which the
 scheduler keeps picking, a runnable task is picked, although other tasks keep
 being inserted at the head of the list and reaped out of it.
 */
module KernelFairness {
  import opened Common
  import opened KernelState
  import opened KernelInvariant
  import opened KernelDescriptors
  import opened KernelCalls
  import opened KernelIo
  import opened KernelLife
  import opened KernelRuns

  // ----- The scan ------------------------------------------------------------

  /** The circular scan stops at the first runnable entry, so it never passes one. */
  lemma {:induction false} ScanStopsAt(tasks: map<Pid, Task>, order: seq<Pid>, i: nat, n: nat, k: nat)
    requires i < |order| && k < |order| && RunnableAt(tasks, order, k)
    requires if i <= k then k - i < n else |order| - i + k < n
    ensures var r := Scan(tasks, order, i, n);
      r.Some? && if i <= k then i <= r.value <= k else i <= r.value || r.value <= k
    decreases n
  {
    if !RunnableAt(tasks, order, i) {
      ScanStopsAt(tasks, order, if i + 1 < |order| then i + 1 else 0, n - 1, k);
    }
  }

  // ----- The measure -----------------------------------------------------------

  /** 0: the cursor is before t; 1: the scan must wrap first; 2: nothing ran yet. */
  function Phase(s: State, t: Pid): nat {
    if s.cursor.None? then 2
    else if IndexOf(s.order, s.cursor.value) < IndexOf(s.order, t) then 0
    else 1
  }

  function Distance(s: State, t: Pid): nat {
    if s.cursor.None? then 0
    else if Phase(s, t) == 0 then IndexOf(s.order, t) - IndexOf(s.order, s.cursor.value)
    else |s.order| - IndexOf(s.order, s.cursor.value)
  }

  ghost predicate LowerRank(s': State, s: State, t: Pid) {
    Phase(s', t) < Phase(s, t) || (Phase(s', t) == Phase(s, t) && Distance(s', t) < Distance(s, t))
  }

  ghost predicate NoHigherRank(s': State, s: State, t: Pid) {
    Phase(s', t) == Phase(s, t) && Distance(s', t) <= Distance(s, t)
  }

  lemma IndexOfListed(order: seq<Pid>, t: Pid)
    requires t in order
    ensures IndexOf(order, t) < |order|
  {
  }

  lemma IndexUnique(order: seq<Pid>, i: nat)
    requires forall i, j :: 0 <= i < j < |order| ==> order[i] != order[j]
    requires i < |order|
    ensures IndexOf(order, order[i]) == i
  {
    assert IndexOf(order, order[i]) <= i;
  }

  lemma IndexAfterInsert(order: seq<Pid>, order': seq<Pid>, t: Pid)
    requires |order'| == |order| + 1 && order'[1..] == order && order'[0] != t
    ensures IndexOf(order', t) == IndexOf(order, t) + 1
  {
  }

  lemma {:induction false} IndexAfterRemoval(order: seq<Pid>, c: Pid, t: Pid)
    requires c in order && t in order && c != t
    ensures |Without(order, c)| == |order| - 1
    ensures IndexOf(Without(order, c), t)
         == IndexOf(order, t) - (if IndexOf(order, c) < IndexOf(order, t) then 1 else 0)
  {
    if order[0] != c {
      assert order == [order[0]] + order[1..];
      if order[0] != t {
        IndexAfterRemoval(order[1..], c, t);
      } else {
        LengthAfterRemoval(order[1..], c);
      }
    }
  }

  lemma {:induction false} LengthAfterRemoval(order: seq<Pid>, c: Pid)
    requires c in order
    ensures |Without(order, c)| == |order| - 1
  {
    if order[0] != c {
      assert order == [order[0]] + order[1..];
      LengthAfterRemoval(order[1..], c);
    }
  }

  /** The list moved under a fixed cursor: t does not get farther away. */
  lemma MoveKeepsRank(s: State, s': State, t: Pid)
    requires Listed(s.tasks.Keys, s.order) && Listed(s'.tasks.Keys, s'.order)
    requires t in s.tasks && s.tasks[t].state.Runnable?
    requires s.cursor.Some? ==> s.cursor.value in s.tasks
    requires s.cursor.Some? ==> Moved(s, s', s.cursor.value)
    requires s.cursor.None? ==> s'.cursor.None?
    ensures NoHigherRank(s', s, t)
  {
    hide IndexOf, Without;
    if s.cursor.Some? {
      var u := s.cursor.value;
      if s'.order == s.order {
      } else if |s'.order| == |s.order| + 1 && s'.order[1..] == s.order {
        HeadIsNew(s.order, s'.order, t);
        HeadIsNew(s.order, s'.order, u);
        IndexAfterInsert(s.order, s'.order, t);
        IndexAfterInsert(s.order, s'.order, u);
      } else {
        var c :| c in s.tasks && s.tasks[c].state.Zombie? && c != u && s'.order == Without(s.order, c);
        RemovalShifts(s.order, c, u, t);
      }
    }
  }

  lemma RemovalShifts(order: seq<Pid>, c: Pid, u: Pid, t: Pid)
    requires c in order && u in order && t in order && c != u && c != t
    ensures var order' := Without(order, c);
      && (IndexOf(order', u) < IndexOf(order', t) <==> IndexOf(order, u) < IndexOf(order, t))
      && IndexOf(order', t) - IndexOf(order', u) <= IndexOf(order, t) - IndexOf(order, u)
           + (if IndexOf(order, u) < IndexOf(order, t) then 0 else 1)
      && |order'| - IndexOf(order', u) <= |order| - IndexOf(order, u)
  {
    IndexAfterRemoval(order, c, t);
    IndexAfterRemoval(order, c, u);
    IndexOfListed(order, c);
    IndexOfListed(order, t);
    IndexOfListed(order, u);
    assert order[IndexOf(order, c)] == c && order[IndexOf(order, t)] == t && order[IndexOf(order, u)] == u;
  }

  lemma HeadIsNew(order: seq<Pid>, order': seq<Pid>, t: Pid)
    requires |order'| == |order| + 1 && order'[1..] == order && t in order
    requires forall i, j :: 0 <= i < j < |order'| ==> order'[i] != order'[j]
    ensures order'[0] != t
  {
    var i :| 0 <= i < |order| && order[i] == t;
    assert order'[i + 1] == t;
  }

  // ----- Steps ----------------------------------------------------------------

  ghost predicate IsPick(s: State, op: Op) {
    op.Pick? && Scheduling(s) && Picked(s).Some?
  }

  ghost predicate Picks(s: State, op: Op, t: Pid) {
    IsPick(s, op) && Picked(s) == Some(t)
  }

  ghost predicate Waiting(s: State, t: Pid) {
    t in s.tasks && s.tasks[t].state.Runnable?
  }

  /** Switching to another task brings the cursor closer to t, or past the end of the list. */
  lemma DispatchLowersRank(s: State, t: Pid)
    requires Inv(s) && Waiting(s, t) && Picked(s).Some? && Picked(s) != Some(t)
    ensures LowerRank(Dispatch(s, Picked(s).value), s, t)
    ensures Waiting(Dispatch(s, Picked(s).value), t)
  {
    hide Core, Scan;
    var k := IndexOf(s.order, t);
    IndexOfListed(s.order, t);
    if s.cursor.Some? { IndexOfListed(s.order, s.cursor.value); }
    ScanStopsAt(s.tasks, s.order, StartIndex(s), |s.order|, k);
    var r := Scan(s.tasks, s.order, StartIndex(s), |s.order|).value;
    IndexUnique(s.order, r);
  }

  /** What the turn of the picked task does after the switch, to the task list and to the others. */
  lemma PickMoves(s: State, env: Env)
    requires Inv(s) && Scheduling(s) && Picked(s).Some?
    ensures Moved(Dispatch(s, Picked(s).value), PickStep(s, env), Picked(s).value)
  {
    hide Core, Listed, Others, Turns, ExitTask, Resume, Picked, Steady, Moved;
    var p := Picked(s).value;
    PickedRuns(s);
    Dispatched(s, p);
    var s1 := Dispatch(s, p);
    if s1.tasks[p].pending && !s1.tasks[p].ignoring {
      Delivered(s1, p);
      var s2 := s1.(tasks := s1.tasks[p := s1.tasks[p].(pending := false, call := NoCall)]);
      ExitKeeps(s2, p, 130);
      ClearedSteady(s1, s2, p);
      SteadyTrans(s1, s2, ExitTask(s2, p, 130), p);
      SteadyMoves(s1, ExitTask(s2, p, 130), p);
    } else {
      ResumeKeeps(s1, p, env);
    }
  }

  lemma PickLowersRank(s: State, env: Env, t: Pid)
    requires Inv(s) && Waiting(s, t) && IsPick(s, Pick(env)) && Picked(s) != Some(t)
    ensures LowerRank(PickStep(s, env), s, t) && Waiting(PickStep(s, env), t)
  {
    hide Core, Listed, Others, Turns, ExitTask, Resume, Picked, Phase, Distance, Steady, Moved;
    var p := Picked(s).value;
    PickedRuns(s);
    DispatchLowersRank(s, t);
    Dispatched(s, p);
    var s1 := Dispatch(s, p);
    PickMoves(s, env);
    PickKeeps(s, env);
    MovedKeepsWaiting(s1, PickStep(s, env), p, t);
    MoveKeepsRank(s1, PickStep(s, env), t);
  }

  lemma ClearedSteady(s1: State, s2: State, p: Pid)
    requires p in s1.tasks
    requires s2 == s1.(tasks := s1.tasks[p := s1.tasks[p].(pending := false, call := NoCall)])
    ensures Steady(s1, s2, p)
  {
  }

  lemma MovedKeepsWaiting(s: State, s': State, p: Pid, t: Pid)
    requires Moved(s, s', p) && Waiting(s, t) && t != p
    ensures Waiting(s', t)
  {
  }

  lemma FinishExecSteady(s: State, t: Pid)
    requires Inv(s) && s.current.None? && Waiting(s, t)
    ensures var s' := FinishExecTask(s); s'.order == s.order && s'.cursor == s.cursor && Waiting(s', t)
  {
    hide Core, Listed, Frame;
    if s.cursor.Some? && s.tasks[s.cursor.value].state.ExecPending? {
      var p := s.cursor.value;
      PendingIsIdle(s, p);
      ClosedOnExecFrom(s, p, 0);
      FrameSteady(s, FdCloseOnExecFrom(s, p, 0), p);
    }
  }

  lemma ApiKeepsRank(s: State, p: Pid, call: ApiCall, env: Env, t: Pid)
    requires Inv(s) && Waiting(s, t) && s.current == Some(p)
    ensures p in s.tasks && NoHigherRank(ApiStep(s, p, call, env), s, t) && Waiting(ApiStep(s, p, call, env), t)
  {
    hide Core, Listed, Others, Moved, ApiStep, Phase, Distance;
    InvIsActing(s);
    ActingHasSlots(s, p);
    ApiKeeps(s, p, call, env);
    MovedKeepsWaiting(s, ApiStep(s, p, call, env), p, t);
    MoveKeepsRank(s, ApiStep(s, p, call, env), t);
  }

  lemma NoPick(s: State, env: Env)
    requires !IsPick(s, Pick(env))
    ensures PickStep(s, env) == s
  {
  }

  /** A runnable task stays runnable until it is picked, and every other pick brings it nearer. */
  lemma StepRank(s: State, op: Op, t: Pid)
    requires Inv(s) && Waiting(s, t) && !Picks(s, op, t)
    ensures Waiting(Step(s, op), t)
    ensures if IsPick(s, op) then LowerRank(Step(s, op), s, t) else NoHigherRank(Step(s, op), s, t)
  {
    hide Core, Listed, Others, ApiStep, PickStep, FinishExecTask, IndexOf, Picked;
    match op
    case Tick(env) =>
    case Idle(polled) =>
    case Pick(env) => if IsPick(s, op) { PickLowersRank(s, env, t); } else { NoPick(s, env); }
    case FinishExec => if s.current.None? { FinishExecSteady(s, t); }
    case RequestInterrupt(pid) =>
    case Api(call, env) =>
      if s.current.Some? && s.current.value in s.tasks {
        ApiKeepsRank(s, s.current.value, call, env, t);
      }
  }

  // ----- Infinite runs ----------------------------------------------------------------

  /**
   From any reachable point i of an infinite run whose picks never cease, a
   runnable task t is picked at some later point n. No bound on the number of
   spawns enters: the measure is lexicographic.
   */
  lemma EventuallyPicked(run: nat -> State, ops: nat -> Op, nextPick: nat -> nat, t: Pid, i: nat, j: nat)
    returns (n: nat)
    requires forall k: nat :: run(k + 1) == Step(run(k), ops(k))
    requires forall k: nat :: nextPick(k) >= k && IsPick(run(nextPick(k)), ops(nextPick(k)))
    requires Inv(run(i)) && Waiting(run(i), t)
    requires i <= j && IsPick(run(j), ops(j))
    ensures i <= n && Picks(run(n), ops(n), t)
    ensures forall k :: i <= k < n ==> Waiting(run(k), t) && !Picks(run(k), ops(k), t)
    decreases Phase(run(i), t), Distance(run(i), t), j - i
  {
    hide Inv, Step, Picked, Phase, Distance, Waiting, Scheduling;
    if Picks(run(i), ops(i), t) {
      n := i;
    } else {
      StepKeeps(run(i), ops(i));
      StepRank(run(i), ops(i), t);
      assert run(i + 1) == Step(run(i), ops(i));
      n := EventuallyPicked(run, ops, nextPick, t, i + 1, if i == j then nextPick(i + 1) else j);
    }
  }

  /** The same from boot: a task that is runnable at point i of a fair run is picked from there on. */
  lemma StarvationFree(supported: bool, run: nat -> State, ops: nat -> Op, nextPick: nat -> nat, t: Pid, i: nat)
    returns (n: nat)
    requires run(0) == Boot(supported)
    requires forall k: nat :: run(k + 1) == Step(run(k), ops(k))
    requires forall k: nat :: nextPick(k) >= k && IsPick(run(nextPick(k)), ops(nextPick(k)))
    requires Waiting(run(i), t)
    ensures i <= n && Picks(run(n), ops(n), t)
    ensures forall k :: i <= k < n ==> Waiting(run(k), t) && !Picks(run(k), ops(k), t)
  {
    hide Inv, Step, Picked, Waiting, Scheduling;
    RunIsReachable(supported, run, ops, i);
    n := EventuallyPicked(run, ops, nextPick, t, i, nextPick(i));
  }

  lemma {:induction false} RunIsReachable(supported: bool, run: nat -> State, ops: nat -> Op, i: nat)
    requires run(0) == Boot(supported)
    requires forall k: nat :: run(k + 1) == Step(run(k), ops(k))
    ensures Inv(run(i))
  {
    hide Inv, Step;
    if i == 0 {
      BootOk(supported);
    } else {
      RunIsReachable(supported, run, ops, i - 1);
      StepKeeps(run(i - 1), ops(i - 1));
      assert run(i - 1 + 1) == Step(run(i - 1), ops(i - 1));
    }
  }
}
