/** What the kernel promises of every run, read off the invariant. */
module KernelPromises {
  import opened Common
  import opened KernelState
  import opened KernelInvariant
  import opened KernelDescriptors
  import opened KernelCalls
  import opened KernelIo
  import opened KernelLife
  import opened KernelRuns

  /** A task blocked on a pipe has an empty pipe with a live writer, or a full one with a live reader. */
  lemma NoLostPipeWakeup(supported: bool, ops: seq<Op>, p: Pid)
    requires p in Run(Boot(supported), ops).tasks && Run(Boot(supported), ops).tasks[p].state.BlockedPipe?
    ensures var s := Run(Boot(supported), ops);
      match s.tasks[p].call
      case PipeReadCall(f, q, count) =>
        && HasFile(s.tasks[p], f) && f in s.files && s.files[f].kind == PipeEnd(q, ReadEnd)
        && q in s.pipes && s.pipes[q].contents == [] && Ends(s.files, q, WriteEnd) != {}
      case PipeWriteCall(f, q, data, total) =>
        && HasFile(s.tasks[p], f) && f in s.files && s.files[f].kind == PipeEnd(q, WriteEnd)
        && q in s.pipes && |s.pipes[q].contents| == PIPE_SIZE && Ends(s.files, q, ReadEnd) != {}
        && total < |data|
      case _ => false
  {
    hide Run, Counts, Fifo, PipeIds, FileIds, ChildWaits, Interrupts, Deaths, Reaps, Listed, Turns, HasFile,
         PollBlockOk;
    Reachable(supported, ops);
    var s := Run(Boot(supported), ops);
    assert OwnsFile(s.files, s.tasks[p]) && NothingToDo(s.files, s.pipes, s.tasks[p]);
    assert PipeBlockOk(s.pipes, s.tasks[p].call);
    var q := s.tasks[p].call.pipe;
    assert PipeOk(s.files, q, s.pipes[q]);
  }

  /** A descriptor that a sleeping poll watches is open and has none of the reported events. */
  ghost predicate Quiet(files: map<FileId, OpenFile>, pipes: map<PipeId, Pipe>, fds: seq<FdEntry>, pf: PollFd) {
    && 0 <= pf.fd < |fds| && fds[pf.fd].file.Some? && fds[pf.fd].file.value in files
    && match files[fds[pf.fd].file.value].kind
       case ConsoleIn => true
       case ConsoleOut => !pf.wantWrite
       case NodeFile(r, w) => !(pf.wantRead && r) && !(pf.wantWrite && w)
       case PipeEnd(q, ReadEnd) =>
         q in pipes && Ends(files, q, WriteEnd) != {} && (pf.wantRead ==> pipes[q].contents == [])
       case PipeEnd(q, WriteEnd) =>
         q in pipes && Ends(files, q, ReadEnd) != {} && (pf.wantWrite ==> |pipes[q].contents| == PIPE_SIZE)
  }

  /**
   A task blocked in waitpid has a matching child, and every matching child is
   still alive; one blocked in poll watches only descriptors with nothing to
   report. (Console input is the host's: the scheduler asks for it on every
   round, see KernelPolls.TickWakesWhom.)
   */
  lemma NoLostWaitOrPollWakeup(supported: bool, ops: seq<Op>, p: Pid)
    requires p in Run(Boot(supported), ops).tasks
    ensures var s := Run(Boot(supported), ops);
      && (s.tasks[p].state.BlockedWait? ==>
            && s.tasks[p].call.WaitCall?
            && (exists c :: c in s.tasks && s.tasks[c].ppid == p && s.tasks[p].call.target in {-1, c})
            && (forall c :: c in s.tasks && s.tasks[c].ppid == p && s.tasks[p].call.target in {-1, c}
                  ==> !s.tasks[c].state.Zombie?))
      && (s.tasks[p].state.BlockedPoll? ==>
            && s.tasks[p].call.PollCall?
            && (forall i :: 0 <= i < |s.tasks[p].call.fds| && s.tasks[p].call.fds[i].fd >= 0
                  ==> Quiet(s.files, s.pipes, s.tasks[p].fds, s.tasks[p].call.fds[i])))
  {
    hide Run, Counts, Fifo, PipeIds, FileIds, Interrupts, Deaths, Reaps, Listed, Turns, Owned, Pipes, PollBlockOk,
         WaitBlockOk, PipeBlockOk, Quiet;
    Reachable(supported, ops);
    var s := Run(Boot(supported), ops);
    assert NothingToDo(s.files, s.pipes, s.tasks[p]);
    if s.tasks[p].state.BlockedWait? {
      WaitersWait(s.tasks, p, s.tasks[p].call);
    }
    if s.tasks[p].state.BlockedPoll? {
      CountsImplySlotsLive(s.tasks, s.files, multiset{});
      PollersAreQuiet(s, p);
    }
  }

  lemma WaitersWait(tasks: map<Pid, Task>, p: Pid, c: Call)
    requires WaitBlockOk(tasks, p, c)
    ensures c.WaitCall?
    ensures exists k :: k in tasks && tasks[k].ppid == p && c.target in {-1, k}
    ensures forall k :: k in tasks && tasks[k].ppid == p && c.target in {-1, k} ==> !tasks[k].state.Zombie?
  {
    var k :| ChildOf(tasks, p, c.target, k);
    assert k in tasks && tasks[k].ppid == p && c.target in {-1, k};
    forall k | k in tasks && tasks[k].ppid == p && c.target in {-1, k} ensures !tasks[k].state.Zombie? {
      assert ChildOf(tasks, p, c.target, k);
    }
  }

  lemma PollersAreQuiet(s: State, p: Pid)
    requires Pipes(s.files, s.pipes) && SlotsLive(s.tasks, s.files)
    requires p in s.tasks && PollBlockOk(s.files, s.pipes, s.tasks[p])
    ensures s.tasks[p].call.PollCall?
    ensures forall i :: 0 <= i < |s.tasks[p].call.fds| && s.tasks[p].call.fds[i].fd >= 0 ==>
      Quiet(s.files, s.pipes, s.tasks[p].fds, s.tasks[p].call.fds[i])
  {
    hide Pipes, Quiet;
    var t := s.tasks[p];
    forall i | 0 <= i < |t.call.fds| && t.call.fds[i].fd >= 0
      ensures Quiet(s.files, s.pipes, t.fds, t.call.fds[i])
    {
      NotReadyIsQuiet(s.files, s.pipes, t.fds, t.call.fds[i]);
    }
  }

  lemma NotReadyIsQuiet(files: map<FileId, OpenFile>, pipes: map<PipeId, Pipe>, fds: seq<FdEntry>, pf: PollFd)
    requires Pipes(files, pipes) && pf.fd >= 0 && !PollReady(files, pipes, fds, pf, false)
    requires pf.fd < |fds| && fds[pf.fd].file.Some? ==> fds[pf.fd].file.value in files
    ensures Quiet(files, pipes, fds, pf)
  {
    var kind := files[fds[pf.fd].file.value].kind;
    if kind.PipeEnd? {
      assert PipeOk(files, kind.pipe, pipes[kind.pipe]);
    }
  }

  /** Each child is reaped at most once, by its parent, with the status it exited with. */
  lemma ReapedOnce(supported: bool, ops: seq<Op>)
    ensures var h := Run(Boot(supported), ops).hist;
      && (forall i :: 0 <= i < |h.reaps| ==>
            && h.reaps[i].child in h.exits && h.reaps[i].status == h.exits[h.reaps[i].child]
            && h.reaps[i].child in h.parents && h.reaps[i].parent == h.parents[h.reaps[i].child])
      && (forall i, j :: 0 <= i < j < |h.reaps| ==> h.reaps[i].child != h.reaps[j].child)
  {
    hide Run, Shape, Counts, Fifo, PipeIds, FileIds, Interrupts, Deaths, Listed, Turns, Owned, Pipes, IoWaits,
         ChildWaits;
    Reachable(supported, ops);
    var s := Run(Boot(supported), ops);
    forall i | 0 <= i < |s.hist.reaps|
      ensures ReapOk(s.tasks.Keys, s.hist.parents, s.hist.exits, s.hist.reaps[i]) { }
  }

  /** Counts are exact; a file is closed once, when the last slot lets go of it. */
  lemma ExactReferences(supported: bool, ops: seq<Op>)
    ensures var s := Run(Boot(supported), ops);
      && (forall f :: f in s.files ==> s.files[f].references == |Holders(s.tasks, f)| && Holders(s.tasks, f) != {})
      && (forall f :: 0 <= f < s.nextFile ==> (f in s.files <==> f !in s.hist.closed))
      && (forall i, j :: 0 <= i < j < |s.hist.closed| ==> s.hist.closed[i] != s.hist.closed[j])
  {
    hide Run, Shape, Fifo, PipeIds, Interrupts, Deaths, Listed, Turns, Owned, Pipes, IoWaits, ChildWaits, Reaps,
         SlotsLive;
    Reachable(supported, ops);
    var s := Run(Boot(supported), ops);
    forall f | f in s.files ensures s.files[f].references == |Holders(s.tasks, f)| && Holders(s.tasks, f) != {} {
      assert Counted(s.tasks, s.files, multiset{}, f);
    }
  }

  /** A pipe exists exactly while one of its ends is open, and counts its open ends. */
  lemma PipeLifetime(supported: bool, ops: seq<Op>, q: PipeId)
    ensures var s := Run(Boot(supported), ops);
      && (q in s.pipes <==> Ends(s.files, q, ReadEnd) + Ends(s.files, q, WriteEnd) != {})
      && (q in s.pipes ==> s.pipes[q].readers == |Ends(s.files, q, ReadEnd)|)
      && (q in s.pipes ==> s.pipes[q].writers == |Ends(s.files, q, WriteEnd)|)
  {
    hide Run, Shape, Counts, Fifo, PipeIds, FileIds, Interrupts, Deaths, Listed, Turns, Owned, IoWaits, ChildWaits,
         Reaps;
    Reachable(supported, ops);
    var s := Run(Boot(supported), ops);
    if q in s.pipes {
      assert PipeOk(s.files, q, s.pipes[q]);
      if Ends(s.files, q, ReadEnd) == {} && Ends(s.files, q, WriteEnd) == {} {
        assert false;
      }
    }
  }

  /** Bytes come out of a pipe in the order they went in; none is lost, duplicated or over capacity. */
  lemma PipeConservation(supported: bool, ops: seq<Op>, q: PipeId)
    ensures var s := Run(Boot(supported), ops);
      && Log(s.hist.received, q) <= Log(s.hist.sent, q)
      && (q in s.pipes ==> Log(s.hist.received, q) + s.pipes[q].contents == Log(s.hist.sent, q))
      && (q in s.pipes ==> |s.pipes[q].contents| <= PIPE_SIZE)
  {
    hide Run, Shape, Counts, PipeIds, FileIds, Interrupts, Deaths, Listed, Turns, Owned, IoWaits, ChildWaits, Reaps,
         Ends;
    Reachable(supported, ops);
    var s := Run(Boot(supported), ops);
    if q in s.pipes {
      assert PipeOk(s.files, q, s.pipes[q]);
    }
  }

  // ----- Interrupts ---------------------------------------------------------------

  lemma PendingIsDeliverable(supported: bool, ops: seq<Op>, p: Pid)
    requires p in Run(Boot(supported), ops).tasks && Run(Boot(supported), ops).tasks[p].pending
    ensures var t := Run(Boot(supported), ops).tasks[p];
      !t.ignoring && t.supports && (t.state.ExecPending? ==> t.execTarget == Some(true))
  {
    hide Run, Shape, Counts, Fifo, PipeIds, FileIds, Deaths, Listed, Turns, Owned, Pipes, IoWaits, ChildWaits, Reaps;
    Reachable(supported, ops);
    assert InterruptOk(Run(Boot(supported), ops).tasks[p]);
  }
}
