/**
 The kernel as the program has it: tables updated in place, lists walked by
 loops. Each method is proved to take the tables where its function in
 KernelState says.
 */
module Kernel {
  import opened Common
  import opened KernelState

  /** The tasks cb_wake_pipe_tasks must reach are all on the linked list. */
  ghost predicate WaitersListed(s: State) {
    forall p :: p in s.tasks && PipeWaiter(s.tasks[p]) ==> p in s.order
  }

  class Machine {
    var tasks: map<Pid, Task>
    var order: seq<Pid>
    var current: Option<Pid>
    var cursor: Option<Pid>
    var nextPid: nat
    var files: map<FileId, OpenFile>
    var nextFile: nat
    var pipes: map<PipeId, Pipe>
    var nextPipe: nat
    var bootPid: Pid
    var bootStatus: Option<int>
    ghost var hist: History

    ghost function View(): State
      reads this
    {
      State(tasks, order, current, cursor, nextPid, files, nextFile, pipes, nextPipe, bootPid, bootStatus, hist)
    }

    /** cb_wake_pipe_tasks */
    method WakePipeWaiters()
      requires WaitersListed(View())
      modifies this`tasks
      ensures tasks == WakePipeTasks(old(tasks))
    {
      var i := 0;
      while i < |order|
        invariant 0 <= i <= |order|
        invariant tasks.Keys == old(tasks).Keys
        invariant forall p :: p in tasks ==>
          tasks[p] == if p in order[..i] && PipeWaiter(old(tasks)[p]) then old(tasks)[p].(state := Runnable)
                      else old(tasks)[p]
      {
        var p := order[i];
        if p in tasks && (tasks[p].state.BlockedPipe? || tasks[p].state.BlockedPoll?) {
          tasks := tasks[p := tasks[p].(state := Runnable)];
        }
        assert order[..i + 1] == order[..i] + [p];
        i := i + 1;
      }
      assert order[..i] == order;
      assert old(WaitersListed(View()));
      forall p | p in tasks ensures tasks[p] == WakePipeTasks(old(tasks))[p] {
        assert PipeWaiter(old(tasks)[p]) ==> p in order;
      }
    }

    /** cb_open_file_release, with pipe_read_close and pipe_write_close */
    method OpenFileRelease(f: FileId)
      requires WaitersListed(View())
      modifies this
      ensures View() == Release(old(View()), f) && WaitersListed(View())
    {
      if f !in files { return; }
      var file := files[f];
      if file.references - 1 != 0 {
        files := files[f := file.(references := file.references - 1)];
        return;
      }
      files := files - {f};
      hist := hist.(closed := hist.closed + [f]);
      if file.kind.PipeEnd? && file.kind.pipe in pipes {
        var q := file.kind.pipe;
        var pipe := pipes[q];
        match file.kind.end {
          case ReadEnd => pipe := pipe.(readers := pipe.readers - 1);
          case WriteEnd => pipe := pipe.(writers := pipe.writers - 1);
        }
        pipes := pipes[q := pipe];
        WakePipeWaiters();
        if pipe.readers == 0 && pipe.writers == 0 {
          pipes := pipes - {q};
          assert pipes == old(pipes) - {q};
        }
      }
    }

    /** fd_close; -1 is EBADF */
    method FdCloseAt(p: Pid, d: int) returns (r: int)
      requires WaitersListed(View())
      modifies this
      ensures View() == FdClose(old(View()), p, d) && WaitersListed(View())
      ensures r == 0 <==> SlotFile(old(View()), p, d).Some?
    {
      if p !in tasks || d < 0 || d >= |tasks[p].fds| || tasks[p].fds[d].file.None? {
        return -1;
      }
      var f := tasks[p].fds[d].file.value;
      tasks := tasks[p := tasks[p].(fds := tasks[p].fds[d := EMPTY_SLOT])];
      OpenFileRelease(f);
      r := 0;
    }

    /** fd_close_all */
    method FdCloseAll(p: Pid)
      requires WaitersListed(View())
      modifies this
      ensures View() == FdCloseFrom(old(View()), p, 0) && WaitersListed(View())
    {
      var d := 0;
      while d < MAX_FDS
        invariant 0 <= d <= MAX_FDS
        invariant WaitersListed(View())
        invariant FdCloseFrom(View(), p, d) == FdCloseFrom(old(View()), p, 0)
      {
        var _ := FdCloseAt(p, d);
        d := d + 1;
      }
    }

    /** The descriptor loop of task_finish_exec */
    method FdCloseOnExec(p: Pid)
      requires WaitersListed(View())
      modifies this
      ensures View() == FdCloseOnExecFrom(old(View()), p, 0) && WaitersListed(View())
    {
      var d := 0;
      while d < MAX_FDS
        invariant 0 <= d <= MAX_FDS
        invariant WaitersListed(View())
        invariant FdCloseOnExecFrom(View(), p, d) == FdCloseOnExecFrom(old(View()), p, 0)
      {
        if p in tasks && d < |tasks[p].fds| && tasks[p].fds[d].closeOnExec {
          var _ := FdCloseAt(p, d);
        }
        d := d + 1;
      }
    }

    /** The search of fd_install: the lowest free slot, or the table size. */
    method FreeSlot(p: Pid) returns (d: nat)
      requires p in tasks
      ensures d == FirstFree(tasks[p].fds, 0)
    {
      d := 0;
      while d < |tasks[p].fds| && tasks[p].fds[d].file.Some?
        invariant d <= |tasks[p].fds|
        invariant FirstFree(tasks[p].fds, d) == FirstFree(tasks[p].fds, 0)
      {
        d := d + 1;
      }
    }

    /** fd_install_at with retain */
    method FdInstallRetained(p: Pid, f: FileId, d: int)
      requires WaitersListed(View())
      modifies this
      ensures View() == FdInstallAt(old(View()), p, f, d, true) && WaitersListed(View())
    {
      var _ := FdCloseAt(p, d);
      if p in tasks && 0 <= d < |tasks[p].fds| {
        tasks := tasks[p := tasks[p].(fds := tasks[p].fds[d := FdEntry(Some(f), false)])];
      }
      if f in files {
        files := files[f := files[f].(references := files[f].references + 1)];
      }
    }

    /** api_dup2 */
    method Dup2(p: Pid, oldFd: int, newFd: int)
      requires WaitersListed(View()) && p in tasks
      modifies this
      ensures View() == DupFd2(old(View()), p, oldFd, newFd)
    {
      if oldFd < 0 || oldFd >= |tasks[p].fds| || tasks[p].fds[oldFd].file.None? || newFd < 0 || newFd >= MAX_FDS {
        SetResult(p, -1);
        return;
      }
      if oldFd != newFd {
        FdInstallRetained(p, tasks[p].fds[oldFd].file.value, newFd);
      }
      if p in tasks {
        SetResult(p, newFd);
      }
    }

    /** The return of a call to the program */
    method SetResult(p: Pid, r: int)
      requires p in tasks
      modifies this`tasks
      ensures tasks == Return(old(View()), p, r).tasks
    {
      tasks := tasks[p := tasks[p].(call := NoCall, ret := r)];
    }

    /** cb_task_yield_as, up to the switch */
    method YieldAs(p: Pid, state: TaskState, call: Call)
      requires p in tasks
      modifies this`tasks, this`current
      ensures View() == Block(old(View()), p, state, call)
    {
      tasks := tasks[p := tasks[p].(state := state, call := call)];
      current := None;
    }

    /** pipe_read, one pass of its loop */
    method PipeReadPass(p: Pid, f: FileId, q: PipeId, count: nat)
      requires WaitersListed(View()) && p in tasks && q in pipes
      modifies this
      ensures View() == PipeRead(old(View()), p, f, q, count)
    {
      if count == 0 {
        SetResult(p, 0);
        return;
      }
      var pipe := pipes[q];
      if |pipe.contents| == 0 {
        if pipe.writers == 0 {
          SetResult(p, 0);
        } else {
          YieldAs(p, BlockedPipe, PipeReadCall(f, q, count));
        }
        return;
      }
      var amount := if count < |pipe.contents| then count else |pipe.contents|;
      pipes := pipes[q := pipe.(contents := pipe.contents[amount..])];
      hist := hist.(received := hist.received[q := Log(hist.received, q) + pipe.contents[..amount]]);
      WakePipeWaiters();
      SetResult(p, amount);
    }

    /** pipe_write, from `total` bytes until it returns or yields */
    method PipeWriteLoop(p: Pid, f: FileId, q: PipeId, data: seq<Byte>, start: nat)
      requires WaitersListed(View()) && p in tasks && q in pipes
      modifies this
      ensures View() == PipeWrite(old(View()), p, f, q, data, start)
    {
      hide PipeWrite, Push;
      var total := start;
      while total < |data|
        invariant start <= total
        invariant WaitersListed(View()) && p in tasks && q in pipes
        invariant PipeWrite(View(), p, f, q, data, total) == PipeWrite(old(View()), p, f, q, data, start)
      {
        WriteTurn(View(), p, f, q, data, total);
        if pipes[q].readers == 0 {
          SetResult(p, if total == 0 then -1 else total);
          return;
        }
        var free := PIPE_SIZE - |pipes[q].contents|;
        if free <= 0 {
          YieldAs(p, BlockedPipe, PipeWriteCall(f, q, data, total));
          return;
        }
        var amount := |data| - total;
        if amount > free { amount := free; }
        ghost var before := View();
        pipes := pipes[q := pipes[q].(contents := pipes[q].contents + data[total..total + amount])];
        hist := hist.(sent := hist.sent[q := Log(hist.sent, q) + data[total..total + amount]]);
        WakePipeWaiters();
        PushIs(before, q, data[total..total + amount]);
        assert View() == Push(before, q, data[total..total + amount]);
        total := total + amount;
      }
      WriteTurn(View(), p, f, q, data, total);
      SetResult(p, total);
    }

    /** wake_waiting_parent */
    method WakeWaitingParent(child: Pid)
      requires child in tasks
      requires forall p :: p in tasks && tasks[p].state.BlockedWait? ==> p in order && tasks[p].call.WaitCall?
      modifies this`tasks
      ensures tasks == WakeParent(old(tasks), child)
    {
      var i := 0;
      while i < |order|
        invariant 0 <= i <= |order|
        invariant tasks == old(tasks)
        invariant tasks[child].ppid in tasks && Waits(tasks[tasks[child].ppid], child) ==>
                    tasks[child].ppid !in order[..i]
      {
        var p := order[i];
        if p == tasks[child].ppid && p in tasks && tasks[p].state.BlockedWait? &&
           (tasks[p].call.target == child || tasks[p].call.target == -1)
        {
          tasks := tasks[p := tasks[p].(state := Runnable)];
          return;
        }
        assert order[..i + 1] == order[..i] + [p];
        i := i + 1;
      }
      assert order[..i] == order;
    }

    /** find_waitable_child */
    method FindWaitable(parent: Pid, target: Pid) returns (z: Option<Pid>, hasChild: bool)
      ensures z == FindZombie(tasks, order, parent, target)
      ensures z.None? ==> hasChild == HasChild(tasks, order, parent, target)
    {
      hasChild := false;
      var i := 0;
      while i < |order|
        invariant 0 <= i <= |order|
        invariant FindZombie(tasks, order[i..], parent, target) == FindZombie(tasks, order, parent, target)
        invariant hasChild == HasChild(tasks, order[..i], parent, target)
      {
        var c := order[i];
        assert order[..i + 1] == order[..i] + [c];
        assert order[i..] == [c] + order[i + 1..];
        HasChildExtended(tasks, order, i, parent, target);
        if c in tasks && tasks[c].ppid == parent && (target == -1 || c == target) {
          hasChild := true;
          if tasks[c].state.Zombie? {
            z := Some(c);
            return;
          }
        }
        i := i + 1;
      }
      assert order[..i] == order;
      z := None;
    }

    /** pick_runnable */
    method PickRunnable() returns (r: Option<Pid>)
      requires cursor.Some? ==> cursor.value in order
      modifies this`cursor
      ensures r == Picked(old(View()))
      ensures cursor == if r.Some? then r else old(cursor)
    {
      if |order| == 0 { return None; }
      var start := 0;
      if cursor.Some? {
        while order[start] != cursor.value
          invariant 0 <= start < |order|
          invariant cursor.value !in order[..start]
          decreases |order| - start
        {
          assert order[..start + 1] == order[..start] + [order[start]];
          start := start + 1;
        }
        assert IndexOf(order, cursor.value) == start;
        start := if start + 1 < |order| then start + 1 else 0;
      }
      var i := start;
      ghost var left: nat := |order|;
      while true
        invariant 0 <= i < |order|
        invariant left == if start <= i then |order| - (i - start) else start - i
        invariant Scan(tasks, order, i, left) == Scan(tasks, order, start, |order|)
        decreases left
      {
        if order[i] in tasks && tasks[order[i]].state.Runnable? {
          cursor := Some(order[i]);
          return cursor;
        }
        i := if i + 1 < |order| then i + 1 else 0;
        left := left - 1;
        if i == start { break; }
      }
      r := None;
    }

    /** api_exit */
    method ExitCurrent(p: Pid, status: int)
      requires WaitersListed(View()) && p in tasks
      requires forall r :: r in tasks && tasks[r].state.BlockedWait? ==> r in order && tasks[r].call.WaitCall?
      modifies this
      ensures View() == ExitTask(old(View()), p, status)
    {
      hide FdCloseFrom;
      FdCloseAll(p);
      ExitKeepsWaiters(old(View()), p, 0);
      if p !in tasks { return; }
      tasks := tasks[p := tasks[p].(state := Zombie, call := NoCall, exitStatus := status % 256)];
      if p == bootPid {
        bootStatus := Some(status % 256);
      }
      WakeWaitingParent(p);
      current := None;
      hist := hist.(exits := hist.exits[p := status % 256]);
    }

    /** The link walk of api_waitpid */
    method Unlink(c: Pid)
      requires c in order
      modifies this`order
      ensures order == Without(old(order), c)
    {
      var i := 0;
      while order[i] != c
        invariant 0 <= i < |order|
        invariant c !in order[..i]
        decreases |order| - i
      {
        assert order[..i + 1] == order[..i] + [order[i]];
        i := i + 1;
      }
      WithoutAt(order, c, i);
      order := order[..i] + order[i + 1..];
    }

    /** api_waitpid, one pass of its loop */
    method WaitpidPass(p: Pid, target: Pid)
      requires WaitersListed(View()) && p in tasks
      modifies this
      ensures View() == WaitPass(old(View()), p, target)
    {
      hide FdCloseFrom, Without, WakePipeTasks;
      var z, hasChild := FindWaitable(p, target);
      if z.None? {
        if hasChild {
          YieldAs(p, BlockedWait, WaitCall(target));
        } else {
          SetResult(p, -1);
        }
        return;
      }
      var c := z.value;
      var status := tasks[c].exitStatus;
      WithoutKeeps(order, c);
      Unlink(c);
      if cursor == Some(c) {
        cursor := None;
      }
      hist := hist.(reaps := hist.reaps + [Reap(p, c, status)]);
      FdCloseAll(c);
      if p in tasks && p != c {
        tasks := tasks - {c};
        SetResult(p, c);
      }
    }

    /** The descriptor loop of task_create */
    method CopyDescriptors(parent: Pid, child: Pid)
      modifies this`tasks, this`files
      ensures View() == CopyFdsFrom(old(View()), parent, child, 0)
    {
      var d := 0;
      while d < MAX_FDS
        invariant 0 <= d <= MAX_FDS
        invariant CopyFdsFrom(View(), parent, child, d) == CopyFdsFrom(old(View()), parent, child, 0)
      {
        if parent in tasks && d < |tasks[parent].fds| && tasks[parent].fds[d].file.Some? {
          var e := tasks[parent].fds[d];
          if child in tasks && d < |tasks[child].fds| {
            tasks := tasks[child := tasks[child].(fds := tasks[child].fds[d := e])];
          }
          if e.file.value in files {
            files := files[e.file.value := files[e.file.value].(references := files[e.file.value].references + 1)];
          }
        }
        d := d + 1;
      }
    }

    /** task_apply_actions */
    method ApplySpawnActions(p: Pid, actions: seq<Action>) returns (ok: bool)
      requires WaitersListed(View())
      modifies this
      ensures (View(), ok) == ApplyActions(old(View()), p, actions)
    {
      var i := 0;
      while i < |actions|
        invariant 0 <= i <= |actions|
        invariant WaitersListed(View())
        invariant ApplyActions(View(), p, actions[i..]) == ApplyActions(old(View()), p, actions)
      {
        var a := actions[i];
        assert actions[i..][1..] == actions[i + 1..];
        match a {
          case Dup2Action(from, to) =>
            if from < 0 || from >= MAX_FDS || to < 0 || to >= MAX_FDS || p !in tasks || from >= |tasks[p].fds| ||
               tasks[p].fds[from].file.None?
            {
              return false;
            }
            if from != to {
              FdInstallRetained(p, tasks[p].fds[from].file.value, to);
            }
            if p in tasks && to < |tasks[p].fds| {
              tasks := tasks[p := tasks[p].(fds := tasks[p].fds[to := tasks[p].fds[to].(closeOnExec := false)])];
            }
          case CloseAction(fd) =>
            var _ := FdCloseAt(p, fd);
          case BadAction =>
            return false;
        }
        i := i + 1;
      }
      ok := true;
    }

    /** The descriptor scan of api_poll */
    method CountReady(p: Pid, polled: seq<PollFd>, console: bool) returns (n: nat)
      requires p in tasks
      ensures n == ReadyCount(View(), tasks[p].fds, polled, console)
    {
      n := 0;
      var i := 0;
      while i < |polled|
        invariant 0 <= i <= |polled|
        invariant n + ReadyCount(View(), tasks[p].fds, polled[i..], console)
               == ReadyCount(View(), tasks[p].fds, polled, console)
      {
        var pf := polled[i];
        assert polled[i..][1..] == polled[i + 1..];
        i := i + 1;
        if pf.fd >= 0 {
          if pf.fd >= |tasks[p].fds| || tasks[p].fds[pf.fd].file.None? {
            n := n + 1;
          } else if tasks[p].fds[pf.fd].file.value in files &&
                    FileReady(pipes, files[tasks[p].fds[pf.fd].file.value].kind, pf, console) {
            n := n + 1;
          }
        }
      }
    }
  }

  /** Closing descriptors leaves the list and the tasks blocked in waitpid as they were. */
  lemma {:induction false} ExitKeepsWaiters(s: State, p: Pid, d: nat)
    ensures var s' := FdCloseFrom(s, p, d);
      && s'.order == s.order && s'.tasks.Keys == s.tasks.Keys && s'.bootPid == s.bootPid
      && s'.bootStatus == s.bootStatus
      && (forall r :: r in s.tasks && s'.tasks[r].state.BlockedWait? ==>
            s.tasks[r].state.BlockedWait? && s'.tasks[r].call == s.tasks[r].call)
    decreases MAX_FDS - d
  {
    hide FdClose;
    if d < MAX_FDS {
      CloseKeepsWaiters(s, p, d);
      ExitKeepsWaiters(FdClose(s, p, d), p, d + 1);
    }
  }

  /** The loop of pipe_write, one turn unrolled */
  lemma WriteTurn(s: State, p: Pid, f: FileId, q: PipeId, data: seq<Byte>, total: nat)
    requires p in s.tasks && q in s.pipes
    ensures PipeWrite(s, p, f, q, data, total) ==
      if total >= |data| then Return(s, p, total)
      else if s.pipes[q].readers == 0 then Return(s, p, if total == 0 then -1 else total)
      else
        var c := s.pipes[q].contents;
        if |c| >= PIPE_SIZE then Block(s, p, BlockedPipe, PipeWriteCall(f, q, data, total))
        else
          var amount := Min(|data| - total, PIPE_SIZE - |c|);
          PipeWrite(Push(s, q, data[total..total + amount]), p, f, q, data, total + amount)
  {
  }

  lemma PushIs(s: State, q: PipeId, bytes: seq<Byte>)
    requires q in s.pipes
    ensures Push(s, q, bytes) ==
      s.(pipes := s.pipes[q := s.pipes[q].(contents := s.pipes[q].contents + bytes)],
         tasks := WakePipeTasks(s.tasks),
         hist := s.hist.(sent := s.hist.sent[q := Log(s.hist.sent, q) + bytes]))
  {
  }

  lemma ReleaseKeepsWaiters(s: State, f: FileId)
    ensures var s' := Release(s, f);
      && s'.order == s.order && s'.tasks.Keys == s.tasks.Keys && s'.bootPid == s.bootPid
      && s'.bootStatus == s.bootStatus
      && (forall r :: r in s.tasks && s'.tasks[r].state.BlockedWait? ==>
            s.tasks[r].state.BlockedWait? && s'.tasks[r].call == s.tasks[r].call)
  {
  }

  lemma CloseKeepsWaiters(s: State, p: Pid, d: nat)
    ensures var s' := FdClose(s, p, d);
      && s'.order == s.order && s'.tasks.Keys == s.tasks.Keys && s'.bootPid == s.bootPid
      && s'.bootStatus == s.bootStatus
      && (forall r :: r in s.tasks && s'.tasks[r].state.BlockedWait? ==>
            s.tasks[r].state.BlockedWait? && s'.tasks[r].call == s.tasks[r].call)
  {
    hide Release;
    if SlotFile(s, p, d).Some? {
      var s1 := SetSlot(s, p, d, EMPTY_SLOT);
      assert s1.tasks.Keys == s.tasks.Keys;
      ReleaseKeepsWaiters(s1, SlotFile(s, p, d).value);
    }
  }

  lemma HasChildExtended(tasks: map<Pid, Task>, order: seq<Pid>, i: nat, parent: Pid, target: Pid)
    requires i < |order|
    ensures HasChild(tasks, order[..i + 1], parent, target)
       <==> HasChild(tasks, order[..i], parent, target) || ChildOf(tasks, parent, target, order[i])
  {
    assert order[..i + 1] == order[..i] + [order[i]];
    assert order[i] in order[..i + 1];
  }

  lemma WithoutAt(order: seq<Pid>, c: Pid, i: nat)
    requires i < |order| && order[i] == c && c !in order[..i]
    ensures Without(order, c) == order[..i] + order[i + 1..]
  {
    if i > 0 {
      assert order[0] in order[..i];
      assert order[..i] == [order[0]] + order[1..][..i - 1];
      WithoutAt(order[1..], c, i - 1);
    }
  }

  lemma WithoutKeeps(order: seq<Pid>, c: Pid)
    ensures forall r :: r in order && r != c ==> r in Without(order, c)
  {
    if order != [] && order[0] != c {
      assert order == [order[0]] + order[1..];
      WithoutKeeps(order[1..], c);
    }
  }
}
