/**
 The pipe calls of the kernel carried out on the ring: while a ring holds the
 bytes the kernel state gives its pipe, reading and writing through it are the
 steps of KernelState, and it goes on holding them.
 */
module PipeTransfer {
  import opened Common
  import opened KernelState
  import opened PipeRing
  import Kernel

  /** The ring holds the contents of pipe q. */
  ghost predicate Backs(ring: Ring, s: State, q: PipeId)
    reads ring, ring.data
  {
    ring.Valid() && q in s.pipes && s.pipes[q].contents == ring.Contents()
  }

  /** pipe_read, one pass: what it copies to the buffer is what the reader receives. */
  method ReadThrough(ring: Ring, s: State, p: Pid, f: FileId, q: PipeId, buffer: array<Byte>, count: nat)
    returns (s': State, amount: nat)
    requires Backs(ring, s, q) && p in s.tasks && buffer != ring.data && count <= buffer.Length
    modifies ring, buffer
    ensures s' == PipeRead(s, p, f, q, count) && Backs(ring, s', q)
    ensures amount == Min(count, |s.pipes[q].contents|)
    ensures Log(s'.hist.received, q) == Log(s.hist.received, q) + buffer[..amount]
  {
    hide Queue;
    amount := 0;
    s' := PipeRead(s, p, f, q, count);
    if count > 0 && ring.used > 0 {
      amount := ring.Take(buffer, count);
    }
    assert Log(s.hist.received, q) + [] == Log(s.hist.received, q);
  }

  /** One turn of the loop of pipe_write: what fits joins the ring as it joins the pipe. */
  method PutThrough(ring: Ring, s: State, q: PipeId, source: array<Byte>, total: nat) returns (s': State, amount: nat)
    requires Backs(ring, s, q) && source != ring.data && total <= source.Length
    modifies ring, ring.data
    ensures source[..] == old(source[..])
    ensures amount == Min(source.Length - total, PIPE_SIZE - |s.pipes[q].contents|)
    ensures s' == Push(s, q, source[total..total + amount]) && Backs(ring, s', q)
  {
    hide Queue;
    amount := ring.Put(source, total, source.Length - total);
    s' := Push(s, q, source[total..total + amount]);
  }

  /** pipe_write up to its end, a broken pipe or a block */
  method WriteThrough(ring: Ring, s0: State, p: Pid, f: FileId, q: PipeId, source: array<Byte>, start: nat)
    returns (s: State)
    requires Backs(ring, s0, q) && p in s0.tasks && source != ring.data && start <= source.Length
    modifies ring, ring.data
    ensures s == PipeWrite(s0, p, f, q, source[..], start) && Backs(ring, s, q)
  {
    hide PipeWrite, Queue, Push;
    s := s0;
    var total := start;
    ghost var data := source[..];
    while total < source.Length
      invariant start <= total <= source.Length && source[..] == data && p in s.tasks && Backs(ring, s, q)
      invariant PipeWrite(s, p, f, q, data, total) == PipeWrite(s0, p, f, q, data, start)
      decreases source.Length - total
    {
      Kernel.WriteTurn(s, p, f, q, data, total);
      if s.pipes[q].readers == 0 {
        s := Return(s, p, if total == 0 then -1 else total);
        return;
      }
      if ring.used == PIPE_SIZE {
        s := Block(s, p, BlockedPipe, PipeWriteCall(f, q, source[..], total));
        return;
      }
      var amount;
      s, amount := PutThrough(ring, s, q, source, total);
      total := total + amount;
    }
    Kernel.WriteTurn(s, p, f, q, data, total);
    s := Return(s, p, total);
  }
}
