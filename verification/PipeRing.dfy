/**
 The 4096-byte ring inside a pipe: the two-part copies of pipe_read and
 pipe_write around the end of the array take bytes from the front of a queue
 and append bytes to its back.
 */
module PipeRing {
  import opened Common
  import opened KernelState

  /** The slot of the i-th queued byte. */
  function Slot(readPosition: nat, i: nat): (k: nat)
    ensures k < PIPE_SIZE
    ensures readPosition < PIPE_SIZE && i < PIPE_SIZE ==>
              k == if readPosition + i < PIPE_SIZE then readPosition + i else readPosition + i - PIPE_SIZE
  {
    (readPosition + i) % PIPE_SIZE
  }

  /** The n bytes queued in the ring d from readPosition on. */
  ghost function Queue(d: seq<Byte>, readPosition: nat, n: nat): (q: seq<Byte>)
    requires |d| == PIPE_SIZE
    ensures |q| == n
    ensures forall i :: 0 <= i < n ==> q[i] == d[Slot(readPosition, i)]
  {
    seq(n, i requires 0 <= i < n => d[Slot(readPosition, i)])
  }

  /** Moving the read position drops the front of the queue. */
  lemma QueueAdvances(d: seq<Byte>, readPosition: nat, n: nat, amount: nat)
    requires |d| == PIPE_SIZE && readPosition < PIPE_SIZE && amount <= n <= PIPE_SIZE
    ensures Queue(d, (readPosition + amount) % PIPE_SIZE, n - amount) == Queue(d, readPosition, n)[amount..]
  {
    var r' := (readPosition + amount) % PIPE_SIZE;
    forall i | 0 <= i < n - amount
      ensures Queue(d, r', n - amount)[i] == Queue(d, readPosition, n)[amount..][i]
    {
      assert Slot(r', i) == Slot(readPosition, amount + i);
    }
  }

  /** The front of the queue is what the two copies of pipe_read fetch. */
  lemma QueueFront(d: seq<Byte>, readPosition: nat, n: nat, amount: nat, first: nat)
    requires |d| == PIPE_SIZE && readPosition < PIPE_SIZE && amount <= n <= PIPE_SIZE
    requires first == Min(PIPE_SIZE - readPosition, amount)
    ensures Queue(d, readPosition, n)[..amount] == d[readPosition..readPosition + first] + d[..amount - first]
  {
  }

  /** Writing behind the queue, in two parts, appends to it. */
  lemma QueueGrows(d: seq<Byte>, d': seq<Byte>, readPosition: nat, n: nat, bytes: seq<Byte>, first: nat)
    requires |d| == |d'| == PIPE_SIZE && readPosition < PIPE_SIZE && n + |bytes| <= PIPE_SIZE
    requires var w := (readPosition + n) % PIPE_SIZE;
      && first == Min(PIPE_SIZE - w, |bytes|)
      && d' == bytes[first..] + d[|bytes| - first..w] + bytes[..first] + d[w + first..]
    ensures Queue(d', readPosition, n + |bytes|) == Queue(d, readPosition, n) + bytes
  {
    var w := (readPosition + n) % PIPE_SIZE;
    forall i | 0 <= i < n + |bytes|
      ensures Queue(d', readPosition, n + |bytes|)[i] == (Queue(d, readPosition, n) + bytes)[i]
    {
      var k := Slot(readPosition, i);
      if i < n {
        assert d'[k] == d[k];
      } else if i - n < first {
        assert k == w + (i - n);
      } else {
        assert k == i - n - first;
      }
    }
  }

  /** t with b written over it at position at */
  ghost function Splice(t: seq<Byte>, at: nat, b: seq<Byte>): (t': seq<Byte>)
    requires at + |b| <= |t|
    ensures |t'| == |t|
  {
    t[..at] + b + t[at + |b|..]
  }

  lemma SpliceAfterSplice(t: seq<Byte>, a: seq<Byte>, b: seq<Byte>)
    requires |a| + |b| <= |t|
    ensures Splice(Splice(t, 0, a), |a|, b) == a + b + t[|a| + |b|..]
  {
  }

  lemma SpliceBeforeSplice(t: seq<Byte>, w: nat, a: seq<Byte>, b: seq<Byte>)
    requires w + |a| <= |t| && |b| <= w
    ensures Splice(Splice(t, w, a), 0, b) == b + t[|b|..w] + a + t[w + |a|..]
  {
  }

  lemma PutAppends(d: seq<Byte>, readPosition: nat, n: nat, bytes: seq<Byte>, w: nat, first: nat)
    requires |d| == PIPE_SIZE && readPosition < PIPE_SIZE && n + |bytes| <= PIPE_SIZE
    requires w == (readPosition + n) % PIPE_SIZE && first == Min(PIPE_SIZE - w, |bytes|)
    ensures |bytes| - first <= w
    ensures Queue(Splice(Splice(d, w, bytes[..first]), 0, bytes[first..]), readPosition, n + |bytes|)
         == Queue(d, readPosition, n) + bytes
  {
    hide Queue, Slot, Splice;
    SpliceBeforeSplice(d, w, bytes[..first], bytes[first..]);
    QueueGrows(d, Splice(Splice(d, w, bytes[..first]), 0, bytes[first..]), readPosition, n, bytes, first);
  }

  /** memcpy between two distinct buffers */
  method CopyBytes(target: array<Byte>, at: nat, source: array<Byte>, from: nat, n: nat)
    requires target != source && at + n <= target.Length && from + n <= source.Length
    modifies target
    ensures target[..] == Splice(old(target[..]), at, source[from..from + n])
  {
    var i := 0;
    while i < n
      invariant 0 <= i <= n
      invariant target[..] == old(target[..])[..at] + source[from..from + i] + old(target[..])[at + i..]
    {
      target[at + i] := source[from + i];
      i := i + 1;
    }
  }

  class Ring {
    const data: array<Byte>
    var readPosition: nat
    var used: nat

    ghost predicate Valid()
      reads this
    {
      data.Length == PIPE_SIZE && readPosition < PIPE_SIZE && used <= PIPE_SIZE
    }

    ghost function Contents(): seq<Byte>
      requires Valid()
      reads this, data
    {
      Queue(data[..], readPosition, used)
    }

    constructor ()
      ensures Valid() && Contents() == [] && fresh(data)
    {
      data := new Byte[PIPE_SIZE];
      readPosition, used := 0, 0;
    }

    /** The transfer of pipe_read: min(count, used) bytes leave the front. */
    method Take(buffer: array<Byte>, count: nat) returns (amount: nat)
      requires Valid() && buffer != data && count <= buffer.Length
      modifies this, buffer
      ensures Valid() && amount == Min(count, old(used)) && used == old(used) - amount
      ensures buffer[..] == old(Contents())[..amount] + old(buffer[..])[amount..]
      ensures Contents() == old(Contents())[amount..]
    {
      hide Queue, Slot, Splice;
      amount := if count < used then count else used;
      var first := PIPE_SIZE - readPosition;
      if first > amount { first := amount; }
      QueueFront(data[..], readPosition, used, amount, first);
      QueueAdvances(data[..], readPosition, used, amount);
      CopyBytes(buffer, 0, data, readPosition, first);
      CopyBytes(buffer, first, data, 0, amount - first);
      SpliceAfterSplice(old(buffer[..]), data[readPosition..readPosition + first], data[..amount - first]);
      readPosition := (readPosition + amount) % PIPE_SIZE;
      used := used - amount;
    }

    /** The transfer of pipe_write: as many bytes as fit join the back. */
    method Put(source: array<Byte>, from: nat, wanted: nat) returns (amount: nat)
      requires Valid() && source != data && from + wanted <= source.Length
      modifies this, data
      ensures Valid() && amount == Min(wanted, PIPE_SIZE - old(used)) && used == old(used) + amount
      ensures Contents() == old(Contents()) + source[from..from + amount]
    {
      hide Queue, Slot, Splice;
      amount := wanted;
      if amount > PIPE_SIZE - used { amount := PIPE_SIZE - used; }
      var writePosition := (readPosition + used) % PIPE_SIZE;
      var first := PIPE_SIZE - writePosition;
      if first > amount { first := amount; }
      ghost var bytes := source[from..from + amount];
      PutAppends(data[..], readPosition, used, bytes, writePosition, first);
      assert bytes[..first] == source[from..from + first];
      assert bytes[first..] == source[from + first..from + first + (amount - first)];
      CopyBytes(data, writePosition, source, from, first);
      CopyBytes(data, 0, source, from + first, amount - first);
      used := used + amount;
    }
  }
}
