/**
 The canonical-mode terminal engine. A pure line editor says which records a
 sequence of input events yields; the engine, with its fixed byte ring, record
 ring, edit buffer and echo buffer, is proved to deliver exactly those.
 */
module Terminal {
  import opened Common
  import opened Rings

  const BYTES := 1024
  const RECORDS := 16

  // ----- The line editor --------------------------------------------------

  datatype Event = Input(byte: Byte) | SourceEof

  /** The line under construction, the records finished so far, the echo produced so far. */
  datatype Editor = Editor(line: seq<Byte>, records: seq<seq<Byte>>, echo: seq<Byte>)

  function Edit(e: Editor, event: Event): Editor {
    match event
    case SourceEof => if e.line == [] then e else e.(line := [], records := e.records + [e.line])
    case Input(b) =>
      var c: Byte := if b == 13 then 10 else b;
      if c == 8 then
        if e.line == [] then e else e.(line := e.line[..|e.line| - 1], echo := e.echo + [8, 32, 8])
      else if c == 4 then e.(line := [], records := e.records + [e.line])
      else if c == 10 then e.(line := [], records := e.records + [e.line + [c]], echo := e.echo + [c])
      else if |e.line| < BYTES - 1 then e.(line := e.line + [c], echo := e.echo + [c])
      else e
  }

  function EditAll(events: seq<Event>): Editor {
    if events == [] then Editor([], [], [])
    else Edit(EditAll(events[..|events| - 1]), events[|events| - 1])
  }

  lemma EditOne(events: seq<Event>, event: Event)
    ensures EditAll(events + [event]) == Edit(EditAll(events), event)
  {
    assert (events + [event])[..|events|] == events;
  }

  // ----- Records in rings ---------------------------------------------------

  function Flatten(queue: seq<seq<Byte>>): (f: seq<Byte>) {
    if queue == [] then [] else queue[0] + Flatten(queue[1..])
  }

  function Lengths(queue: seq<seq<Byte>>): (l: seq<nat>)
    ensures |l| == |queue|
    ensures forall i :: 0 <= i < |l| ==> l[i] == |queue[i]|
  {
    seq(|queue|, i requires 0 <= i < |queue| => |queue[i]|)
  }

  lemma {:induction false} FlattenAppend(queue: seq<seq<Byte>>, r: seq<Byte>)
    ensures Flatten(queue + [r]) == Flatten(queue) + r
  {
    if queue == [] {
      assert queue + [r] == [r];
      assert Flatten([r]) == r + Flatten([r][1..]);
    } else {
      assert (queue + [r])[1..] == queue[1..] + [r];
      FlattenAppend(queue[1..], r);
    }
  }

  /** The queue after n bytes of its first record have been read. */
  function Consume(queue: seq<seq<Byte>>, n: nat): seq<seq<Byte>>
    requires queue != [] && n <= |queue[0]|
  {
    if n == |queue[0]| then queue[1..] else [queue[0][n..]] + queue[1..]
  }

  lemma ConsumeFlat(queue: seq<seq<Byte>>, n: nat)
    requires queue != [] && n <= |queue[0]|
    ensures n <= |Flatten(queue)| && Flatten(queue)[..n] == queue[0][..n]
    ensures Flatten(Consume(queue, n)) == Flatten(queue)[n..]
  {
    var q := Consume(queue, n);
    assert Flatten(queue) == queue[0] + Flatten(queue[1..]);
    if n < |queue[0]| {
      assert q[1..] == queue[1..];
    }
  }

  lemma ConsumeLengths(queue: seq<seq<Byte>>, n: nat)
    requires queue != [] && n <= |queue[0]|
    ensures var l := Lengths(queue)[0 := |queue[0]| - n];
      Lengths(Consume(queue, n)) == if n == |queue[0]| then l[1..] else l
  {
  }

  // ----- Deliveries -----------------------------------------------------------

  /** What readers have been given: finished records, and the part read of the one at the head. */
  datatype Delivery = Delivery(finished: seq<seq<Byte>>, partial: seq<Byte>)

  function Deliver(d: Delivery, queue: seq<seq<Byte>>, n: nat): Delivery
    requires queue != [] && n <= |queue[0]|
  {
    if n == |queue[0]| then Delivery(d.finished + [d.partial + queue[0]], [])
    else d.(partial := d.partial + queue[0][..n])
  }

  /** Delivered records, then the queued ones, the first of them joined to its part already read. */
  function Stream(d: Delivery, queue: seq<seq<Byte>>): seq<seq<Byte>> {
    if queue == [] then d.finished else d.finished + [d.partial + queue[0]] + queue[1..]
  }

  /** Reading moves bytes from the queue to the delivery; the record stream is the same. */
  lemma DeliverConserves(d: Delivery, queue: seq<seq<Byte>>, n: nat)
    requires queue != [] && n <= |queue[0]|
    ensures Stream(Deliver(d, queue, n), Consume(queue, n)) == Stream(d, queue)
  {
    if n == |queue[0]| {
      assert Consume(queue, n) == queue[1..];
      if |queue| > 1 {
        assert [] + queue[1] == queue[1];
        assert [queue[1]] + queue[2..] == queue[1..];
      }
    } else {
      var q := Consume(queue, n);
      assert q[1..] == queue[1..];
      assert d.partial + queue[0][..n] + q[0] == d.partial + queue[0];
    }
  }

  lemma StreamAppend(d: Delivery, queue: seq<seq<Byte>>, r: seq<Byte>)
    requires queue == [] ==> d.partial == []
    ensures Stream(d, queue + [r]) == Stream(d, queue) + [r]
  {
    if queue == [] {
      assert queue + [r] == [r];
      assert [] + r == r;
    } else {
      assert (queue + [r])[1..] == queue[1..] + [r];
    }
  }

  // ----- The engine -----------------------------------------------------------------

  class Engine {
    const edit: array<Byte>
    const fifo: array<Byte>
    const records: array<nat>
    const echo: array<Byte>
    var editUsed: nat
    var fifoHead: nat
    var fifoUsed: nat
    var recordHead: nat
    var recordCount: nat
    var echoOffset: nat
    var echoUsed: nat
    var pending: bool
    var sourceEof: bool

    ghost var queue: seq<seq<Byte>>
    ghost var delivered: Delivery
    ghost var events: seq<Event>
    ghost var echoed: seq<Byte>
    ghost var Repr: set<object>

    ghost predicate Shape()
      reads this
    {
      && Repr == {this, edit, fifo, records, echo}
      && edit != fifo && edit != echo && fifo != echo
      && edit.Length == BYTES && fifo.Length == BYTES && records.Length == RECORDS && echo.Length == 3
      && editUsed <= BYTES && fifoHead < BYTES && fifoUsed <= BYTES && recordHead < RECORDS && recordCount <= RECORDS
      && echoOffset + echoUsed <= 3 && (echoUsed == 0 ==> echoOffset == 0)
    }

    /** The two rings hold the queue: its bytes and its record lengths. */
    ghost predicate Queued()
      requires Shape()
      reads this, fifo, records
    {
      && Ring(fifo[..], fifoHead, fifoUsed) == Flatten(queue)
      && Ring(records[..], recordHead, recordCount) == Lengths(queue)
    }

    ghost function Pending(): seq<seq<Byte>>
      requires Shape()
      reads this, edit
    {
      if pending then [edit[..editUsed]] else []
    }

    /** Delivered, then queued, then pending records are the editor's; the edit buffer is its line. */
    ghost predicate Refines()
      requires Shape()
      reads this, edit
    {
      var e := EditAll(events);
      && Stream(delivered, queue) + Pending() == e.records
      && (if pending then e.line == [] else edit[..editUsed] == e.line)
      && (queue == [] ==> delivered.partial == [])
    }

    /** cb_terminal_echo: the echo bytes still to be shown */
    ghost function EchoSuffix(): seq<Byte>
      requires Shape()
      reads this, echo
    {
      echo[echoOffset..echoOffset + echoUsed]
    }

    /** Bytes acknowledged, then bytes waiting, are the editor's echo. */
    ghost predicate Echoes()
      requires Shape()
      reads this, echo
    {
      echoed + EchoSuffix() == EditAll(events).echo
    }

    /** A line waits in the edit buffer only while there is no room for it. */
    ghost predicate NoRoom()
      reads this
    {
      recordCount == RECORDS || editUsed > BYTES - fifoUsed
    }

    /** Valid, except that a pending line might have room in the rings. */
    ghost predicate Settling()
      reads this, Repr
      ensures Settling() ==> this in Repr
    {
      && Shape() && this in Repr && edit in Repr && fifo in Repr && records in Repr && echo in Repr
      && Queued() && Refines() && Echoes()
      && (!pending ==> editUsed < BYTES)
      && (sourceEof <==> SourceEof in events)
      && (sourceEof && !pending ==> editUsed == 0)
    }

    ghost predicate Valid()
      reads this, Repr
      ensures Valid() ==> this in Repr
    {
      Settling() && (pending ==> NoRoom())
    }

    predicate CanAccept()
      reads this
    {
      !pending && !sourceEof && echoUsed == 0
    }

    predicate Ready()
      reads this
    {
      recordCount != 0 || sourceEof
    }

    constructor ()
      ensures Valid() && fresh(Repr) && events == [] && !pending && !sourceEof
    {
      edit := new Byte[BYTES];
      fifo := new Byte[BYTES];
      records := new nat[RECORDS];
      echo := new Byte[3];
      editUsed, fifoHead, fifoUsed, recordHead, recordCount, echoOffset, echoUsed := 0, 0, 0, 0, 0, 0, 0;
      pending, sourceEof := false, false;
      queue, delivered, events, echoed := [], Delivery([], []), [], [];
      new;
      hide Wrap;
      Repr := {this, edit, fifo, records, echo};
    }

    /** The byte loop of commit_pending */
    method AppendBytes()
      requires Shape() && editUsed <= BYTES - fifoUsed
      modifies fifo
      ensures Ring(fifo[..], fifoHead, fifoUsed + editUsed) ==
              old(Ring(fifo[..], fifoHead, fifoUsed)) + edit[..editUsed]
    {
      var tail := (fifoHead + fifoUsed) % BYTES;
      var i := 0;
      while i < editUsed
        invariant 0 <= i <= editUsed
        invariant Ring(fifo[..], fifoHead, fifoUsed + i) == old(Ring(fifo[..], fifoHead, fifoUsed)) + edit[..i]
      {
        var k := (tail + i) % BYTES;
        RingPush(fifo[..], fifoHead, fifoUsed + i, edit[i]);
        assert k == Wrap(fifoHead + fifoUsed + i, BYTES);
        ghost var before := fifo[..];
        fifo[k] := edit[i];
        assert fifo[..] == before[k := edit[i]];
        assert edit[..i + 1] == edit[..i] + [edit[i]];
        i := i + 1;
      }
    }

    /** The record slot behind the last one */
    method AppendLength()
      requires Shape() && recordCount < RECORDS
      modifies records
      ensures Ring(records[..], recordHead, recordCount + 1) ==
              old(Ring(records[..], recordHead, recordCount)) + [editUsed]
    {
      RingPush(records[..], recordHead, recordCount, editUsed);
      var k := (recordHead + recordCount) % RECORDS;
      ghost var before := records[..];
      records[k] := editUsed;
      assert records[..] == before[k := editUsed];
    }

    /** commit_pending */
    method CommitPending()
      requires Shape() && Queued() && (queue == [] ==> delivered.partial == [])
      modifies fifo, records, this`fifoUsed, this`recordCount, this`editUsed, this`pending, this`queue
      ensures Shape() && Queued() && (queue == [] ==> delivered.partial == [])
      ensures if old(pending && !NoRoom())
              then queue == old(queue) + [old(edit[..editUsed])] && !pending && editUsed == 0
              else queue == old(queue) && pending == old(pending) && editUsed == old(editUsed)
                   && fifoUsed == old(fifoUsed) && recordCount == old(recordCount)
      ensures Stream(delivered, queue) + Pending() == old(Stream(delivered, queue) + Pending())
      ensures Backlog() == old(Backlog())
    {
      hide Flatten, Lengths, Stream, Ring;
      if !pending || recordCount == RECORDS || editUsed > BYTES - fifoUsed { return; }
      ghost var record := edit[..editUsed];
      AppendBytes();
      AppendLength();
      FlattenAppend(queue, record);
      LengthsAppend(queue, record);
      StreamAppend(delivered, queue, record);
      recordCount := recordCount + 1;
      fifoUsed := fifoUsed + editUsed;
      editUsed := 0;
      pending := false;
      queue := queue + [record];
      assert Stream(delivered, queue) + [] == Stream(delivered, queue);
    }

    /** A pending line is committed if there is room; the engine is valid again either way. */
    method FinishLine()
      requires Settling()
      modifies fifo, records, this`fifoUsed, this`recordCount, this`editUsed, this`pending, this`queue
      ensures Valid() && Backlog() == old(Backlog())
    {
      hide Flatten, Lengths, Stream, Ring, EditAll;
      CommitPending();
    }

    /** The engine took one byte, and nothing was read, acknowledged or closed meanwhile. */
    twostate predicate Took(byte: Byte)
      reads this
    {
      && Repr == old(Repr) && events == old(events) + [Input(byte)]
      && delivered == old(delivered) && echoed == old(echoed) && sourceEof == old(sourceEof)
    }

    /** cb_terminal_feed */
    method Feed(byte: Byte) returns (accepted: bool)
      requires Valid()
      modifies Repr
      ensures Valid() && accepted == old(CanAccept())
      ensures if accepted then Took(byte) else unchanged(Repr)
    {
      hide Flatten, Lengths, Stream, Ring, EditAll, Refines, Queued, Echoes;
      if !CanAccept() { return false; }
      accepted := true;
      var c: Byte := if byte == 13 then 10 else byte;
      if c == 8 {
        FeedErase();
      } else if c == 4 {
        FeedEnd();
      } else {
        FeedText(byte, c);
      }
    }

    method FeedErase()
      requires Valid() && CanAccept()
      modifies Repr
      ensures Valid() && Took(8)
    {
      hide Flatten, Lengths, Stream, Ring, EditAll;
      EditOne(events, Input(8));
      events := events + [Input(8)];
      assert echoed + echo[0..0] == echoed;
      if editUsed != 0 {
        Erase();
      }
    }

    method FeedEnd()
      requires Valid() && CanAccept()
      modifies Repr
      ensures Valid() && Took(4)
    {
      hide Flatten, Lengths, Stream, Ring, EditAll;
      EditOne(events, Input(4));
      events := events + [Input(4)];
      assert Stream(delivered, queue) + [] == Stream(delivered, queue);
      pending := true;
      FinishLine();
    }

    method FeedText(byte: Byte, c: Byte)
      requires Valid() && CanAccept() && c == (if byte == 13 then 10 else byte) && c != 8 && c != 4
      modifies Repr
      ensures Valid() && Took(byte)
    {
      hide Flatten, Lengths, Stream, Ring, EditAll;
      EditOne(events, Input(byte));
      events := events + [Input(byte)];
      assert echoed + echo[0..0] == echoed;
      if c == 10 || editUsed < BYTES - 1 {
        AppendByte(c);
        if c == 10 {
          assert Stream(delivered, queue) + [] == Stream(delivered, queue);
          pending := true;
          FinishLine();
        }
      }
    }

    /** The erase branch: one byte shorter, and the three echo bytes that rub it out */
    method Erase()
      requires Shape() && editUsed > 0 && echoUsed == 0
      modifies echo, this`editUsed, this`echoUsed
      ensures Shape() && editUsed == old(editUsed) - 1
      ensures edit[..editUsed] == old(edit[..editUsed])[..editUsed]
      ensures echo[echoOffset..echoOffset + echoUsed] == [8, 32, 8]
    {
      editUsed := editUsed - 1;
      echo[0], echo[1], echo[2] := 8, 32, 8;
      echoUsed := 3;
    }

    method AppendByte(c: Byte)
      requires Shape() && editUsed < BYTES && echoUsed == 0
      modifies edit, echo, this`editUsed, this`echoUsed
      ensures Shape() && editUsed == old(editUsed) + 1
      ensures edit[..editUsed] == old(edit[..editUsed]) + [c]
      ensures echo[echoOffset..echoOffset + echoUsed] == [c]
    {
      edit[editUsed] := c;
      editUsed := editUsed + 1;
      echo[0] := c;
      echoUsed := 1;
    }

    /** cb_terminal_source_eof */
    method NoteSourceEof()
      requires Valid()
      modifies Repr
      ensures Valid() && Repr == old(Repr) && sourceEof
      ensures events == if old(sourceEof) then old(events) else old(events) + [SourceEof]
      ensures delivered == old(delivered) && echoed == old(echoed)
    {
      hide Flatten, Lengths, Stream, Ring, EditAll;
      if sourceEof { return; }
      EditOne(events, SourceEof);
      assert Stream(delivered, queue) + [] == Stream(delivered, queue);
      events := events + [SourceEof];
      sourceEof := true;
      if editUsed != 0 { pending := true; }
      FinishLine();
    }

    /** What is still to be read. */
    ghost function Backlog(): nat
      reads this
    {
      fifoUsed + recordCount + if pending then editUsed + 1 else 0
    }

    /** The copy loop of cb_terminal_read */
    method CopyOut(buffer: array<Byte>, n: nat)
      requires Shape() && buffer !in Repr && n <= fifoUsed && n <= buffer.Length
      modifies buffer
      ensures buffer[..n] == Ring(fifo[..], fifoHead, fifoUsed)[..n]
      ensures buffer[n..] == old(buffer[..])[n..]
    {
      var i := 0;
      while i < n
        invariant 0 <= i <= n
        invariant buffer[..i] == Ring(fifo[..], fifoHead, fifoUsed)[..i]
        invariant buffer[n..] == old(buffer[..])[n..]
      {
        buffer[i] := fifo[(fifoHead + i) % BYTES];
        assert (fifoHead + i) % BYTES == Wrap(fifoHead + i, BYTES);
        i := i + 1;
      }
    }

    /** The ring updates of cb_terminal_read: n bytes of the first record are gone. */
    method DropFront(n: nat)
      requires Shape() && Queued() && queue != [] && n <= |queue[0]|
      modifies records, this`fifoHead, this`fifoUsed, this`recordHead, this`recordCount, this`queue
      ensures Shape() && Queued() && queue == Consume(old(queue), n)
      ensures fifoUsed == old(fifoUsed) - n
      ensures recordCount == old(recordCount) - if n == |old(queue)[0]| then 1 else 0
    {
      hide Flatten, Lengths, Ring;
      ConsumeFlat(queue, n);
      ConsumeLengths(queue, n);
      FirstLength(queue);
      RingDrop(fifo[..], fifoHead, fifoUsed, n);
      fifoHead := (fifoHead + n) % BYTES;
      fifoUsed := fifoUsed - n;
      ShortenFirst(n);
      queue := Consume(queue, n);
    }

    /** The record at the head loses n bytes, and goes when none is left. */
    method ShortenFirst(n: nat)
      requires Shape() && recordCount > 0 && n <= records[recordHead]
      modifies records, this`recordHead, this`recordCount
      ensures Shape()
      ensures var before := old(Ring(records[..], recordHead, recordCount));
        before[0] == old(records[recordHead]) &&
        if n == before[0]
        then recordCount == old(recordCount) - 1 && Ring(records[..], recordHead, recordCount) == before[1..]
        else recordCount == old(recordCount) && Ring(records[..], recordHead, recordCount) == before[0 := before[0] - n]
    {
      ghost var before := records[..];
      RingSetFirst(before, recordHead, recordCount, records[recordHead] - n);
      records[recordHead] := records[recordHead] - n;
      assert records[..] == before[recordHead := before[recordHead] - n];
      if records[recordHead] == 0 {
        RingDrop(records[..], recordHead, recordCount, 1);
        recordHead := (recordHead + 1) % RECORDS;
        recordCount := recordCount - 1;
      }
    }

    /**
     cb_terminal_read: 1 is a completed read (count 0 is end of file or an
     empty record), 0 is not ready, -1 an invalid destination.
     */
    method Read(buffer: array?<Byte>, capacity: nat, countGiven: bool) returns (code: int, count: nat)
      requires Valid() && (buffer != null ==> buffer !in Repr && capacity <= buffer.Length)
      modifies Repr, buffer
      ensures Valid() && Repr == old(Repr)
      ensures events == old(events) && echoed == old(echoed) && sourceEof == old(sourceEof)
      ensures !countGiven || (capacity > 0 && buffer == null) ==> code == -1 && unchanged(Repr)
      ensures countGiven && capacity == 0 ==> code == 1 && count == 0 && unchanged(Repr)
      ensures countGiven && capacity > 0 && buffer != null && old(recordCount) == 0 ==>
                code == (if sourceEof then 1 else 0) && count == 0 && unchanged(Repr)
      ensures countGiven && capacity > 0 && buffer != null && old(recordCount) > 0 ==>
                && code == 1 && old(queue) != [] && count == Min(|old(queue)[0]|, capacity)
                && buffer[..count] == old(queue)[0][..count]
                && delivered == Deliver(old(delivered), old(queue), count)
                && Backlog() < old(Backlog())
    {
      hide Flatten, Stream, EditAll, Refines, Queued, Echoes;
      count := 0;
      if !countGiven { return -1, 0; }
      if capacity == 0 { return 1, 0; }
      if buffer == null { return -1, 0; }
      QueueSize(this);
      if recordCount == 0 {
        return if sourceEof then 1 else 0, 0;
      }
      count := records[recordHead];
      if count > capacity { count := capacity; }
      ReadRecord(buffer, count);
      code := 1;
    }

    /** The part of cb_terminal_read that transfers n bytes of the first record */
    method ReadRecord(buffer: array<Byte>, n: nat)
      requires Valid() && buffer !in Repr && n <= buffer.Length && queue != [] && n <= |queue[0]|
      requires n == 0 ==> queue[0] == []
      modifies Repr, buffer
      ensures Valid() && Repr == old(Repr)
      ensures events == old(events) && echoed == old(echoed) && sourceEof == old(sourceEof)
      ensures buffer[..n] == old(queue)[0][..n]
      ensures delivered == Deliver(old(delivered), old(queue), n)
      ensures Backlog() < old(Backlog())
    {
      hide Flatten, Lengths, Stream, EditAll, Ring;
      ConsumeFlat(queue, n);
      CopyOut(buffer, n);
      TakeFront(n);
      FinishLine();
    }

    /** The first record, or its first n bytes, count as delivered and leave the rings. */
    method TakeFront(n: nat)
      requires Valid() && queue != [] && n <= |queue[0]|
      modifies records, this`fifoHead, this`fifoUsed, this`recordHead, this`recordCount, this`queue, this`delivered
      ensures Settling() && delivered == Deliver(old(delivered), old(queue), n)
      ensures fifoUsed == old(fifoUsed) - n
      ensures recordCount == old(recordCount) - if n == |old(queue)[0]| then 1 else 0
    {
      hide Flatten, Lengths, Stream, EditAll, Ring;
      DeliverConserves(delivered, queue, n);
      delivered := Deliver(delivered, queue, n);
      DropFront(n);
    }

    /** cb_terminal_echo_ack */
    method EchoAck(count: nat) returns (code: int)
      requires Valid()
      modifies this`echoOffset, this`echoUsed, this`echoed
      ensures Valid()
      ensures if count <= |old(EchoSuffix())|
              then && code == 0 && echoed == old(echoed) + old(EchoSuffix())[..count]
                   && EchoSuffix() == old(EchoSuffix())[count..]
              else code == -1 && echoed == old(echoed) && EchoSuffix() == old(EchoSuffix())
    {
      hide Flatten, Lengths, Stream, EditAll, Ring;
      if count > echoUsed { return -1; }
      ghost var suffix := EchoSuffix();
      assert echoed + suffix == echoed + suffix[..count] + suffix[count..];
      echoed := echoed + suffix[..count];
      Acknowledge(count);
      code := 0;
    }

    method Acknowledge(count: nat)
      requires Shape() && count <= echoUsed
      modifies this`echoOffset, this`echoUsed
      ensures Shape() && EchoSuffix() == old(EchoSuffix())[count..]
    {
      echoOffset := echoOffset + count;
      echoUsed := echoUsed - count;
      if echoUsed == 0 { echoOffset := 0; }
    }
  }

  lemma LengthsAppend(queue: seq<seq<Byte>>, r: seq<Byte>)
    ensures Lengths(queue + [r]) == Lengths(queue) + [|r|]
  {
  }

  lemma FirstLength(queue: seq<seq<Byte>>)
    requires queue != []
    ensures Lengths(queue)[0] == |queue[0]| && |Lengths(queue)| == |queue|
  {
  }

  /** The record ring has an entry exactly when the queue has a record, and tells its length. */
  lemma QueueSize(t: Engine)
    requires t.Valid()
    ensures |t.queue| == t.recordCount
    ensures t.queue != [] ==> t.records[t.recordHead] == |t.queue[0]|
  {
    assert |Ring(t.records[..], t.recordHead, t.recordCount)| == |Lengths(t.queue)|;
    if t.queue != [] {
      FirstLength(t.queue);
      assert Ring(t.records[..], t.recordHead, t.recordCount)[0] == t.records[t.recordHead];
    }
  }

  /** A pending line is never stranded: while one waits, there is a record to read. */
  lemma PendingIsReadable(t: Engine)
    requires t.Valid() && t.pending
    ensures t.recordCount > 0 && t.Ready()
  {
    QueueSize(t);
    assert |Ring(t.fifo[..], t.fifoHead, t.fifoUsed)| == t.fifoUsed;
  }

  /** When nothing is left to read, the records delivered are exactly the editor's. */
  lemma DrainedIsComplete(t: Engine)
    requires t.Valid() && t.recordCount == 0
    ensures t.delivered == Delivery(EditAll(t.events).records, [])
    ensures t.edit[..t.editUsed] == EditAll(t.events).line
  {
    QueueSize(t);
    if t.pending {
      PendingIsReadable(t);
      assert false;
    }
    assert Stream(t.delivered, t.queue) + [] == Stream(t.delivered, t.queue);
  }

  /** The records of an input are never merged or reordered by what follows it. */
  lemma {:induction false} EditorOnlyAppends(before: seq<Event>, after: seq<Event>)
    ensures EditAll(before).records <= EditAll(before + after).records
    ensures EditAll(before).echo <= EditAll(before + after).echo
    decreases |after|
  {
    if after == [] {
      assert before + after == before;
    } else {
      var rest := after[..|after| - 1];
      assert before + after == (before + rest) + [after[|after| - 1]];
      EditOne(before + rest, after[|after| - 1]);
      EditorOnlyAppends(before, rest);
    }
  }

  /** Every record but a final one is either newline-terminated or was ended by VEOF; none exceeds the buffer. */
  lemma {:induction false} RecordsFit(events: seq<Event>)
    ensures |EditAll(events).line| < BYTES && 10 !in EditAll(events).line
    ensures forall i :: 0 <= i < |EditAll(events).records| ==>
              var r := EditAll(events).records[i]; |r| <= BYTES && (10 in r ==> r[|r| - 1] == 10 && 10 !in r[..|r| - 1])
  {
    if events != [] {
      RecordsFit(events[..|events| - 1]);
    }
  }
}
