/**
 What the line editor makes of keystrokes, said of whole stretches of input:
 typed text, rubbed-out text, the two ways to finish a line, and the end of the
 source. Together they determine the records and the echo of every input.
 */
module TerminalLaws {
  import opened Common
  import opened Rings
  import opened Terminal

  const END_OF_FILE: Byte := 4
  const BACKSPACE: Byte := 8
  const NEWLINE: Byte := 10
  const RETURN: Byte := 13

  /** Bytes that only add to a line. */
  predicate Text(t: seq<Byte>) {
    END_OF_FILE !in t && BACKSPACE !in t && NEWLINE !in t && RETURN !in t
  }

  function Typing(t: seq<Byte>): (r: seq<Event>)
    ensures |r| == |t| && forall i :: 0 <= i < |t| ==> r[i] == Input(t[i])
  {
    seq(|t|, i requires 0 <= i < |t| => Input(t[i]))
  }

  function Cut(t: seq<Byte>, n: nat): seq<Byte> {
    if |t| <= n then t else t[..n]
  }

  lemma TypingMore(t: seq<Byte>, b: Byte)
    ensures Typing(t + [b]) == Typing(t) + [Input(b)]
  {
  }

  lemma {:induction false} LineFits(events: seq<Event>)
    ensures |EditAll(events).line| <= 1023
  {
    if events != [] {
      LineFits(events[..|events| - 1]);
    }
  }

  // ----- Text -------------------------------------------------------------------------

  /** Typed text goes behind the line and is echoed, up to 1023 bytes; more is neither kept nor echoed. */
  lemma {:induction false} TypedText(before: seq<Event>, t: seq<Byte>)
    requires Text(t)
    ensures var e, e' := EditAll(before), EditAll(before + Typing(t));
      && |e.line| <= 1023
      && e'.line == e.line + Cut(t, 1023 - |e.line|)
      && e'.echo == e.echo + Cut(t, 1023 - |e.line|)
      && e'.records == e.records
  {
    hide EditAll;
    var e := EditAll(before);
    LineFits(before);
    if t == [] {
      assert before + Typing(t) == before;
    } else {
      var front, b := t[..|t| - 1], t[|t| - 1];
      assert t == front + [b];
      TypedText(before, front);
      TypingMore(front, b);
      assert before + Typing(t) == (before + Typing(front)) + [Input(b)];
      EditOne(before + Typing(front), Input(b));
      CutMore(front, b, 1023 - |e.line|);
    }
  }

  lemma CutMore(front: seq<Byte>, b: Byte, n: nat)
    ensures if |front| < n then Cut(front + [b], n) == Cut(front, n) + [b] else Cut(front + [b], n) == Cut(front, n)
  {
  }

  // ----- Rubbing out --------------------------------------------------------------------

  function Backspaces(n: nat): (t: seq<Byte>)
    ensures |t| == n && forall i :: 0 <= i < n ==> t[i] == BACKSPACE
  {
    seq(n, _ => BACKSPACE)
  }

  /** The echo that rubs out n characters: back, blank, back. */
  function RubOut(n: nat): (t: seq<Byte>)
    ensures |t| == 3 * n
  {
    if n == 0 then [] else RubOut(n - 1) + [8, 32, 8]
  }

  lemma RubbedOnce(before: seq<Event>)
    ensures var e, e' := EditAll(before), EditAll(before + [Input(BACKSPACE)]);
      && e'.records == e.records
      && if e.line == [] then e'.line == [] && e'.echo == e.echo
         else e'.line == e.line[..|e.line| - 1] && e'.echo == e.echo + [8, 32, 8]
  {
    hide EditAll;
    EditOne(before, Input(BACKSPACE));
  }

  /** n backspaces take the last n bytes off the line, or all of it, and leave the records alone. */
  lemma {:induction false} Rubbed(before: seq<Event>, n: nat)
    ensures var e, e' := EditAll(before), EditAll(before + Typing(Backspaces(n)));
      var k := Min(n, |e.line|);
      e'.line == e.line[..|e.line| - k] && e'.echo == e.echo + RubOut(k) && e'.records == e.records
  {
    hide EditAll, Edit, RubOut;
    var e := EditAll(before);
    if n == 0 {
      assert before + Typing(Backspaces(n)) == before;
      RubOutMore(0);
    } else {
      Rubbed(before, n - 1);
      assert Backspaces(n) == Backspaces(n - 1) + [BACKSPACE];
      TypingMore(Backspaces(n - 1), BACKSPACE);
      assert before + Typing(Backspaces(n)) == (before + Typing(Backspaces(n - 1))) + [Input(BACKSPACE)];
      RubbedOnce(before + Typing(Backspaces(n - 1)));
      if n <= |e.line| {
        RubOutMore(n - 1);
        EchoMore(e.echo, n - 1);
        assert e.line[..|e.line| - (n - 1)][..|e.line| - n] == e.line[..|e.line| - n];
      }
    }
  }

  lemma RubOutMore(n: nat)
    ensures RubOut(0) == [] && RubOut(n + 1) == RubOut(n) + [8, 32, 8]
  {
  }

  lemma EchoMore(echo: seq<Byte>, n: nat)
    ensures echo + RubOut(n) + [8, 32, 8] == echo + RubOut(n + 1)
  {
    RubOutMore(n);
  }

  /** Text that fits, rubbed out again, leaves the line and the records as they were. */
  lemma RubbedOutIsUntyped(before: seq<Event>, t: seq<Byte>)
    requires Text(t) && |EditAll(before).line| + |t| <= 1023
    ensures var e, e' := EditAll(before), EditAll(before + Typing(t) + Typing(Backspaces(|t|)));
      e'.line == e.line && e'.records == e.records && e'.echo == e.echo + t + RubOut(|t|)
  {
    hide EditAll, Edit, RubOut;
    TypedText(before, t);
    Rubbed(before + Typing(t), |t|);
  }

  // ----- Finishing a line -----------------------------------------------------------------

  /** Text and the end-of-file key: one more record, the line with the text, and no echo for the key. */
  lemma EndedByKey(before: seq<Event>, t: seq<Byte>)
    requires Text(t)
    ensures var e, e' := EditAll(before), EditAll(before + Typing(t) + [Input(END_OF_FILE)]);
      && |e.line| <= 1023
      && e'.records == e.records + [e.line + Cut(t, 1023 - |e.line|)]
      && e'.line == [] && e'.echo == e.echo + Cut(t, 1023 - |e.line|)
  {
    TypedText(before, t);
    EditOne(before + Typing(t), Input(END_OF_FILE));
  }

  /** Text and a newline, or a return in its place: one more record, with the newline, which is echoed. */
  lemma EndedByNewline(before: seq<Event>, t: seq<Byte>, key: Byte)
    requires Text(t) && key in {NEWLINE, RETURN}
    ensures var e, e' := EditAll(before), EditAll(before + Typing(t) + [Input(key)]);
      && |e.line| <= 1023
      && e'.records == e.records + [e.line + Cut(t, 1023 - |e.line|) + [NEWLINE]]
      && e'.line == [] && e'.echo == e.echo + Cut(t, 1023 - |e.line|) + [NEWLINE]
  {
    TypedText(before, t);
    EditOne(before + Typing(t), Input(key));
  }

  /** The end of the source makes a record of an unfinished line, and of nothing else. */
  lemma EndedBySource(before: seq<Event>)
    ensures var e, e' := EditAll(before), EditAll(before + [SourceEof]);
      && e'.line == [] && e'.echo == e.echo
      && e'.records == if e.line == [] then e.records else e.records + [e.line]
  {
    EditOne(before, SourceEof);
  }

  // ----- Whole inputs ----------------------------------------------------------------------

  /** The event finishes a record. */
  ghost predicate Finishes(events: seq<Event>, i: int)
    requires 0 <= i < |events|
  {
    match events[i]
    case Input(b) => b in {END_OF_FILE, NEWLINE, RETURN}
    case SourceEof => EditAll(events[..i]).line != []
  }

  ghost function Finishing(events: seq<Event>): set<int> {
    set i | 0 <= i < |events| && Finishes(events, i)
  }

  /** There are as many records as keys that finish one, and one more for a line the source left unfinished. */
  lemma {:induction false} RecordsCounted(events: seq<Event>)
    ensures |EditAll(events).records| == |Finishing(events)|
  {
    hide Edit, Finishes, EditAll;
    if events == [] {
      assert Finishing(events) == {};
      NoLines();
    } else {
      var n := |events| - 1;
      RecordsCounted(events[..n]);
      FinishingGrows(events, n);
      RecordsGrow(events, n);
    }
  }

  lemma FinishingGrows(events: seq<Event>, n: nat)
    requires n == |events| - 1
    ensures |Finishing(events)| == |Finishing(events[..n])| + if Finishes(events, n) then 1 else 0
  {
    hide EditAll;
    var front := events[..n];
    forall i | 0 <= i < n ensures Finishes(front, i) == Finishes(events, i) {
      assert front[..i] == events[..i];
    }
    assert Finishing(events) == Finishing(front) + if Finishes(events, n) then {n} else {};
  }

  lemma RecordsGrow(events: seq<Event>, n: nat)
    requires n == |events| - 1
    ensures |EditAll(events).records| == |EditAll(events[..n]).records| + if Finishes(events, n) then 1 else 0
  {
    hide EditAll;
    assert events == events[..n] + [events[n]];
    EditOne(events[..n], events[n]);
  }

  function Keyed(lines: seq<seq<Byte>>, key: Byte): (r: seq<Event>) {
    if lines == [] then []
    else Keyed(lines[..|lines| - 1], key) + Typing(lines[|lines| - 1]) + [Input(key)]
  }

  function WithNewlines(lines: seq<seq<Byte>>): (r: seq<seq<Byte>>)
    ensures |r| == |lines| && forall i :: 0 <= i < |lines| ==> r[i] == lines[i] + [NEWLINE]
  {
    seq(|lines|, i requires 0 <= i < |lines| => lines[i] + [NEWLINE])
  }

  /** Lines typed one after the other are the records, each with its newline, and the echo is all of them. */
  lemma {:induction false} LinesReadBack(lines: seq<seq<Byte>>, key: Byte)
    requires key in {NEWLINE, RETURN}
    requires forall i :: 0 <= i < |lines| ==> Text(lines[i]) && |lines[i]| <= 1023
    ensures var e := EditAll(Keyed(lines, key));
      e.line == [] && e.records == WithNewlines(lines) && e.echo == Flatten(WithNewlines(lines))
  {
    hide EditAll, Flatten, Text, WithNewlines, Typing, Cut;
    if lines == [] {
      NoLines();
    } else {
      var front, last := lines[..|lines| - 1], lines[|lines| - 1];
      LinesReadBack(front, key);
      EndedByNewline(Keyed(front, key), last, key);
      OneMoreLine(front, last);
      WholeLine(last);
      assert lines == front + [last];
    }
  }

  lemma NoLines()
    ensures EditAll([]) == Editor([], [], []) && WithNewlines([]) == [] && Flatten([]) == []
  {
  }

  lemma WholeLine(last: seq<Byte>)
    ensures |last| <= 1023 ==> [] + Cut(last, 1023) + [NEWLINE] == last + [NEWLINE]
    ensures |last| <= 1023 ==> Cut(last, 1023) == last
  {
  }

  lemma OneMoreLine(front: seq<seq<Byte>>, last: seq<Byte>)
    ensures WithNewlines(front + [last]) == WithNewlines(front) + [last + [NEWLINE]]
    ensures Flatten(WithNewlines(front + [last])) == Flatten(WithNewlines(front)) + last + [NEWLINE]
  {
    hide Flatten;
    assert WithNewlines(front + [last]) == WithNewlines(front) + [last + [NEWLINE]];
    FlattenAppend(WithNewlines(front), last + [NEWLINE]);
  }

  // ----- The engine ---------------------------------------------------------------------------

  /**
   The engine takes a byte exactly when all echo has been acknowledged, the source
   has not ended and every record made so far has reached the queue; a read has
   something to answer exactly when a record is queued or the source has ended.
   */
  lemma AcceptsIff(t: Engine)
    requires t.Valid()
    ensures t.CanAccept() <==>
            && t.EchoSuffix() == [] && SourceEof !in t.events
            && Stream(t.delivered, t.queue) == EditAll(t.events).records
    ensures t.Ready() <==> t.queue != [] || SourceEof in t.events
  {
    hide Stream, EditAll;
    QueueSize(t);
    assert |t.EchoSuffix()| == t.echoUsed;
    assert Stream(t.delivered, t.queue) + [] == Stream(t.delivered, t.queue);
    if t.pending {
      assert |Stream(t.delivered, t.queue) + t.Pending()| == |Stream(t.delivered, t.queue)| + 1;
    }
  }

  /** A finished line waits outside the queue only while 16 records are queued or their 1024 bytes have no room. */
  lemma WaitsOnlyWhenFull(t: Engine)
    requires t.Valid() && t.pending
    ensures |t.queue| == 16 || |Flatten(t.queue)| + |EditAll(t.events).records[|EditAll(t.events).records| - 1]| > 1024
    ensures Stream(t.delivered, t.queue) < EditAll(t.events).records
  {
    hide Stream, EditAll, Flatten;
    QueueSize(t);
    assert |Ring(t.fifo[..], t.fifoHead, t.fifoUsed)| == t.fifoUsed;
  }

  /** Once the typed lines have been read, readers have been given exactly those lines. */
  lemma ReadersGetTheLines(t: Engine, lines: seq<seq<Byte>>, key: Byte)
    requires t.Valid() && t.recordCount == 0 && t.events == Keyed(lines, key) && key in {NEWLINE, RETURN}
    requires forall i :: 0 <= i < |lines| ==> Text(lines[i]) && |lines[i]| <= 1023
    ensures t.delivered == Delivery(WithNewlines(lines), []) && t.editUsed == 0
  {
    DrainedIsComplete(t);
    LinesReadBack(lines, key);
  }
}
