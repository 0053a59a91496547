/**
 The scanners as written: cursors over the line, word buffers that grow, and a
 token table.
 */
module ShellScan {
  import opened Common
  import opened Shell

  /** append_expansion, the cursor standing behind the dollar */
  method Expand(line: string, start: nat, e: Env) returns (r: Option<Piece>)
    requires start <= |line|
    ensures r == Expansion(line[start..], e)
  {
    hide Brace, NameRun, Name;
    if start < |line| && line[start] == '?' { return Some(Piece(e.status, 1)); }
    var first, cursor, braced := start, start, false;
    if start < |line| && line[start] == '{' {
      braced := true;
      first := start + 1;
      cursor := ToBrace(line, first);
      assert line[start..][1..] == line[first..];
      if cursor == |line| { return None; }
    } else {
      cursor := ToNameEnd(line, first);
    }
    var length := cursor - first;
    if length == 0 && !braced { return Some(Piece("$", 0)); }
    var name := line[first..cursor];
    assert name == line[start..][first - start..cursor - start];
    var ok := ValidName(name);
    if !ok { return None; }
    r := Some(Piece(e.value(name), cursor - start + if braced then 1 else 0));
  }

  method ToBrace(line: string, start: nat) returns (cursor: nat)
    requires start <= |line|
    ensures cursor == start + Brace(line[start..]) <= |line|
  {
    cursor := start;
    while cursor < |line| && line[cursor] != '}'
      invariant start <= cursor <= |line|
      invariant cursor - start + Brace(line[cursor..]) == Brace(line[start..])
    {
      assert line[cursor..][1..] == line[cursor + 1..];
      cursor := cursor + 1;
    }
  }

  method ToNameEnd(line: string, start: nat) returns (cursor: nat)
    requires start <= |line|
    ensures cursor == start + NameRun(line[start..]) <= |line|
  {
    cursor := start;
    while cursor < |line| && NameChar(line[cursor])
      invariant start <= cursor <= |line|
      invariant cursor - start + NameRun(line[cursor..]) == NameRun(line[start..])
    {
      assert line[cursor..][1..] == line[cursor + 1..];
      cursor := cursor + 1;
    }
  }

  /** The checks on a variable's name */
  method ValidName(name: string) returns (ok: bool)
    ensures ok == Name(name)
  {
    if name == "" || |name| >= NAME_SIZE || !NameStart(name[0]) { return false; }
    var index := 1;
    while index < |name|
      invariant 1 <= index <= |name|
      invariant forall i :: 0 <= i < index ==> NameChar(name[i])
    {
      if !NameChar(name[index]) { return false; }
      index := index + 1;
    }
    ok := true;
  }

  /** One turn of the word loop */
  method WordTurn(line: string, cursor: nat, quote: Quote, e: Env) returns (t: Turn)
    requires cursor <= |line|
    ensures t == Next(line[cursor..], quote, e)
  {
    hide Expansion;
    if cursor == |line| { return if quote.Bare? then Stop else Fail; }
    var c := line[cursor];
    if quote.Bare? && Delimiter(c) { return Stop; }
    if c == '\'' && !quote.Double? { return Take("", 1, Toggle(quote, Single)); }
    if c == '"' && !quote.Single? { return Take("", 1, Toggle(quote, Double)); }
    if c == '\\' && !quote.Single? {
      return if cursor + 1 == |line| then Fail else Take([line[cursor + 1]], 2, quote);
    }
    if c == '$' && !quote.Single? {
      var x := Expand(line, cursor + 1, e);
      assert line[cursor..][1..] == line[cursor + 1..];
      return if x.None? then Fail else Take(x.value.text, 1 + x.value.length, quote);
    }
    t := Take([c], 1, quote);
  }

  /** The word loop */
  method LexWord(line: string, start: nat, e: Env) returns (r: Option<Piece>)
    requires start <= |line|
    ensures r == Rest(line[start..], Bare, e)
  {
    hide Next, Rest, Sep;
    var cursor, quote, word := start, Bare, "";
    BeforeNothing(Rest(line[start..], Bare, e));
    while true
      invariant start <= cursor <= |line|
      invariant Rest(line[start..], Bare, e) == Before(word, cursor - start, Rest(line[cursor..], quote, e))
      decreases |line| - cursor
    {
      var t := WordTurn(line, cursor, quote, e);
      RestTurn(line[cursor..], quote, e);
      match t {
        case Stop =>
          assert word + "" == word;
          return Some(Piece(word, cursor - start));
        case Fail => return None;
        case Take(text, length, next) =>
          assert line[cursor..][length..] == line[cursor + length..];
          BeforeTwice(word, cursor - start, text, length, Rest(line[cursor + length..], next, e));
          cursor, quote, word := cursor + length, next, word + text;
      }
    }
  }

  lemma RestTurn(s: string, q: Quote, e: Env)
    ensures match Next(s, q, e)
      case Stop => Rest(s, q, e) == Some(Piece("", 0))
      case Fail => Rest(s, q, e).None?
      case Take(text, length, next) =>
        0 < length <= |s| && Rest(s, q, e) == Before(text, length, Rest(s[length..], next, e))
  {
    hide Next, Sep;
    if Next(s, q, e).Take? { NextPasses(s, q, e); }
  }

  lemma BeforeNothing(r: Option<Piece>)
    ensures Before("", 0, r) == r
  {
    if r.Some? { assert "" + r.value.text == r.value.text; }
  }

  lemma BeforeTwice(a: string, m: nat, b: string, n: nat, r: Option<Piece>)
    ensures Before(a, m, Before(b, n, r)) == Before(a + b, m + n, r)
  {
    if r.Some? {
      assert a + (b + r.value.text) == (a + b) + r.value.text;
    }
  }

  /** lex_line */
  method LexTokens(line: string, e: Env) returns (r: Option<seq<Token>>)
    ensures r == LexLine(line, e)
  {
    hide Lex, Operator, Rest;
    var cursor, tokens := 0, [];
    assert line[0..] == line;
    assert Joined([], Lex(line, e)) == Lex(line, e) by { JoinedNothing(Lex(line, e)); }
    while cursor < |line|
      invariant 0 <= cursor <= |line| && |tokens| <= MAX_TOKENS
      invariant Lex(line, e) == Joined(tokens, Lex(line[cursor..], e))
      decreases |line| - cursor
    {
      cursor := SkipSpaces(line, cursor, e);
      if cursor == |line| { break; }
      if |tokens| == MAX_TOKENS {
        NonBlankLexes(line[cursor..], e);
        return None;
      }
      var t, length := OneToken(line, cursor, e);
      if t.None? { return None; }
      JoinedTwice(tokens, [t.value], Lex(line[cursor + length..], e));
      tokens := tokens + [t.value];
      cursor := cursor + length;
    }
    assert line[cursor..] == "";
    LexNothing(e);
    assert tokens + [] == tokens;
    r := Some(tokens);
  }

  method SkipSpaces(line: string, start: nat, e: Env) returns (cursor: nat)
    requires start <= |line|
    ensures start <= cursor <= |line| && (cursor < |line| ==> !Space(line[cursor]))
    ensures Lex(line[cursor..], e) == Lex(line[start..], e)
  {
    cursor := start;
    while cursor < |line| && Space(line[cursor])
      invariant start <= cursor <= |line| && Lex(line[cursor..], e) == Lex(line[start..], e)
    {
      assert line[cursor..][1..] == line[cursor + 1..];
      cursor := cursor + 1;
    }
  }

  /** The token at the cursor, which stands on no space, and its length */
  method OneToken(line: string, cursor: nat, e: Env) returns (t: Option<Token>, length: nat)
    requires cursor < |line| && !Space(line[cursor])
    ensures t.None? ==> Lex(line[cursor..], e).None?
    ensures t.Some? ==> 0 < length <= |line| - cursor
    ensures t.Some? ==> Lex(line[cursor..], e) == Joined([t.value], Lex(line[cursor + length..], e))
  {
    var s := line[cursor..];
    assert s[1..] == line[cursor + 1..];
    var c := line[cursor];
    length := 1;
    if c == '|' { return Some(Pipe), 1; }
    if c == ';' { return Some(Semicolon), 1; }
    if c == '<' { return Some(Input), 1; }
    if c == '>' {
      if cursor + 1 < |line| && line[cursor + 1] == '>' {
        assert s[2..] == line[cursor + 2..];
        return Some(Append), 2;
      }
      return Some(Output), 1;
    }
    var w := LexWord(line, cursor, e);
    if w.None? { return None, 0; }
    WordLength(s, e);
    assert s[w.value.length..] == line[cursor + w.value.length..];
    return Some(Word(w.value.text)), w.value.length;
  }

  /** A word that starts has at least one character of the line. */
  lemma WordLength(s: string, e: Env)
    requires Wordy(s) && Rest(s, Bare, e).Some?
    ensures 0 < Rest(s, Bare, e).value.length <= |s|
  {
    WordPasses(s, Bare, e);
  }

  lemma JoinedNothing(r: Option<seq<Token>>)
    ensures Joined([], r) == r
  {
    if r.Some? { assert [] + r.value == r.value; }
  }

  lemma JoinedTwice(a: seq<Token>, b: seq<Token>, r: Option<seq<Token>>)
    ensures Joined(a, Joined(b, r)) == Joined(a + b, r)
  {
    if r.Some? { assert a + (b + r.value) == (a + b) + r.value; }
  }

  lemma LexNothing(e: Env)
    ensures Lex("", e) == Some([])
  {
  }

  lemma NonBlankLexes(s: string, e: Env)
    requires s != "" && !Space(s[0])
    ensures Lex(s, e).Some? ==> Lex(s, e).value != []
  {
  }

  // ----- execute_line -------------------------------------------------------------------------

  datatype Outcome = Outcome(status: int, exiting: bool)

  predicate Blank(s: string) {
    forall i :: 0 <= i < |s| ==> s[i] == ' ' || s[i] == '\t' || s[i] == '\r' || s[i] == '\n'
  }

  /** Running the segments in order, blank ones skipped, until one exits the shell */
  function Executed(segments: seq<string>, status: int, run: (string, int) -> Outcome): int {
    if segments == [] then status
    else
      var o := if Blank(segments[0]) then Outcome(status, false) else run(segments[0], status);
      if o.exiting then o.status else Executed(segments[1..], o.status, run)
  }

  /** execute_line, with execute_segment as a parameter */
  method ExecuteLine(line: string, status0: int, run: (string, int) -> Outcome) returns (status: int)
    ensures status == Executed(Segments(line), status0, run)
  {
    hide Executed, Segments, Sep, Blank;
    status := status0;
    var start, cursor, st := 0, 0, Clean;
    assert line[0..] == line;
    while true
      invariant 0 <= start <= cursor <= |line|
      invariant Sep(line[start..], Clean) == cursor - start + Sep(line[cursor..], st)
      invariant Executed(Segments(line), status0, run) == Executed(Segments(line[start..]), status, run)
      decreases |line| - cursor
    {
      var atEnd := cursor == |line|;
      var separator := !atEnd && !st.escaped && st.quote.Bare? && line[cursor] == ';';
      SepHere(line, cursor, st);
      if atEnd || separator {
        var segment := line[start..cursor];
        assert line[start..][..cursor - start] == segment;
        SegmentDone(line, start, cursor, status, run);
        var exiting := false;
        var blank := AllBlank(segment);
        if !blank {
          var o := run(segment, status);
          status, exiting := o.status, o.exiting;
        }
        if exiting || atEnd { return; }
        start, st, cursor := cursor + 1, Clean, cursor + 1;
      } else {
        st, cursor := Step(st, line[cursor]), cursor + 1;
      }
    }
  }

  /** strspn(segment, blanks) == length */
  method AllBlank(s: string) returns (blank: bool)
    ensures blank == Blank(s)
  {
    var i := 0;
    while i < |s|
      invariant 0 <= i <= |s|
      invariant forall k :: 0 <= k < i ==> s[k] == ' ' || s[k] == '\t' || s[k] == '\r' || s[k] == '\n'
    {
      if !(s[i] == ' ' || s[i] == '\t' || s[i] == '\r' || s[i] == '\n') { return false; }
      i := i + 1;
    }
    blank := true;
  }

  lemma SepHere(line: string, cursor: nat, st: Scan)
    requires cursor <= |line|
    ensures if cursor == |line| || (!st.escaped && st.quote.Bare? && line[cursor] == ';')
            then Sep(line[cursor..], st) == 0
            else Sep(line[cursor..], st) == 1 + Sep(line[cursor + 1..], Step(st, line[cursor]))
    ensures line[cursor..][0..] == line[cursor..]
  {
    if cursor < |line| { assert line[cursor..][1..] == line[cursor + 1..]; }
  }

  /** What is left to execute once the segment up to a separator, or to the end, has been cut off */
  lemma SegmentDone(line: string, start: nat, cursor: nat, status: int, run: (string, int) -> Outcome)
    requires start <= cursor <= |line| && Sep(line[start..], Clean) == cursor - start
    ensures var segment := line[start..cursor];
      var o := if Blank(segment) then Outcome(status, false) else run(segment, status);
      Executed(Segments(line[start..]), status, run) ==
      if o.exiting || cursor == |line| then o.status else Executed(Segments(line[cursor + 1..]), o.status, run)
  {
    hide Blank, Sep;
    var rest := line[start..];
    assert rest[..cursor - start] == line[start..cursor];
    if cursor < |line| {
      assert rest[cursor - start + 1..] == line[cursor + 1..];
      assert Segments(rest)[1..] == Segments(line[cursor + 1..]);
    } else {
      assert Segments(rest) == [rest];
      assert rest == line[start..cursor];
      assert Segments(rest)[1..] == [];
    }
  }
}
