/**
 The two scanners of the shell: the splitter of execute_line, which only
 knows quotes, backslashes and semicolons, and the lexer, which also knows
 expansions and operators. Where a line lexes, they agree on every semicolon.
 */
module Shell {
  import opened Common

  const MAX_TOKENS := 128
  const NAME_SIZE := 128

  datatype Quote = Bare | Single | Double

  datatype Token = Word(text: string) | Pipe | Semicolon | Input | Output | Append

  /** What expansions see: the environment and the last status, as text */
  datatype Env = Env(value: string -> string, status: string)

  predicate Space(c: char) {
    c == ' ' || '\t' <= c <= '\r'
  }

  predicate Delimiter(c: char) {
    Space(c) || c == '|' || c == ';' || c == '<' || c == '>'
  }

  predicate NameStart(c: char) {
    'a' <= c <= 'z' || 'A' <= c <= 'Z' || c == '_'
  }

  predicate NameChar(c: char) {
    NameStart(c) || '0' <= c <= '9'
  }

  predicate Name(n: string) {
    n != "" && |n| < NAME_SIZE && NameStart(n[0]) && forall i :: 0 <= i < |n| ==> NameChar(n[i])
  }

  // ----- The lexer --------------------------------------------------------------------------

  /** The length of the run of name characters s begins with */
  function NameRun(s: string): (n: nat)
    ensures n <= |s| && forall i :: 0 <= i < n ==> NameChar(s[i])
    ensures n < |s| ==> !NameChar(s[n])
  {
    if s == "" || !NameChar(s[0]) then 0 else 1 + NameRun(s[1..])
  }

  /** The position of the first closing brace, or the length */
  function Brace(s: string): (n: nat)
    ensures n <= |s| && forall i :: 0 <= i < n ==> s[i] != '}'
    ensures n < |s| ==> s[n] == '}'
  {
    if s == "" || s[0] == '}' then 0 else 1 + Brace(s[1..])
  }

  datatype Piece = Piece(text: string, length: nat)

  /** append_expansion on what follows the dollar: the text it yields and the length it consumes */
  function Expansion(s: string, e: Env): Option<Piece> {
    if s != "" && s[0] == '?' then Some(Piece(e.status, 1))
    else if s != "" && s[0] == '{' then
      var n := Brace(s[1..]);
      if 1 + n == |s| || !Name(s[1..1 + n]) then None else Some(Piece(e.value(s[1..1 + n]), n + 2))
    else
      var n := NameRun(s);
      if n == 0 then Some(Piece("$", 0))
      else if !Name(s[..n]) then None
      else Some(Piece(e.value(s[..n]), n))
  }

  function Toggle(q: Quote, other: Quote): Quote {
    if q == other then Bare else other
  }

  /** More text before a piece that begins `skipped` further on */
  function Before(text: string, skipped: nat, r: Option<Piece>): Option<Piece> {
    if r.None? then None else Some(Piece(text + r.value.text, skipped + r.value.length))
  }

  /** What one turn of the word loop does: the word is over, is wrong, or goes on behind the characters taken. */
  datatype Turn = Stop | Fail | Take(text: string, length: nat, quote: Quote)

  function Next(s: string, q: Quote, e: Env): Turn {
    if s == "" then if q.Bare? then Stop else Fail
    else if q.Bare? && Delimiter(s[0]) then Stop
    else if s[0] == '\'' && !q.Double? then Take("", 1, Toggle(q, Single))
    else if s[0] == '"' && !q.Single? then Take("", 1, Toggle(q, Double))
    else if s[0] == '\\' && !q.Single? then if |s| == 1 then Fail else Take([s[1]], 2, q)
    else if s[0] == '$' && !q.Single? then
      var x := Expansion(s[1..], e);
      if x.None? then Fail else Take(x.value.text, 1 + x.value.length, q)
    else Take([s[0]], 1, q)
  }

  /** The word loop of lex_line, from inside the quotes q: the rest of the word and its length in the line */
  function Rest(s: string, q: Quote, e: Env): (r: Option<Piece>)
    decreases |s|
  {
    match Next(s, q, e)
    case Stop => Some(Piece("", 0))
    case Fail => None
    case Take(text, length, quote) =>
      if length == 0 || length > |s| then None else Before(text, length, Rest(s[length..], quote, e))
  }

  function Then(t: Token, r: Option<seq<Token>>): Option<seq<Token>> {
    if r.None? then None else Some([t] + r.value)
  }

  /** The tokens of a line, without the limit on their number */
  function Lex(s: string, e: Env): Option<seq<Token>>
    decreases |s|
  {
    if s == "" then Some([])
    else if Space(s[0]) then Lex(s[1..], e)
    else if s[0] == '|' then Then(Pipe, Lex(s[1..], e))
    else if s[0] == ';' then Then(Semicolon, Lex(s[1..], e))
    else if s[0] == '<' then Then(Input, Lex(s[1..], e))
    else if s[0] == '>' && |s| > 1 && s[1] == '>' then Then(Append, Lex(s[2..], e))
    else if s[0] == '>' then Then(Output, Lex(s[1..], e))
    else
      var w := Rest(s, Bare, e);
      if w.None? || w.value.length == 0 || w.value.length > |s| then None
      else Then(Word(w.value.text), Lex(s[w.value.length..], e))
  }

  /** lex_line: at most 128 tokens */
  function LexLine(s: string, e: Env): Option<seq<Token>> {
    var r := Lex(s, e);
    if r.Some? && |r.value| > MAX_TOKENS then None else r
  }

  // ----- The splitter -----------------------------------------------------------------------

  datatype Scan = Scan(quote: Quote, escaped: bool)

  function Step(st: Scan, c: char): Scan {
    if st.escaped then st.(escaped := false)
    else if c == '\\' && !st.quote.Single? then st.(escaped := true)
    else if c == '\'' && !st.quote.Double? then st.(quote := Toggle(st.quote, Single))
    else if c == '"' && !st.quote.Single? then st.(quote := Toggle(st.quote, Double))
    else st
  }

  /** How far the splitter gets before a semicolon that separates */
  function Sep(s: string, st: Scan): (k: nat)
    ensures k <= |s| && (k < |s| ==> s[k] == ';')
  {
    if s == "" then 0
    else if !st.escaped && st.quote.Bare? && s[0] == ';' then 0
    else 1 + Sep(s[1..], Step(st, s[0]))
  }

  const Clean := Scan(Bare, false)

  /** The segments execute_line makes of a line */
  function Segments(s: string): seq<string>
    decreases |s|
  {
    var k := Sep(s, Clean);
    if k == |s| then [s] else [s[..k]] + Segments(s[k + 1..])
  }

  // ----- Where the lexer succeeds the splitter follows it ---------------------------------------

  predicate Neutral(c: char) {
    c != ';' && c != '\\' && c != '\'' && c != '"'
  }

  lemma {:induction false} NeutralPasses(s: string, q: Quote, n: nat)
    requires n <= |s| && forall i :: 0 <= i < n ==> Neutral(s[i])
    ensures Sep(s, Scan(q, false)) == n + Sep(s[n..], Scan(q, false))
    decreases n
  {
    if n > 0 {
      NeutralPasses(s[1..], q, n - 1);
      assert s[1..][n - 1..] == s[n..];
    } else {
      assert s[0..] == s;
    }
  }

  lemma ExpansionNeutral(s: string, e: Env)
    requires Expansion(s, e).Some?
    ensures var n := Expansion(s, e).value.length; n <= |s| && forall i :: 0 <= i < n ==> Neutral(s[i])
  {
    if s != "" && s[0] == '{' {
      var n := Brace(s[1..]);
      var name := s[1..1 + n];
      forall i | 0 <= i < n + 2 ensures Neutral(s[i]) {
        if 1 <= i <= n { assert s[i] == name[i - 1]; }
      }
    }
  }

  /** The splitter passes over what a turn takes, into the same quotes. */
  lemma NextPasses(s: string, q: Quote, e: Env)
    requires Next(s, q, e).Take?
    ensures var t := Next(s, q, e);
      0 < t.length <= |s| && Sep(s, Scan(q, false)) == t.length + Sep(s[t.length..], Scan(t.quote, false))
  {
    hide Expansion;
    if s[0] == '\\' && !q.Single? {
      EscapePasses(s, q);
    } else if s[0] == '$' && !q.Single? {
      var m := Expansion(s[1..], e).value.length;
      ExpansionNeutral(s[1..], e);
      Tail(s, 1, m);
      NeutralPasses(s[1..], q, m);
    }
  }

  /** The splitter passes over a word, or the rest of one, and is outside quotes after it. */
  lemma {:induction false} WordPasses(s: string, q: Quote, e: Env)
    requires Rest(s, q, e).Some?
    ensures var n := Rest(s, q, e).value.length;
      n <= |s| && Sep(s, Scan(q, false)) == n + Sep(s[n..], Clean)
    decreases |s|
  {
    hide Sep, Next;
    var t := Next(s, q, e);
    if t.Take? {
      NextPasses(s, q, e);
      WordPasses(s[t.length..], t.quote, e);
      Tail(s, t.length, Rest(s[t.length..], t.quote, e).value.length);
    } else {
      assert q.Bare? by { StopsBare(s, q, e); }
      assert s[0..] == s;
    }
  }

  lemma StopsBare(s: string, q: Quote, e: Env)
    requires Next(s, q, e).Stop?
    ensures q.Bare?
  {
  }

  lemma Tail(s: string, m: nat, n: nat)
    requires m <= |s| && n <= |s| - m
    ensures s[m..][n..] == s[m + n..]
  {
  }

  lemma EscapePasses(s: string, q: Quote)
    requires |s| > 1 && s[0] == '\\' && !q.Single?
    ensures Sep(s, Scan(q, false)) == 2 + Sep(s[2..], Scan(q, false))
  {
    assert Step(Scan(q, false), s[0]) == Scan(q, true);
    assert s[1..][0] == s[1] && s[1..][1..] == s[2..];
  }

  // ----- A word ends the same way in a segment ---------------------------------------------------

  lemma {:induction false} RunPrefix(s: string, k: nat)
    requires NameRun(s) <= k <= |s|
    ensures NameRun(s[..k]) == NameRun(s)
  {
    if s != "" && NameChar(s[0]) {
      assert s[..k][1..] == s[1..][..k - 1];
      RunPrefix(s[1..], k - 1);
    }
  }

  lemma {:induction false} BracePrefix(s: string, k: nat)
    requires Brace(s) < k <= |s|
    ensures Brace(s[..k]) == Brace(s)
  {
    if s != "" && s[0] != '}' {
      assert s[..k][1..] == s[1..][..k - 1];
      BracePrefix(s[1..], k - 1);
    }
  }

  lemma ExpansionPrefix(s: string, e: Env, k: nat)
    requires Expansion(s, e).Some? && Expansion(s, e).value.length <= k <= |s|
    ensures Expansion(s[..k], e) == Expansion(s, e)
  {
    if s != "" && s[0] == '?' {
    } else if s != "" && s[0] == '{' {
      var n := Brace(s[1..]);
      assert s[..k][1..] == s[1..][..k - 1];
      BracePrefix(s[1..], k - 1);
      assert s[..k][1..1 + n] == s[1..1 + n];
    } else {
      RunPrefix(s, k);
      assert s[..k][..NameRun(s)] == s[..NameRun(s)];
    }
  }

  lemma NextPrefix(s: string, q: Quote, e: Env, k: nat)
    requires k <= |s| && (Next(s, q, e).Stop? || (Next(s, q, e).Take? && Next(s, q, e).length <= k))
    ensures Next(s[..k], q, e) == Next(s, q, e)
  {
    hide Expansion;
    if Next(s, q, e).Take? && s[0] == '$' && !q.Single? {
      assert s[..k][1..] == s[1..][..k - 1];
      ExpansionPrefix(s[1..], e, k - 1);
    }
  }

  lemma {:induction false} WordPrefix(s: string, q: Quote, e: Env, k: nat)
    requires Rest(s, q, e).Some? && Rest(s, q, e).value.length <= k <= |s|
    ensures Rest(s[..k], q, e) == Rest(s, q, e)
    decreases |s|
  {
    hide Next;
    NextPrefix(s, q, e, k);
    var t := Next(s, q, e);
    if t.Take? {
      assert s[..k][t.length..] == s[t.length..][..k - t.length];
      WordPrefix(s[t.length..], t.quote, e, k - t.length);
    }
  }

  // ----- The scanners agree -----------------------------------------------------------------------

  /** T is lexed as the part before the separator at k, the semicolon, and the part after it. */
  ghost predicate Cut(s: string, k: nat, e: Env, T: seq<Token>) {
    && k < |s| && Lex(s[..k], e).Some? && Lex(s[k + 1..], e).Some?
    && Semicolon !in Lex(s[..k], e).value
    && T == Lex(s[..k], e).value + [Semicolon] + Lex(s[k + 1..], e).value
  }

  ghost predicate Agree(s: string, e: Env, T: seq<Token>) {
    var k := Sep(s, Clean);
    if k == |s| then Semicolon !in T else Cut(s, k, e, T)
  }

  /** P, and then r */
  function Joined(P: seq<Token>, r: Option<seq<Token>>): Option<seq<Token>> {
    if r.None? then None else Some(P + r.value)
  }

  /**
   The first m characters of s lex to P, in s and in every segment that holds them, and the splitter passes over them.
   */
  ghost predicate Taken(s: string, m: nat, P: seq<Token>, e: Env) {
    && 0 < m <= |s| && Semicolon !in P
    && Sep(s, Clean) == m + Sep(s[m..], Clean)
    && (forall k :: m <= k <= |s| ==> Lex(s[..k], e) == Joined(P, Lex(s[m..k], e)))
  }

  lemma AgreeLonger(s: string, m: nat, P: seq<Token>, e: Env, T: seq<Token>)
    requires Taken(s, m, P, e) && Agree(s[m..], e, T)
    ensures Agree(s, e, P + T)
  {
    hide Lex;
    var j := Sep(s[m..], Clean);
    if j < |s[m..]| {
      assert s[m..][..j] == s[m..m + j] && s[m..][j + 1..] == s[m + j + 1..];
      assert Lex(s[..m + j], e) == Joined(P, Lex(s[m..m + j], e));
      var A, B := Lex(s[m..m + j], e).value, Lex(s[m + j + 1..], e).value;
      assert P + (A + [Semicolon] + B) == (P + A) + [Semicolon] + B;
    }
  }

  /** Everything but a word or a semicolon takes one character, or two. */
  function Operator(s: string): (r: (nat, seq<Token>))
    requires s != ""
  {
    if Space(s[0]) then (1, [])
    else if s[0] == '|' then (1, [Pipe])
    else if s[0] == '<' then (1, [Input])
    else if s[0] == '>' && |s| > 1 && s[1] == '>' then (2, [Append])
    else if s[0] == '>' then (1, [Output])
    else (0, [])
  }

  lemma OperatorTaken(s: string, e: Env)
    requires s != "" && Operator(s).0 > 0
    ensures Taken(s, Operator(s).0, Operator(s).1, e)
  {
    var (m, P) := Operator(s);
    assert forall i :: 0 <= i < m ==> Neutral(s[i]);
    NeutralPasses(s, Bare, m);
    forall k | m <= k <= |s| ensures Lex(s[..k], e) == Joined(P, Lex(s[m..k], e)) {
      OperatorLexes(s, k, e);
    }
  }

  lemma OperatorLexes(s: string, k: nat, e: Env)
    requires s != "" && 0 < Operator(s).0 <= k <= |s|
    ensures Lex(s[..k], e) == Joined(Operator(s).1, Lex(s[Operator(s).0..k], e))
  {
    var (m, P) := Operator(s);
    var p := s[..k];
    assert p[m..] == s[m..k];
    assert forall x: seq<Token> :: [] + x == x;
  }

  predicate Wordy(s: string) {
    s != "" && !Delimiter(s[0])
  }

  lemma WordTaken(s: string, e: Env)
    requires Wordy(s) && Lex(s, e).Some?
    ensures var w := Rest(s, Bare, e); w.Some? && Taken(s, w.value.length, [Word(w.value.text)], e)
  {
    hide Rest, Sep;
    WordPasses(s, Bare, e);
    var w := Rest(s, Bare, e).value;
    forall k | w.length <= k <= |s| ensures Lex(s[..k], e) == Joined([Word(w.text)], Lex(s[w.length..k], e)) {
      WordPrefix(s, Bare, e, k);
      assert s[..k][w.length..] == s[w.length..k];
    }
  }

  /** Both scanners find the same first separating semicolon in a line that lexes, and cut it the same way. */
  lemma {:induction false} LexerAndSplitterAgree(s: string, e: Env)
    requires Lex(s, e).Some?
    ensures Agree(s, e, Lex(s, e).value)
    decreases |s|
  {
    if s == "" {
    } else if s[0] == ';' {
      assert s[..0] == "";
    } else {
      hide Rest, Sep, Agree, Taken, Joined;
      var m, P;
      if Wordy(s) {
        WordTaken(s, e);
        m, P := Rest(s, Bare, e).value.length, [Word(Rest(s, Bare, e).value.text)];
      } else {
        OperatorTaken(s, e);
        m, P := Operator(s).0, Operator(s).1;
      }
      TakenMeans(s, m, P, e);
      LexerAndSplitterAgree(s[m..], e);
      AgreeLonger(s, m, P, e, Lex(s[m..], e).value);
    }
  }

  lemma TakenMeans(s: string, m: nat, P: seq<Token>, e: Env)
    requires Taken(s, m, P, e) && Lex(s, e).Some?
    ensures 0 < m <= |s| && Lex(s[m..], e).Some? && Lex(s, e).value == P + Lex(s[m..], e).value
  {
    hide Lex, Sep;
    assert s[..|s|] == s && s[m..|s|] == s[m..];
  }

  /** Token lists with semicolons between them; None if one of them does not lex */
  function Interspersed(segments: seq<string>, e: Env): Option<seq<Token>>
    requires segments != []
  {
    var first := LexLine(segments[0], e);
    if first.None? || |segments| == 1 then first
    else
      var rest := Interspersed(segments[1..], e);
      if rest.None? then None else Some(first.value + [Semicolon] + rest.value)
  }

  /** A line that lexes as a whole lexes segment by segment, to the same tokens with a semicolon between segments. */
  lemma {:induction false} SegmentsLexAlike(s: string, e: Env)
    requires LexLine(s, e).Some?
    ensures Segments(s) != [] && Interspersed(Segments(s), e) == LexLine(s, e)
    decreases |s|
  {
    hide Lex, Sep;
    LexerAndSplitterAgree(s, e);
    var k := Sep(s, Clean);
    if k < |s| {
      var after := s[k + 1..];
      SegmentsLexAlike(after, e);
      assert Segments(s) == [s[..k]] + Segments(after);
      assert Segments(s)[1..] == Segments(after);
    }
  }

  /** Cut at the first separator, the splitter finds none. */
  lemma {:induction false} SegmentIsWhole(s: string, st: Scan)
    ensures Sep(s[..Sep(s, st)], st) == Sep(s, st)
  {
    var k := Sep(s, st);
    if k > 0 {
      assert s[..k][1..] == s[1..][..k - 1];
      SegmentIsWhole(s[1..], Step(st, s[0]));
    }
  }

  /** No segment that lexes holds a semicolon token, whether the line as a whole lexes or not. */
  lemma {:induction false} SegmentsHaveNoSemicolon(s: string, e: Env, i: nat)
    requires i < |Segments(s)| && LexLine(Segments(s)[i], e).Some?
    ensures Semicolon !in LexLine(Segments(s)[i], e).value
    decreases |s|
  {
    hide Lex, Sep;
    var k := Sep(s, Clean);
    if i == 0 {
      SegmentIsWhole(s, Clean);
      LexerAndSplitterAgree(Segments(s)[0], e);
    } else {
      assert Segments(s)[i] == Segments(s[k + 1..])[i - 1];
      SegmentsHaveNoSemicolon(s[k + 1..], e, i - 1);
    }
  }

  /** The segments, with semicolons between them, are the line. */
  lemma {:induction false} SegmentsCover(s: string)
    ensures Segments(s) != [] && WithSemicolons(Segments(s)) == s
    decreases |s|
  {
    hide Sep;
    var k := Sep(s, Clean);
    if k < |s| {
      SegmentsCover(s[k + 1..]);
      assert Segments(s)[1..] == Segments(s[k + 1..]);
      assert s == s[..k] + ";" + s[k + 1..];
    }
  }

  function WithSemicolons(segments: seq<string>): string
    requires segments != []
  {
    if |segments| == 1 then segments[0] else segments[0] + ";" + WithSemicolons(segments[1..])
  }
}
