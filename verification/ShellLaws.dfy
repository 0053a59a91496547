/**
 The lexer reads back what is written: a line spelt from tokens, with every
 kind of quoting and expansion, lexes to those tokens with the expansions'
 values. Every list of tokens can be spelt.
 */
module ShellLaws {
  import opened Common
  import opened Shell

  // ----- Characters -----------------------------------------------------------------------

  const LOWER: set<char> :=
    {'a', 'b', 'c', 'd', 'e', 'f', 'g', 'h', 'i', 'j', 'k', 'l', 'm',
     'n', 'o', 'p', 'q', 'r', 's', 't', 'u', 'v', 'w', 'x', 'y', 'z'}

  const UPPER: set<char> :=
    {'A', 'B', 'C', 'D', 'E', 'F', 'G', 'H', 'I', 'J', 'K', 'L', 'M',
     'N', 'O', 'P', 'Q', 'R', 'S', 'T', 'U', 'V', 'W', 'X', 'Y', 'Z'}

  const DIGITS: set<char> := {'0', '1', '2', '3', '4', '5', '6', '7', '8', '9'}

  const BLANKS: set<char> := {' ', '\t', '\n', '\U{0b}', '\U{0c}', '\r'}

  lemma LettersListed(c: char)
    ensures 'a' <= c <= 'z' <==> c in LOWER
  {
  }

  lemma CapitalsListed(c: char)
    ensures 'A' <= c <= 'Z' <==> c in UPPER
  {
  }

  /** The classes of characters, listed. */
  lemma CharactersListed(c: char)
    ensures NameStart(c) <==> c in LOWER || c in UPPER || c == '_'
    ensures NameChar(c) <==> c in LOWER || c in UPPER || c in DIGITS || c == '_'
    ensures Space(c) <==> c in BLANKS
    ensures Delimiter(c) <==> c in BLANKS || c in {'|', ';', '<', '>'}
  {
    LettersListed(c);
    CapitalsListed(c);
  }

  /** A variable's name: at most 127 name characters, the first not a digit. */
  lemma NameIff(n: string)
    ensures Name(n) <==>
            && 1 <= |n| <= 127 && n[0] !in DIGITS
            && (forall i :: 0 <= i < |n| ==> n[i] in LOWER || n[i] in UPPER || n[i] in DIGITS || n[i] == '_')
  {
    hide NameStart, NameChar;
    forall i | 0 <= i < |n|
      ensures NameChar(n[i]) <==> n[i] in LOWER || n[i] in UPPER || n[i] in DIGITS || n[i] == '_'
    {
      CharactersListed(n[i]);
    }
    if n != "" {
      CharactersListed(n[0]);
      Disjoint(n[0]);
    }
  }

  lemma Disjoint(c: char)
    ensures c in DIGITS ==> !NameStart(c) && NameChar(c)
    ensures NameChar(c) && c !in DIGITS ==> NameStart(c)
  {
  }

  // ----- Spelling ---------------------------------------------------------------------------

  /** What may stand outside quotes and inside double ones. */
  datatype Item = Plain(c: char) | Escaped(c: char) | Braced(name: string) | Status

  datatype Chunk = Open(item: Item) | SingleQuoted(text: string) | DoubleQuoted(items: seq<Item>)

  datatype Spelt = SpeltWord(chunks: seq<Chunk>) | Operator(token: Token)

  predicate ItemOk(i: Item, q: Quote) {
    match i
    case Plain(c) => c != '"' && c != '\\' && c != '$' && (q.Bare? ==> c != '\'' && !Delimiter(c))
    case Escaped(_) => true
    case Braced(name) => Name(name)
    case Status => true
  }

  predicate ItemsOk(items: seq<Item>, q: Quote) {
    forall i :: 0 <= i < |items| ==> ItemOk(items[i], q)
  }

  predicate ChunkOk(k: Chunk) {
    match k
    case Open(i) => ItemOk(i, Bare)
    case SingleQuoted(t) => '\'' !in t
    case DoubleQuoted(items) => ItemsOk(items, Double)
  }

  predicate SpeltOk(t: Spelt) {
    match t
    case SpeltWord(ks) => ks != [] && forall i :: 0 <= i < |ks| ==> ChunkOk(ks[i])
    case Operator(token) => !token.Word?
  }

  function SpellItem(i: Item): string {
    match i
    case Plain(c) => [c]
    case Escaped(c) => ['\\', c]
    case Braced(name) => "${" + name + "}"
    case Status => "$?"
  }

  function SpellItems(items: seq<Item>): string {
    if items == [] then "" else SpellItem(items[0]) + SpellItems(items[1..])
  }

  function SpellChunk(k: Chunk): string {
    match k
    case Open(i) => SpellItem(i)
    case SingleQuoted(t) => "'" + t + "'"
    case DoubleQuoted(items) => "\"" + SpellItems(items) + "\""
  }

  function SpellChunks(ks: seq<Chunk>): string {
    if ks == [] then "" else SpellChunk(ks[0]) + SpellChunks(ks[1..])
  }

  function SpellToken(t: Spelt): string {
    match t
    case SpeltWord(ks) => SpellChunks(ks)
    case Operator(Pipe) => "|"
    case Operator(Semicolon) => ";"
    case Operator(Input) => "<"
    case Operator(Output) => ">"
    case Operator(Append) => ">>"
    case Operator(Word(_)) => ""
  }

  /** The tokens with a blank behind each */
  function SpellLine(ts: seq<Spelt>): string {
    if ts == [] then "" else SpellToken(ts[0]) + " " + SpellLine(ts[1..])
  }

  // ----- Meaning ------------------------------------------------------------------------------

  function ValueItem(i: Item, e: Env): string {
    match i
    case Plain(c) => [c]
    case Escaped(c) => [c]
    case Braced(name) => e.value(name)
    case Status => e.status
  }

  function ValueItems(items: seq<Item>, e: Env): string {
    if items == [] then "" else ValueItem(items[0], e) + ValueItems(items[1..], e)
  }

  function ValueChunk(k: Chunk, e: Env): string {
    match k
    case Open(i) => ValueItem(i, e)
    case SingleQuoted(t) => t
    case DoubleQuoted(items) => ValueItems(items, e)
  }

  function ValueChunks(ks: seq<Chunk>, e: Env): string {
    if ks == [] then "" else ValueChunk(ks[0], e) + ValueChunks(ks[1..], e)
  }

  function Meaning(ts: seq<Spelt>, e: Env): (r: seq<Token>)
    ensures |r| == |ts|
  {
    if ts == [] then []
    else [if ts[0].SpeltWord? then Word(ValueChunks(ts[0].chunks, e)) else ts[0].token] + Meaning(ts[1..], e)
  }

  // ----- Items ----------------------------------------------------------------------------------

  lemma BeforeTwice(a: string, m: nat, b: string, n: nat, r: Option<Shell.Piece>)
    ensures Before(a, m, Before(b, n, r)) == Before(a + b, m + n, r)
  {
    if r.Some? {
      assert a + (b + r.value.text) == a + b + r.value.text;
    }
  }

  lemma Taken(s: string, q: Quote, e: Env, a: string, b: string)
    requires Next(s, q, e).Take? && s == a + b && Next(s, q, e).length == |a| > 0
    ensures Rest(s, q, e) == Before(Next(s, q, e).text, |a|, Rest(b, Next(s, q, e).quote, e))
  {
    hide Next;
    assert s[|a|..] == b;
  }

  lemma {:induction false} BraceAt(name: string, b: string)
    requires '}' !in name
    ensures Brace(name + "}" + b) == |name|
  {
    if name != "" {
      assert (name + "}" + b)[1..] == name[1..] + "}" + b;
      assert '}' !in name[1..] && name[0] in name;
      BraceAt(name[1..], b);
    } else {
      assert (name + "}" + b)[0] == '}';
    }
  }

  lemma NamesHaveNoBrace(name: string)
    requires Name(name)
    ensures '}' !in name
  {
  }

  /** A name in braces is expanded to its value. */
  lemma BracedExpands(name: string, b: string, e: Env)
    requires Name(name)
    ensures Expansion("{" + name + "}" + b, e) == Some(Piece(e.value(name), |name| + 2))
  {
    hide Name;
    var s := "{" + name + "}" + b;
    NamesHaveNoBrace(name);
    assert s[1..] == name + "}" + b;
    BraceAt(name, b);
    assert s[1..1 + |name|] == name;
  }

  lemma ItemReads(i: Item, q: Quote, b: string, e: Env)
    requires ItemOk(i, q) && !q.Single?
    ensures Rest(SpellItem(i) + b, q, e) == Before(ValueItem(i, e), |SpellItem(i)|, Rest(b, q, e))
  {
    hide Rest, Expansion, Name;
    var a := SpellItem(i);
    var s := a + b;
    match i {
      case Plain(c) => assert s[0] == c;
      case Escaped(c) => assert s[0] == '\\' && s[1] == c;
      case Braced(name) =>
        assert s[0] == '$' && s[1..] == "{" + name + "}" + b;
        BracedExpands(name, b, e);
      case Status =>
        assert s[0] == '$' && s[1..] == "?" + b;
        StatusExpands(b, e);
    }
    Taken(s, q, e, a, b);
  }

  lemma StatusExpands(b: string, e: Env)
    ensures Expansion("?" + b, e) == Some(Piece(e.status, 1))
  {
  }

  lemma {:induction false} ItemsRead(items: seq<Item>, q: Quote, b: string, e: Env)
    requires ItemsOk(items, q) && !q.Single?
    ensures Rest(SpellItems(items) + b, q, e) == Before(ValueItems(items, e), |SpellItems(items)|, Rest(b, q, e))
  {
    hide Rest, ItemOk, SpellItem, ValueItem;
    if items == [] {
      assert "" + b == b;
      BeforeNothing(Rest(b, q, e));
    } else {
      var rest := SpellItems(items[1..]);
      assert SpellItems(items) + b == SpellItem(items[0]) + (rest + b);
      ItemReads(items[0], q, rest + b, e);
      ItemsRead(items[1..], q, b, e);
      BeforeTwice(ValueItem(items[0], e), |SpellItem(items[0])|, ValueItems(items[1..], e), |rest|, Rest(b, q, e));
    }
  }

  lemma BeforeNothing(r: Option<Shell.Piece>)
    ensures Before("", 0, r) == r
  {
    if r.Some? {
      assert "" + r.value.text == r.value.text;
    }
  }

  // ----- Chunks -----------------------------------------------------------------------------------

  /** Inside single quotes everything up to the next one stands for itself. */
  lemma {:induction false} InSingle(t: string, b: string, e: Env)
    requires '\'' !in t
    ensures Rest(t + "'" + b, Single, e) == Before(t, |t| + 1, Rest(b, Bare, e))
  {
    hide Rest;
    var s := t + "'" + b;
    if t == "" {
      assert s == "'" + b && s[0] == '\'';
      Taken(s, Single, e, "'", b);
    } else {
      assert t[0] in t && '\'' !in t[1..];
      assert s == [t[0]] + (t[1..] + "'" + b) && s[0] == t[0];
      Taken(s, Single, e, [t[0]], t[1..] + "'" + b);
      InSingle(t[1..], b, e);
      BeforeTwice([t[0]], 1, t[1..], |t|, Rest(b, Bare, e));
      assert [t[0]] + t[1..] == t;
    }
  }

  lemma SingleReads(t: string, b: string, e: Env)
    requires '\'' !in t
    ensures Rest("'" + t + "'" + b, Bare, e) == Before(t, |t| + 2, Rest(b, Bare, e))
  {
    hide Rest;
    var s := "'" + t + "'" + b;
    assert s == "'" + (t + "'" + b) && s[0] == '\'';
    Taken(s, Bare, e, "'", t + "'" + b);
    InSingle(t, b, e);
    BeforeTwice("", 1, t, |t| + 1, Rest(b, Bare, e));
    assert "" + t == t;
  }

  lemma DoubleReads(items: seq<Item>, b: string, e: Env)
    requires ItemsOk(items, Double)
    ensures Rest("\"" + SpellItems(items) + "\"" + b, Bare, e)
         == Before(ValueItems(items, e), |SpellItems(items)| + 2, Rest(b, Bare, e))
  {
    hide Rest, ItemsOk, SpellItems, ValueItems;
    var inner, value := SpellItems(items), ValueItems(items, e);
    var s, close := "\"" + inner + "\"" + b, "\"" + b;
    assert s == "\"" + (inner + close) && s[0] == '"' && close[0] == '"';
    Taken(s, Bare, e, "\"", inner + close);
    ItemsRead(items, Double, close, e);
    Taken(close, Double, e, "\"", b);
    BeforeTwice(value, |inner|, "", 1, Rest(b, Bare, e));
    BeforeTwice("", 1, value + "", |inner| + 1, Rest(b, Bare, e));
    assert "" + (value + "") == value;
  }

  lemma ChunkReads(k: Chunk, b: string, e: Env)
    requires ChunkOk(k)
    ensures Rest(SpellChunk(k) + b, Bare, e) == Before(ValueChunk(k, e), |SpellChunk(k)|, Rest(b, Bare, e))
  {
    hide Rest, ItemsOk, ItemOk, SpellItems, ValueItems, Before;
    match k
    case Open(i) => ItemReads(i, Bare, b, e);
    case SingleQuoted(t) => SingleReads(t, b, e);
    case DoubleQuoted(items) => DoubleReads(items, b, e);
  }

  /** A spelt word, with the end of the line or a delimiter behind it, is read as its value. */
  lemma {:induction false} WordReads(ks: seq<Chunk>, b: string, e: Env)
    requires (forall i :: 0 <= i < |ks| ==> ChunkOk(ks[i])) && (b == "" || Delimiter(b[0]))
    ensures Rest(SpellChunks(ks) + b, Bare, e) == Some(Piece(ValueChunks(ks, e), |SpellChunks(ks)|))
  {
    hide ChunkOk, SpellChunk, ValueChunk;
    if ks == [] {
      assert "" + b == b;
      WordEnds(b, e);
    } else {
      var rest := SpellChunks(ks[1..]);
      assert SpellChunks(ks) + b == SpellChunk(ks[0]) + (rest + b);
      ChunkReads(ks[0], rest + b, e);
      WordReads(ks[1..], b, e);
    }
  }

  lemma WordEnds(b: string, e: Env)
    requires b == "" || Delimiter(b[0])
    ensures Rest(b, Bare, e) == Some(Piece("", 0))
  {
    assert Next(b, Bare, e).Stop?;
  }

  // ----- Lines ---------------------------------------------------------------------------------------

  lemma ChunkBegins(k: Chunk)
    requires ChunkOk(k)
    ensures SpellChunk(k) != "" && !Delimiter(SpellChunk(k)[0])
  {
  }

  /** A line spelt from tokens lexes to those tokens, the words with their quotes gone and expansions done. */
  lemma {:induction false} LineReadsBack(ts: seq<Spelt>, e: Env)
    requires forall i :: 0 <= i < |ts| ==> SpeltOk(ts[i])
    ensures Lex(SpellLine(ts), e) == Some(Meaning(ts, e))
  {
    hide SpeltOk, SpellToken;
    if ts != [] {
      var rest := SpellLine(ts[1..]);
      LineReadsBack(ts[1..], e);
      BlankFirst(rest, e);
      assert SpellLine(ts) == SpellToken(ts[0]) + (" " + rest);
      if ts[0].SpeltWord? {
        WordFirst(ts[0].chunks, " " + rest, e);
      } else {
        OperatorFirst(ts[0].token, " " + rest, e);
      }
    }
  }

  lemma BlankFirst(rest: string, e: Env)
    ensures Lex(" " + rest, e) == Lex(rest, e)
  {
    assert (" " + rest)[1..] == rest;
  }

  lemma OperatorFirst(t: Token, b: string, e: Env)
    requires SpeltOk(Operator(t)) && b != "" && b[0] == ' '
    ensures Lex(SpellToken(Operator(t)) + b, e) == Then(t, Lex(b, e))
  {
    var s := SpellToken(Operator(t)) + b;
    if t.Append? {
      assert s[2..] == b;
    } else {
      assert s[1..] == b;
    }
  }

  lemma WordFirst(ks: seq<Chunk>, b: string, e: Env)
    requires SpeltOk(SpeltWord(ks)) && b != "" && b[0] == ' '
    ensures Lex(SpellToken(SpeltWord(ks)) + b, e) == Then(Word(ValueChunks(ks, e)), Lex(b, e))
  {
    hide Rest, ChunkOk, SpellChunk;
    var a := SpellChunks(ks);
    WordReads(ks, b, e);
    ChunkBegins(ks[0]);
    assert (a + b)[0] == SpellChunk(ks[0])[0];
    assert (a + b)[|a|..] == b;
  }

  /** A line of up to 128 tokens is taken whole, a longer one refused. */
  lemma TokenLimit(ts: seq<Spelt>, e: Env)
    requires forall i :: 0 <= i < |ts| ==> SpeltOk(ts[i])
    ensures LexLine(SpellLine(ts), e) == if |ts| <= 128 then Some(Meaning(ts, e)) else None
  {
    hide SpeltOk, Lex, SpellLine, Meaning;
    LineReadsBack(ts, e);
  }

  /** Any text at all, the empty one too, can be written as a word that means it in every environment. */
  lemma {:induction false} AnyTextCanBeSpelt(text: string) returns (ks: seq<Chunk>)
    ensures SpeltOk(SpeltWord(ks)) && forall e :: ValueChunks(ks, e) == text
  {
    if text == "" {
      ks := [SingleQuoted("")];
      assert ks[1..] == [];
    } else {
      var rest := AnyTextCanBeSpelt(text[1..]);
      ks := [Open(Escaped(text[0]))] + rest;
      assert ks[1..] == rest;
      assert text == [text[0]] + text[1..];
    }
  }

  // ----- Names without braces, and what is refused ------------------------------------------------------

  lemma {:induction false} RunAt(name: string, b: string)
    requires (forall i :: 0 <= i < |name| ==> NameChar(name[i])) && (b == "" || !NameChar(b[0]))
    ensures NameRun(name + b) == |name|
  {
    if name != "" {
      assert (name + b)[1..] == name[1..] + b;
      RunAt(name[1..], b);
    } else {
      assert name + b == b;
    }
  }

  /** A dollar and a name: the longest run of name characters is the name; a dollar before anything else is itself. */
  lemma NameExpands(name: string, b: string, q: Quote, e: Env)
    requires Name(name) && (b == "" || !NameChar(b[0])) && !q.Single?
    ensures Rest("$" + name + b, q, e) == Before(e.value(name), |name| + 1, Rest(b, q, e))
  {
    hide Rest, NameChar;
    var s := "$" + name + b;
    assert s[0] == '$' && s[1..] == name + b;
    RunAt(name, b);
    assert (name + b)[..|name|] == name;
    FirstOfName(name);
    Taken(s, q, e, "$" + name, b);
  }

  /** A name that begins with a digit, or has 128 characters or more, is refused. */
  lemma BadNameRefused(name: string, b: string, q: Quote, e: Env)
    requires name != "" && (forall i :: 0 <= i < |name| ==> NameChar(name[i])) && (b == "" || !NameChar(b[0]))
    requires name[0] in DIGITS || |name| >= 128
    requires !q.Single?
    ensures Rest("$" + name + b, q, e) == None
  {
    var s := "$" + name + b;
    assert s[0] == '$' && s[1..] == name + b;
    RunAt(name, b);
    assert (name + b)[..|name|] == name && (name + b)[0] == name[0];
    assert Next(s, q, e).Fail?;
  }

  lemma FirstOfName(name: string)
    requires Name(name)
    ensures name[0] != '?' && name[0] != '{'
  {
  }

  lemma DollarAlone(b: string, q: Quote, e: Env)
    requires (b == "" || (!NameChar(b[0]) && b[0] != '?' && b[0] != '{')) && !q.Single?
    ensures Rest("$" + b, q, e) == Before("$", 1, Rest(b, q, e))
  {
    hide Rest;
    var s := "$" + b;
    assert s[0] == '$' && s[1..] == b;
    Taken(s, q, e, "$", b);
  }

  /** A quote that is not closed, a backslash at the end and a brace that is not closed are refused. */
  lemma {:induction false} Unfinished(t: string, e: Env)
    requires '\'' !in t
    ensures Rest(t, Single, e) == None && Rest("'" + t, Bare, e) == None
    ensures Rest("\\", Bare, e) == None && Rest("\\", Double, e) == None
    ensures '}' !in t ==> Rest("${" + t, Bare, e) == None && Rest("${" + t, Double, e) == None
    decreases |t|
  {
    if t != "" {
      assert t[0] in t && '\'' !in t[1..];
      Unfinished(t[1..], e);
      assert Next(t, Single, e) == Take([t[0]], 1, Single);
    }
    assert ("'" + t)[1..] == t && ("'" + t)[0] == '\'';
    if '}' !in t {
      var s := "${" + t;
      assert s[0] == '$' && s[1..] == "{" + t && ("{" + t)[1..] == t;
      var n := Brace(t);
      assert Expansion("{" + t, e) == None;
    }
  }
}
