/**
 Path normalisation as a stack of components, and dirname and basename, whose
 parts name the same file as the whole.
 */
module Path {
  import opened Common

  const PATH_MAX := 1024
  const INPUT_SIZE := 2 * PATH_MAX
  const MAX_COMPONENTS := PATH_MAX / 2

  // ----- Components -----------------------------------------------------------

  function SkipSlashes(p: string, i: nat): (j: nat)
    requires i <= |p|
    ensures i <= j <= |p| && (j < |p| ==> p[j] != '/')
    ensures forall k :: i <= k < j ==> p[k] == '/'
    decreases |p| - i
  {
    if i < |p| && p[i] == '/' then SkipSlashes(p, i + 1) else i
  }

  function ComponentEnd(p: string, i: nat): (e: nat)
    requires i <= |p|
    ensures i <= e <= |p| && (e < |p| ==> p[e] == '/')
    ensures forall k :: i <= k < e ==> p[k] != '/'
    decreases |p| - i
  {
    if i < |p| && p[i] != '/' then ComponentEnd(p, i + 1) else i
  }

  /** The names between the slashes of p, from position i on. */
  function Components(p: string, i: nat): seq<string>
    requires i <= |p|
    decreases |p| - i
  {
    var j := SkipSlashes(p, i);
    if j == |p| then []
    else [p[j..ComponentEnd(p, j)]] + Components(p, ComponentEnd(p, j))
  }

  // ----- The stack ---------------------------------------------------------------

  function Step(stack: seq<string>, c: string): seq<string> {
    if c == "." then stack
    else if c == ".." then (if stack == [] then [] else stack[..|stack| - 1])
    else stack + [c]
  }

  function Fold(stack: seq<string>, cs: seq<string>): seq<string>
    decreases |cs|
  {
    if cs == [] then stack else Fold(Step(stack, cs[0]), cs[1..])
  }

  /** The absolute path of a stack: "/" alone, or each name after a slash. */
  function Render(stack: seq<string>): (r: string)
    ensures |r| >= 1
  {
    if stack == [] then "/"
    else if |stack| == 1 then "/" + stack[0]
    else Render(stack[..|stack| - 1]) + "/" + stack[|stack| - 1]
  }

  datatype Outcome = Ok(stack: seq<string>) | EINVAL | ENAMETOOLONG

  /** The fold with the buffers' limits: every intermediate path must fit, with its final zero. */
  function BoundedFold(stack: seq<string>, cs: seq<string>, size: nat): Outcome
    decreases |cs|
  {
    if cs == [] then Ok(stack)
    else
      var next := Step(stack, cs[0]);
      if |next| > |stack| && (|stack| >= MAX_COMPONENTS || |Render(next)| >= size) then ENAMETOOLONG
      else BoundedFold(next, cs[1..], size)
  }

  /** The text that is normalised: an absolute path as it is, a relative one after the directory. */
  function Input(cwd: string, path: string): string {
    if |path| > 0 && path[0] == '/' then path
    else cwd + (if cwd == "/" then "" else "/") + path
  }

  function Normalize(cwd: string, path: string, size: nat): Outcome {
    if size < 2 || cwd == "" || cwd[0] != '/' then EINVAL
    else if |Input(cwd, path)| >= INPUT_SIZE then ENAMETOOLONG
    else BoundedFold([], Components(Input(cwd, path), 0), size)
  }

  // ----- Facts about stacks --------------------------------------------------------

  predicate Name(c: string) {
    c != "" && c != "." && c != ".." && '/' !in c
  }

  predicate Canonical(stack: seq<string>) {
    forall i :: 0 <= i < |stack| ==> Name(stack[i])
  }

  /** A nonempty piece between slashes */
  predicate Piece(c: string) {
    c != "" && '/' !in c
  }

  lemma {:induction false} ComponentsArePieces(p: string, i: nat)
    requires i <= |p|
    ensures forall k :: 0 <= k < |Components(p, i)| ==> Piece(Components(p, i)[k])
    decreases |p| - i
  {
    var j := SkipSlashes(p, i);
    if j < |p| {
      ComponentsArePieces(p, ComponentEnd(p, j));
    }
  }

  /** What a bounded fold returns is canonical, is the plain fold, and fits. */
  lemma {:induction false} BoundedFoldIsFold(stack: seq<string>, cs: seq<string>, size: nat)
    requires Canonical(stack) && forall k :: 0 <= k < |cs| ==> Piece(cs[k])
    requires |Render(stack)| < size && |stack| <= MAX_COMPONENTS
    ensures var r := BoundedFold(stack, cs, size);
      r.Ok? ==> && r.stack == Fold(stack, cs) && Canonical(r.stack)
                && |Render(r.stack)| < size && |r.stack| <= MAX_COMPONENTS
    decreases |cs|
  {
    if cs != [] {
      var next := Step(stack, cs[0]);
      if |next| < |stack| {
        RenderShrinks(stack);
      }
      if !(|next| > |stack| && (|stack| >= MAX_COMPONENTS || |Render(next)| >= size)) {
        BoundedFoldIsFold(next, cs[1..], size);
      }
    }
  }

  lemma RenderShrinks(stack: seq<string>)
    requires stack != []
    ensures |Render(stack[..|stack| - 1])| <= |Render(stack)|
  {
  }

  /** A rendered path has at least two characters for each component. */
  lemma {:induction false} RenderLength(stack: seq<string>)
    requires Canonical(stack)
    ensures |Render(stack)| >= 2 * |stack|
  {
    if |stack| > 1 {
      RenderLength(stack[..|stack| - 1]);
    }
  }

  /** With an output of 1024 bytes the table of component starts never fills up. */
  lemma ComponentTableSuffices(stack: seq<string>)
    requires Canonical(stack) && |Render(stack)| < PATH_MAX
    ensures |stack| < MAX_COMPONENTS
  {
    RenderLength(stack);
  }

  /** The fold whose only limit is the output buffer */
  function FoldWithin(stack: seq<string>, cs: seq<string>, size: nat): Outcome
    decreases |cs|
  {
    if cs == [] then Ok(stack)
    else
      var next := Step(stack, cs[0]);
      if |next| > |stack| && |Render(next)| >= size then ENAMETOOLONG else FoldWithin(next, cs[1..], size)
  }

  lemma {:induction false} FoldNeverFills(stack: seq<string>, cs: seq<string>, size: nat)
    requires Canonical(stack) && |Render(stack)| < size <= PATH_MAX && forall k :: 0 <= k < |cs| ==> Piece(cs[k])
    ensures BoundedFold(stack, cs, size) == FoldWithin(stack, cs, size)
    decreases |cs|
  {
    hide Render;
    ComponentTableSuffices(stack);
    if cs != [] {
      var next := Step(stack, cs[0]);
      if |next| < |stack| { RenderShrinks(stack); }
      if !(|next| > |stack| && |Render(next)| >= size) { FoldNeverFills(next, cs[1..], size); }
    }
  }

  /** Into a buffer of at most 1024 bytes every path normalises as it would with no table of components to fill. */
  lemma TableNeverFills(cwd: string, path: string, size: nat)
    requires size <= PATH_MAX
    ensures Normalize(cwd, path, size) ==
            if size < 2 || cwd == "" || cwd[0] != '/' then EINVAL
            else if |Input(cwd, path)| >= INPUT_SIZE then ENAMETOOLONG
            else FoldWithin([], Components(Input(cwd, path), 0), size)
  {
    hide BoundedFold, FoldWithin, Components;
    if size >= 2 {
      ComponentsArePieces(Input(cwd, path), 0);
      FoldNeverFills([], Components(Input(cwd, path), 0), size);
    }
  }

  // ----- Components of joined paths --------------------------------------------------

  lemma {:induction false} SkipShift(x: string, b: string, i: nat)
    requires i <= |b|
    ensures SkipSlashes(x + b, |x| + i) == |x| + SkipSlashes(b, i)
    decreases |b| - i
  {
    if i < |b| && b[i] == '/' { SkipShift(x, b, i + 1); }
  }

  lemma {:induction false} EndShift(x: string, b: string, i: nat)
    requires i <= |b|
    ensures ComponentEnd(x + b, |x| + i) == |x| + ComponentEnd(b, i)
    decreases |b| - i
  {
    if i < |b| && b[i] != '/' { EndShift(x, b, i + 1); }
  }

  lemma SliceShift(x: string, b: string, j: nat, e: nat)
    requires j <= e <= |b|
    ensures (x + b)[|x| + j..|x| + e] == b[j..e]
  {
  }

  lemma Unfold(p: string, i: nat)
    requires i <= |p|
    ensures var j := SkipSlashes(p, i);
      Components(p, i) == if j == |p| then [] else [p[j..ComponentEnd(p, j)]] + Components(p, ComponentEnd(p, j))
  {
  }

  lemma {:induction false} ComponentsShift(x: string, b: string, i: nat)
    requires i <= |b|
    ensures Components(x + b, |x| + i) == Components(b, i)
    decreases |b| - i
  {
    hide SkipSlashes, ComponentEnd, Components;
    var p := x + b;
    SkipShift(x, b, i);
    Unfold(p, |x| + i);
    Unfold(b, i);
    var j := SkipSlashes(b, i);
    if j < |b| {
      var e := ComponentEnd(b, j);
      EndShift(x, b, j);
      SliceShift(x, b, j, e);
      ComponentsShift(x, b, e);
      assert p[|x| + j..|x| + e] == b[j..e];
    }
  }

  /** Scanning a prefix that ends before a slash, or at the end, sees what scanning the whole sees. */
  lemma {:induction false} ScanPrefix(p: string, n: nat, i: nat)
    requires i <= n <= |p| && (n < |p| ==> p[n] == '/')
    ensures SkipSlashes(p[..n], i) < n ==> SkipSlashes(p, i) == SkipSlashes(p[..n], i)
    ensures SkipSlashes(p[..n], i) == n ==> SkipSlashes(p, i) == SkipSlashes(p, n)
    ensures i < n ==> ComponentEnd(p, i) == ComponentEnd(p[..n], i)
    decreases n - i
  {
    if i < n { ScanPrefix(p, n, i + 1); }
  }

  /** A path may be cut before any slash. */
  lemma {:induction false} ComponentsSplit(p: string, n: nat, i: nat)
    requires i <= n <= |p| && (n < |p| ==> p[n] == '/')
    ensures Components(p, i) == Components(p[..n], i) + Components(p, n)
    decreases n - i
  {
    hide SkipSlashes, ComponentEnd, Components;
    ScanPrefix(p, n, i);
    Unfold(p, i);
    Unfold(p[..n], i);
    var j := SkipSlashes(p[..n], i);
    if j < n {
      ScanPrefix(p, n, j);
      var e := ComponentEnd(p, j);
      SliceOfPrefix(p, n, j, e);
      ComponentsSplit(p, n, e);
    } else {
      Unfold(p, n);
    }
  }

  lemma SliceOfPrefix(p: string, n: nat, j: nat, e: nat)
    requires j <= e <= n <= |p|
    ensures p[..n][j..e] == p[j..e]
  {
  }

  lemma ComponentsJoin(a: string, b: string)
    ensures Components(a + "/" + b, 0) == Components(a, 0) + Components(b, 0)
  {
    hide Components, ComponentEnd;
    var p := a + "/" + b;
    assert p[..|a|] == a;
    ComponentsSplit(p, |a|, 0);
    assert SkipSlashes(p, |a|) == SkipSlashes(p, |a| + 1);
    Unfold(p, |a|);
    Unfold(p, |a| + 1);
    assert p == (a + "/") + b;
    ComponentsShift(a + "/", b, 0);
  }

  lemma ComponentsOfPiece(c: string)
    requires Piece(c)
    ensures Components(c, 0) == [c]
  {
    forall k | 0 <= k < |c| ensures c[k] != '/' {
      assert c[k] in c;
    }
    assert c[0..ComponentEnd(c, 0)] == c;
  }

  lemma RootPath()
    ensures Components("/", 0) == []
  {
    assert SkipSlashes("/", 0) == SkipSlashes("/", 1) == 1;
  }

  /** Reading a rendered stack gives the stack back. */
  lemma {:induction false} ComponentsOfRender(stack: seq<string>)
    requires Canonical(stack)
    ensures Components(Render(stack), 0) == stack
  {
    hide Components, SkipSlashes, ComponentEnd;
    if stack == [] {
      RootPath();
    } else {
      var last := stack[|stack| - 1];
      var init := stack[..|stack| - 1];
      ComponentsOfPiece(last);
      if |stack| == 1 {
        assert "" + "/" + last == Render(stack);
        ComponentsJoin("", last);
        EmptyPath();
        assert [] + [last] == stack;
      } else {
        ComponentsOfRender(init);
        ComponentsJoin(Render(init), last);
      }
    }
  }

  lemma {:induction false} BoundedFoldAppend(stack: seq<string>, xs: seq<string>, ys: seq<string>, size: nat)
    ensures BoundedFold(stack, xs + ys, size) ==
            var r := BoundedFold(stack, xs, size); if r.Ok? then BoundedFold(r.stack, ys, size) else r
    decreases |xs|
  {
    if xs == [] {
      assert xs + ys == ys;
    } else {
      assert (xs + ys)[1..] == xs[1..] + ys;
      BoundedFoldAppend(Step(stack, xs[0]), xs[1..], ys, size);
    }
  }

  /** A canonical stack whose path fits folds to itself. */
  lemma {:induction false} CanonicalFolds(done: seq<string>, rest: seq<string>, size: nat)
    requires Canonical(done + rest) && |Render(done + rest)| < size && |done + rest| <= MAX_COMPONENTS
    ensures BoundedFold(done, rest, size) == Ok(done + rest)
    decreases |rest|
  {
    if rest == [] {
      assert done + rest == done;
    } else {
      assert (done + rest)[|done|] == rest[0];
      var next := done + [rest[0]];
      assert next + rest[1..] == done + rest;
      RenderMonotone(next, rest[1..]);
      CanonicalFolds(next, rest[1..], size);
    }
  }

  lemma {:induction false} RenderMonotone(a: seq<string>, b: seq<string>)
    ensures |Render(a)| <= |Render(a + b)|
    decreases |b|
  {
    if b == [] {
      assert a + b == a;
    } else {
      var c := b[..|b| - 1];
      assert (a + b)[..|a + b| - 1] == a + c;
      RenderMonotone(a, c);
      RenderShrinks(a + b);
    }
  }

  // ----- Normalisation ---------------------------------------------------------------

  /** A successful normalisation is the fold of the components; its result is canonical and fits. */
  lemma NormalizeIsFold(cwd: string, path: string, size: nat)
    requires Normalize(cwd, path, size).Ok?
    ensures var r := Normalize(cwd, path, size).stack;
      && r == Fold([], Components(Input(cwd, path), 0))
      && Canonical(r) && |Render(r)| < size && |r| <= MAX_COMPONENTS
  {
    ComponentsArePieces(Input(cwd, path), 0);
    BoundedFoldIsFold([], Components(Input(cwd, path), 0), size);
  }

  /** Normalising a normalised path, from any directory, changes nothing. */
  lemma NormalizeIdempotent(cwd: string, path: string, size: nat, other: string)
    requires size <= INPUT_SIZE && other != "" && other[0] == '/'
    requires Normalize(cwd, path, size).Ok?
    ensures Normalize(other, Render(Normalize(cwd, path, size).stack), size) == Normalize(cwd, path, size)
  {
    NormalizeIsFold(cwd, path, size);
    var r := Normalize(cwd, path, size).stack;
    RenderAbsolute(r);
    ComponentsOfRender(r);
    assert [] + r == r;
    CanonicalFolds([], r, size);
  }

  lemma {:induction false} RenderAbsolute(stack: seq<string>)
    ensures Render(stack)[0] == '/'
  {
    if |stack| > 1 { RenderAbsolute(stack[..|stack| - 1]); }
  }

  /** The components that are folded: those of the directory, for a relative path, and of the path. */
  lemma ComponentsOfInput(cwd: string, path: string)
    ensures Components(Input(cwd, path), 0) ==
            (if |path| > 0 && path[0] == '/' then [] else Components(cwd, 0)) + Components(path, 0)
  {
    if |path| > 0 && path[0] == '/' {
    } else if cwd == "/" {
      assert "" + "/" + path == cwd + "" + path;
      ComponentsJoin("", path);
      assert SkipSlashes("/", 0) == SkipSlashes("/", 1) == 1;
    } else {
      ComponentsJoin(cwd, path);
    }
  }

  // ----- The normaliser as written ------------------------------------------------------

  /** The starts of the components in the rendered path */
  ghost predicate Starts(starts: seq<nat>, stack: seq<string>) {
    |starts| >= |stack| && forall k :: 0 <= k < |stack| ==> starts[k] == |Render(stack[..k])|
  }

  lemma StartsPush(starts: seq<nat>, stack: seq<string>, c: string)
    requires |stack| < |starts| && Starts(starts, stack)
    ensures Starts(starts[|stack| := |Render(stack)|], stack + [c])
  {
    var next := stack + [c];
    forall k | 0 <= k < |next| ensures starts[|stack| := |Render(stack)|][k] == |Render(next[..k])| {
      if k < |stack| {
        assert next[..k] == stack[..k];
      } else {
        assert next[..k] == stack;
      }
    }
  }

  lemma StartsPop(starts: seq<nat>, stack: seq<string>)
    requires stack != [] && Starts(starts, stack)
    ensures Starts(starts, stack[..|stack| - 1]) && starts[|stack| - 1] == |Render(stack[..|stack| - 1])|
  {
    var init := stack[..|stack| - 1];
    forall k | 0 <= k < |init| ensures starts[k] == |Render(init[..k])| {
      assert init[..k] == stack[..k];
    }
  }

  lemma {:induction false} RenderPop(stack: seq<string>)
    requires stack != []
    ensures Render(stack[..|stack| - 1]) <= Render(stack)
  {
    if |stack| == 1 {
      assert stack[..0] == [];
    }
  }

  lemma {:induction false} RenderPush(stack: seq<string>, c: string)
    ensures Render(stack + [c]) == Render(stack) + (if stack == [] then "" else "/") + c
  {
    var next := stack + [c];
    assert next[..|next| - 1] == stack;
    if stack == [] {
      assert Render(next) == "/" + c == "/" + "" + c;
    } else {
      assert Render(next) == Render(stack) + "/" + c;
    }
  }

  /** memcpy of a name, and the zero behind it */
  method CopyName(output: array<char>, at: nat, c: string)
    requires at + |c| < output.Length
    modifies output
    ensures output[..at + |c|] == old(output[..at]) + c && output[at + |c|] == '\0'
  {
    var i := 0;
    while i < |c|
      invariant 0 <= i <= |c|
      invariant output[..at + i] == old(output[..at]) + c[..i]
    {
      output[at + i] := c[i];
      assert c[..i + 1] == c[..i] + [c[i]];
      i := i + 1;
    }
    output[at + |c|] := '\0';
    assert c[..|c|] == c;
  }

  /** The copy of one component behind the path built so far */
  method AppendComponent(output: array<char>, used: nat, c: string, ghost stack: seq<string>)
    returns (ok: bool, used': nat)
    requires 1 <= used < output.Length && Piece(c)
    requires used == |Render(stack)| && output[..used] == Render(stack)
    requires used == 1 <==> stack == []
    modifies output
    ensures ok <==> |Render(stack + [c])| < output.Length
    ensures ok ==> used' == |Render(stack + [c])| && output[..used'] == Render(stack + [c]) && output[used'] == '\0'
  {
    hide Render;
    RenderPush(stack, c);
    used' := used;
    if used' > 1 {
      if used' + 1 >= output.Length { return false, used'; }
      output[used'] := '/';
      used' := used' + 1;
      assert output[..used'] == Render(stack) + "/";
    }
    if used' + |c| >= output.Length { return false, used'; }
    CopyName(output, used', c);
    used' := used' + |c|;
    ok := true;
  }

  function Code(r: Outcome): int {
    match r
    case Ok(_) => 0
    case EINVAL => -22
    case ENAMETOOLONG => -63
  }

  method SkipRun(p: string, i: nat) returns (j: nat)
    requires i <= |p|
    ensures j == SkipSlashes(p, i)
  {
    j := i;
    while j < |p| && p[j] == '/'
      invariant i <= j <= |p| && SkipSlashes(p, j) == SkipSlashes(p, i)
    {
      j := j + 1;
    }
  }

  method EndOfName(p: string, i: nat) returns (e: nat)
    requires i <= |p|
    ensures e == ComponentEnd(p, i)
  {
    e := i;
    while e < |p| && p[e] != '/'
      invariant i <= e <= |p| && ComponentEnd(p, e) == ComponentEnd(p, i)
    {
      e := e + 1;
    }
  }

  /** What the loop of the normaliser knows at each component. */
  ghost predicate Building(output: seq<char>, starts: seq<nat>, depth: nat, used: nat, stack: seq<string>) {
    && depth == |stack| <= MAX_COMPONENTS == |starts| && Canonical(stack)
    && used == |Render(stack)| < |output| && output[..used] == Render(stack) && output[used] == '\0'
    && Starts(starts, stack)
  }

  /** The branch for "..": the path is cut where the last component began. */
  method PopComponent(output: array<char>, starts: array<nat>, depth: nat, used: nat, ghost stack: seq<string>)
    returns (depth': nat, used': nat)
    requires Building(output[..], starts[..], depth, used, stack)
    modifies output
    ensures Building(output[..], starts[..], depth', used', Step(stack, ".."))
  {
    if depth == 0 { return depth, used; }
    hide Render;
    StartsPop(starts[..], stack);
    RenderPop(stack);
    depth' := depth - 1;
    used' := starts[depth'];
    ghost var before := output[..used];
    output[used'] := '\0';
    assert output[..used'] == before[..used'];
  }

  method PushComponent(output: array<char>, starts: array<nat>, depth: nat, used: nat, c: string,
                       ghost stack: seq<string>)
    returns (ok: bool, depth': nat, used': nat)
    requires Building(output[..], starts[..], depth, used, stack) && Name(c)
    modifies output, starts
    ensures ok <==> |stack| < MAX_COMPONENTS && |Render(stack + [c])| < output.Length
    ensures ok ==> Building(output[..], starts[..], depth', used', stack + [c])
  {
    hide Render;
    if depth == MAX_COMPONENTS { return false, depth, used; }
    StartsPush(starts[..], stack, c);
    ghost var before := starts[..];
    starts[depth] := used;
    assert starts[..] == before[depth := used];
    depth' := depth + 1;
    RootLength(stack);
    ok, used' := AppendComponent(output, used, c, stack);
  }

  lemma RootLength(stack: seq<string>)
    requires Canonical(stack)
    ensures |Render(stack)| == 1 <==> stack == []
  {
    RenderLength(stack);
  }

  lemma OneComponent(p: string, i: nat)
    requires i <= |p|
    ensures var j := SkipSlashes(p, i);
      if j == |p| then Components(p, i) == []
      else Components(p, i) == [p[j..ComponentEnd(p, j)]] + Components(p, ComponentEnd(p, j)) &&
           Piece(p[j..ComponentEnd(p, j)])
  {
    ComponentsArePieces(p, i);
  }

  lemma OneStep(stack: seq<string>, c: string, rest: seq<string>, size: nat)
    ensures BoundedFold(stack, [c] + rest, size) ==
            var next := Step(stack, c);
            if |next| > |stack| && (|stack| >= MAX_COMPONENTS || |Render(next)| >= size) then ENAMETOOLONG
            else BoundedFold(next, rest, size)
  {
    assert ([c] + rest)[1..] == rest;
  }

  /** cb_test_path_normalize */
  method NormalizePath(cwd: string, path: string, output: array<char>) returns (code: int)
    modifies output
    ensures var r := Normalize(cwd, path, output.Length);
      && code == Code(r)
      && (r.Ok? ==> && |Render(r.stack)| < output.Length
                    && output[..|Render(r.stack)|] == Render(r.stack) && output[|Render(r.stack)|] == '\0')
  {
    hide BoundedFold, Render, Starts, Components, Building, SkipSlashes, ComponentEnd;
    var size := output.Length;
    if size < 2 || |cwd| == 0 || cwd[0] != '/' { return -22; }
    var input := if |path| > 0 && path[0] == '/' then path else cwd + (if cwd == "/" then "" else "/") + path;
    if |input| >= INPUT_SIZE { return -63; }
    var starts := new nat[MAX_COMPONENTS];
    var depth, used, cursor := 0, 1, 0;
    output[0], output[1] := '/', '\0';
    ghost var stack: seq<string> := [];
    EmptyStack(output[..], starts[..]);
    while cursor < |input|
      invariant cursor <= |input|
      invariant Building(output[..], starts[..], depth, used, stack)
      invariant BoundedFold(stack, Components(input, cursor), size) == BoundedFold([], Components(input, 0), size)
      decreases |input| - cursor
    {
      OneComponent(input, cursor);
      var start := SkipRun(input, cursor);
      if start == |input| {
        break;
      }
      cursor := EndOfName(input, start);
      var name := input[start..cursor];
      OneStep(stack, name, Components(input, cursor), size);
      if |name| == 1 && name[0] == '.' {
        continue;
      }
      if |name| == 2 && name[0] == '.' && name[1] == '.' {
        depth, used := PopComponent(output, starts, depth, used, stack);
        stack := Step(stack, "..");
        continue;
      }
      var ok;
      ok, depth, used := PushComponent(output, starts, depth, used, name, stack);
      if !ok { return -63; }
      stack := stack + [name];
    }
    OneComponent(input, cursor);
    FoldOfNothing(stack, size);
    BuiltText(output[..], starts[..], depth, used, stack);
    code := 0;
  }

  lemma BuiltText(output: seq<char>, starts: seq<nat>, depth: nat, used: nat, stack: seq<string>)
    requires Building(output, starts, depth, used, stack)
    ensures |Render(stack)| < |output| && output[..|Render(stack)|] == Render(stack) && output[|Render(stack)|] == '\0'
  {
    hide Render;
  }

  lemma EmptyStack(output: seq<char>, starts: seq<nat>)
    requires |output| >= 2 && |starts| == MAX_COMPONENTS && output[0] == '/' && output[1] == '\0'
    ensures Building(output, starts, 0, 1, [])
  {
  }

  lemma FoldOfNothing(stack: seq<string>, size: nat)
    ensures BoundedFold(stack, [], size) == Ok(stack)
  {
  }

  // ----- dirname and basename -------------------------------------------------------------

  ghost predicate AllSlashes(p: string, i: nat, j: nat)
    requires i <= j <= |p|
  {
    forall k :: i <= k < j ==> p[k] == '/'
  }

  ghost predicate NoSlashes(p: string, i: nat, j: nat)
    requires i <= j <= |p|
  {
    forall k :: i <= k < j ==> p[k] != '/'
  }

  lemma OnlySlashes(p: string, i: nat)
    requires i <= |p| && AllSlashes(p, i, |p|)
    ensures Components(p, i) == []
  {
  }

  lemma LastName(p: string, k: nat, b: nat)
    requires k <= b < |p| && AllSlashes(p, k, b) && NoSlashes(p, b, |p|)
    ensures Components(p, k) == [p[b..]]
  {
    var j := SkipSlashes(p, k);
    assert p[b] != '/';
    assert j < |p| ==> p[j] != '/';
    assert j == b;
    assert ComponentEnd(p, b) == |p|;
    OnlySlashes(p, |p|);
    assert p[b..|p|] == p[b..];
  }

  /** Trailing slashes say nothing. */
  lemma StripTrailing(p: string, n: nat)
    requires n <= |p| && AllSlashes(p, n, |p|)
    ensures Components(p, 0) == Components(p[..n], 0)
  {
    OnlySlashes(p, n);
    ComponentsSplit(p, n, 0);
  }

  /** A path cut around its last name: what is before the slashes, and the name. */
  lemma CutLastName(p: string, m: nat, k: nat, b: nat, n: nat)
    requires m <= k <= b < n <= |p|
    requires AllSlashes(p, m, b) && NoSlashes(p, b, n) && AllSlashes(p, n, |p|) && (k == b ==> b == 0)
    ensures Components(p, 0) == Components(p[..m], 0) + [p[b..n]]
  {
    hide Components;
    StripTrailing(p, n);
    var q := p[..n];
    LastName(q, k, b);
    assert q[b..] == p[b..n];
    if k < b {
      ComponentsSplit(q, k, 0);
      assert q[..k] == p[..k];
      StripTrailing(p[..k], m);
      assert p[..k][..m] == p[..m];
    } else {
      EmptyPath();
      assert p[..m] == "";
    }
  }

  function AllButLast(cs: seq<string>): seq<string> {
    if cs == [] then [] else cs[..|cs| - 1]
  }

  /** xdirname_r, before the copy into the caller's buffer */
  method Dirname(path: string) returns (dir: string)
    ensures var cs := Components(path, 0);
      if path == "" then dir == "."
      else if |cs| <= 1 then dir == if path[0] == '/' || cs == [] then "/" else "."
      else dir != "" && dir <= path && Components(dir, 0) == AllButLast(cs)
  {
    hide Components, NoSlashes, AllSlashes;
    if |path| == 0 { return "."; }
    var endp := LastNonSlash(path);
    ghost var n := endp + 1;
    if path[endp] == '/' {
      OnlySlashes(path, 0);
      return "/";
    }
    endp := BackOverName(path, endp);
    EmptyPath();
    assert path[..0] == "";
    if endp == 0 {
      ghost var b := if path[0] == '/' then 1 else 0;
      FewSlashes(path, b);
      CutLastName(path, 0, 0, b, n);
      return if path[0] == '/' then "/" else ".";
    }
    ghost var b := endp + 1;
    endp := BackOverSlashes(path, endp);
    dir := path[..endp + 1];
    if path[endp] == '/' {
      CutLastName(path, 0, b - 1, b, n);
      assert dir == "/";
    } else {
      CutLastName(path, endp + 1, b - 1, b, n);
      NonEmptyName(path, endp + 1, endp);
    }
  }

  lemma FewSlashes(p: string, b: nat)
    requires b == 0 || (b == 1 && p != "" && p[0] == '/')
    ensures AllSlashes(p, 0, b)
  {
  }

  /** From the last character of a name back to the slash before it, or to the start */
  method BackOverName(path: string, last: nat) returns (endp: nat)
    requires last < |path| && path[last] != '/'
    ensures endp <= last && NoSlashes(path, endp + 1, last + 1)
    ensures if path[endp] == '/' then endp < last else endp == 0 && NoSlashes(path, 0, last + 1)
  {
    endp := last;
    while endp > 0 && path[endp] != '/'
      invariant 0 <= endp <= last && NoSlashes(path, endp + 1, last + 1)
      invariant endp == last ==> path[endp] != '/'
    {
      endp := endp - 1;
    }
  }

  /** From a slash back over the run of slashes it ends */
  method BackOverSlashes(path: string, last: nat) returns (endp: nat)
    requires 0 < last < |path| && path[last] == '/'
    ensures endp < last && AllSlashes(path, endp + 1, last + 1)
    ensures path[endp] == '/' ==> endp == 0 && AllSlashes(path, 0, last + 1)
  {
    endp := last - 1;
    while endp > 0 && path[endp] == '/'
      invariant 0 <= endp < last && AllSlashes(path, endp + 1, last + 1)
    {
      endp := endp - 1;
    }
  }

  lemma EmptyPath()
    ensures Components("", 0) == []
  {
  }

  /** A prefix that holds a character other than a slash has a component. */
  lemma NonEmptyName(path: string, m: nat, i: nat)
    requires i < m <= |path| && path[i] != '/'
    ensures Components(path[..m], 0) != []
  {
    var p := path[..m];
    assert p[i] != '/';
    assert SkipSlashes(p, 0) <= i;
  }

  method LastNonSlash(path: string) returns (endp: nat)
    requires |path| > 0
    ensures endp < |path| && AllSlashes(path, endp + 1, |path|)
    ensures path[endp] == '/' ==> endp == 0
  {
    endp := |path| - 1;
    while endp != 0 && path[endp] == '/'
      invariant endp < |path| && AllSlashes(path, endp + 1, |path|)
    {
      endp := endp - 1;
    }
  }

  /** xbasename_r, before the copy into the caller's buffer */
  method Basename(path: string) returns (base: string)
    ensures var cs := Components(path, 0);
      if path == "" then base == "."
      else if cs == [] then base == "/"
      else base == cs[|cs| - 1]
  {
    hide Components;
    if |path| == 0 { return "."; }
    var endp := LastNonSlash(path);
    if endp == 0 && path[endp] == '/' {
      OnlySlashes(path, 0);
      return "/";
    }
    var startp := endp;
    while startp > 0 && path[startp - 1] != '/'
      invariant 0 <= startp <= endp && NoSlashes(path, startp, endp + 1)
    {
      startp := startp - 1;
    }
    base := path[startp..endp + 1];
    ghost var k := if startp == 0 then 0 else startp - 1;
    CutLastName(path, k, k, startp, endp + 1);
  }

  /** What the contracts of Dirname and Basename say of a path and its two parts. */
  ghost predicate Parts(path: string, dir: string, base: string) {
    var cs := Components(path, 0);
    && (if path == "" then dir == "." && base == "."
        else if cs == [] then dir == "/" && base == "/"
        else base == cs[|cs| - 1] &&
             if |cs| == 1 then dir == if path[0] == '/' then "/" else "."
             else dir != "" && dir <= path && Components(dir, 0) == AllButLast(cs))
  }

  /** The components of dir/base are those of the path, with perhaps some dots before them. */
  lemma PartsComponents(path: string, dir: string, base: string)
    requires Parts(path, dir, base)
    ensures var cs := Components(path, 0);
      var joined := Components(dir + "/" + base, 0);
      joined == cs || joined == ["."] + cs || joined == [".", "."] + cs
    ensures (dir + "/" + base)[0] == '/' <==> path != "" && path[0] == '/'
  {
    hide Components;
    var cs := Components(path, 0);
    ComponentsJoin(dir, base);
    ComponentsOfPiece(".");
    assert AllSlashes("/", 0, 1);
    OnlySlashes("/", 0);
    EmptyPath();
    if path != "" && cs != [] {
      ComponentsArePieces(path, 0);
      ComponentsOfPiece(base);
      assert cs == AllButLast(cs) + [base];
      if |cs| == 1 {
        assert AllButLast(cs) == [];
      }
    } else if path != "" {
      NoComponents(path);
    }
  }

  lemma NoComponents(path: string)
    requires path != "" && Components(path, 0) == []
    ensures path[0] == '/'
  {
  }

  lemma DotsFold(stack: seq<string>, cs: seq<string>, size: nat)
    ensures BoundedFold(stack, ["."] + cs, size) == BoundedFold(stack, cs, size)
    ensures BoundedFold(stack, [".", "."] + cs, size) == BoundedFold(stack, cs, size)
  {
    OneStep(stack, ".", cs, size);
    assert [".", "."] + cs == ["."] + (["."] + cs);
    OneStep(stack, ".", ["."] + cs, size);
  }

  /** dirname(p)/basename(p) normalises as p does, wherever neither overflows the input buffer. */
  lemma PartsNormalizeAlike(cwd: string, path: string, dir: string, base: string, size: nat)
    requires Parts(path, dir, base)
    requires |Input(cwd, path)| < INPUT_SIZE && |Input(cwd, dir + "/" + base)| < INPUT_SIZE
    ensures Normalize(cwd, dir + "/" + base, size) == Normalize(cwd, path, size)
  {
    hide Components, Input, BoundedFold;
    var joined := dir + "/" + base;
    PartsComponents(path, dir, base);
    ComponentsOfInput(cwd, path);
    ComponentsOfInput(cwd, joined);
    var prefix := if path != "" && path[0] == '/' then [] else Components(cwd, 0);
    var cs := Components(path, 0);
    BoundedFoldAppend([], prefix, cs, size);
    BoundedFoldAppend([], prefix, Components(joined, 0), size);
    var r := BoundedFold([], prefix, size);
    if r.Ok? {
      DotsFold(r.stack, cs, size);
    }
  }

  /** dirname and basename of one path: put together again they normalise as the path does. */
  method SplitPath(path: string) returns (dir: string, base: string)
    ensures Parts(path, dir, base)
    ensures forall cwd, size: nat ::
              |Input(cwd, path)| < INPUT_SIZE && |Input(cwd, dir + "/" + base)| < INPUT_SIZE ==>
                Normalize(cwd, dir + "/" + base, size) == Normalize(cwd, path, size)
  {
    hide Components, Normalize, Input;
    dir := Dirname(path);
    base := Basename(path);
    forall cwd, size: nat | |Input(cwd, path)| < INPUT_SIZE && |Input(cwd, dir + "/" + base)| < INPUT_SIZE
      ensures Normalize(cwd, dir + "/" + base, size) == Normalize(cwd, path, size)
    {
      PartsNormalizeAlike(cwd, path, dir, base, size);
    }
  }

  // ----- Paths that a tree walk builds ------------------------------------------------

  lemma InputChild(cwd: string, path: string, name: string)
    requires path != ""
    ensures Input(cwd, path + "/" + name) == Input(cwd, path) + "/" + name
    ensures |Input(cwd, path)| <= |cwd| + 1 + |path|
  {
    assert (path + "/" + name)[0] == path[0];
  }

  /** A path and a name put behind it name the component pushed on the path's stack. */
  lemma NormalizeChild(cwd: string, path: string, name: string)
    requires Normalize(cwd, path, PATH_MAX).Ok? && path != "" && Name(name)
    requires |cwd| < PATH_MAX && |path + "/" + name| < PATH_MAX
    requires |Render(Normalize(cwd, path, PATH_MAX).stack + [name])| < PATH_MAX
    ensures Normalize(cwd, path + "/" + name, PATH_MAX) == Ok(Normalize(cwd, path, PATH_MAX).stack + [name])
  {
    hide Components, BoundedFold, Render, SkipSlashes, ComponentEnd, Input;
    NormalizeIsFold(cwd, path, PATH_MAX);
    var stack := Normalize(cwd, path, PATH_MAX).stack;
    var text := Input(cwd, path);
    InputChild(cwd, path, name);
    ComponentsJoin(text, name);
    ComponentsOfPiece(name);
    BoundedFoldAppend([], Components(text, 0), [name], PATH_MAX);
    ComponentTableSuffices(stack + [name]);
    CanonicalFolds(stack, [name], PATH_MAX);
  }

  /** Where both normalise, the stacks differ by the name, whatever their lengths. */
  lemma NormalizeChildIs(cwd: string, path: string, name: string, size: nat)
    requires Normalize(cwd, path, size).Ok? && path != "" && Name(name) && Normalize(cwd, path + "/" + name, size).Ok?
    ensures Normalize(cwd, path + "/" + name, size).stack == Normalize(cwd, path, size).stack + [name]
  {
    hide Components, BoundedFold, Render, SkipSlashes, ComponentEnd, Input;
    var stack := Normalize(cwd, path, size).stack;
    var text := Input(cwd, path);
    InputChild(cwd, path, name);
    ComponentsJoin(text, name);
    ComponentsOfPiece(name);
    BoundedFoldAppend([], Components(text, 0), [name], size);
    assert [name] == [name] + [];
    OneStep(stack, name, [], size);
    FoldOfNothing(stack + [name], size);
  }

  /** With the empty path as its start a walk names its entries from the root instead, whatever the directory. */
  lemma EmptyStartIsRoot(cwd: seq<string>, name: string)
    requires Canonical(cwd) && |Render(cwd)| < PATH_MAX && Name(name) && |name| + 1 < PATH_MAX
    ensures Normalize(Render(cwd), "", PATH_MAX) == Ok(cwd)
    ensures Normalize(Render(cwd), "" + "/" + name, PATH_MAX) == Ok([name])
    ensures Normalize(Render(cwd), "" + "/" + name, PATH_MAX) == Ok(cwd + [name]) <==> cwd == []
  {
    hide Components, BoundedFold, SkipSlashes, ComponentEnd, Render;
    var text := Render(cwd);
    RenderAbsolute(cwd);
    ComponentsOfRender(cwd);
    ComponentTableSuffices(cwd);
    ComponentsOfPiece(name);
    ComponentsJoin("", name);
    ComponentsOfInput(text, "");
    EmptyPath();
    assert cwd + [] == cwd && [] + cwd == cwd && [] + [name] == [name];
    CanonicalFolds([], cwd, PATH_MAX);
    RenderOne(name);
    CanonicalFolds([], [name], PATH_MAX);
    assert "" + "/" + name == "/" + name;
    assert Input(text, "/" + name) == "/" + name;
    assert |cwd + [name]| == |cwd| + 1;
  }

  lemma RenderOne(name: string)
    ensures Render([name]) == "/" + name
  {
  }
}
