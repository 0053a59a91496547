/**
 Laws of path normalisation that speak of texts only: what a dot, two dots, a
 name and a slash behind a path do to its result, and how a relative path goes
 with its directory. With them the result of every path follows from the root's.
 */
module PathLaws {
  import opened Common
  import opened Path

  /** The directory and the size of the buffer are acceptable. */
  predicate Proper(cwd: string, size: nat) {
    size >= 2 && cwd != "" && cwd[0] == '/'
  }

  /** The text fits the input buffer. */
  predicate Fits(cwd: string, path: string) {
    |Input(cwd, path)| < 2048
  }

  // ----- Where normalisation starts ---------------------------------------------------

  /** An unusable directory or buffer is refused, whatever the path. */
  lemma Refused(cwd: string, path: string, size: nat)
    ensures Normalize(cwd, path, size) == EINVAL <==> !Proper(cwd, size)
  {
    hide Components;
    if Proper(cwd, size) {
      NeverInvalid([], Components(Input(cwd, path), 0), size);
    }
  }

  lemma {:induction false} NeverInvalid(stack: seq<string>, cs: seq<string>, size: nat)
    ensures BoundedFold(stack, cs, size) != EINVAL
    decreases |cs|
  {
    if cs != [] {
      NeverInvalid(Step(stack, cs[0]), cs[1..], size);
    }
  }

  /** A path that starts with a slash is taken as it is; a run of slashes alone is the root. */
  lemma AbsoluteIgnoresCwd(cwd: string, other: string, path: string, size: nat)
    requires Proper(cwd, size) && Proper(other, size) && path != "" && path[0] == '/'
    ensures Normalize(cwd, path, size) == Normalize(other, path, size)
    ensures |path| < 2048 && AllSlashes(path, 0, |path|) ==> Normalize(cwd, path, size) == Ok([])
  {
    hide Components;
    if AllSlashes(path, 0, |path|) {
      OnlySlashes(path, 0);
      FoldOfNothing([], size);
    }
  }

  /** A relative path is taken behind the directory and a slash; the empty one names the directory. */
  lemma RelativeGoesBehind(cwd: string, path: string, size: nat)
    requires Proper(cwd, size) && (path == "" || path[0] != '/') && |cwd| + 1 + |path| < 2048
    ensures Normalize(cwd, path, size) == Normalize("/", cwd + "/" + path, size)
    ensures path == "" ==> Normalize(cwd, path, size) == Normalize("/", cwd, size)
  {
    hide Components, BoundedFold;
    ComponentsOfInput(cwd, path);
    ComponentsJoin(cwd, path);
    assert (cwd + "/" + path)[0] == '/';
    EmptyPath();
    assert Components(cwd, 0) + [] == Components(cwd, 0);
  }

  // ----- What stands behind a path ----------------------------------------------------

  /** The outcome of a path with one more piece behind it, from the outcome without. */
  lemma OneMorePiece(cwd: string, path: string, c: string, size: nat)
    requires Proper(cwd, size) && path != "" && Piece(c) && Fits(cwd, path + "/" + c)
    ensures Fits(cwd, path)
    ensures var r := Normalize(cwd, path, size);
      Normalize(cwd, path + "/" + c, size) == if r.Ok? then BoundedFold(r.stack, [c], size) else r
  {
    hide Components, BoundedFold, Input;
    var text := Input(cwd, path);
    InputChild(cwd, path, c);
    ComponentsJoin(text, c);
    ComponentsOfPiece(c);
    BoundedFoldAppend([], Components(text, 0), [c], size);
  }

  lemma OnePiece(stack: seq<string>, c: string, size: nat)
    ensures BoundedFold(stack, [c], size) ==
            var next := Step(stack, c);
            if |next| > |stack| && (|stack| >= MAX_COMPONENTS || |Render(next)| >= size) then ENAMETOOLONG else Ok(next)
  {
    assert [c] + [] == [c];
    OneStep(stack, c, [], size);
    FoldOfNothing(Step(stack, c), size);
  }

  /** A dot says nothing. */
  lemma DotSaysNothing(cwd: string, path: string, size: nat)
    requires Proper(cwd, size) && path != "" && Fits(cwd, path + "/.")
    ensures Normalize(cwd, path + "/.", size) == Normalize(cwd, path, size)
  {
    hide Render;
    assert path + "/" + "." == path + "/.";
    OneMorePiece(cwd, path, ".", size);
    if Normalize(cwd, path, size).Ok? {
      OnePiece(Normalize(cwd, path, size).stack, ".", size);
    }
  }

  /** Two dots take off the last name; at the root they say nothing. */
  lemma TwoDotsGoUp(cwd: string, path: string, size: nat)
    requires Proper(cwd, size) && path != "" && Fits(cwd, path + "/..")
    ensures var r := Normalize(cwd, path, size);
      Normalize(cwd, path + "/..", size) ==
      if !r.Ok? then r else if r.stack == [] then Ok([]) else Ok(r.stack[..|r.stack| - 1])
  {
    hide Render;
    assert path + "/" + ".." == path + "/..";
    OneMorePiece(cwd, path, "..", size);
    if Normalize(cwd, path, size).Ok? {
      OnePiece(Normalize(cwd, path, size).stack, "..", size);
    }
  }

  /** A name is put behind, exactly when the longer path still fits the output and the component table. */
  lemma NameGoesDown(cwd: string, path: string, name: string, size: nat)
    requires Proper(cwd, size) && path != "" && Name(name) && Fits(cwd, path + "/" + name)
    ensures var r := Normalize(cwd, path, size);
      Normalize(cwd, path + "/" + name, size) ==
      if !r.Ok? then r
      else if |r.stack| < 512 && |Render(r.stack + [name])| < size then Ok(r.stack + [name])
      else ENAMETOOLONG
  {
    hide Render;
    OneMorePiece(cwd, path, name, size);
    if Normalize(cwd, path, size).Ok? {
      OnePiece(Normalize(cwd, path, size).stack, name, size);
    }
  }

  /** Down into a name and up again is where one was, provided that the way down fits. */
  lemma DownAndUp(cwd: string, path: string, name: string, size: nat)
    requires Proper(cwd, size) && path != "" && Name(name) && Fits(cwd, path + "/" + name + "/..")
    ensures Normalize(cwd, path + "/" + name + "/..", size) ==
            if Normalize(cwd, path + "/" + name, size).Ok? then Normalize(cwd, path, size)
            else Normalize(cwd, path + "/" + name, size)
  {
    hide Render, Normalize;
    InputChild(cwd, path + "/" + name, "..");
    assert path + "/" + name + "/" + ".." == path + "/" + name + "/..";
    InputChild(cwd, path, name);
    TwoDotsGoUp(cwd, path + "/" + name, size);
    NameGoesDown(cwd, path, name, size);
    var r := Normalize(cwd, path, size);
    if r.Ok? {
      assert (r.stack + [name])[..|r.stack|] == r.stack;
    }
  }

  /** More slashes than one say what one says, and at the end they say nothing. */
  lemma SlashesSayNothing(cwd: string, path: string, rest: string, size: nat)
    requires Proper(cwd, size) && path != "" && Fits(cwd, path + "//" + rest)
    ensures Normalize(cwd, path + "//" + rest, size) == Normalize(cwd, path + "/" + rest, size)
    ensures Normalize(cwd, path + "/", size) == Normalize(cwd, path, size)
  {
    hide Components, BoundedFold, Input;
    var text := Input(cwd, path);
    assert path + "/" + ("/" + rest) == path + "//" + rest;
    assert path + "/" + "" == path + "/" && "" + "/" + rest == "/" + rest;
    InputChild(cwd, path, "/" + rest);
    InputChild(cwd, path, rest);
    InputChild(cwd, path, "");
    ComponentsJoin(text, "/" + rest);
    ComponentsJoin("", rest);
    ComponentsJoin(text, rest);
    ComponentsJoin(text, "");
    EmptyPath();
    assert [] + Components(rest, 0) == Components(rest, 0) && Components(text, 0) + [] == Components(text, 0);
  }

  // ----- The text of a result -----------------------------------------------------------

  /** The result is written as a slash and the names with single slashes between them. */
  lemma TextOfResult(stack: seq<string>, name: string)
    ensures Render([]) == "/" && Render([name]) == "/" + name
    ensures stack != [] ==> Render(stack + [name]) == Render(stack) + "/" + name
  {
    hide Render;
    RenderOne(name);
    RenderPush(stack, name);
    RenderNone();
    if stack != [] {
      assert Render(stack) + "/" + name == Render(stack) + (if stack == [] then "" else "/") + name;
    }
  }

  lemma RenderNone()
    ensures Render([]) == "/"
  {
  }

  /** Up from a directory: the path ".." names its parent, the root is its own. */
  lemma CdUp(cwd: seq<string>, size: nat)
    requires Canonical(cwd) && 2 <= size <= 1024 && |Render(cwd)| < size
    ensures Normalize(Render(cwd), "..", size) == Ok(if cwd == [] then [] else cwd[..|cwd| - 1])
  {
    hide Render, BoundedFold, Components;
    var text := Render(cwd);
    RenderAbsolute(cwd);
    RelativeGoesBehind(text, "..", size);
    assert text + "/" + ".." == text + "/..";
    assert Input("/", text + "/..") == text + "/..";
    TwoDotsGoUp("/", text, size);
    ComponentsOfRender(cwd);
    ComponentTableSuffices(cwd);
    assert [] + cwd == cwd;
    CanonicalFolds([], cwd, size);
  }
}
