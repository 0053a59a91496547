/**
 Resolution and the working directory across mounts: getcwd after chdir gives
 the normalised path back.
 */
module Vfs {
  import opened Common
  import Path
  import opened FsTree
  import opened FsInvariant

  // ----- The walk of cwd_string ----------------------------------------------------

  /** The nodes whose names make the path of n, deepest first; mounted roots count as their mount points. */
  function CwdUp(s: Fs, n: Id, count: nat): Result<seq<Id>>
    decreases Path.MAX_COMPONENTS - count
  {
    if n == s.root then Ok([])
    else if n !in s.nodes || count >= Path.MAX_COMPONENTS then Err(EIO)
    else
      var m := Up(s, n);
      if m == s.root then Ok([])
      else if m !in s.nodes then Err(EIO)
      else
        var r := CwdUp(s, s.nodes[m].parent, count + 1);
        if r.Err? then r else Ok([m] + r.value)
  }

  function NamesUp(nodes: map<Id, Node>, ids: seq<Id>): seq<string> {
    if ids == [] then []
    else NamesUp(nodes, ids[1..]) + [if ids[0] in nodes then nodes[ids[0]].name else ""]
  }

  // ----- chdir, then getcwd ------------------------------------------------------------

  lemma {:induction false} ResolveLast(s: Fs, n: Id, cs: seq<string>, last: string)
    ensures Resolve(s, n, cs + [last]) ==
            var r := Resolve(s, n, cs);
            if r.Err? then r
            else var c := Lookup(s, r.value, last); if c.Err? then c else Ok(Down(s, c.value))
    decreases |cs|
  {
    hide Lookup, Down;
    if cs == [] {
      assert cs + [last] == [last];
      assert [last][1..] == [];
    } else {
      assert (cs + [last])[1..] == cs[1..] + [last];
      var r := Lookup(s, n, cs[0]);
      if r.Ok? {
        ResolveLast(s, Down(s, r.value), cs[1..], last);
      }
    }
  }

  /** Crossing up undoes crossing down. */
  lemma UpDown(s: Fs, c: Id)
    requires Inv(s) && c in s.nodes && s.nodes[c].parent != NULL
    ensures Up(s, Down(s, c)) == c && Down(s, c) in s.nodes && Down(s, c) != s.root && c != s.root
  {
    hide Acyclic, Names, Links, Detached;
    var i := MountAt(s.mounts, c);
    if i < |s.mounts| {
      assert MountOk(s.nodes, s.root, s.mounts[i]);
      var j := MountOf(s.mounts, s.mounts[i].root);
      assert j == i;
    } else {
      var j := MountOf(s.mounts, c);
      if j < |s.mounts| {
        RootsHaveNoParent(s, j);
      }
    }
  }

  lemma RootsHaveNoParent(s: Fs, j: nat)
    requires Inv(s) && j < |s.mounts|
    ensures s.mounts[j].root in s.nodes && s.nodes[s.mounts[j].root].parent == NULL
  {
    hide Acyclic, Names, Links, Detached;
    assert MountOk(s.nodes, s.root, s.mounts[j]);
  }

  /** The upward walk from a resolved node spells the components it was resolved from. */
  lemma {:induction false} CwdOfResolved(s: Fs, cs: seq<string>, count: nat)
    requires Inv(s) && Resolve(s, s.root, cs).Ok? && count + |cs| <= Path.MAX_COMPONENTS
    ensures var r := CwdUp(s, Resolve(s, s.root, cs).value, count); r.Ok? && NamesUp(s.nodes, r.value) == cs
    decreases |cs|
  {
    hide Inv, Lookup, Up, Down, Resolve;
    if cs == [] {
      ResolveNothing(s);
    } else {
      var init, last := cs[..|cs| - 1], cs[|cs| - 1];
      assert cs == init + [last];
      ResolveLast(s, s.root, init, last);
      var d := Resolve(s, s.root, init).value;
      var c := Lookup(s, d, last).value;
      FoundIsChild(s, d, last);
      ParentsAreNodes(s, c);
      UpDown(s, c);
      CwdOfResolved(s, init, count + 1);
      var up := CwdUp(s, d, count + 1).value;
      assert ([c] + up)[1..] == up;
    }
  }

  lemma ResolveNothing(s: Fs)
    ensures Resolve(s, s.root, []) == Ok(s.root)
  {
  }

  /** A node has one path, of any length. */
  lemma {:induction false} OnePath(s: Fs, a: seq<string>, b: seq<string>)
    requires Inv(s) && Resolve(s, s.root, a).Ok? && Resolve(s, s.root, b) == Resolve(s, s.root, a)
    ensures a == b
    decreases |a|
  {
    hide Inv, Lookup, Up, Down, Resolve;
    ResolveNothing(s);
    if a != [] {
      var d, c := LastLookup(s, a);
    }
    if b != [] {
      var d, c := LastLookup(s, b);
    }
    if a != [] && b != [] {
      OnePath(s, a[..|a| - 1], b[..|b| - 1]);
    }
  }

  /** The last step of a resolution: a child of what the rest leads to, found again by crossing up. */
  lemma LastLookup(s: Fs, cs: seq<string>) returns (d: Id, c: Id)
    requires Inv(s) && cs != [] && Resolve(s, s.root, cs).Ok?
    ensures var m := Resolve(s, s.root, cs).value;
      && Resolve(s, s.root, cs[..|cs| - 1]) == Ok(d) && Lookup(s, d, cs[|cs| - 1]) == Ok(c) && m == Down(s, c)
      && m != s.root && c == Up(s, m)
      && c in s.nodes && s.nodes[c].parent == d && s.nodes[c].name == cs[|cs| - 1]
  {
    hide Inv, Lookup, Up, Down, Resolve;
    var init, last := cs[..|cs| - 1], cs[|cs| - 1];
    assert cs == init + [last];
    ResolveLast(s, s.root, init, last);
    d := Resolve(s, s.root, init).value;
    c := Lookup(s, d, last).value;
    FoundIsChild(s, d, last);
    ParentsAreNodes(s, c);
    UpDown(s, c);
  }

  /** cwd_string of a task whose directory is n, into a buffer of the given size */
  function Getcwd(s: Fs, n: Id, size: nat): Result<string> {
    var r := CwdUp(s, n, 0);
    if r.Err? then Err(r.error)
    else if size < 2 || |Path.Render(NamesUp(s.nodes, r.value))| + 1 > size then Err(ENAMETOOLONG)
    else Ok(Path.Render(NamesUp(s.nodes, r.value)))
  }

  function Chdir(s: Fs, cs: seq<string>): Result<Id> {
    var r := Resolve(s, s.root, cs);
    if r.Err? then r
    else if r.value in s.nodes && !s.nodes[r.value].kind.Directory? then Err(ENOTDIR)
    else r
  }

  /** getcwd right after chdir(p) is p, normalised, whatever mounts lie on the way. */
  lemma GetcwdAfterChdir(s: Fs, cwd: string, path: string)
    requires Inv(s) && Path.Normalize(cwd, path, Path.PATH_MAX).Ok?
    requires Chdir(s, Path.Normalize(cwd, path, Path.PATH_MAX).stack).Ok?
    ensures var cs := Path.Normalize(cwd, path, Path.PATH_MAX).stack;
      Getcwd(s, Chdir(s, cs).value, Path.PATH_MAX) == Ok(Path.Render(cs))
  {
    hide Inv, Resolve, CwdUp, Path.Normalize, Path.Render, NamesUp;
    Path.NormalizeIsFold(cwd, path, Path.PATH_MAX);
    var cs := Path.Normalize(cwd, path, Path.PATH_MAX).stack;
    CwdOfResolved(s, cs, 0);
  }

  // ----- The loops -------------------------------------------------------------------

  /** resolve_normalized, over the text of a path */
  method ResolveText(s: Fs, text: string) returns (r: Result<Id>)
    ensures r == Resolve(s, s.root, Path.Components(text, 0))
  {
    var node := s.root;
    var cursor := Path.SkipRun(text, 0);
    Path.OneComponent(text, 0);
    while cursor < |text|
      invariant cursor <= |text| && (cursor < |text| ==> text[cursor] != '/')
      invariant Resolve(s, node, Path.Components(text, cursor)) == Resolve(s, s.root, Path.Components(text, 0))
      decreases |text| - cursor
    {
      hide Lookup, Down;
      var start := cursor;
      assert Path.SkipSlashes(text, start) == start;
      cursor := Path.EndOfName(text, start);
      Path.OneComponent(text, start);
      Path.OneComponent(text, cursor);
      ghost var rest := Path.Components(text, cursor);
      assert ([text[start..cursor]] + rest)[1..] == rest;
      var next := Lookup(s, node, text[start..cursor]);
      if next.Err? {
        return next;
      }
      node := Down(s, next.value);
      var after := Path.SkipRun(text, cursor);
      SkipKeeps(text, cursor);
      cursor := after;
    }
    Path.OneComponent(text, cursor);
    r := Ok(node);
  }

  lemma SkipKeeps(text: string, i: nat)
    requires i <= |text|
    ensures Path.Components(text, Path.SkipSlashes(text, i)) == Path.Components(text, i)
  {
    var j := Path.SkipSlashes(text, i);
    assert Path.SkipSlashes(text, j) == j;
  }

  /** The first loop of cwd_string, with its fixed table of parts */
  method CollectParts(s: Fs, n: Id) returns (r: Result<seq<Id>>)
    ensures r == CwdUp(s, n, 0)
  {
    var node, parts := n, [];
    assert CwdUp(s, n, 0).Ok? ==> [] + CwdUp(s, n, 0).value == CwdUp(s, n, 0).value;
    while node != s.root
      invariant |parts| <= Path.MAX_COMPONENTS
      invariant CwdUp(s, n, 0) ==
                var rest := CwdUp(s, node, |parts|); if rest.Err? then rest else Ok(parts + rest.value)
      decreases Path.MAX_COMPONENTS - |parts|
    {
      hide Up;
      if node !in s.nodes || |parts| == Path.MAX_COMPONENTS {
        return Err(EIO);
      }
      node := Up(s, node);
      if node == s.root {
        assert parts + [] == parts;
        return Ok(parts);
      }
      if node !in s.nodes {
        return Err(EIO);
      }
      ghost var rest := CwdUp(s, s.nodes[node].parent, |parts| + 1);
      assert rest.Ok? ==> parts + ([node] + rest.value) == (parts + [node]) + rest.value;
      parts := parts + [node];
      node := s.nodes[node].parent;
    }
    assert parts + [] == parts;
    r := Ok(parts);
  }

  /** The second loop of cwd_string: names from the outermost part inwards, each checked against the buffer */
  method RenderParts(s: Fs, parts: seq<Id>, size: nat) returns (r: Result<string>)
    requires forall i :: 0 <= i < |parts| ==> parts[i] in s.nodes
    ensures var text := Path.Render(NamesUp(s.nodes, parts));
      r == if size < 2 || |text| + 1 > size then Err(ENAMETOOLONG) else Ok(text)
  {
    hide Path.Render;
    EmptyRender();
    if size < 2 { return Err(ENAMETOOLONG); }
    var text := "/";
    var index := |parts|;
    ghost var names: seq<string> := [];
    assert parts[|parts|..] == [];
    while index > 0
      invariant 0 <= index <= |parts|
      invariant names == NamesUp(s.nodes, parts[index..]) && (names == [] <==> index == |parts|)
      invariant text == Path.Render(names) + (if index > 0 && names != [] then "/" else "")
      invariant |text| + 1 <= size
    {
      var name := s.nodes[parts[index - 1]].name;
      Path.RenderPush(names, name);
      assert parts[index - 1..][1..] == parts[index..];
      assert NamesUp(s.nodes, parts[index - 1..]) == names + [name];
      NamesGrow(s, parts, index - 1);
      if |text| + |name| + (if index > 1 then 1 else 0) + 1 > size {
        return Err(ENAMETOOLONG);
      }
      text := text + name;
      if index > 1 {
        text := text + "/";
      }
      names := names + [name];
      index := index - 1;
    }
    assert parts[0..] == parts;
    assert text == Path.Render(names);
    r := Ok(text);
  }

  lemma EmptyRender()
    ensures Path.Render([]) == "/"
  {
  }

  /** The whole path is at least as long as the part built so far and, before its end, a slash more. */
  lemma {:induction false} NamesGrow(s: Fs, parts: seq<Id>, k: nat)
    requires k <= |parts|
    ensures var whole, part := Path.Render(NamesUp(s.nodes, parts)), Path.Render(NamesUp(s.nodes, parts[k..]));
      |whole| >= |part| + (if k > 0 && k < |parts| then 1 else 0)
    decreases k
  {
    hide Path.Render;
    if k == 0 {
      assert parts[0..] == parts;
    } else {
      NamesGrow(s, parts, k - 1);
      assert parts[k - 1..][1..] == parts[k..];
      var names := NamesUp(s.nodes, parts[k..]);
      NamesCount(s.nodes, parts[k..]);
      Path.RenderPush(names, if parts[k - 1] in s.nodes then s.nodes[parts[k - 1]].name else "");
    }
  }

  lemma {:induction false} NamesCount(nodes: map<Id, Node>, ids: seq<Id>)
    ensures |NamesUp(nodes, ids)| == |ids|
  {
    if ids != [] { NamesCount(nodes, ids[1..]); }
  }
}
