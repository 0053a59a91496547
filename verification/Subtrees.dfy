/**
 Subtrees as values, and what is left of a file system when a set of nodes has
 been removed.
 */
module Subtrees {
  import opened Common
  import Path
  import opened FsTree
  import opened FsInvariant
  import opened Directories
  import Vfs

  /** A list of sibling trees, in list order */
  datatype Forest =
    | Nil
    | File(id: Id, name: string, rest: Forest)
    | Dir(id: Id, name: string, kids: Forest, rest: Forest)

  function Heads(f: Forest): seq<Id> {
    match f
    case Nil => []
    case File(id, _, rest) => [id] + Heads(rest)
    case Dir(id, _, _, rest) => [id] + Heads(rest)
  }

  function Ids(f: Forest): set<Id> {
    match f
    case Nil => {}
    case File(id, _, rest) => {id} + Ids(rest)
    case Dir(id, _, kids, rest) => {id} + Ids(kids) + Ids(rest)
  }

  /** The longest chain of directories */
  function Nesting(f: Forest): nat {
    match f
    case Nil => 0
    case File(_, _, rest) => Nesting(rest)
    case Dir(_, _, kids, rest) => Max(1 + Nesting(kids), Nesting(rest))
  }

  function Max(a: nat, b: nat): nat {
    if a < b then b else a
  }

  /** f is what the state holds below some directory. */
  ghost predicate Match(nodes: map<Id, Node>, kids: map<Id, seq<Id>>, f: Forest) {
    match f
    case Nil => true
    case File(id, name, rest) =>
      id in nodes && nodes[id].name == name && !nodes[id].kind.Directory? && Match(nodes, kids, rest)
    case Dir(id, name, below, rest) =>
      && id in nodes && nodes[id].name == name && nodes[id].kind.Directory?
      && id in kids && kids[id] == Heads(below)
      && Match(nodes, kids, below) && Match(nodes, kids, rest)
  }

  /** No node occurs twice. */
  ghost predicate Proper(f: Forest) {
    match f
    case Nil => true
    case File(id, _, rest) => id !in Ids(rest) && Proper(rest)
    case Dir(id, _, kids, rest) =>
      id !in Ids(kids) && id !in Ids(rest) && Ids(kids) !! Ids(rest) && Proper(kids) && Proper(rest)
  }

  lemma {:induction false} HeadsInIds(f: Forest)
    ensures forall n :: n in Heads(f) ==> n in Ids(f)
  {
    match f {
      case Nil =>
      case File(_, _, rest) => HeadsInIds(rest);
      case Dir(_, _, _, rest) => HeadsInIds(rest);
    }
  }

  // ----- Removing a set of nodes ------------------------------------------------------

  function Filter(l: seq<Id>, R: set<Id>): seq<Id> {
    if l == [] then [] else (if l[0] in R then [] else [l[0]]) + Filter(l[1..], R)
  }

  /** The file system without the nodes R: they lose their parents, and every list loses them. */
  function Erase(s: Fs, R: set<Id>): Fs {
    s.(nodes := map n | n in s.nodes :: if n in R then s.nodes[n].(parent := NULL) else s.nodes[n],
       kids := map d | d in s.kids :: Filter(s.kids[d], R))
  }

  lemma {:induction false} FilterNone(l: seq<Id>, R: set<Id>)
    requires forall n :: n in l ==> n !in R
    ensures Filter(l, R) == l
  {
    if l != [] {
      assert l == [l[0]] + l[1..];
      FilterNone(l[1..], R);
    }
  }

  lemma {:induction false} FilterTwice(l: seq<Id>, Q: set<Id>, R: set<Id>)
    ensures Filter(Filter(l, Q), R) == Filter(l, Q + R)
  {
    if l != [] {
      FilterTwice(l[1..], Q, R);
      if l[0] !in Q {
        var rest := Filter(l[1..], Q);
        assert ([l[0]] + rest)[1..] == rest;
      } else {
        assert Filter(l, Q) == Filter(l[1..], Q);
      }
    }
  }

  lemma {:induction false} FilterAll(l: seq<Id>, R: set<Id>)
    ensures Filter(l, R) == [] <==> forall n :: n in l ==> n in R
    ensures forall n :: n in Filter(l, R) <==> n in l && n !in R
  {
    if l != [] {
      assert l == [l[0]] + l[1..];
      FilterAll(l[1..], R);
    }
  }

  lemma {:induction false} FilterAppend(a: seq<Id>, b: seq<Id>, R: set<Id>)
    ensures Filter(a + b, R) == Filter(a, R) + Filter(b, R)
  {
    if a == [] {
      assert a + b == b;
    } else {
      assert (a + b)[1..] == a[1..] + b;
      FilterAppend(a[1..], b, R);
    }
  }

  lemma {:induction false} FilterOne(l: seq<Id>, n: Id)
    requires Distinct(l)
    ensures Filter(l, {n}) == Without(l, n)
  {
    if l != [] {
      if l[0] == n {
        assert n !in l[1..];
        FilterNone(l[1..], {n});
      } else {
        FilterOne(l[1..], n);
      }
    }
  }

  lemma EraseNone(s: Fs)
    ensures Erase(s, {}) == s
  {
    forall d | d in s.kids ensures Filter(s.kids[d], {}) == s.kids[d] {
      FilterNone(s.kids[d], {});
    }
    assert Erase(s, {}).kids == s.kids;
    assert Erase(s, {}).nodes == s.nodes;
  }

  lemma EraseTwice(s: Fs, Q: set<Id>, R: set<Id>)
    ensures Erase(Erase(s, Q), R) == Erase(s, Q + R)
  {
    hide Filter;
    var a, b := Erase(Erase(s, Q), R), Erase(s, Q + R);
    forall d | d in s.kids ensures Filter(Filter(s.kids[d], Q), R) == Filter(s.kids[d], Q + R) {
      FilterTwice(s.kids[d], Q, R);
    }
    assert a.kids == b.kids;
    assert a.nodes == b.nodes;
  }

  /** Detaching one node is erasing it. */
  lemma DetachIsErase(s: Fs, n: Id)
    requires Inv(s) && n in s.nodes && s.nodes[n].parent in s.kids
    ensures Detach(s, n) == Erase(s, {n})
  {
    hide Acyclic, Names, Mounts, Detached, Filter, Without;
    var a, b := Detach(s, n), Erase(s, {n});
    var d := s.nodes[n].parent;
    forall e | e in s.kids ensures a.kids[e] == Filter(s.kids[e], {n}) {
      EraseInList(s, n, e);
    }
    assert a.kids == b.kids;
    assert a.nodes == b.nodes;
  }

  lemma EraseInList(s: Fs, n: Id, e: Id)
    requires Links(s.nodes, s.kids) && n in s.nodes && e in s.kids
    ensures Filter(s.kids[e], {n}) == if e == s.nodes[n].parent then Without(s.kids[e], n) else s.kids[e]
  {
    FilterOne(s.kids[e], n);
    if e != s.nodes[n].parent {
      FilterNone(s.kids[e], {n});
    }
  }

  /** A subtree that keeps all its nodes stays as it is. */
  lemma {:induction false} MatchErased(s: Fs, f: Forest, R: set<Id>)
    requires Match(s.nodes, s.kids, f) && Ids(f) !! R
    ensures Match(Erase(s, R).nodes, Erase(s, R).kids, f)
  {
    match f {
      case Nil =>
      case File(_, _, rest) => MatchErased(s, rest, R);
      case Dir(id, _, kids, rest) =>
        MatchErased(s, kids, R);
        MatchErased(s, rest, R);
        HeadsInIds(kids);
        FilterNone(s.kids[id], R);
    }
  }

  lemma AheadErased(s: Fs, d: Id, rest: seq<Id>, R: set<Id>)
    requires Ahead(s, d, rest) && forall n :: n in rest ==> n !in R
    ensures Ahead(Erase(s, R), d, rest)
  {
    hide Filter;
    var l := s.kids[d];
    var k := |l| - |rest|;
    assert l == l[..k] + rest;
    FilterAppend(l[..k], rest, R);
    FilterNone(rest, R);
  }

  // ----- Paths that keep their meaning ----------------------------------------------------

  /** The children that resolving cs from n finds, before mounts on them are entered */
  function Trace(s: Fs, n: Id, cs: seq<string>): seq<Id>
    decreases |cs|
  {
    if cs == [] then []
    else
      var r := Lookup(s, n, cs[0]);
      if r.Err? then [] else [r.value] + Trace(s, Down(s, r.value), cs[1..])
  }

  lemma {:induction false} FindErased(s: Fs, l: seq<Id>, name: string, R: set<Id>)
    requires FindChild(s.nodes, l, name) !in R && FindChild(s.nodes, l, name) != NULL
    ensures FindChild(Erase(s, R).nodes, Filter(l, R), name) == FindChild(s.nodes, l, name)
  {
    if l != [] {
      if l[0] in s.nodes && l[0] != NULL && s.nodes[l[0]].name == name {
      } else {
        FindErased(s, l[1..], name, R);
        if l[0] in R {
          assert Filter(l, R) == Filter(l[1..], R);
        } else {
          assert Filter(l, R)[1..] == Filter(l[1..], R);
        }
      }
    }
  }

  lemma LookupErased(s: Fs, d: Id, name: string, R: set<Id>)
    requires Lookup(s, d, name).Ok? && Lookup(s, d, name).value !in R
    ensures Lookup(Erase(s, R), d, name) == Lookup(s, d, name)
  {
    hide FindChild, Filter;
    FindErased(s, s.kids[d], name, R);
  }

  /** A path none of whose nodes is removed leads to the same node. */
  lemma {:induction false} ResolveErased(s: Fs, n: Id, cs: seq<string>, R: set<Id>)
    requires Resolve(s, n, cs).Ok? && forall c :: c in Trace(s, n, cs) ==> c !in R
    ensures Resolve(Erase(s, R), n, cs) == Resolve(s, n, cs)
    ensures Trace(Erase(s, R), n, cs) == Trace(s, n, cs)
    decreases |cs|
  {
    hide Lookup, Erase;
    if cs != [] {
      var c := Lookup(s, n, cs[0]).value;
      assert c == Trace(s, n, cs)[0];
      LookupErased(s, n, cs[0], R);
      EraseKeepsMounts(s, R);
      assert forall x :: x in Trace(s, Down(s, c), cs[1..]) ==> x in Trace(s, n, cs);
      ResolveErased(s, Down(s, c), cs[1..], R);
    }
  }

  lemma EraseKeepsMounts(s: Fs, R: set<Id>)
    ensures Erase(s, R).mounts == s.mounts && Erase(s, R).root == s.root
    ensures forall c :: Down(Erase(s, R), c) == Down(s, c)
    ensures forall c :: Protected(Erase(s, R), c) == Protected(s, c)
    ensures forall c :: Up(Erase(s, R), c) == Up(s, c)
  {
  }

  lemma {:induction false} TraceLast(s: Fs, n: Id, cs: seq<string>, last: string)
    requires Resolve(s, n, cs).Ok? && Lookup(s, Resolve(s, n, cs).value, last).Ok?
    ensures Trace(s, n, cs + [last]) == Trace(s, n, cs) + [Lookup(s, Resolve(s, n, cs).value, last).value]
    decreases |cs|
  {
    hide Lookup, Down;
    if cs == [] {
      assert cs + [last] == [last];
      assert [last][1..] == [];
    } else {
      assert (cs + [last])[1..] == cs[1..] + [last];
      TraceLast(s, Down(s, Lookup(s, n, cs[0]).value), cs[1..], last);
    }
  }

  /** The nodes that name the working directory */
  function CwdChain(s: Fs, cwd: Id): seq<Id> {
    var r := Vfs.CwdUp(s, cwd, 0);
    if r.Err? then [] else r.value
  }

  lemma {:induction false} CwdUpErased(s: Fs, n: Id, count: nat, R: set<Id>)
    requires Vfs.CwdUp(s, n, count).Ok? && forall c :: c in Vfs.CwdUp(s, n, count).value ==> c !in R
    ensures Vfs.CwdUp(Erase(s, R), n, count) == Vfs.CwdUp(s, n, count)
    decreases Path.MAX_COMPONENTS - count
  {
    hide Up, Filter;
    EraseKeepsMounts(s, R);
    var m := Up(s, n);
    if n != s.root && m != s.root {
      var rest := Vfs.CwdUp(s, s.nodes[m].parent, count + 1);
      assert Vfs.CwdUp(s, n, count).value == [m] + rest.value;
      assert m in [m] + rest.value;
      assert forall c :: c in rest.value ==> c in [m] + rest.value;
      CwdUpErased(s, s.nodes[m].parent, count + 1, R);
    }
  }

  lemma {:induction false} NamesErased(s: Fs, ids: seq<Id>, R: set<Id>)
    ensures Vfs.NamesUp(Erase(s, R).nodes, ids) == Vfs.NamesUp(s.nodes, ids)
  {
    hide Filter;
    if ids != [] {
      NamesErased(s, ids[1..], R);
    }
  }

  /** normalize_for_task: the working directory is spelt out anew at every call. */
  function Spelt(s: Fs, cwd: Id, text: string): Result<seq<string>> {
    var c := Vfs.Getcwd(s, cwd, Path.PATH_MAX);
    if c.Err? then Err(c.error)
    else
      match Path.Normalize(c.value, text, Path.PATH_MAX)
      case Ok(stack) => Ok(stack)
      case EINVAL => Err(EINVAL)
      case ENAMETOOLONG => Err(ENAMETOOLONG)
  }

  lemma SpeltErased(s: Fs, cwd: Id, text: string, R: set<Id>)
    requires Vfs.CwdUp(s, cwd, 0).Ok? && forall c :: c in CwdChain(s, cwd) ==> c !in R
    ensures Spelt(Erase(s, R), cwd, text) == Spelt(s, cwd, text) && CwdChain(Erase(s, R), cwd) == CwdChain(s, cwd)
    ensures Vfs.CwdUp(Erase(s, R), cwd, 0).Ok?
  {
    hide Erase, Vfs.CwdUp, Vfs.NamesUp, Path.Normalize, Path.Render;
    CwdUpErased(s, cwd, 0, R);
    NamesErased(s, Vfs.CwdUp(s, cwd, 0).value, R);
  }

  lemma SpeltChild(s: Fs, cwd: Id, text: string, name: string)
    requires Spelt(s, cwd, text).Ok? && text != "" && Path.Name(name)
    requires |text + "/" + name| < Path.PATH_MAX && |Path.Render(Spelt(s, cwd, text).value + [name])| < Path.PATH_MAX
    ensures Spelt(s, cwd, text + "/" + name) == Ok(Spelt(s, cwd, text).value + [name])
  {
    hide Path.Normalize, Path.Render, Vfs.CwdUp, Vfs.NamesUp;
    Path.NormalizeChild(Vfs.Getcwd(s, cwd, Path.PATH_MAX).value, text, name);
  }

  // ----- Calls that take a path -----------------------------------------------------------

  function Stat(s: Fs, cwd: Id, text: string): Result<Id> {
    var cs := Spelt(s, cwd, text);
    if cs.Err? then Err(cs.error) else Resolve(s, s.root, cs.value)
  }

  function UnlinkText(s: Fs, cwd: Id, text: string): (Fs, Result<()>) {
    var cs := Spelt(s, cwd, text);
    if cs.Err? then (s, Err(cs.error)) else UnlinkPath(s, cs.value)
  }

  function RmdirText(s: Fs, cwd: Id, text: string): (Fs, Result<()>) {
    var cs := Spelt(s, cwd, text);
    if cs.Err? then (s, Err(cs.error)) else RmdirPath(s, cs.value)
  }
}
