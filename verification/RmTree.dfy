/**
 rm -r on its path arguments: what is removed, that it ends, and when the
 working directory stands in the way.
 */
module RmTree {
  import opened Common
  import Path
  import opened FsTree
  import opened FsInvariant
  import opened Directories
  import opened Subtrees
  import opened Fts
  import opened Rm
  import Vfs

  // ----- One path argument ----------------------------------------------------------------

  /**
   The argument text names the tree f, which is linked, free of mounts, and within the limits of the walk; nothing in D,
   the nodes to be removed, is in the way.
   */
  ghost predicate Ready(s: Fs, cwd: Id, text: string, cs: seq<string>, f: Forest, D: set<Id>) {
    && Inv(s) && text != "" && !f.Nil? && f.rest.Nil?
    && Spelt(s, cwd, text) == Ok(cs) && Resolve(s, s.root, cs) == Ok(f.id)
    && Match(s.nodes, s.kids, f) && Proper(f) && f.id in s.kids
    && (f.Dir? ==> forall n :: n in Ids(f.kids) ==> !Protected(s, n))
    && (f.id in D ==> s.nodes[f.id].parent in s.kids && !Protected(s, f.id))
    && Nesting(f) <= MAX_DIRS
    && (f.Dir? ==> Outside(s, cwd, cs, Ids(f.kids) * D) && Fits(f.kids, text, cs))
  }

  /** A walk between arguments, with text the next one */
  ghost predicate Between(w: Walker, text: string) {
    Held(w) && w.frames == [] && w.roots != [] && w.roots[0] == text
  }

  function NextRoot(w: Walker): Walker
    requires w.roots != []
  {
    w.(roots := w.roots[1..])
  }

  ghost predicate RootWalked(s: Fs, cwd: Id, w: Walker, c: Client, text: string, f: Forest, k: nat) {
    && !f.Nil? && w.roots != []
    && Inv(Erase(s, TreeRemoved(f, text, c)))
    && Turns(s, cwd, w, c, |TreeVisits(f, text, 0, c)| + k) ==
       Later(TreeVisits(f, text, 0, c), TreeFails(f, text, c),
             Turns(Erase(s, TreeRemoved(f, text, c)), cwd, NextRoot(w), c, k))
  }

  lemma RootFile(s: Fs, cwd: Id, w: Walker, c: Client, text: string, cs: seq<string>, f: Forest, k: nat, D: set<Id>)
    requires Ready(s, cwd, text, cs, f, D) && Between(w, text) && f.File? && TreeRemoved(f, text, c) <= D
    ensures RootWalked(s, cwd, w, c, text, f, k)
  {
    hide Inv, Erase, Resolve, Spelt, Held, Unlink, Protected, Outside, Fits, Proper;
    if Removes(c, text) {
      assert f.id in TreeRemoved(f, text, c);
      IsLinked(s, f.id);
      UnlinkKeeps(s, f.id);
      DetachIsErase(s, f.id);
    }
    EraseNone(s);
  }

  lemma RootEnters(s: Fs, cwd: Id, w: Walker, text: string, cs: seq<string>, f: Forest, D: set<Id>)
    requires Ready(s, cwd, text, cs, f, D) && Between(w, text) && f.Dir?
    ensures Held(NextRoot(w)) && |w.frames| < |w.dirs|
    ensures At(Pushed(NextRoot(w), f.id, text, 0, ItemAt(Heads(f.kids), 0)), f.id, text, 0, f.kids)
    ensures Read(s, cwd, w) ==
            (Some(Visit(Before, text, 0, None)), Pushed(NextRoot(w), f.id, text, 0, ItemAt(Heads(f.kids), 0)))
    ensures Place(s, cwd, f.id, text, cs, f.kids, D) && Removable(s, f, D)
  {
    hide Inv, Resolve, Spelt, Protected, Outside, Fits, Trace, At, Heads;
    var w1 := NextRoot(w);
    Enters(s, cwd, w1, text, 0, f.id);
    AtKids(w1, text, 0, f);
    assert s.kids[f.id][0..] == s.kids[f.id];
    assert Settle(w) == w;
  }

  lemma RootSkipped(s: Fs, cwd: Id, w: Walker, c: Client, text: string, cs: seq<string>, f: Forest, k: nat, D: set<Id>)
    requires Ready(s, cwd, text, cs, f, D) && Between(w, text) && f.Dir? && !Examines(c, text)
    ensures RootWalked(s, cwd, w, c, text, f, k)
  {
    hide Erase, Read, At, Heads, Place, Held, Pushed, Skip, Removable, Spelt, Resolve, Inv, Outside, Fits, Match,
         Proper;
    RootEnters(s, cwd, w, text, cs, f, D);
    var w1 := NextRoot(w);
    assert Settle(w1) == w1;
    SkipUndoes(w1, f.id, text, 0, ItemAt(Heads(f.kids), 0));
    TurnsSettled(s, cwd, Skip(Pushed(w1, f.id, text, 0, ItemAt(Heads(f.kids), 0))), c, k);
    EraseNone(s);
    assert TreeRemoved(f, text, c) == {};
    assert TreeVisits(f, text, 0, c) == [Visit(Before, text, 0, None)];
  }

  lemma RootDir(s: Fs, cwd: Id, w: Walker, c: Client, text: string, cs: seq<string>, f: Forest, k: nat, D: set<Id>)
    requires Ready(s, cwd, text, cs, f, D) && Between(w, text) && f.Dir? && Examines(c, text)
    requires TreeRemoved(f, text, c) <= D
    ensures RootWalked(s, cwd, w, c, text, f, k)
  {
    hide Erase, Read, At, Heads, Place, Held, Pushed, Removable, Ready, Walked, TreeFails, TreeRemoved, Inv, Visits,
         Examines;
    RootEnters(s, cwd, w, text, cs, f, D);
    var w1 := NextRoot(w);
    var inner := Pushed(w1, f.id, text, 0, ItemAt(Heads(f.kids), 0));
    KidsFirst(f, text, c);
    WalkForest(s, cwd, inner, c, f.id, text, cs, 0, f.kids, 1 + k, D);
    Leave(s, cwd, w1, c, text, cs, 0, f, k, D);
    var V := TreeVisits(f, text, 0, c);
    EntersThen(s, cwd, w, c, text, inner, |V| - 1 + k);
    LaterTwice([V[0]], false, V[1..], TreeFails(f, text, c), Turns(Erase(s, TreeRemoved(f, text, c)), cwd, w1, c, k));
    assert [V[0]] + V[1..] == V;
  }

  lemma KidsFirst(f: Forest, p: string, c: Client)
    requires f.Dir? && Examines(c, p)
    ensures Removed(f.kids, p, c) <= TreeRemoved(f, p, c)
  {
  }

  lemma EntersThen(s: Fs, cwd: Id, w: Walker, c: Client, text: string, inner: Walker, k: nat)
    requires Read(s, cwd, w) == (Some(Visit(Before, text, 0, None)), inner) && Examines(c, text)
    ensures Turns(s, cwd, w, c, 1 + k) == Later([Visit(Before, text, 0, None)], false, Turns(s, cwd, inner, c, k))
  {
    hide Read;
  }

  lemma RootDone(s: Fs, cwd: Id, w: Walker, c: Client, text: string, cs: seq<string>, f: Forest, k: nat, D: set<Id>)
    requires Ready(s, cwd, text, cs, f, D) && Between(w, text) && !f.Nil?
    requires TreeRemoved(f, text, c) <= D
    ensures RootWalked(s, cwd, w, c, text, f, k)
  {
    hide Ready, RootWalked, Between;
    if f.File? {
      RootFile(s, cwd, w, c, text, cs, f, k, D);
    } else {
      assert f.Dir? by { ReadyTree(s, cwd, text, cs, f, D); }
      if Examines(c, text) { RootDir(s, cwd, w, c, text, cs, f, k, D); }
      else { RootSkipped(s, cwd, w, c, text, cs, f, k, D); }
    }
  }

  lemma ReadyTree(s: Fs, cwd: Id, text: string, cs: seq<string>, f: Forest, D: set<Id>)
    requires Ready(s, cwd, text, cs, f, D)
    ensures !f.Nil? && Inv(s)
  {
  }

  // ----- All of them ------------------------------------------------------------------------

  /** Each argument, when its turn comes, names a tree that is ready or (Nil) nothing at all. */
  ghost predicate AllReady(s: Fs, cwd: Id, texts: seq<string>, trees: seq<Forest>, c: Client)
    decreases |texts|
  {
    && |texts| == |trees|
    && (texts != [] ==>
          if trees[0].Nil? then Stat(s, cwd, texts[0]).Err? && AllReady(s, cwd, texts[1..], trees[1..], c)
          else && Spelt(s, cwd, texts[0]).Ok?
               && Ready(s, cwd, texts[0], Spelt(s, cwd, texts[0]).value, trees[0], TreeRemoved(trees[0], texts[0], c))
               && AllReady(Erase(s, TreeRemoved(trees[0], texts[0], c)), cwd, texts[1..], trees[1..], c))
  }

  /** What plain recursion over the arguments does */
  ghost function Expected(s: Fs, cwd: Id, texts: seq<string>, trees: seq<Forest>, c: Client, w: Walker): (r: Status)
    requires |texts| == |trees|
    ensures r.walker == w
    decreases |texts|
  {
    if texts == [] then Status(s, w, [], false)
    else if trees[0].Nil? then
      var r := Stat(s, cwd, texts[0]);
      var e := if r.Err? then r.error else ENOENT;
      Later([Visit(Unknown, texts[0], 0, Some(e))], !(c.force && Nonexistent(e)),
            Expected(s, cwd, texts[1..], trees[1..], c, w))
    else
      Later(TreeVisits(trees[0], texts[0], 0, c), TreeFails(trees[0], texts[0], c),
            Expected(Erase(s, TreeRemoved(trees[0], texts[0], c)), cwd, texts[1..], trees[1..], c, w))
  }

  function NoneOpen(): Table {
    seq(MAX_DIRS, _ => None)
  }

  function Started(texts: seq<string>): Walker {
    Walker([], NoneOpen(), texts)
  }

  /** An argument that cannot be found: one visit, nothing changed; -f forgives it. */
  lemma RootMissing(s: Fs, cwd: Id, texts: seq<string>, c: Client, k: nat)
    requires texts != [] && Stat(s, cwd, texts[0]).Err?
    ensures var e := Stat(s, cwd, texts[0]).error;
      Turns(s, cwd, Started(texts), c, 1 + k) ==
      Later([Visit(Unknown, texts[0], 0, Some(e))], !(c.force && e in {ENOENT, ENAMETOOLONG, ENOTDIR}),
            Turns(s, cwd, Started(texts[1..]), c, k))
  {
    hide Spelt, Resolve;
    var w := Started(texts);
    assert Settle(w) == w;
    assert Classify(s, cwd, Started(texts[1..]), texts[0], 0).0.info == Unknown;
  }

  /**
   rm -r on any list of arguments within the limits, with any answers: it ends after exactly the visits of the
   recursion, having removed exactly what the recursion removes, with every handle closed.
   */
  lemma {:induction false} RmWalksAll(s: Fs, cwd: Id, texts: seq<string>, trees: seq<Forest>, c: Client, k: nat)
    requires Inv(s) && AllReady(s, cwd, texts, trees, c)
    ensures var r := Expected(s, cwd, texts, trees, c, Started([]));
      Inv(r.fs) && Turns(s, cwd, Started(texts), c, |r.visits| + k) == r
    decreases |texts|
  {
    hide Inv, Erase, Stat, Spelt, Ready, TreeVisits, TreeFails, TreeRemoved, Turns;
    if texts == [] {
      AllDone(s, cwd, c, k);
    } else if trees[0].Nil? {
      var r := Expected(s, cwd, texts[1..], trees[1..], c, Started([]));
      RmWalksAll(s, cwd, texts[1..], trees[1..], c, k);
      RootMissing(s, cwd, texts, c, |r.visits| + k);
    } else {
      var t, p := trees[0], texts[0];
      var cs := Spelt(s, cwd, p).value;
      var s1 := Erase(s, TreeRemoved(t, p, c));
      var r := Expected(s1, cwd, texts[1..], trees[1..], c, Started([]));
      assert Held(Started(texts));
      RootDone(s, cwd, Started(texts), c, p, cs, t, |r.visits| + k, TreeRemoved(t, p, c));
      RmWalksAll(s1, cwd, texts[1..], trees[1..], c, k);
    }
  }

  lemma AllDone(s: Fs, cwd: Id, c: Client, k: nat)
    ensures Turns(s, cwd, Started([]), c, k) == Status(s, Started([]), [], false)
  {
    hide Classify, Readdir, Act;
    var w := Started([]);
    assert Settle(w) == w;
    assert Read(s, cwd, w) == (None, w);
  }

  // ----- rm -rf -----------------------------------------------------------------------------

  lemma {:induction false} ForceRemovesAll(f: Forest, path: string, c: Client)
    requires c.force
    ensures Removed(f, path, c) == Ids(f) && !Fails(f, path, c)
  {
    match f {
      case Nil =>
      case File(_, _, rest) => ForceRemovesAll(rest, path, c);
      case Dir(_, name, kids, rest) =>
        ForceRemovesAll(kids, Child(path, name), c);
        ForceRemovesAll(rest, path, c);
        HeadsInIds(kids);
    }
  }

  lemma {:induction false} IdsClosed(nodes: map<Id, Node>, kids: map<Id, seq<Id>>, f: Forest, n: Id, c: Id)
    requires Links(nodes, kids) && Match(nodes, kids, f) && n in Ids(f) && n in kids && c in kids[n]
    ensures c in Ids(f)
  {
    hide Links;
    match f {
      case File(id, _, rest) =>
        if n == id {
          LinksKeys(nodes, kids);
          ParentIsDirectory(nodes, kids, n, c);
          assert false;
        } else {
          IdsClosed(nodes, kids, rest, n, c);
        }
      case Dir(id, _, below, rest) =>
        if n == id {
          HeadsInIds(below);
        } else if n in Ids(below) {
          IdsClosed(nodes, kids, below, n, c);
        } else {
          IdsClosed(nodes, kids, rest, n, c);
        }
    }
  }

  lemma LinksKeys(nodes: map<Id, Node>, kids: map<Id, seq<Id>>)
    requires Links(nodes, kids)
    ensures nodes.Keys == kids.Keys && NULL !in nodes
  {
  }

  /** What is inside a mount-free subtree stays inside when a path goes on from there. */
  lemma {:induction false} ResolveStays(s: Fs, n: Id, cs: seq<string>, f: Forest)
    requires Inv(s) && Match(s.nodes, s.kids, f) && n in Ids(f) && Resolve(s, n, cs).Ok?
    requires forall x :: x in Ids(f) ==> !Protected(s, x)
    ensures Resolve(s, n, cs).value in Ids(f)
    decreases |cs|
  {
    hide Inv, Lookup, Match;
    if cs != [] {
      FoundIsChild(s, n, cs[0]);
      var c := Lookup(s, n, cs[0]).value;
      InvHasLinks(s);
      LinksKeys(s.nodes, s.kids);
      IdsClosed(s.nodes, s.kids, f, n, c);
      assert Down(s, c) == c;
      ResolveStays(s, c, cs[1..], f);
    }
  }

  /** The way to a node outside a mount-free subtree does not touch the subtree. */
  lemma {:induction false} TraceOutside(s: Fs, n: Id, cs: seq<string>, f: Forest)
    requires Inv(s) && Match(s.nodes, s.kids, f) && Resolve(s, n, cs).Ok? && Resolve(s, n, cs).value !in Ids(f)
    requires forall x :: x in Ids(f) ==> !Protected(s, x)
    ensures forall x :: x in Trace(s, n, cs) ==> x !in Ids(f)
    decreases |cs|
  {
    hide Inv, Lookup, Match;
    if cs != [] {
      var c := Lookup(s, n, cs[0]).value;
      if c in Ids(f) {
        assert Down(s, c) == c;
        ResolveStays(s, c, cs[1..], f);
        assert false;
      }
      TraceOutside(s, Down(s, c), cs[1..], f);
    }
  }

  lemma {:induction false} CwdOutside(s: Fs, n: Id, count: nat, f: Forest)
    requires Inv(s) && Match(s.nodes, s.kids, f) && n !in Ids(f) && Vfs.CwdUp(s, n, count).Ok?
    requires forall x :: x in Ids(f) ==> !Protected(s, x)
    ensures forall x :: x in Vfs.CwdUp(s, n, count).value ==> x !in Ids(f)
    decreases Path.MAX_COMPONENTS - count
  {
    hide Inv, Match;
    var m := Up(s, n);
    if n != s.root && m != s.root {
      assert m !in Ids(f) by { UpOutside(s, n, f); }
      var up := s.nodes[m].parent;
      if up in Ids(f) {
        ListedUnder(s, f, m);
        assert false;
      }
      CwdOutside(s, up, count + 1, f);
    }
  }

  lemma UpOutside(s: Fs, n: Id, f: Forest)
    requires n !in Ids(f) && forall x :: x in Ids(f) ==> !Protected(s, x)
    ensures Up(s, n) !in Ids(f)
  {
    var i := MountOf(s.mounts, n);
    if i < |s.mounts| {
      assert Protected(s, s.mounts[i].point);
    }
  }

  lemma ListedUnder(s: Fs, f: Forest, m: Id)
    requires Inv(s) && Match(s.nodes, s.kids, f) && m in s.nodes && s.nodes[m].parent in Ids(f)
    ensures m in Ids(f)
  {
    hide Inv, Links, Match;
    InvHasLinks(s);
    IdsAreNodes(s.nodes, s.kids, f, s.nodes[m].parent);
    LinksKeys(s.nodes, s.kids);
    LinkedInList(s.nodes, s.kids, m);
    IdsClosed(s.nodes, s.kids, f, s.nodes[m].parent, m);
  }

  lemma {:induction false} IdsAreNodes(nodes: map<Id, Node>, kids: map<Id, seq<Id>>, f: Forest, n: Id)
    requires Match(nodes, kids, f) && n in Ids(f)
    ensures n in nodes
  {
    match f {
      case File(id, _, rest) => if n != id { IdsAreNodes(nodes, kids, rest, n); }
      case Dir(id, _, below, rest) =>
        if n in Ids(below) {
          IdsAreNodes(nodes, kids, below, n);
        } else if n != id {
          IdsAreNodes(nodes, kids, rest, n);
        }
    }
  }

  /**
   What a caller can check before a walk: text names the directory f, nothing is mounted below it, and it is within the
   limits.
   */
  ghost predicate Walkable(s: Fs, cwd: Id, text: string, f: Forest) {
    && f.Dir? && f.rest.Nil? && f.id in s.nodes && f.id in s.kids
    && text != "" && Spelt(s, cwd, text).Ok? && Stat(s, cwd, text) == Ok(f.id)
    && Nesting(f) <= MAX_DIRS && Fits(f.kids, text, Spelt(s, cwd, text).value)
    && (forall n :: n in Ids(f.kids) ==> !Protected(s, n))
    && Inv(s) && Match(s.nodes, s.kids, f) && Proper(f)
  }

  /** And before a removal: the directory is linked and is not itself part of a mount. */
  ghost predicate Removing(s: Fs, cwd: Id, text: string, f: Forest) {
    Walkable(s, cwd, text, f) && s.nodes[f.id].parent != NULL && !Protected(s, f.id)
  }

  lemma WalkableIsReady(s: Fs, cwd: Id, text: string, f: Forest, D: set<Id>)
    requires Walkable(s, cwd, text, f)
    requires D == {} || (cwd !in Ids(f.kids) && Removing(s, cwd, text, f))
    ensures Ready(s, cwd, text, Spelt(s, cwd, text).value, f, D)
  {
    hide Inv, Resolve, Trace, Protected, Fits, Vfs.CwdUp, Path.Normalize, Path.Render, Vfs.NamesUp;
    var cs := Spelt(s, cwd, text).value;
    TraceOutside(s, s.root, cs, f.kids);
    if cwd !in Ids(f.kids) { CwdOutside(s, cwd, 0, f.kids); }
    InvHasLinks(s);
    LinkedInList(s.nodes, s.kids, f.id);
  }

  /** rm -rf from outside the subtree ends with status 0, having removed the subtree and nothing else. */
  lemma RmRemovesSubtree(s: Fs, cwd: Id, text: string, f: Forest, c: Client, k: nat)
    requires c.force && Removing(s, cwd, text, f) && cwd !in Ids(f.kids)
    ensures Turns(s, cwd, Started([text]), c, |TreeVisits(f, text, 0, c)| + k) ==
            Status(Erase(s, Ids(f)), Started([]), TreeVisits(f, text, 0, c), false)
    ensures Inv(Erase(s, Ids(f)))
  {
    hide Inv, Erase, Turns, Stat, Spelt, Ready, Removing, Walkable, Visits, Match, Proper;
    RemovingMeans(s, cwd, text, f);
    WalkableIsReady(s, cwd, text, f, Ids(f));
    ForceRemovesAll(f.kids, text, c);
    HeadsInIds(f.kids);
    assert TreeRemoved(f, text, c) == Ids(f);
    RootDone(s, cwd, Started([text]), c, text, Spelt(s, cwd, text).value, f, k, Ids(f));
    assert !TreeFails(f, text, c);
    AllDone(Erase(s, Ids(f)), cwd, c, k);
    assert NextRoot(Started([text])) == Started([]);
    assert TreeVisits(f, text, 0, c) + [] == TreeVisits(f, text, 0, c);
  }

  lemma RemovingMeans(s: Fs, cwd: Id, text: string, f: Forest)
    requires Removing(s, cwd, text, f)
    ensures f.Dir? && f.rest.Nil? && Inv(s) && Spelt(s, cwd, text).Ok? && Walkable(s, cwd, text, f)
  {
    hide Inv, Spelt, Stat, Match, Proper, Fits;
  }

  lemma WalkableMeans(s: Fs, cwd: Id, text: string, f: Forest)
    requires Walkable(s, cwd, text, f)
    ensures f.Dir? && f.rest.Nil? && Inv(s) && Spelt(s, cwd, text).Ok?
  {
    hide Inv, Spelt, Stat, Match, Proper, Fits;
  }

  // ----- The walk alone ---------------------------------------------------------------------

  lemma {:induction false} NothingRemoved(f: Forest, path: string, c: Client)
    requires !c.force && forall p :: !c.remove(p)
    ensures Removed(f, path, c) == {} && !Fails(f, path, c)
  {
    match f {
      case Nil =>
      case File(_, _, rest) => NothingRemoved(rest, path, c);
      case Dir(_, name, kids, rest) =>
        NothingRemoved(kids, Child(path, name), c);
        NothingRemoved(rest, path, c);
    }
  }

  /** A walk whose client only skips is the recursive walk, from whatever directory, and leaves every handle closed. */
  lemma WalkIsRecursion(s: Fs, cwd: Id, text: string, f: Forest, c: Client, k: nat)
    requires !c.force && (forall p :: !c.remove(p)) && Walkable(s, cwd, text, f)
    ensures Turns(s, cwd, Started([text]), c, |TreeVisits(f, text, 0, c)| + k) ==
            Status(s, Started([]), TreeVisits(f, text, 0, c), false)
  {
    hide Inv, Erase, Turns, Stat, Spelt, Ready, Walkable, Visits, Match, Proper, Examines;
    WalkableIsReady(s, cwd, text, f, {});
    WalkableMeans(s, cwd, text, f);
    NothingRemoved(f.kids, text, c);
    assert TreeRemoved(f, text, c) == {};
    assert !TreeFails(f, text, c);
    RootDone(s, cwd, Started([text]), c, text, Spelt(s, cwd, text).value, f, k, {});
    EraseNone(s);
    AllDone(s, cwd, c, k);
    assert NextRoot(Started([text])) == Started([]);
    assert TreeVisits(f, text, 0, c) + [] == TreeVisits(f, text, 0, c);
  }

  /** At every moment of every run, whatever the tree and the client, the walk holds as many handles as it is deep. */
  lemma {:induction false} TurnsHoldHandles(s: Fs, cwd: Id, w: Walker, c: Client, k: nat)
    requires Held(w)
    ensures var w' := Turns(s, cwd, w, c, k).walker; Held(w') && InUse(w'.dirs) == |w'.frames| <= MAX_DIRS
    decreases k
  {
    hide Held, Read, Settle, UnlinkText, RmdirText, Skip, InUse;
    if k == 0 {
      SettleHeld(w);
      HeldCount(Settle(w));
    } else {
      ReadHeld(s, cwd, w);
      var (v, w1) := Read(s, cwd, w);
      if v.None? {
        HeldCount(w1);
      } else {
        SkipHeld(w1);
        var (s2, w2, bad) := Act(s, cwd, w1, v.value, c);
        TurnsHoldHandles(s2, cwd, w2, c, k - 1);
      }
    }
  }

  lemma HeldCount(w: Walker)
    requires Held(w)
    ensures InUse(w.dirs) == |w.frames| <= MAX_DIRS
  {
    DepthIsHandles(w);
  }

  predicate Ordinary(v: Visit) {
    (v.info.Before? || v.info.After? || v.info.Leaf?) && v.error.None?
  }

  ghost predicate AllOrdinary(visits: seq<Visit>) {
    forall i :: 0 <= i < |visits| ==> Ordinary(visits[i])
  }

  lemma {:induction false} VisitsAreOrdinary(f: Forest, path: string, level: nat, c: Client)
    ensures AllOrdinary(Visits(f, path, level, c))
  {
    match f {
      case Nil =>
      case File(_, _, rest) => VisitsAreOrdinary(rest, path, level, c);
      case Dir(_, name, kids, rest) =>
        VisitsAreOrdinary(kids, Child(path, name), level + 1, c);
        VisitsAreOrdinary(rest, path, level, c);
    }
  }

  lemma TreeIsOrdinary(f: Forest, path: string, c: Client)
    requires !f.Nil?
    ensures AllOrdinary(TreeVisits(f, path, 0, c))
  {
    if f.Dir? { VisitsAreOrdinary(f.kids, path, 1, c); }
  }

  lemma {:induction false} ExpectedIsOrdinary(s: Fs, cwd: Id, texts: seq<string>, trees: seq<Forest>, c: Client)
    requires |texts| == |trees| && forall i :: 0 <= i < |trees| ==> !trees[i].Nil?
    ensures AllOrdinary(Expected(s, cwd, texts, trees, c, Started([])).visits)
    decreases |texts|
  {
    hide TreeVisits, TreeFails, TreeRemoved, Erase, Ordinary;
    if texts != [] {
      TreeIsOrdinary(trees[0], texts[0], c);
      ExpectedIsOrdinary(Erase(s, TreeRemoved(trees[0], texts[0], c)), cwd, texts[1..], trees[1..], c);
    }
  }

  /** A walk that only looks, from any directory, over a tree within the limits: no DC, DNR or NS is visited. */
  lemma WalkIsOrdinary(s: Fs, cwd: Id, text: string, f: Forest, c: Client, k: nat)
    requires !c.force && (forall p :: !c.remove(p)) && Walkable(s, cwd, text, f)
    ensures AllOrdinary(Turns(s, cwd, Started([text]), c, |TreeVisits(f, text, 0, c)| + k).visits)
  {
    hide Turns, Walkable, TreeVisits, AllOrdinary;
    WalkIsRecursion(s, cwd, text, f, c, k);
    WalkableMeans(s, cwd, text, f);
    TreeIsOrdinary(f, text, c);
  }

  /** The same of rm -r deleting underneath the walk, on any arguments that exist when their turn comes. */
  lemma RmIsOrdinary(s: Fs, cwd: Id, texts: seq<string>, trees: seq<Forest>, c: Client, k: nat)
    requires Inv(s) && AllReady(s, cwd, texts, trees, c) && forall i :: 0 <= i < |trees| ==> !trees[i].Nil?
    ensures |texts| == |trees|
    ensures var turns := |Expected(s, cwd, texts, trees, c, Started([])).visits| + k;
      AllOrdinary(Turns(s, cwd, Started(texts), c, turns).visits)
  {
    hide Turns, Inv, Expected, AllOrdinary;
    RmWalksAll(s, cwd, texts, trees, c, k);
    ExpectedIsOrdinary(s, cwd, texts, trees, c);
  }
}
