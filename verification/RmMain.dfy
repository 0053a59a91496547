/**
 rm_tree as written, and what is left of the file system after it.
 */
module RmMain {
  import opened Common
  import Path
  import opened FsTree
  import opened FsInvariant
  import opened Directories
  import opened Subtrees
  import opened Fts
  import opened Rm
  import opened RmTree
  import Vfs

  // ----- The loop as written ------------------------------------------------------------------

  /** What rm_tree does with one entry of the walk */
  method React(s: Fs, cwd: Id, fts: Stream, p: Visit, c: Client) returns (s': Fs, failed: bool)
    requires fts.Valid()
    modifies fts`stack
    ensures fts.Valid() && (s', fts.View(), failed) == Act(s, cwd, old(fts.View()), p, c)
  {
    s', failed := s, false;
    match p.info {
      case Unreadable =>
        if !c.force || p.error != Some(ENOENT) { failed := true; }
        return;
      case Unknown =>
        if c.force && p.error.Some? && Nonexistent(p.error.value) { return; }
        if c.needstat {
          failed := true;
          return;
        }
      case Before =>
        if !c.force && !c.examine(p.path) { fts.SetSkip(); }
        return;
      case After =>
        if !c.force && !c.remove(p.path) { return; }
        var (t, r) := RmdirText(s, cwd, p.path);
        s', failed := t, r.Err? && !(c.force && r.error == ENOENT);
        return;
      case _ =>
        if !c.force && !c.remove(p.path) { return; }
    }
    var (t, r) := UnlinkText(s, cwd, p.path);
    s', failed := t, r.Err? && !(c.force && Nonexistent(r.error));
  }

  /**
   rm_tree: for every list of arguments within the limits it ends, with the file system and the status of the recursion.
   */
  method RemoveTrees(s0: Fs, cwd: Id, texts: seq<string>, c: Client, ghost trees: seq<Forest>) returns (s: Fs,
                     eval: bool)
    requires Inv(s0) && AllReady(s0, cwd, texts, trees, c)
    ensures var r := Expected(s0, cwd, texts, trees, c, Started([])); s == r.fs && eval == r.failed
  {
    hide Inv, AllReady, Expected, Turns, Read, Act, Settle;
    var fts := new Stream(texts);
    s, eval := s0, false;
    SameLengths(s0, cwd, texts, trees, c);
    ghost var r := Expected(s0, cwd, texts, trees, c, Started([]));
    ghost var left: nat, seen: seq<Visit> := |r.visits| + 1, [];
    RmWalksAll(s0, cwd, texts, trees, c, 1);
    while true
      invariant fts.Valid() && fresh(fts)
      invariant r == Later(seen, eval, Turns(s, cwd, fts.View(), c, left)) && r.walker == Started([])
      decreases left
    {
      ghost var w := fts.View();
      var p := fts.Next(s, cwd);
      OneTurn(s, cwd, w, c, left);
      if p.None? { break; }
      ghost var rest := Turns(Act(s, cwd, fts.View(), p.value, c).0, cwd, Act(s, cwd, fts.View(), p.value, c).1, c,
                              left - 1);
      var bad;
      LaterTwice(seen, eval, [p.value], Act(s, cwd, fts.View(), p.value, c).2, rest);
      s, bad := React(s, cwd, fts, p.value, c);
      eval := eval || bad;
      left, seen := left - 1, seen + [p.value];
    }
  }

  lemma SameLengths(s: Fs, cwd: Id, texts: seq<string>, trees: seq<Forest>, c: Client)
    requires AllReady(s, cwd, texts, trees, c)
    ensures |texts| == |trees|
  {
  }

  /** One turn of the loop, seen from a run that is known to end */
  lemma OneTurn(s: Fs, cwd: Id, w: Walker, c: Client, left: nat)
    requires Turns(s, cwd, w, c, left).walker == Started([])
    ensures var (v, w1) := Read(s, cwd, w);
      if v.None? then Turns(s, cwd, w, c, left).fs == s && !Turns(s, cwd, w, c, left).failed
      else
        && left > 0
        && var (s2, w2, bad) := Act(s, cwd, w1, v.value, c);
        Turns(s, cwd, w, c, left) == Later([v.value], bad, Turns(s2, cwd, w2, c, left - 1))
  {
    hide Act, Classify, Readdir, Settle;
    if left == 0 {
      assert Settle(w) == Started([]);
    }
  }

  // ----- What is left -------------------------------------------------------------------------

  /** The parent of a tree is outside it. */
  lemma ParentOutside(s: Fs, f: Forest)
    requires Inv(s) && f.Dir? && f.rest.Nil? && Match(s.nodes, s.kids, f) && Proper(f) && s.nodes[f.id].parent != NULL
    ensures s.nodes[f.id].parent !in Ids(f)
  {
    hide Inv;
    NotOwnParent(s, f.id);
    if s.nodes[f.id].parent in Ids(f.kids) {
      ListedUnder(s, f.kids, f.id);
    }
  }

  /**
   After rm -rf: nodes outside the subtree are as they were, only the list of its parent is shorter, and by the subtree
   alone.
   */
  lemma OnlyTheSubtree(s: Fs, f: Forest, n: Id)
    requires Inv(s) && f.Dir? && f.rest.Nil? && Match(s.nodes, s.kids, f) && Proper(f) && s.nodes[f.id].parent != NULL
    requires n in s.nodes && n in s.kids
    ensures var s' := Erase(s, Ids(f));
      && n in s'.nodes && n in s'.kids
      && (n !in Ids(f) ==> s'.nodes[n] == s.nodes[n])
      && (n !in Ids(f) && n != s.nodes[f.id].parent ==> s'.kids[n] == s.kids[n])
      && (n == s.nodes[f.id].parent ==> s'.kids[n] == Without(s.kids[n], f.id))
      && (n in Ids(f) ==> s'.nodes[n].parent == NULL && s'.kids[n] == [])
  {
    hide Inv, Filter, Without, Match;
    ParentOutside(s, f);
    if n in Ids(f) {
      ListsGone(s, f, n);
    } else {
      ListsKept(s, f, n);
    }
  }

  lemma ListsGone(s: Fs, f: Forest, n: Id)
    requires Inv(s) && Match(s.nodes, s.kids, f) && n in Ids(f) && n in s.kids
    ensures Filter(s.kids[n], Ids(f)) == []
  {
    hide Inv, Filter, Match, Ids;
    InvHasLinks(s);
    forall x | x in s.kids[n] ensures x in Ids(f) {
      IdsClosed(s.nodes, s.kids, f, n, x);
    }
    FilterAll(s.kids[n], Ids(f));
  }

  lemma ListsKept(s: Fs, f: Forest, n: Id)
    requires Inv(s) && f.Dir? && f.rest.Nil? && Match(s.nodes, s.kids, f) && n !in Ids(f) && n in s.kids && n in s.nodes
    ensures Filter(s.kids[n], Ids(f)) == if n == s.nodes[f.id].parent then Without(s.kids[n], f.id) else s.kids[n]
  {
    hide Inv, Filter, Links, Match;
    InvHasLinks(s);
    forall x | x in s.kids[n] && x in Ids(f) ensures x == f.id {
      ParentIsDirectory(s.nodes, s.kids, n, x);
      if x != f.id { OutermostParent(s, f, x); }
    }
    IdsAreNodes(s.nodes, s.kids, f, f.id);
    FilterSame(s.kids[n], Ids(f), {f.id});
    EraseInList(s, f.id, n);
  }

  lemma {:induction false} FilterSame(l: seq<Id>, Q: set<Id>, R: set<Id>)
    requires forall x :: x in l ==> (x in Q <==> x in R)
    ensures Filter(l, Q) == Filter(l, R)
  {
    if l != [] {
      assert l == [l[0]] + l[1..];
      FilterSame(l[1..], Q, R);
    }
  }

  /** A node inside the tree, other than its top, has its parent inside. */
  lemma OutermostParent(s: Fs, f: Forest, x: Id)
    requires Inv(s) && f.Dir? && f.rest.Nil? && Match(s.nodes, s.kids, f) && x in Ids(f) && x != f.id && x in s.nodes
    ensures s.nodes[x].parent in Ids(f)
  {
    hide Inv, Links;
    InvHasLinks(s);
    ParentInside(s, f.id, f.kids, x);
  }

  lemma {:induction false} ParentInside(s: Fs, d: Id, f: Forest, x: Id)
    requires Links(s.nodes, s.kids) && Match(s.nodes, s.kids, f) && x in Ids(f) && x in s.nodes
    requires d in s.kids && forall y :: y in Heads(f) ==> y in s.kids[d]
    ensures s.nodes[x].parent in Ids(f) + {d}
    decreases f
  {
    hide Links;
    LinksKeys(s.nodes, s.kids);
    assert f.id == Heads(f)[0];
    assert forall y :: y in Heads(f.rest) ==> y in Heads(f);
    if x == f.id {
      ParentIsDirectory(s.nodes, s.kids, d, x);
    } else if f.Dir? && x in Ids(f.kids) {
      ParentInside(s, f.id, f.kids, x);
    } else {
      ParentInside(s, d, f.rest, x);
    }
  }

  /** The name that led to the subtree leads nowhere any more. */
  lemma PathGone(s: Fs, cwd: Id, text: string, f: Forest)
    requires Removing(s, cwd, text, f)
    ensures Resolve(Erase(s, Ids(f)), s.root, Spelt(s, cwd, text).value) == Err(ENOENT)
  {
    hide Inv, Resolve, Trace, Lookup, Erase, Spelt, Fits, Match, Proper, Protected, Ids;
    var cs := Spelt(s, cwd, text).value;
    RemovingFacts(s, cwd, text, f);
    var last, prefix := cs[|cs| - 1], cs[..|cs| - 1];
    assert cs == prefix + [last];
    Vfs.ResolveLast(s, s.root, prefix, last);
    var d := Resolve(s, s.root, prefix).value;
    var c := Lookup(s, d, last).value;
    FoundIsChild(s, d, last);
    NotMounted(s, c, f.id);
    ParentOutside(s, f);
    TraceOutside(s, s.root, prefix, f);
    ResolveErased(s, s.root, prefix, Ids(f));
    NameGone(s, d, last, Ids(f));
    EraseKeepsMounts(s, Ids(f));
    Vfs.ResolveLast(Erase(s, Ids(f)), s.root, prefix, last);
  }

  lemma RemovingFacts(s: Fs, cwd: Id, text: string, f: Forest)
    requires Removing(s, cwd, text, f)
    ensures Inv(s) && f.Dir? && f.rest.Nil? && Match(s.nodes, s.kids, f) && Proper(f) && s.nodes[f.id].parent != NULL
    ensures f.id in Ids(f) && forall n :: n in Ids(f) ==> !Protected(s, n)
    ensures Spelt(s, cwd, text).Ok? && Spelt(s, cwd, text).value != []
    ensures Resolve(s, s.root, Spelt(s, cwd, text).value) == Ok(f.id)
  {
    hide Inv, Spelt, Fits, Match, Proper, Protected;
    RootHasNoParent(s);
    Vfs.ResolveNothing(s);
  }

  lemma NotMounted(s: Fs, c: Id, n: Id)
    requires Down(s, c) == n && !Protected(s, n)
    ensures c == n
  {
  }

  /** The name of an erased child is free. */
  lemma NameGone(s: Fs, d: Id, name: string, R: set<Id>)
    requires Inv(s) && Lookup(s, d, name).Ok? && Lookup(s, d, name).value in R && d !in R
    ensures Lookup(Erase(s, R), d, name) == Err(ENOENT)
  {
    hide Acyclic, Mounts, Detached, Filter, FindChild;
    var c := Lookup(s, d, name).value;
    FoundIsChild(s, d, name);
    var l := Filter(s.kids[d], R);
    FilterAll(s.kids[d], R);
    forall x | x in l ensures x in s.nodes && s.nodes[x].name != name {
      assert x in s.kids[d];
    }
    assert Erase(s, R).kids[d] == l;
    AbsentName(Erase(s, R).nodes, l, name);
  }

}
