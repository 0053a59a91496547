/**
 Every call spells the working directory out first, so a directory that holds
 the caller's working directory cannot be removed by it: rm -rf of such a
 directory never succeeds.
 */
module RmCwd {
  import opened Common
  import Path
  import opened FsTree
  import opened FsInvariant
  import opened Directories
  import opened Subtrees
  import opened Fts
  import opened Rm
  import opened RmTree
  import opened RmLost
  import Vfs

  /** p climbs from the working directory over n. */
  ghost predicate Inside(nodes: map<Id, Node>, cwd: Id, n: Id, p: seq<Id>, i: nat) {
    Climb(nodes, p) && p[0] == cwd && 0 < i < |p| && p[i] == n
  }

  /** n is linked, and either the working directory is below it or no path can be spelt any more. */
  ghost predicate Pinned(s: Fs, cwd: Id, n: Id) {
    && Inv(s) && n in s.nodes && s.nodes[n].parent != NULL
    && (Vfs.Getcwd(s, cwd, Path.PATH_MAX).Err? || exists p, i :: Inside(s.nodes, cwd, n, p, i))
  }

  lemma AncestorsAreNotEmpty(s: Fs, p: seq<Id>, j: nat)
    requires Inv(s) && Climb(s.nodes, p) && 0 < j < |p|
    ensures p[j] in s.kids && s.kids[p[j]] != []
  {
    hide Inv;
    InvHasLinks(s);
    hide Links;
    LinksKeys(s.nodes, s.kids);
    LinkedInList(s.nodes, s.kids, p[j - 1]);
  }

  /** Removing an empty node leaves n in place; if it was the working directory, that has no path any more. */
  lemma DetachPinned(s: Fs, cwd: Id, n: Id, m: Id, p: seq<Id>, i: nat)
    requires Inv(s) && n in s.nodes && s.nodes[n].parent != NULL && Inside(s.nodes, cwd, n, p, i)
    requires m in s.nodes && s.nodes[m].parent in s.kids && m in s.kids && s.kids[m] == [] && !Protected(s, m)
    requires Inv(Detach(s, m))
    ensures Pinned(Detach(s, m), cwd, n)
  {
    hide Inv, Without, Protected, Vfs.Getcwd;
    forall j | 0 < j < |p| ensures p[j] != m {
      AncestorsAreNotEmpty(s, p, j);
    }
    if m == cwd {
      NoPathLeft(s, cwd);
    } else {
      ClimbKept(s.nodes, Detach(s, m).nodes, p);
      assert Inside(Detach(s, m).nodes, cwd, n, p, i);
    }
  }

  lemma NoPathLeft(s: Fs, m: Id)
    requires Inv(s) && m in s.nodes && s.nodes[m].parent in s.kids && !Protected(s, m)
    ensures Vfs.Getcwd(Detach(s, m), m, Path.PATH_MAX).Err?
  {
    hide Acyclic, Names, Detached;
    IsLinked(s, m);
    var s' := Detach(s, m);
    assert m != s.root;
    assert Up(s', m) == m;
    assert Vfs.CwdUp(s', NULL, 1).Err?;
    assert Vfs.CwdUp(s', m, 0).Err?;
  }

  lemma UnlinkPinned(s: Fs, cwd: Id, n: Id, m: Id, p: seq<Id>, i: nat)
    requires Inv(s) && n in s.nodes && s.nodes[n].parent != NULL && Inside(s.nodes, cwd, n, p, i)
    requires m in s.nodes && !Protected(s, m)
    ensures Pinned(Unlink(s, m).0, cwd, n) && Pinned(Rmdir(s, m).0, cwd, n)
  {
    hide Inv, Without, Protected, Vfs.Getcwd, Inside, Detach;
    UnlinkKeeps(s, m);
    RmdirKeeps(s, m);
    assert Inside(s.nodes, cwd, n, p, i) && Pinned(s, cwd, n);
    InvHasLinks(s);
    hide Links;
    LinkedInList(s.nodes, s.kids, m);
    if s.nodes[m].parent != NULL {
      if !s.nodes[m].kind.Directory? {
        FilesAreEmpty(s.nodes, s.kids, m);
        DetachPinned(s, cwd, n, m, p, i);
      } else if s.kids[m] == [] {
        DetachPinned(s, cwd, n, m, p, i);
      }
    }
  }

  /** No unlink or rmdir of this task, on any path, ends the pinning. */
  lemma CallPinned(s: Fs, cwd: Id, n: Id, text: string)
    requires Pinned(s, cwd, n)
    ensures Pinned(UnlinkText(s, cwd, text).0, cwd, n) && Pinned(RmdirText(s, cwd, text).0, cwd, n)
  {
    hide Inv, Vfs.Getcwd, Inside, Resolve, Unlink, Rmdir, Path.Normalize, Protected;
    var cs := Spelt(s, cwd, text);
    if cs.Ok? && Resolve(s, s.root, cs.value).Ok? {
      RootLive(s);
      ResolveLive(s, s.root, cs.value);
      var m := Resolve(s, s.root, cs.value).value;
      LiveIn(s, m);
      var p, i :| Inside(s.nodes, cwd, n, p, i);
      if !Protected(s, m) { UnlinkPinned(s, cwd, n, m, p, i); }
    }
  }

  lemma {:induction false} TurnsPinned(s: Fs, cwd: Id, w: Walker, c: Client, k: nat, n: Id)
    requires Pinned(s, cwd, n)
    ensures Pinned(Turns(s, cwd, w, c, k).fs, cwd, n)
    decreases k
  {
    hide Pinned, Read, Settle, UnlinkText, RmdirText;
    if k > 0 {
      var (v, w1) := Read(s, cwd, w);
      if v.Some? {
        CallPinned(s, cwd, n, v.value.path);
        var (s2, w2, bad) := Act(s, cwd, w1, v.value, c);
        TurnsPinned(s2, cwd, w2, c, k - 1, n);
      }
    }
  }

  /** A node of a subtree climbs over the directory that lists the subtree. */
  lemma {:induction false} ClimbsOver(s: Fs, d: Id, f: Forest, n: Id, up: seq<Id>) returns (p: seq<Id>, i: nat)
    requires Links(s.nodes, s.kids) && Match(s.nodes, s.kids, f) && n in Ids(f)
    requires forall x :: x in Heads(f) ==> x in s.nodes && s.nodes[x].parent == d
    requires Climb(s.nodes, up) && up[0] == d
    ensures Inside(s.nodes, n, d, p, i)
    decreases f
  {
    hide Links;
    assert f.id == Heads(f)[0];
    if n == f.id {
      p, i := [n] + up, 1;
      ClimbJoin(s.nodes, [n], up);
    } else if f.Dir? && n in Ids(f.kids) {
      var up' := [f.id] + up;
      ClimbJoin(s.nodes, [f.id], up);
      ChildrenPoint(s, f.id, f.kids);
      var q, j := ClimbsOver(s, f.id, f.kids, n, up');
      LinksKeys(s.nodes, s.kids);
      p, i := OverParent(s.nodes, n, f.id, d, q, j);
    } else {
      assert forall x :: x in Heads(f.rest) ==> x in Heads(f);
      p, i := ClimbsOver(s, d, f.rest, n, up);
    }
  }

  lemma OverParent(nodes: map<Id, Node>, n: Id, m: Id, d: Id, q: seq<Id>, j: nat) returns (p: seq<Id>, i: nat)
    requires Inside(nodes, n, m, q, j) && m in nodes && nodes[m].parent == d && d != NULL
    ensures Inside(nodes, n, d, p, i)
  {
    p, i := q, j + 1;
  }

  lemma ChildrenPoint(s: Fs, d: Id, f: Forest)
    requires Links(s.nodes, s.kids) && d in s.kids && s.kids[d] == Heads(f)
    ensures forall x :: x in Heads(f) ==> x in s.nodes && s.nodes[x].parent == d
  {
    hide Heads;
  }

  /** Whatever the flags and answers, a directory with the working directory strictly inside survives rm -r. */
  lemma CwdInsideSurvives(s: Fs, cwd: Id, w: Walker, c: Client, k: nat, f: Forest)
    requires Inv(s) && f.Dir? && Match(s.nodes, s.kids, f) && s.nodes[f.id].parent != NULL && cwd in Ids(f.kids)
    ensures var s' := Turns(s, cwd, w, c, k).fs; f.id in s'.nodes && s'.nodes[f.id].parent != NULL
  {
    hide Climb, Turns, Heads, Ids, Vfs.Getcwd, Names, Mounts, Detached;
    var up := ClimbOf(s.nodes, f.id);
    ChildrenPoint(s, f.id, f.kids);
    var p, i := ClimbsOver(s, f.id, f.kids, cwd, up);
    assert Inside(s.nodes, cwd, f.id, p, i);
    assert Pinned(s, cwd, f.id);
    TurnsPinned(s, cwd, w, c, k, f.id);
  }

  lemma ClimbOf(nodes: map<Id, Node>, n: Id) returns (up: seq<Id>)
    requires Acyclic(nodes) && n in nodes
    ensures Climb(nodes, up) && up != [] && up[0] == n
  {
    assert Grounded(nodes, n);
    up :| Climb(nodes, up) && up[0] == n;
  }

  /**
   Within the limits, rm -rf ends, and it removes the subtree and reports success if and only if the working directory
   is not strictly inside.
   */
  lemma RmSucceedsIff(s: Fs, cwd: Id, text: string, f: Forest, c: Client, k: nat)
    requires c.force && Removing(s, cwd, text, f)
    ensures var r := Turns(s, cwd, Started([text]), c, |TreeVisits(f, text, 0, c)| + k);
      && r.walker == Started([])
      && (cwd !in Ids(f.kids) <==> r.fs == Erase(s, Ids(f)))
      && (cwd !in Ids(f.kids) <==> !r.failed)
  {
    hide Turns, Removing, Walkable, Inv, TreeVisits;
    RemovingMeans(s, cwd, text, f);
    if cwd !in Ids(f.kids) {
      RmRemovesSubtree(s, cwd, text, f, c, k);
    } else {
      RemovingTree(s, cwd, text, f);
      CwdInsideSurvives(s, cwd, Started([text]), c, |TreeVisits(f, text, 0, c)| + k, f);
      ErasedHasNoParent(s, Ids(f), f.id);
      RmFailsInside(s, cwd, text, f, c, k);
    }
  }

  lemma RemovingTree(s: Fs, cwd: Id, text: string, f: Forest)
    requires Removing(s, cwd, text, f)
    ensures f.Dir? && f.id in s.nodes && s.nodes[f.id].parent != NULL && Match(s.nodes, s.kids, f) && f.id in Ids(f)
  {
  }

  lemma ErasedHasNoParent(s: Fs, R: set<Id>, n: Id)
    requires n in s.nodes && n in R
    ensures n in Erase(s, R).nodes && Erase(s, R).nodes[n].parent == NULL
  {
    hide Filter;
  }
}
