/**
 No cycle is ever met: in every state that keeps the tree invariant, within the
 limits of the walk or beyond them, every node has one path, so a directory
 met below another is not on the way to it.
 */
module WalkCycles {
  import opened Common
  import Path
  import opened FsTree
  import opened FsInvariant
  import opened Directories
  import opened Subtrees
  import opened Fts
  import opened Rm
  import opened RmTree
  import Vfs

  // ----- What holds after removals held before ----------------------------------------------

  lemma LookupUnerased(s: Fs, d: Id, name: string, R: set<Id>)
    requires Inv(s) && Lookup(Erase(s, R), d, name).Ok?
    ensures Lookup(s, d, name) == Lookup(Erase(s, R), d, name)
  {
    hide Acyclic, Mounts, Detached, FindChild, Filter;
    var s' := Erase(s, R);
    var c := Lookup(s', d, name).value;
    FilterAll(s.kids[d], R);
    NameFinds(s, d, c);
  }

  lemma {:induction false} ResolveUnerased(s: Fs, n: Id, cs: seq<string>, R: set<Id>)
    requires Inv(s) && Resolve(Erase(s, R), n, cs).Ok?
    ensures Resolve(s, n, cs) == Resolve(Erase(s, R), n, cs)
    decreases |cs|
  {
    hide Inv, Lookup, Erase;
    if cs != [] {
      LookupUnerased(s, n, cs[0], R);
      EraseKeepsMounts(s, R);
      ResolveUnerased(s, Down(s, Lookup(s, n, cs[0]).value), cs[1..], R);
    }
  }

  lemma {:induction false} CwdUnerased(s: Fs, n: Id, count: nat, R: set<Id>)
    requires NULL !in s.nodes && s.root != NULL && Vfs.CwdUp(Erase(s, R), n, count).Ok?
    ensures Vfs.CwdUp(s, n, count) == Vfs.CwdUp(Erase(s, R), n, count)
    decreases Path.MAX_COMPONENTS - count
  {
    hide Up, Filter;
    EraseKeepsMounts(s, R);
    var m := Up(s, n);
    if n != s.root && m != s.root {
      CwdUnerased(s, Erase(s, R).nodes[m].parent, count + 1, R);
    }
  }

  lemma SpeltUnerased(s: Fs, cwd: Id, text: string, R: set<Id>)
    requires Inv(s) && Spelt(Erase(s, R), cwd, text).Ok?
    ensures Spelt(s, cwd, text) == Spelt(Erase(s, R), cwd, text)
  {
    hide Inv, Erase, Vfs.CwdUp, Vfs.NamesUp, Path.Normalize, Path.Render;
    IdsPositive(s);
    RootHasNoParent(s);
    CwdUnerased(s, cwd, 0, R);
    NamesErased(s, Vfs.CwdUp(s, cwd, 0).value, R);
  }

  lemma StatUnerased(s: Fs, cwd: Id, text: string, R: set<Id>)
    requires Inv(s) && Stat(Erase(s, R), cwd, text).Ok?
    ensures Spelt(s, cwd, text).Ok? && Stat(s, cwd, text) == Stat(Erase(s, R), cwd, text)
  {
    hide Inv, Erase, Spelt, Resolve;
    SpeltUnerased(s, cwd, text, R);
    EraseKeepsMounts(s, R);
    ResolveUnerased(s, s.root, Spelt(s, cwd, text).value, R);
  }

  // ----- The frames of a walk -------------------------------------------------------------------

  /** The path of a frame led to its directory when the walk began. */
  ghost predicate Named(s: Fs, cwd: Id, f: Frame) {
    f.path != "" && Spelt(s, cwd, f.path).Ok? && Stat(s, cwd, f.path) == Ok(f.inode)
  }

  ghost function Depth(s: Fs, cwd: Id, f: Frame): nat {
    var r := Spelt(s, cwd, f.path);
    if r.Ok? then |r.value| else 0
  }

  ghost predicate Linked(s: Fs, n: Id) {
    n == NULL || (n in s.nodes && s.nodes[n].parent != NULL)
  }

  /** Every frame is named, none deeper than one above it, and every handle looks at a node that was linked. */
  ghost predicate Traced(s: Fs, cwd: Id, w: Walker) {
    && (forall i :: 0 <= i < |w.frames| ==> Named(s, cwd, w.frames[i]))
    && (forall i, j :: 0 <= i < j < |w.frames| ==> Depth(s, cwd, w.frames[i]) <= Depth(s, cwd, w.frames[j]))
    && (forall i :: 0 <= i < |w.dirs| && w.dirs[i].Some? ==> Linked(s, w.dirs[i].value.next))
    && (forall i :: 0 <= i < |w.roots| ==> w.roots[i] != "")
  }

  lemma PopTraced(s: Fs, cwd: Id, w: Walker)
    requires Traced(s, cwd, w) && w.frames != []
    ensures Traced(s, cwd, Pop(w))
  {
    hide Named, Depth;
  }

  lemma {:induction false} SettleTraced(s: Fs, cwd: Id, w: Walker)
    requires Traced(s, cwd, w)
    ensures Traced(s, cwd, Settle(w))
    decreases |w.frames|
  {
    hide Traced, Pop;
    if w.frames != [] && Top(w).skip {
      PopTraced(s, cwd, w);
      SettleTraced(s, cwd, Pop(w));
    }
  }

  lemma SiblingLinked(s: Fs, R: set<Id>, n: Id)
    requires Inv(s)
    ensures Linked(s, SiblingAfter(Erase(s, R), n))
  {
    hide Acyclic, Names, Mounts, Detached, Filter;
    var s' := Erase(s, R);
    if n in s'.nodes && s'.nodes[n].parent in s'.kids {
      var l := s.kids[s'.nodes[n].parent];
      FilterAll(l, R);
      AfterIsListed(Filter(l, R), n);
    }
  }

  lemma {:induction false} AfterIsListed(l: seq<Id>, n: Id)
    ensures FsTree.After(l, n) == NULL || FsTree.After(l, n) in l
  {
    if l != [] && l[0] != n {
      AfterIsListed(l[1..], n);
    }
  }

  lemma ReaddirTraced(s: Fs, R: set<Id>, cwd: Id, w: Walker)
    requires Inv(s) && Traced(s, cwd, w) && w.frames != []
    ensures var (dirs, name) := Readdir(Erase(s, R), w.dirs, Top(w).descriptor);
      Traced(s, cwd, w.(dirs := dirs)) && (name != "" ==> Path.Name(name))
  {
    hide Inv, Named, Depth, SiblingAfter, Filter, Path.Name;
    var k := Top(w).descriptor;
    if k < |w.dirs| && w.dirs[k].Some? {
      var n := w.dirs[k].value.next;
      SiblingLinked(s, R, n);
      LinkedName(s, n);
    }
  }

  lemma LinkedName(s: Fs, n: Id)
    requires Inv(s) && Linked(s, n)
    ensures n in s.nodes ==> n != NULL && Path.Name(s.nodes[n].name)
  {
    hide Acyclic, Mounts, Detached;
  }

  /** A path below the top frame's is deeper than every frame. */
  lemma ChildDeeper(s: Fs, cwd: Id, f: Frame, name: string)
    requires Named(s, cwd, f) && Path.Name(name) && Spelt(s, cwd, f.path + "/" + name).Ok?
    ensures |Spelt(s, cwd, f.path + "/" + name).value| == Depth(s, cwd, f) + 1
  {
    hide Path.Normalize, Vfs.Getcwd, Stat;
    Path.NormalizeChildIs(Vfs.Getcwd(s, cwd, Path.PATH_MAX).value, f.path, name, Path.PATH_MAX);
  }

  /** What a frame stands for is not what a deeper path names. */
  lemma DeeperIsOther(s: Fs, cwd: Id, f: Frame, path: string)
    requires Inv(s) && Named(s, cwd, f) && Spelt(s, cwd, path).Ok? && Stat(s, cwd, path).Ok?
    requires |Spelt(s, cwd, path).value| > Depth(s, cwd, f)
    ensures Stat(s, cwd, path).value != f.inode
  {
    hide Inv, Spelt, Resolve;
    if Stat(s, cwd, path).value == f.inode {
      Vfs.OnePath(s, Spelt(s, cwd, path).value, Spelt(s, cwd, f.path).value);
    }
  }

  /** Classifying a path deeper than all frames reports no cycle, and a frame pushed for it is named. */
  lemma ClassifyTraced(s: Fs, R: set<Id>, cwd: Id, w: Walker, path: string, level: nat)
    requires Inv(s) && Traced(s, cwd, w) && path != ""
    requires Spelt(s, cwd, path).Ok? ==>
               forall i :: 0 <= i < |w.frames| ==> Depth(s, cwd, w.frames[i]) < |Spelt(s, cwd, path).value|
    ensures var (v, w') := Classify(Erase(s, R), cwd, w, path, level); Traced(s, cwd, w') && !v.info.Cycle?
  {
    hide Inv, Spelt, Stat, Named, Depth, Erase;
    var s' := Erase(s, R);
    var r := Stat(s', cwd, path);
    if r.Ok? {
      StatUnerased(s, cwd, path, R);
      forall i | 0 <= i < |w.frames| ensures w.frames[i].inode != r.value {
        DeeperIsOther(s, cwd, w.frames[i], path);
      }
      PushTraced(s, R, cwd, w, path, level, r.value);
    }
  }

  lemma PushTraced(s: Fs, R: set<Id>, cwd: Id, w: Walker, path: string, level: nat, n: Id)
    requires Inv(s) && Traced(s, cwd, w) && path != "" && Spelt(s, cwd, path).Ok? && Stat(s, cwd, path) == Ok(n)
    requires forall i :: 0 <= i < |w.frames| ==> Depth(s, cwd, w.frames[i]) < |Spelt(s, cwd, path).value|
    ensures var (dirs, d) := Opendir(Erase(s, R), w.dirs, n);
      d.Ok? ==> Traced(s, cwd, w.(frames := w.frames + [Frame(d.value, n, path, level, false)], dirs := dirs))
  {
    hide Inv, Spelt, Stat, Filter;
    var (dirs, d) := Opendir(Erase(s, R), w.dirs, n);
    if d.Ok? {
      FirstLinked(s, R, n);
      var f := Frame(d.value, n, path, level, false);
      assert Named(s, cwd, f) && Depth(s, cwd, f) == |Spelt(s, cwd, path).value|;
      hide Named, Depth;
    }
  }

  lemma FirstLinked(s: Fs, R: set<Id>, d: Id)
    requires Inv(s)
    ensures d in Erase(s, R).kids ==> Linked(s, ItemAt(Erase(s, R).kids[d], 0))
  {
    hide Acyclic, Names, Mounts, Detached, Filter;
    if d in s.kids { FilterAll(s.kids[d], R); }
  }

  /** No read, however much has been removed since the walk began, reports a cycle. */
  lemma ReadTraced(s: Fs, R: set<Id>, cwd: Id, w: Walker)
    requires Inv(s) && Traced(s, cwd, w)
    ensures var (v, w') := Read(Erase(s, R), cwd, w); Traced(s, cwd, w') && (v.Some? ==> !v.value.info.Cycle?)
  {
    hide Inv, Traced, Settle, Classify, Readdir, Pop, Erase, Path.Name, Spelt;
    SettleTraced(s, cwd, w);
    var w1 := Settle(w);
    if w1.frames != [] {
      ReaddirTraced(s, R, cwd, w1);
      var (dirs, name) := Readdir(Erase(s, R), w1.dirs, Top(w1).descriptor);
      var w2 := w1.(dirs := dirs);
      if name != "" {
        BelowTop(s, cwd, w2, name);
        ClassifyTraced(s, R, cwd, w2, Top(w1).path + "/" + name, Top(w1).level + 1);
      } else {
        PopTraced(s, cwd, w2);
      }
    } else if w1.roots != [] {
      WithoutRoot(s, cwd, w1);
      ClassifyTraced(s, R, cwd, w1.(roots := w1.roots[1..]), w1.roots[0], 0);
    }
  }

  lemma WithoutRoot(s: Fs, cwd: Id, w: Walker)
    requires Traced(s, cwd, w) && w.roots != []
    ensures Traced(s, cwd, w.(roots := w.roots[1..])) && w.roots[0] != ""
  {
    hide Named, Depth;
  }

  lemma BelowTop(s: Fs, cwd: Id, w: Walker, name: string)
    requires Traced(s, cwd, w) && w.frames != [] && Path.Name(name)
    ensures var path := Top(w).path + "/" + name;
      Spelt(s, cwd, path).Ok? ==>
        forall i :: 0 <= i < |w.frames| ==> Depth(s, cwd, w.frames[i]) < |Spelt(s, cwd, path).value|
  {
    hide Named, Depth, Spelt, Path.Name;
    var path := Top(w).path + "/" + name;
    assert Named(s, cwd, Top(w));
    if Spelt(s, cwd, path).Ok? { ChildDeeper(s, cwd, Top(w), name); }
  }

  // ----- Runs -------------------------------------------------------------------------------------

  lemma RemoveErases(s: Fs, cs: seq<string>) returns (R: set<Id>, Q: set<Id>)
    requires Inv(s)
    ensures UnlinkPath(s, cs).0 == Erase(s, R) && RmdirPath(s, cs).0 == Erase(s, Q)
  {
    hide Inv, Resolve, Protected, Erase, Detach;
    EraseNone(s);
    R, Q := {}, {};
    var r := Resolve(s, s.root, cs);
    if r.Ok? && r.value in s.nodes && s.nodes[r.value].parent in s.kids {
      DetachIsErase(s, r.value);
      if UnlinkPath(s, cs).1.Ok? { R := {r.value}; }
      if RmdirPath(s, cs).1.Ok? { Q := {r.value}; }
    }
  }

  /** After any action of the client the file system is the first one with some nodes erased. */
  lemma ActErases(s: Fs, R: set<Id>, cwd: Id, w: Walker, v: Visit, c: Client) returns (R': set<Id>)
    requires Inv(Erase(s, R))
    ensures Act(Erase(s, R), cwd, w, v, c).0 == Erase(s, R') && Inv(Erase(s, R'))
  {
    hide Inv, Erase, UnlinkPath, RmdirPath, Spelt;
    var s1 := Erase(s, R);
    R' := R;
    var cs := Spelt(s1, cwd, v.path);
    if cs.Ok? {
      var A, B := RemoveErases(s1, cs.value);
      RemoveKeeps(s1, cs.value);
      EraseTwice(s, R, A);
      EraseTwice(s, R, B);
      if Act(s1, cwd, w, v, c).0 != s1 { R' := if v.info.After? then R + B else R + A; }
    }
  }

  lemma ActTraced(s: Fs, s1: Fs, cwd: Id, w: Walker, v: Visit, c: Client)
    requires Traced(s, cwd, w)
    ensures Traced(s, cwd, Act(s1, cwd, w, v, c).1)
  {
    hide UnlinkText, RmdirText, Traced, Skip;
    SkipTraced(s, cwd, w);
  }

  /** Marking a frame does not change what it stands for. */
  lemma SkipTraced(s: Fs, cwd: Id, w: Walker)
    requires Traced(s, cwd, w)
    ensures Traced(s, cwd, Skip(w))
  {
    hide Spelt, Stat;
  }

  ghost predicate Acyclical(visits: seq<Visit>) {
    forall i :: 0 <= i < |visits| ==> !visits[i].info.Cycle?
  }

  lemma {:induction false} TurnsTraced(s: Fs, R: set<Id>, cwd: Id, w: Walker, c: Client, k: nat)
    requires Inv(s) && Inv(Erase(s, R)) && Traced(s, cwd, w)
    ensures Acyclical(Turns(Erase(s, R), cwd, w, c, k).visits)
    decreases k
  {
    hide Inv, Erase, Traced, Read, Act, Settle;
    if k > 0 {
      var s1 := Erase(s, R);
      ReadTraced(s, R, cwd, w);
      var (v, w1) := Read(s1, cwd, w);
      if v.Some? {
        var R' := ActErases(s, R, cwd, w1, v.value, c);
        ActTraced(s, s1, cwd, w1, v.value, c);
        var (s2, w2, bad) := Act(s1, cwd, w1, v.value, c);
        TurnsTraced(s, R', cwd, w2, c, k - 1);
        assert Turns(s1, cwd, w, c, k).visits == [v.value] + Turns(s2, cwd, w2, c, k - 1).visits;
      }
    }
  }

  /** FTS_DC never appears: for any arguments but the empty path, any client, any depth and any lengths. */
  lemma NoCycles(s: Fs, cwd: Id, texts: seq<string>, c: Client, k: nat)
    requires Inv(s) && forall i :: 0 <= i < |texts| ==> texts[i] != ""
    ensures Acyclical(Turns(s, cwd, Started(texts), c, k).visits)
  {
    hide Inv, Erase, Turns;
    EraseNone(s);
    assert Traced(s, cwd, Started(texts));
    TurnsTraced(s, {}, cwd, Started(texts), c, k);
  }
}
