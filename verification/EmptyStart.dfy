/**
 A walk started at the empty path: it opens the working directory, but names
 every entry of it from the root. What it visits and removes is whatever has
 those names in the root; the entries of the working directory are spared.
 */
module EmptyStart {
  import opened Common
  import Path
  import opened FsTree
  import opened FsInvariant
  import opened Directories
  import opened Subtrees
  import opened Fts
  import opened Rm
  import opened RmTree
  import opened WalkCycles
  import Vfs

  /** The child path of the empty path is an entry of the root. */
  lemma RootedName(s: Fs, cwd: Id, name: string)
    requires Path.Name(name) && Spelt(s, cwd, "" + "/" + name).Ok?
    ensures Spelt(s, cwd, "" + "/" + name).value == [name]
  {
    hide Path.BoundedFold, Path.Components, Vfs.CwdUp, Vfs.NamesUp, Path.Render;
    Path.ComponentsJoin("", name);
    Path.ComponentsOfPiece(name);
    Path.EmptyPath();
    assert "" + "/" + name == "/" + name;
    assert [] + [name] == [name] && [name] + [] == [name];
    Path.OneStep([], name, [], Path.PATH_MAX);
    Path.FoldOfNothing([name], Path.PATH_MAX);
  }

  /** q does not name an entry of the directory at cs. */
  ghost predicate ApartFrom(q: seq<string>, cs: seq<string>) {
    |q| != |cs| + 1 || q[..|cs|] != cs
  }

  /** A frame other than the first: it is named, it is not the working directory, nor is it an entry of that. */
  ghost predicate StrayFrame(s: Fs, cwd: Id, d: Id, cs: seq<string>, f: Frame) {
    Named(s, cwd, f) && f.inode != d && ApartFrom(Spelt(s, cwd, f.path).value, cs)
  }

  ghost predicate Looking(s: Fs, w: Walker) {
    forall i :: 0 <= i < |w.dirs| && w.dirs[i].Some? ==> Linked(s, w.dirs[i].value.next)
  }

  /** The walk inside the working directory d, whose path is cs */
  ghost predicate Stray(s: Fs, cwd: Id, d: Id, cs: seq<string>, w: Walker) {
    && w.roots == [] && Looking(s, w)
    && (w.frames != [] ==> w.frames[0].path == "" && w.frames[0].inode == d)
    && (forall i :: 1 <= i < |w.frames| ==> StrayFrame(s, cwd, d, cs, w.frames[i]))
  }

  /** The setting: d is the working directory and not the root. */
  ghost predicate Below(s: Fs, cwd: Id, d: Id, cs: seq<string>) {
    Inv(s) && Spelt(s, cwd, "") == Ok(cs) && Resolve(s, s.root, cs) == Ok(d) && cs != [] && d in s.kids
  }

  lemma PopStray(s: Fs, cwd: Id, d: Id, cs: seq<string>, w: Walker)
    requires Stray(s, cwd, d, cs, w) && w.frames != []
    ensures Stray(s, cwd, d, cs, Pop(w))
  {
    hide StrayFrame, Linked;
  }

  lemma {:induction false} SettleStray(s: Fs, cwd: Id, d: Id, cs: seq<string>, w: Walker)
    requires Stray(s, cwd, d, cs, w)
    ensures Stray(s, cwd, d, cs, Settle(w))
    decreases |w.frames|
  {
    hide Stray, Pop;
    if w.frames != [] && Top(w).skip {
      PopStray(s, cwd, d, cs, w);
      SettleStray(s, cwd, d, cs, Pop(w));
    }
  }

  lemma ReaddirStray(s: Fs, R: set<Id>, w: Walker, k: nat)
    requires Inv(s) && Looking(s, w)
    ensures var (dirs, name) := Readdir(Erase(s, R), w.dirs, k);
      Looking(s, w.(dirs := dirs)) && (name != "" ==> Path.Name(name))
  {
    hide Inv, SiblingAfter, Filter, Path.Name;
    if k < |w.dirs| && w.dirs[k].Some? {
      var n := w.dirs[k].value.next;
      SiblingLinked(s, R, n);
      LinkedName(s, n);
    }
  }

  /** The path of the next entry names no entry of the working directory. */
  lemma ChildStrays(s: Fs, cwd: Id, d: Id, cs: seq<string>, w: Walker, name: string)
    requires Below(s, cwd, d, cs) && Stray(s, cwd, d, cs, w) && w.frames != [] && Path.Name(name)
    requires Spelt(s, cwd, Top(w).path + "/" + name).Ok?
    ensures ApartFrom(Spelt(s, cwd, Top(w).path + "/" + name).value, cs)
  {
    hide Inv, Spelt, Resolve, Path.Name, Looking;
    var q := Spelt(s, cwd, Top(w).path + "/" + name).value;
    if |w.frames| == 1 {
      RootedName(s, cwd, name);
    } else {
      var f := Top(w);
      assert StrayFrame(s, cwd, d, cs, f);
      ChildSpelt(s, cwd, f.path, name);
      var p := Spelt(s, cwd, f.path).value;
      assert q[..|p|] == p;
    }
  }

  lemma ChildSpelt(s: Fs, cwd: Id, path: string, name: string)
    requires path != "" && Spelt(s, cwd, path).Ok? && Path.Name(name) && Spelt(s, cwd, path + "/" + name).Ok?
    ensures Spelt(s, cwd, path + "/" + name).value == Spelt(s, cwd, path).value + [name]
  {
    hide Path.Normalize, Vfs.Getcwd;
    Path.NormalizeChildIs(Vfs.Getcwd(s, cwd, Path.PATH_MAX).value, path, name, Path.PATH_MAX);
  }

  lemma ClassifyStray(s: Fs, R: set<Id>, cwd: Id, d: Id, cs: seq<string>, w: Walker, path: string, level: nat)
    requires Inv(s) && Stray(s, cwd, d, cs, w) && w.frames != [] && path != ""
    requires Spelt(s, cwd, path).Ok? ==> ApartFrom(Spelt(s, cwd, path).value, cs)
    ensures Stray(s, cwd, d, cs, Classify(Erase(s, R), cwd, w, path, level).1)
    ensures Classify(Erase(s, R), cwd, w, path, level).0.path == path
  {
    hide Inv, Spelt, Stat, Named, Erase, ApartFrom;
    var r := Stat(Erase(s, R), cwd, path);
    if r.Ok? {
      StatUnerased(s, cwd, path, R);
      FirstLinked(s, R, r.value);
      assert Spelt(s, cwd, path).Ok? && Stat(s, cwd, path) == r;
      if !OnStack(w.frames, r.value) {
        assert w.frames[0].inode != r.value;
        PushStray(s, R, cwd, d, cs, w, path, level, r.value);
      }
    }
  }

  lemma PushStray(s: Fs, R: set<Id>, cwd: Id, d: Id, cs: seq<string>, w: Walker, path: string, level: nat, n: Id)
    requires Inv(s) && Stray(s, cwd, d, cs, w) && w.frames != [] && path != "" && n != d
    requires Spelt(s, cwd, path).Ok? && Stat(s, cwd, path) == Ok(n) && ApartFrom(Spelt(s, cwd, path).value, cs)
    ensures var (dirs, e) := Opendir(Erase(s, R), w.dirs, n);
      e.Ok? ==> Stray(s, cwd, d, cs, w.(frames := w.frames + [Frame(e.value, n, path, level, false)], dirs := dirs))
  {
    hide Inv, Spelt, Stat, Filter, ApartFrom;
    var (dirs, e) := Opendir(Erase(s, R), w.dirs, n);
    if e.Ok? {
      FirstLinked(s, R, n);
      assert StrayFrame(s, cwd, d, cs, Frame(e.value, n, path, level, false));
    }
  }

  /** What a visit of such a walk is at */
  ghost predicate StrayVisit(s: Fs, cwd: Id, cs: seq<string>, path: string) {
    path == "" || (Spelt(s, cwd, path).Ok? ==> ApartFrom(Spelt(s, cwd, path).value, cs))
  }

  lemma ReadStray(s: Fs, R: set<Id>, cwd: Id, d: Id, cs: seq<string>, w: Walker)
    requires Below(s, cwd, d, cs) && Stray(s, cwd, d, cs, w)
    ensures var (v, w') := Read(Erase(s, R), cwd, w);
      Stray(s, cwd, d, cs, w') && (v.Some? ==> StrayVisit(s, cwd, cs, v.value.path))
  {
    hide Below, Inv, Stray, Settle, Classify, Readdir, Pop, Erase, Path.Name, Spelt, ApartFrom;
    BelowMeans(s, cwd, d, cs);
    SettleStray(s, cwd, d, cs, w);
    var w1 := Settle(w);
    StrayMeans(s, cwd, d, cs, w1);
    if w1.frames != [] {
      ReaddirStray(s, R, w1, Top(w1).descriptor);
      var (dirs, name) := Readdir(Erase(s, R), w1.dirs, Top(w1).descriptor);
      var w2 := w1.(dirs := dirs);
      assert Stray(s, cwd, d, cs, w2) by { SameFrames(s, cwd, d, cs, w1, w2); }
      if name != "" {
        if Spelt(s, cwd, Top(w1).path + "/" + name).Ok? { ChildStrays(s, cwd, d, cs, w2, name); }
        ClassifyStray(s, R, cwd, d, cs, w2, Top(w1).path + "/" + name, Top(w1).level + 1);
      } else {
        PopStray(s, cwd, d, cs, w2);
      }
    }
  }

  lemma BelowMeans(s: Fs, cwd: Id, d: Id, cs: seq<string>)
    requires Below(s, cwd, d, cs)
    ensures Inv(s)
  {
    hide Inv;
  }

  lemma SameFrames(s: Fs, cwd: Id, d: Id, cs: seq<string>, w: Walker, w': Walker)
    requires Stray(s, cwd, d, cs, w) && Looking(s, w') && w' == w.(dirs := w'.dirs)
    ensures Stray(s, cwd, d, cs, w')
  {
    hide StrayFrame, Looking;
  }

  lemma StrayMeans(s: Fs, cwd: Id, d: Id, cs: seq<string>, w: Walker)
    requires Stray(s, cwd, d, cs, w)
    ensures Looking(s, w) && w.roots == []
    ensures w.frames != [] ==> StrayVisit(s, cwd, cs, Top(w).path)
  {
    hide Looking, Spelt, Named;
    if |w.frames| > 1 { assert StrayFrame(s, cwd, d, cs, Top(w)); }
  }

  // ----- What is removed -----------------------------------------------------------------------

  lemma RemovesResolved(s: Fs, q: seq<string>)
    requires Inv(s)
    ensures var r := Resolve(s, s.root, q);
      && (UnlinkPath(s, q).0 == s || (r.Ok? && !Protected(s, r.value) && UnlinkPath(s, q).0 == Erase(s, {r.value})))
      && (RmdirPath(s, q).0 == s || (r.Ok? && !Protected(s, r.value) && RmdirPath(s, q).0 == Erase(s, {r.value})))
  {
    hide Inv, Resolve, Protected, Erase, Detach;
    var r := Resolve(s, s.root, q);
    if r.Ok? && r.value in s.nodes && s.nodes[r.value].parent in s.kids { DetachIsErase(s, r.value); }
  }

  /** An entry of the working directory has the path of that and its name, and no other. */
  lemma EntryPath(s: Fs, cwd: Id, d: Id, cs: seq<string>, n: Id, q: seq<string>)
    requires Below(s, cwd, d, cs) && n in s.kids[d] && !Protected(s, n) && Resolve(s, s.root, q) == Ok(n)
    ensures |q| == |cs| + 1 && q[..|cs|] == cs
  {
    hide Acyclic, Mounts, Detached, Spelt, Resolve, FindChild;
    NameFinds(s, d, n);
    var name := s.nodes[n].name;
    ParentIsDirectory(s.nodes, s.kids, d, n);
    assert Lookup(s, d, name) == Ok(n) && Down(s, n) == n;
    hide Inv;
    Vfs.ResolveLast(s, s.root, cs, name);
    Vfs.OnePath(s, q, cs + [name]);
  }

  /** What a visit's path resolves to, if it may be removed, is no entry of the working directory. */
  lemma SparesEntry(s: Fs, R: set<Id>, cwd: Id, d: Id, cs: seq<string>, path: string, n: Id)
    requires Below(s, cwd, d, cs) && StrayVisit(s, cwd, cs, path)
    requires Stat(Erase(s, R), cwd, path) == Ok(n) && !Protected(s, n)
    ensures n !in s.kids[d]
  {
    hide Below, Inv, Erase, Spelt, Protected, Resolve;
    BelowMeans(s, cwd, d, cs);
    StatUnerased(s, cwd, path, R);
    EmptyIsCwd(s, cwd, d, cs);
    if n in s.kids[d] {
      EntryPath(s, cwd, d, cs, n, Spelt(s, cwd, path).value);
    }
  }

  lemma EmptyIsCwd(s: Fs, cwd: Id, d: Id, cs: seq<string>)
    requires Below(s, cwd, d, cs)
    ensures Spelt(s, cwd, "") == Ok(cs) && d in s.kids
  {
    hide Inv, Spelt;
  }

  lemma StrayAct(s: Fs, R: set<Id>, cwd: Id, d: Id, cs: seq<string>, w: Walker, v: Visit,
                 c: Client) returns (R': set<Id>)
    requires Below(s, cwd, d, cs) && Inv(Erase(s, R)) && d in s.kids && (forall n :: n in s.kids[d] ==> n !in R)
    requires StrayVisit(s, cwd, cs, v.path)
    ensures Act(Erase(s, R), cwd, w, v, c).0 == Erase(s, R') && Inv(Erase(s, R'))
    ensures forall n :: n in s.kids[d] ==> n !in R'
  {
    hide Below, Inv, Erase, UnlinkPath, RmdirPath, Spelt, Protected, StrayVisit, Resolve;
    var s1 := Erase(s, R);
    R' := R;
    var q := Spelt(s1, cwd, v.path);
    if q.Ok? {
      RemovesResolved(s1, q.value);
      RemoveKeeps(s1, q.value);
      EraseKeepsMounts(s, R);
      var r := Resolve(s1, s1.root, q.value);
      if Act(s1, cwd, w, v, c).0 != s1 {
        EraseTwice(s, R, {r.value});
        SparesEntry(s, R, cwd, d, cs, v.path, r.value);
        R' := R + {r.value};
      }
    }
  }

  lemma SkipStray(s: Fs, cwd: Id, d: Id, cs: seq<string>, w: Walker)
    requires Stray(s, cwd, d, cs, w)
    ensures Stray(s, cwd, d, cs, Skip(w))
  {
    hide Spelt, Stat, ApartFrom;
  }

  lemma ActStray(s: Fs, s1: Fs, cwd: Id, d: Id, cs: seq<string>, w: Walker, v: Visit, c: Client)
    requires Stray(s, cwd, d, cs, w)
    ensures Stray(s, cwd, d, cs, Act(s1, cwd, w, v, c).1)
  {
    hide UnlinkText, RmdirText, Stray, Skip;
    SkipStray(s, cwd, d, cs, w);
  }

  lemma ListSpared(s: Fs, R: set<Id>, d: Id)
    requires d in s.kids && forall n :: n in s.kids[d] ==> n !in R
    ensures d in Erase(s, R).kids && Erase(s, R).kids[d] == s.kids[d]
  {
    hide Filter;
    FilterNone(s.kids[d], R);
  }

  ghost predicate Spared(s: Fs, d: Id, s': Fs) {
    d in s.kids && d in s'.kids && s'.kids[d] == s.kids[d]
  }

  lemma {:induction false} TurnsSpare(s: Fs, R: set<Id>, cwd: Id, d: Id, cs: seq<string>, w: Walker, c: Client, k: nat)
    requires Below(s, cwd, d, cs) && Inv(Erase(s, R)) && d in s.kids && (forall n :: n in s.kids[d] ==> n !in R)
    requires Stray(s, cwd, d, cs, w)
    ensures Spared(s, d, Turns(Erase(s, R), cwd, w, c, k).fs)
    decreases k
  {
    hide Below, Inv, Erase, Stray, Read, Act, Settle, StrayVisit;
    ListSpared(s, R, d);
    if k > 0 {
      var s1 := Erase(s, R);
      ReadStray(s, R, cwd, d, cs, w);
      var (v, w1) := Read(s1, cwd, w);
      if v.Some? {
        var R' := StrayAct(s, R, cwd, d, cs, w1, v.value, c);
        ActStray(s, s1, cwd, d, cs, w1, v.value, c);
        TurnsSpare(s, R', cwd, d, cs, Act(s1, cwd, w1, v.value, c).1, c, k - 1);
      }
    }
  }

  lemma StrayStart(s: Fs, cwd: Id, d: Id, cs: seq<string>)
    requires Below(s, cwd, d, cs)
    ensures var (v, w) := Read(s, cwd, Started([""]));
      v.Some? && v.value.path == "" && Stray(s, cwd, d, cs, w)
  {
    hide Inv, Spelt, Resolve;
    var w := Started([""]);
    assert Settle(w) == w;
    EraseNone(s);
    FirstLinked(s, {}, d);
  }

  /** rm started at the empty path never removes an entry of the working directory, whatever the flags and answers. */
  lemma EmptyStartSpares(s: Fs, cwd: Id, d: Id, cs: seq<string>, c: Client, k: nat)
    requires Below(s, cwd, d, cs)
    ensures Spared(s, d, Turns(s, cwd, Started([""]), c, k).fs)
  {
    hide Below, Inv, Erase, Stray, Read, Act, Settle;
    BelowMeans(s, cwd, d, cs);
    EmptyIsCwd(s, cwd, d, cs);
    EraseNone(s);
    if k > 0 {
      StrayStart(s, cwd, d, cs);
      var (v, w1) := Read(s, cwd, Started([""]));
      var R' := StrayAct(s, {}, cwd, d, cs, w1, v.value, c);
      ActStray(s, s, cwd, d, cs, w1, v.value, c);
      TurnsSpare(s, R', cwd, d, cs, Act(s, cwd, w1, v.value, c).1, c, k - 1);
    }
  }

  /** What it does remove: after two turns of rm -rf, a file of the root that has the name of the first entry. */
  lemma EmptyStartRemovesOther(s: Fs, cwd: Id, d: Id, cs: seq<string>, m: Id, c: Client)
    requires Below(s, cwd, d, cs) && c.force && d in s.nodes && s.nodes[d].kind.Directory? && s.kids[d] != []
    requires s.kids[d][0] in s.nodes && |s.nodes[s.kids[d][0]].name| + 1 < Path.PATH_MAX
    requires Lookup(s, s.root, s.nodes[s.kids[d][0]].name) == Ok(m) && m in s.nodes && !s.nodes[m].kind.Directory?
    ensures s.nodes[m].parent in s.kids && Turns(s, cwd, Started([""]), c, 2).fs == Detach(s, m)
  {
    hide Inv, Spelt, Resolve, FindChild, Lookup;
    var name, w := s.nodes[s.kids[d][0]].name, Started([""]);
    FirstName(s, d);
    FoundIsChild(s, s.root, name);
    IdsPositive(s);
    IsLinked(s, m);
    FilesAreUnprotected(s, m);
    SpeltRooted(s, cwd, name);
    RootFile(s, m, name);
    UnlinkKeeps(s, m);
    assert Settle(w) == w;
    assert NextRoot(w) == Started([]) && Held(Started([]));
    Enters(s, cwd, Started([]), "", 0, d);
    var w1 := Pushed(Started([]), d, "", 0, s.kids[d][0]);
    assert Read(s, cwd, w) == (Some(Visit(Before, "", 0, None)), w1);
    SecondTurn(s, cwd, d, w1, name, m, c);
    assert Turns(s, cwd, w, c, 2) == Later([Visit(Before, "", 0, None)], false, Turns(s, cwd, w1, c, 1));
  }

  lemma FirstName(s: Fs, d: Id)
    requires Inv(s) && d in s.kids && s.kids[d] != []
    ensures var n := s.kids[d][0]; n in s.nodes && n != NULL && Path.Name(s.nodes[n].name)
  {
    hide Acyclic, Mounts, Detached;
    assert s.kids[d][0] in s.kids[d];
  }

  lemma SpeltRooted(s: Fs, cwd: Id, name: string)
    requires Path.Name(name) && |name| + 1 < Path.PATH_MAX && Spelt(s, cwd, "").Ok?
    ensures Spelt(s, cwd, "" + "/" + name) == Ok([name])
  {
    hide Path.BoundedFold, Path.Components, Vfs.CwdUp, Vfs.NamesUp;
    Path.ComponentsJoin("", name);
    Path.ComponentsOfPiece(name);
    Path.EmptyPath();
    assert "" + "/" + name == "/" + name;
    assert [] + [name] == [name] && [name] + [] == [name];
    Path.OneStep([], name, [], Path.PATH_MAX);
    Path.FoldOfNothing([name], Path.PATH_MAX);
    Path.RenderOne(name);
  }

  lemma RootFile(s: Fs, m: Id, name: string)
    requires Lookup(s, s.root, name) == Ok(m) && !Protected(s, m)
    ensures Resolve(s, s.root, [name]) == Ok(m)
  {
    assert [name][1..] == [];
  }

  lemma SecondTurn(s: Fs, cwd: Id, d: Id, w: Walker, name: string, m: Id, c: Client)
    requires c.force && d in s.kids && s.kids[d] != [] && s.kids[d][0] in s.nodes && s.kids[d][0] != NULL
    requires s.nodes[s.kids[d][0]].name == name && name != "" && |name| < Path.PATH_MAX
    requires w == Pushed(Started([]), d, "", 0, s.kids[d][0])
    requires Spelt(s, cwd, "" + "/" + name) == Ok([name]) && Resolve(s, s.root, [name]) == Ok(m)
    requires m in s.nodes && !s.nodes[m].kind.Directory? && !Protected(s, m) && s.nodes[m].parent in s.kids
    requires Unlink(s, m) == (Detach(s, m), Ok(()))
    ensures Turns(s, cwd, w, c, 1).fs == Detach(s, m)
  {
    hide Spelt, Resolve, SiblingAfter, Unlink, Detach, Protected;
    assert Settle(w) == w;
    var (dirs, n) := Readdir(s, w.dirs, Top(w).descriptor);
    assert n == name;
    var v := Visit(Leaf, "" + "/" + name, 1, None);
    assert Read(s, cwd, w) == (Some(v), w.(dirs := dirs));
  }
}
