/**
 The tree walk of libc/cb_fts.c: a stack of open directories, one handle each,
 advanced by every fts_read.
 */
module Fts {
  import opened Common
  import Path
  import opened FsTree
  import Directories
  import opened Subtrees

  const MAX_DEPTH := Path.PATH_MAX / 2

  /** FTS_D, FTS_DP, FTS_DEFAULT, FTS_DC, FTS_DNR and FTS_NS */
  datatype Info = Before | After | Leaf | Cycle | Unreadable | Unknown

  datatype Visit = Visit(info: Info, path: string, level: nat, error: Option<Error>)

  datatype Frame = Frame(descriptor: nat, inode: Id, path: string, level: nat, skip: bool)

  /** roots are the path arguments still to be walked. */
  datatype Walker = Walker(frames: seq<Frame>, dirs: Directories.Table, roots: seq<string>)

  function Top(w: Walker): Frame
    requires w.frames != []
  {
    w.frames[|w.frames| - 1]
  }

  /** closedir; a descriptor that is not open is left alone */
  function Closed(dirs: Directories.Table, descriptor: nat): (r: Directories.Table)
    ensures |r| == |dirs|
  {
    if descriptor < |dirs| then dirs[descriptor := None] else dirs
  }

  function Pop(w: Walker): (r: Walker)
    requires w.frames != []
    ensures |r.frames| == |w.frames| - 1
  {
    w.(frames := w.frames[..|w.frames| - 1], dirs := Closed(w.dirs, Top(w).descriptor))
  }

  /** The frames marked to be skipped leave without a word. */
  function Settle(w: Walker): (r: Walker)
    ensures r.frames != [] ==> !Top(r).skip
    ensures r.roots == w.roots && |r.frames| <= |w.frames|
    decreases |w.frames|
  {
    if w.frames != [] && Top(w).skip then Settle(Pop(w)) else w
  }

  /** libc readdir: the name of the next entry; the empty name is the end, or an error taken for it */
  function Readdir(s: Fs, dirs: Directories.Table, descriptor: nat): (Directories.Table, string) {
    if descriptor >= |dirs| || dirs[descriptor].None? then (dirs, "")
    else
      var h := dirs[descriptor].value;
      var c := Directories.Entry(s, h, Path.PATH_MAX);
      (dirs[descriptor := Some(Directories.Advance(s, h, Path.PATH_MAX))],
       if c in s.nodes && c != NULL then s.nodes[c].name else "")
  }

  predicate OnStack(frames: seq<Frame>, inode: Id) {
    exists i :: 0 <= i < |frames| && frames[i].inode == inode
  }

  /** classify: what a path is, and the frame pushed when it is a directory to be entered */
  function Classify(s: Fs, cwd: Id, w: Walker, path: string, level: nat): (Visit, Walker) {
    var r := Stat(s, cwd, path);
    if r.Err? then (Visit(Unknown, path, level, Some(r.error)), w)
    else if r.value in s.nodes && !s.nodes[r.value].kind.Directory? then (Visit(Leaf, path, level, None), w)
    else if OnStack(w.frames, r.value) then (Visit(Cycle, path, level, None), w)
    else if |w.frames| >= MAX_DEPTH then (Visit(Unreadable, path, level, Some(ENAMETOOLONG)), w)
    else
      var (dirs, d) := Directories.Opendir(s, w.dirs, r.value);
      if d.Err? then (Visit(Unreadable, path, level, Some(d.error)), w)
      else
        (Visit(Before, path, level, None),
         w.(frames := w.frames + [Frame(d.value, r.value, path, level, false)], dirs := dirs))
  }

  /** fts_read */
  function Read(s: Fs, cwd: Id, w0: Walker): (Option<Visit>, Walker) {
    var w := Settle(w0);
    if w.frames != [] then
      var top := Top(w);
      var (dirs, name) := Readdir(s, w.dirs, top.descriptor);
      if name != "" then
        var (v, w') := Classify(s, cwd, w.(dirs := dirs), top.path + "/" + name, top.level + 1);
        (Some(v), w')
      else (Some(Visit(After, top.path, top.level, None)), Pop(w.(dirs := dirs)))
    else if w.roots == [] then (None, w)
    else
      var (v, w') := Classify(s, cwd, w.(roots := w.roots[1..]), w.roots[0], 0);
      (Some(v), w')
  }

  /** fts_set(FTS_SKIP) on the entry just returned before its directory */
  function Skip(w: Walker): Walker {
    if w.frames == [] then w
    else w.(frames := w.frames[|w.frames| - 1 := Top(w).(skip := true)])
  }

  // ----- The handles held --------------------------------------------------------------

  /**
   Frame i holds descriptor i, on the directory it stands for, and nothing else is open; no directory is on the stack
   twice.
   */
  ghost predicate Held(w: Walker) {
    && |w.dirs| == Directories.MAX_DIRS && |w.frames| <= |w.dirs|
    && (forall i :: 0 <= i < |w.frames| ==>
          && w.frames[i].descriptor == i
          && w.dirs[i].Some? && w.dirs[i].value.dir == w.frames[i].inode)
    && (forall i :: |w.frames| <= i < |w.dirs| ==> w.dirs[i].None?)
    && (forall i, j :: 0 <= i < j < |w.frames| ==> w.frames[i].inode != w.frames[j].inode)
  }

  function InUse(dirs: Directories.Table): nat {
    if dirs == [] then 0 else InUse(dirs[..|dirs| - 1]) + if dirs[|dirs| - 1].Some? then 1 else 0
  }

  /** A walk holds exactly as many handles as it is deep. */
  lemma DepthIsHandles(w: Walker)
    requires Held(w)
    ensures InUse(w.dirs) == |w.frames|
  {
    assert w.dirs[..|w.dirs|] == w.dirs;
    UsedUpTo(w, |w.dirs|);
  }

  lemma {:induction false} UsedUpTo(w: Walker, k: nat)
    requires Held(w) && k <= |w.dirs|
    ensures InUse(w.dirs[..k]) == if k <= |w.frames| then k else |w.frames|
  {
    if k > 0 {
      assert w.dirs[..k][..k - 1] == w.dirs[..k - 1];
      UsedUpTo(w, k - 1);
    }
  }

  lemma PopHeld(w: Walker)
    requires Held(w) && w.frames != []
    ensures Held(Pop(w))
  {
  }

  lemma {:induction false} SettleHeld(w: Walker)
    requires Held(w)
    ensures Held(Settle(w))
    decreases |w.frames|
  {
    if w.frames != [] && Top(w).skip {
      PopHeld(w);
      SettleHeld(Pop(w));
    }
  }

  lemma ClassifyHeld(s: Fs, cwd: Id, w: Walker, path: string, level: nat)
    requires Held(w)
    ensures Held(Classify(s, cwd, w, path, level).1)
  {
    hide Stat;
    var r := Stat(s, cwd, path);
    if r.Ok? {
      var k := |w.frames|;
      Directories.FirstFree(w.dirs, k);
    }
  }

  lemma ReaddirHeld(s: Fs, w: Walker)
    requires Held(w) && w.frames != []
    ensures Held(w.(dirs := Readdir(s, w.dirs, Top(w).descriptor).0))
  {
    hide SiblingAfter;
  }

  /** Every read, in whatever state the file system is by then, keeps the handles in step with the stack. */
  lemma ReadHeld(s: Fs, cwd: Id, w: Walker)
    requires Held(w)
    ensures Held(Read(s, cwd, w).1)
  {
    hide Held, Settle, Classify, Readdir, Pop;
    SettleHeld(w);
    var w1 := Settle(w);
    if w1.frames != [] {
      ReaddirHeld(s, w1);
      var (dirs, name) := Readdir(s, w1.dirs, Top(w1).descriptor);
      if name != "" {
        ClassifyHeld(s, cwd, w1.(dirs := dirs), Top(w1).path + "/" + name, Top(w1).level + 1);
      } else {
        PopHeld(w1.(dirs := dirs));
      }
    } else if w1.roots != [] {
      WithoutRootHeld(w1);
      ClassifyHeld(s, cwd, w1.(roots := w1.roots[1..]), w1.roots[0], 0);
    }
  }

  lemma WithoutRootHeld(w: Walker)
    requires Held(w) && w.roots != []
    ensures Held(w.(roots := w.roots[1..]))
  {
  }

  lemma SkipHeld(w: Walker)
    requires Held(w)
    ensures Held(Skip(w))
  {
  }

  // ----- The walk as written -----------------------------------------------------------

  class Stream {
    var stack: seq<Frame>
    var dirs: Directories.Table
    const arguments: seq<string>
    var rootIndex: nat

    ghost predicate Valid()
      reads this
    {
      rootIndex <= |arguments|
    }

    ghost function View(): Walker
      requires Valid()
      reads this
    {
      Walker(stack, dirs, arguments[rootIndex..])
    }

    constructor (arguments: seq<string>)
      ensures Valid() && View() == Walker([], seq(Directories.MAX_DIRS, _ => None), arguments)
      ensures Held(View())
    {
      this.stack := [];
      this.dirs := seq(Directories.MAX_DIRS, _ => None);
      this.arguments := arguments;
      this.rootIndex := 0;
    }

    /** cycle_detected */
    method CycleDetected(inode: Id) returns (found: bool)
      ensures found == OnStack(stack, inode)
    {
      var i := 0;
      while i < |stack|
        invariant 0 <= i <= |stack|
        invariant forall k :: 0 <= k < i ==> stack[k].inode != inode
      {
        if stack[i].inode == inode { return true; }
        i := i + 1;
      }
      found := false;
    }

    method ClassifyEntry(s: Fs, cwd: Id, path: string, level: nat) returns (v: Visit)
      requires Valid()
      modifies this`stack, this`dirs
      ensures Valid() && (v, View()) == Classify(s, cwd, old(View()), path, level)
    {
      hide Stat, OnStack;
      var r := Stat(s, cwd, path);
      if r.Err? { return Visit(Unknown, path, level, Some(r.error)); }
      var n := r.value;
      if n in s.nodes && !s.nodes[n].kind.Directory? { return Visit(Leaf, path, level, None); }
      var cycle := CycleDetected(n);
      if cycle { return Visit(Cycle, path, level, None); }
      if |stack| >= MAX_DEPTH { return Visit(Unreadable, path, level, Some(ENAMETOOLONG)); }
      var (table, d) := Directories.Opendir(s, dirs, n);
      if d.Err? { return Visit(Unreadable, path, level, Some(d.error)); }
      dirs := table;
      stack := stack + [Frame(d.value, n, path, level, false)];
      v := Visit(Before, path, level, None);
    }

    method CloseTop()
      requires Valid() && stack != []
      modifies this`stack, this`dirs
      ensures Valid() && View() == Pop(old(View()))
    {
      dirs := Closed(dirs, stack[|stack| - 1].descriptor);
      stack := stack[..|stack| - 1];
    }

    method Next(s: Fs, cwd: Id) returns (v: Option<Visit>)
      requires Valid()
      modifies this
      ensures Valid() && (v, View()) == Read(s, cwd, old(View()))
    {
      hide Classify, Readdir, Pop;
      while stack != [] && stack[|stack| - 1].skip
        invariant Valid() && Settle(View()) == Settle(old(View()))
        decreases |stack|
      {
        CloseTop();
      }
      if stack != [] {
        var top := stack[|stack| - 1];
        var (table, name) := Readdir(s, dirs, top.descriptor);
        dirs := table;
        if name != "" {
          var e := ClassifyEntry(s, cwd, top.path + "/" + name, top.level + 1);
          return Some(e);
        }
        CloseTop();
        return Some(Visit(After, top.path, top.level, None));
      }
      if rootIndex == |arguments| { return None; }
      var root := arguments[rootIndex];
      rootIndex := rootIndex + 1;
      var e := ClassifyEntry(s, cwd, root, 0);
      v := Some(e);
    }

    /** fts_set */
    method SetSkip()
      requires Valid()
      modifies this`stack
      ensures Valid() && View() == Skip(old(View()))
    {
      if stack != [] {
        stack := stack[|stack| - 1 := stack[|stack| - 1].(skip := true)];
      }
    }
  }
}
