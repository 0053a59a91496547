/**
 rm -r: the client loop of rm_tree over the tree walk, removing what the walk
 has just returned. The reference is plain recursion over the tree.
 */
module Rm {
  import opened Common
  import Path
  import opened FsTree
  import opened FsInvariant
  import opened Directories
  import opened Subtrees
  import opened Fts
  import Vfs

  /** The flags that matter, and what check() answers for a path */
  datatype Client = Client(force: bool, needstat: bool, examine: string -> bool, remove: string -> bool)

  predicate Examines(c: Client, path: string) {
    c.force || c.examine(path)
  }

  predicate Removes(c: Client, path: string) {
    c.force || c.remove(path)
  }

  predicate Nonexistent(e: Error) {
    e == ENOENT || e == ENAMETOOLONG || e == ENOTDIR
  }

  // ----- The client loop --------------------------------------------------------------

  function TryUnlink(s: Fs, cwd: Id, path: string, c: Client): (Fs, bool) {
    var (s', r) := UnlinkText(s, cwd, path);
    (s', r.Err? && !(c.force && Nonexistent(r.error)))
  }

  function TryRmdir(s: Fs, cwd: Id, path: string, c: Client): (Fs, bool) {
    var (s', r) := RmdirText(s, cwd, path);
    (s', r.Err? && !(c.force && r.error == ENOENT))
  }

  /** One turn of the loop after fts_read: the new file system, the walker, and whether eval is set */
  function Act(s: Fs, cwd: Id, w: Walker, v: Visit, c: Client): (Fs, Walker, bool) {
    match v.info
    case Unreadable => (s, w, !c.force || v.error != Some(ENOENT))
    case Unknown =>
      if c.force && v.error.Some? && Nonexistent(v.error.value) then (s, w, false)
      else if c.needstat then (s, w, true)
      else var (s', bad) := TryUnlink(s, cwd, v.path, c); (s', w, bad)
    case Before => (s, if Examines(c, v.path) then w else Skip(w), false)
    case After =>
      if Removes(c, v.path) then var (s', bad) := TryRmdir(s, cwd, v.path, c); (s', w, bad) else (s, w, false)
    case _ =>
      if Removes(c, v.path) then var (s', bad) := TryUnlink(s, cwd, v.path, c); (s', w, bad) else (s, w, false)
  }

  datatype Status = Status(fs: Fs, walker: Walker, visits: seq<Visit>, failed: bool)

  function Later(visits: seq<Visit>, failed: bool, r: Status): Status {
    r.(visits := visits + r.visits, failed := failed || r.failed)
  }

  /** Up to k turns of the loop; it ends when the walk does. */
  function Turns(s: Fs, cwd: Id, w: Walker, c: Client, k: nat): Status
    decreases k
  {
    if k == 0 then Status(s, Settle(w), [], false)
    else
      var (v, w1) := Read(s, cwd, w);
      if v.None? then Status(s, w1, [], false)
      else
        var (s2, w2, bad) := Act(s, cwd, w1, v.value, c);
        Later([v.value], bad, Turns(s2, cwd, w2, c, k - 1))
  }

  // ----- The reference: recursion over the tree -------------------------------------------

  function Child(path: string, name: string): string {
    path + "/" + name
  }

  /** The nodes that go: files the user agrees to, and directories examined, agreed to and empty by then */
  function Removed(f: Forest, path: string, c: Client): set<Id> {
    match f
    case Nil => {}
    case File(id, name, rest) => (if Removes(c, Child(path, name)) then {id} else {}) + Removed(rest, path, c)
    case Dir(id, name, kids, rest) =>
      var p := Child(path, name);
      var below := if Examines(c, p) then Removed(kids, p, c) else {};
      below
      + (if Examines(c, p) && Removes(c, p) && AllIn(Heads(kids), below) then {id} else {})
      + Removed(rest, path, c)
  }

  predicate AllIn(l: seq<Id>, R: set<Id>) {
    forall n :: n in l ==> n in R
  }

  /** Pre-order and post-order; a directory that is not examined has neither descendants nor a second visit. */
  function Visits(f: Forest, path: string, level: nat, c: Client): seq<Visit> {
    match f
    case Nil => []
    case File(id, name, rest) =>
      [Visit(Leaf, Child(path, name), level, None)] + Visits(rest, path, level, c)
    case Dir(id, name, kids, rest) =>
      var p := Child(path, name);
      [Visit(Before, p, level, None)]
      + (if Examines(c, p) then Visits(kids, p, level + 1, c) + [Visit(After, p, level, None)] else [])
      + Visits(rest, path, level, c)
  }

  /** eval is set when a directory the user agreed to is not empty. */
  predicate Fails(f: Forest, path: string, c: Client) {
    match f
    case Nil => false
    case File(_, _, rest) => Fails(rest, path, c)
    case Dir(id, name, kids, rest) =>
      var p := Child(path, name);
      || (Examines(c, p) && (Fails(kids, p, c) || (Removes(c, p) && !AllIn(Heads(kids), Removed(kids, p, c)))))
      || Fails(rest, path, c)
  }

  lemma {:induction false} RemovedWithin(f: Forest, path: string, c: Client)
    ensures Removed(f, path, c) <= Ids(f)
  {
    match f {
      case Nil =>
      case File(_, _, rest) => RemovedWithin(rest, path, c);
      case Dir(_, name, kids, rest) =>
        RemovedWithin(kids, Child(path, name), c);
        RemovedWithin(rest, path, c);
    }
  }

  // ----- Where the walk stands ------------------------------------------------------------

  /** Every path below fits its buffers, as given and as normalised. */
  ghost predicate Fits(f: Forest, path: string, cs: seq<string>) {
    match f
    case Nil => true
    case File(_, name, rest) => Short(path, cs, name) && Fits(rest, path, cs)
    case Dir(_, name, kids, rest) =>
      Short(path, cs, name) && Fits(kids, Child(path, name), cs + [name]) && Fits(rest, path, cs)
  }

  ghost predicate Short(path: string, cs: seq<string>, name: string) {
    |Child(path, name)| < Path.PATH_MAX && |Path.Render(cs + [name])| < Path.PATH_MAX
  }

  /** The nodes ids are not on the way to the path cs nor to the working directory. */
  ghost predicate Outside(s: Fs, cwd: Id, cs: seq<string>, ids: set<Id>) {
    && (forall n :: n in Trace(s, s.root, cs) ==> n !in ids)
    && Vfs.CwdUp(s, cwd, 0).Ok?
    && (forall n :: n in CwdChain(s, cwd) ==> n !in ids)
  }

  /**
   path leads to the directory d, whose list ends with f; nothing in the way is in D, the set of nodes that may be
   removed.
   */
  ghost predicate Place(s: Fs, cwd: Id, d: Id, path: string, cs: seq<string>, f: Forest, D: set<Id>) {
    && Inv(s) && path != ""
    && Spelt(s, cwd, path) == Ok(cs) && Resolve(s, s.root, cs) == Ok(d)
    && Ahead(s, d, Heads(f)) && Match(s.nodes, s.kids, f) && Proper(f)
    && (forall n :: n in Ids(f) ==> !Protected(s, n))
    && Outside(s, cwd, cs, Ids(f) * D) && Fits(f, path, cs)
  }

  /** Removing other nodes, off the way, leaves the place as it is. */
  lemma PlaceErased(s: Fs, cwd: Id, d: Id, path: string, cs: seq<string>, f: Forest, R: set<Id>, D: set<Id>)
    requires Place(s, cwd, d, path, cs, f, D) && Inv(Erase(s, R))
    requires R !! Ids(f) && Outside(s, cwd, cs, R)
    ensures Place(Erase(s, R), cwd, d, path, cs, f, D)
  {
    hide Inv, Erase, Ahead, Match, Proper, Fits, Spelt, Resolve, Trace, CwdChain, Vfs.CwdUp, Protected;
    SpeltErased(s, cwd, path, R);
    ResolveErased(s, s.root, cs, R);
    HeadsInIds(f);
    AheadErased(s, d, Heads(f), R);
    MatchErased(s, f, R);
    EraseKeepsMounts(s, R);
  }

  lemma PlaceRest(s: Fs, cwd: Id, d: Id, path: string, cs: seq<string>, f: Forest, D: set<Id>)
    requires Place(s, cwd, d, path, cs, f, D) && !f.Nil?
    ensures Place(s, cwd, d, path, cs, f.rest, D)
  {
    hide Inv, Spelt, Resolve, Trace, CwdChain, Vfs.CwdUp, Protected, Short, Ahead, Outside;
    assert Heads(f) == [f.id] + Heads(f.rest);
    assert Heads(f)[1..] == Heads(f.rest);
    AfterAhead(s, d, Heads(f));
    OutsideFewer(s, cwd, cs, Ids(f) * D, Ids(f.rest) * D);
  }

  /** The path of the first tree leads to it, and only its name is new on the way. */
  lemma HeadNamed(s: Fs, cwd: Id, d: Id, path: string, cs: seq<string>, f: Forest, D: set<Id>)
    requires Place(s, cwd, d, path, cs, f, D) && !f.Nil?
    ensures f.id in s.nodes && f.id in s.kids && f.id != NULL && s.nodes[f.id].parent == d && d in s.kids
    ensures s.nodes[f.id].name == f.name
    ensures Path.Name(f.name) && f.id in Ids(f)
    ensures Spelt(s, cwd, Child(path, f.name)) == Ok(cs + [f.name])
    ensures Resolve(s, s.root, cs + [f.name]) == Ok(f.id)
    ensures Trace(s, s.root, cs + [f.name]) == Trace(s, s.root, cs) + [f.id]
  {
    hide Inv, Resolve, Trace, Spelt, CwdChain, Vfs.CwdUp, Path.Render, Ahead;
    HeadFound(s, d, f);
    SpeltChild(s, cwd, path, f.name);
    Vfs.ResolveLast(s, s.root, cs, f.name);
    TraceLast(s, s.root, cs, f.name);
    assert Down(s, f.id) == f.id;
  }

  lemma HeadFound(s: Fs, d: Id, f: Forest)
    requires Inv(s) && Ahead(s, d, Heads(f)) && Match(s.nodes, s.kids, f) && !f.Nil?
    ensures f.id in s.nodes && f.id in s.kids && f.id != NULL && s.nodes[f.id].parent == d && d in s.kids
    ensures s.nodes[f.id].name == f.name
    ensures Path.Name(f.name) && Lookup(s, d, f.name) == Ok(f.id)
  {
    hide Acyclic, Mounts, Detached, FindChild;
    assert Heads(f)[0] == f.id;
    var l := s.kids[d];
    assert l[|l| - |Heads(f)|] == f.id;
    assert f.id in l;
    NameFinds(s, d, f.id);
  }

  lemma NameFinds(s: Fs, d: Id, c: Id)
    requires Links(s.nodes, s.kids) && Names(s.nodes) && d in s.kids && c in s.kids[d]
    ensures c in s.nodes && FindChild(s.nodes, s.kids[d], s.nodes[c].name) == c
  {
    FindChildSelf(s.nodes, s.kids[d], c);
  }

  /** Entering the first tree */
  lemma PlaceKids(s: Fs, cwd: Id, d: Id, path: string, cs: seq<string>, f: Forest, D: set<Id>)
    requires Place(s, cwd, d, path, cs, f, D) && f.Dir?
    ensures Place(s, cwd, f.id, Child(path, f.name), cs + [f.name], f.kids, D)
  {
    hide Inv, Resolve, Trace, Spelt, CwdChain, Vfs.CwdUp, Protected, Short;
    HeadNamed(s, cwd, d, path, cs, f, D);
    assert s.kids[f.id][0..] == Heads(f.kids);
  }

  /**
   The top frame reads the directory d, with f still to come; none of it is on the stack, and it fits in the handles
   left.
   */
  ghost predicate At(w: Walker, d: Id, path: string, level: nat, f: Forest) {
    && Held(w) && w.frames != []
    && Top(w) == Frame(|w.frames| - 1, d, path, level, false)
    && w.dirs[|w.frames| - 1] == Some(Handle(d, ItemAt(Heads(f), 0)))
    && (forall i :: 0 <= i < |w.frames| ==> w.frames[i].inode !in Ids(f))
    && |w.frames| + Nesting(f) <= MAX_DIRS
  }

  /** The top handle with another look-ahead */
  function Moved(w: Walker, next: Id): Walker
    requires w.frames != [] && |w.frames| <= |w.dirs|
  {
    w.(dirs := w.dirs[|w.frames| - 1 := Some(Handle(Top(w).inode, next))])
  }

  function Pushed(w: Walker, n: Id, path: string, level: nat, next: Id): Walker
    requires |w.frames| < |w.dirs|
  {
    w.(frames := w.frames + [Frame(|w.frames|, n, path, level, false)],
       dirs := w.dirs[|w.frames| := Some(Handle(n, next))])
  }

  lemma AtRest(w: Walker, d: Id, path: string, level: nat, f: Forest)
    requires At(w, d, path, level, f) && !f.Nil?
    ensures At(Moved(w, ItemAt(Heads(f.rest), 0)), d, path, level, f.rest)
  {
  }

  lemma AtKids(w: Walker, path: string, level: nat, f: Forest)
    requires f.Dir? && Proper(f) && Held(w) && |w.frames| + Nesting(f) <= MAX_DIRS
    requires forall i :: 0 <= i < |w.frames| ==> w.frames[i].inode !in Ids(f)
    ensures |w.frames| < MAX_DIRS
    ensures At(Pushed(w, f.id, path, level, ItemAt(Heads(f.kids), 0)), f.id, path, level, f.kids)
  {
    var w' := Pushed(w, f.id, path, level, ItemAt(Heads(f.kids), 0));
    assert |w'.frames| == |w.frames| + 1;
    forall i | 0 <= i < |w'.frames| ensures w'.frames[i].inode !in Ids(f.kids) {
      if i < |w.frames| { assert w'.frames[i] == w.frames[i]; }
    }
    PushedHeld(w, f.id, path, level, ItemAt(Heads(f.kids), 0));
  }

  lemma MovedHeld(w: Walker, next: Id)
    requires Held(w) && w.frames != []
    ensures Held(Moved(w, next))
  {
  }

  /** At the end of what the top frame reads */
  lemma AtEnd(w: Walker, d: Id, path: string, level: nat, f: Forest)
    requires At(w, d, path, level, f)
    ensures At(Moved(w, NULL), d, path, level, Nil)
  {
    hide Held;
    MovedHeld(w, NULL);
    assert |w.frames| <= |w.dirs| by { AtMeans(w, d, path, level, f); }
  }

  lemma PushedHeld(w: Walker, n: Id, path: string, level: nat, next: Id)
    requires Held(w) && |w.frames| < |w.dirs| && forall i :: 0 <= i < |w.frames| ==> w.frames[i].inode != n
    ensures Held(Pushed(w, n, path, level, next))
  {
  }

  lemma PopPushed(w: Walker, n: Id, path: string, level: nat, next: Id, other: Id)
    requires Held(w) && |w.frames| < |w.dirs|
    ensures Pop(Moved(Pushed(w, n, path, level, next), other)) == w
  {
    var w' := Moved(Pushed(w, n, path, level, next), other);
    assert w'.frames[..|w.frames|] == w.frames;
    assert Pop(w').dirs == w.dirs;
  }

  lemma Reads(s: Fs, cwd: Id, w: Walker, d: Id, path: string, cs: seq<string>, level: nat, f: Forest, D: set<Id>)
    requires Place(s, cwd, d, path, cs, f, D) && At(w, d, path, level, f) && !f.Nil?
    ensures Readdir(s, w.dirs, Top(w).descriptor) == (Moved(w, ItemAt(Heads(f.rest), 0)).dirs, f.name)
    ensures f.name != ""
  {
    hide Inv, Resolve, Trace, Spelt, CwdChain, Vfs.CwdUp, Protected, SiblingAfter, Outside, Proper;
    HeadNamed(s, cwd, d, path, cs, f, D);
    assert Heads(f) == [f.id] + Heads(f.rest);
    AfterAhead(s, d, Heads(f));
    assert |f.name| < Path.PATH_MAX;
  }

  /** The read that meets a file */
  lemma ReadsFile(s: Fs, cwd: Id, w: Walker, d: Id, path: string, cs: seq<string>, level: nat, f: Forest, D: set<Id>)
    requires Place(s, cwd, d, path, cs, f, D) && At(w, d, path, level, f) && f.File?
    ensures Read(s, cwd, w) ==
            (Some(Visit(Leaf, Child(path, f.name), level + 1, None)), Moved(w, ItemAt(Heads(f.rest), 0)))
  {
    hide Inv, Resolve, Trace, Spelt, Readdir, Outside, Proper, Held, Fits, Heads;
    Reads(s, cwd, w, d, path, cs, level, f, D);
    HeadNamed(s, cwd, d, path, cs, f, D);
  }

  /** The read that meets a directory and enters it */
  lemma ReadsDir(s: Fs, cwd: Id, w: Walker, d: Id, path: string, cs: seq<string>, level: nat, f: Forest, D: set<Id>)
    requires Place(s, cwd, d, path, cs, f, D) && At(w, d, path, level, f) && f.Dir?
    ensures |w.frames| < |w.dirs|
    ensures Read(s, cwd, w) ==
            (Some(Visit(Before, Child(path, f.name), level + 1, None)),
             Pushed(Moved(w, ItemAt(Heads(f.rest), 0)), f.id, Child(path, f.name), level + 1, ItemAt(Heads(f.kids), 0)))
  {
    hide Inv, Resolve, Trace, Spelt, Readdir, Outside, Proper, Fits, Heads;
    Reads(s, cwd, w, d, path, cs, level, f, D);
    HeadNamed(s, cwd, d, path, cs, f, D);
    Enters(s, cwd, Moved(w, ItemAt(Heads(f.rest), 0)), Child(path, f.name), level + 1, f.id);
  }

  lemma Enters(s: Fs, cwd: Id, w: Walker, path: string, level: nat, n: Id)
    requires Stat(s, cwd, path) == Ok(n) && n in s.nodes && n in s.kids && s.nodes[n].kind.Directory?
    requires Held(w) && |w.frames| < MAX_DIRS && forall i :: 0 <= i < |w.frames| ==> w.frames[i].inode != n
    ensures Classify(s, cwd, w, path, level) ==
            (Visit(Before, path, level, None), Pushed(w, n, path, level, ItemAt(s.kids[n], 0)))
  {
    hide Stat;
    FirstFree(w.dirs, |w.frames|);
  }

  /** The read at the end of a directory */
  lemma ReadsEnd(s: Fs, cwd: Id, w: Walker, d: Id, path: string, level: nat)
    requires At(w, d, path, level, Nil)
    ensures Read(s, cwd, w) == (Some(Visit(Fts.After, path, level, None)), Pop(w))
  {
    hide SiblingAfter;
    assert w.dirs[|w.frames| - 1 := w.dirs[|w.frames| - 1]] == w.dirs;
  }

  // ----- The calls of the client ------------------------------------------------------------

  lemma UnlinksHead(s: Fs, cwd: Id, d: Id, path: string, cs: seq<string>, f: Forest, c: Client, D: set<Id>)
    requires Place(s, cwd, d, path, cs, f, D) && f.File?
    ensures Inv(Erase(s, {f.id})) && TryUnlink(s, cwd, Child(path, f.name), c) == (Erase(s, {f.id}), false)
  {
    hide Inv, Erase, Resolve, Trace, Spelt, CwdChain, Vfs.CwdUp, Unlink, Protected, Proper, Fits, Ahead;
    HeadNamed(s, cwd, d, path, cs, f, D);
    IsLinked(s, f.id);
    UnlinkKeeps(s, f.id);
    DetachIsErase(s, f.id);
  }

  lemma IsLinked(s: Fs, n: Id)
    requires Inv(s) && n in s.nodes && s.nodes[n].parent in s.kids
    ensures s.nodes[n].parent != NULL && n in s.kids
  {
    hide Acyclic, Names, Mounts, Detached;
  }

  /** rmdir of a directory named by its path: it goes when it is empty. */
  lemma RmdirsAt(s: Fs, cwd: Id, path: string, cs: seq<string>, n: Id, c: Client)
    requires Inv(s) && Spelt(s, cwd, path) == Ok(cs) && Resolve(s, s.root, cs) == Ok(n)
    requires n in s.nodes && n in s.kids && s.nodes[n].kind.Directory?
    requires s.kids[n] == [] ==> s.nodes[n].parent in s.kids && !Protected(s, n)
    ensures if s.kids[n] == [] then Inv(Erase(s, {n})) && TryRmdir(s, cwd, path, c) == (Erase(s, {n}), false)
            else TryRmdir(s, cwd, path, c) == (s, true)
  {
    hide Inv, Erase, Resolve, Spelt, Protected, Detach;
    if s.kids[n] == [] {
      IsLinked(s, n);
      RmdirKeeps(s, n);
      DetachIsErase(s, n);
    }
  }

  lemma TurnsSettled(s: Fs, cwd: Id, w: Walker, c: Client, k: nat)
    ensures Turns(s, cwd, w, c, k) == Turns(s, cwd, Settle(w), c, k)
  {
    hide Act, Classify, Readdir, Pop;
    assert Settle(Settle(w)) == Settle(w);
  }

  lemma LaterTwice(a: seq<Visit>, x: bool, b: seq<Visit>, y: bool, r: Status)
    ensures Later(a, x, Later(b, y, r)) == Later(a + b, x || y, r)
  {
    assert a + (b + r.visits) == (a + b) + r.visits;
  }

  // ----- The walk equals the recursion --------------------------------------------------------

  /** What happens to the first tree alone, when p is its path */
  function TreeRemoved(f: Forest, p: string, c: Client): set<Id>
    requires !f.Nil?
  {
    if f.File? then if Removes(c, p) then {f.id} else {}
    else
      var below := if Examines(c, p) then Removed(f.kids, p, c) else {};
      below + (if Examines(c, p) && Removes(c, p) && AllIn(Heads(f.kids), below) then {f.id} else {})
  }

  function TreeVisits(f: Forest, p: string, level: nat, c: Client): seq<Visit>
    requires !f.Nil?
  {
    if f.File? then [Visit(Leaf, p, level, None)]
    else
      [Visit(Before, p, level, None)]
      + (if Examines(c, p) then Visits(f.kids, p, level + 1, c) + [Visit(Fts.After, p, level, None)] else [])
  }

  predicate TreeFails(f: Forest, p: string, c: Client)
    requires !f.Nil?
  {
    && f.Dir? && Examines(c, p)
    && (Fails(f.kids, p, c) || (Removes(c, p) && !AllIn(Heads(f.kids), Removed(f.kids, p, c))))
  }

  lemma HeadAndRest(f: Forest, path: string, level: nat, c: Client)
    requires !f.Nil?
    ensures Removed(f, path, c) == TreeRemoved(f, Child(path, f.name), c) + Removed(f.rest, path, c)
    ensures Visits(f, path, level, c) == TreeVisits(f, Child(path, f.name), level, c) + Visits(f.rest, path, level, c)
    ensures Fails(f, path, c) == (TreeFails(f, Child(path, f.name), c) || Fails(f.rest, path, c))
    ensures TreeRemoved(f, Child(path, f.name), c) <= Ids(f)
    ensures (Proper(f) ==> TreeRemoved(f, Child(path, f.name), c) !! Ids(f.rest))
  {
    if f.Dir? {
      RemovedWithin(f.kids, Child(path, f.name), c);
    }
  }

  /**
   The turns spent on the first tree visit it as the recursion does, remove what it removes, and leave the walk behind
   it.
   */
  ghost predicate HeadWalked(s: Fs, cwd: Id, w: Walker, c: Client, path: string, level: nat, f: Forest, k: nat) {
    && !f.Nil? && w.frames != [] && |w.frames| <= |w.dirs|
    && var R := TreeRemoved(f, Child(path, f.name), c);
    && Inv(Erase(s, R))
    && Turns(s, cwd, w, c, |TreeVisits(f, Child(path, f.name), level + 1, c)| + k) ==
       Later(TreeVisits(f, Child(path, f.name), level + 1, c), TreeFails(f, Child(path, f.name), c),
             Turns(Erase(s, R), cwd, Moved(w, ItemAt(Heads(f.rest), 0)), c, k))
  }

  /** The same of a whole list of trees */
  ghost predicate Walked(s: Fs, cwd: Id, w: Walker, c: Client, path: string, level: nat, f: Forest, k: nat) {
    && w.frames != [] && |w.frames| <= |w.dirs|
    && var R := Removed(f, path, c);
    && Inv(Erase(s, R))
    && Turns(s, cwd, w, c, |Visits(f, path, level + 1, c)| + k) ==
       Later(Visits(f, path, level + 1, c), Fails(f, path, c), Turns(Erase(s, R), cwd, Moved(w, NULL), c, k))
  }

  lemma FileStep(s: Fs, cwd: Id, w: Walker, c: Client, d: Id, path: string, cs: seq<string>, level: nat, f: Forest,
                 k: nat, D: set<Id>)
    requires Place(s, cwd, d, path, cs, f, D) && At(w, d, path, level, f) && f.File?
    ensures HeadWalked(s, cwd, w, c, path, level, f, k)
  {
    hide Inv, Erase, Read, At, TryUnlink, Heads, Spelt, Resolve, Ahead, Outside, Proper, Fits, Match;
    assert Inv(s);
    assert At(w, d, path, level, f) ==> w.frames != [] && |w.frames| <= |w.dirs| by { AtMeans(w, d, path, level, f); }
    ReadsFile(s, cwd, w, d, path, cs, level, f, D);
    UnlinksHead(s, cwd, d, path, cs, f, c, D);
    EraseNone(s);
  }

  lemma AtMeans(w: Walker, d: Id, path: string, level: nat, f: Forest)
    requires At(w, d, path, level, f)
    ensures Held(w) && w.frames != [] && |w.frames| <= |w.dirs| == MAX_DIRS && Top(w).inode == d
    ensures Settle(w) == w && !Top(w).skip
    ensures f.Nil? ==> Moved(w, NULL) == w
  {
  }

  /** A directory that is not examined */
  lemma SkipStep(s: Fs, cwd: Id, w: Walker, c: Client, d: Id, path: string, cs: seq<string>, level: nat, f: Forest,
                 k: nat, D: set<Id>)
    requires Place(s, cwd, d, path, cs, f, D) && At(w, d, path, level, f) && f.Dir? && !Examines(c, Child(path, f.name))
    ensures HeadWalked(s, cwd, w, c, path, level, f, k)
  {
    hide Inv, Erase, Read, At, Heads, Spelt, Resolve, Ahead, Outside, Proper, Fits, Match, Pushed, Settle, Skip;
    AtMeans(w, d, path, level, f);
    ReadsDir(s, cwd, w, d, path, cs, level, f, D);
    var w1 := Moved(w, ItemAt(Heads(f.rest), 0));
    AtRest(w, d, path, level, f);
    AtMeans(w1, d, path, level, f.rest);
    SkipUndoes(w1, f.id, Child(path, f.name), level + 1, ItemAt(Heads(f.kids), 0));
    var w2 := Skip(Pushed(w1, f.id, Child(path, f.name), level + 1, ItemAt(Heads(f.kids), 0)));
    TurnsSettled(s, cwd, w2, c, k);
    EraseNone(s);
    assert TreeRemoved(f, Child(path, f.name), c) == {};
    assert TreeVisits(f, Child(path, f.name), level + 1, c) == [Visit(Before, Child(path, f.name), level + 1, None)];
  }

  /** Skipping what was just entered leaves it at the next read. */
  lemma SkipUndoes(w: Walker, n: Id, path: string, level: nat, next: Id)
    requires Held(w) && |w.frames| < |w.dirs| && Settle(w) == w
    ensures Settle(Skip(Pushed(w, n, path, level, next))) == w
  {
    hide Settle;
    var w' := Skip(Pushed(w, n, path, level, next));
    assert Top(w').skip;
    assert w'.frames[..|w.frames|] == w.frames;
    assert w'.dirs[|w.frames| := None] == w.dirs;
    SettleSkips(w');
  }

  lemma SettleSkips(w: Walker)
    requires w.frames != [] && Top(w).skip
    ensures Settle(w) == Settle(Pop(w))
  {
  }

  /** The second visit of a directory whose contents have been walked */
  lemma AfterStep(s: Fs, cwd: Id, w: Walker, c: Client, n: Id, path: string, cs: seq<string>, level: nat, k: nat,
                  D: set<Id>)
    requires Place(s, cwd, n, path, cs, Nil, D) && At(w, n, path, level, Nil)
    requires n in s.nodes && n in s.kids && s.nodes[n].kind.Directory?
    requires Removes(c, path) && s.kids[n] == [] ==> s.nodes[n].parent in s.kids && !Protected(s, n)
    ensures var R := if Removes(c, path) && s.kids[n] == [] then {n} else {};
      && Inv(Erase(s, R)) && w.frames != []
      && Turns(s, cwd, w, c, 1 + k) ==
         Later([Visit(Fts.After, path, level, None)], Removes(c, path) && s.kids[n] != [],
               Turns(Erase(s, R), cwd, Pop(w), c, k))
  {
    hide Inv, Erase, Read, At, Heads, Spelt, Resolve, Ahead, Outside, Proper, Fits, Match, TryRmdir, Pop;
    AtMeans(w, n, path, level, Nil);
    ReadsEnd(s, cwd, w, n, path, level);
    if Removes(c, path) { RmdirsAt(s, cwd, path, cs, n, c); }
    EraseNone(s);
  }

  lemma EnterStep(s: Fs, cwd: Id, w: Walker, c: Client, d: Id, path: string, cs: seq<string>, level: nat, f: Forest,
                  k: nat, D: set<Id>)
    requires Place(s, cwd, d, path, cs, f, D) && At(w, d, path, level, f) && f.Dir? && Examines(c, Child(path, f.name))
    ensures At(w, d, path, level, f) && |w.frames| < |w.dirs| && w.frames != []
    ensures Turns(s, cwd, w, c, 1 + k) ==
            Later([Visit(Before, Child(path, f.name), level + 1, None)], false,
                  Turns(s, cwd, Entered(w, path, level, f), c, k))
  {
    hide Inv, Read, At, Heads, Spelt, Resolve, Ahead, Outside, Proper, Fits, Match, Pushed, Settle, Moved, Skip;
    AtMeans(w, d, path, level, f);
    ReadsDir(s, cwd, w, d, path, cs, level, f, D);
  }

  /** The walker once the directory f begins with has been entered */
  ghost function Entered(w: Walker, path: string, level: nat, f: Forest): Walker
    requires f.Dir? && w.frames != [] && |w.frames| < |w.dirs|
  {
    Pushed(Moved(w, ItemAt(Heads(f.rest), 0)), f.id, Child(path, f.name), level + 1, ItemAt(Heads(f.kids), 0))
  }

  /** The directory f begins with, as rmdir will meet it */
  ghost predicate Removable(s: Fs, f: Forest, D: set<Id>) {
    && f.Dir? && f.id in s.nodes && f.id in s.kids && s.nodes[f.id].kind.Directory? && s.kids[f.id] == Heads(f.kids)
    && f.id !in Ids(f.kids) && (f.id in D ==> s.nodes[f.id].parent in s.kids && !Protected(s, f.id))
  }

  /**
   After its contents have been walked: the directory can still be named, is unchanged itself, and lists what was kept.
   */
  lemma AfterContents(s: Fs, cwd: Id, p: string, cs: seq<string>, f: Forest, K: set<Id>, D: set<Id>)
    requires Removable(s, f, D) && Place(s, cwd, f.id, p, cs, f.kids, D) && K <= Ids(f.kids) * D && Inv(Erase(s, K))
    ensures var s1 := Erase(s, K);
      && Place(s1, cwd, f.id, p, cs, Nil, D)
      && f.id in s1.nodes && f.id in s1.kids && s1.nodes[f.id].kind.Directory?
      && (f.id in D ==> s1.nodes[f.id].parent in s1.kids && !Protected(s1, f.id))
      && (s1.kids[f.id] == [] <==> AllIn(Heads(f.kids), K))
  {
    hide Place, Inv, Protected, Erase, Heads, AllIn, Outside;
    PlaceMeans(s, cwd, f.id, p, cs, f.kids, D);
    PlaceNil(s, cwd, f.id, p, cs, f.kids, D);
    OutsideFewer(s, cwd, cs, Ids(f.kids) * D, K);
    PlaceErased(s, cwd, f.id, p, cs, Nil, K, D);
    EraseKeepsMounts(s, K);
    DirErased(s, f.id, f.kids, K);
  }

  lemma PlaceMeans(s: Fs, cwd: Id, d: Id, path: string, cs: seq<string>, f: Forest, D: set<Id>)
    requires Place(s, cwd, d, path, cs, f, D)
    ensures Inv(s) && Outside(s, cwd, cs, Ids(f) * D) && Match(s.nodes, s.kids, f) && Proper(f)
    ensures f.Dir? ==> && f.id in s.nodes && s.nodes[f.id].kind.Directory?
                       && f.id in s.kids && s.kids[f.id] == Heads(f.kids)
                       && f.id !in Ids(f.kids) && !Protected(s, f.id)
  {
    hide Inv, Spelt, Resolve, Trace, CwdChain, Vfs.CwdUp, Protected, Fits, Ahead;
  }

  lemma OutsideFewer(s: Fs, cwd: Id, cs: seq<string>, ids: set<Id>, K: set<Id>)
    requires Outside(s, cwd, cs, ids) && K <= ids
    ensures Outside(s, cwd, cs, K)
  {
    hide Trace, CwdChain, Vfs.CwdUp, Protected;
  }

  lemma DirErased(s: Fs, n: Id, below: Forest, K: set<Id>)
    requires n in s.nodes && n in s.kids && s.kids[n] == Heads(below) && n !in K
    ensures var s1 := Erase(s, K);
      && n in s1.nodes && n in s1.kids && s1.nodes[n] == s.nodes[n] && s1.kids.Keys == s.kids.Keys
      && (s1.kids[n] == [] <==> AllIn(Heads(below), K))
  {
    hide Filter, Heads;
    FilterAll(s.kids[n], K);
  }

  lemma PlaceNil(s: Fs, cwd: Id, d: Id, path: string, cs: seq<string>, f: Forest, D: set<Id>)
    requires Place(s, cwd, d, path, cs, f, D)
    ensures Place(s, cwd, d, path, cs, Nil, D)
  {
    hide Inv, Spelt, Resolve, Trace, CwdChain, Vfs.CwdUp, Protected;
  }

  /** Once the contents are walked come the second visit and, if the directory is empty by then, its removal. */
  lemma Leave(s: Fs, cwd: Id, w: Walker, c: Client, p: string, cs: seq<string>, level: nat, f: Forest, k: nat,
              D: set<Id>)
    requires Removable(s, f, D) && Place(s, cwd, f.id, p, cs, f.kids, D) && Examines(c, p)
    requires Held(w) && |w.frames| < |w.dirs| && TreeRemoved(f, p, c) <= D
    requires At(Pushed(w, f.id, p, level, ItemAt(Heads(f.kids), 0)), f.id, p, level, f.kids)
    requires Walked(s, cwd, Pushed(w, f.id, p, level, ItemAt(Heads(f.kids), 0)), c, p, level, f.kids, 1 + k)
    ensures Inv(Erase(s, TreeRemoved(f, p, c)))
    ensures |TreeVisits(f, p, level, c)| > 0
    ensures var inner := Pushed(w, f.id, p, level, ItemAt(Heads(f.kids), 0));
      Turns(s, cwd, inner, c, |TreeVisits(f, p, level, c)| - 1 + k) ==
      Later(TreeVisits(f, p, level, c)[1..], TreeFails(f, p, c),
                  Turns(Erase(s, TreeRemoved(f, p, c)), cwd, w, c, k))
  {
    hide Place, At, Inv, Erase, Turns, Later, Held, Heads, AllIn, Examines, Removes, Pop, Pushed, Protected;
    var K := Removed(f.kids, p, c);
    var inner := Pushed(w, f.id, p, level, ItemAt(Heads(f.kids), 0));
    RemovedWithin(f.kids, p, c);
    AfterContents(s, cwd, p, cs, f, K, D);
    AtEnd(inner, f.id, p, level, f.kids);
    AfterStep(Erase(s, K), cwd, Moved(inner, NULL), c, f.id, p, cs, level, k, D);
    PopPushed(w, f.id, p, level, ItemAt(Heads(f.kids), 0), NULL);
    var bad := Removes(c, p) && !AllIn(Heads(f.kids), K);
    var G: set<Id> := if Removes(c, p) && AllIn(Heads(f.kids), K) then {f.id} else {};
    EraseTwice(s, K, G);
    var after := [Visit(Fts.After, p, level, None)];
    var VK := Visits(f.kids, p, level + 1, c);
    LaterTwice(VK, Fails(f.kids, p, c), after, bad, Turns(Erase(s, K + G), cwd, w, c, k));
    assert TreeRemoved(f, p, c) == K + G;
    assert TreeVisits(f, p, level, c)[1..] == VK + after;
  }

  lemma LeaveStep(s: Fs, cwd: Id, w: Walker, c: Client, d: Id, path: string, cs: seq<string>, level: nat, f: Forest,
                  k: nat, D: set<Id>)
    requires Place(s, cwd, d, path, cs, f, D) && At(w, d, path, level, f) && f.Dir? && Examines(c, Child(path, f.name))
    requires |w.frames| < |w.dirs| && w.frames != []
    requires Walked(s, cwd, Entered(w, path, level, f), c, Child(path, f.name), level + 1, f.kids, 1 + k)
    requires TreeRemoved(f, Child(path, f.name), c) <= D
    ensures HeadWalked(s, cwd, w, c, path, level, f, k)
  {
    hide Place, At, Inv, Erase, Turns, Later, Held, Heads, Examines, Pushed, Walked, TreeFails, TreeRemoved, Visits,
         Protected, Match, Proper, Ids, Spelt, Resolve, Trace, Outside, Removed, Path.Name;
    var p := Child(path, f.name);
    PlaceMeans(s, cwd, d, path, cs, f, D);
    HeadNamed(s, cwd, d, path, cs, f, D);
    PlaceKids(s, cwd, d, path, cs, f, D);
    AtEntered(w, d, path, level, f);
    var w1 := Moved(w, ItemAt(Heads(f.rest), 0));
    Leave(s, cwd, w1, c, p, cs + [f.name], level + 1, f, k, D);
    var V := TreeVisits(f, p, level + 1, c);
    EnterStep(s, cwd, w, c, d, path, cs, level, f, |V| - 1 + k, D);
    LaterTwice([V[0]], false, V[1..], TreeFails(f, p, c), Turns(Erase(s, TreeRemoved(f, p, c)), cwd, w1, c, k));
    assert [V[0]] + V[1..] == V;
  }

  lemma AtEntered(w: Walker, d: Id, path: string, level: nat, f: Forest)
    requires At(w, d, path, level, f) && f.Dir? && Proper(f)
    ensures |w.frames| < |w.dirs| && w.frames != []
    ensures At(Entered(w, path, level, f), f.id, Child(path, f.name), level + 1, f.kids)
    ensures Held(Moved(w, ItemAt(Heads(f.rest), 0)))
  {
    hide Held, Pushed;
    AtMeans(w, d, path, level, f);
    var w1 := Moved(w, ItemAt(Heads(f.rest), 0));
    MovedHeld(w, ItemAt(Heads(f.rest), 0));
    AtKids(w1, Child(path, f.name), level + 1, f);
  }

  lemma {:induction false} WalkHead(s: Fs, cwd: Id, w: Walker, c: Client, d: Id, path: string, cs: seq<string>,
                                    level: nat, f: Forest, k: nat, D: set<Id>)
    requires Place(s, cwd, d, path, cs, f, D) && At(w, d, path, level, f) && !f.Nil?
    requires TreeRemoved(f, Child(path, f.name), c) <= D
    ensures HeadWalked(s, cwd, w, c, path, level, f, k)
    decreases f, 0
  {
    hide Place, At, HeadWalked, Walked, Examines, Pushed, Moved;
    if f.File? {
      FileStep(s, cwd, w, c, d, path, cs, level, f, k, D);
    } else if !Examines(c, Child(path, f.name)) {
      SkipStep(s, cwd, w, c, d, path, cs, level, f, k, D);
    } else {
      PlaceMeans(s, cwd, d, path, cs, f, D);
      PlaceKids(s, cwd, d, path, cs, f, D);
      AtEntered(w, d, path, level, f);
      var p := Child(path, f.name);
      WalkForest(s, cwd, Entered(w, path, level, f), c, f.id, p, cs + [f.name], level + 1, f.kids, 1 + k, D);
      LeaveStep(s, cwd, w, c, d, path, cs, level, f, k, D);
    }
  }

  /** The walk with its client equals the recursion on every list of trees, whatever the client removes or skips. */
  lemma {:induction false} WalkForest(s: Fs, cwd: Id, w: Walker, c: Client, d: Id, path: string, cs: seq<string>,
                                      level: nat, f: Forest, k: nat, D: set<Id>)
    requires Place(s, cwd, d, path, cs, f, D) && At(w, d, path, level, f)
    requires Removed(f, path, c) <= D
    ensures Walked(s, cwd, w, c, path, level, f, k)
    decreases f, 1
  {
    hide Place, At, Inv, Erase, Turns, Held, Heads, Visits, Fails, Removed, TreeRemoved, TreeVisits, TreeFails, Outside;
    AtMeans(w, d, path, level, f);
    if f.Nil? {
      PlaceMeans(s, cwd, d, path, cs, f, D);
      NilWalked(s, cwd, w, c, path, level, k);
    } else {
      PlaceMeans(s, cwd, d, path, cs, f, D);
      HeadAndRest(f, path, level + 1, c);
      var H, R := TreeRemoved(f, Child(path, f.name), c), Removed(f.rest, path, c);
      var V := Visits(f.rest, path, level + 1, c);
      WalkHead(s, cwd, w, c, d, path, cs, level, f, |V| + k, D);
      var w1 := Moved(w, ItemAt(Heads(f.rest), 0));
      PlaceRest(s, cwd, d, path, cs, f, D);
      OutsideFewer(s, cwd, cs, Ids(f) * D, H);
      PlaceErased(s, cwd, d, path, cs, f.rest, H, D);
      AtRest(w, d, path, level, f);
      WalkForest(Erase(s, H), cwd, w1, c, d, path, cs, level, f.rest, k, D);
      EraseTwice(s, H, R);
      assert Moved(w1, NULL) == Moved(w, NULL);
      LaterTwice(TreeVisits(f, Child(path, f.name), level + 1, c), TreeFails(f, Child(path, f.name), c), V,
                 Fails(f.rest, path, c),
                 Turns(Erase(s, H + R), cwd, Moved(w, NULL), c, k));
    }
  }

  lemma NilWalked(s: Fs, cwd: Id, w: Walker, c: Client, path: string, level: nat, k: nat)
    requires Inv(s) && w.frames != [] && |w.frames| <= |w.dirs| && Moved(w, NULL) == w
    ensures Walked(s, cwd, w, c, path, level, Nil, k)
  {
    hide Inv, Erase, Turns;
    EraseNone(s);
    var r := Turns(s, cwd, w, c, k);
    assert [] + r.visits == r.visits;
  }
}
