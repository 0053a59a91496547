/**
 rm -rf of a tree that has the caller's working directory inside: the walk goes
 as usual until that directory is removed; from then on no path can be spelt,
 every entry still to come is reported and every rmdir fails. The walk ends all
 the same, with a failing status.
 */
module RmLost {
  import opened Common
  import Path
  import opened FsTree
  import opened FsInvariant
  import opened Directories
  import opened Subtrees
  import opened Fts
  import opened Rm
  import opened RmTree
  import Vfs

  /** The working directory has no path. */
  ghost predicate Lost(s: Fs, cwd: Id) {
    Vfs.CwdUp(s, cwd, 0) == Err(EIO)
  }

  lemma LostWhenErased(s: Fs, cwd: Id, R: set<Id>)
    requires Inv(s) && cwd in R && cwd in s.nodes && s.nodes[cwd].parent != NULL && !Protected(s, cwd)
    ensures Lost(Erase(s, R), cwd)
  {
    hide Inv, Filter;
    IdsPositive(s);
    RootHasNoParent(s);
    EraseKeepsMounts(s, R);
    var s' := Erase(s, R);
    assert Up(s', cwd) == cwd;
    assert Vfs.CwdUp(s', NULL, 1) == Err(EIO);
  }

  lemma LostCalls(s: Fs, cwd: Id, path: string, c: Client)
    requires Lost(s, cwd)
    ensures Stat(s, cwd, path) == Err(EIO)
    ensures c.force ==> TryUnlink(s, cwd, path, c) == (s, true) && TryRmdir(s, cwd, path, c) == (s, true)
  {
    hide Vfs.CwdUp;
  }

  // ----- Reading on ----------------------------------------------------------------------------

  ghost predicate Standing(w: Walker, d: Id, path: string, level: nat, next: Id) {
    && Held(w) && w.frames != [] && Top(w) == Frame(|w.frames| - 1, d, path, level, false)
    && w.dirs[|w.frames| - 1] == Some(Handle(d, next))
  }

  lemma StandingMoves(w: Walker, d: Id, path: string, level: nat, next: Id, next': Id)
    requires Standing(w, d, path, level, next)
    ensures w.frames != [] && |w.frames| <= |w.dirs| && Top(w).inode == d && Settle(w) == w
    ensures Standing(Moved(w, next'), d, path, level, next')
    ensures next == next' ==> Moved(w, next') == w
  {
  }

  /** The top frame reads d, with the entries l still to come, whose names can be read. */
  ghost predicate Reading(s: Fs, w: Walker, d: Id, path: string, level: nat, l: seq<Id>) {
    && Standing(w, d, path, level, ItemAt(l, 0))
    && Inv(s) && Ahead(s, d, l)
    && (forall n :: n in l ==> n in s.nodes && 0 < |s.nodes[n].name| < Path.PATH_MAX)
  }

  function Unknowns(s: Fs, path: string, level: nat, l: seq<Id>): (v: seq<Visit>)
    ensures |v| == |l|
  {
    if l == [] then []
    else
      [Visit(Unknown, Child(path, if l[0] in s.nodes then s.nodes[l[0]].name else ""), level, Some(EIO))]
      + Unknowns(s, path, level, l[1..])
  }

  lemma LostRead(s: Fs, cwd: Id, w: Walker, d: Id, path: string, level: nat, l: seq<Id>)
    requires Lost(s, cwd) && Reading(s, w, d, path, level, l) && l != []
    ensures |w.frames| <= |w.dirs|
    ensures Read(s, cwd, w) ==
            (Some(Visit(Unknown, Child(path, s.nodes[l[0]].name), level + 1, Some(EIO))), Moved(w, ItemAt(l[1..], 0)))
    ensures Reading(s, Moved(w, ItemAt(l[1..], 0)), d, path, level, l[1..])
  {
    hide Inv, Lost, Stat, SiblingAfter, Ahead, Standing, Readdir, Settle;
    AfterAhead(s, d, l);
    assert l[0] in l;
    var name := s.nodes[l[0]].name;
    StandingMoves(w, d, path, level, ItemAt(l, 0), ItemAt(l[1..], 0));
    StandingReads(s, w, d, path, level, l[0], ItemAt(l[1..], 0));
    LostCalls(s, cwd, Child(path, name), Client(true, false, _ => true, _ => true));
  }

  lemma StandingReads(s: Fs, w: Walker, d: Id, path: string, level: nat, n: Id, next: Id)
    requires Standing(w, d, path, level, n) && n in s.nodes && n != NULL && |s.nodes[n].name| < Path.PATH_MAX
    requires SiblingAfter(s, n) == next
    ensures |w.frames| <= |w.dirs| && Top(w) == Frame(|w.frames| - 1, d, path, level, false)
    ensures Readdir(s, w.dirs, Top(w).descriptor) == (Moved(w, next).dirs, s.nodes[n].name)
  {
    hide SiblingAfter;
  }

  /** Every entry still to come is visited as unknown, and makes rm fail. */
  lemma {:induction false} LostList(s: Fs, cwd: Id, w: Walker, c: Client, d: Id, path: string, level: nat, l: seq<Id>,
                                    k: nat)
    requires c.force && Lost(s, cwd) && Reading(s, w, d, path, level, l)
    ensures |w.frames| <= |w.dirs|
    ensures Turns(s, cwd, w, c, |l| + k) ==
            Later(Unknowns(s, path, level + 1, l), l != [], Turns(s, cwd, Moved(w, NULL), c, k))
    decreases |l|
  {
    hide Inv, Lost, Read, Reading, TryUnlink, Nonexistent;
    ReadingMeans(s, w, d, path, level, l);
    if l == [] {
      LaterNothing(Turns(s, cwd, w, c, k));
    } else {
      LostRead(s, cwd, w, d, path, level, l);
      var w1 := Moved(w, ItemAt(l[1..], 0));
      LostCalls(s, cwd, Child(path, s.nodes[l[0]].name), c);
      LostList(s, cwd, w1, c, d, path, level, l[1..], k);
      var v := Visit(Unknown, Child(path, s.nodes[l[0]].name), level + 1, Some(EIO));
      assert Act(s, cwd, w1, v, c) == (s, w1, true) by { UnknownFails(s, cwd, w1, v, c); }
      OneTurnLater(s, cwd, w, w1, v, true, c, |l[1..]| + k);
      LaterTwice([v], true, Unknowns(s, path, level + 1, l[1..]), l[1..] != [], Turns(s, cwd, Moved(w, NULL), c, k));
      assert Moved(w1, NULL) == Moved(w, NULL);
    }
  }

  lemma LaterNothing(r: Status)
    ensures Later([], false, r) == r
  {
    assert [] + r.visits == r.visits;
  }

  lemma UnknownFails(s: Fs, cwd: Id, w: Walker, v: Visit, c: Client)
    requires c.force && Lost(s, cwd) && v.info.Unknown? && v.error == Some(EIO)
    ensures Act(s, cwd, w, v, c).0 == s && Act(s, cwd, w, v, c).1 == w && Act(s, cwd, w, v, c).2
  {
    hide Lost, TryUnlink;
    LostCalls(s, cwd, v.path, c);
  }

  lemma OneTurnLater(s: Fs, cwd: Id, w: Walker, w1: Walker, v: Visit, bad: bool, c: Client, k: nat)
    requires Read(s, cwd, w).0 == Some(v) && Act(s, cwd, Read(s, cwd, w).1, v, c) == (s, w1, bad)
    ensures Turns(s, cwd, w, c, 1 + k) == Later([v], bad, Turns(s, cwd, w1, c, k))
  {
    hide Read, Act;
  }

  lemma ReadingMeans(s: Fs, w: Walker, d: Id, path: string, level: nat, l: seq<Id>)
    requires Reading(s, w, d, path, level, l)
    ensures w.frames != [] && |w.frames| <= |w.dirs| && Top(w).inode == d
    ensures l == [] ==> Moved(w, NULL) == w
    ensures l != [] ==> l[0] in s.nodes
  {
    hide Inv, Standing, Ahead;
    StandingMoves(w, d, path, level, ItemAt(l, 0), NULL);
    if l != [] { assert l[0] in l; }
  }

  /** At the end of a directory its rmdir fails. */
  lemma LostAfter(s: Fs, cwd: Id, w: Walker, c: Client, d: Id, path: string, level: nat, k: nat)
    requires c.force && Lost(s, cwd) && At(w, d, path, level, Nil)
    ensures w.frames != []
    ensures Turns(s, cwd, w, c, 1 + k) ==
            Later([Visit(Fts.After, path, level, None)], true, Turns(s, cwd, Pop(w), c, k))
  {
    hide Lost, Read, At, TryRmdir, Pop;
    AtMeans(w, d, path, level, Nil);
    ReadsEnd(s, cwd, w, d, path, level);
    LostCalls(s, cwd, path, c);
    var v := Visit(Fts.After, path, level, None);
    OneTurnLater(s, cwd, w, Pop(w), v, true, c, k);
  }

  // ----- Where the walk breaks off ----------------------------------------------------------------

  /** The visits until a list of trees is behind the walk, the nodes removed, and whether rm has failed */
  datatype Break = Break(visits: seq<Visit>, removed: set<Id>, failed: bool)

  ghost predicate BrokenOff(s: Fs, cwd: Id, w: Walker, c: Client, path: string, level: nat, f: Forest, b: Break,
                            k: nat) {
    && w.frames != [] && |w.frames| <= |w.dirs|
    && |b.visits| <= |Visits(f, path, level + 1, c)| && b.removed <= Ids(f)
    && var s' := Erase(s, b.removed);
    && Inv(s') && Lost(s', cwd)
    && Turns(s, cwd, w, c, |b.visits| + k) == Later(b.visits, b.failed, Turns(s', cwd, Moved(w, NULL), c, k))
  }

  ghost predicate TraceClear(s: Fs, cs: seq<string>, ids: set<Id>) {
    forall n :: n in Trace(s, s.root, cs) ==> n !in ids
  }

  function HeadIds(f: Forest): set<Id> {
    match f
    case Nil => {}
    case File(id, _, _) => {id}
    case Dir(id, _, kids, _) => {id} + Ids(kids)
  }

  lemma {:induction false} HeadsCount(f: Forest, path: string, level: nat, c: Client)
    ensures |Heads(f)| <= |Visits(f, path, level, c)|
  {
    match f {
      case Nil =>
      case File(_, _, rest) => HeadsCount(rest, path, level, c);
      case Dir(_, _, _, rest) => HeadsCount(rest, path, level, c);
    }
  }

  /** What is left of a list is read on once the working directory is lost. */
  lemma RestReading(s: Fs, cwd: Id, w: Walker, d: Id, path: string, cs: seq<string>, level: nat, f: Forest, R: set<Id>)
    requires Place(s, cwd, d, path, cs, f, {}) && At(w, d, path, level, f) && !f.Nil?
    requires R !! Ids(f.rest) && Inv(Erase(s, R))
    ensures |w.frames| <= |w.dirs| && w.frames != []
    ensures Reading(Erase(s, R), Moved(w, ItemAt(Heads(f.rest), 0)), d, path, level, Heads(f.rest))
  {
    hide Inv, Ahead, Held, Outside, Spelt, Resolve;
    AtMeans(w, d, path, level, f);
    AtRest(w, d, path, level, f);
    PlaceRest(s, cwd, d, path, cs, f, {});
    HeadsInIds(f.rest);
    AheadErased(s, d, Heads(f.rest), R);
    AheadNames(s, d, path, cs, f.rest, R);
    hide Place;
    assert Standing(Moved(w, ItemAt(Heads(f.rest), 0)), d, path, level, ItemAt(Heads(f.rest), 0));
  }

  lemma {:induction false} AheadNames(s: Fs, d: Id, path: string, cs: seq<string>, f: Forest, R: set<Id>)
    requires Inv(s) && Match(s.nodes, s.kids, f) && Fits(f, path, cs) && Ahead(s, d, Heads(f))
    ensures forall n :: n in Heads(f) ==> n in Erase(s, R).nodes && 0 < |Erase(s, R).nodes[n].name| < Path.PATH_MAX
  {
    hide Inv, Filter, Ahead;
    if !f.Nil? {
      assert Heads(f)[1..] == Heads(f.rest) && Heads(f)[0] == f.id;
      AfterAhead(s, d, Heads(f));
      HeadFound(s, d, f);
      assert |f.name| < |Child(path, f.name)|;
      AheadNames(s, d, path, cs, f.rest, R);
    }
  }

  /** The first tree holds the working directory as its top; removing it is the break. */
  lemma BreakHere(s: Fs, cwd: Id, w: Walker, c: Client, d: Id, path: string, cs: seq<string>, level: nat, f: Forest,
                  k: nat)
    returns (b: Break)
    requires c.force && Place(s, cwd, d, path, cs, f, {}) && At(w, d, path, level, f) && !f.Nil? && f.id == cwd
    requires TreeRemoved(f, Child(path, f.name), c) == HeadIds(f)
    requires HeadWalked(s, cwd, w, c, path, level, f, |Heads(f.rest)| + k)
    ensures BrokenOff(s, cwd, w, c, path, level, f, b, k)
  {
    hide Inv, Place, At, Turns, Reading, Lost, Erase, Heads, Visits, TreeVisits, TreeFails, TreeRemoved, Match, Proper,
         Spelt, Resolve, Trace, Outside, Protected, Path.Name, Held, Unknowns, Removed, Fails;
    var p, H := Child(path, f.name), HeadIds(f);
    var s1, w1, l := Erase(s, H), Moved(w, ItemAt(Heads(f.rest), 0)), Heads(f.rest);
    AtMeans(w, d, path, level, f);
    HeadNamed(s, cwd, d, path, cs, f, {});
    PlaceMeans(s, cwd, d, path, cs, f, {});
    IsLinked(s, f.id);
    TopUnprotected(s, cwd, d, path, cs, f);
    LostWhenErased(s, cwd, H);
    HeadApart(f);
    RestReading(s, cwd, w, d, path, cs, level, f, H);
    LostList(s1, cwd, w1, c, d, path, level, l, k);
    HeadAndRest(f, path, level + 1, c);
    HeadsCount(f.rest, path, level + 1, c);
    var V, U := TreeVisits(f, p, level + 1, c), Unknowns(s1, path, level + 1, l);
    LaterTwice(V, TreeFails(f, p, c), U, l != [], Turns(s1, cwd, Moved(w, NULL), c, k));
    assert Moved(w1, NULL) == Moved(w, NULL);
    b := Break(V + U, H, TreeFails(f, p, c) || l != []);
  }

  lemma TopUnprotected(s: Fs, cwd: Id, d: Id, path: string, cs: seq<string>, f: Forest)
    requires Place(s, cwd, d, path, cs, f, {}) && !f.Nil?
    ensures !Protected(s, f.id)
  {
    hide Inv, Ahead, Outside, Spelt, Resolve, Match, Fits, Protected;
  }

  lemma HeadApart(f: Forest)
    requires !f.Nil? && Proper(f)
    ensures HeadIds(f) !! Ids(f.rest) && HeadIds(f) <= Ids(f) && Ids(f) == HeadIds(f) + Ids(f.rest)
  {
  }

  lemma ForceTakesTree(f: Forest, p: string, c: Client)
    requires c.force && !f.Nil?
    ensures TreeRemoved(f, p, c) == HeadIds(f)
  {
    if f.Dir? {
      ForceRemovesAll(f.kids, p, c);
      HeadsInIds(f.kids);
    }
  }

  /** Away from the way and from the working directory any node may be removed. */
  lemma PlaceWiden(s: Fs, cwd: Id, d: Id, path: string, cs: seq<string>, f: Forest, D: set<Id>)
    requires Place(s, cwd, d, path, cs, f, {}) && TraceClear(s, cs, Ids(f)) && cwd !in Ids(f)
    ensures Place(s, cwd, d, path, cs, f, D)
  {
    hide Inv, Ahead, Spelt, Resolve, Fits, Proper, Trace, Protected, Vfs.CwdUp;
    CwdOutside(s, cwd, 0, f);
  }

  /** The first tree alone may be removed if the working directory is not in it. */
  lemma PlaceHead(s: Fs, cwd: Id, d: Id, path: string, cs: seq<string>, f: Forest)
    requires Place(s, cwd, d, path, cs, f, {}) && TraceClear(s, cs, Ids(f)) && !f.Nil? && cwd !in HeadIds(f)
    ensures Place(s, cwd, d, path, cs, f, HeadIds(f))
  {
    hide Inv, Ahead, Spelt, Resolve, Fits, Trace, Protected, Vfs.CwdUp;
    var g := f.(rest := Nil);
    assert Ids(g) == HeadIds(f);
    HeadApart(f);
    assert Match(s.nodes, s.kids, g);
    CwdOutside(s, cwd, 0, g);
  }

  lemma KidsClear(s: Fs, cwd: Id, d: Id, path: string, cs: seq<string>, f: Forest)
    requires Place(s, cwd, d, path, cs, f, {}) && TraceClear(s, cs, Ids(f)) && f.Dir?
    ensures TraceClear(s, cs + [f.name], Ids(f.kids))
  {
    hide Place, Trace;
    HeadNamed(s, cwd, d, path, cs, f, {});
    PlaceMeans(s, cwd, d, path, cs, f, {});
  }

  /** A directory that is the working directory itself is emptied and removed as any other. */
  lemma CwdTopWalked(s: Fs, cwd: Id, w: Walker, c: Client, d: Id, path: string, cs: seq<string>, level: nat, f: Forest,
                     k: nat)
    requires Place(s, cwd, d, path, cs, f, {}) && At(w, d, path, level, f) && f.Dir? && f.id == cwd && c.force
    requires TraceClear(s, cs, Ids(f))
    ensures HeadWalked(s, cwd, w, c, path, level, f, k)
  {
    hide Place, At, Inv, Erase, Turns, Later, Held, Heads, Pushed, Walked, TreeFails, TreeRemoved, Visits, Protected,
         Match, Proper, Spelt, Resolve, Trace, Outside, Removed, Path.Name, TraceClear;
    var p, D := Child(path, f.name), HeadIds(f);
    PlaceMeans(s, cwd, d, path, cs, f, {});
    HeadNamed(s, cwd, d, path, cs, f, {});
    PlaceKids(s, cwd, d, path, cs, f, {});
    KidsClear(s, cwd, d, path, cs, f);
    PlaceWiden(s, cwd, f.id, p, cs + [f.name], f.kids, D);
    AtEntered(w, d, path, level, f);
    ForceTakesTree(f, p, c);
    KidsFirst(f, p, c);
    WalkForest(s, cwd, Entered(w, path, level, f), c, f.id, p, cs + [f.name], level + 1, f.kids, 1 + k, D);
    var w1 := Moved(w, ItemAt(Heads(f.rest), 0));
    Leave(s, cwd, w1, c, p, cs + [f.name], level + 1, f, k, D);
    var V := TreeVisits(f, p, level + 1, c);
    EnterStep(s, cwd, w, c, d, path, cs, level, f, |V| - 1 + k, {});
    LaterTwice([V[0]], false, V[1..], TreeFails(f, p, c), Turns(Erase(s, TreeRemoved(f, p, c)), cwd, w1, c, k));
    assert [V[0]] + V[1..] == V;
  }

  /** The working directory is further down the list. */
  lemma BreakLater(s: Fs, cwd: Id, w: Walker, c: Client, path: string, level: nat, f: Forest, b1: Break, k: nat)
    returns (b: Break)
    requires !f.Nil? && Proper(f) && w.frames != [] && |w.frames| <= |w.dirs|
    requires HeadWalked(s, cwd, w, c, path, level, f, |b1.visits| + k)
    requires var s1, w1 := Erase(s, TreeRemoved(f, Child(path, f.name), c)), Moved(w, ItemAt(Heads(f.rest), 0));
      BrokenOff(s1, cwd, w1, c, path, level, f.rest, b1, k)
    ensures BrokenOff(s, cwd, w, c, path, level, f, b, k)
  {
    hide Inv, Turns, Lost, Erase, Heads, Visits, TreeVisits, TreeFails, TreeRemoved;
    var p := Child(path, f.name);
    var H, V := TreeRemoved(f, p, c), TreeVisits(f, p, level + 1, c);
    HeadAndRest(f, path, level + 1, c);
    EraseTwice(s, H, b1.removed);
    LaterTwice(V, TreeFails(f, p, c), b1.visits, b1.failed, Turns(Erase(s, H + b1.removed), cwd, Moved(w, NULL), c, k));
    assert Moved(Moved(w, ItemAt(Heads(f.rest), 0)), NULL) == Moved(w, NULL);
    b := Break(V + b1.visits, H + b1.removed, TreeFails(f, p, c) || b1.failed);
  }

  /** The working directory is inside the first tree: once it is lost, that directory's rmdir fails too. */
  lemma BreakInside(s: Fs, cwd: Id, w: Walker, c: Client, d: Id, path: string, cs: seq<string>, level: nat, f: Forest,
                    b1: Break, k: nat)
    returns (b: Break)
    requires c.force && Place(s, cwd, d, path, cs, f, {}) && At(w, d, path, level, f) && f.Dir?
    requires |w.frames| < |w.dirs| && w.frames != []
    requires BrokenOff(s, cwd, Entered(w, path, level, f), c, Child(path, f.name), level + 1, f.kids, b1,
                       1 + (|Heads(f.rest)| + k))
    ensures BrokenOff(s, cwd, w, c, path, level, f, b, k) && b.failed
  {
    hide Inv, Turns, Lost, Erase, Heads, Visits, Place, At, Held, Pushed, Pop, Reading;
    var p := Child(path, f.name);
    var s1, w1, l := Erase(s, b1.removed), Moved(w, ItemAt(Heads(f.rest), 0)), Heads(f.rest);
    PlaceMeans(s, cwd, d, path, cs, f, {});
    AtEntered(w, d, path, level, f);
    var inner := Entered(w, path, level, f);
    AtEnd(inner, f.id, p, level + 1, f.kids);
    LostAfter(s1, cwd, Moved(inner, NULL), c, f.id, p, level + 1, |l| + k);
    PopPushed(w1, f.id, p, level + 1, ItemAt(Heads(f.kids), 0), NULL);
    RestReading(s, cwd, w, d, path, cs, level, f, b1.removed);
    LostList(s1, cwd, w1, c, d, path, level, l, k);
    EnterStep(s, cwd, w, c, d, path, cs, level, f, |b1.visits| + (1 + (|l| + k)), {});
    InsideVisits(f, path, level, c);
    HeadsCount(f.rest, path, level + 1, c);
    var B, A := [Visit(Before, p, level + 1, None)], [Visit(Fts.After, p, level + 1, None)];
    var U, r := Unknowns(s1, path, level + 1, l), Turns(s1, cwd, Moved(w, NULL), c, k);
    assert Moved(w1, NULL) == Moved(w, NULL);
    LaterTwice(A, true, U, l != [], r);
    LaterTwice(b1.visits, b1.failed, A + U, true, r);
    LaterTwice(B, false, b1.visits + (A + U), true, r);
    b := Break(B + (b1.visits + (A + U)), b1.removed, true);
    assert |b.visits| + k == 1 + (|b1.visits| + (1 + (|l| + k)));
  }

  lemma InsideVisits(f: Forest, path: string, level: nat, c: Client)
    requires f.Dir? && c.force
    ensures |Visits(f, path, level + 1, c)| ==
            2 + |Visits(f.kids, Child(path, f.name), level + 2, c)| + |Visits(f.rest, path, level + 1, c)|
  {
  }

  lemma {:induction false} BrokenForest(s: Fs, cwd: Id, w: Walker, c: Client, d: Id, path: string, cs: seq<string>,
                                        level: nat,
                                        f: Forest, k: nat)
    returns (b: Break)
    requires c.force && Place(s, cwd, d, path, cs, f, {}) && At(w, d, path, level, f) && cwd in Ids(f)
    requires TraceClear(s, cs, Ids(f))
    ensures BrokenOff(s, cwd, w, c, path, level, f, b, k)
    decreases f
  {
    hide Place, At, HeadWalked, BrokenOff, Pushed, Moved, TraceClear, TreeRemoved, Inv, Erase, Held;
    PlaceMeans(s, cwd, d, path, cs, f, {});
    AtMeans(w, d, path, level, f);
    var p := Child(path, f.name);
    ForceTakesTree(f, p, c);
    HeadApart(f);
    if cwd in Ids(f.rest) {
      PlaceHead(s, cwd, d, path, cs, f);
      RestClear(s, cwd, d, path, cs, f);
      WalkHead(s, cwd, w, c, d, path, cs, level, f, k, HeadIds(f));
      HeadKeepsInv(s, cwd, w, c, path, level, f, k);
      PlaceRest(s, cwd, d, path, cs, f, {});
      PlaceErased(s, cwd, d, path, cs, f.rest, HeadIds(f), {});
      AtRest(w, d, path, level, f);
      var b1 := BrokenForest(Erase(s, HeadIds(f)), cwd, Moved(w, ItemAt(Heads(f.rest), 0)), c, d, path, cs, level,
                             f.rest, k);
      WalkHead(s, cwd, w, c, d, path, cs, level, f, |b1.visits| + k, HeadIds(f));
      b := BreakLater(s, cwd, w, c, path, level, f, b1, k);
    } else if cwd == f.id {
      if f.File? {
        FileStep(s, cwd, w, c, d, path, cs, level, f, |Heads(f.rest)| + k, {});
      } else {
        CwdTopWalked(s, cwd, w, c, d, path, cs, level, f, |Heads(f.rest)| + k);
      }
      b := BreakHere(s, cwd, w, c, d, path, cs, level, f, k);
    } else {
      PlaceKids(s, cwd, d, path, cs, f, {});
      KidsClear(s, cwd, d, path, cs, f);
      AtEntered(w, d, path, level, f);
      var b1 := BrokenForest(s, cwd, Entered(w, path, level, f), c, f.id, p, cs + [f.name], level + 1, f.kids,
                             1 + (|Heads(f.rest)| + k));
      b := BreakInside(s, cwd, w, c, d, path, cs, level, f, b1, k);
    }
  }

  lemma HeadKeepsInv(s: Fs, cwd: Id, w: Walker, c: Client, path: string, level: nat, f: Forest, k: nat)
    requires HeadWalked(s, cwd, w, c, path, level, f, k)
    ensures Inv(Erase(s, TreeRemoved(f, Child(path, f.name), c)))
  {
    hide Inv, Erase, Turns, TreeRemoved, TreeVisits, TreeFails;
  }

  /** Removing the first tree leaves the way to the list as it is. */
  lemma RestClear(s: Fs, cwd: Id, d: Id, path: string, cs: seq<string>, f: Forest)
    requires Place(s, cwd, d, path, cs, f, HeadIds(f)) && !f.Nil? && TraceClear(s, cs, Ids(f))
    ensures Outside(s, cwd, cs, HeadIds(f)) && TraceClear(Erase(s, HeadIds(f)), cs, Ids(f.rest))
  {
    hide Inv, Ahead, Spelt, Fits, Match, Trace, Resolve, Protected, Vfs.CwdUp, Erase, CwdChain;
    HeadApart(f);
    assert Ids(f) * HeadIds(f) == HeadIds(f);
    ResolveErased(s, s.root, cs, HeadIds(f));
    EraseKeepsMounts(s, HeadIds(f));
  }

  // ----- The whole run -------------------------------------------------------------------------------

  /** A run that has come to its end stays there. */
  lemma {:induction false} TurnsEnded(s: Fs, cwd: Id, w: Walker, c: Client, n: nat, m: nat)
    requires Turns(s, cwd, w, c, n).walker == Started([])
    ensures Turns(s, cwd, w, c, n + m) == Turns(s, cwd, w, c, n)
    decreases n
  {
    hide Read, Act, Settle;
    if n == 0 {
      TurnsSettled(s, cwd, w, c, m);
      AllDone(s, cwd, c, m);
    } else {
      var (v, w1) := Read(s, cwd, w);
      if v.Some? {
        var (s2, w2, bad) := Act(s, cwd, w1, v.value, c);
        TurnsEnded(s2, cwd, w2, c, n - 1, m);
      }
    }
  }

  /**
   With the working directory strictly inside, rm -rf ends within the turns it would take otherwise, and has failed.
   */
  lemma RmFailsInside(s: Fs, cwd: Id, text: string, f: Forest, c: Client, k: nat)
    requires c.force && Walkable(s, cwd, text, f) && cwd in Ids(f.kids)
    ensures var r := Turns(s, cwd, Started([text]), c, |TreeVisits(f, text, 0, c)| + k);
      r.failed && r.walker == Started([])
  {
    hide Inv, Turns, Walkable, At, Place, Read, Held, Pushed, Lost, Erase, Heads, Visits, Pop, Removable, Ready;
    WalkableMeans(s, cwd, text, f);
    WalkableIsReady(s, cwd, text, f, {});
    var cs, w := Spelt(s, cwd, text).value, Started([text]);
    assert Between(w, text) by { StartedHolds(text); }
    RootEnters(s, cwd, w, text, cs, f, {});
    var inner := Pushed(NextRoot(w), f.id, text, 0, ItemAt(Heads(f.kids), 0));
    KidsTraceClear(s, cwd, text, f);
    var b := BrokenForest(s, cwd, inner, c, f.id, text, cs, 0, f.kids, 1);
    var s1 := Erase(s, b.removed);
    AtEnd(inner, f.id, text, 0, f.kids);
    LostAfter(s1, cwd, Moved(inner, NULL), c, f.id, text, 0, 0);
    PopPushed(NextRoot(w), f.id, text, 0, ItemAt(Heads(f.kids), 0), NULL);
    assert NextRoot(w) == Started([]);
    AllDone(s1, cwd, c, 0);
    EntersThen(s, cwd, w, c, text, inner, |b.visits| + 1);
    var n := 1 + (|b.visits| + 1);
    assert n <= |TreeVisits(f, text, 0, c)|;
    TurnsEnded(s, cwd, w, c, n, |TreeVisits(f, text, 0, c)| + k - n);
  }

  lemma StartedHolds(text: string)
    ensures Between(Started([text]), text)
  {
  }

  lemma KidsTraceClear(s: Fs, cwd: Id, text: string, f: Forest)
    requires Walkable(s, cwd, text, f)
    ensures f.Dir? && Spelt(s, cwd, text).Ok? && TraceClear(s, Spelt(s, cwd, text).value, Ids(f.kids))
  {
    hide Inv, Resolve, Trace, Protected, Fits, Spelt;
    TraceOutside(s, s.root, Spelt(s, cwd, text).value, f.kids);
  }
}
