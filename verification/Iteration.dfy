/**
 Reading a directory while it changes. For every sequence of readdirs and file
 system calls the entries returned are computed exactly, and it is proved which
 calls leave the iteration as it was.
 */
module Iteration {
  import opened Common
  import Path
  import opened FsTree
  import opened FsInvariant
  import opened Directories
  import Vfs

  /** What happens while a handle is open: a readdir, or any file system call */
  datatype Event = Next(size: nat) | Change(op: Op)

  /** The state, the handle and the nodes returned, in order */
  function Iterate(s: Fs, h: Handle, events: seq<Event>): (Fs, Handle, seq<Id>)
    decreases |events|
  {
    if events == [] then (s, h, [])
    else
      match events[0]
      case Change(op) => Iterate(Apply(s, op), h, events[1..])
      case Next(size) =>
        var (s', h', ids) := Iterate(s, Advance(s, h, size), events[1..]);
        (s', h', if Entry(s, h, size) == NULL then ids else [Entry(s, h, size)] + ids)
  }

  // ----- What a call takes out of place ---------------------------------------------------

  /** A removal, or a rename that may replace a target (NULL if there is none); anything else displaces nothing. */
  datatype Effect = Still | Removal(node: Id) | Renaming(target: Id, node: Id, dir: Id, name: string)

  /** Calls that fail, and renames of a node to itself, displace nothing. */
  function EffectOf(s: Fs, op: Op): Effect {
    match op
    case UnlinkOp(path) =>
      if Stack(path).Ok? && UnlinkPath(s, Stack(path).stack).1.Ok?
      then Removal(Resolve(s, s.root, Stack(path).stack).value) else Still
    case RmdirOp(path) =>
      if Stack(path).Ok? && RmdirPath(s, Stack(path).stack).1.Ok?
      then Removal(Resolve(s, s.root, Stack(path).stack).value) else Still
    case RenameOp(from, to, memory) =>
      if Stack(from).Ok? && Stack(to).Ok? then RenameEffect(s, Stack(from).stack, Stack(to).stack, memory) else Still
    case _ => Still
  }

  function RenameEffect(s: Fs, from: seq<string>, to: seq<string>, memory: bool): Effect {
    var r := Resolve(s, s.root, from);
    var d := ResolveParent(s, to);
    if r.Err? || d.Err? then Still
    else
      var e := RenameChecks(s, r.value, d.value, to[|to| - 1], memory);
      if e.Err? || e.value == r.value then Still
      else Renaming(e.value, r.value, d.value, to[|to| - 1])
  }

  /** The state between the removal of a rename's target and the relinking */
  function Cleared(s: Fs, target: Id): Fs {
    if target in s.nodes && s.nodes[target].parent in s.kids then Detach(s, target) else s
  }

  /** Existing nodes keep their parents, and lists may only have grown at the front. */
  ghost predicate OnlyGrown(s: Fs, s': Fs) {
    && (forall n :: n in s.nodes ==>
          n in s'.nodes && s'.nodes[n].parent == s.nodes[n].parent && s'.nodes[n].mount == s.nodes[n].mount)
    && (forall d :: d in s.kids ==> d in s'.kids && Suffix(s.kids[d], s'.kids[d]))
  }

  ghost predicate EffectHolds(s: Fs, e: Effect, s': Fs) {
    match e
    case Still => OnlyGrown(s, s')
    case Removal(n) => && Live(s, n) && Displaceable(s, n) && s' == Detach(s, n)
    case Renaming(t, n, d, name) =>
      && Live(s, n) && t != n
      && (t != NULL ==> Live(s, t) && Displaceable(s, t))
      && (t == NULL ==> t !in s.nodes)
      && var s1 := Cleared(s, t);
      && Inv(s1) && Displaceable(s1, n) && d in s1.kids && d != n && s' == Move(s1, n, d, name)
  }

  ghost predicate Displaceable(s: Fs, n: Id) {
    n in s.nodes && s.nodes[n].parent != NULL && s.nodes[n].parent in s.kids && n in s.kids[s.nodes[n].parent]
  }

  lemma LinkedIsDisplaceable(s: Fs, n: Id)
    requires Inv(s) && n in s.nodes && s.nodes[n].parent != NULL
    ensures Displaceable(s, n)
  {
    hide Inv, Links;
    InvHasLinks(s);
    LinkedInList(s.nodes, s.kids, n);
  }

  lemma RemovalHolds(s: Fs, cs: seq<string>)
    requires Inv(s)
    ensures UnlinkPath(s, cs).1.Ok? ==> EffectHolds(s, Removal(Resolve(s, s.root, cs).value), UnlinkPath(s, cs).0)
    ensures UnlinkPath(s, cs).1.Err? ==> UnlinkPath(s, cs).0 == s
    ensures RmdirPath(s, cs).1.Ok? ==> EffectHolds(s, Removal(Resolve(s, s.root, cs).value), RmdirPath(s, cs).0)
    ensures RmdirPath(s, cs).1.Err? ==> RmdirPath(s, cs).0 == s
  {
    hide Inv, Resolve, Protected, Live, Detach;
    RootLive(s);
    ResolveLive(s, s.root, cs);
    RemoveKeeps(s, cs);
    var r := Resolve(s, s.root, cs);
    if r.Ok? {
      LiveIn(s, r.value);
      if s.nodes[r.value].parent != NULL { LinkedIsDisplaceable(s, r.value); }
    }
  }

  lemma RenameHolds(s: Fs, from: seq<string>, to: seq<string>, memory: bool)
    requires Inv(s) && Path.Canonical(to)
    ensures EffectHolds(s, RenameEffect(s, from, to, memory), RenamePaths(s, from, to, memory).0)
  {
    hide Inv, Resolve, Protected, Live, FindChild, Unlink, Rename, RenameChecks, Path.Name, OnlyGrown, Displaceable;
    GrownSame(s);
    var r, d := Resolve(s, s.root, from), ResolveParent(s, to);
    if r.Ok? && d.Ok? {
      RootLive(s);
      ResolveLive(s, s.root, from);
      ResolveLive(s, s.root, to[..|to| - 1]);
      var name := to[|to| - 1];
      assert Path.Name(name);
      var e := RenameChecks(s, r.value, d.value, name, memory);
      if e.Ok? && e.value != r.value {
        RenamingHolds(s, r.value, d.value, name, memory, e.value);
      }
    }
  }

  lemma RenamingHolds(s: Fs, n: Id, d: Id, name: string, memory: bool, e: Id)
    requires Inv(s) && Live(s, n) && Live(s, d) && Path.Name(name)
    requires RenameChecks(s, n, d, name, memory) == Ok(e) && e != n
    ensures e == NULL ==> EffectHolds(s, Renaming(e, n, d, name), Rename(s, n, d, name).0)
    ensures e != NULL ==> Unlink(s, e).1.Ok? &&
                          EffectHolds(s, Renaming(e, n, d, name), Rename(Unlink(s, e).0, n, d, name).0)
  {
    hide Inv, Live, FindChild, Protected, Path.Name, Resolve, AncestorCheck, Rename, Unlink, RenameChecks, Lookup,
         Detach, Move, Displaceable;
    ChecksMean(s, n, d, name, memory, e);
    IdsPositive(s);
    NotBelowItself(s, d, n);
    if e == NULL {
      RelinkKeeps(s, n, d, name);
      CheckedHasParent(s, n, d);
      LinkedIsDisplaceable(s, n);
    } else {
      FilesAreUnprotected(s, e);
      ReplaceReady(s, n, d, name, e);
      FoundIsChild(s, d, name);
      ParentsAreNodes(s, e);
      UnlinkKeeps(s, e);
      LinkedIsDisplaceable(s, e);
      var s1 := Detach(s, e);
      DetachKeepsRest(s, e, n, d);
      RelinkKeeps(s1, n, d, name);
      CheckedHasParent(s1, n, d);
      LinkedIsDisplaceable(s1, n);
      LinkedIsLive(s, e);
    }
  }

  lemma LinkedIsLive(s: Fs, n: Id)
    requires n in s.nodes && s.nodes[n].parent != NULL
    ensures Live(s, n)
  {
  }

  lemma NotBelowItself(s: Fs, d: Id, n: Id)
    requires AncestorCheck(s, d, n, 0).Ok? && NULL !in s.nodes && d in s.nodes
    ensures d != n
  {
  }

  lemma DetachKeepsRest(s: Fs, e: Id, n: Id, d: Id)
    requires e in s.nodes && s.nodes[e].parent in s.kids && n in s.nodes && d in s.nodes && d in s.kids
    ensures var s1 := Detach(s, e);
      && n in s1.nodes && s1.nodes[n].mount == s.nodes[n].mount && d in s1.nodes
      && s1.nodes[d].mount == s.nodes[d].mount
      && s1.nodes[d].kind == s.nodes[d].kind && d in s1.kids
  {
  }

  lemma GrownSame(s: Fs)
    ensures OnlyGrown(s, s)
  {
    forall d | d in s.kids ensures Suffix(s.kids[d], s.kids[d]) {
      assert s.kids[d][0..] == s.kids[d];
    }
  }

  lemma GrownByInsert(s: Fs, d: Id, name: string, kind: Kind)
    requires Inv(s) && d in s.nodes && d in s.kids
    ensures OnlyGrown(s, Insert(s, d, name, kind)) && Insert(s, d, name, kind).nextId > s.nextId
  {
    hide Inv;
    IdsPositive(s);
    GrownSame(s);
    PushSuffix(s.kids[d], s.kids[d], s.nextId);
  }

  lemma GrownTwice(s: Fs, s1: Fs, s2: Fs)
    requires OnlyGrown(s, s1) && OnlyGrown(s1, s2)
    ensures OnlyGrown(s, s2)
  {
    forall d | d in s.kids ensures Suffix(s.kids[d], s2.kids[d]) {
      SuffixTwice(s.kids[d], s1.kids[d], s2.kids[d]);
    }
  }

  lemma SuffixTwice(a: seq<Id>, b: seq<Id>, c: seq<Id>)
    requires Suffix(a, b) && Suffix(b, c)
    ensures Suffix(a, c)
  {
    assert c[|c| - |a|..] == c[|c| - |b|..][|b| - |a|..];
  }

  lemma GrownByRoot(s: Fs)
    requires Inv(s)
    ensures OnlyGrown(s, NewRoot(s))
  {
    hide Inv, OnlyGrown, Added, Lists;
    var r := s.nextId;
    var s0 := BareRoot(s);
    BareRootKeeps(s);
    GrownByBare(s);
    BareLists(s);
    AddedKeeps(s0, r, "bin", [], {});
    var s1 := Added(s0, r, "bin");
    assert [r + 1] + [] == [r + 1] && {} + {"bin"} == {"bin"};
    AddedKeeps(s1, r, "tmp", [r + 1], {"bin"});
    var s2 := Added(s1, r, "tmp");
    AddedKeeps(s2, r, "home", [r + 2] + [r + 1], {"bin"} + {"tmp"});
    var s3 := Added(s2, r, "home");
    GrownByAdded(s0, r, "bin");
    GrownByAdded(s1, r, "tmp");
    GrownByAdded(s2, r, "home");
    GrownByAdded(s3, r + 3, "user");
    GrownTwice(s, s0, s1);
    GrownTwice(s, s1, s2);
    GrownTwice(s, s2, s3);
    GrownTwice(s, s3, NewRoot(s));
  }

  lemma GrownByBare(s: Fs)
    requires Inv(s)
    ensures OnlyGrown(s, BareRoot(s))
  {
    hide Inv;
    IdsPositive(s);
    GrownSame(s);
  }

  lemma GrownByAdded(s: Fs, d: Id, name: string)
    requires Inv(s)
    ensures OnlyGrown(s, Added(s, d, name))
  {
    hide Inv, OnlyGrown;
    GrownSame(s);
    if d in s.nodes && d in s.kids { GrownByInsert(s, d, name, Directory); }
  }

  lemma CreateGrows(s: Fs, cs: seq<string>, kind: Kind, memory: bool)
    requires Inv(s)
    ensures OnlyGrown(s, CreatePath(s, cs, kind, memory).0)
  {
    hide Inv, OnlyGrown, Resolve, FindChild, Insert;
    GrownSame(s);
    var d := ResolveParent(s, cs);
    if d.Ok? && d.value in s.nodes && d.value in s.kids { GrownByInsert(s, d.value, cs[|cs| - 1], kind); }
  }

  lemma MountGrows(s: Fs, cs: seq<string>, root: Id)
    ensures OnlyGrown(s, MountPath(s, cs, root).0)
  {
    hide Resolve, Protected;
    GrownSame(s);
  }

  /** Every call has the effect that EffectOf says. */
  lemma EffectIs(s: Fs, op: Op)
    requires Inv(s)
    ensures EffectHolds(s, EffectOf(s, op), Apply(s, op))
  {
    hide Inv, OnlyGrown, Stack, CreatePath, UnlinkPath, RmdirPath, RenamePaths, RenameEffect, NewRoot, MountPath, Live,
         Displaceable, Detach, Move;
    GrownSame(s);
    match op {
      case CreateOp(path, kind, memory) => if Stack(path).Ok? { CreateGrows(s, Stack(path).stack, kind, memory); }
      case UnlinkOp(path) => if Stack(path).Ok? { RemovalHolds(s, Stack(path).stack); }
      case RmdirOp(path) => if Stack(path).Ok? { RemovalHolds(s, Stack(path).stack); }
      case RenameOp(from, to, memory) =>
        if Stack(from).Ok? && Stack(to).Ok? {
          StackCanonical(to);
          RenameHolds(s, Stack(from).stack, Stack(to).stack, memory);
        }
      case NewRootOp => GrownByRoot(s);
      case MountOp(path, root) => if Stack(path).Ok? { MountGrows(s, Stack(path).stack, root); }
    }
  }

  // ----- What is still to come ---------------------------------------------------------------

  /**
   A handle will return rest: the first of it is linked and rest is the end of its list, or it has been removed and is
   all that comes.
   */
  ghost predicate Pending(s: Fs, rest: seq<Id>) {
    rest == [] ||
    (&& rest[0] in s.nodes && rest[0] != NULL
     && if s.nodes[rest[0]].parent == NULL then |rest| == 1 && s.nodes[rest[0]].mount != rest[0]
        else Ahead(s, s.nodes[rest[0]].parent, rest))
  }

  /** The head of a list, or all of it, with n gone: a removed head still comes, and nothing behind it does. */
  function AfterRemoval(rest: seq<Id>, n: Id): seq<Id> {
    if rest == [] then [] else if rest[0] == n then [n] else Without(rest, n)
  }

  /** A renamed head leads into the list it now heads; elsewhere the node is just missing. */
  function AfterRenaming(rest: seq<Id>, n: Id, into: seq<Id>): seq<Id> {
    if rest == [] then [] else if rest[0] == n then [n] + Without(into, n) else Without(rest, n)
  }

  function ListOf(s: Fs, d: Id): seq<Id> {
    if d in s.kids then s.kids[d] else []
  }

  /** What is still to come after a call with that effect */
  function Left(s: Fs, e: Effect, rest: seq<Id>): seq<Id> {
    match e
    case Still => rest
    case Removal(n) => AfterRemoval(rest, n)
    case Renaming(t, n, d, _) =>
      AfterRenaming(if t == NULL then rest else AfterRemoval(rest, t), n, ListOf(Cleared(s, t), d))
  }

  lemma {:induction false} WithoutBoth(l: seq<Id>, n: Id, rest: seq<Id>)
    requires Suffix(rest, l) && Distinct(l)
    ensures Suffix(Without(rest, n), Without(l, n))
  {
    if n !in rest {
      WithoutAbsent(rest, n);
      WithoutSuffix(l, n, rest);
    } else if |rest| == |l| {
      assert rest == l;
      assert Without(l, n)[0..] == Without(l, n);
    } else {
      assert l[1..][|l| - 1 - |rest|..] == rest;
      TailDistinct(l);
      assert rest == l[|l| - |rest|..];
      SuffixInTail(l, rest, n);
      WithoutBoth(l[1..], n, rest);
      PushSuffix(Without(rest, n), Without(l[1..], n), l[0]);
    }
  }

  lemma SuffixInTail(l: seq<Id>, rest: seq<Id>, n: Id)
    requires Suffix(rest, l) && |rest| < |l| && n in rest && Distinct(l)
    ensures l[0] != n
  {
    var i :| 0 <= i < |rest| && rest[i] == n;
    assert l[|l| - |rest|..][i] == l[|l| - |rest| + i];
  }

  /** A linked node is not the root of its own file system. */
  lemma LinkedMount(s: Fs, n: Id)
    requires Inv(s) && n in s.nodes && s.nodes[n].parent != NULL
    ensures s.nodes[n].mount != n
  {
    hide Names, Mounts, Detached, Links;
    InvHasLinks(s);
    assert Grounded(s.nodes, n);
    var up :| Climb(s.nodes, up) && up[0] == n;
    ClimbEndsAtRoot(s, up);
    ClimbSameMount(s, up);
  }

  lemma PendingDistinct(s: Fs, rest: seq<Id>)
    requires Inv(s) && Pending(s, rest)
    ensures Distinct(rest) && forall i :: 0 <= i < |rest| ==> rest[i] in s.nodes && rest[i] != NULL
    ensures rest != [] ==> forall i :: 0 <= i < |rest| ==> s.nodes[rest[i]].parent == s.nodes[rest[0]].parent
  {
    hide Acyclic, Names, Mounts, Detached;
    if rest != [] && s.nodes[rest[0]].parent != NULL {
      var d := s.nodes[rest[0]].parent;
      var l := s.kids[d];
      assert Distinct(l);
      forall i | 0 <= i < |rest| ensures rest[i] == l[|l| - |rest| + i] && rest[i] in l {
        assert l[|l| - |rest|..][i] == l[|l| - |rest| + i];
      }
    }
  }

  lemma RemovalPending(s: Fs, rest: seq<Id>, n: Id)
    requires Inv(s) && Pending(s, rest) && Displaceable(s, n)
    ensures Pending(Detach(s, n), AfterRemoval(rest, n))
    ensures rest != [] ==> AfterRemoval(rest, n) != [] && AfterRemoval(rest, n)[0] == rest[0]
  {
    hide Inv, Without;
    if rest != [] {
      var d := s.nodes[rest[0]].parent;
      if rest[0] == n {
        LinkedMount(s, n);
      } else {
        WithoutHead(rest, n);
        if d == NULL {
          WithoutAbsent(rest, n);
        } else {
          ListDistinct(s, d);
          WithoutBoth(s.kids[d], n, rest);
          if d != s.nodes[n].parent { NotListedHere(s, d, n, rest); }
        }
      }
    }
  }

  lemma WithoutHead(rest: seq<Id>, n: Id)
    requires rest != [] && rest[0] != n
    ensures Without(rest, n) != [] && Without(rest, n)[0] == rest[0]
    ensures |rest| == 1 ==> Without(rest, n) == rest
  {
  }

  lemma ListDistinct(s: Fs, d: Id)
    requires Inv(s) && d in s.kids
    ensures Distinct(s.kids[d])
  {
    hide Acyclic, Names, Mounts, Detached;
  }

  /** A node of another directory is not in this list. */
  lemma NotListedHere(s: Fs, d: Id, n: Id, rest: seq<Id>)
    requires Inv(s) && Ahead(s, d, rest) && n in s.nodes && s.nodes[n].parent != d
    ensures n !in rest && Without(rest, n) == rest && n !in s.kids[d] && Without(s.kids[d], n) == s.kids[d]
  {
    hide Acyclic, Names, Mounts, Detached, Without;
    assert forall i :: 0 <= i < |rest| ==> rest[i] == s.kids[d][|s.kids[d]| - |rest| + i];
    WithoutAbsent(rest, n);
    WithoutAbsent(s.kids[d], n);
  }

  lemma RenamingPending(s: Fs, rest: seq<Id>, n: Id, d: Id, name: string)
    requires Inv(s) && Pending(s, rest) && Displaceable(s, n) && d in s.kids && d != n && NULL !in s.kids
    ensures Pending(Move(s, n, d, name), AfterRenaming(rest, n, s.kids[d]))
    ensures rest != [] ==> AfterRenaming(rest, n, s.kids[d]) != [] && AfterRenaming(rest, n, s.kids[d])[0] == rest[0]
  {
    hide Inv, Without, Suffix, Ahead;
    if rest != [] {
      var b := s.nodes[rest[0]].parent;
      if rest[0] == n {
        MovedHead(s, n, d, name);
      } else {
        WithoutHead(rest, n);
        if b != NULL { MovedBehind(s, rest, n, d, name, b); }
      }
    }
  }

  /** A node renamed from elsewhere, or from behind the head, is missing from what is ahead. */
  lemma MovedBehind(s: Fs, rest: seq<Id>, n: Id, d: Id, name: string, b: Id)
    requires Inv(s) && Ahead(s, b, rest) && Displaceable(s, n) && d in s.kids
    ensures Ahead(Move(s, n, d, name), b, Without(rest, n))
  {
    hide Inv, Without, Suffix;
    ListDistinct(s, b);
    WithoutBoth(s.kids[b], n, rest);
    if b != s.nodes[n].parent { NotListedHere(s, b, n, rest); }
    if b == d { PushSuffix(Without(rest, n), Without(s.kids[b], n), n); }
  }

  /** The renamed node heads its new list. */
  lemma MovedHead(s: Fs, n: Id, d: Id, name: string)
    requires Inv(s) && Displaceable(s, n) && d in s.kids && NULL !in s.kids
    ensures Ahead(Move(s, n, d, name), d, [n] + Without(s.kids[d], n))
  {
    hide Inv, Without;
    var l := [n] + Without(s.kids[d], n);
    if d != s.nodes[n].parent { NothingElsewhere(s, d, n); }
    assert Move(s, n, d, name).kids[d] == l;
    assert l[0..] == l;
  }

  lemma NothingElsewhere(s: Fs, d: Id, n: Id)
    requires Inv(s) && d in s.kids && n in s.nodes && s.nodes[n].parent != d
    ensures Without(s.kids[d], n) == s.kids[d] && n !in s.kids[d]
  {
    hide Inv, Without;
    assert s.kids[d][|s.kids[d]|..] == [];
    NotListedHere(s, d, n, []);
  }

  lemma StillPending(s: Fs, s': Fs, rest: seq<Id>)
    requires Pending(s, rest) && OnlyGrown(s, s')
    ensures Pending(s', rest)
  {
    if rest != [] && s.nodes[rest[0]].parent != NULL {
      var d := s.nodes[rest[0]].parent;
      SuffixTwice(rest, s.kids[d], s'.kids[d]);
    }
  }

  /** After any call the handle will return exactly what Left says, and its look-ahead is still the first of it. */
  lemma LeftPending(s: Fs, e: Effect, s': Fs, rest: seq<Id>)
    requires Inv(s) && Pending(s, rest) && EffectHolds(s, e, s')
    ensures Pending(s', Left(s, e, rest))
    ensures ItemAt(Left(s, e, rest), 0) == ItemAt(rest, 0)
  {
    hide Inv, Without, Pending, Displaceable, Detach, Move, OnlyGrown, AfterRemoval, AfterRenaming, Live;
    match e {
      case Still => StillPending(s, s', rest);
      case Removal(n) =>
        RemovalPending(s, rest, n);
        NothingRemoved(n);
      case Renaming(t, n, d, name) =>
        var s1 := Cleared(s, t);
        var rest1 := if t == NULL then rest else AfterRemoval(rest, t);
        if t != NULL {
          ClearedIs(s, t);
          RemovalPending(s, rest, t);
          NothingRemoved(t);
        }
        IdsPositive(s1);
        RenamingPending(s1, rest1, n, d, name);
        NothingRenamed(n, s1.kids[d]);
    }
  }

  lemma ClearedIs(s: Fs, t: Id)
    requires Displaceable(s, t)
    ensures Cleared(s, t) == Detach(s, t) && t in Detach(s, t).nodes && Detach(s, t).nodes[t].parent == NULL
  {
  }

  lemma NothingRemoved(n: Id)
    ensures AfterRemoval([], n) == []
  {
  }

  lemma NothingRenamed(n: Id, into: seq<Id>)
    ensures AfterRenaming([], n, into) == []
  {
  }

  // ----- Every sequence of events ---------------------------------------------------------------

  /** The entries returned, computed on the list of what is still to come, and what then remains of it */
  function Returned(s: Fs, rest: seq<Id>, events: seq<Event>): (seq<Id>, seq<Id>)
    decreases |events|
  {
    if events == [] then ([], rest)
    else
      match events[0]
      case Change(op) => Returned(Apply(s, op), Left(s, EffectOf(s, op), rest), events[1..])
      case Next(size) =>
        if rest == [] || rest[0] !in s.nodes || |s.nodes[rest[0]].name| >= size then Returned(s, rest, events[1..])
        else
          var (ids, left) := Returned(s, rest[1..], events[1..]);
          ([rest[0]] + ids, left)
  }

  lemma NextPending(s: Fs, rest: seq<Id>)
    requires Inv(s) && Pending(s, rest) && rest != []
    ensures Pending(s, rest[1..]) && SiblingAfter(s, rest[0]) == ItemAt(rest[1..], 0)
  {
    hide Inv;
    var d := s.nodes[rest[0]].parent;
    if d == NULL {
      IdsPositive(s);
    } else {
      PendingDistinct(s, rest);
      AfterAhead(s, d, rest);
    }
  }

  /** Whatever calls come between the reads, of whatever effect, the handle returns exactly the entries computed. */
  lemma {:induction false} IterationIsExact(s: Fs, h: Handle, rest: seq<Id>, events: seq<Event>)
    requires Inv(s) && Pending(s, rest) && h.next == ItemAt(rest, 0)
    ensures var (s', h', ids) := Iterate(s, h, events);
      var (ids', left) := Returned(s, rest, events);
      ids == ids' && h'.next == ItemAt(left, 0) && Pending(s', left) && Inv(s')
    decreases |events|
  {
    hide Inv, Pending, EffectOf, Left, Apply, SiblingAfter, EffectHolds;
    if events != [] {
      match events[0] {
        case Change(op) =>
          EffectIs(s, op);
          LeftPending(s, EffectOf(s, op), Apply(s, op), rest);
          ApplyKeeps(s, op);
          IterationIsExact(Apply(s, op), h, Left(s, EffectOf(s, op), rest), events[1..]);
        case Next(size) =>
          if rest != [] { NotNull(s, rest); }
          if Entry(s, h, size) == NULL {
            IterationIsExact(s, h, rest, events[1..]);
          } else {
            NextPending(s, rest);
            IterationIsExact(s, Advance(s, h, size), rest[1..], events[1..]);
          }
      }
    }
  }

  lemma NotNull(s: Fs, rest: seq<Id>)
    requires Pending(s, rest) && rest != []
    ensures rest[0] in s.nodes && rest[0] != NULL
  {
  }

  // ----- Which calls are harmless -----------------------------------------------------------------

  /**
   A removal is harmless to an iteration if it takes an entry already returned, or the last one left. A rename must also
   leave the entries to come in place; the head alone may be renamed, to the front of its own list if that holds nothing
   else, or, being the last, into an empty directory.
   */
  ghost predicate Harmless(s: Fs, e: Effect, rest: seq<Id>) {
    match e
    case Still => true
    case Removal(n) => n !in rest || rest == [n]
    case Renaming(t, n, d, _) =>
      && (t == NULL || t !in rest || rest == [t])
      && (n !in rest || (n == rest[0] && HeadMayMove(Cleared(s, t), n, d, rest)))
  }

  ghost predicate HeadMayMove(s: Fs, n: Id, d: Id, rest: seq<Id>) {
    if n in s.nodes && s.nodes[n].parent == d then |ListOf(s, d)| == |rest| else rest == [n] && ListOf(s, d) == []
  }

  lemma RemovalChanges(rest: seq<Id>, n: Id)
    requires Distinct(rest)
    ensures AfterRemoval(rest, n) == rest <==> n !in rest || rest == [n]
    ensures n in AfterRemoval(rest, n) ==> rest != [] && rest[0] == n
    ensures rest != [] && rest[0] == n ==> AfterRemoval(rest, n) == [n]
    ensures |AfterRemoval(rest, n)| <= |rest|
    ensures forall x :: x in AfterRemoval(rest, n) ==> x in rest
  {
    WithoutContents(rest, n);
    if n !in rest {
      WithoutAbsent(rest, n);
    } else {
      WithoutShorter(rest, n);
    }
  }

  lemma {:induction false} WithoutShorter(l: seq<Id>, n: Id)
    requires n in l
    ensures |Without(l, n)| == |l| - 1
  {
    if l[0] != n {
      WithoutShorter(l[1..], n);
    }
  }

  /** The j-th entry removed: the head comes alone, any other is skipped. */
  lemma RemovalLeaves(s: Fs, rest: seq<Id>, j: nat)
    requires Distinct(rest) && j < |rest|
    ensures Left(s, Removal(rest[j]), rest) == if j == 0 then [rest[0]] else rest[..j] + rest[j + 1..]
  {
    if j > 0 { WithoutIndex(rest, rest[j], j); }
  }

  /** The j-th entry renamed: the head leads into the list it is put on, any other is skipped. */
  lemma RenamingLeaves(s: Fs, rest: seq<Id>, j: nat, d: Id, name: string)
    requires Distinct(rest) && j < |rest| && NULL !in s.nodes
    ensures Left(s, Renaming(NULL, rest[j], d, name), rest) ==
            if j == 0 then [rest[0]] + Without(ListOf(s, d), rest[0]) else rest[..j] + rest[j + 1..]
  {
    if j > 0 { WithoutIndex(rest, rest[j], j); }
  }

  /** Where the head is renamed to, the list behind it is what was still to come exactly in the cases named. */
  lemma HeadMoves(s: Fs, rest: seq<Id>, n: Id, d: Id)
    requires Inv(s) && Pending(s, rest) && Displaceable(s, n) && d in s.kids && rest != [] && rest[0] == n
    ensures [n] + Without(s.kids[d], n) == rest <==> HeadMayMove(s, n, d, rest)
  {
    hide Inv, Without, Pending, Distinct;
    var l := s.kids[d];
    if s.nodes[n].parent == d {
      HeadStays(s, rest, n, d);
    } else {
      NothingElsewhere(s, d, n);
      PendingDistinct(s, rest);
      if [n] + l == rest && l != [] {
        assert rest[1] == l[0];
        Parents(s, d, l[0]);
        assert false;
      }
    }
  }

  /** In its own list the head goes before whatever was before it. */
  lemma HeadStays(s: Fs, rest: seq<Id>, n: Id, d: Id)
    requires Inv(s) && Pending(s, rest) && Displaceable(s, n) && d in s.kids && rest != [] && rest[0] == n
    requires s.nodes[n].parent == d
    ensures [n] + Without(s.kids[d], n) == rest <==> |s.kids[d]| == |rest|
  {
    hide Inv, Without;
    ListDistinct(s, d);
    var l := s.kids[d];
    var i := |l| - |rest|;
    assert l[i] == n;
    assert n !in l[..i];
    WithoutIndex(l, n, i);
    assert l[i + 1..] == rest[1..];
    if i == 0 { assert [n] + rest[1..] == rest; }
  }

  lemma Parents(s: Fs, d: Id, c: Id)
    requires Inv(s) && d in s.kids && c in s.kids[d]
    ensures c in s.nodes && s.nodes[c].parent == d
  {
    hide Acyclic, Names, Mounts, Detached;
  }

  /** What is still to come stays as it was if and only if the call is harmless. */
  lemma LeftAloneIff(s: Fs, e: Effect, s': Fs, rest: seq<Id>)
    requires Inv(s) && Pending(s, rest) && EffectHolds(s, e, s')
    ensures Left(s, e, rest) == rest <==> Harmless(s, e, rest)
  {
    hide Inv, Pending, Without, Displaceable, Detach, Move, OnlyGrown, AfterRemoval, Live;
    PendingDistinct(s, rest);
    match e {
      case Still =>
      case Removal(n) => RemovalChanges(rest, n);
      case Renaming(t, n, d, name) =>
        var s1 := Cleared(s, t);
        var rest1 := if t == NULL then rest else AfterRemoval(rest, t);
        if t != NULL {
          RemovalChanges(rest, t);
          ClearedIs(s, t);
          RemovalPending(s, rest, t);
        }
        PendingDistinct(s1, rest1);
        RenamingChanges(s1, rest, rest1, t, n, d);
    }
  }

  lemma RenamingChanges(s: Fs, rest: seq<Id>, rest1: seq<Id>, t: Id, n: Id, d: Id)
    requires Inv(s) && Pending(s, rest1) && Distinct(rest) && Distinct(rest1) && Displaceable(s, n) && d in s.kids
    requires t != n
    requires rest1 != rest ==> t in rest && rest != [t] && |rest1| <= |rest| && (t in rest1 ==> rest[0] == t)
    requires rest1 != rest ==> rest1 != [] && rest1[0] == rest[0] && (rest[0] == t ==> rest1 == [t])
    requires t in s.nodes ==> s.nodes[t].parent == NULL
    ensures AfterRenaming(rest1, n, s.kids[d]) == rest <==>
            rest1 == rest && (n !in rest || (n == rest[0] && HeadMayMove(s, n, d, rest)))
  {
    hide Inv, Pending, HeadMayMove, Without;
    if rest1 == [] {
    } else if rest1[0] == n {
      HeadMoves(s, rest1, n, d);
      if rest1 != rest { TargetMissing(s, rest, t, n, d); }
    } else if n in rest1 {
      WithoutShorter(rest1, n);
    } else {
      WithoutAbsent(rest1, n);
    }
  }

  /** A replaced target does not come back with the list. */
  lemma TargetMissing(s: Fs, rest: seq<Id>, t: Id, n: Id, d: Id)
    requires Inv(s) && t in rest && t != n && d in s.kids && (t in s.nodes ==> s.nodes[t].parent == NULL)
    ensures [n] + Without(s.kids[d], n) != rest
  {
    hide Inv, Without;
    ListDistinct(s, d);
    WithoutContents(s.kids[d], n);
    if t in s.kids[d] {
      Parents(s, d, t);
      IdsPositive(s);
      assert false;
    }
    assert t !in [n] + Without(s.kids[d], n);
  }

  // ----- Reading to the end ------------------------------------------------------------------------

  function Nexts(k: nat, size: nat): (r: seq<Event>)
    ensures |r| == k
  {
    if k == 0 then [] else [Next(size)] + Nexts(k - 1, size)
  }

  /** Every name fits a buffer of that size. */
  ghost predicate Roomy(s: Fs, size: nat) {
    forall n :: n in s.nodes ==> |s.nodes[n].name| < size
  }

  lemma {:induction false} NextsReturn(s: Fs, rest: seq<Id>, size: nat, k: nat)
    requires Inv(s) && Pending(s, rest) && Roomy(s, size)
    ensures Returned(s, rest, Nexts(k, size)).0 == rest[..Min(k, |rest|)]
    decreases k
  {
    hide Inv, Pending, Left, EffectOf, Apply;
    if k > 0 {
      assert Nexts(k, size)[1..] == Nexts(k - 1, size);
      if rest != [] {
        NotNull(s, rest);
        NextPending(s, rest);
        NextsReturn(s, rest[1..], size, k - 1);
      } else {
        NextsReturn(s, rest, size, k - 1);
      }
    }
  }

  /** Reading to the end after one call returns what the call has left, for every call. */
  lemma DrainAfterCall(s: Fs, h: Handle, rest: seq<Id>, op: Op, size: nat, k: nat)
    requires Inv(s) && Pending(s, rest) && h.next == ItemAt(rest, 0) && Roomy(Apply(s, op), size)
    ensures var left := Left(s, EffectOf(s, op), rest);
      Iterate(Apply(s, op), h, Nexts(k, size)).2 == left[..Min(k, |left|)]
  {
    hide Inv, Pending, Left, EffectOf, Apply, Roomy, Iterate, Returned, EffectHolds;
    EffectIs(s, op);
    LeftPending(s, EffectOf(s, op), Apply(s, op), rest);
    ApplyKeeps(s, op);
    var left := Left(s, EffectOf(s, op), rest);
    IterationIsExact(Apply(s, op), h, left, Nexts(k, size));
    NextsReturn(Apply(s, op), left, size, k);
  }

  /**
   Reading to the end after one call returns exactly the entries that were to come if and only if the call is harmless.
   */
  lemma DrainExactIff(s: Fs, h: Handle, rest: seq<Id>, op: Op, size: nat, k: nat)
    requires Inv(s) && Pending(s, rest) && h.next == ItemAt(rest, 0) && Roomy(Apply(s, op), size) && k > |rest|
    ensures Iterate(Apply(s, op), h, Nexts(k, size)).2 == rest <==> Harmless(s, EffectOf(s, op), rest)
  {
    hide Inv, Pending, Left, EffectOf, Apply, Roomy, Iterate, Harmless, EffectHolds;
    EffectIs(s, op);
    LeftAloneIff(s, EffectOf(s, op), Apply(s, op), rest);
    DrainAfterCall(s, h, rest, op, size, k);
    var left := Left(s, EffectOf(s, op), rest);
    assert left[..|left|] == left;
  }

  /** Every call between the reads is harmless to the entries still to come then. */
  ghost predicate Steady(s: Fs, rest: seq<Id>, events: seq<Event>)
    decreases |events|
  {
    if events == [] then true
    else
      match events[0]
      case Change(op) => Harmless(s, EffectOf(s, op), rest) && Steady(Apply(s, op), rest, events[1..])
      case Next(size) =>
        Steady(s, if rest == [] || rest[0] !in s.nodes || |s.nodes[rest[0]].name| >= size then rest else rest[1..],
               events[1..])
  }

  lemma {:induction false} SteadyReturns(s: Fs, rest: seq<Id>, events: seq<Event>)
    requires Inv(s) && Pending(s, rest) && Steady(s, rest, events)
    ensures var (ids, left) := Returned(s, rest, events); ids + left == rest
    decreases |events|
  {
    hide Inv, Pending, Left, EffectOf, Apply, Harmless, EffectHolds;
    if events != [] {
      match events[0] {
        case Change(op) =>
          EffectIs(s, op);
          LeftAloneIff(s, EffectOf(s, op), Apply(s, op), rest);
          LeftPending(s, EffectOf(s, op), Apply(s, op), rest);
          ApplyKeeps(s, op);
          SteadyReturns(Apply(s, op), rest, events[1..]);
        case Next(size) =>
          if rest == [] || rest[0] !in s.nodes || |s.nodes[rest[0]].name| >= size {
            SteadyReturns(s, rest, events[1..]);
          } else {
            NextPending(s, rest);
            SteadyReturns(s, rest[1..], events[1..]);
            assert [rest[0]] + rest[1..] == rest;
          }
      }
    }
  }

  lemma ListPending(s: Fs, d: Id)
    requires Inv(s) && d in s.kids
    ensures Pending(s, s.kids[d]) && Distinct(s.kids[d]) && NULL !in s.kids[d]
  {
    hide Acyclic, Names, Mounts, Detached;
    var l := s.kids[d];
    assert l[0..] == l;
    if l != [] { assert l[0] in l; }
    assert forall c :: c in l ==> c in s.nodes;
  }

  /**
   From opendir on, with only harmless calls: every child present then is returned exactly once, in list order, and
   nothing made since.
   */
  lemma EachChildOnce(s: Fs, d: Id, events: seq<Event>)
    requires Inv(s) && d in s.kids && Steady(s, s.kids[d], events)
    ensures var (s', h', ids) := Iterate(s, Handle(d, ItemAt(s.kids[d], 0)), events);
      && ids <= s.kids[d] && Distinct(ids)
      && (h'.next == NULL <==> ids == s.kids[d])
  {
    hide Inv, Pending, Iterate, Returned, Steady;
    var l := s.kids[d];
    ListPending(s, d);
    IterationIsExact(s, Handle(d, ItemAt(l, 0)), l, events);
    SteadyReturns(s, l, events);
    var (ids, left) := Returned(s, l, events);
    assert ids == l[..|ids|];
    if left != [] { assert left[0] == l[|ids|]; }
  }

  /**
   The converse for the last call: if all calls before it were harmless, then reading on to the end completes the list
   exactly if that call is harmless too.
   */
  lemma LastCallDecides(s: Fs, d: Id, events: seq<Event>, op: Op, size: nat, k: nat)
    requires Inv(s) && d in s.kids && Steady(s, s.kids[d], events) && k > |s.kids[d]|
    requires Roomy(Apply(Iterate(s, Handle(d, ItemAt(s.kids[d], 0)), events).0, op), size)
    ensures var (s', h', ids) := Iterate(s, Handle(d, ItemAt(s.kids[d], 0)), events);
      && ids <= s.kids[d]
      && (ids + Iterate(Apply(s', op), h', Nexts(k, size)).2 == s.kids[d] <==>
          Harmless(s', EffectOf(s', op), s.kids[d][|ids|..]))
  {
    hide Inv, Pending, Iterate, Returned, Steady, EffectOf, Apply, Roomy, Harmless;
    var l := s.kids[d];
    ListPending(s, d);
    IterationIsExact(s, Handle(d, ItemAt(l, 0)), l, events);
    SteadyReturns(s, l, events);
    var (ids, left) := Returned(s, l, events);
    assert ids == l[..|ids|] && left == l[|ids|..];
    var (s', h', _) := Iterate(s, Handle(d, ItemAt(l, 0)), events);
    DrainExactIff(s', h', left, op, size, k);
    var more := Iterate(Apply(s', op), h', Nexts(k, size)).2;
    if ids + more == l { assert more == (ids + more)[|ids|..]; }
  }
}
