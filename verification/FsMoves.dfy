/**
 What removal, renaming and mounting leave behind, said through paths, with the
 exact conditions under which a rename succeeds.
 */
module FsMoves {
  import opened Common
  import Path
  import opened FsTree
  import opened FsInvariant
  import opened FsLaws
  import Vfs

  // ----- Entries ----------------------------------------------------------------------------

  /** Outside C every linked node of one state is linked alike in the other. */
  ghost predicate EntriesKept(nodes: map<Id, Node>, nodes': map<Id, Node>, C: set<(Id, string)>) {
    forall c :: c in nodes && nodes[c].parent != NULL && (nodes[c].parent, nodes[c].name) !in C ==>
      c in nodes' && nodes'[c].parent == nodes[c].parent && nodes'[c].name == nodes[c].name
  }

  lemma EntriesDecide(s: Fs, s': Fs, C: set<(Id, string)>)
    requires Inv(s) && Inv(s') && s'.mounts == s.mounts && s'.root == s.root
    requires forall n :: n in s.nodes ==> n in s'.nodes && s'.nodes[n].kind == s.nodes[n].kind
    requires EntriesKept(s.nodes, s'.nodes, C) && EntriesKept(s'.nodes, s.nodes, C)
    ensures SameBut(s, s', C)
  {
    hide Inv, EntriesKept, Lookup;
    forall d, x | d in s.nodes && (d, x) !in C ensures Lookup(s', d, x) == Lookup(s, d, x) {
      if s.nodes[d].kind.Directory? {
        if Lookup(s, d, x).Ok? {
          EntryFound(s, s', C, d, x);
        } else if Lookup(s', d, x).Ok? {
          EntryFound(s', s, C, d, x);
        }
        LookupIff(s, d, x, d);
        LookupIff(s', d, x, d);
      } else {
        LookupInFile(s, d, x);
        LookupInFile(s', d, x);
      }
    }
  }

  lemma EntryFound(s: Fs, s': Fs, C: set<(Id, string)>, d: Id, x: string)
    requires Inv(s) && Inv(s') && EntriesKept(s.nodes, s'.nodes, C)
    requires d in s'.nodes && s'.nodes[d].kind.Directory? && (d, x) !in C && Lookup(s, d, x).Ok?
    ensures Lookup(s', d, x) == Lookup(s, d, x)
  {
    hide Inv, Lookup;
    FoundIsChild(s, d, x);
    var c := Lookup(s, d, x).value;
    ParentsAreNodes(s, c);
    LookupIff(s', d, x, c);
  }

  lemma LookupInFile(s: Fs, d: Id, x: string)
    requires Inv(s) && d in s.nodes && !s.nodes[d].kind.Directory?
    ensures Lookup(s, d, x) == Err(ENOTDIR)
  {
    hide Acyclic, Mounts, Detached, Names;
    IdsPositive(s);
  }

  // ----- Removal -----------------------------------------------------------------------------

  /** l without the node n, the others in their order */
  ghost predicate TakenOut(l: seq<Id>, l': seq<Id>, n: Id) {
    exists i :: 0 <= i < |l| && l[i] == n && l' == l[..i] + l[i + 1..]
  }

  /** The entry at cs is gone: its path leads nowhere, its directory's list is one shorter, nothing else changed. */
  ghost predicate EntryGone(s: Fs, s': Fs, cs: seq<string>, n: Id) {
    && cs != [] && Resolve(s', s'.root, cs) == Err(ENOENT)
    && n in s.nodes && s'.nodes == s.nodes[n := s.nodes[n].(parent := NULL)]
    && var d := s.nodes[n].parent;
    && d in s.kids && d in s'.kids && s'.kids == s.kids[d := s'.kids[d]] && TakenOut(s.kids[d], s'.kids[d], n)
    && s'.root == s.root && s'.mounts == s.mounts && s'.nextId == s.nextId
  }

  /** A node that a path leads to directly, not through a mount on it */
  lemma PathOfLinked(s: Fs, cs: seq<string>)
    requires Inv(s) && Resolve(s, s.root, cs).Ok?
    requires var n := Resolve(s, s.root, cs).value; n in s.nodes && s.nodes[n].parent != NULL
    ensures var n := Resolve(s, s.root, cs).value;
      && cs != [] && Resolve(s, s.root, cs[..|cs| - 1]) == Ok(s.nodes[n].parent)
      && s.nodes[n].name == cs[|cs| - 1] && Down(s, n) == n
  {
    hide Inv, Resolve, Lookup, Up, Down;
    var n := Resolve(s, s.root, cs).value;
    Vfs.ResolveNothing(s);
    RootHasNoParent(s);
    var d, c := Vfs.LastLookup(s, cs);
    LinkedNotMounted(s, n);
  }

  lemma LinkedNotMounted(s: Fs, n: Id)
    requires Inv(s) && n in s.nodes && s.nodes[n].parent != NULL
    ensures Up(s, n) == n
  {
    hide Inv;
    var i := MountOf(s.mounts, n);
    if i < |s.mounts| {
      Vfs.RootsHaveNoParent(s, i);
    }
  }

  lemma DetachLeaves(s: Fs, cs: seq<string>, n: Id)
    requires Inv(s) && Resolve(s, s.root, cs) == Ok(n) && n in s.nodes && s.nodes[n].parent != NULL
    requires s.nodes[n].parent in s.kids && Inv(Detach(s, n))
    ensures EntryGone(s, Detach(s, n), cs, n)
    ensures SameBut(s, Detach(s, n), {(s.nodes[n].parent, s.nodes[n].name)})
  {
    hide Inv, Resolve, Lookup, SameBut, Without, Path.Name;
    var s', d, name := Detach(s, n), s.nodes[n].parent, s.nodes[n].name;
    PathOfLinked(s, cs);
    OnlyOneNamed(s, n);
    EntriesDecide(s, s', {(d, name)});
    var init := cs[..|cs| - 1];
    assert cs == init + [name];
    NotBeyond(init, name);
    OthersSame(s, s', init, name, init);
    Vfs.ResolveLast(s', s'.root, init, name);
    ParentIsNode(s, n);
    VacantIff(s', d, name);
    TakenOutOf(s, n);
  }

  lemma ParentIsNode(s: Fs, n: Id)
    requires Inv(s) && n in s.nodes && s.nodes[n].parent != NULL
    ensures var d := s.nodes[n].parent; d in s.nodes && d in s.kids && n in s.kids[d] && s.nodes[d].kind.Directory?
    ensures s.nodes[n].parent != n
  {
    hide Acyclic, Names, Mounts, Detached, Links;
    InvHasLinks(s);
    LinkedInList(s.nodes, s.kids, n);
    ParentIsDirectory(s.nodes, s.kids, s.nodes[n].parent, n);
    NotOwnParent(s, n);
  }

  lemma OnlyOneNamed(s: Fs, n: Id)
    requires Inv(s) && n in s.nodes && s.nodes[n].parent != NULL
    ensures forall c :: c in s.nodes && s.nodes[c].parent == s.nodes[n].parent && s.nodes[c].name == s.nodes[n].name
              ==> c == n
  {
    hide Acyclic, Mounts, Detached, Links;
  }

  lemma TakenOutOf(s: Fs, n: Id)
    requires Inv(s) && n in s.nodes && s.nodes[n].parent != NULL && s.nodes[n].parent in s.kids
    ensures TakenOut(s.kids[s.nodes[n].parent], Detach(s, n).kids[s.nodes[n].parent], n)
  {
    hide Inv;
    ParentIsNode(s, n);
    var l := s.kids[s.nodes[n].parent];
    var i := FirstIndex(l, n);
    WithoutIndex(l, n, i);
  }

  /** unlink succeeds exactly on a path that leads to something other than a directory. */
  lemma UnlinkSucceedsIff(s: Fs, cs: seq<string>)
    requires Inv(s)
    ensures var r := Resolve(s, s.root, cs);
      var (s', u) := UnlinkPath(s, cs);
      && (r.Ok? ==> r.value in s.nodes && r.value in s.kids)
      && (u.Ok? <==> r.Ok? && !s.nodes[r.value].kind.Directory?)
      && (u.Ok? ==> EntryGone(s, s', cs, r.value))
      && (u.Err? ==> s' == s)
      && (r.Err? ==> u == Err(r.error))
      && (r.Ok? && s.nodes[r.value].kind.Directory? ==>
            u == Err(if Protected(s, r.value) then EPERM else if s.kids[r.value] == [] then EISDIR else ENOTEMPTY))
  {
    hide Inv, Resolve, EntryGone, Protected;
    var r := Resolve(s, s.root, cs);
    if r.Ok? {
      ResolvedIsNode(s, cs);
      IdsPositive(s);
      var n := r.value;
      if !s.nodes[n].kind.Directory? {
        FilesAreUnprotected(s, n);
        FilesAreLinked(s, n);
        UnlinkKeeps(s, n);
        ParentIsNode(s, n);
        DetachLeaves(s, cs, n);
      }
    }
  }

  lemma FilesAreLinked(s: Fs, n: Id)
    requires Inv(s) && Live(s, n) && !s.nodes[n].kind.Directory?
    ensures s.nodes[n].parent != NULL
  {
    hide Inv;
    if s.nodes[n].parent == NULL {
      RootsAreDirectories(s, n);
    }
  }

  lemma RootsAreDirectories(s: Fs, n: Id)
    requires Inv(s) && IsRoot(s, n)
    ensures n in s.nodes && s.nodes[n].kind.Directory?
  {
    hide Acyclic, Names, Links, Detached;
    if n != s.root {
      var i :| 0 <= i < |s.mounts| && s.mounts[i].root == n;
      assert MountOk(s.nodes, s.root, s.mounts[i]);
    }
  }

  /** rmdir succeeds exactly on a path to an empty directory with a parent, neither mounted nor mounted on. */
  lemma RmdirSucceedsIff(s: Fs, cs: seq<string>)
    requires Inv(s)
    ensures var r := Resolve(s, s.root, cs);
      var (s', u) := RmdirPath(s, cs);
      && (r.Ok? ==> r.value in s.nodes && r.value in s.kids)
      && (u.Ok? <==> && r.Ok? && s.nodes[r.value].kind.Directory? && s.kids[r.value] == []
                     && !Protected(s, r.value) && s.nodes[r.value].parent != NULL)
      && (u.Ok? ==> EntryGone(s, s', cs, r.value))
      && (u.Err? ==> s' == s)
      && (r.Err? ==> u == Err(r.error))
      && (r.Ok? && !s.nodes[r.value].kind.Directory? ==> u == Err(ENOTDIR))
      && (r.Ok? && s.nodes[r.value].kind.Directory? && !Protected(s, r.value) && s.kids[r.value] != [] ==>
            u == Err(ENOTEMPTY))
      && (r.Ok? && Protected(s, r.value) ==> u == Err(EPERM))
  {
    hide Inv, Resolve, EntryGone, Protected;
    var r := Resolve(s, s.root, cs);
    if r.Ok? {
      ResolvedIsNode(s, cs);
      IdsPositive(s);
      var n := r.value;
      if !s.nodes[n].kind.Directory? {
        FilesAreUnprotected(s, n);
      } else if s.kids[n] == [] && !Protected(s, n) && s.nodes[n].parent != NULL {
        RmdirKeeps(s, n);
        ParentIsNode(s, n);
        DetachLeaves(s, cs, n);
      }
    }
  }

  /** Every path that did not go through the removed entry leads where it led. */
  lemma RemovalElsewhere(s: Fs, cs: seq<string>, ps: seq<string>)
    requires Inv(s) && !(cs <= ps)
    ensures UnlinkPath(s, cs).1.Ok? ==> Resolve(UnlinkPath(s, cs).0, s.root, ps) == Resolve(s, s.root, ps)
    ensures RmdirPath(s, cs).1.Ok? ==> Resolve(RmdirPath(s, cs).0, s.root, ps) == Resolve(s, s.root, ps)
  {
    hide Inv, Resolve, EntryGone, Protected, SameBut;
    UnlinkSucceedsIff(s, cs);
    RmdirSucceedsIff(s, cs);
    if UnlinkPath(s, cs).1.Ok? || RmdirPath(s, cs).1.Ok? {
      var n := Resolve(s, s.root, cs).value;
      ResolvedIsNode(s, cs);
      if !s.nodes[n].kind.Directory? {
        FilesAreUnprotected(s, n);
        FilesAreLinked(s, n);
      }
      UnlinkKeeps(s, n);
      RmdirKeeps(s, n);
      ParentIsNode(s, n);
      DetachLeaves(s, cs, n);
      PathOfLinked(s, cs);
      assert cs == cs[..|cs| - 1] + [s.nodes[n].name];
      OthersSame(s, Detach(s, n), cs[..|cs| - 1], s.nodes[n].name, ps);
    }
  }

  // ----- Above and below ------------------------------------------------------------------------

  /** The root of a node's file system is on the way to it. */
  lemma {:induction false} RootOnTheWay(s: Fs, cs: seq<string>) returns (k: nat)
    requires Inv(s) && Resolve(s, s.root, cs).Ok?
    ensures var n := Resolve(s, s.root, cs).value;
      n in s.nodes && k <= |cs| && Resolve(s, s.root, cs[..k]) == Ok(s.nodes[n].mount)
    decreases |cs|
  {
    hide Inv, Resolve, Lookup, Up, Down, Live, IsRoot;
    var n := Resolve(s, s.root, cs).value;
    ResolvedIsNode(s, cs);
    Vfs.ResolveNothing(s);
    LiveIn(s, n);
    if cs == [] {
      RootHasNoParent(s);
      k := 0;
    } else if s.nodes[n].parent == NULL {
      MountedIsItsMount(s, n);
      k := |cs|;
      assert cs[..k] == cs;
    } else {
      PathOfLinked(s, cs);
      var init := cs[..|cs| - 1];
      k := RootOnTheWay(s, init);
      SameMountAsParent(s, n);
      assert init[..k] == cs[..k];
    }
  }

  lemma MountedIsItsMount(s: Fs, n: Id)
    requires Inv(s) && Live(s, n) && s.nodes[n].parent == NULL
    ensures s.nodes[n].mount == n
  {
    hide Inv;
    RootOfMount(s, n);
  }

  lemma SameMountAsParent(s: Fs, n: Id)
    requires Inv(s) && n in s.nodes && s.nodes[n].parent != NULL
    ensures s.nodes[n].parent in s.nodes && s.nodes[s.nodes[n].parent].mount == s.nodes[n].mount
  {
    hide Inv;
    ParentIsNode(s, n);
    InvHasLinks(s);
    ParentIsDirectory(s.nodes, s.kids, s.nodes[n].parent, n);
  }

  /** In one file system, what a longer path leads to is below: the upward walk meets the shorter path's node. */
  lemma {:induction false} BelowIsRefused(s: Fs, from: seq<string>, to: seq<string>, hops: nat)
    requires Inv(s) && from <= to && Resolve(s, s.root, from).Ok? && Resolve(s, s.root, to).Ok?
    requires var n, d := Resolve(s, s.root, from).value, Resolve(s, s.root, to).value;
      n in s.nodes && d in s.nodes && s.nodes[n].mount == s.nodes[d].mount
    requires hops + |to| - |from| <= MAX_HOPS
    ensures var n, d := Resolve(s, s.root, from).value, Resolve(s, s.root, to).value;
      AncestorCheck(s, d, n, hops) == Err(EINVAL)
    decreases |to|
  {
    hide Inv, Resolve, Lookup, Up, Down, Live, IsRoot;
    var n, d := Resolve(s, s.root, from).value, Resolve(s, s.root, to).value;
    IdsPositive(s);
    ResolvedIsNode(s, to);
    if |from| == |to| {
      assert from == to;
    } else {
      if s.nodes[d].parent == NULL {
        MountedIsItsMount(s, d);
        var k := RootOnTheWay(s, from);
        Vfs.OnePath(s, from[..k], to);
        assert false;
      }
      PathOfLinked(s, to);
      SameMountAsParent(s, d);
      var init := to[..|to| - 1];
      assert from <= init;
      BelowIsRefused(s, from, init, hops + 1);
      if d == n {
        Vfs.OnePath(s, from, to);
        assert false;
      }
    }
  }

  /** A node that is not on the way is not met, and the walk ends within the limit. */
  lemma {:induction false} OthersPass(s: Fs, from: seq<string>, to: seq<string>, hops: nat)
    requires Inv(s) && !(from <= to) && Resolve(s, s.root, from).Ok? && Resolve(s, s.root, to).Ok?
    requires hops + |to| < MAX_HOPS
    ensures AncestorCheck(s, Resolve(s, s.root, to).value, Resolve(s, s.root, from).value, hops).Ok?
    decreases |to|
  {
    hide Inv, Resolve, Lookup, Up, Down, Live, IsRoot;
    var n, d := Resolve(s, s.root, from).value, Resolve(s, s.root, to).value;
    IdsPositive(s);
    ResolvedIsNode(s, to);
    LiveIn(s, d);
    if d == n {
      Vfs.OnePath(s, from, to);
      assert false;
    }
    if s.nodes[d].parent != NULL {
      PathOfLinked(s, to);
      var init := to[..|to| - 1];
      assert init <= to;
      OthersPass(s, from, init, hops + 1);
    } else {
      assert AncestorCheck(s, NULL, n, hops + 1).Ok?;
    }
  }

  // ----- Renaming -------------------------------------------------------------------------------

  /** Where a rename goes: the directory and the new name. */
  ghost predicate Destination(s: Fs, to: seq<string>, d: Id, name: string) {
    to != [] && Resolve(s, s.root, to[..|to| - 1]) == Ok(d) && name == to[|to| - 1]
  }

  /** The entry that is there already may be replaced: there is none, or both are something other than directories. */
  ghost predicate Replaceable(s: Fs, n: Id, d: Id, name: string)
    requires n in s.nodes
  {
    forall c :: c in s.nodes && s.nodes[c].parent == d && s.nodes[c].name == name ==>
      !s.nodes[c].kind.Directory? && !s.nodes[n].kind.Directory?
  }

  /**
   A rename succeeds exactly when its source exists and is neither mounted nor
   mounted on, the new directory exists in the same file system and is not the
   source or below it, and the new name is free, or can be replaced, or is the
   old one; all but the last of these need memory.
   */
  ghost predicate CanRename(s: Fs, from: seq<string>, to: seq<string>, memory: bool) {
    && Resolve(s, s.root, from).Ok? && to != [] && Resolve(s, s.root, to[..|to| - 1]).Ok?
    && var n := Resolve(s, s.root, from).value;
    var d := Resolve(s, s.root, to[..|to| - 1]).value;
    && n in s.nodes && d in s.nodes && s.nodes[d].kind.Directory?
    && s.nodes[n].mount == s.nodes[d].mount && !Protected(s, n)
    && !(from <= to[..|to| - 1])
    && (from == to || (memory && Replaceable(s, n, d, to[|to| - 1])))
  }

  lemma RenameSucceedsIff(s: Fs, from: seq<string>, to: seq<string>, memory: bool)
    requires Inv(s) && Path.Canonical(to) && |to| <= Path.MAX_COMPONENTS
    ensures RenamePaths(s, from, to, memory).1.Ok? <==> CanRename(s, from, to, memory)
  {
    hide Inv, Resolve, Protected, AncestorCheck, Rename, Unlink, RenameChecks, CanRename, Live, Path.Name;
    var r, p := Resolve(s, s.root, from), ResolveParent(s, to);
    if r.Ok? && p.Ok? {
      var n, d, name := r.value, p.value, to[|to| - 1];
      ResolvedIsNode(s, from);
      ResolvedIsNode(s, to[..|to| - 1]);
      LiveIn(s, n);
      LiveIn(s, d);
      var e := RenameChecks(s, n, d, name, memory);
      ChecksIff(s, from, to, memory);
      if e.Ok? && e.value != n {
        assert Path.Name(name);
        RenameStepKeeps(s, n, d, name, memory, e.value);
      }
    } else {
      CannotRename(s, from, to, memory);
    }
  }

  lemma CannotRename(s: Fs, from: seq<string>, to: seq<string>, memory: bool)
    requires Resolve(s, s.root, from).Err? || ResolveParent(s, to).Err?
    ensures !CanRename(s, from, to, memory)
  {
  }

  lemma ChecksIff(s: Fs, from: seq<string>, to: seq<string>, memory: bool)
    requires Inv(s) && |to| <= Path.MAX_COMPONENTS
    requires Resolve(s, s.root, from).Ok? && ResolveParent(s, to).Ok?
    ensures RenameChecks(s, Resolve(s, s.root, from).value, ResolveParent(s, to).value, to[|to| - 1], memory).Ok?
       <==> CanRename(s, from, to, memory)
  {
    hide Inv, Resolve, Protected, AncestorCheck, Lookup, Live;
    var n, d, name, init := Resolve(s, s.root, from).value, ResolveParent(s, to).value, to[|to| - 1], to[..|to| - 1];
    ResolvedIsNode(s, from);
    ResolvedIsNode(s, init);
    LiveIn(s, n);
    LiveIn(s, d);
    if s.nodes[n].mount == s.nodes[d].mount && !Protected(s, n) {
      if from <= init {
        BelowIsRefused(s, from, init, 0);
      } else {
        OthersPass(s, from, init, 0);
        SameEntryIff(s, from, to);
        if s.nodes[d].kind.Directory? {
          ReplaceableIff(s, n, d, name);
        } else {
          LookupInFile(s, d, name);
        }
      }
    }
  }

  /** The new entry is the source itself exactly when the two paths are one. */
  lemma SameEntryIff(s: Fs, from: seq<string>, to: seq<string>)
    requires Inv(s) && Resolve(s, s.root, from).Ok? && ResolveParent(s, to).Ok?
    requires !Protected(s, Resolve(s, s.root, from).value)
    ensures Lookup(s, ResolveParent(s, to).value, to[|to| - 1]) == Resolve(s, s.root, from) <==> from == to
  {
    hide Inv, Resolve, Lookup;
    var n, d, name, init := Resolve(s, s.root, from).value, ResolveParent(s, to).value, to[|to| - 1], to[..|to| - 1];
    assert to == init + [name];
    Vfs.ResolveLast(s, s.root, init, name);
    var c := Lookup(s, d, name);
    if c == Ok(n) {
      assert Down(s, n) == n;
      Vfs.OnePath(s, from, to);
    }
    if from == to {
      assert Down(s, c.value) == n;
      CrossedIsProtected(s, c.value);
    }
  }

  lemma CrossedIsProtected(s: Fs, c: Id)
    ensures Down(s, c) == c || Protected(s, Down(s, c))
  {
  }

  lemma ReplaceableIff(s: Fs, n: Id, d: Id, name: string)
    requires Inv(s) && n in s.nodes && d in s.nodes && s.nodes[d].kind.Directory?
    ensures var e := Lookup(s, d, name);
      && (e.Err? ==> e == Err(ENOENT)) && (e.Ok? ==> e.value in s.nodes)
      && (Replaceable(s, n, d, name) <==>
            e.Err? || (!s.nodes[e.value].kind.Directory? && !s.nodes[n].kind.Directory?))
  {
    hide Inv, Lookup;
    LookupIff(s, d, name, d);
    if Lookup(s, d, name).Ok? {
      LookupIff(s, d, name, Lookup(s, d, name).value);
    }
    forall c | c in s.nodes && s.nodes[c].parent == d && s.nodes[c].name == name ensures Lookup(s, d, name) == Ok(c) {
      LookupIff(s, d, name, c);
    }
  }

  /** The nodes after a rename that is not onto itself: the moved one, and the replaced one without a parent. */
  lemma RenamedNodes(s: Fs, n: Id, d: Id, name: string, memory: bool, e: Id)
    requires Inv(s) && Live(s, n) && Live(s, d) && Path.Name(name)
    requires RenameChecks(s, n, d, name, memory) == Ok(e) && e != n
    ensures n in s.nodes && s.nodes[n].parent != NULL && (e != NULL ==> e in s.nodes && !s.nodes[e].kind.Directory?)
    ensures e != NULL ==> s.nodes[e].parent == d && s.nodes[e].name == name
    ensures e == NULL ==> forall c :: c in s.nodes && s.nodes[c].parent == d ==> s.nodes[c].name != name
    ensures var s' := if e == NULL then Rename(s, n, d, name).0 else Rename(Unlink(s, e).0, n, d, name).0;
      var nodes := if e == NULL then s.nodes else s.nodes[e := s.nodes[e].(parent := NULL)];
      && s'.nodes == nodes[n := s.nodes[n].(parent := d, name := name)]
      && s'.root == s.root && s'.mounts == s.mounts
  {
    hide Inv, Live, FindChild, Protected, Path.Name, Resolve, AncestorCheck, RenameChecks, Lookup, Without;
    RenameStepKeeps(s, n, d, name, memory, e);
    ChecksMean(s, n, d, name, memory, e);
    CheckedHasParent(s, n, d);
    if e != NULL {
      FoundIsChild(s, d, name);
      ParentsAreNodes(s, e);
      FilesAreUnprotected(s, e);
      UnlinkKeeps(s, e);
    } else {
      FreeIsVacant(s, d, name);
    }
  }

  lemma FreeIsVacant(s: Fs, d: Id, name: string)
    requires Inv(s) && d in s.nodes && d in s.kids && s.nodes[d].kind.Directory?
    requires FindChild(s.nodes, s.kids[d], name) == NULL
    ensures forall c :: c in s.nodes && s.nodes[c].parent == d ==> s.nodes[c].name != name
  {
    hide Inv, FindChild;
    VacantIff(s, d, name);
  }

  /**
   After a rename the new path leads to the node the old one led to, the old path
   leads nowhere unless it is the new one, and the node is in the new directory
   under the new name. Of all other nodes only a replaced file lost its place.
   */
  lemma RenameMoves(s: Fs, from: seq<string>, to: seq<string>, memory: bool)
    requires Inv(s) && Path.Canonical(to) && |to| <= Path.MAX_COMPONENTS
    requires RenamePaths(s, from, to, memory).1.Ok?
    ensures CanRename(s, from, to, memory)
    ensures var s' := RenamePaths(s, from, to, memory).0;
      var n := Resolve(s, s.root, from).value;
      var d := Resolve(s, s.root, to[..|to| - 1]).value;
      && Resolve(s', s'.root, to) == Ok(n)
      && (if from == to then s' == s else Resolve(s', s'.root, from) == Err(ENOENT))
      && (from != to ==>
            && s'.nodes.Keys == s.nodes.Keys
            && s'.nodes[n] == s.nodes[n].(parent := d, name := to[|to| - 1])
            && (forall m :: m in s.nodes && m != n ==>
                  s'.nodes[m] == if s.nodes[m].parent == d && s.nodes[m].name == to[|to| - 1]
                                 then s.nodes[m].(parent := NULL) else s.nodes[m]))
  {
    hide Inv, Resolve, Protected, AncestorCheck, Rename, Unlink, RenameChecks, Live, Path.Name, Lookup, CanRename;
    RenameSucceedsIff(s, from, to, memory);
    var s' := RenamePaths(s, from, to, memory).0;
    var n, d, name, init := Resolve(s, s.root, from).value, ResolveParent(s, to).value, to[|to| - 1], to[..|to| - 1];
    assert to == init + [name] && Path.Name(name);
    RenameKeeps(s, from, to, memory);
    CanRenameMeans(s, from, to, memory);
    SameEntryIff(s, from, to);
    ResolvedIsNode(s, from);
    ResolvedIsNode(s, init);
    var e := RenameChecks(s, n, d, name, memory).value;
    SelfIsSame(s, n, d, name, memory);
    if e == n {
      assert from == to;
    } else {
      RenamedNodes(s, n, d, name, memory, e);
      IdsPositive(s);
      PathOfLinked(s, from);
      assert from == from[..|from| - 1] + [s.nodes[n].name];
      NewPathLeads(s, s', from[..|from| - 1], init, n, d, name, e);
      OldPathEnds(s, s', from, to, n, d, name, e);
      EntryMovedMeans(s, s', n, d, name, e);
    }
  }

  /** What lay below the old path lies below the new one; every path through neither leads where it led. */
  lemma RenameCarries(s: Fs, from: seq<string>, to: seq<string>, memory: bool, rest: seq<string>, ps: seq<string>)
    requires Inv(s) && Path.Canonical(to) && |to| <= Path.MAX_COMPONENTS && RenamePaths(s, from, to, memory).1.Ok?
    ensures var s' := RenamePaths(s, from, to, memory).0;
      && Resolve(s', s'.root, to + rest) == Resolve(s, s.root, from + rest)
      && (!(from <= ps) && !(to <= ps) ==> Resolve(s', s'.root, ps) == Resolve(s, s.root, ps))
  {
    hide Inv, Resolve, Protected, AncestorCheck, Rename, Unlink, RenameChecks, Live, Path.Name, Lookup, CanRename;
    RenameMoves(s, from, to, memory);
    var s' := RenamePaths(s, from, to, memory).0;
    ResolveParts(s, s.root, from, rest);
    ResolveParts(s', s'.root, to, rest);
    if from != to {
      var n, d, name, init := Resolve(s, s.root, from).value, ResolveParent(s, to).value, to[|to| - 1], to[..|to| - 1];
      assert to == init + [name] && Path.Name(name);
      RenameKeeps(s, from, to, memory);
      CanRenameMeans(s, from, to, memory);
      ResolvedIsNode(s, from);
      ResolvedIsNode(s, init);
      SameEntryIff(s, from, to);
      SelfIsSame(s, n, d, name, memory);
      var e := RenameChecks(s, n, d, name, memory).value;
      RenamedNodes(s, n, d, name, memory, e);
      PathOfLinked(s, from);
      var finit := from[..|from| - 1];
      assert from == finit + [s.nodes[n].name];
      MovedSameBut(s, s', n, d, name, e);
      BelowMoved(s, s', from, init, n, name, rest);
      BesideMoved(s, s', finit, s.nodes[n].name, init, name, ps);
    }
  }

  /** Below the moved node no changed entry is met. */
  lemma {:induction false} BelowMoved(s: Fs, s': Fs, from: seq<string>, init: seq<string>, n: Id, name: string,
                                      rest: seq<string>)
    requires Inv(s) && Resolve(s, s.root, from) == Ok(n) && n in s.nodes && from != [] && !(from <= init)
    requires Resolve(s, s.root, from[..|from| - 1]) == Ok(s.nodes[n].parent) && Resolve(s, s.root, init).Ok?
    requires SameBut(s, s', {(s.nodes[n].parent, s.nodes[n].name), (Resolve(s, s.root, init).value, name)})
    ensures Resolve(s', n, rest) == Resolve(s, n, rest)
    decreases |rest|
  {
    hide Inv, Resolve, Lookup;
    if rest == [] {
      ResolveEmpty(s, n);
      ResolveEmpty(s', n);
    } else {
      var front, last := rest[..|rest| - 1], rest[|rest| - 1];
      assert rest == front + [last];
      BelowMoved(s, s', from, init, n, name, front);
      Vfs.ResolveLast(s, n, front, last);
      Vfs.ResolveLast(s', n, front, last);
      var r := Resolve(s, n, front);
      if r.Ok? {
        ResolveParts(s, s.root, from, front);
        ResolvedIsNode(s, from + front);
        LiveIn(s, r.value);
        if r.value == s.nodes[n].parent {
          Vfs.OnePath(s, from + front, from[..|from| - 1]);
          assert false;
        }
        if r == Resolve(s, s.root, init) {
          Vfs.OnePath(s, from + front, init);
          assert false;
        }
      }
    }
  }

  lemma ResolveEmpty(s: Fs, n: Id)
    ensures Resolve(s, n, []) == Ok(n)
  {
  }

  lemma BesideMoved(s: Fs, s': Fs, finit: seq<string>, was: string, init: seq<string>, name: string, ps: seq<string>)
    requires Inv(s) && Resolve(s, s.root, finit).Ok? && Resolve(s, s.root, init).Ok?
    requires SameBut(s, s', {(Resolve(s, s.root, finit).value, was), (Resolve(s, s.root, init).value, name)})
    ensures !(finit + [was] <= ps) && !(init + [name] <= ps) ==> Resolve(s', s'.root, ps) == Resolve(s, s.root, ps)
  {
    hide Inv, Resolve, SameBut, Uses;
    var C := {(Resolve(s, s.root, finit).value, was), (Resolve(s, s.root, init).value, name)};
    if !(finit + [was] <= ps) && !(init + [name] <= ps) {
      forall k: nat | k < |ps| ensures !Uses(s, ps, k, C) {
        if Uses(s, ps, k, C) { UsesOne(s, finit, was, init, name, ps, k); }
      }
      ResolveSame(s, s', C, ps, |ps|);
      assert ps[..|ps|] == ps;
    }
  }

  lemma CanRenameMeans(s: Fs, from: seq<string>, to: seq<string>, memory: bool)
    requires CanRename(s, from, to, memory)
    ensures var n, d := Resolve(s, s.root, from).value, Resolve(s, s.root, to[..|to| - 1]).value;
      && Resolve(s, s.root, from).Ok? && to != [] && Resolve(s, s.root, to[..|to| - 1]).Ok?
      && n in s.nodes && d in s.nodes && s.nodes[d].kind.Directory? && !Protected(s, n)
      && !(from <= to[..|to| - 1])
  {
    hide Resolve, Protected;
  }

  lemma SelfIsSame(s: Fs, n: Id, d: Id, name: string, memory: bool)
    requires Inv(s) && RenameChecks(s, n, d, name, memory).Ok? && n in s.nodes
    ensures RenameChecks(s, n, d, name, memory) == Ok(n) <==> Lookup(s, d, name) == Ok(n)
  {
    hide Inv, Lookup, AncestorCheck, Protected;
    IdsPositive(s);
    FoundIsNotNull(s, d, name);
  }

  /** What RenamedNodes says of the nodes */
  ghost predicate EntryMoved(s: Fs, s': Fs, n: Id, d: Id, name: string, e: Id) {
    && n in s.nodes && s.nodes[n].parent != NULL && e != n
    && (if e == NULL then forall c :: c in s.nodes && s.nodes[c].parent == d ==> s.nodes[c].name != name
        else e in s.nodes && !s.nodes[e].kind.Directory? && s.nodes[e].parent == d && s.nodes[e].name == name)
    && s'.nodes == (if e == NULL then s.nodes else s.nodes[e := s.nodes[e].(parent := NULL)])
                   [n := s.nodes[n].(parent := d, name := name)]
    && s'.root == s.root && s'.mounts == s.mounts
  }

  lemma EntryMovedMeans(s: Fs, s': Fs, n: Id, d: Id, name: string, e: Id)
    requires Inv(s) && EntryMoved(s, s', n, d, name, e) && d != NULL
    ensures s'.nodes.Keys == s.nodes.Keys && s'.nodes[n] == s.nodes[n].(parent := d, name := name)
    ensures forall m :: m in s.nodes && m != n ==>
      s'.nodes[m] == if s.nodes[m].parent == d && s.nodes[m].name == name then s.nodes[m].(parent := NULL)
                     else s.nodes[m]
  {
    hide Inv;
    if e != NULL {
      OnlyOneNamed(s, e);
    }
  }

  /** The new path leads to the moved node. */
  lemma NewPathLeads(s: Fs, s': Fs, finit: seq<string>, init: seq<string>, n: Id, d: Id, name: string, e: Id)
    requires Inv(s) && Inv(s') && EntryMoved(s, s', n, d, name, e) && d in s.nodes && s.nodes[d].kind.Directory?
    requires Resolve(s, s.root, finit) == Ok(s.nodes[n].parent) && Resolve(s, s.root, init) == Ok(d)
    requires !(finit + [s.nodes[n].name] <= init) && !Protected(s, n)
    ensures Resolve(s', s'.root, init + [name]) == Ok(n)
  {
    hide Inv, Resolve, Lookup, EntryMoved, Down, Protected;
    MovedHasParent(s, s', n, d, name, e);
    DirectoryStays(s, s', finit, init, n, d, name, e);
    Vfs.ResolveLast(s', s'.root, init, name);
    LookupIff(s', d, name, n);
    UnprotectedDown(s, s', n);
  }

  lemma DirectoryStays(s: Fs, s': Fs, finit: seq<string>, init: seq<string>, n: Id, d: Id, name: string, e: Id)
    requires Inv(s) && Inv(s') && EntryMoved(s, s', n, d, name, e) && d in s.nodes && s.nodes[d].kind.Directory?
    requires Resolve(s, s.root, finit) == Ok(s.nodes[n].parent) && Resolve(s, s.root, init) == Ok(d)
    requires !(finit + [s.nodes[n].name] <= init)
    ensures Resolve(s', s'.root, init) == Ok(d)
  {
    hide Inv, Resolve, Lookup, SameBut, EntryMoved, Uses;
    MovedSameBut(s, s', n, d, name, e);
    var C := {(s.nodes[n].parent, s.nodes[n].name), (d, name)};
    NotBeyond(init, name);
    forall k: nat | k < |init| ensures !Uses(s, init, k, C) {
      if Uses(s, init, k, C) { UsesOne(s, finit, s.nodes[n].name, init, name, init, k); }
    }
    ResolveSame(s, s', C, init, |init|);
    assert init[..|init|] == init;
  }

  lemma UnprotectedDown(s: Fs, s': Fs, n: Id)
    requires !Protected(s, n) && s'.mounts == s.mounts
    ensures Down(s', n) == n
  {
  }

  /** The old path leads nowhere. */
  lemma OldPathEnds(s: Fs, s': Fs, from: seq<string>, to: seq<string>, n: Id, d: Id, name: string, e: Id)
    requires Inv(s) && Inv(s') && EntryMoved(s, s', n, d, name, e)
    requires Resolve(s, s.root, from) == Ok(n) && Destination(s, to, d, name)
    requires d in s.nodes && s.nodes[d].kind.Directory? && from != to
    ensures Resolve(s', s'.root, from) == Err(ENOENT)
  {
    hide Inv, Resolve, Lookup, SameBut, EntryMoved, Uses;
    MovedHasParent(s, s', n, d, name, e);
    var p0, was := s.nodes[n].parent, s.nodes[n].name;
    PathOfLinked(s, from);
    var init, finit := to[..|to| - 1], from[..|from| - 1];
    assert to == init + [name] && from == finit + [was];
    var C := {(p0, was), (d, name)};
    MovedSameBut(s, s', n, d, name, e);
    NotThroughFile(s, s', finit, init, name, n, d, e);
    forall k: nat | k < |finit| ensures !Uses(s, finit, k, C) {
      if Uses(s, finit, k, C) { UsesOne(s, finit, was, init, name, finit, k); }
    }
    ResolveSame(s, s', C, finit, |finit|);
    assert finit[..|finit|] == finit;
    Vfs.ResolveLast(s', s'.root, finit, was);
    if p0 == d && was == name {
      Vfs.OnePath(s, init, finit);
      assert false;
    }
    OldNameFree(s, s', n, d, name, e);
    VacantIff(s', p0, was);
  }

  lemma MovedSameBut(s: Fs, s': Fs, n: Id, d: Id, name: string, e: Id)
    requires Inv(s) && Inv(s') && EntryMoved(s, s', n, d, name, e) && d in s.nodes && s.nodes[d].kind.Directory?
    ensures n in s.nodes && SameBut(s, s', {(s.nodes[n].parent, s.nodes[n].name), (d, name)})
  {
    hide Inv, SameBut, EntryMoved, EntriesKept;
    MovedHasParent(s, s', n, d, name, e);
    MovedEntries(s, s', n, d, name, e);
    EntriesDecide(s, s', {(s.nodes[n].parent, s.nodes[n].name), (d, name)});
  }

  lemma MovedHasParent(s: Fs, s': Fs, n: Id, d: Id, name: string, e: Id)
    requires Inv(s) && EntryMoved(s, s', n, d, name, e) && d in s.nodes && s.nodes[d].kind.Directory?
    ensures n in s.nodes && s.nodes[n].parent != NULL && s.nodes[n].parent in s.nodes
    ensures s.nodes[s.nodes[n].parent].kind.Directory?
    ensures s'.nodes.Keys == s.nodes.Keys && s'.root == s.root && s'.mounts == s.mounts
    ensures forall m :: m in s.nodes ==> s'.nodes[m].kind == s.nodes[m].kind
    ensures s'.nodes[n].parent == d && s'.nodes[n].name == name
  {
    hide Inv;
    ParentIsNode(s, n);
  }

  lemma MovedEntries(s: Fs, s': Fs, n: Id, d: Id, name: string, e: Id)
    requires Inv(s) && EntryMoved(s, s', n, d, name, e)
    ensures var C := {(s.nodes[n].parent, s.nodes[n].name), (d, name)};
      EntriesKept(s.nodes, s'.nodes, C) && EntriesKept(s'.nodes, s.nodes, C)
  {
    hide Inv;
  }

  /** Of the two changed entries a path uses one, and so goes through it. */
  lemma UsesOne(s: Fs, finit: seq<string>, was: string, init: seq<string>, name: string, ps: seq<string>, k: nat)
    requires Inv(s) && Resolve(s, s.root, finit).Ok? && Resolve(s, s.root, init).Ok?
    requires Uses(s, ps, k, {(Resolve(s, s.root, finit).value, was), (Resolve(s, s.root, init).value, name)})
    ensures finit + [was] <= ps || init + [name] <= ps
  {
    hide Inv, Resolve;
    if Uses(s, ps, k, {(Resolve(s, s.root, finit).value, was)}) {
      EntryOfPath(s, finit, was, ps, k);
    } else {
      EntryOfPath(s, init, name, ps, k);
    }
  }

  /** The parent of the moved node does not lie beyond the replaced entry, which is absent or a file. */
  lemma NotThroughFile(s: Fs, s': Fs, finit: seq<string>, init: seq<string>, name: string, n: Id, d: Id, e: Id)
    requires Inv(s) && EntryMoved(s, s', n, d, name, e) && d in s.nodes && s.nodes[d].kind.Directory?
    requires Resolve(s, s.root, init) == Ok(d) && Resolve(s, s.root, finit) == Ok(s.nodes[n].parent)
    ensures !(init + [name] <= finit)
  {
    hide Inv, Resolve, Lookup;
    if init + [name] <= finit {
      var rest := finit[|init| + 1..];
      assert finit == init + [name] + rest;
      ResolveParts(s, s.root, init + [name], rest);
      Vfs.ResolveLast(s, s.root, init, name);
      ParentIsNode(s, n);
      if e == NULL {
        VacantIff(s, d, name);
      } else {
        LookupIff(s, d, name, e);
        FilesAreUnprotected(s, e);
        assert Down(s, e) == e;
        OnlyItself(s, e, rest);
      }
    }
  }

  lemma OnlyItself(s: Fs, e: Id, rest: seq<string>)
    requires Inv(s) && e in s.nodes && !s.nodes[e].kind.Directory?
    ensures Resolve(s, e, rest).Ok? ==> Resolve(s, e, rest) == Ok(e)
  {
    hide Inv, Lookup;
    if rest != [] {
      LookupInFile(s, e, rest[0]);
    }
  }

  lemma OldNameFree(s: Fs, s': Fs, n: Id, d: Id, name: string, e: Id)
    requires Inv(s) && EntryMoved(s, s', n, d, name, e)
    ensures var p0, was := s.nodes[n].parent, s.nodes[n].name;
      !(p0 == d && was == name) ==> forall c :: c in s'.nodes && s'.nodes[c].parent == p0 ==> s'.nodes[c].name != was
  {
    hide Inv;
    OnlyOneNamed(s, n);
  }

  // ----- Mounting -------------------------------------------------------------------------------

  /** A new file system that can be mounted: a root directory of its own, not mounted yet */
  ghost predicate Mountable(s: Fs, root: Id) {
    && root in s.nodes && s.nodes[root].kind.Directory? && s.nodes[root].parent == NULL && s.nodes[root].mount == root
    && root != s.root && forall m :: m in s.mounts ==> m.root != root
  }

  /** The place of a mount: a directory that is neither the root of a file system nor mounted on */
  ghost predicate MountPlace(s: Fs, cs: seq<string>) {
    && cs != [] && Resolve(s, s.root, cs).Ok?
    && var n := Resolve(s, s.root, cs).value;
    && n in s.nodes && s.nodes[n].kind.Directory? && forall m :: m in s.mounts ==> m.point != n && m.root != n
  }

  lemma InMounts(s: Fs, n: Id)
    ensures MountOf(s.mounts, n) == |s.mounts| <==> forall m :: m in s.mounts ==> m.root != n
    ensures MountAt(s.mounts, n) == |s.mounts| <==> forall m :: m in s.mounts ==> m.point != n
  {
    var i, j := MountOf(s.mounts, n), MountAt(s.mounts, n);
    assert i < |s.mounts| ==> s.mounts[i] in s.mounts;
    assert j < |s.mounts| ==> s.mounts[j] in s.mounts;
  }

  /**
   A mount succeeds exactly with fewer than four others, a root to mount and a
   place for it. After it the path of the place leads to the mounted root.
   */
  lemma MountShows(s: Fs, cs: seq<string>, root: Id)
    requires Inv(s)
    ensures var (s', u) := MountPath(s, cs, root);
      && (u.Ok? <==> |s.mounts| < 4 && Mountable(s, root) && MountPlace(s, cs))
      && (u.Ok? ==> && s' == s.(mounts := s.mounts + [Mount(Resolve(s, s.root, cs).value, root)])
                    && Resolve(s', s'.root, cs) == Ok(root))
      && (u.Err? ==> s' == s)
  {
    hide Inv, Resolve, MountAt, MountOf, Down;
    var (s', u) := MountPath(s, cs, root);
    InMounts(s, root);
    Vfs.ResolveNothing(s);
    if Resolve(s, s.root, cs).Ok? {
      var n := Resolve(s, s.root, cs).value;
      InMounts(s, n);
      if n == s.root { Vfs.OnePath(s, cs, []); }
      if u.Ok? { MountedPlace(s, s', cs, root); }
    }
  }

  lemma MountedPlace(s: Fs, s': Fs, cs: seq<string>, root: Id)
    requires Inv(s) && MountPlace(s, cs)
    requires s' == s.(mounts := s.mounts + [Mount(Resolve(s, s.root, cs).value, root)])
    ensures Resolve(s', s'.root, cs) == Ok(root)
  {
    hide Inv, Resolve, Lookup, Down, Up;
    var n := Resolve(s, s.root, cs).value;
    var init, last := cs[..|cs| - 1], cs[|cs| - 1];
    assert cs == init + [last];
    var d, c := Vfs.LastLookup(s, cs);
    BesideMount(s, s', cs, root, init);
    Vfs.ResolveLast(s', s'.root, init, last);
    SameLookup(s, s', d, last);
    UnmountedUp(s, n);
    NewestMount(s, s', n, root);
  }

  lemma SameLookup(s: Fs, s': Fs, d: Id, x: string)
    requires s'.nodes == s.nodes && s'.kids == s.kids
    ensures Lookup(s', d, x) == Lookup(s, d, x)
  {
  }

  lemma UnmountedUp(s: Fs, n: Id)
    requires forall m :: m in s.mounts ==> m.root != n
    ensures Up(s, n) == n
  {
    InMounts(s, n);
  }

  lemma NewestMount(s: Fs, s': Fs, n: Id, root: Id)
    requires (forall m :: m in s.mounts ==> m.point != n) && s'.mounts == s.mounts + [Mount(n, root)]
    ensures Down(s', n) == root
  {
    var i := MountAt(s'.mounts, n);
    assert s'.mounts[|s.mounts|].point == n;
    assert forall k :: 0 <= k < |s.mounts| ==> s'.mounts[k] == s.mounts[k] && s.mounts[k] in s.mounts;
  }

  lemma OtherPoints(s: Fs, s': Fs, c: Id, n: Id, root: Id)
    requires s'.mounts == s.mounts + [Mount(n, root)] && c != n
    ensures Down(s', c) == Down(s, c)
  {
    var i, j := MountAt(s.mounts, c), MountAt(s'.mounts, c);
    assert forall k :: 0 <= k < |s.mounts| ==> s'.mounts[k] == s.mounts[k];
    if i < |s.mounts| {
      assert j == i;
    }
  }

  /** Every path that does not go through the place of the mount leads where it led. */
  lemma {:induction false} BesideMount(s: Fs, s': Fs, cs: seq<string>, root: Id, ps: seq<string>)
    requires Inv(s) && MountPlace(s, cs) && !(cs <= ps)
    requires s' == s.(mounts := s.mounts + [Mount(Resolve(s, s.root, cs).value, root)])
    ensures Resolve(s', s'.root, ps) == Resolve(s, s.root, ps)
    decreases |ps|
  {
    hide Inv, Resolve, Lookup, Down, Up;
    var n := Resolve(s, s.root, cs).value;
    if ps == [] {
      Vfs.ResolveNothing(s);
      Vfs.ResolveNothing(s');
    } else {
      var init, last := ps[..|ps| - 1], ps[|ps| - 1];
      assert ps == init + [last];
      BesideMount(s, s', cs, root, init);
      Vfs.ResolveLast(s, s.root, init, last);
      Vfs.ResolveLast(s', s'.root, init, last);
      var r := Resolve(s, s.root, init);
      if r.Ok? {
        SameLookup(s, s', r.value, last);
        var c := Lookup(s, r.value, last);
        if c.Ok? {
          if c.value == n {
            UnmountedDownAt(s, n);
            Vfs.OnePath(s, ps, cs);
            assert false;
          }
          OtherPoints(s, s', c.value, n, root);
        }
      }
    }
  }

  lemma UnmountedDownAt(s: Fs, n: Id)
    requires forall m :: m in s.mounts ==> m.point != n
    ensures Down(s, n) == n
  {
    InMounts(s, n);
  }

  /** What lies below a mount is what lies below the mounted root. */
  lemma BelowMount(s: Fs, cs: seq<string>, root: Id, rest: seq<string>)
    requires Inv(s) && MountPath(s, cs, root).1.Ok?
    ensures var s' := MountPath(s, cs, root).0;
      Resolve(s', s'.root, cs + rest) == Resolve(s', root, rest)
  {
    hide Inv, Resolve;
    MountShows(s, cs, root);
    ResolveParts(MountPath(s, cs, root).0, s.root, cs, rest);
  }

  /** The five directories of a new file system, beside everything that was there. */
  ghost predicate Furnished(s: Fs, s': Fs, r: Id) {
    && s'.kids.Keys == s.kids.Keys + {r, r + 1, r + 2, r + 3, r + 4}
    && s'.nodes == s.nodes[r := Node(Directory, "", NULL, r)][r + 1 := Node(Directory, "bin", r, r)]
                   [r + 2 := Node(Directory, "tmp", r, r)][r + 3 := Node(Directory, "home", r, r)]
                   [r + 4 := Node(Directory, "user", r + 3, r)]
    && s'.kids[r] == [r + 3, r + 2, r + 1] && s'.kids[r + 3] == [r + 4]
    && s'.kids[r + 1] == s'.kids[r + 2] == s'.kids[r + 4] == []
    && (forall n :: n in s.kids ==> s'.kids[n] == s.kids[n])
    && s'.mounts == s.mounts && s'.root == s.root
  }

  lemma NewRootFurnished(s: Fs)
    requires forall n :: n in s.nodes || n in s.kids ==> n < s.nextId
    ensures Furnished(s, NewRoot(s), s.nextId)
  {
    hide NewRoot;
    NewRootMaps(s);
    var r := s.nextId;
    assert NewRoot(s).kids.Keys == s.kids.Keys + {r, r + 1, r + 2, r + 3, r + 4};
  }

  lemma NewRootMaps(s: Fs)
    ensures var s', r := NewRoot(s), s.nextId;
      && s'.nodes == s.nodes[r := Node(Directory, "", NULL, r)][r + 1 := Node(Directory, "bin", r, r)]
                     [r + 2 := Node(Directory, "tmp", r, r)][r + 3 := Node(Directory, "home", r, r)]
                     [r + 4 := Node(Directory, "user", r + 3, r)]
      && s'.kids == s.kids[r + 1 := []][r + 2 := []][r := [r + 3, r + 2, r + 1]][r + 4 := []][r + 3 := [r + 4]]
      && s'.mounts == s.mounts && s'.root == s.root
  {
    hide Added;
    var r := s.nextId;
    var s0 := BareRoot(s);
    AddedIs(s0, r, "bin", []);
    var s1 := Added(s0, r, "bin");
    AddedIs(s1, r, "tmp", [r + 1]);
    var s2 := Added(s1, r, "tmp");
    AddedIs(s2, r, "home", [r + 2, r + 1]);
    var s3 := Added(s2, r, "home");
    AddedIs(s3, r + 3, "user", []);
    assert s2.kids == s.kids[r + 1 := []][r + 2 := []][r := [r + 2, r + 1]];
    assert [r + 3] + [r + 2, r + 1] == [r + 3, r + 2, r + 1] && [r + 4] + [] == [r + 4];
    assert s3.kids == s.kids[r + 1 := []][r + 2 := []][r := [r + 3, r + 2, r + 1]][r + 3 := []];
  }

  lemma AddedIs(s: Fs, d: Id, name: string, l: seq<Id>)
    requires d in s.nodes && d in s.kids && s.kids[d] == l && d != s.nextId
    ensures var n := s.nextId;
      Added(s, d, name) ==
      s.(nodes := s.nodes[n := Node(Directory, name, d, s.nodes[d].mount)], kids := s.kids[n := []][d := [n] + l],
         nextId := n + 1)
  {
  }

  /** A new file system holds /bin, /tmp, /home and /home/user, all empty but /home, and is ready to be mounted. */
  lemma NewRootHolds(s: Fs)
    requires Inv(s)
    ensures var s', r := NewRoot(s), s.nextId;
      && Mountable(s', r) && Furnished(s, s', r)
      && Resolve(s', r, ["bin"]) == Ok(r + 1) && Resolve(s', r, ["tmp"]) == Ok(r + 2)
      && Resolve(s', r, ["home"]) == Ok(r + 3) && Resolve(s', r, ["home", "user"]) == Ok(r + 4)
  {
    hide Inv, Resolve, Lookup, NewRoot, Down;
    IdsPositive(s);
    FreshIds(s);
    NewRootKeeps(s);
    NewRootFurnished(s);
    NotMountedYet(s);
    var s', r := NewRoot(s), s.nextId;
    forall c | c >= r ensures Down(s', c) == c { UnmountedDownAt(s', c); }
    StepByName(s', r, "bin", r + 1);
    StepByName(s', r, "tmp", r + 2);
    StepByName(s', r, "home", r + 3);
    StepByName(s', r + 3, "user", r + 4);
    assert ["home"] + ["user"] == ["home", "user"];
    ResolveParts(s', r, ["home"], ["user"]);
  }

  lemma FreshIds(s: Fs)
    requires Inv(s)
    ensures forall n :: n in s.nodes ==> n < s.nextId
  {
  }

  lemma NotMountedYet(s: Fs)
    requires Inv(s)
    ensures s.root != s.nextId && forall m :: m in s.mounts ==> m.root != s.nextId && m.point < s.nextId
  {
    hide Acyclic, Names, Links, Detached;
    forall i | 0 <= i < |s.mounts| ensures s.mounts[i].root != s.nextId && s.mounts[i].point < s.nextId {
      assert MountOk(s.nodes, s.root, s.mounts[i]);
    }
  }

  lemma StepByName(s: Fs, d: Id, name: string, c: Id)
    requires Inv(s) && d in s.nodes && s.nodes[d].kind.Directory?
    requires c in s.nodes && s.nodes[c].parent == d && s.nodes[c].name == name && Down(s, c) == c
    ensures Resolve(s, d, [name]) == Ok(c)
  {
    hide Inv, Lookup, Down;
    LookupIff(s, d, name, c);
    assert [name][1..] == [];
    assert Resolve(s, c, []) == Ok(c);
  }
}
