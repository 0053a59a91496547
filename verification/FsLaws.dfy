/**
 What the file-system calls leave behind, said through paths: what the path of
 the call leads to afterwards, exactly when the call succeeds, and that every
 other path leads where it led before.
 */
module FsLaws {
  import opened Common
  import Path
  import opened FsTree
  import opened FsInvariant
  import Vfs

  // ----- Resolution ---------------------------------------------------------------------

  /** A path is followed part by part. */
  lemma {:induction false} ResolveParts(s: Fs, n: Id, a: seq<string>, b: seq<string>)
    ensures Resolve(s, n, a + b) ==
            var r := Resolve(s, n, a); if r.Ok? then Resolve(s, r.value, b) else r
    decreases |a|
  {
    hide Lookup, Down;
    if a == [] {
      assert a + b == b;
    } else {
      assert (a + b)[1..] == a[1..] + b;
      var r := Lookup(s, n, a[0]);
      if r.Ok? {
        ResolveParts(s, Down(s, r.value), a[1..], b);
      }
    }
  }

  /** A name is found exactly when a node of that name has the directory as its parent. */
  lemma LookupIff(s: Fs, d: Id, name: string, c: Id)
    requires Inv(s) && d in s.nodes && s.nodes[d].kind.Directory?
    ensures Lookup(s, d, name) == Ok(c) <==> c in s.nodes && s.nodes[c].parent == d && s.nodes[c].name == name
    ensures Lookup(s, d, name).Err? ==> Lookup(s, d, name) == Err(ENOENT)
  {
    hide Acyclic, Mounts, Detached, FindChild;
    if c in s.nodes && s.nodes[c].parent == d && s.nodes[c].name == name {
      FindChildSelf(s.nodes, s.kids[d], c);
    }
    FoundInList(s.nodes, s.kids[d], name);
  }

  /** One step of a path: to a child, or through a mount on it to the root of what is mounted there. */
  ghost predicate StepsTo(s: Fs, d: Id, name: string, m: Id) {
    && d in s.nodes && s.nodes[d].kind.Directory?
    && exists c :: c in s.nodes && s.nodes[c].parent == d && s.nodes[c].name == name && Crosses(s.mounts, c, m)
  }

  ghost predicate Crosses(mounts: seq<Mount>, c: Id, m: Id) {
    Mount(c, m) in mounts || (c == m && forall k :: 0 <= k < |mounts| ==> mounts[k].point != c)
  }

  ghost predicate Trail(s: Fs, cs: seq<string>, ids: seq<Id>) {
    && |ids| == |cs| + 1
    && forall i :: 0 <= i < |cs| ==> StepsTo(s, ids[i], cs[i], ids[i + 1])
  }

  lemma CrossesIff(s: Fs, c: Id, m: Id)
    requires Inv(s)
    ensures Crosses(s.mounts, c, m) <==> m == Down(s, c)
  {
    hide Acyclic, Names, Links, Detached, MountOk;
    var i := MountAt(s.mounts, c);
    if i < |s.mounts| {
      assert s.mounts[i] == Mount(c, s.mounts[i].root);
    }
  }

  lemma StepIff(s: Fs, d: Id, name: string, m: Id)
    requires Inv(s)
    ensures StepsTo(s, d, name, m) <==> Lookup(s, d, name).Ok? && Down(s, Lookup(s, d, name).value) == m
  {
    hide Inv, Lookup, Down, Crosses;
    if StepsTo(s, d, name, m) {
      var c :| c in s.nodes && s.nodes[c].parent == d && s.nodes[c].name == name && Crosses(s.mounts, c, m);
      LookupIff(s, d, name, c);
      CrossesIff(s, c, m);
    }
    if Lookup(s, d, name).Ok? && Down(s, Lookup(s, d, name).value) == m {
      var c := Lookup(s, d, name).value;
      FoundIsChild(s, d, name);
      FoundInDirectory(s, d, name);
      CrossesIff(s, c, m);
      assert StepsTo(s, d, name, m);
    }
  }

  lemma FoundInDirectory(s: Fs, d: Id, name: string)
    requires Lookup(s, d, name).Ok?
    ensures d in s.nodes && s.nodes[d].kind.Directory?
  {
  }

  /** Resolution finds n exactly when the names lead to it, child by child and across the mounts. */
  lemma {:induction false} ResolvesIff(s: Fs, d: Id, cs: seq<string>, n: Id)
    requires Inv(s)
    ensures Resolve(s, d, cs) == Ok(n) <==> exists ids :: Trail(s, cs, ids) && ids[0] == d && ids[|cs|] == n
    decreases |cs|
  {
    hide Inv, Lookup, Down, StepsTo;
    if cs == [] {
      if d == n {
        assert Trail(s, cs, [n]);
      }
    } else {
      var r := Lookup(s, d, cs[0]);
      if r.Ok? {
        var m := Down(s, r.value);
        ResolvesIff(s, m, cs[1..], n);
        StepIff(s, d, cs[0], m);
        if Resolve(s, d, cs) == Ok(n) {
          var rest :| Trail(s, cs[1..], rest) && rest[0] == m && rest[|cs| - 1] == n;
          var ids := [d] + rest;
          assert Trail(s, cs, ids) && ids[0] == d && ids[|cs|] == n;
        }
      }
      if ids :| Trail(s, cs, ids) && ids[0] == d && ids[|cs|] == n {
        StepIff(s, d, cs[0], ids[1]);
        var rest := ids[1..];
        assert Trail(s, cs[1..], rest) && rest[0] == ids[1] && rest[|cs[1..]|] == n;
      }
    }
  }

  // ----- What a change of entries changes --------------------------------------------------

  /** Except for the entries in C, every lookup of s' is that of s. */
  ghost predicate SameBut(s: Fs, s': Fs, C: set<(Id, string)>) {
    && s'.mounts == s.mounts && s'.root == s.root
    && forall d, x :: d in s.nodes && (d, x) !in C ==> Lookup(s', d, x) == Lookup(s, d, x)
  }

  /** The entry is on the way of ps. */
  ghost predicate Uses(s: Fs, ps: seq<string>, k: nat, C: set<(Id, string)>) {
    k < |ps| && var r := Resolve(s, s.root, ps[..k]); r.Ok? && (r.value, ps[k]) in C
  }

  /** A path that uses none of the changed entries leads where it led. */
  lemma {:induction false} ResolveSame(s: Fs, s': Fs, C: set<(Id, string)>, ps: seq<string>, k: nat)
    requires Inv(s) && SameBut(s, s', C) && k <= |ps|
    requires forall i :: 0 <= i < k ==> !Uses(s, ps, i, C)
    ensures Resolve(s', s'.root, ps[..k]) == Resolve(s, s.root, ps[..k])
  {
    hide Inv, Lookup, Resolve;
    if k == 0 {
      Vfs.ResolveNothing(s);
      Vfs.ResolveNothing(s');
      assert ps[..0] == [];
    } else {
      ResolveSame(s, s', C, ps, k - 1);
      assert ps[..k] == ps[..k - 1] + [ps[k - 1]];
      Vfs.ResolveLast(s, s.root, ps[..k - 1], ps[k - 1]);
      Vfs.ResolveLast(s', s'.root, ps[..k - 1], ps[k - 1]);
      var r := Resolve(s, s.root, ps[..k - 1]);
      if r.Ok? {
        ResolvedIsNode(s, ps[..k - 1]);
        assert !Uses(s, ps, k - 1, C);
      }
    }
  }

  lemma ResolvedIsNode(s: Fs, cs: seq<string>)
    requires Inv(s) && Resolve(s, s.root, cs).Ok?
    ensures Live(s, Resolve(s, s.root, cs).value)
  {
    hide Inv, Resolve;
    RootLive(s);
    ResolveLive(s, s.root, cs);
  }

  /** An entry reached along `to` is on the way of the paths that go through it, and of no others. */
  lemma EntryOfPath(s: Fs, to: seq<string>, name: string, ps: seq<string>, k: nat)
    requires Inv(s) && Resolve(s, s.root, to).Ok?
    requires Uses(s, ps, k, {(Resolve(s, s.root, to).value, name)})
    ensures to + [name] <= ps && k == |to|
  {
    hide Inv, Resolve;
    Vfs.OnePath(s, to, ps[..k]);
    assert ps[..k + 1] == to + [name];
  }

  /** The paths that do not go through the entry `name` of the directory at `to` lead where they led. */
  lemma OthersSame(s: Fs, s': Fs, to: seq<string>, name: string, ps: seq<string>)
    requires Inv(s) && Resolve(s, s.root, to).Ok?
    requires SameBut(s, s', {(Resolve(s, s.root, to).value, name)})
    requires !(to + [name] <= ps)
    ensures Resolve(s', s'.root, ps) == Resolve(s, s.root, ps)
  {
    hide Inv, Resolve, SameBut, Uses;
    var C := {(Resolve(s, s.root, to).value, name)};
    forall k: nat | k < |ps| ensures !Uses(s, ps, k, C) {
      if Uses(s, ps, k, C) {
        EntryOfPath(s, to, name, ps, k);
      }
    }
    ResolveSame(s, s', C, ps, |ps|);
    assert ps[..|ps|] == ps;
  }

  lemma NotBeyond(to: seq<string>, name: string)
    ensures !(to + [name] <= to)
  {
  }

  // ----- Creation --------------------------------------------------------------------------

  lemma {:induction false} FindWithNode(nodes: map<Id, Node>, l: seq<Id>, n: Id, node: Node, name: string)
    requires n !in l
    ensures FindChild(nodes[n := node], l, name) == FindChild(nodes, l, name)
  {
    if l != [] {
      FindWithNode(nodes, l[1..], n, node, name);
    }
  }

  lemma NewIsUnlisted(s: Fs, d: Id)
    requires Inv(s) && d in s.nodes
    ensures d in s.kids && s.nextId !in s.kids[d] && s.nextId !in s.nodes && s.nextId != NULL
  {
    hide Acyclic, Names, Mounts, Detached;
    IdsPositive(s);
  }

  lemma InsertIsSameBut(s: Fs, d: Id, name: string, kind: Kind)
    requires Inv(s) && d in s.nodes
    ensures d in s.kids && SameBut(s, Insert(s, d, name, kind), {(d, name)})
  {
    hide Inv, FindChild;
    NewIsUnlisted(s, d);
    var n, s' := s.nextId, Insert(s, d, name, kind);
    forall e, x | e in s.nodes && (e, x) !in {(d, name)} ensures Lookup(s', e, x) == Lookup(s, e, x) {
      NewIsUnlisted(s, e);
      FindWithNode(s.nodes, s.kids[e], n, s'.nodes[n], x);
      if e == d {
        FindBehind(s'.nodes, n, s.kids[e], x);
      }
    }
  }

  lemma FindBehind(nodes: map<Id, Node>, n: Id, l: seq<Id>, x: string)
    requires n in nodes && n != NULL
    ensures FindChild(nodes, [n] + l, x) == if nodes[n].name == x then n else FindChild(nodes, l, x)
  {
    assert ([n] + l)[1..] == l;
  }

  lemma UnmountedDown(s: Fs, n: Id)
    requires Inv(s) && n !in s.nodes
    ensures Down(s, n) == n
  {
    hide Acyclic, Names, Links, Detached;
    forall i | 0 <= i < |s.mounts| ensures s.mounts[i].point != n {
      assert MountOk(s.nodes, s.root, s.mounts[i]);
    }
  }

  /** The directory a creation goes into exists and has no entry of that name. */
  ghost predicate Vacant(s: Fs, cs: seq<string>) {
    && cs != []
    && var r := Resolve(s, s.root, cs[..|cs| - 1]);
    && r.Ok? && r.value in s.nodes && s.nodes[r.value].kind.Directory?
    && forall c :: c in s.nodes && s.nodes[c].parent == r.value ==> s.nodes[c].name != cs[|cs| - 1]
  }

  /** A creation succeeds exactly when its place is vacant and memory is granted; an occupied path is EEXIST. */
  lemma CreateSucceedsIff(s: Fs, cs: seq<string>, kind: Kind, memory: bool)
    requires Inv(s) && Path.Canonical(cs)
    ensures CreatePath(s, cs, kind, memory).1.Ok? <==> Vacant(s, cs) && memory
    ensures Resolve(s, s.root, cs).Ok? ==> CreatePath(s, cs, kind, memory).1 == Err(EEXIST)
    ensures Vacant(s, cs) && !memory ==> CreatePath(s, cs, kind, memory).1 == Err(ENOMEM)
  {
    hide Inv, FindChild, Resolve;
    Vfs.ResolveNothing(s);
    if cs != [] {
      var init, last := cs[..|cs| - 1], cs[|cs| - 1];
      assert cs == init + [last];
      assert Path.Name(last);
      Vfs.ResolveLast(s, s.root, init, last);
      var r := Resolve(s, s.root, init);
      if r.Ok? {
        ResolvedIsNode(s, init);
        NewIsUnlisted(s, r.value);
        if s.nodes[r.value].kind.Directory? {
          VacantIff(s, r.value, last);
        }
      }
    }
  }

  lemma VacantIff(s: Fs, d: Id, name: string)
    requires Inv(s) && d in s.nodes && s.nodes[d].kind.Directory?
    ensures Lookup(s, d, name) == Err(ENOENT) <==>
            forall c :: c in s.nodes && s.nodes[c].parent == d ==> s.nodes[c].name != name
  {
    hide Inv, Lookup;
    if Lookup(s, d, name).Ok? {
      var c := Lookup(s, d, name).value;
      LookupIff(s, d, name, c);
      assert s.nodes[c].name == name;
    }
    forall c | c in s.nodes && s.nodes[c].parent == d && s.nodes[c].name == name ensures Lookup(s, d, name).Ok? {
      LookupIff(s, d, name, c);
    }
    LookupIff(s, d, name, d);
  }

  /**
   After a creation its path leads to the new node: of the kind asked for, named
   by the last component, without children and first in its directory's list.
   Nothing else changed.
   */
  lemma CreateMakes(s: Fs, cs: seq<string>, kind: Kind, memory: bool)
    requires Inv(s) && Path.Canonical(cs) && CreatePath(s, cs, kind, memory).1.Ok?
    ensures var (s', r) := CreatePath(s, cs, kind, memory);
      var n := r.value;
      && cs != [] && Resolve(s, s.root, cs[..|cs| - 1]).Ok?
      && var d := Resolve(s, s.root, cs[..|cs| - 1]).value;
      && n !in s.nodes && Resolve(s', s'.root, cs) == Ok(n) && d in s.nodes && d in s.kids
      && s'.nodes == s.nodes[n := Node(kind, cs[|cs| - 1], d, s.nodes[d].mount)]
      && s'.kids == s.kids[n := []][d := [n] + s.kids[d]]
      && s'.root == s.root && s'.mounts == s.mounts
  {
    hide Inv, FindChild, Resolve, SameBut;
    CreateSucceedsIff(s, cs, kind, memory);
    var init, last := cs[..|cs| - 1], cs[|cs| - 1];
    assert cs == init + [last];
    var d := Resolve(s, s.root, init).value;
    var s', n := CreatePath(s, cs, kind, memory).0, s.nextId;
    NewIsUnlisted(s, d);
    InsertIsSameBut(s, d, last, kind);
    NotBeyond(init, last);
    OthersSame(s, s', init, last, init);
    Vfs.ResolveLast(s', s'.root, init, last);
    FindBehind(s'.nodes, n, s.kids[d], last);
    UnmountedDown(s, n);
    assert Down(s', n) == n;
  }

  /** Every path that does not go through the new node leads where it led. */
  lemma CreateElsewhere(s: Fs, cs: seq<string>, kind: Kind, memory: bool, ps: seq<string>)
    requires Inv(s) && Path.Canonical(cs) && CreatePath(s, cs, kind, memory).1.Ok? && !(cs <= ps)
    ensures var s' := CreatePath(s, cs, kind, memory).0; Resolve(s', s'.root, ps) == Resolve(s, s.root, ps)
  {
    hide Inv, FindChild, Resolve, SameBut;
    CreateSucceedsIff(s, cs, kind, memory);
    var init, last := cs[..|cs| - 1], cs[|cs| - 1];
    assert cs == init + [last];
    var d := Resolve(s, s.root, init).value;
    InsertIsSameBut(s, d, last, kind);
    OthersSame(s, CreatePath(s, cs, kind, memory).0, init, last, ps);
  }

  /** A directory just made takes a first entry. */
  lemma CreateBelowMkdir(s: Fs, cs: seq<string>, name: string, kind: Kind)
    requires Inv(s) && Path.Canonical(cs) && Path.Name(name) && CreatePath(s, cs, Directory, true).1.Ok?
    ensures CreatePath(CreatePath(s, cs, Directory, true).0, cs + [name], kind, true).1.Ok?
  {
    hide Inv, Resolve, CreatePath;
    var s', n := CreatePath(s, cs, Directory, true).0, CreatePath(s, cs, Directory, true).1.value;
    CreateMakes(s, cs, Directory, true);
    CreateKeeps(s, cs, Directory, true);
    CreateSucceedsIff(s', cs + [name], kind, true);
    assert (cs + [name])[..|cs|] == cs;
    forall c | c in s'.nodes && s'.nodes[c].parent == n ensures false {
      NoChildren(s', n, c);
    }
    assert Vacant(s', cs + [name]);
  }

  lemma NoChildren(s: Fs, n: Id, c: Id)
    requires Inv(s) && n in s.kids && s.kids[n] == [] && c in s.nodes && n in s.nodes
    ensures s.nodes[c].parent != n
  {
    hide Acyclic, Names, Mounts, Detached;
    if s.nodes[c].parent == n {
      LinkedInList(s.nodes, s.kids, c);
    }
  }
}
