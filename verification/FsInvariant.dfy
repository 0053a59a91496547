/** Every file-system operation keeps the tree a tree. */
module FsInvariant {
  import opened Common
  import Path
  import opened FsTree

  // ----- Lists ------------------------------------------------------------------

  lemma {:induction false} WithoutContents(l: seq<Id>, n: Id)
    requires Distinct(l)
    ensures Distinct(Without(l, n)) && forall x :: x in Without(l, n) <==> x in l && x != n
  {
    if l != [] {
      assert l == [l[0]] + l[1..];
      TailDistinct(l);
      WithoutContents(l[1..], n);
      if l[0] != n {
        DistinctPush(Without(l[1..], n), l[0]);
      }
    }
  }

  lemma TailDistinct(l: seq<Id>)
    requires Distinct(l) && l != []
    ensures Distinct(l[1..]) && l[0] !in l[1..]
  {
    forall i | 0 <= i < |l[1..]| ensures l[1..][i] != l[0] {
      assert l[1..][i] == l[i + 1];
    }
  }

  lemma {:induction false} WithoutIndex(l: seq<Id>, n: Id, i: nat)
    requires i < |l| && l[i] == n && n !in l[..i]
    ensures Without(l, n) == l[..i] + l[i + 1..]
  {
    if i > 0 {
      assert l[0] in l[..i];
      assert l[..i] == [l[0]] + l[1..][..i - 1];
      WithoutIndex(l[1..], n, i - 1);
    }
  }

  lemma {:induction false} AfterIndex(l: seq<Id>, i: nat)
    requires Distinct(l) && i < |l|
    ensures After(l, l[i]) == ItemAt(l, i + 1)
  {
    if i > 0 {
      AfterIndex(l[1..], i - 1);
    }
  }

  lemma DistinctPush(l: seq<Id>, n: Id)
    requires Distinct(l) && n !in l
    ensures Distinct([n] + l)
  {
  }

  lemma {:induction false} FindChildNone(nodes: map<Id, Node>, l: seq<Id>, name: string)
    requires FindChild(nodes, l, name) == NULL && NULL !in nodes
    ensures forall c :: c in l && c in nodes ==> nodes[c].name != name
  {
    if l != [] {
      assert l == [l[0]] + l[1..];
      FindChildNone(nodes, l[1..], name);
    }
  }

  /** A list with unique names finds each of its children by name. */
  lemma {:induction false} FindChildSelf(nodes: map<Id, Node>, l: seq<Id>, c: Id)
    requires c in l && c in nodes && NULL !in nodes
    requires forall b :: b in l ==> b in nodes && (nodes[b].name == nodes[c].name ==> b == c)
    ensures FindChild(nodes, l, nodes[c].name) == c
  {
    if l[0] != c {
      assert l == [l[0]] + l[1..];
      assert l[0] in l;
      FindChildSelf(nodes, l[1..], c);
    }
  }

  // ----- Climbing ---------------------------------------------------------------

  /** New parents only: a climb that meets no changed node is still a climb. */
  lemma ClimbKept(nodes: map<Id, Node>, nodes': map<Id, Node>, p: seq<Id>)
    requires Climb(nodes, p)
    requires forall i :: 0 <= i < |p| ==> p[i] in nodes' && nodes'[p[i]].parent == nodes[p[i]].parent
    ensures Climb(nodes', p)
  {
  }

  lemma ClimbSuffix(nodes: map<Id, Node>, p: seq<Id>, k: nat)
    requires Climb(nodes, p) && k < |p|
    ensures Climb(nodes, p[k..])
  {
  }

  /** A climb, continued by the climb of its last node's new parent */
  lemma ClimbJoin(nodes: map<Id, Node>, p: seq<Id>, q: seq<Id>)
    requires p != [] && Climb(nodes, q)
    requires forall i :: 0 <= i < |p| ==> p[i] in nodes
    requires forall i :: 0 <= i < |p| - 1 ==> nodes[p[i]].parent == p[i + 1]
    requires nodes[p[|p| - 1]].parent == q[0]
    ensures Climb(nodes, p + q)
  {
  }

  lemma {:induction false} FirstIndex(p: seq<Id>, n: Id) returns (k: nat)
    requires n in p
    ensures k < |p| && p[k] == n && n !in p[..k]
  {
    if p[0] == n {
      k := 0;
    } else {
      assert p == [p[0]] + p[1..];
      k := FirstIndex(p[1..], n);
      k := k + 1;
      assert p[..k] == [p[0]] + p[1..][..k - 1];
    }
  }

  /** nodes' gives n the parent d and leaves every other parent link alone. */
  ghost predicate Reparented(nodes: map<Id, Node>, nodes': map<Id, Node>, n: Id, d: Id) {
    && n in nodes && nodes'.Keys == nodes.Keys && nodes'[n].parent == d
    && (forall m :: m in nodes && m != n ==> nodes'[m].parent == nodes[m].parent)
  }

  /** The part of a climb up to the changed node */
  lemma ClimbBelow(nodes: map<Id, Node>, nodes': map<Id, Node>, n: Id, d: Id, p: seq<Id>, k: nat)
    requires Reparented(nodes, nodes', n, d) && Climb(nodes, p) && k < |p| && p[k] == n && n !in p[..k]
    ensures forall i :: 0 <= i < k ==> nodes'[p[i]].parent == p[i + 1]
  {
    forall i | 0 <= i < k ensures nodes'[p[i]].parent == p[i + 1] {
      assert p[i] in p[..k];
    }
  }

  lemma ReparentOne(nodes: map<Id, Node>, nodes': map<Id, Node>, n: Id, d: Id, up: seq<Id>, p: seq<Id>)
    requires Reparented(nodes, nodes', n, d) && Climb(nodes, p) && n in p
    requires d == NULL || (Climb(nodes, up) && up[0] == d && n !in up)
    ensures Grounded(nodes', p[0])
  {
    var k := FirstIndex(p, n);
    ClimbBelow(nodes, nodes', n, d, p, k);
    var low := p[..k + 1];
    if d == NULL {
      assert Climb(nodes', low) && low[0] == p[0];
    } else {
      ClimbKept(nodes, nodes', up);
      ClimbJoin(nodes', low, up);
      assert (low + up)[0] == p[0];
    }
  }

  /** Giving one node a parent whose own climb avoids it keeps every node grounded. */
  lemma ReparentGrounded(nodes: map<Id, Node>, nodes': map<Id, Node>, n: Id, d: Id, up: seq<Id>)
    requires Acyclic(nodes) && Reparented(nodes, nodes', n, d)
    requires d == NULL || (Climb(nodes, up) && up[0] == d && n !in up)
    ensures Acyclic(nodes')
  {
    forall m | m in nodes' ensures Grounded(nodes', m) {
      assert Grounded(nodes, m);
      var p :| Climb(nodes, p) && p[0] == m;
      if n in p {
        hide Climb;
        ReparentOne(nodes, nodes', n, d, up, p);
      } else {
        ClimbKept(nodes, nodes', p);
      }
    }
  }

  lemma NewNodeGrounded(nodes: map<Id, Node>, n: Id, node: Node)
    requires Acyclic(nodes) && n !in nodes && (node.parent == NULL || (node.parent in nodes && node.parent != n))
    ensures Acyclic(nodes[n := node])
  {
    var nodes' := nodes[n := node];
    forall m | m in nodes' ensures Grounded(nodes', m) {
      if m == n && node.parent == NULL {
        assert Climb(nodes', [n]) && [n][0] == n;
      } else {
        var start := if m == n then node.parent else m;
        assert Grounded(nodes, start);
        var p :| Climb(nodes, p) && p[0] == start;
        ClimbKept(nodes, nodes', p);
        if m == n {
          ClimbJoin(nodes', [n], p);
          assert ([n] + p)[0] == n;
        }
      }
    }
  }

  /** A passed ancestor check is a climb from `walk` that avoids n. */
  lemma AncestorClear(s: Fs, walk: Id, n: Id, hops: nat) returns (up: seq<Id>)
    requires Links(s.nodes, s.kids) && walk in s.nodes && AncestorCheck(s, walk, n, hops).Ok?
    ensures Climb(s.nodes, up) && up[0] == walk && n !in up
    decreases MAX_HOPS + 1 - hops
  {
    var d := s.nodes[walk].parent;
    if d == NULL {
      up := [walk];
    } else {
      var rest := AncestorClear(s, d, n, hops + 1);
      ClimbJoin(s.nodes, [walk], rest);
      up := [walk] + rest;
    }
  }

  // ----- Creation ------------------------------------------------------------------

  /** Reached from a root: linked, or a root itself. */
  ghost predicate Live(s: Fs, n: Id) {
    n in s.nodes && (s.nodes[n].parent != NULL || IsRoot(s, n))
  }

  /** Linked, or the root of a file system, mounted or not */
  ghost predicate Rooted(s: Fs, n: Id) {
    n in s.nodes && (s.nodes[n].parent != NULL || s.nodes[n].mount == n)
  }

  lemma LiveIsRooted(s: Fs, n: Id)
    requires Inv(s) && Live(s, n)
    ensures Rooted(s, n)
  {
    hide Inv;
    if s.nodes[n].parent == NULL { RootOfMount(s, n); }
  }

  lemma LinksInserted(nodes: map<Id, Node>, kids: map<Id, seq<Id>>, n: Id, node: Node)
    requires Links(nodes, kids) && n !in nodes && n != NULL
    requires node.parent in nodes && nodes[node.parent].kind.Directory? && node.mount == nodes[node.parent].mount
    ensures var d := node.parent; Links(nodes[n := node], kids[n := []][d := [n] + kids[d]])
  {
    hide Distinct, Links;
    var d := node.parent;
    LinksBasics(nodes, kids);
    var nodes', kids' := nodes[n := node], kids[n := []][d := [n] + kids[d]];
    if n in kids[d] { ParentIsDirectory(nodes, kids, d, n); }
    DistinctPush(kids[d], n);
    assert Distinct([]) by { NothingDistinct(); }
    assert kids'.Keys == nodes'.Keys;
    forall c | c in nodes' && nodes'[c].parent != NULL
      ensures nodes'[c].parent in nodes' && c in kids'[nodes'[c].parent]
    {
      if c != n { LinkedInList(nodes, kids, c); }
    }
    forall e, c | e in nodes' && c in kids'[e]
      ensures c in nodes' && nodes'[c].parent == e && nodes'[c].mount == nodes'[e].mount && nodes'[e].kind.Directory?
    {
      if c != n {
        assert e != n && c in kids[e];
        ParentIsDirectory(nodes, kids, e, c);
      } else if e != d {
        assert e != n && n in kids[e];
        ParentIsDirectory(nodes, kids, e, n);
      }
    }
    LinksFrom(nodes', kids');
  }

  lemma NothingDistinct()
    ensures Distinct([])
  {
  }

  lemma NamesInserted(nodes: map<Id, Node>, kids: map<Id, seq<Id>>, n: Id, node: Node)
    requires Names(nodes) && Links(nodes, kids) && n !in nodes && n != NULL && node.parent in nodes
    requires Path.Name(node.name)
    requires FindChild(nodes, kids[node.parent], node.name) == NULL
    ensures Names(nodes[n := node])
  {
    FindChildNone(nodes, kids[node.parent], node.name);
  }

  /** Roots keep their place when nodes are added or other nodes change. */
  lemma MountsKept(nodes: map<Id, Node>, nodes': map<Id, Node>, root: Id, mounts: seq<Mount>)
    requires Mounts(nodes, root, mounts)
    requires forall n :: n in nodes ==>
               n in nodes' && nodes'[n].kind == nodes[n].kind && nodes'[n].mount == nodes[n].mount
    requires forall n :: n in nodes && (nodes[n].parent == NULL <==> nodes'[n].parent != NULL) ==>
               n != root && forall i :: 0 <= i < |mounts| ==> mounts[i].point != n && mounts[i].root != n
    ensures Mounts(nodes', root, mounts)
  {
    forall i | 0 <= i < |mounts| ensures MountOk(nodes', root, mounts[i]) {
      assert MountOk(nodes, root, mounts[i]);
    }
  }

  lemma Inserted(s: Fs, d: Id, name: string, kind: Kind)
    requires Inv(s) && Rooted(s, d) && s.nodes[d].kind.Directory? && Path.Name(name)
    requires FindChild(s.nodes, s.kids[d], name) == NULL
    ensures Inv(Insert(s, d, name, kind))
  {
    hide Acyclic, Links, Names, Mounts, Path.Name, FindChild;
    var n := s.nextId;
    var node := Node(kind, name, d, s.nodes[d].mount);
    IdsPositive(s);
    LinksInserted(s.nodes, s.kids, n, node);
    NamesInserted(s.nodes, s.kids, n, node);
    NewNodeGrounded(s.nodes, n, node);
    MountsKept(s.nodes, s.nodes[n := node], s.root, s.mounts);
  }

  lemma IdsPositive(s: Fs)
    requires Inv(s)
    ensures s.nextId > 0 && s.nextId !in s.nodes && s.nodes.Keys == s.kids.Keys && NULL !in s.nodes
  {
    assert s.root in s.nodes;
  }

  lemma CreateKeeps(s: Fs, cs: seq<string>, kind: Kind, memory: bool)
    requires Inv(s) && Path.Canonical(cs)
    ensures Inv(CreatePath(s, cs, kind, memory).0)
    ensures CreatePath(s, cs, kind, memory).1.Err? ==> CreatePath(s, cs, kind, memory).0 == s
  {
    hide Acyclic, Links, Names, Mounts, FindChild, Inv;
    var d := ResolveParent(s, cs);
    if d.Ok? {
      assert Path.Name(cs[|cs| - 1]);
      RootLive(s);
      ResolveLive(s, s.root, cs[..|cs| - 1]);
      var (s', r) := Create(s, d.value, cs[|cs| - 1], kind, memory);
      if r.Ok? {
        LiveIsRooted(s, d.value);
        Inserted(s, d.value, cs[|cs| - 1], kind);
      }
    }
  }

  // ----- Resolution -----------------------------------------------------------------

  lemma RootLive(s: Fs)
    requires Inv(s)
    ensures Live(s, s.root)
  {
  }

  lemma FoundIsChild(s: Fs, d: Id, name: string)
    requires Inv(s) && Lookup(s, d, name).Ok?
    ensures var c := Lookup(s, d, name).value;
      c in s.nodes && s.nodes[c].parent == d && d in s.nodes && s.nodes[c].name == name && c in s.kids[d]
  {
    hide Acyclic, Names, Mounts, Detached;
  }

  lemma DownLive(s: Fs, c: Id)
    requires Inv(s) && c in s.nodes && s.nodes[c].parent != NULL
    ensures Live(s, Down(s, c))
  {
    hide Acyclic, Names, Links, Detached;
    var i := MountAt(s.mounts, c);
    if i < |s.mounts| {
      assert MountOk(s.nodes, s.root, s.mounts[i]);
    }
  }

  /** Resolution reaches only nodes that are linked or roots. */
  lemma {:induction false} ResolveLive(s: Fs, n: Id, cs: seq<string>)
    requires Inv(s) && Live(s, n)
    ensures Resolve(s, n, cs).Ok? ==> Live(s, Resolve(s, n, cs).value)
    decreases |cs|
  {
    hide Inv, Lookup, Down;
    if cs != [] && Lookup(s, n, cs[0]).Ok? {
      FoundIsChild(s, n, cs[0]);
      var c := Lookup(s, n, cs[0]).value;
      ParentsAreNodes(s, c);
      DownLive(s, c);
      ResolveLive(s, Down(s, c), cs[1..]);
    }
  }

  lemma ParentsAreNodes(s: Fs, c: Id)
    requires Inv(s) && c in s.nodes && s.nodes[c].parent in s.nodes
    ensures s.nodes[c].parent != NULL
  {
  }

  // ----- Removal ---------------------------------------------------------------------

  lemma LinksDetached(nodes: map<Id, Node>, kids: map<Id, seq<Id>>, n: Id)
    requires Links(nodes, kids) && n in nodes && nodes[n].parent != NULL
    ensures var d := nodes[n].parent;
      Links(nodes[n := nodes[n].(parent := NULL)], kids[d := Without(kids[d], n)])
  {
    hide Without, Distinct, Links;
    var d := nodes[n].parent;
    LinksBasics(nodes, kids);
    LinkedInList(nodes, kids, n);
    WithoutContents(kids[d], n);
    var nodes', kids' := nodes[n := nodes[n].(parent := NULL)], kids[d := Without(kids[d], n)];
    assert kids'.Keys == nodes'.Keys;
    forall c | c in nodes' && nodes'[c].parent != NULL
      ensures nodes'[c].parent in nodes' && c in kids'[nodes'[c].parent]
    {
      LinkedInList(nodes, kids, c);
    }
    forall e, c | e in nodes' && c in kids'[e]
      ensures c in nodes' && nodes'[c].parent == e && nodes'[c].mount == nodes'[e].mount && nodes'[e].kind.Directory?
    {
      ParentIsDirectory(nodes, kids, e, c);
    }
    LinksFrom(nodes', kids');
  }

  lemma LinksBasics(nodes: map<Id, Node>, kids: map<Id, seq<Id>>)
    requires Links(nodes, kids)
    ensures kids.Keys == nodes.Keys && NULL !in nodes && forall d :: d in nodes ==> Distinct(kids[d])
  {
    hide Distinct;
  }

  lemma LinksFrom(nodes: map<Id, Node>, kids: map<Id, seq<Id>>)
    requires kids.Keys == nodes.Keys && NULL !in nodes && forall d :: d in nodes ==> Distinct(kids[d])
    requires forall d, c :: d in nodes && c in kids[d] ==>
               c in nodes && nodes[c].parent == d && nodes[c].mount == nodes[d].mount && nodes[d].kind.Directory?
    requires forall c :: c in nodes && nodes[c].parent != NULL ==>
               nodes[c].parent in nodes && c in kids[nodes[c].parent]
    ensures Links(nodes, kids)
  {
  }

  /** Not a mount point and not a mounted root */
  lemma UnprotectedMeans(s: Fs, n: Id)
    requires !Protected(s, n)
    ensures forall i :: 0 <= i < |s.mounts| ==> s.mounts[i].point != n && s.mounts[i].root != n
  {
  }

  lemma DetachedKeeps(s: Fs, n: Id)
    requires Inv(s) && n in s.nodes && s.nodes[n].parent != NULL && s.kids[n] == [] && !Protected(s, n)
    ensures Inv(Detach(s, n))
  {
    hide Acyclic, Links, Names, Mounts, Protected, Without;
    var d := s.nodes[n].parent;
    var nodes' := s.nodes[n := s.nodes[n].(parent := NULL)];
    assert nodes'.Keys == s.nodes.Keys;
    UnprotectedMeans(s, n);
    LinksDetached(s.nodes, s.kids, n);
    ReparentGrounded(s.nodes, nodes', n, NULL, []);
    NamesSubset(s.nodes, nodes', n);
    assert s.root != n by { RootHasNoParent(s); }
    MountsKept(s.nodes, nodes', s.root, s.mounts);
    DetachedStays(s, n);
  }

  lemma RootHasNoParent(s: Fs)
    requires Inv(s)
    ensures s.root in s.nodes && s.nodes[s.root].parent == NULL && s.nodes[s.root].mount == s.root
  {
  }

  lemma NamesSubset(nodes: map<Id, Node>, nodes': map<Id, Node>, n: Id)
    requires Names(nodes) && n in nodes && nodes' == nodes[n := nodes[n].(parent := NULL)]
    ensures Names(nodes')
  {
  }

  lemma DetachedStays(s: Fs, n: Id)
    requires Inv(s) && n in s.nodes && s.nodes[n].parent != NULL && s.kids[n] == []
    ensures Detached(Detach(s, n))
  {
    hide Acyclic, Names, Mounts;
    var s' := Detach(s, n);
    var d := s.nodes[n].parent;
    WithoutContents(s.kids[d], n);
    forall m | m in s'.nodes && s'.nodes[m].parent == NULL && s'.nodes[m].mount != m ensures s'.kids[m] == [] {
      if m == n {
        assert d != n;
      } else {
        assert s.kids[m] == [];
        assert m != d;
      }
    }
  }

  lemma FilesAreEmpty(nodes: map<Id, Node>, kids: map<Id, seq<Id>>, n: Id)
    requires Links(nodes, kids) && n in nodes && !nodes[n].kind.Directory?
    ensures kids[n] == []
  {
    if |kids[n]| > 0 {
      ParentIsDirectory(nodes, kids, n, kids[n][0]);
    }
  }

  lemma ParentIsDirectory(nodes: map<Id, Node>, kids: map<Id, seq<Id>>, d: Id, c: Id)
    requires Links(nodes, kids) && d in nodes && c in kids[d]
    ensures nodes[d].kind.Directory? && c in nodes && nodes[c].parent == d && nodes[c].mount == nodes[d].mount
  {
  }

  lemma LinkedInList(nodes: map<Id, Node>, kids: map<Id, seq<Id>>, n: Id)
    requires Links(nodes, kids) && n in nodes
    ensures n in kids
    ensures nodes[n].parent != NULL ==>
              nodes[n].parent in nodes && nodes[n].parent in kids && n in kids[nodes[n].parent]
  {
  }

  lemma UnlinkKeeps(s: Fs, n: Id)
    requires Inv(s) && n in s.nodes && !Protected(s, n)
    ensures Inv(Unlink(s, n).0) && (Unlink(s, n).1.Err? ==> Unlink(s, n).0 == s)
    ensures !s.nodes[n].kind.Directory? && s.nodes[n].parent != NULL ==> Unlink(s, n) == (Detach(s, n), Ok(()))
  {
    hide Acyclic, Names, Mounts, Links;
    LinkedInList(s.nodes, s.kids, n);
    if !s.nodes[n].kind.Directory? && s.nodes[n].parent != NULL {
      FilesAreEmpty(s.nodes, s.kids, n);
      DetachedKeeps(s, n);
    }
  }

  lemma RmdirKeeps(s: Fs, n: Id)
    requires Inv(s) && n in s.nodes && !Protected(s, n)
    ensures Inv(Rmdir(s, n).0) && (Rmdir(s, n).1.Err? ==> Rmdir(s, n).0 == s)
    ensures s.nodes[n].kind.Directory? && s.kids[n] == [] && s.nodes[n].parent != NULL ==>
              Rmdir(s, n) == (Detach(s, n), Ok(()))
  {
    hide Acyclic, Names, Mounts, Links;
    LinkedInList(s.nodes, s.kids, n);
    if s.nodes[n].kind.Directory? && s.kids[n] == [] && s.nodes[n].parent != NULL {
      DetachedKeeps(s, n);
    }
  }

  // ----- Renaming --------------------------------------------------------------------

  lemma LinksAttached(nodes: map<Id, Node>, kids: map<Id, seq<Id>>, n: Id, node: Node)
    requires Links(nodes, kids) && n in nodes && nodes[n].parent == NULL
    requires node.parent in nodes && node.parent != n && nodes[node.parent].kind.Directory?
    requires node.mount == nodes[n].mount == nodes[node.parent].mount && node.kind == nodes[n].kind
    ensures var d := node.parent; Links(nodes[n := node], kids[d := [n] + kids[d]])
  {
    var d := node.parent;
    assert n !in kids[d];
    DistinctPush(kids[d], n);
  }

  lemma LinksMoved(s: Fs, n: Id, d: Id, name: string)
    requires Links(s.nodes, s.kids) && n in s.nodes && s.nodes[n].parent != NULL
    requires d in s.nodes && d != n && s.nodes[d].kind.Directory? && s.nodes[d].mount == s.nodes[n].mount
    ensures s.nodes[n].parent in s.kids && d in s.kids
    ensures Links(Move(s, n, d, name).nodes, Move(s, n, d, name).kids)
  {
    hide Links, Without;
    LinkedInList(s.nodes, s.kids, n);
    LinkedInList(s.nodes, s.kids, d);
    LinksDetached(s.nodes, s.kids, n);
    var s1 := Detach(s, n);
    var node := s.nodes[n].(parent := d, name := name);
    LinksAttached(s1.nodes, s1.kids, n, node);
    assert s1.nodes[n := node] == s.nodes[n := node];
  }

  lemma NamesMoved(nodes: map<Id, Node>, kids: map<Id, seq<Id>>, n: Id, d: Id, name: string)
    requires Names(nodes) && Links(nodes, kids) && n in nodes && d in nodes && Path.Name(name)
    requires FindChild(nodes, kids[d], name) == NULL
    ensures Names(nodes[n := nodes[n].(parent := d, name := name)])
  {
    FindChildNone(nodes, kids[d], name);
  }

  lemma DetachedMoved(s: Fs, n: Id, d: Id, name: string)
    requires Inv(s) && n in s.nodes && s.nodes[n].parent != NULL && Rooted(s, d) && d != n
    ensures Detached(Move(s, n, d, name))
  {
    hide Acyclic, Names, Mounts;
    var b := s.nodes[n].parent;
    var s' := Move(s, n, d, name);
    forall m | m in s'.nodes && s'.nodes[m].parent == NULL && s'.nodes[m].mount != m ensures s'.kids[m] == [] {
      assert m != n;
      assert s.kids[m] == [];
      assert n in s.kids[b];
      assert m != b;
      assert m != d;
    }
  }

  lemma MovedKeeps(s: Fs, n: Id, d: Id, name: string, up: seq<Id>)
    requires Inv(s) && n in s.nodes && s.nodes[n].parent != NULL && !Protected(s, n)
    requires Rooted(s, d) && s.nodes[d].kind.Directory? && s.nodes[d].mount == s.nodes[n].mount && Path.Name(name)
    requires FindChild(s.nodes, s.kids[d], name) == NULL
    requires Climb(s.nodes, up) && up[0] == d && n !in up
    ensures Inv(Move(s, n, d, name))
  {
    hide Acyclic, Links, Names, Mounts, Protected, Without, Path.Name, FindChild, Climb;
    var nodes' := s.nodes[n := s.nodes[n].(parent := d, name := name)];
    assert nodes'.Keys == s.nodes.Keys;
    ClimbNonEmpty(s.nodes, up);
    assert d in up;
    IdsPositive(s);
    UnprotectedMeans(s, n);
    LinksMoved(s, n, d, name);
    NamesMoved(s.nodes, s.kids, n, d, name);
    ReparentGrounded(s.nodes, nodes', n, d, up);
    RootHasNoParent(s);
    MountsKept(s.nodes, nodes', s.root, s.mounts);
    DetachedMoved(s, n, d, name);
  }

  lemma ClimbNonEmpty(nodes: map<Id, Node>, up: seq<Id>)
    requires Climb(nodes, up)
    ensures |up| > 0
  {
  }

  // ----- cb_vfs_rename_paths ----------------------------------------------------------

  /** Mounts are not crossed by parent links. */
  lemma {:induction false} ClimbSameMount(s: Fs, up: seq<Id>)
    requires Links(s.nodes, s.kids) && Climb(s.nodes, up)
    ensures s.nodes[up[|up| - 1]].mount == s.nodes[up[0]].mount
  {
    if |up| > 1 {
      LinkedInList(s.nodes, s.kids, up[0]);
      ParentIsDirectory(s.nodes, s.kids, up[1], up[0]);
      ClimbSuffix(s.nodes, up, 1);
      ClimbSameMount(s, up[1..]);
    }
  }

  /** A climb from a linked node or a root ends at the root of its file system. */
  lemma ClimbEndsAtRoot(s: Fs, up: seq<Id>)
    requires Inv(s) && Climb(s.nodes, up) && Rooted(s, up[0])
    ensures s.nodes[up[|up| - 1]].mount == up[|up| - 1]
  {
    hide Acyclic, Names, Mounts, Links;
    var top := up[|up| - 1];
    if |up| > 1 {
      var i := |up| - 2;
      assert s.nodes[up[i]].parent == up[i + 1] == top;
      ParentsAreNodes(s, up[i]);
      LinkedInList(s.nodes, s.kids, up[i]);
      assert up[i] in s.kids[top];
      LinkedInList(s.nodes, s.kids, top);
      assert s.kids[top] != [];
    }
  }

  /** Two different roots belong to two different mounts. */
  lemma RootOfMount(s: Fs, t: Id)
    requires Inv(s) && IsRoot(s, t)
    ensures t in s.nodes && s.nodes[t].mount == t
  {
    hide Acyclic, Names, Links, Detached;
    if t != s.root {
      var i :| 0 <= i < |s.mounts| && s.mounts[i].root == t;
      assert MountOk(s.nodes, s.root, s.mounts[i]);
    }
  }

  /** What passes the checks has a parent: no root can be renamed below itself. */
  lemma CheckedHasParent(s: Fs, n: Id, d: Id)
    requires Inv(s) && Live(s, n) && Live(s, d) && s.nodes[n].mount == s.nodes[d].mount && !Protected(s, n)
    requires AncestorCheck(s, d, n, 0).Ok?
    ensures s.nodes[n].parent != NULL
  {
    hide Acyclic, Names, Mounts, Links, Detached, Climb, Live;
    LiveIsRooted(s, n);
    LiveIsRooted(s, d);
    if s.nodes[n].parent == NULL {
      InvHasLinks(s);
      var up := AncestorClear(s, d, n, 0);
      ClimbNonEmpty(s.nodes, up);
      ClimbSameMount(s, up);
      ClimbEndsAtRoot(s, up);
    }
  }

  lemma InvHasLinks(s: Fs)
    requires Inv(s)
    ensures Links(s.nodes, s.kids)
  {
  }

  /** Relinking a checked node to a free name */
  lemma RelinkKeeps(s: Fs, n: Id, d: Id, name: string)
    requires Inv(s) && Live(s, n) && Live(s, d) && s.nodes[d].kind.Directory? && s.nodes[n].mount == s.nodes[d].mount
    requires !Protected(s, n) && AncestorCheck(s, d, n, 0).Ok? && Path.Name(name)
    requires FindChild(s.nodes, s.kids[d], name) == NULL
    ensures Rename(s, n, d, name).1.Ok? && Inv(Rename(s, n, d, name).0)
    ensures s.nodes[n].parent in s.kids && Rename(s, n, d, name).0 == Move(s, n, d, name)
  {
    hide Acyclic, Names, Mounts, Links, Detached, Climb, FindChild, Path.Name, Live;
    CheckedHasParent(s, n, d);
    InvHasLinks(s);
    assert n in s.nodes && d in s.nodes by { LiveIn(s, n); LiveIn(s, d); }
    LinkedInList(s.nodes, s.kids, n);
    var up := AncestorClear(s, d, n, 0);
    LiveIsRooted(s, d);
    MovedKeeps(s, n, d, name, up);
  }

  lemma LiveIn(s: Fs, n: Id)
    requires Live(s, n)
    ensures n in s.nodes
  {
  }

  /** Replacing a file: after its unlink the name is free and the checks still hold. */
  lemma ReplaceReady(s: Fs, n: Id, d: Id, name: string, e: Id)
    requires Inv(s) && Live(s, n) && Live(s, d) && s.nodes[d].kind.Directory? && !Protected(s, n)
    requires Lookup(s, d, name) == Ok(e) && e != n && !s.nodes[e].kind.Directory? && !Protected(s, e)
    requires AncestorCheck(s, d, n, 0).Ok?
    ensures e in s.nodes && s.nodes[e].parent in s.kids
    ensures var s1 := Detach(s, e);
      && Live(s1, n) && Live(s1, d) && !Protected(s1, n)
      && FindChild(s1.nodes, s1.kids[d], name) == NULL
      && AncestorCheck(s1, d, n, 0).Ok?
  {
    hide Acyclic, Mounts;
    FoundIsChild(s, d, name);
    LinkedInList(s.nodes, s.kids, e);
    var s1 := Detach(s, e);
    WithoutContents(s.kids[d], e);
    AncestorAfterDetach(s, d, n, e, 0);
    NameFreed(s, d, name, e);
  }

  lemma NameFreed(s: Fs, d: Id, name: string, e: Id)
    requires Names(s.nodes) && Links(s.nodes, s.kids) && e in s.nodes && s.nodes[e].parent == d && d != NULL
    requires s.nodes[e].name == name
    ensures d in s.kids && FindChild(Detach(s, e).nodes, Detach(s, e).kids[d], name) == NULL
  {
    hide FindChild, Without;
    LinkedInList(s.nodes, s.kids, e);
    var s1 := Detach(s, e);
    WithoutContents(s.kids[d], e);
    var c := FindChild(s1.nodes, s1.kids[d], name);
    if c != NULL {
      FoundInList(s1.nodes, s1.kids[d], name);
      ParentIsDirectory(s.nodes, s.kids, d, c);
    }
  }

  lemma FoundInList(nodes: map<Id, Node>, l: seq<Id>, name: string)
    ensures var c := FindChild(nodes, l, name); c != NULL ==> c in l && c in nodes && nodes[c].name == name
  {
  }

  /** A file is nobody's ancestor, so taking one out changes no ancestor check. */
  lemma {:induction false} AncestorAfterDetach(s: Fs, walk: Id, n: Id, e: Id, hops: nat)
    requires Links(s.nodes, s.kids) && e in s.nodes && !s.nodes[e].kind.Directory? && s.nodes[e].parent in s.kids
    requires walk == NULL || (walk in s.nodes && s.nodes[walk].kind.Directory?)
    ensures AncestorCheck(Detach(s, e), walk, n, hops) == AncestorCheck(s, walk, n, hops)
    decreases MAX_HOPS + 1 - hops
  {
    if walk != NULL && walk != n && hops + 1 <= MAX_HOPS {
      LinkedInList(s.nodes, s.kids, walk);
      var d := s.nodes[walk].parent;
      if d != NULL {
        ParentIsDirectory(s.nodes, s.kids, d, walk);
      }
      AncestorAfterDetach(s, d, n, e, hops + 1);
    }
  }

  /** A file is never a mount point. */
  lemma FilesAreUnprotected(s: Fs, e: Id)
    requires Inv(s) && e in s.nodes && !s.nodes[e].kind.Directory?
    ensures !Protected(s, e)
  {
    hide Acyclic, Names, Links, Detached;
    forall i | 0 <= i < |s.mounts| ensures s.mounts[i].point != e && s.mounts[i].root != e {
      assert MountOk(s.nodes, s.root, s.mounts[i]);
    }
  }

  /** A rename keeps the tree; one that reports an error has changed nothing. */
  lemma RenameKeeps(s: Fs, from: seq<string>, to: seq<string>, memory: bool)
    requires Inv(s) && Path.Canonical(to)
    ensures Inv(RenamePaths(s, from, to, memory).0)
    ensures RenamePaths(s, from, to, memory).1.Err? ==> RenamePaths(s, from, to, memory).0 == s
  {
    hide Inv, Live, FindChild, Protected, Path.Name, Resolve, AncestorCheck, Rename, Unlink, RenameChecks;
    var r := Resolve(s, s.root, from);
    var d := ResolveParent(s, to);
    if r.Ok? && d.Ok? {
      RootLive(s);
      ResolveLive(s, s.root, from);
      ResolveLive(s, s.root, to[..|to| - 1]);
      var name := to[|to| - 1];
      assert Path.Name(name);
      var e := RenameChecks(s, r.value, d.value, name, memory);
      if e.Ok? && e.value != r.value {
        RenameStepKeeps(s, r.value, d.value, name, memory, e.value);
      }
    }
  }

  lemma ChecksMean(s: Fs, n: Id, d: Id, name: string, memory: bool, e: Id)
    requires Inv(s) && RenameChecks(s, n, d, name, memory) == Ok(e) && e != n
    ensures n in s.nodes && d in s.nodes && s.nodes[n].mount == s.nodes[d].mount && !Protected(s, n)
    ensures AncestorCheck(s, d, n, 0).Ok? && s.nodes[d].kind.Directory? && d in s.kids
    ensures if e == NULL then FindChild(s.nodes, s.kids[d], name) == NULL
            else Lookup(s, d, name) == Ok(e) && e in s.nodes && !s.nodes[e].kind.Directory?
  {
    hide Acyclic, Names, Mounts, Detached, FindChild, Protected, AncestorCheck;
    if e != NULL {
      FoundIsChild(s, d, name);
    }
    FoundIsNotNull(s, d, name);
  }

  lemma FoundIsNotNull(s: Fs, d: Id, name: string)
    requires Inv(s)
    ensures Lookup(s, d, name).Ok? ==> Lookup(s, d, name).value != NULL
  {
    hide Inv;
  }

  lemma RenameStepKeeps(s: Fs, n: Id, d: Id, name: string, memory: bool, e: Id)
    requires Inv(s) && Live(s, n) && Live(s, d) && Path.Name(name)
    requires RenameChecks(s, n, d, name, memory) == Ok(e) && e != n
    ensures e == NULL ==> Rename(s, n, d, name).1.Ok? && Inv(Rename(s, n, d, name).0)
    ensures e != NULL ==> Unlink(s, e).1.Ok? &&
                          Rename(Unlink(s, e).0, n, d, name).1.Ok? && Inv(Rename(Unlink(s, e).0, n, d, name).0)
  {
    hide Inv, Live, FindChild, Protected, Path.Name, Resolve, AncestorCheck, Rename, Unlink, RenameChecks, Lookup;
    ChecksMean(s, n, d, name, memory, e);
    if e == NULL {
      RelinkKeeps(s, n, d, name);
    } else {
      FilesAreUnprotected(s, e);
      ReplaceReady(s, n, d, name, e);
      FoundIsChild(s, d, name);
      ParentsAreNodes(s, e);
      UnlinkKeeps(s, e);
      RelinkKeeps(Detach(s, e), n, d, name);
    }
  }

  // ----- Mounting, and runs ------------------------------------------------------------

  lemma BareRootKeeps(s: Fs)
    requires Inv(s)
    ensures Inv(BareRoot(s)) && s.nextId !in s.nodes
  {
    hide Acyclic, Mounts, Names, Links;
    IdsPositive(s);
    var node := Node(Directory, "", NULL, s.nextId);
    LinksWithRoot(s.nodes, s.kids, s.nextId, node);
    NewNodeGrounded(s.nodes, s.nextId, node);
    MountsKept(s.nodes, s.nodes[s.nextId := node], s.root, s.mounts);
    NamesWithRoot(s.nodes, s.nextId, node);
  }

  /** A directory whose children are the ids l, none of them named `name` */
  ghost predicate Lists(s: Fs, d: Id, l: seq<Id>, names: set<string>) {
    && Rooted(s, d) && d in s.kids && s.nodes[d].kind.Directory? && s.kids[d] == l
    && (forall c :: c in l ==> c in s.nodes && s.nodes[c].name in names)
  }

  lemma AddedKeeps(s: Fs, d: Id, name: string, l: seq<Id>, names: set<string>)
    requires Inv(s) && Lists(s, d, l, names) && Path.Name(name) && name !in names
    ensures var s' := Added(s, d, name);
      && Inv(s') && Lists(s', d, [s.nextId] + l, names + {name}) && Lists(s', s.nextId, [], {})
      && s'.nextId == s.nextId + 1
  {
    hide Inv, Path.Name, FindChild;
    IdsPositive(s);
    AbsentName(s.nodes, l, name);
    Inserted(s, d, name, Directory);
  }

  lemma {:induction false} AbsentName(nodes: map<Id, Node>, l: seq<Id>, name: string)
    requires forall c :: c in l ==> c !in nodes || nodes[c].name != name
    ensures FindChild(nodes, l, name) == NULL
  {
    if l != [] {
      AbsentName(nodes, l[1..], name);
    }
  }

  lemma NewRootKeeps(s: Fs)
    requires Inv(s)
    ensures Inv(NewRoot(s))
  {
    hide Inv, Added, Lists;
    var r := s.nextId;
    var s0 := BareRoot(s);
    BareRootKeeps(s);
    assert Lists(s0, r, [], {}) by { BareLists(s); }
    AddedKeeps(s0, r, "bin", [], {});
    var s1 := Added(s0, r, "bin");
    assert [r + 1] + [] == [r + 1] && {} + {"bin"} == {"bin"};
    AddedKeeps(s1, r, "tmp", [r + 1], {"bin"});
    var s2 := Added(s1, r, "tmp");
    AddedKeeps(s2, r, "home", [r + 2] + [r + 1], {"bin"} + {"tmp"});
    AddedKeeps(Added(s2, r, "home"), r + 3, "user", [], {});
  }

  lemma BareLists(s: Fs)
    requires Inv(s)
    ensures Lists(BareRoot(s), s.nextId, [], {})
  {
    hide Inv;
    IdsPositive(s);
  }

  lemma LinksWithRoot(nodes: map<Id, Node>, kids: map<Id, seq<Id>>, n: Id, node: Node)
    requires Links(nodes, kids) && n !in nodes && n != NULL && node.parent == NULL
    ensures Links(nodes[n := node], kids[n := []])
  {
  }

  lemma NamesWithRoot(nodes: map<Id, Node>, n: Id, node: Node)
    requires Names(nodes) && n !in nodes && node.parent == NULL
    ensures Names(nodes[n := node])
  {
  }

  lemma MountKeeps(s: Fs, cs: seq<string>, root: Id)
    requires Inv(s)
    ensures Inv(MountPath(s, cs, root).0)
    ensures MountPath(s, cs, root).1.Err? ==> MountPath(s, cs, root).0 == s
  {
    hide Acyclic, Names, Links, Resolve;
    RootLive(s);
    ResolveLive(s, s.root, cs);
    var (s', r) := MountPath(s, cs, root);
    if r.Ok? {
      var n := Resolve(s, s.root, cs).value;
      MountedHasParent(s, n);
      assert forall i :: 0 <= i < |s.mounts| ==> s'.mounts[i] == s.mounts[i];
      forall i | 0 <= i < |s'.mounts| ensures MountOk(s'.nodes, s'.root, s'.mounts[i]) {
        if i < |s.mounts| { assert MountOk(s.nodes, s.root, s.mounts[i]); }
      }
    }
  }

  lemma MountedHasParent(s: Fs, n: Id)
    requires Inv(s) && Live(s, n) && n != s.root && !Protected(s, n)
    ensures s.nodes[n].parent != NULL
  {
    UnprotectedMeans(s, n);
  }

  lemma StackCanonical(p: FsTree.Name)
    requires Stack(p).Ok?
    ensures Path.Canonical(Stack(p).stack)
  {
    Path.NormalizeIsFold(p.cwd, p.text, Path.PATH_MAX);
  }

  lemma RemoveKeeps(s: Fs, cs: seq<string>)
    requires Inv(s)
    ensures Inv(UnlinkPath(s, cs).0) && (UnlinkPath(s, cs).1.Err? ==> UnlinkPath(s, cs).0 == s)
    ensures Inv(RmdirPath(s, cs).0) && (RmdirPath(s, cs).1.Err? ==> RmdirPath(s, cs).0 == s)
  {
    hide Inv, Resolve, Protected, Unlink, Rmdir;
    RootLive(s);
    ResolveLive(s, s.root, cs);
    var r := Resolve(s, s.root, cs);
    if r.Ok? && !Protected(s, r.value) {
      UnlinkKeeps(s, r.value);
      RmdirKeeps(s, r.value);
    }
  }

  lemma ApplyKeeps(s: Fs, op: Op)
    requires Inv(s)
    ensures Inv(Apply(s, op))
  {
    hide Inv, CreatePath, UnlinkPath, RmdirPath, RenamePaths, NewRoot, MountPath, Stack;
    match op
    case CreateOp(path, kind, memory) =>
      if Stack(path).Ok? { StackCanonical(path); CreateKeeps(s, Stack(path).stack, kind, memory); }
    case UnlinkOp(path) => if Stack(path).Ok? { RemoveKeeps(s, Stack(path).stack); }
    case RmdirOp(path) => if Stack(path).Ok? { RemoveKeeps(s, Stack(path).stack); }
    case RenameOp(from, to, memory) =>
      if Stack(from).Ok? && Stack(to).Ok? {
        StackCanonical(to);
        RenameKeeps(s, Stack(from).stack, Stack(to).stack, memory);
      }
    case NewRootOp => NewRootKeeps(s);
    case MountOp(path, root) => if Stack(path).Ok? { MountKeeps(s, Stack(path).stack, root); }
  }

  lemma EmptyOk()
    ensures Inv(Empty())
  {
    hide Links, Names, Acyclic, Mounts, Detached;
    EmptyTree();
    EmptyMounts();
  }

  lemma EmptyTree()
    ensures Links(Empty().nodes, Empty().kids) && Names(Empty().nodes) && Acyclic(Empty().nodes)
  {
    assert Climb(Empty().nodes, [1]) && [1][0] == 1;
  }

  lemma EmptyMounts()
    ensures Mounts(Empty().nodes, Empty().root, Empty().mounts) && Detached(Empty())
  {
  }

  lemma {:induction false} RunKeeps(s: Fs, ops: seq<Op>)
    requires Inv(s)
    ensures Inv(Run(s, ops))
    decreases |ops|
  {
    hide Inv, Apply;
    if ops != [] {
      ApplyKeeps(s, ops[0]);
      RunKeeps(Apply(s, ops[0]), ops[1..]);
    }
  }

  /**
   Whatever sequence of calls is made, the file system is a tree: no node is on
   a cycle, child lists and parent links agree, siblings have different names,
   and every linked node climbs to the root of its own mount.
   */
  lemma AlwaysATree(ops: seq<Op>, n: Id)
    ensures Inv(Run(Empty(), ops))
    ensures var s := Run(Empty(), ops);
      n in s.nodes && s.nodes[n].parent != NULL ==>
        exists up :: Climb(s.nodes, up) && up[0] == n && up[|up| - 1] == s.nodes[n].mount
  {
    hide Run, Links, Names, Mounts, Detached;
    EmptyOk();
    RunKeeps(Empty(), ops);
    var s := Run(Empty(), ops);
    if n in s.nodes && s.nodes[n].parent != NULL {
      assert Grounded(s.nodes, n);
      var up :| Climb(s.nodes, up) && up[0] == n;
      ClimbEndsAtRoot(s, up);
      ClimbSameMount(s, up);
    }
  }

  lemma {:induction false} SelfParentNeverEnds(nodes: map<Id, Node>, p: seq<Id>)
    requires Climb(nodes, p) && NULL !in nodes
    ensures nodes[p[0]].parent != p[0]
    decreases |p|
  {
    if |p| > 1 && nodes[p[0]].parent == p[0] {
      ClimbSuffix(nodes, p, 1);
      SelfParentNeverEnds(nodes, p[1..]);
    }
  }

  lemma NotOwnParent(s: Fs, n: Id)
    requires Inv(s) && n in s.nodes
    ensures s.nodes[n].parent != n
  {
    hide Names, Mounts, Detached, Links;
    InvHasLinks(s);
    assert Grounded(s.nodes, n);
    var p :| Climb(s.nodes, p) && p[0] == n;
    SelfParentNeverEnds(s.nodes, p);
  }
}
