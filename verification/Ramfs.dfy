/**
 The RAM file system as the program stores it: each node points to its first
 child and to its next sibling. The list walks are proved to do to the child
 lists what the operations of FsTree say.
 */
module Ramfs {
  import opened Common
  import Path
  import opened FsTree
  import opened FsInvariant

  datatype Record = Record(kind: Kind, name: string, parent: Id, mount: Id, children: Id, next: Id)

  function NodeOf(r: Record): Node {
    Node(r.kind, r.name, r.parent, r.mount)
  }

  function NodesOf(records: map<Id, Record>): map<Id, Node> {
    map n | n in records :: NodeOf(records[n])
  }

  /** Two stores whose records differ in their list pointers only */
  ghost predicate SameNodes(records: map<Id, Record>, records': map<Id, Record>) {
    records'.Keys == records.Keys && forall m :: m in records ==> NodeOf(records'[m]) == NodeOf(records[m])
  }

  /** The pointers from `first` on thread exactly the list l. */
  ghost predicate Thread(records: map<Id, Record>, first: Id, l: seq<Id>) {
    && first == ItemAt(l, 0)
    && forall i :: 0 <= i < |l| ==> l[i] in records && records[l[i]].next == ItemAt(l, i + 1)
  }

  ghost predicate Threaded(records: map<Id, Record>, kids: map<Id, seq<Id>>) {
    && kids.Keys == records.Keys
    && forall d :: d in records ==> Thread(records, records[d].children, kids[d])
  }

  /** A node that has no parent has no sibling. */
  ghost predicate Loose(records: map<Id, Record>) {
    forall n :: n in records && records[n].parent == NULL ==> records[n].next == NULL
  }

  /** What the pointer updates of one list leave alone: a list that meets no changed next pointer. */
  lemma ThreadKept(records: map<Id, Record>, records': map<Id, Record>, first: Id, l: seq<Id>)
    requires Thread(records, first, l)
    requires forall i :: 0 <= i < |l| ==> l[i] in records' && records'[l[i]].next == records[l[i]].next
    ensures Thread(records', first, l)
  {
  }

  lemma ThreadPush(records: map<Id, Record>, first: Id, l: seq<Id>, n: Id)
    requires Thread(records, first, l) && n in records && records[n].next == first
    ensures Thread(records, n, [n] + l)
  {
    var l' := [n] + l;
    forall i | 0 <= i < |l'| ensures l'[i] in records && records[l'[i]].next == ItemAt(l', i + 1) {
      if i > 0 {
        assert l'[i] == l[i - 1];
      }
    }
  }

  /** Skipping the i-th item */
  lemma ThreadCut(records: map<Id, Record>, records': map<Id, Record>, first: Id, first': Id, l: seq<Id>, i: nat)
    requires Thread(records, first, l) && i < |l|
    requires forall k :: 0 <= k < |l| && k != i ==> l[k] in records'
    requires forall k :: 0 <= k < |l| && k != i && k + 1 != i ==> records'[l[k]].next == records[l[k]].next
    requires if i == 0 then first' == ItemAt(l, 1) else first' == first && records'[l[i - 1]].next == ItemAt(l, i + 1)
    ensures Thread(records', first', l[..i] + l[i + 1..])
  {
    var l' := l[..i] + l[i + 1..];
    forall k | 0 <= k < |l'| ensures l'[k] in records' && records'[l'[k]].next == ItemAt(l', k + 1) {
      if k < i {
        assert l'[k] == l[k];
      } else {
        assert l'[k] == l[k + 1];
      }
    }
  }

  /** Lists of different directories share no node. */
  lemma ListsDisjoint(nodes: map<Id, Node>, kids: map<Id, seq<Id>>, d: Id, e: Id, c: Id)
    requires Links(nodes, kids) && d in nodes && e in nodes && d != e && c in kids[d]
    ensures c !in kids[e]
  {
    if c in kids[e] {
      ParentIsDirectory(nodes, kids, d, c);
      ParentIsDirectory(nodes, kids, e, c);
    }
  }

  class Store {
    var records: map<Id, Record>
    var root: Id
    var mounts: seq<Mount>
    var nextId: Id
    ghost var kids: map<Id, seq<Id>>

    ghost function View(): Fs
      reads this
    {
      Fs(NodesOf(records), kids, root, mounts, nextId)
    }

    ghost predicate Valid()
      reads this
    {
      Inv(View()) && Threaded(records, kids) && Loose(records)
    }

    /** find_child */
    method FindByName(d: Id, name: string) returns (c: Id)
      requires Valid() && d in records
      ensures c == FindChild(View().nodes, kids[d], name)
    {
      c := records[d].children;
      ghost var i := 0;
      assert kids[d][0..] == kids[d];
      assert NULL !in View().nodes;
      while c != NULL
        invariant 0 <= i <= |kids[d]| && c == ItemAt(kids[d], i)
        invariant FindChild(View().nodes, kids[d][i..], name) == FindChild(View().nodes, kids[d], name)
        decreases |kids[d]| - i
      {
        hide Inv;
        ListedIsRecord(this, d, i);
        if records[c].name == name { return; }
        assert kids[d][i..][1..] == kids[d][i + 1..];
        c := records[c].next;
        i := i + 1;
      }
      ListEnds(this, d, i);
    }

    /** ramfs_child_at */
    method ChildAt(d: Id, index: nat) returns (c: Id)
      requires Valid() && d in records
      ensures c == ItemAt(kids[d], index)
    {
      c := records[d].children;
      var position := 0;
      while c != NULL && position != index
        invariant 0 <= position <= |kids[d]| && position <= index && c == ItemAt(kids[d], position)
        decreases |kids[d]| - position
      {
        hide Inv;
        ListedIsRecord(this, d, position);
        c := records[c].next;
        position := position + 1;
      }
      ListEnds(this, d, position);
    }

    /** ramfs_next_sibling */
    method NextSibling(n: Id) returns (c: Id)
      requires Valid() && n in records
      ensures c == SiblingAfter(View(), n)
    {
      NextIsSibling(this, n);
      c := records[n].next;
    }

    /** node_create, once the checks have passed */
    method LinkNew(d: Id, name: string, kind: Kind) returns (n: Id)
      requires Valid() && d in records && Rooted(View(), d) && records[d].kind.Directory? && Path.Name(name)
      requires FindChild(View().nodes, kids[d], name) == NULL
      modifies this
      ensures Valid() && View() == Insert(old(View()), d, name, kind) && n == old(nextId)
    {
      hide Inv, Rooted, FindChild, NodesOf, Threaded, Loose, Links, Insert, Path.Name;
      StoreFacts(this);
      ghost var before := View();
      Inserted(before, d, name, kind);
      IdsPositive(before);
      n := nextId;
      NodesKeys(records);
      ghost var records0 := records;
      records := records[n := Record(kind, name, d, records[d].mount, NULL, records[d].children)];
      records := records[d := records[d].(children := n)];
      kids := kids[n := []][d := [n] + kids[d]];
      nextId := n + 1;
      NodesAfterPush(records0, d, n, Record(kind, name, d, records0[d].mount, NULL, records0[d].children));
      PushThreads(records0, records, before.kids, kids, d, n);
      PushLoose(records0, records, d, n);
      assert View() == Insert(before, d, name, kind) by { InsertIs(before, d, name, kind); }
    }

    /** The link walk shared by unlink, rmdir and rename: n leaves the list of its parent d. */
    method CutFromList(d: Id, n: Id)
      requires n in records && d in records && d in kids && records[n].parent == d != n
      requires Valid()
      modifies this`records
      ensures SameNodes(old(records), records) && n in records && records[n] == old(records)[n]
      ensures Threaded(records, kids[d := Without(kids[d], n)]) && Loose(records)
    {
      hide Inv, NodesOf, Threaded, Thread, Without, Loose;
      ghost var l := kids[d];
      ParentListHas(this, n);
      var prev, cur := NULL, records[d].children;
      ghost var i := 0;
      ListStarts(this, d);
      while cur != n
        invariant 0 <= i < |l| && cur == l[i] && n !in l[..i] && n in l
        invariant prev == if i == 0 then NULL else l[i - 1]
        invariant records == old(records)
        decreases |l| - i
      {
        ListedIsRecord(this, d, i);
        assert l[..i + 1] == l[..i] + [l[i]];
        prev, cur := cur, records[cur].next;
        i := i + 1;
        NotLast(l, n, i);
      }
      CutAt(d, n, prev, i);
    }

    /** *link = node->next_sibling, the link being the parent's or the previous sibling's */
    method CutAt(d: Id, n: Id, prev: Id, ghost i: nat)
      requires n in records && d in records && d in kids && records[n].parent == d != n
      requires i < |kids[d]| && kids[d][i] == n && n !in kids[d][..i]
      requires prev == if i == 0 then NULL else kids[d][i - 1]
      requires Valid()
      modifies this`records
      ensures SameNodes(old(records), records) && n in records && records[n] == old(records)[n]
      ensures Threaded(records, kids[d := Without(kids[d], n)]) && Loose(records)
    {
      hide Inv, NodesOf, Threaded, Thread, Without, Links, Loose;
      StoreFacts(this);
      ghost var before := View();
      if i > 0 { ListedIsRecord(this, d, i - 1); }
      CutThreads(before, records, CutRecords(records, kids[d], d, n, i), d, n, i);
      CutLoose(before, records, d, n, i);
      if prev == NULL {
        records := records[d := records[d].(children := records[n].next)];
      } else {
        PreviousIsOther(this, d, i);
        records := records[prev := records[prev].(next := records[n].next)];
      }
    }

    /** ramfs_unlink and ramfs_rmdir, once their type checks have passed */
    method Remove(n: Id)
      requires Valid() && n in records && records[n].parent != NULL && n in kids && kids[n] == []
      requires !Protected(View(), n)
      modifies this
      ensures n in old(View()).nodes && old(View()).nodes[n].parent in old(View()).kids
      ensures Valid() && View() == Detach(old(View()), n)
    {
      hide Inv, NodesOf, Threaded, Thread, Without, Protected, Links;
      StoreFacts(this);
      ghost var before := View();
      ghost var records0 := records;
      ParentIsRecord(this, n);
      DetachedKeeps(before, n);
      NotListedTwice(before, n);
      NotOwnParent(before, n);
      var d := records[n].parent;
      CutFromList(d, n);
      kids := kids[d := Without(kids[d], n)];
      OrphanThreads(records, kids, n, records[n].(parent := NULL, next := NULL));
      records := records[n := records[n].(parent := NULL, next := NULL)];
      NodesAfterChange(records0, records, n);
    }

    /** ramfs_rename, once cb_vfs_rename_paths has checked everything */
    method Relink(n: Id, d: Id, name: string, ghost up: seq<Id>)
      requires Valid() && n in records && records[n].parent != NULL && !Protected(View(), n)
      requires Rooted(View(), d) && d in records && d in kids
      requires records[d].kind.Directory? && records[d].mount == records[n].mount
      requires Path.Name(name) && FindChild(View().nodes, kids[d], name) == NULL
      requires Climb(View().nodes, up) && up[0] == d && n !in up
      modifies this
      ensures n in old(View()).nodes && old(View()).nodes[n].parent in old(View()).kids && d in old(View()).kids
      ensures Valid() && View() == Move(old(View()), n, d, name)
    {
      hide Inv, NodesOf, Threaded, Thread, Without, Protected, Rooted, FindChild, Climb, Path.Name, Links;
      StoreFacts(this);
      ghost var before := View();
      ghost var records0 := records;
      ParentIsRecord(this, n);
      MovedKeeps(before, n, d, name, up);
      NotListedTwice(before, n);
      NotOwnParent(before, n);
      ClimbNonEmpty(before.nodes, up);
      assert d in up;
      var b := records[n].parent;
      CutFromList(b, n);
      kids := kids[b := Without(kids[b], n)];
      AttachFront(d, n, name);
      NodesAfterChange(records0, records, n);
    }

    /** ramfs_create, with its checks in their order */
    method CreateIn(d: Id, name: string, kind: Kind, memory: bool) returns (r: Result<Id>)
      requires Valid() && d in records && Rooted(View(), d) && name != "." && name != ".."
      modifies this
      ensures Valid() && (View(), r) == Create(old(View()), d, name, kind, memory)
    {
      hide Inv, Rooted, FindChild, NodesOf, Threaded, Loose, Links, Insert;
      StoreFacts(this);
      if !records[d].kind.Directory? { return Err(ENOTDIR); }
      if name == "" || '/' in name { return Err(EINVAL); }
      var c := FindByName(d, name);
      if c != NULL { return Err(EEXIST); }
      if !memory { return Err(ENOMEM); }
      var n := LinkNew(d, name, kind);
      r := Ok(n);
    }

    /** ramfs_unlink; the VFS has refused mount points and roots before. */
    method UnlinkNode(n: Id) returns (r: Result<()>)
      requires Valid() && n in records && !Protected(View(), n)
      modifies this
      ensures Valid() && (View(), r) == Unlink(old(View()), n)
    {
      hide Inv, NodesOf, Threaded, Thread, Without, Protected, Links, Loose, Detach;
      StoreFacts(this);
      LinkedInList(View().nodes, kids, n);
      if records[n].kind.Directory? {
        EmptyList(this, n);
        return Err(if records[n].children == NULL then EISDIR else ENOTEMPTY);
      }
      if records[n].parent == NULL { return Err(EPERM); }
      FilesAreEmpty(View().nodes, kids, n);
      Remove(n);
      r := Ok(());
    }

    /** ramfs_rmdir */
    method RemoveDirectory(n: Id) returns (r: Result<()>)
      requires Valid() && n in records && !Protected(View(), n)
      modifies this
      ensures Valid() && (View(), r) == Rmdir(old(View()), n)
    {
      hide Inv, NodesOf, Threaded, Thread, Without, Protected, Links, Loose, Detach;
      StoreFacts(this);
      LinkedInList(View().nodes, kids, n);
      if !records[n].kind.Directory? { return Err(ENOTDIR); }
      EmptyList(this, n);
      if records[n].children != NULL { return Err(ENOTEMPTY); }
      if records[n].parent == NULL { return Err(EPERM); }
      Remove(n);
      r := Ok(());
    }

    /** ramfs_rename; the VFS has checked the target, its free name and that it is not below the node. */
    method RenameNode(n: Id, d: Id, name: string, ghost up: seq<Id>) returns (r: Result<()>)
      requires Valid() && n in records && !Protected(View(), n)
      requires Rooted(View(), d) && d in records && d in kids
      requires records[d].kind.Directory? && records[d].mount == records[n].mount
      requires Path.Name(name) && FindChild(View().nodes, kids[d], name) == NULL
      requires Climb(View().nodes, up) && up[0] == d && n !in up
      modifies this
      ensures Valid() && (View(), r) == Rename(old(View()), n, d, name)
    {
      hide Inv, NodesOf, Threaded, Thread, Without, Protected, Rooted, FindChild, Climb, Path.Name, Links, Loose, Move;
      StoreFacts(this);
      LinkedInList(View().nodes, kids, n);
      if records[n].parent == NULL { return Err(EPERM); }
      Relink(n, d, name, up);
      r := Ok(());
    }

    /** The node goes to the head of its new parent's list, under its new name. */
    method AttachFront(d: Id, n: Id, name: string)
      requires Threaded(records, kids) && d in records && d in kids && n in records && n != d
      requires forall e :: e in records && e in kids ==> n !in kids[e]
      requires Loose(records) && NULL !in records
      modifies this`records, this`kids
      ensures records.Keys == old(records).Keys && Threaded(records, kids) && Loose(records)
      ensures kids == old(kids)[d := [n] + old(kids)[d]]
      ensures NodeOf(records[n]) == NodeOf(old(records)[n]).(parent := d, name := name)
      ensures forall m :: m in records && m != n ==> NodeOf(records[m]) == NodeOf(old(records)[m])
    {
      hide Thread;
      ghost var before := records;
      records := records[n := records[n].(next := records[d].children, parent := d, name := name)];
      records := records[d := records[d].(children := n)];
      assert records.Keys == before.Keys;
      AttachThreads(before, records, kids, d, n);
      kids := kids[d := [n] + kids[d]];
    }
  }

  ghost function CutRecords(records: map<Id, Record>, l: seq<Id>, d: Id, n: Id, i: nat): map<Id, Record>
    requires n in records && d in records && i < |l| && (i > 0 ==> l[i - 1] in records)
  {
    if i == 0 then records[d := records[d].(children := records[n].next)]
    else records[l[i - 1] := records[l[i - 1]].(next := records[n].next)]
  }

  /** What a valid store's view says about its records */
  lemma StoreFacts(t: Store)
    requires t.Valid()
    ensures t.View().nodes.Keys == t.records.Keys == t.kids.Keys && NULL !in t.records
    ensures forall n :: n in t.records ==> t.View().nodes[n] == NodeOf(t.records[n])
    ensures Links(t.View().nodes, t.kids) && Threaded(t.records, t.kids)
  {
    hide Acyclic, Names, Mounts, Detached;
    NodesKeys(t.records);
  }

  lemma ListDistinct(nodes: map<Id, Node>, kids: map<Id, seq<Id>>, d: Id)
    requires Links(nodes, kids) && d in nodes
    ensures Distinct(kids[d])
  {
  }

  /** The first-child pointer tells an empty directory. */
  lemma EmptyList(t: Store, d: Id)
    requires t.Valid() && d in t.records
    ensures d in t.kids && (t.records[d].children == NULL <==> t.kids[d] == [])
  {
    hide Inv, Threaded, Thread, Loose, NodesOf;
    StoreFacts(t);
    ListStarts(t, d);
    if t.kids[d] != [] { ListedIsRecord(t, d, 0); }
  }

  lemma PreviousIsOther(t: Store, d: Id, i: nat)
    requires t.Valid() && d in t.records && d in t.kids && 0 < i < |t.kids[d]|
    ensures t.kids[d][i - 1] != t.kids[d][i] && t.kids[d][i - 1] in t.records
  {
    hide Inv, Threaded, Loose, NodesOf;
    StoreFacts(t);
    ListDistinct(t.View().nodes, t.kids, d);
    ListedIsRecord(t, d, i - 1);
  }

  lemma NodesKeys(records: map<Id, Record>)
    ensures NodesOf(records).Keys == records.Keys
  {
  }

  lemma NodesAfterPush(records: map<Id, Record>, d: Id, n: Id, r: Record)
    requires d in records && n !in records
    ensures var r1 := records[n := r]; NodesOf(r1[d := r1[d].(children := n)]) == NodesOf(records)[n := NodeOf(r)]
  {
  }

  /** Only the node part of n may differ. */
  lemma NodesAfterChange(records: map<Id, Record>, records': map<Id, Record>, n: Id)
    requires records'.Keys == records.Keys && n in records
    requires forall m :: m in records && m != n ==> NodeOf(records'[m]) == NodeOf(records[m])
    ensures NodesOf(records') == NodesOf(records)[n := NodeOf(records'[n])]
  {
  }

  lemma ParentIsRecord(t: Store, n: Id)
    requires t.Valid() && n in t.records && t.records[n].parent != NULL
    ensures t.records[n].parent in t.records && t.View().nodes[n] == NodeOf(t.records[n])
    ensures t.records[n].parent in t.kids
  {
    hide Acyclic, Names, Mounts, Detached;
    assert t.View().nodes[n].parent in t.View().nodes;
  }

  lemma ParentListHas(t: Store, n: Id)
    requires t.Valid() && n in t.records && t.records[n].parent in t.records
    ensures n in t.kids[t.records[n].parent] && Distinct(t.kids[t.records[n].parent])
  {
    hide Acyclic, Names, Mounts, Detached;
    assert t.View().nodes[n].parent in t.View().nodes;
  }

  lemma ListStarts(t: Store, d: Id)
    requires t.Valid() && d in t.records
    ensures t.records[d].children == ItemAt(t.kids[d], 0)
  {
    hide Inv;
    assert Thread(t.records, t.records[d].children, t.kids[d]);
  }

  /** A walk that has not met n is not at the end of n's list. */
  lemma NotLast(l: seq<Id>, n: Id, i: nat)
    requires n in l && i <= |l| && n !in l[..i]
    ensures i < |l|
  {
    assert l[..|l|] == l;
  }

  /** After the cut every list is threaded, the shortened one without n. */
  lemma CutThreads(s: Fs, records: map<Id, Record>, records': map<Id, Record>, d: Id, n: Id, i: nat)
    requires Links(s.nodes, s.kids) && s.nodes.Keys == records.Keys && Threaded(records, s.kids) && d in records
    requires i < |s.kids[d]| && s.kids[d][i] == n && n !in s.kids[d][..i] && n in records && NULL !in records
    requires i > 0 ==> s.kids[d][i - 1] in records
    requires records' == CutRecords(records, s.kids[d], d, n, i)
    ensures Threaded(records', s.kids[d := Without(s.kids[d], n)])
  {
    hide Links, Without, Thread, ItemAt;
    var l := s.kids[d];
    var kids' := s.kids[d := Without(l, n)];
    WithoutIndex(l, n, i);
    assert records'.Keys == records.Keys;
    forall e | e in records' ensures Thread(records', records'[e].children, kids'[e]) {
      if e == d {
        CutOne(s, records, records', d, n, i);
      } else {
        CutOther(s, records, records', d, e, i);
      }
    }
  }

  lemma CutLoose(s: Fs, records: map<Id, Record>, d: Id, n: Id, i: nat)
    requires d in records && d in s.kids && i < |s.kids[d]| && s.kids[d][i] == n && n in records
    requires i > 0 ==> s.kids[d][i - 1] in records
    requires Links(s.nodes, s.kids) && s.nodes.Keys == records.Keys && Loose(records)
    requires forall m :: m in records ==> s.nodes[m] == NodeOf(records[m])
    ensures Loose(CutRecords(records, s.kids[d], d, n, i))
  {
    hide Links;
    assert NULL !in records by { LinksMean(s.nodes, s.kids); }
    if i > 0 {
      ParentIsDirectory(s.nodes, s.kids, d, s.kids[d][i - 1]);
    }
  }

  lemma LinksMean(nodes: map<Id, Node>, kids: map<Id, seq<Id>>)
    requires Links(nodes, kids)
    ensures NULL !in nodes && kids.Keys == nodes.Keys
  {
  }

  lemma CutOne(s: Fs, records: map<Id, Record>, records': map<Id, Record>, d: Id, n: Id, i: nat)
    requires d in records && d in s.kids && i < |s.kids[d]| && s.kids[d][i] == n && n in records
    requires i > 0 ==> s.kids[d][i - 1] in records
    requires records' == CutRecords(records, s.kids[d], d, n, i)
    requires Links(s.nodes, s.kids) && s.nodes.Keys == records.Keys && Threaded(records, s.kids)
    ensures Thread(records', records'[d].children, s.kids[d][..i] + s.kids[d][i + 1..])
  {
    hide ItemAt;
    var l := s.kids[d];
    assert Thread(records, records[d].children, l);
    assert Distinct(l);
    assert records[l[i]].next == ItemAt(l, i + 1);
    forall k | 0 <= k < |l| && k != i && k + 1 != i ensures records'[l[k]].next == records[l[k]].next {
      if i > 0 { assert l[k] != l[i - 1]; }
    }
    ThreadCut(records, records', records[d].children, records'[d].children, l, i);
  }

  lemma CutOther(s: Fs, records: map<Id, Record>, records': map<Id, Record>, d: Id, e: Id, i: nat)
    requires d in records && d in s.kids && i < |s.kids[d]| && s.kids[d][i] in records
    requires e in records && e in s.kids && e != d
    requires i > 0 ==> s.kids[d][i - 1] in records
    requires records' == CutRecords(records, s.kids[d], d, s.kids[d][i], i)
    requires Links(s.nodes, s.kids) && s.nodes.Keys == records.Keys && Threaded(records, s.kids)
    ensures Thread(records', records'[e].children, s.kids[e])
  {
    hide Links;
    assert Thread(records, records[e].children, s.kids[e]);
    if i > 0 {
      ListsDisjoint(s.nodes, s.kids, d, e, s.kids[d][i - 1]);
    }
    ThreadKept(records, records', records[e].children, s.kids[e]);
  }

  /** A node on no list may change its own links. */
  lemma OrphanThreads(records: map<Id, Record>, kids: map<Id, seq<Id>>, n: Id, r: Record)
    requires Threaded(records, kids) && n in records && r.children == records[n].children
    requires forall d :: d in records && d in kids ==> n !in kids[d]
    ensures Threaded(records[n := r], kids)
  {
    forall e | e in records ensures Thread(records[n := r], records[n := r][e].children, kids[e]) {
      assert Thread(records, records[e].children, kids[e]);
      ThreadKept(records, records[n := r], records[e].children, kids[e]);
    }
  }

  lemma AttachThreads(records: map<Id, Record>, records': map<Id, Record>, kids: map<Id, seq<Id>>, d: Id, n: Id)
    requires Threaded(records, kids) && d in records && n in records && n != d
    requires records'.Keys == records.Keys
    requires records'[n].next == records[d].children && records'[n].children == records[n].children
    requires records'[d] == records[d].(children := n)
    requires forall m :: m in records && m != d && m != n ==> records'[m] == records[m]
    requires forall e :: e in records && e in kids ==> n !in kids[e]
    ensures Threaded(records', kids[d := [n] + kids[d]])
  {
    hide Thread;
    forall e | e in records' ensures Thread(records', records'[e].children, kids[d := [n] + kids[d]][e]) {
      assert Thread(records, records[e].children, kids[e]);
      AttachKept(records, records', kids[e], records[e].children, d, n);
      if e == d {
        ThreadPush(records', records[d].children, kids[d], n);
      }
    }
  }

  lemma AttachKept(records: map<Id, Record>, records': map<Id, Record>, l: seq<Id>, first: Id, d: Id, n: Id)
    requires Thread(records, first, l) && n !in l && d in records && records'.Keys == records.Keys
    requires records'[d].next == records[d].next
    requires forall m :: m in records && m != d && m != n ==> records'[m] == records[m]
    ensures Thread(records', first, l)
  {
    ThreadKept(records, records', first, l);
  }

  /** Cut from its parent's list, n is on no list. */
  lemma NotListedTwice(s: Fs, n: Id)
    requires Inv(s) && n in s.nodes && s.nodes[n].parent in s.kids
    ensures var d := s.nodes[n].parent;
      forall e :: e in s.kids ==> n !in s.kids[d := Without(s.kids[d], n)][e]
  {
    hide Acyclic, Names, Mounts, Detached;
    var d := s.nodes[n].parent;
    WithoutContents(s.kids[d], n);
  }

  lemma ListedIsRecord(t: Store, d: Id, i: nat)
    requires t.Valid() && d in t.records && i < |t.kids[d]|
    ensures t.kids[d][i] in t.records && t.records[t.kids[d][i]].next == ItemAt(t.kids[d], i + 1)
    ensures t.kids[d][i] != NULL
  {
    hide Acyclic, Names, Mounts, Detached;
    assert Thread(t.records, t.records[d].children, t.kids[d]);
  }

  lemma NextIsSibling(t: Store, n: Id)
    requires t.Valid() && n in t.records
    ensures t.records[n].next == SiblingAfter(t.View(), n)
  {
    hide Inv, Threaded, Loose, NodesOf;
    StoreFacts(t);
    if t.records[n].parent == NULL {
      hide Thread, Links;
      assert t.records[n].next == NULL by { LooseNext(t.records, n); }
    } else {
      ParentIsRecord(t, n);
      ParentListHas(t, n);
      var l := t.kids[t.records[n].parent];
      var i :| 0 <= i < |l| && l[i] == n;
      ListedIsRecord(t, t.records[n].parent, i);
      AfterIndex(l, i);
    }
  }

  lemma LooseNext(records: map<Id, Record>, n: Id)
    requires Loose(records) && n in records && records[n].parent == NULL
    ensures records[n].next == NULL
  {
  }

  lemma ListEnds(t: Store, d: Id, i: nat)
    requires t.Valid() && d in t.records && i <= |t.kids[d]|
    ensures ItemAt(t.kids[d], i) == NULL <==> i == |t.kids[d]|
    ensures t.kids[d][|t.kids[d]|..] == []
  {
    hide Inv;
    if i < |t.kids[d]| {
      ListedIsRecord(t, d, i);
    }
  }

  lemma PushLoose(records: map<Id, Record>, records': map<Id, Record>, d: Id, n: Id)
    requires Loose(records) && d in records && n !in records && NULL !in records
    requires records'.Keys == records.Keys + {n} && records'[n].parent == d
    requires records'[d] == records[d].(children := n)
    requires forall m :: m in records && m != d ==> records'[m] == records[m]
    ensures Loose(records')
  {
  }

  lemma InsertIs(s: Fs, d: Id, name: string, kind: Kind)
    requires d in s.nodes && d in s.kids
    ensures Insert(s, d, name, kind) ==
            Fs(s.nodes[s.nextId := Node(kind, name, d, s.nodes[d].mount)],
               s.kids[s.nextId := []][d := [s.nextId] + s.kids[d]], s.root, s.mounts, s.nextId + 1)
  {
  }

  lemma PushThreads(records: map<Id, Record>, records': map<Id, Record>, kids: map<Id, seq<Id>>, kids': map<Id,
                    seq<Id>>,
                    d: Id, n: Id)
    requires Threaded(records, kids) && d in records && n !in records
    requires records'.Keys == records.Keys + {n} && kids' == kids[n := []][d := [n] + kids[d]]
    requires records'[n].next == records[d].children && records'[n].children == NULL
    requires records'[d] == records[d].(children := n)
    requires forall m :: m in records && m != d ==> records'[m] == records[m]
    ensures Threaded(records', kids')
  {
    forall e | e in records' ensures Thread(records', records'[e].children, kids'[e]) {
      if e == n {
      } else {
        assert Thread(records, records[e].children, kids[e]);
        ThreadKept(records, records', records[e].children, kids[e]);
        if e == d {
          ThreadPush(records', records[d].children, kids[d], n);
        }
      }
    }
  }
}
