/**
 The path calls of the VFS carried out on the stored nodes: resolution with its
 mount loops, the checks in their order, then the node operations of Ramfs.
 Nothing is required but a valid store and normalised paths.
 */
module VfsStore {
  import opened Common
  import Path
  import opened FsTree
  import opened FsInvariant
  import opened Ramfs

  lemma StoreKeys(t: Store)
    requires t.Valid()
    ensures Inv(t.View()) && t.View().nodes.Keys == t.records.Keys == t.kids.Keys && NULL !in t.records
    ensures forall n :: n in t.records ==> t.View().nodes[n] == NodeOf(t.records[n])
  {
    hide Inv;
    StoreFacts(t);
  }

  /** ramfs_lookup */
  method LookupIn(store: Store, d: Id, name: string) returns (r: Result<Id>)
    requires store.Valid()
    ensures r == Lookup(store.View(), d, name)
  {
    hide Inv, FindChild, NodesOf, Threaded, Loose;
    StoreKeys(store);
    if d !in store.records { return Err(EIO); }
    if !store.records[d].kind.Directory? { return Err(ENOTDIR); }
    var c := store.FindByName(d, name);
    r := if c == NULL then Err(ENOENT) else Ok(c);
  }

  /** The loop that crosses a mount point downwards */
  method CrossDown(store: Store, n: Id) returns (m: Id)
    requires store.Valid()
    ensures m == Down(store.View(), n)
  {
    hide Inv, Threaded, Loose, NodesOf;
    var i := 0;
    while i < |store.mounts|
      invariant 0 <= i <= |store.mounts|
      invariant forall k :: 0 <= k < i ==> store.mounts[k].point != n
    {
      if store.mounts[i].point == n { return store.mounts[i].root; }
      i := i + 1;
    }
    m := n;
  }

  /** The loop that refuses mount points and mounted roots */
  method IsProtected(store: Store, n: Id) returns (b: bool)
    requires store.Valid()
    ensures b == Protected(store.View(), n)
  {
    hide Inv, Threaded, Loose, NodesOf;
    var i := 0;
    while i < |store.mounts|
      invariant 0 <= i <= |store.mounts|
      invariant forall k :: 0 <= k < i ==> store.mounts[k].point != n && store.mounts[k].root != n
    {
      if store.mounts[i].point == n || store.mounts[i].root == n { return true; }
      i := i + 1;
    }
    b := false;
  }

  /** resolve_normalized, over the components of the path */
  method ResolvePath(store: Store, cs: seq<string>) returns (r: Result<Id>)
    requires store.Valid()
    ensures r == Resolve(store.View(), store.root, cs)
    ensures r.Ok? ==> Live(store.View(), r.value) && r.value in store.records && r.value in store.kids
  {
    hide Inv, Lookup, Down, Threaded, Loose, NodesOf, Live;
    StoreKeys(store);
    ghost var s := store.View();
    RootLive(s);
    ResolveLive(s, s.root, cs);
    var node, i := store.root, 0;
    assert cs[0..] == cs;
    while i < |cs|
      invariant 0 <= i <= |cs| && Resolve(s, node, cs[i..]) == Resolve(s, s.root, cs)
    {
      var c := LookupIn(store, node, cs[i]);
      if c.Err? { return c; }
      assert cs[i..][1..] == cs[i + 1..];
      node := CrossDown(store, c.value);
      i := i + 1;
    }
    LiveIn(s, node);
    r := Ok(node);
  }

  /** cb_vfs_unlink_path */
  method UnlinkAt(store: Store, cs: seq<string>) returns (r: Result<()>)
    requires store.Valid()
    modifies store
    ensures store.Valid() && (store.View(), r) == UnlinkPath(old(store.View()), cs)
  {
    hide Inv, Resolve, Protected, Unlink, Threaded, Loose, NodesOf, Live;
    var n := ResolvePath(store, cs);
    if n.Err? { return Err(n.error); }
    var refused := IsProtected(store, n.value);
    if refused { return Err(EPERM); }
    r := store.UnlinkNode(n.value);
  }

  /** cb_vfs_rmdir_path */
  method RmdirAt(store: Store, cs: seq<string>) returns (r: Result<()>)
    requires store.Valid()
    modifies store
    ensures store.Valid() && (store.View(), r) == RmdirPath(old(store.View()), cs)
  {
    hide Inv, Resolve, Protected, Rmdir, Threaded, Loose, NodesOf, Live;
    var n := ResolvePath(store, cs);
    if n.Err? { return Err(n.error); }
    var refused := IsProtected(store, n.value);
    if refused { return Err(EPERM); }
    r := store.RemoveDirectory(n.value);
  }

  /** resolve_parent */
  method ResolveDirectory(store: Store, cs: seq<string>) returns (r: Result<Id>)
    requires store.Valid()
    ensures r == ResolveParent(store.View(), cs)
    ensures r.Ok? ==> cs != [] && Live(store.View(), r.value) && r.value in store.records && r.value in store.kids
  {
    hide Inv, Resolve, Threaded, Loose, NodesOf, Live;
    if cs == [] { return Err(EINVAL); }
    r := ResolvePath(store, cs[..|cs| - 1]);
  }

  /** cb_vfs_mkdir_path, and the creation of an open with O_CREAT */
  method CreateAt(store: Store, cs: seq<string>, kind: Kind, memory: bool) returns (r: Result<Id>)
    requires store.Valid() && Path.Canonical(cs)
    modifies store
    ensures store.Valid() && (store.View(), r) == CreatePath(old(store.View()), cs, kind, memory)
  {
    hide Inv, Resolve, Create, Threaded, Loose, NodesOf, Live, Rooted;
    StoreKeys(store);
    var n := ResolvePath(store, cs);
    if n.Ok? { return Err(EEXIST); }
    if n.error != ENOENT { return n; }
    var d := ResolveDirectory(store, cs);
    if d.Err? { return d; }
    assert Path.Name(cs[|cs| - 1]);
    LiveIsRooted(store.View(), d.value);
    r := store.CreateIn(d.value, cs[|cs| - 1], kind, memory);
  }

  /** The ancestor walk of cb_vfs_rename_paths */
  method AncestorWalk(store: Store, d: Id, n: Id) returns (r: Result<()>)
    requires store.Valid() && d in store.records
    ensures r == AncestorCheck(store.View(), d, n, 0)
  {
    hide Inv, Threaded, Loose, NodesOf;
    StoreKeys(store);
    ghost var s := store.View();
    InvHasLinks(s);
    var walk, hops := d, 0;
    while walk != NULL
      invariant 0 <= hops <= MAX_HOPS && (walk == NULL || walk in store.records)
      invariant AncestorCheck(s, walk, n, hops) == AncestorCheck(s, d, n, 0)
      decreases MAX_HOPS - hops
    {
      hide Links;
      if walk == n { return Err(EINVAL); }
      hops := hops + 1;
      if hops > MAX_HOPS { return Err(ENAMETOOLONG); }
      LinkedInList(s.nodes, s.kids, walk);
      walk := store.records[walk].parent;
    }
    r := Ok(());
  }

  /** The checks of a rename, in their order; Ok carries the target to be replaced, or NULL, or the node itself. */
  method CheckRename(store: Store, n: Id, d: Id, name: string, memory: bool) returns (r: Result<Id>)
    requires store.Valid() && n in store.records && d in store.records
    ensures r == RenameChecks(store.View(), n, d, name, memory)
  {
    hide Inv, Threaded, Loose, NodesOf, Protected, AncestorCheck, Lookup;
    StoreKeys(store);
    if store.records[n].mount != store.records[d].mount { return Err(EXDEV); }
    var refused := IsProtected(store, n);
    if refused { return Err(EPERM); }
    var a := AncestorWalk(store, d, n);
    if a.Err? { return Err(a.error); }
    var e := LookupIn(store, d, name);
    if e.Err? && e.error != ENOENT { return e; }
    if e.Ok? {
      FoundIsChild(store.View(), d, name);
      if e.value == n { return Ok(n); }
      if store.records[n].kind.Directory? {
        return Err(if store.records[e.value].kind.Directory? then ENOTEMPTY else ENOTDIR);
      }
      if store.records[e.value].kind.Directory? { return Err(EISDIR); }
    }
    if !memory { return Err(ENOMEM); }
    r := Ok(if e.Ok? then e.value else NULL);
  }

  /** The relinking of a checked rename to a free name */
  method RelinkChecked(store: Store, n: Id, d: Id, name: string) returns (r: Result<()>)
    requires store.Valid() && n in store.records && d in store.records && d in store.kids && Path.Name(name)
    requires Live(store.View(), n) && Live(store.View(), d) && store.records[d].kind.Directory?
    requires store.records[n].mount == store.records[d].mount && !Protected(store.View(), n)
    requires AncestorCheck(store.View(), d, n, 0).Ok? && FindChild(store.View().nodes, store.kids[d], name) == NULL
    modifies store
    ensures store.Valid() && (store.View(), r) == Rename(old(store.View()), n, d, name)
  {
    hide Inv, Threaded, Loose, NodesOf, Protected, AncestorCheck, FindChild, Live, Rooted, Path.Name, Rename, Climb;
    StoreKeys(store);
    ghost var s := store.View();
    InvHasLinks(s);
    LiveIsRooted(s, d);
    ghost var up := AncestorClear(s, d, n, 0);
    r := store.RenameNode(n, d, name, up);
  }

  /** cb_vfs_rename_paths */
  method RenameAt(store: Store, from: seq<string>, to: seq<string>, memory: bool) returns (r: Result<()>)
    requires store.Valid() && Path.Canonical(to)
    modifies store
    ensures store.Valid() && (store.View(), r) == RenamePaths(old(store.View()), from, to, memory)
  {
    hide Inv, Threaded, Loose, NodesOf, Protected, AncestorCheck, FindChild, Live, Path.Name, Rename, Unlink, Resolve,
         RenameChecks, Lookup;
    StoreKeys(store);
    ghost var s := store.View();
    var n := ResolvePath(store, from);
    if n.Err? { return Err(n.error); }
    var d := ResolveDirectory(store, to);
    if d.Err? { return Err(d.error); }
    var name := to[|to| - 1];
    assert Path.Name(name);
    var e := CheckRename(store, n.value, d.value, name, memory);
    if e.Err? { return Err(e.error); }
    if e.value == n.value { return Ok(()); }
    ChecksMean(s, n.value, d.value, name, memory, e.value);
    if e.value != NULL {
      TargetReady(s, n.value, d.value, name, e.value);
      var u := store.UnlinkNode(e.value);
      StoreKeys(store);
    }
    r := RelinkChecked(store, n.value, d.value, name);
  }

  /** Once a rename's target is unlinked, its name is free and the checks still hold. */
  lemma TargetReady(s: Fs, n: Id, d: Id, name: string, e: Id)
    requires Inv(s) && Live(s, n) && Live(s, d) && s.nodes[d].kind.Directory? && !Protected(s, n)
    requires Lookup(s, d, name) == Ok(e) && e != n && e in s.nodes && !s.nodes[e].kind.Directory?
    requires AncestorCheck(s, d, n, 0).Ok?
    ensures !Protected(s, e) && Unlink(s, e).1.Ok?
    ensures var s1 := Unlink(s, e).0;
      && n in s1.nodes && d in s1.nodes && s1.nodes[d].kind == s.nodes[d].kind && d in s1.kids
      && s1.nodes[n].mount == s.nodes[n].mount && s1.nodes[d].mount == s.nodes[d].mount
      && Live(s1, n) && Live(s1, d) && !Protected(s1, n)
      && FindChild(s1.nodes, s1.kids[d], name) == NULL && AncestorCheck(s1, d, n, 0).Ok?
  {
    hide Inv, Protected, Lookup, FindChild, AncestorCheck, Unlink, Live;
    FilesAreUnprotected(s, e);
    ReplaceReady(s, n, d, name, e);
    FoundIsChild(s, d, name);
    ParentsAreNodes(s, e);
    UnlinkKeeps(s, e);
    assert n in s.nodes && d in s.nodes by { LiveIn(s, n); LiveIn(s, d); }
    IdsPositive(s);
  }
}
