/**
 The file system as a value: nodes, each directory's list of children in list
 order, the mount table, and the operations of the RAM file system and the VFS
 on them. An operation that reports an error returns the state it then has.
 */
module FsTree {
  import opened Common
  import Path

  type Id = nat
  const NULL: Id := 0

  datatype Kind = Regular | Directory | Executable

  /** The mount of a node is named by its root node. */
  datatype Node = Node(kind: Kind, name: string, parent: Id, mount: Id)

  datatype Mount = Mount(point: Id, root: Id)

  datatype Fs = Fs(
    nodes: map<Id, Node>,
    kids: map<Id, seq<Id>>,
    root: Id,
    mounts: seq<Mount>,
    nextId: Id)

  datatype Error =
    | EPERM | ENOENT | EIO | EBADF | EEXIST | EXDEV | ENOTDIR | EISDIR
    | EINVAL | ENOMEM | EMFILE | ENOSPC | ENAMETOOLONG | ENOTEMPTY

  datatype Result<+T> = Ok(value: T) | Err(error: Error)

  const MAX_MOUNTS := 4
  const MAX_HOPS := Path.PATH_MAX / 2

  // ----- The tree ---------------------------------------------------------------

  /** p climbs from its first node along parent links to a node without parent. */
  ghost predicate Climb(nodes: map<Id, Node>, p: seq<Id>) {
    && p != []
    && (forall i :: 0 <= i < |p| ==> p[i] in nodes)
    && (forall i :: 0 <= i < |p| - 1 ==> nodes[p[i]].parent == p[i + 1])
    && nodes[p[|p| - 1]].parent == NULL
  }

  /** Following parents from n ends: n is on no cycle. */
  ghost predicate Grounded(nodes: map<Id, Node>, n: Id) {
    exists p :: Climb(nodes, p) && p[0] == n
  }

  ghost predicate Acyclic(nodes: map<Id, Node>) {
    forall n :: n in nodes ==> Grounded(nodes, n)
  }

  ghost predicate Distinct(l: seq<Id>) {
    forall i, j :: 0 <= i < j < |l| ==> l[i] != l[j]
  }

  /** Child lists and parent links agree, and only directories have children. */
  ghost predicate Links(nodes: map<Id, Node>, kids: map<Id, seq<Id>>) {
    && kids.Keys == nodes.Keys && NULL !in nodes
    && (forall d :: d in nodes ==> Distinct(kids[d]))
    && (forall d, c :: d in nodes && c in kids[d] ==>
          c in nodes && nodes[c].parent == d && nodes[c].mount == nodes[d].mount && nodes[d].kind.Directory?)
    && (forall c :: c in nodes && nodes[c].parent != NULL ==>
          nodes[c].parent in nodes && c in kids[nodes[c].parent])
  }

  /** Children of one directory with one name */
  predicate Namesakes(a: Node, b: Node) {
    a.parent == b.parent != NULL && a.name == b.name
  }

  ghost predicate Names(nodes: map<Id, Node>) {
    && (forall c :: c in nodes && nodes[c].parent != NULL ==> Path.Name(nodes[c].name))
    && (forall b, c :: b in nodes && c in nodes && Namesakes(nodes[b], nodes[c]) ==> b == c)
  }

  ghost predicate IsRoot(s: Fs, n: Id) {
    n == s.root || exists i :: 0 <= i < |s.mounts| && s.mounts[i].root == n
  }

  ghost predicate MountOk(nodes: map<Id, Node>, root: Id, m: Mount) {
    && m.point in nodes && nodes[m.point].kind.Directory? && nodes[m.point].parent != NULL
    && m.root in nodes && nodes[m.root].kind.Directory? && nodes[m.root].parent == NULL && m.root != root
    && nodes[m.root].mount == m.root
  }

  ghost predicate Mounts(nodes: map<Id, Node>, root: Id, mounts: seq<Mount>) {
    && root in nodes && nodes[root].kind.Directory? && nodes[root].parent == NULL && nodes[root].mount == root
    && |mounts| <= MAX_MOUNTS
    && (forall i :: 0 <= i < |mounts| ==> MountOk(nodes, root, mounts[i]))
    && (forall i, j :: 0 <= i < j < |mounts| ==> mounts[i].point != mounts[j].point && mounts[i].root != mounts[j].root)
  }

  /** A node that is neither linked nor the root of a file system is empty: what was removed took nothing with it. */
  ghost predicate Detached(s: Fs) {
    forall n :: n in s.nodes && n in s.kids && s.nodes[n].parent == NULL && s.nodes[n].mount != n ==> s.kids[n] == []
  }

  ghost predicate Inv(s: Fs) {
    && Links(s.nodes, s.kids)
    && Names(s.nodes)
    && Acyclic(s.nodes)
    && Mounts(s.nodes, s.root, s.mounts)
    && Detached(s)
    && (forall n :: n in s.nodes ==> n < s.nextId)
  }

  // ----- Lookup --------------------------------------------------------------------

  /** find_child: the first child of that name */
  function FindChild(nodes: map<Id, Node>, l: seq<Id>, name: string): (r: Id)
    ensures r == NULL || r in l
    ensures r != NULL ==> r in nodes && nodes[r].name == name
  {
    if l == [] then NULL
    else if l[0] in nodes && l[0] != NULL && nodes[l[0]].name == name then l[0]
    else FindChild(nodes, l[1..], name)
  }

  function Lookup(s: Fs, d: Id, name: string): Result<Id> {
    if d !in s.nodes || d !in s.kids then Err(EIO)
    else if !s.nodes[d].kind.Directory? then Err(ENOTDIR)
    else
      var c := FindChild(s.nodes, s.kids[d], name);
      if c == NULL then Err(ENOENT) else Ok(c)
  }

  function MountAt(mounts: seq<Mount>, n: Id): (i: nat)
    ensures i <= |mounts| && (i < |mounts| ==> mounts[i].point == n)
    ensures forall k :: 0 <= k < i ==> mounts[k].point != n
  {
    if mounts == [] || mounts[0].point == n then 0 else 1 + MountAt(mounts[1..], n)
  }

  function MountOf(mounts: seq<Mount>, n: Id): (i: nat)
    ensures i <= |mounts| && (i < |mounts| ==> mounts[i].root == n)
    ensures forall k :: 0 <= k < i ==> mounts[k].root != n
  {
    if mounts == [] || mounts[0].root == n then 0 else 1 + MountOf(mounts[1..], n)
  }

  /** Crossing a mount point downwards */
  function Down(s: Fs, n: Id): Id {
    if MountAt(s.mounts, n) < |s.mounts| then s.mounts[MountAt(s.mounts, n)].root else n
  }

  /** Crossing a mounted root upwards */
  function Up(s: Fs, n: Id): Id {
    if MountOf(s.mounts, n) < |s.mounts| then s.mounts[MountOf(s.mounts, n)].point else n
  }

  /** resolve_normalized from n along the components cs */
  function Resolve(s: Fs, n: Id, cs: seq<string>): Result<Id>
    decreases |cs|
  {
    if cs == [] then Ok(n)
    else
      var r := Lookup(s, n, cs[0]);
      if r.Err? then r else Resolve(s, Down(s, r.value), cs[1..])
  }

  predicate Protected(s: Fs, n: Id) {
    MountAt(s.mounts, n) < |s.mounts| || MountOf(s.mounts, n) < |s.mounts|
  }

  function ItemAt(l: seq<Id>, i: nat): Id {
    if i < |l| then l[i] else NULL
  }

  /** The item behind the first n of a list */
  function After(l: seq<Id>, n: Id): Id {
    if l == [] then NULL else if l[0] == n then ItemAt(l, 1) else After(l[1..], n)
  }

  /** The sibling behind n; a node without parent has none */
  function SiblingAfter(s: Fs, n: Id): Id {
    if n !in s.nodes || s.nodes[n].parent !in s.kids then NULL else After(s.kids[s.nodes[n].parent], n)
  }

  // ----- Changes to the tree -----------------------------------------------------------

  function Without(l: seq<Id>, n: Id): seq<Id> {
    if l == [] then [] else if l[0] == n then l[1..] else [l[0]] + Without(l[1..], n)
  }

  /** node_create: the new node heads its parent's list */
  function Insert(s: Fs, d: Id, name: string, kind: Kind): Fs
    requires d in s.nodes && d in s.kids
  {
    var n := s.nextId;
    s.(nodes := s.nodes[n := Node(kind, name, d, s.nodes[d].mount)],
       kids := s.kids[n := []][d := [n] + s.kids[d]],
       nextId := n + 1)
  }

  function Create(s: Fs, d: Id, name: string, kind: Kind, memory: bool): (Fs, Result<Id>) {
    if d !in s.nodes || d !in s.kids then (s, Err(EIO))
    else if !s.nodes[d].kind.Directory? then (s, Err(ENOTDIR))
    else if name == "" || '/' in name then (s, Err(EINVAL))
    else if FindChild(s.nodes, s.kids[d], name) != NULL then (s, Err(EEXIST))
    else if !memory then (s, Err(ENOMEM))
    else (Insert(s, d, name, kind), Ok(s.nextId))
  }

  /** Taking n out of its parent's list */
  function Detach(s: Fs, n: Id): Fs
    requires n in s.nodes && s.nodes[n].parent in s.kids
  {
    var d := s.nodes[n].parent;
    s.(nodes := s.nodes[n := s.nodes[n].(parent := NULL)], kids := s.kids[d := Without(s.kids[d], n)])
  }

  /** The common tail of ramfs_unlink and ramfs_rmdir */
  function DetachOrFail(s: Fs, n: Id): (Fs, Result<()>)
    requires n in s.nodes
  {
    if s.nodes[n].parent == NULL then (s, Err(EPERM))
    else if s.nodes[n].parent !in s.kids || n !in s.kids[s.nodes[n].parent] then (s, Err(EIO))
    else (Detach(s, n), Ok(()))
  }

  function Unlink(s: Fs, n: Id): (Fs, Result<()>) {
    if n !in s.nodes || n !in s.kids then (s, Err(EIO))
    else if s.nodes[n].kind.Directory? then (s, Err(if s.kids[n] == [] then EISDIR else ENOTEMPTY))
    else DetachOrFail(s, n)
  }

  function Rmdir(s: Fs, n: Id): (Fs, Result<()>) {
    if n !in s.nodes || n !in s.kids then (s, Err(EIO))
    else if !s.nodes[n].kind.Directory? then (s, Err(ENOTDIR))
    else if s.kids[n] != [] then (s, Err(ENOTEMPTY))
    else DetachOrFail(s, n)
  }

  /** The relinking of ramfs_rename */
  function Move(s: Fs, n: Id, d: Id, name: string): Fs
    requires n in s.nodes && s.nodes[n].parent in s.kids && d in s.kids
  {
    var kids := s.kids[s.nodes[n].parent := Without(s.kids[s.nodes[n].parent], n)];
    s.(nodes := s.nodes[n := s.nodes[n].(parent := d, name := name)],
       kids := kids[d := [n] + kids[d]])
  }

  function Rename(s: Fs, n: Id, d: Id, name: string): (Fs, Result<()>) {
    if n !in s.nodes || d !in s.kids then (s, Err(EIO))
    else if s.nodes[n].parent == NULL then (s, Err(EPERM))
    else if s.nodes[n].parent !in s.kids || n !in s.kids[s.nodes[n].parent] then (s, Err(EIO))
    else (Move(s, n, d, name), Ok(()))
  }

  // ----- Path operations -----------------------------------------------------------------

  function ResolveParent(s: Fs, cs: seq<string>): Result<Id> {
    if cs == [] then Err(EINVAL) else Resolve(s, s.root, cs[..|cs| - 1])
  }

  function CreatePath(s: Fs, cs: seq<string>, kind: Kind, memory: bool): (Fs, Result<Id>) {
    var r := Resolve(s, s.root, cs);
    if r.Ok? then (s, Err(EEXIST))
    else if r.error != ENOENT then (s, r)
    else
      var d := ResolveParent(s, cs);
      if d.Err? then (s, d) else Create(s, d.value, cs[|cs| - 1], kind, memory)
  }

  function UnlinkPath(s: Fs, cs: seq<string>): (Fs, Result<()>) {
    var r := Resolve(s, s.root, cs);
    if r.Err? then (s, Err(r.error))
    else if Protected(s, r.value) then (s, Err(EPERM))
    else Unlink(s, r.value)
  }

  function RmdirPath(s: Fs, cs: seq<string>): (Fs, Result<()>) {
    var r := Resolve(s, s.root, cs);
    if r.Err? then (s, Err(r.error))
    else if Protected(s, r.value) then (s, Err(EPERM))
    else Rmdir(s, r.value)
  }

  /** The ancestor walk of cb_vfs_rename_paths, from `walk` upwards */
  function AncestorCheck(s: Fs, walk: Id, n: Id, hops: nat): Result<()>
    decreases MAX_HOPS + 1 - hops
  {
    if walk == NULL then Ok(())
    else if walk == n then Err(EINVAL)
    else if hops + 1 > MAX_HOPS then Err(ENAMETOOLONG)
    else if walk !in s.nodes then Ok(())
    else AncestorCheck(s, s.nodes[walk].parent, n, hops + 1)
  }

  /** The checks of a rename, in their order; Ok carries the target that must be replaced, or NULL. */
  function RenameChecks(s: Fs, n: Id, d: Id, name: string, memory: bool): Result<Id> {
    if n !in s.nodes || d !in s.nodes then Err(EIO)
    else if s.nodes[n].mount != s.nodes[d].mount then Err(EXDEV)
    else if Protected(s, n) then Err(EPERM)
    else
      var a := AncestorCheck(s, d, n, 0);
      if a.Err? then Err(a.error)
      else
        var e := Lookup(s, d, name);
        if e.Err? && e.error != ENOENT then e
        else if e.Ok? && e.value == n then Ok(n)
        else if e.Ok? && s.nodes[n].kind.Directory? then
          Err(if e.value in s.nodes && s.nodes[e.value].kind.Directory? then ENOTEMPTY else ENOTDIR)
        else if e.Ok? && e.value in s.nodes && s.nodes[e.value].kind.Directory? then Err(EISDIR)
        else if !memory then Err(ENOMEM)
        else Ok(if e.Ok? then e.value else NULL)
  }

  /** cb_vfs_rename_paths: unlink the target, if there is one, then relink */
  function RenamePaths(s: Fs, from: seq<string>, to: seq<string>, memory: bool): (Fs, Result<()>) {
    var r := Resolve(s, s.root, from);
    var d := ResolveParent(s, to);
    if r.Err? then (s, Err(r.error))
    else if d.Err? then (s, Err(d.error))
    else
      var n := r.value;
      var name := to[|to| - 1];
      var e := RenameChecks(s, n, d.value, name, memory);
      if e.Err? then (s, Err(e.error))
      else if e.value == n then (s, Ok(()))
      else if e.value == NULL then Rename(s, n, d.value, name)
      else
        var (s1, u) := Unlink(s, e.value);
        if u.Err? then (s1, u) else Rename(s1, n, d.value, name)
  }

  /** cb_vfs_mount_path of a file system whose root is the node `root` */
  function MountPath(s: Fs, cs: seq<string>, root: Id): (Fs, Result<()>) {
    if root !in s.nodes || !s.nodes[root].kind.Directory? then (s, Err(ENOTDIR))
    else if s.nodes[root].parent != NULL || s.nodes[root].mount != root || root == s.root then (s, Err(EINVAL))
    else if MountOf(s.mounts, root) < |s.mounts| then (s, Err(EINVAL))
    else if |s.mounts| >= MAX_MOUNTS then (s, Err(ENOMEM))
    else
      var r := Resolve(s, s.root, cs);
      if r.Err? then (s, Err(r.error))
      else if r.value == s.root then (s, Err(EINVAL))
      else if r.value !in s.nodes || !s.nodes[r.value].kind.Directory? then (s, Err(ENOTDIR))
      else if Protected(s, r.value) then (s, Err(EEXIST))
      else (s.(mounts := s.mounts + [Mount(r.value, root)]), Ok(()))
  }

  /** A root node that holds nothing yet */
  function BareRoot(s: Fs): Fs {
    s.(nodes := s.nodes[s.nextId := Node(Directory, "", NULL, s.nextId)],
       kids := s.kids[s.nextId := []], nextId := s.nextId + 1)
  }

  /** Insert where the directory is known to exist */
  function Added(s: Fs, d: Id, name: string): Fs {
    if d in s.nodes && d in s.kids then Insert(s, d, name, Directory) else s
  }

  /** cb_ramfs_mount_create: a file system about to be mounted, with the directories it comes with */
  function NewRoot(s: Fs): Fs {
    var r := s.nextId;
    Added(Added(Added(Added(BareRoot(s), r, "bin"), r, "tmp"), r, "home"), r + 3, "user")
  }

  /** A path as a program gives it, with the directory it is relative to */
  datatype Name = Name(cwd: string, text: string)

  function Stack(p: Name): Path.Outcome {
    Path.Normalize(p.cwd, p.text, Path.PATH_MAX)
  }

  datatype Op =
    | CreateOp(path: Name, kind: Kind, memory: bool)
    | UnlinkOp(path: Name)
    | RmdirOp(path: Name)
    | RenameOp(from: Name, to: Name, memory: bool)
    | NewRootOp
    | MountOp(path: Name, root: Id)

  /** One call; a path that does not normalise changes nothing. */
  function Apply(s: Fs, op: Op): Fs {
    match op
    case CreateOp(path, kind, memory) =>
      if Stack(path).Ok? then CreatePath(s, Stack(path).stack, kind, memory).0 else s
    case UnlinkOp(path) => if Stack(path).Ok? then UnlinkPath(s, Stack(path).stack).0 else s
    case RmdirOp(path) => if Stack(path).Ok? then RmdirPath(s, Stack(path).stack).0 else s
    case RenameOp(from, to, memory) =>
      if Stack(from).Ok? && Stack(to).Ok? then RenamePaths(s, Stack(from).stack, Stack(to).stack, memory).0 else s
    case NewRootOp => NewRoot(s)
    case MountOp(path, root) => if Stack(path).Ok? then MountPath(s, Stack(path).stack, root).0 else s
  }

  function Run(s: Fs, ops: seq<Op>): Fs
    decreases |ops|
  {
    if ops == [] then s else Run(Apply(s, ops[0]), ops[1..])
  }

  /** An empty root directory */
  function Empty(): Fs {
    Fs(map[1 := Node(Directory, "", NULL, 1)], map[1 := []], 1, [], 2)
  }
}
