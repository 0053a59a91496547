/**
 Directory handles with look-ahead: a handle keeps the next node it will
 return, and readdir moves it on before it returns, so that the caller may
 remove what it was just given.
 */
module Directories {
  import opened Common
  import Path
  import opened FsTree
  import opened FsInvariant

  const MAX_DIRS := 16

  datatype Handle = Handle(dir: Id, next: Id)

  type Table = seq<Option<Handle>>

  // ----- The calls, on a node that has been resolved --------------------------------

  function LowestFree(dirs: Table): (k: nat)
    ensures k <= |dirs| && (k < |dirs| ==> dirs[k].None?)
    ensures forall i :: 0 <= i < k ==> dirs[i].Some?
  {
    if dirs == [] || dirs[0].None? then 0 else 1 + LowestFree(dirs[1..])
  }

  /** api_opendir: the look-ahead is the first child at this moment */
  function Opendir(s: Fs, dirs: Table, n: Id): (Table, Result<nat>) {
    var k := LowestFree(dirs);
    if n !in s.nodes || n !in s.kids then (dirs, Err(EIO))
    else if !s.nodes[n].kind.Directory? then (dirs, Err(ENOTDIR))
    else if k == |dirs| then (dirs, Err(EMFILE))
    else (dirs[k := Some(Handle(n, ItemAt(s.kids[n], 0)))], Ok(k))
  }

  /** What one readdir with a name buffer of the given size yields: NULL for the end or for a name that does not fit */
  function Entry(s: Fs, h: Handle, size: nat): Id {
    if h.next == NULL || h.next !in s.nodes || |s.nodes[h.next].name| >= size then NULL else h.next
  }

  /** api_readdir: an entry that is returned moves the look-ahead, anything else leaves it. */
  function Advance(s: Fs, h: Handle, size: nat): Handle {
    if Entry(s, h, size) == NULL then h else h.(next := SiblingAfter(s, h.next))
  }

  class Task {
    var dirs: Table

    constructor ()
      ensures dirs == seq(MAX_DIRS, _ => None)
    {
      dirs := seq(MAX_DIRS, _ => None);
    }

    /** The search for a free slot and its use */
    method Open(s: Fs, n: Id) returns (r: Result<nat>)
      modifies this
      ensures (dirs, r) == Opendir(s, old(dirs), n)
    {
      if n !in s.nodes || n !in s.kids { return Err(EIO); }
      if !s.nodes[n].kind.Directory? { return Err(ENOTDIR); }
      var first := ItemAt(s.kids[n], 0);
      var descriptor := 0;
      while descriptor < |dirs|
        invariant 0 <= descriptor <= |dirs| && dirs == old(dirs)
        invariant forall i :: 0 <= i < descriptor ==> dirs[i].Some?
      {
        if dirs[descriptor].None? {
          FirstFree(dirs, descriptor);
          dirs := dirs[descriptor := Some(Handle(n, first))];
          return Ok(descriptor);
        }
        descriptor := descriptor + 1;
      }
      FirstFree(dirs, |dirs|);
      r := Err(EMFILE);
    }
  }

  lemma FirstFree(dirs: Table, k: nat)
    requires k <= |dirs| && (k < |dirs| ==> dirs[k].None?)
    requires forall i :: 0 <= i < k ==> dirs[i].Some?
    ensures LowestFree(dirs) == k
  {
  }

  // ----- What is ahead of a handle --------------------------------------------------

  ghost predicate Suffix(rest: seq<Id>, l: seq<Id>) {
    |rest| <= |l| && l[|l| - |rest|..] == rest
  }

  lemma {:induction false} WithoutSuffix(l: seq<Id>, n: Id, rest: seq<Id>)
    requires Suffix(rest, l) && n !in rest
    ensures Suffix(rest, Without(l, n))
  {
    if l != [] {
      if |rest| == |l| {
        assert rest == l;
        assert l[0] in rest;
        assert Suffix(rest[1..], l[1..]);
        WithoutSuffix(l[1..], n, rest[1..]);
        assert Without(l[1..], n) == rest[1..] by { WithoutAbsent(l[1..], n); }
      } else {
        assert l[1..][|l| - 1 - |rest|..] == rest;
        WithoutSuffix(l[1..], n, rest);
        if l[0] != n {
          PushSuffix(rest, Without(l[1..], n), l[0]);
        }
      }
    }
  }

  lemma {:induction false} WithoutAbsent(l: seq<Id>, n: Id)
    requires n !in l
    ensures Without(l, n) == l
  {
    if l != [] {
      WithoutAbsent(l[1..], n);
    }
  }

  lemma PushSuffix(rest: seq<Id>, l: seq<Id>, n: Id)
    requires Suffix(rest, l)
    ensures Suffix(rest, [n] + l)
  {
    assert ([n] + l)[|l| + 1 - |rest|..] == l[|l| - |rest|..];
  }

  /** The entries still to come are the end of the directory's list. */
  ghost predicate Ahead(s: Fs, d: Id, rest: seq<Id>) {
    d in s.kids && Suffix(rest, s.kids[d])
  }

  /** The sibling behind the first entry still to come is the next of them. */
  lemma AfterAhead(s: Fs, d: Id, rest: seq<Id>)
    requires Inv(s) && Ahead(s, d, rest) && rest != []
    ensures rest[0] in s.nodes && rest[0] != NULL && SiblingAfter(s, rest[0]) == ItemAt(rest, 1)
    ensures Ahead(s, d, rest[1..])
  {
    hide Acyclic, Names, Mounts, Detached;
    var l := s.kids[d];
    var i := |l| - |rest|;
    assert l[i] == rest[0];
    assert Distinct(l);
    AfterIndex(l, i);
    assert l[i + 1..] == rest[1..];
    if |rest| > 1 {
      assert rest[1] == l[i..][1];
    }
  }
}
