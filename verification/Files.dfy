/**
 File contents of the RAM file system: a buffer that is larger than the file
 and keeps old bytes behind its end, against the file as a plain sequence of
 bytes.
 */
module Files {
  import opened Common
  import opened FsTree

  const SIZE_MAX: int := 0xFFFF_FFFF_FFFF_FFFF
  const OFFSET_MAX: int := 0x7FFF_FFFF_FFFF_FFFF
  const OFFSET_MIN: int := -OFFSET_MAX - 1

  // ----- The file as a sequence ----------------------------------------------------------

  function Zeros(n: nat): (z: seq<Byte>)
    ensures |z| == n
  {
    seq(n, _ => 0 as Byte)
  }

  /** The file cut or extended to n bytes */
  function Resized(file: seq<Byte>, n: nat): (r: seq<Byte>)
    ensures |r| == n
  {
    if n <= |file| then file[..n] else file + Zeros(n - |file|)
  }

  /** The file after bytes are written at start */
  function Overwritten(file: seq<Byte>, start: nat, bytes: seq<Byte>): (r: seq<Byte>)
    ensures |r| == if start + |bytes| > |file| then start + |bytes| else |file|
  {
    var padded := if start <= |file| then file else Resized(file, start);
    padded[..start] + bytes + (if start + |bytes| < |padded| then padded[start + |bytes|..] else [])
  }

  /** What a read of at most count bytes at offset returns */
  function Slice(file: seq<Byte>, offset: nat, count: nat): seq<Byte> {
    if offset >= |file| then [] else file[offset..Min(offset + count, |file|)]
  }

  // ----- What every history leaves visible ---------------------------------------------------

  datatype Change = Write(start: nat, bytes: seq<Byte>) | Truncate(length: nat)

  function Applied(file: seq<Byte>, c: Change): seq<Byte> {
    match c
    case Write(start, bytes) => if bytes == [] then file else Overwritten(file, start, bytes)
    case Truncate(length) => Resized(file, length)
  }

  /** The file a history makes out of an empty one; the latest change is the last. */
  function Made(history: seq<Change>): seq<Byte> {
    if history == [] then [] else Applied(Made(history[..|history| - 1]), history[|history| - 1])
  }

  /**
   The byte a reader is owed at i: that of the latest write there, unless the file was cut below i since; zero if there
   is none
   */
  function Owed(history: seq<Change>, i: nat): Byte {
    if history == [] then 0 as Byte
    else
      match history[|history| - 1]
      case Write(start, bytes) =>
        if start <= i < start + |bytes| then bytes[i - start] else Owed(history[..|history| - 1], i)
      case Truncate(length) =>
        if length <= i then 0 as Byte else Owed(history[..|history| - 1], i)
  }

  /** Past the end of the file every byte is owed as zero: nothing stale is waiting there. */
  lemma {:induction false} OwedBeyond(history: seq<Change>, i: nat)
    requires i >= |Made(history)|
    ensures Owed(history, i) == 0
  {
    if history != [] {
      var before, c := history[..|history| - 1], history[|history| - 1];
      match c {
        case Write(start, bytes) => OwedBeyond(before, i);
        case Truncate(length) =>
      }
    }
  }

  /** Every byte of the file is the byte its history owes. */
  lemma {:induction false} NeverStale(history: seq<Change>, i: nat)
    requires i < |Made(history)|
    ensures Made(history)[i] == Owed(history, i)
  {
    hide Overwritten, Resized;
    var before, c := history[..|history| - 1], history[|history| - 1];
    var file := Made(before);
    if i < |file| { NeverStale(before, i); } else { OwedBeyond(before, i); }
    match c {
      case Write(start, bytes) => if bytes != [] { OverwrittenAt(file, start, bytes, i); }
      case Truncate(length) => ResizedAt(file, length, i);
    }
  }

  lemma ResizedAt(file: seq<Byte>, n: nat, i: nat)
    requires i < n
    ensures Resized(file, n)[i] == if i < |file| then file[i] else 0
  {
  }

  lemma OverwrittenAt(file: seq<Byte>, start: nat, bytes: seq<Byte>, i: nat)
    requires i < |Overwritten(file, start, bytes)|
    ensures Overwritten(file, start, bytes)[i] ==
            if start <= i < start + |bytes| then bytes[i - start] else if i < |file| then file[i] else 0
  {
  }

  /** A read returns the bytes from the offset on, as many as asked for or as there are. */
  lemma SliceAt(file: seq<Byte>, offset: nat, count: nat)
    ensures var r := Slice(file, offset, count);
      && (if offset >= |file| then r == [] else if offset + count <= |file| then |r| == count
          else |r| == |file| - offset)
      && forall i :: 0 <= i < |r| ==> r[i] == file[offset + i]
  {
  }

  /** A write reads back, and the bytes beside it are those that were there. */
  lemma WriteReadsBack(file: seq<Byte>, start: nat, bytes: seq<Byte>)
    ensures Slice(Overwritten(file, start, bytes), start, |bytes|) == bytes
    ensures Slice(Overwritten(file, start, bytes), 0, start) == Resized(file, start)
  {
    var r := Overwritten(file, start, bytes);
    assert Slice(r, start, |bytes|) == bytes;
    forall i | 0 <= i < start ensures i < |r| && r[i] == Resized(file, start)[i] {
      OverwrittenAt(file, start, bytes, i);
      ResizedAt(file, start, i);
    }
    assert r[0..start] == Resized(file, start);
  }

  // ----- The buffer -----------------------------------------------------------------------------

  /** The doubling loop: it ends, never passes SIZE_MAX on the way, and gives less than twice what is needed. */
  method Doubled(capacity0: nat, needed: nat) returns (capacity: nat)
    requires capacity0 < needed <= SIZE_MAX
    ensures needed <= capacity <= SIZE_MAX
    ensures capacity < 2 * needed || capacity == 64
  {
    capacity := if capacity0 == 0 then 64 else capacity0;
    while capacity < needed
      invariant 0 < capacity <= SIZE_MAX
      invariant capacity < 2 * needed || capacity == 64
      decreases needed - capacity
    {
      if capacity > SIZE_MAX / 2 {
        capacity := needed;
        break;
      }
      capacity := capacity * 2;
    }
  }

  class Node {
    const kind: Kind
    var data: array<Byte>
    var size: nat

    ghost predicate Valid()
      reads this
    {
      size <= data.Length <= SIZE_MAX
    }

    ghost function Contents(): seq<Byte>
      requires Valid()
      reads this, data
    {
      data[..size]
    }

    constructor (kind: Kind)
      ensures Valid() && fresh(data) && Contents() == [] && this.kind == kind
    {
      this.kind := kind;
      this.data := new Byte[0];
      this.size := 0;
    }

    /** cb_resize: the old buffer's bytes are kept, those behind it are arbitrary; the host may refuse. */
    method Resize(capacity: nat, granted: bool) returns (ok: bool)
      requires Valid() && data.Length < capacity <= SIZE_MAX
      modifies this`data
      ensures Valid() && ok == granted
      ensures if ok then fresh(data) && data.Length == capacity && data[..old(data.Length)] == old(data[..])
              else data == old(data)
    {
      if !granted { return false; }
      var from, grown := data, new Byte[capacity];
      var i := 0;
      while i < from.Length
        invariant 0 <= i <= from.Length < grown.Length
        invariant grown[..i] == from[..i]
        modifies grown
      {
        grown[i] := from[i];
        i := i + 1;
      }
      data := grown;
      ok := true;
    }

    /** memset of [from, to) to zero */
    method Clear(from: nat, to: nat)
      requires from <= to <= data.Length
      modifies data
      ensures data[..from] == old(data[..from]) && data[to..] == old(data[to..]) && data[from..to] == Zeros(to - from)
    {
      var i := from;
      while i < to
        invariant from <= i <= to
        invariant forall k :: 0 <= k < from || i <= k < data.Length ==> data[k] == old(data[k])
        invariant forall k :: from <= k < i ==> data[k] == 0
      {
        data[i] := 0;
        i := i + 1;
      }
    }

    /** memcpy of bytes to position start */
    method Copy(start: nat, bytes: seq<Byte>)
      requires start + |bytes| <= data.Length
      modifies data
      ensures data[..start] == old(data[..start]) && data[start..start + |bytes|] == bytes
      ensures data[start + |bytes|..] == old(data[start + |bytes|..])
    {
      var i := 0;
      while i < |bytes|
        invariant 0 <= i <= |bytes|
        invariant forall k :: 0 <= k < start || start + i <= k < data.Length ==> data[k] == old(data[k])
        invariant forall k :: 0 <= k < i ==> data[start + k] == bytes[k]
      {
        data[start + i] := bytes[i];
        i := i + 1;
      }
    }

    /** The buffer made large enough for needed bytes */
    method Reserve(needed: nat, granted: bool) returns (ok: bool)
      requires Valid() && needed <= SIZE_MAX
      modifies this`data
      ensures Valid() && ok == (granted || needed <= old(data.Length)) && Contents() == old(Contents())
      ensures ok ==> needed <= data.Length
      ensures data == old(data) || fresh(data)
    {
      if needed <= data.Length { return true; }
      var capacity := Doubled(data.Length, needed);
      ghost var was := data[..];
      ok := Resize(capacity, granted);
      if ok {
        assert data[..size] == data[..|was|][..size];
      }
    }

    /** ramfs_truncate */
    method Truncate(length: int, granted: bool) returns (r: Result<()>)
      requires Valid()
      modifies this, data
      ensures Valid() && (data == old(data) || fresh(data))
      ensures r == (if length < 0 || length > SIZE_MAX || kind.Executable? then Err(EINVAL)
                    else if kind.Directory? then Err(EISDIR)
                    else if length > old(data.Length) && !granted then Err(ENOMEM)
                    else Ok(()))
      ensures Contents() == if r.Ok? then Resized(old(Contents()), length) else old(Contents())
    {
      if length < 0 || length > SIZE_MAX || kind.Executable? { return Err(EINVAL); }
      if kind.Directory? { return Err(EISDIR); }
      var ok := Reserve(length, granted);
      if !ok { return Err(ENOMEM); }
      ghost var file := data[..size];
      if length > size {
        Clear(size, length);
        assert data[..length] == data[..size] + data[size..length];
      }
      size := length;
      assert data[..length] == Resized(file, length);
      r := Ok(());
    }

    /** The truncation of an open with O_TRUNC: only the size changes, the bytes stay in the buffer. */
    method Empty()
      requires Valid()
      modifies this`size
      ensures Valid() && Contents() == []
    {
      size := 0;
    }

    /** The body of node_write, once its checks have passed */
    method Store(start: nat, bytes: seq<Byte>, granted: bool) returns (ok: bool)
      requires Valid() && start + |bytes| <= SIZE_MAX
      modifies this, data
      ensures Valid() && (data == old(data) || fresh(data)) && ok == (granted || start + |bytes| <= old(data.Length))
      ensures Contents() == if ok then Overwritten(old(Contents()), start, bytes) else old(Contents())
    {
      var needed := start + |bytes|;
      ok := Reserve(needed, granted);
      if !ok { return; }
      ghost var file := data[..size];
      ghost var oldSize := size;
      if start > size {
        Clear(size, start);
      }
      ghost var padded := if start <= oldSize then file else Resized(file, start);
      assert data[..|padded|] == padded;
      Copy(start, bytes);
      if needed > size {
        size := needed;
      }
      assert size == |Overwritten(file, start, bytes)|;
      StoredIs(padded, start, bytes, data[..], size);
    }
  }

  datatype Whence = Set | Current | End | Other

  /** ramfs_open: O_TRUNC on a file opened for writing empties it, even if the open then finds no memory. */
  method Open(node: Node, readable: bool, writable: bool, append: bool, truncate: bool, granted: bool)
    returns (r: Result<OpenFile>)
    requires node.Valid()
    modifies node`size
    ensures node.Valid()
    ensures var refused := node.kind.Directory? || (node.kind.Executable? && truncate);
      && node.Contents() == (if !refused && truncate && writable then [] else old(node.Contents()))
      && (r.Err? <==> refused || !granted)
      && (r.Err? ==> r.error == if node.kind.Directory? then EISDIR else if refused then EINVAL else ENOMEM)
    ensures r.Ok? ==>
              && fresh(r.value) && r.value.Valid() && r.value.node == node
              && r.value.offset == (if append then node.size else 0)
              && r.value.readable == readable && r.value.writable == writable && r.value.append == append
  {
    if node.kind.Directory? { return Err(EISDIR); }
    if node.kind.Executable? && truncate { return Err(EINVAL); }
    if truncate && writable { node.Empty(); }
    if !granted { return Err(ENOMEM); }
    var file := new OpenFile(node, readable, writable, append);
    r := Ok(file);
  }

  /** An open file; offset is the file's own. */
  class OpenFile {
    const node: Node
    const readable: bool
    const writable: bool
    const append: bool
    var offset: int

    ghost predicate Valid()
      reads this, node
    {
      node.Valid() && offset >= 0
    }

    constructor (node: Node, readable: bool, writable: bool, append: bool)
      requires node.Valid()
      ensures Valid() && this.node == node && offset == if append then node.size else 0
      ensures this.readable == readable && this.writable == writable && this.append == append
    {
      this.node := node;
      this.readable := readable;
      this.writable := writable;
      this.append := append;
      this.offset := if append then node.size else 0;
    }

    /** node_read */
    method Read(count: nat) returns (r: Result<seq<Byte>>)
      requires Valid()
      modifies this`offset
      ensures Valid() && r == (if !readable then Err(EBADF)
                               else if old(offset) > SIZE_MAX then Err(EINVAL)
                               else if node.kind.Executable? then Ok([])
                               else Ok(Slice(node.Contents(), old(offset), count)))
      ensures offset == old(offset) + if r.Ok? then |r.value| else 0
    {
      if !readable { return Err(EBADF); }
      if offset < 0 || offset > SIZE_MAX { return Err(EINVAL); }
      if node.kind.Executable? { return Ok([]); }
      if offset >= node.size { return Ok([]); }
      var available := node.size - offset;
      var n := if count > available then available else count;
      var bytes := node.data[offset..offset + n];
      assert bytes == node.data[..node.size][offset..offset + n];
      offset := offset + n;
      r := Ok(bytes);
    }

    /**
     node_write: an append goes to the end of the file as it is now, and the offset moves there even if the write then
     fails. After a write the offset is within the buffer, so it passes OFFSET_MAX only with a buffer that does.
     */
    method Write(bytes: seq<Byte>, granted: bool) returns (r: Result<nat>)
      requires Valid()
      modifies this`offset, node, node.data
      ensures Valid() && (node.data == old(node.data) || fresh(node.data))
      ensures var start := if append then |old(node.Contents())| else old(offset);
        && r == (if !writable then Err(EBADF)
                 else if node.kind.Executable? then Err(EPERM)
                 else if bytes == [] then Ok(0)
                 else if start + |bytes| > SIZE_MAX then Err(ENOSPC)
                 else if start + |bytes| > old(node.data.Length) && !granted then Err(ENOMEM)
                 else Ok(|bytes|))
        && node.Contents() == (if r.Ok? && bytes != [] then Overwritten(old(node.Contents()), start, bytes)
                               else old(node.Contents()))
        && offset == (if !writable || node.kind.Executable? || bytes == [] then old(offset)
                      else if r.Ok? then start + |bytes| else start)
        && (r.Ok? && bytes != [] ==> offset <= node.size <= node.data.Length)
    {
      if !writable { return Err(EBADF); }
      if node.kind.Executable? { return Err(EPERM); }
      if bytes == [] { return Ok(0); }
      if append { offset := node.size; }
      if offset > SIZE_MAX || |bytes| > SIZE_MAX - offset { return Err(ENOSPC); }
      var ok := node.Store(offset, bytes, granted);
      if !ok { return Err(ENOMEM); }
      offset := offset + |bytes|;
      r := Ok(|bytes|);
    }

    /** node_lseek: the sum is checked before it is formed, and a negative one is refused. */
    method Seek(amount: int, whence: Whence) returns (r: Result<int>)
      requires Valid() && OFFSET_MIN <= amount <= OFFSET_MAX && node.size <= OFFSET_MAX && offset <= OFFSET_MAX
      modifies this`offset
      ensures Valid() && offset <= OFFSET_MAX
      ensures var base := match whence case Set => 0 case Current => old(offset) case End => node.size case Other => 0;
        r == if !whence.Other? && 0 <= base + amount <= OFFSET_MAX then Ok(base + amount) else Err(EINVAL)
      ensures offset == if r.Ok? then r.value else old(offset)
    {
      var base: int;
      match whence {
        case Set => base := 0;
        case Current => base := offset;
        case End => base := node.size;
        case Other => return Err(EINVAL);
      }
      if (amount > 0 && base > OFFSET_MAX - amount) || (amount < 0 && base < OFFSET_MIN - amount) {
        return Err(EINVAL);
      }
      var result := base + amount;
      if result < 0 { return Err(EINVAL); }
      offset := result;
      r := Ok(result);
    }
  }

  /** The parts of the buffer put together */
  lemma StoredIs(padded: seq<Byte>, start: nat, bytes: seq<Byte>, data: seq<Byte>, size: nat)
    requires start <= |padded| && start + |bytes| <= |data| && |padded| <= |data|
    requires data[..start] == padded[..start] && data[start..start + |bytes|] == bytes
    requires start + |bytes| < |padded| ==> data[start + |bytes|..|padded|] == padded[start + |bytes|..]
    requires size == if start + |bytes| > |padded| then start + |bytes| else |padded|
    ensures data[..size] ==
            padded[..start] + bytes + (if start + |bytes| < |padded| then padded[start + |bytes|..] else [])
  {
    if start + |bytes| < |padded| {
      assert data[..size] == data[..start] + data[start..start + |bytes|] + data[start + |bytes|..|padded|];
    } else {
      assert data[..size] == data[..start] + data[start..start + |bytes|];
    }
  }
}
