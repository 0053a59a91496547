/**
 The word-at-a-time memmove of bcopy.c against copying from a snapshot, for
 every length, alignment and overlap. Memory is one array; addresses index it.
 */
module Memmove {
  import opened Common

  /** m with the n bytes at src, as they were, written at dst (section 7.21.2.2 of C99). */
  function Moved(m: seq<Byte>, dst: nat, src: nat, n: nat): (m': seq<Byte>)
    requires dst + n <= |m| && src + n <= |m|
    ensures |m'| == |m|
  {
    m[..dst] + m[src..src + n] + m[dst + n..]
  }

  lemma MovedAt(m: seq<Byte>, dst: nat, src: nat, n: nat, i: nat)
    requires dst + n <= |m| && src + n <= |m| && i < |m|
    ensures Moved(m, dst, src, n)[i] == if dst <= i < dst + n then m[src + i - dst] else m[i]
  {
  }

  /** Front first: later reads see nothing of it when the target lies below the source. */
  lemma ForwardCompose(m: seq<Byte>, dst: nat, src: nat, t: nat, n: nat)
    requires dst <= src && t <= n && dst + n <= |m| && src + n <= |m|
    ensures Moved(Moved(m, dst, src, t), dst + t, src + t, n - t) == Moved(m, dst, src, n)
  {
    hide Moved;
    var a := Moved(m, dst, src, t);
    forall i | 0 <= i < |m| ensures Moved(a, dst + t, src + t, n - t)[i] == Moved(m, dst, src, n)[i] {
      MovedAt(a, dst + t, src + t, n - t, i);
      MovedAt(m, dst, src, n, i);
      MovedAt(m, dst, src, t, i);
      if dst + t <= i < dst + n { MovedAt(m, dst, src, t, src + i - dst); }
    }
  }

  /** Back first, when the target lies above the source. */
  lemma BackwardCompose(m: seq<Byte>, dst: nat, src: nat, t: nat, n: nat)
    requires src <= dst && t <= n && dst + n <= |m| && src + n <= |m|
    ensures Moved(Moved(m, dst + n - t, src + n - t, t), dst, src, n - t) == Moved(m, dst, src, n)
  {
    hide Moved;
    var a := Moved(m, dst + n - t, src + n - t, t);
    forall i | 0 <= i < |m| ensures Moved(a, dst, src, n - t)[i] == Moved(m, dst, src, n)[i] {
      MovedAt(a, dst, src, n - t, i);
      MovedAt(m, dst, src, n, i);
      MovedAt(m, dst + n - t, src + n - t, t, i);
      if dst <= i < dst + n - t { MovedAt(m, dst + n - t, src + n - t, t, src + i - dst); }
    }
  }

  // ----- The copying loops --------------------------------------------------------

  method MoveByte(mem: array<Byte>, dst: nat, src: nat)
    requires dst < mem.Length && src < mem.Length
    modifies mem
    ensures mem[..] == Moved(old(mem[..]), dst, src, 1)
  {
    ghost var was := mem[..];
    mem[dst] := mem[src];
    forall i | 0 <= i < mem.Length ensures mem[..][i] == Moved(was, dst, src, 1)[i] {
      MovedAt(was, dst, src, 1, i);
    }
  }

  /** t times *dst++ = *src++ */
  method BytesUp(mem: array<Byte>, dst: nat, src: nat, t: nat)
    requires dst <= src && src + t <= mem.Length
    modifies mem
    ensures mem[..] == Moved(old(mem[..]), dst, src, t)
  {
    hide Moved;
    var i := 0;
    MovedNothing(mem[..], dst, src);
    while i < t
      invariant 0 <= i <= t
      invariant mem[..] == Moved(old(mem[..]), dst, src, i)
    {
      MoveByte(mem, dst + i, src + i);
      ForwardCompose(old(mem[..]), dst, src, i, i + 1);
      i := i + 1;
    }
  }

  /** t times *--dst = *--src, from the ends dst and src */
  method BytesDown(mem: array<Byte>, dst: nat, src: nat, t: nat)
    requires t <= src <= dst <= mem.Length
    modifies mem
    ensures mem[..] == Moved(old(mem[..]), dst - t, src - t, t)
  {
    hide Moved;
    var i := 0;
    MovedNothing(mem[..], dst, src);
    while i < t
      invariant 0 <= i <= t
      invariant mem[..] == Moved(old(mem[..]), dst - i, src - i, i)
    {
      i := i + 1;
      MoveByte(mem, dst - i, src - i);
      BackwardCompose(old(mem[..]), dst - i, src - i, i - 1, i);
    }
  }

  // ----- Words -------------------------------------------------------------------

  /** The size of a long: 4 or 8 bytes */
  predicate WordSize(w: nat) {
    w == 4 || w == 8
  }

  /** The remainder by the word size */
  function Rem(x: nat, w: nat): (r: nat)
    requires WordSize(w)
    ensures r < w && r <= x
  {
    if w == 4 then x % 4 else x % 8
  }

  /** t words in bytes */
  function Span(t: nat, w: nat): nat {
    if w == 4 then t * 4 else t * 8
  }

  /** x / wsize, in words */
  function Words(x: nat, w: nat): (t: nat)
    requires WordSize(w)
    ensures Span(t, w) + Rem(x, w) == x
  {
    if w == 4 then x / 4 else x / 8
  }

  function BitOr(a: nat, b: nat): nat {
    if a == 0 && b == 0 then 0 else 2 * BitOr(a / 2, b / 2) + if a % 2 == 1 || b % 2 == 1 then 1 else 0
  }

  function BitXor(a: nat, b: nat): nat {
    if a == 0 && b == 0 then 0 else 2 * BitXor(a / 2, b / 2) + if a % 2 != b % 2 then 1 else 0
  }

  function BitAnd(a: nat, b: nat): nat {
    if a == 0 || b == 0 then 0 else 2 * BitAnd(a / 2, b / 2) + if a % 2 == 1 && b % 2 == 1 then 1 else 0
  }

  /** One bit of a masked value */
  lemma MaskBit(x: nat, m: nat)
    ensures BitAnd(x, 2 * m + 1) == 2 * BitAnd(x / 2, m) + x % 2
  {
    assert (2 * m + 1) / 2 == m && (2 * m + 1) % 2 == 1;
  }

  /** The low bits of a value are its remainder. */
  lemma MaskIsRem(x: nat, w: nat)
    requires WordSize(w)
    ensures BitAnd(x, w - 1) == Rem(x, w)
  {
    hide BitAnd;
    MaskBit(x / 4, 0);
    MaskBit(x / 2, 1);
    MaskBit(x, 3);
    MaskBit(x / 2, 0);
    MaskBit(x, 1);
    NoBits(x / 4);
    NoBits(x / 8);
    assert x / 2 / 2 == x / 4 && x / 4 / 2 == x / 8;
  }

  lemma NoBits(x: nat)
    ensures BitAnd(x, 0) == 0
  {
  }

  lemma OrBit(a: nat, b: nat)
    ensures BitOr(a, b) / 2 == BitOr(a / 2, b / 2) && BitXor(a, b) / 2 == BitXor(a / 2, b / 2)
    ensures BitOr(a, b) % 2 == (if a % 2 == 1 || b % 2 == 1 then 1 else 0)
    ensures BitXor(a, b) % 2 == (if a % 2 != b % 2 then 1 else 0)
  {
  }

  /** What the remainders by 4 and by 8 are made of */
  lemma RemBits(x: nat)
    ensures x % 4 == 2 * (x / 2 % 2) + x % 2 && x % 8 == 4 * (x / 4 % 2) + 2 * (x / 2 % 2) + x % 2
    ensures x / 2 / 2 == x / 4
  {
    var q, r := x / 8, x % 8;
    assert x / 4 == 2 * q + r / 4 && x / 2 == 4 * q + r / 2 && x % 2 == r % 2;
    assert x / 4 % 2 == r / 4 && x / 2 % 2 == r / 2 % 2;
    RemSmall(r);
  }

  lemma RemSmall(r: nat)
    requires r < 8
    ensures r == 4 * (r / 4) + 2 * (r / 2 % 2) + r % 2 && r % 4 == 2 * (r / 2 % 2) + r % 2
  {
    assert r == 0 || r == 1 || r == 2 || r == 3 || r == 4 || r == 5 || r == 6 || r == 7;
  }

  /** The mask tests of the code: the addresses are both aligned, and they are aligned alike. */
  lemma MaskTests(u: nat, d: nat, w: nat)
    requires WordSize(w)
    ensures BitAnd(BitOr(u, d), w - 1) != 0 <==> Rem(u, w) != 0 || Rem(d, w) != 0
    ensures BitAnd(BitXor(u, d), w - 1) != 0 <==> Rem(u, w) != Rem(d, w)
    ensures BitAnd(u, w - 1) == Rem(u, w)
  {
    hide BitAnd, BitOr, BitXor;
    MaskIsRem(u, w);
    MaskIsRem(BitOr(u, d), w);
    MaskIsRem(BitXor(u, d), w);
    OrBit(u, d);
    OrBit(u / 2, d / 2);
    OrBit(u / 4, d / 4);
    RemBits(u);
    RemBits(d);
    RemBits(BitOr(u, d));
    RemBits(BitXor(u, d));
  }

  lemma Aligning(u: nat, w: nat)
    requires WordSize(w)
    ensures Rem(u + (w - Rem(u, w)), w) == 0 && Rem(u - Rem(u, w), w) == 0 && Rem(u + w, w) == Rem(u, w)
    ensures u >= w ==> Rem(u - w, w) == Rem(u, w)
  {
    var r := Rem(u, w);
    var q := if w == 4 then u / 4 else u / 8;
    RemIs(u + (w - r), q + 1, 0, w);
    RemIs(u - r, q, 0, w);
    RemIs(u + w, q + 1, r, w);
    if u >= w { RemIs(u - w, q - 1, r, w); }
  }

  lemma RemIs(x: nat, q: int, r: nat, w: nat)
    requires WordSize(w) && r < w && x == (if w == 4 then 4 * q else 8 * q) + r
    ensures Rem(x, w) == r
  {
  }

  /** Addresses congruent modulo the word size are equal or at least a word apart. */
  lemma WordApart(a: nat, b: nat, w: nat)
    requires WordSize(w) && Rem(a, w) == Rem(b, w) && a < b
    ensures a + w <= b
  {
  }

  /** One aligned word is loaded and stored; the two words never overlap. */
  method MoveWord(mem: array<Byte>, dst: nat, src: nat, w: nat)
    requires WordSize(w) && Rem(dst, w) == 0 && Rem(src, w) == 0
    requires dst + w <= src || src + w <= dst
    requires dst + w <= mem.Length && src + w <= mem.Length
    modifies mem
    ensures mem[..] == Moved(old(mem[..]), dst, src, w)
  {
    ghost var was := mem[..];
    var word := mem[src..src + w];
    forall k | 0 <= k < w {
      mem[dst + k] := word[k];
    }
    forall i | 0 <= i < mem.Length ensures mem[..][i] == Moved(was, dst, src, w)[i] {
      MovedAt(was, dst, src, w, i);
    }
  }

  method WordsUp(mem: array<Byte>, dst: nat, src: nat, count: nat, w: nat)
    requires WordSize(w) && Rem(dst, w) == 0 && Rem(src, w) == 0
    requires dst < src && src + Span(count, w) <= mem.Length
    modifies mem
    ensures mem[..] == Moved(old(mem[..]), dst, src, Span(count, w))
  {
    hide Moved, Rem;
    var t, copied := count, 0;
    MovedNothing(mem[..], dst, src);
    while t > 0
      invariant 0 <= t <= count && copied + Span(t, w) == Span(count, w)
      invariant Rem(dst + copied, w) == 0 && Rem(src + copied, w) == 0
      invariant mem[..] == Moved(old(mem[..]), dst, src, copied)
    {
      WordApart(dst + copied, src + copied, w);
      MoveWord(mem, dst + copied, src + copied, w);
      ForwardCompose(old(mem[..]), dst, src, copied, copied + w);
      Aligning(dst + copied, w);
      Aligning(src + copied, w);
      copied := copied + w;
      t := t - 1;
    }
  }

  method WordsDown(mem: array<Byte>, dst: nat, src: nat, count: nat, w: nat)
    requires WordSize(w) && Rem(dst, w) == 0 && Rem(src, w) == 0
    requires Span(count, w) <= src < dst <= mem.Length
    modifies mem
    ensures mem[..] == Moved(old(mem[..]), dst - Span(count, w), src - Span(count, w), Span(count, w))
  {
    hide Moved, Rem;
    var t, copied := count, 0;
    MovedNothing(mem[..], dst, src);
    while t > 0
      invariant 0 <= t <= count && copied + Span(t, w) == Span(count, w)
      invariant Rem(dst - copied, w) == 0 && Rem(src - copied, w) == 0
      invariant mem[..] == Moved(old(mem[..]), dst - copied, src - copied, copied)
    {
      Aligning(dst - copied, w);
      Aligning(src - copied, w);
      copied := copied + w;
      WordApart(src - copied, dst - copied, w);
      MoveWord(mem, dst - copied, src - copied, w);
      BackwardCompose(old(mem[..]), dst - copied, src - copied, copied - w, copied);
      t := t - 1;
    }
  }

  // ----- memmove -------------------------------------------------------------------------

  /** Whole words, then the trailing bytes, upwards from aligned addresses or with no word to move */
  method TailUp(mem: array<Byte>, dst: nat, src: nat, length: nat, w: nat)
    requires WordSize(w) && (length > 0 ==> Rem(dst, w) == 0 && Rem(src, w) == 0)
    requires dst < src && src + length <= mem.Length
    modifies mem
    ensures mem[..] == Moved(old(mem[..]), dst, src, length)
  {
    hide Moved, Rem, BitAnd;
    var t := Words(length, w);
    var bytes := Span(t, w);
    MovedNothing(mem[..], dst, src);
    if t > 0 {
      WordsUp(mem, dst, src, t, w);
    }
    ForwardCompose(old(mem[..]), dst, src, bytes, length);
    MaskIsRem(length, w);
    BytesUp(mem, dst + bytes, src + bytes, BitAnd(length, w - 1));
  }

  method TailDown(mem: array<Byte>, dst: nat, src: nat, length: nat, w: nat)
    requires WordSize(w) && (length > 0 ==> Rem(dst, w) == 0 && Rem(src, w) == 0)
    requires length <= src < dst <= mem.Length
    modifies mem
    ensures mem[..] == Moved(old(mem[..]), dst - length, src - length, length)
  {
    hide Moved, Rem, BitAnd;
    var t := Words(length, w);
    var bytes := Span(t, w);
    MovedNothing(mem[..], dst, src);
    if t > 0 {
      WordsDown(mem, dst, src, t, w);
    }
    BackwardCompose(old(mem[..]), dst - length, src - length, bytes, length);
    MaskIsRem(length, w);
    BytesDown(mem, dst - bytes, src - bytes, BitAnd(length, w - 1));
  }

  /** The forward branch: words are used only from where both addresses are aligned. */
  method MoveUp(mem: array<Byte>, dst: nat, src: nat, length: nat, w: nat)
    requires WordSize(w)
    requires dst < src && src + length <= mem.Length && length > 0
    modifies mem
    ensures mem[..] == Moved(old(mem[..]), dst, src, length)
  {
    hide Moved, Rem, BitAnd, BitOr, BitXor;
    var t, wmask := 0, w - 1;
    MaskTests(src, dst, w);
    if BitAnd(BitOr(src, dst), wmask) != 0 {
      t := if BitAnd(BitXor(src, dst), wmask) != 0 || length < w then length else w - BitAnd(src, wmask);
    }
    Aligning(src, w);
    Aligning(dst, w);
    BytesUp(mem, dst, src, t);
    ForwardCompose(old(mem[..]), dst, src, t, length);
    TailUp(mem, dst + t, src + t, length - t, w);
  }

  /** The backward branch */
  method MoveDown(mem: array<Byte>, dst0: nat, src0: nat, length: nat, w: nat)
    requires WordSize(w)
    requires src0 < dst0 && dst0 + length <= mem.Length && length > 0
    modifies mem
    ensures mem[..] == Moved(old(mem[..]), dst0, src0, length)
  {
    hide Moved, Rem, BitAnd, BitOr, BitXor;
    var dst, src := dst0 + length, src0 + length;
    var t, wmask := 0, w - 1;
    MaskTests(src, dst, w);
    if BitAnd(BitOr(src, dst), wmask) != 0 {
      t := if BitAnd(BitXor(src, dst), wmask) != 0 || length <= w then length else BitAnd(src, wmask);
    }
    Aligning(src, w);
    Aligning(dst, w);
    BytesDown(mem, dst, src, t);
    BackwardCompose(old(mem[..]), dst0, src0, t, length);
    TailDown(mem, dst - t, src - t, length - t, w);
  }

  lemma MovedNothing(m: seq<Byte>, dst: nat, src: nat)
    requires dst <= |m| && src <= |m|
    ensures Moved(m, dst, src, 0) == m
  {
  }

  lemma MovedToItself(m: seq<Byte>, at: nat, n: nat)
    requires at + n <= |m|
    ensures Moved(m, at, at, n) == m
  {
  }

  /** memmove with words of w bytes: the same as a copy by way of a snapshot. */
  method MoveMemory(mem: array<Byte>, dst: nat, src: nat, length: nat, w: nat)
    requires WordSize(w)
    requires dst + length <= mem.Length && src + length <= mem.Length
    modifies mem
    ensures mem[..] == Moved(old(mem[..]), dst, src, length)
  {
    hide Moved;
    if length == 0 {
      MovedNothing(mem[..], dst, src);
    } else if dst == src {
      MovedToItself(mem[..], dst, length);
    } else if dst < src {
      MoveUp(mem, dst, src, length, w);
    } else {
      MoveDown(mem, dst, src, length, w);
    }
  }

  /** The size-optimized memmove: bytes only, the same result. */
  method MoveBytes(mem: array<Byte>, dst: nat, src: nat, length: nat)
    requires dst + length <= mem.Length && src + length <= mem.Length
    modifies mem
    ensures mem[..] == Moved(old(mem[..]), dst, src, length)
  {
    hide Moved;
    if src < dst {
      BytesDown(mem, dst + length, src + length, length);
    } else {
      BytesUp(mem, dst, src, length);
    }
  }
}
