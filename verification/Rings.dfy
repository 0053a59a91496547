/** Circular arrays as sequences. */
module Rings {
  function Wrap(k: nat, n: nat): nat
  {
    if k < n then k else k - n
  }

  /** The n elements of the ring a that start at head. */
  function Ring<T>(a: seq<T>, head: nat, n: nat): (r: seq<T>)
    requires head < |a| && n <= |a|
    ensures |r| == n
    ensures forall i :: 0 <= i < n ==> r[i] == a[Wrap(head + i, |a|)]
  {
    seq(n, i requires 0 <= i < n => a[Wrap(head + i, |a|)])
  }

  lemma RingPush<T>(a: seq<T>, head: nat, n: nat, x: T)
    requires head < |a| && n < |a|
    ensures Ring(a[Wrap(head + n, |a|) := x], head, n + 1) == Ring(a, head, n) + [x]
  {
  }

  lemma RingDrop<T>(a: seq<T>, head: nat, n: nat, k: nat)
    requires head < |a| && k <= n <= |a|
    ensures Wrap(head + k, |a|) < |a|
    ensures Ring(a, Wrap(head + k, |a|), n - k) == Ring(a, head, n)[k..]
  {
    var r := Ring(a, head, n);
    forall i | 0 <= i < n - k ensures Ring(a, Wrap(head + k, |a|), n - k)[i] == r[k..][i] {
      assert r[k..][i] == r[k + i];
    }
  }

  lemma RingSetFirst<T>(a: seq<T>, head: nat, n: nat, x: T)
    requires head < |a| && 0 < n <= |a|
    ensures Ring(a[head := x], head, n) == Ring(a, head, n)[0 := x]
  {
  }
}
