/**
 The conversion of strings to integers (sections 7.8.2.3 and 7.20.1.4 of C99)
 and the formatting of integers that it inverts.
 */
module Strtol {
  import opened Common

  const INT_MIN := -0x8000_0000_0000_0000
  const INT_MAX := 0x7fff_ffff_ffff_ffff

  // ----- What a subject sequence means -----------------------------------------

  /** The character at position i of a C string, whose end is a zero byte. */
  function At(s: seq<Byte>, i: nat): Byte {
    if i < |s| then s[i] else 0
  }

  predicate IsSpace(c: Byte) {
    c == 32 || 9 <= c <= 13
  }

  /** The digit value of c; 99 is not a digit in any base. */
  function Digit(c: Byte): (d: nat)
    ensures d == 99 || d < 36
    ensures c == 0 ==> d == 99
  {
    if 48 <= c <= 57 then c as int - 48
    else if 97 <= c <= 122 then c as int - 97 + 10
    else if 65 <= c <= 90 then c as int - 65 + 10
    else 99
  }

  function SkipSpace(s: seq<Byte>, i: nat): (j: nat)
    ensures i <= j && (i <= |s| ==> j <= |s|)
    ensures !IsSpace(At(s, j)) && forall k :: i <= k < j ==> IsSpace(At(s, k))
    decreases |s| - i
  {
    if IsSpace(At(s, i)) then SkipSpace(s, i + 1) else i
  }

  /** Where the digits of the given base that start at i end. */
  function RunEnd(s: seq<Byte>, base: nat, i: nat): (e: nat)
    requires base <= 36
    ensures i <= e && (i <= |s| ==> e <= |s|)
    ensures Digit(At(s, e)) >= base && forall k :: i <= k < e ==> Digit(At(s, k)) < base
    decreases |s| - i
  {
    if Digit(At(s, i)) < base then RunEnd(s, base, i + 1) else i
  }

  /** One more digit */
  function Next(v: nat, base: nat, d: nat): nat {
    v * base + d
  }

  /** The number written by the digits of s from i up to e. */
  function Value(s: seq<Byte>, base: nat, i: nat, e: nat): nat
    requires i <= e
    decreases e
  {
    if i == e then 0 else Next(Value(s, base, i, e - 1), base, Digit(At(s, e - 1)))
  }

  /** Sign, base and first digit position of a conversion. */
  datatype Subject = Subject(neg: bool, base: nat, start: nat)

  predicate HexPrefix(s: seq<Byte>, i: nat) {
    At(s, i) == 48 && (At(s, i + 1) == 120 || At(s, i + 1) == 88) && Digit(At(s, i + 2)) < 16
  }

  function SubjectOf(s: seq<Byte>, base: nat): Subject {
    var i := SkipSpace(s, 0);
    var j := if At(s, i) == 45 || At(s, i) == 43 then i + 1 else i;
    if (base == 0 || base == 16) && HexPrefix(s, j) then Subject(At(s, i) == 45, 16, j + 2)
    else Subject(At(s, i) == 45, if base == 0 then (if At(s, j) == 48 then 8 else 10) else base, j)
  }

  datatype Error = Unchanged | EINVAL | ERANGE

  datatype Result = Result(value: int, end: nat, error: Error)

  function Clamp(v: int): int {
    if v < INT_MIN then INT_MIN else if v > INT_MAX then INT_MAX else v
  }

  function Signed(neg: bool, v: int): int {
    if neg then -v else v
  }

  /** The mathematical value of the subject sequence. */
  function Exact(s: seq<Byte>, u: Subject): int
    requires u.base <= 36
  {
    Signed(u.neg, Value(s, u.base, u.start, RunEnd(s, u.base, u.start)))
  }

  /** What the standard says strtoimax returns. */
  function Converted(s: seq<Byte>, base: int): Result {
    if base != 0 && !(2 <= base <= 36) then Result(0, 0, EINVAL)
    else
      var u := SubjectOf(s, base);
      var e := RunEnd(s, u.base, u.start);
      if e == u.start then Result(0, 0, Unchanged)
      else Result(Clamp(Exact(s, u)), e, if Clamp(Exact(s, u)) == Exact(s, u) then Unchanged else ERANGE)
  }

  // ----- The code ------------------------------------------------------------------

  /** C division: toward zero. */
  function CDiv(a: int, b: int): int
    requires b > 0
  {
    if a >= 0 then a / b else -((-a) / b)
  }

  function CMod(a: int, b: int): int
    requires b > 0
  {
    if a >= 0 then a % b else -((-a) % b)
  }

  /** cutoff and cutlim split the bound, with its sign. */
  lemma Cutoff(bound: int, base: int)
    requires base > 0
    ensures bound == CDiv(bound, base) * base + CMod(bound, base)
    ensures bound >= 0 ==> 0 <= CMod(bound, base) < base
    ensures bound < 0 ==> -base < CMod(bound, base) <= 0
  {
    if bound < 0 {
      var q := (-bound) / base;
      assert -bound == q * base + (-bound) % base;
      assert (-q) * base == -(q * base);
    }
  }

  lemma MulOrder(a: int, b: int, n: int)
    requires a < b && n > 0
    ensures a * n <= b * n - n
  {
    var k := b - a - 1;
    assert b * n == (a + 1 + k) * n == a * n + n + k * n;
    MulNonNegative(k, n);
  }

  lemma MulNonNegative(a: int, b: int)
    requires a >= 0 && b >= 0
    ensures a * b >= 0
  {
  }

  /** The overflow test of the loop is exact: it fires just when the next value would leave the type. */
  lemma OverflowTestUp(acc: int, cutoff: int, cutlim: int, base: int, d: int)
    requires base > 0 && 0 <= cutlim < base && 0 <= d < base
    ensures acc > cutoff || (acc == cutoff && d > cutlim) <==> acc * base + d > cutoff * base + cutlim
  {
    if acc > cutoff {
      MulOrder(cutoff, acc, base);
    } else if acc < cutoff {
      MulOrder(acc, cutoff, base);
    }
  }

  lemma OverflowTestDown(acc: int, cutoff: int, cutlim: int, base: int, d: int)
    requires base > 0 && 0 <= cutlim < base && 0 <= d < base
    ensures acc < cutoff || (acc == cutoff && d > cutlim) <==> acc * base - d < cutoff * base - cutlim
  {
    if acc < cutoff {
      MulOrder(acc, cutoff, base);
    } else if acc > cutoff {
      MulOrder(cutoff, acc, base);
    }
  }

  lemma NextGrows(v: nat, base: nat, d: nat)
    requires base > 0
    ensures Next(v, base, d) >= v
  {
    assert v * base == v + v * (base - 1);
    MulNonNegative(v, base - 1);
  }

  /** Stepping the digit loop of a run. */
  lemma RunStep(s: seq<Byte>, base: nat, start: nat, i: nat)
    requires base <= 36 && start <= i <= RunEnd(s, base, start)
    ensures Digit(At(s, i)) < base <==> i < RunEnd(s, base, start)
    ensures i < RunEnd(s, base, start) ==>
              Value(s, base, start, i + 1) == Next(Value(s, base, start, i), base, Digit(At(s, i)))
  {
  }

  ghost predicate InRange(neg: bool, v: nat) {
    INT_MIN <= Signed(neg, v) <= INT_MAX
  }

  /** One round of the loop, away from the overflow test of earlier rounds */
  method AddDigit(acc: int, ghost v: nat, neg: bool, base: nat, d: nat, cutoff: int, cutlim: int)
    returns (acc': int, over: bool)
    requires acc == Signed(neg, v) && InRange(neg, v) && d < base
    requires 0 <= cutlim < base
    requires if neg then cutoff * base - cutlim == INT_MIN else cutoff * base + cutlim == INT_MAX
    ensures over == !InRange(neg, Next(v, base, d))
    ensures acc' == if over then (if neg then INT_MIN else INT_MAX) else Signed(neg, Next(v, base, d))
  {
    if neg {
      OverflowTestDown(acc, cutoff, cutlim, base, d);
      NegProduct(v, base, d);
      if acc < cutoff || (acc == cutoff && d > cutlim) {
        return INT_MIN, true;
      }
      acc' := acc * base;
      assert INT_MIN <= acc' <= INT_MAX;
      acc' := acc' - d;
      over := false;
    } else {
      OverflowTestUp(acc, cutoff, cutlim, base, d);
      MulNonNegative(v, base);
      if acc > cutoff || (acc == cutoff && d > cutlim) {
        return INT_MAX, true;
      }
      acc' := acc * base;
      assert INT_MIN <= acc' <= INT_MAX;
      acc' := acc' + d;
      over := false;
    }
  }

  lemma NegProduct(v: int, base: int, d: int)
    requires v >= 0 && base >= 0 && d >= 0
    ensures (-v) * base - d == -(v * base + d) && (-v) * base <= 0
  {
    MulNonNegative(v, base);
    assert (-v) * base == -(v * base);
  }

  /** The accumulation loop: exact until the first overflow, clamped from there on. */
  method Accumulate(s: seq<Byte>, base: nat, neg: bool, start: nat) returns (acc: int, any: int, end: nat)
    requires 2 <= base <= 36 && start <= |s| + 2
    ensures end == RunEnd(s, base, start)
    ensures any == 0 <==> end == start
    ensures acc == Clamp(Exact(s, Subject(neg, base, start)))
    ensures any < 0 <==> acc != Exact(s, Subject(neg, base, start))
  {
    hide Value, RunEnd, Digit, Next, CDiv, CMod;
    var bound := if neg then INT_MIN else INT_MAX;
    var cutlim := CMod(bound, base);
    var cutoff := CDiv(bound, base);
    Cutoff(bound, base);
    if neg {
      if cutlim > 0 {
        cutlim := cutlim - base;
        cutoff := cutoff + 1;
      }
      cutlim := -cutlim;
    }
    acc, any := 0, 0;
    var i := start;
    ValueEmpty(s, base, start);
    while true
      invariant start <= i <= RunEnd(s, base, start)
      invariant any == 0 <==> i == start
      invariant any >= 0 ==> acc == Signed(neg, Value(s, base, start, i)) && InRange(neg, Value(s, base, start, i))
      invariant any < 0 ==> acc == bound && !InRange(neg, Value(s, base, start, i))
      decreases RunEnd(s, base, start) - i
    {
      RunStep(s, base, start, i);
      var d := Digit(At(s, i));
      if d >= base { break; }
      NextGrows(Value(s, base, start, i), base, d);
      if any >= 0 {
        var over;
        acc, over := AddDigit(acc, Value(s, base, start, i), neg, base, d, cutoff, cutlim);
        any := if over then -1 else 1;
      }
      i := i + 1;
    }
    end := i;
  }

  lemma ValueEmpty(s: seq<Byte>, base: nat, start: nat)
    requires base <= 36
    ensures Value(s, base, start, start) == 0 && start <= RunEnd(s, base, start)
  {
  }

  /** strtoimax: the value the standard prescribes, for every string and every base. */
  method Strtoimax(nptr: seq<Byte>, base0: int) returns (r: Result)
    requires forall i :: 0 <= i < |nptr| ==> nptr[i] != 0
    ensures r == Converted(nptr, base0)
  {
    hide Value, RunEnd, Digit;
    var base := base0;
    if base != 0 && (base < 2 || base > 36) {
      return Result(0, 0, EINVAL);
    }
    var i := 0;
    while IsSpace(At(nptr, i))
      invariant i <= |nptr| && SkipSpace(nptr, i) == SkipSpace(nptr, 0)
      decreases |nptr| - i
    {
      i := i + 1;
    }
    var neg := At(nptr, i) == 45;
    if neg || At(nptr, i) == 43 {
      i := i + 1;
    }
    if (base == 0 || base == 16) && At(nptr, i) == 48 && (At(nptr, i + 1) == 120 || At(nptr, i + 1) == 88) &&
       Digit(At(nptr, i + 2)) < 16 {
      i := i + 2;
      base := 16;
    } else if base == 0 {
      base := if At(nptr, i) == 48 then 8 else 10;
    }
    assert SubjectOf(nptr, base0) == Subject(neg, base, i);
    var acc, any, end := Accumulate(nptr, base, neg, i);
    ValueEmpty(nptr, base, i);
    r := Result(acc, if any != 0 then end else 0, if any < 0 then ERANGE else Unchanged);
  }

  // ----- Formatting ------------------------------------------------------------------

  const UINT_MODULUS := 0x1_0000_0000
  const NUMBER_SIZE := 13  // ceil(32 / 3) digits, a sign and one more

  /** The decimal digits of m, at least one. */
  function Decimal(m: nat): (t: seq<Byte>)
    ensures |t| >= 1 && forall k :: 0 <= k < |t| ==> 48 <= t[k] <= 57
  {
    var last: Byte := (48 + m % 10) as Byte;
    if m < 10 then [last] else Decimal(m / 10) + [last]
  }

  function Spaces(n: nat): (t: seq<Byte>)
    ensures |t| == n && forall k :: 0 <= k < n ==> t[k] == 32
  {
    seq(n, _ => 32 as Byte)
  }

  function Number(value: int): seq<Byte> {
    if value < 0 then [45] + Decimal(-value) else Decimal(value)
  }

  /** The field of a %Nd conversion: right-justified, never truncated. */
  function Field(value: int, width: nat): seq<Byte> {
    var n := Number(value);
    (if width > |n| then Spaces(width - |n|) else []) + n
  }

  lemma {:induction false} DecimalLength(m: nat, digits: nat, bound: nat)
    requires digits >= 1 && bound == Power10(digits) && m < bound
    ensures |Decimal(m)| <= digits
    decreases digits
  {
    if m >= 10 {
      assert Power10(digits) == 10 * Power10(digits - 1);
      DecimalLength(m / 10, digits - 1, Power10(digits - 1));
    }
  }

  function Power10(n: nat): nat {
    if n == 0 then 1 else 10 * Power10(n - 1)
  }

  lemma UIntDigits(m: nat)
    requires m < UINT_MODULUS
    ensures |Decimal(m)| <= 10
  {
    assert Power10(10) == 10_000_000_000 by {
      assert Power10(1) == 10 && Power10(2) == 100;
      assert Power10(3) == 10 * Power10(2) && Power10(4) == 10 * Power10(3);
      assert Power10(5) == 10 * Power10(4) && Power10(6) == 10 * Power10(5);
      assert Power10(7) == 10 * Power10(6) && Power10(8) == 10 * Power10(7);
      assert Power10(9) == 10 * Power10(8) && Power10(10) == 10 * Power10(9);
    }
    DecimalLength(m, 10, Power10(10));
  }

  lemma DecimalStep(m: nat)
    ensures Decimal(m) == (if m < 10 then [] else Decimal(m / 10)) + [(48 + m % 10) as Byte]
  {
  }

  /** The do-while loop over the digit buffer: digits go in backwards from the end. */
  method WriteDigits(number: array<Byte>, m: nat) returns (digits: nat)
    requires number.Length == NUMBER_SIZE && m < UINT_MODULUS
    modifies number
    ensures digits <= NUMBER_SIZE && number[digits..] == Decimal(m) && digits >= 1
  {
    hide Decimal;
    digits := NUMBER_SIZE;
    var magnitude := m;
    UIntDigits(m);
    DecimalStep(magnitude);
    digits := digits - 1;
    number[digits] := (48 + magnitude % 10) as Byte;
    magnitude := magnitude / 10;
    while magnitude != 0
      invariant 0 <= digits < NUMBER_SIZE
      invariant Decimal(m) == (if magnitude == 0 then [] else Decimal(magnitude)) + number[digits..]
      decreases magnitude
    {
      DecimalStep(magnitude);
      digits := digits - 1;
      number[digits] := (48 + magnitude % 10) as Byte;
      magnitude := magnitude / 10;
    }
  }

  /** The %Nd conversion of format_output */
  method FormatInt(value: int, width: nat) returns (text: seq<Byte>)
    requires -0x8000_0000 <= value <= 0x7fff_ffff
    ensures text == Field(value, width)
  {
    hide Decimal;
    var number := new Byte[NUMBER_SIZE];
    var magnitude := value % UINT_MODULUS;
    if value < 0 {
      magnitude := (0 - magnitude) % UINT_MODULUS;
    }
    var digits := WriteDigits(number, magnitude);
    if value < 0 {
      digits := digits - 1;
      number[digits] := 45;
    }
    assert number[digits..] == Number(value);
    var length := NUMBER_SIZE - digits;
    text := [];
    var w := width;
    while w > length
      invariant text == Spaces(width - w) && (w >= length || w == width)
      decreases w
    {
      text := text + [32];
      w := w - 1;
    }
    text := text + number[digits..];
  }

  // ----- Reading back what was formatted -----------------------------------------------

  lemma {:induction false} ValueOfDecimal(s: seq<Byte>, start: nat, e: nat, m: nat)
    requires start <= e <= |s| && s[start..e] == Decimal(m)
    ensures Value(s, 10, start, e) == m
    decreases m
  {
    hide Decimal;
    DecimalStep(m);
    assert s[start..e][e - 1 - start] == s[e - 1];
    if m >= 10 {
      assert s[start..e - 1] == s[start..e][..e - 1 - start] == Decimal(m / 10);
      ValueOfDecimal(s, start, e - 1, m / 10);
    } else {
      assert e == start + 1;
    }
  }

  lemma SkipSpaceAt(s: seq<Byte>, k: nat)
    requires !IsSpace(At(s, k)) && forall i :: 0 <= i < k ==> IsSpace(At(s, i))
    ensures SkipSpace(s, 0) == k
  {
    var j := SkipSpace(s, 0);
    assert !(j < k) && !(k < j);
  }

  lemma RunEndAt(s: seq<Byte>, base: nat, i: nat, e: nat)
    requires base <= 36 && i <= e && Digit(At(s, e)) >= base && forall k :: i <= k < e ==> Digit(At(s, k)) < base
    ensures RunEnd(s, base, i) == e
  {
    var j := RunEnd(s, base, i);
    assert !(j < e) && !(e < j);
  }

  /** strtoimax gives back every int from its %Nd field, whatever the width, and consumes all of it. */
  lemma FormatRoundTrip(value: int, width: nat)
    requires -0x8000_0000 <= value <= 0x7fff_ffff
    ensures Converted(Field(value, width), 10) == Result(value, |Field(value, width)|, Unchanged)
  {
    hide Decimal, Value, RunEnd, SkipSpace;
    var n := Number(value);
    var s := Field(value, width);
    var pad := |s| - |n|;
    var m := if value < 0 then -value else value;
    var start := if value < 0 then pad + 1 else pad;
    assert s[start..|s|] == Decimal(m);
    forall i | start <= i < |s| ensures 48 <= At(s, i) <= 57 {
      assert s[start..|s|][i - start] == s[i];
    }
    SkipSpaceAt(s, pad);
    RunEndAt(s, 10, start, |s|);
    ValueOfDecimal(s, start, |s|, m);
    assert SubjectOf(s, 10) == Subject(value < 0, 10, start);
  }

  // ----- The field width --------------------------------------------------------------

  /** The width loop of format_output: accepted exactly when the number written is at most 32. */
  method ParseWidth(s: seq<Byte>, i: nat) returns (ok: bool, width: nat, end: nat)
    requires i < |s| && 49 <= s[i] <= 57
    ensures ok <==> Value(s, 10, i, RunEnd(s, 10, i)) <= 32
    ensures ok ==> end == RunEnd(s, 10, i) && width == Value(s, 10, i, end)
  {
    hide Value, RunEnd, Next;
    width := 0;
    end := i;
    ValueEmpty(s, 10, i);
    while true
      invariant i <= end <= RunEnd(s, 10, i)
      invariant width == Value(s, 10, i, end) && width <= 32
      decreases RunEnd(s, 10, i) - end
    {
      RunStep(s, 10, i, end);
      if !(48 <= At(s, end) <= 57) { break; }
      var digit := At(s, end) as int - 48;
      DecimalNext(width, digit);
      if width > (32 - digit) / 10 {
        RunMonotone(s, i, end + 1, RunEnd(s, 10, i));
        return false, width, end;
      }
      width := width * 10 + digit;
      end := end + 1;
    }
    ok := true;
  }

  lemma DecimalNext(width: nat, digit: nat)
    requires digit < 10
    ensures Next(width, 10, digit) == width * 10 + digit
  {
  }

  lemma {:induction false} RunMonotone(s: seq<Byte>, i: nat, k: nat, e: nat)
    requires i <= k <= e
    ensures Value(s, 10, i, k) <= Value(s, 10, i, e)
    decreases e
  {
    if k < e {
      RunMonotone(s, i, k, e - 1);
      NextGrows(Value(s, 10, i, e - 1), 10, Digit(At(s, e - 1)));
    }
  }
}
