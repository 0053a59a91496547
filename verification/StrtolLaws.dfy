/**
 What strtoimax answers for a written number: blanks, a sign, a prefix, digits
 in either case of any base, and whatever follows. The digits are listed.
 */
module StrtolLaws {
  import opened Common
  import opened Strtol

  // ----- Digits -----------------------------------------------------------------------------

  const DIGITS := "0123456789abcdefghijklmnopqrstuvwxyz"
  const CAPITALS := "0123456789ABCDEFGHIJKLMNOPQRSTUVWXYZ"

  /** c is a way to write the digit d. */
  predicate Writes(c: Byte, d: nat) {
    d < 36 && (c as int == DIGITS[d] as int || c as int == CAPITALS[d] as int)
  }

  lemma GlyphCode(d: nat)
    requires d < 36
    ensures DIGITS[d] as int == if d < 10 then 48 + d else 87 + d
    ensures CAPITALS[d] as int == if d < 10 then 48 + d else 55 + d
  {
  }

  /** Exactly the 36 listed characters, in either case, are digits, each with its place in the list as value. */
  lemma DigitIff(c: Byte, d: nat)
    ensures d < 36 ==> (Digit(c) == d <==> Writes(c, d))
    ensures Digit(c) >= 36 <==> forall k :: 0 <= k < 36 ==> !Writes(c, k)
  {
    if d < 36 {
      GlyphCode(d);
    }
    if Digit(c) < 36 {
      GlyphCode(Digit(c));
      assert Writes(c, Digit(c));
    }
    forall k | 0 <= k < 36 && Writes(c, k) ensures Digit(c) == k {
      GlyphCode(k);
    }
  }

  // ----- Written numbers ----------------------------------------------------------------------

  /** t writes the digits ds, each in either case. */
  ghost predicate Written(t: seq<Byte>, ds: seq<nat>, base: nat) {
    |t| == |ds| && forall i :: 0 <= i < |t| ==> ds[i] < base && Writes(t[i], ds[i])
  }

  /** The number of a list of digits */
  function Horner(ds: seq<nat>, base: nat): nat {
    if ds == [] then 0 else Horner(ds[..|ds| - 1], base) * base + ds[|ds| - 1]
  }

  /** The digits of a number by repeated division */
  function DigitsOf(v: nat, base: nat): (ds: seq<nat>)
    requires base >= 2
    ensures ds != []
    decreases v
  {
    if v < base then [v] else Shrinks(v, base); DigitsOf(v / base, base) + [v % base]
  }

  lemma Shrinks(v: nat, base: nat)
    requires base >= 2 && v >= base
    ensures v / base < v && v == (v / base) * base + v % base
  {
    var a := v / base;
    assert v == a * base + v % base;
    assert a * base >= a * 2 by { MulNonNegative(a, base - 2); assert a * base == a * 2 + a * (base - 2); }
  }

  /** Every number is the number of its digits. */
  lemma {:induction false} NumberOfDigits(v: nat, base: nat)
    requires base >= 2
    ensures Horner(DigitsOf(v, base), base) == v
    ensures forall i :: 0 <= i < |DigitsOf(v, base)| ==> DigitsOf(v, base)[i] < base
    decreases v
  {
    var ds := DigitsOf(v, base);
    if v < base {
      assert ds[..0] == [];
      assert Horner([], base) * base == 0;
    } else {
      Shrinks(v, base);
      NumberOfDigits(v / base, base);
      assert ds[..|ds| - 1] == DigitsOf(v / base, base);
    }
  }

  // ----- The conversion ---------------------------------------------------------------------------

  predicate Blank(t: seq<Byte>) {
    forall i :: 0 <= i < |t| ==> t[i] in {9, 10, 11, 12, 13, 32}
  }

  predicate Sign(t: seq<Byte>) {
    t == [] || t == [43] || t == [45]
  }

  /** What follows a number does not go on with a digit of its base. */
  predicate Ends(tail: seq<Byte>, base: nat) {
    tail == [] || Digit(tail[0]) >= base
  }

  lemma {:induction false} DigitsValue(s: seq<Byte>, a: nat, ds: seq<nat>, base: nat)
    requires 2 <= base <= 36 && a + |ds| <= |s| && Written(s[a..a + |ds|], ds, base)
    ensures Value(s, base, a, a + |ds|) == Horner(ds, base)
    decreases |ds|
  {
    hide Horner, Next, Digit, Writes;
    if ds == [] {
      NumberSteps(ds, base);
    } else {
      var n := |ds| - 1;
      NumberSteps(ds, base);
      assert s[a..a + n] == s[a..a + |ds|][..n];
      DigitsValue(s, a, ds[..n], base);
      assert s[a..a + |ds|][n] == s[a + n];
      DigitIff(s[a + n], ds[n]);
    }
  }

  lemma NumberSteps(ds: seq<nat>, base: nat)
    ensures Horner(ds, base) == if ds == [] then 0 else Next(Horner(ds[..|ds| - 1], base), base, ds[|ds| - 1])
  {
  }

  lemma DigitsRun(s: seq<Byte>, a: nat, ds: seq<nat>, tail: seq<Byte>, base: nat)
    requires 2 <= base <= 36 && a + |ds| <= |s| && Written(s[a..a + |ds|], ds, base)
    requires s[a + |ds|..] == tail && Ends(tail, base)
    ensures RunEnd(s, base, a) == a + |ds|
  {
    forall k | a <= k < a + |ds| ensures Digit(At(s, k)) < base {
      assert s[a..a + |ds|][k - a] == s[k];
      DigitIff(s[k], ds[k - a]);
    }
    if tail != [] {
      assert s[a + |ds|] == tail[0];
    }
    RunEndAt(s, base, a, a + |ds|);
  }

  /** The answer for digits that stand at `a`, once sign and base are known */
  lemma Answer(s: seq<Byte>, base: nat, u: Subject, ds: seq<nat>, tail: seq<Byte>)
    requires (base == 0 || 2 <= base <= 36) && SubjectOf(s, base) == u && 2 <= u.base <= 36
    requires u.start + |ds| <= |s| && Written(s[u.start..u.start + |ds|], ds, u.base) && ds != []
    requires s[u.start + |ds|..] == tail && Ends(tail, u.base)
    ensures Converted(s, base) == Outcome(Signed(u.neg, Horner(ds, u.base)), u.start + |ds|)
  {
    hide SubjectOf, Value, RunEnd, Horner, Written;
    DigitsRun(s, u.start, ds, tail, u.base);
    DigitsValue(s, u.start, ds, u.base);
  }

  /** The exact value if the type holds it, otherwise the nearest bound and ERANGE */
  function Outcome(v: int, end: nat): Result {
    if v > 0x7fff_ffff_ffff_ffff then Result(0x7fff_ffff_ffff_ffff, end, ERANGE)
    else if v < -0x8000_0000_0000_0000 then Result(-0x8000_0000_0000_0000, end, ERANGE)
    else Result(v, end, Unchanged)
  }

  function WithSign(sign: seq<Byte>, v: int): int {
    if sign == [45] then -v else v
  }

  lemma SkipsBlanks(blanks: seq<Byte>, rest: seq<Byte>)
    requires Blank(blanks) && !IsSpace(At(rest, 0))
    ensures SkipSpace(blanks + rest, 0) == |blanks|
  {
    var s := blanks + rest;
    forall i | 0 <= i < |blanks| ensures IsSpace(At(s, i)) {
      assert s[i] == blanks[i];
    }
    SkipSpaceAt(s, |blanks|);
  }

  lemma Shifted(a: seq<Byte>, rest: seq<Byte>, i: nat)
    ensures At(a + rest, |a| + i) == At(rest, i)
  {
  }

  /** Neither a blank nor a sign */
  predicate Starts(rest: seq<Byte>) {
    rest == [] || rest[0] !in {9, 10, 11, 12, 13, 32, 43, 45}
  }

  predicate HexAhead(rest: seq<Byte>) {
    |rest| >= 3 && rest[0] == 48 && rest[1] in {88, 120} && Digit(rest[2]) < 16
  }

  /** Blanks are skipped and a sign is noted; what follows them decides the base. */
  lemma SubjectAt(blanks: seq<Byte>, sign: seq<Byte>, rest: seq<Byte>, base: nat)
    requires Blank(blanks) && Sign(sign) && (sign == [] ==> Starts(rest))
    ensures var a := |blanks| + |sign|;
      SubjectOf(blanks + sign + rest, base) ==
      if base in {0, 16} && HexAhead(rest) then Subject(sign == [45], 16, a + 2)
      else Subject(sign == [45], if base != 0 then base else if At(rest, 0) == 48 then 8 else 10, a)
  {
    hide SkipSpace, Digit;
    var s, pre := blanks + sign + rest, blanks + sign;
    assert s == blanks + (sign + rest) && s == pre + rest;
    assert At(sign + rest, 0) == if sign == [] then At(rest, 0) else sign[0];
    SkipsBlanks(blanks, sign + rest);
    Shifted(blanks, sign + rest, 0);
    Shifted(pre, rest, 0);
    Shifted(pre, rest, 1);
    Shifted(pre, rest, 2);
    ZeroIsNoDigit();
  }

  lemma ZeroIsNoDigit()
    ensures Digit(0) == 99
  {
  }

  lemma DigitsStart(c: Byte, d: nat)
    requires Writes(c, d)
    ensures Starts([c]) && (c == 48 <==> d == 0) && (d < 16 ==> c !in {88, 120})
  {
    GlyphCode(d);
  }

  /** The digits stand where the subject starts. */
  lemma Placed(pre: seq<Byte>, t: seq<Byte>, tail: seq<Byte>)
    ensures var s := pre + (t + tail); s[|pre|..|pre| + |t|] == t && s[|pre| + |t|..] == tail
  {
  }

  lemma NotHex(t: seq<Byte>, ds: seq<nat>, tail: seq<Byte>)
    requires Written(t, ds, 16) && t != []
    requires |t| == 1 && ds[0] == 0 ==> tail == [] || tail[0] !in {88, 120}
    ensures Starts(t + tail) && !HexAhead(t + tail) && At(t + tail, 0) == t[0]
  {
    DigitsStart(t[0], ds[0]);
    if |t| > 1 {
      DigitsStart(t[1], ds[1]);
      assert (t + tail)[1] == t[1];
    } else if tail != [] {
      assert (t + tail)[1] == tail[0];
    }
  }

  /**
   A number in the base asked for, after blanks and a sign, is its value with that
   sign; the end is behind the last digit. (In base 16 a lone 0 before an x is
   read as PrefixedHex and LoneZero say.)
   */
  lemma PlainNumber(blanks: seq<Byte>, sign: seq<Byte>, t: seq<Byte>, ds: seq<nat>, tail: seq<Byte>, base: nat)
    requires 2 <= base <= 36 && Blank(blanks) && Sign(sign) && Written(t, ds, base) && t != [] && Ends(tail, base)
    requires base == 16 && |t| == 1 && ds[0] == 0 ==> tail == [] || tail[0] !in {88, 120}
    ensures Converted(blanks + sign + (t + tail), base)
         == Outcome(WithSign(sign, Horner(ds, base)), |blanks| + |sign| + |t|)
  {
    hide Horner, Converted, SubjectOf, Ends, Written, HexAhead;
    WrittenStarts(t, ds, tail, base);
    if base == 16 { NotHex(t, ds, tail); }
    SubjectAt(blanks, sign, t + tail, base);
    Placed(blanks + sign, t, tail);
    Answer(blanks + sign + (t + tail), base, Subject(sign == [45], base, |blanks| + |sign|), ds, tail);
  }

  lemma WrittenStarts(t: seq<Byte>, ds: seq<nat>, tail: seq<Byte>, base: nat)
    requires Written(t, ds, base) && t != []
    ensures |ds| == |t| && Starts(t + tail)
  {
    DigitsStart(t[0], ds[0]);
    assert (t + tail)[0] == t[0];
  }

  lemma Widen(t: seq<Byte>, ds: seq<nat>, base: nat)
    requires Written(t, ds, base) && base <= 16 && t != []
    ensures |ds| == |t| && Written(t, ds, 16) && (t[0] == 48 <==> ds[0] == 0)
  {
    DigitsStart(t[0], ds[0]);
  }

  /** In base 0 a leading 0 means octal and any other digit decimal. */
  lemma ChosenBase(blanks: seq<Byte>, sign: seq<Byte>, t: seq<Byte>, ds: seq<nat>, tail: seq<Byte>, base: nat)
    requires Blank(blanks) && Sign(sign) && t != [] && |t| == |ds| && base == (if ds[0] == 0 then 8 else 10)
    requires Written(t, ds, base) && Ends(tail, base)
    requires |t| == 1 && ds[0] == 0 ==> tail == [] || tail[0] !in {88, 120}
    ensures Converted(blanks + sign + (t + tail), 0)
         == Outcome(WithSign(sign, Horner(ds, base)), |blanks| + |sign| + |t|)
  {
    hide Horner, Converted, SubjectOf, Ends, HexAhead, Written, Writes;
    Widen(t, ds, base);
    NotHex(t, ds, tail);
    SubjectAt(blanks, sign, t + tail, 0);
    Placed(blanks + sign, t, tail);
    Answer(blanks + sign + (t + tail), 0, Subject(sign == [45], base, |blanks| + |sign|), ds, tail);
  }

  lemma MarkAhead(mark: seq<Byte>, t: seq<Byte>, ds: seq<nat>, tail: seq<Byte>)
    requires mark in {[48, 120], [48, 88]} && Written(t, ds, 16) && t != []
    ensures |ds| == |t| && HexAhead(mark + (t + tail)) && Starts(mark + (t + tail))
  {
    hide Digit, Writes;
    var rest := mark + (t + tail);
    DigitIff(t[0], ds[0]);
    assert rest[0] == mark[0] && rest[1] == mark[1] && rest[2] == t[0];
  }

  /** 0x or 0X before a hexadecimal digit is a prefix in base 16 and chooses it in base 0. */
  lemma PrefixedHex(blanks: seq<Byte>, sign: seq<Byte>, mark: seq<Byte>, t: seq<Byte>, ds: seq<nat>, tail: seq<Byte>,
                    base: nat)
    requires base in {0, 16} && Blank(blanks) && Sign(sign) && mark in {[48, 120], [48, 88]}
    requires Written(t, ds, 16) && t != [] && Ends(tail, 16)
    ensures Converted(blanks + sign + (mark + (t + tail)), base)
         == Outcome(WithSign(sign, Horner(ds, 16)), |blanks| + |sign| + 2 + |t|)
  {
    hide Horner, Converted, SubjectOf, Ends, HexAhead, Starts, Written, Digit;
    var rest := mark + (t + tail);
    MarkAhead(mark, t, ds, tail);
    SubjectAt(blanks, sign, rest, base);
    assert blanks + sign + rest == (blanks + sign + mark) + (t + tail);
    Placed(blanks + sign + mark, t, tail);
    Answer(blanks + sign + rest, base, Subject(sign == [45], 16, |blanks| + |sign| + 2), ds, tail);
  }

  /** 0x without a hexadecimal digit behind it is the number 0, and the x is not read. */
  lemma LoneZero(blanks: seq<Byte>, sign: seq<Byte>, x: Byte, tail: seq<Byte>, base: nat)
    requires base in {0, 16} && Blank(blanks) && Sign(sign) && x in {88, 120} && Ends(tail, 16)
    ensures Converted(blanks + sign + ([48] + ([x] + tail)), base) == Result(0, |blanks| + |sign| + 1, Unchanged)
  {
    hide Horner, Converted, SubjectOf;
    var rest := [48] + ([x] + tail);
    assert rest[0] == 48 && rest[1] == x && (tail != [] ==> rest[2] == tail[0]);
    SubjectAt(blanks, sign, rest, base);
    GlyphCode(0);
    var u := Subject(sign == [45], if base == 0 then 8 else 16, |blanks| + |sign|);
    Placed(blanks + sign, [48], [x] + tail);
    assert Written([48], [0], u.base);
    Answer(blanks + sign + rest, base, u, [0], [x] + tail);
    OneZero(u.base);
  }

  lemma OneZero(base: nat)
    ensures Horner([0], base) == 0
  {
    assert [0][..0] == [];
    assert Horner([], base) * base == 0;
  }

  /** Without a digit nothing is converted and the end is the beginning. */
  lemma NoNumber(blanks: seq<Byte>, sign: seq<Byte>, tail: seq<Byte>, base: nat)
    requires 2 <= base <= 36 && Blank(blanks) && Sign(sign) && Ends(tail, base)
    requires sign == [] ==> Starts(tail)
    ensures Converted(blanks + sign + tail, base) == Result(0, 0, Unchanged)
  {
    hide SkipSpace, RunEnd, Value, SubjectOf;
    var s, a := blanks + sign + tail, |blanks| + |sign|;
    SubjectAt(blanks, sign, tail, base);
    Shifted(blanks + sign, tail, 0);
    ZeroIsNoDigit();
    RunEndAt(s, base, a, a);
  }

  function Glyphs(ds: seq<nat>): (t: seq<Byte>)
    requires forall i :: 0 <= i < |ds| ==> ds[i] < 36
    ensures |t| == |ds| && forall i :: 0 <= i < |ds| ==> Writes(t[i], ds[i])
  {
    if ds == [] then []
    else GlyphCode(ds[0]); [DIGITS[ds[0]] as int as Byte] + Glyphs(ds[1..])
  }

  /** v written in a base, without leading zeros */
  function Spelling(v: nat, base: nat): (t: seq<Byte>)
    requires 2 <= base <= 36
    ensures Written(t, DigitsOf(v, base), base)
  {
    NumberOfDigits(v, base);
    Glyphs(DigitsOf(v, base))
  }

  /** Every number, written out in any base with either sign, reads back as itself, or clamped with ERANGE. */
  lemma NumbersReadBack(v: nat, base: nat, sign: seq<Byte>)
    requires 2 <= base <= 36 && Sign(sign)
    ensures var t := Spelling(v, base);
      Converted([] + sign + (t + []), base) == Outcome(WithSign(sign, v), |sign| + |t|)
  {
    hide DigitsOf, Horner, Converted, Spelling, Outcome;
    NumberOfDigits(v, base);
    PlainNumber([], sign, Spelling(v, base), DigitsOf(v, base), [], base);
  }

  // ----- Formatting ------------------------------------------------------------------------------

  lemma {:induction false} GlyphsOfLast(ds: seq<nat>, d: nat)
    requires d < 36 && forall i :: 0 <= i < |ds| ==> ds[i] < 36
    ensures Glyphs(ds + [d]) == Glyphs(ds) + [DIGITS[d] as int as Byte]
  {
    GlyphCode(d);
    if ds == [] {
      assert ds + [d] == [d] && [d][1..] == [];
    } else {
      assert (ds + [d])[1..] == ds[1..] + [d];
      GlyphsOfLast(ds[1..], d);
    }
  }

  lemma DigitsStep(m: nat)
    ensures DigitsOf(m, 10) == (if m < 10 then [] else DigitsOf(m / 10, 10)) + [m % 10]
  {
  }

  lemma SpellingStep(m: nat)
    ensures Spelling(m, 10) == (if m < 10 then [] else Spelling(m / 10, 10)) + [(48 + m % 10) as Byte]
  {
    hide Horner, Glyphs, DigitsOf, Written, Writes;
    GlyphCode(m % 10);
    NumberOfDigits(m, 10);
    NumberOfDigits(m / 10, 10);
    DigitsStep(m);
    GlyphsOfLast(if m < 10 then [] else DigitsOf(m / 10, 10), m % 10);
    NoGlyphs();
  }

  lemma NoGlyphs()
    ensures Glyphs([]) == []
  {
  }

  lemma {:induction false} DecimalIsSpelling(m: nat)
    ensures Decimal(m) == Spelling(m, 10)
    decreases m
  {
    hide Decimal, Spelling;
    DecimalStep(m);
    SpellingStep(m);
    if m >= 10 {
      DecimalIsSpelling(m / 10);
    }
  }

  /** A %Nd field: blanks up to the width, a minus sign for a negative number, and its decimal digits without waste. */
  lemma FieldIs(value: int, width: nat) returns (blanks: seq<Byte>)
    ensures Field(value, width)
         == blanks + if value < 0 then [45] + Spelling(-value, 10) else Spelling(value, 10)
    ensures forall i :: 0 <= i < |blanks| ==> blanks[i] == 32
    ensures |Field(value, width)| >= width && (blanks != [] ==> |Field(value, width)| == width)
  {
    hide Spelling, Decimal;
    DecimalIsSpelling(if value < 0 then -value else value);
    var n := Strtol.Number(value);
    blanks := if width > |n| then Spaces(width - |n|) else [];
  }
}
