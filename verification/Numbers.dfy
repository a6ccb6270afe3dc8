/**
 How JavaScript prints a finite number (Number::toString in ECMA-262, which JSON.stringify uses) and how
 the text is read back.
 */
module Numbers {
  import opened Lists
  import opened Texts

  const PLUS: CodeUnit := 43
  const DOT: CodeUnit := 46
  const LETTER_E: CodeUnit := 101

  datatype Parse<+T> = NoParse | Got(value: T, rest: Text)

  /** The number 0.digits times ten to the power of `point`, negated if so marked. */
  datatype Scientific = Scientific(negative: bool, digits: Text, point: int)

  /** The shortest decimal of a number that is not an integer below ten to the power of 21. */
  predicate IsFraction(s: Scientific) {
    && s.digits != [] && (forall i | 0 <= i < |s.digits| :: IsDigit(s.digits[i]))
    && s.digits[0] != ZERO && s.digits[|s.digits| - 1] != ZERO
    && !(|s.digits| <= s.point <= 21)
  }

  type Fraction = s: Scientific | IsFraction(s) witness Scientific(false, [53], 0)

  /** A number as the decoder reads it. */
  datatype Number = Whole(n: int) | Broken(s: Scientific)

  // ---- Printing ----

  /** An integer below ten to the power of 21. */
  function NumberText(n: int): Text { if n < 0 then [DASH] + Decimal(-n) else Decimal(n) }

  function ExponentText(e: int): Text { if e < 0 then [DASH] + Decimal(-e) else [PLUS] + Decimal(e) }

  function UnsignedText(digits: Text, point: int): Text
    requires digits != []
  {
    if 0 < point <= 21 && point < |digits| then digits[..point] + [DOT] + digits[point..]
    else if -6 < point <= 0 then [ZERO, DOT] + (Repeat(ZERO, -point) + digits)
    else digits[..1] + ((if |digits| == 1 then [] else [DOT] + digits[1..]) + ([LETTER_E] + ExponentText(point - 1)))
  }

  function Sign(negative: bool): Text { if negative then [DASH] else [] }

  function FractionText(f: Fraction): Text { Sign(f.negative) + UnsignedText(f.digits, f.point) }

  // ---- Reading ----

  function DigitRun(t: Text): (k: nat)
    ensures k <= |t| && forall i | 0 <= i < k :: IsDigit(t[i])
  {
    if t == [] || !IsDigit(t[0]) then 0 else 1 + DigitRun(t[1..])
  }

  function ZeroRun(t: Text): (k: nat)
    ensures k <= |t|
  {
    if t == [] || t[0] != ZERO then 0 else 1 + ZeroRun(t[1..])
  }

  function ReadNumber(t: Text): (r: Parse<Number>)
    ensures r.Got? ==> |r.rest| < |t|
  {
    var negative := t != [] && t[0] == DASH;
    var digits := if negative then t[1..] else t;
    var k := DigitRun(digits);
    if k == 0 then NoParse else ReadTail(negative, digits[..k], digits[k..])
  }

  function ReadTail(negative: bool, whole: Text, t: Text): (r: Parse<Number>)
    requires forall i | 0 <= i < |whole| :: IsDigit(whole[i])
    ensures r.Got? ==> |r.rest| <= |t|
  {
    if t != [] && t[0] == DOT then
      var j := DigitRun(t[1..]);
      ReadExponent(negative, whole, t[1..][..j], t[1..][j..])
    else if t != [] && t[0] == LETTER_E then ReadExponent(negative, whole, [], t)
    else Got(Whole(if negative then 0 - DecimalValue(whole) else DecimalValue(whole)), t)
  }

  function ReadExponent(negative: bool, whole: Text, part: Text, t: Text): (r: Parse<Number>)
    ensures r.Got? ==> |r.rest| <= |t|
  {
    if t != [] && t[0] == LETTER_E then
      if |t| < 2 || (t[1] != PLUS && t[1] != DASH) || DigitRun(t[2..]) == 0 then NoParse
      else
        var m := DigitRun(t[2..]);
        var e: int := DecimalValue(t[2..][..m]);
        Got(Broken(Scientific(negative, whole + part, (if t[1] == DASH then -e else e) + |whole|)), t[2..][m..])
    else if whole == [ZERO] then
      var z: int := ZeroRun(part);
      Got(Broken(Scientific(negative, part[z..], -z)), t)
    else Got(Broken(Scientific(negative, whole + part, |whole|)), t)
  }

  // ---- Printed numbers are read back ----

  predicate ContinuesNumber(rest: Text) {
    rest != [] && (IsDigit(rest[0]) || rest[0] == DOT || rest[0] == LETTER_E)
  }

  lemma {:induction false} DigitRunStops(d: Text, rest: Text)
    requires forall i | 0 <= i < |d| :: IsDigit(d[i])
    requires rest != [] ==> !IsDigit(rest[0])
    ensures DigitRun(d + rest) == |d|
    ensures (d + rest)[..|d|] == d && (d + rest)[|d|..] == rest
  {
    if d == [] {
      assert d + rest == rest;
    } else {
      assert (d + rest)[1..] == d[1..] + rest;
      DigitRunStops(d[1..], rest);
    }
  }

  lemma {:induction false} ZeroRunStops(n: nat, digits: Text)
    requires digits != [] && digits[0] != ZERO
    ensures ZeroRun(Repeat(ZERO, n) + digits) == n && (Repeat(ZERO, n) + digits)[n..] == digits
  {
    if n == 0 {
      assert Repeat(ZERO, n) + digits == digits;
    } else {
      assert (Repeat(ZERO, n) + digits)[1..] == Repeat(ZERO, n - 1) + digits;
      ZeroRunStops(n - 1, digits);
    }
  }

  /** A sign and a run of digits come off the front. */
  lemma ReadFront(negative: bool, whole: Text, tail: Text)
    requires whole != [] && (forall i | 0 <= i < |whole| :: IsDigit(whole[i]))
    requires tail != [] ==> !IsDigit(tail[0])
    ensures ReadNumber(Sign(negative) + (whole + tail)) == ReadTail(negative, whole, tail)
  {
    hide ReadTail;
    var t := Sign(negative) + (whole + tail);
    DigitRunStops(whole, tail);
    if negative { assert t[1..] == whole + tail; } else { assert t == whole + tail && t[0] == whole[0]; }
  }

  lemma NumberRoundTrip(n: int, rest: Text)
    requires !ContinuesNumber(rest)
    ensures ReadNumber(NumberText(n) + rest) == Got(Whole(n), rest)
  {
    hide Decimal, DecimalValue, ReadNumber;
    var m := if n < 0 then -n else n;
    DecimalRoundTrip(m);
    ReadFront(n < 0, Decimal(m), rest);
    assert NumberText(n) + rest == Sign(n < 0) + (Decimal(m) + rest);
  }

  lemma ExponentParts(e: int, rest: Text)
    ensures var t := [LETTER_E] + ExponentText(e) + rest; var m := if e < 0 then -e else e;
      && |t| >= 2 && t[0] == LETTER_E && t[1] == (if e < 0 then DASH else PLUS) && t[2..] == Decimal(m) + rest
  {
    hide Decimal;
  }

  lemma ReadsExponent(negative: bool, whole: Text, part: Text, e: int, rest: Text)
    requires !ContinuesNumber(rest)
    ensures ReadExponent(negative, whole, part, [LETTER_E] + ExponentText(e) + rest)
      == Got(Broken(Scientific(negative, whole + part, e + |whole|)), rest)
  {
    hide Decimal, DecimalValue, DigitRun, ExponentText, ZeroRun;
    var m := if e < 0 then -e else e;
    DecimalRoundTrip(m);
    DigitRunStops(Decimal(m), rest);
    ExponentParts(e, rest);
  }

  lemma ReadsPart(negative: bool, whole: Text, part: Text, t: Text)
    requires forall i | 0 <= i < |whole| :: IsDigit(whole[i])
    requires forall i | 0 <= i < |part| :: IsDigit(part[i])
    requires t != [] ==> !IsDigit(t[0])
    ensures ReadTail(negative, whole, [DOT] + (part + t)) == ReadExponent(negative, whole, part, t)
  {
    hide ReadExponent;
    assert ([DOT] + (part + t))[1..] == part + t;
    DigitRunStops(part, t);
  }

  lemma PlainRoundTrip(f: Fraction, rest: Text)
    requires !ContinuesNumber(rest) && 0 < f.point <= 21
    ensures ReadNumber(FractionText(f) + rest) == Got(Broken(f), rest)
  {
    hide ReadNumber, ReadTail;
    var whole, part := f.digits[..f.point], f.digits[f.point..];
    ReadFront(f.negative, whole, [DOT] + (part + rest));
    ReadsPart(f.negative, whole, part, rest);
    assert whole + part == f.digits && whole[0] != ZERO;
    Regroup(Sign(f.negative), UnsignedText(f.digits, f.point), rest);
    assert UnsignedText(f.digits, f.point) + rest == whole + ([DOT] + (part + rest));
  }

  lemma SmallText(f: Fraction, part: Text, rest: Text)
    requires -6 < f.point <= 0 && part == Repeat(ZERO, -f.point) + f.digits
    ensures FractionText(f) + rest == Sign(f.negative) + ([ZERO] + ([DOT] + (part + rest)))
  {
    hide Repeat;
    Regroup(Sign(f.negative), [ZERO, DOT] + part, rest);
    Regroup([ZERO, DOT], part, rest);
    assert [ZERO, DOT] + (part + rest) == [ZERO] + ([DOT] + (part + rest));
  }

  lemma SmallRoundTrip(f: Fraction, rest: Text)
    requires !ContinuesNumber(rest) && -6 < f.point <= 0
    ensures ReadNumber(FractionText(f) + rest) == Got(Broken(f), rest)
  {
    hide ReadNumber, ReadTail, FractionText, ReadExponent, ZeroRun;
    var part := Repeat(ZERO, -f.point) + f.digits;
    ReadFront(f.negative, [ZERO], [DOT] + (part + rest));
    ReadsPart(f.negative, [ZERO], part, rest);
    SmallText(f, part, rest);
    ReadsSmall(f, part, rest);
  }

  lemma ReadsSmall(f: Fraction, part: Text, rest: Text)
    requires !ContinuesNumber(rest) && -6 < f.point <= 0 && part == Repeat(ZERO, -f.point) + f.digits
    ensures ReadExponent(f.negative, [ZERO], part, rest) == Got(Broken(f), rest)
  {
    ZeroRunStops(-f.point, f.digits);
  }

  lemma ExponentTexts(f: Fraction, tail: Text, rest: Text)
    requires f.point > 21 || f.point <= -6
    requires tail == [LETTER_E] + ExponentText(f.point - 1) + rest
    ensures FractionText(f) + rest
      == Sign(f.negative) + (f.digits[..1] + if |f.digits| == 1 then tail else [DOT] + (f.digits[1..] + tail))
  {
    hide ExponentText;
    var whole, part, e := f.digits[..1], f.digits[1..], [LETTER_E] + ExponentText(f.point - 1);
    var middle := if |f.digits| == 1 then [] else [DOT] + part;
    Regroup(Sign(f.negative), whole + (middle + e), rest);
    Regroup(whole, middle + e, rest);
    Regroup(middle, e, rest);
    if |f.digits| > 1 { Regroup([DOT], part, tail); }
  }

  lemma ExponentRoundTrip(f: Fraction, rest: Text)
    requires !ContinuesNumber(rest) && (f.point > 21 || f.point <= -6)
    ensures ReadNumber(FractionText(f) + rest) == Got(Broken(f), rest)
  {
    hide ReadNumber, ReadExponent, ExponentText, FractionText;
    var whole, part := f.digits[..1], f.digits[1..];
    var tail := [LETTER_E] + ExponentText(f.point - 1) + rest;
    ReadsExponent(f.negative, whole, part, f.point - 1, rest);
    ExponentTexts(f, tail, rest);
    assert whole + part == f.digits;
    if |f.digits| == 1 {
      ReadFront(f.negative, whole, tail);
    } else {
      ReadFront(f.negative, whole, [DOT] + (part + tail));
      ReadsPart(f.negative, whole, part, tail);
    }
  }

  /** Every finite number that is not a plain integer reads back from its decimal or exponent form. */
  lemma FractionRoundTrip(f: Fraction, rest: Text)
    requires !ContinuesNumber(rest)
    ensures ReadNumber(FractionText(f) + rest) == Got(Broken(f), rest)
  {
    if 0 < f.point <= 21 { PlainRoundTrip(f, rest); }
    else if -6 < f.point <= 0 { SmallRoundTrip(f, rest); }
    else { ExponentRoundTrip(f, rest); }
  }

  /** The units numbers are written in. */
  predicate IsNumberUnit(u: CodeUnit) { IsDigit(u) || u in {DASH, PLUS, DOT, LETTER_E} }

  lemma NumberUnits(n: int)
    ensures NumberText(n) != [] && (NumberText(n)[0] == DASH || IsDigit(NumberText(n)[0]))
    ensures forall i | 0 <= i < |NumberText(n)| :: IsNumberUnit(NumberText(n)[i])
  {
    var d := Decimal(if n < 0 then -n else n);
    assert forall i | 0 <= i < |d| :: IsDigit(d[i]);
  }

  lemma ExponentUnits(e: int)
    ensures forall i | 0 <= i < |ExponentText(e)| :: IsNumberUnit(ExponentText(e)[i])
  {
    var d := Decimal(if e < 0 then -e else e);
    assert forall i | 0 <= i < |d| :: IsDigit(d[i]);
  }

  lemma FractionUnits(f: Fraction)
    ensures FractionText(f) != [] && (FractionText(f)[0] == DASH || IsDigit(FractionText(f)[0]))
    ensures forall i | 0 <= i < |FractionText(f)| :: IsNumberUnit(FractionText(f)[i])
  {
    hide ExponentText;
    ExponentUnits(f.point - 1);
    var u := UnsignedText(f.digits, f.point);
    assert forall i | 0 <= i < |f.digits| :: IsDigit(f.digits[i]);
    assert forall i | 0 <= i < |u| :: IsNumberUnit(u[i]);
  }
}
