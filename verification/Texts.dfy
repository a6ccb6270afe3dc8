/** JavaScript strings as sequences of UTF-16 code units, with the few text operations the workflows share. */
module Texts {
  type CodeUnit = u: int | 0 <= u < 0x10000
  type Text = seq<CodeUnit>

  datatype Option<+T> = None | Some(value: T)

  const NEWLINE: CodeUnit := 10
  const SPACE: CodeUnit := 32
  const DASH: CodeUnit := 45
  const SLASH: CodeUnit := 47
  const ZERO: CodeUnit := 48
  const COLON: CodeUnit := 58

  /** The text of an ASCII literal. */
  function Ascii(s: string): (t: Text)
    ensures |t| == |s|
    ensures forall i | 0 <= i < |s| :: t[i] == (s[i] as int) % 0x10000
  {
    seq(|s|, i requires 0 <= i < |s| => (s[i] as int) % 0x10000)
  }

  lemma AsciiDiffer(a: string, b: string, i: nat)
    requires i < |a| && i < |b| && (a[i] as int) % 0x10000 != (b[i] as int) % 0x10000
    ensures Ascii(a) != Ascii(b)
  {
    assert Ascii(a)[i] != Ascii(b)[i];
  }

  /** `u.repeat(n)` for a one-unit text. */
  function Repeat(u: CodeUnit, n: nat): (t: Text)
    ensures |t| == n && forall i | 0 <= i < n :: t[i] == u
  {
    seq(n, i => u)
  }

  function LowerUnit(u: CodeUnit): CodeUnit {
    if 65 <= u <= 90 then u + 32 else u
  }

  /** toLowerCase on the ASCII texts the workflows compare: addresses, ids, repository names. */
  function Lower(t: Text): (r: Text)
    ensures |r| == |t| && forall i | 0 <= i < |t| :: r[i] == LowerUnit(t[i])
  {
    seq(|t|, i requires 0 <= i < |t| => LowerUnit(t[i]))
  }

  /** String comparison with `<`: code unit by code unit, a proper prefix first. */
  predicate Less(a: Text, b: Text) {
    b != [] && (a == [] || a[0] < b[0] || (a[0] == b[0] && Less(a[1..], b[1..])))
  }

  lemma {:induction false} LessIrreflexive(a: Text)
    ensures !Less(a, a)
  {
    if a != [] { LessIrreflexive(a[1..]); }
  }

  lemma {:induction false} LessTransitive(a: Text, b: Text, c: Text)
    requires Less(a, b) && Less(b, c)
    ensures Less(a, c)
  {
    if a != [] && a[0] == b[0] == c[0] { LessTransitive(a[1..], b[1..], c[1..]); }
  }

  lemma {:induction false} LessTotal(a: Text, b: Text)
    ensures a == b || Less(a, b) || Less(b, a)
  {
    if a != [] && b != [] && a[0] == b[0] {
      LessTotal(a[1..], b[1..]);
      assert a == [a[0]] + a[1..] && b == [b[0]] + b[1..];
    }
  }

  predicate StartsWith(t: Text, p: Text) { |p| <= |t| && t[..|p|] == p }

  predicate IsDigit(u: CodeUnit) { 48 <= u <= 57 }

  predicate IsLowerHex(u: CodeUnit) { IsDigit(u) || 97 <= u <= 102 }

  /** The decimal digits of a number. */
  function Decimal(n: nat): (t: Text)
    ensures t != [] && forall i | 0 <= i < |t| :: IsDigit(t[i])
  {
    if n < 10 then [ZERO + n] else Decimal(n / 10) + [ZERO + n % 10]
  }

  function DecimalValue(t: Text): nat
    requires forall i | 0 <= i < |t| :: IsDigit(t[i])
  {
    if t == [] then 0
    else
      assert IsDigit(t[|t| - 1]);
      DecimalValue(t[..|t| - 1]) * 10 + (t[|t| - 1] - ZERO)
  }

  lemma {:induction false} DecimalRoundTrip(n: nat)
    ensures DecimalValue(Decimal(n)) == n
  {
    if n >= 10 {
      DecimalRoundTrip(n / 10);
      assert Decimal(n)[..|Decimal(n)| - 1] == Decimal(n / 10);
    }
  }

  function HexDigit(d: int): CodeUnit
    requires 0 <= d < 16
  {
    if d < 10 then 48 + d else 87 + d
  }

  /** Four lowercase hex digits of a code unit. */
  function Hex4(u: CodeUnit): (t: Text)
    ensures |t| == 4 && forall i | 0 <= i < |t| :: IsLowerHex(t[i])
  {
    [HexDigit(u / 4096), HexDigit(u / 256 % 16), HexDigit(u / 16 % 16), HexDigit(u % 16)]
  }

  function HexValue(x: CodeUnit): (d: int)
    requires IsLowerHex(x)
    ensures 0 <= d < 16
  {
    if x <= 57 then x - 48 else x - 87
  }

  function Hex4Value(t: Text): CodeUnit
    requires |t| == 4 && forall i | 0 <= i < |t| :: IsLowerHex(t[i])
  {
    HexValue(t[0]) * 4096 + HexValue(t[1]) * 256 + HexValue(t[2]) * 16 + HexValue(t[3])
  }

  lemma Hex4RoundTrip(u: CodeUnit)
    ensures Hex4Value(Hex4(u)) == u
  {
    var q := u / 16;
    var r := q / 16;
    assert u == q * 16 + u % 16 && q == r * 16 + q % 16 && r == (r / 16) * 16 + r % 16;
    assert u / 256 == r && u / 4096 == r / 16 < 16;
  }

  predicate Lacks(t: Text, sep: CodeUnit) { forall i | 0 <= i < |t| :: t[i] != sep }

  /** `t.split(sep)` for a one-unit separator. */
  function Split(t: Text, sep: CodeUnit): (parts: seq<Text>)
    ensures parts != []
  {
    if t == [] then [[]]
    else
      var rest := Split(t[1..], sep);
      if t[0] == sep then [[]] + rest else [[t[0]] + rest[0]] + rest[1..]
  }

  /** `parts.join(sep)`. */
  function Join(parts: seq<Text>, sep: CodeUnit): Text
    requires parts != []
  {
    if |parts| == 1 then parts[0] else parts[0] + [sep] + Join(parts[1..], sep)
  }

  lemma {:induction false} SplitUnits(a: Text, sep: CodeUnit)
    requires Lacks(a, sep)
    ensures Split(a, sep) == [a]
  {
    if a != [] {
      SplitUnits(a[1..], sep);
      assert a == [a[0]] + a[1..];
    }
  }

  lemma {:induction false} SplitAt(a: Text, b: Text, sep: CodeUnit)
    requires Lacks(a, sep)
    ensures Split(a + [sep] + b, sep) == [a] + Split(b, sep)
  {
    var t := a + [sep] + b;
    if a == [] {
      assert t[1..] == b;
    } else {
      assert t[1..] == a[1..] + [sep] + b;
      SplitAt(a[1..], b, sep);
      assert a == [a[0]] + a[1..];
    }
  }

  /** Splitting undoes joining when no part holds the separator. */
  lemma {:induction false} SplitJoin(parts: seq<Text>, sep: CodeUnit)
    requires parts != [] && forall i | 0 <= i < |parts| :: Lacks(parts[i], sep)
    ensures Split(Join(parts, sep), sep) == parts
  {
    if |parts| == 1 {
      SplitUnits(parts[0], sep);
    } else {
      SplitAt(parts[0], Join(parts[1..], sep), sep);
      SplitJoin(parts[1..], sep);
    }
  }

  /** Joining undoes splitting, always. */
  lemma {:induction false} JoinSplit(t: Text, sep: CodeUnit)
    ensures Join(Split(t, sep), sep) == t
    ensures forall i | 0 <= i < |Split(t, sep)| :: Lacks(Split(t, sep)[i], sep)
  {
    if t != [] {
      JoinSplit(t[1..], sep);
      var rest := Split(t[1..], sep);
      var parts := Split(t, sep);
      if t[0] == sep {
        assert parts[1..] == rest;
        assert Join(parts, sep) == [] + [sep] + t[1..];
      } else {
        assert parts[0] == [t[0]] + rest[0] && parts[1..] == rest[1..];
        if |rest| > 1 {
          assert Join(parts, sep) == [t[0]] + (rest[0] + [sep] + Join(rest[1..], sep));
        }
        assert t == [t[0]] + t[1..];
      }
    }
  }
}
