/** What the canonical printer writes, form by form, as JSON.stringify does: no decoder is in sight. */
module CanonicalForms {
  import opened Texts
  import opened Numbers
  import opened Sorting
  import opened Canonical
  import opened CanonicalProofs

  // ---- Strings ----

  predicate IsSurrogate(u: CodeUnit) { 0xD800 <= u <= 0xDFFF }

  /** The unit at this place is one half of a surrogate pair and the other half is beside it. */
  predicate IsPaired(s: Text, i: nat)
    requires i < |s|
  {
    || (0xD800 <= s[i] <= 0xDBFF && i + 1 < |s| && 0xDC00 <= s[i + 1] <= 0xDFFF)
    || (0xDC00 <= s[i] <= 0xDFFF && i > 0 && 0xD800 <= s[i - 1] <= 0xDBFF)
  }

  /** No quote, no backslash, no control unit and no lone surrogate. */
  predicate IsPlain(s: Text) {
    forall i | 0 <= i < |s| ::
      && s[i] != 34 && s[i] != 92 && s[i] >= 32
      && (IsSurrogate(s[i]) ==> IsPaired(s, i))
  }

  lemma PlainTail(s: Text, n: nat)
    requires n <= |s| && IsPlain(s)
    requires 0 < n < |s| ==> !(0xD800 <= s[n - 1] <= 0xDBFF && 0xDC00 <= s[n] <= 0xDFFF)
    ensures IsPlain(s[n..])
  {
    var t := s[n..];
    forall i | 0 <= i < |t| && IsSurrogate(t[i]) ensures IsPaired(t, i) { assert IsPaired(s, n + i); }
  }

  lemma PlainBehind(s: Text, n: nat)
    requires n <= |s| && IsPlain(s[n..]) && IsPlain(s[..n])
    ensures IsPlain(s)
  {
    forall i | 0 <= i < |s|
      ensures s[i] != 34 && s[i] != 92 && s[i] >= 32 && (IsSurrogate(s[i]) ==> IsPaired(s, i))
    {
      if i < n {
        assert s[..n][i] == s[i];
        if IsSurrogate(s[i]) { assert IsPaired(s[..n], i); }
      } else {
        assert s[n..][i - n] == s[i];
        if IsSurrogate(s[i]) { assert IsPaired(s[n..], i - n); }
      }
    }
  }

  lemma UnitIsLonger(u: CodeUnit)
    ensures |EscapeUnit(u)| >= 1
    ensures EscapeUnit(u) == [u] <==> u != 34 && u != 92 && u >= 32 && !IsSurrogate(u)
    ensures |EscapeUnit(u)| == 1 <==> EscapeUnit(u) == [u]
  {
  }

  lemma {:induction false} EscapeIsNoShorter(s: Text)
    ensures |Escape(s)| >= |s|
  {
    if s != [] {
      if |s| >= 2 && IsHigh(s[0]) && IsLow(s[1]) {
        EscapeIsNoShorter(s[2..]);
      } else {
        UnitIsLonger(s[0]);
        EscapeIsNoShorter(s[1..]);
      }
    }
  }

  /** A text prints as itself between two quotes exactly when it is plain. */
  lemma {:induction false} PlainPrintsAsItself(s: Text)
    ensures Escape(s) == s <==> IsPlain(s)
  {
    if s != [] {
      if |s| >= 2 && IsHigh(s[0]) && IsLow(s[1]) {
        var pair, rest := [s[0], s[1]], s[2..];
        assert s == pair + rest;
        PlainPrintsAsItself(rest);
        EscapeIsNoShorter(rest);
        assert IsPlain(pair);
        if IsPlain(s) { PlainTail(s, 2); }
        if IsPlain(rest) { assert s[..2] == pair; PlainBehind(s, 2); }
        if Escape(s) == s { assert Escape(s)[2..] == Escape(rest); }
      } else {
        var rest := s[1..];
        assert s == [s[0]] + rest;
        PlainPrintsAsItself(rest);
        EscapeIsNoShorter(rest);
        UnitIsLonger(s[0]);
        if IsPlain(s) { PlainTail(s, 1); }
        if EscapeUnit(s[0]) == [s[0]] && IsPlain(rest) { assert s[..1] == [s[0]]; PlainBehind(s, 1); }
        if Escape(s) == s { assert |EscapeUnit(s[0])| == 1; assert Escape(s)[1..] == Escape(rest); }
      }
    }
  }

  lemma TwoUnits(text: string, u: char)
    requires text == ['\\', u] && u as int < 128
    ensures Ascii(text) == [92, u as int]
  {
  }

  lemma EscapeSigns()
    ensures Ascii("\\\"") == [92, 34] && Ascii("\\\\") == [92, 92] && Ascii("\\b") == [92, 98]
    ensures Ascii("\\t") == [92, 116] && Ascii("\\n") == [92, 110] && Ascii("\\f") == [92, 102]
    ensures Ascii("\\r") == [92, 114] && Ascii("\\u") == [92, 117]
  {
    hide Ascii;
    TwoUnits("\\\"", '\"');
    TwoUnits("\\\\", '\\');
    TwoUnits("\\b", 'b');
    TwoUnits("\\t", 't');
    TwoUnits("\\n", 'n');
    TwoUnits("\\f", 'f');
    TwoUnits("\\r", 'r');
    TwoUnits("\\u", 'u');
  }

  /** The seven units with a letter or sign of their own, and how every other unit that is escaped is written. */
  lemma EscapesAre(u: CodeUnit)
    ensures EscapeUnit(34) == Ascii("\\\"") && EscapeUnit(92) == Ascii("\\\\")
    ensures EscapeUnit(8) == Ascii("\\b") && EscapeUnit(9) == Ascii("\\t") && EscapeUnit(10) == Ascii("\\n")
    ensures EscapeUnit(12) == Ascii("\\f") && EscapeUnit(13) == Ascii("\\r")
    ensures u !in {8, 9, 10, 12, 13} && (u < 32 || IsSurrogate(u)) ==> EscapeUnit(u) == Ascii("\\u") + Hex4(u)
    ensures u !in {34, 92} && u >= 32 && !IsSurrogate(u) ==> EscapeUnit(u) == [u]
    ensures Escape([u]) == EscapeUnit(u)
  {
    EscapeSigns();
    hide Ascii, Hex4;
    assert [u][1..] == [] && EscapeUnit(u) + [] == EscapeUnit(u);
  }

  /** Hexadecimal digits are in lower case, the highest first. */
  lemma HexDigitsAre()
    ensures Hex4(0x0123) == Ascii("0123") && Hex4(0x4567) == Ascii("4567")
    ensures Hex4(0x89AB) == Ascii("89ab") && Hex4(0xCDEF) == Ascii("cdef")
  {
  }

  /** Texts are written unit after unit; only a pair across the seam is seen as one. */
  lemma {:induction false} EscapeOfConcat(a: Text, b: Text)
    requires a == [] || b == [] || !(IsHigh(a[|a| - 1]) && IsLow(b[0]))
    ensures Escape(a + b) == Escape(a) + Escape(b)
  {
    hide EscapeUnit, IsHigh, IsLow;
    if a == [] {
      assert a + b == b;
    } else if |a| >= 2 && IsHigh(a[0]) && IsLow(a[1]) {
      assert (a + b)[2..] == a[2..] + b;
      EscapeOfConcat(a[2..], b);
    } else {
      assert (a + b)[1..] == a[1..] + b;
      EscapeOfConcat(a[1..], b);
      assert |a + b| >= 2 && |a| == 1 ==> (a + b)[1] == b[0];
    }
  }

  // ---- Numbers ----

  /** An integer is written without a leading zero, a plus sign or a negative zero. */
  lemma WholeNumbersAre(n: int)
    ensures var t := NumberText(n);
      && (n < 0 ==> t[0] == DASH && t[1..] == Decimal(-n)) && (n >= 0 ==> t == Decimal(n))
      && (Decimal(if n < 0 then -n else n)[0] == ZERO <==> n == 0) && (n == 0 ==> t == Ascii("0"))
  {
    DecimalLeads(if n < 0 then -n else n);
  }

  lemma {:induction false} DecimalLeads(n: nat)
    ensures Decimal(n)[0] == ZERO <==> n == 0
    ensures n < 10 ==> Decimal(n) == [48 + n]
  {
    if n >= 10 { DecimalLeads(n / 10); }
  }

  lemma SignsAre()
    ensures Ascii("-") == [DASH] && Ascii(".") == [DOT] && Ascii("0.") == [ZERO, DOT]
    ensures Ascii("e+") == [LETTER_E, PLUS] && Ascii("e-") == [LETTER_E, DASH]
  {
  }

  /** A fraction from a millionth up to one is written out behind "0.". */
  lemma SmallFractionsAre(digits: Text, point: int)
    requires digits != [] && -5 <= point <= 0
    ensures UnsignedText(digits, point) == Ascii("0.") + Repeat(ZERO, -point) + digits
  {
    SignsAre();
    hide Ascii, Repeat;
  }

  /** One from 1 up to 10^21 has its point among its digits. */
  lemma MiddleFractionsAre(digits: Text, point: int)
    requires 1 <= point <= 21 && point < |digits|
    ensures UnsignedText(digits, point) == digits[..point] + Ascii(".") + digits[point..]
  {
    SignsAre();
    hide Ascii;
  }

  /** Any other number has the exponent form, with one digit in front of the point. */
  lemma ExponentsAre(digits: Text, point: int)
    requires digits != [] && (point < -5 || point > 21)
    ensures UnsignedText(digits, point) == digits[..1] + (if |digits| == 1 then [] else Ascii(".") + digits[1..])
      + (if point > 21 then Ascii("e+") + Decimal(point - 1) else Ascii("e-") + Decimal(1 - point))
  {
    SignsAre();
    hide Ascii, Decimal;
    var fraction := if |digits| == 1 then [] else [DOT] + digits[1..];
    var e := ExponentText(point - 1);
    assert digits[..1] + (fraction + ([LETTER_E] + e)) == digits[..1] + fraction + ([LETTER_E] + e);
    if point > 21 { assert [LETTER_E] + e == [LETTER_E, PLUS] + Decimal(point - 1); }
    else { assert [LETTER_E] + e == [LETTER_E, DASH] + Decimal(1 - point); }
  }

  /**
   Which form a number that is not an integer below 10^21 has: written out from a millionth on and below
   10^21, and otherwise with an exponent.
   */
  lemma FractionsAre(f: Fraction)
    ensures FractionText(f) == (if f.negative then Ascii("-") else []) + UnsignedText(f.digits, f.point)
    ensures var t := UnsignedText(f.digits, f.point);
      if -5 <= f.point <= 0 then t == Ascii("0.") + Repeat(ZERO, -f.point) + f.digits
      else if 1 <= f.point <= 21 then t == f.digits[..f.point] + Ascii(".") + f.digits[f.point..]
      else
        t == f.digits[..1] + (if |f.digits| == 1 then [] else Ascii(".") + f.digits[1..])
             + (if f.point > 21 then Ascii("e+") + Decimal(f.point - 1) else Ascii("e-") + Decimal(1 - f.point))
  {
    SignsAre();
    hide Ascii, Decimal, Repeat, UnsignedText;
    if -5 <= f.point <= 0 { SmallFractionsAre(f.digits, f.point); }
    else if 1 <= f.point <= 21 { MiddleFractionsAre(f.digits, f.point); }
    else { ExponentsAre(f.digits, f.point); }
  }

  // ---- Objects and arrays ----

  /** The order of keys: the first unit in which they differ decides, and a beginning comes before the whole. */
  predicate ComesBefore(a: Text, b: Text, i: nat) {
    && i <= |a| && i < |b| && a[..i] == b[..i]
    && (i == |a| || a[i] < b[i])
  }

  ghost predicate IsSmaller(a: Text, b: Text) { exists i: nat :: ComesBefore(a, b, i) }

  lemma FirstUnitsAgree(a: Text, b: Text, i: nat)
    requires ComesBefore(a, b, i) && i > 0
    ensures a != [] && b != [] && a[0] == b[0]
  {
    assert a[..i][0] == a[0] && b[..i][0] == b[0];
  }

  /** The comparison is by that order. */
  lemma {:induction false} LessIsByFirstDifference(a: Text, b: Text)
    ensures Less(a, b) <==> IsSmaller(a, b)
  {
    forall i: nat | ComesBefore(a, b, i) && i > 0 ensures a != [] && b != [] && a[0] == b[0] {
      FirstUnitsAgree(a, b, i);
    }
    if a == [] || b == [] || a[0] != b[0] {
      if b != [] && (a == [] || a[0] < b[0]) { assert ComesBefore(a, b, 0); }
    } else {
      var x, y := a[1..], b[1..];
      LessIsByFirstDifference(x, y);
      if i: nat :| ComesBefore(x, y, i) {
        assert a[..i + 1] == [a[0]] + x[..i] && b[..i + 1] == [b[0]] + y[..i];
        assert ComesBefore(a, b, i + 1);
      }
      if i: nat :| ComesBefore(a, b, i) {
        assert i > 0;
        assert x[..i - 1] == a[..i][1..] && y[..i - 1] == b[..i][1..];
        assert ComesBefore(x, y, i - 1);
      }
    }
  }

  function TextOf(v: Json): Text { if CanonicalJson(v).Printed? then CanonicalJson(v).text else [] }

  function ItemTexts(items: seq<Json>): seq<Text> { seq(|items|, i requires 0 <= i < |items| => TextOf(items[i])) }

  function MemberTexts(ms: seq<Member>): seq<Text> {
    seq(|ms|, i requires 0 <= i < |ms| => QuoteText(ms[i].key) + Ascii(":") + TextOf(ms[i].value))
  }

  function Commas(texts: seq<Text>): Text { if texts == [] then [] else Join(texts, COMMA) }

  lemma JoinedCons(first: Text, rest: seq<Text>)
    requires rest != []
    ensures Commas([first] + rest) == first + [COMMA] + Commas(rest)
  {
    assert ([first] + rest)[1..] == rest;
  }

  lemma {:induction false} ItemsAreJoined(items: seq<Json>)
    requires ItemsText(items).Printed?
    ensures ItemsText(items).text == Commas(ItemTexts(items))
  {
    hide CanonicalJson, Join;
    if |items| > 1 {
      ItemsAreJoined(items[1..]);
      assert ItemTexts(items) == [TextOf(items[0])] + ItemTexts(items[1..]);
      JoinedCons(TextOf(items[0]), ItemTexts(items[1..]));
    } else if |items| == 1 {
      OnlyOne(TextOf(items[0]));
      assert ItemTexts(items) == [TextOf(items[0])];
    }
  }

  lemma OnlyOne(t: Text)
    ensures Commas([t]) == t
  {
  }

  lemma MemberIsJoined(m: Member)
    requires MemberText(m).Printed?
    ensures MemberText(m).text == QuoteText(m.key) + Ascii(":") + TextOf(m.value)
  {
    assert Ascii(":") == [COLON];
    hide CanonicalJson, QuoteText, Ascii;
  }

  lemma {:induction false} MembersAreJoined(ms: seq<Member>)
    requires MembersText(ms).Printed?
    ensures MembersText(ms).text == Commas(MemberTexts(ms))
  {
    hide MemberText, QuoteText, Ascii, TextOf, Join;
    if ms != [] {
      MemberIsJoined(ms[0]);
      var first := QuoteText(ms[0].key) + Ascii(":") + TextOf(ms[0].value);
      if |ms| > 1 {
        MembersAreJoined(ms[1..]);
        assert MemberTexts(ms) == [first] + MemberTexts(ms[1..]);
        hide MemberTexts;
        JoinedCons(first, MemberTexts(ms[1..]));
      } else {
        OnlyOne(first);
        assert MemberTexts(ms) == [first];
      }
    }
  }

  lemma BracketsAre()
    ensures Ascii("null") == NULL_TEXT && Ascii("true") == TRUE_TEXT && Ascii("false") == FALSE_TEXT
    ensures Ascii("\"") == [QUOTE] && Ascii("[") == [LBRACKET] && Ascii("]") == [RBRACKET]
  {
  }

  /** The constants, the brackets and the commas; nothing else stands between the parts. */
  lemma PartsAreJoined(v: Json)
    requires CanonicalJson(v).Printed?
    ensures var t := CanonicalJson(v).text;
      match v
      case Null => t == Ascii("null")
      case Bool(b) => t == if b then Ascii("true") else Ascii("false")
      case Str(s) => t == Ascii("\"") + Escape(s) + Ascii("\"")
      case Arr(items) => t == Ascii("[") + Commas(ItemTexts(items)) + Ascii("]")
      case _ => true
  {
    BracketsAre();
    if v.Arr? { ItemsAreJoined(v.items); }
    hide Ascii, Escape, ItemsText, ItemTexts, Commas;
  }

  /** An object's members are written in ascending order of their keys, each key quoted, a colon, its value. */
  lemma MembersAscend(members: seq<Member>) returns (sorted: seq<Member>)
    requires DistinctKeys(members) && CanonicalJson(Obj(members)).Printed?
    ensures multiset(sorted) == multiset(members)
    ensures forall i, j | 0 <= i < j < |sorted| :: IsSmaller(sorted[i].key, sorted[j].key)
    ensures CanonicalJson(Obj(members)).text == Ascii("{") + Commas(MemberTexts(sorted)) + Ascii("}")
  {
    sorted := SortBy(members, KeyBefore);
    ObjectIsBraced(members);
    MembersAreJoined(sorted);
    KeysAscend(members);
    hide Commas, MemberTexts, IsSmaller, SortBy, MembersText, CanonicalJson, Ascii, DistinctKeys;
  }

  lemma ObjectIsBraced(members: seq<Member>)
    requires CanonicalJson(Obj(members)).Printed?
    ensures var sorted := SortBy(members, KeyBefore);
      && multiset(sorted) == multiset(members) && MembersText(sorted).Printed?
      && CanonicalJson(Obj(members)).text == Ascii("{") + MembersText(sorted).text + Ascii("}")
  {
    assert Ascii("{") == [LBRACE] && Ascii("}") == [RBRACE];
    hide Ascii, SortBy, MembersText, MembersSize;
  }

  lemma KeysAscend(members: seq<Member>)
    requires DistinctKeys(members)
    ensures var sorted := SortBy(members, KeyBefore);
      forall i, j | 0 <= i < j < |sorted| :: IsSmaller(sorted[i].key, sorted[j].key)
  {
    hide Less, IsSmaller;
    var sorted := SortBy(members, KeyBefore);
    LessIsStrictWeak((m: Member) => m.key, KeyBefore);
    forall i, j | 0 <= i < j < |members|
      ensures KeyBefore(members[i], members[j]) || KeyBefore(members[j], members[i])
    {
      LessTotal(members[i].key, members[j].key);
    }
    SortStrict(members, KeyBefore);
    forall i, j | 0 <= i < j < |sorted| ensures IsSmaller(sorted[i].key, sorted[j].key) {
      assert KeyBefore(sorted[i], sorted[j]);
      LessIsByFirstDifference(sorted[i].key, sorted[j].key);
    }
  }

  // ---- What is thrown ----

  /** Somewhere in the value there is a leaf that throws this. */
  ghost predicate HasBadLeaf(v: Json, e: Error) {
    match v
    case NonFinite => e == CanonicalNumber
    case Undefined => e == CanonicalType
    case Foreign => e == CanonicalType
    case Arr(items) => exists i :: 0 <= i < |items| && HasBadLeaf(items[i], e)
    case Obj(members) =>
      exists i :: 0 <= i < |members|
        && if members[i].value.Undefined? then e == CanonicalUndefined else HasBadLeaf(members[i].value, e)
    case _ => false
  }

  ghost predicate BadMember(m: Member, e: Error) {
    if m.value.Undefined? then e == CanonicalUndefined else HasBadLeaf(m.value, e)
  }

  /** An error names what is there: a number that is not finite, an undefined member, or a value without a form. */
  lemma {:induction false} ErrorIsThere(v: Json)
    requires CanonicalJson(v).Throws?
    ensures HasBadLeaf(v, CanonicalJson(v).error)
    decreases Size(v), 0
  {
    match v
    case Arr(items) => var i := ItemsErrorIsThere(items);
    case Obj(members) =>
      var sorted := SortBy(members, KeyBefore);
      SortSize(members);
      var i := MembersErrorIsThere(sorted);
      SortKeepsElements(members, KeyBefore);
      assert sorted[i] in members;
      var j :| 0 <= j < |members| && members[j] == sorted[i];
      assert BadMember(members[j], CanonicalJson(v).error);
    case _ =>
  }

  lemma {:induction false} ItemsErrorIsThere(items: seq<Json>) returns (i: nat)
    requires ItemsText(items).Throws?
    ensures i < |items| && HasBadLeaf(items[i], ItemsText(items).error)
    decreases ItemsSize(items), 0
  {
    if CanonicalJson(items[0]).Throws? {
      ErrorIsThere(items[0]);
      i := 0;
    } else {
      var j := ItemsErrorIsThere(items[1..]);
      i := j + 1;
    }
  }

  lemma {:induction false} MembersErrorIsThere(members: seq<Member>) returns (i: nat)
    requires MembersText(members).Throws?
    ensures i < |members| && BadMember(members[i], MembersText(members).error)
    decreases MembersSize(members), 0
  {
    if MemberText(members[0]).Throws? {
      if !members[0].value.Undefined? { ErrorIsThere(members[0].value); }
      i := 0;
    } else {
      var j := MembersErrorIsThere(members[1..]);
      i := j + 1;
    }
  }
}
