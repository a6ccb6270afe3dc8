/** The canonical text can be read back, so equal texts mean equal values, and key order never shows. */
module CanonicalProofs {
  import opened Texts
  import opened Numbers
  import opened Sorting
  import opened Canonical
  import Lists

  // ---- Strings and numbers are read back ----

  lemma UnitRoundTrip(u: CodeUnit, rest: Text)
    ensures EscapeUnit(u) != [] && EscapeUnit(u)[0] != QUOTE
    ensures ReadUnit(EscapeUnit(u) + rest) == Got(u, rest)
  {
    var t := EscapeUnit(u) + rest;
    if |EscapeUnit(u)| == 6 {
      Hex4RoundTrip(u);
      assert t[2..6] == Hex4(u);
      assert forall i | 2 <= i < 6 :: t[i] == Hex4(u)[i - 2];
      assert t[6..] == rest;
    } else if |EscapeUnit(u)| == 2 {
      assert t[2..] == rest;
    } else {
      assert t[1..] == rest;
    }
  }

  lemma ReadEscaped(u: CodeUnit, more: Text, s: Text, rest: Text)
    requires ReadString(more) == Got(s, rest)
    ensures ReadString(EscapeUnit(u) + more) == Got([u] + s, rest)
  {
    UnitRoundTrip(u, more);
  }

  lemma ReadRaw(u: CodeUnit, more: Text, s: Text, rest: Text)
    requires IsHigh(u) || IsLow(u)
    requires ReadString(more) == Got(s, rest)
    ensures ReadString([u] + more) == Got([u] + s, rest)
  {
    assert ([u] + more)[1..] == more;
  }

  lemma ReadPair(high: CodeUnit, low: CodeUnit, more: Text, s: Text, rest: Text)
    requires IsHigh(high) && IsLow(low)
    requires ReadString(more) == Got(s, rest)
    ensures ReadString([high, low] + more) == Got([high, low] + s, rest)
  {
    hide ReadString, IsHigh, IsLow;
    ReadRaw(low, more, s, rest);
    ReadRaw(high, [low] + more, [low] + s, rest);
    assert [high, low] + more == [high] + ([low] + more) && [high, low] + s == [high] + ([low] + s);
  }

  lemma ReadEnd(rest: Text)
    ensures ReadString([QUOTE] + rest) == Got([], rest)
  {
    assert ([QUOTE] + rest)[1..] == rest;
  }

  lemma {:induction false} StringRoundTrip(s: Text, end: Text, rest: Text)
    requires end == [QUOTE] + rest
    ensures ReadString(Escape(s) + end) == Got(s, rest)
  {
    hide ReadString, EscapeUnit, IsHigh, IsLow;
    if s == [] {
      assert Escape(s) + end == end;
      ReadEnd(rest);
    } else if |s| >= 2 && IsHigh(s[0]) && IsLow(s[1]) {
      StringRoundTrip(s[2..], end, rest);
      var first, tail := [s[0], s[1]], s[2..];
      ReadPair(s[0], s[1], Escape(tail) + end, tail, rest);
      Lists.Regroup(first, Escape(tail), end);
      assert first + tail == s;
    } else {
      StringRoundTrip(s[1..], end, rest);
      var tail := s[1..];
      ReadEscaped(s[0], Escape(tail) + end, tail, rest);
      Lists.Regroup(EscapeUnit(s[0]), Escape(tail), end);
      assert [s[0]] + tail == s;
    }
  }

  // ---- Values are read back ----

  predicate OpensValue(u: CodeUnit) { u !in {RBRACKET, RBRACE, COMMA, COLON} }

  lemma TextOpens(v: Json)
    requires CanonicalJson(v).Printed?
    ensures CanonicalJson(v).text != [] && OpensValue(CanonicalJson(v).text[0])
  {
    if v.Num? { NumberUnits(v.n); }
    if v.Dec? { FractionUnits(v.f); }
  }

  lemma Enclosed(open: CodeUnit, inner: Text, close: CodeUnit, rest: Text)
    ensures var t := [open] + inner + [close] + rest;
      && |t| >= 2 && t[0] == open && t[1..] == inner + ([close] + rest)
      && t[1] == (if inner == [] then close else inner[0])
      && (inner == [] ==> t[2..] == rest)
  {
  }

  lemma StringValueRoundTrip(s: Text, rest: Text)
    ensures ReadValue(QuoteText(s) + rest) == Got(VStr(s), rest)
  {
    StringRoundTrip(s, [QUOTE] + rest, rest);
    Enclosed(QUOTE, Escape(s), QUOTE, rest);
  }

  lemma NumberValueRoundTrip(v: Json, rest: Text)
    requires !ContinuesNumber(rest) && (v.Num? || v.Dec?)
    ensures ReadValue(CanonicalJson(v).text + rest) == Got(Meaning(v), rest)
  {
    hide ReadNumber, NumberText, FractionText, ContinuesNumber;
    var t := CanonicalJson(v).text + rest;
    if v.Num? {
      NumberUnits(v.n);
      NumberRoundTrip(v.n, rest);
    } else {
      FractionUnits(v.f);
      FractionRoundTrip(v.f, rest);
    }
    assert t[0] == CanonicalJson(v).text[0];
  }

  lemma ConstantRoundTrip(v: Json, rest: Text)
    requires v.Null? || v.Bool?
    ensures ReadValue(CanonicalJson(v).text + rest) == Got(Meaning(v), rest)
  {
    var t := CanonicalJson(v).text + rest;
    if v.Null? { assert t[..4] == NULL_TEXT && t[4..] == rest; }
    else if v.b { assert t[..4] == TRUE_TEXT && t[4..] == rest; }
    else { assert t[..5] == FALSE_TEXT && t[5..] == rest && t[..4][0] == 102; }
  }

  lemma ReadArray(inner: Text, vs: seq<Value>, rest: Text)
    requires inner == [] <==> vs == []
    requires inner != [] ==> OpensValue(inner[0]) && ReadItems(inner + ([RBRACKET] + rest)) == Got(vs, rest)
    ensures ReadValue([LBRACKET] + inner + [RBRACKET] + rest) == Got(VList(vs), rest)
  {
    Enclosed(LBRACKET, inner, RBRACKET, rest);
  }

  lemma ReadObject(inner: Text, fields: map<Text, Value>, rest: Text)
    requires inner == [] ==> fields == map[]
    requires inner != [] ==> inner[0] == QUOTE && ReadMembers(inner + ([RBRACE] + rest)) == Got(fields, rest)
    ensures ReadValue([LBRACE] + inner + [RBRACE] + rest) == Got(VRecord(fields), rest)
  {
    Enclosed(LBRACE, inner, RBRACE, rest);
  }

  /**
   The decoder recovers the meaning of a printed value and the text after it, unless that text
   would continue a number.
   */
  lemma {:induction false} RoundTrip(v: Json, rest: Text)
    requires IsJs(v) && CanonicalJson(v).Printed?
    requires !ContinuesNumber(rest)
    ensures ReadValue(CanonicalJson(v).text + rest) == Got(Meaning(v), rest)
    decreases Size(v), 0
  {
    match v
    case Num(_) => NumberValueRoundTrip(v, rest);
    case Dec(_) => NumberValueRoundTrip(v, rest);
    case Str(s) => StringValueRoundTrip(s, rest);
    case Arr(items) =>
      if items != [] {
        ItemsRoundTrip(items, rest);
        ItemsOpen(items);
      }
      ReadArray(ItemsText(items).text, ItemsMeaning(items), rest);
    case Obj(members) =>
      var sorted := SortBy(members, KeyBefore);
      SortKeepsObject(members);
      if sorted != [] {
        MembersRoundTrip(sorted, rest);
        MembersOpen(sorted);
      }
      ReadObject(MembersText(sorted).text, MembersMeaning(members), rest);
    case _ => ConstantRoundTrip(v, rest);
  }

  lemma ItemsOpen(items: seq<Json>)
    requires items != [] && ItemsText(items).Printed?
    ensures ItemsText(items).text != [] && OpensValue(ItemsText(items).text[0])
  {
    TextOpens(items[0]);
  }

  lemma MembersOpen(members: seq<Member>)
    requires members != [] && MembersText(members).Printed?
    ensures MembersText(members).text != [] && MembersText(members).text[0] == QUOTE
  {
  }

  lemma ReadLastItem(head: Text, v: Value, rest: Text)
    requires ReadValue(head + ([RBRACKET] + rest)) == Got(v, [RBRACKET] + rest)
    ensures ReadItems(head + ([RBRACKET] + rest)) == Got([v], rest)
  {
    assert ([RBRACKET] + rest)[1..] == rest;
  }

  lemma ReadNextItem(t: Text, v: Value, more: Text, vs: seq<Value>, rest: Text)
    requires ReadValue(t) == Got(v, [COMMA] + more) && ReadItems(more) == Got(vs, rest)
    ensures ReadItems(t) == Got([v] + vs, rest)
  {
    assert ([COMMA] + more)[1..] == more;
  }

  lemma CommaInside(head: Text, tail: Text, end: Text)
    ensures head + [COMMA] + tail + end == head + ([COMMA] + (tail + end))
  {
  }

  lemma {:induction false} ItemsRoundTrip(items: seq<Json>, rest: Text)
    requires items != [] && ItemsText(items).Printed?
    requires forall i | 0 <= i < |items| :: IsJs(items[i])
    ensures ReadItems(ItemsText(items).text + ([RBRACKET] + rest)) == Got(ItemsMeaning(items), rest)
    decreases ItemsSize(items), 0
  {
    var head := CanonicalJson(items[0]).text;
    if |items| == 1 {
      RoundTrip(items[0], [RBRACKET] + rest);
      ReadLastItem(head, Meaning(items[0]), rest);
      assert ItemsMeaning(items) == [Meaning(items[0])];
    } else {
      var tail := ItemsText(items[1..]).text;
      ItemsRoundTrip(items[1..], rest);
      RoundTrip(items[0], [COMMA] + (tail + ([RBRACKET] + rest)));
      CommaInside(head, tail, [RBRACKET] + rest);
      ReadNextItem(head + [COMMA] + tail + ([RBRACKET] + rest), Meaning(items[0]), tail + ([RBRACKET] + rest),
        ItemsMeaning(items[1..]), rest);
    }
  }

  lemma ReadMemberKey(key: Text, value: Text)
    ensures var t := QuoteText(key) + ([COLON] + value);
      && t[0] == QUOTE && ReadString(t[1..]) == Got(key, [COLON] + value)
      && ([COLON] + value)[1..] == value
  {
    StringRoundTrip(key, [QUOTE] + ([COLON] + value), [COLON] + value);
    Enclosed(QUOTE, Escape(key), QUOTE, [COLON] + value);
  }

  lemma ReadLastMember(key: Text, head: Text, v: Value, rest: Text)
    requires ReadValue(head + ([RBRACE] + rest)) == Got(v, [RBRACE] + rest)
    ensures ReadMembers(QuoteText(key) + [COLON] + head + ([RBRACE] + rest)) == Got(map[key := v], rest)
  {
    hide ReadValue, ReadString, QuoteText;
    var value := head + ([RBRACE] + rest);
    ReadMemberKey(key, value);
    assert QuoteText(key) + [COLON] + head + ([RBRACE] + rest) == QuoteText(key) + ([COLON] + value);
    assert ([RBRACE] + rest)[1..] == rest;
  }

  lemma ReadNextMember(key: Text, head: Text, v: Value, tail: Text, fields: map<Text, Value>, rest: Text)
    requires var more := tail + ([RBRACE] + rest);
      && ReadValue(head + ([COMMA] + more)) == Got(v, [COMMA] + more)
      && ReadMembers(more) == Got(fields, rest)
    ensures ReadMembers(QuoteText(key) + [COLON] + head + [COMMA] + tail + ([RBRACE] + rest))
      == Got(fields[key := v], rest)
  {
    hide ReadValue, ReadString, QuoteText;
    var more := tail + ([RBRACE] + rest);
    var value := head + ([COMMA] + more);
    ReadMemberKey(key, value);
    assert QuoteText(key) + [COLON] + head + [COMMA] + tail + ([RBRACE] + rest) == QuoteText(key) + ([COLON] + value);
    assert ([COMMA] + more)[1..] == more;
  }

  lemma {:induction false} MembersRoundTrip(members: seq<Member>, rest: Text)
    requires members != [] && MembersText(members).Printed?
    requires forall i | 0 <= i < |members| :: IsJs(members[i].value)
    ensures ReadMembers(MembersText(members).text + ([RBRACE] + rest)) == Got(MembersMeaning(members), rest)
    decreases MembersSize(members), 0
  {
    var m := members[0];
    var head := CanonicalJson(m.value).text;
    if |members| == 1 {
      RoundTrip(m.value, [RBRACE] + rest);
      ReadLastMember(m.key, head, Meaning(m.value), rest);
      assert MembersMeaning(members) == map[][m.key := Meaning(m.value)];
    } else {
      var tail := MembersText(members[1..]).text;
      MembersRoundTrip(members[1..], rest);
      RoundTrip(m.value, [COMMA] + (tail + ([RBRACE] + rest)));
      ReadNextMember(m.key, head, Meaning(m.value), tail, MembersMeaning(members[1..]), rest);
    }
  }

  // ---- Sorting members changes neither the object nor what it means ----

  lemma {:induction false} MeaningKeys(ms: seq<Member>)
    ensures forall i | 0 <= i < |ms| :: ms[i].key in MembersMeaning(ms)
    ensures forall k | k in MembersMeaning(ms) :: exists i | 0 <= i < |ms| :: ms[i].key == k
  {
    if ms != [] {
      MeaningKeys(ms[1..]);
      forall k | k in MembersMeaning(ms) ensures exists i | 0 <= i < |ms| :: ms[i].key == k {
        if k == ms[0].key {
          assert ms[0].key == k;
        } else {
          assert k in MembersMeaning(ms[1..]);
          var i :| 0 <= i < |ms[1..]| && ms[1..][i].key == k;
          assert ms[i + 1].key == k;
        }
      }
    }
  }

  lemma {:induction false} InsertMeaning(m: Member, ms: seq<Member>)
    requires m.key !in MembersMeaning(ms)
    ensures MembersMeaning(Insert(m, ms, KeyBefore)) == MembersMeaning(ms)[m.key := Meaning(m.value)]
  {
    hide Meaning, Less;
    if ms == [] || !KeyBefore(ms[0], m) {
      assert ([m] + ms)[1..] == ms;
    } else {
      InsertMeaning(m, ms[1..]);
      assert ([ms[0]] + Insert(m, ms[1..], KeyBefore))[1..] == Insert(m, ms[1..], KeyBefore);
    }
  }

  lemma {:induction false} SortMeaning(ms: seq<Member>)
    requires DistinctKeys(ms)
    ensures MembersMeaning(SortBy(ms, KeyBefore)) == MembersMeaning(ms)
  {
    if ms != [] {
      SortMeaning(ms[1..]);
      MeaningKeys(ms[1..]);
      InsertMeaning(ms[0], SortBy(ms[1..], KeyBefore));
    }
  }

  predicate AscendingKeys(ms: seq<Member>) {
    forall i, j | 0 <= i < j < |ms| :: Less(ms[i].key, ms[j].key)
  }

  lemma SortedKeysAscend(ms: seq<Member>)
    requires DistinctKeys(ms)
    ensures AscendingKeys(SortBy(ms, KeyBefore))
  {
    LessIsStrictWeak((m: Member) => m.key, KeyBefore);
    forall i, j | 0 <= i < j < |ms| ensures KeyBefore(ms[i], ms[j]) || KeyBefore(ms[j], ms[i]) {
      LessTotal(ms[i].key, ms[j].key);
    }
    SortStrict(ms, KeyBefore);
    var s := SortBy(ms, KeyBefore);
    forall i, j | 0 <= i < j < |s| ensures Less(s[i].key, s[j].key) { assert KeyBefore(s[i], s[j]); }
  }

  /** The sorted members: the same members in strictly ascending key order. */
  lemma SortKeepsObject(ms: seq<Member>)
    requires DistinctKeys(ms)
    ensures var s := SortBy(ms, KeyBefore);
      && AscendingKeys(s)
      && MembersMeaning(s) == MembersMeaning(ms)
      && MembersSize(s) == MembersSize(ms)
      && forall m :: m in s <==> m in ms
    ensures forall i | 0 <= i < |ms| :: SortBy(ms, KeyBefore)[i] in ms
  {
    SortMeaning(ms);
    SortSize(ms);
    SortKeepsElements(ms, KeyBefore);
    SortedKeysAscend(ms);
  }

  // ---- A value prints exactly when every leaf has a text form ----

  lemma {:induction false} PrintsIffPrintable(v: Json)
    ensures CanonicalJson(v).Printed? <==> Printable(v)
    decreases Size(v), 0
  {
    match v
    case Arr(items) => ItemsPrint(items);
    case Obj(members) =>
      SortSize(members);
      MembersPrint(SortBy(members, KeyBefore));
      SortedPrintable(members);
    case _ =>
  }

  lemma SortedPrintable(ms: seq<Member>)
    ensures var s := SortBy(ms, KeyBefore);
      (forall i | 0 <= i < |s| :: Printable(s[i].value)) <==> (forall i | 0 <= i < |ms| :: Printable(ms[i].value))
  {
    var s := SortBy(ms, KeyBefore);
    SortKeepsElements(ms, KeyBefore);
    forall i | 0 <= i < |s| ensures exists j | 0 <= j < |ms| :: s[i] == ms[j] { assert s[i] in s; }
    forall j | 0 <= j < |ms| ensures exists i | 0 <= i < |s| :: ms[j] == s[i] { assert ms[j] in s; }
  }

  lemma {:induction false} ItemsPrint(items: seq<Json>)
    ensures ItemsText(items).Printed? <==> forall i | 0 <= i < |items| :: Printable(items[i])
    decreases ItemsSize(items), 0
  {
    if items != [] {
      PrintsIffPrintable(items[0]);
      ItemsPrint(items[1..]);
    }
  }

  lemma {:induction false} MembersPrint(members: seq<Member>)
    ensures MembersText(members).Printed? <==> forall i | 0 <= i < |members| :: Printable(members[i].value)
    decreases MembersSize(members), 0
  {
    if members != [] {
      PrintsIffPrintable(members[0].value);
      MembersPrint(members[1..]);
    }
  }

  // ---- One text per meaning ----

  lemma {:induction false} SameMeaningSameText(v: Json, w: Json)
    requires IsJs(v) && IsJs(w) && Printable(v) && Printable(w)
    requires Meaning(v) == Meaning(w)
    ensures CanonicalJson(v) == CanonicalJson(w)
    decreases Size(v), 0
  {
    match v
    case Arr(items) => SameItemsSameText(items, w.items);
    case Obj(members) =>
      SortKeepsObject(members);
      SortKeepsObject(w.members);
      SameMembersSameText(SortBy(members, KeyBefore), SortBy(w.members, KeyBefore));
    case _ =>
  }

  lemma {:induction false} SameItemsSameText(a: seq<Json>, b: seq<Json>)
    requires forall i | 0 <= i < |a| :: IsJs(a[i]) && Printable(a[i])
    requires forall i | 0 <= i < |b| :: IsJs(b[i]) && Printable(b[i])
    requires ItemsMeaning(a) == ItemsMeaning(b)
    ensures ItemsText(a) == ItemsText(b)
    decreases ItemsSize(a), 0
  {
    if a != [] {
      assert |a| == |b|;
      assert ItemsMeaning(a)[0] == ItemsMeaning(b)[0];
      assert ItemsMeaning(a)[1..] == ItemsMeaning(b)[1..];
      SameMeaningSameText(a[0], b[0]);
      SameItemsSameText(a[1..], b[1..]);
    }
  }

  lemma TailMeaning(ms: seq<Member>)
    requires ms != [] && AscendingKeys(ms)
    ensures MembersMeaning(ms[1..]) == MembersMeaning(ms) - {ms[0].key}
    ensures forall k | k in MembersMeaning(ms) :: k == ms[0].key || Less(ms[0].key, k)
  {
    hide Meaning, Less;
    var first, tail := ms[0].key, ms[1..];
    MeaningKeys(tail);
    forall k | k in MembersMeaning(tail) ensures Less(first, k) {
      var i :| 0 <= i < |tail| && tail[i].key == k;
      assert tail[i] == ms[i + 1];
    }
    LessIrreflexive(first);
    AddRemove(MembersMeaning(tail), first, Meaning(ms[0].value));
  }

  lemma AddRemove<K, V>(m: map<K, V>, k: K, v: V)
    requires k !in m
    ensures m[k := v] - {k} == m
  {
  }

  lemma {:induction false} SameMembersSameText(a: seq<Member>, b: seq<Member>)
    requires forall i | 0 <= i < |a| :: IsJs(a[i].value) && Printable(a[i].value)
    requires forall i | 0 <= i < |b| :: IsJs(b[i].value) && Printable(b[i].value)
    requires AscendingKeys(a) && AscendingKeys(b)
    requires MembersMeaning(a) == MembersMeaning(b)
    ensures MembersText(a) == MembersText(b)
    decreases MembersSize(a), 0
  {
    hide Meaning, Less, CanonicalJson, QuoteText;
    SameMembersShape(a, b);
    if a != [] {
      TailMeaning(a);
      TailMeaning(b);
      var ka, kb := a[0].key, b[0].key;
      assert ka in MembersMeaning(a) && kb in MembersMeaning(b);
      if Less(ka, kb) && Less(kb, ka) { LessTransitive(ka, kb, ka); LessIrreflexive(ka); }
      assert ka == kb;
      SameMeaningSameText(a[0].value, b[0].value);
      SameMembersSameText(a[1..], b[1..]);
      SameMembersShape(a[1..], b[1..]);
    }
  }

  lemma SameMembersShape(a: seq<Member>, b: seq<Member>)
    requires MembersMeaning(a) == MembersMeaning(b)
    ensures a == [] <==> b == []
  {
    MeaningKeys(a);
    MeaningKeys(b);
    if a != [] { assert a[0].key in MembersMeaning(a); }
    if b != [] { assert b[0].key in MembersMeaning(b); }
  }

  /** The promise the fingerprints rest on: the same text exactly when the same meaning. */
  lemma OneTextPerMeaning(v: Json, w: Json)
    requires IsJs(v) && IsJs(w) && Printable(v) && Printable(w)
    ensures CanonicalJson(v) == CanonicalJson(w) <==> Meaning(v) == Meaning(w)
  {
    PrintsIffPrintable(v);
    PrintsIffPrintable(w);
    if Meaning(v) == Meaning(w) {
      SameMeaningSameText(v, w);
    }
    if CanonicalJson(v) == CanonicalJson(w) {
      RoundTrip(v, []);
      RoundTrip(w, []);
    }
  }

  // ---- The same statement without meanings: only key order may differ ----

  /** Two values are the same but for the order of keys, at any depth. */
  predicate SameUpToKeyOrder(v: Json, w: Json)
    decreases v
  {
    match v
    case Arr(items) =>
      w.Arr? && |items| == |w.items| && forall i | 0 <= i < |items| :: SameUpToKeyOrder(items[i], w.items[i])
    case Obj(members) =>
      w.Obj? && |members| == |w.members| && forall i | 0 <= i < |members| :: HasSameMember(members[i], w.members)
    case _ => v == w
  }

  predicate HasSameMember(m: Member, ms: seq<Member>)
    decreases m
  {
    exists j | 0 <= j < |ms| :: m.key == ms[j].key && SameUpToKeyOrder(m.value, ms[j].value)
  }

  lemma {:induction false} MeaningOfKey(ms: seq<Member>, i: nat)
    requires DistinctKeys(ms) && i < |ms|
    ensures ms[i].key in MembersMeaning(ms) && MembersMeaning(ms)[ms[i].key] == Meaning(ms[i].value)
  {
    if i > 0 { MeaningOfKey(ms[1..], i - 1); }
  }

  lemma {:induction false} KeyCount(ms: seq<Member>)
    requires DistinctKeys(ms)
    ensures |MembersMeaning(ms).Keys| == |ms|
  {
    if ms != [] {
      KeyCount(ms[1..]);
      MeaningKeys(ms[1..]);
      assert MembersMeaning(ms).Keys == MembersMeaning(ms[1..]).Keys + {ms[0].key};
    }
  }

  lemma {:induction false} ItemMeaning(items: seq<Json>, i: nat)
    requires i < |items|
    ensures ItemsMeaning(items)[i] == Meaning(items[i])
  {
    if i > 0 { ItemMeaning(items[1..], i - 1); }
  }

  lemma SubsetOfSameSize<T>(a: set<T>, b: set<T>)
    requires a <= b && |a| == |b|
    ensures a == b
  {
    assert |b - a| == 0;
  }

  lemma {:induction false} MeaningIgnoresOnlyOrder(v: Json, w: Json)
    requires IsJs(v) && IsJs(w) && Printable(v) && Printable(w)
    ensures Meaning(v) == Meaning(w) <==> SameUpToKeyOrder(v, w)
    decreases v
  {
    match v
    case Arr(items) =>
      if w.Arr? && |items| == |w.items| {
        forall i | 0 <= i < |items|
          ensures ItemsMeaning(items)[i] == ItemsMeaning(w.items)[i] <==> SameUpToKeyOrder(items[i], w.items[i])
        {
          MeaningIgnoresOnlyOrder(items[i], w.items[i]);
          ItemMeaning(items, i);
          ItemMeaning(w.items, i);
        }
      }
    case Obj(members) => if w.Obj? { MembersIgnoreOnlyOrder(members, w.members); }
    case _ =>
  }

  lemma {:induction false} SameMemberMeaning(m: Member, ms: seq<Member>)
    requires IsJs(m.value) && Printable(m.value) && IsJs(Obj(ms)) && Printable(Obj(ms))
    ensures HasSameMember(m, ms) <==> m.key in MembersMeaning(ms) && MembersMeaning(ms)[m.key] == Meaning(m.value)
    decreases m
  {
    MeaningKeys(ms);
    forall j | 0 <= j < |ms|
      ensures MembersMeaning(ms)[ms[j].key] == Meaning(m.value) <==> SameUpToKeyOrder(m.value, ms[j].value)
    {
      MeaningOfKey(ms, j);
      MeaningIgnoresOnlyOrder(m.value, ms[j].value);
    }
  }

  lemma SubmapOfSameSize(ma: map<Text, Value>, mb: map<Text, Value>)
    requires |ma.Keys| == |mb.Keys|
    requires forall k | k in ma :: k in mb && ma[k] == mb[k]
    ensures ma == mb
  {
    SubsetOfSameSize(ma.Keys, mb.Keys);
  }

  lemma {:induction false} MembersIgnoreOnlyOrder(a: seq<Member>, b: seq<Member>)
    requires IsJs(Obj(a)) && IsJs(Obj(b)) && Printable(Obj(a)) && Printable(Obj(b))
    ensures MembersMeaning(a) == MembersMeaning(b)
      <==> |a| == |b| && forall i | 0 <= i < |a| :: HasSameMember(a[i], b)
    decreases a
  {
    var ma, mb := MembersMeaning(a), MembersMeaning(b);
    KeyCount(a);
    KeyCount(b);
    MeaningKeys(a);
    forall i | 0 <= i < |a|
      ensures HasSameMember(a[i], b) <==> a[i].key in mb && ma[a[i].key] == mb[a[i].key]
    {
      MeaningOfKey(a, i);
      SameMemberMeaning(a[i], b);
    }
    if |a| == |b| && forall i | 0 <= i < |a| :: HasSameMember(a[i], b) {
      SubmapOfSameSize(ma, mb);
    }
  }

  /** The canonical text forgets the order of keys, at every depth, and nothing else. */
  lemma TextForgetsOnlyKeyOrder(v: Json, w: Json)
    requires IsJs(v) && IsJs(w) && Printable(v) && Printable(w)
    ensures CanonicalJson(v) == CanonicalJson(w) <==> SameUpToKeyOrder(v, w)
  {
    OneTextPerMeaning(v, w);
    MeaningIgnoresOnlyOrder(v, w);
  }

  // ---- The text is safe to hash and to put on one line ----

  /** No lone surrogate: UTF-8 encodes the text without loss. */
  predicate WellFormedUtf16(t: Text) {
    if t == [] then true
    else if IsHigh(t[0]) then |t| >= 2 && IsLow(t[1]) && WellFormedUtf16(t[2..])
    else !IsLow(t[0]) && WellFormedUtf16(t[1..])
  }

  /** No raw control character and no lone surrogate. */
  predicate Clean(t: Text) {
    WellFormedUtf16(t) && forall i | 0 <= i < |t| :: t[i] >= 32
  }

  predicate Plain(t: Text) { forall i | 0 <= i < |t| :: 32 <= t[i] < 0xD800 }

  lemma {:induction false} PlainIsClean(t: Text)
    requires Plain(t)
    ensures Clean(t)
  {
    if t != [] { PlainIsClean(t[1..]); }
  }

  lemma {:induction false} CleanConcat(a: Text, b: Text)
    requires Clean(a) && Clean(b)
    ensures Clean(a + b)
  {
    if a == [] {
      assert a + b == b;
    } else {
      var k := if IsHigh(a[0]) then 2 else 1;
      assert (a + b)[k..] == a[k..] + b;
      CleanConcat(a[k..], b);
    }
  }

  lemma CleanEnclosed(open: CodeUnit, inner: Text, close: CodeUnit)
    requires 32 <= open < 0xD800 && 32 <= close < 0xD800 && Clean(inner)
    ensures Clean([open] + inner + [close])
  {
    PlainIsClean([open]);
    PlainIsClean([close]);
    CleanConcat([open], inner);
    CleanConcat([open] + inner, [close]);
  }

  lemma CleanJoined(a: Text, sep: CodeUnit, b: Text)
    requires Clean(a) && Clean(b) && 32 <= sep < 0xD800
    ensures Clean(a + [sep] + b)
  {
    PlainIsClean([sep]);
    CleanConcat(a, [sep]);
    CleanConcat(a + [sep], b);
  }

  lemma {:induction false} EscapeIsClean(s: Text)
    ensures Clean(Escape(s))
  {
    if s == [] {
    } else if |s| >= 2 && IsHigh(s[0]) && IsLow(s[1]) {
      EscapeIsClean(s[2..]);
      assert [s[0], s[1]][2..] == [];
      CleanConcat([s[0], s[1]], Escape(s[2..]));
    } else {
      EscapeIsClean(s[1..]);
      if IsHigh(s[0]) || IsLow(s[0]) || s[0] < 0xD800 {
        assert Plain(EscapeUnit(s[0]));
        PlainIsClean(EscapeUnit(s[0]));
      } else {
        assert WellFormedUtf16([s[0]][1..]);
      }
      CleanConcat(EscapeUnit(s[0]), Escape(s[1..]));
    }
  }

  lemma QuoteIsClean(s: Text)
    ensures Clean(QuoteText(s))
  {
    EscapeIsClean(s);
    CleanEnclosed(QUOTE, Escape(s), QUOTE);
  }

  lemma NumberIsClean(t: Text)
    requires forall i | 0 <= i < |t| :: IsNumberUnit(t[i])
    ensures Clean(t)
  {
    assert Plain(t);
    PlainIsClean(t);
  }

  /** Canonical text holds no raw control character, so no newline, and no lone surrogate. */
  lemma {:induction false} CanonicalTextIsClean(v: Json)
    requires CanonicalJson(v).Printed?
    ensures Clean(CanonicalJson(v).text)
    decreases Size(v), 0
  {
    match v
    case Num(n) => NumberUnits(n); NumberIsClean(NumberText(n));
    case Dec(f) => FractionUnits(f); NumberIsClean(FractionText(f));
    case Str(s) => QuoteIsClean(s);
    case Arr(items) =>
      ItemsTextIsClean(items);
      CleanEnclosed(LBRACKET, ItemsText(items).text, RBRACKET);
    case Obj(members) =>
      SortSize(members);
      MembersTextIsClean(SortBy(members, KeyBefore));
      CleanEnclosed(LBRACE, MembersText(SortBy(members, KeyBefore)).text, RBRACE);
    case Null => PlainIsClean(NULL_TEXT);
    case Bool(b) => PlainIsClean(if b then TRUE_TEXT else FALSE_TEXT);
    case _ =>
  }

  lemma {:induction false} ItemsTextIsClean(items: seq<Json>)
    requires ItemsText(items).Printed?
    ensures Clean(ItemsText(items).text)
    decreases ItemsSize(items), 0
  {
    if items != [] {
      CanonicalTextIsClean(items[0]);
      if |items| > 1 {
        ItemsTextIsClean(items[1..]);
        CleanJoined(CanonicalJson(items[0]).text, COMMA, ItemsText(items[1..]).text);
      }
    }
  }

  lemma {:induction false} MembersTextIsClean(members: seq<Member>)
    requires MembersText(members).Printed?
    ensures Clean(MembersText(members).text)
    decreases MembersSize(members), 0
  {
    if members != [] {
      CanonicalTextIsClean(members[0].value);
      QuoteIsClean(members[0].key);
      CleanJoined(QuoteText(members[0].key), COLON, CanonicalJson(members[0].value).text);
      if |members| > 1 {
        MembersTextIsClean(members[1..]);
        CleanJoined(MemberText(members[0]).text, COMMA, MembersText(members[1..]).text);
      }
    }
  }
}
