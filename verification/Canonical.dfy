/**
 The canonical JSON printer whose output is hashed and committed on chain, and a decoder that reads
 every printed text back. Together they give the property the hashes rest on: two values have the
 same text exactly when they mean the same.
 */
module Canonical {
  import opened Texts
  import opened Numbers
  import opened Sorting

  const QUOTE: CodeUnit := 34
  const COMMA: CodeUnit := 44
  const LBRACKET: CodeUnit := 91
  const BACKSLASH: CodeUnit := 92
  const RBRACKET: CodeUnit := 93
  const LBRACE: CodeUnit := 123
  const RBRACE: CodeUnit := 125

  const NULL_TEXT: Text := [110, 117, 108, 108]
  const TRUE_TEXT: Text := [116, 114, 117, 101]
  const FALSE_TEXT: Text := [102, 97, 108, 115, 101]

  /** A JavaScript value handed to canonicalJson. Members are in insertion order. */
  datatype Json =
    | Null
    | Bool(b: bool)
    | Num(n: int)                    // an integer below 10^21
    | Dec(f: Fraction)               // any other finite number
    | NonFinite                      // NaN and the infinities
    | Str(s: Text)
    | Arr(items: seq<Json>)
    | Obj(members: seq<Member>)
    | Undefined
    | Foreign                        // a function, a symbol, a bigint

  datatype Member = Member(key: Text, value: Json)

  datatype Error = CanonicalNumber | CanonicalUndefined | CanonicalType

  datatype Outcome = Printed(text: Text) | Throws(error: Error)

  function Size(v: Json): nat {
    match v
    case Arr(items) => 1 + ItemsSize(items)
    case Obj(members) => 1 + MembersSize(members)
    case _ => 0
  }

  function ItemsSize(items: seq<Json>): nat {
    if items == [] then 0 else 1 + Size(items[0]) + ItemsSize(items[1..])
  }

  function MembersSize(members: seq<Member>): nat {
    if members == [] then 0 else 1 + Size(members[0].value) + MembersSize(members[1..])
  }

  predicate KeyBefore(a: Member, b: Member) { Less(a.key, b.key) }

  lemma {:induction false} InsertSize(m: Member, ms: seq<Member>)
    ensures MembersSize(Insert(m, ms, KeyBefore)) == 1 + Size(m.value) + MembersSize(ms)
  {
    if ms == [] || !KeyBefore(ms[0], m) {
      assert ([m] + ms)[1..] == ms;
    } else {
      InsertSize(m, ms[1..]);
      assert ([ms[0]] + Insert(m, ms[1..], KeyBefore))[1..] == Insert(m, ms[1..], KeyBefore);
    }
  }

  lemma {:induction false} SortSize(ms: seq<Member>)
    ensures MembersSize(SortBy(ms, KeyBefore)) == MembersSize(ms)
  {
    if ms != [] {
      SortSize(ms[1..]);
      InsertSize(ms[0], SortBy(ms[1..], KeyBefore));
    }
  }

  // ---- The printer ----

  predicate IsHigh(u: CodeUnit) { 0xD800 <= u < 0xDC00 }

  predicate IsLow(u: CodeUnit) { 0xDC00 <= u < 0xE000 }

  /** One unit of a JSON string as JSON.stringify writes it; a surrogate reaches here only unpaired. */
  function EscapeUnit(u: CodeUnit): Text {
    if u == QUOTE then [BACKSLASH, QUOTE]
    else if u == BACKSLASH then [BACKSLASH, BACKSLASH]
    else if u == 8 then [BACKSLASH, 98]
    else if u == 9 then [BACKSLASH, 116]
    else if u == 10 then [BACKSLASH, 110]
    else if u == 12 then [BACKSLASH, 102]
    else if u == 13 then [BACKSLASH, 114]
    else if u < 32 || IsHigh(u) || IsLow(u) then [BACKSLASH, 117] + Hex4(u)
    else [u]
  }

  function Escape(s: Text): Text {
    if s == [] then []
    else if |s| >= 2 && IsHigh(s[0]) && IsLow(s[1]) then [s[0], s[1]] + Escape(s[2..])
    else EscapeUnit(s[0]) + Escape(s[1..])
  }

  function QuoteText(s: Text): Text { [QUOTE] + Escape(s) + [QUOTE] }

  function CanonicalJson(v: Json): Outcome
    decreases Size(v), 0
  {
    match v
    case Null => Printed(NULL_TEXT)
    case Bool(b) => Printed(if b then TRUE_TEXT else FALSE_TEXT)
    case Str(s) => Printed(QuoteText(s))
    case Num(n) => Printed(NumberText(n))
    case Dec(f) => Printed(FractionText(f))
    case NonFinite => Throws(CanonicalNumber)
    case Arr(items) =>
      var inner := ItemsText(items);
      if inner.Throws? then inner else Printed([LBRACKET] + inner.text + [RBRACKET])
    case Obj(members) =>
      SortSize(members);
      var inner := MembersText(SortBy(members, KeyBefore));
      if inner.Throws? then inner else Printed([LBRACE] + inner.text + [RBRACE])
    case Undefined => Throws(CanonicalType)
    case Foreign => Throws(CanonicalType)
  }

  function ItemsText(items: seq<Json>): Outcome
    decreases ItemsSize(items), 0
  {
    if items == [] then Printed([])
    else
      var head := CanonicalJson(items[0]);
      if head.Throws? || |items| == 1 then head
      else
        var tail := ItemsText(items[1..]);
        if tail.Throws? then tail else Printed(head.text + [COMMA] + tail.text)
  }

  function MemberText(m: Member): Outcome
    decreases Size(m.value), 1
  {
    if m.value.Undefined? then Throws(CanonicalUndefined)
    else
      var value := CanonicalJson(m.value);
      if value.Throws? then value else Printed(QuoteText(m.key) + [COLON] + value.text)
  }

  function MembersText(members: seq<Member>): Outcome
    decreases MembersSize(members), 0
  {
    if members == [] then Printed([])
    else
      var head := MemberText(members[0]);
      if head.Throws? || |members| == 1 then head
      else
        var tail := MembersText(members[1..]);
        if tail.Throws? then tail else Printed(head.text + [COMMA] + tail.text)
  }

  // ---- What a value means, with no order among keys ----

  datatype Value =
    | VNull
    | VBool(b: bool)
    | VNum(n: Number)
    | VStr(s: Text)
    | VList(items: seq<Value>)
    | VRecord(fields: map<Text, Value>)
    | VNothing                       // what has no text form

  function Meaning(v: Json): Value {
    match v
    case Null => VNull
    case Bool(b) => VBool(b)
    case Num(n) => VNum(Whole(n))
    case Dec(f) => VNum(Broken(f))
    case Str(s) => VStr(s)
    case Arr(items) => VList(ItemsMeaning(items))
    case Obj(members) => VRecord(MembersMeaning(members))
    case _ => VNothing
  }

  function ItemsMeaning(items: seq<Json>): (r: seq<Value>)
    ensures |r| == |items|
  {
    if items == [] then [] else [Meaning(items[0])] + ItemsMeaning(items[1..])
  }

  function MembersMeaning(members: seq<Member>): map<Text, Value> {
    if members == [] then map[]
    else MembersMeaning(members[1..])[members[0].key := Meaning(members[0].value)]
  }

  /** Every leaf has a text form. */
  predicate Printable(v: Json) {
    match v
    case Arr(items) => forall i | 0 <= i < |items| :: Printable(items[i])
    case Obj(members) => forall i | 0 <= i < |members| :: Printable(members[i].value)
    case NonFinite => false
    case Undefined => false
    case Foreign => false
    case _ => true
  }

  predicate DistinctKeys(members: seq<Member>) {
    forall i, j | 0 <= i < j < |members| :: members[i].key != members[j].key
  }

  /** What holds of every JavaScript value: an object has one member a key, at every depth. */
  predicate IsJs(v: Json) {
    match v
    case Arr(items) => forall i | 0 <= i < |items| :: IsJs(items[i])
    case Obj(members) => DistinctKeys(members) && forall i | 0 <= i < |members| :: IsJs(members[i].value)
    case _ => true
  }

  // ---- The decoder ----

  function ReadUnit(t: Text): (r: Parse<CodeUnit>)
    requires t != []
    ensures r.Got? ==> |r.rest| < |t|
  {
    if t[0] != BACKSLASH then (if t[0] < 32 then NoParse else Got(t[0], t[1..]))
    else if |t| < 2 then NoParse
    else
      var e := t[1];
      if e == QUOTE || e == BACKSLASH then Got(e, t[2..])
      else if e == 98 then Got(8, t[2..])
      else if e == 116 then Got(9, t[2..])
      else if e == 110 then Got(10, t[2..])
      else if e == 102 then Got(12, t[2..])
      else if e == 114 then Got(13, t[2..])
      else if e == 117 && |t| >= 6 && forall i | 2 <= i < 6 :: IsLowerHex(t[i]) then
        Got(Hex4Value(t[2..6]), t[6..])
      else NoParse
  }

  /** Reads a string after its opening quote. */
  function ReadString(t: Text): (r: Parse<Text>)
    decreases |t|
    ensures r.Got? ==> |r.rest| < |t|
  {
    if t == [] then NoParse
    else if t[0] == QUOTE then Got([], t[1..])
    else
      var u := ReadUnit(t);
      if u.NoParse? then NoParse
      else
        var more := ReadString(u.rest);
        if more.NoParse? then NoParse else Got([u.value] + more.value, more.rest)
  }

  function ReadValue(t: Text): (r: Parse<Value>)
    decreases |t|, 0
    ensures r.Got? ==> |r.rest| < |t|
  {
    if t == [] then NoParse
    else if t[0] == QUOTE then
      var s := ReadString(t[1..]);
      if s.NoParse? then NoParse else Got(VStr(s.value), s.rest)
    else if t[0] == LBRACKET then
      if |t| >= 2 && t[1] == RBRACKET then Got(VList([]), t[2..])
      else
        var items := ReadItems(t[1..]);
        if items.NoParse? then NoParse else Got(VList(items.value), items.rest)
    else if t[0] == LBRACE then
      if |t| >= 2 && t[1] == RBRACE then Got(VRecord(map[]), t[2..])
      else
        var fields := ReadMembers(t[1..]);
        if fields.NoParse? then NoParse else Got(VRecord(fields.value), fields.rest)
    else if t[0] == DASH || IsDigit(t[0]) then
      var n := ReadNumber(t);
      if n.NoParse? then NoParse else Got(VNum(n.value), n.rest)
    else ReadConstant(t)
  }

  function ReadConstant(t: Text): (r: Parse<Value>)
    ensures r.Got? ==> |r.rest| < |t|
  {
    if StartsWith(t, NULL_TEXT) then Got(VNull, t[4..])
    else if StartsWith(t, TRUE_TEXT) then Got(VBool(true), t[4..])
    else if StartsWith(t, FALSE_TEXT) then Got(VBool(false), t[5..])
    else NoParse
  }

  /** Reads one or more items and the closing bracket. */
  function ReadItems(t: Text): (r: Parse<seq<Value>>)
    decreases |t|, 1
    ensures r.Got? ==> |r.rest| < |t|
  {
    var head := ReadValue(t);
    if head.NoParse? || head.rest == [] then NoParse
    else if head.rest[0] == RBRACKET then Got([head.value], head.rest[1..])
    else if head.rest[0] == COMMA then
      var tail := ReadItems(head.rest[1..]);
      if tail.NoParse? then NoParse else Got([head.value] + tail.value, tail.rest)
    else NoParse
  }

  /** Reads one or more members and the closing brace. */
  function ReadMembers(t: Text): (r: Parse<map<Text, Value>>)
    decreases |t|, 1
    ensures r.Got? ==> |r.rest| < |t|
  {
    if t == [] || t[0] != QUOTE then NoParse
    else
      var key := ReadString(t[1..]);
      if key.NoParse? || key.rest == [] || key.rest[0] != COLON then NoParse
      else
        var value := ReadValue(key.rest[1..]);
        if value.NoParse? || value.rest == [] then NoParse
        else if value.rest[0] == RBRACE then Got(map[key.value := value.value], value.rest[1..])
        else if value.rest[0] == COMMA then
          var tail := ReadMembers(value.rest[1..]);
          if tail.NoParse? then NoParse else Got(tail.value[key.value := value.value], tail.rest)
        else NoParse
  }
}
