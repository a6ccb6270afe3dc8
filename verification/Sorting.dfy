/** Array.prototype.sort: a stable sort by a strict order. */
module Sorting {
  import opened Texts

  function Insert<T>(x: T, s: seq<T>, before: (T, T) -> bool): (r: seq<T>)
    ensures multiset(r) == multiset([x]) + multiset(s)
    ensures |r| == |s| + 1
  {
    if s == [] || !before(s[0], x) then
      [x] + s
    else
      assert s == [s[0]] + s[1..];
      [s[0]] + Insert(x, s[1..], before)
  }

  function SortBy<T>(s: seq<T>, before: (T, T) -> bool): (r: seq<T>)
    ensures multiset(r) == multiset(s)
    ensures |r| == |s|
  {
    if s == [] then []
    else
      assert s == [s[0]] + s[1..];
      Insert(s[0], SortBy(s[1..], before), before)
  }

  /** A strict weak order: asymmetric, and its ties are transitive. */
  ghost predicate StrictWeak<T(!new)>(before: (T, T) -> bool) {
    && (forall a, b :: before(a, b) ==> !before(b, a))
    && (forall a, b, c :: !before(a, b) && !before(b, c) ==> !before(a, c))
  }

  ghost predicate Sorted<T>(s: seq<T>, before: (T, T) -> bool) {
    forall i, j | 0 <= i < j < |s| :: !before(s[j], s[i])
  }

  lemma SortKeepsElements<T>(s: seq<T>, before: (T, T) -> bool)
    ensures forall x :: x in SortBy(s, before) <==> x in s
  {
    forall x ensures x in SortBy(s, before) <==> x in s {
      assert x in multiset(SortBy(s, before)) <==> x in multiset(s);
    }
  }

  lemma {:induction false} InsertSorts<T(!new)>(x: T, s: seq<T>, before: (T, T) -> bool)
    requires StrictWeak(before) && Sorted(s, before)
    ensures Sorted(Insert(x, s, before), before)
  {
    var r := Insert(x, s, before);
    if s != [] && before(s[0], x) {
      InsertSorts(x, s[1..], before);
      var tail := Insert(x, s[1..], before);
      forall j | 1 <= j < |r| ensures !before(r[j], r[0]) {
        assert r[j] == tail[j - 1];
        assert tail[j - 1] in multiset(tail);
        assert tail[j - 1] == x || tail[j - 1] in multiset(s[1..]);
      }
    } else if s != [] {
      forall j | 1 <= j < |r| ensures !before(r[j], x) {
        assert r[j] == s[j - 1];
      }
    }
  }

  lemma {:induction false} SortSorts<T(!new)>(s: seq<T>, before: (T, T) -> bool)
    requires StrictWeak(before)
    ensures Sorted(SortBy(s, before), before)
  {
    if s != [] {
      SortSorts(s[1..], before);
      InsertSorts(s[0], SortBy(s[1..], before), before);
    }
  }

  lemma MultisetTail<T>(s: seq<T>)
    requires s != []
    ensures multiset(s[1..]) == multiset(s) - multiset{s[0]}
  {
    assert s == [s[0]] + s[1..];
  }

  /** Whatever sits in another arrangement of a sorted sequence does not come before its head. */
  lemma HeadIsFirst<T>(a: seq<T>, b: seq<T>, before: (T, T) -> bool)
    requires Sorted(a, before) && multiset(a) == multiset(b) && a != [] && b != []
    ensures b[0] in a && (b[0] == a[0] || !before(b[0], a[0]))
  {
    assert b[0] in multiset(b);
    assert b[0] in multiset(a);
    var j :| 0 <= j < |a| && a[j] == b[0];
  }

  /** Two sorted arrangements of the same elements are equal when ties are only between equal elements. */
  lemma {:induction false} SortedUnique<T>(a: seq<T>, b: seq<T>, before: (T, T) -> bool)
    requires Sorted(a, before) && Sorted(b, before)
    requires multiset(a) == multiset(b)
    requires forall x, y | x in a && y in a :: x == y || before(x, y) || before(y, x)
    ensures a == b
  {
    assert |multiset(a)| == |multiset(b)|;
    if a != [] {
      HeadIsFirst(a, b, before);
      HeadIsFirst(b, a, before);
      assert a[0] == b[0];
      MultisetTail(a);
      MultisetTail(b);
      SortedUnique(a[1..], b[1..], before);
      assert a == [a[0]] + a[1..] && b == [b[0]] + b[1..];
    }
  }

  /** The order the elements arrive in does not matter to the sorted result. */
  lemma SortIgnoresOrder<T(!new)>(s: seq<T>, t: seq<T>, before: (T, T) -> bool)
    requires StrictWeak(before) && multiset(s) == multiset(t)
    requires forall x, y | x in s && y in s :: x == y || before(x, y) || before(y, x)
    ensures SortBy(s, before) == SortBy(t, before)
  {
    SortSorts(s, before);
    SortSorts(t, before);
    SortKeepsElements(s, before);
    SortedUnique(SortBy(s, before), SortBy(t, before), before);
  }

  ghost predicate StrictlySorted<T>(s: seq<T>, before: (T, T) -> bool) {
    forall i, j | 0 <= i < j < |s| :: before(s[i], s[j])
  }

  lemma {:induction false} InsertStrict<T(!new)>(x: T, s: seq<T>, before: (T, T) -> bool)
    requires StrictWeak(before) && StrictlySorted(s, before)
    requires forall i | 0 <= i < |s| :: before(x, s[i]) || before(s[i], x)
    ensures StrictlySorted(Insert(x, s, before), before)
  {
    if s == [] {
    } else if !before(s[0], x) {
      forall j | 0 < j < |s| ensures before(x, s[j]) { assert before(s[0], s[j]); }
    } else {
      InsertStrict(x, s[1..], before);
      var tail := Insert(x, s[1..], before);
      forall j | 0 <= j < |tail| ensures before(s[0], tail[j]) {
        assert tail[j] in multiset(tail);
        assert tail[j] == x || tail[j] in multiset(s[1..]);
      }
    }
  }

  /** Elements of which no two tie are sorted strictly. */
  lemma {:induction false} SortStrict<T(!new)>(s: seq<T>, before: (T, T) -> bool)
    requires StrictWeak(before) && forall i, j | 0 <= i < j < |s| :: before(s[i], s[j]) || before(s[j], s[i])
    ensures StrictlySorted(SortBy(s, before), before)
  {
    if s != [] {
      var tail := SortBy(s[1..], before);
      SortStrict(s[1..], before);
      SortKeepsElements(s[1..], before);
      forall i | 0 <= i < |tail| ensures before(s[0], tail[i]) || before(tail[i], s[0]) {
        assert tail[i] in s[1..];
      }
      InsertStrict(s[0], tail, before);
    }
  }

  /** Comparing by a text is a strict weak order. */
  lemma LessIsStrictWeak<T(!new)>(key: T -> Text, before: (T, T) -> bool)
    requires forall a, b :: before(a, b) == Less(key(a), key(b))
    ensures StrictWeak(before)
  {
    forall a, b | before(a, b) ensures !before(b, a) {
      if before(b, a) { LessTransitive(key(a), key(b), key(a)); LessIrreflexive(key(a)); }
    }
    forall a, b, c | !before(a, b) && !before(b, c) ensures !before(a, c) {
      LessTotal(key(a), key(b));
      LessTotal(key(b), key(c));
      if before(b, a) && before(c, b) { LessTransitive(key(c), key(b), key(a)); }
      if before(a, c) && before(c, a) { LessTransitive(key(a), key(c), key(a)); }
      LessIrreflexive(key(a));
    }
  }
}
