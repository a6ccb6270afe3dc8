/** Array operations the smaller programs share. */
module Lists {
  /** `s.filter(keep)`. */
  function Filter<T>(s: seq<T>, keep: T -> bool): (r: seq<T>)
    ensures forall x | x in r :: x in s && keep(x)
    ensures forall x | x in s && keep(x) :: x in r
  {
    if s == [] then []
    else
      assert s == s[..|s| - 1] + [s[|s| - 1]];
      if keep(s[|s| - 1]) then Filter(s[..|s| - 1], keep) + [s[|s| - 1]] else Filter(s[..|s| - 1], keep)
  }

  ghost predicate NoRepeats<T>(s: seq<T>) { forall i, j | 0 <= i < j < |s| :: s[i] != s[j] }

  function Elements<T>(s: seq<T>): set<T> { set x | x in s }

  /** `[...new Set(s)]`: each element once, in the order first seen. */
  function Distinct<T(==)>(s: seq<T>): (r: seq<T>)
    ensures NoRepeats(r) && Elements(r) == Elements(s)
  {
    if s == [] then []
    else
      var front, x := Distinct(s[..|s| - 1]), s[|s| - 1];
      assert s == s[..|s| - 1] + [x];
      assert x in front <==> x in Elements(front);
      assert Elements(front + [x]) == Elements(front) + {x} && Elements(s) == Elements(s[..|s| - 1]) + {x};
      if x in front then front else front + [x]
  }

  lemma {:induction false} FilterCounts<T>(s: seq<T>, keep: T -> bool, x: T)
    ensures multiset(Filter(s, keep))[x] == if keep(x) then multiset(s)[x] else 0
  {
    if s != [] {
      FilterCounts(s[..|s| - 1], keep, x);
      assert s == s[..|s| - 1] + [s[|s| - 1]];
    }
  }

  lemma FilterOne<T>(x: T, keep: T -> bool)
    ensures Filter([x], keep) == if keep(x) then [x] else []
  {
    assert [x][..0] == [];
  }

  lemma {:induction false} FilterAll<T>(s: seq<T>, keep: T -> bool)
    requires forall i | 0 <= i < |s| :: keep(s[i])
    ensures Filter(s, keep) == s
  {
    if s != [] {
      FilterAll(s[..|s| - 1], keep);
      assert s == s[..|s| - 1] + [s[|s| - 1]];
    }
  }

  lemma FilterHas<T>(s: seq<T>, keep: T -> bool, x: T)
    ensures x in Filter(s, keep) <==> x in s && keep(x)
  {
  }

  lemma {:induction false} FilterConcat<T>(s: seq<T>, t: seq<T>, keep: T -> bool)
    ensures Filter(s + t, keep) == Filter(s, keep) + Filter(t, keep)
  {
    if t == [] {
      assert s + t == s;
    } else {
      assert (s + t)[..|s + t| - 1] == s + t[..|t| - 1];
      FilterConcat(s, t[..|t| - 1], keep);
    }
  }

  lemma DropOne<T>(a: multiset<T>, b: multiset<T>, x: T)
    requires a + multiset{x} <= b + multiset{x}
    ensures a <= b
  {
    assert a == (a + multiset{x}) - multiset{x} && b == (b + multiset{x}) - multiset{x};
  }

  lemma FilterAround<T>(before: seq<T>, x: T, after: seq<T>, keep: T -> bool)
    ensures |Filter(before + [x] + after, keep)| == |Filter(before + after, keep)| + if keep(x) then 1 else 0
  {
    FilterConcat(before, after, keep);
    FilterConcat(before, [x], keep);
    FilterConcat(before + [x], after, keep);
  }

  /** How many pass a filter does not depend on where they stand, and more elements pass no fewer. */
  lemma {:induction false} FilterOfMore<T>(s: seq<T>, t: seq<T>, keep: T -> bool)
    requires multiset(s) <= multiset(t)
    ensures |Filter(s, keep)| <= |Filter(t, keep)|
  {
    if s != [] {
      var front, x := s[..|s| - 1], s[|s| - 1];
      assert s == front + [x] && x in multiset(s);
      assert x in multiset(t);
      var j :| 0 <= j < |t| && t[j] == x;
      var before, after := t[..j], t[j + 1..];
      assert t == before + [x] + after;
      DropOne(multiset(front), multiset(before + after), x);
      FilterAround(before, x, after, keep);
      FilterOfMore(front, before + after, keep);
    }
  }

  lemma {:induction false} SizeOfNoRepeats<T>(s: seq<T>)
    requires NoRepeats(s)
    ensures |Elements(s)| == |s|
  {
    if s != [] {
      var front, x := s[..|s| - 1], s[|s| - 1];
      SizeOfNoRepeats(front);
      assert s == front + [x];
      assert Elements(s) == Elements(front) + {x} && x !in Elements(front);
    }
  }

  lemma {:induction false} FilterNoRepeats<T>(s: seq<T>, keep: T -> bool)
    requires NoRepeats(s)
    ensures NoRepeats(Filter(s, keep))
  {
    if s != [] {
      FilterNoRepeats(s[..|s| - 1], keep);
      FilterHas(s[..|s| - 1], keep, s[|s| - 1]);
    }
  }

  lemma Regroup<T>(a: seq<T>, b: seq<T>, c: seq<T>)
    ensures a + (b + c) == (a + b) + c
  {
  }

  lemma SubsetIsSmaller<T>(a: set<T>, b: set<T>)
    requires a <= b
    ensures |a| <= |b|
  {
    assert b == a + (b - a);
  }

  // ---- How many pass, by their places ----

  /** Different places at which elements pass. */
  ghost predicate Picks<T>(s: seq<T>, keep: T -> bool, picks: seq<int>) {
    NoRepeats(picks) && forall i | 0 <= i < |picks| :: 0 <= picks[i] < |s| && keep(s[picks[i]])
  }

  function Places<T>(s: seq<T>, keep: T -> bool): seq<int> {
    if s == [] then []
    else Places(s[..|s| - 1], keep) + if keep(s[|s| - 1]) then [|s| - 1] else []
  }

  lemma {:induction false} PlacesCount<T>(s: seq<T>, keep: T -> bool)
    ensures |Places(s, keep)| == |Filter(s, keep)|
  {
    if s != [] { PlacesCount(s[..|s| - 1], keep); }
  }

  lemma {:induction false} PlacesPass<T>(s: seq<T>, keep: T -> bool)
    ensures forall i | 0 <= i < |Places(s, keep)| :: 0 <= Places(s, keep)[i] < |s| && keep(s[Places(s, keep)[i]])
    ensures NoRepeats(Places(s, keep))
  {
    if s != [] { PlacesPass(s[..|s| - 1], keep); }
  }

  lemma {:induction false} PassAtPlaces<T>(s: seq<T>, keep: T -> bool, i: nat)
    requires i < |s| && keep(s[i])
    ensures i in Places(s, keep)
  {
    if i < |s| - 1 {
      PassAtPlaces(s[..|s| - 1], keep, i);
    } else {
      assert Places(s, keep)[|Places(s[..i], keep)|] == i;
    }
  }

  lemma PlacesAre<T>(s: seq<T>, keep: T -> bool)
    ensures Picks(s, keep, Places(s, keep)) && |Places(s, keep)| == |Filter(s, keep)|
    ensures forall i | 0 <= i < |s| && keep(s[i]) :: i in Places(s, keep)
  {
    hide Places, Filter;
    PlacesCount(s, keep);
    PlacesPass(s, keep);
    forall i | 0 <= i < |s| && keep(s[i]) ensures i in Places(s, keep) { PassAtPlaces(s, keep, i); }
  }

  /** At least n elements pass exactly when they do at n different places. */
  lemma FilterAtLeast<T>(s: seq<T>, keep: T -> bool, n: nat)
    ensures |Filter(s, keep)| >= n <==> exists picks :: Picks(s, keep, picks) && |picks| == n
  {
    PlacesAre(s, keep);
    var places := Places(s, keep);
    if |places| >= n { assert Picks(s, keep, places[..n]); }
    if picks :| Picks(s, keep, picks) && |picks| == n {
      SizeOfNoRepeats(picks);
      SizeOfNoRepeats(places);
      SubsetIsSmaller(Elements(picks), Elements(places));
    }
  }

  /** At least n different elements exactly when n different ones can be listed. */
  lemma SetAtLeast<T>(s: seq<T>, n: nat)
    requires NoRepeats(s)
    ensures |s| >= n <==> exists some: seq<T> :: NoRepeats(some) && |some| == n && forall i | 0 <= i < n :: some[i] in s
  {
    if |s| >= n { assert NoRepeats(s[..n]) && forall i | 0 <= i < n :: s[..n][i] in s; }
    if some: seq<T> :| NoRepeats(some) && |some| == n && forall i | 0 <= i < n :: some[i] in s {
      SizeOfNoRepeats(some);
      SizeOfNoRepeats(s);
      SubsetIsSmaller(Elements(some), Elements(s));
    }
  }

  // ---- Moving elements to the front ----

  lemma {:induction false} Partition<T>(s: seq<T>, keep: T -> bool, others: T -> bool)
    requires forall x :: others(x) == !keep(x)
    ensures multiset(Filter(s, keep) + Filter(s, others)) == multiset(s)
  {
    if s != [] {
      Partition(s[..|s| - 1], keep, others);
      assert s == s[..|s| - 1] + [s[|s| - 1]];
    }
  }

  lemma {:induction false} DistinctGrows<T>(s: seq<T>, t: seq<T>)
    ensures Distinct(s) <= Distinct(s + t)
  {
    if t == [] {
      assert s + t == s;
    } else {
      assert (s + t)[..|s + t| - 1] == s + t[..|t| - 1];
      DistinctGrows(s, t[..|t| - 1]);
    }
  }
}
