/** The github-work-v1 rule: a level from merged work outside one's own repositories in the last year. */
module WorkRule {
  import opened Texts
  import opened Lists

  const DAY := 86_400
  const WINDOW := 365 * DAY
  const WELL_STARRED := 50
  const LOOKED_UP := 8

  datatype Merge = Merge(repo: Text, mergedAt: int)

  /** `stars` holds the entries of the record, keyed by repository in any letter case. */
  datatype Work = Work(login: Text, createdAt: int, now: int, merged: seq<Merge>, stars: seq<(Text, int)>)

  datatype WorkStats = WorkStats(accountAgeDays: int, externalMergedPrs: nat, distinctExternalRepos: nat,
    starredExternalRepos: nat)

  predicate IsOwnRepo(login: Text, repo: Text) { StartsWith(Lower(repo), Lower(login) + [SLASH]) }

  predicate IsExternal(w: Work, m: Merge) {
    !IsOwnRepo(w.login, m.repo) && w.now - WINDOW <= m.mergedAt <= w.now
  }

  function External(w: Work): seq<Merge> { Filter(w.merged, m => IsExternal(w, m)) }

  function LowerRepos(merged: seq<Merge>): seq<Text> {
    seq(|merged|, i requires 0 <= i < |merged| => Lower(merged[i].repo))
  }

  function Repos(w: Work): seq<Text> { Distinct(LowerRepos(External(w))) }

  /** The lower-cased record: a later entry of the same name replaces an earlier one, a missing name is zero. */
  function StarsOf(stars: seq<(Text, int)>, repo: Text): int {
    if stars == [] then 0
    else if Lower(stars[|stars| - 1].0) == repo then stars[|stars| - 1].1
    else StarsOf(stars[..|stars| - 1], repo)
  }

  /** In whatever letter case the record names a repository, its last entry counts; an unnamed one has none. */
  lemma {:induction false} LastEntryCounts(stars: seq<(Text, int)>, repo: Text, i: nat)
    requires i < |stars| && Lower(stars[i].0) == repo && forall j | i < j < |stars| :: Lower(stars[j].0) != repo
    ensures StarsOf(stars, repo) == stars[i].1
  {
    if i < |stars| - 1 { LastEntryCounts(stars[..|stars| - 1], repo, i); }
  }

  lemma {:induction false} UnnamedHasNone(stars: seq<(Text, int)>, repo: Text)
    requires forall j | 0 <= j < |stars| :: Lower(stars[j].0) != repo
    ensures StarsOf(stars, repo) == 0
  {
    if stars != [] { UnnamedHasNone(stars[..|stars| - 1], repo); }
  }

  predicate WellStarred(w: Work, repo: Text) { StarsOf(w.stars, repo) >= WELL_STARRED }

  function Starred(w: Work): seq<Text> { Filter(Repos(w), r => WellStarred(w, r)) }

  function Stats(w: Work): WorkStats {
    WorkStats((w.now - w.createdAt) / DAY, |External(w)|, |Repos(w)|, |Starred(w)|)
  }

  predicate IsLevelOne(s: WorkStats) {
    s.accountAgeDays >= 365 && s.externalMergedPrs >= 10 && s.distinctExternalRepos >= 3
  }

  function Level(s: WorkStats): nat {
    if !IsLevelOne(s) then 0 else if s.starredExternalRepos >= 3 || s.externalMergedPrs >= 40 then 2 else 1
  }

  // ---- What the counts count ----

  ghost predicate IsExternalRepo(w: Work, repo: Text) {
    exists m :: m in w.merged && IsExternal(w, m) && Lower(m.repo) == repo
  }

  lemma ReposAre(w: Work)
    ensures forall r :: r in Repos(w) <==> IsExternalRepo(w, r)
    ensures NoRepeats(Repos(w)) && |Repos(w)| == |Elements(Repos(w))|
  {
    var keep := (m: Merge) => IsExternal(w, m);
    var lower := LowerRepos(External(w));
    SizeOfNoRepeats(Repos(w));
    forall r ensures r in Repos(w) <==> IsExternalRepo(w, r) {
      assert r in Repos(w) <==> r in Elements(Repos(w));
      assert r in lower <==> r in Elements(lower);
      if r in lower {
        var i :| 0 <= i < |lower| && lower[i] == r;
        FilterHas(w.merged, keep, External(w)[i]);
      }
      if IsExternalRepo(w, r) {
        var m :| m in w.merged && IsExternal(w, m) && Lower(m.repo) == r;
        FilterHas(w.merged, keep, m);
        var i :| 0 <= i < |External(w)| && External(w)[i] == m;
        assert lower[i] == r;
      }
    }
  }

  lemma StarredAre(w: Work)
    ensures forall r :: r in Starred(w) <==> IsExternalRepo(w, r) && WellStarred(w, r)
    ensures |Starred(w)| == |Elements(Starred(w))|
  {
    ReposAre(w);
    var keep := r => WellStarred(w, r);
    FilterNoRepeats(Repos(w), keep);
    SizeOfNoRepeats(Starred(w));
    forall r ensures r in Starred(w) <==> IsExternalRepo(w, r) && WellStarred(w, r) {
      FilterHas(Repos(w), keep, r);
    }
  }

  /** Starred repositories are distinct repositories, and each distinct one has a pull request. */
  lemma CountsAreOrdered(w: Work)
    ensures Stats(w).starredExternalRepos <= Stats(w).distinctExternalRepos <= Stats(w).externalMergedPrs
  {
    ReposAre(w);
    StarredAre(w);
    SubsetIsSmaller(Elements(Starred(w)), Elements(Repos(w)));
    DistinctIsNoLonger(LowerRepos(External(w)));
  }

  lemma {:induction false} DistinctIsNoLonger<T>(s: seq<T>)
    ensures |Distinct(s)| <= |s|
  {
    if s != [] { DistinctIsNoLonger(s[..|s| - 1]); }
  }

  /** What counts: work of the last 365 days in a repository under another name than one's own; and fifty stars. */
  lemma WhatCounts(w: Work, m: Merge, repo: Text)
    ensures IsExternal(w, m) <==>
      && w.now - 31_536_000 <= m.mergedAt <= w.now
      && !exists rest :: Lower(m.repo) == Lower(w.login) + Ascii("/") + rest
    ensures WellStarred(w, repo) <==> StarsOf(w.stars, repo) >= 50
  {
    var own, name := Lower(w.login) + [SLASH], Lower(m.repo);
    assert Ascii("/") == [SLASH];
    hide Lower, Ascii;
    if StartsWith(name, own) { assert name == own + name[|own|..]; }
    if rest :| name == own + rest { assert name[..|own|] == own; }
  }

  // ---- What a level takes ----

  /** n different listed pull requests count. */
  ghost predicate HasMerges(w: Work, n: nat) {
    exists picks: seq<int> :: Picks(w.merged, (m: Merge) => IsExternal(w, m), picks) && |picks| == n
  }

  ghost predicate HasRepos(w: Work, n: nat) {
    exists repos: seq<Text> :: NoRepeats(repos) && |repos| == n && forall i | 0 <= i < n :: IsExternalRepo(w, repos[i])
  }

  ghost predicate HasStarredRepos(w: Work, n: nat) {
    exists repos: seq<Text> :: NoRepeats(repos) && |repos| == n
      && forall i | 0 <= i < n :: IsExternalRepo(w, repos[i]) && WellStarred(w, repos[i])
  }

  lemma RepoCounts(w: Work, n: nat)
    ensures |Repos(w)| >= n <==> HasRepos(w, n)
    ensures |Starred(w)| >= n <==> HasStarredRepos(w, n)
  {
    hide Repos, Starred, IsExternalRepo;
    ReposAre(w);
    SetAtLeast(Repos(w), n);
    StarredAre(w);
    StarredOnce(w);
    SetAtLeast(Starred(w), n);
  }

  lemma StarredOnce(w: Work)
    ensures NoRepeats(Starred(w))
  {
    FilterNoRepeats(Repos(w), r => WellStarred(w, r));
  }

  /**
   What each level takes of a person's work: a year-old account and, in the last year, ten pull requests to
   three repositories of others; and for the second level forty, or three repositories with fifty stars.
   */
  lemma LevelIsEarned(w: Work)
    ensures var first := w.now - w.createdAt >= 365 * DAY && HasMerges(w, 10) && HasRepos(w, 3);
      && (Level(Stats(w)) >= 1 <==> first)
      && (Level(Stats(w)) == 2 <==> first && (HasStarredRepos(w, 3) || HasMerges(w, 40)))
  {
    hide HasMerges, HasRepos, HasStarredRepos, Repos, Starred, External;
    RepoCounts(w, 3);
    MergeCounts(w, 10);
    MergeCounts(w, 40);
  }

  lemma MergeCounts(w: Work, n: nat)
    ensures |External(w)| >= n <==> HasMerges(w, n)
  {
    FilterAtLeast(w.merged, (m: Merge) => IsExternal(w, m), n);
    SameKeep(w.merged, (m: Merge) => IsExternal(w, m), m => IsExternal(w, m));
  }

  // ---- Monotone in the work and in the stars ----

  /** More pull requests, and more stars for any repository, lower no count and no level. */
  lemma MoreWorkNeverLowers(a: Work, b: Work)
    requires b == a.(merged := b.merged, stars := b.stars)
    requires multiset(a.merged) <= multiset(b.merged)
    requires forall r :: StarsOf(a.stars, r) <= StarsOf(b.stars, r)
    ensures Stats(a).externalMergedPrs <= Stats(b).externalMergedPrs
    ensures Stats(a).distinctExternalRepos <= Stats(b).distinctExternalRepos
    ensures Stats(a).starredExternalRepos <= Stats(b).starredExternalRepos
    ensures Level(Stats(a)) <= Level(Stats(b))
  {
    SameFilter(a, b);
    FilterOfMore(a.merged, b.merged, m => IsExternal(a, m));
    ReposAre(a);
    ReposAre(b);
    StarredAre(a);
    StarredAre(b);
    forall r | IsExternalRepo(a, r) ensures IsExternalRepo(b, r) { ExternalStays(a, b, r); }
    SubsetIsSmaller(Elements(Repos(a)), Elements(Repos(b)));
    SubsetIsSmaller(Elements(Starred(a)), Elements(Starred(b)));
  }

  lemma SameFilter(a: Work, b: Work)
    requires b == a.(merged := b.merged, stars := b.stars)
    ensures External(b) == Filter(b.merged, m => IsExternal(a, m))
  {
    SameKeep(b.merged, m => IsExternal(a, m), m => IsExternal(b, m));
  }

  lemma {:induction false} SameKeep<T>(s: seq<T>, f: T -> bool, g: T -> bool)
    requires forall x | x in s :: f(x) == g(x)
    ensures Filter(s, f) == Filter(s, g)
  {
    if s != [] { SameKeep(s[..|s| - 1], f, g); }
  }

  lemma ExternalStays(a: Work, b: Work, r: Text)
    requires b == a.(merged := b.merged, stars := b.stars) && multiset(a.merged) <= multiset(b.merged)
    requires IsExternalRepo(a, r)
    ensures IsExternalRepo(b, r)
  {
    var m :| m in a.merged && IsExternal(a, m) && Lower(m.repo) == r;
    assert m in multiset(a.merged);
    assert m in multiset(b.merged);
    assert IsExternal(b, m);
  }

  /** Pull requests to one's own repositories, however many and wherever listed, change no figure. */
  lemma OwnWorkCountsForNothing(w: Work, merged: seq<Merge>)
    requires var others := (m: Merge) => !IsOwnRepo(w.login, m.repo);
      multiset(Filter(w.merged, others)) == multiset(Filter(merged, others))
    ensures Stats(w) == Stats(w.(merged := merged))
  {
    var others := (m: Merge) => !IsOwnRepo(w.login, m.repo);
    var b := w.(merged := merged);
    OthersCountTheSame(w, others);
    OthersCountTheSame(b, others);
    var p, q := w.(merged := Filter(w.merged, others)), w.(merged := Filter(merged, others));
    MoreWorkNeverLowers(p, q);
    MoreWorkNeverLowers(q, p);
  }

  lemma OthersCountTheSame(w: Work, others: Merge -> bool)
    requires forall m | m in w.merged :: others(m) == !IsOwnRepo(w.login, m.repo)
    ensures Stats(w) == Stats(w.(merged := Filter(w.merged, others)))
  {
    var p := w.(merged := Filter(w.merged, others));
    FilterTwice(w.merged, others, m => IsExternal(w, m));
    SameFilter(w, p);
    SameKeep(Repos(w), r => WellStarred(w, r), r => WellStarred(p, r));
  }

  lemma {:induction false} FilterTwice<T>(s: seq<T>, f: T -> bool, g: T -> bool)
    requires forall x | x in s && g(x) :: f(x)
    ensures Filter(Filter(s, f), g) == Filter(s, g)
  {
    if s != [] { FilterTwice(s[..|s| - 1], f, g); }
  }

  // ---- Stars are looked up for the first eight candidates only ----

  /** The repositories a request would look up, before the cut. */
  function Candidates(w: Work): seq<Text> {
    Filter(Distinct(LowerRepos(w.merged)), r => !StartsWith(r, Lower(w.login) + [SLASH]))
  }

  function FirstEight(s: seq<Text>): seq<Text> { if |s| <= LOOKED_UP then s else s[..LOOKED_UP] }

  /** What an honest lookup of these repositories answers. */
  function StarsFor(repos: seq<Text>, truth: Text -> int): seq<(Text, int)> {
    seq(|repos|, i requires 0 <= i < |repos| => (repos[i], truth(repos[i])))
  }

  /** The figures a request gets, and the figures it would get with every candidate looked up. */
  function Requested(w: Work, truth: Text -> int): WorkStats {
    Stats(w.(stars := StarsFor(FirstEight(Candidates(w)), truth)))
  }

  function Complete(w: Work, truth: Text -> int): WorkStats { Stats(w.(stars := StarsFor(Candidates(w), truth))) }

  /** Repositories that count but are past the cut, in work whose level hangs on its stars. */
  ghost predicate CutMatters(w: Work) {
    && IsLevelOne(Stats(w)) && |External(w)| < 40
    && exists i :: LOOKED_UP <= i < |Candidates(w)| && IsExternalRepo(w, Candidates(w)[i])
  }

  lemma {:induction false} LookedUp(repos: seq<Text>, truth: Text -> int, r: Text)
    requires forall i | 0 <= i < |repos| :: Lower(repos[i]) == repos[i]
    ensures StarsOf(StarsFor(repos, truth), r) == if r in repos then truth(r) else 0
  {
    if repos != [] {
      var front := repos[..|repos| - 1];
      LookedUp(front, truth, r);
      assert StarsFor(repos, truth)[..|repos| - 1] == StarsFor(front, truth);
      assert repos == front + [repos[|repos| - 1]];
    }
  }

  lemma LowerTwice(t: Text)
    ensures Lower(Lower(t)) == Lower(t)
  {
  }

  lemma CandidatesAre(w: Work)
    ensures forall r :: IsExternalRepo(w, r) ==> r in Candidates(w)
    ensures forall i | 0 <= i < |Candidates(w)| :: Lower(Candidates(w)[i]) == Candidates(w)[i]
    ensures NoRepeats(Candidates(w))
  {
    var lower := LowerRepos(w.merged);
    var keep := r => !StartsWith(r, Lower(w.login) + [SLASH]);
    FilterNoRepeats(Distinct(lower), keep);
    forall r | IsExternalRepo(w, r) ensures r in Candidates(w) {
      var m :| m in w.merged && IsExternal(w, m) && Lower(m.repo) == r;
      var i :| 0 <= i < |w.merged| && w.merged[i] == m;
      assert lower[i] == r;
      assert r in Elements(lower);
      FilterHas(Distinct(lower), keep, r);
    }
    forall i | 0 <= i < |Candidates(w)| ensures Lower(Candidates(w)[i]) == Candidates(w)[i] {
      var r := Candidates(w)[i];
      FilterHas(Distinct(lower), keep, r);
      assert r in Elements(lower);
      var j :| 0 <= j < |lower| && lower[j] == r;
      LowerTwice(w.merged[j].repo);
    }
  }

  /** The figures that do not look at stars. */
  lemma StarsAside(w: Work, stars: seq<(Text, int)>)
    ensures var x := w.(stars := stars);
      External(x) == External(w) && Repos(x) == Repos(w) && IsLevelOne(Stats(x)) == IsLevelOne(Stats(w))
    ensures forall r :: IsExternalRepo(w.(stars := stars), r) == IsExternalRepo(w, r)
  {
    var x := w.(stars := stars);
    SameFilter(w, x);
    forall r ensures IsExternalRepo(x, r) == IsExternalRepo(w, r) {
      assert forall m :: IsExternal(x, m) == IsExternal(w, m);
    }
  }

  /** The cut at eight changes the level for no star counts at all, when it does not matter. */
  lemma EightAreEnough(w: Work, truth: Text -> int)
    requires !CutMatters(w)
    ensures Level(Requested(w, truth)) == Level(Complete(w, truth))
  {
    var some, all := w.(stars := StarsFor(FirstEight(Candidates(w)), truth)),
      w.(stars := StarsFor(Candidates(w), truth));
    StarsAside(w, some.stars);
    StarsAside(w, all.stars);
    if IsLevelOne(Stats(w)) && |External(w)| < 40 {
      CandidatesAre(w);
      forall r | IsExternalRepo(w, r) ensures WellStarred(some, r) == WellStarred(all, r) {
        LookedUp(FirstEight(Candidates(w)), truth, r);
        LookedUp(Candidates(w), truth, r);
        var i :| 0 <= i < |Candidates(w)| && Candidates(w)[i] == r;
        assert i < LOOKED_UP && FirstEight(Candidates(w))[i] == r;
      }
      ReposAre(w);
      SameKeep(Repos(w), r => WellStarred(some, r), r => WellStarred(all, r));
    }
  }

  /** The cut never raises a level: it only leaves stars unseen. */
  lemma CutNeverRaises(w: Work, truth: Text -> int)
    requires forall r :: truth(r) >= 0
    ensures Level(Requested(w, truth)) <= Level(Complete(w, truth))
  {
    var looked, all := StarsFor(FirstEight(Candidates(w)), truth), StarsFor(Candidates(w), truth);
    CandidatesAre(w);
    forall r ensures StarsOf(looked, r) <= StarsOf(all, r) {
      LookedUp(FirstEight(Candidates(w)), truth, r);
      LookedUp(Candidates(w), truth, r);
    }
    MoreWorkNeverLowers(w.(stars := looked), w.(stars := all));
  }

  function ThreeStarred(a: Text, b: Text, c: Text): Text -> int {
    r => if r == a || r == b || r == c then WELL_STARRED else 0
  }

  lemma StarredWithCut(w: Work, a: Text, b: Text, c: Text)
    requires forall i | 0 <= i < |FirstEight(Candidates(w))| :: FirstEight(Candidates(w))[i] != c
    ensures Requested(w, ThreeStarred(a, b, c)).starredExternalRepos <= 2
  {
    var looked := FirstEight(Candidates(w));
    var some := w.(stars := StarsFor(looked, ThreeStarred(a, b, c)));
    CandidatesAre(w);
    StarredAre(some);
    forall r | r in Starred(some) ensures r in {a, b} { LookedUp(looked, ThreeStarred(a, b, c), r); }
    SubsetIsSmaller(Elements(Starred(some)), {a, b});
  }

  lemma StarredWithoutCut(w: Work, a: Text, b: Text, c: Text)
    requires a != b && a != c && b != c && IsExternalRepo(w, a) && IsExternalRepo(w, b) && IsExternalRepo(w, c)
    ensures Complete(w, ThreeStarred(a, b, c)).starredExternalRepos >= 3
  {
    hide IsExternalRepo, Candidates, External, Repos;
    var all := w.(stars := StarsFor(Candidates(w), ThreeStarred(a, b, c)));
    CandidatesAre(w);
    StarsAside(w, all.stars);
    StarredAre(all);
    forall r | r in {a, b, c} ensures r in Starred(all) { LookedUp(Candidates(w), ThreeStarred(a, b, c), r); }
    SubsetIsSmaller({a, b, c}, Elements(Starred(all)));
  }

  /** Three counted repositories, the last of them past the cut, of work whose level hangs on its stars. */
  lemma CutWitness(w: Work) returns (a: Text, b: Text, c: Text)
    requires CutMatters(w)
    ensures a != b && a != c && b != c && IsExternalRepo(w, a) && IsExternalRepo(w, b) && IsExternalRepo(w, c)
    ensures Level(Requested(w, ThreeStarred(a, b, c))) == 1
  {
    hide External, Repos, Starred, Candidates, IsExternalRepo, StarsOf;
    var i :| LOOKED_UP <= i < |Candidates(w)| && IsExternalRepo(w, Candidates(w)[i]);
    c := Candidates(w)[i];
    ReposAre(w);
    CandidatesAre(w);
    a, b := TwoMore(Repos(w), c);
    StarredWithCut(w, a, b, c);
    StarsAside(w, StarsFor(FirstEight(Candidates(w)), ThreeStarred(a, b, c)));
  }

  /** And when it matters, there are star counts for which the request is given a level too low. */
  lemma TheCutCanLower(w: Work) returns (truth: Text -> int)
    requires CutMatters(w)
    ensures Level(Requested(w, truth)) == 1 && Level(Complete(w, truth)) == 2
  {
    hide External, Repos, Starred, Candidates, IsExternalRepo, StarsOf, Requested;
    var a, b, c := CutWitness(w);
    truth := ThreeStarred(a, b, c);
    StarredWithoutCut(w, a, b, c);
    StarsAside(w, StarsFor(Candidates(w), truth));
  }

  /** One pull request to each of ten repositories of others, a year after the account was made. */
  function TenRepositories(): Work {
    Work([122], 0, WINDOW, seq(10, i requires 0 <= i < 10 => Merge([97 + i, SLASH, 98], WINDOW)), [])
  }

  lemma {:induction false} DistinctOfNoRepeats<T>(s: seq<T>)
    requires NoRepeats(s)
    ensures Distinct(s) == s
  {
    if s != [] {
      DistinctOfNoRepeats(s[..|s| - 1]);
      assert s == s[..|s| - 1] + [s[|s| - 1]];
    }
  }

  function TenNames(): seq<Text> { seq(10, i requires 0 <= i < 10 => [97 + i, SLASH, 98]) }

  lemma TenNamesDiffer()
    ensures NoRepeats(TenNames())
    ensures forall i | 0 <= i < 10 :: Lower(TenNames()[i]) == TenNames()[i] && !StartsWith(TenNames()[i], [122, SLASH])
  {
    assert forall i | 0 <= i < 10 :: TenNames()[i][0] == 97 + i;
    forall i | 0 <= i < 10
      ensures Lower(TenNames()[i]) == TenNames()[i] && !StartsWith(TenNames()[i], [122, SLASH])
    {
      assert Lower(TenNames()[i]) == TenNames()[i];
      assert TenNames()[i][..2][0] == 97 + i && [122, SLASH][0] == 122;
    }
  }

  lemma TenAreExternal()
    ensures External(TenRepositories()) == TenRepositories().merged
    ensures LowerRepos(TenRepositories().merged) == TenNames()
  {
    var w := TenRepositories();
    TenNamesDiffer();
    assert Lower(w.login) == [122];
    assert forall i | 0 <= i < 10 :: w.merged[i].repo == TenNames()[i];
    hide Lower, StartsWith, Filter;
    FilterAll(w.merged, m => IsExternal(w, m));
  }

  lemma TenAreCounted()
    ensures var w := TenRepositories();
      |External(w)| == 10 && Repos(w) == Candidates(w) == TenNames() && IsExternalRepo(w, Candidates(w)[8])
  {
    var w := TenRepositories();
    TenAreExternal();
    TenNamesDiffer();
    assert Lower(w.login) + [SLASH] == [122, SLASH];
    ReposAre(w);
    hide Lower, StartsWith, Filter, Distinct, External, IsExternalRepo;
    DistinctOfNoRepeats(TenNames());
    FilterAll(TenNames(), r => !StartsWith(r, Lower(w.login) + [SLASH]));
    assert TenNames()[8] in Repos(w);
  }

  /** Such work, concretely: three repositories have the stars, and one of them is past the cut. */
  lemma TenRepositoriesAreUnderrated() returns (truth: Text -> int)
    ensures CutMatters(TenRepositories())
    ensures Level(Requested(TenRepositories(), truth)) == 1 && Level(Complete(TenRepositories(), truth)) == 2
  {
    TenAreCounted();
    hide External, Repos, Candidates, IsExternalRepo, Requested, Complete;
    truth := TheCutCanLower(TenRepositories());
  }

  lemma TwoMore(s: seq<Text>, x: Text) returns (a: Text, b: Text)
    requires NoRepeats(s) && |s| >= 3 && x in s
    ensures a in s && b in s && a != b && a != x && b != x
  {
    var i :| 0 <= i < |s| && s[i] == x;
    var j, k := if i == 0 then 1 else 0, if i == 2 then 1 else 2;
    a, b := s[j], s[k];
  }

  // ---- Requests as more work is done ----

  lemma CandidatesGrow(a: Work, b: Work)
    requires a.login == b.login && multiset(a.merged) <= multiset(b.merged)
    ensures forall r | r in Candidates(a) :: r in Candidates(b)
  {
    var keep := r => !StartsWith(r, Lower(a.login) + [SLASH]);
    var x, y := LowerRepos(a.merged), LowerRepos(b.merged);
    SameKeep(Distinct(y), r => !StartsWith(r, Lower(b.login) + [SLASH]), keep);
    forall r | r in Candidates(a) ensures r in Candidates(b) {
      FilterHas(Distinct(x), keep, r);
      assert r in Elements(x);
      var i :| 0 <= i < |x| && x[i] == r;
      assert a.merged[i] in multiset(a.merged);
      assert a.merged[i] in multiset(b.merged);
      var j :| 0 <= j < |b.merged| && b.merged[j] == a.merged[i];
      assert y[j] == r;
      assert r in Elements(y);
      FilterHas(Distinct(y), keep, r);
    }
  }

  /** As long as the cut does not matter to it, a request with more work is never given a lower level. */
  lemma RequestsAreMonotone(a: Work, b: Work, truth: Text -> int)
    requires b == a.(merged := b.merged, stars := b.stars) && multiset(a.merged) <= multiset(b.merged)
    requires (forall r :: truth(r) >= 0) && !CutMatters(b)
    ensures Level(Requested(a, truth)) <= Level(Requested(b, truth))
  {
    hide Candidates, StarsOf, CutMatters, Requested;
    CutNeverRaises(a, truth);
    EightAreEnough(b, truth);
    CandidatesAre(a);
    CandidatesAre(b);
    CandidatesGrow(a, b);
    var x, y := StarsFor(Candidates(a), truth), StarsFor(Candidates(b), truth);
    forall r ensures StarsOf(x, r) <= StarsOf(y, r) {
      LookedUp(Candidates(a), truth, r);
      LookedUp(Candidates(b), truth, r);
    }
    MoreWorkNeverLowers(a.(stars := x), b.(stars := y));
  }

  function Fronted(w: Work, repos: set<Text>): Work {
    w.(merged := Filter(w.merged, (m: Merge) => Lower(m.repo) in repos)
      + Filter(w.merged, (m: Merge) => !(Lower(m.repo) in repos)))
  }

  lemma FrontedIsPermuted(w: Work, repos: set<Text>)
    ensures multiset(Fronted(w, repos).merged) == multiset(w.merged)
  {
    hide Filter, Lower;
    var keep := (m: Merge) => Lower(m.repo) in repos;
    var others := (m: Merge) => !(Lower(m.repo) in repos);
    Partition(w.merged, keep, others);
  }

  lemma PermutedIsTheSameWork(w: Work, f: Work)
    requires f == w.(merged := f.merged) && multiset(f.merged) == multiset(w.merged)
    ensures forall r :: IsExternalRepo(f, r) <==> IsExternalRepo(w, r)
    ensures IsLevelOne(Stats(f)) == IsLevelOne(Stats(w))
  {
    hide IsExternalRepo, Stats;
    assert w == f.(merged := w.merged, stars := w.stars) && f == w.(merged := f.merged, stars := f.stars);
    MoreWorkNeverLowers(f, w);
    MoreWorkNeverLowers(w, f);
    SameAge(w, f);
    forall r ensures IsExternalRepo(f, r) <==> IsExternalRepo(w, r) {
      if IsExternalRepo(f, r) { ExternalStays(f, w, r); }
      if IsExternalRepo(w, r) { ExternalStays(w, f, r); }
    }
  }

  lemma SameAge(w: Work, f: Work)
    requires f == w.(merged := f.merged)
    ensures Stats(f).accountAgeDays == Stats(w).accountAgeDays
  {
  }

  lemma LowerReposConcat(a: seq<Merge>, b: seq<Merge>)
    ensures LowerRepos(a + b) == LowerRepos(a) + LowerRepos(b)
  {
  }

  function Front(w: Work, repos: set<Text>): seq<Text> {
    Filter(Distinct(LowerRepos(Filter(w.merged, (m: Merge) => Lower(m.repo) in repos))),
      r => !StartsWith(r, Lower(w.login) + [SLASH]))
  }

  lemma FrontIsFirst(w: Work, repos: set<Text>)
    ensures Front(w, repos) <= Candidates(Fronted(w, repos))
  {
    var f := Fronted(w, repos);
    var front, back := Filter(w.merged, (m: Merge) => Lower(m.repo) in repos),
      Filter(w.merged, (m: Merge) => !(Lower(m.repo) in repos));
    var keep := r => !StartsWith(r, Lower(w.login) + [SLASH]);
    LowerReposConcat(front, back);
    DistinctGrows(LowerRepos(front), LowerRepos(back));
    var first, all := Distinct(LowerRepos(front)), Distinct(LowerRepos(f.merged));
    assert all == first + all[|first|..];
    hide Distinct, LowerRepos, Filter;
    FilterConcat(first, all[|first|..], keep);
    SameKeep(all, r => !StartsWith(r, Lower(f.login) + [SLASH]), keep);
    SameKeep(first, r => !StartsWith(r, Lower(w.login) + [SLASH]), keep);
  }

  lemma InFront(w: Work, repos: set<Text>, r: Text)
    requires r in repos && IsExternalRepo(w, r)
    ensures r in Front(w, repos)
  {
    var front := Filter(w.merged, (m: Merge) => Lower(m.repo) in repos);
    var first := Distinct(LowerRepos(front));
    var m :| m in w.merged && IsExternal(w, m) && Lower(m.repo) == r;
    FilterHas(w.merged, (m: Merge) => Lower(m.repo) in repos, m);
    var i :| 0 <= i < |front| && front[i] == m;
    assert LowerRepos(front)[i] == r;
    assert r in Elements(LowerRepos(front)) && r in Elements(first);
    FilterHas(first, r => !StartsWith(r, Lower(w.login) + [SLASH]), r);
  }

  /** The repositories moved to the front are among the first looked up. */
  lemma FrontedIsLookedUp(w: Work, repos: set<Text>, r: Text)
    requires r in repos && |repos| <= LOOKED_UP && IsExternalRepo(w, r)
    ensures r in FirstEight(Candidates(Fronted(w, repos)))
  {
    InFront(w, repos, r);
    FrontIsFirst(w, repos);
    FrontedFew(w, repos);
    hide Candidates, IsExternalRepo, Fronted;
    var k :| 0 <= k < |Front(w, repos)| && Front(w, repos)[k] == r;
    hide Front;
    assert Candidates(Fronted(w, repos))[k] == r;
  }

  lemma FrontedFew(w: Work, repos: set<Text>)
    ensures |Front(w, repos)| <= |repos|
  {
    var front := Filter(w.merged, (m: Merge) => Lower(m.repo) in repos);
    var first := Distinct(LowerRepos(front));
    SizeOfNoRepeats(first);
    forall r | r in Elements(first) ensures r in repos {
      assert r in Elements(LowerRepos(front));
      var i :| 0 <= i < |front| && LowerRepos(front)[i] == r;
      FilterHas(w.merged, (m: Merge) => Lower(m.repo) in repos, front[i]);
    }
    SubsetIsSmaller(Elements(first), repos);
    FilterIsNoLonger(first, r => !StartsWith(r, Lower(w.login) + [SLASH]));
  }

  lemma {:induction false} FilterIsNoLonger<T>(s: seq<T>, keep: T -> bool)
    ensures |Filter(s, keep)| <= |s|
  {
    if s != [] { FilterIsNoLonger(s[..|s| - 1], keep); }
  }

  /** When the cut matters, the same pull requests listed in another order earn the request the higher level. */
  lemma RequestOrderMatters(w: Work) returns (other: Work, truth: Text -> int)
    requires CutMatters(w)
    ensures other == w.(merged := other.merged) && multiset(other.merged) == multiset(w.merged)
    ensures Level(Requested(other, truth)) == 2 && Level(Requested(w, truth)) == 1
  {
    hide Candidates, StarsOf, IsExternalRepo, Fronted;
    var a, b, c := CutWitness(w);
    truth := ThreeStarred(a, b, c);
    other := Fronted(w, {a, b, c});
    FrontedKeepsTheRest(w, {a, b, c});
    FrontedIsPermuted(w, {a, b, c});
    PermutedIsTheSameWork(w, other);
    forall r | r in {a, b, c} ensures r in FirstEight(Candidates(other)) { FrontedIsLookedUp(w, {a, b, c}, r); }
    StarredInFront(other, a, b, c);
    StarsAside(other, StarsFor(FirstEight(Candidates(other)), truth));
  }

  lemma FrontedKeepsTheRest(w: Work, repos: set<Text>)
    ensures Fronted(w, repos) == w.(merged := Fronted(w, repos).merged)
  {
  }

  lemma StarredInFront(w: Work, a: Text, b: Text, c: Text)
    requires a != b && a != c && b != c && IsExternalRepo(w, a) && IsExternalRepo(w, b) && IsExternalRepo(w, c)
    requires a in FirstEight(Candidates(w)) && b in FirstEight(Candidates(w)) && c in FirstEight(Candidates(w))
    ensures Requested(w, ThreeStarred(a, b, c)).starredExternalRepos >= 3
  {
    hide IsExternalRepo, Candidates;
    var looked := FirstEight(Candidates(w));
    var some := w.(stars := StarsFor(looked, ThreeStarred(a, b, c)));
    CandidatesAre(w);
    StarsAside(w, some.stars);
    StarredAre(some);
    forall r | r in {a, b, c} ensures r in Starred(some) { LookedUp(looked, ThreeStarred(a, b, c), r); }
    SubsetIsSmaller({a, b, c}, Elements(Starred(some)));
  }
}
