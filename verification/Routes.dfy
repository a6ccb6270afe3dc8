/** The page-to-route check: which backend route a call of a page reaches, and what is wrong with it. */
module Routes {
  import opened Texts

  datatype Guard = Admin | StepUp | Session | Signed | Token | Limited | NoGuard

  datatype Call = Call(verb: Text, path: Text)

  datatype Route = Route(verb: Text, path: Text, guard: Guard)

  const COLON_TEXT: Text := [COLON]

  // ---- One route against one call ----

  predicate SegmentMatches(want: Text, part: Text) {
    want == part || StartsWith(want, COLON_TEXT) || part == COLON_TEXT
  }

  /** Twice the score of one segment, so that the half points are whole. */
  function SegmentScore(want: Text, part: Text): nat {
    if want == part then 2 else if StartsWith(want, COLON_TEXT) && part == COLON_TEXT then 1 else 0
  }

  function ScoreOf(want: seq<Text>, parts: seq<Text>): nat
    requires |want| == |parts|
  {
    if want == [] then 0
    else ScoreOf(want[..|want| - 1], parts[..|parts| - 1]) + SegmentScore(want[|want| - 1], parts[|parts| - 1])
  }

  predicate SegmentsMatch(want: seq<Text>, parts: seq<Text>) {
    |want| == |parts| && forall i | 0 <= i < |want| :: SegmentMatches(want[i], parts[i])
  }

  predicate Matches(call: Call, route: Route) {
    route.verb == call.verb && SegmentsMatch(Split(route.path, SLASH), Split(call.path, SLASH))
  }

  function Score(call: Call, route: Route): nat
    requires Matches(call, route)
  {
    ScoreOf(Split(route.path, SLASH), Split(call.path, SLASH))
  }

  /** The loop over the segments, which stops at the first that does not match. */
  method Compare(want: seq<Text>, parts: seq<Text>) returns (ok: bool, score: nat)
    requires |want| == |parts|
    ensures ok <==> SegmentsMatch(want, parts)
    ensures ok ==> score == ScoreOf(want, parts)
  {
    score, ok := 0, true;
    for i := 0 to |want|
      invariant ok && SegmentsMatch(want[..i], parts[..i]) && score == ScoreOf(want[..i], parts[..i])
    {
      assert want[..i + 1][..i] == want[..i] && parts[..i + 1][..i] == parts[..i];
      if want[i] == parts[i] {
        score := score + 2;
      } else if StartsWith(want[i], COLON_TEXT) {
        score := score + if parts[i] == COLON_TEXT then 1 else 0;
      } else if parts[i] != COLON_TEXT {
        ok := false;
        break;
      }
    }
    if ok { assert want[..|want|] == want && parts[..|parts|] == parts; }
  }

  // ---- The best route ----

  /** The index of the route a call reaches: of greatest score, and the first of those. */
  ghost predicate IsBest(call: Call, routes: seq<Route>, k: nat) {
    && k < |routes| && Matches(call, routes[k])
    && (forall j | 0 <= j < |routes| && Matches(call, routes[j]) :: Score(call, routes[j]) <= Score(call, routes[k]))
    && (forall j | 0 <= j < k && Matches(call, routes[j]) :: Score(call, routes[j]) < Score(call, routes[k]))
  }

  ghost predicate Unreached(call: Call, routes: seq<Route>) {
    forall j | 0 <= j < |routes| :: !Matches(call, routes[j])
  }

  /** There is one best route at most. */
  lemma OneAnswer(call: Call, routes: seq<Route>, k: nat, l: nat)
    requires IsBest(call, routes, k) && IsBest(call, routes, l)
    ensures k == l
  {
  }

  /** The same, route by route: a later route replaces the best one only with a greater score. */
  function BestOf(call: Call, routes: seq<Route>): (r: Option<Route>)
    ensures r.Some? ==> Matches(call, r.value)
  {
    if routes == [] then None
    else
      var best, route := BestOf(call, routes[..|routes| - 1]), routes[|routes| - 1];
      if Matches(call, route) && (best.None? || Score(call, route) > Score(call, best.value)) then Some(route) else best
  }

  lemma {:induction false} BestOfIsBest(call: Call, routes: seq<Route>) returns (k: nat)
    ensures BestOf(call, routes).None? <==> Unreached(call, routes)
    ensures BestOf(call, routes).Some? ==> IsBest(call, routes, k) && BestOf(call, routes) == Some(routes[k])
    ensures forall l: nat | IsBest(call, routes, l) :: BestOf(call, routes).Some? && l == k
  {
    hide Matches, Score;
    k := 0;
    if routes != [] {
      var front, route := routes[..|routes| - 1], routes[|routes| - 1];
      var before := BestOfIsBest(call, front);
      assert routes == front + [route];
      k := if BestOf(call, routes) == BestOf(call, front) && BestOf(call, front).Some? then before else |front|;
      BestOfGrows(call, front, route, before);
    }
    forall l: nat | IsBest(call, routes, l) ensures BestOf(call, routes).Some? && l == k {
      assert !Unreached(call, routes);
      OneAnswer(call, routes, k, l);
    }
  }

  lemma BestOfGrows(call: Call, front: seq<Route>, route: Route, k: nat)
    requires BestOf(call, front).None? <==> Unreached(call, front)
    requires BestOf(call, front).Some? ==> IsBest(call, front, k) && BestOf(call, front) == Some(front[k])
    ensures var routes := front + [route]; var l := if BestOf(call, routes) == BestOf(call, front)
      && BestOf(call, front).Some? then k else |front|;
      && (BestOf(call, routes).None? <==> Unreached(call, routes))
      && (BestOf(call, routes).Some? ==> IsBest(call, routes, l) && BestOf(call, routes) == Some(routes[l]))
  {
    hide SegmentsMatch, ScoreOf;
    var routes := front + [route];
    assert routes[..|front|] == front;
    if !Matches(call, route) {
      assert BestOf(call, routes) == BestOf(call, front);
    }
  }

  method FindRoute(call: Call, routes: seq<Route>) returns (best: Option<Route>)
    ensures best == BestOf(call, routes)
  {
    hide SegmentsMatch, ScoreOf;
    var parts := Split(call.path, SLASH);
    best := None;
    var bestScore: int := -1;
    for i := 0 to |routes|
      invariant best == BestOf(call, routes[..i])
      invariant bestScore == if best.Some? then Score(call, best.value) else -1
    {
      var route := routes[i];
      assert routes[..i + 1][..i] == routes[..i];
      if route.verb != call.verb { continue; }
      var want := Split(route.path, SLASH);
      if |want| != |parts| { MustBeAsLong(want, parts); continue; }
      var ok, score := Compare(want, parts);
      if ok && score > bestScore { best, bestScore := Some(route), score; }
    }
    assert routes[..|routes|] == routes;
  }

  lemma MustBeAsLong(want: seq<Text>, parts: seq<Text>)
    requires |want| != |parts|
    ensures !SegmentsMatch(want, parts)
  {
  }

  // ---- An exact path wins ----

  lemma {:induction false} FullScore(want: seq<Text>, parts: seq<Text>)
    requires |want| == |parts|
    ensures ScoreOf(want, parts) <= 2 * |want|
    ensures ScoreOf(want, parts) == 2 * |want| <==> want == parts
  {
    if want != [] {
      var w, p := want[..|want| - 1], parts[..|parts| - 1];
      FullScore(w, p);
      assert want == w + [want[|want| - 1]] && parts == p + [parts[|parts| - 1]];
    }
  }

  /** A route spelled exactly as the call is reached before any with parameters. */
  lemma ExactPathWins(call: Call, routes: seq<Route>, r: Route, i: nat)
    requires i < |routes| && routes[i].verb == call.verb && routes[i].path == call.path
    requires BestOf(call, routes) == Some(r)
    ensures r.verb == call.verb && r.path == call.path
  {
    var _ := BestOfIsBest(call, routes);
    var want, parts := Split(r.path, SLASH), Split(call.path, SLASH);
    assert Matches(call, routes[i]);
    FullScore(parts, parts);
    FullScore(want, parts);
    JoinSplit(r.path, SLASH);
    JoinSplit(call.path, SLASH);
  }

  /** For a parameter of the call, a route parameter is preferred to a fixed segment in the same place. */
  lemma ParameterPrefersParameter(call: Call, a: Route, b: Route, before: seq<Text>, x: Text, y: Text, after: seq<Text>)
    requires Split(a.path, SLASH) == before + [x] + after && Split(b.path, SLASH) == before + [y] + after
    requires Matches(call, a) && Matches(call, b) && Split(call.path, SLASH)[|before|] == COLON_TEXT
    requires StartsWith(x, COLON_TEXT) && !StartsWith(y, COLON_TEXT)
    ensures Score(call, a) > Score(call, b)
  {
    OneSegmentApart(before, x, y, after, Split(call.path, SLASH));
  }

  lemma {:induction false} OneSegmentApart(before: seq<Text>, x: Text, y: Text, after: seq<Text>, parts: seq<Text>)
    requires |parts| == |before| + 1 + |after|
    ensures ScoreOf(before + [x] + after, parts) - ScoreOf(before + [y] + after, parts)
      == SegmentScore(x, parts[|before|]) - SegmentScore(y, parts[|before|])
  {
    if after == [] {
      assert (before + [x] + after)[..|before|] == before == (before + [y] + after)[..|before|];
    } else {
      var n := |after| - 1;
      assert (before + [x] + after)[..|parts| - 1] == before + [x] + after[..n];
      assert (before + [y] + after)[..|parts| - 1] == before + [y] + after[..n];
      OneSegmentApart(before, x, y, after[..n], parts[..|parts| - 1]);
    }
  }

  /** The places at which route and call have the same segment, and those at which each has a parameter of its own. */
  function SamePlaces(want: seq<Text>, parts: seq<Text>): set<int>
    requires |want| == |parts|
  {
    set i | 0 <= i < |want| && want[i] == parts[i]
  }

  function ParameterPlaces(want: seq<Text>, parts: seq<Text>): set<int>
    requires |want| == |parts|
  {
    set i | 0 <= i < |want| && want[i] != parts[i] && want[i] != [] && want[i][0] == COLON && parts[i] == [COLON]
  }

  /**
   A route matches a call of its verb with as many segments, each the same, a parameter of the route, or a
   parameter of the call.
   */
  lemma MatchesAre(call: Call, route: Route)
    ensures var want, parts := Split(route.path, SLASH), Split(call.path, SLASH);
      Matches(call, route) <==>
        && route.verb == call.verb && |want| == |parts|
        && forall i: nat | i < |want| ::
             want[i] == parts[i] || (want[i] != [] && want[i][0] == 58) || parts[i] == Ascii(":")
  {
    var want, parts := Split(route.path, SLASH), Split(call.path, SLASH);
    assert Ascii(":") == COLON_TEXT;
    hide Ascii;
    forall i: nat | i < |want| ensures StartsWith(want[i], COLON_TEXT) <==> want[i] != [] && want[i][0] == 58 {
      OpensWithColon(want[i]);
    }
  }

  /** The score is one for each same segment and a half for each pair of parameters; here twice that. */
  lemma {:induction false} ScoreCounts(want: seq<Text>, parts: seq<Text>)
    requires |want| == |parts|
    ensures ScoreOf(want, parts) == 2 * |SamePlaces(want, parts)| + |ParameterPlaces(want, parts)|
  {
    if want != [] {
      var n := |want| - 1;
      var w, p := want[..n], parts[..n];
      ScoreCounts(w, p);
      PlacesOfMore(want, parts);
      OpensWithColon(want[n]);
    } else {
      assert SamePlaces(want, parts) == {} && ParameterPlaces(want, parts) == {};
    }
  }

  lemma OpensWithColon(t: Text)
    ensures StartsWith(t, COLON_TEXT) <==> t != [] && t[0] == COLON
  {
    if t != [] { assert t[..1] == [t[0]]; }
  }

  lemma PlacesOfMore(want: seq<Text>, parts: seq<Text>)
    requires |want| == |parts| > 0
    ensures var n := |want| - 1;
      && |SamePlaces(want, parts)|
         == |SamePlaces(want[..n], parts[..n])| + (if want[n] == parts[n] then 1 else 0)
      && |ParameterPlaces(want, parts)|
         == |ParameterPlaces(want[..n], parts[..n])|
            + (if want[n] != parts[n] && want[n] != [] && want[n][0] == COLON && parts[n] == [COLON] then 1 else 0)
  {
    var n := |want| - 1;
    assert SamePlaces(want, parts)
      == SamePlaces(want[..n], parts[..n]) + if want[n] == parts[n] then {n} else {};
    assert ParameterPlaces(want, parts)
      == ParameterPlaces(want[..n], parts[..n])
         + if want[n] != parts[n] && want[n] != [] && want[n][0] == COLON && parts[n] == [COLON] then {n} else {};
  }

  // ---- The problems of the pages ----

  datatype Page = Page(page: Text, calls: seq<Text>)

  datatype What = MissingRoute | MutationWithoutGuard

  datatype Problem = Problem(page: Text, api: Text, route: Text, what: What)

  const READS := {Ascii("GET"), Ascii("HEAD"), Ascii("OPTIONS")}

  function Named(verb: Text, path: Text): Text { verb + [SPACE] + path }

  /** The text the problems already reported are known by. */
  function SeenAs(p: Problem): Text { p.page + [SPACE] + p.api + [SPACE] + p.route }

  function CallsOf(api: map<Text, seq<Call>>, name: Text): seq<Call> { if name in api then api[name] else [] }

  predicate Unguarded(route: Route, allowed: map<Text, Text>) {
    route.verb !in READS && (route.guard.NoGuard? || route.guard.Limited?) && Named(route.verb, route.path) !in allowed
  }

  /** What is wrong with one call of one page, if anything. */
  function ProblemOf(routes: seq<Route>, allowed: map<Text, Text>, page: Text, name: Text, call: Call): seq<Problem> {
    match BestOf(call, routes)
    case None => [Problem(page, name, Named(call.verb, call.path), MissingRoute)]
    case Some(r) =>
      if Unguarded(r, allowed) then [Problem(page, name, Named(r.verb, r.path), MutationWithoutGuard)] else []
  }

  function OfCalls(routes: seq<Route>, allowed: map<Text, Text>, page: Text, name: Text,
      calls: seq<Call>): seq<Problem> {
    if calls == [] then []
    else
      OfCalls(routes, allowed, page, name, calls[..|calls| - 1])
      + ProblemOf(routes, allowed, page, name, calls[|calls| - 1])
  }

  function OfNames(api: map<Text, seq<Call>>, routes: seq<Route>, allowed: map<Text, Text>, page: Text,
      names: seq<Text>): seq<Problem> {
    if names == [] then []
    else
      var name := names[|names| - 1];
      OfNames(api, routes, allowed, page, names[..|names| - 1])
        + OfCalls(routes, allowed, page, name, CallsOf(api, name))
  }

  function OfPages(pages: seq<Page>, api: map<Text, seq<Call>>, routes: seq<Route>, allowed: map<Text,
      Text>): seq<Problem> {
    if pages == [] then []
    else
      var page := pages[|pages| - 1];
      OfPages(pages[..|pages| - 1], api, routes, allowed) + OfNames(api, routes, allowed, page.page, page.calls)
  }

  function TextsOf(problems: seq<Problem>): set<Text> { set p | p in problems :: SeenAs(p) }

  /** The problems without those whose text came before. */
  function OnceEach(problems: seq<Problem>): seq<Problem> {
    if problems == [] then []
    else
      var front, p := OnceEach(problems[..|problems| - 1]), problems[|problems| - 1];
      if SeenAs(p) in TextsOf(front) then front else front + [p]
  }

  /** The closure that reports a problem unless its text was seen. */
  method Add(problems: seq<Problem>, seen: set<Text>, p: Problem, ghost raised: seq<Problem>)
      returns (r: seq<Problem>, known: set<Text>)
    requires problems == OnceEach(raised) && seen == TextsOf(problems)
    ensures r == OnceEach(raised + [p]) && known == TextsOf(r)
  {
    r, known := problems, seen;
    assert (raised + [p])[..|raised|] == raised;
    if SeenAs(p) !in seen {
      known := known + {SeenAs(p)};
      r := r + [p];
    }
  }

  /** The innermost loop: the calls of one name of one page. */
  method AddCalls(problems0: seq<Problem>, seen0: set<Text>, ghost raised0: seq<Problem>, routes: seq<Route>,
      allowed: map<Text, Text>, page: Text, name: Text, calls: seq<Call>)
      returns (problems: seq<Problem>, seen: set<Text>, ghost raised: seq<Problem>)
    requires problems0 == OnceEach(raised0) && seen0 == TextsOf(problems0)
    ensures raised == raised0 + OfCalls(routes, allowed, page, name, calls)
    ensures problems == OnceEach(raised) && seen == TextsOf(problems)
  {
    hide OnceEach, TextsOf, BestOf, Matches, Score;
    problems, seen, raised := problems0, seen0, raised0;
    for i := 0 to |calls|
      invariant raised == raised0 + OfCalls(routes, allowed, page, name, calls[..i])
      invariant problems == OnceEach(raised) && seen == TextsOf(problems)
    {
      var call := calls[i];
      assert calls[..i + 1][..i] == calls[..i];
      var route := FindRoute(call, routes);
      if route.None? {
        var p := Problem(page, name, Named(call.verb, call.path), MissingRoute);
        problems, seen := Add(problems, seen, p, raised);
        raised := raised + [p];
        continue;
      }
      var key := Named(route.value.verb, route.value.path);
      if route.value.verb !in READS && (route.value.guard.NoGuard? || route.value.guard.Limited?) && key !in allowed {
        var p := Problem(page, name, key, MutationWithoutGuard);
        problems, seen := Add(problems, seen, p, raised);
        raised := raised + [p];
      }
    }
    assert calls[..|calls|] == calls;
  }

  /** The middle loop: the names a page calls. */
  method AddNames(problems0: seq<Problem>, seen0: set<Text>, ghost raised0: seq<Problem>, api: map<Text, seq<Call>>,
      routes: seq<Route>, allowed: map<Text, Text>, page: Text, names: seq<Text>)
      returns (problems: seq<Problem>, seen: set<Text>, ghost raised: seq<Problem>)
    requires problems0 == OnceEach(raised0) && seen0 == TextsOf(problems0)
    ensures raised == raised0 + OfNames(api, routes, allowed, page, names)
    ensures problems == OnceEach(raised) && seen == TextsOf(problems)
  {
    hide OnceEach, TextsOf, OfCalls;
    problems, seen, raised := problems0, seen0, raised0;
    for i := 0 to |names|
      invariant raised == raised0 + OfNames(api, routes, allowed, page, names[..i])
      invariant problems == OnceEach(raised) && seen == TextsOf(problems)
    {
      problems, seen, raised := AddCalls(problems, seen, raised, routes, allowed, page, names[i],
        CallsOf(api, names[i]));
      assert names[..i + 1][..i] == names[..i];
    }
    assert names[..|names|] == names;
  }

  /** The outer loop: the pages. */
  method PageProblems(pages: seq<Page>, api: map<Text, seq<Call>>, routes: seq<Route>, allowed: map<Text, Text>)
      returns (problems: seq<Problem>)
    ensures problems == OnceEach(OfPages(pages, api, routes, allowed))
  {
    assert OnceEach([]) == [] && TextsOf([]) == {};
    hide OnceEach, TextsOf, OfNames;
    problems := [];
    var seen := {};
    ghost var raised := [];
    for i := 0 to |pages|
      invariant raised == OfPages(pages[..i], api, routes, allowed)
      invariant problems == OnceEach(raised) && seen == TextsOf(problems)
    {
      problems, seen, raised := AddNames(problems, seen, raised, api, routes, allowed, pages[i].page, pages[i].calls);
      assert pages[..i + 1][..i] == pages[..i];
    }
    assert pages[..|pages|] == pages;
  }

  // ---- What an empty report means ----

  ghost predicate IsFine(call: Call, routes: seq<Route>, allowed: map<Text, Text>) {
    BestOf(call, routes).Some? && !Unguarded(BestOf(call, routes).value, allowed)
  }

  /** Some page calls this. */
  ghost predicate Called(pages: seq<Page>, api: map<Text, seq<Call>>, page: Text, name: Text, call: Call) {
    exists i :: 0 <= i < |pages| && pages[i].page == page && name in pages[i].calls && name in api && call in api[name]
  }

  lemma {:induction false} OfCallsHas(routes: seq<Route>, allowed: map<Text, Text>, page: Text, name: Text,
      calls: seq<Call>, p: Problem)
    ensures p in OfCalls(routes, allowed, page, name, calls)
      <==> exists call :: call in calls && p in ProblemOf(routes, allowed, page, name, call)
  {
    hide ProblemOf;
    if calls != [] {
      OfCallsHas(routes, allowed, page, name, calls[..|calls| - 1], p);
      assert calls == calls[..|calls| - 1] + [calls[|calls| - 1]];
    }
  }

  lemma {:induction false} OfNamesHas(api: map<Text, seq<Call>>, routes: seq<Route>, allowed: map<Text, Text>,
      page: Text, names: seq<Text>, p: Problem)
    ensures p in OfNames(api, routes, allowed, page, names)
      <==> exists name, call ::
             name in names && call in CallsOf(api, name) && p in ProblemOf(routes, allowed, page, name, call)
  {
    hide ProblemOf, CallsOf;
    if names != [] {
      var front, name := names[..|names| - 1], names[|names| - 1];
      OfNamesHas(api, routes, allowed, page, front, p);
      OfCallsHas(routes, allowed, page, name, CallsOf(api, name), p);
      assert names == front + [name];
    }
  }

  lemma {:induction false} OfPagesHas(pages: seq<Page>, api: map<Text, seq<Call>>, routes: seq<Route>,
      allowed: map<Text, Text>, p: Problem)
    ensures p in OfPages(pages, api, routes, allowed)
      <==> exists page, name, call ::
             Called(pages, api, page, name, call) && p in ProblemOf(routes, allowed, page, name, call)
  {
    hide ProblemOf, CallsOf;
    if pages != [] {
      var front, last := pages[..|pages| - 1], pages[|pages| - 1];
      OfPagesHas(front, api, routes, allowed, p);
      OfNamesHas(api, routes, allowed, last.page, last.calls, p);
      CalledGrows(front, last, api);
      assert pages == front + [last];
    }
  }

  lemma CalledGrows(front: seq<Page>, last: Page, api: map<Text, seq<Call>>)
    ensures forall page, name, call ::
      Called(front + [last], api, page, name, call)
      <==>
      (Called(front, api, page, name, call) || (page == last.page && name in last.calls && call in CallsOf(api, name)))
  {
    forall page, name, call
      ensures Called(front + [last], api, page, name, call)
        <==>
        (Called(front, api, page, name, call)
         || (page == last.page && name in last.calls && call in CallsOf(api, name)))
    {
      var pages := front + [last];
      assert pages[|front|] == last && forall i | 0 <= i < |front| :: pages[i] == front[i];
    }
  }

  /** A call that reaches no route, or a write without a guard that is not allowed, named by verb and path. */
  ghost predicate Accuses(call: Call, routes: seq<Route>, allowed: map<Text, Text>, p: Problem) {
    match BestOf(call, routes)
    case None => p.what == MissingRoute && p.route == call.verb + Ascii(" ") + call.path
    case Some(r) =>
      && p.what == MutationWithoutGuard && p.route == r.verb + Ascii(" ") + r.path
      && r.verb !in {Ascii("GET"), Ascii("HEAD"), Ascii("OPTIONS")} && r.guard in {NoGuard, Limited}
      && p.route !in allowed
  }

  /** What is raised: exactly what is wrong with a call of a page, under that page and the name it calls by. */
  lemma RaisedAre(pages: seq<Page>, api: map<Text, seq<Call>>, routes: seq<Route>, allowed: map<Text, Text>, p: Problem)
    ensures p in OfPages(pages, api, routes, allowed)
      <==> exists call :: Called(pages, api, p.page, p.api, call) && Accuses(call, routes, allowed, p)
  {
    hide Called, OfPages, ProblemOf, Accuses;
    OfPagesHas(pages, api, routes, allowed, p);
    forall page, name, call
      ensures p in ProblemOf(routes, allowed, page, name, call)
        <==> page == p.page && name == p.api && Accuses(call, routes, allowed, p)
    {
      OneProblem(routes, allowed, page, name, call, p);
    }
  }

  lemma OneProblem(routes: seq<Route>, allowed: map<Text, Text>, page: Text, name: Text, call: Call, p: Problem)
    ensures p in ProblemOf(routes, allowed, page, name, call)
      <==> page == p.page && name == p.api && Accuses(call, routes, allowed, p)
  {
    hide BestOf;
    assert Ascii(" ") == [SPACE];
    hide Ascii;
  }

  /** Nothing is made up, nothing is reported twice, and every text raised is reported. */
  lemma {:induction false} OnceEachReports(problems: seq<Problem>)
    ensures var r := OnceEach(problems);
      && (forall i | 0 <= i < |r| :: r[i] in problems)
      && (forall i, j | 0 <= i < j < |r| :: SeenAs(r[i]) != SeenAs(r[j]))
      && TextsOf(r) == TextsOf(problems)
  {
    hide SeenAs;
    if problems != [] {
      var front, p := problems[..|problems| - 1], problems[|problems| - 1];
      OnceEachReports(front);
      assert problems == front + [p];
      assert TextsOf(problems) == TextsOf(front) + {SeenAs(p)};
      var r := OnceEach(front);
      assert TextsOf(r + [p]) == TextsOf(r) + {SeenAs(p)};
      forall i | 0 <= i < |r| ensures SeenAs(r[i]) in TextsOf(r) {}
    }
  }

  /** The report is empty exactly when every call of every page reaches a route it may use. */
  lemma EmptyReportIff(pages: seq<Page>, api: map<Text, seq<Call>>, routes: seq<Route>, allowed: map<Text, Text>)
    ensures OnceEach(OfPages(pages, api, routes, allowed)) == []
      <==> forall page, name, call :: Called(pages, api, page, name, call) ==> IsFine(call, routes, allowed)
  {
    hide BestOf, Called, OfPages, Unguarded;
    var raised := OfPages(pages, api, routes, allowed);
    OnceEachReports(raised);
    if page, name, call :| Called(pages, api, page, name, call) && !IsFine(call, routes, allowed) {
      var p := ProblemOf(routes, allowed, page, name, call)[0];
      OfPagesHas(pages, api, routes, allowed, p);
      assert SeenAs(p) in TextsOf(raised);
    }
    if OnceEach(raised) != [] {
      var p := OnceEach(raised)[0];
      OfPagesHas(pages, api, routes, allowed, p);
      var page, name, call :| Called(pages, api, page, name, call) && p in ProblemOf(routes, allowed, page, name, call);
      assert !IsFine(call, routes, allowed);
    }
  }

  // ---- The path of a call ----

  /** Marks a substitution in a template. */
  const SUB: CodeUnit := 0
  const QUESTION: CodeUnit := 63
  const HASH: CodeUnit := 35

  function BeforeQuery(t: Text): (r: Text)
    ensures Lacks(r, QUESTION) && Lacks(r, HASH)
  {
    if t == [] || t[0] == QUESTION || t[0] == HASH then [] else [t[0]] + BeforeQuery(t[1..])
  }

  /** `t` without the run of `u` at its end. */
  function DropTail(t: Text, u: CodeUnit): (r: Text)
    ensures r <= t && (r == [] || r[|r| - 1] != u)
  {
    if t != [] && t[|t| - 1] == u then DropTail(t[..|t| - 1], u) else t
  }

  function NormalSegment(s: Text): Text {
    if SUB !in s then s
    else
      var trimmed := DropTail(s, SUB);
      if trimmed == [] || SUB in trimmed then COLON_TEXT else trimmed
  }

  function NormalisePath(raw: Text): Text {
    var parts := Split(BeforeQuery(raw), SLASH);
    var joined := DropTail(Join(seq(|parts|, i requires 0 <= i < |parts| => NormalSegment(parts[i])), SLASH), SLASH);
    if joined == [] then [SLASH] else joined
  }

  /** No query, no substitution mark, and no slash at the end but the root's own. */
  predicate IsNormal(t: Text) {
    && t != [] && Lacks(t, QUESTION) && Lacks(t, HASH) && Lacks(t, SUB)
    && (t == [SLASH] || t[|t| - 1] != SLASH)
  }

  lemma {:induction false} PartsLack(t: Text, sep: CodeUnit, u: CodeUnit)
    requires Lacks(t, u)
    ensures forall i | 0 <= i < |Split(t, sep)| :: Lacks(Split(t, sep)[i], u)
  {
    if t != [] { PartsLack(t[1..], sep, u); }
  }

  lemma {:induction false} JoinLacks(parts: seq<Text>, sep: CodeUnit, u: CodeUnit)
    requires parts != [] && u != sep && forall i | 0 <= i < |parts| :: Lacks(parts[i], u)
    ensures Lacks(Join(parts, sep), u)
  {
    if |parts| > 1 { JoinLacks(parts[1..], sep, u); }
  }

  lemma SegmentLacks(s: Text, u: CodeUnit)
    requires u == SUB || (u != COLON && Lacks(s, u))
    ensures Lacks(NormalSegment(s), u)
  {
  }

  lemma NormalisedLacks(raw: Text, u: CodeUnit)
    requires u in {QUESTION, HASH, SUB}
    ensures Lacks(NormalisePath(raw), u)
  {
    hide NormalSegment;
    var t := BeforeQuery(raw);
    var parts := Split(t, SLASH);
    if u != SUB { PartsLack(t, SLASH, u); }
    var segments := seq(|parts|, i requires 0 <= i < |parts| => NormalSegment(parts[i]));
    forall i | 0 <= i < |segments| ensures Lacks(segments[i], u) { SegmentLacks(parts[i], u); }
    JoinLacks(segments, SLASH, u);
  }

  lemma {:induction false} NothingToCut(t: Text)
    requires Lacks(t, QUESTION) && Lacks(t, HASH)
    ensures BeforeQuery(t) == t
  {
    if t != [] { NothingToCut(t[1..]); assert t == [t[0]] + t[1..]; }
  }

  lemma {:induction false} NoMarkNoChange(parts: seq<Text>)
    requires forall i | 0 <= i < |parts| :: Lacks(parts[i], SUB)
    ensures seq(|parts|, i requires 0 <= i < |parts| => NormalSegment(parts[i])) == parts
  {
  }

  lemma NormalIsFixed(t: Text)
    requires IsNormal(t)
    ensures NormalisePath(t) == t
  {
    hide NormalSegment;
    NothingToCut(t);
    PartsLack(t, SLASH, SUB);
    JoinSplit(t, SLASH);
    NoMarkNoChange(Split(t, SLASH));
  }

  /** The normal paths are exactly what normalising gives, and it leaves them alone. */
  lemma NormalIffFixed(t: Text)
    ensures IsNormal(NormalisePath(t))
    ensures IsNormal(t) <==> NormalisePath(t) == t
  {
    NormalisedLacks(t, QUESTION);
    NormalisedLacks(t, HASH);
    NormalisedLacks(t, SUB);
    assert IsNormal(NormalisePath(t));
    if IsNormal(t) { NormalIsFixed(t); }
  }

  // ---- What normalising does to a segment, a query and a slash ----

  lemma {:induction false} TailDrops(t: Text, u: CodeUnit, n: nat)
    requires t == [] || t[|t| - 1] != u
    ensures DropTail(t + Repeat(u, n), u) == t
  {
    if n == 0 {
      assert t + Repeat(u, 0) == t;
    } else {
      assert (t + Repeat(u, n))[..|t| + n - 1] == t + Repeat(u, n - 1);
      TailDrops(t, u, n - 1);
    }
  }

  /** A mark at the end of a segment is dropped. */
  lemma TrailingMarksAreDropped(stem: Text, n: nat)
    requires stem != [] && Lacks(stem, SUB)
    ensures NormalSegment(stem + Repeat(SUB, n)) == stem
  {
    TailDrops(stem, SUB, n);
    if n == 0 { assert stem + Repeat(SUB, 0) == stem; }
  }

  /** A segment of marks alone is a parameter. */
  lemma MarksAloneAreAParameter(n: nat)
    requires n >= 1
    ensures NormalSegment(Repeat(SUB, n)) == COLON_TEXT
  {
    TailDrops([], SUB, n);
    assert [] + Repeat(SUB, n) == Repeat(SUB, n) && Repeat(SUB, n)[0] == SUB;
  }

  /** A segment with a mark before its end is a parameter. */
  lemma MarkInsideIsAParameter(a: Text, b: Text, n: nat)
    requires b != [] && b[|b| - 1] != SUB
    ensures NormalSegment(a + [SUB] + b + Repeat(SUB, n)) == COLON_TEXT
  {
    var t := a + [SUB] + b;
    TailDrops(t, SUB, n);
    assert t[|a|] == SUB && (t + Repeat(SUB, n))[|a|] == SUB;
  }

  predicate IsSegment(s: Text) { Lacks(s, SLASH) && Lacks(s, QUESTION) && Lacks(s, HASH) }

  lemma NormalSegmentIsOne(s: Text)
    requires IsSegment(s)
    ensures Lacks(NormalSegment(s), SLASH) && (NormalSegment(s) == [] <==> s == [])
  {
  }

  /** A path is normalised segment by segment. */
  lemma SegmentBySegment(parts: seq<Text>)
    requires parts != [] && parts[|parts| - 1] != [] && forall i | 0 <= i < |parts| :: IsSegment(parts[i])
    ensures Split(NormalisePath(Join(parts, SLASH)), SLASH)
      == seq(|parts|, i requires 0 <= i < |parts| => NormalSegment(parts[i]))
  {
    var segments := seq(|parts|, i requires 0 <= i < |parts| => NormalSegment(parts[i]));
    forall i | 0 <= i < |parts| ensures Lacks(segments[i], SLASH) && (segments[i] == [] <==> parts[i] == []) {
      NormalSegmentIsOne(parts[i]);
    }
    hide NormalSegment;
    JoinLacks(parts, SLASH, QUESTION);
    JoinLacks(parts, SLASH, HASH);
    NothingToCut(Join(parts, SLASH));
    SplitJoin(parts, SLASH);
    SplitJoin(segments, SLASH);
    JoinEnds(segments);
  }

  lemma {:induction false} JoinEnds(parts: seq<Text>)
    requires parts != [] && parts[|parts| - 1] != []
    ensures var t := Join(parts, SLASH); var last := parts[|parts| - 1]; t != [] && t[|t| - 1] == last[|last| - 1]
  {
    if |parts| > 1 { JoinEnds(parts[1..]); }
  }

  lemma {:induction false} CutsAt(path: Text, mark: CodeUnit, tail: Text)
    requires Lacks(path, QUESTION) && Lacks(path, HASH) && (mark == QUESTION || mark == HASH)
    ensures BeforeQuery(path + [mark] + tail) == path
  {
    if path != [] {
      assert (path + [mark] + tail)[1..] == path[1..] + [mark] + tail;
      CutsAt(path[1..], mark, tail);
      assert path == [path[0]] + path[1..];
    }
  }

  /** A query or a fragment, whatever is in it, makes no difference. */
  lemma QueryIsCut(path: Text, mark: CodeUnit, tail: Text)
    requires Lacks(path, mark) && Lacks(path, 63) && Lacks(path, 35) && [mark] in {Ascii("?"), Ascii("#")}
    ensures NormalisePath(path + [mark] + tail) == NormalisePath(path)
  {
    assert Ascii("?") == [QUESTION] && Ascii("#") == [HASH];
    assert [mark][0] == mark && [QUESTION][0] == QUESTION && [HASH][0] == HASH;
    CutsAt(path, mark, tail);
    NothingToCut(path);
  }

  lemma {:induction false} SplitEnd(t: Text)
    ensures Split(t + [SLASH], SLASH) == Split(t, SLASH) + [[]]
  {
    if t != [] {
      assert (t + [SLASH])[1..] == t[1..] + [SLASH];
      SplitEnd(t[1..]);
    }
  }

  lemma {:induction false} JoinEnd(parts: seq<Text>)
    requires parts != []
    ensures Join(parts + [[]], SLASH) == Join(parts, SLASH) + [SLASH]
  {
    if |parts| > 1 {
      assert (parts + [[]])[1..] == parts[1..] + [[]];
      JoinEnd(parts[1..]);
    } else {
      assert (parts + [[]])[1..] == [[]];
    }
  }

  /** Nor does a slash at the end. */
  lemma TrailingSlashIsDropped(path: Text)
    requires Lacks(path, QUESTION) && Lacks(path, HASH)
    ensures NormalisePath(path + [SLASH]) == NormalisePath(path)
  {
    NothingToCut(path);
    NothingToCut(path + [SLASH]);
    SplitEnd(path);
    var parts := Split(path, SLASH);
    var segments := seq(|parts|, i requires 0 <= i < |parts| => NormalSegment(parts[i]));
    assert NormalSegment([]) == [];
    var longer := parts + [[]];
    assert seq(|longer|, i requires 0 <= i < |longer| => NormalSegment(longer[i])) == segments + [[]];
    hide NormalSegment;
    JoinEnd(segments);
    assert (Join(segments, SLASH) + [SLASH])[..|Join(segments, SLASH)|] == Join(segments, SLASH);
  }
}
