/**
 The activity bus: a bounded in-memory history fed by live events, by injected historical ones and by
 a throttled reload, and read newest first.
 */
module EventBus {
  import opened Texts
  import opened Numbers
  import opened Sorting
  import opened Lists

  const HISTORY_CAPACITY := 500
  const REHYDRATE_THROTTLE_MS := 30_000
  const BAR: CodeUnit := 124

  datatype Event = Event(kind: Text, jobId: Option<Text>, ts: int, payload: Text)

  // ---- Event keys ----

  function JobOf(e: Event): Text { if e.jobId.Some? then e.jobId.value else [] }

  /** The text events are deduplicated by. */
  function Key(e: Event): Text { e.kind + [BAR] + JobOf(e) + [BAR] + NumberText(e.ts) }

  lemma TimeTextBinds(a: int, b: int)
    requires NumberText(a) == NumberText(b)
    ensures a == b
    ensures Lacks(NumberText(a), BAR)
  {
    NumberRoundTrip(a, []);
    NumberRoundTrip(b, []);
    assert NumberText(a) + [] == NumberText(a) && NumberText(b) + [] == NumberText(b);
    NumberUnits(a);
  }

  lemma LastPart(a: Text, x: Text, b: Text, y: Text)
    requires Lacks(x, BAR) && Lacks(y, BAR) && a + [BAR] + x == b + [BAR] + y
    ensures a == b && x == y
  {
    var s, t := a + [BAR] + x, b + [BAR] + y;
    assert forall i | |a| < i < |s| :: s[i] != BAR;
    assert forall i | |b| < i < |t| :: t[i] != BAR;
    assert s[|a|] == BAR && t[|b|] == BAR;
    assert |a| == |b|;
    assert s[..|a|] == a && t[..|a|] == b;
    assert s[|a| + 1..] == x && t[|a| + 1..] == y;
  }

  lemma FirstPart(a: Text, x: Text, b: Text, y: Text)
    requires Lacks(a, BAR) && Lacks(b, BAR) && a + [BAR] + x == b + [BAR] + y
    ensures a == b && x == y
  {
    var s, t := a + [BAR] + x, b + [BAR] + y;
    assert forall i | 0 <= i < |a| :: s[i] != BAR;
    assert forall i | 0 <= i < |b| :: t[i] != BAR;
    assert s[|a|] == BAR && t[|b|] == BAR;
    assert |a| == |b|;
    assert s[..|a|] == a && t[..|a|] == b;
    assert s[|a| + 1..] == x && t[|a| + 1..] == y;
  }

  /** No job and the empty job are one job to the key. */
  predicate SameJob(a: Event, b: Event) {
    a.jobId == b.jobId || (a.jobId in {None, Some([])} && b.jobId in {None, Some([])})
  }

  /** The key text identifies type, job and time, whatever the job id holds. */
  lemma KeyBinds(a: Event, b: Event)
    requires Lacks(a.kind, BAR) && Lacks(b.kind, BAR)
    ensures Key(a) == Key(b) <==> a.kind == b.kind && SameJob(a, b) && a.ts == b.ts
    ensures Key(a)
      == a.kind + Ascii("|") + (if a.jobId.Some? then a.jobId.value else []) + Ascii("|") + NumberText(a.ts)
  {
    assert Ascii("|") == [BAR];
    if Key(a) == Key(b) {
      TimeTextBinds(a.ts, a.ts);
      TimeTextBinds(b.ts, b.ts);
      LastPart(a.kind + [BAR] + JobOf(a), NumberText(a.ts), b.kind + [BAR] + JobOf(b), NumberText(b.ts));
      TimeTextBinds(a.ts, b.ts);
      FirstPart(a.kind, JobOf(a), b.kind, JobOf(b));
    }
  }

  // ---- The ring as a value ----

  datatype Bus = Bus(history: seq<Event>, hydrating: bool, lastAttempt: int)

  predicate Earlier(a: Event, b: Event) { a.ts < b.ts }

  function Newest(s: seq<Event>): (r: seq<Event>)
    ensures |r| <= HISTORY_CAPACITY
  {
    if |s| > HISTORY_CAPACITY then s[|s| - HISTORY_CAPACITY..] else s
  }

  function Keys(s: seq<Event>): set<Text> { set e | e in s :: Key(e) }

  /** The events whose key has not been seen, each key once. */
  function Fresh(seen: set<Text>, events: seq<Event>): seq<Event>
    decreases |events|
  {
    if events == [] then []
    else if Key(events[0]) in seen then Fresh(seen, events[1..])
    else [events[0]] + Fresh(seen + {Key(events[0])}, events[1..])
  }

  function Merged(h: seq<Event>, events: seq<Event>): seq<Event> { h + Fresh(Keys(h), events) }

  function Inject(h: seq<Event>, events: seq<Event>): seq<Event> {
    if events == [] then h else Newest(SortBy(Merged(h, events), Earlier))
  }

  /** A live event is the newest part of what was there and the event itself, as an injection's is. */
  function Emit(h: seq<Event>, e: Event): seq<Event> { Newest(h + [e]) }

  predicate MayHydrate(b: Bus, pgEnabled: bool, now: int) {
    b.history == [] && pgEnabled && !b.hydrating && now - b.lastAttempt >= REHYDRATE_THROTTLE_MS
  }

  function Begin(b: Bus, pgEnabled: bool, now: int): Bus {
    if MayHydrate(b, pgEnabled, now) then b.(hydrating := true, lastAttempt := now) else b
  }

  /** The reload ends; a failed query brings nothing. */
  function Finish(b: Bus, rows: Option<seq<Event>>): Bus {
    b.(history := if rows.Some? then Inject(b.history, SortBy(rows.value, Earlier)) else b.history, hydrating := false)
  }

  function OfJob(h: seq<Event>, jobId: Text): seq<Event> { Filter(h, (e: Event) => e.jobId == Some(jobId)) }

  function Reversed(s: seq<Event>): (r: seq<Event>)
    ensures |r| == |s| && forall i | 0 <= i < |s| :: r[i] == s[|s| - 1 - i]
  {
    if s == [] then [] else Reversed(s[1..]) + [s[0]]
  }

  /** The events a read is about: those of the job, or all when none (or the empty id) is given. */
  function Selected(h: seq<Event>, jobId: Option<Text>): seq<Event> {
    if jobId.Some? && jobId.value != [] then OfJob(h, jobId.value) else h
  }

  /** `slice(-limit).reverse()`: a limit of zero is no limit at all. */
  function Recent(h: seq<Event>, limit: nat, jobId: Option<Text>): seq<Event> {
    var s := Selected(h, jobId);
    Reversed(if 1 <= limit <= |s| then s[|s| - limit..] else s)
  }

  /** The newest `limit` of what was asked for, newest first, with nothing skipped in between. */
  lemma RecentIsTheTail(h: seq<Event>, limit: nat, jobId: Option<Text>)
    ensures var s, r := Selected(h, jobId), Recent(h, limit, jobId);
      && |r| == (if 1 <= limit <= |s| then limit else |s|)
      && s == s[..|s| - |r|] + Reversed(r)
  {
    var s, r := Selected(h, jobId), Recent(h, limit, jobId);
    assert Reversed(r) == s[|s| - |r|..];
  }

  lemma {:induction false} ReversedConcat(a: seq<Event>, b: seq<Event>)
    ensures Reversed(a + b) == Reversed(b) + Reversed(a)
  {
    if a == [] {
      assert a + b == b;
    } else {
      assert (a + b)[1..] == a[1..] + b;
      ReversedConcat(a[1..], b);
    }
  }

  /** A read for this job, or for all when none (or the empty id) is given, is about this event. */
  predicate Selects(jobId: Option<Text>, e: Event) { jobId.None? || jobId.value == [] || e.jobId == jobId }

  /** The ring is full and the event it drops next is one the read is about. */
  predicate Forgets(h: seq<Event>, jobId: Option<Text>) { |h| == HISTORY_CAPACITY && Selects(jobId, h[0]) }

  lemma SelectedOfConcat(a: seq<Event>, b: seq<Event>, jobId: Option<Text>)
    ensures Selected(a + b, jobId) == Selected(a, jobId) + Selected(b, jobId)
  {
    if jobId.Some? { FilterConcat(a, b, (e: Event) => e.jobId == Some(jobId.value)); }
  }

  lemma SelectedOfOne(e: Event, jobId: Option<Text>)
    ensures Selected([e], jobId) == if Selects(jobId, e) then [e] else []
  {
    if jobId.Some? { FilterOne(e, (x: Event) => x.jobId == Some(jobId.value)); }
  }

  /** What a read is about after an event was emitted. */
  lemma SelectedOfEmitted(h: seq<Event>, e: Event, jobId: Option<Text>)
    requires |h| <= HISTORY_CAPACITY
    ensures Forgets(h, jobId) ==> Selected(h, jobId) != []
    ensures Selected(Emit(h, e), jobId)
      == (if Forgets(h, jobId) then Selected(h, jobId)[1..] else Selected(h, jobId))
         + (if Selects(jobId, e) then [e] else [])
  {
    hide Selected, Selects;
    SelectedOfOne(e, jobId);
    if |h| == HISTORY_CAPACITY {
      var tail := h[1..];
      assert h == [h[0]] + tail && Emit(h, e) == tail + [e];
      SelectedOfConcat([h[0]], tail, jobId);
      SelectedOfConcat(tail, [e], jobId);
      SelectedOfOne(h[0], jobId);
      assert [] + Selected(tail, jobId) == Selected(tail, jobId);
      assert Forgets(h, jobId) ==> ([h[0]] + Selected(tail, jobId))[1..] == Selected(tail, jobId);
    } else {
      SelectedOfConcat(h, [e], jobId);
    }
  }

  /** What is left of a read when the ring drops its oldest event: all but the last, if the read reached that far. */
  function Remaining(h: seq<Event>, limit: nat, jobId: Option<Text>): seq<Event> {
    var r := Recent(h, limit, jobId);
    if Forgets(h, jobId) && r != [] && (limit == 0 || limit >= |Selected(h, jobId)|) then r[..|r| - 1] else r
  }

  lemma ReversedTail(s: seq<Event>)
    requires s != []
    ensures Reversed(s[1..]) == Reversed(s)[..|s| - 1]
  {
  }

  lemma ReversedPush(s: seq<Event>, e: Event)
    ensures Reversed(s + [e]) == [e] + Reversed(s)
  {
    assert Reversed([e]) == [e];
    ReversedConcat(s, [e]);
  }

  /** What a read gives, from the events it is about. */
  function Cut(s: seq<Event>, limit: nat): seq<Event> { if 1 <= limit <= |s| then s[|s| - limit..] else s }

  lemma RecentIsReversedCut(h: seq<Event>, limit: nat, jobId: Option<Text>)
    ensures Recent(h, limit, jobId) == Reversed(Cut(Selected(h, jobId), limit))
  {
    hide Reversed, Selected;
  }

  lemma CutOfRest(s: seq<Event>, limit: nat)
    requires s != []
    ensures if limit == 0 || limit >= |s| then Cut(s, limit) == s && Cut(s[1..], limit) == s[1..]
      else Cut(s[1..], limit) == Cut(s, limit)
  {
  }

  lemma CutOfPushed(s: seq<Event>, e: Event, limit: nat)
    ensures Cut(s, 0) == s && Cut(s + [e], 0) == s + [e] && Cut(s + [e], 1) == [e]
    ensures limit >= 1 ==> Cut(s + [e], limit + 1) == Cut(s, limit) + [e]
  {
  }

  lemma RemainingIsReversedCut(h: seq<Event>, limit: nat, jobId: Option<Text>)
    requires Forgets(h, jobId) ==> Selected(h, jobId) != []
    ensures var s := Selected(h, jobId);
      Remaining(h, limit, jobId) == Reversed(Cut(if Forgets(h, jobId) then s[1..] else s, limit))
  {
    hide Reversed, Selected, Selects, Recent, Cut, Forgets;
    RecentIsReversedCut(h, limit, jobId);
    var s := Selected(h, jobId);
    if Forgets(h, jobId) {
      ReversedTail(s);
      CutOfRest(s, limit);
    }
  }

  /**
   What a reader sees of an emitted event. A read that is about it, of any limit, gives it first and then what
   the read of one less gave before; a full ring takes the oldest event from the end of a read that reached it.
   */
  lemma EmittedComesFirst(h: seq<Event>, e: Event, limit: nat, jobId: Option<Text>)
    requires |h| <= HISTORY_CAPACITY && Selects(jobId, e)
    ensures Recent(Emit(h, e), 0, jobId) == [e] + Remaining(h, 0, jobId)
    ensures Recent(Emit(h, e), 1, jobId) == [e]
    ensures limit >= 1 ==> Recent(Emit(h, e), limit + 1, jobId) == [e] + Remaining(h, limit, jobId)
  {
    hide Emit, Recent, Reversed, Selected, Selects, Remaining, Cut, Forgets;
    var s := Selected(h, jobId);
    SelectedOfEmitted(h, e, jobId);
    var kept := if Forgets(h, jobId) then s[1..] else s;
    RecentIsReversedCut(Emit(h, e), 0, jobId);
    RecentIsReversedCut(Emit(h, e), 1, jobId);
    RecentIsReversedCut(Emit(h, e), limit + 1, jobId);
    RemainingIsReversedCut(h, 0, jobId);
    RemainingIsReversedCut(h, limit, jobId);
    CutOfPushed(kept, e, limit);
    ReversedPush(kept, e);
    ReversedPush(Cut(kept, limit), e);
    ReversedPush([], e);
    assert [] + [e] == [e] && [e] + Reversed([]) == [e];
  }

  /** A read for another job is moved only by what a full ring forgets. */
  lemma OtherJobsAreUnmoved(h: seq<Event>, e: Event, limit: nat, jobId: Option<Text>)
    requires |h| <= HISTORY_CAPACITY && !Selects(jobId, e)
    ensures Recent(Emit(h, e), limit, jobId) == Remaining(h, limit, jobId)
    ensures !Forgets(h, jobId) ==> Recent(Emit(h, e), limit, jobId) == Recent(h, limit, jobId)
  {
    hide Emit, Recent, Reversed, Selected, Selects, Remaining;
    SelectedOfEmitted(h, e, jobId);
    RecentIsReversedCut(Emit(h, e), limit, jobId);
    RecentIsReversedCut(h, limit, jobId);
    RemainingIsReversedCut(h, limit, jobId);
    var s := Selected(h, jobId);
    assert (if Forgets(h, jobId) then s[1..] else s) + [] == if Forgets(h, jobId) then s[1..] else s;
  }

  // ---- The bus itself ----

  class KarwanBus {
    var history: seq<Event>
    var hydrating: bool
    var lastHydrateAttempt: int

    ghost predicate Valid()
      reads this
    {
      |history| <= HISTORY_CAPACITY
    }

    ghost function Value(): Bus
      reads this
    {
      Bus(history, hydrating, lastHydrateAttempt)
    }

    /** Starts from the events a previous process left on disk. */
    constructor (stored: seq<Event>)
      ensures Valid() && Value() == Bus(Newest(stored), false, 0)
    {
      history := Newest(stored);
      hydrating, lastHydrateAttempt := false, 0;
    }

    method EmitEvent(e: Event)
      requires Valid()
      modifies this`history
      ensures Valid() && history == Emit(old(history), e)
    {
      history := history + [e];
      if |history| > HISTORY_CAPACITY { history := history[1..]; }
    }

    method InjectHistorical(events: seq<Event>) returns (added: nat)
      requires Valid()
      modifies this`history
      ensures Valid() && history == Inject(old(history), events)
      ensures added == |Fresh(Keys(old(history)), events)|
    {
      hide Key, Keys, Earlier;
      added := 0;
      if events == [] { return; }
      var seen := Keys(history);
      for i := 0 to |events|
        invariant history + Fresh(seen, events[i..]) == Merged(old(history), events)
        invariant added + |Fresh(seen, events[i..])| == |Fresh(Keys(old(history)), events)|
      {
        var e := events[i];
        assert events[i..][0] == e && events[i..][1..] == events[i + 1..];
        if Key(e) in seen { continue; }
        seen := seen + {Key(e)};
        history := history + [e];
        added := added + 1;
      }
      assert events[|events|..] == [] && history + [] == history;
      history := SortBy(history, Earlier);
      if |history| > HISTORY_CAPACITY { history := history[|history| - HISTORY_CAPACITY..]; }
    }

    /** The first half of ensureHydrated: true when a reload query is now in flight. */
    method BeginHydrate(pgEnabled: bool, now: int) returns (started: bool)
      modifies this`hydrating, this`lastHydrateAttempt
      ensures started <==> old(MayHydrate(Value(), pgEnabled, now))
      ensures Value() == Begin(old(Value()), pgEnabled, now)
    {
      if |history| > 0 || !pgEnabled || hydrating { return false; }
      if now - lastHydrateAttempt < REHYDRATE_THROTTLE_MS { return false; }
      hydrating := true;
      lastHydrateAttempt := now;
      return true;
    }

    /** The second half: the query answered, or failed. */
    method FinishHydrate(rows: Option<seq<Event>>)
      requires Valid()
      modifies this
      ensures Valid() && Value() == Finish(old(Value()), rows)
    {
      if rows.Some? && rows.value != [] {
        var _ := InjectHistorical(SortBy(rows.value, Earlier));
      } else {
        assert rows.Some? ==> SortBy(rows.value, Earlier) == [];
      }
      hydrating := false;
    }

    method ReadRecent(limit: nat, jobId: Option<Text>) returns (r: seq<Event>)
      ensures r == Recent(history, limit, jobId)
    {
      r := Recent(history, limit, jobId);
    }
  }

  // ---- What an injection does ----

  lemma EarlierIsStrictWeak()
    ensures StrictWeak(Earlier)
  {
  }

  /** Exactly the unseen keys are added, each once. */
  lemma {:induction false} FreshIsWhatWasUnseen(seen: set<Text>, events: seq<Event>)
    ensures Keys(Fresh(seen, events)) == Keys(events) - seen
    ensures |Fresh(seen, events)| == |Keys(events) - seen|
    ensures forall e | e in Fresh(seen, events) :: e in events && Key(e) !in seen
    decreases |events|
  {
    hide Key, Keys;
    if events == [] {
      assert Keys(events) == {} by { KeysOfNone(); }
    } else {
      var k, rest := Key(events[0]), events[1..];
      KeysOfCons(events[0], rest);
      assert events == [events[0]] + rest;
      if k in seen {
        FreshIsWhatWasUnseen(seen, rest);
        assert Keys(events) - seen == Keys(rest) - seen;
      } else {
        FreshIsWhatWasUnseen(seen + {k}, rest);
        KeysOfCons(events[0], Fresh(seen + {k}, rest));
        assert Keys(events) - seen == {k} + (Keys(rest) - (seen + {k}));
      }
    }
  }

  lemma KeysOfNone()
    ensures Keys([]) == {}
  {
  }

  lemma KeysOfCons(e: Event, s: seq<Event>)
    ensures Keys([e] + s) == {Key(e)} + Keys(s)
  {
    hide Key;
  }

  predicate Ascending(s: seq<Event>) { forall i, j | 0 <= i < j < |s| :: s[i].ts <= s[j].ts }

  lemma MergedAscends(h: seq<Event>, events: seq<Event>)
    ensures Ascending(SortBy(Merged(h, events), Earlier))
    ensures multiset(SortBy(Merged(h, events), Earlier)) == multiset(h) + multiset(Fresh(Keys(h), events))
  {
    EarlierIsStrictWeak();
    SortSorts(Merged(h, events), Earlier);
    var s := SortBy(Merged(h, events), Earlier);
    forall i, j | 0 <= i < j < |s| ensures s[i].ts <= s[j].ts { assert !Earlier(s[j], s[i]); }
  }

  /**
   After a non-empty injection the ring ascends by time and is the newest part of the old ring and the
   events with unseen keys: what was dropped is nowhere newer than what was kept, nothing is dropped
   below capacity, and as many were added as there were unseen keys.
   */
  lemma InjectKeepsTheNewest(h: seq<Event>, events: seq<Event>) returns (dropped: seq<Event>)
    requires events != []
    ensures var r, added := Inject(h, events), Fresh(Keys(h), events);
      && Ascending(r) && |r| <= HISTORY_CAPACITY
      && multiset(dropped) + multiset(r) == multiset(h) + multiset(added)
      && (forall d, k | d in dropped && k in r :: d.ts <= k.ts)
      && (dropped != [] ==> |r| == HISTORY_CAPACITY)
      && |added| == |Keys(events) - Keys(h)| && Keys(added) == Keys(events) - Keys(h)
  {
    hide Keys, Fresh, Key, Earlier, Merged;
    MergedAscends(h, events);
    FreshIsWhatWasUnseen(Keys(h), events);
    dropped := CutTheOldest(SortBy(Merged(h, events), Earlier));
  }

  lemma CutTheOldest(s: seq<Event>) returns (dropped: seq<Event>)
    requires Ascending(s)
    ensures Ascending(Newest(s)) && multiset(s) == multiset(dropped) + multiset(Newest(s))
    ensures forall d, k | d in dropped && k in Newest(s) :: d.ts <= k.ts
    ensures dropped != [] ==> |Newest(s)| == HISTORY_CAPACITY
  {
    var cut := |s| - |Newest(s)|;
    var kept := s[cut..];
    dropped := s[..cut];
    assert Newest(s) == kept;
    OlderAndNewer(s, cut);
  }

  lemma OlderAndNewer(s: seq<Event>, cut: nat)
    requires Ascending(s) && cut <= |s|
    ensures Ascending(s[cut..]) && multiset(s) == multiset(s[..cut]) + multiset(s[cut..])
    ensures forall d, k | d in s[..cut] && k in s[cut..] :: d.ts <= k.ts
  {
    assert s == s[..cut] + s[cut..];
    forall d, k | d in s[..cut] && k in s[cut..] ensures d.ts <= k.ts {
      var i :| 0 <= i < cut && s[..cut][i] == d;
      var j :| 0 <= j < |s[cut..]| && s[cut..][j] == k;
      assert s[i].ts <= s[cut + j].ts;
    }
  }

  // ---- Injecting the same events again ----

  /** The events of one moment, in order. */
  function AtTime(s: seq<Event>, ts: int): (r: seq<Event>)
    ensures forall e :: e in r <==> e in s && e.ts == ts
  {
    Filter(s, (e: Event) => e.ts == ts)
  }

  lemma AtTimeConcat(a: seq<Event>, b: seq<Event>, ts: int)
    ensures AtTime(a + b, ts) == AtTime(a, ts) + AtTime(b, ts)
  {
    FilterConcat(a, b, (e: Event) => e.ts == ts);
  }

  lemma AtTimeOne(x: Event, ts: int)
    ensures AtTime([x], ts) == if x.ts == ts then [x] else []
  {
    FilterOne(x, (e: Event) => e.ts == ts);
  }

  lemma {:induction false} InsertKeepsTies(x: Event, s: seq<Event>, ts: int)
    ensures AtTime(Insert(x, s, Earlier), ts) == AtTime([x], ts) + AtTime(s, ts)
  {
    hide AtTime;
    if s == [] || !Earlier(s[0], x) {
      AtTimeConcat([x], s, ts);
    } else {
      var tail := s[1..];
      InsertKeepsTies(x, tail, ts);
      AtTimeConcat([s[0]], Insert(x, tail, Earlier), ts);
      AtTimeConcat([s[0]], tail, ts);
      AtTimeOne(x, ts);
      AtTimeOne(s[0], ts);
      assert s == [s[0]] + tail;
    }
  }

  /** Sorting by time leaves events of one moment in the order they had. */
  lemma {:induction false} SortKeepsTies(s: seq<Event>, ts: int)
    ensures AtTime(SortBy(s, Earlier), ts) == AtTime(s, ts)
  {
    hide AtTime, Insert;
    if s != [] {
      var tail := s[1..];
      SortKeepsTies(tail, ts);
      InsertKeepsTies(s[0], SortBy(tail, Earlier), ts);
      AtTimeConcat([s[0]], tail, ts);
      assert s == [s[0]] + tail;
    }
  }

  lemma InsertFirst(x: Event, s: seq<Event>)
    requires s != [] ==> !Earlier(s[0], x)
    ensures Insert(x, s, Earlier) == [x] + s
  {
  }

  lemma InsertBehind(x: Event, head: Event, s: seq<Event>)
    requires Earlier(head, x)
    ensures Insert(x, [head] + s, Earlier) == [head] + Insert(x, s, Earlier)
  {
    assert ([head] + s)[1..] == s;
  }

  lemma PutBack<T>(head: seq<T>, rest: seq<T>, x: seq<T>, b: seq<T>)
    ensures head + rest + b == head + (rest + b)
    ensures head + (rest + x + b) == head + rest + x + b
  {
    Regroup(head, rest, b);
    Regroup(head, rest + x, b);
    Regroup(head, rest, x);
  }

  lemma InsertPastOne(x: Event, y: Event, rest: seq<Event>, b: seq<Event>)
    requires Earlier(y, x) && Insert(x, rest + b, Earlier) == rest + [x] + b
    ensures Insert(x, [y] + rest + b, Earlier) == [y] + rest + [x] + b
  {
    hide Insert, Earlier;
    PutBack([y], rest, [x], b);
    InsertBehind(x, y, rest + b);
  }

  lemma {:induction false} InsertPast(x: Event, a: seq<Event>, b: seq<Event>)
    requires forall i | 0 <= i < |a| :: Earlier(a[i], x)
    requires b != [] ==> !Earlier(b[0], x)
    ensures Insert(x, a + b, Earlier) == a + [x] + b
  {
    hide Insert, Earlier;
    if a == [] {
      assert a + b == b && a + [x] + b == [x] + b;
      InsertFirst(x, b);
    } else {
      InsertPast(x, a[1..], b);
      assert a == [a[0]] + a[1..];
      InsertPastOne(x, a[0], a[1..], b);
    }
  }

  lemma {:induction false} OlderGoFirst(r: seq<Event>, f: seq<Event>)
    requires Ascending(r) && forall i, j | 0 <= i < |f| && 0 <= j < |r| :: f[i].ts < r[j].ts
    ensures SortBy(r + f, Earlier) == SortBy(f, Earlier) + r
  {
    hide Insert, SortBy;
    var a := SortBy(f, Earlier);
    if r == [] {
      assert r + f == f && a + r == a;
    } else {
      var tail := r[1..];
      OlderGoFirst(tail, f);
      SortCons(r[0], tail + f);
      assert r + f == [r[0]] + (tail + f);
      AllEarlier(f, r[0]);
      InsertPast(r[0], a, tail);
      assert a + [r[0]] + tail == a + r;
    }
  }

  lemma AllEarlier(f: seq<Event>, x: Event)
    requires forall i | 0 <= i < |f| :: f[i].ts < x.ts
    ensures var a := SortBy(f, Earlier); forall i | 0 <= i < |a| :: Earlier(a[i], x)
  {
    var a := SortBy(f, Earlier);
    SortKeepsElements(f, Earlier);
    forall i | 0 <= i < |a| ensures Earlier(a[i], x) { assert a[i] in f; }
  }

  lemma SortCons(x: Event, s: seq<Event>)
    ensures SortBy([x] + s, Earlier) == Insert(x, SortBy(s, Earlier), Earlier)
  {
    assert ([x] + s)[1..] == s;
  }

  /**
   Injecting into an ascending ring leaves it as it is exactly when it is full and every event with an
   unseen key is strictly older than all it holds, or there is no such event. At a tie with the oldest
   event kept it does not: the injected event takes that event's place.
   */
  lemma InjectChangesNothingIff(r: seq<Event>, events: seq<Event>)
    requires events != [] && Ascending(r) && |r| <= HISTORY_CAPACITY
    ensures Inject(r, events) == r
      <==> forall e | e in Fresh(Keys(r), events) :: |r| == HISTORY_CAPACITY && e.ts < r[0].ts
  {
    var f := Fresh(Keys(r), events);
    if forall e | e in f :: |r| == HISTORY_CAPACITY && e.ts < r[0].ts {
      NothingNewerNothingChanges(r, events);
    } else if Inject(r, events) == r {
      SurvivorsAreNewer(r, events);
    }
  }

  lemma NothingNewerNothingChanges(r: seq<Event>, events: seq<Event>)
    requires events != [] && Ascending(r) && |r| <= HISTORY_CAPACITY
    requires forall e | e in Fresh(Keys(r), events) :: |r| == HISTORY_CAPACITY && e.ts < r[0].ts
    ensures Inject(r, events) == r
  {
    hide Keys, Fresh, SortBy, Earlier;
    var f := Fresh(Keys(r), events);
    forall i, j | 0 <= i < |f| && 0 <= j < |r| ensures f[i].ts < r[j].ts {
      assert f[i] in f;
    }
    OlderGoFirst(r, f);
    var s := SortBy(f, Earlier) + r;
    assert Merged(r, events) == r + f;
    if f == [] { SortOfNone(); assert s == r; } else { assert f[0] in f; assert s[|f|..] == r; }
  }

  lemma SortOfNone()
    ensures SortBy([], Earlier) == []
  {
  }

  lemma SurvivorsAreNewer(r: seq<Event>, events: seq<Event>)
    requires events != [] && Ascending(r) && |r| <= HISTORY_CAPACITY && Inject(r, events) == r
    ensures forall e | e in Fresh(Keys(r), events) :: |r| == HISTORY_CAPACITY && e.ts < r[0].ts
  {
    hide Fresh, Keys, Key, Earlier;
    var f := Fresh(Keys(r), events);
    var s := SortBy(r + f, Earlier);
    MergedAscends(r, events);
    FreshIsWhatWasUnseen(Keys(r), events);
    var cut := |f|;
    assert |s| == |r| + |f|;
    if f != [] {
      assert |r| == HISTORY_CAPACITY && s[cut..] == r;
      assert s == s[..cut] + r;
      assert multiset(s) == multiset(s[..cut]) + multiset(r);
      assert multiset(s) == multiset(r) + multiset(f);
      SameMultiset(multiset(s[..cut]), multiset(f), multiset(r));
      forall e | e in f ensures e.ts < r[0].ts {
        assert e in multiset(s[..cut]);
        var i :| 0 <= i < cut && s[i] == e;
        assert s[i].ts <= s[cut].ts;
        NoTieSurvives(r, f, s[..cut], e);
      }
    }
  }

  lemma SameMultiset<T>(a: multiset<T>, b: multiset<T>, c: multiset<T>)
    requires a + c == c + b
    ensures a == b
  {
    assert (a + c) - c == a && (c + b) - c == b;
  }

  lemma SameHead(a: seq<Event>, b: seq<Event>, c: seq<Event>)
    requires a + b == b + c && a != [] && b != []
    ensures a[0] == b[0]
  {
    assert (a + b)[0] == a[0] && (b + c)[0] == b[0];
  }

  /** At a tie the sort puts the old event first, so it would be among those in front of the ring. */
  lemma TiedHeadComesFromFront(r: seq<Event>, f: seq<Event>, front: seq<Event>, e: Event)
    requires r != [] && SortBy(r + f, Earlier) == front + r && multiset(front) == multiset(f)
    requires e in f && e.ts == r[0].ts
    ensures r[0] in f
  {
    hide Earlier, SortBy, AtTime;
    var ts := r[0].ts;
    SortKeepsTies(r + f, ts);
    AtTimeConcat(r, f, ts);
    AtTimeConcat(front, r, ts);
    AtTimeHead(r);
    assert e in multiset(front) && r[0] in r;
    SameHead(AtTime(front, ts), AtTime(r, ts), AtTime(f, ts));
    assert AtTime(front, ts)[0] in front;
    assert r[0] in multiset(front);
  }

  lemma NoTieSurvives(r: seq<Event>, f: seq<Event>, front: seq<Event>, e: Event)
    requires r != [] && SortBy(r + f, Earlier) == front + r && multiset(front) == multiset(f)
    requires e in f && forall x | x in f :: Key(x) !in Keys(r)
    ensures e.ts != r[0].ts
  {
    hide Earlier, Keys, Key, SortBy;
    KeyIsThere(r, 0);
    if e.ts == r[0].ts { TiedHeadComesFromFront(r, f, front, e); }
  }

  lemma AtTimeHead(s: seq<Event>)
    requires s != []
    ensures AtTime(s, s[0].ts) != [] && AtTime(s, s[0].ts)[0] == s[0]
  {
    assert s == [s[0]] + s[1..];
    AtTimeConcat([s[0]], s[1..], s[0].ts);
    AtTimeOne(s[0], s[0].ts);
  }

  lemma KeyIsThere(s: seq<Event>, i: nat)
    requires i < |s|
    ensures Key(s[i]) in Keys(s)
  {
    hide Key;
  }

  lemma AllAtOnce(s: seq<Event>, ts: int)
    requires forall i | 0 <= i < |s| :: s[i].ts == ts
    ensures AtTime(s, ts) == s
  {
    FilterAll(s, (e: Event) => e.ts == ts);
  }

  predicate DistinctEvents(s: seq<Event>) { forall i, j | 0 <= i < j < |s| :: Key(s[i]) != Key(s[j]) }

  lemma {:induction false} AllFresh(seen: set<Text>, events: seq<Event>)
    requires DistinctEvents(events) && forall i | 0 <= i < |events| :: Key(events[i]) !in seen
    ensures Fresh(seen, events) == events
    decreases |events|
  {
    hide Key;
    if events != [] { AllFresh(seen + {Key(events[0])}, events[1..]); }
  }

  lemma OneMomentKeepsItsOrder(events: seq<Event>, ts: int)
    requires forall i | 0 <= i < |events| :: events[i].ts == ts
    ensures SortBy(events, Earlier) == events
  {
    hide Earlier, SortBy, AtTime;
    SortKeepsElements(events, Earlier);
    var s := SortBy(events, Earlier);
    forall i | 0 <= i < |s| ensures s[i].ts == ts { assert s[i] in events; }
    AllAtOnce(s, ts);
    AllAtOnce(events, ts);
    SortKeepsTies(events, ts);
  }

  lemma FirstOfFresh(seen: set<Text>, events: seq<Event>)
    requires events != [] && Key(events[0]) !in seen
    ensures events[0] in Fresh(seen, events)
  {
    hide Key;
  }

  /** So injecting the same events twice is not always injecting them once: 501 events of one moment rotate the ring. */
  lemma RepeatedInjectionCanRotate(events: seq<Event>, ts: int)
    requires |events| == 501 && DistinctEvents(events)
      && forall i | 0 <= i < |events| :: events[i].ts == ts
    ensures var once := Inject([], events); once == events[1..] && Inject(once, events) != once
  {
    hide Key, Keys, Earlier, SortBy, Fresh;
    KeysOfNone();
    AllFresh({}, events);
    OneMomentKeepsItsOrder(events, ts);
    assert Merged([], events) == events;
    var once := events[1..];
    FirstIsUnseen(events);
    FirstOfFresh(Keys(once), events);
    assert once[0].ts == ts == events[0].ts;
    ChangesWhenTied(once, events, events[0]);
  }

  lemma FirstIsUnseen(events: seq<Event>)
    requires events != [] && DistinctEvents(events)
    ensures Key(events[0]) !in Keys(events[1..])
  {
    hide Key;
  }

  lemma ChangesWhenTied(r: seq<Event>, events: seq<Event>, e: Event)
    requires events != [] && Ascending(r) && |r| == HISTORY_CAPACITY && e in Fresh(Keys(r), events) && e.ts >= r[0].ts
    ensures Inject(r, events) != r
  {
    InjectChangesNothingIff(r, events);
  }

  // ---- Every run of the bus ----

  datatype Action =
    | DoEmit(e: Event)
    | DoInject(events: seq<Event>)
    | DoBegin(pgEnabled: bool, now: int)
    | DoFinish(rows: Option<seq<Event>>)

  function After(b: Bus, a: Action): Bus {
    match a
    case DoEmit(e) => b.(history := Emit(b.history, e))
    case DoInject(events) => b.(history := Inject(b.history, events))
    case DoBegin(pg, now) => Begin(b, pg, now)
    case DoFinish(rows) => Finish(b, rows)
  }

  function Run(b: Bus, actions: seq<Action>): Bus
    decreases |actions|
  {
    if actions == [] then b else Run(After(b, actions[0]), actions[1..])
  }

  // ---- What a reload brings ----

  lemma SortedRowsHaveTheKeys(rows: seq<Event>)
    ensures Keys(SortBy(rows, Earlier)) == Keys(rows)
    ensures forall e :: e in SortBy(rows, Earlier) <==> e in rows
    ensures SortBy(rows, Earlier) == [] <==> rows == []
  {
    SortKeepsElements(rows, Earlier);
    hide SortBy, Key;
  }

  /**
   After a reload that answered rows the ring ascends by time and is the newest part of what it held and of
   `added`: the rows whose keys it had not seen, each key once.
   */
  lemma ReloadBringsTheNewest(b: Bus, rows: seq<Event>) returns (added: seq<Event>, dropped: seq<Event>)
    requires rows != []
    ensures var r := After(b, DoFinish(Some(rows))).history;
      && (forall e | e in added :: e in rows) && DistinctEvents(added) && Keys(added) == Keys(rows) - Keys(b.history)
      && Ascending(r) && |r| <= HISTORY_CAPACITY
      && multiset(dropped) + multiset(r) == multiset(b.history) + multiset(added)
      && (forall d, k | d in dropped && k in r :: d.ts <= k.ts)
      && (dropped != [] ==> |r| == HISTORY_CAPACITY)
  {
    var events := SortBy(rows, Earlier);
    SortedRowsHaveTheKeys(rows);
    hide SortBy, Keys, Key, Inject, Fresh;
    added := Fresh(Keys(b.history), events);
    FreshIsWhatWasUnseen(Keys(b.history), events);
    FreshAreDistinct(Keys(b.history), events);
    dropped := InjectKeepsTheNewest(b.history, events);
  }

  lemma {:induction false} FreshAreDistinct(seen: set<Text>, events: seq<Event>)
    ensures DistinctEvents(Fresh(seen, events)) && forall e | e in Fresh(seen, events) :: Key(e) !in seen
    decreases |events|
  {
    hide Key;
    if events != [] {
      if Key(events[0]) in seen { FreshAreDistinct(seen, events[1..]); }
      else { FreshAreDistinct(seen + {Key(events[0])}, events[1..]); }
    }
  }

  /** An empty ring reloaded with no more rows than it holds has every row's key, each once. */
  lemma ReloadFillsAnEmptyRing(b: Bus, rows: seq<Event>)
    requires b.history == [] && |rows| <= HISTORY_CAPACITY
    ensures var r := After(b, DoFinish(Some(rows))).history;
      Keys(r) == Keys(rows) && |r| == |Keys(rows)| && Ascending(r) && forall e | e in r :: e in rows
  {
    hide SortBy, Keys, Key, Inject, Fresh, Earlier;
    KeysOfNone();
    SortedRowsHaveTheKeys(rows);
    var events := SortBy(rows, Earlier);
    if rows == [] {
      EmptyReload(b);
    } else {
      var added, dropped := ReloadBringsTheNewest(b, rows);
      var r := After(b, DoFinish(Some(rows))).history;
      DistinctCount(added);
      KeysAreNoMore(rows);
      assert |multiset(dropped) + multiset(r)| == |multiset([]) + multiset(added)|;
      assert Keys(rows) - Keys(b.history) == Keys(rows);
      assert |dropped| + |r| == |added| <= HISTORY_CAPACITY;
      assert dropped == [];
      WithoutNothing(multiset(dropped), multiset(r), multiset(b.history), multiset(added));
      SameKeys(r, added);
    }
  }

  lemma WithoutNothing<T>(a: multiset<T>, b: multiset<T>, c: multiset<T>, d: multiset<T>)
    requires a + b == c + d && |a| == 0 && |c| == 0
    ensures b == d
  {
    assert a == multiset{} && c == multiset{};
    assert a + b == b && c + d == d;
  }

  lemma EmptyReload(b: Bus)
    ensures After(b, DoFinish(Some([]))).history == b.history
  {
  }

  lemma SameKeys(a: seq<Event>, b: seq<Event>)
    requires multiset(a) == multiset(b)
    ensures Keys(a) == Keys(b) && forall e :: e in a <==> e in b
  {
    hide Key;
    forall e ensures e in a <==> e in b { assert e in multiset(a) <==> e in multiset(b); }
  }

  lemma {:induction false} DistinctCount(s: seq<Event>)
    requires DistinctEvents(s)
    ensures |Keys(s)| == |s|
  {
    hide Key;
    if s != [] {
      DistinctCount(s[1..]);
      assert s == [s[0]] + s[1..];
      KeysOfCons(s[0], s[1..]);
      FirstIsUnseen(s);
    } else {
      KeysOfNone();
    }
  }

  lemma {:induction false} KeysAreNoMore(s: seq<Event>)
    ensures |Keys(s)| <= |s|
  {
    hide Key;
    if s != [] {
      KeysAreNoMore(s[1..]);
      assert s == [s[0]] + s[1..];
      KeysOfCons(s[0], s[1..]);
    } else {
      KeysOfNone();
    }
  }

  /** A reload that failed or found nothing leaves the ring as it was; and any reload lets the next one start. */
  lemma ReloadWithoutRows(b: Bus, rows: Option<seq<Event>>)
    ensures rows.None? || rows.value == [] ==> After(b, DoFinish(rows)).history == b.history
    ensures !After(b, DoFinish(rows)).hydrating && After(b, DoFinish(rows)).lastAttempt == b.lastAttempt
  {
    hide Inject;
    if rows == Some([]) { EmptyReload(b); }
  }

  /** A read of an empty ring reloads it exactly when it can: a store, none in flight, and the throttle elapsed. */
  lemma EmptyRingReloads(b: Bus, pgEnabled: bool, now: int)
    ensures var c := After(b, DoBegin(pgEnabled, now));
      if b.history == [] && pgEnabled && !b.hydrating && now - b.lastAttempt >= 30_000
      then c == Bus([], true, now) else c == b
  {
  }

  predicate Starts(b: Bus, a: Action) { a.DoBegin? && MayHydrate(b, a.pgEnabled, a.now) }

  lemma {:induction false} RingStaysBounded(b: Bus, actions: seq<Action>)
    requires |b.history| <= 500
    ensures |Run(b, actions).history| <= 500
    decreases |actions|
  {
    hide Inject;
    if actions != [] {
      InjectIsBounded(b.history);
      RingStaysBounded(After(b, actions[0]), actions[1..]);
    }
  }

  lemma InjectIsBounded(h: seq<Event>)
    ensures |h| <= HISTORY_CAPACITY ==> forall events :: |Inject(h, events)| <= HISTORY_CAPACITY
  {
    hide Merged;
  }

  /** While no reload starts, the time of the last attempt stands. */
  lemma {:induction false} LastAttemptStands(b: Bus, actions: seq<Action>)
    ensures Run(b, actions).lastAttempt >= b.lastAttempt
    decreases |actions|
  {
    hide Inject, Emit;
    if actions != [] { LastAttemptStands(After(b, actions[0]), actions[1..]); }
  }

  lemma {:induction false} RunConcat(b: Bus, x: seq<Action>, y: seq<Action>)
    ensures Run(b, x + y) == Run(Run(b, x), y)
    decreases |x|
  {
    hide After;
    if x == [] {
      assert x + y == y;
    } else {
      assert (x + y)[1..] == x[1..] + y;
      RunConcat(After(b, x[0]), x[1..], y);
    }
  }

  /**
   Over every run, two reload queries start at least the throttle apart, each on an empty ring, and
   never while another is in flight.
   */
  lemma ReloadsAreSpaced(b: Bus, before: seq<Action>, first: Action, between: seq<Action>, second: Action)
    requires Starts(Run(b, before), first)
    requires Starts(Run(b, before + [first] + between), second)
    ensures second.now - first.now >= REHYDRATE_THROTTLE_MS
    ensures exists i | 0 <= i < |between| :: between[i].DoFinish?
    ensures Run(b, before + [first] + between).history == []
  {
    hide After;
    var started := After(Run(b, before), first);
    RunConcat(b, before, [first]);
    RunConcat(b, before + [first], between);
    assert Run(Run(b, before), [first]) == started by { assert [first][1..] == []; }
    LastAttemptStands(started, between);
    StartedAt(Run(b, before), first);
    if forall i | 0 <= i < |between| :: !between[i].DoFinish? { StaysInFlight(started, between); }
  }

  lemma StartedAt(b: Bus, a: Action)
    requires Starts(b, a)
    ensures After(b, a).hydrating && After(b, a).lastAttempt == a.now
  {
  }

  lemma {:induction false} StaysInFlight(b: Bus, actions: seq<Action>)
    requires b.hydrating && forall i | 0 <= i < |actions| :: !actions[i].DoFinish?
    ensures Run(b, actions).hydrating
    decreases |actions|
  {
    hide Inject, Emit;
    if actions != [] { StaysInFlight(After(b, actions[0]), actions[1..]); }
  }
}
