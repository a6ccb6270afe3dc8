/**
 Every run of the whole system: Arc and GitHub moving on, and any number of karwan-check executions
 against an index that may serve anything, `kind` included.
 */
module CheckSystem {
  import opened Texts
  import opened Lists
  import opened Documents
  import opened Verdict
  import opened Runs
  import opened CheckRules
  import opened CheckSafety

  // ---- The world and its steps ----

  /** Arc moves on: terms and revisions are kept, and Delivered logs are only added. */
  ghost predicate Precedes(c: Chain, d: Chain) {
    && (forall k | k in c.terms :: k in d.terms && d.terms[k] == c.terms[k])
    && (forall k | k in c.deals :: k in d.deals && c.deals[k].revision <= d.deals[k].revision)
    && (forall k | k in c.logs :: k in d.logs && c.logs[k] <= d.logs[k])
  }

  /** A revision of a deal is delivered once. */
  ghost predicate OneDeliveryARevision(c: Chain) {
    forall k, i, j | k in c.logs && 0 <= i < j < |c.logs[k]| && c.logs[k][i].revision == c.logs[k][j].revision ::
      c.logs[k][i].proofHash == c.logs[k][j].proofHash
  }

  /** GitHub's own record: runs by id, and what each job concluded. */
  datatype Hub = Hub(runs: map<int, WorkflowRun>, jobs: map<int, seq<Job>>)

  /** GitHub moves on: a completed run no longer changes, and new runs are no older than those there were. */
  ghost predicate HubPrecedes(h: Hub, k: Hub) {
    && (forall id | id in h.runs ::
          && id in k.runs && k.runs[id].title == h.runs[id].title && k.runs[id].createdAt == h.runs[id].createdAt
          && (IsCompleted(h.runs[id]) ==>
                k.runs[id] == h.runs[id] && (id in h.jobs <==> id in k.jobs)
                  && (id in h.jobs ==> k.jobs[id] == h.jobs[id])))
    && (forall id, was | id in k.runs && id !in h.runs
       && was in h.runs :: h.runs[was].createdAt <= k.runs[id].createdAt)
  }

  /**
   An answer of GitHub: any part of its record, in any order, with a completed run's jobs in any order. What
   it says of runner files is left open: a confirmed run shows the pinned one.
   */
  ghost predicate Shows(h: Hub, g: GitHub) {
    && (forall r | r in g.runs :: r.id in h.runs && h.runs[r.id] == r)
    && (forall id | id in h.runs && IsCompleted(h.runs[id]) && id in g.jobs ::
          id in h.jobs && multiset(g.jobs[id]) == multiset(h.jobs[id]) && DistinctNames(g.jobs[id]))
  }

  /** A report that was written: by which execution's view, for which item, with GitHub in which state. */
  datatype Sent = Sent(report: Report, w: World, item: PendingItem, hub: Hub)

  datatype System = System(chain: Chain, hub: Hub, sent: seq<Sent>)

  function Reports(effects: seq<Effect>): seq<Report> {
    if effects == [] then [] else (if effects[0].Wrote? then [effects[0].report] else []) + Reports(effects[1..])
  }

  function Tag(reports: seq<Report>, w: World, item: PendingItem, hub: Hub): (r: seq<Sent>)
    ensures |r| == |reports| && forall i | 0 <= i < |r| :: r[i] == Sent(reports[i], w, item, hub)
  {
    seq(|reports|, i requires 0 <= i < |reports| => Sent(reports[i], w, item, hub))
  }

  /** Everything one execution of the schedule writes, item by item. */
  function SentBy(cfg: Config, w: World, items: seq<PendingItem>, writes: nat, hub: Hub): seq<Sent> {
    if items == [] then []
    else
      var c := Collect(cfg, w, items[0], writes);
      var here := Tag(Reports(c.effects), w, items[0], hub);
      if c.outcome.None? then here else here + SentBy(cfg, w, items[1..], writes + WritesIn(c.effects), hub)
  }

  datatype Action = WorldMoves | OnDelivered(w: World, log: Delivered) | OnDryRun(w: World,
    req: DryRunRequest) | OnCollect(w: World)

  /** The index in `w` is unconstrained; only Arc and GitHub are what they are. */
  ghost predicate SeesTheWorld(s: System, w: World) { w.chain == s.chain && Shows(s.hub, w.github) }

  ghost predicate Step(cfg: Config, s: System, a: Action, t: System) {
    match a
    case WorldMoves =>
      Precedes(s.chain, t.chain) && OneDeliveryARevision(t.chain) && HubPrecedes(s.hub, t.hub) && t.sent == s.sent
    case OnDelivered(w, log) =>
      SeesTheWorld(s, w) && t == s.(sent := s.sent
        + (var o := Start(cfg, w, log); if o.Some? then Tag(Reports(o.value.1), w, NO_ITEM, s.hub) else []))
    case OnDryRun(w, req) =>
      SeesTheWorld(s, w) && t == s.(sent := s.sent
        + (var o := StartDry(cfg, w, req); if o.Some? then Tag(Reports(o.value.1), w, NO_ITEM, s.hub) else []))
    case OnCollect(w) =>
      SeesTheWorld(s, w) && t == s.(sent := s.sent + SentBy(cfg, w, PageOf(cfg, w), 0, s.hub))
  }

  const NO_ITEM := PendingItem(DryItem, [], [], [], 0, None, None, OtherDoc, OtherDoc)

  /** A run: its states and the actions between them. */
  ghost predicate IsRun(cfg: Config, states: seq<System>, actions: seq<Action>) {
    && |states| == |actions| + 1
    && states[0].sent == [] && OneDeliveryARevision(states[0].chain)
    && forall i | 0 <= i < |actions| :: Step(cfg, states[i], actions[i], states[i + 1])
  }

  ghost predicate Entry(cfg: Config, s: System, e: Sent) {
    && (exists writes: nat :: Writes(cfg, e.w, e.item, writes, e.report))
    && Precedes(e.w.chain, s.chain) && OneDeliveryARevision(e.w.chain)
    && HubPrecedes(e.hub, s.hub) && Shows(e.hub, e.w.github)
  }

  ghost predicate InOrder(a: Sent, b: Sent) { Precedes(a.w.chain, b.w.chain) && HubPrecedes(a.hub, b.hub) }

  ghost predicate Inv(cfg: Config, s: System) {
    && OneDeliveryARevision(s.chain)
    && (forall i | 0 <= i < |s.sent| :: Entry(cfg, s, s.sent[i]))
    && (forall i, j | 0 <= i < j < |s.sent| :: InOrder(s.sent[i], s.sent[j]))
  }

  lemma PrecedesTransitive(a: Chain, b: Chain, c: Chain)
    requires Precedes(a, b) && Precedes(b, c)
    ensures Precedes(a, c)
  {
  }

  lemma HubPrecedesTransitive(a: Hub, b: Hub, c: Hub)
    requires HubPrecedes(a, b) && HubPrecedes(b, c)
    ensures HubPrecedes(a, c)
  {
    forall id, was | id in c.runs && id !in a.runs
      && was in a.runs ensures a.runs[was].createdAt <= c.runs[id].createdAt {
      if id in b.runs { assert a.runs[was].createdAt <= b.runs[id].createdAt; }
    }
  }

  lemma {:induction false} ReportsAreEffects(effects: seq<Effect>)
    ensures forall r | r in Reports(effects) :: Wrote(r) in effects
    ensures (forall e | e in effects :: !e.Wrote?) ==> Reports(effects) == []
  {
    if effects != [] {
      ReportsAreEffects(effects[1..]);
      assert effects == [effects[0]] + effects[1..];
    }
  }

  lemma {:induction false} SentAreEntries(cfg: Config, w: World, items: seq<PendingItem>, writes: nat, hub: Hub)
    ensures forall i | 0 <= i < |SentBy(cfg, w, items, writes, hub)| ::
      var e := SentBy(cfg, w, items, writes, hub)[i];
      e.w == w && e.hub == hub && exists n: nat :: Writes(cfg, w, e.item, n, e.report)
  {
    hide Collect;
    if items != [] {
      var c := Collect(cfg, w, items[0], writes);
      ReportsAreEffects(c.effects);
      var here := Tag(Reports(c.effects), w, items[0], hub);
      forall i | 0 <= i < |here| ensures exists n: nat :: Writes(cfg, w, here[i].item, n, here[i].report) {
        assert Writes(cfg, w, items[0], writes, here[i].report);
      }
      SentAreEntries(cfg, w, items[1..], writes + WritesIn(c.effects), hub);
    }
  }

  lemma ClosingIsNoReport(item: PendingItem, c: Collected)
    ensures Reports(HereEffects(item, c)) == Reports(c.effects)
  {
    var closing := if c.outcome.Some? && Closes(c.outcome.value) then [Closed(item.dealKey, c.outcome.value)] else [];
    ReportsOfConcat(c.effects, closing);
    ReportsAreEffects(closing);
    assert Reports(c.effects) + [] == Reports(c.effects);
  }

  function ReportsIn(sent: seq<Sent>): seq<Report> { seq(|sent|, i requires 0 <= i < |sent| => sent[i].report) }

  lemma TaggedReports(reports: seq<Report>, w: World, item: PendingItem, hub: Hub, rest: seq<Sent>)
    ensures ReportsIn(Tag(reports, w, item, hub)) == reports
    ensures ReportsIn(Tag(reports, w, item, hub) + rest) == reports + ReportsIn(rest)
  {
  }

  lemma TraceStep(cfg: Config, w: World, items: seq<PendingItem>, writes: nat)
    requires items != []
    ensures var c := Collect(cfg, w, items[0], writes);
      var rest := CollectAll(cfg, w, items[1..], writes + WritesIn(c.effects));
      Reports(CollectAll(cfg, w, items, writes).effects)
      == if c.outcome.None? then Reports(c.effects) else Reports(c.effects) + Reports(rest.effects)
  {
    hide Collect, HereEffects, Reports;
    var c := Collect(cfg, w, items[0], writes);
    ClosingIsNoReport(items[0], c);
    ReportsOfConcat(HereEffects(items[0], c), CollectAll(cfg, w, items[1..], writes + WritesIn(c.effects)).effects);
  }

  /** The reports of an execution are those its trace of effects holds, in that order. */
  lemma {:induction false} SentMatchesTrace(cfg: Config, w: World, items: seq<PendingItem>, writes: nat, hub: Hub)
    ensures Reports(CollectAll(cfg, w, items, writes).effects) == ReportsIn(SentBy(cfg, w, items, writes, hub))
  {
    hide Collect, Reports, CollectAll, ReportsIn, Tag, SentBy, WritesIn;
    if items == [] {
      NothingInNothing(cfg, w, writes, hub);
    } else {
      var c := Collect(cfg, w, items[0], writes);
      var rest := writes + WritesIn(c.effects);
      TraceStep(cfg, w, items, writes);
      TaggedReports(Reports(c.effects), w, items[0], hub, SentBy(cfg, w, items[1..], rest, hub));
      SentMatchesTrace(cfg, w, items[1..], rest, hub);
      SentStep(cfg, w, items, writes, hub);
    }
  }

  lemma NothingInNothing(cfg: Config, w: World, writes: nat, hub: Hub)
    ensures Reports(CollectAll(cfg, w, [], writes).effects) == ReportsIn(SentBy(cfg, w, [], writes, hub)) == []
  {
  }

  lemma SentStep(cfg: Config, w: World, items: seq<PendingItem>, writes: nat, hub: Hub)
    requires items != []
    ensures var c := Collect(cfg, w, items[0], writes); var here := Tag(Reports(c.effects), w, items[0], hub);
      SentBy(cfg, w, items, writes, hub)
      == if c.outcome.None? then here else here + SentBy(cfg, w, items[1..], writes + WritesIn(c.effects), hub)
  {
    hide Collect, Reports, Tag;
  }

  function ReportsAt(e: Effect): seq<Report> { if e.Wrote? then [e.report] else [] }

  lemma ReportsCons(e: Effect, rest: seq<Effect>)
    ensures Reports([e] + rest) == ReportsAt(e) + Reports(rest)
  {
    assert ([e] + rest)[1..] == rest;
  }

  lemma {:induction false} ReportsOfConcat(a: seq<Effect>, b: seq<Effect>)
    ensures Reports(a + b) == Reports(a) + Reports(b)
  {
    if a == [] {
      assert a + b == b;
    } else {
      hide Reports, ReportsAt;
      ReportsOfConcat(a[1..], b);
      ReportsCons(a[0], a[1..]);
      ReportsCons(a[0], a[1..] + b);
      assert a == [a[0]] + a[1..] && a + b == [a[0]] + (a[1..] + b);
      Regroup(ReportsAt(a[0]), Reports(a[1..]), Reports(b));
    }
  }

  /** The number of writes before a turn, by which its answers are found, is the number of reports. */
  lemma {:induction false} WritesAreReports(effects: seq<Effect>)
    ensures WritesIn(effects) == |Reports(effects)|
  {
    if effects != [] { WritesAreReports(effects[1..]); }
  }

  lemma StartsWriteNothing(cfg: Config, w: World, log: Delivered, req: DryRunRequest)
    ensures Start(cfg, w, log).Some? ==> Reports(Start(cfg, w, log).value.1) == []
    ensures StartDry(cfg, w, req).Some? ==> Reports(StartDry(cfg, w, req).value.1) == []
  {
    hide ReadTerms, ReadDeal, LoadPolicy, LoadReference, Configured, DeliveryProblem, RunnerPinned, ArgsFor, DealKey,
      DryKey, FeeState, WellFormedRequest, Reports;
    if Start(cfg, w, log).Some? { ReportsAreEffects(Start(cfg, w, log).value.1); }
    if StartDry(cfg, w, req).Some? { ReportsAreEffects(StartDry(cfg, w, req).value.1); }
  }

  lemma {:induction false} WrittenIsReported(effects: seq<Effect>, rep: Report)
    requires Wrote(rep) in effects
    ensures rep in Reports(effects)
  {
    if effects[0] != Wrote(rep) { WrittenIsReported(effects[1..], rep); }
  }

  /** The report of an item's turn is sent, as long as nothing before it on the page ends the execution. */
  lemma {:induction false} TurnIsSent(cfg: Config, w: World, items: seq<PendingItem>, i: nat, writes: nat, hub: Hub,
      rep: Report)
    requires i < |items| && forall j | 0 <= j < i :: !EndsExecution(cfg, w, items[j])
    requires Writes(cfg, w, items[i], 0, rep)
    ensures Sent(rep, w, items[i], hub) in SentBy(cfg, w, items, writes, hub)
    decreases i
  {
    hide Collect, Reports, EndsExecution, Writes;
    var c := Collect(cfg, w, items[0], writes);
    OnlyThrowsEnd(cfg, w, items[0], writes);
    if i == 0 {
      WritesAnytime(cfg, w, items[0], 0, writes, rep);
      WrittenIsReported(c.effects, rep);
      var k :| 0 <= k < |Reports(c.effects)| && Reports(c.effects)[k] == rep;
      assert Tag(Reports(c.effects), w, items[0], hub)[k] == Sent(rep, w, items[0], hub);
    } else {
      TurnIsSent(cfg, w, items[1..], i - 1, writes + WritesIn(c.effects), hub, rep);
    }
  }

  /** What is written does not depend on how many reports were written before. */
  lemma WritesAnytime(cfg: Config, w: World, item: PendingItem, n: nat, m: nat, rep: Report)
    requires Writes(cfg, w, item, n, rep)
    ensures Writes(cfg, w, item, m, rep) && Wrote(rep) in Collect(cfg, w, item, m).effects
  {
    var go := Admit(cfg, w, item);
    hide HasConfirmedRun, Admit, EvidenceHash, BuildEvidence, Replay, ReportOf, IsDryKey, RunIdOf, RunFor;
    WrittenIff(cfg, w, item, n, rep);
    WrittenIff(cfg, w, item, m, rep);
    hide Collect;
  }

  /** What the turn of a genuine item with a confirmed run writes. */
  lemma GenuineItemWrites(cfg: Config, w: World, item: PendingItem, writes: nat, p: Policy, r: Reference, run: RunFacts)
    requires cfg.attest && item.kind == DealItem && Genuine(cfg, w, item, p, r)
    requires FindRun(w.github, CheckLookup(p, r, item.dealId, item.revision)) == Some(run) && Confirmed(p, run)
    ensures var rep := ReportOf(w, item, w.chain.terms[Ref(item.family, item.dealId)].verifier, p, r, run);
      && (rep !in w.refused ==> Writes(cfg, w, item, writes, rep))
      && (rep in w.refused <==> EndsExecution(cfg, w, item))
  {
    AdmittedIffGenuine(cfg, w, item, p, r);
    AdmittedDeal(cfg, w, item);
    hide Admit, FindRun, LookupFor, CheckLookup, Confirmed, Agreed, Writes, WasDelivered, ReportOf, Genuine;
    var go := Admit(cfg, w, item);
    var rep := ReportOf(w, item, go.terms.verifier, p, r, run);
    WrittenIff(cfg, w, item, writes, rep);
  }

  /**
   No delivery is passed over: a genuine item whose run is confirmed is reported with the verdict of
   the rule, whatever stands before it on the page, as long as nothing there throws.
   */
  lemma GenuineIsReported(cfg: Config, w: World, items: seq<PendingItem>, i: nat, writes: nat, hub: Hub, p: Policy,
      r: Reference, run: RunFacts)
    requires i < |items| && forall j | 0 <= j <= i :: !EndsExecution(cfg, w, items[j])
    requires cfg.attest && items[i].kind == DealItem && Genuine(cfg, w, items[i], p, r)
    requires FindRun(w.github, CheckLookup(p, r, items[i].dealId, items[i].revision)) == Some(run) && Confirmed(p, run)
    ensures var rep := ReportOf(w, items[i], w.chain.terms[Ref(items[i].family, items[i].dealId)].verifier, p, r, run);
      && Sent(rep, w, items[i], hub) in SentBy(cfg, w, items, writes, hub)
      && rep.pass == DeliveredAsAgreed(p, r, run)
  {
    hide FindRun, CheckLookup, Confirmed, EndsExecution, Writes, SentBy;
    GenuineItemWrites(cfg, w, items[i], 0, p, r, run);
    TurnIsSent(cfg, w, items, i, writes, hub,
      ReportOf(w, items[i], w.chain.terms[Ref(items[i].family, items[i].dealId)].verifier, p, r, run));
  }

  /** The case that condition shuts out: an item that throws ends the execution for itself and all behind it. */
  lemma {:induction false} ThrowingItemEndsTheExecution(cfg: Config, w: World, items: seq<PendingItem>, i: nat,
      writes: nat, hub: Hub)
    requires i < |items| && EndsExecution(cfg, w, items[i])
    ensures SentBy(cfg, w, items, writes, hub) == SentBy(cfg, w, items[..i], writes, hub)
    decreases i
  {
    hide Collect, EndsExecution;
    var c := Collect(cfg, w, items[0], writes);
    if i == 0 {
      OnlyThrowsEnd(cfg, w, items[0], writes);
      ReportsAreEffects(c.effects);
      assert Reports(c.effects) == [];
    } else {
      ThrowingItemEndsTheExecution(cfg, w, items[1..], i - 1, writes + WritesIn(c.effects), hub);
      assert items[..i][0] == items[0] && items[..i][1..] == items[1..][..i - 1];
    }
  }

  lemma EntriesStay(cfg: Config, s: System, t: System)
    requires Inv(cfg, s) && t.sent == s.sent
    requires Precedes(s.chain, t.chain) && OneDeliveryARevision(t.chain) && HubPrecedes(s.hub, t.hub)
    ensures Inv(cfg, t)
  {
    hide Writes, Shows, OneDeliveryARevision, Precedes, HubPrecedes;
    forall i | 0 <= i < |t.sent| ensures Entry(cfg, t, t.sent[i]) {
      assert Entry(cfg, s, s.sent[i]);
      PrecedesTransitive(t.sent[i].w.chain, s.chain, t.chain);
      HubPrecedesTransitive(t.sent[i].hub, s.hub, t.hub);
    }
  }

  lemma Reflexive(c: Chain, h: Hub)
    ensures Precedes(c, c) && HubPrecedes(h, h)
  {
  }

  lemma EntriesGrow(cfg: Config, s: System, w: World, added: seq<Sent>)
    requires Inv(cfg, s) && SeesTheWorld(s, w)
    requires forall i | 0 <= i < |added| ::
      added[i].w == w && added[i].hub == s.hub && exists n: nat :: Writes(cfg, w, added[i].item, n, added[i].report)
    ensures Inv(cfg, s.(sent := s.sent + added))
  {
    hide Writes, Shows, OneDeliveryARevision, Precedes, HubPrecedes;
    var t := s.(sent := s.sent + added);
    Reflexive(s.chain, s.hub);
    forall i | 0 <= i < |t.sent| ensures Entry(cfg, t, t.sent[i]) {
      if i < |s.sent| { assert t.sent[i] == s.sent[i]; } else { assert t.sent[i] == added[i - |s.sent|]; }
    }
    forall i, j | 0 <= i < j < |t.sent| ensures InOrder(t.sent[i], t.sent[j]) {
      if j < |s.sent| {
        assert InOrder(s.sent[i], s.sent[j]);
      } else {
        assert t.sent[j] == added[j - |s.sent|];
        if i < |s.sent| { assert Entry(cfg, s, s.sent[i]); } else { assert t.sent[i] == added[i - |s.sent|]; }
      }
    }
  }

  lemma StepKeepsInv(cfg: Config, s: System, a: Action, t: System)
    requires Inv(cfg, s) && Step(cfg, s, a, t)
    ensures Inv(cfg, t)
  {
    hide Inv, SeesTheWorld, Precedes, HubPrecedes, OneDeliveryARevision, SentBy, Reports, Start, StartDry;
    match a
    case WorldMoves => EntriesStay(cfg, s, t);
    case OnDelivered(w, log) =>
      StartsWriteNothing(cfg, w, log, DryRunRequest([], [], [], [], None));
      assert s.sent + [] == s.sent;
    case OnDryRun(w, req) =>
      StartsWriteNothing(cfg, w, Delivered([], [], 0, Digest([]), [], 0), req);
      assert s.sent + [] == s.sent;
    case OnCollect(w) =>
      SentAreEntries(cfg, w, PageOf(cfg, w), 0, s.hub);
      EntriesGrow(cfg, s, w, SentBy(cfg, w, PageOf(cfg, w), 0, s.hub));
  }

  lemma {:induction false} InvHolds(cfg: Config, states: seq<System>, actions: seq<Action>, n: nat)
    requires IsRun(cfg, states, actions) && n < |states|
    ensures Inv(cfg, states[n])
  {
    hide Step;
    if n > 0 {
      InvHolds(cfg, states, actions, n - 1);
      StepKeepsInv(cfg, states[n - 1], actions[n - 1], states[n]);
    }
  }

  lemma JustifiedLater(cfg: Config, c: Chain, d: Chain, w: World, rep: Report, p: Policy, r: Reference, run: RunFacts)
    requires rep.CheckReport? && JustifiedBy(cfg, c, w, rep, p, r, run) && Precedes(c, d)
    ensures JustifiedBy(cfg, d, w, rep, p, r, run)
  {
    hide Agreed, Confirmed, FindRun, Replay, EvidenceHash, BuildEvidence, PolicyFingerprint, ProofFingerprint,
      CheckLookup, DeliveredAsAgreed, Configured;
    var ref := Ref(rep.family, rep.dealId);
    var i :| 0 <= i < |c.logs[ref]| && c.logs[ref][i].revision == rep.revision
      && c.logs[ref][i].proofHash == ProofFingerprint(r);
    assert d.logs[ref][i] == c.logs[ref][i];
  }

  // ---- Which reports are justified ----

  /** A run keeps its title, so two look-ups that take one run, now and later, look for one title. */
  lemma OneIdOneTitle(h: Hub, g: GitHub, l: Lookup, k: Hub, f: GitHub, m: Lookup)
    requires Shows(h, g) && Shows(k, f) && HubPrecedes(h, k)
    requires FindRun(g, l).Some? && FindRun(f, m).Some? && FindRun(g, l).value.runId == FindRun(f, m).value.runId
    ensures RunTitle(l) == RunTitle(m)
  {
    hide RunTitle, Pick, Titled, FindRun;
    TakenRun(g, l);
    TakenRun(f, m);
    var a, b := Pick(Titled(g.runs, RunTitle(l))), Pick(Titled(f.runs, RunTitle(m)));
    assert h.runs[a.id] == a && k.runs[b.id] == b;
  }

  lemma DealAndDryTitlesDiffer(p: Policy, r: Reference, dealId: Text, revision: nat, dryKey: Text)
    requires IsHex32(dealId) && IsDryKey(dryKey) && ReferenceSchema(r)
    ensures RunTitle(CheckLookup(p, r, dealId, revision)) != RunTitle(DryLookup(p, r, dryKey))
  {
    hide RunTitle, InputsHash, IsDryKey, IsHex32, ReferenceSchema;
    var a, b := CheckLookup(p, r, dealId, revision), DryLookup(p, r, dryKey);
    DealKeyBinds(dealId, revision, dealId, revision);
    DealKeyOpens(dealId, revision);
    DryKeyIsOneWord(dryKey);
    SchemaShaIsOneWord(r);
    hide DealKey, Lacks;
    if RunTitle(a) == RunTitle(b) { RunTitleBinds(a, b); }
  }

  lemma DealKeyOpens(dealId: Text, revision: nat)
    requires IsHex32(dealId)
    ensures DealKey(dealId, revision)[0] == 48
  {
  }

  lemma SchemaShaIsOneWord(r: Reference)
    requires ReferenceSchema(r)
    ensures Lacks(r.sha, SPACE)
  {
  }

  /** The run whose evidence stands in a report is the only one that can justify it. */
  lemma JustifiedByItsOwnRun(cfg: Config, c: Chain, w: World, item: PendingItem, writes: nat, rep: Report, p: Policy,
      r: Reference,
      run: RunFacts)
    requires Writes(cfg, w, item, writes, rep) && rep.CheckReport? && JustifiedBy(cfg, c, w, rep, p, r, run)
    ensures var go := Admit(cfg, w, item);
      HasConfirmedRun(w, go) && item.kind != DryItem && go.policy == p && go.reference == r
        && RunFor(w, go).runId == run.runId
  {
    hide Writes, Admit, HasConfirmedRun, RunFor, FindRun, CheckLookup, Confirmed, Agreed, PolicyFingerprint,
      ProofFingerprint,
      EvidenceHash, BuildEvidence, Replay, DeliveredAsAgreed, WasDelivered, Configured, IsAddress, IsHex32;
    WrittenIff(cfg, w, item, writes, rep);
    var go := Admit(cfg, w, item);
    HasRun(w, go);
    var own := RunFor(w, go);
    EvidenceHashBinds(p, r, run, Replay(p, r, Some(run), w.now),
                      go.policy, go.reference, own, Replay(go.policy, go.reference, Some(own), w.now));
  }

  /** A report written for an item of another kind than 'deal' is never justified. */
  lemma OnlyDealItemsAreJustified(cfg: Config, c: Chain, w: World, item: PendingItem, writes: nat, rep: Report,
      hub: Hub, p: Policy,
      r: Reference, run: RunFacts)
    requires Writes(cfg, w, item, writes, rep) && rep.CheckReport? && Shows(hub, w.github)
    requires JustifiedBy(cfg, c, w, rep, p, r, run)
    ensures item.kind == DealItem
  {
    hide Writes, FindRun, CheckLookup, DryLookup, Confirmed, Agreed, PolicyFingerprint, ProofFingerprint,
      EvidenceHash, BuildEvidence,
      Replay, DeliveredAsAgreed, WasDelivered, Configured, RunTitle, Shows, InputsHash;
    JustifiedByItsOwnRun(cfg, c, w, item, writes, rep, p, r, run);
    if item.kind != DealItem {
      AdmittedIffPassesAsDry(cfg, w, item, p, r);
      DryItemLookup(cfg, w, item);
      HasRun(w, Admit(cfg, w, item));
      DealAndDryTitlesDiffer(p, r, rep.dealId, rep.revision, item.dealKey);
      Reflexive(Chain(map[], map[], map[]), hub);
      OneIdOneTitle(hub, w.github, CheckLookup(p, r, rep.dealId, rep.revision), hub, w.github,
        DryLookup(p, r, item.dealKey));
    }
  }

  lemma DryItemLookup(cfg: Config, w: World, item: PendingItem)
    requires item.kind != DealItem && Admit(cfg, w, item).Go?
    ensures var go := Admit(cfg, w, item); LookupFor(go) == DryLookup(go.policy, go.reference, item.dealKey)
  {
    var go := Admit(cfg, w, item);
    AdmittedIffPassesAsDry(cfg, w, item, go.policy, go.reference);
    hide Admit, PassesAsDry, PolicyFingerprint, InputsHash;
  }

  lemma EntryJustifiedIff(cfg: Config, c: Chain, e: Sent, writes: nat)
    requires Writes(cfg, e.w, e.item, writes, e.report) && e.report.CheckReport?
    requires Precedes(e.w.chain, c) && Shows(e.hub, e.w.github)
    ensures (exists p, r, run :: JustifiedBy(cfg, c, e.w, e.report, p, r, run)) <==> e.item.kind == DealItem
  {
    hide JustifiedBy, Admit, Precedes, Shows, Writes, HasConfirmedRun, RunFor, ReportOf;
    if e.item.kind == DealItem {
      CheckReportIsJustified(cfg, e.w, e.item, writes, e.report);
      var go := Admit(cfg, e.w, e.item);
      HasRun(e.w, go);
      JustifiedLater(cfg, e.w.chain, c, e.w, e.report, go.policy, go.reference, RunFor(e.w, go));
    }
    if p, r, run :| JustifiedBy(cfg, c, e.w, e.report, p, r, run) {
      OnlyDealItemsAreJustified(cfg, c, e.w, e.item, writes, e.report, e.hub, p, r, run);
    }
  }

  /**
   Over every run, against an index that serves anything: a CHECK report that was ever sent is justified,
   by a configured verifier, a revision that was Accepted, current and undecided when read, the policy
   fingerprinted in the on-chain terms, the reference fingerprinted in that revision's Delivered log, and
   the fixed rule, exactly when the item it was sent for is of kind 'deal'.
   */
  lemma JustifiedIffDealItem(cfg: Config, states: seq<System>, actions: seq<Action>, n: nat, k: nat)
    requires IsRun(cfg, states, actions) && n < |states| && k < |states[n].sent|
    requires states[n].sent[k].report.CheckReport?
    ensures var e := states[n].sent[k];
      && ((exists p, r, run :: JustifiedBy(cfg, states[n].chain, e.w, e.report, p, r, run))
         <==> e.item.kind == DealItem)
      && Precedes(e.w.chain, states[n].chain)
  {
    hide JustifiedBy, IsRun, Precedes, HubPrecedes, Shows, Writes;
    InvHolds(cfg, states, actions, n);
    var e := states[n].sent[k];
    assert Entry(cfg, states[n], e);
    var writes: nat :| Writes(cfg, e.w, e.item, writes, e.report);
    EntryJustifiedIff(cfg, states[n].chain, e, writes);
  }

  /** With attest false no CHECK report is ever sent, for an item of any kind. */
  lemma ShadowModeNeverAttests(cfg: Config, states: seq<System>, actions: seq<Action>, n: nat, k: nat)
    requires IsRun(cfg, states, actions) && n < |states| && k < |states[n].sent| && !cfg.attest
    ensures !states[n].sent[k].report.CheckReport?
  {
    hide IsRun, Writes, Admit, HasConfirmedRun, RunFor, ReportOf, EvidenceHash, BuildEvidence, Replay;
    InvHolds(cfg, states, actions, n);
    var e := states[n].sent[k];
    assert Entry(cfg, states[n], e);
    var writes: nat :| Writes(cfg, e.w, e.item, writes, e.report);
    WrittenIff(cfg, e.w, e.item, writes, e.report);
  }

  /** The policy, the reference and the run behind a report are the only ones there can be. */
  lemma JustificationIsUnique(cfg: Config, c: Chain, w: World, rep: Report, p: Policy, r: Reference, run: RunFacts,
      q: Policy, s: Reference, other: RunFacts)
    requires OneDeliveryARevision(c) && rep.CheckReport?
    requires JustifiedBy(cfg, c, w, rep, p, r, run) && JustifiedBy(cfg, c, w, rep, q, s, other)
    ensures p == q && r == s && run == other
  {
    hide Agreed, Confirmed, FindRun, Replay, EvidenceHash, BuildEvidence, PolicyFingerprint, ProofFingerprint,
      CheckLookup, DeliveredAsAgreed, Configured;
    PolicyFingerprintBinds(p, q);
    OneProof(c, Ref(rep.family, rep.dealId), rep.revision, ProofFingerprint(r), ProofFingerprint(s));
    ProofFingerprintBinds(r, s);
  }

  lemma OneProof(c: Chain, ref: DealRef, revision: int, a: Digest, b: Digest)
    requires OneDeliveryARevision(c) && WasDelivered(c, ref, revision, a) && WasDelivered(c, ref, revision, b)
    ensures a == b
  {
    var i :| 0 <= i < |c.logs[ref]| && c.logs[ref][i].revision == revision && c.logs[ref][i].proofHash == a;
    var j :| 0 <= j < |c.logs[ref]| && c.logs[ref][j].revision == revision && c.logs[ref][j].proofHash == b;
    if i < j { assert c.logs[ref][i].proofHash == c.logs[ref][j].proofHash; }
    else if j < i { assert c.logs[ref][j].proofHash == c.logs[ref][i].proofHash; }
  }

  // ---- Writing again says the same ----

  /** The run a lookup takes, when it takes one, as GitHub lists it. */
  lemma TakenRun(g: GitHub, l: Lookup)
    requires FindRun(g, l).Some?
    ensures var pick := Pick(Titled(g.runs, RunTitle(l)));
      var run := FindRun(g, l).value;
      && pick in g.runs && pick.title == RunTitle(l)
      && run.runId == pick.id && run.status == StatusOf(pick) && run.createdAt == pick.createdAt
         && run.headSha == pick.headSha
      && run.runnerBlobSha == (if (l.runner, pick.headSha) in g.blobs then g.blobs[(l.runner, pick.headSha)] else [])
      && run.inputsSha == l.sha && run.jobs == (if pick.id in g.jobs then g.jobs[pick.id] else [])
      && (run.status == Completed <==> IsCompleted(pick))
  {
    hide RunTitle, Pick;
    PickIsOldest(Titled(g.runs, RunTitle(l)));
    assert |Ascii("queued")| != |COMPLETED_TEXT|;
  }

  /** No run of that name is as old as this one, in GitHub's whole record. */
  ghost predicate OldestOfItsName(h: Hub, r: WorkflowRun) {
    forall id | id in h.runs && id != r.id && h.runs[id].title == r.title :: r.createdAt < h.runs[id].createdAt
  }

  /** Nor was another run of that name created in the same second. */
  ghost predicate NoTie(h: Hub, r: WorkflowRun) {
    forall id | id in h.runs && id != r.id && h.runs[id].title == r.title :: h.runs[id].createdAt != r.createdAt
  }

  /**
   Once the oldest run of a name has completed, it is what every later lookup takes while it is listed and no
   run ties with it.
   */
  lemma SettledRunIsTakenAgain(h: Hub, g: GitHub, k: Hub, f: GitHub, l: Lookup)
    requires Shows(h, g) && Shows(k, f) && HubPrecedes(h, k)
    requires FindRun(g, l).Some? && FindRun(g, l).value.status == Completed
    requires var pick := Pick(Titled(g.runs, RunTitle(l))); OldestOfItsName(h, pick) && NoTie(k, pick) && pick in f.runs
    ensures FindRun(f, l).Some? && Pick(Titled(f.runs, RunTitle(l))) == Pick(Titled(g.runs, RunTitle(l)))
  {
    hide RunTitle, Pick;
    TakenRun(g, l);
    var title := RunTitle(l);
    var pick := Pick(Titled(g.runs, title));
    var again := Titled(f.runs, title);
    assert pick in again;
    assert FindRun(f, l).Some?;
    PickIsOldest(again);
    var other := Pick(again);
    assert other.createdAt <= pick.createdAt;
    assert other.id == pick.id;
  }

  /** Two readings of that run differ at most in the order of its jobs. */
  lemma SettledRunReadsTheSame(h: Hub, g: GitHub, k: Hub, f: GitHub, l: Lookup, p: Policy)
    requires Shows(h, g) && Shows(k, f) && HubPrecedes(h, k)
    requires FindRun(g, l).Some? && Confirmed(p, FindRun(g, l).value)
    requires FindRun(f, l).Some? && Confirmed(p, FindRun(f, l).value)
    requires Pick(Titled(f.runs, RunTitle(l))) == Pick(Titled(g.runs, RunTitle(l)))
    ensures SameRun(FindRun(g, l).value, FindRun(f, l).value)
  {
    hide RunTitle, Pick, Titled, FindRun;
    TakenRun(g, l);
    TakenRun(f, l);
    var pick := Pick(Titled(g.runs, RunTitle(l)));
    NoJobsNoGuard();
    assert pick.id in g.jobs && pick.id in f.jobs;
    assert h.runs[pick.id] == pick && k.runs[pick.id] == pick;
  }

  lemma NoJobsNoGuard()
    ensures !Succeeded([], Ascii("guard"))
  {
  }

  lemma OneIdOneRun(h: Hub, g: GitHub, k: Hub, f: GitHub, l: Lookup)
    requires Shows(h, g) && Shows(k, f) && HubPrecedes(h, k)
    requires FindRun(g, l).Some? && FindRun(f, l).Some? && FindRun(g, l).value.status == Completed
    requires FindRun(g, l).value.runId == FindRun(f, l).value.runId
    ensures Pick(Titled(f.runs, RunTitle(l))) == Pick(Titled(g.runs, RunTitle(l)))
  {
    hide RunTitle, Pick, Titled, FindRun;
    TakenRun(g, l);
    TakenRun(f, l);
    var a, b := Pick(Titled(g.runs, RunTitle(l))), Pick(Titled(f.runs, RunTitle(l)));
    assert h.runs[a.id] == a && k.runs[b.id] == b;
  }

  /** The name of the run an item's look-up asks for, from the documents in it. */
  function RunName(item: PendingItem): Text {
    if item.policy.PolicyDoc? && item.reference.ReferenceDoc? then
      RunTitle(DryLookup(item.policy.policy, item.reference.reference, RunKey(item)))
    else []
  }

  lemma AdmittedName(cfg: Config, w: World, item: PendingItem)
    requires Admit(cfg, w, item).Go?
    ensures var go := Admit(cfg, w, item);
      LookupFor(go) == DryLookup(go.policy, go.reference, RunKey(item)) && RunTitle(LookupFor(go)) == RunName(item)
  {
    AdmittedAsGiven(cfg, w, item);
    hide Admit, RunKey, RunTitle, InputsHash, PolicyFingerprint;
  }

  /** The first completed run of the title in one listing is the first in the other. */
  ghost predicate StillFirst(title: Text, g: GitHub, f: GitHub) {
    exists i, k :: IsFirst(g.runs, title, i) && IsFirst(f.runs, title, k) && g.runs[i].id == f.runs[k].id
  }

  lemma TakenIsFirst(g: GitHub, l: Lookup) returns (i: int)
    requires FindRun(g, l).Some? && FindRun(g, l).value.status == Completed
    ensures IsFirst(g.runs, RunTitle(l), i) && g.runs[i].id == FindRun(g, l).value.runId
  {
    hide RunTitle, Titled, Pick, FindRun;
    TakenRun(g, l);
    TakenIffFirst(g.runs, RunTitle(l), Pick(Titled(g.runs, RunTitle(l))));
    i :| IsFirst(g.runs, RunTitle(l), i) && g.runs[i] == Pick(Titled(g.runs, RunTitle(l)));
  }

  /**
   Two look-ups of one name take one run exactly when the first completed run of the one listing is that of
   the other.
   */
  lemma SameRunIffStillFirst(g: GitHub, f: GitHub, l: Lookup)
    requires FindRun(g, l).Some? && FindRun(g, l).value.status == Completed
    requires FindRun(f, l).Some? && FindRun(f, l).value.status == Completed
    ensures FindRun(g, l).value.runId == FindRun(f, l).value.runId <==> StillFirst(RunTitle(l), g, f)
  {
    hide RunTitle, FindRun, IsFirst;
    var i := TakenIsFirst(g, l);
    var k := TakenIsFirst(f, l);
    forall j | IsFirst(g.runs, RunTitle(l), j) ensures j == i { OneFirst(g.runs, RunTitle(l), i, j); }
    forall j | IsFirst(f.runs, RunTitle(l), j) ensures j == k { OneFirst(f.runs, RunTitle(l), k, j); }
  }

  /** One policy, one reference, one run name, and the run first under it is the same in both listings. */
  ghost predicate SameReplay(a: Sent, b: Sent) {
    && a.item.policy == b.item.policy && a.item.reference == b.item.reference && RunKey(a.item) == RunKey(b.item)
    && StillFirst(RunName(a.item), a.w.github, b.w.github)
  }

  ghost predicate SeenInOrder(a: Sent, b: Sent) {
    HubPrecedes(a.hub, b.hub) && Shows(a.hub, a.w.github) && Shows(b.hub, b.w.github)
  }

  lemma SameReplaySameEvidence(cfg: Config, a: Sent, b: Sent, wa: nat, wb: nat)
    requires SeenInOrder(a, b) && Writes(cfg, a.w, a.item, wa, a.report) && Writes(cfg, b.w, b.item, wb, b.report)
    requires SameReplay(a, b)
    ensures HashOf(a.report) == HashOf(b.report)
    ensures a.report.CheckReport? && b.report.CheckReport? ==> a.report.pass == b.report.pass
  {
    hide Writes, HubPrecedes, Shows, Admit, HasConfirmedRun, RunFor, FindRun, StillFirst, LookupFor, RunTitle, Replay,
      EvidenceHash, BuildEvidence, DeliveredAsAgreed, Agreed, RunKey, DryLookup, RunName, ReferenceSchema, SameRun,
      Titled, Pick, Confirmed;
    var ga, gb := Admit(cfg, a.w, a.item), Admit(cfg, b.w, b.item);
    WrittenHash(cfg, a.w, a.item, wa, a.report);
    WrittenHash(cfg, b.w, b.item, wb, b.report);
    HasRun(a.w, ga);
    HasRun(b.w, gb);
    AdmittedAsGiven(cfg, a.w, a.item);
    AdmittedAsGiven(cfg, b.w, b.item);
    AdmittedName(cfg, a.w, a.item);
    AdmittedName(cfg, b.w, b.item);
    var p, r, ra, rb := ga.policy, ga.reference, RunFor(a.w, ga), RunFor(b.w, gb);
    ConfirmedRun(a.w, ga);
    ConfirmedRun(b.w, gb);
    SameRunIffStillFirst(a.w.github, b.w.github, LookupFor(ga));
    OneIdOneRun(a.hub, a.w.github, b.hub, b.w.github, LookupFor(ga));
    SettledRunReadsTheSame(a.hub, a.w.github, b.hub, b.w.github, LookupFor(ga), p);
    EvidenceIsStable(p, r, ra, rb, a.w.now, b.w.now);
    RuleFixesTheFlag(p, r, ra, a.w.now);
    RuleFixesTheFlag(p, r, rb, b.w.now);
  }

  lemma ConfirmedRun(w: World, go: Admission)
    requires HasConfirmedRun(w, go) && Agreed(go.policy)
    ensures Confirmed(go.policy, RunFor(w, go)) && RunFor(w, go).status == Completed && DistinctIds(go.policy.items)
  {
    hide FindRun, LookupFor, PolicySchema;
  }

  lemma SameEvidenceSameReplay(cfg: Config, a: Sent, b: Sent, wa: nat, wb: nat)
    requires SeenInOrder(a, b) && Writes(cfg, a.w, a.item, wa, a.report) && Writes(cfg, b.w, b.item, wb, b.report)
    requires HashOf(a.report) == HashOf(b.report)
    ensures SameReplay(a, b)
  {
    hide Writes, HubPrecedes, Shows, Admit, HasConfirmedRun, RunFor, FindRun, StillFirst, LookupFor, RunTitle, Replay,
      EvidenceHash, BuildEvidence, DeliveredAsAgreed, Agreed, RunKey, RunName, ReferenceSchema, InputsHash, Confirmed,
      PolicyFingerprint;
    var ga, gb := Admit(cfg, a.w, a.item), Admit(cfg, b.w, b.item);
    WrittenHash(cfg, a.w, a.item, wa, a.report);
    WrittenHash(cfg, b.w, b.item, wb, b.report);
    HasRun(a.w, ga);
    HasRun(b.w, gb);
    AdmittedAsGiven(cfg, a.w, a.item);
    AdmittedAsGiven(cfg, b.w, b.item);
    AdmittedName(cfg, a.w, a.item);
    AdmittedName(cfg, b.w, b.item);
    var ra, rb := RunFor(a.w, ga), RunFor(b.w, gb);
    EvidenceHashBinds(ga.policy, ga.reference, ra, Replay(ga.policy, ga.reference, Some(ra), a.w.now),
                      gb.policy, gb.reference, rb, Replay(gb.policy, gb.reference, Some(rb), b.w.now));
    OneIdOneTitle(a.hub, a.w.github, LookupFor(ga), b.hub, b.w.github, LookupFor(gb));
    SchemaShaIsOneWord(ga.reference);
    RunTitleBinds(LookupFor(ga), LookupFor(gb));
    ConfirmedRun(a.w, ga);
    ConfirmedRun(b.w, gb);
    SameRunIffStillFirst(a.w.github, b.w.github, LookupFor(ga));
  }

  /**
   Over every run, whatever kinds of items and whichever deals they name: two reports carry the same
   evidence exactly when they were written for one policy, one reference and one run name, and the run that
   is first under that name in the one listing is first in the other. Then they pass or fail alike.
   */
  lemma OneEvidenceOneReplay(cfg: Config, states: seq<System>, actions: seq<Action>, n: nat, i: nat, j: nat)
    requires IsRun(cfg, states, actions) && n < |states| && i < j < |states[n].sent|
    ensures var a, b := states[n].sent[i], states[n].sent[j];
      && (HashOf(a.report) == HashOf(b.report) <==> SameReplay(a, b))
      && (a.report.CheckReport? && b.report.CheckReport? && SameReplay(a, b) ==> a.report.pass == b.report.pass)
  {
    hide IsRun, Writes, Precedes, HubPrecedes, Shows, OneDeliveryARevision, SameReplay, HashOf;
    InvHolds(cfg, states, actions, n);
    var a, b := states[n].sent[i], states[n].sent[j];
    assert Entry(cfg, states[n], a) && Entry(cfg, states[n], b) && InOrder(a, b);
    var wa: nat :| Writes(cfg, a.w, a.item, wa, a.report);
    var wb: nat :| Writes(cfg, b.w, b.item, wb, b.report);
    if SameReplay(a, b) { SameReplaySameEvidence(cfg, a, b, wa, wb); }
    if HashOf(a.report) == HashOf(b.report) { SameEvidenceSameReplay(cfg, a, b, wa, wb); }
  }

  /** Two reports for one revision of one deal, in whatever spelling of its id. */
  ghost predicate SameDeal(a: Sent, b: Sent) {
    && a.report.CheckReport? && b.report.CheckReport? && a.item.kind == DealItem && b.item.kind == DealItem
    && Ref(a.report.family, a.report.dealId) == Ref(b.report.family, b.report.dealId)
    && a.report.revision == b.report.revision
  }

  lemma SameDealSameGate(cfg: Config, a: Sent, b: Sent, wa: nat, wb: nat)
    requires SameDeal(a, b) && Precedes(a.w.chain, b.w.chain) && OneDeliveryARevision(b.w.chain)
    requires Writes(cfg, a.w, a.item, wa, a.report) && Writes(cfg, b.w, b.item, wb, b.report)
    ensures a.item.policy == b.item.policy && a.item.reference == b.item.reference
    ensures RunKey(a.item) == RunKey(b.item) <==> a.report.dealId == b.report.dealId
    ensures a.report.verifier == b.report.verifier
  {
    hide Writes, Precedes, OneDeliveryARevision, Admit, FindRun, LookupFor, CheckLookup, JustifiedBy, HasConfirmedRun,
      RunFor, Agreed, ReferenceSchema, PolicyFingerprint, DealKey, WasDelivered, IsAddress, IsHex32, Configured,
      ProofFingerprint, DeliveredAsAgreed, EvidenceHash, BuildEvidence, Replay, Lower;
    CheckReportIsJustified(cfg, a.w, a.item, wa, a.report);
    CheckReportIsJustified(cfg, b.w, b.item, wb, b.report);
    var ga, gb := Admit(cfg, a.w, a.item), Admit(cfg, b.w, b.item);
    HasRun(a.w, ga);
    HasRun(b.w, gb);
    AdmittedAsGiven(cfg, a.w, a.item);
    AdmittedAsGiven(cfg, b.w, b.item);
    AdmittedDeal(cfg, a.w, a.item);
    AdmittedDeal(cfg, b.w, b.item);
    JustifiedLater(cfg, a.w.chain, b.w.chain, a.w, a.report, ga.policy, ga.reference, RunFor(a.w, ga));
    SameDealSameDocuments(cfg, b.w.chain, a.w, a.report, ga.policy, ga.reference, RunFor(a.w, ga),
                          b.w, b.report, gb.policy, gb.reference, RunFor(b.w, gb));
    DealKeyBinds(a.item.dealId, a.item.revision, b.item.dealId, b.item.revision);
  }

  /**
   What keeps the run of one listing first later on: it was the oldest of its name, nothing ties with it,
   and it is still listed.
   */
  ghost predicate SettledAndListed(a: Sent, b: Sent) {
    var runs := Titled(a.w.github.runs, RunName(a.item));
    runs != [] && OldestOfItsName(a.hub, Pick(runs)) && NoTie(b.hub, Pick(runs)) && Pick(runs) in b.w.github.runs
  }

  lemma SettledIsStillFirst(cfg: Config, a: Sent, b: Sent, wa: nat, wb: nat)
    requires SeenInOrder(a, b) && Writes(cfg, a.w, a.item, wa, a.report) && Writes(cfg, b.w, b.item, wb, b.report)
    requires RunName(a.item) == RunName(b.item) && SettledAndListed(a, b)
    ensures StillFirst(RunName(a.item), a.w.github, b.w.github)
  {
    hide Writes, HubPrecedes, Shows, Admit, FindRun, LookupFor, Titled, Pick, RunTitle, OldestOfItsName, NoTie,
      Confirmed, HasConfirmedRun, RunFor, RunName, IsFirst, Agreed, ReferenceSchema, HashOf, EvidenceHash,
      BuildEvidence, Replay, DeliveredAsAgreed;
    var ga := Admit(cfg, a.w, a.item);
    WrittenHash(cfg, a.w, a.item, wa, a.report);
    HasRun(a.w, ga);
    AdmittedAsGiven(cfg, a.w, a.item);
    AdmittedName(cfg, a.w, a.item);
    ConfirmedRun(a.w, ga);
    var l := LookupFor(ga);
    SettledRunIsTakenAgain(a.hub, a.w.github, b.hub, b.w.github, l);
    TakenRun(a.w.github, l);
    TakenRun(b.w.github, l);
    var i := TakenIsFirst(a.w.github, l);
    var k := TakenIsFirst(b.w.github, l);
  }

  /**
   Arc is read at its finalized block, so a result may be written twice before it shows. Over every
   run, two CHECK reports of deal items for the same revision of the same deal carry the same evidence
   exactly when the index spelled the id alike and the first completed run of that name is the same in both
   listings, and then the same pass flag. It is the same once it was the oldest of its name, without a tie,
   and is still listed.
   */
  lemma RepeatedWritesAgree(cfg: Config, states: seq<System>, actions: seq<Action>, n: nat, i: nat, j: nat)
    requires IsRun(cfg, states, actions) && n < |states| && i < j < |states[n].sent|
    requires SameDeal(states[n].sent[i], states[n].sent[j])
    ensures var a, b := states[n].sent[i], states[n].sent[j];
      && a.report.verifier == b.report.verifier
      && (a.report.evidenceHash == b.report.evidenceHash <==>
            a.report.dealId == b.report.dealId && StillFirst(RunName(a.item), a.w.github, b.w.github))
      && (a.report.evidenceHash == b.report.evidenceHash ==> a.report.pass == b.report.pass)
      && (a.report.dealId == b.report.dealId && SettledAndListed(a, b) ==>
            a.report.evidenceHash == b.report.evidenceHash)
  {
    hide IsRun, Writes, Precedes, HubPrecedes, Shows, OneDeliveryARevision, SettledAndListed, StillFirst, RunKey,
      RunTitle, DryLookup;
    InvHolds(cfg, states, actions, n);
    OneEvidenceOneReplay(cfg, states, actions, n, i, j);
    var a, b := states[n].sent[i], states[n].sent[j];
    assert Entry(cfg, states[n], a) && Entry(cfg, states[n], b) && InOrder(a, b);
    var wa: nat :| Writes(cfg, a.w, a.item, wa, a.report);
    var wb: nat :| Writes(cfg, b.w, b.item, wb, b.report);
    SameDealSameGate(cfg, a, b, wa, wb);
    if a.report.dealId == b.report.dealId && SettledAndListed(a, b) { SettledIsStillFirst(cfg, a, b, wa, wb); }
  }

  /**
   Over every run, each DRY report was sent for an item of kind 'dry' under its own fee run, with the policy
   fingerprinted in the terms of the deal the item names, and a completed run of the pinned runner at the
   commit of its reference.
   */
  lemma DryReportsAreAnswers(cfg: Config, states: seq<System>, actions: seq<Action>, n: nat, k: nat)
    requires IsRun(cfg, states, actions) && n < |states| && k < |states[n].sent|
    requires states[n].sent[k].report.DryReport?
    ensures var e := states[n].sent[k];
      && e.item.kind == DryItem && Precedes(e.w.chain, states[n].chain)
      && exists p, r, run :: AnsweredBy(cfg, e.w, e.item, e.report, p, r, run)
  {
    hide IsRun, Writes, Precedes, HubPrecedes, Shows, AnsweredBy, Admit, HasConfirmedRun, RunFor;
    InvHolds(cfg, states, actions, n);
    var e := states[n].sent[k];
    assert Entry(cfg, states[n], e);
    var writes: nat :| Writes(cfg, e.w, e.item, writes, e.report);
    DryReportIsConfirmed(cfg, e.w, e.item, writes, e.report);
    DryItemIsReportedIff(cfg, e.w, e.item, writes, e.report);
  }

  lemma RuleFixesTheFlag(p: Policy, r: Reference, run: RunFacts, now: int)
    requires Confirmed(p, run)
    ensures DeliveredAsAgreed(p, r, run) <==> Replay(p, r, Some(run), now).decision == Pass
  {
    VerdictIsTheRule(p, r, Some(run), now);
  }

  lemma SameDealSameDocuments(cfg: Config, c: Chain, w: World, rep: Report, p: Policy, r: Reference, run: RunFacts,
                              w': World, rep': Report, q: Policy, s: Reference, run': RunFacts)
    requires OneDeliveryARevision(c) && rep.CheckReport? && rep'.CheckReport?
    requires JustifiedBy(cfg, c, w, rep, p, r, run) && JustifiedBy(cfg, c, w', rep', q, s, run')
    requires Ref(rep.family, rep.dealId) == Ref(rep'.family, rep'.dealId) && rep.revision == rep'.revision
    ensures p == q && r == s && rep.verifier == rep'.verifier
  {
    hide Agreed, Confirmed, FindRun, Replay, EvidenceHash, BuildEvidence, PolicyFingerprint, ProofFingerprint,
      CheckLookup, DeliveredAsAgreed, Configured;
    PolicyFingerprintBinds(p, q);
    OneProof(c, Ref(rep.family, rep.dealId), rep.revision, ProofFingerprint(r), ProofFingerprint(s));
    ProofFingerprintBinds(r, s);
  }

  // ---- Short runs ----

  function After(cfg: Config, s: System, w: World): System {
    System(s.chain, s.hub, s.sent + SentBy(cfg, w, PageOf(cfg, w), 0, s.hub))
  }

  /** One execution of the schedule is a run. */
  lemma OneExecution(cfg: Config, chain: Chain, hub: Hub, w: World)
    requires w.chain == chain && Shows(hub, w.github) && OneDeliveryARevision(chain)
    ensures var s := System(chain, hub, []); IsRun(cfg, [s, After(cfg, s, w)], [OnCollect(w)])
  {
    hide Shows, OneDeliveryARevision, SentBy, PageOf;
    var s := System(chain, hub, []);
    assert Step(cfg, s, OnCollect(w), After(cfg, s, w));
  }

  /** Two executions with GitHub moving on between them are a run. */
  lemma TwoExecutions(cfg: Config, chain: Chain, hub: Hub, later: Hub, v: World, w: World)
    requires v.chain == w.chain == chain && Shows(hub, v.github) && Shows(later, w.github)
    requires OneDeliveryARevision(chain) && HubPrecedes(hub, later)
    ensures var s := System(chain, hub, []); var t := After(cfg, s, v); var u := System(chain, later, t.sent);
      IsRun(cfg, [s, t, u, After(cfg, u, w)], [OnCollect(v), WorldMoves, OnCollect(w)])
  {
    hide Shows, OneDeliveryARevision, HubPrecedes, Precedes, SentBy, PageOf;
    var s := System(chain, hub, []);
    var t := After(cfg, s, v);
    var u := System(chain, later, t.sent);
    Reflexive(chain, hub);
    assert Step(cfg, s, OnCollect(v), t);
    assert Step(cfg, t, WorldMoves, u);
    assert Step(cfg, u, OnCollect(w), After(cfg, u, w));
  }
}
