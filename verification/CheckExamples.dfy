/** One agreed deal, concretely, and the runs in which what a condition shuts out does happen. */
module CheckExamples {
  import opened Texts
  import opened Documents
  import opened Verdict
  import opened Runs
  import opened CheckRules
  import opened CheckSafety
  import opened CheckSystem
  import opened CheckAgreement

  // ---- One deal ----

  const FAMILY: Text := [48, 120] + Repeat(99, 40)
  const VERIFIER: Text := [48, 120] + Repeat(100, 40)
  const LOWER_ID: Text := [48, 120] + Repeat(97, 64)
  const UPPER_ID: Text := [48, 120] + Repeat(65, 64)
  const SHA: Text := Repeat(48, 40)
  const HEAD_SHA: Text := [104]
  const BLOCK: Text := [98]
  const RUNNER: Text := [111, 47, 114]
  const REPO := Repository([111], [110], 1)
  const ITEM := Item([97], [116], [114], true)
  const POLICY := Policy(REPO, [109], Commit, None, [ITEM], None, Runner(RUNNER, SHA), 5)
  const REFERENCE := Reference(REPO, 1, SHA)
  const CONFIG := Config([VERIFIER], true, 10, RUNNER, FAMILY)
  const GOOD: seq<Job> := [Job(Ascii("guard"), Some(Ascii("success"))), Job(ItemJob(ITEM.id), Some(Ascii("success")))]

  lemma RunnerIsARepository()
    ensures IsOwnerSlashName(RUNNER)
  {
    SplitAt([111], [114], SLASH);
    SplitUnits([114], SLASH);
    assert RUNNER == [111] + [SLASH] + [114];
  }

  lemma DocumentsAreAgreed()
    ensures Agreed(POLICY) && ReferenceSchema(REFERENCE) && SameRepository(REFERENCE.repository, POLICY.repository)
  {
    hide IsOwnerSlashName;
    RunnerIsARepository();
    assert POLICY.items[0].required;
  }

  lemma GoodJobs()
    ensures Succeeded(GOOD, Ascii("guard")) && Succeeded(GOOD, ItemJob(ITEM.id)) && DistinctNames(GOOD)
  {
    assert ItemJob(ITEM.id)[0] == 105 && Ascii("guard")[0] == 103;
    ConclusionOfDistinct(GOOD, 0);
    ConclusionOfDistinct(GOOD, 1);
  }

  lemma IdsAreOneDeal()
    ensures IsAddress(FAMILY) && IsHex32(LOWER_ID) && IsHex32(UPPER_ID) && LOWER_ID != UPPER_ID
    ensures Ref(FAMILY, UPPER_ID) == Ref(FAMILY, LOWER_ID)
  {
    assert Lower(UPPER_ID) == Lower(LOWER_ID);
    assert UPPER_ID[2] != LOWER_ID[2];
  }

  function Terms0(): Terms { Terms(VERIFIER, PolicyFingerprint(POLICY), 0) }

  function TermsOnly(): Chain { Chain(map[Ref(FAMILY, LOWER_ID) := Terms0()], map[], map[]) }

  function DealChain(): Chain {
    Chain(map[Ref(FAMILY, LOWER_ID) := Terms0()],
      map[Ref(FAMILY, LOWER_ID) := Deal(AGREEMENT_ACCEPTED, 1, false, false)],
          map[Ref(FAMILY, LOWER_ID) := [DeliveredLog(1, ProofFingerprint(REFERENCE), BLOCK, 5)]])
  }

  function WorldOf(chain: Chain, page: seq<PendingItem>, github: GitHub, docs: map<Digest, Doc>): World {
    World(0, chain, docs, page, github, map[], map[RUNNER := SHA], map[], true, [], {})
  }

  function DealItemOf(dealId: Text): PendingItem {
    PendingItem(DealItem, [], FAMILY, dealId, 1, Some(BLOCK), Some(5), PolicyDoc(POLICY), ReferenceDoc(REFERENCE))
  }

  function LookupOf(dealKey: Text): Lookup {
    Lookup(RUNNER, dealKey, SHA, InputsHash(POLICY, PolicyFingerprint(POLICY), SHA))
  }

  function DoneRun(id: int, dealKey: Text): WorkflowRun {
    WorkflowRun(id, RunTitle(LookupOf(dealKey)), COMPLETED_TEXT, 10 * id, HEAD_SHA)
  }

  /** Two runs have completed: one in which all succeeded, and one in which only the guard did. */
  function TwoRuns(a: Text, b: Text): GitHub {
    GitHub([DoneRun(1, a), DoneRun(2, b)], map[1 := GOOD, 2 := GUARD_ONLY], map[(RUNNER, HEAD_SHA) := SHA])
  }

  function TwoRunsHub(a: Text, b: Text): Hub {
    Hub(map[1 := DoneRun(1, a), 2 := DoneRun(2, b)], map[1 := GOOD, 2 := GUARD_ONLY])
  }

  function FactsOf(id: int, jobs: seq<Job>): RunFacts { RunFacts(id, Completed, 10 * id, HEAD_SHA, SHA, SHA, jobs) }

  lemma GenuineDeal(dealId: Text, w: World)
    requires dealId == LOWER_ID || dealId == UPPER_ID
    requires w.chain == DealChain()
    ensures Genuine(CONFIG, w, DealItemOf(dealId), POLICY, REFERENCE)
  {
    hide Agreed, ReferenceSchema, PolicyFingerprint, ProofFingerprint, SameRepository;
    DocumentsAreAgreed();
    IdsAreOneDeal();
    hide IsAddress, IsHex32, Lower;
    assert Configured(CONFIG, VERIFIER) by { assert CONFIG.verifiers[0] == VERIFIER; }
  }

  // ---- Finding a run by its only title ----

  lemma FindOnly(g: GitHub, l: Lookup, run: WorkflowRun)
    requires run in g.runs && run.title == RunTitle(l) && forall x | x in g.runs && x.title == RunTitle(l) :: x == run
    requires IsCompleted(run) && run.id in g.jobs && (l.runner, run.headSha) in g.blobs
    ensures FindRun(g, l) == Some(RunFacts(run.id, Completed, run.createdAt, run.headSha,
      g.blobs[(l.runner, run.headSha)], l.sha, g.jobs[run.id]))
  {
    hide RunTitle, Pick, Titled;
    var titled := Titled(g.runs, RunTitle(l));
    PickIsOldest(titled);
  }

  predicate OneWordKey(k: Text) { Lacks(k, SPACE) }

  lemma TitlesDiffer(a: Text, b: Text)
    requires OneWordKey(a) && OneWordKey(b) && a != b
    ensures RunTitle(LookupOf(a)) != RunTitle(LookupOf(b))
  {
    hide RunTitle, InputsHash;
    if RunTitle(LookupOf(a)) == RunTitle(LookupOf(b)) { RunTitleBinds(LookupOf(a), LookupOf(b)); }
  }

  lemma FoundTwo(a: Text, b: Text)
    requires OneWordKey(a) && OneWordKey(b) && a != b
    ensures FindRun(TwoRuns(a, b), LookupOf(a)) == Some(FactsOf(1, GOOD))
    ensures FindRun(TwoRuns(a, b), LookupOf(b)) == Some(FactsOf(2, GUARD_ONLY))
    ensures Shows(TwoRunsHub(a, b), TwoRuns(a, b))
  {
    hide RunTitle, InputsHash, FindRun, OneWordKey;
    TitlesDiffer(a, b);
    FindOnly(TwoRuns(a, b), LookupOf(a), DoneRun(1, a));
    FindOnly(TwoRuns(a, b), LookupOf(b), DoneRun(2, b));
    GoodJobs();
  }

  /** The good run passes, the other fails. */
  lemma OnePassesOneFails()
    ensures Confirmed(POLICY, FactsOf(1, GOOD)) && DeliveredAsAgreed(POLICY, REFERENCE, FactsOf(1, GOOD))
    ensures Confirmed(POLICY, FactsOf(2, GUARD_ONLY)) && !DeliveredAsAgreed(POLICY, REFERENCE, FactsOf(2, GUARD_ONLY))
    ensures Confirmed(POLICY, FactsOf(1, GUARD_ONLY)) && !DeliveredAsAgreed(POLICY, REFERENCE, FactsOf(1, GUARD_ONLY))
    ensures Confirmed(POLICY, FactsOf(2, GOOD)) && DeliveredAsAgreed(POLICY, REFERENCE, FactsOf(2, GOOD))
  {
    hide Agreed, SameRepository, Succeeded, ItemJob;
    DocumentsAreAgreed();
    GoodJobs();
    GuardOnlyFails(POLICY);
  }

  // ---- An item of another kind ----

  const DRY_A: Text := DRY_PREFIX + Repeat(97, 64)
  const DRY_B: Text := DRY_PREFIX + Repeat(98, 64)

  function OddItem(dealKey: Text): PendingItem {
    PendingItem(OtherKind, dealKey, FAMILY, LOWER_ID, 7, None, None, PolicyDoc(POLICY), ReferenceDoc(REFERENCE))
  }

  function OddWorld(): World { WorldOf(TermsOnly(), [OddItem(DRY_A), OddItem(DRY_B)], TwoRuns(DRY_A, DRY_B), map[]) }

  function OddHub(): Hub { TwoRunsHub(DRY_A, DRY_B) }

  function OddStates(): seq<System> {
    var s := System(TermsOnly(), OddHub(), []);
    [s, After(CONFIG, s, OddWorld())]
  }

  lemma DryKeys()
    ensures IsDryKey(DRY_A) && IsDryKey(DRY_B) && DRY_A != DRY_B && OneWordKey(DRY_A) && OneWordKey(DRY_B)
  {
    assert DRY_A[..4] == DRY_PREFIX && DRY_B[..4] == DRY_PREFIX;
    assert DRY_A[4] == 97 && DRY_B[4] == 98;
  }

  lemma OddPasses(dealKey: Text)
    requires dealKey == DRY_A || dealKey == DRY_B
    ensures PassesAsDry(CONFIG, OddWorld(), OddItem(dealKey), POLICY, REFERENCE)
    ensures LookupOf(dealKey) == DryLookup(POLICY, REFERENCE, dealKey)
  {
    hide Agreed, ReferenceSchema, PolicyFingerprint, InputsHash, IsDryKey;
    DocumentsAreAgreed();
    IdsAreOneDeal();
    DryKeys();
    assert Configured(CONFIG, VERIFIER) by { assert CONFIG.verifiers[0] == VERIFIER; }
  }

  /** What one such item writes, and that it does not end the execution. */
  lemma OddWrites(dealKey: Text, run: RunFacts)
    requires (dealKey == DRY_A && run == FactsOf(1, GOOD)) || (dealKey == DRY_B && run == FactsOf(2, GUARD_ONLY))
    ensures var w := OddWorld(); var rep := ReportOf(w, OddItem(dealKey), VERIFIER, POLICY, REFERENCE, run);
      Writes(CONFIG, w, OddItem(dealKey), 0, rep) && !EndsExecution(CONFIG, w, OddItem(dealKey))
  {
    hide Writes, FindRun, Confirmed, PassesAsDry, ReportOf, InputsHash, PolicyFingerprint, OneWordKey, IsDryKey, Admit,
      DeliveredAsAgreed, HasConfirmedRun, TwoRuns;
    var w, item := OddWorld(), OddItem(dealKey);
    OddPasses(dealKey);
    DryKeys();
    FoundTwo(DRY_A, DRY_B);
    OnePassesOneFails();
    OtherKindIsReportedIff(CONFIG, w, item, 0, ReportOf(w, item, VERIFIER, POLICY, REFERENCE, run));
    AdmittedIffPassesAsDry(CONFIG, w, item, POLICY, REFERENCE);
  }

  lemma OddRun()
    ensures IsRun(CONFIG, OddStates(), [OnCollect(OddWorld())])
  {
    hide TwoRuns, TwoRunsHub, SentBy, Shows, OneWordKey, IsDryKey;
    DryKeys();
    FoundTwo(DRY_A, DRY_B);
    OneExecution(CONFIG, TermsOnly(), OddHub(), OddWorld());
  }

  function OddSent(dealKey: Text, run: RunFacts): Sent {
    Sent(ReportOf(OddWorld(), OddItem(dealKey), VERIFIER, POLICY, REFERENCE, run), OddWorld(), OddItem(dealKey),
      OddHub())
  }

  lemma OddPage()
    ensures PageOf(CONFIG, OddWorld()) == [OddItem(DRY_A), OddItem(DRY_B)] && OddStates()[0].sent == []
    ensures OddStates()[1].sent == SentBy(CONFIG, OddWorld(), [OddItem(DRY_A), OddItem(DRY_B)], 0, OddHub())
  {
    hide SentBy, TwoRuns, TwoRunsHub;
    assert [] + SentBy(CONFIG, OddWorld(), PageOf(CONFIG, OddWorld()), 0, OddHub())
      == SentBy(CONFIG, OddWorld(), PageOf(CONFIG, OddWorld()), 0, OddHub());
  }

  lemma BothAreSent()
    ensures OddSent(DRY_A, FactsOf(1, GOOD)) in OddStates()[1].sent
    ensures OddSent(DRY_B, FactsOf(2, GUARD_ONLY)) in OddStates()[1].sent
  {
    hide OddWorld, OddHub, OddStates, OddItem, Writes, EndsExecution, ReportOf, SentBy, FactsOf;
    OddPage();
    OddWrites(DRY_A, FactsOf(1, GOOD));
    OddWrites(DRY_B, FactsOf(2, GUARD_ONLY));
    var items := [OddItem(DRY_A), OddItem(DRY_B)];
    TurnIsSent(CONFIG, OddWorld(), items, 0, 0, OddHub(), OddSent(DRY_A, FactsOf(1, GOOD)).report);
    TurnIsSent(CONFIG, OddWorld(), items, 1, 0, OddHub(), OddSent(DRY_B, FactsOf(2, GUARD_ONLY)).report);
  }

  lemma NotOfADeal(e: Sent)
    requires e in OddStates()[1].sent && e.report.CheckReport? && e.item.kind != DealItem
    ensures !exists p, r, run :: JustifiedBy(CONFIG, OddStates()[1].chain, e.w, e.report, p, r, run)
  {
    hide JustifiedBy, IsRun, OddWorld, After;
    OddRun();
    var k :| 0 <= k < |OddStates()[1].sent| && OddStates()[1].sent[k] == e;
    JustifiedIffDealItem(CONFIG, OddStates(), [OnCollect(OddWorld())], 1, k);
  }

  /**
   A run in which two CHECK reports are sent for revision 7 of a deal that Arc has no state and no
   Delivered log of, one passing and one failing. Neither is justified.
   */
  lemma OtherKindsAreReportedUnjustified() returns (e: Sent, f: Sent)
    ensures IsRun(CONFIG, OddStates(), [OnCollect(OddWorld())])
    ensures OddWorld().chain.deals == map[] && OddWorld().chain.logs == map[]
    ensures e in OddStates()[1].sent && f in OddStates()[1].sent && e.report.CheckReport? && f.report.CheckReport?
    ensures e.report.family == f.report.family && e.report.dealId == f.report.dealId
      && e.report.revision == f.report.revision == 7
    ensures e.report.pass && !f.report.pass
    ensures !exists p, r, run :: JustifiedBy(CONFIG, OddStates()[1].chain, e.w, e.report, p, r, run)
    ensures !exists p, r, run :: JustifiedBy(CONFIG, OddStates()[1].chain, f.w, f.report, p, r, run)
  {
    hide JustifiedBy, IsRun, OddStates, OddHub, DeliveredAsAgreed, EvidenceHash, BuildEvidence, Replay, FactsOf,
      TwoRuns;
    OddRun();
    BothAreSent();
    OnePassesOneFails();
    e, f := OddSent(DRY_A, FactsOf(1, GOOD)), OddSent(DRY_B, FactsOf(2, GUARD_ONLY));
    NotOfADeal(e);
    NotOfADeal(f);
  }

  // ---- An older run that finishes late ----

  function DealLookup(dealId: Text): Lookup { CheckLookup(POLICY, REFERENCE, dealId, 1) }

  function LateBefore(): World {
    WorldOf(DealChain(), [DealItemOf(LOWER_ID)], BeforeLateFinish(DealLookup(LOWER_ID), HEAD_SHA, SHA, GOOD), map[])
  }

  function LateAfter(): World {
    WorldOf(DealChain(), [DealItemOf(LOWER_ID)], AfterLateFinish(DealLookup(LOWER_ID), HEAD_SHA, SHA, GOOD), map[])
  }

  function HubBefore(): Hub {
    Hub(map[1 := LateBefore().github.runs[0], 2 := LateBefore().github.runs[1]], map[2 := GOOD])
  }

  function HubAfter(): Hub {
    Hub(map[1 := LateAfter().github.runs[0], 2 := LateAfter().github.runs[1]], map[1 := GUARD_ONLY, 2 := GOOD])
  }

  function LateStates(): seq<System> {
    var s := System(DealChain(), HubBefore(), []);
    var t := After(CONFIG, s, LateBefore());
    var u := System(DealChain(), HubAfter(), t.sent);
    [s, t, u, After(CONFIG, u, LateAfter())]
  }

  lemma InProgressIsNotCompleted()
    ensures Ascii("in_progress") != COMPLETED_TEXT
  {
    assert |Ascii("in_progress")| != |COMPLETED_TEXT|;
  }

  lemma LateShown()
    ensures Shows(HubBefore(), LateBefore().github)
  {
    hide RunTitle, DealLookup, GOOD;
    GoodJobs();
    InProgressIsNotCompleted();
    hide Ascii, DistinctNames;
  }

  lemma LateShownAfter()
    ensures Shows(HubAfter(), LateAfter().github)
  {
    hide RunTitle, DealLookup, GOOD, Ascii;
    GoodJobs();
    assert DistinctNames(GUARD_ONLY);
    hide DistinctNames;
  }

  lemma LateMoves()
    ensures HubPrecedes(HubBefore(), HubAfter())
  {
    hide RunTitle, DealLookup, GOOD;
    InProgressIsNotCompleted();
    hide Ascii;
  }

  lemma LateHubs()
    ensures Shows(HubBefore(), LateBefore().github) && Shows(HubAfter(), LateAfter().github)
    ensures HubPrecedes(HubBefore(), HubAfter())
  {
    LateShown();
    LateShownAfter();
    LateMoves();
  }

  lemma LateChains()
    ensures LateBefore().chain == LateAfter().chain == DealChain() && LateBefore().refused == LateAfter().refused == {}
    ensures PageOf(CONFIG, LateBefore()) == PageOf(CONFIG, LateAfter()) == [DealItemOf(LOWER_ID)]
    ensures OneDeliveryARevision(DealChain())
  {
    hide BeforeLateFinish, AfterLateFinish, DealItemOf;
  }

  lemma LateRun()
    ensures IsRun(CONFIG, LateStates(), [OnCollect(LateBefore()), WorldMoves, OnCollect(LateAfter())])
  {
    hide Shows, HubPrecedes, BeforeLateFinish, AfterLateFinish, HubBefore, HubAfter, After, IsRun, DealItemOf;
    LateHubs();
    LateChains();
    TwoExecutions(CONFIG, DealChain(), HubBefore(), HubAfter(), LateBefore(), LateAfter());
  }

  function SentFor(w: World, dealId: Text, run: RunFacts, hub: Hub): Sent {
    Sent(ReportOf(w, DealItemOf(dealId), VERIFIER, POLICY, REFERENCE, run), w, DealItemOf(dealId), hub)
  }

  /** A deal item of the one deal is reported with the verdict of the run its look-up takes. */
  lemma DealIsSent(w: World, items: seq<PendingItem>, i: nat, dealId: Text, run: RunFacts, hub: Hub)
    requires (dealId == LOWER_ID || dealId == UPPER_ID) && w.chain == DealChain() && w.refused == {}
    requires i < |items| && items[i] == DealItemOf(dealId)
      && forall j | 0 <= j < i :: !EndsExecution(CONFIG, w, items[j])
    requires FindRun(w.github, DealLookup(dealId)) == Some(run) && Confirmed(POLICY, run)
    ensures SentFor(w, dealId, run, hub) in SentBy(CONFIG, w, items, 0, hub) && !EndsExecution(CONFIG, w, items[i])
    ensures SentFor(w, dealId, run, hub).report.pass == DeliveredAsAgreed(POLICY, REFERENCE, run)
  {
    hide FindRun, Confirmed, EndsExecution, Writes, SentBy, Genuine, CheckLookup;
    GenuineDeal(dealId, w);
    IdsAreOneDeal();
    GenuineItemWrites(CONFIG, w, items[i], 0, POLICY, REFERENCE, run);
    TurnIsSent(CONFIG, w, items, i, 0, hub, SentFor(w, dealId, run, hub).report);
  }

  lemma LateSent()
    ensures SentFor(LateBefore(), LOWER_ID, FactsOf(2, GOOD), HubBefore()) in LateStates()[1].sent
    ensures SentFor(LateAfter(), LOWER_ID, FactsOf(1, GUARD_ONLY), HubAfter()) in LateStates()[3].sent
    ensures LateStates()[1].sent <= LateStates()[3].sent && LateStates()[2].sent == LateStates()[1].sent
  {
    hide FindRun, SentFor, Confirmed, DealLookup, LateBefore, LateAfter, HubBefore, HubAfter, SentBy, DealItemOf,
      EndsExecution,
      DeliveredAsAgreed, FactsOf, DealChain;
    OnePassesOneFails();
    LateFound();
    LateChains();
    DealIsSent(LateBefore(), [DealItemOf(LOWER_ID)], 0, LOWER_ID, FactsOf(2, GOOD), HubBefore());
    DealIsSent(LateAfter(), [DealItemOf(LOWER_ID)], 0, LOWER_ID, FactsOf(1, GUARD_ONLY), HubAfter());
  }

  lemma LateFound()
    ensures FindRun(LateBefore().github, DealLookup(LOWER_ID)) == Some(FactsOf(2, GOOD))
    ensures FindRun(LateAfter().github, DealLookup(LOWER_ID)) == Some(FactsOf(1, GUARD_ONLY))
  {
    hide FindRun, RunTitle, InputsHash, DealKey;
    FoundRuns(DealLookup(LOWER_ID), HEAD_SHA, SHA, GOOD);
  }

  /**
   A run in which one deal item is reported twice, first as passed and then, an older run having finished late,
   as failed.
   */
  lemma LateFinishFlipsTheReport() returns (e: Sent, f: Sent)
    ensures IsRun(CONFIG, LateStates(), [OnCollect(LateBefore()), WorldMoves, OnCollect(LateAfter())])
    ensures e in LateStates()[1].sent && f in LateStates()[3].sent && LateStates()[1].sent <= LateStates()[3].sent
    ensures SameDeal(e, f) && e.item == f.item && e.report.pass && !f.report.pass
  {
    hide IsRun, LateStates, LateBefore, LateAfter, DeliveredAsAgreed, EvidenceHash, BuildEvidence, Replay, FactsOf,
      HubBefore, HubAfter;
    LateRun();
    LateSent();
    OnePassesOneFails();
    e := SentFor(LateBefore(), LOWER_ID, FactsOf(2, GOOD), HubBefore());
    f := SentFor(LateAfter(), LOWER_ID, FactsOf(1, GUARD_ONLY), HubAfter());
  }

  // ---- Two spellings of one deal ----

  function KeyOf(dealId: Text): Text { DealKey(dealId, 1) }

  function SpellingWorld(): World {
    WorldOf(DealChain(), [DealItemOf(LOWER_ID), DealItemOf(UPPER_ID)], TwoRuns(KeyOf(LOWER_ID), KeyOf(UPPER_ID)), map[])
  }

  function SpellingStates(): seq<System> {
    var s := System(DealChain(), TwoRunsHub(KeyOf(LOWER_ID), KeyOf(UPPER_ID)), []);
    [s, After(CONFIG, s, SpellingWorld())]
  }

  lemma KeysDiffer()
    ensures OneWordKey(KeyOf(LOWER_ID)) && OneWordKey(KeyOf(UPPER_ID)) && KeyOf(LOWER_ID) != KeyOf(UPPER_ID)
  {
    hide DealKey;
    IdsAreOneDeal();
    DealKeyBinds(LOWER_ID, 1, UPPER_ID, 1);
    DealKeyBinds(UPPER_ID, 1, LOWER_ID, 1);
  }

  lemma SpellingFound()
    ensures FindRun(SpellingWorld().github, DealLookup(LOWER_ID)) == Some(FactsOf(1, GOOD))
    ensures FindRun(SpellingWorld().github, DealLookup(UPPER_ID)) == Some(FactsOf(2, GUARD_ONLY))
    ensures Shows(TwoRunsHub(KeyOf(LOWER_ID), KeyOf(UPPER_ID)), SpellingWorld().github)
  {
    hide FindRun, TwoRuns, TwoRunsHub, Shows, InputsHash, DealKey, OneWordKey;
    KeysDiffer();
    FoundTwo(KeyOf(LOWER_ID), KeyOf(UPPER_ID));
  }

  lemma SpellingSent(hub: Hub)
    requires hub == TwoRunsHub(KeyOf(LOWER_ID), KeyOf(UPPER_ID))
    ensures SentFor(SpellingWorld(), LOWER_ID, FactsOf(1, GOOD), hub) in SpellingStates()[1].sent
    ensures SentFor(SpellingWorld(), UPPER_ID, FactsOf(2, GUARD_ONLY), hub) in SpellingStates()[1].sent
  {
    hide FindRun, SentFor, Confirmed, CheckLookup, TwoRuns, TwoRunsHub, SentBy, DealItemOf, EndsExecution, KeyOf, Shows;
    OnePassesOneFails();
    SpellingFound();
    var items := [DealItemOf(LOWER_ID), DealItemOf(UPPER_ID)];
    DealIsSent(SpellingWorld(), items, 0, LOWER_ID, FactsOf(1, GOOD), hub);
    DealIsSent(SpellingWorld(), items, 1, UPPER_ID, FactsOf(2, GUARD_ONLY), hub);
  }

  /** A run in which one deal, served under two spellings of its id, is reported as passed and as failed. */
  lemma TwoSpellingsDisagree() returns (e: Sent, f: Sent)
    ensures IsRun(CONFIG, SpellingStates(), [OnCollect(SpellingWorld())])
    ensures e in SpellingStates()[1].sent && f in SpellingStates()[1].sent && e.report.CheckReport?
      && f.report.CheckReport?
    ensures Ref(e.report.family, e.report.dealId) == Ref(f.report.family, f.report.dealId)
      && e.report.revision == f.report.revision
    ensures e.item.kind == f.item.kind == DealItem && e.report.pass && !f.report.pass
  {
    hide IsRun, DeliveredAsAgreed, EvidenceHash, BuildEvidence, Replay, FactsOf, Shows, TwoRuns, TwoRunsHub, KeyOf,
      SentBy;
    var hub := TwoRunsHub(KeyOf(LOWER_ID), KeyOf(UPPER_ID));
    SpellingFound();
    OneExecution(CONFIG, DealChain(), hub, SpellingWorld());
    SpellingSent(hub);
    OnePassesOneFails();
    IdsAreOneDeal();
    e, f := SentFor(SpellingWorld(), LOWER_ID, FactsOf(1, GOOD), hub),
      SentFor(SpellingWorld(), UPPER_ID, FactsOf(2, GUARD_ONLY), hub);
  }

  // ---- A collector that misses the run that was dispatched ----

  function MissedArgs(): DispatchArgs { ArgsFor(POLICY, PolicyFingerprint(POLICY), SHA, KeyOf(LOWER_ID)) }

  function MissedLog(): Delivered { Delivered(FAMILY, LOWER_ID, 1, ProofFingerprint(REFERENCE), BLOCK, 5) }

  /** The dispatched run has completed and passed; the index gives the deal back in upper case. */
  function MissedWorld(): World {
    WorldOf(DealChain(), [DealItemOf(UPPER_ID)],
            GitHub([DoneRun(1, KeyOf(LOWER_ID))], map[1 := GOOD], map[(RUNNER, HEAD_SHA) := SHA]),
            map[PolicyFingerprint(POLICY) := PolicyDoc(POLICY), ProofFingerprint(REFERENCE) := ReferenceDoc(REFERENCE)])
  }

  lemma MissedIsDispatched()
    ensures StartDispatches(CONFIG, MissedWorld(), MissedLog(), MissedArgs())
  {
    hide Agreed, ReferenceSchema, PolicyFingerprint, ProofFingerprint, SameRepository, InputsHash, RunTitle, Lower;
    DocumentsAreAgreed();
    IdsAreOneDeal();
    PolicyIsNoReference(POLICY, REFERENCE);
    assert Configured(CONFIG, VERIFIER) by { assert CONFIG.verifiers[0] == VERIFIER; }
    assert Replayable(CONFIG, MissedWorld(), MissedLog(), POLICY, REFERENCE);
    hide IsAddress, IsHex32, Configured;
    ReplayableIsDispatched(CONFIG, MissedWorld(), MissedLog(), MissedArgs(), POLICY, REFERENCE);
  }

  lemma HasMember<T>(s: seq<T>)
    requires s != []
    ensures exists x :: x in s
  {
    assert s[0] in s;
  }

  lemma NothingFound(g: GitHub, l: Lookup)
    requires forall x | x in g.runs :: x.title != RunTitle(l)
    ensures FindRun(g, l) == None
  {
    hide RunTitle;
    var titled := Titled(g.runs, RunTitle(l));
    if titled != [] { HasMember(titled); }
  }

  /**
   One delivery whose replay was dispatched, completed and passed, and a collection that looks up another
   title and waits, because the index spelled the deal id in another letter case.
   */
  lemma OtherLetterCaseMissesTheRun() returns (l: Lookup)
    ensures StartDispatches(CONFIG, MissedWorld(), MissedLog(), MissedArgs())
    ensures var a := MissedArgs(); var l := Lookup(a.runner, a.dealKey, a.sha, a.inputsHash);
      FindRun(MissedWorld().github, l) == Some(FactsOf(1, GOOD))
    ensures Confirmed(POLICY, FactsOf(1, GOOD)) && DeliveredAsAgreed(POLICY, REFERENCE, FactsOf(1, GOOD))
    ensures Ref(DealItemOf(UPPER_ID).family, DealItemOf(UPPER_ID).dealId) == Ref(MissedLog().family, MissedLog().dealId)
    ensures Collect(CONFIG, MissedWorld(), DealItemOf(UPPER_ID), 0) == Collected(Some(Waiting), None, [LookedUp(l)])
    ensures l.dealKey == KeyOf(UPPER_ID) != MissedArgs().dealKey
  {
    MissedIsDispatched();
    OnePassesOneFails();
    IdsAreOneDeal();
    KeysDiffer();
    l := DealLookup(UPPER_ID);
    MissedRuns();
    GenuineDeal(UPPER_ID, MissedWorld());
    MissedWaits(l);
  }

  lemma MissedRuns()
    ensures FindRun(MissedWorld().github, LookupOf(KeyOf(LOWER_ID))) == Some(FactsOf(1, GOOD))
    ensures FindRun(MissedWorld().github, DealLookup(UPPER_ID)) == None
  {
    hide FindRun, RunTitle, InputsHash, DealKey, OneWordKey, PolicyFingerprint, ProofFingerprint, DealChain, DealItemOf;
    KeysDiffer();
    TitlesDiffer(KeyOf(LOWER_ID), KeyOf(UPPER_ID));
    var g := MissedWorld().github;
    assert g.runs == [DoneRun(1, KeyOf(LOWER_ID))];
    FindOnly(g, LookupOf(KeyOf(LOWER_ID)), DoneRun(1, KeyOf(LOWER_ID)));
    NothingFound(g, LookupOf(KeyOf(UPPER_ID)));
  }

  lemma MissedWaits(l: Lookup)
    requires l == DealLookup(UPPER_ID) && FindRun(MissedWorld().github, l) == None
    requires Genuine(CONFIG, MissedWorld(), DealItemOf(UPPER_ID), POLICY, REFERENCE)
    ensures Collect(CONFIG, MissedWorld(), DealItemOf(UPPER_ID), 0) == Collected(Some(Waiting), None, [LookedUp(l)])
  {
    hide FindRun, Genuine, Admit, CheckLookup, LookupFor, MissedWorld;
    AdmittedIffGenuine(CONFIG, MissedWorld(), DealItemOf(UPPER_ID), POLICY, REFERENCE);
    AdmittedDeal(CONFIG, MissedWorld(), DealItemOf(UPPER_ID));
  }

  // ---- An item that throws ----

  /** A deal item whose family is no address: no chain read of it can be encoded. */
  const NO_FAMILY := PendingItem(DealItem, [], [], LOWER_ID, 1, Some(BLOCK), Some(5), OtherDoc, OtherDoc)

  function HiddenWorld(): World {
    WorldOf(DealChain(), [NO_FAMILY, DealItemOf(LOWER_ID)], MissedWorld().github, map[])
  }

  /**
   A page of two items: the second is genuine and its run passed, and on its own it is reported; behind one
   without a family it is not.
   */
  lemma OneBadItemHidesAGenuineOne(hub: Hub)
    ensures Genuine(CONFIG, HiddenWorld(), DealItemOf(LOWER_ID), POLICY, REFERENCE)
    ensures EndsExecution(CONFIG, HiddenWorld(), NO_FAMILY)
    ensures SentFor(HiddenWorld(), LOWER_ID, FactsOf(1, GOOD), hub)
      in SentBy(CONFIG, HiddenWorld(), [DealItemOf(LOWER_ID)], 0, hub)
    ensures SentBy(CONFIG, HiddenWorld(), PageOf(CONFIG, HiddenWorld()), 0, hub) == []
  {
    var w := HiddenWorld();
    assert !IsAddress([]);
    assert EndsExecution(CONFIG, w, NO_FAMILY);
    hide EndsExecution, SentBy, FindRun, Confirmed, DeliveredAsAgreed, SentFor, Genuine, MissedWorld, CheckLookup,
      DealItemOf, FactsOf;
    GenuineDeal(LOWER_ID, w);
    MissedRuns();
    DealLooksUp();
    OnePassesOneFails();
    DealIsSent(w, [DealItemOf(LOWER_ID)], 0, LOWER_ID, FactsOf(1, GOOD), hub);
    assert PageOf(CONFIG, w) == w.page && w.page[..0] == [];
    ThrowingItemEndsTheExecution(CONFIG, w, w.page, 0, 0, hub);
    NothingSent(CONFIG, w, hub);
  }

  lemma DealLooksUp()
    ensures DealLookup(LOWER_ID) == LookupOf(KeyOf(LOWER_ID))
  {
  }

  lemma NothingSent(cfg: Config, w: World, hub: Hub)
    ensures SentBy(cfg, w, [], 0, hub) == []
  {
  }
}
