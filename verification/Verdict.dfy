/** The fixed rule that decides a delivery, the inputs a replay is bound to, and the evidence record. */
module Verdict {
  import opened Texts
  import opened Lists
  import opened Sorting
  import opened Canonical
  import opened CanonicalProofs
  import opened Documents

  datatype Status = Queued | InProgress | Completed

  datatype Job = Job(name: Text, conclusion: Option<Text>)

  datatype RunFacts = RunFacts(
    runId: int, status: Status, createdAt: int, headSha: Text, runnerBlobSha: Text, inputsSha: Text, jobs: seq<Job>)

  datatype Decision = Pass | Fail | Unavailable

  datatype Reason =
    | RunMissing | RunTimedOut | RunPending | RunnerNotPinned | RunInputsUnconfirmed
    | RepositoryMismatch | ShaMismatch | ItemFailed | AllRequiredPassed

  datatype ItemResult = ItemResult(id: Text, passed: bool)

  datatype ReplayVerdict = ReplayVerdict(decision: Decision, reason: Reason, items: seq<ItemResult>, passed: nat,
    required: nat)

  predicate SameRepository(a: Repository, b: Repository) {
    a.id == b.id && Lower(a.owner) == Lower(b.owner) && Lower(a.name) == Lower(b.name)
  }

  /** Lookup in a Map built from the jobs: the last job of a name wins. */
  function Conclusion(jobs: seq<Job>, name: Text): Option<Text> {
    if jobs == [] then None
    else if jobs[|jobs| - 1].name == name then jobs[|jobs| - 1].conclusion
    else Conclusion(jobs[..|jobs| - 1], name)
  }

  predicate Succeeded(jobs: seq<Job>, name: Text) { Conclusion(jobs, name) == Some(Ascii("success")) }

  function ItemJob(id: Text): Text { Ascii("item:") + id }

  predicate IdBefore(a: Item, b: Item) { Less(a.id, b.id) }

  function ItemResults(sorted: seq<Item>, jobs: seq<Job>): (r: seq<ItemResult>)
    ensures |r| == |sorted|
  {
    seq(|sorted|, i requires 0 <= i < |sorted| => ItemResult(sorted[i].id, Succeeded(jobs, ItemJob(sorted[i].id))))
  }

  function PassedCount(items: seq<Item>, jobs: seq<Job>): nat {
    if items == [] then 0
    else (if items[0].required && Succeeded(jobs, ItemJob(items[0].id)) then 1 else 0) + PassedCount(items[1..], jobs)
  }

  /** The chain of returns: the decision and its reason. */
  function Decide(policy: Policy, reference: Reference, run: Option<RunFacts>, now: int, passed: nat,
      required: nat): (Decision, Reason) {
    if run.None? then (Unavailable, RunMissing)
    else if run.value.status != Completed then
      (Unavailable, if now > run.value.createdAt + policy.timeoutMinutes * 60 then RunTimedOut else RunPending)
    else if run.value.runnerBlobSha != policy.runner.blobSha then (Unavailable, RunnerNotPinned)
    else if !Succeeded(run.value.jobs, Ascii("guard")) then (Unavailable, RunInputsUnconfirmed)
    else if !SameRepository(reference.repository, policy.repository) then (Fail, RepositoryMismatch)
    else if run.value.inputsSha != reference.sha then (Fail, ShaMismatch)
    else if passed < required then (Fail, ItemFailed)
    else (Pass, AllRequiredPassed)
  }

  function Replay(policy: Policy, reference: Reference, run: Option<RunFacts>, now: int): ReplayVerdict {
    var jobs := if run.Some? then run.value.jobs else [];
    var required := RequiredCount(policy.items);
    var passed := PassedCount(policy.items, jobs);
    var (decision, reason) := Decide(policy, reference, run, now, passed, required);
    ReplayVerdict(decision, reason, ItemResults(SortBy(policy.items, IdBefore), jobs), passed, required)
  }

  // ---- The rule in the parties' terms ----

  /** A completed run of the pinned runner whose guard confirmed the agreed inputs. */
  predicate Confirmed(policy: Policy, run: RunFacts) {
    run.status == Completed && run.runnerBlobSha == policy.runner.blobSha && Succeeded(run.jobs, Ascii("guard"))
  }

  predicate EveryRequiredSucceeded(policy: Policy, run: RunFacts) {
    forall i | 0 <= i < |policy.items| && policy.items[i].required :: Succeeded(run.jobs, ItemJob(policy.items[i].id))
  }

  predicate DeliveredAsAgreed(policy: Policy, reference: Reference, run: RunFacts) {
    SameRepository(reference.repository, policy.repository) && run.inputsSha == reference.sha
      && EveryRequiredSucceeded(policy, run)
  }

  lemma {:induction false} CountsMeetWhenAllSucceed(items: seq<Item>, jobs: seq<Job>)
    ensures PassedCount(items, jobs) <= RequiredCount(items)
    ensures PassedCount(items, jobs) == RequiredCount(items)
      <==> forall i | 0 <= i < |items| && items[i].required :: Succeeded(jobs, ItemJob(items[i].id))
  {
    if items != [] { CountsMeetWhenAllSucceed(items[1..], jobs); }
  }

  /** No judgement: what decides PASS, what decides FAIL, and that no confirmed run means no result. */
  lemma VerdictIsTheRule(policy: Policy, reference: Reference, run: Option<RunFacts>, now: int)
    ensures var d := Replay(policy, reference, run, now).decision;
      && (d == Pass <==> run.Some? && Confirmed(policy, run.value) && DeliveredAsAgreed(policy, reference, run.value))
      && (d == Fail <==> run.Some? && Confirmed(policy, run.value) && !DeliveredAsAgreed(policy, reference, run.value))
      && (d == Unavailable <==> run.None? || !Confirmed(policy, run.value))
    ensures Agreed(policy) && Replay(policy, reference, run, now).decision == Pass ==>
      exists i | 0 <= i < |policy.items| :: policy.items[i].required
        && Succeeded(run.value.jobs, ItemJob(policy.items[i].id))
  {
    if run.Some? { CountsMeetWhenAllSucceed(policy.items, run.value.jobs); }
  }

  /** Each reason is given exactly in its own case, so a result is waited for only before the timeout. */
  lemma ReasonTellsWhy(policy: Policy, reference: Reference, run: Option<RunFacts>, now: int)
    ensures var reason := Replay(policy, reference, run, now).reason;
      var late := run.Some? && now > run.value.createdAt + policy.timeoutMinutes * 60;
      var done := run.Some? && run.value.status == Completed;
      var confirmed := run.Some? && Confirmed(policy, run.value);
      var same := SameRepository(reference.repository, policy.repository);
      && (reason == RunMissing <==> run.None?)
      && (reason == RunTimedOut <==> run.Some? && run.value.status != Completed && late)
      && (reason == RunPending <==> run.Some? && run.value.status != Completed && !late)
      && (reason == RunnerNotPinned <==> done && run.value.runnerBlobSha != policy.runner.blobSha)
      && (reason == RunInputsUnconfirmed <==> done && run.value.runnerBlobSha == policy.runner.blobSha && !confirmed)
      && (reason == RepositoryMismatch <==> confirmed && !same)
      && (reason == ShaMismatch <==> confirmed && same && run.value.inputsSha != reference.sha)
      && (reason == ItemFailed <==>
            confirmed && same && run.value.inputsSha == reference.sha && !EveryRequiredSucceeded(policy, run.value))
      && (reason == AllRequiredPassed <==> confirmed && DeliveredAsAgreed(policy, reference, run.value))
  {
    hide SameRepository, Succeeded, PassedCount;
    if run.Some? { CountsMeetWhenAllSucceed(policy.items, run.value.jobs); }
  }

  // ---- What the record counts ----

  /** A run's job of a name concludes what the last job listed under that name does. */
  lemma {:induction false} LastJobWins(jobs: seq<Job>, name: Text, i: nat)
    requires i < |jobs| && jobs[i].name == name && forall j | i < j < |jobs| :: jobs[j].name != name
    ensures Conclusion(jobs, name) == jobs[i].conclusion
  {
    if i < |jobs| - 1 { LastJobWins(jobs[..|jobs| - 1], name, i); }
  }

  /** A required item whose job's last listed conclusion is a success. */
  predicate HasPassed(i: Item, jobs: seq<Job>) {
    i.required && Conclusion(jobs, Ascii("item:") + i.id) == Some(Ascii("success"))
  }

  function PassedItems(items: seq<Item>, jobs: seq<Job>): seq<Item> { Filter(items, (i: Item) => HasPassed(i, jobs)) }

  function RequiredItems(items: seq<Item>): seq<Item> { Filter(items, (i: Item) => i.required) }

  lemma {:induction false} CountsAre(items: seq<Item>, jobs: seq<Job>)
    ensures RequiredCount(items) == |RequiredItems(items)| && PassedCount(items, jobs) == |PassedItems(items, jobs)|
  {
    if items != [] {
      var i, rest := items[0], items[1..];
      CountsAre(rest, jobs);
      assert items == [i] + rest;
      assert HasPassed(i, jobs) <==> i.required && Succeeded(jobs, ItemJob(i.id));
      hide Succeeded, HasPassed, Filter;
      FilterConcat([i], rest, (x: Item) => x.required);
      FilterOne(i, (x: Item) => x.required);
      FilterConcat([i], rest, (x: Item) => HasPassed(x, jobs));
      FilterOne(i, (x: Item) => HasPassed(x, jobs));
    }
  }

  /** The record counts the required items, and those of them whose job succeeded. */
  lemma RecordCounts(p: Policy, r: Reference, run: Option<RunFacts>, now: int)
    ensures var v := Replay(p, r, run, now); var jobs := if run.Some? then run.value.jobs else [];
      v.required == |RequiredItems(p.items)| && v.passed == |PassedItems(p.items, jobs)|
  {
    hide Decide, ItemResults, PassedItems, RequiredItems, PassedCount, RequiredCount;
    CountsAre(p.items, if run.Some? then run.value.jobs else []);
  }

  // ---- Neither the order of items nor of jobs matters ----

  predicate DistinctNames(jobs: seq<Job>) {
    forall i, j | 0 <= i < j < |jobs| :: jobs[i].name != jobs[j].name
  }

  lemma {:induction false} ConclusionOfDistinct(jobs: seq<Job>, i: nat)
    requires DistinctNames(jobs) && i < |jobs|
    ensures Conclusion(jobs, jobs[i].name) == jobs[i].conclusion
  {
    if i < |jobs| - 1 { ConclusionOfDistinct(jobs[..|jobs| - 1], i); }
  }

  lemma {:induction false} ConclusionOfNone(jobs: seq<Job>, name: Text)
    requires forall i | 0 <= i < |jobs| :: jobs[i].name != name
    ensures Conclusion(jobs, name) == None
  {
    if jobs != [] { ConclusionOfNone(jobs[..|jobs| - 1], name); }
  }

  lemma JobOrderIsIrrelevant(a: seq<Job>, b: seq<Job>, name: Text)
    requires DistinctNames(a) && DistinctNames(b) && multiset(a) == multiset(b)
    ensures Conclusion(a, name) == Conclusion(b, name)
  {
    if i :| 0 <= i < |a| && a[i].name == name {
      assert a[i] in multiset(b);
      var j :| 0 <= j < |b| && b[j] == a[i];
      ConclusionOfDistinct(a, i);
      ConclusionOfDistinct(b, j);
    } else {
      forall j | 0 <= j < |b| ensures b[j].name != name {
        assert b[j] in multiset(a);
      }
      ConclusionOfNone(a, name);
      ConclusionOfNone(b, name);
    }
  }

  lemma {:induction false} CountsAppend(a: seq<Item>, b: seq<Item>, jobs: seq<Job>)
    ensures RequiredCount(a + b) == RequiredCount(a) + RequiredCount(b)
    ensures PassedCount(a + b, jobs) == PassedCount(a, jobs) + PassedCount(b, jobs)
  {
    if a == [] {
      assert a + b == b;
    } else {
      assert (a + b)[1..] == a[1..] + b;
      CountsAppend(a[1..], b, jobs);
    }
  }

  lemma {:induction false} CountsIgnoreOrder(a: seq<Item>, b: seq<Item>, jobs: seq<Job>)
    requires multiset(a) == multiset(b)
    ensures RequiredCount(a) == RequiredCount(b) && PassedCount(a, jobs) == PassedCount(b, jobs)
  {
    if a == [] {
      assert |multiset(b)| == 0;
    } else {
      assert a[0] in multiset(b);
      var j :| 0 <= j < |b| && b[j] == a[0];
      var x, y := b[..j], b[j + 1..];
      SplitOff(b, j);
      MultisetTail(a);
      CountsIgnoreOrder(a[1..], x + y, jobs);
      CountsAppend(x, y, jobs);
      CountsAppend(x, [b[j]] + y, jobs);
      assert ([b[j]] + y)[1..] == y;
    }
  }

  lemma SplitOff<T>(s: seq<T>, j: nat)
    requires j < |s|
    ensures s == s[..j] + ([s[j]] + s[j + 1..])
    ensures multiset(s[..j] + s[j + 1..]) == multiset(s) - multiset{s[j]}
  {
    assert s == s[..j] + ([s[j]] + s[j + 1..]);
    assert multiset(s) == multiset(s[..j]) + multiset{s[j]} + multiset(s[j + 1..]);
  }

  lemma ItemOrderIsIrrelevant(a: seq<Item>, b: seq<Item>)
    requires DistinctIds(a) && multiset(a) == multiset(b)
    ensures SortBy(a, IdBefore) == SortBy(b, IdBefore)
  {
    LessIsStrictWeak((i: Item) => i.id, IdBefore);
    forall x, y | x in a && y in a ensures x == y || IdBefore(x, y) || IdBefore(y, x) {
      LessTotal(x.id, y.id);
    }
    SortIgnoresOrder(a, b, IdBefore);
  }

  /** The outcomes shown are the items' own, each item's once, in ascending order of id. */
  lemma OutcomesAreTheItems(p: Policy, reference: Reference, run: Option<RunFacts>, now: int)
    requires DistinctIds(p.items)
    ensures var r := Replay(p, reference, run, now).items; var jobs := if run.Some? then run.value.jobs else [];
      && |r| == |p.items|
      && (forall i, j | 0 <= i < j < |r| :: Less(r[i].id, r[j].id))
      && (forall k | 0 <= k < |p.items| :: ItemResult(p.items[k].id, Succeeded(jobs, ItemJob(p.items[k].id))) in r)
  {
    hide PassedCount, RequiredCount, Succeeded, ItemJob, Less;
    var jobs := if run.Some? then run.value.jobs else [];
    var sorted := SortBy(p.items, IdBefore);
    var r := ItemResults(sorted, jobs);
    SortedById(p.items);
    SortKeepsElements(p.items, IdBefore);
    forall k | 0 <= k < |p.items| ensures ItemResult(p.items[k].id, Succeeded(jobs, ItemJob(p.items[k].id))) in r {
      assert p.items[k] in sorted;
      var m :| 0 <= m < |sorted| && sorted[m] == p.items[k];
      assert r[m] == ItemResult(p.items[k].id, Succeeded(jobs, ItemJob(p.items[k].id)));
    }
  }

  predicate AscendingIds(s: seq<Item>) { forall i, j | 0 <= i < j < |s| :: Less(s[i].id, s[j].id) }

  lemma SortedById(items: seq<Item>)
    requires DistinctIds(items)
    ensures AscendingIds(SortBy(items, IdBefore))
  {
    LessIsStrictWeak((i: Item) => i.id, IdBefore);
    forall i, j | 0 <= i < j < |items| ensures IdBefore(items[i], items[j]) || IdBefore(items[j], items[i]) {
      LessTotal(items[i].id, items[j].id);
    }
    SortStrict(items, IdBefore);
    var s := SortBy(items, IdBefore);
    forall i, j | 0 <= i < j < |s| ensures Less(s[i].id, s[j].id) { assert IdBefore(s[i], s[j]); }
  }

  /** Two readings of one run: the same but for the order its jobs are listed in. */
  predicate SameRun(a: RunFacts, b: RunFacts) {
    b == a.(jobs := b.jobs) && DistinctNames(a.jobs) && DistinctNames(b.jobs) && multiset(a.jobs) == multiset(b.jobs)
  }

  lemma VerdictIgnoresJobOrder(p: Policy, reference: Reference, run: RunFacts, again: RunFacts, now: int, later: int)
    requires SameRun(run, again)
    requires now == later || run.status == Completed
    ensures Replay(p, reference, Some(again), later) == Replay(p, reference, Some(run), now)
  {
    hide Conclusion, RequiredCount, PassedCount, ItemJob, SameRepository;
    forall name ensures Conclusion(run.jobs, name) == Conclusion(again.jobs, name) {
      JobOrderIsIrrelevant(run.jobs, again.jobs, name);
    }
    SameConclusionsSameCount(p.items, run.jobs, again.jobs);
    var sorted := SortBy(p.items, IdBefore);
    assert ItemResults(sorted, run.jobs) == ItemResults(sorted, again.jobs);
  }

  lemma VerdictIgnoresItemOrder(p: Policy, items: seq<Item>, reference: Reference, run: Option<RunFacts>, now: int)
    requires DistinctIds(p.items) && multiset(items) == multiset(p.items)
    ensures Replay(p.(items := items), reference, run, now) == Replay(p, reference, run, now)
  {
    hide ItemResults, IdBefore, PassedCount, RequiredCount, SortBy, Succeeded, SameRepository, DistinctIds;
    ItemOrderIsIrrelevant(p.items, items);
    CountsIgnoreOrder(p.items, items, if run.Some? then run.value.jobs else []);
  }

  /**
   The verdict is a function of the item set and of what each job concluded, and once the run has
   completed not of the clock.
   */
  lemma VerdictIgnoresOrder(p: Policy, items: seq<Item>, reference: Reference, run: RunFacts, again: RunFacts,
      now: int, later: int)
    requires DistinctIds(p.items) && multiset(items) == multiset(p.items)
    requires SameRun(run, again)
    requires now == later || run.status == Completed
    ensures Replay(p.(items := items), reference, Some(again), later) == Replay(p, reference, Some(run), now)
  {
    VerdictIgnoresItemOrder(p, items, reference, Some(again), later);
    VerdictIgnoresJobOrder(p, reference, run, again, now, later);
  }

  lemma {:induction false} SameConclusionsSameCount(items: seq<Item>, a: seq<Job>, b: seq<Job>)
    requires forall name :: Conclusion(a, name) == Conclusion(b, name)
    ensures PassedCount(items, a) == PassedCount(items, b)
  {
    if items != [] { SameConclusionsSameCount(items[1..], a, b); }
  }

  // ---- The inputs a replay is bound to ----

  function RepoName(p: Policy): Text { p.repository.owner + [SLASH] + p.repository.name }

  function SetupText(p: Policy): Text { if p.setup.Some? then p.setup.value else [] }

  function ItemsText(p: Policy): Text {
    ItemsSound(p.items);
    CanonicalText(ItemsJson(p.items))
  }

  /** The five lines the runner's guard job re-derives the hash from. */
  function InputsText(p: Policy, policyHash: Digest, sha: Text): Text {
    Join([RepoName(p), sha, HexText(policyHash), ItemsText(p), SetupText(p)], NEWLINE)
  }

  /** sha256 of the inputs, as hex without the 0x. */
  function InputsHash(p: Policy, policyHash: Digest, sha: Text): (h: Text)
    ensures Lacks(h, SPACE)
  {
    Spell(InputsText(p, policyHash, sha))
  }

  lemma OneLineInputs(p: Policy, policyHash: Digest, sha: Text)
    requires PolicySchema(p) && IsHex40(sha)
    ensures Split(InputsText(p, policyHash, sha), NEWLINE)
      == [RepoName(p), sha, HexText(policyHash), ItemsText(p), SetupText(p)]
  {
    ItemsSound(p.items);
    PrintsIffPrintable(ItemsJson(p.items));
    CanonicalTextIsClean(ItemsJson(p.items));
    assert Lacks(RepoName(p), NEWLINE) && Lacks(sha, NEWLINE) && Lacks(HexText(policyHash), NEWLINE);
    assert Lacks(ItemsText(p), NEWLINE) && Lacks(SetupText(p), NEWLINE);
    SplitJoin([RepoName(p), sha, HexText(policyHash), ItemsText(p), SetupText(p)], NEWLINE);
  }

  lemma RepoNameSplits(p: Policy)
    requires PolicySchema(p)
    ensures Split(RepoName(p), SLASH) == [p.repository.owner, p.repository.name]
  {
    SplitAt(p.repository.owner, p.repository.name, SLASH);
    SplitUnits(p.repository.name, SLASH);
  }

  /** One inputs hash, one set of inputs: repository, commit, policy hash, items in order and setup. */
  lemma InputsHashBinds(p: Policy, ph: Digest, s: Text, q: Policy, qh: Digest, t: Text)
    requires PolicySchema(p) && IsHex40(s) && PolicySchema(q) && IsHex40(t)
    requires InputsHash(p, ph, s) == InputsHash(q, qh, t)
    ensures p.repository.owner == q.repository.owner && p.repository.name == q.repository.name
    ensures s == t && ph == qh && p.items == q.items && p.setup == q.setup
  {
    SpellInjective(InputsText(p, ph, s), InputsText(q, qh, t));
    OneLineInputs(p, ph, s);
    OneLineInputs(q, qh, t);
    var a := [RepoName(p), s, HexText(ph), ItemsText(p), SetupText(p)];
    var b := [RepoName(q), t, HexText(qh), ItemsText(q), SetupText(q)];
    assert a == b;
    assert a[0] == b[0] && a[1] == b[1] && a[2] == b[2] && a[3] == b[3] && a[4] == b[4];
    RepoNameSplits(p);
    RepoNameSplits(q);
    assert [p.repository.owner, p.repository.name][1] == [q.repository.owner, q.repository.name][1];
    assert [p.repository.owner, p.repository.name][0] == [q.repository.owner, q.repository.name][0];
    HexTextInjective(ph, qh);
    ItemsTextBinds(p, q);
  }

  lemma ItemsTextBinds(p: Policy, q: Policy)
    requires ItemsText(p) == ItemsText(q)
    ensures p.items == q.items
  {
    ItemsSound(p.items);
    ItemsSound(q.items);
    FingerprintBinds(ItemsJson(p.items), ItemsJson(q.items));
    ItemsBind(p.items, q.items);
  }

  // ---- The evidence record ----

  const EVIDENCE_VERSION := Ascii("karwan.replay.evidence.v1")

  datatype RunPins = RunPins(id: int, headSha: Text, runnerBlobSha: Text)

  datatype Evidence = Evidence(
    policyHash: Digest, referenceHash: Digest, run: RunPins, items: seq<ItemResult>,
    passed: nat, required: nat, decision: Decision, reason: Reason)

  function BuildEvidence(policy: Policy, reference: Reference, run: RunFacts, v: ReplayVerdict): Evidence {
    Evidence(PolicyFingerprint(policy), ProofFingerprint(reference),
             RunPins(run.runId, run.headSha, run.runnerBlobSha), v.items, v.passed, v.required, v.decision, v.reason)
  }

  function DecisionText(d: Decision): Text {
    match d
    case Pass => Ascii("PASS")
    case Fail => Ascii("FAIL")
    case Unavailable => Ascii("UNAVAILABLE")
  }

  function ReasonText(r: Reason): Text {
    match r
    case RunMissing => Ascii("RUN_MISSING")
    case RunTimedOut => Ascii("RUN_TIMED_OUT")
    case RunPending => Ascii("RUN_PENDING")
    case RunnerNotPinned => Ascii("RUNNER_NOT_PINNED")
    case RunInputsUnconfirmed => Ascii("RUN_INPUTS_UNCONFIRMED")
    case RepositoryMismatch => Ascii("REPOSITORY_MISMATCH")
    case ShaMismatch => Ascii("SHA_MISMATCH")
    case ItemFailed => Ascii("ITEM_FAILED")
    case AllRequiredPassed => Ascii("ALL_REQUIRED_PASSED")
  }

  function PinsMembers(r: RunPins): seq<Member> {
    [M("id", Num(r.id)), M("headSha", Str(r.headSha)), M("runnerBlobSha", Str(r.runnerBlobSha))]
  }

  function ResultMembers(i: ItemResult): seq<Member> { [M("id", Str(i.id)), M("passed", Bool(i.passed))] }

  function ResultsJson(items: seq<ItemResult>): Json {
    Arr(seq(|items|, i requires 0 <= i < |items| => Obj(ResultMembers(items[i]))))
  }

  function EvidenceMembers(e: Evidence): seq<Member> {
    [ M("version", Str(EVIDENCE_VERSION)),
      M("policyHash", Str(HexText(e.policyHash))),
      M("referenceHash", Str(HexText(e.referenceHash))),
      M("run", Obj(PinsMembers(e.run))),
      M("items", ResultsJson(e.items)),
      M("passed", Num(e.passed)),
      M("required", Num(e.required)),
      M("decision", Str(DecisionText(e.decision))),
      M("reason", Str(ReasonText(e.reason))) ]
  }

  lemma PinsSound(r: RunPins)
    ensures Sound(Obj(PinsMembers(r)))
  {
  }

  lemma ResultSound(i: ItemResult)
    ensures Sound(Obj(ResultMembers(i)))
  {
  }

  lemma ResultsSound(items: seq<ItemResult>)
    ensures Sound(ResultsJson(items))
  {
    forall i | 0 <= i < |items| ensures Sound(ResultsJson(items).items[i]) { ResultSound(items[i]); }
  }

  lemma EvidenceKeysDiffer()
    ensures Ascii("passed") != Ascii("reason")
    ensures Ascii("required") != Ascii("decision")
  {
    AsciiDiffer("passed", "reason", 0);
    AsciiDiffer("required", "decision", 0);
  }

  lemma EvidenceSound(e: Evidence)
    ensures Sound(Obj(EvidenceMembers(e)))
  {
    EvidenceKeysDiffer();
    PinsSound(e.run);
    ResultsSound(e.items);
  }

  function EvidenceHash(e: Evidence): Digest {
    EvidenceSound(e);
    Fingerprint(Obj(EvidenceMembers(e)))
  }

  lemma EvidenceFieldsBind(a: Evidence, b: Evidence)
    requires EvidenceHash(a) == EvidenceHash(b)
    ensures SameFields(EvidenceMembers(a), EvidenceMembers(b))
  {
    EvidenceSound(a);
    EvidenceSound(b);
    FingerprintBinds(Obj(EvidenceMembers(a)), Obj(EvidenceMembers(b)));
    MeaningBinds(EvidenceMembers(a), EvidenceMembers(b));
  }

  lemma EvidenceFieldBinds(a: Evidence, b: Evidence, i: nat)
    requires SameFields(EvidenceMembers(a), EvidenceMembers(b)) && i < 9
    ensures Meaning(EvidenceMembers(a)[i].value) == Meaning(EvidenceMembers(b)[i].value)
  {
    assert EvidenceMembers(a)[i].key == EvidenceMembers(b)[i].key;
  }

  lemma PinsBind(a: RunPins, b: RunPins)
    requires Meaning(Obj(PinsMembers(a))) == Meaning(Obj(PinsMembers(b)))
    ensures a == b
  {
    PinsSound(a);
    PinsSound(b);
    var ma, mb := PinsMembers(a), PinsMembers(b);
    MeaningBinds(ma, mb);
    assert ma[0].key == mb[0].key && ma[1].key == mb[1].key && ma[2].key == mb[2].key;
  }

  lemma ResultBinds(a: ItemResult, b: ItemResult)
    requires Meaning(Obj(ResultMembers(a))) == Meaning(Obj(ResultMembers(b)))
    ensures a == b
  {
    ResultSound(a);
    ResultSound(b);
    var ma, mb := ResultMembers(a), ResultMembers(b);
    MeaningBinds(ma, mb);
    assert ma[0].key == mb[0].key && ma[1].key == mb[1].key;
  }

  lemma ResultsBind(a: seq<ItemResult>, b: seq<ItemResult>)
    requires Meaning(ResultsJson(a)) == Meaning(ResultsJson(b))
    ensures a == b
  {
    var va, vb := ResultsJson(a).items, ResultsJson(b).items;
    assert ItemsMeaning(va) == ItemsMeaning(vb);
    forall i | 0 <= i < |a| ensures a[i] == b[i] {
      ItemMeaning(va, i);
      ItemMeaning(vb, i);
      ResultBinds(a[i], b[i]);
    }
  }

  lemma DecisionTextInjective(a: Decision, b: Decision)
    requires DecisionText(a) == DecisionText(b)
    ensures a == b
  {
    AsciiDiffer("PASS", "FAIL", 0);
  }

  lemma ReasonTextInjective(a: Reason, b: Reason)
    requires ReasonText(a) == ReasonText(b)
    ensures a == b
  {
    AsciiDiffer("RUN_MISSING", "RUN_PENDING", 4);
    AsciiDiffer("RUN_MISSING", "ITEM_FAILED", 0);
    AsciiDiffer("RUN_PENDING", "ITEM_FAILED", 0);
    AsciiDiffer("REPOSITORY_MISMATCH", "ALL_REQUIRED_PASSED", 0);
  }

  lemma EvidenceHashesBind(a: Evidence, b: Evidence)
    requires SameFields(EvidenceMembers(a), EvidenceMembers(b))
    ensures a.policyHash == b.policyHash && a.referenceHash == b.referenceHash
    ensures a.passed == b.passed && a.required == b.required
  {
    EvidenceFieldBinds(a, b, 1);
    HexTextInjective(a.policyHash, b.policyHash);
    EvidenceFieldBinds(a, b, 2);
    HexTextInjective(a.referenceHash, b.referenceHash);
    EvidenceFieldBinds(a, b, 5);
    EvidenceFieldBinds(a, b, 6);
  }

  lemma EvidencePartsBind(a: Evidence, b: Evidence)
    requires SameFields(EvidenceMembers(a), EvidenceMembers(b))
    ensures a.run == b.run && a.items == b.items
  {
    EvidenceFieldBinds(a, b, 3);
    PinsBind(a.run, b.run);
    EvidenceFieldBinds(a, b, 4);
    ResultsBind(a.items, b.items);
  }

  lemma EvidenceOutcomeBinds(a: Evidence, b: Evidence)
    requires SameFields(EvidenceMembers(a), EvidenceMembers(b))
    ensures a.decision == b.decision && a.reason == b.reason
  {
    EvidenceFieldBinds(a, b, 7);
    DecisionTextInjective(a.decision, b.decision);
    EvidenceFieldBinds(a, b, 8);
    ReasonTextInjective(a.reason, b.reason);
  }

  /** One evidence hash, one record; and behind it one policy, one reference and the run's pins. */
  lemma EvidenceHashBinds(p: Policy, r: Reference, run: RunFacts, v: ReplayVerdict, p': Policy, r': Reference,
      run': RunFacts, v': ReplayVerdict)
    requires EvidenceHash(BuildEvidence(p, r, run, v)) == EvidenceHash(BuildEvidence(p', r', run', v'))
    ensures p == p' && r == r' && v == v'
    ensures run.runId == run'.runId && run.headSha == run'.headSha && run.runnerBlobSha == run'.runnerBlobSha
  {
    var a, b := BuildEvidence(p, r, run, v), BuildEvidence(p', r', run', v');
    EvidenceFieldsBind(a, b);
    EvidenceHashesBind(a, b);
    EvidencePartsBind(a, b);
    EvidenceOutcomeBinds(a, b);
    PolicyFingerprintBinds(p, p');
    ProofFingerprintBinds(r, r');
  }

  /** Collecting a completed run again, at any time, gives the same pass flag and evidence hash. */
  lemma EvidenceIsStable(p: Policy, r: Reference, run: RunFacts, again: RunFacts, now: int, later: int)
    requires DistinctIds(p.items) && SameRun(run, again) && run.status == Completed
    ensures var v, w := Replay(p, r, Some(run), now), Replay(p, r, Some(again), later);
      v == w && EvidenceHash(BuildEvidence(p, r, run, v)) == EvidenceHash(BuildEvidence(p, r, again, w))
  {
    VerdictIgnoresOrder(p, p.items, r, run, again, now, later);
  }
}
