/**
 The karwan-check rules as functions of one execution's view of the world: what is dispatched for a
 delivery, and what is reported, posted and closed for a finished replay. The index (`docs`, `page`)
 may serve anything; the chain, the fee runs and GitHub are read through the ports.
 */
module CheckRules {
  import opened Texts
  import opened Documents
  import opened Verdict
  import opened Runs

  // ---- Arc ----

  /** A deal as the chain keys it: letter case does not survive ABI encoding. */
  datatype DealRef = DealRef(family: Text, dealId: Text)

  function Ref(family: Text, dealId: Text): DealRef { DealRef(Lower(family), Lower(dealId)) }

  datatype Terms = Terms(verifier: Text, checkPolicy: Digest, partialBps: int)

  datatype Deal = Deal(state: int, revision: nat, checkPassed: bool, checkFailed: bool)

  datatype DeliveredLog = DeliveredLog(revision: int, proofHash: Digest, blockHash: Text, blockNumber: int)

  datatype Chain = Chain(terms: map<DealRef, Terms>, deals: map<DealRef, Deal>, logs: map<DealRef, seq<DeliveredLog>>)

  const AGREEMENT_ACCEPTED := 2
  const FEE_OPEN := 1
  const FEE_RELEASED := 2

  /** None: the read throws, because the id cannot be encoded or the call reverts. */
  function ReadTerms(c: Chain, family: Text, dealId: Text): Option<Terms> {
    var ref := Ref(family, dealId);
    if IsAddress(family) && IsHex32(dealId) && ref in c.terms then Some(c.terms[ref]) else None
  }

  function ReadDeal(c: Chain, family: Text, dealId: Text): Option<Deal> {
    var ref := Ref(family, dealId);
    if IsAddress(family) && IsHex32(dealId) && ref in c.deals then Some(c.deals[ref]) else None
  }

  function LogsOf(c: Chain, family: Text, dealId: Text): seq<DeliveredLog> {
    if Ref(family, dealId) in c.logs then c.logs[Ref(family, dealId)] else []
  }

  predicate IsTheDelivery(log: DeliveredLog, revision: int, blockHash: Text, blockNumber: int) {
    log.blockNumber == blockNumber && Lower(log.blockHash) == Lower(blockHash) && log.revision == revision
  }

  /** The first Delivered log of that block, in the block that was logged, for that revision. */
  function DeliveredProof(logs: seq<DeliveredLog>, revision: int, blockHash: Text, blockNumber: int): Option<Digest> {
    if logs == [] then None
    else if IsTheDelivery(logs[0], revision, blockHash, blockNumber) then Some(logs[0].proofHash)
    else DeliveredProof(logs[1..], revision, blockHash, blockNumber)
  }

  // ---- One execution ----

  /** The index's text in `kind`: 'deal', 'dry', or anything else, since nothing checks it. */
  datatype Kind = DealItem | DryItem | OtherKind

  datatype PendingItem = PendingItem(
    kind: Kind, dealKey: Text, family: Text, dealId: Text, revision: int,
    deliveredBlockHash: Option<Text>, deliveredBlockNumber: Option<int>, policy: Doc, reference: Doc)

  datatype PullHead = PullHead(headSha: Text, baseRef: Text)

  datatype HeldVerdict = HeldVerdict(isSet: bool, pass: bool, evidenceHash: Digest)

  /** What a write returned, and what the latest block shows after it. */
  datatype Answer = Answer(ok: bool, held: HeldVerdict, feeState: int)

  /** `refused` holds the reports whose ABI encoding throws. */
  datatype World = World(
    now: int, chain: Chain, docs: map<Digest, Doc>, page: seq<PendingItem>, github: GitHub,
    pulls: map<(Text, int), PullHead>, runnerBlobs: map<Text, Text>, fees: map<Text, int>,
    dispatchOk: bool, answers: seq<Answer>, refused: set<Report>)

  const NO_ANSWER := Answer(false, HeldVerdict(false, false, Digest([])), FEE_OPEN)

  function AnswerTo(w: World, write: nat): Answer {
    if write < |w.answers| then w.answers[write] else NO_ANSWER
  }

  datatype Config = Config(verifiers: seq<Text>, attest: bool, maxItems: nat, runnerRepo: Text, fees: Text)

  predicate Configured(cfg: Config, verifier: Text) {
    exists i | 0 <= i < |cfg.verifiers| :: Lower(cfg.verifiers[i]) == Lower(verifier)
  }

  datatype Report =
    | CheckReport(verifier: Text, family: Text, dealId: Text, revision: int, pass: bool, evidenceHash: Digest,
      issuedAt: int)
    | DryReport(fees: Text, runId: Text, resultHash: Digest, issuedAt: int)

  datatype DispatchArgs = DispatchArgs(
    runner: Text, targetRepo: Text, sha: Text, dealKey: Text, policyHash: Digest,
    items: seq<Item>, setup: Option<Text>, timeoutMinutes: int, inputsHash: Text)

  datatype Pinned = ByHash(hash: Digest) | ByValue(reference: Reference)

  /** What the index is told of a started replay. */
  datatype StartNote = StartNote(
    kind: Kind, dealKey: Text, family: Text, dealId: Text, revision: int,
    deliveredBlock: Option<(Text, int)>, policyHash: Digest, reference: Pinned)

  datatype Effect =
    | Dispatched(args: DispatchArgs)
    | Started(note: StartNote)
    | LookedUp(lookup: Lookup)
    | Wrote(report: Report)
    | PostedEvidence(
        dealKey: Text, family: Text, dealId: Text, revision: int,
        decision: Decision, reason: Reason, evidence: Option<Evidence>, attested: bool)
    | PostedDryRun(dealKey: Text, dealId: Text, decision: Decision, evidence: Option<Evidence>, released: bool)
    | Closed(dealKey: Text, outcome: Outcome)

  datatype Outcome =
    | Waiting | Stale | AlreadyDecided | NotOurs | PolicyMismatch | ReferenceMismatch
    | Attested | WriteFailed | Shadow | NoResult | DryRun

  function LoadPolicy(raw: Doc, expected: Digest, partialAllowed: bool): Option<Policy> {
    var parsed := ParsePolicy(raw, partialAllowed);
    if parsed.Parsed? && PolicyFingerprint(parsed.policy) == expected then Some(parsed.policy) else None
  }

  function LoadReference(raw: Doc, expected: Digest): Option<Reference> {
    if raw.ReferenceDoc? && ReferenceSchema(raw.reference) && ProofFingerprint(raw.reference) == expected
    then Some(raw.reference) else None
  }

  // ---- Starting a replay ----

  datatype StartOutcome =
    | StartNotOurs | StartStale | PolicyUnavailable | StartPolicyMismatch | ReferenceUnavailable
    | StartReferenceMismatch | StartRunnerNotPinned | DispatchFailed | NotPaid | BadRequest | WasDispatched

  /** A Delivered log as the trigger hands it over. */
  datatype Delivered = Delivered(family: Text, dealId: Text, revision: nat, proofHash: Digest, blockHash: Text,
    blockNumber: int)

  function FetchDoc(w: World, hash: Digest): Option<Doc> { if hash in w.docs then Some(w.docs[hash]) else None }

  function DeliveryProblem(w: World, p: Policy, r: Reference): Option<StartOutcome> {
    if !SameRepository(r.repository, p.repository) then Some(StartReferenceMismatch)
    else if p.delivery != Pull then None
    else if (RepoName(p), r.pull) !in w.pulls then Some(ReferenceUnavailable)
    else
      var head := w.pulls[(RepoName(p), r.pull)];
      if head.headSha == r.sha && head.baseRef == p.baseBranch then None else Some(StartReferenceMismatch)
  }

  predicate RunnerPinned(cfg: Config, w: World, p: Policy) {
    p.runner.repository == cfg.runnerRepo && p.runner.repository in w.runnerBlobs
    && w.runnerBlobs[p.runner.repository] == p.runner.blobSha
  }

  function ArgsFor(p: Policy, policyHash: Digest, sha: Text, dealKey: Text): DispatchArgs {
    DispatchArgs(p.runner.repository, RepoName(p), sha, dealKey, policyHash, p.items, p.setup, p.timeoutMinutes,
                 InputsHash(p, policyHash, sha))
  }

  function Send(w: World, args: DispatchArgs, note: StartNote): (StartOutcome, seq<Effect>) {
    if !w.dispatchOk then (DispatchFailed, [Dispatched(args)]) else (WasDispatched, [Dispatched(args), Started(note)])
  }

  /** None: a chain read threw and the execution ended. */
  function Start(cfg: Config, w: World, log: Delivered): Option<(StartOutcome, seq<Effect>)> {
    var terms := ReadTerms(w.chain, log.family, log.dealId);
    if terms.None? then None
    else if !Configured(cfg, terms.value.verifier) then Some((StartNotOurs, []))
    else
      var deal := ReadDeal(w.chain, log.family, log.dealId);
      if deal.None? then None
      else if deal.value.state != AGREEMENT_ACCEPTED || deal.value.revision != log.revision then Some((StartStale, []))
      else Some(StartAgreed(cfg, w, log, terms.value))
  }

  function StartAgreed(cfg: Config, w: World, log: Delivered, terms: Terms): (StartOutcome, seq<Effect>) {
    var rawPolicy := FetchDoc(w, terms.checkPolicy);
    if rawPolicy.None? then (PolicyUnavailable, [])
    else
      var policy := LoadPolicy(rawPolicy.value, terms.checkPolicy, terms.partialBps > 0);
      if policy.None? then (StartPolicyMismatch, [])
      else
        var rawReference := FetchDoc(w, log.proofHash);
        if rawReference.None? then (ReferenceUnavailable, [])
        else
          var reference := LoadReference(rawReference.value, log.proofHash);
          if reference.None? then (StartReferenceMismatch, [])
          else
            var problem := DeliveryProblem(w, policy.value, reference.value);
            if problem.Some? then (problem.value, [])
            else if !RunnerPinned(cfg, w, policy.value) then (StartRunnerNotPinned, [])
            else
              var dealKey := DealKey(log.dealId, log.revision);
              Send(w, ArgsFor(policy.value, terms.checkPolicy, reference.value.sha, dealKey),
                   StartNote(DealItem, dealKey, log.family, log.dealId, log.revision,
                     Some((log.blockHash, log.blockNumber)),
                             terms.checkPolicy, ByHash(log.proofHash)))
  }

  datatype DryRunRequest = DryRunRequest(runId: Text, family: Text, dealId: Text, branchSha: Text, pull: Option<int>)

  predicate WellFormedRequest(r: DryRunRequest) {
    IsHex32(r.runId) && IsHex40(r.branchSha) && IsHex32(r.dealId) && IsAddress(r.family)
      && (r.pull.Some? ==> r.pull.value > 0)
  }

  function FeeState(w: World, runId: Text): int {
    if Lower(runId) in w.fees then w.fees[Lower(runId)] else 0
  }

  /** What a dry run is said to deliver: the branch, as a pull request that need not exist. */
  function DryReference(p: Policy, req: DryRunRequest): Reference {
    Reference(p.repository, if req.pull.Some? then req.pull.value else 1, req.branchSha)
  }

  function StartDry(cfg: Config, w: World, req: DryRunRequest): Option<(StartOutcome, seq<Effect>)> {
    if !WellFormedRequest(req) then Some((BadRequest, []))
    else
      var terms := ReadTerms(w.chain, req.family, req.dealId);
      if terms.None? then None
      else if !Configured(cfg, terms.value.verifier) then Some((StartNotOurs, []))
      else
        var rawPolicy := FetchDoc(w, terms.value.checkPolicy);
        if rawPolicy.None? then Some((PolicyUnavailable, []))
        else
          var policy := LoadPolicy(rawPolicy.value, terms.value.checkPolicy, terms.value.partialBps > 0);
          if policy.None? then Some((StartPolicyMismatch, []))
          else if !RunnerPinned(cfg, w, policy.value) then Some((StartRunnerNotPinned, []))
          else if FeeState(w, req.runId) != FEE_OPEN then Some((NotPaid, []))
          else
            var dealKey := DryKey(req.runId);
            Some(Send(w, ArgsFor(policy.value, terms.value.checkPolicy, req.branchSha, dealKey),
                      StartNote(DryItem, dealKey, req.family, req.dealId, 0, None, terms.value.checkPolicy,
                                ByValue(DryReference(policy.value, req)))))
  }

  // ---- Collecting a result ----

  datatype Admission = Throws | Stop(outcome: Outcome) | Go(terms: Terms, policy: Policy, reference: Reference,
    dealKey: Text)

  /** Everything that is checked against Arc before GitHub is asked. */
  function Admit(cfg: Config, w: World, item: PendingItem): Admission {
    var terms := ReadTerms(w.chain, item.family, item.dealId);
    if terms.None? then Throws
    else if !Configured(cfg, terms.value.verifier) then Stop(NotOurs)
    else
      var policy := LoadPolicy(item.policy, terms.value.checkPolicy, terms.value.partialBps > 0);
      if policy.None? then Stop(PolicyMismatch)
      else if item.kind == DealItem then AdmitDeal(cfg, w, item, terms.value, policy.value)
      else if !IsDryKey(item.dealKey) || !item.reference.ReferenceDoc?
        || !ReferenceSchema(item.reference.reference) then
        Stop(ReferenceMismatch)
      else AdmitRunner(cfg, Go(terms.value, policy.value, item.reference.reference, item.dealKey))
  }

  function AdmitRunner(cfg: Config, go: Admission): Admission
    requires go.Go?
  {
    if go.policy.runner.repository != cfg.runnerRepo then Stop(PolicyMismatch) else go
  }

  function ItemProof(w: World, item: PendingItem): Option<Digest> {
    if item.deliveredBlockHash.Some? && item.deliveredBlockHash.value != [] && item.deliveredBlockNumber.Some? then
      DeliveredProof(LogsOf(w.chain, item.family, item.dealId), item.revision, item.deliveredBlockHash.value,
        item.deliveredBlockNumber.value)
    else None
  }

  function AdmitDeal(cfg: Config, w: World, item: PendingItem, terms: Terms, policy: Policy): Admission {
    var deal := ReadDeal(w.chain, item.family, item.dealId);
    if deal.None? then Throws
    else if deal.value.state != AGREEMENT_ACCEPTED || deal.value.revision != item.revision then Stop(Stale)
    else if deal.value.checkPassed || deal.value.checkFailed then Stop(AlreadyDecided)
    else
      var proof := ItemProof(w, item);
      var reference := if proof.Some? then LoadReference(item.reference, proof.value) else None;
      if reference.None? || !SameRepository(reference.value.repository, policy.repository) then Stop(ReferenceMismatch)
      else AdmitRunner(cfg, Go(terms, policy, reference.value, DealKey(item.dealId, deal.value.revision)))
  }

  lemma DryItemsHaveDryKeys(cfg: Config, w: World, item: PendingItem)
    ensures item.kind == DryItem && Admit(cfg, w, item).Go? ==> IsDryKey(item.dealKey)
  {
    hide LoadPolicy, IsDryKey, ReferenceSchema, ReadTerms;
  }

  function LookupFor(go: Admission): Lookup
    requires go.Go?
  {
    Lookup(go.policy.runner.repository, go.dealKey, go.reference.sha,
      InputsHash(go.policy, go.terms.checkPolicy, go.reference.sha))
  }

  /** None for the outcome: a read or the encoding of a report threw and the execution ended. */
  datatype Collected = Collected(outcome: Option<Outcome>, decision: Option<Decision>, effects: seq<Effect>)

  function Collect(cfg: Config, w: World, item: PendingItem, writes: nat): Collected {
    var go := Admit(cfg, w, item);
    if go.Throws? then Collected(None, None, [])
    else if go.Stop? then Collected(Some(go.outcome), None, [])
    else
      var run := FindRun(w.github, LookupFor(go));
      var v := Replay(go.policy, go.reference, run, w.now);
      var looked := [LookedUp(LookupFor(go))];
      if v.decision == Unavailable && (v.reason == RunPending || v.reason == RunMissing) then
        Collected(Some(Waiting), None, looked)
      else
        var evidence := if run.Some? then Some(BuildEvidence(go.policy, go.reference, run.value, v)) else None;
        var rest := if item.kind == DryItem then ReportDry(cfg, w, item, v, evidence, writes)
                    else ReportCheck(cfg, w, item, go.terms, v, evidence, writes);
        rest.(effects := looked + rest.effects)
  }

  function ReportDry(cfg: Config, w: World, item: PendingItem, v: ReplayVerdict, evidence: Option<Evidence>,
      writes: nat): Collected {
    if v.decision != Unavailable && evidence.Some? && IsDryKey(item.dealKey) then
      var report := DryReport(cfg.fees, RunIdOf(item.dealKey), EvidenceHash(evidence.value), w.now);
      var released := AnswerTo(w, writes).ok && AnswerTo(w, writes).feeState == FEE_RELEASED;
      Collected(Some(DryRun), Some(v.decision),
        [Wrote(report), PostedDryRun(item.dealKey, item.dealId, v.decision, evidence, released)])
    else
      Collected(Some(DryRun), Some(v.decision), [PostedDryRun(item.dealKey, item.dealId, v.decision, evidence, false)])
  }

  function ReportCheck(cfg: Config, w: World, item: PendingItem, terms: Terms, v: ReplayVerdict,
      evidence: Option<Evidence>,
      writes: nat): Collected {
    var decided := v.decision != Unavailable;
    var posted := PostedEvidence(item.dealKey, item.family, item.dealId, item.revision, v.decision, v.reason,
      evidence, false);
    if decided && cfg.attest && evidence.Some? then
      var hash := EvidenceHash(evidence.value);
      var report := CheckReport(terms.verifier, item.family, item.dealId, item.revision, v.decision == Pass, hash,
        w.now);
      if report in w.refused then Collected(None, None, [])
      else if AnswerTo(w, writes).ok && AnswerTo(w, writes).held == HeldVerdict(true, v.decision == Pass, hash) then
        Collected(Some(Attested), Some(v.decision), [Wrote(report), posted.(attested := true)])
      else Collected(Some(WriteFailed), Some(v.decision), [Wrote(report)])
    else Collected(Some(if decided then Shadow else NoResult), Some(v.decision), [posted])
  }

  function WritesIn(effects: seq<Effect>): nat {
    if effects == [] then 0 else (if effects[0].Wrote? then 1 else 0) + WritesIn(effects[1..])
  }

  /** What an item leaves the index for. */
  predicate Closes(o: Outcome) { o in {Stale, AlreadyDecided, NotOurs, PolicyMismatch, ReferenceMismatch} }

  datatype Result = Result(dealKey: Text, outcome: Outcome, decision: Option<Decision>)

  datatype Swept = Swept(results: seq<Result>, effects: seq<Effect>, threw: bool)

  /** What one item's turn does, closing included. */
  function HereEffects(item: PendingItem, c: Collected): seq<Effect> {
    c.effects + (if c.outcome.Some? && Closes(c.outcome.value) then [Closed(item.dealKey, c.outcome.value)] else [])
  }

  /** The page's items in turn; one that throws ends the execution. */
  function CollectAll(cfg: Config, w: World, items: seq<PendingItem>, writes: nat): Swept {
    if items == [] then Swept([], [], false)
    else
      var c := Collect(cfg, w, items[0], writes);
      var here := HereEffects(items[0], c);
      if c.outcome.None? then Swept([], here, true)
      else
        var rest := CollectAll(cfg, w, items[1..], writes + WritesIn(c.effects));
        Swept([Result(items[0].dealKey, c.outcome.value, c.decision)] + rest.results, here + rest.effects, rest.threw)
  }

  function PageOf(cfg: Config, w: World): seq<PendingItem> {
    if |w.page| > cfg.maxItems then w.page[..cfg.maxItems] else w.page
  }
}
