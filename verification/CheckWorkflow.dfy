/** The karwan-check workflow step by step through its effectful ports, proved against CheckRules. */
module CheckWorkflow {
  import opened Texts
  import opened Documents
  import opened Verdict
  import opened Runs
  import opened CheckRules

  /** What the workflow did through its ports, in order, and how many reports it wrote. */
  class CheckPorts {
    const w: World
    var trace: seq<Effect>
    var writes: nat

    constructor (w: World)
      ensures this.w == w && trace == [] && writes == 0
    {
      this.w := w;
      trace := [];
      writes := 0;
    }

    method Dispatch(args: DispatchArgs) returns (sent: bool)
      modifies this
      ensures trace == old(trace) + [Dispatched(args)] && writes == old(writes) && sent == w.dispatchOk
    {
      trace := trace + [Dispatched(args)];
      sent := w.dispatchOk;
    }

    method Note(e: Effect)
      requires !e.Wrote?
      modifies this
      ensures trace == old(trace) + [e] && writes == old(writes)
    {
      trace := trace + [e];
    }

    method FindTheRun(l: Lookup) returns (run: Option<RunFacts>)
      modifies this
      ensures trace == old(trace) + [LookedUp(l)] && writes == old(writes) && run == FindRun(w.github, l)
    {
      trace := trace + [LookedUp(l)];
      run := FindRun(w.github, l);
    }

    method WriteReport(r: Report) returns (ok: bool)
      modifies this
      ensures trace == old(trace) + [Wrote(r)] && writes == old(writes) + 1 && ok == AnswerTo(w, old(writes)).ok
    {
      trace := trace + [Wrote(r)];
      ok := AnswerTo(w, writes).ok;
      writes := writes + 1;
    }

    /** What the adapter holds after the last write. */
    method VerdictOnChain() returns (held: HeldVerdict)
      requires writes > 0
      ensures held == AnswerTo(w, writes - 1).held
    {
      held := AnswerTo(w, writes - 1).held;
    }

    method FeeRunAfterWrite() returns (state: int)
      requires writes > 0
      ensures state == AnswerTo(w, writes - 1).feeState
    {
      state := AnswerTo(w, writes - 1).feeState;
    }

    /** The Delivered logs of the block are scanned in order; the first that fits answers. */
    method DeliveredProofOf(family: Text, dealId: Text, revision: int, blockHash: Text,
        blockNumber: int) returns (proof: Option<Digest>)
      ensures proof == DeliveredProof(LogsOf(w.chain, family, dealId), revision, blockHash, blockNumber)
    {
      var logs := LogsOf(w.chain, family, dealId);
      for i := 0 to |logs|
        invariant DeliveredProof(logs, revision, blockHash, blockNumber)
          == DeliveredProof(logs[i..], revision, blockHash, blockNumber)
      {
        if IsTheDelivery(logs[i], revision, blockHash, blockNumber) {
          return Some(logs[i].proofHash);
        }
      }
      return None;
    }
  }

  /** What the log trigger runs; None when a chain read threw. */
  method StartReplay(ports: CheckPorts, cfg: Config, log: Delivered) returns (outcome: Option<StartOutcome>)
    modifies ports
    ensures ports.writes == old(ports.writes)
    ensures var s := Start(cfg, ports.w, log);
      if s.None? then outcome == None && ports.trace == old(ports.trace)
      else outcome == Some(s.value.0) && ports.trace == old(ports.trace) + s.value.1
  {
    hide ReadTerms, ReadDeal, Configured, LoadPolicy, LoadReference, DeliveryProblem, RunnerPinned, ArgsFor, DealKey;
    var terms := ReadTerms(ports.w.chain, log.family, log.dealId);
    if terms.None? { return None; }
    if !Configured(cfg, terms.value.verifier) { return Some(StartNotOurs); }
    var deal := ReadDeal(ports.w.chain, log.family, log.dealId);
    if deal.None? { return None; }
    if deal.value.state != AGREEMENT_ACCEPTED || deal.value.revision != log.revision { return Some(StartStale); }

    var rawPolicy := FetchDoc(ports.w, terms.value.checkPolicy);
    if rawPolicy.None? { return Some(PolicyUnavailable); }
    var policy := LoadPolicy(rawPolicy.value, terms.value.checkPolicy, terms.value.partialBps > 0);
    if policy.None? { return Some(StartPolicyMismatch); }
    var rawReference := FetchDoc(ports.w, log.proofHash);
    if rawReference.None? { return Some(ReferenceUnavailable); }
    var reference := LoadReference(rawReference.value, log.proofHash);
    if reference.None? { return Some(StartReferenceMismatch); }
    var problem := DeliveryProblem(ports.w, policy.value, reference.value);
    if problem.Some? { return problem; }
    if !RunnerPinned(cfg, ports.w, policy.value) { return Some(StartRunnerNotPinned); }

    var dealKey := DealKey(log.dealId, log.revision);
    var args := ArgsFor(policy.value, terms.value.checkPolicy, reference.value.sha, dealKey);
    var sent := ports.Dispatch(args);
    if !sent { return Some(DispatchFailed); }
    ports.Note(Started(StartNote(DealItem, dealKey, log.family, log.dealId, log.revision,
                                 Some((log.blockHash, log.blockNumber)), terms.value.checkPolicy,
                                   ByHash(log.proofHash))));
    return Some(WasDispatched);
  }

  /** What a dry-run request runs; the replay goes out under a dry key. */
  method StartDryRun(ports: CheckPorts, cfg: Config, req: DryRunRequest) returns (outcome: Option<StartOutcome>)
    modifies ports
    ensures ports.writes == old(ports.writes)
    ensures var s := StartDry(cfg, ports.w, req);
      if s.None? then outcome == None && ports.trace == old(ports.trace)
      else outcome == Some(s.value.0) && ports.trace == old(ports.trace) + s.value.1
  {
    hide ReadTerms, Configured, LoadPolicy, RunnerPinned, ArgsFor, DryKey, FeeState;
    if !WellFormedRequest(req) { return Some(BadRequest); }
    var terms := ReadTerms(ports.w.chain, req.family, req.dealId);
    if terms.None? { return None; }
    if !Configured(cfg, terms.value.verifier) { return Some(StartNotOurs); }
    var rawPolicy := FetchDoc(ports.w, terms.value.checkPolicy);
    if rawPolicy.None? { return Some(PolicyUnavailable); }
    var policy := LoadPolicy(rawPolicy.value, terms.value.checkPolicy, terms.value.partialBps > 0);
    if policy.None? { return Some(StartPolicyMismatch); }
    if !RunnerPinned(cfg, ports.w, policy.value) { return Some(StartRunnerNotPinned); }
    if FeeState(ports.w, req.runId) != FEE_OPEN { return Some(NotPaid); }

    var dealKey := DryKey(req.runId);
    var args := ArgsFor(policy.value, terms.value.checkPolicy, req.branchSha, dealKey);
    var sent := ports.Dispatch(args);
    if !sent { return Some(DispatchFailed); }
    var reference := Reference(policy.value.repository, if req.pull.Some? then req.pull.value else 1, req.branchSha);
    ports.Note(Started(StartNote(DryItem, dealKey, req.family, req.dealId, 0, None, terms.value.checkPolicy,
      ByValue(reference))));
    return Some(WasDispatched);
  }

  /** The checks of one indexed item against Arc. */
  method AdmitItem(ports: CheckPorts, cfg: Config, item: PendingItem) returns (go: Admission)
    ensures go == Admit(cfg, ports.w, item)
  {
    hide ReadTerms, ReadDeal, Configured, LoadPolicy, LoadReference, SameRepository, ReferenceSchema, IsDryKey,
      DealKey, LogsOf, DeliveredProof;
    var terms := ReadTerms(ports.w.chain, item.family, item.dealId);
    if terms.None? { return Throws; }
    if !Configured(cfg, terms.value.verifier) { return Stop(NotOurs); }
    var policy := LoadPolicy(item.policy, terms.value.checkPolicy, terms.value.partialBps > 0);
    if policy.None? { return Stop(PolicyMismatch); }

    var reference: Reference;
    var dealKey: Text;
    if item.kind == DealItem {
      var deal := ReadDeal(ports.w.chain, item.family, item.dealId);
      if deal.None? { return Throws; }
      if deal.value.state != AGREEMENT_ACCEPTED || deal.value.revision != item.revision { return Stop(Stale); }
      dealKey := DealKey(item.dealId, deal.value.revision);
      if deal.value.checkPassed || deal.value.checkFailed { return Stop(AlreadyDecided); }
      var proof := None;
      if item.deliveredBlockHash.Some? && item.deliveredBlockHash.value != [] && item.deliveredBlockNumber.Some? {
        proof := ports.DeliveredProofOf(item.family, item.dealId, item.revision, item.deliveredBlockHash.value,
          item.deliveredBlockNumber.value);
      }
      if proof.None? { return Stop(ReferenceMismatch); }
      var loaded := LoadReference(item.reference, proof.value);
      if loaded.None? || !SameRepository(loaded.value.repository, policy.value.repository) {
        return Stop(ReferenceMismatch);
      }
      reference := loaded.value;
    } else {
      if !IsDryKey(item.dealKey) { return Stop(ReferenceMismatch); }
      dealKey := item.dealKey;
      if !item.reference.ReferenceDoc? || !ReferenceSchema(item.reference.reference) { return Stop(ReferenceMismatch); }
      reference := item.reference.reference;
    }
    if policy.value.runner.repository != cfg.runnerRepo { return Stop(PolicyMismatch); }
    return Go(terms.value, policy.value, reference, dealKey);
  }

  lemma WritesOfPair(a: Effect, b: Effect)
    ensures WritesIn([a, b]) == WritesIn([a]) + WritesIn([b])
    ensures WritesIn([a]) == if a.Wrote? then 1 else 0
  {
    assert [a, b][1..] == [b];
    assert [a][1..] == [];
  }

  lemma WritesOfPairs()
    ensures WritesIn([]) == 0
    ensures forall a: Effect :: WritesIn([a]) == if a.Wrote? then 1 else 0
    ensures forall a: Effect, b: Effect :: WritesIn([a, b]) == WritesIn([a]) + WritesIn([b])
  {
    forall a: Effect, b: Effect ensures WritesIn([a, b]) == WritesIn([a]) + WritesIn([b])
      && WritesIn([a]) == if a.Wrote? then 1 else 0 {
      WritesOfPair(a, b);
    }
  }

  lemma {:induction false} WritesAppend(a: seq<Effect>, b: seq<Effect>)
    ensures WritesIn(a + b) == WritesIn(a) + WritesIn(b)
  {
    if a == [] {
      assert a + b == b;
    } else {
      assert (a + b)[1..] == a[1..] + b;
      WritesAppend(a[1..], b);
    }
  }

  /** A dry run's turn: write when decided, look at the fee run, post. */
  method AnswerDryRun(ports: CheckPorts, cfg: Config, item: PendingItem, v: ReplayVerdict, evidence: Option<Evidence>)
      returns (outcome: Outcome, decision: Decision)
    requires IsDryKey(item.dealKey)
    modifies ports
    ensures var c := ReportDry(cfg, ports.w, item, v, evidence, old(ports.writes));
      && c.outcome == Some(outcome) && c.decision == Some(decision)
      && ports.trace == old(ports.trace) + c.effects
      && ports.writes == old(ports.writes) + WritesIn(c.effects)
  {
    hide EvidenceHash, AnswerTo, RunIdOf, WritesIn;
    WritesOfPairs();
    var released := false;
    if v.decision != Unavailable && evidence.Some? {
      var ok := ports.WriteReport(DryReport(cfg.fees, RunIdOf(item.dealKey), EvidenceHash(evidence.value),
        ports.w.now));
      if ok {
        var state := ports.FeeRunAfterWrite();
        released := state == FEE_RELEASED;
      }
    }
    ports.Note(PostedDryRun(item.dealKey, item.dealId, v.decision, evidence, released));
    return DryRun, v.decision;
  }

  /**
   A check's turn: write when decided and attesting, compare what the adapter holds, post. Nothing when
   encoding throws.
   */
  method AnswerCheck(ports: CheckPorts, cfg: Config, item: PendingItem, terms: Terms, v: ReplayVerdict,
      evidence: Option<Evidence>)
      returns (outcome: Option<Outcome>, decision: Option<Decision>)
    modifies ports
    ensures var c := ReportCheck(cfg, ports.w, item, terms, v, evidence, old(ports.writes));
      && c.outcome == outcome && c.decision == decision
      && ports.trace == old(ports.trace) + c.effects
      && ports.writes == old(ports.writes) + WritesIn(c.effects)
  {
    hide EvidenceHash, AnswerTo, WritesIn;
    WritesOfPairs();
    var decided := v.decision != Unavailable;
    var attested := false;
    if decided && cfg.attest && evidence.Some? {
      var hash := EvidenceHash(evidence.value);
      var report := CheckReport(terms.verifier, item.family, item.dealId, item.revision, v.decision == Pass, hash,
        ports.w.now);
      if report in ports.w.refused { return None, None; }
      var ok := ports.WriteReport(report);
      if ok {
        var held := ports.VerdictOnChain();
        attested := held.isSet && held.pass == (v.decision == Pass) && held.evidenceHash == hash;
      }
      if !attested { return Some(WriteFailed), Some(v.decision); }
    }
    ports.Note(PostedEvidence(item.dealKey, item.family, item.dealId, item.revision, v.decision, v.reason, evidence,
      attested));
    if !decided { return Some(NoResult), Some(v.decision); }
    return Some(if attested then Attested else Shadow), Some(v.decision);
  }

  /** One finished replay: nothing, a report, a posted verdict. */
  method CollectOne(ports: CheckPorts, cfg: Config, item: PendingItem) returns (outcome: Option<Outcome>,
      decision: Option<Decision>)
    modifies ports
    ensures var c := Collect(cfg, ports.w, item, old(ports.writes));
      && outcome == c.outcome && decision == c.decision
      && ports.trace == old(ports.trace) + c.effects
      && ports.writes == old(ports.writes) + WritesIn(c.effects)
  {
    hide Admit, FindRun, LookupFor, BuildEvidence, Replay, ReportDry, ReportCheck, WritesIn;
    WritesOfPairs();
    var go := AdmitItem(ports, cfg, item);
    DryItemsHaveDryKeys(cfg, ports.w, item);
    if go.Throws? { return None, None; }
    if go.Stop? { return Some(go.outcome), None; }

    var run := ports.FindTheRun(LookupFor(go));
    var v := Replay(go.policy, go.reference, run, ports.w.now);
    if v.decision == Unavailable && (v.reason == RunPending || v.reason == RunMissing) { return Some(Waiting), None; }
    var evidence := None;
    if run.Some? { evidence := Some(BuildEvidence(go.policy, go.reference, run.value, v)); }

    if item.kind == DryItem {
      var o, d := AnswerDryRun(ports, cfg, item, v, evidence);
      outcome, decision := Some(o), Some(d);
    } else {
      outcome, decision := AnswerCheck(ports, cfg, item, go.terms, v, evidence);
    }
    ghost var looked := [LookedUp(LookupFor(go))];
    WritesAppend(looked, if item.kind == DryItem
      then ReportDry(cfg, ports.w, item, v, evidence, old(ports.writes)).effects
                         else ReportCheck(cfg, ports.w, item, go.terms, v, evidence, old(ports.writes)).effects);
  }

  method CollectAndClose(ports: CheckPorts, cfg: Config, item: PendingItem) returns (outcome: Option<Outcome>,
      decision: Option<Decision>)
    modifies ports
    ensures var c := Collect(cfg, ports.w, item, old(ports.writes));
      && outcome == c.outcome && decision == c.decision
      && ports.trace == old(ports.trace) + HereEffects(item, c)
      && ports.writes == old(ports.writes) + WritesIn(c.effects)
  {
    hide Collect;
    outcome, decision := CollectOne(ports, cfg, item);
    if outcome.Some? && Closes(outcome.value) { ports.Note(Closed(item.dealKey, outcome.value)); }
  }

  /** What the schedule runs: the page, one item after another. */
  method CollectResults(ports: CheckPorts, cfg: Config) returns (results: seq<Result>, threw: bool)
    modifies ports
    ensures var s := CollectAll(cfg, ports.w, PageOf(cfg, ports.w), old(ports.writes));
      results == s.results && threw == s.threw && ports.trace == old(ports.trace) + s.effects
  {
    hide Collect, CollectAll, PageOf, HereEffects, WritesIn;
    var page := PageOf(cfg, ports.w);
    ghost var whole := CollectAll(cfg, ports.w, page, ports.writes);
    results, threw := [], false;
    ghost var done: seq<Effect> := [];
    var i := 0;
    while i < |page|
      invariant 0 <= i <= |page| && !threw
      invariant ports.trace == old(ports.trace) + done
      invariant whole == Resumed(results, done, CollectAll(cfg, ports.w, page[i..], ports.writes))
    {
      ghost var c := Collect(cfg, ports.w, page[i], ports.writes);
      ghost var before := CollectAll(cfg, ports.w, page[i..], ports.writes);
      CollectStep(cfg, ports.w, page[i..], ports.writes);
      assert page[i..][1..] == page[i + 1..];
      var outcome, decision := CollectAndClose(ports, cfg, page[i]);
      done := done + HereEffects(page[i], c);
      if outcome.None? {
        threw := true;
        return;
      }
      results := results + [Result(page[i].dealKey, outcome.value, decision)];
      i := i + 1;
    }
    CollectNone(cfg, ports.w, ports.writes);
  }

  lemma CollectNone(cfg: Config, w: World, writes: nat)
    ensures CollectAll(cfg, w, [], writes) == Swept([], [], false)
  {
  }

  ghost function Resumed(results: seq<Result>, done: seq<Effect>, rest: Swept): Swept {
    Swept(results + rest.results, done + rest.effects, rest.threw)
  }

  lemma CollectStep(cfg: Config, w: World, items: seq<PendingItem>, writes: nat)
    requires items != []
    ensures var c := Collect(cfg, w, items[0], writes);
      var here := HereEffects(items[0], c);
      var all := CollectAll(cfg, w, items, writes);
      if c.outcome.None? then all == Swept([], here, true)
      else
        all == Resumed([Result(items[0].dealKey, c.outcome.value, c.decision)], here,
                       CollectAll(cfg, w, items[1..], writes + WritesIn(c.effects)))
  {
    hide Collect;
  }
}
