/**
 What holds of every report karwan-check ever writes, over every run of the chain, GitHub and any
 number of executions against an index that may serve anything.
 */
module CheckSafety {
  import opened Texts
  import opened Documents
  import opened Verdict
  import opened Runs
  import opened CheckRules

  // ---- One execution ----

  /** Why a CHECK report may be written: everything in it comes from Arc and a confirmed run. */
  ghost predicate JustifiedBy(cfg: Config, chain: Chain, w: World, rep: Report, p: Policy, r: Reference, run: RunFacts)
    requires rep.CheckReport?
  {
    var ref := Ref(rep.family, rep.dealId);
    && cfg.attest
    && IsAddress(rep.family) && IsHex32(rep.dealId) && rep.revision >= 0
    && ref in chain.terms && rep.verifier == chain.terms[ref].verifier && Configured(cfg, rep.verifier)
    && ref in w.chain.deals && w.chain.deals[ref] == Deal(AGREEMENT_ACCEPTED, rep.revision, false, false)
    && Agreed(p) && PolicyFingerprint(p) == chain.terms[ref].checkPolicy
    && WasDelivered(chain, ref, rep.revision, ProofFingerprint(r))
    && p.runner.repository == cfg.runnerRepo
    && FindRun(w.github, CheckLookup(p, r, rep.dealId, rep.revision)) == Some(run)
    && Confirmed(p, run)
    && rep.pass == DeliveredAsAgreed(p, r, run)
    && rep.evidenceHash == EvidenceHash(BuildEvidence(p, r, run, Replay(p, r, Some(run), w.now)))
  }

  /** Arc logged this proof hash for this revision of the deal. */
  predicate WasDelivered(chain: Chain, ref: DealRef, revision: int, proofHash: Digest) {
    ref in chain.logs && exists i | 0 <= i < |chain.logs[ref]| ::
      chain.logs[ref][i].revision == revision && chain.logs[ref][i].proofHash == proofHash
  }

  function CheckLookup(p: Policy, r: Reference, dealId: Text, revision: nat): Lookup {
    Lookup(p.runner.repository, DealKey(dealId, revision), r.sha, InputsHash(p, PolicyFingerprint(p), r.sha))
  }

  lemma {:induction false} ProofWasDelivered(logs: seq<DeliveredLog>, revision: int, blockHash: Text, blockNumber: int)
    requires DeliveredProof(logs, revision, blockHash, blockNumber).Some?
    ensures exists i | 0 <= i < |logs| ::
      logs[i].revision == revision && logs[i].proofHash == DeliveredProof(logs, revision, blockHash, blockNumber).value
  {
    if !IsTheDelivery(logs[0], revision, blockHash, blockNumber) {
      ProofWasDelivered(logs[1..], revision, blockHash, blockNumber);
      var i :| 0 <= i < |logs[1..]| && logs[1..][i].revision == revision
        && logs[1..][i].proofHash == DeliveredProof(logs, revision, blockHash, blockNumber).value;
      assert logs[i + 1] == logs[1..][i];
    }
  }

  lemma LoadedPolicyIsAgreed(raw: Doc, expected: Digest, partialAllowed: bool)
    ensures var p := LoadPolicy(raw, expected, partialAllowed);
      p.Some? ==> Agreed(p.value) && PolicyFingerprint(p.value) == expected
  {
    hide PolicyFingerprint, PolicySchema;
  }

  /** What passing the gate means for a deal item, whatever the index put in it. */
  lemma AdmittedDeal(cfg: Config, w: World, item: PendingItem)
    requires item.kind == DealItem && Admit(cfg, w, item).Go?
    ensures var go := Admit(cfg, w, item);
      var ref := Ref(item.family, item.dealId);
      && IsAddress(item.family) && IsHex32(item.dealId) && item.revision >= 0
      && ref in w.chain.terms && go.terms == w.chain.terms[ref] && Configured(cfg, go.terms.verifier)
      && ref in w.chain.deals && w.chain.deals[ref] == Deal(AGREEMENT_ACCEPTED, item.revision, false, false)
      && Agreed(go.policy) && PolicyFingerprint(go.policy) == go.terms.checkPolicy
      && WasDelivered(w.chain, ref, item.revision, ProofFingerprint(go.reference))
      && ItemProof(w, item) == Some(ProofFingerprint(go.reference))
      && go.policy.runner.repository == cfg.runnerRepo
      && LookupFor(go) == CheckLookup(go.policy, go.reference, item.dealId, item.revision)
  {
    hide PolicyFingerprint, ProofFingerprint, ParsePolicy, PolicySchema, ReferenceSchema, SameRepository, InputsHash,
      IsAddress, IsHex32, DealKey, Configured;
    var terms := ReadTerms(w.chain, item.family, item.dealId).value;
    LoadedPolicyIsAgreed(item.policy, terms.checkPolicy, terms.partialBps > 0);
    ProofWasDelivered(LogsOf(w.chain, item.family, item.dealId), item.revision, item.deliveredBlockHash.value,
      item.deliveredBlockNumber.value);
  }

  /** The report an item's turn writes, if any. */
  predicate Writes(cfg: Config, w: World, item: PendingItem, writes: nat, rep: Report) {
    Wrote(rep) in Collect(cfg, w, item, writes).effects
  }

  /** The CHECK report of an item and a run. */
  function ReportOf(w: World, item: PendingItem, verifier: Text, p: Policy, r: Reference, run: RunFacts): Report {
    CheckReport(verifier, item.family, item.dealId, item.revision, DeliveredAsAgreed(p, r, run),
                EvidenceHash(BuildEvidence(p, r, run, Replay(p, r, Some(run), w.now))), w.now)
  }

  /** An admitted item and the run its look-up takes, when that run is confirmed. */
  predicate HasConfirmedRun(w: World, go: Admission) {
    go.Go? && FindRun(w.github, LookupFor(go)).Some? && Confirmed(go.policy, FindRun(w.github, LookupFor(go)).value)
  }

  function RunFor(w: World, go: Admission): RunFacts
    requires HasConfirmedRun(w, go)
  {
    FindRun(w.github, LookupFor(go)).value
  }

  lemma DecidedIffConfirmed(w: World, go: Admission)
    requires go.Go?
    ensures var run := FindRun(w.github, LookupFor(go)); var v := Replay(go.policy, go.reference, run, w.now);
      && (v.decision != Unavailable <==> HasConfirmedRun(w, go))
      && (run.Some? ==>
            (v.decision == Pass <==> HasConfirmedRun(w, go) && DeliveredAsAgreed(go.policy, go.reference, run.value)))
  {
    hide FindRun, LookupFor, Replay, Confirmed, DeliveredAsAgreed, Agreed;
    VerdictIsTheRule(go.policy, go.reference, FindRun(w.github, LookupFor(go)), w.now);
  }

  /**
   Exactly what an item's turn writes, whatever its kind: nothing without an admitted item and a
   confirmed run; a DRY report only for kind 'dry'; and for any other kind, when attesting, a CHECK
   report, unless its encoding throws.
   */
  lemma WrittenIff(cfg: Config, w: World, item: PendingItem, writes: nat, rep: Report)
    ensures var go := Admit(cfg, w, item);
      Writes(cfg, w, item, writes, rep) <==>
        && HasConfirmedRun(w, go)
        && var run := RunFor(w, go);
           if item.kind == DryItem then
             IsDryKey(item.dealKey)
             && rep == DryReport(cfg.fees, RunIdOf(item.dealKey),
                                 EvidenceHash(BuildEvidence(go.policy, go.reference, run,
                                   Replay(go.policy, go.reference, Some(run), w.now))), w.now)
           else
             cfg.attest && rep !in w.refused
             && rep == ReportOf(w, item, go.terms.verifier, go.policy, go.reference, run)
  {
    var go := Admit(cfg, w, item);
    DryItemsHaveDryKeys(cfg, w, item);
    hide Admit, FindRun, LookupFor, EvidenceHash, BuildEvidence, AnswerTo, IsDryKey, RunIdOf, DeliveredAsAgreed,
      Confirmed, HasConfirmedRun, Replay;
    HasRun(w, go);
    if go.Go? {
      DecidedIffConfirmed(w, go);
      WrittenWhenDecided(cfg, w, item, writes, rep);
    }
  }

  lemma HasRun(w: World, go: Admission)
    ensures HasConfirmedRun(w, go) ==> go.Go? && FindRun(w.github, LookupFor(go)) == Some(RunFor(w, go))
  {
    hide FindRun, LookupFor, Confirmed;
  }

  /** The same in terms of the verdict: the two ways an answer is written. */
  lemma WrittenWhenDecided(cfg: Config, w: World, item: PendingItem, writes: nat, rep: Report)
    requires Admit(cfg, w, item).Go? && (item.kind == DryItem ==> IsDryKey(item.dealKey))
    ensures var go := Admit(cfg, w, item);
      var run := FindRun(w.github, LookupFor(go)); var v := Replay(go.policy, go.reference, run, w.now);
      Writes(cfg, w, item, writes, rep) <==>
        && v.decision != Unavailable && run.Some?
        && var hash := EvidenceHash(BuildEvidence(go.policy, go.reference, run.value, v));
           var check := CheckReport(go.terms.verifier, item.family, item.dealId, item.revision, v.decision == Pass,
             hash, w.now);
           if item.kind == DryItem then rep == DryReport(cfg.fees, RunIdOf(item.dealKey), hash, w.now)
           else cfg.attest && rep !in w.refused && rep == check
  {
    hide Admit, FindRun, LookupFor, Replay, EvidenceHash, BuildEvidence, AnswerTo, IsDryKey, RunIdOf;
    var go := Admit(cfg, w, item);
    var run := FindRun(w.github, LookupFor(go));
    var v := Replay(go.policy, go.reference, run, w.now);
    if v.decision != Unavailable && run.Some? {
      var effects := Collect(cfg, w, item, writes).effects;
      if item.kind == DryItem || cfg.attest { assert |effects| > 1 ==> effects[1] in effects; }
    }
  }

  /** Each CHECK report of a deal item is justified by the chain it was written against. */
  lemma CheckReportIsJustified(cfg: Config, w: World, item: PendingItem, writes: nat, rep: Report)
    requires Writes(cfg, w, item, writes, rep) && item.kind == DealItem
    ensures var go := Admit(cfg, w, item);
      && HasConfirmedRun(w, go) && rep == ReportOf(w, item, go.terms.verifier, go.policy, go.reference, RunFor(w, go))
      && JustifiedBy(cfg, w.chain, w, rep, go.policy, go.reference, RunFor(w, go))
  {
    hide Admit, FindRun, LookupFor, Replay, EvidenceHash, BuildEvidence, PolicyFingerprint, ProofFingerprint,
      Confirmed, DeliveredAsAgreed, Agreed, WasDelivered, CheckLookup, Writes;
    WrittenIff(cfg, w, item, writes, rep);
    AdmittedDeal(cfg, w, item);
  }

  /** A DRY report is sent only for a completed run of the pinned runner whose guard passed. */
  lemma DryReportIsConfirmed(cfg: Config, w: World, item: PendingItem, writes: nat, rep: Report)
    requires Writes(cfg, w, item, writes, rep) && rep.DryReport?
    ensures var go := Admit(cfg, w, item);
      && go.Go? && item.kind == DryItem && IsDryKey(item.dealKey) && rep.runId == RunIdOf(item.dealKey)
      && FindRun(w.github, LookupFor(go)).Some? && Confirmed(go.policy, FindRun(w.github, LookupFor(go)).value)
  {
    hide Admit, FindRun, LookupFor, Replay, EvidenceHash, BuildEvidence, Confirmed, DeliveredAsAgreed, Agreed,
      IsDryKey, RunIdOf, Writes;
    WrittenIff(cfg, w, item, writes, rep);
  }

  /** When attesting, a decided check ends only as attested or write-failed; otherwise nothing is written for it. */
  lemma DecidedDealIsAttestedOrFailed(cfg: Config, w: World, item: PendingItem, writes: nat)
    requires item.kind != DryItem
    ensures var c := Collect(cfg, w, item, writes);
      var wrote := exists rep :: Wrote(rep) in c.effects;
      c.decision.Some? && c.decision.value != Unavailable ==>
        if cfg.attest then wrote && c.outcome in {Some(Attested), Some(WriteFailed)}
        else !wrote && c.outcome == Some(Shadow)
  {
    hide Admit, FindRun, LookupFor, EvidenceHash, BuildEvidence, AnswerTo, Confirmed, DeliveredAsAgreed, Agreed;
    var c := Collect(cfg, w, item, writes);
    if c.decision.Some? && c.decision.value != Unavailable {
      var go := Admit(cfg, w, item);
      VerdictIsTheRule(go.policy, go.reference, FindRun(w.github, LookupFor(go)), w.now);
      hide Replay;
      if cfg.attest { assert c.effects[1].Wrote?; }
    }
  }

  /** Attested means that report was taken and Arc's latest block holds exactly its verdict. */
  lemma AttestedMeansHeldOnChain(cfg: Config, w: World, item: PendingItem, writes: nat, rep: Report)
    requires Collect(cfg, w, item, writes).outcome == Some(Attested)
    requires Writes(cfg, w, item, writes, rep)
    ensures rep.CheckReport? && AnswerTo(w, writes).ok
    ensures AnswerTo(w, writes).held == HeldVerdict(true, rep.pass, rep.evidenceHash)
  {
    hide Admit, FindRun, LookupFor, Replay, EvidenceHash, BuildEvidence, AnswerTo;
  }

  /** An item that says about its deal what the chain says, with the documents both sides agreed. */
  ghost predicate Genuine(cfg: Config, w: World, item: PendingItem, p: Policy, r: Reference) {
    var ref := Ref(item.family, item.dealId);
    && IsAddress(item.family) && IsHex32(item.dealId) && item.revision >= 0
    && ref in w.chain.terms && Configured(cfg, w.chain.terms[ref].verifier)
    && ref in w.chain.deals && w.chain.deals[ref] == Deal(AGREEMENT_ACCEPTED, item.revision, false, false)
    && item.policy == PolicyDoc(p) && Agreed(p) && PolicyFingerprint(p) == w.chain.terms[ref].checkPolicy
    && (p.partialAt.Some? ==> w.chain.terms[ref].partialBps > 0 && p.partialAt.value < RequiredCount(p.items))
    && item.reference == ReferenceDoc(r) && ReferenceSchema(r) && ItemProof(w, item) == Some(ProofFingerprint(r))
    && SameRepository(r.repository, p.repository) && p.runner.repository == cfg.runnerRepo
  }

  /**
   The gate lets a deal item through, with these documents, exactly when it is genuine: nothing genuine is
   refused.
   */
  lemma AdmittedIffGenuine(cfg: Config, w: World, item: PendingItem, p: Policy, r: Reference)
    requires item.kind == DealItem
    ensures (Admit(cfg, w, item).Go? && Admit(cfg, w, item).policy == p && Admit(cfg, w, item).reference == r)
      <==> Genuine(cfg, w, item, p, r)
  {
    hide PolicyFingerprint, ProofFingerprint, ParsePolicy, Agreed, ReferenceSchema, SameRepository, IsAddress,
      IsHex32, DealKey, Configured, ItemProof, RequiredCount;
    var terms := ReadTerms(w.chain, item.family, item.dealId);
    if terms.Some? { ParsedIff(item.policy, terms.value.partialBps > 0, p); }
  }

  // ---- Items of a kind that is neither ----

  /** What the gate asks of an item that is not of kind 'deal': no deal state and no Delivered log. */
  ghost predicate PassesAsDry(cfg: Config, w: World, item: PendingItem, p: Policy, r: Reference) {
    var ref := Ref(item.family, item.dealId);
    && IsAddress(item.family) && IsHex32(item.dealId)
    && ref in w.chain.terms && Configured(cfg, w.chain.terms[ref].verifier)
    && item.policy == PolicyDoc(p) && Agreed(p) && PolicyFingerprint(p) == w.chain.terms[ref].checkPolicy
    && (p.partialAt.Some? ==> w.chain.terms[ref].partialBps > 0 && p.partialAt.value < RequiredCount(p.items))
    && IsDryKey(item.dealKey) && item.reference == ReferenceDoc(r) && ReferenceSchema(r)
    && p.runner.repository == cfg.runnerRepo
  }

  lemma AdmittedIffPassesAsDry(cfg: Config, w: World, item: PendingItem, p: Policy, r: Reference)
    requires item.kind != DealItem
    ensures var go := Admit(cfg, w, item);
      && ((go.Go? && go.policy == p && go.reference == r) <==> PassesAsDry(cfg, w, item, p, r))
      && (go.Go? ==> go.dealKey == item.dealKey && Ref(item.family, item.dealId) in w.chain.terms
                     && go.terms == w.chain.terms[Ref(item.family, item.dealId)]
                        && go.terms.checkPolicy == PolicyFingerprint(go.policy))
  {
    hide PolicyFingerprint, ParsePolicy, Agreed, ReferenceSchema, IsAddress, IsHex32, Configured, RequiredCount,
      IsDryKey;
    var terms := ReadTerms(w.chain, item.family, item.dealId);
    if terms.Some? { ParsedIff(item.policy, terms.value.partialBps > 0, p); }
  }

  function DryLookup(p: Policy, r: Reference, dealKey: Text): Lookup {
    Lookup(p.runner.repository, dealKey, r.sha, InputsHash(p, PolicyFingerprint(p), r.sha))
  }

  /**
   The input the gate does not foresee: an item whose kind is neither 'deal' nor 'dry' is admitted as a
   dry run and answered as a check, so it writes a CHECK report exactly when a dry run of the deal's
   own policy completed, at whatever commit and for whatever revision the index names.
   */
  lemma OtherKindIsReportedIff(cfg: Config, w: World, item: PendingItem, writes: nat, rep: Report)
    requires item.kind == OtherKind
    ensures Writes(cfg, w, item, writes, rep) <==>
      cfg.attest && rep !in w.refused && exists p, r, run ::
        && PassesAsDry(cfg, w, item, p, r)
        && FindRun(w.github, DryLookup(p, r, item.dealKey)) == Some(run) && Confirmed(p, run)
        && rep == ReportOf(w, item, w.chain.terms[Ref(item.family, item.dealId)].verifier, p, r, run)
  {
    hide Writes, Admit, FindRun, Confirmed, PassesAsDry, ReportOf, InputsHash, PolicyFingerprint;
    WrittenIff(cfg, w, item, writes, rep);
    var go := Admit(cfg, w, item);
    if go.Go? {
      AdmittedIffPassesAsDry(cfg, w, item, go.policy, go.reference);
      assert LookupFor(go) == DryLookup(go.policy, go.reference, item.dealKey);
    }
    forall p, r | PassesAsDry(cfg, w, item, p, r) ensures go.Go? && go.policy == p && go.reference == r {
      AdmittedIffPassesAsDry(cfg, w, item, p, r);
    }
    if Writes(cfg, w, item, writes, rep) { HasRun(w, go); }
  }

  /** Why a DRY report may be written, and what is in it. */
  ghost predicate AnsweredBy(cfg: Config, w: World, item: PendingItem, rep: Report, p: Policy, r: Reference,
      run: RunFacts)
  {
    && PassesAsDry(cfg, w, item, p, r) && IsDryKey(item.dealKey)
    && FindRun(w.github, DryLookup(p, r, item.dealKey)) == Some(run) && Confirmed(p, run)
    && rep == DryReport(cfg.fees, RunIdOf(item.dealKey),
                        EvidenceHash(BuildEvidence(p, r, run, Replay(p, r, Some(run), w.now))), w.now)
  }

  /** A dry item is answered exactly when it passes the gate and its run is confirmed, attesting or not. */
  lemma DryItemIsReportedIff(cfg: Config, w: World, item: PendingItem, writes: nat, rep: Report)
    requires item.kind == DryItem
    ensures Writes(cfg, w, item, writes, rep) <==> exists p, r, run :: AnsweredBy(cfg, w, item, rep, p, r, run)
  {
    hide Writes, Admit, FindRun, Confirmed, PassesAsDry, InputsHash, PolicyFingerprint, EvidenceHash, BuildEvidence,
      Replay, IsDryKey, RunIdOf;
    WrittenIff(cfg, w, item, writes, rep);
    var go := Admit(cfg, w, item);
    HasRun(w, go);
    if go.Go? {
      AdmittedIffPassesAsDry(cfg, w, item, go.policy, go.reference);
      assert LookupFor(go) == DryLookup(go.policy, go.reference, item.dealKey);
    }
    forall p, r | PassesAsDry(cfg, w, item, p, r) ensures go.Go? && go.policy == p && go.reference == r {
      AdmittedIffPassesAsDry(cfg, w, item, p, r);
    }
    if Writes(cfg, w, item, writes, rep) {
      assert AnsweredBy(cfg, w, item, rep, go.policy, go.reference, RunFor(w, go));
    }
  }

  // ---- What any report rests on ----

  /** The evidence a report carries. */
  function HashOf(rep: Report): Digest { if rep.CheckReport? then rep.evidenceHash else rep.resultHash }

  /** The first word of the run name an item stands for. */
  function RunKey(item: PendingItem): Text {
    if item.kind == DealItem && item.revision >= 0 then DealKey(item.dealId, item.revision) else item.dealKey
  }

  /** An admitted item is what the gate goes on with, whatever its kind. */
  lemma AdmittedAsGiven(cfg: Config, w: World, item: PendingItem)
    requires Admit(cfg, w, item).Go?
    ensures var go := Admit(cfg, w, item);
      && item.policy == PolicyDoc(go.policy) && item.reference == ReferenceDoc(go.reference)
      && Agreed(go.policy) && PolicyFingerprint(go.policy) == go.terms.checkPolicy && ReferenceSchema(go.reference)
      && go.dealKey == RunKey(item) && Lacks(go.dealKey, SPACE)
  {
    hide PolicyFingerprint, Agreed, ReferenceSchema, Configured, DealKey;
    var go := Admit(cfg, w, item);
    if item.kind == DealItem {
      AdmittedIffGenuine(cfg, w, item, go.policy, go.reference);
      DealKeyBinds(item.dealId, item.revision, item.dealId, item.revision);
    } else {
      AdmittedIffPassesAsDry(cfg, w, item, go.policy, go.reference);
      DryKeyIsOneWord(item.dealKey);
    }
  }

  /** The evidence in a report of any kind is that of the admitted documents and the run behind it. */
  lemma WrittenHash(cfg: Config, w: World, item: PendingItem, writes: nat, rep: Report)
    requires Writes(cfg, w, item, writes, rep)
    ensures var go := Admit(cfg, w, item);
      && HasConfirmedRun(w, go)
      && var run := RunFor(w, go);
         && HashOf(rep) == EvidenceHash(BuildEvidence(go.policy, go.reference, run,
                             Replay(go.policy, go.reference, Some(run), w.now)))
         && (rep.CheckReport? ==>
               rep.verifier == go.terms.verifier && rep.pass == DeliveredAsAgreed(go.policy, go.reference, run))
  {
    hide Writes, Admit, HasConfirmedRun, RunFor, EvidenceHash, BuildEvidence, Replay, DeliveredAsAgreed, IsDryKey,
      RunIdOf;
    WrittenIff(cfg, w, item, writes, rep);
  }

  // ---- What ends an execution ----

  predicate EndsExecution(cfg: Config, w: World, item: PendingItem) {
    var go := Admit(cfg, w, item);
    || go.Throws?
    || (item.kind != DryItem && cfg.attest && HasConfirmedRun(w, go)
        && ReportOf(w, item, go.terms.verifier, go.policy, go.reference, RunFor(w, go)) in w.refused)
  }

  /**
   An execution ends at an item exactly when reading for it or encoding its report throws, and then nothing is
   done for it.
   */
  lemma OnlyThrowsEnd(cfg: Config, w: World, item: PendingItem, writes: nat)
    ensures var c := Collect(cfg, w, item, writes);
      && (c.outcome == None <==> EndsExecution(cfg, w, item))
      && (c.outcome == None ==> forall rep :: Wrote(rep) !in c.effects)
  {
    hide Admit, FindRun, LookupFor, Replay, EvidenceHash, BuildEvidence, AnswerTo, Confirmed, DeliveredAsAgreed,
      HasConfirmedRun, RunFor;
    var go := Admit(cfg, w, item);
    HasRun(w, go);
    if go.Go? { DecidedIffConfirmed(w, go); }
  }
}
