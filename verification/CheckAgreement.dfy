/** Dispatch and collection agree on the run, though every document in between comes from the index. */
module CheckAgreement {
  import opened Texts
  import opened Documents
  import opened Verdict
  import opened Runs
  import opened CheckRules
  import opened CheckSafety
  import opened CheckSystem
  import opened CheckTurns

  /** What a started replay dispatched. */
  predicate StartDispatches(cfg: Config, w: World, log: Delivered, args: DispatchArgs) {
    Start(cfg, w, log).Some? && Dispatched(args) in Start(cfg, w, log).value.1
  }

  /** What a collected item looked up. */
  predicate CollectLooksUp(cfg: Config, w: World, item: PendingItem, writes: nat, l: Lookup) {
    LookedUp(l) in Collect(cfg, w, item, writes).effects
  }

  /** The pull request the delivery names is open on the delivered commit, into the agreed branch. */
  predicate HeadsThePull(w: World, p: Policy, r: Reference) {
    var pull := (RepoName(p), r.pull);
    pull in w.pulls && w.pulls[pull] == PullHead(r.sha, p.baseBranch)
  }

  /** A delivery that may be replayed: what the chain, the index, GitHub and the pinned runner all say. */
  ghost predicate Replayable(cfg: Config, w: World, log: Delivered, p: Policy, r: Reference) {
    var ref := Ref(log.family, log.dealId);
    && IsAddress(log.family) && IsHex32(log.dealId) && ref in w.chain.terms
       && Configured(cfg, w.chain.terms[ref].verifier)
    && ref in w.chain.deals && w.chain.deals[ref].state == AGREEMENT_ACCEPTED
       && w.chain.deals[ref].revision == log.revision
    && FetchDoc(w, w.chain.terms[ref].checkPolicy) == Some(PolicyDoc(p))
    && Agreed(p) && PolicyFingerprint(p) == w.chain.terms[ref].checkPolicy
    && (p.partialAt.Some? ==> w.chain.terms[ref].partialBps > 0 && p.partialAt.value < RequiredCount(p.items))
    && FetchDoc(w, log.proofHash) == Some(ReferenceDoc(r)) && ReferenceSchema(r) && ProofFingerprint(r) == log.proofHash
    && SameRepository(r.repository, p.repository) && (p.delivery == Pull ==> HeadsThePull(w, p, r))
    && p.runner.repository == cfg.runnerRepo
    && p.runner.repository in w.runnerBlobs && w.runnerBlobs[p.runner.repository] == p.runner.blobSha
  }

  /** What is sent to the runner for a policy and a commit. */
  ghost predicate IsFor(args: DispatchArgs, p: Policy, sha: Text, dealKey: Text) {
    && args.runner == p.runner.repository && args.targetRepo == RepoName(p) && args.sha == sha
       && args.dealKey == dealKey
    && args.policyHash == PolicyFingerprint(p) && args.items == p.items && args.setup == p.setup
    && args.timeoutMinutes == p.timeoutMinutes && args.inputsHash == InputsHash(p, PolicyFingerprint(p), sha)
  }

  lemma DispatchedIsReplayable(cfg: Config, w: World, log: Delivered, args: DispatchArgs) returns (p: Policy,
      r: Reference)
    requires StartDispatches(cfg, w, log, args)
    ensures Replayable(cfg, w, log, p, r) && IsFor(args, p, r.sha, DealKey(log.dealId, log.revision))
  {
    hide PolicyFingerprint, ProofFingerprint, ParsePolicy, ReferenceSchema, Agreed, IsAddress, IsHex32, Configured,
      DealKey, InputsHash,
      RequiredCount, SameRepository;
    var terms := ReadTerms(w.chain, log.family, log.dealId).value;
    var doc, proof := FetchDoc(w, terms.checkPolicy).value, FetchDoc(w, log.proofHash).value;
    p := LoadPolicy(doc, terms.checkPolicy, terms.partialBps > 0).value;
    r := LoadReference(proof, log.proofHash).value;
    ParsedIff(doc, terms.partialBps > 0, p);
  }

  /** What follows from sending: the dispatch alone when GitHub refuses it, and otherwise a note to the index. */
  ghost predicate IsSent(w: World, o: Option<(StartOutcome, seq<Effect>)>, args: DispatchArgs, note: StartNote) {
    o == Some(if w.dispatchOk then (WasDispatched, [Dispatched(args), Started(note)])
      else (DispatchFailed, [Dispatched(args)]))
  }

  function DealNote(log: Delivered, p: Policy): StartNote {
    StartNote(DealItem, DealKey(log.dealId, log.revision), log.family, log.dealId, log.revision,
              Some((log.blockHash, log.blockNumber)), PolicyFingerprint(p), ByHash(log.proofHash))
  }

  lemma ReplayableIsDispatched(cfg: Config, w: World, log: Delivered, args: DispatchArgs, p: Policy, r: Reference)
    requires Replayable(cfg, w, log, p, r) && IsFor(args, p, r.sha, DealKey(log.dealId, log.revision))
    ensures StartDispatches(cfg, w, log, args) && IsSent(w, Start(cfg, w, log), args, DealNote(log, p))
  {
    hide PolicyFingerprint, ProofFingerprint, ParsePolicy, ReferenceSchema, Agreed, IsAddress, IsHex32, Configured,
      DealKey, InputsHash,
      RequiredCount, SameRepository;
    var terms := ReadTerms(w.chain, log.family, log.dealId).value;
    ParsedIff(PolicyDoc(p), terms.partialBps > 0, p);
    assert args == ArgsFor(p, terms.checkPolicy, r.sha, DealKey(log.dealId, log.revision));
    assert Dispatched(args) in Send(w, args, DealNote(log, p)).1;
  }

  /** A replay is dispatched exactly for a replayable delivery, with exactly its inputs, and noted as that delivery. */
  lemma DispatchedIffReplayable(cfg: Config, w: World, log: Delivered, args: DispatchArgs)
    ensures StartDispatches(cfg, w, log, args)
      <==> exists p, r :: Replayable(cfg, w, log, p, r) && IsFor(args, p, r.sha, DealKey(log.dealId, log.revision))
    ensures StartDispatches(cfg, w, log, args) ==>
      exists p, r :: Replayable(cfg, w, log, p, r) && IsSent(w, Start(cfg, w, log), args, DealNote(log, p))
  {
    hide StartDispatches, Replayable, IsFor, DealKey, IsSent, DealNote;
    if p, r :| Replayable(cfg, w, log, p, r) && IsFor(args, p, r.sha, DealKey(log.dealId, log.revision)) {
      ReplayableIsDispatched(cfg, w, log, args, p, r);
    }
    if StartDispatches(cfg, w, log, args) {
      var p, r := DispatchedIsReplayable(cfg, w, log, args);
      ReplayableIsDispatched(cfg, w, log, args, p, r);
    }
  }

  // ---- Dry runs ----

  /** What a started dry run dispatched. */
  predicate DryDispatches(cfg: Config, w: World, req: DryRunRequest, args: DispatchArgs) {
    StartDry(cfg, w, req).Some? && Dispatched(args) in StartDry(cfg, w, req).value.1
  }

  /** A branch that may be tried: a well-formed request, the agreed policy, the pinned runner, and a fee still held. */
  ghost predicate Tryable(cfg: Config, w: World, req: DryRunRequest, p: Policy) {
    var ref := Ref(req.family, req.dealId);
    && WellFormedRequest(req) && ref in w.chain.terms && Configured(cfg, w.chain.terms[ref].verifier)
    && FetchDoc(w, w.chain.terms[ref].checkPolicy) == Some(PolicyDoc(p))
    && Agreed(p) && PolicyFingerprint(p) == w.chain.terms[ref].checkPolicy
    && (p.partialAt.Some? ==> w.chain.terms[ref].partialBps > 0 && p.partialAt.value < RequiredCount(p.items))
    && p.runner.repository == cfg.runnerRepo
    && p.runner.repository in w.runnerBlobs && w.runnerBlobs[p.runner.repository] == p.runner.blobSha
    && Lower(req.runId) in w.fees && w.fees[Lower(req.runId)] == FEE_OPEN
  }

  function DryNote(req: DryRunRequest, p: Policy): StartNote
    requires IsHex32(req.runId)
  {
    StartNote(DryItem, DryKey(req.runId), req.family, req.dealId, 0, None, PolicyFingerprint(p),
      ByValue(Reference(p.repository, if req.pull.Some? then req.pull.value else 1, req.branchSha)))
  }

  lemma TryableIsDispatched(cfg: Config, w: World, req: DryRunRequest, args: DispatchArgs, p: Policy)
    requires Tryable(cfg, w, req, p) && IsFor(args, p, req.branchSha, DryKey(req.runId))
    ensures DryDispatches(cfg, w, req, args) && IsSent(w, StartDry(cfg, w, req), args, DryNote(req, p))
  {
    hide PolicyFingerprint, ParsePolicy, Agreed, IsAddress, IsHex32, IsHex40, Configured, DryKey, InputsHash,
      RequiredCount, Lower;
    var terms := ReadTerms(w.chain, req.family, req.dealId).value;
    ParsedIff(PolicyDoc(p), terms.partialBps > 0, p);
    assert args == ArgsFor(p, terms.checkPolicy, req.branchSha, DryKey(req.runId));
    assert Dispatched(args) in Send(w, args, DryNote(req, p)).1;
  }

  lemma DryDispatchIsTryable(cfg: Config, w: World, req: DryRunRequest, args: DispatchArgs) returns (p: Policy)
    requires DryDispatches(cfg, w, req, args)
    ensures Tryable(cfg, w, req, p) && IsFor(args, p, req.branchSha, DryKey(req.runId))
  {
    hide PolicyFingerprint, ParsePolicy, Agreed, IsAddress, IsHex32, IsHex40, Configured, DryKey, InputsHash,
      RequiredCount, Lower;
    var terms := ReadTerms(w.chain, req.family, req.dealId).value;
    var doc := FetchDoc(w, terms.checkPolicy).value;
    p := LoadPolicy(doc, terms.checkPolicy, terms.partialBps > 0).value;
    ParsedIff(doc, terms.partialBps > 0, p);
  }

  /** A dry run is dispatched exactly for a tryable request, with the agreed inputs on the requested commit. */
  lemma DryDispatchedIffTryable(cfg: Config, w: World, req: DryRunRequest, args: DispatchArgs)
    ensures DryDispatches(cfg, w, req, args)
      <==> IsHex32(req.runId) && exists p :: Tryable(cfg, w, req, p) && IsFor(args, p, req.branchSha, DryKey(req.runId))
    ensures DryDispatches(cfg, w, req, args) ==>
      exists p :: Tryable(cfg, w, req, p) && IsSent(w, StartDry(cfg, w, req), args, DryNote(req, p))
  {
    hide DryDispatches, IsFor, DryKey, IsSent, DryNote, IsHex32, IsAddress;
    if IsHex32(req.runId) {
      if p :| Tryable(cfg, w, req, p) && IsFor(args, p, req.branchSha, DryKey(req.runId)) {
        TryableIsDispatched(cfg, w, req, args, p);
      }
    }
    if DryDispatches(cfg, w, req, args) {
      var p := DryDispatchIsTryable(cfg, w, req, args);
      TryableIsDispatched(cfg, w, req, args, p);
    }
  }

  lemma WhatIsDispatched(cfg: Config, w: World, log: Delivered, args: DispatchArgs) returns (p: Policy, r: Reference)
    requires StartDispatches(cfg, w, log, args)
    ensures IsAddress(log.family) && IsHex32(log.dealId) && Ref(log.family, log.dealId) in w.chain.terms
    ensures Agreed(p) && PolicyFingerprint(p) == w.chain.terms[Ref(log.family, log.dealId)].checkPolicy
    ensures ReferenceSchema(r) && ProofFingerprint(r) == log.proofHash
    ensures args == ArgsFor(p, PolicyFingerprint(p), r.sha, DealKey(log.dealId, log.revision))
    ensures args.inputsHash == InputsHash(p, PolicyFingerprint(p), r.sha)
  {
    hide StartDispatches, PolicyFingerprint, ProofFingerprint, ReferenceSchema, Agreed, IsAddress, IsHex32,
      Configured, DealKey, InputsHash,
      FetchDoc, RequiredCount, SameRepository;
    p, r := DispatchedIsReplayable(cfg, w, log, args);
    assert args == ArgsFor(p, PolicyFingerprint(p), r.sha, DealKey(log.dealId, log.revision));
  }

  lemma WhatIsLookedUp(cfg: Config, w: World, item: PendingItem, writes: nat, l: Lookup) returns (p: Policy,
      r: Reference)
    requires item.kind == DealItem && CollectLooksUp(cfg, w, item, writes, l)
    ensures IsAddress(item.family) && IsHex32(item.dealId) && item.revision >= 0
      && Ref(item.family, item.dealId) in w.chain.terms
    ensures Agreed(p) && PolicyFingerprint(p) == w.chain.terms[Ref(item.family, item.dealId)].checkPolicy
    ensures WasDelivered(w.chain, Ref(item.family, item.dealId), item.revision, ProofFingerprint(r))
    ensures l == CheckLookup(p, r, item.dealId, item.revision)
  {
    hide Admit, FindRun, LookupFor, Replay, EvidenceHash, BuildEvidence, AnswerTo, CheckLookup, WasDelivered, Agreed,
      PolicyFingerprint, ProofFingerprint;
    assert Admit(cfg, w, item).Go? && l == LookupFor(Admit(cfg, w, item));
    AdmittedDeal(cfg, w, item);
    p, r := Admit(cfg, w, item).policy, Admit(cfg, w, item).reference;
  }

  /**
   Whatever documents the index served at either end, the collector looks up exactly the commit and
   the inputs that were dispatched for the delivery Arc logged; and the same run name exactly when the
   index gives the deal id back in the letter case of the log.
   */
  lemma CollectFindsWhatStartSent(
    cfg: Config, w: World, log: Delivered, args: DispatchArgs,
    later: Config, v: World, item: PendingItem, writes: nat, l: Lookup)
    requires StartDispatches(cfg, w, log, args)
    requires item.kind == DealItem && CollectLooksUp(later, v, item, writes, l)
    requires Ref(item.family, item.dealId) == Ref(log.family, log.dealId) && item.revision == log.revision
    requires Precedes(w.chain, v.chain) && OneDeliveryARevision(v.chain)
    requires WasDelivered(v.chain, Ref(log.family, log.dealId), log.revision, log.proofHash)
    ensures l.runner == args.runner && l.sha == args.sha && l.inputsHash == args.inputsHash
    ensures l.dealKey == args.dealKey <==> item.dealId == log.dealId
    ensures RunTitle(l) == RunTitle(Lookup(args.runner, args.dealKey, args.sha, args.inputsHash))
      <==> item.dealId == log.dealId
  {
    hide Agreed, PolicyFingerprint, ProofFingerprint, WasDelivered, InputsHash, ReferenceSchema, RunTitle, Collect,
      Start, DealKey, OneDeliveryARevision, IsAddress;
    var p, r := WhatIsDispatched(cfg, w, log, args);
    var q, s := WhatIsLookedUp(later, v, item, writes, l);
    var ref := Ref(log.family, log.dealId);
    PolicyFingerprintBinds(p, q);
    OneProof(v.chain, ref, log.revision, log.proofHash, ProofFingerprint(s));
    ProofFingerprintBinds(r, s);
    DealKeyBinds(item.dealId, item.revision, log.dealId, log.revision);
    if RunTitle(l) == RunTitle(Lookup(args.runner, args.dealKey, args.sha, args.inputsHash)) {
      SchemaShaIsOneWord(r);
      DealKeyBinds(log.dealId, log.revision, log.dealId, log.revision);
      RunTitleBinds(l, Lookup(args.runner, args.dealKey, args.sha, args.inputsHash));
    }
  }

  /** Two replays sent under one run name are the same delivery of the same deal with the same inputs. */
  lemma OneNameOneDelivery(cfg: Config, w: World, log: Delivered, a: DispatchArgs, v: World, other: Delivered,
      b: DispatchArgs)
    requires StartDispatches(cfg, w, log, a) && StartDispatches(cfg, v, other, b)
    requires RunTitle(Lookup(a.runner, a.dealKey, a.sha, a.inputsHash))
      == RunTitle(Lookup(b.runner, b.dealKey, b.sha, b.inputsHash))
    ensures log.dealId == other.dealId && log.revision == other.revision
    ensures a.sha == b.sha && a.policyHash == b.policyHash && a.targetRepo == b.targetRepo && a.items == b.items
      && a.setup == b.setup
  {
    hide PolicyFingerprint, ProofFingerprint, InputsHash, RunTitle, Start, DealKey, IsAddress, PolicySchema;
    var p, r := WhatIsDispatched(cfg, w, log, a);
    var q, s := WhatIsDispatched(cfg, v, other, b);
    SchemaShaIsOneWord(r);
    SchemaShaIsOneWord(s);
    DealKeyBinds(log.dealId, log.revision, other.dealId, other.revision);
    DealKeyBinds(other.dealId, other.revision, log.dealId, log.revision);
    RunTitleBinds(Lookup(a.runner, a.dealKey, a.sha, a.inputsHash), Lookup(b.runner, b.dealKey, b.sha, b.inputsHash));
    InputsHashBinds(p, PolicyFingerprint(p), r.sha, q, PolicyFingerprint(q), s.sha);
  }

  /** Every accepted dry-run request is sent under a key the collector accepts and reads back as its run id. */
  lemma DryRunKeyIsAccepted(cfg: Config, w: World, req: DryRunRequest, args: DispatchArgs)
    requires DryDispatches(cfg, w, req, args)
    ensures IsHex32(req.runId) && IsDryKey(args.dealKey) && RunIdOf(args.dealKey) == Lower(req.runId)
    ensures args.sha == req.branchSha && FeeState(w, req.runId) == FEE_OPEN
  {
    hide DryDispatches, IsHex32, IsHex40, IsAddress, IsDryKey, DryKey, RunIdOf, Lower, Agreed, RequiredCount,
      PolicyFingerprint, Configured, InputsHash;
    var p := DryDispatchIsTryable(cfg, w, req, args);
    DryKeyReadsBack(req.runId, req.runId, req.dealId, 0);
  }

  lemma WhatIsLookedUpDry(cfg: Config, w: World, item: PendingItem, writes: nat, l: Lookup) returns (p: Policy,
      r: Reference)
    requires item.kind != DealItem && CollectLooksUp(cfg, w, item, writes, l)
    ensures PassesAsDry(cfg, w, item, p, r) && l == DryLookup(p, r, item.dealKey)
  {
    hide Admit, FindRun, LookupFor, Replay, EvidenceHash, BuildEvidence, AnswerTo, DryLookup, PassesAsDry;
    var go := Admit(cfg, w, item);
    assert go.Go? && l == LookupFor(go);
    p, r := go.policy, go.reference;
    AdmittedIffPassesAsDry(cfg, w, item, p, r);
    DryItemLookup(cfg, w, item);
  }

  /**
   Whatever an item that is not of kind 'deal' names, the collector looks up the run a dry run was sent
   under exactly when the item brings back its key, a reference with its commit, and a deal whose terms
   fingerprint the policy that was sent; for the requested deal itself, exactly on key and commit.
   */
  lemma CollectFindsTheDryRun(
    cfg: Config, w: World, req: DryRunRequest, args: DispatchArgs,
    later: Config, v: World, item: PendingItem, writes: nat, l: Lookup)
    requires DryDispatches(cfg, w, req, args)
    requires item.kind != DealItem && CollectLooksUp(later, v, item, writes, l)
    ensures Ref(item.family, item.dealId) in v.chain.terms && item.reference.ReferenceDoc?
    ensures var sent := Lookup(args.runner, args.dealKey, args.sha, args.inputsHash);
      RunTitle(l) == RunTitle(sent) <==>
        && item.dealKey == args.dealKey && item.reference.reference.sha == args.sha
        && v.chain.terms[Ref(item.family, item.dealId)].checkPolicy == args.policyHash
    ensures var sent := Lookup(args.runner, args.dealKey, args.sha, args.inputsHash);
      Ref(item.family, item.dealId) == Ref(req.family, req.dealId) && Precedes(w.chain, v.chain) ==>
        && l.runner == args.runner
        && (RunTitle(l) == RunTitle(sent) <==>
              item.dealKey == args.dealKey && item.reference.reference.sha == args.sha)
  {
    hide DryDispatches, PolicyFingerprint, InputsHash, ReferenceSchema, RunTitle, Collect, DryKey, IsAddress, IsHex32,
      IsHex40, IsDryKey, Configured, RequiredCount, FeeState, RunnerPinned, PolicySchema;
    var p := DryDispatchIsTryable(cfg, w, req, args);
    var q, s := WhatIsLookedUpDry(later, v, item, writes, l);
    var sent := Lookup(args.runner, args.dealKey, args.sha, args.inputsHash);
    DryKeyOf(req.runId);
    DryKeyIsOneWord(args.dealKey);
    DryKeyIsOneWord(item.dealKey);
    SchemaShaIsOneWord(s);
    RequestedShaIsOneWord(req);
    SchemaShaIsHex(s);
    if RunTitle(l) == RunTitle(sent) {
      RunTitleBinds(l, sent);
      InputsHashBinds(q, PolicyFingerprint(q), s.sha, p, PolicyFingerprint(p), req.branchSha);
    }
    if PolicyFingerprint(p) == PolicyFingerprint(q) { PolicyFingerprintBinds(p, q); }
  }

  lemma RequestedShaIsOneWord(req: DryRunRequest)
    requires WellFormedRequest(req)
    ensures IsHex40(req.branchSha) && Lacks(req.branchSha, SPACE)
  {
  }

  lemma SchemaShaIsHex(r: Reference)
    requires ReferenceSchema(r)
    ensures IsHex40(r.sha)
  {
  }

  // ---- What is noted comes back ----

  /** A note as the index serves it again, with the documents it holds. */
  function Indexed(note: StartNote, policy: Doc, reference: Doc): PendingItem {
    PendingItem(note.kind, note.dealKey, note.family, note.dealId, note.revision,
                if note.deliveredBlock.Some? then Some(note.deliveredBlock.value.0) else None,
                if note.deliveredBlock.Some? then Some(note.deliveredBlock.value.1) else None, policy, reference)
  }

  /** Arc has moved on, but this delivery is still the one to decide, and its log is in the block it was read in. */
  ghost predicate StillDelivered(c: Chain, log: Delivered, item: PendingItem) {
    && Ref(log.family, log.dealId) in c.deals
    && c.deals[Ref(log.family, log.dealId)] == Deal(AGREEMENT_ACCEPTED, log.revision, false, false)
    && log.blockHash != [] && IsLoggedAs(c, item, log.proofHash)
  }

  /**
   What dispatch notes is enough to collect by: an index that gives a note back as it was, with the documents
   it served, has the item admitted and the dispatched run looked up, for as long as the delivery stands.
   */
  lemma NotedReplayIsLookedUp(cfg: Config, w: World, log: Delivered, args: DispatchArgs, note: StartNote, v: World,
      writes: nat) returns (item: PendingItem)
    requires StartDispatches(cfg, w, log, args) && Started(note) in Start(cfg, w, log).value.1
    requires Precedes(w.chain, v.chain)
    ensures Ref(log.family, log.dealId) in w.chain.terms && log.proofHash in w.docs
      && w.chain.terms[Ref(log.family, log.dealId)].checkPolicy in w.docs
    ensures item == Indexed(note, w.docs[w.chain.terms[Ref(log.family, log.dealId)].checkPolicy], w.docs[log.proofHash])
    ensures StillDelivered(v.chain, log, item) ==>
      && Admit(cfg, v, item).Go?
      && LookedUp(Lookup(args.runner, args.dealKey, args.sha, args.inputsHash)) in Collect(cfg, v, item, writes).effects
  {
    hide PolicyFingerprint, ProofFingerprint, ReferenceSchema, Agreed, IsAddress, IsHex32, Configured, InputsHash,
      DealKey, RequiredCount, SameRepository, IsLoggedAs, StartDispatches, Collect, Admit, FindRun;
    var p, r := DispatchedIsReplayable(cfg, w, log, args);
    ReplayableIsDispatched(cfg, w, log, args, p, r);
    hide Start;
    assert note == DealNote(log, p);
    item := Indexed(note, PolicyDoc(p), ReferenceDoc(r));
    if StillDelivered(v.chain, log, item) {
      ItemProofIsLogged(v, item, log.proofHash);
      assert Genuine(cfg, v, item, p, r);
      AdmittedIffGenuine(cfg, v, item, p, r);
      AdmittedDeal(cfg, v, item);
      AdmittedLooksUp(cfg, v, item, writes);
    }
  }

  lemma AdmittedLooksUp(cfg: Config, w: World, item: PendingItem, writes: nat)
    requires Admit(cfg, w, item).Go?
    ensures LookedUp(LookupFor(Admit(cfg, w, item))) in Collect(cfg, w, item, writes).effects
  {
    hide Admit, FindRun, LookupFor, Replay, EvidenceHash, BuildEvidence, AnswerTo, IsDryKey, RunIdOf;
  }

  /** And so for a dry run, at any later time. */
  lemma NotedDryRunIsLookedUp(cfg: Config, w: World, req: DryRunRequest, args: DispatchArgs, note: StartNote, v: World,
      writes: nat) returns (item: PendingItem)
    requires DryDispatches(cfg, w, req, args) && Started(note) in StartDry(cfg, w, req).value.1
    requires Precedes(w.chain, v.chain)
    ensures Ref(req.family, req.dealId) in w.chain.terms && note.reference.ByValue?
      && w.chain.terms[Ref(req.family, req.dealId)].checkPolicy in w.docs
    ensures item == Indexed(note, w.docs[w.chain.terms[Ref(req.family, req.dealId)].checkPolicy],
      ReferenceDoc(note.reference.reference))
    ensures Admit(cfg, v, item).Go? && LookedUp(Lookup(args.runner, args.dealKey, args.sha, args.inputsHash))
      in Collect(cfg, v, item, writes).effects
  {
    hide PolicyFingerprint, Agreed, IsAddress, IsHex32, IsHex40, IsDryKey, Configured, InputsHash, DryKey,
      RequiredCount, DryDispatches, Collect, Admit, FindRun, Lower;
    var p := DryDispatchIsTryable(cfg, w, req, args);
    TryableIsDispatched(cfg, w, req, args, p);
    hide StartDry;
    assert note == DryNote(req, p);
    var r := note.reference.reference;
    item := Indexed(note, PolicyDoc(p), ReferenceDoc(r));
    DryKeyOf(req.runId);
    AgreedRepository(p);
    assert PassesAsDry(cfg, v, item, p, r);
    AdmittedIffPassesAsDry(cfg, v, item, p, r);
    DryItemLookup(cfg, v, item);
    AdmittedLooksUp(cfg, v, item, writes);
  }

  lemma AgreedRepository(p: Policy)
    requires Agreed(p)
    ensures RepositorySchema(p.repository)
  {
  }
}
