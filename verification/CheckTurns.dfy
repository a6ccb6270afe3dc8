/**
 What one turn of karwan-check decides, does and leaves behind, each in its own case: refusals, outcomes,
 what is written and posted, and which items leave the index. On Arc an accepted deal is in state 2, a held
 fee run in state 1 and a released one in state 2.
 */
module CheckTurns {
  import opened Texts
  import opened Documents
  import opened Verdict
  import opened Runs
  import opened CheckRules
  import opened CheckSafety

  // ---- Why an item is stopped ----

  /** The item's deal can be read, and its terms name a verifier of ours. */
  ghost predicate IsOurs(cfg: Config, c: Chain, family: Text, dealId: Text) {
    && IsAddress(family) && IsHex32(dealId) && Ref(family, dealId) in c.terms
    && exists v :: v in cfg.verifiers && Lower(v) == Lower(c.terms[Ref(family, dealId)].verifier)
  }

  ghost predicate IsReadable(c: Chain, family: Text, dealId: Text) {
    IsAddress(family) && IsHex32(dealId) && Ref(family, dealId) in c.terms
  }

  /** This document is the policy the terms fingerprint, fit to be used under them. */
  ghost predicate IsThePolicy(raw: Doc, terms: Terms) {
    && raw.PolicyDoc? && Agreed(raw.policy) && PolicyFingerprint(raw.policy) == terms.checkPolicy
    && (raw.policy.partialAt.Some? ==>
          terms.partialBps > 0 && raw.policy.partialAt.value < RequiredCount(raw.policy.items))
  }

  ghost predicate IsTheReference(raw: Doc, hash: Digest) {
    raw.ReferenceDoc? && ReferenceSchema(raw.reference) && ProofFingerprint(raw.reference) == hash
  }

  lemma LoadsThePolicy(raw: Doc, terms: Terms)
    ensures var p := LoadPolicy(raw, terms.checkPolicy, terms.partialBps > 0);
      (p.Some? <==> IsThePolicy(raw, terms)) && (p.Some? ==> raw == PolicyDoc(p.value))
  {
    hide PolicyFingerprint, Agreed, RequiredCount;
    if raw.PolicyDoc? { ParsedIff(raw, terms.partialBps > 0, raw.policy); }
    var parsed := ParsePolicy(raw, terms.partialBps > 0);
    if parsed.Parsed? { ParsedIff(raw, terms.partialBps > 0, parsed.policy); }
  }

  lemma OursIsConfigured(cfg: Config, c: Chain, family: Text, dealId: Text)
    ensures var terms := ReadTerms(c, family, dealId);
      && (terms.Some? <==> IsReadable(c, family, dealId))
      && (terms.Some? ==> terms.value == c.terms[Ref(family, dealId)])
      && (IsOurs(cfg, c, family, dealId) <==> terms.Some? && Configured(cfg, terms.value.verifier))
  {
    hide IsAddress, IsHex32;
    if IsOurs(cfg, c, family, dealId) {
      var v :| v in cfg.verifiers && Lower(v) == Lower(c.terms[Ref(family, dealId)].verifier);
      var i :| 0 <= i < |cfg.verifiers| && cfg.verifiers[i] == v;
    }
  }

  /** Arc logged this delivery in the block the item names: the first log of that block and revision. */
  ghost predicate IsLoggedAs(c: Chain, item: PendingItem, hash: Digest) {
    && item.deliveredBlockHash.Some? && item.deliveredBlockHash.value != [] && item.deliveredBlockNumber.Some?
    && Ref(item.family, item.dealId) in c.logs
    && exists i :: FirstLog(c.logs[Ref(item.family, item.dealId)], item.revision, item.deliveredBlockHash.value,
         item.deliveredBlockNumber.value, i, hash)
  }

  ghost predicate FirstLog(logs: seq<DeliveredLog>, revision: int, blockHash: Text, number: int, i: int, hash: Digest) {
    && 0 <= i < |logs| && InBlock(logs[i], revision, blockHash, number) && logs[i].proofHash == hash
    && forall j | 0 <= j < i :: !InBlock(logs[j], revision, blockHash, number)
  }

  ghost predicate InBlock(log: DeliveredLog, revision: int, blockHash: Text, number: int) {
    log.revision == revision && log.blockNumber == number && Lower(log.blockHash) == Lower(blockHash)
  }

  /** The scan answers the proof hash of the first log that fits, and nothing when none does. */
  lemma {:induction false} ScanFindsTheFirst(logs: seq<DeliveredLog>, revision: int, blockHash: Text, number: int,
      hash: Digest)
    ensures DeliveredProof(logs, revision, blockHash, number) == Some(hash)
      <==> exists i :: FirstLog(logs, revision, blockHash, number, i, hash)
  {
    hide Lower;
    if logs != [] {
      var rest := logs[1..];
      ScanFindsTheFirst(rest, revision, blockHash, number, hash);
      if InBlock(logs[0], revision, blockHash, number) {
        if logs[0].proofHash == hash { assert FirstLog(logs, revision, blockHash, number, 0, hash); }
      } else {
        if i :| FirstLog(rest, revision, blockHash, number, i, hash) {
          assert FirstLog(logs, revision, blockHash, number, i + 1, hash);
        }
        if i :| FirstLog(logs, revision, blockHash, number, i, hash) {
          assert forall j | 0 <= j < i - 1 :: rest[j] == logs[j + 1];
          assert FirstLog(rest, revision, blockHash, number, i - 1, hash);
        }
      }
    }
  }

  lemma ItemProofIsLogged(w: World, item: PendingItem, hash: Digest)
    ensures ItemProof(w, item) == Some(hash) <==> IsLoggedAs(w.chain, item, hash)
  {
    hide DeliveredProof, FirstLog;
    if item.deliveredBlockHash.Some? && item.deliveredBlockNumber.Some? {
      ScanFindsTheFirst(LogsOf(w.chain, item.family, item.dealId), item.revision, item.deliveredBlockHash.value,
        item.deliveredBlockNumber.value, hash);
      NoLogs(item.revision, item.deliveredBlockHash.value, item.deliveredBlockNumber.value, hash);
    }
  }

  lemma NoLogs(revision: int, blockHash: Text, number: int, hash: Digest)
    ensures !exists i :: FirstLog([], revision, blockHash, number, i, hash)
  {
  }

  /** The item's reference is the delivered one, for the agreed repository. */
  ghost predicate IsProven(c: Chain, item: PendingItem, p: Policy) {
    && item.reference.ReferenceDoc? && ReferenceSchema(item.reference.reference)
    && IsLoggedAs(c, item, ProofFingerprint(item.reference.reference))
    && SameRepository(item.reference.reference.repository, p.repository)
  }

  /** Each refusal is given exactly in its own case, and only a read that throws is not a refusal. */
  lemma StopTellsWhy(cfg: Config, w: World, item: PendingItem)
    ensures var ref := Ref(item.family, item.dealId); var c := w.chain; var go := Admit(cfg, w, item);
      var deal := item.kind == DealItem;
      var ours := IsOurs(cfg, c, item.family, item.dealId);
      var agreed := ours && IsThePolicy(item.policy, c.terms[ref]);
      var current := agreed && deal && ref in c.deals && c.deals[ref].state == 2
        && c.deals[ref].revision == item.revision;
      var undecided := current && !c.deals[ref].checkPassed && !c.deals[ref].checkFailed;
      var proven := if deal then undecided && IsProven(c, item, item.policy.policy)
        else agreed && IsDryKey(item.dealKey) && item.reference.ReferenceDoc?
             && ReferenceSchema(item.reference.reference);
      && (go.Throws? <==>
            !IsReadable(c, item.family, item.dealId) || (agreed && deal && ref !in c.deals))
      && (go == Stop(NotOurs) <==> IsReadable(c, item.family, item.dealId) && !ours)
      && (go == Stop(Stale) <==> agreed && deal && ref in c.deals && !current)
      && (go == Stop(AlreadyDecided) <==> current && !undecided)
      && (go == Stop(ReferenceMismatch) <==> (if deal then undecided else agreed) && !proven)
      && (go == Stop(PolicyMismatch) <==>
            ours && (!agreed || (proven && item.policy.policy.runner.repository != cfg.runnerRepo)))
      && (go.Go? <==> proven && item.policy.policy.runner.repository == cfg.runnerRepo)
  {
    OursIsConfigured(cfg, w.chain, item.family, item.dealId);
    hide IsAddress, IsHex32, Configured, IsThePolicy, PolicyFingerprint, ProofFingerprint, LoadPolicy, IsDryKey,
      ReferenceSchema, SameRepository, ItemProof, IsLoggedAs, DealKey, IsOurs, ReadTerms;
    if IsReadable(w.chain, item.family, item.dealId) {
      LoadsThePolicy(item.policy, w.chain.terms[Ref(item.family, item.dealId)]);
      if item.kind == DealItem { ProvenIsLoaded(w, item); }
    }
  }

  lemma ProvenIsLoaded(w: World, item: PendingItem)
    ensures var proof := ItemProof(w, item);
      var reference := if proof.Some? then LoadReference(item.reference, proof.value) else None;
      && (reference.Some? <==>
            item.reference.ReferenceDoc? && ReferenceSchema(item.reference.reference)
            && IsLoggedAs(w.chain, item, ProofFingerprint(item.reference.reference)))
      && (reference.Some? ==> item.reference == ReferenceDoc(reference.value))
  {
    hide ProofFingerprint, ReferenceSchema, ItemProof, IsLoggedAs;
    var proof := ItemProof(w, item);
    if proof.Some? { ItemProofIsLogged(w, item, proof.value); }
    if item.reference.ReferenceDoc? { ItemProofIsLogged(w, item, ProofFingerprint(item.reference.reference)); }
  }

  // ---- What a turn ends as, does and says ----

  /** No finished run yet, and still time for one. */
  ghost predicate IsAwaited(w: World, go: Admission)
    requires go.Go?
  {
    var run := FindRun(w.github, LookupFor(go));
    run.None? || (run.value.status != Completed
      && w.now <= run.value.createdAt + go.policy.timeoutMinutes * 60)
  }

  /** The report was written, taken, and Arc's latest block holds exactly it. */
  ghost predicate IsHeld(w: World, writes: nat, rep: Report)
    requires rep.CheckReport?
  {
    writes < |w.answers| && w.answers[writes].ok
    && w.answers[writes].held == HeldVerdict(true, rep.pass, rep.evidenceHash)
  }

  function EvidenceOf(w: World, go: Admission): Option<Evidence>
    requires go.Go?
  {
    match FindRun(w.github, LookupFor(go))
    case None => None
    case Some(run) =>
      Some(BuildEvidence(go.policy, go.reference, run, Replay(go.policy, go.reference, Some(run), w.now)))
  }

  /** What is decided for an admitted item. */
  function DecisionFor(w: World, go: Admission): Decision
    requires go.Go?
  {
    if !HasConfirmedRun(w, go) then Unavailable
    else if DeliveredAsAgreed(go.policy, go.reference, RunFor(w, go)) then Pass
    else Fail
  }

  lemma WhatTheRuleSays(w: World, go: Admission)
    requires go.Go?
    ensures var run := FindRun(w.github, LookupFor(go)); var v := Replay(go.policy, go.reference, run, w.now);
      && v.decision == DecisionFor(w, go)
      && (IsAwaited(w, go) <==> v.decision == Unavailable && (v.reason == RunPending || v.reason == RunMissing))
      && (IsAwaited(w, go) ==> !HasConfirmedRun(w, go))
  {
    hide FindRun, LookupFor, Replay, DeliveredAsAgreed, SameRepository, Succeeded, EveryRequiredSucceeded;
    DecidedIffConfirmed(w, go);
    var run := FindRun(w.github, LookupFor(go));
    VerdictIsTheRule(go.policy, go.reference, run, w.now);
    ReasonTellsWhy(go.policy, go.reference, run, w.now);
  }

  /** The report a turn writes for an admitted item with a confirmed run. */
  function DueReport(cfg: Config, w: World, item: PendingItem, go: Admission): Report
    requires HasConfirmedRun(w, go) && (item.kind == DryItem ==> IsDryKey(item.dealKey))
  {
    var run := RunFor(w, go);
    if item.kind == DryItem then
      DryReport(cfg.fees, RunIdOf(item.dealKey),
                EvidenceHash(BuildEvidence(go.policy, go.reference, run,
                  Replay(go.policy, go.reference, Some(run), w.now))), w.now)
    else ReportOf(w, item, go.terms.verifier, go.policy, go.reference, run)
  }

  /** Each outcome is given exactly in its own case. */
  lemma OutcomeTellsWhy(cfg: Config, w: World, item: PendingItem, writes: nat)
    ensures var o := Collect(cfg, w, item, writes).outcome; var go := Admit(cfg, w, item);
      var check := item.kind != DryItem;
      var confirmed := HasConfirmedRun(w, go);
      var sent := check && confirmed && cfg.attest
        && ReportOf(w, item, go.terms.verifier, go.policy, go.reference, RunFor(w, go)) !in w.refused;
      var held := sent && IsHeld(w, writes, ReportOf(w, item, go.terms.verifier, go.policy, go.reference,
        RunFor(w, go)));
      && (o == Some(Waiting) <==> go.Go? && IsAwaited(w, go))
      && (o == Some(Attested) <==> held)
      && (o == Some(WriteFailed) <==> sent && !held)
      && (o == Some(Shadow) <==> check && confirmed && !cfg.attest)
      && (o == Some(NoResult) <==> check && go.Go? && !IsAwaited(w, go) && !confirmed)
      && (o == Some(DryRun) <==> !check && go.Go? && !IsAwaited(w, go))
      && (go.Stop? ==> o == Some(go.outcome))
  {
    hide Admit, FindRun, LookupFor, Replay, EvidenceHash, BuildEvidence, IsAwaited, HasConfirmedRun,
      DeliveredAsAgreed, RunFor, IsDryKey, RunIdOf;
    StopsAreRefusals(cfg, w, item);
    var go := Admit(cfg, w, item);
    HasRun(w, go);
    if go.Go? { WhatTheRuleSays(w, go); }
  }

  lemma StopsAreRefusals(cfg: Config, w: World, item: PendingItem)
    ensures var go := Admit(cfg, w, item);
      && (go.Stop? ==> go.outcome in {Stale, AlreadyDecided, NotOurs, PolicyMismatch, ReferenceMismatch})
      && (go.Go? && item.kind == DryItem ==> IsDryKey(item.dealKey))
  {
    DryItemsHaveDryKeys(cfg, w, item);
    hide ReadTerms, LoadPolicy, IsDryKey, ReferenceSchema, Configured, ItemProof, ReadDeal, SameRepository, DealKey;
  }

  /**
   Everything a turn does, in order: it looks the run up for an admitted item; writes the report of a confirmed
   one when attesting, or for a dry run; and posts, unless it waits or a written check is not held, what was
   decided, with the evidence of whatever run there is, and for a dry run whether the fee was released.
   */
  lemma TurnDoes(cfg: Config, w: World, item: PendingItem, writes: nat)
    requires Collect(cfg, w, item, writes).outcome.Some?
    ensures var c := Collect(cfg, w, item, writes); var go := Admit(cfg, w, item);
      if !go.Go? then c.effects == [] && c.decision == None
      else
        var look := [LookedUp(LookupFor(go))]; var d := DecisionFor(w, go);
        if IsAwaited(w, go) then c.effects == look && c.decision == None
        else
          && c.decision == Some(d) && (item.kind == DryItem ==> IsDryKey(item.dealKey))
          && var wrote := if HasConfirmedRun(w, go) && (item.kind == DryItem || cfg.attest)
               then [Wrote(DueReport(cfg, w, item, go))] else [];
             var posted :=
               if item.kind == DryItem then
                 [PostedDryRun(item.dealKey, item.dealId, d, EvidenceOf(w, go), HasConfirmedRun(w, go)
                    && writes < |w.answers| && w.answers[writes].ok && w.answers[writes].feeState == 2)]
               else if c.outcome == Some(WriteFailed) then []
               else [PostedEvidence(item.dealKey, item.family, item.dealId, item.revision, d,
                       Replay(go.policy, go.reference, FindRun(w.github, LookupFor(go)), w.now).reason,
                       EvidenceOf(w, go), c.outcome == Some(Attested))];
             c.effects == look + wrote + posted
  {
    hide Admit, FindRun, LookupFor, Replay, EvidenceHash, BuildEvidence, IsAwaited, HasConfirmedRun,
      DeliveredAsAgreed, RunFor, IsDryKey, RunIdOf;
    StopsAreRefusals(cfg, w, item);
    var go := Admit(cfg, w, item);
    HasRun(w, go);
    if go.Go? {
      WhatTheRuleSays(w, go);
      ConfirmedIsSame(w, go);
    }
  }

  lemma ConfirmedIsSame(w: World, go: Admission)
    requires go.Go?
    ensures HasConfirmedRun(w, go) ==>
      (DecisionFor(w, go) == Pass <==> DeliveredAsAgreed(go.policy, go.reference, RunFor(w, go)))
    ensures DecisionFor(w, go) != Unavailable <==> HasConfirmedRun(w, go)
  {
    hide DeliveredAsAgreed, HasConfirmedRun, RunFor;
  }

  // ---- What leaves the index ----

  /** An item's turn closes it exactly when the gate stopped it, and with the gate's reason. */
  lemma ClosedIffStopped(cfg: Config, w: World, item: PendingItem, writes: nat, dealKey: Text, o: Outcome)
    ensures Closed(dealKey, o) in HereEffects(item, Collect(cfg, w, item, writes))
      <==> dealKey == item.dealKey && Admit(cfg, w, item) == Stop(o)
  {
    hide Admit, FindRun, LookupFor, Replay, EvidenceHash, BuildEvidence, AnswerTo, IsDryKey, RunIdOf, HasConfirmedRun,
      IsAwaited, ReportOf, IsHeld;
    StopsAreRefusals(cfg, w, item);
    OutcomeTellsWhy(cfg, w, item, writes);
    NothingClosedInside(cfg, w, item, writes);
    hide Collect;
  }

  lemma NothingClosedInside(cfg: Config, w: World, item: PendingItem, writes: nat)
    ensures forall e | e in Collect(cfg, w, item, writes).effects :: !e.Closed?
    ensures Admit(cfg, w, item).Go? ==> Collect(cfg, w, item, writes).outcome !in {
      Some(Stale), Some(AlreadyDecided), Some(NotOurs), Some(PolicyMismatch), Some(ReferenceMismatch) }
    ensures Admit(cfg, w, item).Throws? ==> Collect(cfg, w, item, writes).outcome == None
  {
    hide Admit, FindRun, LookupFor, Replay, EvidenceHash, BuildEvidence, AnswerTo, IsDryKey, RunIdOf;
  }

  /**
   A deal item is closed exactly when its deal can be read and it is genuine with no documents; so a genuine
   one is never closed, whatever its run is.
   */
  lemma DealItemIsClosedIff(cfg: Config, w: World, item: PendingItem, writes: nat)
    requires item.kind == DealItem
    ensures (exists o :: Closed(item.dealKey, o) in HereEffects(item, Collect(cfg, w, item, writes)))
      <==> !Admit(cfg, w, item).Throws? && !exists p, r :: Genuine(cfg, w, item, p, r)
  {
    hide Admit, Genuine, HereEffects, Collect;
    var go := Admit(cfg, w, item);
    if go.Stop? { ClosedIffStopped(cfg, w, item, writes, item.dealKey, go.outcome); }
    forall o ensures Closed(item.dealKey, o) in HereEffects(item, Collect(cfg, w, item, writes)) <==> go == Stop(o) {
      ClosedIffStopped(cfg, w, item, writes, item.dealKey, o);
    }
    if go.Go? { AdmittedIffGenuine(cfg, w, item, go.policy, go.reference); }
    if p, r :| Genuine(cfg, w, item, p, r) { AdmittedIffGenuine(cfg, w, item, p, r); }
  }

  /** With what number of written reports the i-th item's turn begins. */
  function WritesBefore(cfg: Config, w: World, items: seq<PendingItem>, writes: nat, i: nat): nat
    requires i <= |items|
  {
    if i == 0 then writes
    else WritesBefore(cfg, w, items[1..], writes + WritesIn(Collect(cfg, w, items[0], writes).effects), i - 1)
  }

  /** The i-th item has a turn: nothing before it throws. */
  ghost predicate IsReached(cfg: Config, w: World, items: seq<PendingItem>, i: int) {
    0 <= i < |items| && forall j | 0 <= j < i :: !EndsExecution(cfg, w, items[j])
  }

  lemma ReachedLater(cfg: Config, w: World, items: seq<PendingItem>, i: int)
    requires items != [] && i > 0
    ensures IsReached(cfg, w, items, i) <==> !EndsExecution(cfg, w, items[0]) && IsReached(cfg, w, items[1..], i - 1)
  {
    hide EndsExecution;
    assert forall j | 1 <= j < |items| :: items[j] == items[1..][j - 1];
  }

  /**
   An execution over a page: one result for each item in turn, with what its turn decided, up to the item that
   throws.
   */
  lemma {:induction false} PageIsItsTurns(cfg: Config, w: World, items: seq<PendingItem>, writes: nat)
    ensures var s := CollectAll(cfg, w, items, writes);
      && (s.threw <==> exists i | 0 <= i < |items| :: EndsExecution(cfg, w, items[i]))
      && |s.results| <= |items| && (!s.threw ==> |s.results| == |items|)
      && (s.threw ==> |s.results| < |items| && EndsExecution(cfg, w, items[|s.results|]))
      && forall i | 0 <= i < |s.results| ::
           && !EndsExecution(cfg, w, items[i])
           && var c := Collect(cfg, w, items[i], WritesBefore(cfg, w, items, writes, i));
              c.outcome.Some? && s.results[i] == Result(items[i].dealKey, c.outcome.value, c.decision)
  {
    hide Collect, EndsExecution, HereEffects;
    if items != [] {
      var c := Collect(cfg, w, items[0], writes);
      var next, rest := writes + WritesIn(c.effects), items[1..];
      OnlyThrowsEnd(cfg, w, items[0], writes);
      PageIsItsTurns(cfg, w, rest, next);
      var s, t := CollectAll(cfg, w, items, writes), CollectAll(cfg, w, rest, next);
      assert forall i | 1 <= i < |items| :: items[i] == rest[i - 1];
      if c.outcome.Some? {
        assert forall i | 1 <= i < |s.results| :: s.results[i] == t.results[i - 1];
        if i :| 0 <= i < |rest| && EndsExecution(cfg, w, rest[i]) { assert EndsExecution(cfg, w, items[i + 1]); }
      }
    }
  }

  function Flat<T>(parts: seq<seq<T>>): seq<T> { if parts == [] then [] else parts[0] + Flat(parts[1..]) }

  /** What the i-th item's turn does and, when the gate stopped it, its closing. */
  function TurnAt(cfg: Config, w: World, items: seq<PendingItem>, writes: nat, i: nat): seq<Effect>
    requires i < |items|
  {
    var go := Admit(cfg, w, items[i]);
    Collect(cfg, w, items[i], WritesBefore(cfg, w, items, writes, i)).effects
    + if go.Stop? then [Closed(items[i].dealKey, go.outcome)] else []
  }

  lemma HereIsTheTurn(cfg: Config, w: World, item: PendingItem, writes: nat)
    ensures var go := Admit(cfg, w, item); var c := Collect(cfg, w, item, writes);
      HereEffects(item, c) == c.effects + if go.Stop? then [Closed(item.dealKey, go.outcome)] else []
  {
    NothingClosedInside(cfg, w, item, writes);
    OutcomeTellsWhy(cfg, w, item, writes);
    StopsAreRefusals(cfg, w, item);
    hide Collect, Admit, IsAwaited, HasConfirmedRun, IsHeld, ReportOf, RunFor;
  }

  /** The trace of an execution is its turns, one after another, the last of them the one that threw. */
  lemma {:induction false} TraceIsItsTurns(cfg: Config, w: World, items: seq<PendingItem>, writes: nat)
    ensures var s := CollectAll(cfg, w, items, writes); var n := |s.results| + if s.threw then 1 else 0;
      && n <= |items|
      && s.effects == Flat(seq(n, i requires 0 <= i < n && n <= |items| => TurnAt(cfg, w, items, writes, i)))
  {
    hide Collect, Admit, HereEffects;
    var s := CollectAll(cfg, w, items, writes);
    if items != [] {
      var c := Collect(cfg, w, items[0], writes);
      var next, rest := writes + WritesIn(c.effects), items[1..];
      HereIsTheTurn(cfg, w, items[0], writes);
      var n := |s.results| + if s.threw then 1 else 0;
      TraceIsItsTurns(cfg, w, rest, next);
      var turns := seq(n, i requires 0 <= i < n && n <= |items| => TurnAt(cfg, w, items, writes, i));
      assert turns[0] == HereEffects(items[0], c);
      if c.outcome.None? {
        assert turns[1..] == [];
        assert turns[0] + [] == turns[0];
      } else {
        assert turns[1..] == seq(n - 1, i requires 0 <= i < n - 1 && n - 1 <= |rest| => TurnAt(cfg, w, rest, next, i));
      }
    }
  }

  /** The execution comes to the i-th item, which has this key, and the gate stops it for this reason. */
  ghost predicate StopsAt(cfg: Config, w: World, items: seq<PendingItem>, i: int, dealKey: Text, o: Outcome) {
    IsReached(cfg, w, items, i) && items[i].dealKey == dealKey && Admit(cfg, w, items[i]) == Stop(o)
  }

  /** What leaves the index is exactly the items reached that the gate stopped. */
  lemma {:induction false} PageClosesTheStopped(cfg: Config, w: World, items: seq<PendingItem>, writes: nat,
      dealKey: Text, o: Outcome)
    ensures Closed(dealKey, o) in CollectAll(cfg, w, items, writes).effects
      <==> exists i :: StopsAt(cfg, w, items, i, dealKey, o)
  {
    hide Collect, HereEffects, Admit;
    if items == [] {
      NothingReached(cfg, w, dealKey, o);
    } else {
      var c := Collect(cfg, w, items[0], writes);
      var next, rest := writes + WritesIn(c.effects), items[1..];
      OnlyThrowsEnd(cfg, w, items[0], writes);
      ClosedIffStopped(cfg, w, items[0], writes, dealKey, o);
      hide EndsExecution;
      if c.outcome.Some? { PageClosesTheStopped(cfg, w, rest, next, dealKey, o); }
      StopsHereOrLater(cfg, w, items, dealKey, o);
    }
  }

  lemma StopsHereOrLater(cfg: Config, w: World, items: seq<PendingItem>, dealKey: Text, o: Outcome)
    requires items != []
    ensures (exists i :: StopsAt(cfg, w, items, i, dealKey, o)) <==>
      || (items[0].dealKey == dealKey && Admit(cfg, w, items[0]) == Stop(o))
      || (!EndsExecution(cfg, w, items[0]) && exists i :: StopsAt(cfg, w, items[1..], i, dealKey, o))
  {
    hide Admit, EndsExecution;
    var rest := items[1..];
    forall i | i > 0
      ensures StopsAt(cfg, w, items, i, dealKey, o)
        <==> !EndsExecution(cfg, w, items[0]) && StopsAt(cfg, w, rest, i - 1, dealKey, o)
    {
      ReachedLater(cfg, w, items, i);
    }
    if items[0].dealKey == dealKey && Admit(cfg, w, items[0]) == Stop(o) {
      assert StopsAt(cfg, w, items, 0, dealKey, o);
    }
    if !EndsExecution(cfg, w, items[0]) {
      if i :| StopsAt(cfg, w, rest, i, dealKey, o) { assert StopsAt(cfg, w, items, i + 1, dealKey, o); }
    }
  }

  lemma NothingReached(cfg: Config, w: World, dealKey: Text, o: Outcome)
    ensures forall i :: !StopsAt(cfg, w, [], i, dealKey, o)
  {
  }

  /** No more than the limit are taken from what the index serves, from its front. */
  lemma PageIsTheFront(cfg: Config, w: World)
    ensures PageOf(cfg, w) <= w.page
    ensures |PageOf(cfg, w)| == if |w.page| <= cfg.maxItems then |w.page| else cfg.maxItems
  {
  }

  // ---- Why a replay is not started ----

  /** Each refusal to start a replay is given exactly in its own case. */
  lemma StartTellsWhy(cfg: Config, w: World, log: Delivered)
    ensures var ref := Ref(log.family, log.dealId); var c := w.chain; var s := Start(cfg, w, log);
      var ours := IsOurs(cfg, c, log.family, log.dealId);
      var known := ours && ref in c.deals;
      var current := known && c.deals[ref].state == 2 && c.deals[ref].revision == log.revision;
      var served := current && c.terms[ref].checkPolicy in w.docs;
      var agreed := served && IsThePolicy(w.docs[c.terms[ref].checkPolicy], c.terms[ref]);
      var shown := agreed && log.proofHash in w.docs;
      var referred := shown && IsTheReference(w.docs[log.proofHash], log.proofHash);
      var policy := if agreed then w.docs[c.terms[ref].checkPolicy].policy else NO_POLICY;
      var reference := if referred then w.docs[log.proofHash].reference else NO_REFERENCE;
      var same := referred && SameRepository(reference.repository, policy.repository);
      var pull := (RepoName(policy), reference.pull);
      var open := same && (policy.delivery == Pull ==> pull in w.pulls);
      var heads := open && (policy.delivery == Pull ==> w.pulls[pull] == PullHead(reference.sha, policy.baseBranch));
      var pinned := heads && policy.runner.repository == cfg.runnerRepo && cfg.runnerRepo in w.runnerBlobs
        && w.runnerBlobs[cfg.runnerRepo] == policy.runner.blobSha;
      && (s.None? <==> !IsReadable(c, log.family, log.dealId) || (ours && !known))
      && (s.Some? ==> var o := s.value.0;
            && (o == StartNotOurs <==> !ours) && (o == StartStale <==> known && !current)
            && (o == PolicyUnavailable <==> current && !served) && (o == StartPolicyMismatch <==> served && !agreed)
            && (o == ReferenceUnavailable <==> (agreed && !shown) || (same && !open))
            && (o == StartReferenceMismatch <==> (shown && !same) || (open && !heads))
            && (o == StartRunnerNotPinned <==> heads && !pinned)
            && (o == DispatchFailed <==> pinned && !w.dispatchOk) && (o == WasDispatched <==> pinned && w.dispatchOk))
  {
    OursIsConfigured(cfg, w.chain, log.family, log.dealId);
    hide IsAddress, IsHex32, Configured, IsThePolicy, PolicyFingerprint, ProofFingerprint, LoadPolicy,
      ReferenceSchema, SameRepository, DealKey, IsOurs, ReadTerms, ArgsFor, RepoName;
    if IsReadable(w.chain, log.family, log.dealId) {
      var terms := w.chain.terms[Ref(log.family, log.dealId)];
      if terms.checkPolicy in w.docs { LoadsThePolicy(w.docs[terms.checkPolicy], terms); }
    }
  }

  const NO_POLICY := Policy(Repository([], [], 0), [], Commit, None, [], None, Runner([], []), 0)
  const NO_REFERENCE := Reference(Repository([], [], 0), 0, [])

  /** And so is each refusal of a dry run. */
  lemma StartDryTellsWhy(cfg: Config, w: World, req: DryRunRequest)
    ensures var ref := Ref(req.family, req.dealId); var c := w.chain; var s := StartDry(cfg, w, req);
      var formed := IsHex32(req.runId) && IsHex40(req.branchSha) && IsHex32(req.dealId) && IsAddress(req.family)
        && (req.pull.Some? ==> req.pull.value > 0);
      var ours := formed && IsOurs(cfg, c, req.family, req.dealId);
      var served := ours && c.terms[ref].checkPolicy in w.docs;
      var agreed := served && IsThePolicy(w.docs[c.terms[ref].checkPolicy], c.terms[ref]);
      var runner := if agreed then w.docs[c.terms[ref].checkPolicy].policy.runner else Runner([], []);
      var pinned := agreed && runner.repository == cfg.runnerRepo && cfg.runnerRepo in w.runnerBlobs
        && w.runnerBlobs[cfg.runnerRepo] == runner.blobSha;
      var paid := pinned && Lower(req.runId) in w.fees && w.fees[Lower(req.runId)] == 1;
      && (s.None? <==> formed && !IsReadable(c, req.family, req.dealId))
      && (s.Some? ==> var o := s.value.0;
            && (o == BadRequest <==> !formed) && (o == StartNotOurs <==> formed && !ours)
            && (o == PolicyUnavailable <==> ours && !served) && (o == StartPolicyMismatch <==> served && !agreed)
            && (o == StartRunnerNotPinned <==> agreed && !pinned) && (o == NotPaid <==> pinned && !paid)
            && (o == DispatchFailed <==> paid && !w.dispatchOk) && (o == WasDispatched <==> paid && w.dispatchOk))
  {
    OursIsConfigured(cfg, w.chain, req.family, req.dealId);
    hide IsAddress, IsHex32, IsHex40, Configured, IsThePolicy, PolicyFingerprint, LoadPolicy, DryKey, IsOurs, ReadTerms,
      ArgsFor, Lower;
    if IsReadable(w.chain, req.family, req.dealId) {
      var terms := w.chain.terms[Ref(req.family, req.dealId)];
      if terms.checkPolicy in w.docs { LoadsThePolicy(w.docs[terms.checkPolicy], terms); }
    }
  }
}
