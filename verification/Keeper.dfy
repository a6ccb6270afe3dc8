/**
 The karwan-risk keeper: which timeouts an Agreement deal may be due, and a budgeted sweep over a
 rotating page of the watch list that simulates them and reports those the chain confirms.
 */
module Keeper {
  import opened Texts
  import opened Lists
  import opened Runs
  import C = CheckRules

  const DAY := 86_400
  const APPEAL_WINDOW := 3 * DAY
  const RULING_PERIOD := 5 * DAY
  const PROPOSAL_WINDOW := 5 * DAY
  const ACCEPTED := 2
  const DISPUTED := 3
  const FINISHED := 4
  const MAX_CALLS := 4
  const MAX_READS := 15

  /** The calls that may be in a report; a signature stands for its selector. */
  const KEEP_SIGNATURES: set<string> := {
    "claim(bytes32)", "reclaim(bytes32)", "cancelMissed(bytes32)", "executeRuling(bytes32)", "applyFallback(bytes32)",
    "retryRecord(bytes32,uint8)", "settle(bytes32,uint16)", "close(bytes32)", "executeRuling(bytes32,uint16)",
    "applyFallback(bytes32,uint16)", "release(uint256)", "confirmRejection(uint256)", "claimRefund(uint256)",
    "executeRuling(uint256)", "applyFallback(uint256)" }

  datatype CallArgs = DealArg(dealId: Text) | DealPartyArg(dealId: Text, party: int) | HexArg(hex: Text)

  datatype KeepCall = KeepCall(family: Text, signature: string, args: CallArgs)

  datatype AgreementView = AgreementView(state: int, deliveredAt: int, deadline: int, reviewEnd: int, checkFailed: bool)

  datatype DisputeView = DisputeView(openedAt: int, proposed: bool, escalated: bool, proposedAt: int, escalatedAt: int)

  datatype AlertKind = DeadlineNearNoDelivery | DisputeNoProposal | RulingDue | OwedBalance

  datatype Alert = Alert(kind: AlertKind, family: Text, dealId: Text)

  // ---- What a deal may be due ----

  /** The condition on each timeout; the contract confirms it, so this only has to be right in time. */
  predicate IsDue(signature: string, d: AgreementView, x: DisputeView, now: int) {
    || (signature == "claim(bytes32)" && d.state == ACCEPTED && d.deliveredAt > 0 && d.reviewEnd > 0
       && now >= d.reviewEnd && !d.checkFailed)
    || (signature == "reclaim(bytes32)" && d.state == ACCEPTED && now > d.deadline)
    || (signature == "executeRuling(bytes32)" && d.state == DISPUTED && x.proposed && !x.escalated
       && now >= x.proposedAt + APPEAL_WINDOW)
    || (signature == "applyFallback(bytes32)" && d.state == DISPUTED && x.escalated
       && now >= x.escalatedAt + RULING_PERIOD)
    || (signature == "retryRecord(bytes32,uint8)" && d.state >= FINISHED)
  }

  function WhenDue(family: Text, dealId: Text, signature: string, d: AgreementView, x: DisputeView,
      now: int): seq<KeepCall> {
    if IsDue(signature, d, x, now) then [KeepCall(family, signature, DealArg(dealId))] else []
  }

  function Retries(family: Text, dealId: Text, d: AgreementView): seq<KeepCall> {
    if d.state >= FINISHED then
      [KeepCall(family, "retryRecord(bytes32,uint8)", DealPartyArg(dealId, 0)),
        KeepCall(family, "retryRecord(bytes32,uint8)", DealPartyArg(dealId, 1))]
    else []
  }

  function Candidates(family: Text, dealId: Text, d: AgreementView, x: DisputeView, now: int): (r: seq<KeepCall>)
    ensures |r| <= 2
  {
    WhenDue(family, dealId, "claim(bytes32)", d, x, now) + WhenDue(family, dealId, "reclaim(bytes32)", d, x, now)
    + Retries(family, dealId, d)
    + WhenDue(family, dealId, "executeRuling(bytes32)", d, x, now)
      + WhenDue(family, dealId, "applyFallback(bytes32)", d, x, now)
  }

  method AgreementCandidates(family: Text, dealId: Text, d: AgreementView, dispute: DisputeView,
      now: int) returns (out: seq<KeepCall>)
    ensures out == Candidates(family, dealId, d, dispute, now)
  {
    out := [];
    if d.state == ACCEPTED {
      if d.deliveredAt > 0 && d.reviewEnd > 0 && now >= d.reviewEnd && !d.checkFailed {
        out := out + [KeepCall(family, "claim(bytes32)", DealArg(dealId))];
      }
      if now > d.deadline { out := out + [KeepCall(family, "reclaim(bytes32)", DealArg(dealId))]; }
    } else if d.state >= FINISHED {
      for party := 0 to 2
        invariant out == Retries(family, dealId, d)[..party]
      {
        out := out + [KeepCall(family, "retryRecord(bytes32,uint8)", DealPartyArg(dealId, party))];
      }
    } else if d.state == DISPUTED {
      if dispute.proposed && !dispute.escalated && now >= dispute.proposedAt + APPEAL_WINDOW {
        out := out + [KeepCall(family, "executeRuling(bytes32)", DealArg(dealId))];
      }
      if dispute.escalated && now >= dispute.escalatedAt + RULING_PERIOD {
        out := out + [KeepCall(family, "applyFallback(bytes32)", DealArg(dealId))];
      }
    }
  }

  function Alerts(family: Text, dealId: Text, d: AgreementView, x: DisputeView, now: int): seq<Alert> {
    (if d.state == ACCEPTED && d.deliveredAt == 0 && 0 < d.deadline - now <= DAY
     then [Alert(DeadlineNearNoDelivery, family, dealId)] else [])
    + (if d.state == DISPUTED && !x.proposed && !x.escalated && now - x.openedAt >= PROPOSAL_WINDOW - DAY
       then [Alert(DisputeNoProposal, family, dealId)] else [])
    + (if d.state == DISPUTED && x.escalated && now - x.escalatedAt >= RULING_PERIOD - DAY
       then [Alert(RulingDue, family, dealId)] else [])
  }

  method AgreementAlerts(family: Text, dealId: Text, d: AgreementView, dispute: DisputeView,
      now: int) returns (out: seq<Alert>)
    ensures out == Alerts(family, dealId, d, dispute, now)
  {
    out := [];
    if d.state == ACCEPTED && d.deliveredAt == 0 && d.deadline > now && d.deadline - now <= DAY {
      out := out + [Alert(DeadlineNearNoDelivery, family, dealId)];
    }
    if d.state == DISPUTED {
      if !dispute.proposed && !dispute.escalated && now - dispute.openedAt >= PROPOSAL_WINDOW - DAY {
        out := out + [Alert(DisputeNoProposal, family, dealId)];
      }
      if dispute.escalated && now - dispute.escalatedAt >= RULING_PERIOD - DAY {
        out := out + [Alert(RulingDue, family, dealId)];
      }
    }
  }

  /** Each candidate is a timeout whose condition holds, on this deal, and each such timeout is a candidate. */
  lemma CandidatesAreDue(family: Text, dealId: Text, d: AgreementView, x: DisputeView, now: int, c: KeepCall)
    ensures c in Candidates(family, dealId, d, x, now) <==>
      && c.family == family && IsDue(c.signature, d, x, now)
      && (if c.signature == "retryRecord(bytes32,uint8)" then c.args == DealPartyArg(dealId, 0)
         || c.args == DealPartyArg(dealId, 1)
          else c.args == DealArg(dealId))
  {
    SignaturesDiffer();
  }

  lemma SignaturesDiffer()
    ensures "executeRuling(bytes32)" != "applyFallback(bytes32)"
    ensures |"claim(bytes32)"| == 14 && |"reclaim(bytes32)"| == 16 && |"retryRecord(bytes32,uint8)"| == 26
    ensures |"executeRuling(bytes32)"| == |"applyFallback(bytes32)"| == 22
  {
    assert "executeRuling(bytes32)"[0] != "applyFallback(bytes32)"[0];
  }

  function Timeout(family: Text, dealId: Text, signature: string): KeepCall {
    KeepCall(family, signature, DealArg(dealId))
  }

  /**
   What each alert tells people: a delivery that is a day from being refundable, a dispute four days old
   that no timeout will ever end, and a ruling whose fallback is a day away or closer.
   */
  lemma AlertsAnnounceTimeouts(family: Text, dealId: Text, d: AgreementView, x: DisputeView, now: int)
    ensures var alerts := Alerts(family, dealId, d, x, now);
      && (Alert(DeadlineNearNoDelivery, family, dealId) in alerts <==>
            && d.deliveredAt == 0
            && Timeout(family, dealId, "reclaim(bytes32)") !in Candidates(family, dealId, d, x, now + 1)
            && Timeout(family, dealId, "reclaim(bytes32)") in Candidates(family, dealId, d, x, now + DAY + 1))
      && (Alert(DisputeNoProposal, family, dealId) in alerts <==>
            d.state == DISPUTED && now >= x.openedAt + 4 * DAY
              && forall later :: Candidates(family, dealId, d, x, later) == [])
      && (Alert(RulingDue, family, dealId) in alerts <==>
            Timeout(family, dealId, "applyFallback(bytes32)") in Candidates(family, dealId, d, x, now + DAY))
  {
    hide Candidates, KEEP_SIGNATURES;
    CandidatesAreDue(family, dealId, d, x, now + 1, Timeout(family, dealId, "reclaim(bytes32)"));
    CandidatesAreDue(family, dealId, d, x, now + DAY + 1, Timeout(family, dealId, "reclaim(bytes32)"));
    CandidatesAreDue(family, dealId, d, x, now + DAY, Timeout(family, dealId, "applyFallback(bytes32)"));
    SignaturesDiffer();
    if d.state == DISPUTED { StuckDispute(family, dealId, d, x); }
  }

  lemma StuckDispute(family: Text, dealId: Text, d: AgreementView, x: DisputeView)
    requires d.state == DISPUTED
    ensures (forall later :: Candidates(family, dealId, d, x, later) == []) <==> !x.proposed && !x.escalated
  {
    if x.escalated {
      assert Candidates(family, dealId, d, x, x.escalatedAt + RULING_PERIOD) != [];
    } else if x.proposed {
      assert Candidates(family, dealId, d, x, x.proposedAt + APPEAL_WINDOW) != [];
    }
  }

  // ---- The sweep as a function of one execution's view ----

  datatype Suggestion = Suggestion(signature: string, args: Text)

  datatype OpenDeal =
    | AgreementDeal(family: Text, id: Text)
    | OtherDeal(family: Text, id: Text, suggest: seq<Suggestion>)

  /**
   `page` is whatever the index serves; reads of a deal that is not there throw, and so does the ABI
   encoding of the calls in `refused`.
   */
  datatype World = World(
    now: nat, page: seq<OpenDeal>, deals: map<C.DealRef, AgreementView>, disputes: map<C.DealRef, DisputeView>,
    simulates: set<KeepCall>, refused: set<KeepCall>, writeOk: bool)

  datatype Config = Config(families: seq<Text>, maxDeals: nat)

  predicate Watched(cfg: Config, family: Text) {
    exists i | 0 <= i < |cfg.families| :: Lower(cfg.families[i]) == Lower(family)
  }

  predicate ArgsAreHex(t: Text) {
    2 <= |t| <= 130 && |t| % 2 == 0 && t[0] == 48 && t[1] == 120 && forall i | 2 <= i < |t| :: IsHexDigit(t[i])
  }

  function Suggested(family: Text, suggest: seq<Suggestion>): seq<KeepCall> {
    if suggest == [] then []
    else
      var s := suggest[0];
      (if s.signature in KEEP_SIGNATURES
        && ArgsAreHex(s.args) then [KeepCall(family, s.signature, HexArg(s.args))] else [])
      + Suggested(family, suggest[1..])
  }

  /** What a sweep has gathered so far. */
  datatype Tally = Tally(due: seq<KeepCall>, alerts: seq<Alert>, used: nat)

  /** Simulates candidates in turn while the call and read budgets last. */
  function TryAll(w: World, candidates: seq<KeepCall>, t: Tally): Tally
    decreases |candidates|
  {
    if candidates == [] || |t.due| >= MAX_CALLS || t.used >= MAX_READS then t
    else
      var c := candidates[0];
      TryAll(w, candidates[1..], t.(used := t.used + 1, due := if c in w.simulates then t.due + [c] else t.due))
  }

  predicate Readable(w: World, deal: OpenDeal) {
    deal.AgreementDeal? ==>
      IsAddress(deal.family) && IsHex32(deal.id) && C.Ref(deal.family, deal.id) in w.deals
        && C.Ref(deal.family, deal.id) in w.disputes
  }

  function AfterDeal(w: World, deal: OpenDeal, t: Tally): Tally
    requires Readable(w, deal)
  {
    match deal
    case AgreementDeal(family, id) =>
      var d, x := w.deals[C.Ref(family, id)], w.disputes[C.Ref(family, id)];
      TryAll(w, Candidates(family, id, d, x, w.now),
        Tally(t.due, t.alerts + Alerts(family, id, d, x, w.now), t.used + 2))
    case OtherDeal(family, _, suggest) => TryAll(w, Suggested(family, suggest), t)
  }

  /** None: a read threw and the execution ended with nothing written. */
  function SweepPage(cfg: Config, w: World, page: seq<OpenDeal>, t: Tally): Option<Tally>
    decreases |page|
  {
    if page == [] then Some(t)
    else if !Watched(cfg, page[0].family) then SweepPage(cfg, w, page[1..], t)
    else if page[0].AgreementDeal? && t.used + 2 > MAX_READS then Some(t)
    else if !Readable(w, page[0]) then None
    else SweepPage(cfg, w, page[1..], AfterDeal(w, page[0], t))
  }

  function Page(cfg: Config, w: World): seq<OpenDeal> {
    if |w.page| > cfg.maxDeals then w.page[..cfg.maxDeals] else w.page
  }

  function Swept(cfg: Config, w: World): Option<Tally> { SweepPage(cfg, w, Page(cfg, w), Tally([], [], 0)) }

  predicate Encodes(w: World, calls: seq<KeepCall>) { forall i | 0 <= i < |calls| :: calls[i] !in w.refused }

  /** This call is in the report of the sweep. */
  predicate Reported(cfg: Config, w: World, c: KeepCall) {
    Swept(cfg, w).Some? && c in Swept(cfg, w).value.due && Encodes(w, Swept(cfg, w).value.due)
  }

  // ---- What an entry of another kind suggests ----

  predicate MaySuggest(s: Suggestion) { s.signature in KEEP_SIGNATURES && ArgsAreHex(s.args) }

  /** "0x" and so many bytes. */
  predicate IsHexOf(t: Text, bytes: nat) {
    |t| == 2 + 2 * bytes && t[..2] == Ascii("0x") && forall i | 2 <= i < |t| :: IsHexDigit(t[i])
  }

  /** The arguments allowed: "0x" and at most 64 bytes, two hexadecimal digits each. */
  lemma ArgsAreBytes(t: Text)
    ensures ArgsAreHex(t) <==> exists k: nat :: IsHexOf(t, k) && k <= 64
  {
    if ArgsAreHex(t) {
      var k := |t| / 2 - 1;
      assert t[..2] == Ascii("0x");
      assert IsHexOf(t, k);
    }
    if k: nat :| IsHexOf(t, k) && k <= 64 {
      assert t[..2][0] == 48 && t[..2][1] == 120;
    }
  }

  function CallOf(family: Text, s: Suggestion): KeepCall { KeepCall(family, s.signature, HexArg(s.args)) }

  lemma {:induction false} SuggestedInOrder(family: Text, suggest: seq<Suggestion>)
    ensures var allowed := Filter(suggest, (s: Suggestion) => MaySuggest(s));
      Suggested(family, suggest)
      == seq(|allowed|, i requires 0 <= i < |allowed| => CallOf(family, allowed[i]))
  {
    if suggest != [] {
      var s, rest := suggest[0], suggest[1..];
      SuggestedInOrder(family, rest);
      assert suggest == [s] + rest;
      FilterConcat([s], rest, (x: Suggestion) => MaySuggest(x));
      FilterOne(s, (x: Suggestion) => MaySuggest(x));
    }
  }

  /** One call for each allowed suggestion, in their order, with its own arguments; and no other call. */
  lemma SuggestedAre(family: Text, suggest: seq<Suggestion>, c: KeepCall)
    ensures c in Suggested(family, suggest) <==>
      exists s :: s in suggest && s.signature in KEEP_SIGNATURES && ArgsAreHex(s.args) && c == CallOf(family, s)
    ensures |Suggested(family, suggest)| == |Filter(suggest, (s: Suggestion) => MaySuggest(s))|
  {
    hide ArgsAreHex, KEEP_SIGNATURES;
    var allowed := Filter(suggest, (s: Suggestion) => MaySuggest(s));
    SuggestedInOrder(family, suggest);
    if s :| s in suggest && s.signature in KEEP_SIGNATURES && ArgsAreHex(s.args) && c == CallOf(family, s) {
      assert s in allowed;
      var i :| 0 <= i < |allowed| && allowed[i] == s;
      assert Suggested(family, suggest)[i] == c;
    }
    if c in Suggested(family, suggest) {
      var i :| 0 <= i < |allowed| && Suggested(family, suggest)[i] == c;
      assert allowed[i] in suggest;
    }
  }

  // ---- In what order ----

  /** Where two timeouts of one deal are due, they are tried in this order. */
  lemma CandidatesInOrder(family: Text, dealId: Text, d: AgreementView, x: DisputeView, now: int)
    ensures var claim, reclaim := Timeout(family, dealId, "claim(bytes32)"),
        Timeout(family, dealId, "reclaim(bytes32)");
      claim in Candidates(family, dealId, d, x, now) && reclaim in Candidates(family, dealId, d, x, now)
      ==> Candidates(family, dealId, d, x, now) == [claim, reclaim]
    ensures d.state >= FINISHED ==> var retry := "retryRecord(bytes32,uint8)";
      Candidates(family, dealId, d, x, now)
      == [KeepCall(family, retry, DealPartyArg(dealId, 0)), KeepCall(family, retry, DealPartyArg(dealId, 1))]
  {
    SignaturesDiffer();
  }

  // ---- The sweep step by step ----

  class RiskPorts {
    const w: World
    var chainReads: nat
    var simulated: seq<KeepCall>
    var reports: seq<seq<KeepCall>>
    var posted: seq<seq<Alert>>

    constructor (w: World)
      ensures this.w == w && chainReads == 0 && simulated == [] && reports == [] && posted == []
    {
      this.w := w;
      chainReads, simulated, reports, posted := 0, [], [], [];
    }

    method ReadDeal(deal: OpenDeal) returns (r: Option<(AgreementView, DisputeView)>)
      requires deal.AgreementDeal?
      modifies this`chainReads
      ensures old(chainReads) <= chainReads <= old(chainReads) + 2
      ensures Readable(w, deal) ==> chainReads == old(chainReads) + 2
      ensures Readable(w, deal)
        ==> r == Some((w.deals[C.Ref(deal.family, deal.id)], w.disputes[C.Ref(deal.family, deal.id)]))
      ensures !Readable(w, deal) ==> r == None
    {
      var ref := C.Ref(deal.family, deal.id);
      chainReads := chainReads + 1;
      if !IsAddress(deal.family) || !IsHex32(deal.id) || ref !in w.deals { return None; }
      chainReads := chainReads + 1;
      if ref !in w.disputes { return None; }
      return Some((w.deals[ref], w.disputes[ref]));
    }

    method Simulate(c: KeepCall) returns (ok: bool)
      modifies this`chainReads, this`simulated
      ensures chainReads == old(chainReads) + 1 && simulated == old(simulated) + [c] && ok == (c in w.simulates)
    {
      chainReads := chainReads + 1;
      simulated := simulated + [c];
      ok := c in w.simulates;
    }

    method WriteReport(calls: seq<KeepCall>) returns (ok: bool)
      modifies this`reports
      ensures reports == old(reports) + [calls] && ok == w.writeOk
    {
      reports := reports + [calls];
      ok := w.writeOk;
    }

    method PostAlerts(alerts: seq<Alert>)
      modifies this`posted
      ensures posted == old(posted) + [alerts]
    {
      posted := posted + [alerts];
    }
  }

  /** What may be in a report: a configured family, an allow-listed timeout, confirmed in this sweep. */
  ghost predicate Reportable(cfg: Config, w: World, simulated: seq<KeepCall>, c: KeepCall) {
    Watched(cfg, c.family) && c.signature in KEEP_SIGNATURES && c in w.simulates && c in simulated
  }

  method TryCandidates(ports: RiskPorts, ghost cfg: Config, candidates: seq<KeepCall>, due0: seq<KeepCall>, used0: nat)
      returns (due: seq<KeepCall>, used: nat)
    requires |due0| <= MAX_CALLS && used0 <= MAX_READS && ports.chainReads == used0
    requires forall c | c in due0 :: Reportable(cfg, ports.w, ports.simulated, c)
    requires forall c | c in candidates :: Watched(cfg, c.family) && c.signature in KEEP_SIGNATURES
    modifies ports`chainReads, ports`simulated
    ensures |due| <= MAX_CALLS && used <= MAX_READS && ports.chainReads == used
    ensures old(ports.simulated) <= ports.simulated
    ensures forall c | c in due :: Reportable(cfg, ports.w, ports.simulated, c)
    ensures forall alerts :: Tally(due, alerts, used) == TryAll(ports.w, candidates, Tally(due0, alerts, used0))
  {
    due, used := due0, used0;
    var i := 0;
    while i < |candidates|
      invariant 0 <= i <= |candidates|
      invariant |due| <= MAX_CALLS && used <= MAX_READS && ports.chainReads == used
      invariant old(ports.simulated) <= ports.simulated
      invariant forall c | c in due :: Reportable(cfg, ports.w, ports.simulated, c)
      invariant forall alerts ::
        TryAll(ports.w, candidates[i..], Tally(due, alerts, used))
          == TryAll(ports.w, candidates, Tally(due0, alerts, used0))
    {
      hide Watched;
      if |due| >= MAX_CALLS || used >= MAX_READS { break; }
      used := used + 1;
      var c := candidates[i];
      assert candidates[i..][0] == c && candidates[i..][1..] == candidates[i + 1..];
      var ok := ports.Simulate(c);
      if ok { due := due + [c]; }
      i := i + 1;
    }
  }

  lemma {:induction false} SuggestedAreAllowed(family: Text, suggest: seq<Suggestion>)
    ensures forall c | c in Suggested(family, suggest) :: c.family == family && c.signature in KEEP_SIGNATURES
  {
    if suggest != [] { SuggestedAreAllowed(family, suggest[1..]); }
  }

  lemma CandidatesAreAllowed(family: Text, dealId: Text, d: AgreementView, x: DisputeView, now: int)
    ensures forall c | c in Candidates(family, dealId, d, x, now) ::
      c.family == family && c.signature in KEEP_SIGNATURES
  {
  }

  /** One deal's turn. */
  method VisitDeal(ports: RiskPorts, cfg: Config, deal: OpenDeal, now: int, due0: seq<KeepCall>, alerts0: seq<Alert>,
      used0: nat)
      returns (threw: bool, due: seq<KeepCall>, alerts: seq<Alert>, used: nat)
    requires now == ports.w.now && Watched(cfg, deal.family)
    requires |due0| <= MAX_CALLS && ports.chainReads == used0
      && (if deal.AgreementDeal? then used0 + 2 <= MAX_READS else used0 <= MAX_READS)
    requires forall c | c in due0 :: Reportable(cfg, ports.w, ports.simulated, c)
    modifies ports`chainReads, ports`simulated
    ensures |due| <= MAX_CALLS && ports.chainReads <= MAX_READS && (!threw ==> ports.chainReads == used)
    ensures old(ports.simulated) <= ports.simulated
    ensures forall c | c in due :: Reportable(cfg, ports.w, ports.simulated, c)
    ensures threw <==> !Readable(ports.w, deal)
    ensures !threw ==> Tally(due, alerts, used) == AfterDeal(ports.w, deal, Tally(due0, alerts0, used0))
  {
    hide Reportable, TryAll, Candidates, Alerts, Suggested, IsAddress, IsHex32, Watched;
    var candidates;
    threw, due, alerts, used := false, due0, alerts0, used0;
    if deal.AgreementDeal? {
      used := used + 2;
      var views := ports.ReadDeal(deal);
      if views.None? { threw := true; return; }
      var (view, dispute) := views.value;
      candidates := AgreementCandidates(deal.family, deal.id, view, dispute, now);
      CandidatesAreAllowed(deal.family, deal.id, view, dispute, now);
      var raised := AgreementAlerts(deal.family, deal.id, view, dispute, now);
      alerts := alerts + raised;
    } else {
      candidates := Suggested(deal.family, deal.suggest);
      SuggestedAreAllowed(deal.family, deal.suggest);
    }
    due, used := TryCandidates(ports, cfg, candidates, due, used);
  }

  /**
   The sweep. Whatever the index serves it makes at most fifteen chain reads and sends at most one report
   of at most four calls, each of a configured family, on the list, and simulated true in this sweep. A
   read that throws leaves nothing sent; an encoding that throws leaves only the alerts.
   */
  method Sweep(ports: RiskPorts, cfg: Config) returns (threw: bool, calls: nat, alertCount: nat, written: bool)
    requires ports.chainReads == 0 && ports.simulated == []
    modifies ports
    ensures ports.chainReads <= MAX_READS
    ensures threw <==> Swept(cfg, ports.w).None? || !Encodes(ports.w, Swept(cfg, ports.w).value.due)
    ensures Swept(cfg, ports.w).None? ==> ports.reports == old(ports.reports) && ports.posted == old(ports.posted)
    ensures Swept(cfg, ports.w).Some? ==> var t := Swept(cfg, ports.w).value;
      && |t.due| <= MAX_CALLS && (forall c | c in t.due :: Reportable(cfg, ports.w, ports.simulated, c))
      && ports.posted == old(ports.posted) + (if t.alerts == [] then [] else [t.alerts])
      && ports.reports == old(ports.reports) + (if threw || t.due == [] then [] else [t.due])
      && (!threw ==> calls == |t.due| && alertCount == |t.alerts| && written == (t.due != [] && ports.w.writeOk))
  {
    hide AfterDeal, Reportable, Readable;
    var page := Page(cfg, ports.w);
    var due: seq<KeepCall>, alerts: seq<Alert>, used: nat := [], [], 0;
    threw, calls, alertCount, written := false, 0, 0, false;
    var i := 0;
    while i < |page|
      invariant 0 <= i <= |page| && !threw
      invariant ports.chainReads == used <= MAX_READS && |due| <= MAX_CALLS
      invariant ports.reports == old(ports.reports) && ports.posted == old(ports.posted)
      invariant forall c | c in due :: Reportable(cfg, ports.w, ports.simulated, c)
      invariant SweepPage(cfg, ports.w, page[i..], Tally(due, alerts, used)) == Swept(cfg, ports.w)
    {
      var deal := page[i];
      assert page[i..][0] == deal && page[i..][1..] == page[i + 1..];
      if Watched(cfg, deal.family) {
        if deal.AgreementDeal? && used + 2 > MAX_READS { break; }
        threw, due, alerts, used := VisitDeal(ports, cfg, deal, ports.w.now, due, alerts, used);
        if threw { return; }
      }
      i := i + 1;
    }
    if |alerts| > 0 { ports.PostAlerts(alerts); }
    calls, alertCount := |due|, |alerts|;
    if |due| > 0 {
      if !Encodes(ports.w, due) { threw := true; return; }
      written := ports.WriteReport(due);
    }
  }

  datatype RecordLog = RecordPending(family: Text, dealId: Text, party: int) | PayoutCredited(family: Text, to: Text)

  /** Threw: the encoding of the report threw. */
  datatype LogOutcome = Kept | NotDue | Alerted | Ignored | Threw

  function RetryOf(log: RecordLog): KeepCall
    requires log.RecordPending?
  {
    KeepCall(log.family, "retryRecord(bytes32,uint8)", DealPartyArg(log.dealId, log.party))
  }

  /** On a family's log: retry the record at once, or tell people of an undelivered payout. */
  method OnRecordLog(ports: RiskPorts, cfg: Config, log: RecordLog) returns (o: LogOutcome)
    modifies ports
    ensures o == Ignored <==> !Watched(cfg, log.family)
    ensures o == Alerted <==> Watched(cfg, log.family) && log.PayoutCredited?
    ensures ports.posted == old(ports.posted)
      + (if o == Alerted then [[Alert(OwedBalance, log.family, log.to)]] else [])
    ensures o !in {Ignored, Alerted} ==> log.RecordPending? && var c := RetryOf(log);
      && (c !in ports.w.simulates ==> o == NotDue)
      && (o == Threw <==> c in ports.w.simulates && c in ports.w.refused)
      && (o == Kept <==> c in ports.w.simulates && c !in ports.w.refused && ports.w.writeOk)
    ensures ports.reports == old(ports.reports)
      + if o !in {Ignored, Alerted, Threw} && RetryOf(log) in ports.w.simulates then [[RetryOf(log)]] else []
  {
    if !Watched(cfg, log.family) { return Ignored; }
    if log.PayoutCredited? {
      ports.PostAlerts([Alert(OwedBalance, log.family, log.to)]);
      return Alerted;
    }
    var c := RetryOf(log);
    var ok := ports.Simulate(c);
    if !ok { return NotDue; }
    if c in ports.w.refused { return Threw; }
    var written := ports.WriteReport([c]);
    return if written then Kept else NotDue;
  }

  // ---- Liveness ----

  /** A timeout that is due stays due while the deal does not move. */
  lemma CandidateStays(family: Text, dealId: Text, d: AgreementView, x: DisputeView, now: int, later: int, c: KeepCall)
    requires now <= later && c in Candidates(family, dealId, d, x, now)
    ensures c in Candidates(family, dealId, d, x, later)
  {
  }

  /** The sweep comes to this entry with reads to spare and cannot read it. */
  predicate Blocks(cfg: Config, w: World, page: seq<OpenDeal>, t: Tally, i: int) {
    && 0 <= i < |page| && Watched(cfg, page[i].family) && page[i].AgreementDeal? && !Readable(w, page[i])
    && var before := SweepPage(cfg, w, page[..i], t);
    before.Some? && before.value.used + 2 <= MAX_READS
  }

  lemma BlocksLater(cfg: Config, w: World, page: seq<OpenDeal>, t: Tally, i: int)
    requires page != [] && i > 0 && Readable(w, page[0])
    requires !Watched(cfg, page[0].family) || !page[0].AgreementDeal? || t.used + 2 <= MAX_READS
    ensures Blocks(cfg, w, page, t, i)
      <==> Blocks(cfg, w, page[1..], if Watched(cfg, page[0].family) then AfterDeal(w, page[0], t) else t, i - 1)
  {
    hide Watched, Readable, AfterDeal;
    if i < |page| { assert page[..i][0] == page[0] && page[..i][1..] == page[1..][..i - 1]; }
  }

  lemma BlocksPastUnwatched(cfg: Config, w: World, page: seq<OpenDeal>, t: Tally, i: int)
    requires page != [] && i > 0 && !Watched(cfg, page[0].family)
    ensures Blocks(cfg, w, page, t, i) <==> Blocks(cfg, w, page[1..], t, i - 1)
  {
    hide Watched, Readable, AfterDeal;
    if i < |page| { assert page[..i][0] == page[0] && page[..i][1..] == page[1..][..i - 1]; }
  }

  /** A sweep throws exactly when some entry of a configured family blocks it, whatever the page. */
  lemma {:induction false} ThrowsIffBlocked(cfg: Config, w: World, page: seq<OpenDeal>, t: Tally)
    ensures SweepPage(cfg, w, page, t).None? <==> exists i :: Blocks(cfg, w, page, t, i)
    decreases |page|
  {
    hide Watched, Readable, AfterDeal;
    if page != [] {
      if !Watched(cfg, page[0].family) {
        ThrowsIffBlocked(cfg, w, page[1..], t);
        forall i | i > 0 ensures Blocks(cfg, w, page, t, i) <==> Blocks(cfg, w, page[1..], t, i - 1) {
          BlocksPastUnwatched(cfg, w, page, t, i);
        }
        if i :| Blocks(cfg, w, page[1..], t, i) { assert Blocks(cfg, w, page, t, i + 1); }
      } else if page[0].AgreementDeal? && t.used + 2 > MAX_READS {
        forall i | 0 < i < |page| ensures !Blocks(cfg, w, page, t, i) { assert page[..i][0] == page[0]; }
      } else if !Readable(w, page[0]) {
        OnlyAgreementDealsAreRead(w, page[0]);
        assert page[..0] == [] && Blocks(cfg, w, page, t, 0);
      } else {
        var next := AfterDeal(w, page[0], t);
        ThrowsIffBlocked(cfg, w, page[1..], next);
        forall i | i > 0 ensures Blocks(cfg, w, page, t, i) <==> Blocks(cfg, w, page[1..], next, i - 1) {
          BlocksLater(cfg, w, page, t, i);
        }
        if i :| Blocks(cfg, w, page[1..], next, i) { assert Blocks(cfg, w, page, t, i + 1); }
      }
    }
  }

  lemma OnlyAgreementDealsAreRead(w: World, deal: OpenDeal)
    requires !Readable(w, deal)
    ensures deal.AgreementDeal?
  {
  }

  predicate Blocked(cfg: Config, w: World) {
    exists i :: 0 <= i < |Page(cfg, w)| && Blocks(cfg, w, Page(cfg, w), Tally([], [], 0), i)
  }

  // ---- What is in a report ----

  /** The calls an entry suggests, and the reads that are spent on it before any is simulated. */
  function EntryCalls(w: World, deal: OpenDeal): seq<KeepCall>
    requires Readable(w, deal)
  {
    match deal
    case AgreementDeal(family, id) =>
      Candidates(family, id, w.deals[C.Ref(family, id)], w.disputes[C.Ref(family, id)], w.now)
    case OtherDeal(family, _, suggest) => Suggested(family, suggest)
  }

  function EntryReads(deal: OpenDeal): nat { if deal.AgreementDeal? then 2 else 0 }

  function Confirmed(w: World, calls: seq<KeepCall>): seq<KeepCall> { Filter(calls, c => c in w.simulates) }

  /** The tally with which an entry's calls are tried. */
  function Opened(w: World, deal: OpenDeal, t: Tally): Tally
    requires Readable(w, deal)
  {
    match deal
    case AgreementDeal(family, id) =>
      var alerts := Alerts(family, id, w.deals[C.Ref(family, id)], w.disputes[C.Ref(family, id)], w.now);
      Tally(t.due, t.alerts + alerts, t.used + 2)
    case OtherDeal(_, _, _) => t
  }

  lemma AfterDealTries(w: World, deal: OpenDeal, t: Tally)
    requires Readable(w, deal)
    ensures AfterDeal(w, deal, t) == TryAll(w, EntryCalls(w, deal), Opened(w, deal, t))
    ensures Opened(w, deal, t).due == t.due && Opened(w, deal, t).used == t.used + EntryReads(deal)
  {
    hide TryAll, Candidates, Alerts, Suggested;
  }

  /** The budgets last up to the n-th of these calls: each before it costs a read, and a place if confirmed. */
  predicate WithinBudgets(w: World, calls: seq<KeepCall>, t: Tally, n: nat)
    requires n <= |calls|
  {
    t.used + n < MAX_READS && |t.due| + |Confirmed(w, calls[..n])| < MAX_CALLS
  }

  /** The tally after a call was simulated. */
  function Next(w: World, c: KeepCall, t: Tally): Tally {
    t.(used := t.used + 1, due := if c in w.simulates then t.due + [c] else t.due)
  }

  lemma ConfirmedOfCons(w: World, c: KeepCall, rest: seq<KeepCall>)
    ensures Confirmed(w, [c] + rest) == (if c in w.simulates then [c] else []) + Confirmed(w, rest)
  {
    FilterConcat([c], rest, x => x in w.simulates);
    FilterOne(c, x => x in w.simulates);
  }

  lemma BudgetsOfCons(w: World, calls: seq<KeepCall>, t: Tally, n: nat)
    requires 0 < n <= |calls|
    ensures WithinBudgets(w, calls, t, n) <==> WithinBudgets(w, calls[1..], Next(w, calls[0], t), n - 1)
  {
    hide Confirmed;
    assert calls[..n] == [calls[0]] + calls[1..][..n - 1];
    ConfirmedOfCons(w, calls[0], calls[1..][..n - 1]);
  }

  /** The n-th of these calls is this one, it simulates true, and the budgets last up to it. */
  predicate IsTaken(w: World, calls: seq<KeepCall>, t: Tally, n: int, c: KeepCall) {
    0 <= n < |calls| && calls[n] == c && c in w.simulates && WithinBudgets(w, calls, t, n)
  }

  lemma TakenOfCons(w: World, calls: seq<KeepCall>, t: Tally, c: KeepCall)
    requires calls != [] && |t.due| < MAX_CALLS && t.used < MAX_READS
    ensures (exists n :: IsTaken(w, calls, t, n, c)) <==>
      || (calls[0] == c && c in w.simulates)
      || exists n :: IsTaken(w, calls[1..], Next(w, calls[0], t), n, c)
  {
    hide WithinBudgets, Next;
    forall n | 0 < n < |calls|
      ensures IsTaken(w, calls, t, n, c) <==> IsTaken(w, calls[1..], Next(w, calls[0], t), n - 1, c)
    {
      BudgetsOfCons(w, calls, t, n);
    }
    if calls[0] == c && c in w.simulates {
      FirstIsInBudget(w, calls, t);
      assert IsTaken(w, calls, t, 0, c);
    }
    if n :| IsTaken(w, calls[1..], Next(w, calls[0], t), n, c) { assert IsTaken(w, calls, t, n + 1, c); }
    if n :| IsTaken(w, calls, t, n, c) {
      if n > 0 { assert IsTaken(w, calls[1..], Next(w, calls[0], t), n - 1, c); }
    }
  }

  lemma FirstIsInBudget(w: World, calls: seq<KeepCall>, t: Tally)
    requires |t.due| < MAX_CALLS && t.used < MAX_READS
    ensures WithinBudgets(w, calls, t, 0)
  {
  }

  lemma NothingInBudget(w: World, calls: seq<KeepCall>, t: Tally, c: KeepCall)
    requires calls == [] || |t.due| >= MAX_CALLS || t.used >= MAX_READS
    ensures !exists n :: IsTaken(w, calls, t, n, c)
  {
  }

  /** What a list of calls adds to the report. */
  lemma {:induction false} TryAllAdds(w: World, calls: seq<KeepCall>, t: Tally, c: KeepCall)
    ensures c in TryAll(w, calls, t).due <==> c in t.due || exists n :: IsTaken(w, calls, t, n, c)
    decreases |calls|
  {
    hide IsTaken;
    if calls == [] || |t.due| >= MAX_CALLS || t.used >= MAX_READS {
      NothingInBudget(w, calls, t, c);
    } else {
      assert TryAll(w, calls, t) == TryAll(w, calls[1..], Next(w, calls[0], t));
      TryAllAdds(w, calls[1..], Next(w, calls[0], t), c);
      TakenOfCons(w, calls, t, c);
    }
  }

  /** The calls are tried from the first on, as long as both budgets last, and kept in that order. */
  lemma {:induction false} TriedInOrder(w: World, calls: seq<KeepCall>, t: Tally) returns (n: nat)
    ensures n <= |calls|
    ensures TryAll(w, calls, t) == Tally(t.due + Confirmed(w, calls[..n]), t.alerts, t.used + n)
    ensures n < |calls| ==> |TryAll(w, calls, t).due| >= MAX_CALLS || TryAll(w, calls, t).used >= MAX_READS
    decreases |calls|
  {
    hide Confirmed;
    n := 0;
    if calls == [] || |t.due| >= MAX_CALLS || t.used >= MAX_READS {
      NoneConfirmed(w);
      assert calls[..0] == [] && t.due + [] == t.due;
    } else {
      var c, rest := calls[0], calls[1..];
      var m := TriedInOrder(w, rest, Next(w, c, t));
      n := m + 1;
      assert calls[..n] == [c] + rest[..m];
      ConfirmedOfCons(w, c, rest[..m]);
      assert TryAll(w, calls, t) == TryAll(w, rest, Next(w, c, t));
      hide TryAll;
      Regroup(t.due, if c in w.simulates then [c] else [], Confirmed(w, rest[..m]));
      assert t.due + [] == t.due;
    }
  }

  lemma NoneConfirmed(w: World)
    ensures Confirmed(w, []) == []
  {
  }

  /** With what the sweep comes to the i-th entry; None when it threw or stopped before. */
  function TallyAt(cfg: Config, w: World, page: seq<OpenDeal>, t: Tally, i: nat): Option<Tally>
    requires i <= |page|
  {
    if i == 0 then Some(t)
    else if !Watched(cfg, page[0].family) then TallyAt(cfg, w, page[1..], t, i - 1)
    else if (page[0].AgreementDeal? && t.used + 2 > MAX_READS) || !Readable(w, page[0]) then None
    else TallyAt(cfg, w, page[1..], AfterDeal(w, page[0], t), i - 1)
  }

  /**
   The sweep comes to the i-th entry, can read it, and takes its n-th call: it simulates true and both
   budgets last up to it.
   */
  predicate Adds(cfg: Config, w: World, page: seq<OpenDeal>, t: Tally, i: int, n: int, c: KeepCall) {
    && 0 <= i < |page| && Watched(cfg, page[i].family) && Readable(w, page[i])
    && var at := TallyAt(cfg, w, page, t, i);
       at.Some? && at.value.used + EntryReads(page[i]) <= MAX_READS
         && IsTaken(w, EntryCalls(w, page[i]), Opened(w, page[i], at.value), n, c)
  }

  lemma EntryAdds(w: World, deal: OpenDeal, t: Tally, c: KeepCall)
    requires Readable(w, deal)
    ensures c in AfterDeal(w, deal, t).due <==>
      c in t.due || exists n :: IsTaken(w, EntryCalls(w, deal), Opened(w, deal, t), n, c)
  {
    hide AfterDeal, TryAll, EntryCalls, Opened, IsTaken, Readable;
    AfterDealTries(w, deal, t);
    TryAllAdds(w, EntryCalls(w, deal), Opened(w, deal, t), c);
  }

  lemma AddsLater(cfg: Config, w: World, page: seq<OpenDeal>, t: Tally, i: int, n: int, c: KeepCall)
    requires page != [] && i > 0
    ensures Adds(cfg, w, page, t, i, n, c) <==>
      if !Watched(cfg, page[0].family) then Adds(cfg, w, page[1..], t, i - 1, n, c)
      else
        && !(page[0].AgreementDeal? && t.used + 2 > MAX_READS) && Readable(w, page[0])
        && Adds(cfg, w, page[1..], AfterDeal(w, page[0], t), i - 1, n, c)
  {
    hide Watched, Readable, AfterDeal, EntryCalls, Opened, IsTaken;
    if i < |page| { assert page[i] == page[1..][i - 1]; }
  }

  /** The calls of a report are exactly those the sweep comes to, confirms and has the budgets for. */
  lemma {:induction false} DueIff(cfg: Config, w: World, page: seq<OpenDeal>, t: Tally, c: KeepCall)
    requires SweepPage(cfg, w, page, t).Some? && t.used <= MAX_READS
    ensures c in SweepPage(cfg, w, page, t).value.due <==> c in t.due || exists i, n :: Adds(cfg, w, page, t, i, n, c)
    decreases |page|
  {
    hide Watched, Readable, AfterDeal, EntryCalls, Opened, IsTaken, Adds, AddsHere;
    if page == [] {
      NothingToAdd(cfg, w, t, c);
    } else {
      HereOrBehind(cfg, w, page, t, c);
      if !Watched(cfg, page[0].family) {
        DueIff(cfg, w, page[1..], t, c);
      } else if !(page[0].AgreementDeal? && t.used + 2 > MAX_READS) {
        AfterDealInBudget(w, page[0], t);
        DueIff(cfg, w, page[1..], AfterDeal(w, page[0], t), c);
        EntryAdds(w, page[0], t, c);
      }
    }
  }

  predicate AddsHere(cfg: Config, w: World, page: seq<OpenDeal>, t: Tally, n: int, c: KeepCall)
    requires page != []
  {
    && Watched(cfg, page[0].family) && Readable(w, page[0]) && t.used + EntryReads(page[0]) <= MAX_READS
    && IsTaken(w, EntryCalls(w, page[0]), Opened(w, page[0], t), n, c)
  }

  lemma HereOrBehind(cfg: Config, w: World, page: seq<OpenDeal>, t: Tally, c: KeepCall)
    requires page != []
    ensures !Watched(cfg, page[0].family) ==>
      ((exists i, n :: Adds(cfg, w, page, t, i, n, c)) <==> exists i, n :: Adds(cfg, w, page[1..], t, i, n, c))
    ensures Watched(cfg, page[0].family) && page[0].AgreementDeal? && t.used + 2 > MAX_READS ==>
      !exists i, n :: Adds(cfg, w, page, t, i, n, c)
    ensures Watched(cfg, page[0].family) && Readable(w, page[0]) && t.used + EntryReads(page[0]) <= MAX_READS ==>
      ((exists i, n :: Adds(cfg, w, page, t, i, n, c)) <==>
         || (exists n :: IsTaken(w, EntryCalls(w, page[0]), Opened(w, page[0], t), n, c))
         || exists i, n :: Adds(cfg, w, page[1..], AfterDeal(w, page[0], t), i, n, c))
  {
    hide Watched, Readable, AfterDeal, EntryCalls, Opened, IsTaken, Adds;
    forall i, n | Adds(cfg, w, page, t, i, n, c)
      ensures if i == 0 then AddsHere(cfg, w, page, t, n, c)
        else if !Watched(cfg, page[0].family) then Adds(cfg, w, page[1..], t, i - 1, n, c)
        else
          && !(page[0].AgreementDeal? && t.used + 2 > MAX_READS) && Readable(w, page[0])
          && Adds(cfg, w, page[1..], AfterDeal(w, page[0], t), i - 1, n, c)
    {
      PlaceOfAdded(cfg, w, page, t, i, n, c);
      if i == 0 { AddsAtHead(cfg, w, page, t, i, n, c); } else { AddsLater(cfg, w, page, t, i, n, c); }
    }
    if !Watched(cfg, page[0].family) {
      forall i, n | Adds(cfg, w, page[1..], t, i, n, c) ensures Adds(cfg, w, page, t, i + 1, n, c) {
        PlaceOfAdded(cfg, w, page[1..], t, i, n, c);
        AddsLater(cfg, w, page, t, i + 1, n, c);
      }
    } else if Readable(w, page[0]) && t.used + EntryReads(page[0]) <= MAX_READS {
      forall n | IsTaken(w, EntryCalls(w, page[0]), Opened(w, page[0], t), n, c)
        ensures Adds(cfg, w, page, t, 0, n, c)
      {
        AddsAtHead(cfg, w, page, t, 0, n, c);
      }
      forall i, n | Adds(cfg, w, page[1..], AfterDeal(w, page[0], t), i, n, c)
        ensures Adds(cfg, w, page, t, i + 1, n, c)
      {
        PlaceOfAdded(cfg, w, page[1..], AfterDeal(w, page[0], t), i, n, c);
        AddsLater(cfg, w, page, t, i + 1, n, c);
      }
    }
  }

  lemma AddsAtHead(cfg: Config, w: World, page: seq<OpenDeal>, t: Tally, i: int, n: int, c: KeepCall)
    requires page != [] && i <= 0
    ensures Adds(cfg, w, page, t, i, n, c) <==> i == 0 && AddsHere(cfg, w, page, t, n, c)
  {
    hide Watched, Readable, AfterDeal, EntryCalls, Opened, IsTaken;
  }

  lemma NothingToAdd(cfg: Config, w: World, t: Tally, c: KeepCall)
    ensures !exists i, n :: Adds(cfg, w, [], t, i, n, c)
  {
  }

  lemma PlaceOfAdded(cfg: Config, w: World, page: seq<OpenDeal>, t: Tally, i: int, n: int, c: KeepCall)
    requires Adds(cfg, w, page, t, i, n, c)
    ensures 0 <= i < |page|
  {
  }

  lemma {:induction false} TryAllInBudget(w: World, calls: seq<KeepCall>, t: Tally)
    requires t.used <= MAX_READS
    ensures TryAll(w, calls, t).used <= MAX_READS
    decreases |calls|
  {
    if calls != [] && |t.due| < MAX_CALLS && t.used < MAX_READS {
      var c := calls[0];
      TryAllInBudget(w, calls[1..], t.(used := t.used + 1, due := if c in w.simulates then t.due + [c] else t.due));
    }
  }

  lemma AfterDealInBudget(w: World, deal: OpenDeal, t: Tally)
    requires Readable(w, deal) && t.used + EntryReads(deal) <= MAX_READS
    ensures AfterDeal(w, deal, t).used <= MAX_READS
  {
    hide AfterDeal, TryAll, EntryCalls, Opened, Readable;
    AfterDealTries(w, deal, t);
    TryAllInBudget(w, EntryCalls(w, deal), Opened(w, deal, t));
  }

  // ---- What is raised ----

  /** The sweep comes to the i-th entry, a watched Agreement deal, and reading it raises this. */
  predicate Raises(cfg: Config, w: World, page: seq<OpenDeal>, t: Tally, i: int, a: Alert) {
    && 0 <= i < |page| && Watched(cfg, page[i].family) && page[i].AgreementDeal? && Readable(w, page[i])
    && var at := TallyAt(cfg, w, page, t, i);
       at.Some? && at.value.used + 2 <= MAX_READS
         && a in Alerts(page[i].family, page[i].id, w.deals[C.Ref(page[i].family, page[i].id)],
                  w.disputes[C.Ref(page[i].family, page[i].id)], w.now)
  }

  lemma {:induction false} TryAllRaisesNothing(w: World, calls: seq<KeepCall>, t: Tally)
    ensures TryAll(w, calls, t).alerts == t.alerts
    decreases |calls|
  {
    if calls != [] && |t.due| < MAX_CALLS && t.used < MAX_READS {
      TryAllRaisesNothing(w, calls[1..], Next(w, calls[0], t));
    }
  }

  lemma EntryRaises(w: World, deal: OpenDeal, t: Tally, a: Alert)
    requires Readable(w, deal)
    ensures a in AfterDeal(w, deal, t).alerts <==>
      || a in t.alerts
      || (deal.AgreementDeal? && a in Alerts(deal.family, deal.id, w.deals[C.Ref(deal.family, deal.id)],
            w.disputes[C.Ref(deal.family, deal.id)], w.now))
  {
    hide TryAll, Candidates, Alerts, Suggested;
    AfterDealTries(w, deal, t);
    hide AfterDeal;
    TryAllRaisesNothing(w, EntryCalls(w, deal), Opened(w, deal, t));
  }

  lemma RaisesLater(cfg: Config, w: World, page: seq<OpenDeal>, t: Tally, i: int, a: Alert)
    requires page != [] && i > 0
    ensures Raises(cfg, w, page, t, i, a) <==>
      if !Watched(cfg, page[0].family) then Raises(cfg, w, page[1..], t, i - 1, a)
      else
        && !(page[0].AgreementDeal? && t.used + 2 > MAX_READS) && Readable(w, page[0])
        && Raises(cfg, w, page[1..], AfterDeal(w, page[0], t), i - 1, a)
  {
    hide Watched, Readable, AfterDeal, Alerts;
    if i < |page| { assert page[i] == page[1..][i - 1]; }
  }

  lemma RaisedHereOrBehind(cfg: Config, w: World, page: seq<OpenDeal>, t: Tally, a: Alert)
    requires page != []
    ensures !Watched(cfg, page[0].family) ==>
      ((exists i :: Raises(cfg, w, page, t, i, a)) <==> exists i :: Raises(cfg, w, page[1..], t, i, a))
    ensures Watched(cfg, page[0].family) && page[0].AgreementDeal? && t.used + 2 > MAX_READS ==>
      !exists i :: Raises(cfg, w, page, t, i, a)
    ensures Watched(cfg, page[0].family) && Readable(w, page[0]) && t.used + EntryReads(page[0]) <= MAX_READS ==>
      ((exists i :: Raises(cfg, w, page, t, i, a)) <==>
         || Raises(cfg, w, page, t, 0, a)
         || exists i :: Raises(cfg, w, page[1..], AfterDeal(w, page[0], t), i, a))
  {
    hide Watched, Readable, AfterDeal, Alerts;
    forall i | i > 0
      ensures Raises(cfg, w, page, t, i, a) <==>
        if !Watched(cfg, page[0].family) then Raises(cfg, w, page[1..], t, i - 1, a)
        else
          && !(page[0].AgreementDeal? && t.used + 2 > MAX_READS) && Readable(w, page[0])
          && Raises(cfg, w, page[1..], AfterDeal(w, page[0], t), i - 1, a)
    {
      RaisesLater(cfg, w, page, t, i, a);
    }
    if !Watched(cfg, page[0].family) {
      if i :| Raises(cfg, w, page[1..], t, i, a) { assert Raises(cfg, w, page, t, i + 1, a); }
    } else if Readable(w, page[0]) && t.used + EntryReads(page[0]) <= MAX_READS {
      if i :| Raises(cfg, w, page[1..], AfterDeal(w, page[0], t), i, a) { assert Raises(cfg, w, page, t, i + 1, a); }
    }
  }

  /** The alerts of a sweep are exactly those of the Agreement deals it comes to with reads to spare. */
  lemma {:induction false} RaisedIff(cfg: Config, w: World, page: seq<OpenDeal>, t: Tally, a: Alert)
    requires SweepPage(cfg, w, page, t).Some? && t.used <= MAX_READS
    ensures a in SweepPage(cfg, w, page, t).value.alerts
      <==> a in t.alerts || exists i :: Raises(cfg, w, page, t, i, a)
    decreases |page|
  {
    hide Watched, Readable, AfterDeal, Alerts;
    if page != [] {
      RaisedHereOrBehind(cfg, w, page, t, a);
      if !Watched(cfg, page[0].family) {
        RaisedIff(cfg, w, page[1..], t, a);
      } else if !(page[0].AgreementDeal? && t.used + 2 > MAX_READS) {
        AfterDealInBudget(w, page[0], t);
        RaisedIff(cfg, w, page[1..], AfterDeal(w, page[0], t), a);
        EntryRaises(w, page[0], t, a);
      }
    }
  }

  /** A page is the front of what the index serves, no longer than the limit. */
  lemma PageIsTheFront(cfg: Config, w: World)
    ensures Page(cfg, w) <= w.page && |Page(cfg, w)| == if |w.page| <= cfg.maxDeals then |w.page| else cfg.maxDeals
  {
  }

  /** A sweep of this page comes to the n-th call of the i-th entry and takes it. */
  predicate Takes(cfg: Config, w: World, i: int, n: int, c: KeepCall) {
    Adds(cfg, w, Page(cfg, w), Tally([], [], 0), i, n, c)
  }

  /** Nothing the sweep takes is refused by the encoding. */
  ghost predicate NoneRefused(cfg: Config, w: World) { forall i, n, c :: Takes(cfg, w, i, n, c) ==> c !in w.refused }

  lemma DueIffTaken(cfg: Config, w: World, c: KeepCall)
    requires Swept(cfg, w).Some?
    ensures c in Swept(cfg, w).value.due <==> exists i, n :: Takes(cfg, w, i, n, c)
  {
    hide Adds, SweepPage, Page;
    var page, t := Page(cfg, w), Tally([], [], 0);
    DueIff(cfg, w, page, t, c);
    if i, n :| Adds(cfg, w, page, t, i, n, c) { assert Takes(cfg, w, i, n, c); }
  }

  /** A call is in the report exactly when nothing blocks the sweep, it is taken, and nothing taken is refused. */
  lemma ReportedIff(cfg: Config, w: World, c: KeepCall)
    ensures Swept(cfg, w).Some? <==> !Blocked(cfg, w)
    ensures Reported(cfg, w, c) <==>
      !Blocked(cfg, w) && NoneRefused(cfg, w) && exists i, n :: Takes(cfg, w, i, n, c)
  {
    ThrowsIffBlocked(cfg, w, Page(cfg, w), Tally([], [], 0));
    hide Takes, SweepPage, Blocks, Page;
    if Swept(cfg, w).Some? {
      hide Swept;
      var due := Swept(cfg, w).value.due;
      forall d ensures d in due <==> exists i, n :: Takes(cfg, w, i, n, d) { DueIffTaken(cfg, w, d); }
      if Encodes(w, due) {
        forall i, n, d | Takes(cfg, w, i, n, d) ensures d !in w.refused { assert d in due; }
      }
      if NoneRefused(cfg, w) {
        forall k | 0 <= k < |due| ensures due[k] !in w.refused { assert due[k] in due; }
      }
    }
  }

  /** A confirmed timeout of the deal at the head of the page is always taken. */
  lemma HeadIsTaken(cfg: Config, w: World, c: KeepCall) returns (n: int)
    requires cfg.maxDeals >= 1 && w.page != [] && w.page[0].AgreementDeal? && Watched(cfg, w.page[0].family)
      && Readable(w, w.page[0])
    requires c in EntryCalls(w, w.page[0]) && c in w.simulates
    ensures Takes(cfg, w, 0, n, c)
  {
    hide Candidates, Watched, IsAddress, IsHex32;
    var calls := EntryCalls(w, w.page[0]);
    n :| 0 <= n < |calls| && calls[n] == c;
    assert |calls| <= 2;
    assert IsTaken(w, calls, Opened(w, w.page[0], Tally([], [], 0)), n, c) by { FewConfirmed(w, calls[..n]); }
  }

  lemma FewConfirmed(w: World, calls: seq<KeepCall>)
    requires |calls| <= 1
    ensures |Confirmed(w, calls)| <= 1
  {
    if calls != [] { assert calls == [calls[0]]; FilterOne(calls[0], c => c in w.simulates); }
  }

  /**
   A confirmed timeout of the deal at the head of the page is in the report exactly when nothing blocks the
   sweep and nothing it takes is refused by the encoding.
   */
  lemma HeadIsServedIff(cfg: Config, w: World, c: KeepCall)
    requires cfg.maxDeals >= 1 && w.page != [] && w.page[0].AgreementDeal? && Watched(cfg, w.page[0].family)
      && Readable(w, w.page[0])
    requires var ref := C.Ref(w.page[0].family, w.page[0].id);
      c in Candidates(w.page[0].family, w.page[0].id, w.deals[ref], w.disputes[ref], w.now) && c in w.simulates
    ensures Swept(cfg, w).Some? <==> !Blocked(cfg, w)
    ensures Reported(cfg, w, c) <==> !Blocked(cfg, w) && NoneRefused(cfg, w)
  {
    hide Candidates, Watched, IsAddress, IsHex32, Takes, Blocked, Swept, Reported, NoneRefused;
    var n := HeadIsTaken(cfg, w, c);
    ReportedIff(cfg, w, c);
  }

  /** The watch list's page for a cursor. */
  function Rotate(list: seq<OpenDeal>, limit: nat, cursor: nat): seq<OpenDeal> {
    if list == [] then []
    else
      var start := cursor % |list|;
      var turned := list[start..] + list[..start];
      if limit < |turned| then turned[..limit] else turned
  }

  /** n consecutive sweeps over an unchanging watch list of n entries. */
  ghost predicate RoundOfSweeps(cfg: Config, list: seq<OpenDeal>, first: nat, worlds: seq<World>) {
    && list != [] && |worlds| == |list| && cfg.maxDeals >= 1
    && forall k | 0 <= k < |worlds| ::
      worlds[k].now / 60 == first + k && worlds[k].page == Rotate(list, cfg.maxDeals, worlds[k].now / 60)
  }

  lemma CursorComesRound(n: nat, first: nat, i: nat) returns (k: nat)
    requires i < n
    ensures k < n && (first + k) % n == i
  {
    var q, r := first / n, first % n;
    if r <= i {
      k := i - r;
      ModuloOf(q, n, i);
    } else {
      k := i + n - r;
      Distribute(q + 1, 1, n);
      assert first + k == (q + 1) * n + i;
      ModuloOf(q + 1, n, i);
    }
  }

  lemma Distribute(a: int, b: int, n: int)
    ensures (a - b) * n == a * n - b * n
  {
  }

  lemma AtLeastOnce(a: int, n: int)
    requires a >= 1 && n >= 1
    ensures a * n >= n
  {
  }

  lemma OneRemainder(q: int, p: int, n: int, i: int, r: int)
    requires 0 <= i < n && 0 <= r < n && q * n + i == p * n + r
    ensures i == r
  {
    Distribute(q, p, n);
    Distribute(p, q, n);
    if q > p { AtLeastOnce(q - p, n); }
    if q < p { AtLeastOnce(p - q, n); }
  }

  lemma ModuloOf(q: nat, n: nat, i: nat)
    requires i < n
    ensures (q * n + i) % n == i
  {
    var x := q * n + i;
    OneRemainder(q, x / n, n, i, x % n);
  }

  lemma RotatedElements(list: seq<OpenDeal>, limit: nat, cursor: nat)
    requires list != [] && limit >= 1
    ensures var p := Rotate(list, limit, cursor);
      && p != [] && p[0] == list[cursor % |list|] && forall i | 0 <= i < |p| :: p[i] in list
  {
  }

  /** This sweep sends the call: nothing blocks it, it comes to the call with both budgets, and nothing is refused. */
  ghost predicate Serves(cfg: Config, w: World, c: KeepCall) {
    !Blocked(cfg, w) && NoneRefused(cfg, w) && exists i, n :: Takes(cfg, w, i, n, c)
  }

  /**
   On an unchanging watch list of n entries, of which only this deal need be readable: a timeout that is due
   and keeps simulating true is sent within n consecutive sweeps exactly when one of them serves it; and one
   of them has the deal at the head of its page, which serves it exactly when nothing blocks that sweep and
   nothing it takes is refused.
   */
  lemma DueTimeoutIsSentWithinOneRound(cfg: Config, list: seq<OpenDeal>, first: nat, worlds: seq<World>, i: nat,
      d: AgreementView, x: DisputeView, c: KeepCall) returns (k: nat)
    requires RoundOfSweeps(cfg, list, first, worlds) && i < |list|
    requires list[i].AgreementDeal? && Watched(cfg, list[i].family)
    requires var ref := C.Ref(list[i].family, list[i].id);
      forall m | 0 <= m < |worlds| ::
        Readable(worlds[m], list[i]) && worlds[m].deals[ref] == d && worlds[m].disputes[ref] == x
          && c in worlds[m].simulates
    requires c in Candidates(list[i].family, list[i].id, d, x, worlds[0].now)
    ensures k < |worlds| && worlds[k].page[0] == list[i]
    ensures Serves(cfg, worlds[k], c) <==> !Blocked(cfg, worlds[k]) && NoneRefused(cfg, worlds[k])
    ensures (exists m | 0 <= m < |worlds| :: Reported(cfg, worlds[m], c))
      <==> exists m | 0 <= m < |worlds| :: Serves(cfg, worlds[m], c)
  {
    hide Candidates, Watched, Rotate, SweepPage, Blocked, Reported, Swept, IsAddress, IsHex32, Takes, NoneRefused;
    k := CursorComesRound(|list|, first, i);
    var w := worlds[k];
    RotatedElements(list, cfg.maxDeals, first + k);
    assert worlds[0].now <= w.now;
    CandidateStays(list[i].family, list[i].id, d, x, worlds[0].now, w.now, c);
    HeadIsServedIff(cfg, w, c);
    forall m | 0 <= m < |worlds| ensures Reported(cfg, worlds[m], c) <==> Serves(cfg, worlds[m], c) {
      ReportedIff(cfg, worlds[m], c);
    }
    hide Serves;
  }

  // ---- When it is not ----

  lemma {:induction false} EachTryIsOneRead(w: World, candidates: seq<KeepCall>, t: Tally)
    ensures t.used <= TryAll(w, candidates, t).used <= t.used + |candidates|
    decreases |candidates|
  {
    if candidates != [] && |t.due| < MAX_CALLS && t.used < MAX_READS {
      var c := candidates[0];
      EachTryIsOneRead(w, candidates[1..],
        t.(used := t.used + 1, due := if c in w.simulates then t.due + [c] else t.due));
    }
  }

  lemma DealTakesFourReads(w: World, deal: OpenDeal, t: Tally)
    requires deal.AgreementDeal? && Readable(w, deal)
    ensures AfterDeal(w, deal, t).used <= t.used + 4
  {
    hide Candidates, Alerts;
    var d, x := w.deals[C.Ref(deal.family, deal.id)], w.disputes[C.Ref(deal.family, deal.id)];
    EachTryIsOneRead(w, Candidates(deal.family, deal.id, d, x, w.now),
                     Tally(t.due, t.alerts + Alerts(deal.family, deal.id, d, x, w.now), t.used + 2));
  }

  function CountWatched(cfg: Config, page: seq<OpenDeal>): nat {
    |Filter(page, (o: OpenDeal) => Watched(cfg, o.family))|
  }

  lemma CountConcat(cfg: Config, a: seq<OpenDeal>, b: seq<OpenDeal>)
    ensures CountWatched(cfg, a + b) == CountWatched(cfg, a) + CountWatched(cfg, b)
  {
    FilterConcat(a, b, (o: OpenDeal) => Watched(cfg, o.family));
  }

  lemma CountOne(cfg: Config, deal: OpenDeal)
    ensures CountWatched(cfg, [deal]) == if Watched(cfg, deal.family) then 1 else 0
  {
    FilterOne(deal, (o: OpenDeal) => Watched(cfg, o.family));
  }

  /** Agreement deals take at most four reads each. */
  lemma {:induction false} ReadsAreBounded(cfg: Config, w: World, page: seq<OpenDeal>, t: Tally)
    requires forall i | 0 <= i < |page| && Watched(cfg, page[i].family) :: page[i].AgreementDeal?
    ensures SweepPage(cfg, w, page, t).Some?
      ==> SweepPage(cfg, w, page, t).value.used <= t.used + 4 * CountWatched(cfg, page)
    decreases |page|
  {
    hide Watched, Readable, AfterDeal, CountWatched;
    if page != [] {
      CountOne(cfg, page[0]);
      CountConcat(cfg, [page[0]], page[1..]);
      assert page == [page[0]] + page[1..];
      if !Watched(cfg, page[0].family) {
        ReadsAreBounded(cfg, w, page[1..], t);
      } else if t.used + 2 <= MAX_READS && Readable(w, page[0]) {
        DealTakesFourReads(w, page[0], t);
        ReadsAreBounded(cfg, w, page[1..], AfterDeal(w, page[0], t));
      }
    }
  }

  /** What blocks the front of a page blocks the page. */
  lemma FrontBlocks(cfg: Config, w: World, page: seq<OpenDeal>, t: Tally, i: nat)
    requires i <= |page| && SweepPage(cfg, w, page[..i], t).None?
    ensures SweepPage(cfg, w, page, t).None?
  {
    hide Watched, Readable, SweepPage;
    ThrowsIffBlocked(cfg, w, page[..i], t);
    ThrowsIffBlocked(cfg, w, page, t);
    var j :| Blocks(cfg, w, page[..i], t, j);
    assert page[..i][..j] == page[..j];
    assert Blocks(cfg, w, page, t, j);
  }

  lemma UnreadableWithinReach(cfg: Config, w: World, page: seq<OpenDeal>, i: nat)
    requires i < |page| && Watched(cfg, page[i].family) && page[i].AgreementDeal? && !Readable(w, page[i])
    requires forall j | 0 <= j < i && Watched(cfg, page[j].family) :: page[j].AgreementDeal?
    requires CountWatched(cfg, page[..i]) <= 3
    ensures SweepPage(cfg, w, page, Tally([], [], 0)).None?
  {
    hide Watched, Readable, CountWatched, SweepPage;
    var t := Tally([], [], 0);
    if SweepPage(cfg, w, page[..i], t).None? {
      FrontBlocks(cfg, w, page, t, i);
    } else {
      ReadsAreBounded(cfg, w, page[..i], t);
      ThrowsIffBlocked(cfg, w, page, t);
      assert Blocks(cfg, w, page, t, i);
    }
  }

  /** An unreadable entry right behind a deal blocks the sweep the deal heads, in a list of any length. */
  lemma UnreadableNeighbourBlocksTheHead(cfg: Config, w: World, list: seq<OpenDeal>, cursor: nat)
    requires |list| >= 2 && cfg.maxDeals >= 2 && w.page == Rotate(list, cfg.maxDeals, cursor)
    requires w.page[0].AgreementDeal? && w.page[1].AgreementDeal? && Watched(cfg, w.page[1].family)
      && !Readable(w, w.page[1])
    ensures Swept(cfg, w).None?
  {
    hide Watched, Readable, SweepPage, CountWatched;
    var page := Page(cfg, w);
    assert page == w.page;
    CountOne(cfg, page[0]);
    assert page[..1] == [page[0]];
    UnreadableWithinReach(cfg, w, page, 1);
  }

  lemma RotatedCount(cfg: Config, list: seq<OpenDeal>, cursor: nat, i: nat)
    requires list != [] && i < |list|
    ensures var p := Rotate(list, |list|, cursor);
      && |p| == |list| && (Watched(cfg, p[i].family) ==> CountWatched(cfg, p[..i]) + 1 <= CountWatched(cfg, list))
  {
    hide Watched, CountWatched;
    var start := cursor % |list|;
    var p := Rotate(list, |list|, cursor);
    assert p == list[start..] + list[..start] && list == list[..start] + list[start..];
    CountConcat(cfg, list[start..], list[..start]);
    CountConcat(cfg, list[..start], list[start..]);
    assert p == p[..i] + ([p[i]] + p[i + 1..]);
    CountConcat(cfg, p[..i], [p[i]] + p[i + 1..]);
    CountConcat(cfg, [p[i]], p[i + 1..]);
    CountOne(cfg, p[i]);
  }

  /**
   The failing case, for a list of any length that fits the page: with at most four entries of configured
   families, all of Agreement deals, one that the chain cannot read stops every sweep, so nothing is ever sent.
   */
  lemma UnreadableEntryStopsEverySweep(cfg: Config, w: World, list: seq<OpenDeal>, bad: OpenDeal, cursor: nat)
    requires bad in list && cfg.maxDeals >= |list| && w.page == Rotate(list, cfg.maxDeals, cursor)
    requires CountWatched(cfg, list) <= 4 && forall o | o in list && Watched(cfg, o.family) :: o.AgreementDeal?
    requires Watched(cfg, bad.family) && !Readable(w, bad)
    ensures Swept(cfg, w).None?
  {
    hide Watched, Readable, SweepPage, CountWatched;
    var start := cursor % |list|;
    var page := Page(cfg, w);
    assert page == list[start..] + list[..start] == Rotate(list, |list|, cursor);
    assert list == list[..start] + list[start..];
    assert bad in page;
    var i :| 0 <= i < |page| && page[i] == bad;
    RotatedCount(cfg, list, cursor, i);
    forall j | 0 <= j < |page| ensures page[j] in list {}
    UnreadableWithinReach(cfg, w, page, i);
  }

  // ---- Concretely ----

  const FAMILY: Text := [48, 120] + Repeat(99, 40)
  const DEAL_A: Text := [48, 120] + Repeat(97, 64)
  const DEAL_B: Text := [48, 120] + Repeat(98, 64)
  const WATCHING := Config([FAMILY], 10)

  /** Accepted, delivered, its review over, and far from its deadline: only a claim is due. */
  const CLAIMABLE := AgreementView(ACCEPTED, 1, 1_000_000_000_000, 2, false)
  const UNDISPUTED := DisputeView(0, false, false, 0, 0)

  function ClaimOf(id: Text): KeepCall { Timeout(FAMILY, id, "claim(bytes32)") }

  /** Two deals the chain knows, each with a claim that simulates true. */
  function TwoClaims(now: nat, page: seq<OpenDeal>, refused: set<KeepCall>): World {
    World(now, page, map[C.Ref(FAMILY, DEAL_A) := CLAIMABLE, C.Ref(FAMILY, DEAL_B) := CLAIMABLE],
          map[C.Ref(FAMILY, DEAL_A) := UNDISPUTED, C.Ref(FAMILY, DEAL_B) := UNDISPUTED],
          {ClaimOf(DEAL_A), ClaimOf(DEAL_B)}, refused, true)
  }

  lemma IdsAreRead(w: World, id: Text)
    requires (id == DEAL_A || id == DEAL_B) && w == TwoClaims(w.now, w.page, w.refused)
    ensures Readable(w, AgreementDeal(FAMILY, id)) && Watched(WATCHING, FAMILY)
    ensures w.deals[C.Ref(FAMILY, id)] == CLAIMABLE && w.disputes[C.Ref(FAMILY, id)] == UNDISPUTED
  {
    hide Lower;
    assert WATCHING.families[0] == FAMILY;
  }

  lemma OnlyTheClaim(id: Text, now: nat)
    requires 2 <= now < 1_000_000_000_000
    ensures Candidates(FAMILY, id, CLAIMABLE, UNDISPUTED, now) == [ClaimOf(id)]
  {
    SignaturesDiffer();
  }

  function WithABadEntry(): seq<OpenDeal> { [AgreementDeal(FAMILY, DEAL_A), AgreementDeal(FAMILY, [])] }

  /** At any time, one entry that is no deal id keeps a confirmed claim from being sent. */
  lemma OneBadEntryStopsAClaim(now: nat)
    requires 2 <= now < 1_000_000_000_000
    ensures var w := TwoClaims(now, Rotate(WithABadEntry(), 10, now / 60), {});
      && ClaimOf(DEAL_A) in Candidates(FAMILY, DEAL_A, CLAIMABLE, UNDISPUTED, now) && ClaimOf(DEAL_A) in w.simulates
      && Readable(w, AgreementDeal(FAMILY, DEAL_A)) && Swept(WATCHING, w).None?
  {
    var w := TwoClaims(now, Rotate(WithABadEntry(), 10, now / 60), {});
    OnlyTheClaim(DEAL_A, now);
    IdsAreRead(w, DEAL_A);
    var bad := AgreementDeal(FAMILY, []);
    assert WithABadEntry()[1] == bad;
    assert !Readable(w, bad);
    hide Readable, Watched, Candidates, Swept;
    assert CountWatched(WATCHING, WithABadEntry()) <= 2 by {
      assert WithABadEntry() == [AgreementDeal(FAMILY, DEAL_A)] + [bad];
      CountConcat(WATCHING, [AgreementDeal(FAMILY, DEAL_A)], [bad]);
      CountOne(WATCHING, AgreementDeal(FAMILY, DEAL_A));
      CountOne(WATCHING, bad);
    }
    UnreadableEntryStopsEverySweep(WATCHING, w, WithABadEntry(), bad, now / 60);
  }

  lemma ClaimIsTaken(w: World, id: Text, t: Tally)
    requires (id == DEAL_A || id == DEAL_B) && w == TwoClaims(w.now, w.page, w.refused)
    requires 2 <= w.now < 1_000_000_000_000 && |t.due| < MAX_CALLS && t.used + 2 < MAX_READS
    ensures Readable(w, AgreementDeal(FAMILY, id))
    ensures var next := AfterDeal(w, AgreementDeal(FAMILY, id), t);
      next.due == t.due + [ClaimOf(id)] && next.used == t.used + 3
  {
    IdsAreRead(w, id);
    OnlyTheClaim(id, w.now);
    hide Readable, Candidates, Alerts, AfterDeal;
    var deal := AgreementDeal(FAMILY, id);
    AfterDealTries(w, deal, t);
    assert EntryCalls(w, deal) == [ClaimOf(id)] && [ClaimOf(id)][1..] == [];
    assert TryAll(w, [ClaimOf(id)], Opened(w, deal, t)) == Next(w, ClaimOf(id), Opened(w, deal, t));
  }

  /** One call that the encoding refuses keeps the other confirmed claim from being sent, though nothing is blocked. */
  lemma OneRefusedCallStopsAClaim(now: nat)
    requires 2 <= now < 1_000_000_000_000
    ensures var w := TwoClaims(now, [AgreementDeal(FAMILY, DEAL_A), AgreementDeal(FAMILY, DEAL_B)], {ClaimOf(DEAL_B)});
      && Swept(WATCHING, w).Some? && Swept(WATCHING, w).value.due == [ClaimOf(DEAL_A), ClaimOf(DEAL_B)]
      && ClaimOf(DEAL_A) !in w.refused && !Reported(WATCHING, w, ClaimOf(DEAL_A))
  {
    var w := TwoClaims(now, [AgreementDeal(FAMILY, DEAL_A), AgreementDeal(FAMILY, DEAL_B)], {ClaimOf(DEAL_B)});
    IdsAreRead(w, DEAL_A);
    assert DEAL_A[2] != DEAL_B[2];
    hide Readable, Watched, AfterDeal;
    ClaimIsTaken(w, DEAL_A, Tally([], [], 0));
    var next := AfterDeal(w, w.page[0], Tally([], [], 0));
    ClaimIsTaken(w, DEAL_B, next);
    var last := AfterDeal(w, w.page[1], next);
    assert last.due == [ClaimOf(DEAL_A)] + [ClaimOf(DEAL_B)];
    assert w.page[1..] == [w.page[1]] && w.page[1..][1..] == [];
    assert SweepPage(WATCHING, w, w.page[1..], next) == Some(last);
    assert last.due[1] in w.refused;
  }
}
