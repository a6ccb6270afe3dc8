# Karwan in Dafny

Karwan holds software deals in escrow on Arc. Verified workflows decide what happens to them: one
replays a delivery and reports pass or fail, one triggers the timeouts the terms already allow, one
records public work. The server beside them keeps an activity feed, gates account deletion and
indexes what the workflows should look at. This project models that logic and proves what it is
relied on for.

- `Texts`, `Sorting`, `Lists`, `Numbers`: JavaScript strings as UTF-16 code units, `split`, `join`,
  stable `sort`, `filter`, `new Set`, and how finite numbers print.
- `Canonical`, `CanonicalProofs`, `CanonicalForms`: the canonical JSON printer, a decoder that reads every
  printed text back, the proof that two values have one text exactly when they are equal up to key order,
  and the very forms JSON.stringify gives.
- `Documents`, `Verdict`, `Runs`, `DocumentForms`: policies, delivery references and evidence under their
  fingerprints, the fixed replay rule, the inputs text a replay is bound to, run names and run selection,
  and what the committed texts say.
- `CheckRules`, `CheckWorkflow`, `CheckSafety`, `CheckTurns`, `CheckSystem`, `CheckAgreement`, `CheckExamples`:
  karwan-check. The rules are functions of one execution's view; the steps through the effectful ports
  are methods proved against them; the theorems are about every run of an honest chain, GitHub and any
  number of executions, while the index serves any item it likes, of any kind.
- `Keeper`: karwan-risk's candidates and its budgeted sweep over a rotating page.
- `EventBus`: the bounded ring of the activity feed.
- `WorkProof`, `WorkRule`: the gist by which a person proves a GitHub account, and the level rule.
- `Holdings`: the places read for an account's money, and why it cannot be deleted yet.
- `Routes`: which backend route a page's call reaches, and what is wrong with it.
- `Campaign`: the mutation worker, stopping and resuming, the summary and the triage.

A digest is identified with the text it was taken of (`Digest(preimage)`), so a hash that binds is a
statement about texts. Chain reads, GitHub, the index, clocks and simulations are parameters: one
execution sees one `World`. Source that works step by step is a class or a method with loops, proved
against a function; what is promised is then proved about that function.

Some promises do not hold of the code as it is. Each such case has the exact condition and a failing
input:

- a CHECK report is justified by the chain exactly when the index gave its item the kind 'deal'. Nothing
  checks `kind`: an item of a kind that is neither 'deal' nor 'dry' is admitted as a dry run, with no look
  at the deal's state or its Delivered logs, and answered as a check. `JustifiedIffDealItem` is the
  theorem over every run, `OtherKindIsReportedIff` says exactly when such an item writes a report, and
  `OtherKindsAreReportedUnjustified` is a run in which it does, passing and failing one revision of a deal
  Arc has no state of;
- two CHECK reports of deal items for one revision carry the same evidence, and so pass or fail alike,
  exactly when the index spelled the deal id alike and the first completed run of that name is the same in
  both listings GitHub gave (`RepeatedWritesAgree`; `OneEvidenceOneReplay` is the same for reports of any
  kinds and deals). It is the same once it was the oldest of its name, without a tie, and is still listed.
  They disagree when an older run finishes late (`LateFinishFlipsTheReport`) and when the deal id comes in
  two spellings (`TwoSpellingsDisagree`);
- collection finds the dispatched run exactly when the index gives the deal id back in the letter case
  of the log; otherwise it waits for a run nobody dispatched (`CollectFindsWhatStartSent`,
  `OtherLetterCaseMissesTheRun`);
- a genuine delivery is reported unless it, or an item before it on the page, throws
  (`GenuineIsReported`, `ThrowingItemEndsTheExecution`, `OneBadItemHidesAGenuineOne`);
- a timeout that is due is sent within a round of sweeps exactly when one of them serves it: nothing blocks
  that sweep, that is, no watched Agreement deal it comes to with reads to spare is unreadable; it comes to
  the timeout within both budgets; and no call it takes is refused by the encoding
  (`DueTimeoutIsSentWithinOneRound`, `ThrowsIffBlocked`, `DueIff`). The sweep the deal heads always comes to
  it. One unreadable entry can stop every sweep (`UnreadableEntryStopsEverySweep`,
  `OneBadEntryStopsAClaim`), and one refused call the whole report (`OneRefusedCallStopsAClaim`);
- injecting again changes nothing exactly when nothing unseen is as new as the oldest event kept in a
  full ring (`InjectChangesNothingIff`, `RepeatedInjectionCanRotate`);
- looking up stars for eight repositories only is harmless, and more work never lowers the level of a
  request, exactly when no counted repository is past the cut of work whose level hangs on its stars
  (`EightAreEnough`, `TheCutCanLower`, `RequestsAreMonotone`, `RequestOrderMatters`,
  `TenRepositoriesAreUnderrated`);
- each place is read once exactly when no two chains share a key (`EachPlaceOnceIff`);
- the listing a passed triage accepts is right about a picked mutant's result exactly when the last decided
  result of the same truncated id agrees with it on having survived (`ListedRightlyIff`,
  `TriageIsRightIff`). So it is right where no other result has the id (`EverySurvivorIsListed`), and where
  mutants of one id all survived, but a later killed mutant of its id hides a survivor
  (`CollisionHidesASurvivor`).

## Model

| member | source | states |
|---|---|---|
| CanonicalProofs.RoundTrip | cre/shared/canonical.ts:6-21 | the decoder recovers a value's meaning and the text after it from any printed text, unless that text continues a number |
| Numbers.FractionRoundTrip | cre/shared/canonical.ts:8-11 | every finite number that is not an integer below 10^21 reads back from its decimal or exponent form |
| CanonicalForms.PlainPrintsAsItself | cre/shared/canonical.ts:7 | a string prints as itself between quotes exactly when it holds no quote, backslash, control unit or lone surrogate |
| CanonicalForms.EscapesAre | cre/shared/canonical.ts:7 | the seven escapes of their own, the six-unit form of every other control unit and lone surrogate, and nothing else escaped |
| CanonicalForms.EscapeOfConcat | cre/shared/canonical.ts:7 | a string is escaped unit after unit, only a surrogate pair being seen as one |
| CanonicalForms.HexDigitsAre | cre/shared/canonical.ts:7 | the digits of the six-unit form, in lower case, the highest first |
| CanonicalForms.WholeNumbersAre | cre/shared/canonical.ts:8-11 | integers print without leading zeros, plus signs or a negative zero |
| CanonicalForms.FractionsAre | cre/shared/canonical.ts:8-11 | which form any other number prints in: written out from a millionth on and below 10^21, otherwise with an exponent |
| CanonicalForms.PartsAreJoined | cre/shared/canonical.ts:7-12 | the constants, and an array as its items' texts joined by commas in brackets |
| CanonicalForms.MembersAscend | cre/shared/canonical.ts:13-19 | an object prints as its members in ascending order of keys, each a quoted key, a colon and a value, joined by commas in braces |
| CanonicalForms.LessIsByFirstDifference | cre/shared/canonical.ts:14 | keys are ordered by the first unit in which they differ, a beginning before the whole |
| CanonicalForms.ErrorIsThere | cre/shared/canonical.ts:9-20 | a thrown error names a leaf that is there: a number that is not finite, an undefined member, a value without a form |
| CanonicalProofs.StringRoundTrip | cre/shared/canonical.ts:7 | every string, surrogates paired or not, reads back from its escaped form up to the closing quote |
| CanonicalProofs.PrintsIffPrintable | cre/shared/canonical.ts:6-21 | printing throws exactly when some leaf at some depth is not finite, undefined, or has no JSON form |
| CanonicalProofs.OneTextPerMeaning | cre/shared/canonical.ts:3-21 | equal texts exactly when equal meanings: the promise of one text form a value |
| CanonicalProofs.MeaningIgnoresOnlyOrder | cre/shared/canonical.ts:12-19 | equal meanings exactly when the values differ at most in key order, at every depth |
| CanonicalProofs.TextForgetsOnlyKeyOrder | cre/shared/canonical.ts:12-19 | equal texts exactly when the values differ at most in key order, at every depth |
| CanonicalProofs.CanonicalTextIsClean | cre/shared/canonical.ts:6-21 | canonical text holds no raw control character and no lone surrogate |
| Documents.ParsedIff | cre/shared/policy.ts:40-47 | parsing accepts exactly the documents of the schema with unique ids and a required item, and a partial line only where allowed and below the required count |
| DocumentForms.SchemasAre | cre/shared/policy.ts:9-36 | what the schemas of a policy and a reference admit, bound by bound |
| Documents.PolicyFingerprintBinds | cre/shared/policy.ts:17-49 | one policy fingerprint, one policy: items, their order and the optional setup included |
| DocumentForms.PolicyTextSays | cre/shared/policy.ts:17-49 | the text behind a policy fingerprint reads as exactly the schema's fields under their names |
| DocumentForms.ReferenceTextSays | cre/shared/reference.ts:8-16 | so does the text behind a proof fingerprint |
| Documents.ProofFingerprintBinds | cre/shared/reference.ts:8-16 | one proof fingerprint, one delivery reference |
| Documents.ItemsBind | cre/karwan-check/check.ts:105-107 | the items text a runner is sent determines the items in order |
| Verdict.VerdictIsTheRule | cre/shared/verdict.ts:38-67 | PASS exactly for a confirmed run of the pinned runner that delivered as agreed, FAIL exactly for a confirmed run that did not, UNAVAILABLE exactly without one; a pass of a parsed policy is never vacuous |
| Verdict.ReasonTellsWhy | cre/shared/verdict.ts:55-66 | each of the nine reasons is given exactly in its own case, so a result is waited for only before the timeout |
| Verdict.RecordCounts | cre/shared/verdict.ts:48-53 | the record counts the required items and those of them whose job succeeded |
| Verdict.LastJobWins | cre/shared/verdict.ts:46-51 | of several jobs of one name the last listed concludes |
| Verdict.OutcomesAreTheItems | cre/shared/verdict.ts:48-51 | the outcomes shown are the items' own, each once, in ascending order of id |
| DocumentForms.SameRepositoryIff | cre/shared/verdict.ts:28-29 | repositories are the same by number, and by owner and name in whatever letter case |
| Verdict.VerdictIgnoresOrder | cre/shared/verdict.ts:47-53 | the whole verdict is unchanged by permuting items and distinctly named jobs, and by the clock once the run completed |
| Verdict.OneLineInputs | cre/shared/verdict.ts:31-36 | the five-line inputs text splits back into exactly its five fields |
| DocumentForms.InputsSay | cre/shared/verdict.ts:31-36 | the inputs text itself, its fourth line reading back as the items in order |
| Verdict.InputsHashBinds | cre/shared/verdict.ts:34-36 | one inputs hash, one repository, commit, policy hash, item list and setup |
| Verdict.EvidenceHashBinds | cre/shared/evidence.ts:12-30 | one evidence hash, one policy, reference, run pins, item outcomes, counts, decision and reason |
| DocumentForms.EvidenceTextSays | cre/shared/evidence.ts:12-30 | the text behind an evidence hash reads as exactly the record's nine fields under their names |
| DocumentForms.ReplayRecordSays | cre/shared/evidence.ts:12-30 | the record of a replay in terms of the policy, the reference and the run: hashes, pins, counts, outcomes, decision and reason |
| Verdict.EvidenceIsStable | cre/shared/evidence.ts:12-30 | collecting the same completed run again, later and with its jobs in another order, gives the same verdict and evidence hash |
| Runs.StatusesAre | cre/karwan-check/ports.ts:258 | GitHub's words for a run's status |
| Runs.HexTextsAre | cre/karwan-check/check.ts:193-195 | what an address and an id look like |
| Runs.DealKeyBinds | cre/karwan-check/check.ts:158 | one deal key, one deal id text and one revision; it is one word |
| Runs.DryKeyReadsBack | cre/karwan-check/check.ts:218-330 | a dry key reads back to the lower-cased run id, differs for different ids and is never a deal key |
| Runs.RunTitleBinds | cre/karwan-check/ports.ts:247 | two different (deal key, commit, inputs hash) triples never give one run title |
| DocumentForms.NamesAre | cre/karwan-check/ports.ts:247 | the run title, the deal and dry keys and the job names, as texts |
| Runs.PickIsOldest | cre/karwan-check/ports.ts:251-254 | a completed run is taken when there is one, and none of the same standing is older |
| Runs.PickIgnoresListingOrder | cre/karwan-check/ports.ts:251-254 | the run taken does not depend on the order GitHub lists them in |
| Runs.FirstCompletedWins | cre/karwan-check/ports.ts:253-254 | a completed run is the one taken exactly when no older one of the name has completed, whatever came later |
| Runs.TakenIffFirst | cre/karwan-check/ports.ts:251-254 | whatever the listing, ties included: a completed run is the one taken exactly when any other completed one of its title is younger, or as old and listed behind it |
| Runs.LateFinishReplacesTheRun | cre/karwan-check/ports.ts:253-254 | the failing case: an older run that finishes late takes the place of a finished one |
| Runs.LateFinishCanFlipTheVerdict | cre/karwan-check/ports.ts:253-264 | in that case a PASS already given becomes a FAIL |
| CheckWorkflow.CheckPorts.DeliveredProofOf | cre/karwan-check/ports.ts:156-176 | the scan over the block's logs answers the first log of that block hash and revision, or nothing |
| CheckTurns.ScanFindsTheFirst | cre/karwan-check/ports.ts:156-176 | the answer is the proof hash of the first log of that block number, block hash and revision, and nothing without one |
| CheckWorkflow.StartReplay | cre/karwan-check/check.ts:139-183 | outcome and effects of every branch, a throwing chain read included, are those of the specification `Start` |
| CheckWorkflow.StartDryRun | cre/karwan-check/check.ts:203-243 | outcome and effects of every branch are those of the specification `StartDry` |
| CheckWorkflow.AdmitItem | cre/karwan-check/check.ts:281-308 | the gate in front of GitHub decides as the specification `Admit`, in the same order of refusals |
| CheckWorkflow.AnswerDryRun | cre/karwan-check/check.ts:318-334 | a dry answer is written only when decided, and is reported released only as the fee run shows after the write |
| CheckWorkflow.AnswerCheck | cre/karwan-check/check.ts:336-373 | what is written, posted and returned for a verdict, with the adapter's stored verdict deciding `attested` |
| CheckWorkflow.CollectOne | cre/karwan-check/check.ts:277-373 | one item's outcome, decision, effects in order and number of writes are those of `Collect` |
| CheckWorkflow.CollectResults | cre/karwan-check/check.ts:264-275 | the page cut to its limit, item by item, closing what will not change and stopping where a read throws |
| CheckTurns.StartTellsWhy | cre/karwan-check/check.ts:139-183 | each refusal to start a replay, and the dispatch, exactly in its own case |
| CheckTurns.StartDryTellsWhy | cre/karwan-check/check.ts:203-243 | and each refusal of a dry run |
| CheckTurns.StopTellsWhy | cre/karwan-check/check.ts:281-309 | each refusal of an indexed item, and a throwing read, exactly in its own case |
| CheckTurns.OutcomeTellsWhy | cre/karwan-check/check.ts:309-373 | each outcome exactly in its own case: attested exactly when the report was taken and is held as sent |
| CheckTurns.TurnDoes | cre/karwan-check/check.ts:309-373 | everything a turn does, in order: the look-up, the report, and what is posted, with its evidence, whether attested and whether the fee was released |
| CheckTurns.ClosedIffStopped | cre/karwan-check/check.ts:264-275 | an item's turn closes it exactly when the gate stopped it, with the gate's reason |
| CheckTurns.DealItemIsClosedIff | cre/karwan-check/check.ts:264-309 | a deal item is closed exactly when it can be read and is not genuine: a genuine one is never closed, whatever its run |
| CheckTurns.PageIsItsTurns | cre/karwan-check/check.ts:264-271 | one result for each item in turn, with what its turn decided, up to the item that throws |
| CheckTurns.TraceIsItsTurns | cre/karwan-check/check.ts:264-271 | everything an execution does is its items' turns, one after another, the last of them the one that threw |
| CheckTurns.PageClosesTheStopped | cre/karwan-check/check.ts:264-275 | what leaves the index is exactly the items reached that the gate stopped |
| CheckSafety.AdmittedDeal | cre/karwan-check/check.ts:281-309 | whatever the index put in an item, passing the gate means the chain's terms, an accepted undecided current revision, the fingerprinted policy and the delivered reference |
| CheckSafety.AdmittedIffGenuine | cre/karwan-check/check.ts:281-309 | the gate lets a deal item through with these documents exactly when item, documents and delivery are what the chain says: nothing genuine is refused |
| CheckSafety.AdmittedIffPassesAsDry | cre/karwan-check/check.ts:281-309 | the gate lets an item of any kind but 'deal' through exactly on terms, policy, dry key, reference schema and runner |
| CheckSafety.OtherKindIsReportedIff | cre/karwan-check/check.ts:288-358 | an item of kind neither 'deal' nor 'dry' writes a CHECK report exactly when attesting, passing as a dry run, and that run confirmed |
| CheckSafety.WrittenIff | cre/karwan-check/check.ts:309-358 | exactly which report an item's turn writes, whatever its kind: none without an admitted item and a confirmed run, a DRY report only for 'dry', a CHECK report for any other kind when attesting |
| CheckSafety.CheckReportIsJustified | cre/karwan-check/check.ts:336-354 | for a deal item each report's verifier, revision, pass flag and evidence hash follow from the chain and the run |
| CheckSafety.DryReportIsConfirmed | cre/karwan-check/check.ts:298-331 | a DRY report is sent only after a completed run of the pinned runner whose guard passed |
| CheckSafety.DryItemIsReportedIff | cre/karwan-check/check.ts:298-331 | exactly when an item of kind 'dry' is answered, and with what |
| CheckSafety.DecidedDealIsAttestedOrFailed | cre/karwan-check/check.ts:336-373 | attesting, a decided check is written for and ends attested or write-failed; otherwise nothing is written and it ends as shadow |
| CheckSafety.AttestedMeansHeldOnChain | cre/karwan-check/check.ts:353-358 | attested means the report was taken and the latest block holds exactly its verdict |
| CheckSafety.OnlyThrowsEnd | cre/karwan-check/check.ts:281-354 | an execution ends at an item exactly when a read for it or the encoding of its report throws, and then nothing is written for it |
| CheckSystem.SentMatchesTrace | cre/karwan-check/check.ts:264-271 | the reports of the system theorems are exactly those in the trace the methods produce |
| CheckSystem.StartsWriteNothing | cre/karwan-check/check.ts:139-243 | starting a replay or a dry run never writes a report |
| CheckSystem.GenuineIsReported | cre/karwan-check/check.ts:264-373 | no delivery is passed over: a genuine item with a confirmed run is reported with the rule's verdict whatever stands before it on the page, as long as nothing there throws |
| CheckSystem.ThrowingItemEndsTheExecution | cre/karwan-check/check.ts:266-282 | the failing case: an item that throws ends the execution for itself and every item behind it |
| CheckExamples.OneBadItemHidesAGenuineOne | cre/karwan-check/check.ts:266-282 | such a page, concretely: an item without a family, and behind it a genuine one whose run passed and which alone is reported |
| CheckSystem.JustifiedIffDealItem | cre/karwan-check/check.ts:139-373 | over every run, against an index that serves any item, a CHECK report ever sent is justified by the chain exactly when its item is of kind 'deal' |
| CheckExamples.OtherKindsAreReportedUnjustified | cre/karwan-check/check.ts:288-354 | the failing case: a run in which two items of another kind pass and fail one revision of a deal without state or Delivered log, neither report justified |
| CheckSystem.ShadowModeNeverAttests | cre/karwan-check/check.ts:338 | over every run with `attest` false, no CHECK report is ever sent, for an item of any kind |
| CheckSystem.JustificationIsUnique | cre/karwan-check/check.ts:281-309 | only one policy, reference and run can stand behind a report |
| CheckSystem.SettledRunIsTakenAgain | cre/karwan-check/ports.ts:246-265 | once the oldest run of a name has completed, later lookups take it while it is listed and no run ties with it |
| CheckSystem.OneEvidenceOneReplay | cre/karwan-check/check.ts:309-353 | over every run, two reports of whatever kinds and deals carry the same evidence exactly when they were written for one policy, one reference and one run name whose first completed run is the same in both listings, and then the same pass flag |
| CheckSystem.RepeatedWritesAgree | cre/karwan-check/check.ts:336-358 | over every run, two CHECK reports of deal items for one revision carry the same evidence exactly when the id was spelled alike and the first completed run of the name is the same in both listings, and then the same pass flag; it is once it was the oldest of its name, without a tie, and is still listed |
| CheckSystem.DryReportsAreAnswers | cre/karwan-check/check.ts:298-331 | over every run, each DRY report was sent for a 'dry' item, under its own fee run, with the policy in the named deal's terms and a completed run of the pinned runner |
| CheckExamples.LateFinishFlipsTheReport | cre/karwan-check/ports.ts:253-264 | the failing case: a run in which one deal item is reported as passed and then as failed |
| CheckExamples.TwoSpellingsDisagree | cre/karwan-check/check.ts:289-354 | the failing case: a run in which one deal under two spellings is reported as passed and as failed |
| CheckAgreement.DispatchedIffReplayable | cre/karwan-check/check.ts:139-183 | a replay is dispatched exactly for an accepted, current delivery whose documents, pull request and runner are the fingerprinted and pinned ones, with exactly its inputs, and noted as that delivery |
| CheckAgreement.DryDispatchedIffTryable | cre/karwan-check/check.ts:203-243 | a dry run is dispatched exactly for a well-formed request on the agreed policy and pinned runner while its fee is held, with exactly its inputs, and noted as that branch |
| CheckAgreement.CollectFindsWhatStartSent | cre/karwan-check/check.ts:139-309 | whatever documents the index serves, collection looks up the commit and inputs that were dispatched, and the same run title exactly when the id comes back in the same letter case |
| CheckExamples.OtherLetterCaseMissesTheRun | cre/karwan-check/check.ts:289-313 | the failing case: a dispatched run that completed and passed, and a collection that looks up another title and waits |
| CheckAgreement.OneNameOneDelivery | cre/karwan-check/check.ts:158-169 | two replays dispatched under one title are one delivery with the same inputs |
| CheckAgreement.DryRunKeyIsAccepted | cre/karwan-check/check.ts:203-300 | each accepted dry-run request gets a key the collector accepts and reads back as its run id, for a fee still held |
| CheckAgreement.CollectFindsTheDryRun | cre/karwan-check/check.ts:218-309 | the collector looks up the run a dry run was sent under exactly when the item brings back its key, a reference with its commit, and a deal whose terms fingerprint the policy sent; for the requested deal, exactly on key and commit |
| CheckAgreement.NotedReplayIsLookedUp | cre/karwan-check/check.ts:158-309 | a note of a dispatched replay, given back as it was, is admitted and has the dispatched run looked up for as long as the delivery stands |
| CheckAgreement.NotedDryRunIsLookedUp | cre/karwan-check/check.ts:218-309 | and so is a note of a dry run, at any later time |
| Keeper.AgreementCandidates | cre/karwan-risk/due.ts:50-68 | the pushes build exactly the timeouts whose condition `IsDue` holds, in order |
| Keeper.CandidatesAreDue | cre/karwan-risk/due.ts:50-68 | a call is a candidate exactly when it is a timeout of this deal, with its arguments, whose condition holds |
| Keeper.CandidatesInOrder | cre/karwan-risk/due.ts:50-68 | where two calls of one deal are due, which is tried first |
| Keeper.SuggestedAre | cre/karwan-risk/risk.ts:65-68 | a time or job deal's calls: one for each allowed suggestion, with its own arguments, and no other |
| Keeper.ArgsAreBytes | cre/karwan-risk/risk.ts:67 | suggested arguments are "0x" and at most 64 bytes |
| Keeper.AlertsAnnounceTimeouts | cre/karwan-risk/due.ts:70-82 | what each alert announces: an undelivered deal a day from being refundable, a dispute four days old that no timeout will ever end, a fallback a day away or closer |
| Keeper.TryCandidates | cre/karwan-risk/risk.ts:70-74 | one deal's loop keeps both budgets, only adds confirmed calls, and refines `TryAll` |
| Keeper.Sweep | cre/karwan-risk/risk.ts:50-79 | whatever the index serves: at most 15 reads, at most one report of at most 4 calls, each of a configured family, allow-listed and simulated true in this sweep; nothing sent when a read throws, only alerts when the encoding does |
| Keeper.OnRecordLog | cre/karwan-risk/risk.ts:82-95 | what a log triggers, by family and kind, and when a report is sent |
| Keeper.CandidateStays | cre/karwan-risk/due.ts:50-68 | a timeout that is due stays a candidate as time goes on |
| Keeper.TriedInOrder | cre/karwan-risk/risk.ts:70-74 | calls are tried from the first on as long as both budgets last, and the confirmed ones kept in that order |
| Keeper.RaisedIff | cre/karwan-risk/risk.ts:58-64 | the alerts of a sweep are exactly those of the Agreement deals it comes to with reads to spare |
| Keeper.DueIff | cre/karwan-risk/risk.ts:55-75 | the calls of a report are exactly those a sweep comes to, that simulate true, and that both budgets last up to |
| Keeper.ReportedIff | cre/karwan-risk/risk.ts:55-77 | a call is sent exactly when nothing blocks the sweep, the sweep takes it, and nothing taken is refused by the encoding |
| Keeper.ThrowsIffBlocked | cre/karwan-risk/risk.ts:55-64 | a sweep throws exactly when it comes, with reads to spare, to a watched Agreement deal it cannot read |
| Keeper.HeadIsServedIff | cre/karwan-risk/risk.ts:55-77 | a confirmed timeout of the deal at the head of the page is in the report exactly when nothing blocks the sweep and nothing it takes is refused |
| Keeper.CursorComesRound | backend/src/cre/store.ts:67-71 | n consecutive cursors start at every place of a list of n |
| Keeper.DueTimeoutIsSentWithinOneRound | cre/karwan-risk/risk.ts:50-79 | on an unchanging list of n entries, a due timeout that keeps simulating true is sent within n consecutive sweeps exactly when one of them serves it; one is headed by the deal and serves it exactly when nothing blocks it and nothing it takes is refused |
| Keeper.UnreadableNeighbourBlocksTheHead | cre/karwan-risk/risk.ts:58-64 | in a list of any length an unreadable watched entry right behind a deal blocks the sweep the deal heads |
| Keeper.UnreadableEntryStopsEverySweep | cre/karwan-risk/risk.ts:58-64 | the failing case, for a list of any length with at most four watched entries: one that cannot be read stops every sweep |
| Keeper.OneBadEntryStopsAClaim | cre/karwan-risk/risk.ts:58-64 | such a list, concretely: an entry that is no deal id, and a confirmed claim that no sweep sends at any time |
| Keeper.OneRefusedCallStopsAClaim | cre/karwan-risk/risk.ts:76-77 | the failing case of the encoding: two confirmed claims, one refused, and neither is sent |
| EventBus.KeyBinds | backend/src/events.ts:375-378 | the key text identifies type, job and time whatever the job id holds |
| EventBus.EmittedComesFirst | backend/src/events.ts:320-342 | any read that is about an emitted event, of one job or all and of any limit, gives that event first and then what the read of one less gave before; a full ring takes the oldest from the end of a read that reached it |
| EventBus.OtherJobsAreUnmoved | backend/src/events.ts:320-342 | a read for another job gives what it gave before, but for what a full ring forgets |
| EventBus.KarwanBus.InjectHistorical | backend/src/events.ts:373-396 | the loop, sort and slice refine `Inject`; the count is the number of fresh events |
| EventBus.KarwanBus.FinishHydrate | backend/src/events.ts:355-423 | the reload merges its rows, or nothing, and lets the next one start |
| EventBus.ReloadBringsTheNewest | backend/src/events.ts:398-423 | after a reload with rows the ring ascends and is the newest part of what it held and the rows with unseen keys, each once |
| EventBus.ReloadFillsAnEmptyRing | backend/src/events.ts:398-423 | an empty ring reloaded with no more rows than it holds has every row's key, each once |
| EventBus.ReloadWithoutRows | backend/src/events.ts:350-423 | a failed or empty reload leaves the ring as it was, and any reload lets the next one start |
| EventBus.EmptyRingReloads | backend/src/events.ts:350-360 | when a read starts a reload: an empty ring, a store, none in flight, the throttle elapsed |
| EventBus.FreshIsWhatWasUnseen | backend/src/events.ts:375-383 | exactly the unseen keys are added, each once |
| EventBus.InjectKeepsTheNewest | backend/src/events.ts:373-396 | after a non-empty injection the ring ascends and is the newest part of old and fresh events: nothing dropped is newer than anything kept, nothing is dropped below capacity |
| EventBus.SortKeepsTies | backend/src/events.ts:384 | events of one moment keep the order they had |
| EventBus.InjectChangesNothingIff | backend/src/events.ts:373-396 | when an injection into an ascending ring leaves it as it is |
| EventBus.RepeatedInjectionCanRotate | backend/src/events.ts:373-396 | the failing case: 501 events of one moment injected twice |
| EventBus.RecentIsTheTail | backend/src/events.ts:339-342 | a read gives the newest `limit` of what was asked for, newest first; a limit of zero gives all |
| EventBus.RingStaysBounded | backend/src/events.ts:314-396 | over every run the ring holds at most 500 events |
| EventBus.ReloadsAreSpaced | backend/src/events.ts:350-360 | over every run two reload queries start at least the throttle apart, on an empty ring, never while one is in flight |
| WorkProof.PublishedParses | cre/karwan-record/gist.ts:5-22 | a published proof reads back as its fields, with or without a newline at the end |
| WorkProof.ParsesIffPublished | cre/karwan-record/gist.ts:5-22 | a text parses to a proof exactly when it is that proof as published, up to one trailing newline |
| WorkProof.PublishedIs | cre/karwan-record/gist.ts:5-7 | the published gist itself, line by line |
| WorkProof.ProblemTellsWhy | cre/karwan-record/gist.ts:31-46 | each problem with a proof exactly in its own case |
| WorkProof.DatesAre | cre/karwan-record/gist.ts:16 | a date is four, two and two digits with dashes between |
| WorkProof.NamesAre | cre/karwan-record/record.ts:43-48 | what may name a gist and a fact, and which addresses are wallets |
| WorkProof.StandTellsWhy | cre/karwan-record/record.ts:46-60 | each refusal of a request exactly in its own case |
| WorkProof.AskedExactlyWhenProved | cre/karwan-record/record.ts:46-60 | a signature is asked for exactly when a well-formed request is backed by a published, matching and recent proof |
| WorkProof.SignedTextIsTheGist | cre/karwan-record/record.ts:46-60 | the message given to the signature check is unit for unit the gist before its signature line, in a gist of the named account, for that wallet, recent |
| WorkRule.WhatCounts | cre/shared/workRule.ts:29-40 | what counts: work of the last 365 days in repositories of others, and fifty stars |
| WorkRule.LevelIsEarned | cre/shared/workRule.ts:16-41 | the levels in terms of the work listed: a year-old account with ten pull requests to three repositories of others in the window, and for the second level forty, or three repositories with fifty stars |
| WorkRule.LastEntryCounts | cre/shared/workRule.ts:34-40 | in whatever letter case stars are recorded under, the last entry of a name counts |
| WorkRule.CountsAreOrdered | cre/shared/workRule.ts:22-41 | starred at most distinct at most merged |
| WorkRule.OwnWorkCountsForNothing | cre/shared/workRule.ts:29-33 | pull requests to one's own repositories change no figure |
| WorkRule.MoreWorkNeverLowers | cre/shared/workRule.ts:16-41 | more pull requests and more stars lower no count and no level |
| WorkRule.EightAreEnough | cre/karwan-record/record.ts:74-78 | when the cut at eight repositories changes the level for no star counts |
| WorkRule.TheCutCanLower | cre/karwan-record/record.ts:74-78 | otherwise some star counts give a request level 1 where all lookups would give level 2 |
| WorkRule.TenRepositoriesAreUnderrated | cre/karwan-record/record.ts:74-78 | such work, concretely: one pull request to each of ten repositories |
| WorkRule.CutNeverRaises | cre/karwan-record/record.ts:74-78 | the cut never raises a level |
| WorkRule.RequestsAreMonotone | cre/karwan-record/record.ts:74-78 | as long as the cut does not matter to it, a request with more work is never given a lower level |
| WorkRule.RequestOrderMatters | cre/karwan-record/record.ts:74-78 | otherwise the same pull requests in another order earn a request level 2 instead of 1 |
| Holdings.Add | backend/src/accountDeletion/holdings.ts:30-34 | pushes one job for each distinct non-empty lower-cased address |
| Holdings.HoldingsOf | backend/src/accountDeletion/holdings.ts:23-71 | every job is read once, a throwing read is recorded as unread |
| Holdings.JobsAreThePlaces | backend/src/accountDeletion/holdings.ts:36-60 | the jobs are exactly the places the gathering reads; Solana addresses only among the account's own and earlier wallets |
| Holdings.EachPlaceOnceIff | backend/src/accountDeletion/holdings.ts:29-60 | no place is read twice exactly when no two chains share a key |
| Holdings.EachPlaceIsAnswered | backend/src/accountDeletion/holdings.ts:23-71 | every place is answered with what was read there, and nothing else is |
| Holdings.HeldAdds | backend/src/accountDeletion/rules.ts:30-46 | what is held is the sum of what was read and is not dust |
| Holdings.ClearedIff | backend/src/accountDeletion/rules.ts:30-46 | cleared exactly when nothing is going on and every holding was read and is dust |
| Holdings.RefusalNamesTheFirst | backend/src/accountDeletion/rules.ts:30-46 | which reason is named: deals, the market, bids, a balance even beside failed reads, then a failed read |
| Holdings.ClearedOnFullKnowledge | backend/src/accountDeletion/rules.ts:30-46 | the gate composed with the gathering: cleared exactly when nothing is going on and every place the gathering reads was read and holds less than a cent |
| Routes.Compare | frontend/scripts/pageRouteMap.ts:157-165 | the segment loop with its early break decides the match and, on a match, the score |
| Routes.FindRoute | frontend/scripts/pageRouteMap.ts:148-168 | the loop over routes refines `BestOf` |
| Routes.BestOfIsBest | frontend/scripts/pageRouteMap.ts:146-168 | no route exactly when none matches; otherwise the match of greatest score and the first of those, which is the only best one |
| Routes.MatchesAre | frontend/scripts/pageRouteMap.ts:148-165 | a route matches a call of its verb with as many segments, each the same, a route parameter or a call parameter |
| Routes.ScoreCounts | frontend/scripts/pageRouteMap.ts:157-166 | the score is one for each same segment and a half for each pair of parameters, nothing for a parameter against a fixed segment |
| Routes.ExactPathWins | frontend/scripts/pageRouteMap.ts:157-166 | a route spelled as the call is reached before any with parameters |
| Routes.ParameterPrefersParameter | frontend/scripts/pageRouteMap.ts:161-163 | for a parameter of the call a route parameter beats a fixed segment in the same place |
| Routes.PageProblems | frontend/scripts/pageRouteMap.ts:170-193 | the nested loops report each raised problem unless its text was seen |
| Routes.RaisedAre | frontend/scripts/pageRouteMap.ts:177-193 | what is raised: exactly a call that reaches no route, or a write without a guard that is not allowed, under its page and name |
| Routes.OnceEachReports | frontend/scripts/pageRouteMap.ts:172-176 | nothing made up, no text twice, every raised text reported |
| Routes.EmptyReportIff | frontend/scripts/pageRouteMap.ts:170-193 | the report is empty exactly when every known call reaches a route and every unguarded write reached is allowed |
| Routes.NormalIffFixed | frontend/scripts/pageRouteMap.ts:135-144 | normalising gives a path without query, marks or trailing slash, and leaves exactly those alone |
| Routes.SegmentBySegment | frontend/scripts/pageRouteMap.ts:137-144 | a path is normalised segment by segment |
| Routes.TrailingMarksAreDropped | frontend/scripts/pageRouteMap.ts:138-140 | marks at the end of a segment are dropped |
| Routes.MarkInsideIsAParameter | frontend/scripts/pageRouteMap.ts:138-140 | a segment with a mark before its end is a parameter |
| Routes.MarksAloneAreAParameter | frontend/scripts/pageRouteMap.ts:138-140 | a segment of marks alone is a parameter |
| Routes.QueryIsCut | frontend/scripts/pageRouteMap.ts:136 | a query or a fragment makes no difference |
| Routes.TrailingSlashIsDropped | frontend/scripts/pageRouteMap.ts:142 | a slash at the end makes no difference |
| Campaign.Worker.TryMutant | scripts/ops/mutant_worker.py:102-115 | the test sees the patched file; afterwards every file is as before, raised or not |
| Campaign.Worker.Run | scripts/ops/mutant_worker.py:91-118 | a pass leaves every file byte-identical and appends exactly the rows of `PassFrom`, up to where it stopped |
| Campaign.TrialIsOneEdit | scripts/ops/mutant_worker.py:100-112 | each test run sees the sources with one mutant in them, its old text replaced by its new text, and never a skipped one |
| Campaign.RowsAreVerdicts | scripts/ops/mutant_worker.py:91-118 | a row for each mutant not skipped, in order, holding what its test ended as, or 'stale' when its old text is not there; rows and trials pair up; a pass stops only for a missing file or a test that raised |
| Campaign.OffsetsAreCut | scripts/ops/mutant_worker.py:105 | negative offsets count from the end, and offsets are cut to the file |
| Campaign.PassWritesOnce | scripts/ops/mutant_worker.py:97-118 | one worker writes each key it does not skip at most once, and all of them when not stopped |
| Campaign.LaunchKeepsTheDecided | scripts/ops/forge-remote.sh:246-286 | a resumed launch keeps what was decided, as it was, tests none of it again, and keeps nothing else |
| Campaign.EachMutantOnce | scripts/ops/forge-remote.sh:246-286 | however often a sharded campaign is stopped and resumed, no mutant has two results, and all have one when the last launch ran to its end |
| Campaign.Summary | scripts/ops/mutant_worker.py:121-155 | exit code 0 exactly when every picked mutant is picked once with one result, controls survived, every contract has one, and nothing is left to run again |
| Campaign.FinishedCampaignIsComplete | scripts/ops/mutant_worker.py:121-143 | a campaign whose last launch ran to its end passes the summary's counters |
| Campaign.Triage | scripts/ops/mutant_worker.py:158-187 | exit code 0 exactly when the listed mutants are the survivors and every picked one is decided |
| Campaign.ListedRightlyIff | scripts/ops/mutant_worker.py:158-187 | when the triage passes, the listing is right about a picked mutant's result exactly when the last decided result of its id agrees on having survived |
| Campaign.TriageIsRightIff | scripts/ops/mutant_worker.py:158-187 | it is right about all picked mutants exactly when each of their results agrees with the last decided one of its id |
| Campaign.EverySurvivorIsListed | scripts/ops/mutant_worker.py:121-187 | when both pass, a picked mutant whose id no other result shares has a decided result and survived exactly when listed |
| Campaign.CollisionHidesASurvivor | scripts/ops/mutant_worker.py:59-61 | the failing case: a later killed mutant of the same id hides a survivor |

## Left out

- Integers from 10^21 on in documents: an id that large would print in exponent form, while `Num` prints plain digits.
- Keccak, SHA-256, ABI encoding and signature recovery: a digest is its preimage, report bodies are records, the encodings that throw are a parameter, and the chain id and adapter of the envelope are dropped.
- zod: schemas are predicates on parsed records. Whether a mixed-case address has a right checksum is a parameter.
- Fields of an indexed item other than `kind` are of their declared types.
- Chain reads of a deal or terms that are not there are modelled as throwing; the contracts are not part of this model.
- One execution sees one view of the chain, GitHub and the simulations; the latest-block reads after a write are separate answers.
- GitHub is honest: completed runs do not change and new runs are no older than those there were; creation times compare as integers, and the seven-day page of one hundred runs appears as "still listed".
- The amount in an owed-balance alert and the number of parts paid in a deal view, which decide nothing.
- The sealed numbers and account key of a work fact, and everything in `handleWorkRequest` after the signature check except the star candidates.
- `Date.parse` is a table from days to seconds; a day it does not hold is not a date.
- Postgres, disk persistence, server-sent events and live subscribers of the activity bus; two reloads are separated into their start and end.
- The text of refusal messages, and the rounding of the amount in them.
- The scan of page and backend sources for calls, routes and guards.
- A mutation worker killed outright in the middle of a test, which leaves its copy patched; and the hash that names a mutant, which the triage takes as given.
- Log output of the summary and the triage.
