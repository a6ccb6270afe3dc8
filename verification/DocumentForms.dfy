/** What the committed documents say when their canonical text is read, and the texts runs and jobs are known by. */
module DocumentForms {
  import opened Texts
  import opened Numbers
  import opened Canonical
  import opened CanonicalProofs
  import opened Documents
  import opened Verdict
  import opened Runs

  function Number(n: int): Value { VNum(Whole(n)) }

  function String(s: string): Value { VStr(Ascii(s)) }

  /** A text that reads as this value and nothing after it. */
  ghost predicate Reads(t: Text, v: Value) { ReadValue(t) == Got(v, []) }

  lemma TextReads(v: Json)
    requires Sound(v)
    ensures Reads(CanonicalText(v), Meaning(v))
  {
    PrintsIffPrintable(v);
    RoundTrip(v, []);
    assert CanonicalText(v) + [] == CanonicalText(v);
  }

  // ---- Parts ----

  function RepositoryValue(r: Repository): Value {
    VRecord(map[Ascii("owner") := VStr(r.owner), Ascii("name") := VStr(r.name), Ascii("id") := Number(r.id)])
  }

  function ItemValue(i: Item): Value {
    VRecord(map[Ascii("id") := VStr(i.id), Ascii("title") := VStr(i.title), Ascii("run") := VStr(i.run),
                Ascii("required") := VBool(i.required)])
  }

  function ItemValues(items: seq<Item>): Value {
    VList(seq(|items|, i requires 0 <= i < |items| => ItemValue(items[i])))
  }

  function RunnerValue(r: Runner): Value {
    VRecord(map[Ascii("repository") := VStr(r.repository),
                Ascii("workflow") := String(".github/workflows/replay.yml"), Ascii("blobSha") := VStr(r.blobSha)])
  }

  /** An object means the fields of its members, whatever their order. */
  lemma FieldsAre(members: seq<Member>, fields: map<Text, Value>)
    requires DistinctKeys(members)
    requires forall i | 0 <= i < |members| ::
      members[i].key in fields && fields[members[i].key] == Meaning(members[i].value)
    requires forall k | k in fields :: exists i :: 0 <= i < |members| && members[i].key == k
    ensures MembersMeaning(members) == fields
  {
    hide Meaning;
    forall i | 0 <= i < |members|
      ensures members[i].key in MembersMeaning(members)
        && MembersMeaning(members)[members[i].key] == fields[members[i].key]
    {
      MeaningOfKey(members, i);
    }
    MeaningKeys(members);
  }

  lemma RepositoryMeans(r: Repository)
    ensures Meaning(Obj(RepositoryMembers(r))) == RepositoryValue(r)
  {
    RepositorySound(r);
    var ms := RepositoryMembers(r);
    assert |Ascii("owner")| == 5 && |Ascii("name")| == 4 && |Ascii("id")| == 2;
    assert ms[0].key == Ascii("owner") && ms[1].key == Ascii("name") && ms[2].key == Ascii("id");
    FieldsAre(ms, RepositoryValue(r).fields);
  }

  lemma ItemMeans(i: Item)
    ensures Meaning(Obj(ItemMembers(i))) == ItemValue(i)
  {
    ItemSound(i);
    var ms := ItemMembers(i);
    assert |Ascii("id")| == 2 && |Ascii("title")| == 5 && |Ascii("run")| == 3 && |Ascii("required")| == 8;
    assert ms[0].key == Ascii("id") && ms[1].key == Ascii("title") && ms[2].key == Ascii("run")
      && ms[3].key == Ascii("required");
    FieldsAre(ms, ItemValue(i).fields);
  }

  lemma ItemsMean(items: seq<Item>)
    ensures Meaning(ItemsJson(items)) == ItemValues(items)
  {
    hide ItemMembers;
    var vs := ItemsJson(items).items;
    forall i | 0 <= i < |items| ensures ItemsMeaning(vs)[i] == ItemValue(items[i]) {
      ItemMeaning(vs, i);
      ItemMeans(items[i]);
    }
  }

  lemma RunnerMeans(r: Runner)
    ensures Meaning(Obj(RunnerMembers(r))) == RunnerValue(r)
  {
    RunnerSound(r);
    var ms := RunnerMembers(r);
    assert |Ascii("repository")| == 10 && |Ascii("workflow")| == 8 && |Ascii("blobSha")| == 7;
    assert ms[0].key == Ascii("repository") && ms[1].key == Ascii("workflow") && ms[2].key == Ascii("blobSha");
    FieldsAre(ms, RunnerValue(r).fields);
  }

  // ---- The policy and the reference ----

  /** The record has this under this key. */
  ghost predicate Has(f: map<Text, Value>, key: string, v: Value) { Ascii(key) in f && f[Ascii(key)] == v }

  lemma MemberIsHad(ms: seq<Member>, i: nat, key: string)
    requires Sound(Obj(ms)) && i < |ms| && ms[i].key == Ascii(key)
    ensures Has(MembersMeaning(ms), key, Meaning(ms[i].value))
  {
    MeaningOfKey(ms, i);
  }

  lemma ObjectReads(ms: seq<Member>)
    requires Sound(Obj(ms))
    ensures Reads(CanonicalText(Obj(ms)), VRecord(MembersMeaning(ms))) && |MembersMeaning(ms).Keys| == |ms|
  {
    TextReads(Obj(ms));
    KeyCount(ms);
  }

  lemma PolicyMember(p: Policy, i: nat, key: string)
    requires i < |PolicyMembers(p)| && PolicyMembers(p)[i].key == Ascii(key)
    ensures Has(MembersMeaning(PolicyMembers(p)), key, Meaning(PolicyMembers(p)[i].value))
  {
    PolicySound(p);
    MemberIsHad(PolicyMembers(p), i, key);
  }

  lemma PolicyParts(p: Policy)
    ensures var f := MembersMeaning(PolicyMembers(p));
      && Has(f, "repository", RepositoryValue(p.repository)) && Has(f, "items", ItemValues(p.items))
      && Has(f, "runner", RunnerValue(p.runner))
  {
    RepositoryMeans(p.repository);
    ItemsMean(p.items);
    RunnerMeans(p.runner);
    hide RepositoryMembers, RunnerMembers, ItemsJson, RepositoryValue, RunnerValue, ItemValues, MembersMeaning, Ascii,
      Has;
    PolicyMember(p, 1, "repository");
    PolicyMember(p, 4, "items");
    PolicyMember(p, 6, "runner");
  }

  lemma PolicyScalars(p: Policy)
    ensures var f := MembersMeaning(PolicyMembers(p));
      && Has(f, "policy", String("karwan.replay.github.v1")) && Has(f, "baseBranch", VStr(p.baseBranch))
      && Has(f, "delivery", if p.delivery == Pull then String("pull") else String("commit"))
      && Has(f, "partialAt", if p.partialAt.Some? then Number(p.partialAt.value) else VNull)
      && Has(f, "timeoutMinutes", Number(p.timeoutMinutes))
      && (p.setup.Some? ==> Has(f, "setup", VStr(p.setup.value)))
  {
    hide RepositoryMembers, RunnerMembers, ItemsJson, MembersMeaning, Ascii, Has;
    PolicyMember(p, 0, "policy");
    PolicyMember(p, 2, "baseBranch");
    PolicyMember(p, 3, "delivery");
    PolicyMember(p, 5, "partialAt");
    PolicyMember(p, 7, "timeoutMinutes");
    if p.setup.Some? { PolicyMember(p, 8, "setup"); }
  }

  /** The text behind a policy's fingerprint reads as exactly these fields. */
  lemma PolicyTextSays(p: Policy) returns (f: map<Text, Value>)
    ensures Reads(PolicyFingerprint(p).preimage, VRecord(f)) && |f.Keys| == (if p.setup.Some? then 9 else 8)
    ensures Has(f, "policy", String("karwan.replay.github.v1"))
      && Has(f, "repository", RepositoryValue(p.repository)) && Has(f, "baseBranch", VStr(p.baseBranch))
      && Has(f, "delivery", if p.delivery == Pull then String("pull") else String("commit"))
      && Has(f, "items", ItemValues(p.items))
      && Has(f, "partialAt", if p.partialAt.Some? then Number(p.partialAt.value) else VNull)
      && Has(f, "runner", RunnerValue(p.runner)) && Has(f, "timeoutMinutes", Number(p.timeoutMinutes))
      && (p.setup.Some? ==> Has(f, "setup", VStr(p.setup.value)))
  {
    f := MembersMeaning(PolicyMembers(p));
    PolicySound(p);
    ObjectReads(PolicyMembers(p));
    PolicyParts(p);
    PolicyScalars(p);
    hide MembersMeaning, Has, RepositoryMembers, RunnerMembers, ItemsJson, Ascii;
  }

  /** And the text behind a delivery's proof hash. */
  lemma ReferenceTextSays(r: Reference) returns (f: map<Text, Value>)
    ensures Reads(ProofFingerprint(r).preimage, VRecord(f)) && |f.Keys| == 3
    ensures Has(f, "repository", RepositoryValue(r.repository)) && Has(f, "pull", Number(r.pull))
      && Has(f, "sha", VStr(r.sha))
  {
    var ms := ReferenceMembers(r);
    f := MembersMeaning(ms);
    ReferenceSound(r);
    ObjectReads(ms);
    RepositoryMeans(r.repository);
    hide RepositoryMembers, RepositoryValue, MembersMeaning, Has, Ascii, Sound;
    MemberIsHad(ms, 0, "repository");
    MemberIsHad(ms, 1, "pull");
    MemberIsHad(ms, 2, "sha");
  }

  // ---- The evidence ----

  function PinsValue(r: RunPins): Value {
    VRecord(map[Ascii("id") := Number(r.id), Ascii("headSha") := VStr(r.headSha),
                Ascii("runnerBlobSha") := VStr(r.runnerBlobSha)])
  }

  function ResultValue(i: ItemResult): Value {
    VRecord(map[Ascii("id") := VStr(i.id), Ascii("passed") := VBool(i.passed)])
  }

  function ResultValues(items: seq<ItemResult>): Value {
    VList(seq(|items|, i requires 0 <= i < |items| => ResultValue(items[i])))
  }

  lemma PinsMean(r: RunPins)
    ensures Meaning(Obj(PinsMembers(r))) == PinsValue(r)
  {
    PinsSound(r);
    var ms := PinsMembers(r);
    assert |Ascii("id")| == 2 && |Ascii("headSha")| == 7 && |Ascii("runnerBlobSha")| == 13;
    assert ms[0].key == Ascii("id") && ms[1].key == Ascii("headSha") && ms[2].key == Ascii("runnerBlobSha");
    FieldsAre(ms, PinsValue(r).fields);
  }

  lemma ResultMeans(i: ItemResult)
    ensures Meaning(Obj(ResultMembers(i))) == ResultValue(i)
  {
    ResultSound(i);
    var ms := ResultMembers(i);
    assert |Ascii("id")| == 2 && |Ascii("passed")| == 6;
    assert ms[0].key == Ascii("id") && ms[1].key == Ascii("passed");
    FieldsAre(ms, ResultValue(i).fields);
  }

  lemma ResultsMean(items: seq<ItemResult>)
    ensures Meaning(ResultsJson(items)) == ResultValues(items)
  {
    hide ResultMembers;
    var vs := ResultsJson(items).items;
    forall i | 0 <= i < |items| ensures ItemsMeaning(vs)[i] == ResultValue(items[i]) {
      ItemMeaning(vs, i);
      ResultMeans(items[i]);
    }
  }

  /** What each decision and each reason is called in the record. */
  function DecisionName(d: Decision): string {
    match d case Pass => "PASS" case Fail => "FAIL" case Unavailable => "UNAVAILABLE"
  }

  function ReasonName(r: Reason): string {
    match r
    case RunMissing => "RUN_MISSING"
    case RunTimedOut => "RUN_TIMED_OUT"
    case RunPending => "RUN_PENDING"
    case RunnerNotPinned => "RUNNER_NOT_PINNED"
    case RunInputsUnconfirmed => "RUN_INPUTS_UNCONFIRMED"
    case RepositoryMismatch => "REPOSITORY_MISMATCH"
    case ShaMismatch => "SHA_MISMATCH"
    case ItemFailed => "ITEM_FAILED"
    case AllRequiredPassed => "ALL_REQUIRED_PASSED"
  }

  lemma EvidenceMember(e: Evidence, i: nat, key: string)
    requires i < 9 && EvidenceMembers(e)[i].key == Ascii(key)
    ensures Has(MembersMeaning(EvidenceMembers(e)), key, Meaning(EvidenceMembers(e)[i].value))
  {
    EvidenceSound(e);
    MemberIsHad(EvidenceMembers(e), i, key);
  }

  lemma EvidencePins(e: Evidence)
    ensures var f := MembersMeaning(EvidenceMembers(e));
      && Has(f, "version", String("karwan.replay.evidence.v1")) && Has(f, "policyHash", VStr(HexText(e.policyHash)))
      && Has(f, "referenceHash", VStr(HexText(e.referenceHash))) && Has(f, "run", PinsValue(e.run))
  {
    PinsMean(e.run);
    hide PinsMembers, PinsValue, ResultsJson, MembersMeaning, Ascii, Has, HexText, DecisionText, ReasonText;
    EvidenceMember(e, 0, "version");
    EvidenceMember(e, 1, "policyHash");
    EvidenceMember(e, 2, "referenceHash");
    EvidenceMember(e, 3, "run");
  }

  lemma EvidenceOutcome(e: Evidence)
    ensures var f := MembersMeaning(EvidenceMembers(e));
      && Has(f, "items", ResultValues(e.items)) && Has(f, "passed", Number(e.passed))
      && Has(f, "required", Number(e.required)) && Has(f, "decision", String(DecisionName(e.decision)))
      && Has(f, "reason", String(ReasonName(e.reason)))
  {
    ResultsMean(e.items);
    assert DecisionText(e.decision) == Ascii(DecisionName(e.decision));
    assert ReasonText(e.reason) == Ascii(ReasonName(e.reason));
    hide PinsMembers, ResultsJson, ResultValues, MembersMeaning, Ascii, Has, HexText, DecisionText, ReasonText;
    EvidenceMember(e, 4, "items");
    EvidenceMember(e, 5, "passed");
    EvidenceMember(e, 6, "required");
    EvidenceMember(e, 7, "decision");
    EvidenceMember(e, 8, "reason");
  }

  /** The text behind an evidence hash reads as exactly these fields. */
  lemma EvidenceTextSays(e: Evidence) returns (f: map<Text, Value>)
    ensures Reads(EvidenceHash(e).preimage, VRecord(f)) && |f.Keys| == 9
    ensures Has(f, "version", String("karwan.replay.evidence.v1")) && Has(f, "policyHash", VStr(HexText(e.policyHash)))
      && Has(f, "referenceHash", VStr(HexText(e.referenceHash))) && Has(f, "run", PinsValue(e.run))
      && Has(f, "items", ResultValues(e.items)) && Has(f, "passed", Number(e.passed))
      && Has(f, "required", Number(e.required)) && Has(f, "decision", String(DecisionName(e.decision)))
      && Has(f, "reason", String(ReasonName(e.reason)))
  {
    f := MembersMeaning(EvidenceMembers(e));
    EvidenceSound(e);
    ObjectReads(EvidenceMembers(e));
    EvidencePins(e);
    EvidenceOutcome(e);
    hide MembersMeaning, Has, PinsMembers, ResultsJson, Ascii;
  }

  /**
   The record of a replay, from what was agreed, delivered and run: the two hashes, the run by its number, commit
   and runner, how many required items there are and how many of them succeeded, and the rule's decision.
   */
  lemma ReplayRecordSays(p: Policy, r: Reference, run: RunFacts, now: int) returns (f: map<Text, Value>)
    ensures var v := Replay(p, r, Some(run), now); Reads(EvidenceHash(BuildEvidence(p, r, run, v)).preimage, VRecord(f))
    ensures Has(f, "policyHash", VStr(HexText(PolicyFingerprint(p))))
      && Has(f, "referenceHash", VStr(HexText(ProofFingerprint(r))))
      && Has(f, "run", VRecord(map[Ascii("id") := Number(run.runId), Ascii("headSha") := VStr(run.headSha),
           Ascii("runnerBlobSha") := VStr(run.runnerBlobSha)]))
      && Has(f, "required", Number(|RequiredItems(p.items)|))
      && Has(f, "passed", Number(|PassedItems(p.items, run.jobs)|))
      && Has(f, "items", ResultValues(Replay(p, r, Some(run), now).items))
      && Has(f, "decision", String(if !Confirmed(p, run) then "UNAVAILABLE"
           else if DeliveredAsAgreed(p, r, run) then "PASS" else "FAIL"))
      && Has(f, "reason", String(ReasonName(Replay(p, r, Some(run), now).reason)))
  {
    RecordCounts(p, r, Some(run), now);
    VerdictIsTheRule(p, r, Some(run), now);
    hide Replay, Confirmed, DeliveredAsAgreed, Agreed, RequiredItems, PassedItems, ResultValues, HexText, Ascii, Has,
      PolicyFingerprint, ProofFingerprint, Reads, EvidenceHash, ReasonName, Number, String;
    f := EvidenceTextSays(BuildEvidence(p, r, run, Replay(p, r, Some(run), now)));
  }

  // ---- The inputs, the run names and the jobs ----

  /** The five lines a replay is bound to, as text; the items line reads back as the items. */
  lemma InputsSay(p: Policy, policyHash: Digest, sha: Text)
    ensures InputsText(p, policyHash, sha)
      == p.repository.owner + Ascii("/") + p.repository.name + Ascii("\n") + sha + Ascii("\n")
         + HexText(policyHash) + Ascii("\n") + Verdict.ItemsText(p) + Ascii("\n")
         + (if p.setup.Some? then p.setup.value else [])
    ensures Reads(Verdict.ItemsText(p), ItemValues(p.items))
    ensures HexText(policyHash)[..2] == Ascii("0x")
  {
    ItemsSound(p.items);
    TextReads(ItemsJson(p.items));
    ItemsMean(p.items);
    assert Ascii("/") == [SLASH] && Ascii("\n") == [NEWLINE];
    hide Verdict.ItemsText, ItemsJson, ItemValues, HexText, Ascii;
    FiveLines(RepoName(p), sha, HexText(policyHash), Verdict.ItemsText(p), SetupText(p));
  }

  lemma FiveLines(a: Text, b: Text, c: Text, d: Text, e: Text)
    ensures Join([a, b, c, d, e], NEWLINE)
      == a + [NEWLINE] + b + [NEWLINE] + c + [NEWLINE] + d + [NEWLINE] + e
  {
    assert [a, b, c, d, e][1..] == [b, c, d, e] && [b, c, d, e][1..] == [c, d, e];
    assert [c, d, e][1..] == [d, e] && [d, e][1..] == [e];
    assert Join([d, e], NEWLINE) == d + [NEWLINE] + e;
    assert Join([c, d, e], NEWLINE) == c + [NEWLINE] + (d + [NEWLINE] + e);
    assert Join([b, c, d, e], NEWLINE) == b + [NEWLINE] + (c + [NEWLINE] + (d + [NEWLINE] + e));
  }

  /** How runs and jobs are named. */
  lemma NamesAre(l: Lookup, dealId: Text, revision: nat, runId: Text, itemId: Text)
    ensures RunTitle(l) == Ascii("karwan ") + l.dealKey + Ascii(" ") + l.sha + Ascii(" ") + l.inputsHash
    ensures DealKey(dealId, revision) == dealId + Ascii("-r") + Decimal(revision)
    ensures IsHex32(runId) ==> DryKey(runId) == Ascii("dry-") + Lower(runId[2..])
    ensures ItemJob(itemId) == Ascii("item:") + itemId
  {
    assert Ascii("karwan ") == Ascii("karwan") + [SPACE] && Ascii(" ") == [SPACE];
    assert Ascii("-r") == [DASH, 114] && Ascii("dry-") == DRY_PREFIX;
    hide Ascii;
    FourWords(Ascii("karwan"), l.dealKey, l.sha, l.inputsHash);
  }

  lemma FourWords(a: Text, b: Text, c: Text, d: Text)
    ensures Join([a, b, c, d], SPACE) == a + [SPACE] + b + [SPACE] + c + [SPACE] + d
  {
    assert [a, b, c, d][1..] == [b, c, d] && [b, c, d][1..] == [c, d] && [c, d][1..] == [d];
    assert Join([c, d], SPACE) == c + [SPACE] + d;
    assert Join([b, c, d], SPACE) == b + [SPACE] + (c + [SPACE] + d);
  }

  // ---- What the schemas admit ----

  predicate Between(u: CodeUnit, low: char, high: char) { low as int <= u <= high as int }

  predicate IsLetter(u: CodeUnit) { Between(u, 'a', 'z') || Between(u, 'A', 'Z') }

  predicate IsNameUnit(u: CodeUnit) { IsLetter(u) || Between(u, '0', '9') || u == '-' as int }

  /** Two texts are the same but for the case of ASCII letters. */
  predicate SameButForCase(a: Text, b: Text) {
    |a| == |b| && forall i | 0 <= i < |a| ::
      a[i] == b[i] || (IsLetter(a[i]) && IsLetter(b[i]) && (a[i] == b[i] + 32 || b[i] == a[i] + 32))
  }

  lemma LowerForgetsCase(a: Text, b: Text)
    ensures Lower(a) == Lower(b) <==> SameButForCase(a, b)
  {
    if Lower(a) == Lower(b) {
      forall i | 0 <= i < |a|
        ensures a[i] == b[i] || (IsLetter(a[i]) && IsLetter(b[i]) && (a[i] == b[i] + 32 || b[i] == a[i] + 32))
      {
        assert Lower(a)[i] == Lower(b)[i];
      }
    }
  }

  /** A repository is known by its number, and by its owner and name in whatever case. */
  lemma SameRepositoryIff(a: Repository, b: Repository)
    ensures SameRepository(a, b)
      <==> a.id == b.id && SameButForCase(a.owner, b.owner) && SameButForCase(a.name, b.name)
  {
    LowerForgetsCase(a.owner, b.owner);
    LowerForgetsCase(a.name, b.name);
    hide Lower, SameButForCase;
  }

  ghost predicate IsOwnerText(t: Text) { 0 < |t| < 40 && forall u | u in t :: IsNameUnit(u) }

  ghost predicate IsRepoText(t: Text) {
    0 < |t| < 101 && forall u | u in t :: IsNameUnit(u) || u == '_' as int || u == '.' as int
  }

  ghost predicate IsLineText(t: Text, max: nat, first: char) {
    0 < |t| <= max && forall u | u in t :: Between(u, first, '~')
  }

  ghost predicate IsHexText(t: Text) {
    |t| == 40 && forall u | u in t :: Between(u, '0', '9') || Between(u, 'a', 'f')
  }

  /** The patterns of the schema, as the texts they match. */
  lemma PatternsAre(t: Text)
    ensures IsOwner(t) <==> IsOwnerText(t)
    ensures IsRepoName(t) <==> IsRepoText(t)
    ensures IsRunLine(t) <==> IsLineText(t, 500, ' ')
    ensures IsBranch(t) <==> IsLineText(t, 255, '!')
    ensures IsItemId(t) <==> 0 < |t| < 9 && forall u | u in t :: Between(u, 'a', 'z') || Between(u, '0', '9')
    ensures IsHex40(t) <==> IsHexText(t)
  {
    assert forall i | 0 <= i < |t| :: t[i] in t;
  }

  lemma OwnerSlashNameIs(t: Text)
    ensures IsOwnerSlashName(t) <==> exists owner, name :: IsOwnerAndName(t, owner, name)
  {
    assert Ascii("/") == [SLASH];
    if IsOwnerSlashName(t) {
      var parts := Split(t, SLASH);
      JoinSplit(t, SLASH);
      assert parts == [parts[0], parts[1]] && parts[1..] == [parts[1]];
      PatternsAre(parts[0]);
      PatternsAre(parts[1]);
      assert IsOwnerAndName(t, parts[0], parts[1]);
    }
    if owner, name :| IsOwnerAndName(t, owner, name) {
      PatternsAre(owner);
      PatternsAre(name);
      SplitAt(owner, name, SLASH);
      SplitUnits(name, SLASH);
      assert [owner] + [name] == [owner, name];
    }
  }

  ghost predicate IsOwnerAndName(t: Text, owner: Text, name: Text) {
    IsOwnerText(owner) && IsRepoText(name) && t == owner + Ascii("/") + name
  }

  ghost predicate IsRepositoryValue(r: Repository) { IsOwnerText(r.owner) && IsRepoText(r.name) && r.id >= 1 }

  /** What the schemas of a policy and of a reference admit, bound by bound. */
  lemma SchemasAre(p: Policy, r: Reference)
    ensures PolicySchema(p) <==>
      && IsRepositoryValue(p.repository) && IsLineText(p.baseBranch, 255, '!')
      && (p.setup.Some? ==> IsLineText(p.setup.value, 500, ' '))
      && 0 < |p.items| < 13
      && (forall i | i in p.items ::
            && 0 < |i.id| < 9 && (forall u | u in i.id :: Between(u, 'a', 'z') || Between(u, '0', '9'))
            && 0 < |i.title| < 141 && IsLineText(i.run, 500, ' '))
      && (p.partialAt.Some? ==> p.partialAt.value >= 1)
      && (exists owner, name :: IsOwnerAndName(p.runner.repository, owner, name)) && IsHexText(p.runner.blobSha)
      && 4 < p.timeoutMinutes < 61
    ensures ReferenceSchema(r) <==> IsRepositoryValue(r.repository) && r.pull >= 1 && IsHexText(r.sha)
  {
    PatternsAre(p.repository.owner);
    PatternsAre(p.repository.name);
    PatternsAre(p.baseBranch);
    if p.setup.Some? { PatternsAre(p.setup.value); }
    PatternsAre(p.runner.blobSha);
    OwnerSlashNameIs(p.runner.repository);
    PatternsAre(r.repository.owner);
    PatternsAre(r.repository.name);
    PatternsAre(r.sha);
    hide IsOwner, IsRepoName, IsRunLine, IsBranch, IsItemId, IsHex40, IsOwnerText, IsRepoText, IsLineText, IsHexText,
      IsOwnerSlashName, IsOwnerAndName, Between;
    forall k | 0 <= k < |p.items|
      ensures ItemSchema(p.items[k]) <==> var i := p.items[k];
        && 0 < |i.id| < 9 && (forall u | u in i.id :: Between(u, 'a', 'z') || Between(u, '0', '9'))
        && 0 < |i.title| < 141 && IsLineText(i.run, 500, ' ')
    {
      PatternsAre(p.items[k].id);
      PatternsAre(p.items[k].run);
    }
    hide ItemSchema;
    assert forall k | 0 <= k < |p.items| :: p.items[k] in p.items;
  }
}
