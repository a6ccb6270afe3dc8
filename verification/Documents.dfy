/**
 The acceptance policy and the delivery reference: what both parties agreed and what the seller
 delivered. Each is trusted only through the fingerprint of its canonical text, held on Arc.
 */
module Documents {
  import opened Texts
  import opened Canonical
  import opened CanonicalProofs

  // ---- Digests ----

  /** A 32-byte hash, identified with the text it was taken of. */
  datatype Digest = Digest(preimage: Text)

  function Spell(t: Text): (r: Text)
    ensures |r| == 4 * |t| && forall i | 0 <= i < |r| :: IsLowerHex(r[i])
  {
    if t == [] then [] else Hex4(t[0]) + Spell(t[1..])
  }

  /** A digest as viem prints it: 0x and lowercase hex. */
  function HexText(d: Digest): Text { [48, 120] + Spell(d.preimage) }

  lemma {:induction false} SpellInjective(a: Text, b: Text)
    requires Spell(a) == Spell(b)
    ensures a == b
  {
    if a != [] {
      assert |a| == |b|;
      assert Spell(a)[..4] == Hex4(a[0]) && Spell(b)[..4] == Hex4(b[0]);
      assert Spell(a)[4..] == Spell(a[1..]) && Spell(b)[4..] == Spell(b[1..]);
      Hex4RoundTrip(a[0]);
      Hex4RoundTrip(b[0]);
      SpellInjective(a[1..], b[1..]);
      assert a == [a[0]] + a[1..] && b == [b[0]] + b[1..];
    }
  }

  lemma HexTextInjective(a: Digest, b: Digest)
    requires HexText(a) == HexText(b)
    ensures a == b
  {
    assert HexText(a)[2..] == Spell(a.preimage) && HexText(b)[2..] == Spell(b.preimage);
    SpellInjective(a.preimage, b.preimage);
  }

  function CanonicalText(v: Json): Text
    requires Printable(v)
  {
    PrintsIffPrintable(v);
    CanonicalJson(v).text
  }

  function Fingerprint(v: Json): Digest
    requires Printable(v)
  {
    Digest(CanonicalText(v))
  }

  lemma FingerprintBinds(v: Json, w: Json)
    requires IsJs(v) && IsJs(w) && Printable(v) && Printable(w)
    requires Fingerprint(v) == Fingerprint(w)
    ensures Meaning(v) == Meaning(w)
  {
    PrintsIffPrintable(v);
    PrintsIffPrintable(w);
    OneTextPerMeaning(v, w);
  }

  /** Values with a text form and distinct keys: every document below. */
  predicate Sound(v: Json) { IsJs(v) && Printable(v) }

  /** Two objects meaning the same agree on every member they hold under one key, and on how many. */
  predicate SameFields(a: seq<Member>, b: seq<Member>) {
    |a| == |b| && forall i | 0 <= i < |a| && a[i].key == b[i].key :: Meaning(a[i].value) == Meaning(b[i].value)
  }

  lemma MeaningBinds(a: seq<Member>, b: seq<Member>)
    requires Sound(Obj(a)) && Sound(Obj(b)) && Meaning(Obj(a)) == Meaning(Obj(b))
    ensures SameFields(a, b)
  {
    KeyCount(a);
    KeyCount(b);
    forall i | 0 <= i < |a| && a[i].key == b[i].key ensures Meaning(a[i].value) == Meaning(b[i].value) {
      MeaningOfKey(a, i);
      MeaningOfKey(b, i);
    }
  }

  // ---- Schemas ----

  predicate IsAlnumDash(u: CodeUnit) { IsDigit(u) || 65 <= u <= 90 || 97 <= u <= 122 || u == DASH }

  predicate IsRepoUnit(u: CodeUnit) { IsAlnumDash(u) || u == 95 || u == 46 }

  predicate IsOwner(t: Text) { 1 <= |t| <= 39 && forall i | 0 <= i < |t| :: IsAlnumDash(t[i]) }

  predicate IsRepoName(t: Text) { 1 <= |t| <= 100 && forall i | 0 <= i < |t| :: IsRepoUnit(t[i]) }

  predicate IsOwnerSlashName(t: Text) {
    var parts := Split(t, SLASH);
    |parts| == 2 && IsOwner(parts[0]) && IsRepoName(parts[1])
  }

  predicate IsRunLine(t: Text) { 1 <= |t| <= 500 && forall i | 0 <= i < |t| :: 0x20 <= t[i] <= 0x7E }

  predicate IsBranch(t: Text) { 1 <= |t| <= 255 && forall i | 0 <= i < |t| :: 0x21 <= t[i] <= 0x7E }

  predicate IsItemId(t: Text) {
    1 <= |t| <= 8 && forall i | 0 <= i < |t| :: IsDigit(t[i]) || 97 <= t[i] <= 122
  }

  predicate IsHex40(t: Text) { |t| == 40 && forall i | 0 <= i < 40 :: IsLowerHex(t[i]) }

  datatype Repository = Repository(owner: Text, name: Text, id: int)

  datatype Item = Item(id: Text, title: Text, run: Text, required: bool)

  datatype Delivery = Pull | Commit

  datatype Runner = Runner(repository: Text, blobSha: Text)

  datatype Policy = Policy(
    repository: Repository, baseBranch: Text, delivery: Delivery, setup: Option<Text>,
    items: seq<Item>, partialAt: Option<int>, runner: Runner, timeoutMinutes: int)

  datatype Reference = Reference(repository: Repository, pull: int, sha: Text)

  predicate RepositorySchema(r: Repository) { IsOwner(r.owner) && IsRepoName(r.name) && r.id > 0 }

  predicate ItemSchema(i: Item) { IsItemId(i.id) && 1 <= |i.title| <= 140 && IsRunLine(i.run) }

  predicate PolicySchema(p: Policy) {
    && RepositorySchema(p.repository)
    && IsBranch(p.baseBranch)
    && (p.setup.Some? ==> IsRunLine(p.setup.value))
    && 1 <= |p.items| <= 12 && (forall i | 0 <= i < |p.items| :: ItemSchema(p.items[i]))
    && (p.partialAt.Some? ==> p.partialAt.value > 0)
    && IsOwnerSlashName(p.runner.repository) && IsHex40(p.runner.blobSha)
    && 5 <= p.timeoutMinutes <= 60
  }

  predicate ReferenceSchema(r: Reference) { RepositorySchema(r.repository) && r.pull > 0 && IsHex40(r.sha) }

  /** Anything an index may serve under a hash. */
  datatype Doc = PolicyDoc(policy: Policy) | ReferenceDoc(reference: Reference) | OtherDoc

  function RequiredCount(items: seq<Item>): (n: nat)
    ensures n <= |items|
    ensures n == 0 <==> forall i | 0 <= i < |items| :: !items[i].required
  {
    if items == [] then 0 else (if items[0].required then 1 else 0) + RequiredCount(items[1..])
  }

  predicate DistinctIds(items: seq<Item>) {
    forall i, j | 0 <= i < j < |items| :: items[i].id != items[j].id
  }

  datatype PolicyError = BadSchema | DuplicateItem | NoRequiredItem | PartialLine

  datatype ParsedPolicy = Parsed(policy: Policy) | Refused(error: PolicyError)

  function ParsePolicy(raw: Doc, partialAllowed: bool): ParsedPolicy {
    if !raw.PolicyDoc? || !PolicySchema(raw.policy) then Refused(BadSchema)
    else
      var p := raw.policy;
      var required := RequiredCount(p.items);
      if !DistinctIds(p.items) then Refused(DuplicateItem)
      else if required == 0 then Refused(NoRequiredItem)
      else if p.partialAt.Some? && (!partialAllowed || p.partialAt.value >= required) then Refused(PartialLine)
      else Parsed(p)
  }

  /** What a parsed policy may be relied on for. */
  predicate Agreed(p: Policy) {
    PolicySchema(p) && DistinctIds(p.items) && exists i | 0 <= i < |p.items| :: p.items[i].required
  }

  /**
   Parsing accepts exactly the agreed policies, and a partial line only where allowed and below the required
   count.
   */
  lemma ParsedIff(raw: Doc, partialAllowed: bool, p: Policy)
    ensures ParsePolicy(raw, partialAllowed) == Parsed(p)
      <==>
      && raw == PolicyDoc(p) && Agreed(p)
      && (p.partialAt.Some? ==> partialAllowed && p.partialAt.value < RequiredCount(p.items))
  {
    hide PolicySchema, DistinctIds;
  }

  // ---- JSON forms and fingerprints ----

  const REPLAY_POLICY := Ascii("karwan.replay.github.v1")
  const REPLAY_WORKFLOW := Ascii(".github/workflows/replay.yml")

  function M(key: string, value: Json): Member { Member(Ascii(key), value) }

  function RepositoryMembers(r: Repository): seq<Member> {
    [M("owner", Str(r.owner)), M("name", Str(r.name)), M("id", Num(r.id))]
  }

  function ItemMembers(i: Item): seq<Member> {
    [M("id", Str(i.id)), M("title", Str(i.title)), M("run", Str(i.run)), M("required", Bool(i.required))]
  }

  function ItemsJson(items: seq<Item>): Json {
    Arr(seq(|items|, i requires 0 <= i < |items| => Obj(ItemMembers(items[i]))))
  }

  function RunnerMembers(r: Runner): seq<Member> {
    [M("repository", Str(r.repository)), M("workflow", Str(REPLAY_WORKFLOW)), M("blobSha", Str(r.blobSha))]
  }

  function PolicyMembers(p: Policy): seq<Member> {
    [ M("policy", Str(REPLAY_POLICY)),
      M("repository", Obj(RepositoryMembers(p.repository))),
      M("baseBranch", Str(p.baseBranch)),
      M("delivery", Str(if p.delivery.Pull? then Ascii("pull") else Ascii("commit"))),
      M("items", ItemsJson(p.items)),
      M("partialAt", if p.partialAt.Some? then Num(p.partialAt.value) else Null),
      M("runner", Obj(RunnerMembers(p.runner))),
      M("timeoutMinutes", Num(p.timeoutMinutes))
    ] + (if p.setup.Some? then [M("setup", Str(p.setup.value))] else [])
  }

  function ReferenceMembers(r: Reference): seq<Member> {
    [M("repository", Obj(RepositoryMembers(r.repository))), M("pull", Num(r.pull)), M("sha", Str(r.sha))]
  }

  lemma RepositorySound(r: Repository)
    ensures Sound(Obj(RepositoryMembers(r)))
  {
  }

  lemma ItemSound(i: Item)
    ensures Sound(Obj(ItemMembers(i)))
  {
  }

  lemma ItemsSound(items: seq<Item>)
    ensures Sound(ItemsJson(items))
  {
    forall i | 0 <= i < |items| ensures Sound(ItemsJson(items).items[i]) { ItemSound(items[i]); }
  }

  lemma RunnerSound(r: Runner)
    ensures Sound(Obj(RunnerMembers(r)))
  {
  }

  lemma PolicyKeysDiffer(p: Policy)
    ensures DistinctKeys(PolicyMembers(p))
  {
    hide RepositoryMembers, RunnerMembers, ItemsJson;
    AsciiDiffer("policy", "runner", 0);
    AsciiDiffer("items", "setup", 0);
    AsciiDiffer("repository", "baseBranch", 0);
  }

  lemma PolicySound(p: Policy)
    ensures Sound(Obj(PolicyMembers(p)))
  {
    RepositorySound(p.repository);
    RunnerSound(p.runner);
    ItemsSound(p.items);
    PolicyKeysDiffer(p);
    var ms := PolicyMembers(p);
    forall i | 0 <= i < |ms| ensures Sound(ms[i].value) {
      hide DistinctKeys, RepositoryMembers, RunnerMembers, ItemsJson;
    }
  }

  lemma ReferenceSound(r: Reference)
    ensures Sound(Obj(ReferenceMembers(r)))
  {
    RepositorySound(r.repository);
  }

  function PolicyFingerprint(p: Policy): Digest {
    PolicySound(p);
    Fingerprint(Obj(PolicyMembers(p)))
  }

  function ProofFingerprint(r: Reference): Digest {
    ReferenceSound(r);
    Fingerprint(Obj(ReferenceMembers(r)))
  }

  lemma RepositoryBinds(a: Repository, b: Repository)
    requires Meaning(Obj(RepositoryMembers(a))) == Meaning(Obj(RepositoryMembers(b)))
    ensures a == b
  {
    RepositorySound(a);
    RepositorySound(b);
    var ma, mb := RepositoryMembers(a), RepositoryMembers(b);
    MeaningBinds(ma, mb);
    assert ma[0].key == mb[0].key && ma[1].key == mb[1].key && ma[2].key == mb[2].key;
  }

  lemma ItemBinds(a: Item, b: Item)
    requires Meaning(Obj(ItemMembers(a))) == Meaning(Obj(ItemMembers(b)))
    ensures a == b
  {
    ItemSound(a);
    ItemSound(b);
    var ma, mb := ItemMembers(a), ItemMembers(b);
    MeaningBinds(ma, mb);
    assert ma[0].key == mb[0].key && ma[1].key == mb[1].key && ma[2].key == mb[2].key && ma[3].key == mb[3].key;
  }

  lemma RunnerBinds(a: Runner, b: Runner)
    requires Meaning(Obj(RunnerMembers(a))) == Meaning(Obj(RunnerMembers(b)))
    ensures a == b
  {
    RunnerSound(a);
    RunnerSound(b);
    var ma, mb := RunnerMembers(a), RunnerMembers(b);
    MeaningBinds(ma, mb);
    assert ma[0].key == mb[0].key && ma[2].key == mb[2].key;
  }

  /** The items text a runner receives determines the items, in order. */
  lemma ItemsBind(a: seq<Item>, b: seq<Item>)
    requires Meaning(ItemsJson(a)) == Meaning(ItemsJson(b))
    ensures a == b
  {
    var va, vb := ItemsJson(a).items, ItemsJson(b).items;
    assert ItemsMeaning(va) == ItemsMeaning(vb);
    forall i | 0 <= i < |a| ensures a[i] == b[i] {
      ItemMeaning(va, i);
      ItemMeaning(vb, i);
      ItemBinds(a[i], b[i]);
    }
  }

  lemma PolicyFieldsBind(a: Policy, b: Policy)
    requires PolicyFingerprint(a) == PolicyFingerprint(b)
    ensures SameFields(PolicyMembers(a), PolicyMembers(b))
  {
    PolicySound(a);
    PolicySound(b);
    FingerprintBinds(Obj(PolicyMembers(a)), Obj(PolicyMembers(b)));
    MeaningBinds(PolicyMembers(a), PolicyMembers(b));
  }

  lemma PolicyFieldBinds(a: Policy, b: Policy, i: nat)
    requires SameFields(PolicyMembers(a), PolicyMembers(b)) && i < |PolicyMembers(a)|
    ensures Meaning(PolicyMembers(a)[i].value) == Meaning(PolicyMembers(b)[i].value)
  {
    assert PolicyMembers(a)[i].key == PolicyMembers(b)[i].key;
  }

  lemma PolicyPartsBind(a: Policy, b: Policy)
    requires SameFields(PolicyMembers(a), PolicyMembers(b))
    ensures a.repository == b.repository && a.items == b.items && a.runner == b.runner
  {
    hide SameFields, Meaning, RepositoryMembers, RunnerMembers, ItemsJson;
    PolicyFieldBinds(a, b, 1);
    RepositoryBinds(a.repository, b.repository);
    PolicyFieldBinds(a, b, 4);
    ItemsBind(a.items, b.items);
    PolicyFieldBinds(a, b, 6);
    RunnerBinds(a.runner, b.runner);
  }

  lemma PolicyScalarsBind(a: Policy, b: Policy)
    requires SameFields(PolicyMembers(a), PolicyMembers(b))
    ensures a.baseBranch == b.baseBranch && a.partialAt == b.partialAt && a.timeoutMinutes == b.timeoutMinutes
  {
    PolicyFieldBinds(a, b, 2);
    PolicyFieldBinds(a, b, 5);
    PolicyFieldBinds(a, b, 7);
  }

  lemma PolicyDeliveryBinds(a: Policy, b: Policy)
    requires SameFields(PolicyMembers(a), PolicyMembers(b))
    ensures a.delivery == b.delivery
  {
    PolicyFieldBinds(a, b, 3);
    assert |Ascii("pull")| != |Ascii("commit")|;
  }

  lemma PolicySetupBinds(a: Policy, b: Policy)
    requires SameFields(PolicyMembers(a), PolicyMembers(b))
    ensures a.setup == b.setup
  {
    assert |PolicyMembers(a)| == (if a.setup.Some? then 9 else 8);
    assert |PolicyMembers(b)| == (if b.setup.Some? then 9 else 8);
    if a.setup.Some? { PolicyFieldBinds(a, b, 8); }
  }

  /** A policy fingerprint on Arc fixes the whole policy, items and their order included. */
  lemma PolicyFingerprintBinds(a: Policy, b: Policy)
    requires PolicyFingerprint(a) == PolicyFingerprint(b)
    ensures a == b
  {
    PolicyFieldsBind(a, b);
    PolicyPartsBind(a, b);
    PolicyScalarsBind(a, b);
    PolicyDeliveryBinds(a, b);
    PolicySetupBinds(a, b);
  }

  /** No text is both a policy and a reference, so their hashes are told apart. */
  lemma PolicyIsNoReference(p: Policy, r: Reference)
    ensures PolicyFingerprint(p) != ProofFingerprint(r)
  {
    hide Meaning, RepositoryMembers, RunnerMembers, ItemsJson;
    PolicySound(p);
    ReferenceSound(r);
    var a, b := PolicyMembers(p), ReferenceMembers(r);
    assert |a| != |b|;
    if PolicyFingerprint(p) == ProofFingerprint(r) {
      FingerprintBinds(Obj(a), Obj(b));
      MeaningBinds(a, b);
    }
  }

  lemma ReferenceFieldsBind(a: Reference, b: Reference)
    requires ProofFingerprint(a) == ProofFingerprint(b)
    ensures SameFields(ReferenceMembers(a), ReferenceMembers(b))
  {
    ReferenceSound(a);
    ReferenceSound(b);
    FingerprintBinds(Obj(ReferenceMembers(a)), Obj(ReferenceMembers(b)));
    MeaningBinds(ReferenceMembers(a), ReferenceMembers(b));
  }

  /** The proof hash in a Delivered log fixes the whole delivery reference. */
  lemma ProofFingerprintBinds(a: Reference, b: Reference)
    requires ProofFingerprint(a) == ProofFingerprint(b)
    ensures a == b
  {
    hide ProofFingerprint, RepositoryMembers;
    ReferenceFieldsBind(a, b);
    var ma, mb := ReferenceMembers(a), ReferenceMembers(b);
    assert ma[0].key == mb[0].key && ma[1].key == mb[1].key && ma[2].key == mb[2].key;
    RepositoryBinds(a.repository, b.repository);
  }
}
