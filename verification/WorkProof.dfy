/** The gist by which a person proves a GitHub account is theirs, up to the signature check. */
module WorkProof {
  import opened Texts
  import opened Runs
  import opened Documents

  const HEAD := Ascii("karwan work proof")
  const WALLET := Ascii("wallet: ")
  const LOGIN := Ascii("login: ")
  const ISSUED := Ascii("issued: ")
  const SIGNATURE := Ascii("signature: ")

  datatype GistProof = GistProof(wallet: Text, login: Text, issued: Text, signature: Text)

  /** The text the wallet signs. */
  function ProofMessage(wallet: Text, login: Text, issued: Text): Text {
    Join([HEAD, WALLET + Lower(wallet), LOGIN + login, ISSUED + issued], NEWLINE)
  }

  /** A gist as it is published: the signed message and a signature line. */
  function Published(p: GistProof): Text {
    ProofMessage(p.wallet, p.login, p.issued) + [NEWLINE] + SIGNATURE + p.signature
  }

  predicate IsLowerAddress(t: Text) { IsAddress(t) && forall i | 2 <= i < |t| :: IsLowerHex(t[i]) }

  predicate IsDate(t: Text) {
    |t| == 10 && forall i | 0 <= i < 10 :: if i == 4 || i == 7 then t[i] == DASH else IsDigit(t[i])
  }

  /** The capture groups of the pattern. */
  predicate FieldsMatch(p: GistProof) {
    IsLowerAddress(p.wallet) && IsOwner(p.login) && IsDate(p.issued) && IsHex0x(p.signature, 130)
  }

  function After(line: Text, tag: Text): Option<Text> {
    if |tag| <= |line| && line[..|tag|] == tag then Some(line[|tag|..]) else None
  }

  /** The pattern, line by line: five lines, and at most one newline after the last. */
  function ParseGistProof(text: Text): Option<GistProof> {
    var lines := Split(text, NEWLINE);
    if !(|lines| == 5 || (|lines| == 6 && lines[5] == [])) || lines[0] != HEAD then None
    else
      var wallet, login, issued, signature :=
        After(lines[1], WALLET), After(lines[2], LOGIN), After(lines[3], ISSUED), After(lines[4], SIGNATURE);
      if wallet.None? || login.None? || issued.None? || signature.None? then None
      else
        var p := GistProof(wallet.value, login.value, issued.value, signature.value);
        if FieldsMatch(p) then Some(p) else None
  }

  function Lines(p: GistProof): seq<Text> {
    [HEAD, WALLET + p.wallet, LOGIN + p.login, ISSUED + p.issued, SIGNATURE + p.signature]
  }

  lemma LowerOfLower(t: Text)
    requires IsLowerAddress(t)
    ensures Lower(t) == t
  {
    forall i | 0 <= i < |t| ensures LowerUnit(t[i]) == t[i] {
      if i >= 2 { assert IsLowerHex(t[i]); }
    }
  }

  lemma PublishedIsItsLines(p: GistProof)
    requires IsLowerAddress(p.wallet)
    ensures Published(p) == Join(Lines(p), NEWLINE)
    ensures Published(p) + [NEWLINE] == Join(Lines(p) + [[]], NEWLINE)
  {
    LowerOfLower(p.wallet);
    var message := [HEAD, WALLET + p.wallet, LOGIN + p.login, ISSUED + p.issued];
    JoinAppend(message, SIGNATURE + p.signature);
    assert message + [SIGNATURE + p.signature] == Lines(p);
    JoinAppend(Lines(p), []);
    assert Published(p) == Join(message, NEWLINE) + [NEWLINE] + (SIGNATURE + p.signature);
  }

  lemma {:induction false} JoinAppend(parts: seq<Text>, last: Text)
    requires parts != []
    ensures Join(parts + [last], NEWLINE) == Join(parts, NEWLINE) + [NEWLINE] + last
  {
    if |parts| == 1 {
      assert (parts + [last])[1..] == [last];
    } else {
      assert (parts + [last])[1..] == parts[1..] + [last];
      JoinAppend(parts[1..], last);
    }
  }

  lemma HexIsOneLine(t: Text, n: nat)
    requires IsHex0x(t, n)
    ensures Lacks(t, NEWLINE)
  {
  }

  lemma DateIsOneLine(t: Text)
    requires IsDate(t)
    ensures Lacks(t, NEWLINE)
  {
    forall i | 0 <= i < 10 ensures t[i] != NEWLINE {}
  }

  lemma LacksConcat(a: Text, b: Text, u: CodeUnit)
    requires Lacks(a, u) && Lacks(b, u)
    ensures Lacks(a + b, u)
  {
  }

  lemma TagIsOneLine(s: string)
    requires forall i | 0 <= i < |s| :: ' ' <= s[i] <= 'z'
    ensures Lacks(Ascii(s), NEWLINE)
  {
  }

  lemma TagsAreOneLine()
    ensures Lacks(HEAD, NEWLINE) && Lacks(WALLET, NEWLINE) && Lacks(LOGIN, NEWLINE) && Lacks(ISSUED, NEWLINE)
      && Lacks(SIGNATURE, NEWLINE)
  {
    hide Lacks, Ascii;
    TagIsOneLine("karwan work proof");
    TagIsOneLine("wallet: ");
    TagIsOneLine("login: ");
    TagIsOneLine("issued: ");
    TagIsOneLine("signature: ");
  }

  lemma FieldsAreOneLine(p: GistProof)
    requires FieldsMatch(p)
    ensures forall i | 0 <= i < 5 :: Lacks(Lines(p)[i], NEWLINE)
  {
    hide IsDate, IsHex0x;
    TagsAreOneLine();
    HexIsOneLine(p.wallet, 40);
    HexIsOneLine(p.signature, 130);
    DateIsOneLine(p.issued);
    assert Lacks(p.login, NEWLINE);
    hide Lacks;
    LacksConcat(WALLET, p.wallet, NEWLINE);
    LacksConcat(LOGIN, p.login, NEWLINE);
    LacksConcat(ISSUED, p.issued, NEWLINE);
    LacksConcat(SIGNATURE, p.signature, NEWLINE);
  }

  lemma LabelsComeOff(p: GistProof)
    ensures After(WALLET + p.wallet, WALLET) == Some(p.wallet) && After(LOGIN + p.login, LOGIN) == Some(p.login)
    ensures After(ISSUED + p.issued, ISSUED) == Some(p.issued)
      && After(SIGNATURE + p.signature, SIGNATURE) == Some(p.signature)
  {
  }

  /** A published proof reads back as its fields, with or without a newline at the end. */
  lemma PublishedParses(p: GistProof)
    requires FieldsMatch(p)
    ensures ParseGistProof(Published(p)) == Some(p) && ParseGistProof(Published(p) + [NEWLINE]) == Some(p)
  {
    hide FieldsMatch, IsLowerAddress, After, Published;
    FieldsAreOneLine(p);
    WalletIsLower(p);
    PublishedIsItsLines(p);
    LabelsComeOff(p);
    SplitJoin(Lines(p), NEWLINE);
    SplitJoin(Lines(p) + [[]], NEWLINE);
  }

  lemma WalletIsLower(p: GistProof)
    requires FieldsMatch(p)
    ensures IsLowerAddress(p.wallet)
  {
  }

  lemma AfterPutsBack(line: Text, tag: Text)
    requires After(line, tag).Some?
    ensures line == tag + After(line, tag).value
  {
  }

  /** What parses is exactly what is published: the text reprints to itself up to one trailing newline. */
  lemma ParsesIffPublished(text: Text, p: GistProof)
    ensures ParseGistProof(text) == Some(p)
      <==> FieldsMatch(p) && (text == Published(p) || text == Published(p) + [NEWLINE])
  {
    if FieldsMatch(p) { PublishedParses(p); }
    if ParseGistProof(text) == Some(p) {
      hide FieldsMatch, IsLowerAddress, After, Published;
      var lines := Split(text, NEWLINE);
      AfterPutsBack(lines[1], WALLET);
      AfterPutsBack(lines[2], LOGIN);
      AfterPutsBack(lines[3], ISSUED);
      AfterPutsBack(lines[4], SIGNATURE);
      JoinSplit(text, NEWLINE);
      WalletIsLower(p);
      PublishedIsItsLines(p);
      if |lines| == 5 { assert lines == Lines(p); } else { assert lines == Lines(p) + [[]]; }
    }
  }

  // ---- The request up to the signature check ----

  datatype Problem = GistOwnerMismatch | LoginMismatch | WalletMismatch | ProofExpired | ProofFromFuture

  const MAX_AGE := 30 * 86_400

  /** `issuedAt` is what Date.parse gives for the day, None for NaN. */
  function ProofProblem(p: GistProof, wallet: Text, login: Text, gistOwner: Text, now: int,
      issuedAt: Option<int>): Option<Problem> {
    if Lower(gistOwner) != Lower(login) then Some(GistOwnerMismatch)
    else if Lower(p.login) != Lower(login) then Some(LoginMismatch)
    else if p.wallet != Lower(wallet) then Some(WalletMismatch)
    else if issuedAt.None? || now - issuedAt.value > MAX_AGE then Some(ProofExpired)
    else if issuedAt.value > now + 86_400 then Some(ProofFromFuture)
    else None
  }

  datatype Request = Request(op: int, wallet: Text, login: Text, gistId: Text, factId: Option<Text>)

  datatype Gist = Gist(owner: Text, text: Text)

  /** Where a request stands when it is refused, or what the signature check is asked. */
  datatype Stand = BadRequest | GistUnavailable | BadProof | Refused(problem: Problem) | AskSignature(wallet: Text,
    message: Text, signature: Text)

  predicate IsGistId(t: Text) { 1 <= |t| <= 64 && forall i | 0 <= i < |t| :: IsLowerHex(t[i]) }

  predicate IsFactId(t: Text) { 1 <= |t| <= 30 && forall i | 0 <= i < |t| :: IsDigit(t[i]) }

  /** An address in lower case, or in mixed case with a right checksum; `checksummed` holds those that have one. */
  predicate IsWallet(t: Text, checksummed: set<Text>) { IsAddress(t) && (t == Lower(t) || t in checksummed) }

  function UpToSignature(req: Request, now: int, gist: Option<Gist>, days: map<Text, int>,
      checksummed: set<Text>): Stand {
    if !IsWallet(req.wallet, checksummed) || !IsOwner(req.login) || !IsGistId(req.gistId) then BadRequest
    else if req.op == 2 && !(req.factId.Some? && IsFactId(req.factId.value)) then BadRequest
    else if req.op != 1 && req.op != 2 then BadRequest
    else if gist.None? then GistUnavailable
    else
      var proof := ParseGistProof(gist.value.text);
      if proof.None? then BadProof
      else
        var p := proof.value;
        var problem := ProofProblem(p, req.wallet, req.login, gist.value.owner, now,
          if p.issued in days then Some(days[p.issued]) else None);
        if problem.Some? then Stand.Refused(problem.value)
        else AskSignature(req.wallet, ProofMessage(req.wallet, p.login, p.issued), p.signature)
  }

  predicate IsWellFormed(req: Request, checksummed: set<Text>) {
    && IsWallet(req.wallet, checksummed) && IsOwner(req.login) && IsGistId(req.gistId)
    && (req.op == 1 || (req.op == 2 && req.factId.Some? && IsFactId(req.factId.value)))
  }

  /** A published proof of this request: the owner, the account and the wallet it names, and its age. */
  predicate Proves(req: Request, now: int, gist: Gist, days: map<Text, int>, p: GistProof) {
    && FieldsMatch(p) && (gist.text == Published(p) || gist.text == Published(p) + [NEWLINE])
    && Lower(gist.owner) == Lower(p.login) == Lower(req.login) && p.wallet == Lower(req.wallet)
    && p.issued in days && days[p.issued] - 86_400 <= now <= days[p.issued] + MAX_AGE
  }

  /**
   A signature is asked for exactly when a well-formed request is backed by a published, matching and recent
   proof.
   */
  lemma AskedExactlyWhenProved(req: Request, now: int, gist: Option<Gist>, days: map<Text, int>, checksummed: set<Text>)
    ensures UpToSignature(req, now, gist, days, checksummed).AskSignature?
      <==> IsWellFormed(req, checksummed) && gist.Some? && exists p :: Proves(req, now, gist.value, days, p)
  {
    hide IsWallet, IsOwner, IsGistId, IsFactId, ParseGistProof, FieldsMatch, Published;
    if gist.Some? {
      var parsed := ParseGistProof(gist.value.text);
      if parsed.Some? {
        ParsesIffPublished(gist.value.text, parsed.value);
        if UpToSignature(req, now, gist, days, checksummed).AskSignature? {
          assert Proves(req, now, gist.value, days, parsed.value);
        }
      }
      if p :| Proves(req, now, gist.value, days, p) { ParsesIffPublished(gist.value.text, p); }
    }
  }

  /**
   What the wallet is asked to have signed is, unit for unit, the gist's own text before its signature
   line, in a gist owned by the named account, naming that account and that wallet, and recent.
   */
  lemma SignedTextIsTheGist(req: Request, now: int, gist: Option<Gist>, days: map<Text, int>, checksummed: set<Text>)
    requires UpToSignature(req, now, gist, days, checksummed).AskSignature?
    ensures var ask := UpToSignature(req, now, gist, days, checksummed);
      && gist.Some? && var signed := ask.message + [NEWLINE] + SIGNATURE + ask.signature;
      && (gist.value.text == signed || gist.value.text == signed + [NEWLINE])
      && exists p :: ParseGistProof(gist.value.text) == Some(p) && p.signature == ask.signature
           && Lower(gist.value.owner) == Lower(p.login) == Lower(req.login) && p.wallet == Lower(req.wallet)
           && p.issued in days && days[p.issued] - 86_400 <= now <= days[p.issued] + MAX_AGE
  {
    hide IsWallet, IsOwner, IsGistId, IsFactId, ParseGistProof, FieldsMatch, IsLowerAddress;
    var p := ParseGistProof(gist.value.text).value;
    ParsesIffPublished(gist.value.text, p);
    WalletIsLower(p);
    LowerOfLower(p.wallet);
  }

  // ---- The texts and the refusals ----

  /** A published gist, as text: five lines. */
  lemma PublishedIs(p: GistProof)
    ensures Published(p)
      == Ascii("karwan work proof\nwallet: ") + Lower(p.wallet) + Ascii("\nlogin: ") + p.login
         + Ascii("\nissued: ") + p.issued + Ascii("\nsignature: ") + p.signature
  {
    LabelsAre();
    hide Ascii, Lower;
    var lines := [HEAD, WALLET + Lower(p.wallet), LOGIN + p.login, ISSUED + p.issued];
    assert lines[1..] == [WALLET + Lower(p.wallet), LOGIN + p.login, ISSUED + p.issued];
    assert lines[1..][1..] == [LOGIN + p.login, ISSUED + p.issued] && lines[1..][1..][1..] == [ISSUED + p.issued];
    var three := ISSUED + p.issued;
    var two := LOGIN + p.login + [NEWLINE] + three;
    var one := WALLET + Lower(p.wallet) + [NEWLINE] + two;
    assert Join(lines[1..][1..], NEWLINE) == two;
    assert Join(lines[1..], NEWLINE) == one;
    assert Join(lines, NEWLINE) == HEAD + [NEWLINE] + one;
    assert HEAD + [NEWLINE] + one
      == (HEAD + [NEWLINE] + WALLET) + Lower(p.wallet) + ([NEWLINE] + LOGIN) + p.login
         + ([NEWLINE] + ISSUED) + p.issued;
  }

  lemma LabelsAre()
    ensures Ascii("karwan work proof\nwallet: ") == HEAD + [NEWLINE] + WALLET
    ensures Ascii("\nlogin: ") == [NEWLINE] + LOGIN && Ascii("\nissued: ") == [NEWLINE] + ISSUED
    ensures Ascii("\nsignature: ") == [NEWLINE] + SIGNATURE
  {
  }

  /** Each problem with a proof is named exactly in its own case, the account before the wallet before its age. */
  lemma ProblemTellsWhy(p: GistProof, wallet: Text, login: Text, gistOwner: Text, now: int, issuedAt: Option<int>)
    ensures var problem := ProofProblem(p, wallet, login, gistOwner, now, issuedAt);
      var owned := Lower(gistOwner) == Lower(login);
      var named := owned && Lower(p.login) == Lower(login);
      var bound := named && p.wallet == Lower(wallet);
      var recent := bound && issuedAt.Some? && now <= issuedAt.value + 30 * 86_400;
      && (problem == Some(GistOwnerMismatch) <==> !owned) && (problem == Some(LoginMismatch) <==> owned && !named)
      && (problem == Some(WalletMismatch) <==> named && !bound)
      && (problem == Some(ProofExpired) <==> bound && !recent)
      && (problem == Some(ProofFromFuture) <==> recent && issuedAt.value > now + 86_400)
      && (problem == None <==> recent && issuedAt.value <= now + 86_400)
  {
    hide Lower;
  }

  /** Where a request is refused: a malformed one first, then a gist or a proof that is not there. */
  lemma StandTellsWhy(req: Request, now: int, gist: Option<Gist>, days: map<Text, int>, checksummed: set<Text>)
    ensures var stand := UpToSignature(req, now, gist, days, checksummed);
      var formed := IsWellFormed(req, checksummed);
      var proof := if gist.Some? then ParseGistProof(gist.value.text) else None;
      && (stand == BadRequest <==> !formed) && (stand == GistUnavailable <==> formed && gist.None?)
      && (stand == BadProof <==> formed && gist.Some? && proof.None?)
      && (stand.AskSignature? ==> stand.wallet == req.wallet)
      && (formed && proof.Some? ==> var p := proof.value;
            var problem := ProofProblem(p, req.wallet, req.login, gist.value.owner, now,
              if p.issued in days then Some(days[p.issued]) else None);
            if problem.Some? then stand == Stand.Refused(problem.value) else stand.AskSignature?)
  {
    hide IsWallet, IsOwner, IsGistId, IsFactId, ParseGistProof, ProofProblem, ProofMessage;
  }

  // ---- The patterns, spelled out ----

  predicate AllDigits(t: Text) { forall u | u in t :: '0' as int <= u <= '9' as int }

  /** A date: four digits, two and two, with dashes between. */
  lemma DatesAre(t: Text)
    ensures IsDate(t) <==> exists year, month, day ::
      IsDateOf(t, year, month, day)
  {
    if IsDate(t) {
      var year, month, day := t[..4], t[5..7], t[8..];
      assert t[4] == DASH && t[7] == DASH;
      assert Ascii("-") == [DASH];
      assert t == year + [t[4]] + month + [t[7]] + day;
      assert IsDateOf(t, year, month, day);
    }
    if year, month, day :| IsDateOf(t, year, month, day) {
      assert forall i | 0 <= i < 4 :: t[i] == year[i] && year[i] in year;
      assert forall i | 0 <= i < 2 :: t[5 + i] == month[i] && month[i] in month;
      assert forall i | 0 <= i < 2 :: t[8 + i] == day[i] && day[i] in day;
      assert t[4] == Ascii("-")[0] && t[7] == Ascii("-")[0];
      forall i | 0 <= i < 10 ensures if i == 4 || i == 7 then t[i] == DASH else IsDigit(t[i]) {}
    }
  }

  predicate IsDateOf(t: Text, year: Text, month: Text, day: Text) {
    && |year| == 4 && |month| == 2 && |day| == 2 && AllDigits(year) && AllDigits(month) && AllDigits(day)
    && t == year + Ascii("-") + month + Ascii("-") + day
  }

  /** What may name a gist and a fact, and which addresses are taken for wallets. */
  lemma NamesAre(t: Text, checksummed: set<Text>)
    ensures IsGistId(t) <==>
      0 < |t| < 65 && forall u | u in t :: '0' as int <= u <= '9' as int || 'a' as int <= u <= 'f' as int
    ensures IsFactId(t) <==> 0 < |t| < 31 && AllDigits(t)
    ensures IsWallet(t, checksummed) <==>
      IsAddress(t) && (t in checksummed || forall u | u in t :: !('A' as int <= u <= 'F' as int))
  {
    assert forall i | 0 <= i < |t| :: t[i] in t;
    if IsAddress(t) {
      forall u | u in t && !('A' as int <= u <= 'F' as int) ensures LowerUnit(u) == u {
        var i :| 0 <= i < |t| && t[i] == u;
      }
      if t != Lower(t) {
        var i :| 0 <= i < |t| && t[i] != Lower(t)[i];
        assert t[i] in t;
      }
      if u :| u in t && 'A' as int <= u <= 'F' as int {
        var i :| 0 <= i < |t| && t[i] == u;
        assert Lower(t)[i] != t[i];
      }
    }
  }
}
