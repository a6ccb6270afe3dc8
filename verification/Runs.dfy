/** How a replay run is named, and which of the runs GitHub lists under a name is taken. */
module Runs {
  import opened Texts
  import opened Lists
  import opened Sorting
  import opened Documents
  import opened Verdict

  datatype WorkflowRun = WorkflowRun(id: int, title: Text, status: Text, createdAt: int, headSha: Text)

  /** What GitHub answers during one execution: a page of runs, each run's jobs, and runner files. */
  datatype GitHub = GitHub(runs: seq<WorkflowRun>, jobs: map<int, seq<Job>>, blobs: map<(Text, Text), Text>)

  /** What a run is looked up by. */
  datatype Lookup = Lookup(runner: Text, dealKey: Text, sha: Text, inputsHash: Text)

  const COMPLETED_TEXT := Ascii("completed")

  predicate IsCompleted(r: WorkflowRun) { r.status == COMPLETED_TEXT }

  function StatusOf(r: WorkflowRun): Status {
    if IsCompleted(r) then Completed else if r.status == Ascii("queued") then Queued else InProgress
  }

  /** GitHub's words for a status; every other word is taken for a run in progress. */
  lemma StatusesAre(r: WorkflowRun)
    ensures StatusOf(r) == Completed <==> r.status == Ascii("completed")
    ensures StatusOf(r) == Queued <==> r.status == Ascii("queued")
    ensures IsCompleted(r) <==> StatusOf(r) == Completed
  {
    AsciiDiffer("completed", "queued", 0);
  }

  // ---- Run names ----

  predicate IsHexDigit(u: CodeUnit) { IsLowerHex(u) || 65 <= u <= 70 }

  predicate IsHex0x(t: Text, n: nat) {
    |t| == n + 2 && t[0] == 48 && t[1] == 120 && forall i | 2 <= i < |t| :: IsHexDigit(t[i])
  }

  predicate IsHex32(t: Text) { IsHex0x(t, 64) }

  predicate IsAddress(t: Text) { IsHex0x(t, 40) }

  predicate AllHex(t: Text) {
    forall u | u in t ::
      '0' as int <= u <= '9' as int || 'a' as int <= u <= 'f' as int || 'A' as int <= u <= 'F' as int
  }

  /** An address is "0x" and forty hexadecimal digits in either case, an id "0x" and sixty-four. */
  lemma HexTextsAre(t: Text)
    ensures IsAddress(t) <==> |t| == 42 && t[..2] == Ascii("0x") && AllHex(t[2..])
    ensures IsHex32(t) <==> |t| == 66 && t[..2] == Ascii("0x") && AllHex(t[2..])
  {
    var x := Ascii("0x");
    assert x[0] == 48 && x[1] == 120;
    if |t| >= 2 {
      assert t[..2] == x <==> t[0] == 48 && t[1] == 120;
      assert forall i | 2 <= i < |t| :: t[i] == t[2..][i - 2] && t[i] in t[2..];
    }
  }

  function DealKey(dealId: Text, revision: nat): Text { dealId + [DASH, 114] + Decimal(revision) }

  const DRY_PREFIX: Text := [100, 114, 121, DASH]

  function DryKey(runId: Text): Text
    requires IsHex32(runId)
  {
    DRY_PREFIX + Lower(runId[2..])
  }

  predicate IsDryKey(t: Text) {
    |t| == 68 && t[..4] == DRY_PREFIX && forall i | 4 <= i < 68 :: IsLowerHex(t[i])
  }

  /** The fee run a dry key names. */
  function RunIdOf(dryKey: Text): Text
    requires IsDryKey(dryKey)
  {
    [48, 120] + dryKey[4..]
  }

  function RunTitle(l: Lookup): Text { Join([Ascii("karwan"), l.dealKey, l.sha, l.inputsHash], SPACE) }

  lemma DealKeyBinds(a: Text, r: nat, b: Text, s: nat)
    requires IsHex32(a) && IsHex32(b)
    ensures DealKey(a, r) == DealKey(b, s) <==> a == b && r == s
    ensures Lacks(DealKey(a, r), SPACE)
  {
    DecimalRoundTrip(r);
    DecimalRoundTrip(s);
    assert DealKey(a, r)[..66] == a && DealKey(a, r)[68..] == Decimal(r);
    assert DealKey(b, s)[..66] == b && DealKey(b, s)[68..] == Decimal(s);
    assert Lacks(a, SPACE) && Lacks(Decimal(r), SPACE);
  }

  lemma LowerHex()
    ensures forall u :: IsHexDigit(u) ==> IsLowerHex(LowerUnit(u))
    ensures LowerUnit(48) == 48 && LowerUnit(120) == 120
  {
  }

  lemma DryKeyOf(runId: Text)
    requires IsHex32(runId)
    ensures IsDryKey(DryKey(runId)) && RunIdOf(DryKey(runId)) == Lower(runId)
  {
    hide LowerUnit, IsLowerHex, IsHexDigit;
    LowerHex();
    var k := DryKey(runId);
    assert k[4..] == Lower(runId[2..]);
    forall i | 4 <= i < 68 ensures IsLowerHex(k[i]) {
      assert k[i] == LowerUnit(runId[i - 2]) && IsHexDigit(runId[i - 2]);
    }
    assert Lower(runId) == [48, 120] + k[4..];
  }

  /** Dry-run keys read back to the lower-cased run id, never collide, and are never deal keys. */
  lemma DryKeyReadsBack(runId: Text, other: Text, dealId: Text, revision: nat)
    requires IsHex32(runId) && IsHex32(other) && IsHex32(dealId)
    ensures IsDryKey(DryKey(runId)) && RunIdOf(DryKey(runId)) == Lower(runId)
    ensures DryKey(runId) == DryKey(other) <==> Lower(runId) == Lower(other)
    ensures DryKey(runId) != DealKey(dealId, revision)
  {
    DryKeyOf(runId);
    DryKeyOf(other);
    assert DryKey(runId) == DRY_PREFIX + RunIdOf(DryKey(runId))[2..];
    assert DryKey(other) == DRY_PREFIX + RunIdOf(DryKey(other))[2..];
    assert DryKey(runId)[0] == 100 && DealKey(dealId, revision)[0] == 48;
  }

  lemma DryKeyIsOneWord(k: Text)
    requires IsDryKey(k)
    ensures k[0] == 100 && Lacks(k, SPACE)
  {
    assert forall i | 0 <= i < 4 :: k[i] == k[..4][i];
  }

  predicate OneWord(l: Lookup) { Lacks(l.dealKey, SPACE) && Lacks(l.sha, SPACE) && Lacks(l.inputsHash, SPACE) }

  /** Two different (deal key, commit, inputs hash) triples never give the same run name. */
  lemma RunTitleBinds(a: Lookup, b: Lookup)
    requires OneWord(a) && OneWord(b) && RunTitle(a) == RunTitle(b)
    ensures a.dealKey == b.dealKey && a.sha == b.sha && a.inputsHash == b.inputsHash
  {
    var x, y := [Ascii("karwan"), a.dealKey, a.sha, a.inputsHash], [Ascii("karwan"), b.dealKey, b.sha, b.inputsHash];
    assert Lacks(Ascii("karwan"), SPACE);
    SplitJoin(x, SPACE);
    SplitJoin(y, SPACE);
    assert x[1] == y[1] && x[2] == y[2] && x[3] == y[3];
  }

  // ---- Run selection ----

  predicate Older(a: WorkflowRun, b: WorkflowRun) { a.createdAt < b.createdAt }

  function Titled(runs: seq<WorkflowRun>, title: Text): (r: seq<WorkflowRun>)
    ensures forall x :: x in r <==> x in runs && x.title == title
  {
    Filter(runs, (r: WorkflowRun) => r.title == title)
  }

  function CompletedOf(runs: seq<WorkflowRun>): (r: seq<WorkflowRun>)
    ensures forall x :: x in r <==> x in runs && IsCompleted(x)
  {
    Filter(runs, (r: WorkflowRun) => IsCompleted(r))
  }

  /** The oldest completed run, or the oldest run when none has completed. */
  function Pick(runs: seq<WorkflowRun>): WorkflowRun
    requires runs != []
  {
    var completed := SortBy(CompletedOf(runs), Older);
    if completed != [] then completed[0] else SortBy(runs, Older)[0]
  }

  function FindRun(g: GitHub, l: Lookup): Option<RunFacts> {
    var runs := Titled(g.runs, RunTitle(l));
    if runs == [] then None
    else
      var pick := Pick(runs);
      var jobs := if pick.id in g.jobs then g.jobs[pick.id] else [];
      var blob := if (l.runner, pick.headSha) in g.blobs then g.blobs[(l.runner, pick.headSha)] else [];
      Some(RunFacts(pick.id, StatusOf(pick), pick.createdAt, pick.headSha, blob, l.sha, jobs))
  }

  lemma OlderIsStrictWeak()
    ensures StrictWeak(Older)
  {
  }

  lemma FirstIsOldest(runs: seq<WorkflowRun>)
    requires runs != []
    ensures SortBy(runs, Older)[0] in runs
    ensures forall r | r in runs :: !Older(r, SortBy(runs, Older)[0])
  {
    OlderIsStrictWeak();
    SortSorts(runs, Older);
    SortKeepsElements(runs, Older);
    var s := SortBy(runs, Older);
    assert s[0] in s;
    forall r | r in runs ensures !Older(r, s[0]) {
      assert r in s;
      var i :| 0 <= i < |s| && s[i] == r;
    }
  }

  /** What is picked: a completed run when there is one, and none of the same standing is older. */
  lemma PickIsOldest(runs: seq<WorkflowRun>)
    requires runs != []
    ensures Pick(runs) in runs
    ensures (exists r :: r in runs && IsCompleted(r)) <==> IsCompleted(Pick(runs))
    ensures forall r | r in runs && (IsCompleted(r) || !IsCompleted(Pick(runs))) :: Pick(runs).createdAt <= r.createdAt
  {
    var completed := CompletedOf(runs);
    FirstIsOldest(runs);
    if completed != [] {
      FirstIsOldest(completed);
      assert completed[0] in completed;
    } else {
      forall r | r in runs ensures !IsCompleted(r) { assert r !in completed; }
    }
  }

  /** No two listed runs of the name were created at the same moment. */
  predicate DistinctTimes(runs: seq<WorkflowRun>) {
    forall r, s | r in runs && s in runs :: r == s || r.createdAt != s.createdAt
  }

  /** The order GitHub lists runs in does not matter. */
  lemma PickIgnoresListingOrder(a: seq<WorkflowRun>, b: seq<WorkflowRun>)
    requires a != [] && (forall r :: r in a <==> r in b) && DistinctTimes(a)
    ensures b != [] && Pick(a) == Pick(b)
  {
    assert a[0] in b;
    PickIsOldest(a);
    PickIsOldest(b);
  }

  /**
   A completed run is the one taken exactly when no older run of the name has completed, however many
   younger ones there are.
   */
  lemma FirstCompletedWins(runs: seq<WorkflowRun>, r: WorkflowRun)
    requires r in runs && IsCompleted(r) && DistinctTimes(runs)
    ensures Pick(runs) == r <==> forall s | s in runs && IsCompleted(s) :: !Older(s, r)
  {
    PickIsOldest(runs);
  }

  /**
   The place in a listing of the first completed run of a title: any other of the title that has completed
   is younger, or was created in the same second and stands behind it.
   */
  predicate IsFirst(runs: seq<WorkflowRun>, title: Text, i: int) {
    && 0 <= i < |runs| && runs[i].title == title && IsCompleted(runs[i])
    && (forall j | 0 <= j < i && runs[j].title == title && IsCompleted(runs[j]) :: Older(runs[i], runs[j]))
    && (forall j | i < j < |runs| && runs[j].title == title && IsCompleted(runs[j]) :: !Older(runs[j], runs[i]))
  }

  function Finished(runs: seq<WorkflowRun>, title: Text): seq<WorkflowRun> { CompletedOf(Titled(runs, title)) }

  lemma TitledOfCons(r: WorkflowRun, rest: seq<WorkflowRun>, title: Text)
    ensures Titled([r] + rest, title) == (if r.title == title then [r] else []) + Titled(rest, title)
  {
    FilterConcat([r], rest, (x: WorkflowRun) => x.title == title);
    FilterOne(r, (x: WorkflowRun) => x.title == title);
  }

  lemma CompletedOfCons(r: WorkflowRun, rest: seq<WorkflowRun>)
    ensures CompletedOf([r] + rest) == (if IsCompleted(r) then [r] else []) + CompletedOf(rest)
  {
    FilterConcat([r], rest, (x: WorkflowRun) => IsCompleted(x));
    FilterOne(r, (x: WorkflowRun) => IsCompleted(x));
  }

  lemma FinishedOfCons(r: WorkflowRun, rest: seq<WorkflowRun>, title: Text)
    ensures Finished([r] + rest, title)
      == if r.title == title && IsCompleted(r) then [r] + Finished(rest, title) else Finished(rest, title)
  {
    hide Titled, CompletedOf, IsCompleted;
    TitledOfCons(r, rest, title);
    CompletedOfCons(r, Titled(rest, title));
    assert [] + Titled(rest, title) == Titled(rest, title) && [] + Finished(rest, title) == Finished(rest, title);
  }

  lemma HeadOfSort(r: WorkflowRun, rest: seq<WorkflowRun>)
    ensures SortBy([r] + rest, Older)[0]
      == if rest == [] || !Older(SortBy(rest, Older)[0], r) then r else SortBy(rest, Older)[0]
  {
    assert ([r] + rest)[1..] == rest;
  }

  /** Where the first completed run of a title is, from where it is behind the head of the listing. */
  lemma FirstOfCons(r: WorkflowRun, rest: seq<WorkflowRun>, title: Text, k: int)
    requires IsFirst(rest, title, k) && IsCompleted(rest[k])
    ensures var here := r.title == title && IsCompleted(r) && !Older(rest[k], r);
      IsFirst([r] + rest, title, if here then 0 else k + 1)
  {
    hide IsCompleted;
    var runs := [r] + rest;
    assert forall j | 1 <= j < |runs| :: runs[j] == rest[j - 1];
    if r.title == title && IsCompleted(r) && !Older(rest[k], r) {
      forall j | 0 < j < |runs| && runs[j].title == title && IsCompleted(runs[j]) ensures !Older(runs[j], r) {
        assert rest[j - 1].createdAt >= rest[k].createdAt;
      }
    }
  }

  lemma OnlyFinished(r: WorkflowRun, rest: seq<WorkflowRun>, title: Text)
    requires r.title == title && IsCompleted(r) && Finished(rest, title) == []
    ensures IsFirst([r] + rest, title, 0)
  {
    FinishedAre(rest, title);
    hide Finished;
    var runs := [r] + rest;
    forall j | 0 < j < |runs| ensures !(runs[j].title == title && IsCompleted(runs[j])) {
      assert runs[j] == rest[j - 1] && rest[j - 1] !in Finished(rest, title);
    }
  }

  /** The sort takes the first completed run, and there is one as soon as any has completed. */
  lemma {:induction false} SortTakesTheFirst(runs: seq<WorkflowRun>, title: Text) returns (i: int)
    ensures Finished(runs, title) != [] ==>
      IsFirst(runs, title, i) && SortBy(Finished(runs, title), Older)[0] == runs[i]
  {
    i := 0;
    if runs == [] {
      NothingFinished(title);
    } else {
      hide Finished, SortBy, Older;
      var r, rest := runs[0], runs[1..];
      var k := SortTakesTheFirst(rest, title);
      FinishedOfCons(r, rest, title);
      assert runs == [r] + rest;
      HeadOfSort(r, Finished(rest, title));
      hide IsFirst;
      if Finished(rest, title) == [] {
        if r.title == title && IsCompleted(r) { OnlyFinished(r, rest, title); }
      } else {
        FirstIsPlaced(rest, title, k);
        FirstOfCons(r, rest, title, k);
        i := if r.title == title && IsCompleted(r) && !Older(rest[k], r) then 0 else k + 1;
      }
    }
  }

  lemma FirstIsPlaced(runs: seq<WorkflowRun>, title: Text, i: int)
    requires IsFirst(runs, title, i)
    ensures 0 <= i < |runs| && IsCompleted(runs[i])
  {
  }

  lemma NothingFinished(title: Text)
    ensures Finished([], title) == []
  {
  }

  lemma FinishedAre(runs: seq<WorkflowRun>, title: Text)
    ensures forall x :: x in Finished(runs, title) <==> x in runs && x.title == title && IsCompleted(x)
  {
  }

  lemma OneFirst(runs: seq<WorkflowRun>, title: Text, i: int, j: int)
    requires IsFirst(runs, title, i) && IsFirst(runs, title, j)
    ensures i == j
  {
  }

  /** A completed run is the one taken exactly when it is the first completed one of its title in the listing. */
  lemma TakenIffFirst(runs: seq<WorkflowRun>, title: Text, r: WorkflowRun)
    requires IsCompleted(r)
    ensures (Titled(runs, title) != [] && Pick(Titled(runs, title)) == r)
      <==> exists i :: IsFirst(runs, title, i) && runs[i] == r
  {
    hide Titled, CompletedOf;
    var i := SortTakesTheFirst(runs, title);
    var titled := Titled(runs, title);
    if titled != [] && Pick(titled) == r {
      PickIsOldest(titled);
      assert Finished(runs, title) != [] by { assert r in CompletedOf(titled); }
    }
    if j :| IsFirst(runs, title, j) && runs[j] == r {
      FirstIsFinished(runs, title, j);
      OneFirst(runs, title, i, j);
    }
  }

  lemma FirstIsFinished(runs: seq<WorkflowRun>, title: Text, i: int)
    requires IsFirst(runs, title, i)
    ensures runs[i] in Titled(runs, title) && runs[i] in Finished(runs, title)
  {
  }

  /** The case the guard above shuts out: an older run finishing late takes the place of a finished one. */
  lemma LateFinishReplacesTheRun(title: Text, headSha: Text)
    ensures var slow := WorkflowRun(1, title, Ascii("in_progress"), 10, headSha);
      var quick := WorkflowRun(2, title, COMPLETED_TEXT, 20, headSha);
      var late := slow.(status := COMPLETED_TEXT);
      Pick([slow, quick]) == quick && Pick([late, quick]) == late
  {
    hide Pick, Older;
    var slow := WorkflowRun(1, title, Ascii("in_progress"), 10, headSha);
    var quick := WorkflowRun(2, title, COMPLETED_TEXT, 20, headSha);
    var late := slow.(status := COMPLETED_TEXT);
    assert |Ascii("in_progress")| != |COMPLETED_TEXT|;
    OlderByTime(slow, quick);
    OlderByTime(late, quick);
    FirstCompletedWins([slow, quick], quick);
    FirstCompletedWins([late, quick], late);
  }

  lemma OlderByTime(a: WorkflowRun, b: WorkflowRun)
    requires a.createdAt < b.createdAt
    ensures Older(a, b) && !Older(b, a) && !Older(a, a) && !Older(b, b)
  {
  }

  const GUARD_ONLY: seq<Job> := [Job(Ascii("guard"), Some(Ascii("success")))]

  lemma GuardOnlyFails(p: Policy)
    requires Agreed(p)
    ensures Succeeded(GUARD_ONLY, Ascii("guard"))
    ensures exists i | 0 <= i < |p.items| :: p.items[i].required && !Succeeded(GUARD_ONLY, ItemJob(p.items[i].id))
  {
    var i :| 0 <= i < |p.items| && p.items[i].required;
    assert ItemJob(p.items[i].id)[0] == 105 && Ascii("guard")[0] == 103;
    assert GUARD_ONLY[..0] == [];
    assert Conclusion(GUARD_ONLY, ItemJob(p.items[i].id)) == None;
  }

  /** GitHub before and after an older run of a name finishes, behind a younger one that had finished. */
  function BeforeLateFinish(l: Lookup, headSha: Text, blob: Text, good: seq<Job>): GitHub {
    GitHub([WorkflowRun(1, RunTitle(l), Ascii("in_progress"), 10, headSha),
      WorkflowRun(2, RunTitle(l), COMPLETED_TEXT, 20, headSha)],
           map[2 := good], map[(l.runner, headSha) := blob])
  }

  function AfterLateFinish(l: Lookup, headSha: Text, blob: Text, good: seq<Job>): GitHub {
    GitHub([WorkflowRun(1, RunTitle(l), COMPLETED_TEXT, 10, headSha),
      WorkflowRun(2, RunTitle(l), COMPLETED_TEXT, 20, headSha)],
           map[1 := GUARD_ONLY, 2 := good], map[(l.runner, headSha) := blob])
  }

  lemma FoundRuns(l: Lookup, headSha: Text, blob: Text, good: seq<Job>)
    ensures FindRun(BeforeLateFinish(l, headSha, blob, good), l)
      == Some(RunFacts(2, Completed, 20, headSha, blob, l.sha, good))
    ensures FindRun(AfterLateFinish(l, headSha, blob, good), l)
      == Some(RunFacts(1, Completed, 10, headSha, blob, l.sha, GUARD_ONLY))
  {
    hide RunTitle, Pick, Titled;
    LateFinishReplacesTheRun(RunTitle(l), headSha);
    AllTitled(BeforeLateFinish(l, headSha, blob, good).runs, RunTitle(l));
    AllTitled(AfterLateFinish(l, headSha, blob, good).runs, RunTitle(l));
  }

  lemma AllTitled(runs: seq<WorkflowRun>, title: Text)
    requires forall i | 0 <= i < |runs| :: runs[i].title == title
    ensures Titled(runs, title) == runs
  {
    FilterAll(runs, (r: WorkflowRun) => r.title == title);
  }

  /** So a verdict read twice can flip: PASS from the younger run, then FAIL from the older one that finished late. */
  lemma LateFinishCanFlipTheVerdict(p: Policy, r: Reference, l: Lookup, headSha: Text, good: seq<Job>, now: int)
    requires Agreed(p) && SameRepository(r.repository, p.repository) && l.sha == r.sha
    requires Succeeded(good, Ascii("guard"))
    requires forall i | 0 <= i < |p.items| && p.items[i].required :: Succeeded(good, ItemJob(p.items[i].id))
    ensures Replay(p, r, FindRun(BeforeLateFinish(l, headSha, p.runner.blobSha, good), l), now).decision == Pass
    ensures Replay(p, r, FindRun(AfterLateFinish(l, headSha, p.runner.blobSha, good), l), now).decision == Fail
  {
    hide FindRun, BeforeLateFinish, AfterLateFinish, Replay, ItemJob;
    FoundRuns(l, headSha, p.runner.blobSha, good);
    GuardOnlyFails(p);
    VerdictIsTheRule(p, r, FindRun(BeforeLateFinish(l, headSha, p.runner.blobSha, good), l), now);
    VerdictIsTheRule(p, r, FindRun(AfterLateFinish(l, headSha, p.runner.blobSha, good), l), now);
  }
}
