/**
 The mutation campaign: workers that patch a file, test and put it back, stop and resume, and the
 summary that decides whether the campaign is complete and sound.
 */
module Campaign {
  import opened Texts
  import opened Lists

  type Byte = b: int | 0 <= b < 256
  type Bytes = seq<Byte>
  type Files = map<Text, Bytes>

  /** `oldText` and `newText` are the UTF-8 bytes; offsets are Python's, so they may be negative or past the end. */
  datatype Mutant = Mutant(contract: Text, mutator: Text, file: Text, start: int, end: int, oldText: Bytes,
    newText: Bytes)

  datatype Status = Killed | Survived | NoCompile | Timeout | Error | Stale

  datatype Row = Row(mutant: Mutant, status: Status)

  datatype MutantKey = MutantKey(contract: Text, mutator: Text, file: Text, start: int, end: int, newText: Bytes)

  /** What one test run ends as; an exception leaves the loop. */
  datatype Verdict = Ended(status: Status) | Raised

  /** The answer of the build and the tests of a mutant on a tree, for the worker's n-th run. */
  type Judge = (Mutant, Files, nat) -> Verdict

  datatype Trial = Trial(mutant: Mutant, files: Files)

  function Key(m: Mutant): MutantKey { MutantKey(m.contract, m.mutator, m.file, m.start, m.end, m.newText) }

  function Keys(mutants: seq<Mutant>): seq<MutantKey> {
    seq(|mutants|, i requires 0 <= i < |mutants| => Key(mutants[i]))
  }

  function RowKeys(rows: seq<Row>): seq<MutantKey> { seq(|rows|, i requires 0 <= i < |rows| => Key(rows[i].mutant)) }

  // ---- One pass of one worker ----

  /** A slice bound as Python takes it. */
  function Bound(i: int, n: nat): (r: nat)
    ensures r <= n
  {
    if i < 0 then (if i + n < 0 then 0 else i + n) else if i > n then n else i
  }

  function Slice(b: Bytes, start: int, end: int): Bytes {
    if Bound(start, |b|) <= Bound(end, |b|) then b[Bound(start, |b|)..Bound(end, |b|)] else []
  }

  function Patched(b: Bytes, m: Mutant): Bytes { b[..Bound(m.start, |b|)] + m.newText + b[Bound(m.end, |b|)..] }

  datatype Pass = Pass(rows: seq<Row>, trials: seq<Trial>, stopped: bool)

  function PassFrom(files: Files, mutants: seq<Mutant>, skip: set<MutantKey>, judge: Judge, runs: nat): Pass {
    if mutants == [] then Pass([], [], false)
    else
      var m := mutants[0];
      if Key(m) in skip then PassFrom(files, mutants[1..], skip, judge, runs)
      else if m.file !in files then Pass([], [], true)
      else if Slice(files[m.file], m.start, m.end) != m.oldText then
        After([Row(m, Stale)], [], PassFrom(files, mutants[1..], skip, judge, runs))
      else
        var tree := files[m.file := Patched(files[m.file], m)];
        match judge(m, tree, runs)
        case Raised => Pass([], [Trial(m, tree)], true)
        case Ended(status) => After([Row(m, status)], [Trial(m, tree)],
          PassFrom(files, mutants[1..], skip, judge, runs + 1))
  }

  function After(rows: seq<Row>, trials: seq<Trial>, rest: Pass): Pass {
    Pass(rows + rest.rows, trials + rest.trials, rest.stopped)
  }

  lemma AfterTwice(a: seq<Row>, b: seq<Row>, x: seq<Trial>, y: seq<Trial>, rest: Pass)
    ensures After(a, x, After(b, y, rest)) == After(a + b, x + y, rest)
  {
    assert a + (b + rest.rows) == (a + b) + rest.rows && x + (y + rest.trials) == (x + y) + rest.trials;
  }

  /** A worker with its own copy of the sources. */
  class Worker {
    const judge: Judge
    var files: Files
    var results: seq<Row>
    var runs: nat
    ghost var trials: seq<Trial>

    constructor (files: Files, judge: Judge)
      ensures this.files == files && this.judge == judge && results == [] && runs == 0 && trials == []
    {
      this.files, this.judge, results, runs, trials := files, judge, [], 0, [];
    }

    method Test(m: Mutant) returns (v: Verdict)
      modifies this`runs, this`trials
      ensures v == judge(m, files, old(runs)) && runs == old(runs) + 1 && trials == old(trials) + [Trial(m, files)]
    {
      trials := trials + [Trial(m, files)];
      v := judge(m, files, runs);
      runs := runs + 1;
    }

    /** The mutant in place, tested, and the file put back whether or not the test raised. */
    method TryMutant(m: Mutant, original: Bytes) returns (v: Verdict)
      requires m.file in files && files[m.file] == original
      modifies this`files, this`runs, this`trials
      ensures files == old(files) && runs == old(runs) + 1
      ensures var tree := old(files)[m.file := Patched(original, m)];
        v == judge(m, tree, old(runs)) && trials == old(trials) + [Trial(m, tree)]
    {
      files := files[m.file := Patched(original, m)];
      v := Test(m);
      files := files[m.file := original];
    }

    method Run(mutants: seq<Mutant>, skip: set<MutantKey>) returns (stopped: bool)
      modifies this`files, this`results, this`runs, this`trials
      ensures files == old(files)
      ensures After(old(results), old(trials), PassFrom(old(files), mutants, skip, judge, old(runs)))
        == Pass(results, trials, stopped)
    {
      hide Patched, Slice;
      var i := 0;
      ghost var whole := After(results, trials, PassFrom(files, mutants, skip, judge, runs));
      while i < |mutants|
        invariant 0 <= i <= |mutants| && files == old(files)
        invariant After(results, trials, PassFrom(files, mutants[i..], skip, judge, runs)) == whole
      {
        var m := mutants[i];
        ghost var rest := mutants[i..];
        assert rest[0] == m && rest[1..] == mutants[i + 1..];
        i := i + 1;
        if Key(m) in skip { continue; }
        if m.file !in files { return true; }
        var original := files[m.file];
        var status := Stale;
        ghost var before := trials;
        if Slice(original, m.start, m.end) == m.oldText {
          var v := TryMutant(m, original);
          if v.Raised? { return true; }
          status := v.status;
        }
        AfterTwice(results, [Row(m, status)], before, trials[|before|..],
          PassFrom(files, mutants[i..], skip, judge, runs));
        results := results + [Row(m, status)];
      }
      return false;
    }
  }

  /** Each test run sees the sources with that one mutant in them, its old text replaced by its new text. */
  lemma {:induction false} TrialIsOneEdit(files: Files, mutants: seq<Mutant>, skip: set<MutantKey>, judge: Judge,
      runs: nat, t: Trial)
    requires t in PassFrom(files, mutants, skip, judge, runs).trials
    ensures t.mutant in mutants && Key(t.mutant) !in skip && t.mutant.file in files
    ensures var m := t.mutant; var b := files[m.file]; var from, to := Bound(m.start, |b|), Bound(m.end, |b|);
      && t.files == files[m.file := b[..from] + m.newText + b[to..]]
      && (from <= to ==> b == b[..from] + m.oldText + b[to..])
  {
    var m := mutants[0];
    if Key(m) in skip || m.file !in files || Slice(files[m.file], m.start, m.end) != m.oldText {
      TrialIsOneEdit(files, mutants[1..], skip, judge, runs, t);
    } else if t != Trial(m, files[m.file := Patched(files[m.file], m)]) {
      TrialIsOneEdit(files, mutants[1..], skip, judge, runs + 1, t);
    }
  }

  // ---- What a pass writes, row by row ----

  /** The mutants that are not skipped, in their order. */
  function WantedOf(mutants: seq<Mutant>, skip: set<MutantKey>): seq<Mutant> {
    Filter(mutants, m => Key(m) !in skip)
  }

  /** The mutant's old text is at its offsets. */
  ghost predicate Fits(files: Files, m: Mutant) {
    && m.file in files
    && var b := files[m.file]; var from, to := Bound(m.start, |b|), Bound(m.end, |b|);
       m.oldText == if from <= to then b[from..to] else []
  }

  /** The sources with this mutant in them. */
  function Mutated(files: Files, m: Mutant): Files
    requires m.file in files
  {
    var b := files[m.file];
    files[m.file := b[..Bound(m.start, |b|)] + m.newText + b[Bound(m.end, |b|)..]]
  }

  /** How many of these are tested. */
  ghost function Tested(files: Files, mutants: seq<Mutant>): nat {
    if mutants == [] then 0 else (if Fits(files, mutants[0]) then 1 else 0) + Tested(files, mutants[1..])
  }

  /**
   What becomes of the i-th mutant wanted: its row holds what its test ended as, on the sources with just this
   mutant in them and after one run for each mutant tested before; or 'stale', when its old text is not there.
   */
  ghost predicate RowIsItsVerdict(files: Files, wanted: seq<Mutant>, judge: Judge, runs: nat, pass: Pass, i: nat)
    requires i < |pass.rows| && i < |wanted|
  {
    var m, n := wanted[i], Tested(files, wanted[..i]);
    && pass.rows[i].mutant == m && m.file in files
    && if Fits(files, m) then
         && judge(m, Mutated(files, m), runs + n) == Ended(pass.rows[i].status)
         && n < |pass.trials| && pass.trials[n] == Trial(m, Mutated(files, m))
       else pass.rows[i].status == Stale
  }

  /** Why a pass stopped at the mutant behind its last row: no such file, or its test raised. */
  ghost predicate StoppedAt(files: Files, wanted: seq<Mutant>, judge: Judge, runs: nat, pass: Pass) {
    && |pass.rows| < |wanted|
    && var m, n := wanted[|pass.rows|], Tested(files, wanted[..|pass.rows|]);
       if m.file !in files then |pass.trials| == n
       else
         && Fits(files, m) && judge(m, Mutated(files, m), runs + n) == Raised
         && |pass.trials| == n + 1 && pass.trials[n] == Trial(m, Mutated(files, m))
  }

  /** A pass as a whole: a row for each mutant wanted, in order, up to the one it stopped at, and no other trials. */
  ghost predicate IsPassOver(files: Files, wanted: seq<Mutant>, judge: Judge, runs: nat, pass: Pass) {
    && |pass.rows| <= |wanted|
    && (forall i: nat | i < |pass.rows| :: RowIsItsVerdict(files, wanted, judge, runs, pass, i))
    && if pass.stopped then StoppedAt(files, wanted, judge, runs, pass)
       else |pass.rows| == |wanted| && |pass.trials| == Tested(files, wanted)
  }

  lemma WantedOfCons(m: Mutant, rest: seq<Mutant>, skip: set<MutantKey>)
    ensures WantedOf([m] + rest, skip) == (if Key(m) !in skip then [m] else []) + WantedOf(rest, skip)
  {
    FilterConcat([m], rest, x => Key(x) !in skip);
    FilterOne(m, x => Key(x) !in skip);
  }

  lemma TestedOfCons(files: Files, m: Mutant, rest: seq<Mutant>, i: nat)
    requires i <= |rest|
    ensures ([m] + rest)[..i + 1] == [m] + rest[..i]
    ensures Tested(files, ([m] + rest)[..i + 1]) == (if Fits(files, m) then 1 else 0) + Tested(files, rest[..i])
    ensures Tested(files, [m] + rest) == (if Fits(files, m) then 1 else 0) + Tested(files, rest)
  {
    assert ([m] + rest)[..i + 1] == [m] + rest[..i];
    assert ([m] + rest[..i])[1..] == rest[..i] && ([m] + rest)[1..] == rest;
  }

  /** A row in front of a pass over the rest. */
  lemma RowInFront(files: Files, m: Mutant, rest: seq<Mutant>, judge: Judge, runs: nat, status: Status,
      trials: seq<Trial>, pass: Pass)
    requires m.file in files && (Fits(files, m) ==> judge(m, Mutated(files, m), runs) == Ended(status))
    requires trials == (if Fits(files, m) then [Trial(m, Mutated(files, m))] else [])
    requires !Fits(files, m) ==> status == Stale
    requires IsPassOver(files, rest, judge, runs + |trials|, pass)
    ensures IsPassOver(files, [m] + rest, judge, runs, After([Row(m, status)], trials, pass))
  {
    hide Fits, Mutated;
    var wanted, all := [m] + rest, After([Row(m, status)], trials, pass);
    forall i: nat | i < |all.rows| ensures RowIsItsVerdict(files, wanted, judge, runs, all, i) {
      if i == 0 {
        assert wanted[..0] == [];
      } else {
        TestedOfCons(files, m, rest, i - 1);
        assert RowIsItsVerdict(files, rest, judge, runs + |trials|, pass, i - 1);
      }
    }
    TestedOfCons(files, m, rest, |pass.rows|);
  }

  lemma StoppedHere(files: Files, m: Mutant, rest: seq<Mutant>, judge: Judge, runs: nat, trials: seq<Trial>)
    requires if m.file !in files then trials == []
      else Fits(files, m) && judge(m, Mutated(files, m), runs) == Raised && trials == [Trial(m, Mutated(files, m))]
    ensures IsPassOver(files, [m] + rest, judge, runs, Pass([], trials, true))
  {
    assert ([m] + rest)[..0] == [];
  }

  lemma FitsIsTheSlice(files: Files, m: Mutant)
    requires m.file in files
    ensures Fits(files, m) <==> Slice(files[m.file], m.start, m.end) == m.oldText
    ensures Mutated(files, m) == files[m.file := Patched(files[m.file], m)]
  {
  }

  lemma NothingPassed(files: Files, judge: Judge, runs: nat)
    ensures IsPassOver(files, [], judge, runs, Pass([], [], false))
  {
  }

  /**
   One pass of a worker, whatever the tests answer: each row holds what the test of its mutant ended as, rows
   and trials pair up in order, and the pass stops only for a missing file or a test that raised.
   */
  lemma {:induction false} RowsAreVerdicts(files: Files, mutants: seq<Mutant>, skip: set<MutantKey>, judge: Judge,
      runs: nat)
    ensures IsPassOver(files, WantedOf(mutants, skip), judge, runs, PassFrom(files, mutants, skip, judge, runs))
  {
    if mutants == [] {
      NothingPassed(files, judge, runs);
    } else {
      hide IsPassOver, Fits, Mutated, Slice, Patched, WantedOf, Key;
      var m, rest := mutants[0], mutants[1..];
      var wanted := WantedOf(rest, skip);
      assert mutants == [m] + rest;
      WantedOfCons(m, rest, skip);
      RowsAreVerdicts(files, rest, skip, judge, runs);
      RowsAreVerdicts(files, rest, skip, judge, runs + 1);
      if Key(m) in skip {
        assert [] + wanted == wanted;
      } else if m.file !in files {
        StoppedHere(files, m, wanted, judge, runs, []);
      } else {
        FitsIsTheSlice(files, m);
        var tree := Mutated(files, m);
        if !Fits(files, m) {
          RowInFront(files, m, wanted, judge, runs, Stale, [], PassFrom(files, rest, skip, judge, runs));
        } else {
          match judge(m, tree, runs)
          case Raised => StoppedHere(files, m, wanted, judge, runs, [Trial(m, tree)]);
          case Ended(status) =>
            RowInFront(files, m, wanted, judge, runs, status, [Trial(m, tree)],
              PassFrom(files, rest, skip, judge, runs + 1));
        }
      }
    }
  }

  /** Offsets count from the end when they are negative, and are cut to the text, as a slice takes them. */
  lemma OffsetsAreCut(b: Bytes, k: int, start: nat, end: nat)
    requires start <= end <= |b| && 0 <= k <= |b|
    ensures Slice(b, start, end) == b[start..end] && Slice(b, start, |b| + k) == b[start..]
    ensures k > 0 ==> Slice(b, -k, |b|) == b[|b| - k..]
    ensures k > 0 ==> Slice(b, start, -k) == if start <= |b| - k then b[start..|b| - k] else []
    ensures Slice(b, -|b| - k - 1, end) == b[..end]
  {
  }

  // ---- Stopping and resuming ----

  predicate Decided(r: Row) { r.status in {Killed, Survived, NoCompile} }

  predicate IsToRunAgain(r: Row) { r.status in {Timeout, Error, Stale} }

  lemma DecidedOrAgain(r: Row)
    ensures Decided(r) <==> !IsToRunAgain(r)
  {
    match r.status case Killed => case Survived => case NoCompile => case Timeout => case Error => case Stale =>
  }

  function DecidedOf(rows: seq<Row>): seq<Row> { Filter(rows, r => Decided(r)) }

  datatype Shard = Shard(files: Files, mutants: seq<Mutant>, judge: Judge)

  function ShardPass(s: Shard, done: seq<Row>): Pass {
    PassFrom(s.files, s.mutants, Elements(RowKeys(done)), s.judge, 0)
  }

  /** What the workers of one launch write, one results file after the other. */
  function WrittenBy(shards: seq<Shard>, done: seq<Row>): seq<Row> {
    if shards == [] then [] else WrittenBy(shards[..|shards| - 1], done) + ShardPass(shards[|shards| - 1], done).rows
  }

  function AllMutants(shards: seq<Shard>): seq<Mutant> {
    if shards == [] then [] else AllMutants(shards[..|shards| - 1]) + shards[|shards| - 1].mutants
  }

  /** The results after a launch that keeps what the results before it decided. */
  function Launch(results: seq<Row>, shards: seq<Shard>): seq<Row> {
    DecidedOf(results) + WrittenBy(shards, DecidedOf(results))
  }

  /** A campaign: launches one after another, the first from nothing. */
  function ResultsOf(launches: seq<seq<Shard>>): seq<Row> {
    if launches == [] then [] else Launch(ResultsOf(launches[..|launches| - 1]), launches[|launches| - 1])
  }

  lemma KeysConcat(a: seq<Row>, b: seq<Row>)
    ensures RowKeys(a + b) == RowKeys(a) + RowKeys(b)
      && Elements(RowKeys(a + b)) == Elements(RowKeys(a)) + Elements(RowKeys(b))
  {
  }

  lemma MutantKeysConcat(a: seq<Mutant>, b: seq<Mutant>)
    ensures Keys(a + b) == Keys(a) + Keys(b) && Elements(Keys(a + b)) == Elements(Keys(a)) + Elements(Keys(b))
  {
  }

  lemma JoinNoRepeats<T>(a: seq<T>, b: seq<T>)
    requires NoRepeats(a) && NoRepeats(b) && Elements(a) !! Elements(b)
    ensures NoRepeats(a + b)
  {
    forall i, j | 0 <= i < j < |a + b| ensures (a + b)[i] != (a + b)[j] {
      if i < |a| <= j { assert (a + b)[i] in Elements(a) && (a + b)[j] in Elements(b); }
    }
  }

  lemma SplitNoRepeats<T>(a: seq<T>, b: seq<T>)
    requires NoRepeats(a + b)
    ensures NoRepeats(a) && NoRepeats(b) && Elements(a) !! Elements(b)
  {
    forall i, j | 0 <= i < j < |a| ensures a[i] != a[j] { assert (a + b)[i] != (a + b)[j]; }
    forall i, j | 0 <= i < j < |b| ensures b[i] != b[j] { assert (a + b)[|a| + i] != (a + b)[|a| + j]; }
    forall i, j | 0 <= i < |a| && 0 <= j < |b| ensures a[i] != b[j] { assert (a + b)[i] != (a + b)[|a| + j]; }
  }

  /** Each wanted key is written at most once, and all of them when the pass was not stopped. */
  ghost predicate WritesOnce(pass: Pass, wanted: set<MutantKey>) {
    && NoRepeats(RowKeys(pass.rows)) && Elements(RowKeys(pass.rows)) <= wanted
    && (!pass.stopped ==> Elements(RowKeys(pass.rows)) == wanted)
  }

  lemma KeysOfCons(mutants: seq<Mutant>)
    requires mutants != []
    ensures Elements(Keys(mutants)) == {Key(mutants[0])} + Elements(Keys(mutants[1..]))
    ensures NoRepeats(Keys(mutants)) ==>
      NoRepeats(Keys(mutants[1..])) && Key(mutants[0]) !in Elements(Keys(mutants[1..]))
  {
    var m, rest := mutants[0], mutants[1..];
    assert mutants == [m] + rest;
    MutantKeysConcat([m], rest);
    assert Keys([m]) == [Key(m)] && Elements([Key(m)]) == {Key(m)};
    if NoRepeats(Keys(mutants)) {
      assert Keys(mutants) == [Key(m)] + Keys(rest);
      SplitNoRepeats([Key(m)], Keys(rest));
    }
  }

  lemma OneRowMore(m: Mutant, status: Status, trials: seq<Trial>, rest: Pass, wanted: set<MutantKey>)
    requires WritesOnce(rest, wanted) && Key(m) !in wanted
    ensures WritesOnce(After([Row(m, status)], trials, rest), wanted + {Key(m)})
  {
    var first := [Row(m, status)];
    KeysConcat(first, rest.rows);
    assert RowKeys(first) == [Key(m)] && Elements([Key(m)]) == {Key(m)};
    JoinNoRepeats(RowKeys(first), RowKeys(rest.rows));
  }

  lemma {:induction false} PassWritesOnce(files: Files, mutants: seq<Mutant>, skip: set<MutantKey>, judge: Judge,
      runs: nat)
    requires NoRepeats(Keys(mutants))
    ensures WritesOnce(PassFrom(files, mutants, skip, judge, runs), Elements(Keys(mutants)) - skip)
  {
    hide Keys, NoRepeats, Elements, Patched, Slice, RowKeys;
    if mutants != [] {
      hide WritesOnce;
      var m, wanted := mutants[0], Elements(Keys(mutants[1..])) - skip;
      KeysOfCons(mutants);
      PassWritesOnce(files, mutants[1..], skip, judge, runs);
      PassWritesOnce(files, mutants[1..], skip, judge, runs + 1);
      StoppedWritesNothing([], Elements(Keys(mutants)) - skip);
      if Key(m) in skip {
        assert Elements(Keys(mutants)) - skip == wanted;
      } else {
        assert Elements(Keys(mutants)) - skip == wanted + {Key(m)};
        OneRowMore(m, Stale, [], PassFrom(files, mutants[1..], skip, judge, runs), wanted);
        if m.file in files {
          var tree := files[m.file := Patched(files[m.file], m)];
          StoppedWritesNothing([Trial(m, tree)], Elements(Keys(mutants)) - skip);
          var v := judge(m, tree, runs);
          if v.Ended? {
            OneRowMore(m, v.status, [Trial(m, tree)], PassFrom(files, mutants[1..], skip, judge, runs + 1), wanted);
          }
        }
      }
    } else {
      NothingWanted(skip);
    }
  }

  lemma StoppedWritesNothing(trials: seq<Trial>, wanted: set<MutantKey>)
    ensures WritesOnce(Pass([], trials, true), wanted)
  {
  }

  lemma NothingWanted(skip: set<MutantKey>)
    ensures WritesOnce(Pass([], [], false), Elements(Keys([])) - skip)
  {
  }

  /** The workers of one launch together, when their shards share no key. */
  lemma {:induction false} LaunchWritesOnce(shards: seq<Shard>, done: seq<Row>)
    requires NoRepeats(Keys(AllMutants(shards)))
    ensures var skip := Elements(RowKeys(done));
      var stopped := exists i :: 0 <= i < |shards| && ShardPass(shards[i], done).stopped;
      WritesOnce(Pass(WrittenBy(shards, done), [], stopped), Elements(Keys(AllMutants(shards))) - skip)
  {
    hide ShardPass, WritesOnce, RowKeys;
    var skip := Elements(RowKeys(done));
    if shards == [] {
      NothingWanted(skip);
    } else {
      var front, last := shards[..|shards| - 1], shards[|shards| - 1];
      var a, b := AllMutants(front), last.mutants;
      MutantKeysConcat(a, b);
      SplitNoRepeats(Keys(a), Keys(b));
      LaunchWritesOnce(front, done);
      ShardWritesOnce(last, done);
      var p := Pass(WrittenBy(front, done), [], exists i :: 0 <= i < |front| && ShardPass(front[i], done).stopped);
      var q := ShardPass(last, done);
      TwoPasses(p, q, Elements(Keys(a)) - skip, Elements(Keys(b)) - skip);
      StoppedOfMore(shards, done);
      assert Elements(Keys(AllMutants(shards))) - skip == (Elements(Keys(a)) - skip) + (Elements(Keys(b)) - skip);
    }
  }

  lemma ShardWritesOnce(s: Shard, done: seq<Row>)
    requires NoRepeats(Keys(s.mutants))
    ensures WritesOnce(ShardPass(s, done), Elements(Keys(s.mutants)) - Elements(RowKeys(done)))
  {
    PassWritesOnce(s.files, s.mutants, Elements(RowKeys(done)), s.judge, 0);
  }

  lemma StoppedOfMore(shards: seq<Shard>, done: seq<Row>)
    requires shards != []
    ensures var front := shards[..|shards| - 1];
      (exists i :: 0 <= i < |shards| && ShardPass(shards[i], done).stopped)
      <==>
      ((exists i :: 0 <= i < |front| && ShardPass(front[i], done).stopped)
       || ShardPass(shards[|shards| - 1], done).stopped)
  {
    var front := shards[..|shards| - 1];
    if i :| 0 <= i < |front| && ShardPass(front[i], done).stopped { assert ShardPass(shards[i], done).stopped; }
    if i :| 0 <= i < |shards| && ShardPass(shards[i], done).stopped {
      assert i < |front| ==> ShardPass(front[i], done).stopped;
    }
  }

  lemma TwoPasses(p: Pass, q: Pass, a: set<MutantKey>, b: set<MutantKey>)
    requires WritesOnce(p, a) && WritesOnce(q, b) && a !! b
    ensures WritesOnce(Pass(p.rows + q.rows, [], p.stopped || q.stopped), a + b)
  {
    KeysConcat(p.rows, q.rows);
    JoinNoRepeats(RowKeys(p.rows), RowKeys(q.rows));
  }

  // ---- Every launch keeps the results single ----

  /** A launch of the picked list, shared out among workers. */
  ghost predicate Shares(shards: seq<Shard>, picked: seq<Mutant>) {
    NoRepeats(Keys(AllMutants(shards))) && Elements(Keys(AllMutants(shards))) == Elements(Keys(picked))
  }

  ghost predicate Single(results: seq<Row>, picked: seq<Mutant>) {
    NoRepeats(RowKeys(results)) && Elements(RowKeys(results)) <= Elements(Keys(picked))
  }

  ghost predicate Stopped(results: seq<Row>, shards: seq<Shard>) {
    exists i :: 0 <= i < |shards| && ShardPass(shards[i], DecidedOf(results)).stopped
  }

  lemma {:induction false} DecidedIsSingle(results: seq<Row>, picked: seq<Mutant>)
    requires Single(results, picked)
    ensures Single(DecidedOf(results), picked) && Elements(RowKeys(DecidedOf(results))) <= Elements(RowKeys(results))
  {
    if results != [] {
      var front, r := results[..|results| - 1], results[|results| - 1];
      assert results == front + [r] && RowKeys([r]) == [Key(r.mutant)];
      KeysConcat(front, [r]);
      SplitNoRepeats(RowKeys(front), RowKeys([r]));
      DecidedIsSingle(front, picked);
      KeysConcat(DecidedOf(front), [r]);
      JoinNoRepeats(RowKeys(DecidedOf(front)), RowKeys([r]));
    }
  }

  lemma LaunchKeepsSingle(results: seq<Row>, shards: seq<Shard>, picked: seq<Mutant>)
    requires Single(results, picked) && Shares(shards, picked)
    ensures Single(Launch(results, shards), picked)
    ensures !Stopped(results, shards) ==> Elements(RowKeys(Launch(results, shards))) == Elements(Keys(picked))
  {
    var done := DecidedOf(results);
    DecidedIsSingle(results, picked);
    LaunchWritesOnce(shards, done);
    KeysConcat(done, WrittenBy(shards, done));
    JoinNoRepeats(RowKeys(done), RowKeys(WrittenBy(shards, done)));
  }

  /**
   A launch keeps what was decided, in its order and with its status, tests none of it again, and keeps nothing
   that is to be run again.
   */
  lemma LaunchKeepsTheDecided(results: seq<Row>, shards: seq<Shard>)
    ensures DecidedOf(results) <= Launch(results, shards)
    ensures forall r :: r in DecidedOf(results) <==> r in results && r.status in {Killed, Survived, NoCompile}
    ensures forall i | |DecidedOf(results)| <= i < |Launch(results, shards)| ::
      Key(Launch(results, shards)[i].mutant) !in Elements(RowKeys(DecidedOf(results)))
  {
    var done := DecidedOf(results);
    forall r ensures r in done <==> r in results && r.status in {Killed, Survived, NoCompile} {
      FilterHas(results, x => Decided(x), r);
    }
    NewRowsAreNew(shards, done);
    hide DecidedOf, WrittenBy;
    var l := Launch(results, shards);
    forall i | |done| <= i < |l| ensures Key(l[i].mutant) !in Elements(RowKeys(done)) {
      assert l[i] == WrittenBy(shards, done)[i - |done|];
    }
  }

  lemma {:induction false} NewRowsAreNew(shards: seq<Shard>, done: seq<Row>)
    ensures forall i | 0 <= i < |WrittenBy(shards, done)| ::
      Key(WrittenBy(shards, done)[i].mutant) !in Elements(RowKeys(done))
  {
    if shards != [] {
      var front, last := shards[..|shards| - 1], shards[|shards| - 1];
      NewRowsAreNew(front, done);
      ShardIsNew(last, done);
    }
  }

  lemma ShardIsNew(s: Shard, done: seq<Row>)
    ensures forall i | 0 <= i < |ShardPass(s, done).rows| ::
      Key(ShardPass(s, done).rows[i].mutant) !in Elements(RowKeys(done))
  {
    var skip := Elements(RowKeys(done));
    var wanted, pass := WantedOf(s.mutants, skip), ShardPass(s, done);
    RowsAreVerdicts(s.files, s.mutants, skip, s.judge, 0);
    hide PassFrom, Fits, Mutated, RowKeys, Elements;
    forall i: nat | i < |pass.rows| ensures Key(pass.rows[i].mutant) !in skip {
      assert RowIsItsVerdict(s.files, wanted, s.judge, 0, pass, i);
      assert wanted[i] in wanted;
    }
  }

  /**
   However often a campaign is stopped and resumed, no mutant has two results; and when no worker of
   the last launch was stopped, every picked mutant has exactly one.
   */
  lemma {:induction false} EachMutantOnce(launches: seq<seq<Shard>>, picked: seq<Mutant>)
    requires forall i | 0 <= i < |launches| :: Shares(launches[i], picked)
    ensures Single(ResultsOf(launches), picked)
    ensures launches != [] && !Stopped(ResultsOf(launches[..|launches| - 1]), launches[|launches| - 1])
      ==> Elements(RowKeys(ResultsOf(launches))) == Elements(Keys(picked))
  {
    hide Single, Shares, Launch, Stopped;
    if launches == [] {
      NothingIsSingle(picked);
    } else {
      EachMutantOnce(launches[..|launches| - 1], picked);
      LaunchKeepsSingle(ResultsOf(launches[..|launches| - 1]), launches[|launches| - 1], picked);
    }
  }

  lemma NothingIsSingle(picked: seq<Mutant>)
    ensures Single([], picked)
  {
  }

  // ---- The summary ----

  const CONTROL := Ascii("CONTROL")

  predicate IsControl(r: Row) { r.mutant.mutator == CONTROL }

  /** Every picked mutant is picked once and has exactly one result. */
  ghost predicate IsComplete(picked: seq<Mutant>, got: seq<Row>) {
    NoRepeats(Keys(picked)) && forall k | k in Keys(picked) :: multiset(RowKeys(got))[k] == 1
  }

  ghost predicate IsControlled(got: seq<Row>, contract: Text) {
    exists j :: 0 <= j < |got| && IsControl(got[j]) && got[j].mutant.contract == contract
  }

  /** Controls survive, no contract goes without one, and nothing is left to run again. */
  ghost predicate IsSound(got: seq<Row>) {
    && (forall i | 0 <= i < |got| && IsControl(got[i]) :: got[i].status == Survived)
    && (forall i | 0 <= i < |got| :: IsControlled(got, got[i].mutant.contract))
    && (forall i | 0 <= i < |got| :: Decided(got[i]))
  }

  lemma {:induction false} CountsOfNoRepeats<T>(s: seq<T>, x: T)
    requires NoRepeats(s)
    ensures multiset(s)[x] == if x in s then 1 else 0
  {
    if s != [] {
      CountsOfNoRepeats(s[..|s| - 1], x);
      assert s == s[..|s| - 1] + [s[|s| - 1]];
    }
  }

  lemma OnceEachNoRepeats<T>(s: seq<T>)
    requires forall x | x in s :: multiset(s)[x] <= 1
    ensures NoRepeats(s)
  {
    forall i, j | 0 <= i < j < |s| ensures s[i] != s[j] {
      assert s == s[..j] + [s[j]] + s[j + 1..];
      assert multiset(s)[s[j]] <= 1;
      assert s[j] !in multiset(s[..j]);
      assert s[i] in s[..j] by { assert s[..j][i] == s[i]; }
    }
  }

  ghost predicate NoneTwice(want: multiset<MutantKey>, seen: multiset<MutantKey>) {
    forall k: MutantKey :: k in want ==> seen[k] <= 1
  }

  /** What the two counters say together. */
  lemma NothingMissingNothingTwice(picked: seq<Mutant>, got: seq<Row>)
    ensures var want, seen := multiset(Keys(picked)), multiset(RowKeys(got));
      IsComplete(picked, got) <==> want <= seen && NoneTwice(want, seen)
  {
    var keys := Keys(picked);
    var want, seen := multiset(keys), multiset(RowKeys(got));
    if IsComplete(picked, got) {
      forall k: MutantKey ensures want[k] <= seen[k] && (k in want ==> seen[k] <= 1) { CountsOfNoRepeats(keys, k); }
    }
    if want <= seen && NoneTwice(want, seen) {
      forall k | k in keys ensures want[k] <= 1 { assert k in want; }
      OnceEachNoRepeats(keys);
      forall k | k in keys ensures seen[k] == 1 { assert k in want; }
    }
  }

  lemma NothingLeftOut<T>(want: multiset<T>, seen: multiset<T>)
    ensures |want - seen| == 0 <==> want <= seen
  {
    if |want - seen| == 0 {
      assert want - seen == multiset{};
      forall x | x in want ensures want[x] <= seen[x] { assert (want - seen)[x] == 0; }
    }
    if want <= seen { assert want - seen == multiset{}; }
  }

  /** How many extra results the picked mutants have. */
  method CountTwice(want: multiset<MutantKey>, rowKeys: seq<MutantKey>) returns (twice: nat)
    ensures twice == 0 <==> NoneTwice(want, multiset(rowKeys))
  {
    var seen, items := multiset(rowKeys), Distinct(rowKeys);
    twice := 0;
    for i := 0 to |items|
      invariant twice == 0 <==> forall j | 0 <= j < i :: !(seen[items[j]] > 1 && items[j] in want)
    {
      var n := seen[items[i]];
      if n > 1 && items[i] in want { twice := twice + (n - 1); }
    }
    if twice == 0 {
      forall k: MutantKey | k in want && k in rowKeys ensures seen[k] <= 1 {
        assert k in Elements(items);
        var j :| 0 <= j < |items| && items[j] == k;
      }
    } else {
      var j :| 0 <= j < |items| && seen[items[j]] > 1 && items[j] in want;
    }
  }

  method CheckControls(got: seq<Row>) returns (fine: bool, controlled: set<Text>)
    ensures fine <==> forall i | 0 <= i < |got| && IsControl(got[i]) :: got[i].status == Survived
    ensures forall c :: c in controlled <==> IsControlled(got, c)
  {
    fine, controlled := true, {};
    for i := 0 to |got|
      invariant fine <==> forall j | 0 <= j < i && IsControl(got[j]) :: got[j].status == Survived
      invariant forall c :: c in controlled <==> exists j ::
        0 <= j < i && IsControl(got[j]) && got[j].mutant.contract == c
    {
      if IsControl(got[i]) {
        if got[i].status != Survived { fine := false; }
        controlled := controlled + {got[i].mutant.contract};
      }
    }
  }

  /** The exit code, from the counters and the flag. */
  method Summary(picked: seq<Mutant>, got: seq<Row>) returns (code: nat)
    ensures code == if IsComplete(picked, got) && IsSound(got) then 0 else 1
  {
    hide IsComplete, IsControlled, IsControl, NoneTwice;
    var want := multiset(Keys(picked));
    var seen := multiset(RowKeys(got));
    var missing := |want - seen|;
    var twice := CountTwice(want, RowKeys(got));
    NothingLeftOut(want, seen);
    NothingMissingNothingTwice(picked, got);
    var ok := true;
    if missing != 0 || twice != 0 { ok := false; }
    var fine, controlled := CheckControls(got);
    if !fine { ok := false; }
    ghost var before := ok;
    var again := 0;
    for i := 0 to |got|
      invariant again >= 0 && (again == 0 <==> forall j | 0 <= j < i :: Decided(got[j]))
      invariant ok <==> before && forall j | 0 <= j < i :: got[j].mutant.contract in controlled
    {
      if got[i].mutant.contract !in controlled { ok := false; }
      DecidedOrAgain(got[i]);
      if IsToRunAgain(got[i]) { again := again + 1; }
    }
    if again != 0 { ok := false; }
    code := if ok then 0 else 1;
  }

  /** A campaign whose last launch ran to its end is complete: the summary can only fail it for its outcomes. */
  lemma FinishedCampaignIsComplete(launches: seq<seq<Shard>>, picked: seq<Mutant>)
    requires launches != [] && NoRepeats(Keys(picked)) && forall i | 0 <= i < |launches| :: Shares(launches[i], picked)
    requires !Stopped(ResultsOf(launches[..|launches| - 1]), launches[|launches| - 1])
    ensures IsComplete(picked, ResultsOf(launches))
  {
    hide Stopped, Shares, ResultsOf;
    EachMutantOnce(launches, picked);
    var keys, rows := Keys(picked), RowKeys(ResultsOf(launches));
    forall k | k in keys ensures multiset(rows)[k] == 1 {
      assert k in Elements(keys);
      assert k in Elements(rows);
      CountsOfNoRepeats(rows, k);
    }
  }

  // ---- The triage ----

  predicate Counts(r: Row) { !IsControl(r) && Decided(r) }

  /** The last row that decides this id. */
  function LastDecided(got: seq<Row>, id: MutantKey -> Text, name: Text): Option<Row> {
    if got == [] then None
    else
      var r := got[|got| - 1];
      if Counts(r) && id(Key(r.mutant)) == name then Some(r) else LastDecided(got[..|got| - 1], id, name)
  }

  ghost predicate IsAlive(got: seq<Row>, id: MutantKey -> Text, name: Text) {
    LastDecided(got, id, name).Some? && LastDecided(got, id, name).value.status == Survived
  }

  ghost predicate IsDecided(got: seq<Row>, id: MutantKey -> Text, name: Text) {
    exists r :: r in got && Counts(r) && id(Key(r.mutant)) == name
  }

  lemma {:induction false} DecidedHasLast(got: seq<Row>, id: MutantKey -> Text, name: Text)
    ensures LastDecided(got, id, name).Some? <==> IsDecided(got, id, name)
  {
    hide Counts;
    if got != [] {
      DecidedHasLast(got[..|got| - 1], id, name);
      assert got == got[..|got| - 1] + [got[|got| - 1]];
    }
  }

  /** The dictionary of decided mutants: a later row replaces an earlier one of the same id. */
  method Decide(got: seq<Row>, id: MutantKey -> Text) returns (decided: map<Text, Row>)
    ensures forall name :: LastDecided(got, id, name) == if name in decided then Some(decided[name]) else None
  {
    hide Counts;
    decided := map[];
    for i := 0 to |got|
      invariant forall name :: LastDecided(got[..i], id, name) == if name in decided then Some(decided[name]) else None
    {
      assert got[..i + 1][..i] == got[..i];
      if Counts(got[i]) { decided := decided[id(Key(got[i].mutant)) := got[i]]; }
    }
    assert got[..|got|] == got;
  }

  /** The survivors among the decided. */
  method Survivors(got: seq<Row>, id: MutantKey -> Text) returns (decided: set<Text>, alive: set<Text>)
    ensures forall name :: name in decided <==> IsDecided(got, id, name)
    ensures forall name :: name in alive <==> IsAlive(got, id, name)
  {
    hide IsDecided, LastDecided;
    var rows := Decide(got, id);
    forall name ensures name in rows <==> IsDecided(got, id, name) { DecidedHasLast(got, id, name); }
    decided := rows.Keys;
    alive := set name | name in rows && rows[name].status == Survived;
  }

  function Wanted(picked: seq<Mutant>, id: MutantKey -> Text): set<Text> {
    set i | 0 <= i < |picked| && picked[i].mutator != CONTROL :: id(Key(picked[i]))
  }

  ghost predicate IsTriaged(picked: seq<Mutant>, got: seq<Row>, listed: set<Text>, id: MutantKey -> Text) {
    && (forall name :: name in listed <==> IsAlive(got, id, name))
    && (forall name | name in Wanted(picked, id) :: IsDecided(got, id, name))
  }

  /**
   The exit code: zero exactly when the listed mutants are the survivors and every picked mutant that
   is not a control is decided.
   */
  method Triage(picked: seq<Mutant>, got: seq<Row>, listed: set<Text>, id: MutantKey -> Text) returns (code: nat)
    ensures code == if IsTriaged(picked, got, listed, id) then 0 else 1
  {
    hide IsDecided, IsAlive, Wanted;
    var want := Wanted(picked, id);
    var decided, alive := Survivors(got, id);
    var ok := true;
    if alive - listed != {} { ok := false; }
    if listed - alive != {} { ok := false; }
    if |want - decided| != 0 { ok := false; }
    NoneLeft(want, decided);
    NoneLeft(alive, listed);
    NoneLeft(listed, alive);
    assert |want - decided| == 0 <==> want - decided == {};
    code := if ok then 0 else 1;
  }

  lemma NoneLeft<T>(a: set<T>, b: set<T>)
    ensures a - b == {} <==> a <= b
  {
    forall x | a - b == {} && x in a ensures x in b { assert x !in a - b; }
  }

  lemma OnlyIndex<T>(s: seq<T>, i: nat, j: nat)
    requires i < |s| && j < |s| && s[i] == s[j] && multiset(s)[s[i]] == 1
    ensures i == j
  {
    var before, after := s[..i], s[i + 1..];
    assert forall k | 0 <= k < i :: s[k] == before[k];
    assert forall k | i < k < |s| :: s[k] == after[k - i - 1];
    assert s == before + [s[i]] + after;
    assert s[i] !in multiset(before) && s[i] !in multiset(after);
  }

  /** The last result that decides this id: no later one that counts has it. */
  predicate IsLastOfItsId(got: seq<Row>, id: MutantKey -> Text, name: Text, j: int) {
    && 0 <= j < |got| && Counts(got[j]) && id(Key(got[j].mutant)) == name
    && forall k | j < k < |got| && Counts(got[k]) :: id(Key(got[k].mutant)) != name
  }

  /** What the dictionary holds for an id, by place: its last result that counts, and nothing without one. */
  lemma {:induction false} LastDecidedIsLast(got: seq<Row>, id: MutantKey -> Text, name: Text)
    ensures forall j :: IsLastOfItsId(got, id, name, j) ==> LastDecided(got, id, name) == Some(got[j])
    ensures LastDecided(got, id, name).Some? <==> exists j :: IsLastOfItsId(got, id, name, j)
  {
    hide Counts;
    if got != [] {
      var front, n := got[..|got| - 1], |got| - 1;
      if Counts(got[n]) && id(Key(got[n].mutant)) == name {
        assert IsLastOfItsId(got, id, name, n);
      } else {
        LastDecidedIsLast(front, id, name);
        forall j ensures IsLastOfItsId(got, id, name, j) <==> IsLastOfItsId(front, id, name, j) {
          assert forall k | 0 <= k < n :: front[k] == got[k];
        }
      }
    }
  }

  /** The listing is right about a result: it names the mutant exactly when the mutant survived. */
  predicate ListedRightly(r: Row, listed: set<Text>, id: MutantKey -> Text) {
    r.status == Survived <==> id(Key(r.mutant)) in listed
  }

  /**
   When the triage passes, the listing is right about a result of a picked mutant exactly when that result
   and the last decided result of the same id agree on having survived.
   */
  lemma ListedRightlyIff(picked: seq<Mutant>, got: seq<Row>, listed: set<Text>, id: MutantKey -> Text, m: Mutant,
      i: nat) returns (j: nat)
    requires IsTriaged(picked, got, listed, id)
    requires m in picked && m.mutator != CONTROL && i < |got| && Key(got[i].mutant) == Key(m)
    ensures IsLastOfItsId(got, id, id(Key(m)), j)
    ensures ListedRightly(got[i], listed, id) <==> (got[i].status == Survived <==> got[j].status == Survived)
  {
    hide Counts;
    var name := id(Key(m));
    var p :| 0 <= p < |picked| && picked[p] == m;
    assert IsDecided(got, id, name) by { assert id(Key(picked[p])) in Wanted(picked, id); }
    DecidedHasLast(got, id, name);
    LastDecidedIsLast(got, id, name);
    j :| IsLastOfItsId(got, id, name, j);
    assert name in listed <==> IsAlive(got, id, name);
  }

  /** A result of a picked mutant that is not a control. */
  ghost predicate IsPicked(picked: seq<Mutant>, r: Row) { !IsControl(r) && Key(r.mutant) in Keys(picked) }

  /**
   The listing is right about every picked mutant exactly when no two results of one id, the later of them
   the last that counts, disagree on having survived.
   */
  lemma TriageIsRightIff(picked: seq<Mutant>, got: seq<Row>, listed: set<Text>, id: MutantKey -> Text)
    requires IsTriaged(picked, got, listed, id)
    ensures (forall i | 0 <= i < |got| && IsPicked(picked, got[i]) :: ListedRightly(got[i], listed, id))
      <==> forall i, j | 0 <= i < |got| && IsPicked(picked, got[i])
                         && IsLastOfItsId(got, id, id(Key(got[i].mutant)), j) ::
             got[i].status == Survived <==> got[j].status == Survived
  {
    hide Counts, IsLastOfItsId, ListedRightly, IsTriaged;
    forall i | 0 <= i < |got| && IsPicked(picked, got[i])
      ensures exists j ::
        && 0 <= j < |got| && IsLastOfItsId(got, id, id(Key(got[i].mutant)), j)
        && (ListedRightly(got[i], listed, id) <==> (got[i].status == Survived <==> got[j].status == Survived))
    {
      var p :| 0 <= p < |picked| && Keys(picked)[p] == Key(got[i].mutant);
      var j := ListedRightlyIff(picked, got, listed, id, picked[p], i);
      OneLast(got, id, id(Key(got[i].mutant)), j, j);
    }
    forall name, j, k | IsLastOfItsId(got, id, name, j) && IsLastOfItsId(got, id, name, k) ensures j == k {
      OneLast(got, id, name, j, k);
    }
  }

  lemma OneLast(got: seq<Row>, id: MutantKey -> Text, name: Text, j: int, k: int)
    requires IsLastOfItsId(got, id, name, j) && IsLastOfItsId(got, id, name, k)
    ensures 0 <= j == k < |got|
  {
    hide Counts;
  }

  /**
   So when summary and triage both pass and no other result has its id, a picked mutant has one result, it
   is decided, and it survived exactly when the listing names it.
   */
  lemma EverySurvivorIsListed(picked: seq<Mutant>, got: seq<Row>, listed: set<Text>, id: MutantKey -> Text,
      m: Mutant, i: nat)
    requires forall j | 0 <= j < |got| && !IsControl(got[j]) && id(Key(got[j].mutant)) == id(Key(m)) ::
      Key(got[j].mutant) == Key(m)
    requires IsComplete(picked, got) && IsSound(got) && IsTriaged(picked, got, listed, id)
    requires m in picked && m.mutator != CONTROL && i < |got| && Key(got[i].mutant) == Key(m)
    ensures Decided(got[i]) && ListedRightly(got[i], listed, id)
  {
    var j := ListedRightlyIff(picked, got, listed, id, m, i);
    var p :| 0 <= p < |picked| && picked[p] == m;
    var keys, rows := Keys(picked), RowKeys(got);
    assert keys[p] == Key(m) && rows[i] == Key(m);
    assert Key(got[j].mutant) == Key(m) && rows[j] == Key(m);
    OnlyIndex(rows, i, j);
  }

  /**
   Mutant ids are truncated hashes. When a killed mutant after it has the same id, a survivor passes both
   the summary and the triage without being listed.
   */
  lemma CollisionHidesASurvivor(control: Mutant, a: Mutant, b: Mutant, id: MutantKey -> Text)
    requires control.mutator == CONTROL && a.mutator != CONTROL && b.mutator != CONTROL
    requires control.contract == a.contract == b.contract && Key(a) != Key(b) && id(Key(a)) == id(Key(b))
    ensures var picked := [control, a, b]; var got := [Row(control, Survived), Row(a, Survived), Row(b, Killed)];
      IsComplete(picked, got) && IsSound(got) && IsTriaged(picked, got, {}, id) && !ListedRightly(got[1], {}, id)
  {
    var picked, got := [control, a, b], [Row(control, Survived), Row(a, Survived), Row(b, Killed)];
    assert IsComplete(picked, got) by {
      assert RowKeys(got) == Keys(picked) == [Key(control), Key(a), Key(b)];
      ThreeKeys(Key(control), Key(a), Key(b));
    }
    hide IsComplete;
    assert IsSound(got) by { assert IsControl(got[0]); }
    hide IsSound;
    forall name ensures !IsAlive(got, id, name) { CollidingLast(got, id, name); }
    hide IsAlive;
    forall name | name in Wanted(picked, id) ensures IsDecided(got, id, name) { assert got[2] in got; }
  }

  lemma ThreeKeys(x: MutantKey, y: MutantKey, z: MutantKey)
    requires x != y && x != z && y != z
    ensures NoRepeats([x, y, z]) && forall k | k in [x, y, z] :: multiset([x, y, z])[k] == 1
  {
    forall k | k in [x, y, z] ensures multiset([x, y, z])[k] == 1 { CountsOfNoRepeats([x, y, z], k); }
  }

  lemma CollidingLast(got: seq<Row>, id: MutantKey -> Text, name: Text)
    requires |got| == 3 && IsControl(got[0]) && Counts(got[1]) && Counts(got[2]) && got[2].status != Survived
    requires id(Key(got[1].mutant)) == id(Key(got[2].mutant))
    ensures !IsAlive(got, id, name)
  {
    assert got[..2][..1] == [got[0]] && [got[0]][..0] == [];
    assert LastDecided([got[0]], id, name) == None;
    assert LastDecided(got[..2], id, name).Some? ==> name == id(Key(got[1].mutant));
  }
}
