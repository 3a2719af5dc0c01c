/** `DBTestSuite`: a suite-level and a test-level recorder on one handle. */
module TestSuite {
  import opened Wrappers
  import opened ForeignKeys
  import opened History
  import opened Cleaner

  /** The transactions between two tests, those of a test's body, and the
      failures of the statements that clean up after it. */
  datatype Test = Test(between: seq<Batch>, body: seq<Batch>, faults: Faults)

  /** Cleaning what was recorded since `mark`. */
  function PlayCleaning(p: Played, mark: nat, report: bool, faults: Faults): Played
    requires mark <= |p.recorded|
  {
    p.(db := Cleaned(p.db, p.recorded[mark..], report, faults).0)
  }

  function PlayTest(p: Played, t: Test, report: bool): Played {
    var before := PlayBatches(p, t.between);
    BatchesOnlyAppend(before, t.body);
    PlayCleaning(PlayBatches(before, t.body), |before.recorded|, report, t.faults)
  }

  function PlayTests(p: Played, tests: seq<Test>, report: bool): Played {
    if tests == [] then p else PlayTest(PlayTests(p, tests[..|tests| - 1], report), tests[|tests| - 1], report)
  }

  /** A whole suite, up to its last cleaning. */
  function PlaySuite(base: Tables, tests: seq<Test>, after: seq<Batch>, report: bool): Played {
    PlayBatches(PlayTests(Start(base), tests, report), after)
  }

  class DBTestSuite {
    const config: Config
    const db: Gorm
    var cleanSuite: Recorder?
    var cleanTest: Recorder?

    constructor (db: Gorm, config: Config)
      ensures this.db == db && this.config == config && cleanSuite == null && cleanTest == null
    {
      this.db, this.config := db, config;
      cleanSuite, cleanTest := null, null;
    }

    method SetupSuite()
      requires db.Valid()
      modifies this`cleanSuite, db`hooks
      ensures cleanSuite != null && fresh(cleanSuite) && cleanSuite.entities == [] && cleanSuite.config == config
      ensures db.hooks == old(db.hooks) + [cleanSuite] && db.Valid()
    {
      cleanSuite := new Recorder(db, config);
    }

    method SetupTest()
      requires db.Valid()
      modifies this`cleanTest, db`hooks
      ensures cleanTest != null && fresh(cleanTest) && cleanTest.entities == [] && cleanTest.config == config
      ensures db.hooks == old(db.hooks) + [cleanTest] && db.Valid()
    {
      cleanTest := new Recorder(db, config);
    }

    /** assert.NoError(s.CleanTest()), if cleaning is on. */
    method TearDownTest(faults: Faults) returns (noError: bool)
      requires db.Valid() && cleanTest != null && cleanTest.config == config
      modifies db
      ensures db.Valid()
      ensures (db.committed, noError) ==
              if config.cleanTestData then
                var (after, err) := Cleaned(old(db.committed), cleanTest.entities, config.reportErrors, faults);
                (after, err.None?)
              else (old(db.committed), true)
      ensures db.hooks == if config.cleanTestData then WithoutHook(old(db.hooks), cleanTest) else old(db.hooks)
      ensures db.committed == old(db.committed)
              || (config.cleanTestData && Some(db.committed) == DeleteAll(old(db.committed), cleanTest.entities) && DeferredHold(db.committed))
      ensures config.cleanTestData && config.reportErrors ==>
                if noError then Some(db.committed) == DeleteAll(old(db.committed), cleanTest.entities)
                else db.committed == old(db.committed)
      ensures !config.cleanTestData || !config.reportErrors ==> noError
    {
      noError := true;
      if config.cleanTestData {
        var err := cleanTest.Clean(db, null, faults);
        noError := err.None?;
      }
    }

    method TearDownSuite(faults: Faults) returns (noError: bool)
      requires db.Valid() && cleanSuite != null && cleanSuite.config == config
      modifies db
      ensures db.Valid()
      ensures (db.committed, noError) ==
              if config.cleanTestData then
                var (after, err) := Cleaned(old(db.committed), cleanSuite.entities, config.reportErrors, faults);
                (after, err.None?)
              else (old(db.committed), true)
      ensures db.committed == old(db.committed)
              || (config.cleanTestData && Some(db.committed) == DeleteAll(old(db.committed), cleanSuite.entities) && DeferredHold(db.committed))
      ensures config.cleanTestData && NoFaults(faults) ==>
                var result := DeleteAll(old(db.committed), cleanSuite.entities);
                if result.Some? && DeferredHold(result.value) && (config.reportErrors ==> AllHaveKeys(cleanSuite.entities))
                then noError && db.committed == result.value
                else db.committed == old(db.committed) && (config.reportErrors ==> !noError)
    {
      noError := true;
      if config.cleanTestData {
        var err := cleanSuite.Clean(db, null, faults);
        noError := err.None?;
      }
    }

    /** The handle has `suite` registered, and `test` while a test runs; both
        have recorded what the play says. */
    ghost predicate Registered(p: Played, mark: nat, suite: Recorder, test: Recorder?)
      reads this, db, suite, test
    {
      && db.Valid() && db.committed == p.db
      && suite != test
      && db.hooks == (if test == null then [suite] else [suite, test])
      && suite.entities == p.recorded
      && (test != null ==> mark <= |p.recorded| && test.entities == p.recorded[mark..])
    }

    method RunBatches(bs: seq<Batch>, ghost p: Played, ghost mark: nat, suite: Recorder, test: Recorder?)
      requires Registered(p, mark, suite, test)
      modifies db`committed, db`begun, db`finished, suite, test
      ensures Registered(PlayBatches(p, bs), mark, suite, test)
      decreases |bs|
    {
      if bs != [] {
        var n := |bs| - 1;
        RunBatches(bs[..n], p, mark, suite, test);
        assert suite in db.hooks && (test != null ==> test in db.hooks);
        db.RunBatch(bs[n], PlayBatches(p, bs[..n]));
      }
    }

    /** SetupTest, the body, TearDownTest. Without faults, the rows of the body are
        gone afterwards, or nothing has been deleted. */
    method RunTest(t: Test, ghost p: Played, suite: Recorder) returns (noError: bool)
      requires config.cleanTestData && Registered(p, 0, suite, null)
      requires Inv(p) && Integral(p.db)
      modifies this`cleanTest, db, suite
      ensures Registered(PlayTest(p, t, config.reportErrors), 0, suite, null)
      ensures var before := PlayBatches(p, t.between);
              var body := PlayBatches(before, t.body);
              suite.entities == body.recorded && before.recorded <= body.recorded
              && var es := body.recorded[|before.recorded|..];
                 && (NoFaults(t.faults) ==>
                       db.committed == if Cleanable(body.db, es, config.reportErrors) then Survivors(body.db, es) else body.db)
                 && (NoFaults(t.faults) && config.reportErrors ==> (noError <==> Cleanable(body.db, es, true)))
    {
      RunBatches(t.between, p, 0, suite, null);
      ghost var before := PlayBatches(p, t.between);
      SetupTest();
      var test: Recorder := cleanTest;
      RunBatches(t.body, before, |before.recorded|, suite, test);
      ghost var body := PlayBatches(before, t.body);
      noError := TearDownTest(t.faults);
      OnlyTheSuiteHookIsLeft(suite, test);
      BatchesOnlyAppend(before, t.body);
      if NoFaults(t.faults) {
        TestIsCleaned(p, t, config.reportErrors);
        BodyKeepsIntegrity(p, t);
        DeletionSucceedsIff(body.db, test.entities);
        CleanedAllOrNothing(body.db, test.entities, config.reportErrors, t.faults);
      }
    }

    /** testify runs SetupSuite, then for every test SetupTest, the test and
        TearDownTest, then TearDownSuite. */
    method RunSuite(tests: seq<Test>, after: seq<Batch>, last: Faults) returns (noError: bool)
      requires config.cleanTestData
      requires db.Valid() && db.hooks == [] && Integral(db.committed)
      modifies this, db
      ensures var p := PlaySuite(old(db.committed), tests, after, config.reportErrors);
              && (config.reportErrors ==>
                    (noError <==> Cleaned(p.db, p.recorded, true, last).1.None?))
              && db.committed == Cleaned(p.db, p.recorded, config.reportErrors, last).0
      // whatever else the tests do, and even if the cleaning of any test fails
      ensures SuiteRecorded(old(db.committed), tests, after) && NoFaults(last) ==>
                var p := PlaySuite(old(db.committed), tests, after, config.reportErrors);
                && (db.committed == old(db.committed)
                    <==> && p.kept == multiset{}
                         && (p.db == old(db.committed)
                             || (Ordered(p.db, p.recorded) && (config.reportErrors ==> AllHaveKeys(p.recorded)))))
                && (config.reportErrors ==> (noError <==> AllHaveKeys(p.recorded) && Ordered(p.db, p.recorded)))
      ensures SuiteRecorded(old(db.committed), tests, after) && SuiteHasKeys(tests, after)
              && SuiteRecreatesNothing(tests, after) && NoFaults(last) ==>
                db.committed == old(db.committed) && noError
      // tests that clean up after themselves leave nothing to the last cleaning, should it fail
      ensures TidyTests(old(db.committed), tests) && after == [] ==> db.committed == old(db.committed)
    {
      ghost var base := db.committed;
      SetupSuite();
      var suite: Recorder := cleanSuite;
      ghost var p := Start(base);
      for i := 0 to |tests|
        invariant cleanSuite == suite && fresh(suite) && suite.config == config
        invariant p == PlayTests(Start(base), tests[..i], config.reportErrors)
        invariant Registered(p, 0, suite, null)
      {
        assert tests[..i + 1][..i] == tests[..i];
        TestsKeepInv(base, tests[..i], config.reportErrors);
        var testNoError := RunTest(tests[i], p, suite);
        p := PlayTest(p, tests[i], config.reportErrors);
      }
      assert tests[..|tests|] == tests;
      RunBatches(after, p, 0, suite, null);
      noError := TearDownSuite(last);
      if TidyTests(base, tests) && after == [] {
        TidyTestsLeaveNothing(base, tests, config.reportErrors, last);
      }
      if SuiteRecorded(base, tests, after) && NoFaults(last) {
        SuiteRestores(base, tests, after, config.reportErrors, last);
      }
    }
  }

  lemma OnlyTheSuiteHookIsLeft(suite: Recorder, test: Recorder)
    requires suite != test
    ensures WithoutHook([suite, test], test) == [suite]
  {
    assert [suite, test][1..] == [test];
    assert [test][1..] == [];
    assert WithoutHook([test], test) == WithoutHook([test][1..], test) == [];
  }

  /** A cleaning keeps what `History` needs to know, whichever of the rows
      recorded so far it is for. */
  lemma CleaningKeepsInv(p: Played, mark: nat, report: bool, faults: Faults)
    requires Inv(p) && Integral(p.db) && mark <= |p.recorded|
    ensures Inv(PlayCleaning(p, mark, report, faults)) && Integral(PlayCleaning(p, mark, report, faults).db)
  {
    var es := p.recorded[mark..];
    CleanedAllOrNothing(p.db, es, report, faults);
    if Deletes(p.db, es) {
      DeletingKeepsInv(p, es, DeleteAll(p.db, es).value);
    }
  }

  lemma DeletingKeepsInv(p: Played, es: seq<Entity>, d: Tables)
    requires Inv(p) && forall e :: e in es ==> e in p.recorded
    requires DeleteAll(p.db, es) == Some(d) && DeferredHold(d)
    ensures Inv(p.(db := d)) && Integral(d)
  {
    ImmediateRefsSurvive(p.db, es);
    DeletingLeavesSurvivors(p.db, es);
    var ks := KeyedOf(p.recorded);
    assert KeyedOf(es) <= ks;
    assert d.rows - ks == p.db.rows - ks;
    if !p.recreated {
      OrderedSubset(Own(p), Own(p.(db := d)), p.recorded);
    }
  }

  lemma CleaningKeepsBase(base: Tables, p: Played, mark: nat, report: bool, faults: Faults)
    requires OnlyRecorded(base, p) && mark <= |p.recorded|
    ensures OnlyRecorded(base, PlayCleaning(p, mark, report, faults))
  {
    var es := p.recorded[mark..];
    CleanedAllOrNothing(p.db, es, report, faults);
    DeletingLeavesSurvivors(p.db, es);
  }

  /** No transaction of the suite inserts a row behind the recorder's back, or
      deletes an initial one. */
  ghost predicate SuiteRecorded(base: Tables, tests: seq<Test>, after: seq<Batch>) {
    && AllRecorded(base, after)
    && forall t :: t in tests ==> AllRecorded(base, t.between) && AllRecorded(base, t.body)
  }

  ghost predicate SuiteHasKeys(tests: seq<Test>, after: seq<Batch>) {
    RecordedHaveKeys(after) && forall t :: t in tests ==> RecordedHaveKeys(t.between) && RecordedHaveKeys(t.body)
  }

  ghost predicate SuiteRecreatesNothing(tests: seq<Test>, after: seq<Batch>) {
    NoneRecreates(after) && forall t :: t in tests ==> NoneRecreates(t.between) && NoneRecreates(t.body)
  }

  lemma TestKeepsInv(p: Played, t: Test, report: bool)
    requires Inv(p) && Integral(p.db)
    ensures Inv(PlayTest(p, t, report)) && Integral(PlayTest(p, t, report).db)
  {
    var before := PlayBatches(p, t.between);
    BatchesKeepInv(p, t.between);
    BatchesKeepInv(before, t.body);
    BatchesOnlyAppend(before, t.body);
    CleaningKeepsInv(PlayBatches(before, t.body), |before.recorded|, report, t.faults);
  }

  lemma TestKeepsBase(base: Tables, p: Played, t: Test, report: bool)
    requires OnlyRecorded(base, p) && AllRecorded(base, t.between) && AllRecorded(base, t.body)
    ensures OnlyRecorded(base, PlayTest(p, t, report))
  {
    var before := PlayBatches(p, t.between);
    BatchesOnlyRecorded(base, p, t.between);
    BatchesOnlyRecorded(base, before, t.body);
    BatchesOnlyAppend(before, t.body);
    CleaningKeepsBase(base, PlayBatches(before, t.body), |before.recorded|, report, t.faults);
  }

  lemma {:induction false} TestsKeepInv(base: Tables, tests: seq<Test>, report: bool)
    requires Integral(base)
    ensures Inv(PlayTests(Start(base), tests, report)) && Integral(PlayTests(Start(base), tests, report).db)
    decreases |tests|
  {
    if tests == [] {
      StartHolds(base);
    } else {
      var init := tests[..|tests| - 1];
      TestsKeepInv(base, init, report);
      TestKeepsInv(PlayTests(Start(base), init, report), tests[|tests| - 1], report);
    }
  }

  lemma {:induction false} TestsKeepBase(base: Tables, tests: seq<Test>, report: bool)
    requires SuiteRecorded(base, tests, [])
    ensures OnlyRecorded(base, PlayTests(Start(base), tests, report))
    decreases |tests|
  {
    if tests != [] {
      var init, t := tests[..|tests| - 1], tests[|tests| - 1];
      assert t in tests && forall u :: u in init ==> u in tests;
      TestsKeepBase(base, init, report);
      TestKeepsBase(base, PlayTests(Start(base), init, report), t, report);
    }
  }

  lemma {:induction false} TestsWithKeys(base: Tables, tests: seq<Test>, report: bool)
    requires SuiteHasKeys(tests, [])
    ensures PlayTests(Start(base), tests, report).kept == multiset{}
    ensures AllHaveKeys(PlayTests(Start(base), tests, report).recorded)
    decreases |tests|
  {
    if tests != [] {
      var init, t := tests[..|tests| - 1], tests[|tests| - 1];
      assert t in tests && forall u :: u in init ==> u in tests;
      TestsWithKeys(base, init, report);
      var p := PlayTests(Start(base), init, report);
      BatchesWithKeys(p, t.between);
      BatchesWithKeys(PlayBatches(p, t.between), t.body);
    }
  }

  lemma {:induction false} TestsKeepFlag(base: Tables, tests: seq<Test>, report: bool)
    requires SuiteRecreatesNothing(tests, [])
    ensures !PlayTests(Start(base), tests, report).recreated
    decreases |tests|
  {
    if tests != [] {
      var init, t := tests[..|tests| - 1], tests[|tests| - 1];
      assert t in tests && forall u :: u in init ==> u in tests;
      TestsKeepFlag(base, init, report);
      var p := PlayTests(Start(base), init, report);
      BatchesKeepFlag(p, t.between);
      BatchesKeepFlag(PlayBatches(p, t.between), t.body);
    }
  }

  lemma SuiteKeepsInv(base: Tables, tests: seq<Test>, after: seq<Batch>, report: bool)
    requires Integral(base)
    ensures Inv(PlaySuite(base, tests, after, report)) && Integral(PlaySuite(base, tests, after, report).db)
  {
    TestsKeepInv(base, tests, report);
    BatchesKeepInv(PlayTests(Start(base), tests, report), after);
  }

  lemma SuiteKeepsBase(base: Tables, tests: seq<Test>, after: seq<Batch>, report: bool)
    requires SuiteRecorded(base, tests, after)
    ensures OnlyRecorded(base, PlaySuite(base, tests, after, report))
  {
    TestsKeepBase(base, tests, report);
    BatchesOnlyRecorded(base, PlayTests(Start(base), tests, report), after);
  }

  /** Whatever a suite inserts and deletes, and whatever happens to the cleanings
      of its tests: its last cleaning leaves what everything but the recorded
      inserts would have left, exactly if
      - it can delete what was recorded, no unrecorded row has a recorded key, and
        no recorded row without a primary key is there, or
      - it cannot, and nothing else is there anyway. */
  lemma SuiteLeavesUnrecordedRows(base: Tables, tests: seq<Test>, after: seq<Batch>, report: bool, last: Faults)
    requires Integral(base) && NoFaults(last)
    ensures var p := PlaySuite(base, tests, after, report);
            Cleaned(p.db, p.recorded, report, last).0 == p.outside
            <==> if CanClean(p, report) then Apart(p) && p.kept == multiset{} else p.db == p.outside
  {
    SuiteKeepsInv(base, tests, after, report);
    CleaningInvState(PlaySuite(base, tests, after, report), report, last);
  }

  /** The recorded rows are in order, nothing that survives names them, and there
      is no error to report. */
  ghost predicate CanClean(p: Played, report: bool) {
    Ordered(p.db, p.recorded) && Integral(Survivors(p.db, p.recorded)) && (report ==> AllHaveKeys(p.recorded))
  }

  lemma CleaningInvState(p: Played, report: bool, last: Faults)
    requires Inv(p) && Integral(p.db) && NoFaults(last)
    ensures var (end, err) := Cleaned(p.db, p.recorded, report, last);
            && (end == p.outside <==> if CanClean(p, report) then Apart(p) && p.kept == multiset{} else p.db == p.outside)
            && (report ==> (err.None? <==> CanClean(p, report)))
            && (CanClean(p, report) ==> err.None?)
  {
    DeletionSucceedsIff(p.db, p.recorded);
    CleanedAllOrNothing(p.db, p.recorded, report, last);
    DeletingLeavesSurvivors(p.db, p.recorded);
    SurvivorsAreOutside(p);
  }

  /** If all inserts were recorded, what is left is the initial database, exactly
      under a condition on what the suite has done. It holds in any case if all
      rows have keys and no transaction creates a row again that it has deleted. */
  lemma SuiteRestores(base: Tables, tests: seq<Test>, after: seq<Batch>, report: bool, last: Faults)
    requires Integral(base) && SuiteRecorded(base, tests, after) && NoFaults(last)
    ensures var p := PlaySuite(base, tests, after, report);
            var (end, err) := Cleaned(p.db, p.recorded, report, last);
            && (end == base <==>
                  && p.kept == multiset{}
                  && (p.db == base || (Ordered(p.db, p.recorded) && (report ==> AllHaveKeys(p.recorded)))))
            && (report ==> (err.None? <==> AllHaveKeys(p.recorded) && Ordered(p.db, p.recorded)))
            && (SuiteHasKeys(tests, after) && SuiteRecreatesNothing(tests, after) ==> end == base && err.None?)
  {
    var p := PlaySuite(base, tests, after, report);
    SuiteKeepsInv(base, tests, after, report);
    SuiteKeepsBase(base, tests, after, report);
    CleaningInvState(p, report, last);
    RestoresState(base, p, report);
    if SuiteHasKeys(tests, after) {
      TestsWithKeys(base, tests, report);
      BatchesWithKeys(PlayTests(Start(base), tests, report), after);
    }
    if SuiteRecreatesNothing(tests, after) {
      TestsKeepFlag(base, tests, report);
      BatchesKeepFlag(PlayTests(Start(base), tests, report), after);
      OrderedUnlessRecreated(p);
    }
  }

  lemma RestoresState(base: Tables, p: Played, report: bool)
    requires Inv(p) && Integral(base) && OnlyRecorded(base, p)
    ensures Apart(p)
    ensures p.kept == multiset{} ==>
              (CanClean(p, report) <==> Ordered(p.db, p.recorded) && (report ==> AllHaveKeys(p.recorded)))
    ensures p.db == base ==> p.kept == multiset{}
    ensures AllHaveKeys(p.recorded) ==> p.kept == multiset{}
  {
    SurvivorsAreOutside(p);
    if p.kept != multiset{} {
      KeptWasRecorded(p);
      assert |p.db.loose| == |base.loose| + |p.kept|;
    }
  }

  lemma BodyKeepsIntegrity(p: Played, t: Test)
    requires Inv(p) && Integral(p.db)
    ensures Integral(PlayBatches(PlayBatches(p, t.between), t.body).db)
  {
    BatchesKeepInv(p, t.between);
    BatchesKeepInv(PlayBatches(p, t.between), t.body);
  }

  /** What one test has recorded: those rows, and only those, are gone after it,
      exactly if they are in order, no other row names them, and there is no error
      to report; otherwise, and only then, nothing has changed. */
  lemma TestIsCleaned(p: Played, t: Test, report: bool)
    requires Inv(p) && Integral(p.db) && NoFaults(t.faults)
    ensures var before := PlayBatches(p, t.between);
            var body := PlayBatches(before, t.body);
            before.recorded <= body.recorded
            && var es := body.recorded[|before.recorded|..];
               PlayTest(p, t, report)
               == body.(db := if Cleanable(body.db, es, report) then Survivors(body.db, es) else body.db)
  {
    var before := PlayBatches(p, t.between);
    var body := PlayBatches(before, t.body);
    BatchesKeepInv(p, t.between);
    BatchesKeepInv(before, t.body);
    BatchesOnlyAppend(before, t.body);
    var es := body.recorded[|before.recorded|..];
    DeletionSucceedsIff(body.db, es);
    CleanedAllOrNothing(body.db, es, report, t.faults);
    DeletingLeavesSurvivors(body.db, es);
  }

  ghost predicate Cleanable(db: Tables, es: seq<Entity>, report: bool) {
    Ordered(db, es) && Integral(Survivors(db, es)) && (report ==> AllHaveKeys(es))
  }

  /** The test inserts recorded rows with keys only, deletes none that was there
      before its body, creates none again, and its cleaning meets no fault. */
  ghost predicate Tidy(before: Tables, t: Test) {
    && AllRecorded(before, t.body) && RecordedHaveKeys(t.body) && NoneRecreates(t.body) && NoFaults(t.faults)
  }

  /** Then it leaves the database as it was before its body. */
  lemma TestRestores(p: Played, t: Test, report: bool)
    requires Inv(p) && Integral(p.db) && Tidy(PlayBatches(p, t.between).db, t)
    ensures PlayTest(p, t, report).db == PlayBatches(p, t.between).db
  {
    var before := PlayBatches(p, t.between);
    var body := PlayBatches(before, t.body);
    BatchesKeepInv(p, t.between);
    BatchesFromHere(Start(before.db), before, t.body);
    var alone := PlayBatches(Start(before.db), t.body);
    var es := body.recorded[|before.recorded|..];
    assert alone.recorded[0..] == alone.recorded;
    CleaningRestores(before.db, t.body);
    BatchesWithKeys(Start(before.db), t.body);
    CleanedAllOrNothing(body.db, es, report, t.faults);
  }

  ghost predicate TidyTests(base: Tables, tests: seq<Test>) {
    forall t :: t in tests ==> t.between == [] && Tidy(base, t)
  }

  /** If all tests are like that, and nothing happens in between, each of them
      starts from the initial database. */
  lemma {:induction false} EveryTestStartsFresh(base: Tables, tests: seq<Test>, report: bool, k: nat)
    requires Integral(base) && TidyTests(base, tests) && k <= |tests|
    ensures PlayTests(Start(base), tests[..k], report).db == base
    decreases k
  {
    if k > 0 {
      assert tests[..k][..k - 1] == tests[..k - 1] && tests[k - 1] in tests;
      EveryTestStartsFresh(base, tests, report, k - 1);
      TestsKeepInv(base, tests[..k - 1], report);
      var p := PlayTests(Start(base), tests[..k - 1], report);
      assert PlayBatches(p, []) == p;
      TestRestores(p, tests[k - 1], report);
    }
  }

  /** So even if the last cleaning fails, nothing is left behind. */
  lemma TidyTestsLeaveNothing(base: Tables, tests: seq<Test>, report: bool, last: Faults)
    requires Integral(base) && TidyTests(base, tests)
    ensures var p := PlaySuite(base, tests, [], report);
            p.db == base && Cleaned(p.db, p.recorded, report, last).0 == base
  {
    EveryTestStartsFresh(base, tests, report, |tests|);
    assert tests[..|tests|] == tests;
    var p := PlaySuite(base, tests, [], report);
    assert p == PlayTests(Start(base), tests, report);
    assert SuiteRecorded(base, tests, []);
    SuiteKeepsBase(base, tests, [], report);
    CleanedAllOrNothing(p.db, p.recorded, report, last);
    DeletingLeavesSurvivors(p.db, p.recorded);
    assert Survivors(base, p.recorded).rows == base.rows;
  }

  /** A committed row without a primary key outlives every cleaning, with or
      without faults, unless a test deletes it. */
  lemma KeptRowsStay(base: Tables, tests: seq<Test>, after: seq<Batch>, report: bool, last: Faults)
    requires Integral(base)
    ensures var p := PlaySuite(base, tests, after, report);
            Cleaned(p.db, p.recorded, report, last).0.loose == p.outside.loose + p.kept
  {
    SuiteKeepsInv(base, tests, after, report);
    var p := PlaySuite(base, tests, after, report);
    CleanedAllOrNothing(p.db, p.recorded, report, last);
    DeletingLeavesSurvivors(p.db, p.recorded);
  }

  /** A test's body that creates a row and one without a primary key. */
  function ExampleBody(e: Entity, log: Row): Batch {
    Batch([Insertion(Row(e, {}), true), Insertion(log, true)], true)
  }

  lemma ExampleBodyPlayed(base: Tables, e: Entity, log: Row)
    requires HasKeys(e) && e !in base.rows && !HasKeys(log.id) && log.refs == {} && Integral(base)
    ensures PlayBatches(Start(base), [ExampleBody(e, log)])
            == Played(Tables(base.rows[e := {}], base.loose + multiset{log}), [e, log.id], base, multiset{log}, false)
  {
    var xs := ExampleBody(e, log).statements;
    var one := Played(base.(rows := base.rows[e := {}]), [e], base, multiset{}, false);
    assert xs[..1] == [xs[0]] && xs[..1][..0] == [];
    assert PlayStatements(Start(base), []) == Work(Start(base), false);
    assert PlayStatements(Start(base), xs[..1]) == Work(one, false);
    assert [e] + [log.id] == [e, log.id];
    OneBatch(Start(base), ExampleBody(e, log));
  }

  lemma OneBatch(p: Played, b: Batch)
    ensures PlayBatches(p, [b]) == PlayBatch(p, b)
  {
    assert [b][..0] == [];
  }

  lemma ExampleCleaned(db: Tables, e: Entity, log: Row, report: bool, faults: Faults)
    requires HasKeys(e) && !HasKeys(log.id) && !Blocked(db, e) && DeferredHold(Without(db, {e})) && NoFaults(faults)
    ensures Cleaned(db, [e, log.id], report, faults)
            == if report then (db, Some(NoPrimaryKeys(log.id.table))) else (Without(db, {e}), None)
  {
    assert e !in db.rows ==> Without(db, {e}).rows == db.rows;
    var es := [e, log.id];
    assert DeleteLoop(Without(db, {e}), false, es, 0, report, faults) == Finished(Without(db, {e}), false);
    assert !report ==> DeleteLoop(db, false, es, 1, report, faults) == Finished(Without(db, {e}), false);
  }

  /** One such row, created in the only test: it is there at the end, and so,
      with reporting on, is the row created before it. */
  lemma KeylessRowExample(base: Tables, e: Entity, log: Row, report: bool, faults: Faults, last: Faults)
    requires HasKeys(e) && e !in base.rows && !HasKeys(log.id) && log.refs == {}
    requires Integral(base) && NoFaults(faults) && NoFaults(last)
    ensures var p := PlaySuite(base, [Test([], [ExampleBody(e, log)], faults)], [], report);
            var (end, err) := Cleaned(p.db, p.recorded, report, last);
            && end == Tables(if report then base.rows[e := {}] else base.rows, base.loose + multiset{log})
            && err.Some? == report
  {
    ExampleBodyPlayed(base, e, log);
    var t := Test([], [ExampleBody(e, log)], faults);
    var p := PlayBatches(Start(base), t.body);
    assert Without(p.db, {e}).rows == base.rows;
    assert Without(Without(p.db, {e}), {e}).rows == base.rows;
    ExampleCleaned(p.db, e, log, report, faults);
    ExampleCleaned(p.db, e, log, report, last);
    ExampleCleaned(Without(p.db, {e}), e, log, report, last);
    OneTest(base, t, report);
    assert p.recorded[0..] == p.recorded;
  }

  lemma OneTest(base: Tables, t: Test, report: bool)
    requires t.between == []
    ensures PlaySuite(base, [t], [], report) == PlayCleaning(PlayBatches(Start(base), t.body), 0, report, t.faults)
  {
    assert [t][..0] == [];
    assert PlayTests(Start(base), [t], report) == PlayTest(PlayTests(Start(base), [], report), t, report);
    assert PlayTests(Start(base), [], report) == Start(base) == PlayBatches(Start(base), []);
  }

  /** A row is created and rolled back, and its key is then used by an unrecorded
      row. */
  function ReusingHistory(e: Entity): seq<Batch> {
    [Batch([Insertion(Row(e, {}), true)], false), Batch([Insertion(Row(e, {}), false)], true)]
  }

  lemma ReusedKeyPlayed(base: Tables, e: Entity)
    requires Integral(base) && HasKeys(e) && e !in base.rows
    ensures var p := PlayBatches(Start(base), ReusingHistory(e));
            p.db == p.outside == base.(rows := base.rows[e := {}]) && p.recorded == [e] && p.kept == multiset{}
  {
    var history := ReusingHistory(e);
    TwoBatches(Start(base), history[0], history[1]);
    OneStatement(Start(base), history[0].statements[0]);
    var p := PlayBatch(Start(base), history[0]);
    assert p.db == base && p.outside == base && p.recorded == [e];
    OneStatement(p, history[1].statements[0]);
  }

  lemma OneStatement(p: Played, x: Statement)
    ensures PlayStatements(p, [x]) == PlayStatement(Work(p, false), x)
  {
    assert [x][..0] == [];
  }

  /** Then the last cleaning deletes that row: without one, everything but the
      recorded insert would have been there. */
  lemma ReusedKeyExample(base: Tables, e: Entity, report: bool, last: Faults)
    requires Integral(base) && HasKeys(e) && e !in base.rows && NoFaults(last)
    ensures var p := PlaySuite(base, [], ReusingHistory(e), report);
            && p.db == p.outside && p.outside != base && !Apart(p)
            && Cleaned(p.db, p.recorded, report, last) == (base, None)
  {
    ReusedKeyPlayed(base, e);
    var p := PlaySuite(base, [], ReusingHistory(e), report);
    assert p == PlayBatches(Start(base), ReusingHistory(e));
    assert e in p.recorded && e in p.outside.rows;
    OneCleaned(base, p.db, e, report, last);
  }

  lemma OneCleaned(base: Tables, db: Tables, e: Entity, report: bool, last: Faults)
    requires Integral(base) && HasKeys(e) && e !in base.rows && NoFaults(last)
    requires db == base.(rows := base.rows[e := {}])
    ensures Cleaned(db, [e], report, last) == (base, None)
  {
    assert Without(db, {e}).rows == base.rows;
    assert !Blocked(db, e);
    assert DeleteLoop(base, false, [e], 0, report, last) == Finished(base, false);
  }

  /** A test's rows are the newest of the suite's: once they are deleted, the
      suite's recorder still leads back to the same database. */
  lemma CleanedTestIsUndone(before: Tables, after: Tables, suite: seq<Entity>, test: seq<Entity>)
    requires |test| <= |suite| && suite[|suite| - |test|..] == test
    requires Some(after) == DeleteAll(before, test)
    ensures DeleteAll(after, suite) == DeleteAll(before, suite)
  {
    var older := suite[..|suite| - |test|];
    assert suite == older + test;
    DeleteAllSplits(before, older, test);
    DeleteAllSplits(after, older, test);
    DeletingLeavesSurvivors(before, test);
    forall e | e in test && HasKeys(e) ensures e !in after.rows {
      assert e in KeyedOf(test);
    }
    DeletingAgain(after, test);
  }
}
