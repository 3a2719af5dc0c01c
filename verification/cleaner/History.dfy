/** Cleaning after any history of transactions that insert and delete rows,
    recorded or not, committed or not. */
module History {
  import opened ForeignKeys

  /** An insert through gorm is recorded, one by raw SQL is not; deletions never
      are. */
  datatype Statement =
    | Insertion(row: Row, recorded: bool)
    | Deletion(e: Entity)
    | LooseDeletion(loose: Row)

  /** One transaction; a create outside a transaction is one of its own. */
  datatype Batch = Batch(statements: seq<Statement>, commit: bool)

  /** What a history has led to: the committed database, what has been recorded
      (also by transactions that were rolled back), what everything but the
      recorded inserts alone has made of the initial database, the committed rows
      without a primary key that were recorded, and whether a transaction without
      effect has recorded a row that had been there before it. */
  datatype Played =
    Played(db: Tables, recorded: seq<Entity>, outside: Tables, kept: multiset<Row>, recreated: bool)

  /** A transaction in progress. */
  datatype Work = Work(at: Played, aborted: bool)

  function Start(db: Tables): Played {
    Played(db, [], db, multiset{}, false)
  }

  function Drop(db: Tables, e: Entity): Tables {
    if HasKeys(e) then Without(db, {e}) else db
  }

  predicate Accepts(db: Tables, x: Statement) {
    match x
    case Insertion(row, _) => Insertable(db, row)
    case Deletion(e) => DeleteRow(db, e).Some?
    case LooseDeletion(_) => true
  }

  function PlayAccepted(p: Played, x: Statement): Played
    requires Accepts(p.db, x)
  {
    match x
    case Insertion(row, recorded) =>
      p.(db := Insert(p.db, row),
         recorded := p.recorded + if recorded then [row.id] else [],
         outside := if recorded then p.outside else Insert(p.outside, row),
         kept := p.kept + if recorded && !HasKeys(row.id) then multiset{row} else multiset{})
    case Deletion(e) =>
      p.(db := DeleteRow(p.db, e).value, outside := Drop(p.outside, e))
    case LooseDeletion(row) =>
      p.(db := DeleteLoose(p.db, row), outside := DeleteLoose(p.outside, row), kept := p.kept[row := 0])
  }

  /** After a rejected statement Postgres rejects the following ones. */
  function PlayStatement(w: Work, x: Statement): Work {
    if w.aborted || !Accepts(w.at.db, x) then w.(aborted := true) else Work(PlayAccepted(w.at, x), false)
  }

  function PlayStatements(p: Played, xs: seq<Statement>): Work {
    if xs == [] then Work(p, false)
    else PlayStatement(PlayStatements(p, xs[..|xs| - 1]), xs[|xs| - 1])
  }

  /** A transaction without effect leaves its records behind. */
  function LeaveBehind(p: Played, gone: seq<Entity>): Played {
    p.(recorded := p.recorded + gone,
       recreated := p.recreated || exists e | e in gone :: HasKeys(e) && e in p.db.rows)
  }

  function PlayBatch(p: Played, b: Batch): Played {
    var w := PlayStatements(p, b.statements);
    StatementsOnlyAppend(p, b.statements);
    if !w.aborted && b.commit && DeferredHold(w.at.db) then w.at
    else LeaveBehind(p, w.at.recorded[|p.recorded|..])
  }

  function PlayBatches(p: Played, bs: seq<Batch>): Played {
    if bs == [] then p else PlayBatch(PlayBatches(p, bs[..|bs| - 1]), bs[|bs| - 1])
  }

  lemma {:induction false} StatementsOnlyAppend(p: Played, xs: seq<Statement>)
    ensures p.recorded <= PlayStatements(p, xs).at.recorded
    decreases |xs|
  {
    if xs != [] {
      StatementsOnlyAppend(p, xs[..|xs| - 1]);
    }
  }

  lemma BatchRecords(p: Played, b: Batch)
    ensures PlayBatch(p, b).recorded == PlayStatements(p, b.statements).at.recorded
    ensures p.recorded <= PlayBatch(p, b).recorded
  {
    StatementsOnlyAppend(p, b.statements);
  }

  lemma {:induction false} BatchesOnlyAppend(p: Played, bs: seq<Batch>)
    ensures p.recorded <= PlayBatches(p, bs).recorded
    decreases |bs|
  {
    if bs != [] {
      BatchesOnlyAppend(p, bs[..|bs| - 1]);
      BatchRecords(PlayBatches(p, bs[..|bs| - 1]), bs[|bs| - 1]);
    }
  }

  /** No row that was not recorded has the key of one that was. */
  ghost predicate Apart(p: Played) {
    forall e :: e in p.recorded && HasKeys(e) ==> e !in p.outside.rows
  }

  /** The rows that are there because of recorded inserts. */
  function Own(p: Played): Tables {
    Without(p.db, p.outside.rows.Keys)
  }

  ghost predicate LooseHolds(p: Played) {
    && p.db.loose == p.outside.loose + p.kept
    && (forall k :: k in p.kept ==> !HasKeys(k.id) && k.id in p.recorded)
  }

  ghost predicate Inv(p: Played) {
    && ImmediateHold(p.db)
    && LooseHolds(p)
    && Survivors(p.db, p.recorded).rows == Survivors(p.outside, p.recorded).rows
    && (!p.recreated ==> Ordered(Own(p), p.recorded))
  }

  lemma KeptWasRecorded(p: Played)
    requires Inv(p) && p.kept != multiset{}
    ensures !AllHaveKeys(p.recorded)
  {
    var k :| k in p.kept;
    assert k.id in p.recorded;
  }

  lemma OrderedAfterInsert(db: Tables, es: seq<Entity>, row: Row)
    requires Ordered(db, es) && HasKeys(row.id)
    requires forall r :: r in db.rows ==> Ref(row.id, false) !in db.rows[r]
    ensures Ordered(Insert(db, row), es + [row.id])
  {
    var db', es' := Insert(db, row), es + [row.id];
    forall i, r | 0 <= i < |es'| && HasKeys(es'[i]) && es'[i] in db'.rows && es'[i] !in es'[i + 1..]
                  && HasKeys(r) && r in db'.rows && r != es'[i] && Ref(es'[i], false) in db'.rows[r] && r in es'
      ensures r in es'[i + 1..]
    {
      if i < |es| {
        assert es'[i] == es[i];
        assert es'[i + 1..] == es[i + 1..] + [row.id];
      }
    }
  }

  lemma OrderedWithGone(db: Tables, es: seq<Entity>, gone: seq<Entity>)
    requires Ordered(db, es) && forall e :: e in gone && HasKeys(e) ==> e !in db.rows
    ensures Ordered(db, es + gone)
  {
    var es' := es + gone;
    assert forall k :: |es| <= k < |es'| ==> es'[k] == gone[k - |es|];
    forall i, r | 0 <= i < |es'| && HasKeys(es'[i]) && es'[i] in db.rows && es'[i] !in es'[i + 1..]
                  && HasKeys(r) && r in db.rows && r != es'[i] && Ref(es'[i], false) in db.rows[r] && r in es'
      ensures r in es'[i + 1..]
    {
      assert i < |es|;
      assert es'[i + 1..] == es[i + 1..] + gone;
    }
  }

  lemma DeletionKeepsImmediate(db: Tables, e: Entity)
    requires ImmediateHold(db) && DeleteRow(db, e).Some?
    ensures ImmediateHold(DeleteRow(db, e).value)
  {
    var d := DeleteRow(db, e).value;
    forall r, f | r in d.rows && f in d.rows[r] && !f.deferrable ensures f.target in d.rows {
      assert f == Ref(f.target, false);
    }
    forall l, f | l in d.loose && f in l.refs && !f.deferrable ensures f.target in d.rows {
      assert f == Ref(f.target, false);
    }
  }

  lemma InsertKeepsImmediate(db: Tables, row: Row)
    requires ImmediateHold(db) && Insertable(db, row)
    ensures ImmediateHold(Insert(db, row))
  {
  }

  lemma ImmediateStep(p: Played, x: Statement)
    requires ImmediateHold(p.db) && Accepts(p.db, x)
    ensures ImmediateHold(PlayAccepted(p, x).db)
  {
    match x
    case Insertion(row, _) => InsertKeepsImmediate(p.db, row);
    case Deletion(e) => DeletionKeepsImmediate(p.db, e);
    case LooseDeletion(row) =>
      assert forall l :: l in DeleteLoose(p.db, row).loose ==> l in p.db.loose;
  }

  lemma LooseSum(p: Played, x: Statement)
    requires p.db.loose == p.outside.loose + p.kept && Accepts(p.db, x)
    ensures var p' := PlayAccepted(p, x);
            p'.db.loose == p'.outside.loose + p'.kept
  {
  }

  lemma KeptStep(p: Played, x: Statement)
    requires Accepts(p.db, x) && forall k :: k in p.kept ==> !HasKeys(k.id) && k.id in p.recorded
    ensures var p' := PlayAccepted(p, x);
            forall k :: k in p'.kept ==> !HasKeys(k.id) && k.id in p'.recorded
  {
  }

  lemma SameAfterInsert(a: map<Entity, set<Ref>>, b: map<Entity, set<Ref>>, ks: set<Entity>, e: Entity, refs: set<Ref>)
    requires a - ks == b - ks
    ensures a[e := refs] - ks == b[e := refs] - ks
  {
    var a', b' := a[e := refs], b[e := refs];
    forall r ensures (r in a' - ks <==> r in b' - ks) && (r in a' - ks ==> (a' - ks)[r] == (b' - ks)[r]) {
      assert r in a - ks <==> r in b - ks;
      assert r in a - ks ==> (a - ks)[r] == (b - ks)[r];
    }
  }

  lemma SameAfterDelete(a: map<Entity, set<Ref>>, b: map<Entity, set<Ref>>, ks: set<Entity>, gone: set<Entity>)
    requires a - ks == b - ks
    ensures a - gone - ks == b - gone - ks
  {
    assert a - gone - ks == a - ks - gone;
    assert b - gone - ks == b - ks - gone;
  }

  lemma SameWithMore(a: map<Entity, set<Ref>>, b: map<Entity, set<Ref>>, ks: set<Entity>, ks': set<Entity>)
    requires a - ks == b - ks && ks <= ks'
    ensures a - ks' == b - ks'
  {
    assert a - ks' == a - ks - ks';
    assert b - ks' == b - ks - ks';
  }

  lemma SameAfterRecording(a: map<Entity, set<Ref>>, b: map<Entity, set<Ref>>, ks: set<Entity>, e: Entity, refs: set<Ref>)
    requires a - ks == b - ks && e in ks
    ensures a[e := refs] - ks == b - ks
  {
    assert a[e := refs] - ks == a - ks;
  }

  lemma SurvivorsStep(p: Played, x: Statement)
    requires Accepts(p.db, x) && Survivors(p.db, p.recorded).rows == Survivors(p.outside, p.recorded).rows
    ensures var p' := PlayAccepted(p, x);
            Survivors(p'.db, p'.recorded).rows == Survivors(p'.outside, p'.recorded).rows
  {
    var p' := PlayAccepted(p, x);
    var a, b, ks, ks' := p.db.rows, p.outside.rows, KeyedOf(p.recorded), KeyedOf(p'.recorded);
    match x
    case Insertion(row, true) =>
      assert row.id in p'.recorded;
      SameWithMore(a, b, ks, ks');
      if HasKeys(row.id) {
        SameAfterRecording(a, b, ks', row.id, row.refs);
      }
    case Insertion(row, false) =>
      assert p'.recorded == p.recorded;
      SameAfterInsert(a, b, ks, row.id, row.refs);
    case Deletion(e) =>
      if HasKeys(e) {
        assert e !in a ==> a - {e} == a;
        SameAfterDelete(a, b, ks, {e});
      }
    case LooseDeletion(_) =>
  }

  lemma OwnAfterRecording(p: Played, row: Row)
    requires ImmediateHold(p.db) && Insertable(p.db, row) && Ordered(Own(p), p.recorded)
    ensures Ordered(Without(Insert(p.db, row), p.outside.rows.Keys), p.recorded + [row.id])
  {
    var own := Without(Insert(p.db, row), p.outside.rows.Keys);
    if HasKeys(row.id) && row.id !in p.outside.rows {
      // a new row is named at once by no old one
      assert forall r :: r in p.db.rows ==> Ref(row.id, false) !in p.db.rows[r];
      OrderedAfterInsert(Own(p), p.recorded, row);
      OrderedSubset(Insert(Own(p), row), own, p.recorded + [row.id]);
    } else {
      OrderedWithGone(Own(p), p.recorded, [row.id]);
      OrderedSubset(Own(p), own, p.recorded + [row.id]);
    }
  }

  lemma OwnShrinks(p: Played, x: Statement)
    requires Accepts(p.db, x) && (x.Insertion? ==> !x.recorded)
    ensures var own, own' := Own(p), Own(PlayAccepted(p, x));
            forall r :: r in own'.rows ==> r in own.rows && own'.rows[r] == own.rows[r]
  {
  }

  lemma OwnStep(p: Played, x: Statement)
    requires ImmediateHold(p.db) && Accepts(p.db, x) && Ordered(Own(p), p.recorded)
    ensures Ordered(Own(PlayAccepted(p, x)), PlayAccepted(p, x).recorded)
  {
    var p' := PlayAccepted(p, x);
    if x.Insertion? && x.recorded {
      OwnAfterRecording(p, x.row);
    } else {
      assert p'.recorded == p.recorded;
      OwnShrinks(p, x);
      OrderedSubset(Own(p), Own(p'), p.recorded);
    }
  }

  lemma StatementKeepsInv(p: Played, x: Statement)
    requires Inv(p) && Accepts(p.db, x)
    ensures Inv(PlayAccepted(p, x))
  {
    ImmediateStep(p, x);
    LooseSum(p, x);
    KeptStep(p, x);
    SurvivorsStep(p, x);
    if !p.recreated {
      OwnStep(p, x);
    }
  }

  lemma {:induction false} StatementsKeepInv(p: Played, xs: seq<Statement>)
    requires Inv(p)
    ensures Inv(PlayStatements(p, xs).at)
    decreases |xs|
  {
    if xs != [] {
      var init, last := xs[..|xs| - 1], xs[|xs| - 1];
      StatementsKeepInv(p, init);
      var w := PlayStatements(p, init);
      if !w.aborted && Accepts(w.at.db, last) {
        StatementKeepsInv(w.at, last);
      }
    }
  }

  lemma LeavingBehindKeepsInv(p: Played, gone: seq<Entity>)
    requires Inv(p)
    ensures Inv(LeaveBehind(p, gone))
  {
    var p' := LeaveBehind(p, gone);
    var ks, ks' := KeyedOf(p.recorded), KeyedOf(p'.recorded);
    assert ks <= ks';
    assert p.db.rows - ks' == (p.db.rows - ks) - ks';
    assert p.outside.rows - ks' == (p.outside.rows - ks) - ks';
    if !p'.recreated {
      OrderedWithGone(Own(p), p.recorded, gone);
    }
  }

  lemma BatchKeepsInv(p: Played, b: Batch)
    requires Inv(p) && Integral(p.db)
    ensures Inv(PlayBatch(p, b)) && Integral(PlayBatch(p, b).db)
  {
    StatementsKeepInv(p, b.statements);
    StatementsOnlyAppend(p, b.statements);
    LeavingBehindKeepsInv(p, PlayStatements(p, b.statements).at.recorded[|p.recorded|..]);
  }

  lemma {:induction false} BatchesKeepInv(p: Played, bs: seq<Batch>)
    requires Inv(p) && Integral(p.db)
    ensures Inv(PlayBatches(p, bs)) && Integral(PlayBatches(p, bs).db)
    decreases |bs|
  {
    if bs != [] {
      BatchesKeepInv(p, bs[..|bs| - 1]);
      BatchKeepsInv(PlayBatches(p, bs[..|bs| - 1]), bs[|bs| - 1]);
    }
  }

  lemma StartHolds(db: Tables)
    requires Integral(db)
    ensures Inv(Start(db))
  {
  }

  /** The rows that survive a cleaning are the unrecorded ones exactly if none of
      them has a recorded key and no recorded row without a key is there. */
  lemma SurvivorsAreOutside(p: Played)
    requires Inv(p)
    ensures Survivors(p.db, p.recorded) == p.outside <==> Apart(p) && p.kept == multiset{}
  {
    var rest := Survivors(p.db, p.recorded);
    if Apart(p) {
      assert Survivors(p.outside, p.recorded).rows == p.outside.rows;
    }
    if rest == p.outside {
      forall e | e in p.recorded && HasKeys(e) ensures e !in p.outside.rows {
        assert e in KeyedOf(p.recorded) && e !in rest.rows;
      }
      assert |p.db.loose| == |p.outside.loose| + |p.kept|;
    }
  }

  /** Recorded rows are in order unless a transaction without effect has recorded
      one that was there before it. */
  lemma OrderedUnlessRecreated(p: Played)
    requires Inv(p) && Apart(p) && !p.recreated
    ensures Ordered(p.db, p.recorded)
  {
    var es := p.recorded;
    forall i, r | 0 <= i < |es| && HasKeys(es[i]) && es[i] in p.db.rows && es[i] !in es[i + 1..]
                  && HasKeys(r) && r in p.db.rows && r != es[i] && Ref(es[i], false) in p.db.rows[r] && r in es
      ensures r in es[i + 1..]
    {
      assert es[i] in es && es[i] in Own(p).rows && r in Own(p).rows;
    }
  }

  /** After any history of transactions that the database accepted or rejected,
      cleaning leaves exactly what everything but the recorded inserts would have
      left, if and only if the recorded rows are in order, and the others are
      consistent on their own, have no recorded key, and no recorded row without
      a key is there. */
  lemma CleaningUndoesRecordedInserts(base: Tables, history: seq<Batch>)
    requires Integral(base)
    ensures var p := PlayBatches(Start(base), history);
            && ((Deletes(p.db, p.recorded) && DeleteAll(p.db, p.recorded).value == p.outside)
                <==> (Ordered(p.db, p.recorded) && Integral(p.outside) && Apart(p) && p.kept == multiset{}))
            && (Apart(p) && !p.recreated ==> Ordered(p.db, p.recorded))
  {
    StartHolds(base);
    BatchesKeepInv(Start(base), history);
    var p := PlayBatches(Start(base), history);
    DeletionSucceedsIff(p.db, p.recorded);
    DeletingLeavesSurvivors(p.db, p.recorded);
    SurvivorsAreOutside(p);
    if Apart(p) && !p.recreated {
      OrderedUnlessRecreated(p);
    }
  }

  /** The unrecorded rows are consistent on their own exactly if none of them
      names a recorded row. */
  lemma OutsidersNameNoRecordedRow(base: Tables, history: seq<Batch>)
    requires Integral(base)
    ensures var p := PlayBatches(Start(base), history);
            Apart(p) ==>
              (Integral(p.outside) <==>
                && (forall r, f :: r in p.outside.rows && f in p.outside.rows[r] ==> !(HasKeys(f.target) && f.target in p.recorded))
                && (forall l, f :: l in p.outside.loose && f in l.refs ==> !(HasKeys(f.target) && f.target in p.recorded)))
  {
    StartHolds(base);
    BatchesKeepInv(Start(base), history);
    var p := PlayBatches(Start(base), history);
    if Apart(p) {
      assert p.outside.rows == p.outside.rows - KeyedOf(p.recorded);
      assert p.outside.rows == p.db.rows - KeyedOf(p.recorded);
      assert forall l :: l in p.outside.loose ==> l in p.db.loose;
    }
  }

  /** An insert is recorded, and no row of the base is deleted. */
  ghost predicate LeavesAlone(base: Tables, x: Statement) {
    match x
    case Insertion(_, recorded) => recorded
    case Deletion(e) => HasKeys(e) ==> e !in base.rows
    case LooseDeletion(row) => row !in base.loose
  }

  ghost predicate AllRecorded(base: Tables, history: seq<Batch>) {
    forall b, x :: b in history && x in b.statements ==> LeavesAlone(base, x)
  }

  predicate WithKeys(x: Statement) {
    x.Insertion? && x.recorded ==> HasKeys(x.row.id)
  }

  ghost predicate RecordedHaveKeys(history: seq<Batch>) {
    forall b, x :: b in history && x in b.statements ==> WithKeys(x)
  }

  /** A transaction creates a row again after having deleted it. */
  ghost predicate Recreates(xs: seq<Statement>) {
    exists i, j :: 0 <= i < j < |xs| && xs[j].Insertion? && xs[j].recorded && xs[i] == Deletion(xs[j].row.id)
  }

  ghost predicate NoneRecreates(history: seq<Batch>) {
    forall b :: b in history ==> !Recreates(b.statements)
  }

  lemma FewerDoNotRecreate(xs: seq<Statement>)
    requires xs != []
    ensures Recreates(xs[..|xs| - 1]) ==> Recreates(xs)
  {
    var init := xs[..|xs| - 1];
    if Recreates(init) {
      var i, j :| 0 <= i < j < |init| && init[j].Insertion? && init[j].recorded && init[i] == Deletion(init[j].row.id);
      assert xs[i] == Deletion(xs[j].row.id);
    }
  }

  lemma LastRecreates(xs: seq<Statement>, e: Entity)
    requires xs != [] && xs[|xs| - 1].Insertion? && xs[|xs| - 1].recorded && xs[|xs| - 1].row.id == e
    requires Deletion(e) in xs[..|xs| - 1]
    ensures Recreates(xs)
  {
    var i :| 0 <= i < |xs| - 1 && xs[i] == Deletion(e);
    assert xs[i] == Deletion(xs[|xs| - 1].row.id);
  }

  /** What the statements `xs` have recorded on top of p is new, and what they
      have removed they have deleted. */
  ghost predicate RecordsNew(p: Played, w: Work, xs: seq<Statement>) {
    && p.recorded <= w.at.recorded
    && (forall e :: e in w.at.recorded[|p.recorded|..] && HasKeys(e) ==> e !in p.db.rows)
    && (forall e :: e in p.db.rows && e !in w.at.db.rows ==> Deletion(e) in xs)
  }

  lemma RecordsNewStep(p: Played, w: Work, xs: seq<Statement>, x: Statement)
    requires RecordsNew(p, w, xs)
    requires x.Insertion? && x.recorded ==> Deletion(x.row.id) !in xs
    ensures RecordsNew(p, PlayStatement(w, x), xs + [x])
  {
    var w' := PlayStatement(w, x);
    if w'.at.recorded != w.at.recorded {
      assert w'.at.recorded[|p.recorded|..] == w.at.recorded[|p.recorded|..] + [x.row.id];
    }
  }

  /** A transaction that does not do this records only rows that are new. */
  lemma {:induction false} StatementsAreNew(p: Played, xs: seq<Statement>)
    requires !Recreates(xs)
    ensures RecordsNew(p, PlayStatements(p, xs), xs)
    decreases |xs|
  {
    if xs != [] {
      var init, last := xs[..|xs| - 1], xs[|xs| - 1];
      assert xs == init + [last];
      FewerDoNotRecreate(xs);
      StatementsAreNew(p, init);
      if last.Insertion? && last.recorded && Deletion(last.row.id) in init {
        LastRecreates(xs, last.row.id);
      }
      RecordsNewStep(p, PlayStatements(p, init), init, last);
    }
  }

  lemma {:induction false} StatementsKeepFlag(p: Played, xs: seq<Statement>)
    ensures PlayStatements(p, xs).at.recreated == p.recreated
    decreases |xs|
  {
    if xs != [] {
      StatementsKeepFlag(p, xs[..|xs| - 1]);
    }
  }

  lemma {:induction false} BatchesKeepFlag(p: Played, bs: seq<Batch>)
    requires NoneRecreates(bs)
    ensures PlayBatches(p, bs).recreated == p.recreated
    decreases |bs|
  {
    if bs != [] {
      var init, last := bs[..|bs| - 1], bs[|bs| - 1];
      BatchesKeepFlag(p, init);
      assert last in bs;
      StatementsKeepFlag(PlayBatches(p, init), last.statements);
      StatementsAreNew(PlayBatches(p, init), last.statements);
    }
  }

  /** All rows that are not the base's are new and recorded. */
  ghost predicate OnlyRecorded(base: Tables, p: Played) {
    && p.outside == base
    && (forall e :: e in base.rows ==> e in p.db.rows)
    && (forall e :: e in p.recorded && HasKeys(e) ==> e !in base.rows)
  }

  lemma OnlyRecordedStep(base: Tables, p: Played, x: Statement)
    requires OnlyRecorded(base, p) && LeavesAlone(base, x) && Accepts(p.db, x)
    ensures OnlyRecorded(base, PlayAccepted(p, x))
  {
    if x.Deletion? && HasKeys(x.e) {
      assert base.rows - {x.e} == base.rows;
    } else if x.LooseDeletion? {
      assert base.loose[x.loose := 0] == base.loose;
    }
  }

  lemma {:induction false} StatementsOnlyRecorded(base: Tables, p: Played, xs: seq<Statement>)
    requires OnlyRecorded(base, p) && forall x :: x in xs ==> LeavesAlone(base, x)
    ensures OnlyRecorded(base, PlayStatements(p, xs).at)
    decreases |xs|
  {
    if xs != [] {
      var init, last := xs[..|xs| - 1], xs[|xs| - 1];
      StatementsOnlyRecorded(base, p, init);
      assert last in xs;
      var w := PlayStatements(p, init);
      if !w.aborted && Accepts(w.at.db, last) {
        OnlyRecordedStep(base, w.at, last);
      }
    }
  }

  lemma {:induction false} BatchesOnlyRecorded(base: Tables, p: Played, bs: seq<Batch>)
    requires OnlyRecorded(base, p) && AllRecorded(base, bs)
    ensures OnlyRecorded(base, PlayBatches(p, bs))
    decreases |bs|
  {
    if bs != [] {
      var init, last := bs[..|bs| - 1], bs[|bs| - 1];
      BatchesOnlyRecorded(base, p, init);
      assert last in bs;
      StatementsOnlyRecorded(base, PlayBatches(p, init), last.statements);
      BatchRecords(PlayBatches(p, init), last);
    }
  }

  lemma {:induction false} StatementsWithKeys(p: Played, xs: seq<Statement>)
    requires forall x :: x in xs ==> WithKeys(x)
    ensures p.kept == multiset{} ==> PlayStatements(p, xs).at.kept == multiset{}
    ensures AllHaveKeys(p.recorded) ==> AllHaveKeys(PlayStatements(p, xs).at.recorded)
    decreases |xs|
  {
    if xs != [] {
      StatementsWithKeys(p, xs[..|xs| - 1]);
      assert xs[|xs| - 1] in xs;
    }
  }

  lemma {:induction false} BatchesWithKeys(p: Played, bs: seq<Batch>)
    requires RecordedHaveKeys(bs)
    ensures p.kept == multiset{} ==> PlayBatches(p, bs).kept == multiset{}
    ensures AllHaveKeys(p.recorded) ==> AllHaveKeys(PlayBatches(p, bs).recorded)
    decreases |bs|
  {
    if bs != [] {
      var init, last := bs[..|bs| - 1], bs[|bs| - 1];
      BatchesWithKeys(p, init);
      assert last in bs;
      StatementsWithKeys(PlayBatches(p, init), last.statements);
      BatchRecords(PlayBatches(p, init), last);
    }
  }

  /** If every insert was recorded and no initial row was deleted, cleaning gives
      back the initial database exactly if no recorded row without a primary key
      is there and the recorded rows are in order. They are in order unless a
      transaction creates a row again after having deleted it. */
  lemma CleaningRestores(base: Tables, history: seq<Batch>)
    requires Integral(base) && AllRecorded(base, history)
    ensures var p := PlayBatches(Start(base), history);
            && ((Deletes(p.db, p.recorded) && DeleteAll(p.db, p.recorded).value == base)
                <==> p.kept == multiset{} && Ordered(p.db, p.recorded))
            && (RecordedHaveKeys(history) ==> p.kept == multiset{})
            && (NoneRecreates(history) ==> Ordered(p.db, p.recorded))
  {
    CleaningUndoesRecordedInserts(base, history);
    BatchesOnlyRecorded(base, Start(base), history);
    if RecordedHaveKeys(history) {
      BatchesWithKeys(Start(base), history);
    }
    if NoneRecreates(history) {
      BatchesKeepFlag(Start(base), history);
    }
  }

  /** What statements do to the database and record does not depend on the
      history before them. */
  lemma {:induction false} StatementsFromHere(p: Played, q: Played, xs: seq<Statement>)
    requires p.db == q.db
    ensures var w, v := PlayStatements(p, xs), PlayStatements(q, xs);
            && w.at.db == v.at.db && w.aborted == v.aborted
            && p.recorded <= w.at.recorded && q.recorded <= v.at.recorded
            && w.at.recorded[|p.recorded|..] == v.at.recorded[|q.recorded|..]
    decreases |xs|
  {
    if xs != [] {
      StatementsFromHere(p, q, xs[..|xs| - 1]);
      var w, v := PlayStatements(p, xs[..|xs| - 1]), PlayStatements(q, xs[..|xs| - 1]);
      StatementFromHere(p, q, w, v, xs[|xs| - 1]);
    }
  }

  lemma StatementFromHere(p: Played, q: Played, w: Work, v: Work, x: Statement)
    requires w.at.db == v.at.db && w.aborted == v.aborted
    requires p.recorded <= w.at.recorded && q.recorded <= v.at.recorded
    requires w.at.recorded[|p.recorded|..] == v.at.recorded[|q.recorded|..]
    ensures var w', v' := PlayStatement(w, x), PlayStatement(v, x);
            && w'.at.db == v'.at.db && w'.aborted == v'.aborted
            && p.recorded <= w'.at.recorded && q.recorded <= v'.at.recorded
            && w'.at.recorded[|p.recorded|..] == v'.at.recorded[|q.recorded|..]
  {
    if !w.aborted && Accepts(w.at.db, x) && x.Insertion? && x.recorded {
      assert (w.at.recorded + [x.row.id])[|p.recorded|..] == w.at.recorded[|p.recorded|..] + [x.row.id];
      assert (v.at.recorded + [x.row.id])[|q.recorded|..] == v.at.recorded[|q.recorded|..] + [x.row.id];
    }
  }

  lemma BatchFromHere(p: Played, q: Played, b: Batch)
    requires p.db == q.db
    ensures PlayBatch(p, b).db == PlayBatch(q, b).db
    ensures p.recorded <= PlayBatch(p, b).recorded && q.recorded <= PlayBatch(q, b).recorded
    ensures PlayBatch(p, b).recorded[|p.recorded|..] == PlayBatch(q, b).recorded[|q.recorded|..]
  {
    StatementsFromHere(p, q, b.statements);
    BatchRecords(p, b);
    BatchRecords(q, b);
  }

  lemma {:induction false} BatchesFromHere(p: Played, q: Played, bs: seq<Batch>)
    requires p.db == q.db
    ensures PlayBatches(p, bs).db == PlayBatches(q, bs).db
    ensures p.recorded <= PlayBatches(p, bs).recorded && q.recorded <= PlayBatches(q, bs).recorded
    ensures PlayBatches(p, bs).recorded[|p.recorded|..] == PlayBatches(q, bs).recorded[|q.recorded|..]
    decreases |bs|
  {
    if bs != [] {
      var init, last := bs[..|bs| - 1], bs[|bs| - 1];
      BatchesFromHere(p, q, init);
      var p', q' := PlayBatches(p, init), PlayBatches(q, init);
      BatchFromHere(p', q', last);
      InTwoParts(p.recorded, p'.recorded, PlayBatches(p, bs).recorded);
      InTwoParts(q.recorded, q'.recorded, PlayBatches(q, bs).recorded);
    }
  }

  lemma InTwoParts(a: seq<Entity>, b: seq<Entity>, c: seq<Entity>)
    requires a <= b <= c
    ensures a <= c && c[|a|..] == b[|a|..] + c[|b|..]
  {
  }

  ghost function Cycle(a: Entity, b: Entity): (Statement, Statement) {
    (Insertion(Row(a, {Ref(b, true)}), true), Insertion(Row(b, {Ref(a, true)}), true))
  }

  /** Two new rows that name each other by deferrable keys are accepted in one
      transaction. */
  lemma CycleInOneTransaction(base: Tables, a: Entity, b: Entity)
    requires Integral(base) && HasKeys(a) && HasKeys(b) && a != b && a !in base.rows && b !in base.rows
    ensures var (first, second) := Cycle(a, b);
            PlayBatches(Start(base), [Batch([first, second], true)]).db
            == base.(rows := base.rows[a := {Ref(b, true)}][b := {Ref(a, true)}])
  {
    var (first, second) := Cycle(a, b);
    assert [first][..0] == [] && [first, second][..1] == [first];
    assert PlayStatements(Start(base), []) == Work(Start(base), false);
    assert PlayStatements(Start(base), [first]).at.db == base.(rows := base.rows[a := {Ref(b, true)}]);
  }

  /** In two transactions both are rejected. */
  lemma CycleInTwoTransactions(base: Tables, a: Entity, b: Entity)
    requires Integral(base) && HasKeys(a) && HasKeys(b) && a != b && a !in base.rows && b !in base.rows
    ensures var (first, second) := Cycle(a, b);
            PlayBatches(Start(base), [Batch([first], true), Batch([second], true)]).db == base
  {
    var (first, second) := Cycle(a, b);
    AloneIsRejected(Start(base), a, b, Batch([first], true));
    var p := PlayBatch(Start(base), Batch([first], true));
    AloneIsRejected(p, b, a, Batch([second], true));
    TwoBatches(Start(base), Batch([first], true), Batch([second], true));
  }

  lemma AloneIsRejected(p: Played, a: Entity, b: Entity, alone: Batch)
    requires HasKeys(a) && a != b && b !in p.db.rows
    requires alone == Batch([Cycle(a, b).0], true)
    ensures PlayBatch(p, alone).db == p.db
  {
    assert alone.statements[..0] == [] && PlayStatements(p, []) == Work(p, false);
    var w := PlayStatements(p, alone.statements);
    assert !w.aborted ==> Ref(b, true) in w.at.db.rows[a] && b !in w.at.db.rows;
  }

  /** A transaction that deletes a row and the row that names it, creates the
      first again, and has no effect. */
  function RecreatingHistory(e: Entity, r: Entity): seq<Batch> {
    [Batch([Insertion(Row(e, {}), true), Insertion(Row(r, {Ref(e, false)}), true)], true),
     Batch([Deletion(r), Deletion(e), Insertion(Row(e, {}), true)], false)]
  }

  lemma CreatesBoth(base: Tables, e: Entity, r: Entity)
    requires Integral(base) && HasKeys(e) && HasKeys(r) && e != r && e !in base.rows && r !in base.rows
    ensures PlayBatch(Start(base), RecreatingHistory(e, r)[0])
            == Played(base.(rows := base.rows[e := {}][r := {Ref(e, false)}]), [e, r], base, multiset{}, false)
  {
    var xs := RecreatingHistory(e, r)[0].statements;
    assert xs[..1] == [xs[0]] && [xs[0]][..0] == [];
    assert PlayStatements(Start(base), []) == Work(Start(base), false);
    assert PlayStatements(Start(base), [xs[0]])
           == Work(Played(base.(rows := base.rows[e := {}]), [e], base, multiset{}, false), false);
    assert [e] + [r] == [e, r];
  }

  lemma CreatesAgain(p: Played, e: Entity, r: Entity)
    requires HasKeys(e) && HasKeys(r) && e != r && e in p.db.rows && r in p.db.rows
    requires p.db.rows[r] == {Ref(e, false)} && !Blocked(p.db, r)
    requires !Blocked(Without(p.db, {r}), e)
    ensures PlayBatch(p, RecreatingHistory(e, r)[1]) == p.(recorded := p.recorded + [e], recreated := true)
  {
    var xs := RecreatingHistory(e, r)[1].statements;
    assert xs[..2] == [xs[0], xs[1]] && xs[..2][..1] == [xs[0]] && xs[..2][..1][..0] == [];
    assert PlayStatements(p, []) == Work(p, false);
    var one := PlayStatements(p, xs[..2][..1]);
    assert one == PlayStatement(Work(p, false), xs[0]);
    assert !one.aborted && one.at.db == Without(p.db, {r});
    var two := PlayStatements(p, xs[..2]);
    assert two == PlayStatement(one, xs[1]);
    assert !two.aborted && e !in two.at.db.rows && two.at.recorded == p.recorded;
    assert PlayStatements(p, xs) == PlayStatement(two, xs[2]);
    assert (p.recorded + [e])[|p.recorded|..] == [e];
  }

  lemma TwoBatches(p: Played, first: Batch, second: Batch)
    ensures PlayBatches(p, [first, second]) == PlayBatch(PlayBatch(p, first), second)
  {
    assert [first, second][..1] == [first] && [first][..0] == [];
    assert PlayBatches(p, [first]) == PlayBatch(PlayBatches(p, []), first);
  }

  lemma NamedBeforeItsLastRecord(db: Tables, e: Entity, r: Entity)
    requires HasKeys(e) && HasKeys(r) && e != r && e in db.rows && r in db.rows && Ref(e, false) in db.rows[r]
    ensures !Deletes(db, [e, r, e])
  {
    var es := [e, r, e];
    assert es[2 + 1..] == [];
    assert es[2] == e && Ref(es[2], false) in db.rows[r] && es[1] == r;
    if Deletes(db, es) {
      DeletedRowsAreOrdered(db, es);
      assert false;
    }
  }

  lemma RecreatingIsRecorded(base: Tables, e: Entity, r: Entity)
    requires HasKeys(e) && HasKeys(r) && e !in base.rows && r !in base.rows
    ensures AllRecorded(base, RecreatingHistory(e, r)) && RecordedHaveKeys(RecreatingHistory(e, r))
  {
    forall b, x | b in RecreatingHistory(e, r) && x in b.statements ensures LeavesAlone(base, x) && WithKeys(x) {
    }
  }

  /** All inserts are recorded and have keys, and yet the cleaning is blocked: it
      begins with the second record of e, which r still names. */
  lemma RecreatedRowExample(base: Tables, e: Entity, r: Entity)
    requires Integral(base) && HasKeys(e) && HasKeys(r) && e != r && e !in base.rows && r !in base.rows
    ensures var p := PlayBatches(Start(base), RecreatingHistory(e, r));
            && AllRecorded(base, RecreatingHistory(e, r)) && RecordedHaveKeys(RecreatingHistory(e, r))
            && p.recorded == [e, r, e] && p.db.rows == base.rows[e := {}][r := {Ref(e, false)}]
            && !Deletes(p.db, p.recorded)
  {
    var history := RecreatingHistory(e, r);
    RecreatingIsRecorded(base, e, r);
    CreatesBoth(base, e, r);
    var p := PlayBatch(Start(base), history[0]);
    CreatesAgain(p, e, r);
    TwoBatches(Start(base), history[0], history[1]);
    assert [e, r] + [e] == [e, r, e];
    NamedBeforeItsLastRecord(p.db, e, r);
  }
}
