/** Database rows with foreign keys, and what deleting recorded rows does. */
module ForeignKeys {
  import opened Wrappers

  /** What the cleaner records of a row: its table and its primary key columns
      (none for a table without a primary key). */
  datatype Entity = Entity(table: string, keys: map<string, string>)

  /** A foreign key value: the row it names, and whether its constraint is
      deferred to the end of the transaction or checked at once. */
  datatype Ref = Ref(target: Entity, deferrable: bool)

  datatype Row = Row(id: Entity, refs: set<Ref>)

  /** Rows with a primary key, by that key, and rows without one. */
  datatype Tables = Tables(rows: map<Entity, set<Ref>>, loose: multiset<Row>)

  predicate HasKeys(e: Entity) {
    e.keys != map[]
  }

  ghost predicate AllHaveKeys(es: seq<Entity>) {
    forall e :: e in es ==> HasKeys(e)
  }

  /** Every foreign key names an existing row. */
  ghost predicate Integral(db: Tables) {
    && (forall r, f :: r in db.rows && f in db.rows[r] ==> f.target in db.rows)
    && (forall l, f :: l in db.loose && f in l.refs ==> f.target in db.rows)
  }

  /** What holds after every statement. */
  ghost predicate ImmediateHold(db: Tables) {
    && (forall r, f :: r in db.rows && f in db.rows[r] && !f.deferrable ==> f.target in db.rows)
    && (forall l, f :: l in db.loose && f in l.refs && !f.deferrable ==> f.target in db.rows)
  }

  /** What a transaction with all constraints deferred checks at its commit. */
  predicate DeferredHold(db: Tables) {
    && (forall r, f | r in db.rows && f in db.rows[r] :: f.deferrable ==> f.target in db.rows)
    && (forall l, f | l in db.loose && f in l.refs :: f.deferrable ==> f.target in db.rows)
  }

  /** An INSERT is rejected for a duplicate key, and for a reference checked at
      once that names no row. A row may name itself. */
  predicate Insertable(db: Tables, row: Row) {
    && (HasKeys(row.id) ==> row.id !in db.rows)
    && forall f | f in row.refs :: f.deferrable || f.target in db.rows || (HasKeys(row.id) && f.target == row.id)
  }

  function Insert(db: Tables, row: Row): Tables {
    if HasKeys(row.id) then db.(rows := db.rows[row.id := row.refs])
    else db.(loose := db.loose + multiset{row})
  }

  /** A reference that is checked at once names e from another row. */
  predicate Blocked(db: Tables, e: Entity) {
    || (exists r | r in db.rows :: r != e && Ref(e, false) in db.rows[r])
    || (exists l | l in db.loose :: Ref(e, false) in l.refs)
  }

  function Without(db: Tables, es: set<Entity>): Tables {
    db.(rows := db.rows - es)
  }

  /** DELETE FROM e.table WHERE e.keys; deleting no row is no error. An entity
      without keys is passed over. */
  function DeleteRow(db: Tables, e: Entity): Option<Tables> {
    if !HasKeys(e) || e !in db.rows then Some(db)
    else if Blocked(db, e) then None
    else Some(Without(db, {e}))
  }

  /** The last entity first. */
  function DeleteAll(db: Tables, es: seq<Entity>): Option<Tables> {
    if es == [] then Some(db)
    else
      match DeleteAll(db, es[1..])
      case None => None
      case Some(d) => DeleteRow(d, es[0])
  }

  /** A DELETE that matches `row` in a table without a primary key. */
  function DeleteLoose(db: Tables, row: Row): Tables {
    db.(loose := db.loose[row := 0])
  }

  /** The deletion and the deferred checks succeed. */
  predicate Deletes(db: Tables, es: seq<Entity>) {
    DeleteAll(db, es).Some? && DeferredHold(DeleteAll(db, es).value)
  }

  ghost function KeyedOf(es: seq<Entity>): set<Entity> {
    set e | e in es && HasKeys(e)
  }

  /** All rows but the recorded ones. */
  ghost function Survivors(db: Tables, es: seq<Entity>): Tables {
    Without(db, KeyedOf(es))
  }

  lemma {:induction false} DeletingLeavesSurvivors(db: Tables, es: seq<Entity>)
    ensures DeleteAll(db, es).Some? ==> DeleteAll(db, es).value == Survivors(db, es)
  {
    if es == [] {
      assert db.rows - KeyedOf(es) == db.rows;
    } else {
      DeletingLeavesSurvivors(db, es[1..]);
      if DeleteAll(db, es).Some? {
        var d := DeleteAll(db, es[1..]).value;
        assert KeyedOf(es) == KeyedOf(es[1..]) + KeyedOf([es[0]]);
        assert KeyedOf([es[0]]) == if HasKeys(es[0]) then {es[0]} else {};
        assert DeleteAll(db, es).value.rows == d.rows - KeyedOf([es[0]]);
        assert db.rows - KeyedOf(es) == (db.rows - KeyedOf(es[1..])) - KeyedOf([es[0]]);
      }
    }
  }

  lemma {:induction false} DeleteAllSplits(db: Tables, a: seq<Entity>, b: seq<Entity>)
    ensures DeleteAll(db, a + b) ==
            match DeleteAll(db, b)
            case None => None
            case Some(d) => DeleteAll(d, a)
  {
    if a == [] {
      assert a + b == b;
    } else {
      assert (a + b)[1..] == a[1..] + b;
      DeleteAllSplits(db, a[1..], b);
    }
  }

  /** Deleting rows that are gone already changes nothing. */
  lemma {:induction false} DeletingAgain(db: Tables, es: seq<Entity>)
    requires forall e :: e in es && HasKeys(e) ==> e !in db.rows
    ensures DeleteAll(db, es) == Some(db)
  {
    if es != [] {
      DeletingAgain(db, es[1..]);
    }
  }

  /** A deletion undoes an insertion exactly, also in the middle of a transaction
      whose deferred references are not satisfied yet. */
  lemma DeleteUndoesInsert(db: Tables, row: Row)
    requires ImmediateHold(db) && Insertable(db, row) && HasKeys(row.id)
    ensures ImmediateHold(Insert(db, row)) && DeleteRow(Insert(db, row), row.id) == Some(db)
  {
    var db' := Insert(db, row);
    assert !Blocked(db', row.id);
    assert db'.rows - {row.id} == db.rows;
  }

  /** A statement is accepted exactly if it breaks no constraint that is checked at
      once: an insertion has a new key, and after either all such references name
      existing rows. */
  lemma AcceptedIfNothingBreaks(db: Tables, row: Row, e: Entity)
    requires ImmediateHold(db)
    ensures Insertable(db, row)
            <==> (HasKeys(row.id) ==> row.id !in db.rows) && ImmediateHold(Insert(db, row))
    ensures HasKeys(e) ==> (DeleteRow(db, e).Some? <==> ImmediateHold(Without(db, {e})))
    ensures HasKeys(e) && DeleteRow(db, e).Some? ==> DeleteRow(db, e).value == Without(db, {e})
  {
    var db' := Insert(db, row);
    if ImmediateHold(db') && (HasKeys(row.id) ==> row.id !in db.rows) {
      NewRefsHold(db, row);
    }
    if HasKeys(e) {
      DeletionIsAccepted(db, e);
    }
  }

  lemma NewRefsHold(db: Tables, row: Row)
    requires ImmediateHold(Insert(db, row))
    ensures forall f :: f in row.refs ==>
              f.deferrable || f.target in db.rows || (HasKeys(row.id) && f.target == row.id)
  {
    var db' := Insert(db, row);
    if HasKeys(row.id) {
      assert db'.rows[row.id] == row.refs;
    } else {
      assert row in db'.loose;
    }
  }

  lemma DeletionIsAccepted(db: Tables, e: Entity)
    requires ImmediateHold(db) && HasKeys(e)
    ensures DeleteRow(db, e).Some? <==> ImmediateHold(Without(db, {e}))
    ensures DeleteRow(db, e).Some? ==> DeleteRow(db, e).value == Without(db, {e})
  {
    var d := Without(db, {e});
    if e !in db.rows {
      assert d.rows == db.rows;
    } else if Blocked(db, e) {
      assert e !in d.rows && Ref(e, false).target == e;
      if r :| r in db.rows && r != e && Ref(e, false) in db.rows[r] {
        assert r in d.rows && Ref(e, false) in d.rows[r];
      }
    } else {
      forall r, f | r in d.rows && f in d.rows[r] && !f.deferrable ensures f.target in d.rows {
        assert f == Ref(f.target, false);
      }
      forall l, f | l in d.loose && f in l.refs && !f.deferrable ensures f.target in d.rows {
        assert f == Ref(f.target, false);
      }
    }
  }

  /** What an insertion adds, and nothing else. */
  lemma InsertionAdds(db: Tables, row: Row)
    ensures var db' := Insert(db, row);
            && (HasKeys(row.id) ==>
                  && db'.loose == db.loose && row.id in db'.rows && db'.rows[row.id] == row.refs
                  && db'.rows - {row.id} == db.rows - {row.id})
            && (!HasKeys(row.id) ==> db'.rows == db.rows && db'.loose == db.loose + multiset{row})
  {
  }

  /** Every recorded row that names a recorded row at once was recorded after it. */
  ghost predicate Ordered(db: Tables, es: seq<Entity>) {
    forall i, r :: 0 <= i < |es| && HasKeys(es[i]) && es[i] in db.rows && es[i] !in es[i + 1..]
                   && HasKeys(r) && r in db.rows && r != es[i] && Ref(es[i], false) in db.rows[r] && r in es
                   ==> r in es[i + 1..]
  }

  /** Rows can be deleted in reverse order, and the others stay. */
  lemma {:induction false} OrderedRowsCanBeDeleted(db: Tables, es: seq<Entity>)
    requires Ordered(db, es) && Integral(Survivors(db, es))
    ensures DeleteAll(db, es) == Some(Survivors(db, es))
    decreases |es|
  {
    if es == [] {
      assert db.rows - KeyedOf(es) == db.rows;
    } else {
      var init, e := es[..|es| - 1], es[|es| - 1];
      assert es == init + [e];
      if HasKeys(e) && e in db.rows {
        NotBlocked(db, es);
      }
      var d := DeleteRow(db, e).value;
      assert KeyedOf(es) == KeyedOf(init) + if HasKeys(e) then {e} else {};
      assert d.rows - KeyedOf(init) == db.rows - KeyedOf(es);
      DroppingLastKeepsOrder(db, es, d);
      OrderedRowsCanBeDeleted(d, init);
      DeleteAllSplits(db, init, [e]);
      assert DeleteAll(db, [e]) == Some(d) by { assert [e][1..] == []; }
    }
  }

  lemma NotBlocked(db: Tables, es: seq<Entity>)
    requires es != [] && Ordered(db, es) && Integral(Survivors(db, es))
    requires HasKeys(es[|es| - 1]) && es[|es| - 1] in db.rows
    ensures !Blocked(db, es[|es| - 1])
  {
    var e := es[|es| - 1];
    assert e in KeyedOf(es);
    assert es[|es|..] == [];
    var rest := Survivors(db, es);
    assert e !in rest.rows;
    forall r | r in db.rows && r != e ensures Ref(e, false) !in db.rows[r] {
      assert r in rest.rows && Ref(e, false) in rest.rows[r] ==> Ref(e, false).target in rest.rows;
      assert r in rest.rows <==> !(r in es && HasKeys(r));
    }
    forall l | l in db.loose ensures Ref(e, false) !in l.refs {
      assert Ref(e, false) in l.refs ==> Ref(e, false).target in rest.rows;
    }
  }

  lemma DroppingLastKeepsOrder(db: Tables, es: seq<Entity>, d: Tables)
    requires es != [] && Ordered(db, es) && DeleteRow(db, es[|es| - 1]) == Some(d)
    ensures Ordered(d, es[..|es| - 1])
  {
    var init, e := es[..|es| - 1], es[|es| - 1];
    forall i, r | 0 <= i < |init| && HasKeys(init[i]) && init[i] in d.rows && init[i] !in init[i + 1..]
                  && HasKeys(r) && r in d.rows && r != init[i] && Ref(init[i], false) in d.rows[r] && r in init
      ensures r in init[i + 1..]
    {
      assert es[i + 1..] == init[i + 1..] + [e];
      assert es[i] !in es[i + 1..];
      assert es == init + [e];
      assert r in es[i + 1..];
    }
  }

  /** Fewer rows are still in order. */
  lemma OrderedSubset(db: Tables, d: Tables, es: seq<Entity>)
    requires Ordered(db, es)
    requires forall r :: r in d.rows ==> r in db.rows && d.rows[r] == db.rows[r]
    ensures Ordered(d, es)
  {
  }

  /** Deleting rows in reverse order succeeds only in an order in which no row
      still names, at once, the one that goes. */
  lemma {:induction false} DeletedRowsAreOrdered(db: Tables, es: seq<Entity>)
    requires DeleteAll(db, es).Some?
    ensures Ordered(db, es)
    decreases |es|
  {
    if es != [] {
      var init, e := es[..|es| - 1], es[|es| - 1];
      assert es == init + [e];
      DeleteAllSplits(db, init, [e]);
      assert [e][1..] == [] && DeleteAll(db, [e]) == DeleteRow(db, e);
      DeletedRowsAreOrdered(DeleteRow(db, e).value, init);
      AddingLastKeepsOrder(db, init, e);
    }
  }

  lemma AddingLastKeepsOrder(db: Tables, init: seq<Entity>, e: Entity)
    requires DeleteRow(db, e).Some? && Ordered(DeleteRow(db, e).value, init)
    ensures Ordered(db, init + [e])
  {
    var d, es := DeleteRow(db, e).value, init + [e];
    forall i, r | 0 <= i < |es| && HasKeys(es[i]) && es[i] in db.rows && es[i] !in es[i + 1..]
                  && HasKeys(r) && r in db.rows && r != es[i] && Ref(es[i], false) in db.rows[r] && r in es
      ensures r in es[i + 1..]
    {
      if i < |init| {
        assert es[i + 1..] == init[i + 1..] + [e];
        assert es[i] != e && es[i] in d.rows;
      }
    }
  }

  /** The cleaner's transaction succeeds exactly when every recorded row that is
      named at once by another was recorded before it, and no surviving row names
      a recorded one, be that checked at once or deferred. */
  lemma DeletionSucceedsIff(db: Tables, es: seq<Entity>)
    requires Integral(db)
    ensures Deletes(db, es) <==> Ordered(db, es) && Integral(Survivors(db, es))
  {
    if Ordered(db, es) && Integral(Survivors(db, es)) {
      OrderedRowsCanBeDeleted(db, es);
    }
    if Deletes(db, es) {
      DeletedRowsAreOrdered(db, es);
      DeletingLeavesSurvivors(db, es);
      ImmediateRefsSurvive(db, es);
    }
  }

  /** A row that is not deleted keeps the rows it names at once. */
  lemma {:induction false} ImmediateRefsSurvive(db: Tables, es: seq<Entity>)
    requires ImmediateHold(db) && DeleteAll(db, es).Some?
    ensures var d := DeleteAll(db, es).value;
            && ImmediateHold(d) && d.loose == db.loose
            && (forall r :: r in d.rows ==> r in db.rows && d.rows[r] == db.rows[r])
  {
    if es != [] {
      ImmediateRefsSurvive(db, es[1..]);
      var d := DeleteAll(db, es).value;
      forall r, f | r in d.rows && f in d.rows[r] && !f.deferrable ensures f.target in d.rows {
        assert f == Ref(f.target, false);
      }
      forall l, f | l in d.loose && f in l.refs && !f.deferrable ensures f.target in d.rows {
        assert f == Ref(f.target, false);
      }
    }
  }
}
