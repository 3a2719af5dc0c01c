/**
  The recording hook and the cleaning function of `DeleteCreatedEntities`, over
  a gorm handle and a Postgres transaction.
 */
module Cleaner {
  import opened Wrappers
  import opened ForeignKeys
  import opened History

  datatype Config = Config(cleanTestData: bool, reportErrors: bool)

  datatype CleanError = NoPrimaryKeys(table: string) | DeleteFailed(table: string) | CommitFailed

  /** Which statements of one cleaning fail for reasons of their own. */
  datatype Faults = Faults(setConstraints: bool, delete: nat -> bool, commit: bool)

  ghost predicate NoFaults(faults: Faults) {
    !faults.setConstraints && !faults.commit && forall i :: !faults.delete(i)
  }

  /** How the loop over the recorded entities ends: at the first error that is
      to be reported, or after the last deletion. */
  datatype LoopEnd = Broke(err: CleanError) | Finished(work: Tables, aborted: bool)

  /** The deletions of es[..n], the last entity first, in a transaction that is
      at `work`. */
  function DeleteLoop(work: Tables, aborted: bool, es: seq<Entity>, n: nat, report: bool, faults: Faults): LoopEnd
    requires n <= |es|
    decreases n
  {
    if n == 0 then Finished(work, aborted)
    else
      var e := es[n - 1];
      if !HasKeys(e) then
        if report then Broke(NoPrimaryKeys(e.table)) else DeleteLoop(work, aborted, es, n - 1, report, faults)
      else if aborted || faults.delete(n - 1) || DeleteRow(work, e).None? then
        if report then Broke(DeleteFailed(e.table)) else DeleteLoop(work, true, es, n - 1, report, faults)
      else
        DeleteLoop(DeleteRow(work, e).value, false, es, n - 1, report, faults)
  }

  /** The committed database and the error after a cleaning in a transaction of
      its own. */
  function Cleaned(db: Tables, es: seq<Entity>, report: bool, faults: Faults): (Tables, Option<CleanError>) {
    match DeleteLoop(db, faults.setConstraints, es, |es|, report, faults)
    case Broke(err) => (db, Some(err))
    case Finished(work, aborted) =>
      if aborted || faults.commit || !DeferredHold(work) then (db, if report then Some(CommitFailed) else None)
      else (work, None)
  }

  lemma {:induction false} LoopDeletesAll(work: Tables, aborted: bool, es: seq<Entity>, n: nat, report: bool, faults: Faults)
    requires n <= |es|
    ensures match DeleteLoop(work, aborted, es, n, report, faults)
            case Broke(_) =>
              && report
              && (NoFaults(faults) && !aborted && AllHaveKeys(es[..n]) ==> DeleteAll(work, es[..n]).None?)
            case Finished(end, failed) =>
              && (!failed ==> !aborted && DeleteAll(work, es[..n]) == Some(end))
              && (failed && NoFaults(faults) ==> aborted || DeleteAll(work, es[..n]).None?)
              && (report ==> AllHaveKeys(es[..n]) && (failed ==> n == 0))
    decreases n
  {
    if n > 0 {
      var e := es[n - 1];
      assert es[..n] == es[..n - 1] + [e];
      DeleteAllSplits(work, es[..n - 1], [e]);
      assert [e][1..] == [];
      assert DeleteAll(work, [e]) == DeleteRow(work, e);
      var failed := HasKeys(e) && (aborted || faults.delete(n - 1) || DeleteRow(work, e).None?);
      if !failed {
        LoopDeletesAll(DeleteRow(work, e).value, aborted, es, n - 1, report, faults);
      } else if !report {
        LoopDeletesAll(work, true, es, n - 1, report, faults);
      }
      assert HasKeys(e) || (e in es[..n] && !AllHaveKeys(es[..n]));
    }
  }

  /** A cleaning removes everything or changes nothing. It reports only when it
      was asked to, and then it reports that nothing was changed. Without faults
      the database alone decides. */
  lemma CleanedAllOrNothing(db: Tables, es: seq<Entity>, report: bool, faults: Faults)
    ensures var (after, err) := Cleaned(db, es, report, faults);
            && (!report ==> err.None?)
            && (after == db || (Deletes(db, es) && Some(after) == DeleteAll(db, es)))
            && (report ==> if err.None? then AllHaveKeys(es) && Some(after) == DeleteAll(db, es) else after == db)
            && (NoFaults(faults) ==>
                  if Deletes(db, es) && (report ==> AllHaveKeys(es)) then err.None? && Some(after) == DeleteAll(db, es)
                  else after == db && (report ==> err.Some?))
  {
    LoopDeletesAll(db, faults.setConstraints, es, |es|, report, faults);
    assert es[..|es|] == es;
  }

  /** The entity at which the deletions stop, if an error is to be reported: the
      last one that has no keys or cannot be deleted. */
  ghost predicate StopsAt(db: Tables, es: seq<Entity>, i: nat) {
    && i < |es| && AllHaveKeys(es[i + 1..]) && DeleteAll(db, es[i + 1..]).Some?
    && (HasKeys(es[i]) ==> DeleteAll(db, es[i..]).None?)
  }

  lemma {:induction false} LoopStopsAt(db: Tables, work: Tables, es: seq<Entity>, n: nat, faults: Faults)
    requires n <= |es| && NoFaults(faults)
    requires AllHaveKeys(es[n..]) && DeleteAll(db, es[n..]) == Some(work)
    ensures match DeleteLoop(work, false, es, n, true, faults)
            case Finished(_, failed) => !failed
            case Broke(err) =>
              exists i: nat :: StopsAt(db, es, i)
                          && err == if HasKeys(es[i]) then DeleteFailed(es[i].table) else NoPrimaryKeys(es[i].table)
    decreases n
  {
    if n > 0 {
      var e := es[n - 1];
      assert es[n - 1..] == [e] + es[n..] && es[n - 1..][1..] == es[n..];
      if !HasKeys(e) || DeleteRow(work, e).None? {
        assert StopsAt(db, es, n - 1) by { assert es[n - 1 + 1..] == es[n..]; }
      } else {
        LoopStopsAt(db, DeleteRow(work, e).value, es, n - 1, faults);
      }
    }
  }

  /** What is reported: the table of the entity at which the deletions stop, or
      that the commit has failed after all of them. */
  lemma CleanedReportsWhy(db: Tables, es: seq<Entity>, faults: Faults)
    requires NoFaults(faults)
    ensures match Cleaned(db, es, true, faults).1
            case None => true
            case Some(NoPrimaryKeys(table)) => exists i: nat :: StopsAt(db, es, i) && !HasKeys(es[i]) && es[i].table == table
            case Some(DeleteFailed(table)) => exists i: nat :: StopsAt(db, es, i) && HasKeys(es[i]) && es[i].table == table
            case Some(CommitFailed) => DeleteAll(db, es).Some? && !DeferredHold(DeleteAll(db, es).value)
  {
    assert es[|es|..] == [] && es[..|es|] == es;
    LoopStopsAt(db, db, es, |es|, faults);
    LoopDeletesAll(db, false, es, |es|, true, faults);
  }

  /** A transaction; after a failed statement Postgres rejects the following
      ones, and turns a commit into a rollback that reports an error. */
  class Transaction {
    var work: Tables
    var aborted: bool
    var ended: bool

    constructor (db: Tables)
      ensures work == db && !aborted && !ended
    {
      work, aborted, ended := db, false, false;
    }

    /** SET CONSTRAINTS ALL DEFERRED */
    method SetConstraintsDeferred(fault: bool) returns (err: bool)
      modifies this
      ensures work == old(work) && ended == old(ended)
      ensures err == (old(aborted) || fault) && aborted == err
    {
      err := aborted || fault;
      aborted := err;
    }

    method Insert(row: Row) returns (err: bool)
      modifies this
      ensures ended == old(ended) && aborted == err
      ensures err == (old(aborted) || !Insertable(old(work), row))
      ensures work == if err then old(work) else ForeignKeys.Insert(old(work), row)
    {
      err := aborted || !Insertable(work, row);
      if err {
        aborted := true;
      } else {
        work := ForeignKeys.Insert(work, row);
      }
    }

    method Delete(e: Entity, fault: bool) returns (err: bool)
      modifies this
      ensures ended == old(ended) && aborted == err
      ensures err == (old(aborted) || fault || DeleteRow(old(work), e).None?)
      ensures if err then work == old(work) else Some(work) == DeleteRow(old(work), e)
    {
      err := aborted || fault || DeleteRow(work, e).None?;
      if err {
        aborted := true;
      } else {
        work := DeleteRow(work, e).value;
      }
    }

    method DeleteLoose(row: Row) returns (err: bool)
      modifies this
      ensures ended == old(ended) && aborted == err == old(aborted)
      ensures work == if err then old(work) else ForeignKeys.DeleteLoose(old(work), row)
    {
      err := aborted;
      if !err {
        work := ForeignKeys.DeleteLoose(work, row);
      }
    }

    method Commit(db: Gorm, fault: bool) returns (err: bool)
      modifies this, db`committed, db`finished
      ensures ended && work == old(work) && db.finished == old(db.finished) + if old(ended) then 0 else 1
      ensures err == (old(aborted) || fault || !DeferredHold(work))
      ensures db.committed == if err then old(db.committed) else work
    {
      err := aborted || fault || !DeferredHold(work);
      End(db);
      if !err {
        db.committed := work;
      }
    }

    method Rollback(db: Gorm)
      modifies this, db`finished
      ensures ended && work == old(work) && db.finished == old(db.finished) + if old(ended) then 0 else 1
    {
      End(db);
    }

    method End(db: Gorm)
      modifies this`ended, db`finished
      ensures ended && db.finished == old(db.finished) + if old(ended) then 0 else 1
    {
      if !ended {
        db.finished := db.finished + 1;
      }
      ended := true;
    }
  }

  /** The handle of the test database, with its registered create hooks. */
  class Gorm {
    var committed: Tables
    var hooks: seq<Recorder>
    // How many transactions have been begun, and have ended.
    var begun: nat
    var finished: nat

    constructor (db: Tables)
      ensures committed == db && hooks == [] && begun == finished == 0
    {
      committed, hooks, begun, finished := db, [], 0, 0;
    }

    method Begin() returns (tx: Transaction)
      modifies this`begun
      ensures begun == old(begun) + 1
      ensures fresh(tx) && tx.work == committed && !tx.aborted && !tx.ended
    {
      begun := begun + 1;
      tx := new Transaction(committed);
    }

    ghost predicate Valid()
      reads this
    {
      Distinct(hooks)
    }

    method RunHooks(e: Entity)
      requires Valid()
      modifies hooks
      ensures forall h :: h in hooks ==> h.entities == old(h.entities) + [e]
    {
      for i := 0 to |hooks|
        invariant forall k :: 0 <= k < i ==> hooks[k].entities == old(hooks[k].entities) + [e]
        invariant forall k :: i <= k < |hooks| ==> hooks[k].entities == old(hooks[k].entities)
      {
        hooks[i].Record(e);
      }
    }

    /** tx.Create(): the hooks run once for each row that was inserted, whatever
        becomes of the transaction. */
    method CreateIn(tx: Transaction, row: Row) returns (err: bool)
      requires Valid()
      modifies tx, hooks
      ensures tx.ended == old(tx.ended) && tx.aborted == err
      ensures err == (old(tx.aborted) || !Insertable(old(tx.work), row))
      ensures tx.work == if err then old(tx.work) else Insert(old(tx.work), row)
      ensures forall h :: h in hooks ==> h.entities == old(h.entities) + if err then [] else [row.id]
    {
      err := tx.Insert(row);
      if !err {
        RunHooks(row.id);
      }
    }

    /** db.Create(), in a transaction of its own. */
    method Create(row: Row) returns (err: bool)
      requires Valid()
      modifies this`committed, this`begun, this`finished, hooks
      ensures err == (!Insertable(old(committed), row) || !DeferredHold(Insert(old(committed), row)))
      ensures committed == if err then old(committed) else Insert(old(committed), row)
      ensures begun == old(begun) + 1 && finished == old(finished) + 1
      ensures forall h :: h in hooks ==>
                h.entities == old(h.entities) + if Insertable(old(committed), row) then [row.id] else []
    {
      var tx := Begin();
      err := CreateIn(tx, row);
      if err {
        tx.Rollback(this);
      } else {
        err := tx.Commit(this, false);
      }
    }

    /** `more` is what the hooks record. */
    method RunStatement(tx: Transaction, x: Statement, ghost w: Work) returns (ghost more: seq<Entity>)
      requires Valid() && tx.work == w.at.db && tx.aborted == w.aborted
      modifies tx, hooks
      ensures tx.ended == old(tx.ended)
      ensures var w' := PlayStatement(w, x);
              w'.at.recorded == w.at.recorded + more && tx.work == w'.at.db && tx.aborted == w'.aborted
      ensures forall h :: h in hooks ==> h.entities == old(h.entities) + more
    {
      var err;
      more := [];
      match x {
        case Insertion(row, recorded) =>
          if recorded {
            err := CreateIn(tx, row);
            more := if err then [] else [row.id];
          } else {
            err := tx.Insert(row);
          }
        case Deletion(e) =>
          err := tx.Delete(e, false);
        case LooseDeletion(row) =>
          err := tx.DeleteLoose(row);
      }
    }

    method RunStatements(tx: Transaction, xs: seq<Statement>, ghost p: Played) returns (ghost more: seq<Entity>)
      requires Valid() && tx.work == p.db && !tx.aborted
      modifies tx, hooks
      ensures tx.ended == old(tx.ended)
      ensures var w := PlayStatements(p, xs);
              w.at.recorded == p.recorded + more && tx.work == w.at.db && tx.aborted == w.aborted
      ensures forall h :: h in hooks ==> h.entities == old(h.entities) + more
      decreases |xs|
    {
      more := [];
      if xs != [] {
        var n := |xs| - 1;
        more := RunStatements(tx, xs[..n], p);
        ghost var last := RunStatement(tx, xs[n], PlayStatements(p, xs[..n]));
        more := more + last;
      }
    }

    /** A transaction. Raw inserts and deletions pass by the hooks. */
    method RunBatch(b: Batch, ghost p: Played)
      requires Valid() && p.db == committed
      modifies this`committed, this`begun, this`finished, hooks
      ensures begun == old(begun) + 1 && finished == old(finished) + 1
      ensures var p' := PlayBatch(p, b);
              && p.recorded <= p'.recorded && committed == p'.db
              && forall h :: h in hooks ==> h.entities == old(h.entities) + p'.recorded[|p.recorded|..]
    {
      var tx := Begin();
      ghost var more := RunStatements(tx, b.statements, p);
      assert (p.recorded + more)[|p.recorded|..] == more;
      if b.commit {
        var _ := tx.Commit(this, false);
      } else {
        tx.Rollback(this);
      }
    }

    method RemoveHook(h: Recorder)
      requires Valid()
      modifies this`hooks
      ensures Valid() && hooks == WithoutHook(old(hooks), h)
    {
      WithoutHookDistinct(hooks, h);
      hooks := WithoutHook(hooks, h);
    }
  }

  ghost predicate Distinct(hooks: seq<Recorder>) {
    forall i, j :: 0 <= i < j < |hooks| ==> hooks[i] != hooks[j]
  }

  function WithoutHook(hooks: seq<Recorder>, h: Recorder): (r: seq<Recorder>)
    ensures h !in r && forall g :: g in hooks && g != h ==> g in r
    ensures forall g :: g in r ==> g in hooks
  {
    if hooks == [] then []
    else if hooks[0] == h then WithoutHook(hooks[1..], h)
    else [hooks[0]] + WithoutHook(hooks[1..], h)
  }

  /** The other hooks stay, in their order. */
  lemma {:induction false} WithoutHookCutsOut(a: seq<Recorder>, h: Recorder, b: seq<Recorder>)
    requires h !in a && h !in b
    ensures WithoutHook(a + [h] + b, h) == a + b
    decreases |a| + |b|
  {
    var hooks := a + [h] + b;
    if a != [] {
      WithoutHookCutsOut(a[1..], h, b);
      assert hooks[1..] == a[1..] + [h] + b;
      assert [a[0]] + (a[1..] + b) == a + b;
    } else {
      assert hooks[1..] == b && a + b == b;
      WithoutOther(b, h);
    }
  }

  lemma {:induction false} WithoutOther(b: seq<Recorder>, h: Recorder)
    requires h !in b
    ensures WithoutHook(b, h) == b
  {
    if b != [] {
      WithoutOther(b[1..], h);
    }
  }

  lemma {:induction false} WithoutHookDistinct(hooks: seq<Recorder>, h: Recorder)
    requires Distinct(hooks)
    ensures Distinct(WithoutHook(hooks, h))
  {
    if hooks != [] {
      WithoutHookDistinct(hooks[1..], h);
      assert hooks[0] !in hooks[1..];
      assert hooks[0] !in WithoutHook(hooks[1..], h);
    }
  }

  /** What `DeleteCreatedEntities` returns: the recorded entities, captured by
      the hook and by the cleaning closure. */
  class Recorder {
    const config: Config
    var entities: seq<Entity>

    constructor (db: Gorm, config: Config)
      requires db.Valid()
      modifies db`hooks
      ensures this.config == config && entities == []
      ensures fresh(this) && db.hooks == old(db.hooks) + [this] && db.Valid()
    {
      this.config := config;
      entities := [];
      new;
      db.hooks := db.hooks + [this];
    }

    method Record(e: Entity)
      modifies this
      ensures entities == old(entities) + [e]
    {
      entities := entities + [e];
    }

    /** The loop over the recorded entities, the last one first. */
    method DeleteRecorded(tx: Transaction, faults: Faults) returns (err: Option<CleanError>)
      modifies tx
      ensures tx.ended == old(tx.ended)
      ensures DeleteLoop(old(tx.work), old(tx.aborted), entities, |entities|, config.reportErrors, faults)
              == if err.None? then Finished(tx.work, tx.aborted) else Broke(err.value)
    {
      err := None;
      ghost var end := DeleteLoop(tx.work, tx.aborted, entities, |entities|, config.reportErrors, faults);
      var i := |entities| - 1;
      while i >= 0
        invariant -1 <= i < |entities| && unchanged(this)
        invariant tx.ended == old(tx.ended) && err.None?
        invariant end == DeleteLoop(tx.work, tx.aborted, entities, i + 1, config.reportErrors, faults)
      {
        var entity := entities[i];
        if entity.keys == map[] {
          if config.reportErrors {
            err := Some(NoPrimaryKeys(entity.table));
            break;
          }
        } else {
          var failed := tx.Delete(entity, faults.delete(i));
          if failed && config.reportErrors {
            err := Some(DeleteFailed(entity.table));
            break;
          }
        }
        i := i - 1;
      }
    }

    /** `caller` is the transaction the handle already is, if it is one. */
    method Clean(db: Gorm, caller: Transaction?, faults: Faults) returns (err: Option<CleanError>)
      requires db.Valid()
      modifies db, caller
      ensures db.Valid() && db.hooks == WithoutHook(old(db.hooks), this)
      // a transaction of its own is ended in any case
      ensures caller == null ==> db.begun == old(db.begun) + 1 && db.finished == old(db.finished) + 1
      ensures caller != null ==> db.begun == old(db.begun)
      ensures !config.reportErrors ==> err.None?
      ensures caller == null ==>
                && (db.committed, err) == Cleaned(old(db.committed), entities, config.reportErrors, faults)
                && (db.committed == old(db.committed)
                    || (Some(db.committed) == DeleteAll(old(db.committed), entities) && DeferredHold(db.committed)))
                && (config.reportErrors ==>
                      if err.None? then AllHaveKeys(entities) && Some(db.committed) == DeleteAll(old(db.committed), entities)
                      else db.committed == old(db.committed))
      // without faults, the outcome is decided by the database alone
      ensures caller == null && NoFaults(faults) ==>
                if Deletes(old(db.committed), entities) && (config.reportErrors ==> AllHaveKeys(entities))
                then err.None? && Some(db.committed) == DeleteAll(old(db.committed), entities)
                else db.committed == old(db.committed) && (config.reportErrors ==> err.Some?)
      // inside a caller's transaction nothing is committed here; an error ends that transaction
      ensures caller != null ==> db.committed == old(db.committed)
      ensures caller != null ==> if err.Some? then caller.ended else caller.ended == old(caller.ended)
      ensures caller != null && config.reportErrors && err.None? ==>
                AllHaveKeys(entities) && Some(caller.work) == DeleteAll(old(caller.work), entities)
      ensures caller != null && err.None? ==>
                Finished(caller.work, caller.aborted)
                == DeleteLoop(old(caller.work), old(caller.aborted) || faults.setConstraints, entities, |entities|, config.reportErrors, faults)
    {
      var inTransaction := caller != null;
      var tx: Transaction;
      if caller == null {
        tx := db.Begin();
      } else {
        tx := caller;
      }
      ghost var start := tx.work;
      // An error of this statement is only logged.
      var setErr := tx.SetConstraintsDeferred(faults.setConstraints);
      LoopDeletesAll(start, setErr, entities, |entities|, config.reportErrors, faults);
      CleanedAllOrNothing(start, entities, config.reportErrors, faults);
      assert entities[..|entities|] == entities;
      var resultErr := DeleteRecorded(tx, faults);
      if resultErr.None? && !inTransaction {
        var failed := tx.Commit(db, faults.commit);
        if failed && config.reportErrors {
          resultErr := Some(CommitFailed);
        }
      } else if resultErr.Some? {
        tx.Rollback(db);
      }
      db.RemoveHook(this);
      return resultErr;
    }
  }
}
