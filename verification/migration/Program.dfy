/**
  `Migrate`, `migrateToNextVersion` and `getCurrentVersion` as programs over the
  shared protocol state. The scheduler and the network are a parameter: before
  each statement it runs any moves of the server and of other replicas, and then
  says whether the statement reaches the server.
 */
module Program {
  import opened Wrappers
  import opened Scripts
  import opened Effects
  import opened Protocol
  import opened Invariant
  import opened Guarantees
  import opened Termination
  import opened Undisturbed

  datatype MigrateError =
    | CannotBegin
    | CannotLock
    | CannotReadVersion
    | StepFailed(step: nat, version: int)
    | InsertFailed(version: int)
    | CannotRollBack
    | CannotCommit

  /** A run after which the database is at version v, and p has the lock. */
  ghost predicate ReadsVersion(base: Database, run: seq<Move>, p: Pid, v: int) {
    match Exec(Initial(base), run)
    case None => false
    case Some(s) => s.lock == Some(p) && WellFormed(s.db) && Version(s.db) == v
  }

  /** What a failed statement of a migrator is reported as. */
  function ErrorOf(m: Migrator): Option<MigrateError> {
    match m.phase
    case Head => Some(CannotBegin)
    case Locking => Some(CannotLock)
    case Checking => Some(CannotReadVersion)
    case Reading => Some(CannotReadVersion)
    case Stepping(j) => Some(StepFailed(j, m.next))
    case Inserting => Some(InsertFailed(m.next))
    case RollingBack => Some(CannotRollBack)
    case Awaiting => Some(CannotCommit)
    case _ => None
  }

  datatype Weather = Weather(before: seq<Move>, ok: bool)

  predicate Foreign(move: Move, p: Pid) {
    move.pid != p || ByServer(move)
  }

  /** What foreign moves leave of p: everything but an open session, which the
      server may end. */
  ghost predicate SameClient(s: State, s': State, p: Pid) {
    && p in s.migrators && p in s'.migrators
    && s'.migrators[p].scripts == s.migrators[p].scripts
    && s'.migrators[p].phase == s.migrators[p].phase
    && s'.migrators[p].next == s.migrators[p].next
    && s'.migrators[p].begun == s.migrators[p].begun
  }

  predicate CommitPending(s: State, p: Pid) {
    HasOpen(s, p) && s.migrators[p].session.commitRequested
  }

  /** The loop variable of Migrate, of which the callee gets the address. */
  class Counter {
    var value: int

    constructor ()
      ensures value == 0
    {
      value := 0;
    }
  }

  class Cluster {
    var s: State
    ghost var trace: seq<Move>
    ghost const release: Migrations
    ghost const base: Database

    /** The state is the end of a run of the protocol. */
    ghost predicate Valid()
      reads this
    {
      && Uses(trace, release)
      && Inv(release, base, s)
      && Exec(Initial(base), trace) == Some(s)
    }

    constructor (db: Database, ghost release: Migrations)
      requires WellFormed(db)
      ensures Valid() && s == Initial(db) && base == db && this.release == release
    {
      s := Initial(db);
      trace := [];
      this.release := release;
      base := db;
      new;
      InitialInv(release, db);
    }

    method Fire(move: Move)
      requires Valid() && Enabled(s, move)
      requires move.Start? ==> move.scripts <= release
      modifies this
      ensures Valid() && s == Do(old(s), move) && trace == old(trace) + [move]
      ensures Version(s.db) >= Version(old(s).db)
      ensures s.db != old(s).db ==> move.ServerCommits? && old(s).lock == Some(move.pid)
    {
      StepPreservesInv(release, base, s, move);
      OnlyTheLockHolderAdvances(release, base, s, move);
      ExecGrows(Initial(base), trace, move);
      s := Do(s, move);
      trace := trace + [move];
    }
  }

  class Replica {
    const cluster: Cluster
    const pid: Pid
    const schedule: nat -> Weather
    var tick: nat
    // The run so far and the database when this process came up.
    ghost const past: seq<Move>
    ghost const before: Database
    // Where in the run this process has started.
    ghost var started: Option<nat>
    // Nothing has gone wrong so far, and nothing will.
    ghost var sails: bool

    constructor (cluster: Cluster, pid: Pid, schedule: nat -> Weather)
      requires cluster.Valid()
      requires forall t: nat, move :: move in schedule(t).before && move.Start? ==> move.scripts <= cluster.release
      ensures Valid()
      ensures this.cluster == cluster && this.pid == pid && this.schedule == schedule
      ensures past == cluster.trace && before == cluster.s.db && started.None? && tick == 0
    {
      this.cluster := cluster;
      this.pid := pid;
      this.schedule := schedule;
      tick, started, sails := 0, None, false;
      past := cluster.trace;
      before := cluster.s.db;
    }

    ghost predicate Valid()
      reads this, cluster
    {
      RunsWell() && (sails ==> Fair() && Sails(cluster.s, pid))
    }

    ghost predicate RunsWell()
      reads this, cluster
    {
      && cluster.Valid()
      && past <= cluster.trace
      && WellFormed(before) && Reached(cluster.release, cluster.base, before)
      && Version(before) <= Version(cluster.s.db)
      && (started.Some? ==> Started(started.value))
      && forall t: nat, move :: move in schedule(t).before && move.Start? ==> move.scripts <= cluster.release
    }

    /** Nobody but this replica, and the server on its behalf, is at work. */
    ghost predicate Alone() {
      forall t: nat, move :: move in schedule(t).before ==> move.pid == pid
    }

    ghost predicate Started(i: nat)
      reads this, cluster
    {
      && i < |cluster.trace| && cluster.trace[i].Start? && cluster.trace[i].pid == pid
      && pid in cluster.s.migrators && cluster.s.migrators[pid].scripts == cluster.trace[i].scripts
      && (Alone() ==> forall k :: i <= k < |cluster.trace| ==> cluster.trace[k].pid == pid)
    }

    predicate Has(phase: Phase)
      reads this, cluster
    {
      At(cluster.s, pid, phase)
    }

    /** This replica runs the list `m`, and its loop counter is `next`. */
    ghost predicate Runs(m: Migrations, next: int)
      reads this, cluster
    {
      pid in cluster.s.migrators && cluster.s.migrators[pid].scripts == m && cluster.s.migrators[pid].next == next
    }

    /** The last move was made where p fails with this error. */
    ghost predicate BrokeOff(err: MigrateError)
      reads cluster
    {
      cluster.trace != [] && BrokeAt(Exec(Initial(cluster.base), cluster.trace[..|cluster.trace| - 1]), err)
    }

    ghost predicate BrokeAt(before: Option<State>, err: MigrateError) {
      before.Some? && pid in before.value.migrators && ErrorOf(before.value.migrators[pid]) == Some(err)
    }

    /** Every statement gets through at once, and the server carries out every
        commit that is asked for; there is nothing else. */
    ghost predicate Fair() {
      forall t: nat :: schedule(t) == Weather([ServerCommits(pid)], true)
    }

    ghost predicate Onward(trace: seq<Move>, since: Option<nat>, sailing: bool)
      reads this, cluster
    {
      trace <= cluster.trace && started == since && (sailing ==> sails)
    }

    /** A move of this replica, or of anybody as its schedule has it. */
    method Act(move: Move)
      requires Valid() && Enabled(cluster.s, move) && (Alone() ==> move.pid == pid)
      requires move.Start? ==> move.scripts <= cluster.release
      modifies this`sails, cluster
      ensures Onward(old(cluster.trace), old(started), old(sails && IsDue(cluster.s, pid, move)))
      ensures Valid() && cluster.s == Do(old(cluster.s), move) && cluster.trace == old(cluster.trace) + [move]
      ensures cluster.trace[..|cluster.trace| - 1] == old(cluster.trace)
      ensures Version(cluster.s.db) >= Version(old(cluster.s).db)
      ensures cluster.s.db != old(cluster.s).db ==> move.ServerCommits? && old(cluster.s).lock == Some(move.pid)
    {
      sails := sails && IsDue(cluster.s, pid, move);
      if sails {
        SailsOn(cluster.release, cluster.base, cluster.s, pid);
      }
      Push(move);
    }

    method Push(move: Move)
      requires RunsWell() && Enabled(cluster.s, move) && (Alone() ==> move.pid == pid)
      requires move.Start? ==> move.scripts <= cluster.release
      modifies cluster
      ensures RunsWell() && cluster.s == Do(old(cluster.s), move) && cluster.trace == old(cluster.trace) + [move]
      ensures cluster.trace[..|cluster.trace| - 1] == old(cluster.trace)
      ensures Version(cluster.s.db) >= Version(old(cluster.s).db)
      ensures cluster.s.db != old(cluster.s).db ==> move.ServerCommits? && old(cluster.s).lock == Some(move.pid)
    {
      ScriptsLast(cluster.s, move);
      cluster.Fire(move);
    }

    /** The others move; then the next statement gets through, or not. */
    method Wait() returns (ok: bool)
      requires Valid() && (pid in cluster.s.migrators ==> !Dead(cluster.s.migrators[pid]))
      modifies this, cluster
      ensures Onward(old(cluster.trace), old(started), old(sails))
      ensures Valid()
      ensures Undisturbing(old(cluster.s), cluster.s)
      // the schedule is carried out
      ensures ok == schedule(old(tick)).ok && tick == old(tick) + 1
      ensures cluster.s == After(old(cluster.s), schedule(old(tick)).before, pid)
      ensures old(sails) ==> ok && !CommitPending(cluster.s, pid)
    {
      var weather := schedule(tick);
      tick := tick + 1;
      ok := weather.ok;
      CarryAll(weather.before);
    }

    method CarryAll(moves: seq<Move>)
      requires Valid() && (forall move :: move in moves ==> Scheduled(move))
      requires pid in cluster.s.migrators ==> !Dead(cluster.s.migrators[pid])
      modifies this`sails, cluster
      ensures Onward(old(cluster.trace), old(started), old(sails))
      ensures Valid()
      ensures Undisturbing(old(cluster.s), cluster.s)
      ensures cluster.s == After(old(cluster.s), moves, pid)
      ensures old(sails) && moves != [] ==> !CommitPending(cluster.s, pid)
      decreases |moves|
    {
      if moves != [] {
        CarryAll(moves[..|moves| - 1]);
        Carry(moves[|moves| - 1]);
      }
    }

    ghost predicate Scheduled(move: Move) {
      exists t: nat :: move in schedule(t).before
    }

    /** What a move of the schedule leaves as it is for this replica. */
    ghost predicate Undisturbing(s: State, s': State) {
      && (pid in s.migrators ==>
            && SameClient(s, s', pid)
            && (HasOpen(s', pid) ==> s'.migrators[pid].session == s.migrators[pid].session))
      && (pid !in s.migrators ==> pid !in s'.migrators)
      && WellFormed(s.db) && WellFormed(s'.db) && Version(s'.db) >= Version(s.db)
      && (Alone() && !CommitPending(s, pid) ==> s'.db == s.db)
    }

    /** A move of the schedule, if it is for others to make, and possible. */
    method Carry(move: Move)
      requires Valid() && Scheduled(move)
      requires pid in cluster.s.migrators ==> !Dead(cluster.s.migrators[pid])
      modifies this`sails, cluster
      ensures Onward(old(cluster.trace), old(started), old(sails))
      ensures Valid()
      ensures Undisturbing(old(cluster.s), cluster.s)
      ensures cluster.s == if Foreign(move, pid) && Enabled(old(cluster.s), move) then Do(old(cluster.s), move) else old(cluster.s)
      ensures old(sails) ==> !CommitPending(cluster.s, pid)
    {
      if sails && CommitPending(cluster.s, pid) {
        PendingIsDue(cluster.release, cluster.base, cluster.s, pid);
      }
      if Foreign(move, pid) && Enabled(cluster.s, move) {
        ForeignMove(cluster.s, move, pid);
        Act(move);
      }
    }

    /** Sends one statement of the open transaction. When it succeeds, `seen` is
        what the transaction sees at that moment. */
    method Statement(move: Move) returns (ok: bool, seen: Database, ghost at: State, ghost run: seq<Move>)
      requires Valid() && pid in cluster.s.migrators && InStatement(cluster.s.migrators[pid])
      requires Sends(cluster.s.migrators[pid], pid, move)
      modifies this, cluster
      ensures Onward(old(cluster.trace), old(started), old(sails))
      ensures Valid()
      ensures SameClient(old(cluster.s), at, pid) && Inv(cluster.release, cluster.base, at)
      ensures ok ==> Enabled(at, move) && HasOpen(at, pid) && cluster.s == Do(at, move) && seen == View(at, pid)
      ensures old(cluster.trace) <= run <= cluster.trace && Exec(Initial(cluster.base), run) == Some(at)
      ensures !ok ==> cluster.trace != [] && Exec(Initial(cluster.base), cluster.trace[..|cluster.trace| - 1]) == Some(at)
      ensures !ok ==> Runs(at.migrators[pid].scripts, at.migrators[pid].next)
      ensures ok <==> !Has(RollingBack)
      ensures at.db == cluster.s.db
      ensures Alone() ==> cluster.s.db == old(cluster.s).db
    {
      assert MigratorHolds(cluster.release, cluster.s, pid);
      var reached := Wait();
      at, run := cluster.s, cluster.trace;
      if sails {
        StatementIsDue(cluster.release, cluster.base, cluster.s, pid, move);
      }
      ok, seen := Send(move, reached);
    }

    method Send(move: Move, reached: bool) returns (ok: bool, seen: Database)
      requires Valid() && pid in cluster.s.migrators && InStatement(cluster.s.migrators[pid])
      requires Sends(cluster.s.migrators[pid], pid, move)
      modifies this`sails, cluster
      ensures Onward(old(cluster.trace), old(started), reached && old(sails) && IsDue(old(cluster.s), pid, move))
      ensures reached && HasOpen(old(cluster.s), pid) && Enabled(old(cluster.s), move) ==> cluster.s == Do(old(cluster.s), move)
      ensures Valid() && cluster.s.db == old(cluster.s).db
      ensures ok ==> Enabled(old(cluster.s), move) && HasOpen(old(cluster.s), pid)
                     && cluster.s == Do(old(cluster.s), move) && seen == View(old(cluster.s), pid)
      ensures !ok ==> cluster.trace != [] && cluster.trace[..|cluster.trace| - 1] == old(cluster.trace)
      ensures !ok ==> Runs(old(cluster.s).migrators[pid].scripts, old(cluster.s).migrators[pid].next)
      ensures ok <==> !Has(RollingBack)
    {
      seen := if HasOpen(cluster.s, pid) then View(cluster.s, pid) else cluster.s.db;
      if reached && HasOpen(cluster.s, pid) && Enabled(cluster.s, move) {
        StatementKeepsClient(cluster.s, move);
        Act(move);
        ok := !Has(RollingBack);
      } else {
        Act(StatementFails(pid));
        ok := false;
      }
    }

    /** An error about version k means that the database has versions up to k - 1
        at least, and up to k - 1 exactly if nobody else was at work. */
    ghost predicate Located(err: MigrateError, m: Migrations, db: Database)
      requires WellFormed(db)
    {
      match err
      case StepFailed(j, k) =>
        0 <= k < |m| && j < |m[k]| && k <= Version(db) + 1 && (Alone() ==> k == Version(db) + 1)
      case InsertFailed(k) =>
        0 <= k < |m| && k <= Version(db) + 1 && (Alone() ==> k == Version(db) + 1)
      case _ => true
    }

    /** This replica, under the lock, is bringing the database to version `next`. */
    ghost predicate Works(m: Migrations, next: int)
      requires WellFormed(cluster.s.db)
      reads this, cluster
    {
      && Runs(m, next) && 0 <= next < |m|
      && next <= Version(cluster.s.db) + 1 && (Alone() ==> next == Version(cluster.s.db) + 1)
    }

    method AcquireTheLock(m: Migrations, next: int) returns (ok: bool)
      requires Valid() && Has(Locking) && Runs(m, next)
      modifies this, cluster
      ensures Onward(old(cluster.trace), old(started), old(sails))
      ensures Valid() && Runs(m, next)
      ensures Has(if ok then Checking else RollingBack) && (!ok ==> BrokeOff(CannotLock))
    {
      var done, seen, at, run := Statement(AcquireLock(pid));
      ok := done;
    }

    /** The version has been read, and the counter overwritten. */
    ghost predicate Found(m: Migrations, v: int)
      requires WellFormed(cluster.s.db)
      reads this, cluster
    {
      && Runs(m, v + 1) && -1 <= v
      && if v + 1 >= |m| then Has(Committing) else Has(Stepping(0)) && Works(m, v + 1)
    }

    /** The highest version in the table, or -1 if the table does not exist;
        None if a query failed. */
    method GetCurrentVersion(m: Migrations, ghost next: int) returns (current: Option<int>, ghost read: seq<Move>)
      requires Valid() && Has(Checking) && Runs(m, next)
      modifies this, cluster
      ensures Onward(old(cluster.trace), old(started), old(sails))
      ensures Valid()
      ensures match current
              case None => Has(RollingBack) && Runs(m, next) && BrokeOff(CannotReadVersion)
              case Some(v) =>
                && old(cluster.trace) <= read <= cluster.trace && ReadsVersion(cluster.base, read, pid, v)
                && next <= v + 1 && Found(m, v)
    {
      var ok, exists', run := QueryTable(m, next);
      read := run;
      if !ok {
        return None, read;
      }
      if !exists' {
        return Some(-1), read;
      }
      current, read := QueryMax(m, next);
    }

    method QueryTable(m: Migrations, ghost next: int) returns (ok: bool, exists': bool, ghost read: seq<Move>)
      requires Valid() && Has(Checking) && Runs(m, next)
      modifies this, cluster
      ensures Onward(old(cluster.trace), old(started), old(sails))
      ensures Valid()
      ensures !ok ==> Has(RollingBack) && Runs(m, next) && BrokeOff(CannotReadVersion)
      ensures ok && exists' ==> Has(Reading) && Runs(m, next)
      ensures ok && !exists' ==>
                && old(cluster.trace) <= read <= cluster.trace && ReadsVersion(cluster.base, read, pid, -1)
                && next <= 0 && Found(m, -1)
    {
      var done, seen, at, run := Statement(CheckTable(pid));
      ok, read := done, run;
      exists' := seen.versions.Some?;
      if ok {
        ReadsAreCurrent(cluster.release, cluster.base, at, pid);
        HolderReads(cluster.release, cluster.base, at, pid);
      }
    }

    method QueryMax(m: Migrations, ghost next: int) returns (current: Option<int>, ghost read: seq<Move>)
      requires Valid() && Has(Reading) && Runs(m, next)
      modifies this, cluster
      ensures Onward(old(cluster.trace), old(started), old(sails))
      ensures Valid()
      ensures match current
              case None => Has(RollingBack) && Runs(m, next) && BrokeOff(CannotReadVersion)
              case Some(v) =>
                && old(cluster.trace) <= read <= cluster.trace && ReadsVersion(cluster.base, read, pid, v)
                && next <= v + 1 && Found(m, v)
    {
      var ok, seen, at, run := Statement(ReadVersion(pid));
      read := run;
      if !ok {
        return None, read;
      }
      ReadsAreCurrent(cluster.release, cluster.base, at, pid);
      ReadsAndInsertsAreSafe(cluster.release, cluster.base, at, pid);
      HolderReads(cluster.release, cluster.base, at, pid);
      return Some(MaxRow(Rows(seen))), read;
    }

    /** Step j of version `next` in the open transaction. */
    method Step(m: Migrations, next: int, j: nat) returns (ok: bool)
      requires Valid() && Has(Stepping(j)) && Works(m, next) && j < |m[next]|
      modifies this, cluster
      ensures Onward(old(cluster.trace), old(started), old(sails))
      ensures Valid() && Works(m, next)
      ensures Has(if ok then Stepping(j + 1) else RollingBack) && (!ok ==> BrokeOff(StepFailed(j, next)))
    {
      assert MigratorHolds(cluster.release, cluster.s, pid);
      var done, seen, at, run := Statement(RunStep(pid));
      assert MigratorHolds(cluster.release, at, pid);
      ok := done;
    }

    // The step loop ends.
    method EndSteps(m: Migrations, next: int)
      requires Valid() && 0 <= next < |m| && Has(Stepping(|m[next]|)) && Works(m, next)
      modifies this`sails, cluster
      ensures Onward(old(cluster.trace), old(started), old(sails))
      ensures Valid() && Works(m, next) && Has(Inserting)
    {
      assert MigratorHolds(cluster.release, cluster.s, pid);
      Act(RunStep(pid));
    }

    method InsertTheRow(m: Migrations, next: int) returns (ok: bool)
      requires Valid() && 0 <= next < |m| && Has(Stepping(|m[next]|)) && Works(m, next)
      modifies this, cluster
      ensures Onward(old(cluster.trace), old(started), old(sails))
      ensures Valid() && Works(m, next)
      ensures Has(if ok then Committing else RollingBack) && (!ok ==> BrokeOff(InsertFailed(next)))
    {
      EndSteps(m, next);
      var done, seen, at, run := Statement(InsertRow(pid));
      assert MigratorHolds(cluster.release, at, pid);
      ok := done;
    }

    /** All the steps of version `next`, then its row. */
    method RunVersion(m: Migrations, next: int) returns (err: Option<MigrateError>)
      requires Valid() && Works(m, next) && Has(Stepping(0))
      modifies this, cluster
      ensures Onward(old(cluster.trace), old(started), old(sails))
      ensures Valid() && Runs(m, next)
      ensures match err
              case None => Has(Committing)
              case Some(e) => (e.StepFailed? || e.InsertFailed?) && e.version == next && Has(RollingBack) && BrokeOff(e) && Located(e, m, cluster.s.db)
    {
      var j := 0;
      while j < |m[next]|
        invariant Valid() && Works(m, next) && j <= |m[next]| && Has(Stepping(j))
        invariant Onward(old(cluster.trace), old(started), old(sails))
      {
        var ok := Step(m, next, j);
        if !ok {
          return Some(StepFailed(j, next));
        }
        j := j + 1;
      }
      var ok := InsertTheRow(m, next);
      if !ok {
        return Some(InsertFailed(next));
      }
      return None;
    }

    method LockAndRead(m: Migrations, next: int) returns (err: Option<MigrateError>, current: int, ghost read: seq<Move>)
      requires Valid() && Has(Locking) && Runs(m, next)
      modifies this, cluster
      ensures Onward(old(cluster.trace), old(started), old(sails))
      ensures Valid()
      ensures match err
              case None =>
                && old(cluster.trace) <= read <= cluster.trace && ReadsVersion(cluster.base, read, pid, current)
                && next <= current + 1 && Found(m, current)
              case Some(e) => (e == CannotLock || e == CannotReadVersion) && Has(RollingBack) && Runs(m, next) && BrokeOff(e)
    {
      current, read := -1, [];
      var ok := AcquireTheLock(m, next);
      if !ok {
        return Some(CannotLock), current, read;
      }
      var answer, run := GetCurrentVersion(m, next);
      if answer.None? {
        return Some(CannotReadVersion), current, read;
      }
      return None, answer.value, run;
    }

    /** Brings the database to the version after the current one, having set the
        caller's loop counter to it. */
    method MigrateToNextVersion(nextVersion: Counter, m: Migrations) returns (err: Option<MigrateError>, ghost read: seq<Move>)
      requires Valid() && Has(Locking) && Runs(m, nextVersion.value)
      modifies this, cluster, nextVersion
      ensures Onward(old(cluster.trace), old(started), old(sails))
      ensures Valid() && Runs(m, nextVersion.value)
      ensures old(nextVersion.value) <= nextVersion.value
      ensures match err
              case None => Has(Committing)
              case Some(e) => Has(RollingBack) && BrokeOff(e) && Explains(e, Returned(StatementFailed)) && Located(e, m, cluster.s.db)
      ensures if err == Some(CannotLock) || err == Some(CannotReadVersion) then nextVersion.value == old(nextVersion.value)
              else old(cluster.trace) <= read <= cluster.trace && ReadsVersion(cluster.base, read, pid, nextVersion.value - 1)
    {
      var failure, current, run := LockAndRead(m, nextVersion.value);
      read := run;
      if failure.Some? {
        return failure, read;
      }
      nextVersion.value := current + 1;
      err := RunIfMissing(m, current);
    }

    method RunIfMissing(m: Migrations, current: int) returns (err: Option<MigrateError>)
      requires Valid() && Found(m, current)
      modifies this, cluster
      ensures Onward(old(cluster.trace), old(started), old(sails))
      ensures Valid() && Runs(m, current + 1)
      ensures match err
              case None => Has(Committing)
              case Some(e) => (e.StepFailed? || e.InsertFailed?) && Has(RollingBack) && BrokeOff(e) && Located(e, m, cluster.s.db)
    {
      if current + 1 >= |m| {
        return None;
      }
      err := RunVersion(m, current + 1);
    }

    /** tx.Rollback() */
    method RollBack(m: Migrations, next: int) returns (ok: bool)
      requires Valid() && Has(RollingBack) && Runs(m, next)
      modifies this, cluster
      ensures Onward(old(cluster.trace), old(started), old(sails))
      ensures Valid()
      ensures Runs(m, next)
      ensures !ok ==> BrokeOff(CannotRollBack)
      ensures Has(Returned(if ok then StatementFailed else RollbackFailed))
      ensures Version(old(cluster.s).db) <= Version(cluster.s.db)
      ensures Alone() ==> cluster.s.db == old(cluster.s).db
    {
      assert MigratorHolds(cluster.release, cluster.s, pid);
      ok := Wait();
      if ok {
        Act(Rollback(pid));
      } else {
        Act(RollbackReportsError(pid));
      }
    }

    method SendCommit(m: Migrations, next: int)
      requires Valid() && Has(Committing) && Runs(m, next)
      modifies this, cluster
      ensures Onward(old(cluster.trace), old(started), old(sails))
      ensures Valid() && Has(Awaiting) && Runs(m, next)
    {
      Act(RequestCommit(pid));
    }

    /** tx.Commit() */
    method Commit(m: Migrations, next: int) returns (ok: bool)
      requires Valid() && Has(Committing) && Runs(m, next)
      modifies this, cluster
      ensures Onward(old(cluster.trace), old(started), old(sails))
      ensures Valid()
      ensures !ok ==> BrokeOff(CannotCommit)
      ensures if ok then Has(Head) && Runs(m, next + 1) else Has(Returned(CommitFailed)) && Runs(m, next)
    {
      SendCommit(m, next);
      ok := Wait();
      ok := ReceiveAnswer(m, next, ok);
    }

    method ReceiveAnswer(m: Migrations, next: int, reached: bool) returns (ok: bool)
      requires Valid() && Has(Awaiting) && Runs(m, next)
      modifies this`sails, cluster
      ensures Onward(old(cluster.trace), old(started), reached && old(sails) && !CommitPending(old(cluster.s), pid))
      ensures ok <==> reached && Enabled(old(cluster.s), CommitReturns(pid))
      ensures Valid()
      ensures !ok ==> BrokeOff(CannotCommit)
      ensures if ok then Has(Head) && Runs(m, next + 1) else Has(Returned(CommitFailed)) && Runs(m, next)
    {
      if sails && !CommitPending(cluster.s, pid) {
        AnswerIsDue(cluster.release, cluster.base, cluster.s, pid);
      }
      ok := reached && Enabled(cluster.s, CommitReturns(pid));
      if ok {
        Act(CommitReturns(pid));
      } else {
        LoseAnswer(m, next);
      }
    }

    method LoseAnswer(m: Migrations, next: int)
      requires Valid() && Has(Awaiting) && Runs(m, next)
      modifies this`sails, cluster
      ensures Onward(old(cluster.trace), old(started), false)
      ensures Valid() && BrokeOff(CannotCommit) && Has(Returned(CommitFailed)) && Runs(m, next)
    {
      Act(CommitReportsError(pid));
    }

    /** db.Begin() */
    method BeginTx(m: Migrations, next: int) returns (ok: bool)
      requires Valid() && Has(Head) && Runs(m, next) && next < |m|
      modifies this, cluster
      ensures Onward(old(cluster.trace), old(started), old(sails))
      ensures Valid() && Runs(m, next)
      ensures !ok ==> BrokeOff(CannotBegin)
      ensures Has(if ok then Locking else Returned(BeginFailed))
    {
      ok := Wait();
      if ok {
        Act(Begin(pid));
      } else {
        Act(BeginFails(pid));
      }
    }

    method EndLoop(m: Migrations, next: int)
      requires Valid() && Has(Head) && Runs(m, next) && next >= |m|
      modifies this, cluster
      ensures Onward(old(cluster.trace), old(started), old(sails))
      ensures Valid() && Runs(m, next) && Has(Returned(Success))
      ensures Sound()
    {
      Act(Finish(pid));
      Summary();
    }

    method Launch(m: Migrations)
      requires Valid() && pid !in cluster.s.migrators && m <= cluster.release
      modifies this, cluster
      ensures Valid() && Runs(m, 0) && Has(Head)
      ensures started.Some? && |old(cluster.trace)| <= started.value
      ensures started.value == |cluster.trace| - 1
      ensures sails == (Fair() && Sails(cluster.s, pid))
      ensures Fair() ==> cluster.s.db == old(cluster.s).db && cluster.s.lock == old(cluster.s).lock
      ensures Alone() ==> match Exec(Initial(cluster.base), cluster.trace[..started.value])
                          case None => false
                          case Some(first) => first.db == old(cluster.s).db
    {
      var ok := Wait();
      Act(Start(pid, m));
      started := Some(|cluster.trace| - 1);
      sails := Fair() && Sails(cluster.s, pid);
    }

    /** The body of the loop of Migrate: one transaction. The counter comes back
        as the callee has overwritten it; the loop then increments it. */
    method Iterate(nextVersion: Counter, m: Migrations) returns (err: Option<MigrateError>)
      requires Valid() && Has(Head) && Runs(m, nextVersion.value) && nextVersion.value < |m|
      modifies this, cluster, nextVersion
      ensures Onward(old(cluster.trace), old(started), old(sails))
      ensures Valid()
      ensures err.None? ==>
                Has(Head) && Runs(m, nextVersion.value + 1) && old(nextVersion.value) <= nextVersion.value
      ensures err.Some? ==> Failed(err.value, m)
    {
      var ok := BeginTx(m, nextVersion.value);
      if !ok {
        return Some(CannotBegin);
      }
      err := InTx(nextVersion, m);
    }

    method InTx(nextVersion: Counter, m: Migrations) returns (err: Option<MigrateError>)
      requires Valid() && Has(Locking) && Runs(m, nextVersion.value)
      modifies this, cluster, nextVersion
      ensures Onward(old(cluster.trace), old(started), old(sails))
      ensures Valid()
      ensures err.None? ==>
                Has(Head) && Runs(m, nextVersion.value + 1) && old(nextVersion.value) <= nextVersion.value
      ensures err.Some? ==> Failed(err.value, m)
    {
      ghost var read;
      err, read := MigrateToNextVersion(nextVersion, m);
      err := EndTx(m, nextVersion.value, err);
    }

    /** tx.Rollback() after an error, tx.Commit() without one. */
    method EndTx(m: Migrations, next: int, failure: Option<MigrateError>) returns (err: Option<MigrateError>)
      requires Valid() && Runs(m, next) && Has(if failure.None? then Committing else RollingBack)
      requires failure.Some? ==> Located(failure.value, m, cluster.s.db) && Explains(failure.value, Returned(StatementFailed))
      modifies this, cluster
      ensures Onward(old(cluster.trace), old(started), old(sails))
      ensures Valid()
      ensures err.None? ==> failure.None? && Has(Head) && Runs(m, next + 1)
      ensures err.Some? ==> Failed(err.value, m)
      ensures match err
              case None => failure.None?
              case Some(e) => err == failure || (e == (if failure.None? then CannotCommit else CannotRollBack) && BrokeOff(e))
    {
      if failure.Some? {
        var ok := RollBack(m, next);
        return if ok then failure else Some(CannotRollBack);
      }
      var ok := Commit(m, next);
      return if ok then None else Some(CannotCommit);
    }

    ghost predicate Failed(err: MigrateError, m: Migrations)
      requires WellFormed(cluster.s.db)
      reads this, cluster
    {
      && pid in cluster.s.migrators && cluster.s.migrators[pid].scripts == m
      && cluster.s.migrators[pid].phase.Returned? && !Has(Returned(Success))
      && Located(err, m, cluster.s.db) && Explains(err, cluster.s.migrators[pid].phase)
    }

    /** What an error says about the end of the transaction. */
    predicate Explains(err: MigrateError, phase: Phase) {
      match err
      case CannotBegin => phase == Returned(BeginFailed)
      case CannotRollBack => phase == Returned(RollbackFailed)
      case CannotCommit => phase == Returned(CommitFailed)
      case _ => phase == Returned(StatementFailed)
    }

    /** Each iteration that does not return moves the counter on, so the loop
        ends whatever the others do. The whole call is a run of the protocol. */
    method Migrate(m: Migrations) returns (err: Option<MigrateError>)
      requires Valid() && pid !in cluster.s.migrators && m <= cluster.release
      modifies this, cluster
      ensures Valid() && Sound()
      ensures match err
              case None => Has(Returned(Success)) && cluster.s.migrators[pid].scripts == m
              case Some(e) => Failed(e, m)
      // the counter at the loop heads of an undisturbed run
      ensures started.Some? && |old(cluster.trace)| <= started.value < |cluster.trace|
      ensures Alone() ==>
                (BoundedAtHeads(StatesFrom(Initial(cluster.base), cluster.trace, started.value), pid)
                 <==> err.Some? || |m| == 0 || Version(old(cluster.s).db) < |m| - 1)
      // without faults and interference it succeeds exactly if the missing versions can be applied
      ensures Fair() && old(cluster.s).lock.None? ==>
                (err.None? <==> (Version(old(cluster.s).db) < |m| - 1 ==> Applicable(m, |m| - 1, old(cluster.s).db)))
    {
      Launch(m);
      ghost var first := cluster.s;
      RemainingIsApplicable(first, pid);
      ghost var launched := cluster.trace;
      err := Loop(m);
      SuccessNeedsRemaining(cluster.release, cluster.base, first, cluster.s, pid);
      if Alone() {
        CounterAtHeads(launched);
      }
    }

    method Loop(m: Migrations) returns (err: Option<MigrateError>)
      requires Valid() && Has(Head) && Runs(m, 0)
      modifies this, cluster
      ensures Onward(old(cluster.trace), old(started), old(sails))
      ensures Valid() && Sound()
      ensures match err
              case None => Has(Returned(Success)) && cluster.s.migrators[pid].scripts == m
              case Some(e) => Failed(e, m)
    {
      err := None;
      var nextVersion := new Counter();
      while nextVersion.value < |m| && err.None?
        invariant Onward(old(cluster.trace), old(started), old(sails))
        invariant Valid() && err.None? && Has(Head) && Runs(m, nextVersion.value)
        decreases |m| - nextVersion.value
      {
        err := Iterate(nextVersion, m);
        if err.Some? {
          Summary();
          return;
        }
        nextVersion.value := nextVersion.value + 1;
      }
      // The test of err after the loop never succeeds.
      assert err.None?;
      EndLoop(m, nextVersion.value);
    }

    /** After a call: at most as many transactions as versions; the database is a
        replay on top of `before`, with the data that its steps have made; and
        after a nil return it is up to date. */
    ghost predicate Sound()
      reads cluster
    {
      var s := cluster.s;
      && pid in s.migrators
      && s.migrators[pid].begun <= |s.migrators[pid].scripts|
      && Reached(cluster.release, before, s.db) && Gained(cluster.release, before, s.db)
      && (At(s, pid, Returned(Success)) ==> |s.migrators[pid].scripts| - 1 <= Version(s.db))
    }

    lemma CounterAtHeads(launched: seq<Move>)
      requires Valid() && started.Some? && Alone()
      requires cluster.s.migrators[pid].phase.Returned?
      requires launched <= cluster.trace && started.value < |launched|
      requires Exec(Initial(cluster.base), launched[..started.value]).Some?
      ensures var m, first := cluster.s.migrators[pid].scripts, Exec(Initial(cluster.base), launched[..started.value]).value.db;
              && WellFormed(first)
              && (BoundedAtHeads(StatesFrom(Initial(cluster.base), cluster.trace, started.value), pid)
                  <==> !Has(Returned(Success)) || |m| == 0 || Version(first) < |m| - 1)
    {
      UndisturbedEnd(cluster.release, cluster.base, cluster.trace, started.value, pid);
      assert launched[..started.value] == cluster.trace[..started.value];
    }

    lemma Summary()
      requires Valid() && pid in cluster.s.migrators
      ensures Sound()
    {
      assert MigratorHolds(cluster.release, cluster.s, pid);
      if Version(cluster.s.db) < |cluster.release| {
        ReplaySplits(cluster.release, Version(cluster.base), Version(before), Version(cluster.s.db), cluster.base);
      }
      ReachedGains(cluster.release, before, cluster.s.db);
    }
  }

  /** The state after the moves of a schedule: those of the server and of others
      than p that are possible. */
  ghost function After(s: State, moves: seq<Move>, p: Pid): State
    decreases |moves|
  {
    if moves == [] then s
    else
      var mid, last := After(s, moves[..|moves| - 1], p), moves[|moves| - 1];
      if (last.pid != p || last.ServerCommits? || last.ServerAborts? || last.ServerGrants?) && Enabled(mid, last)
      then Do(mid, last)
      else mid
  }

  /** p has met no failure, nobody else has the lock, and all that is missing can
      be applied. */
  ghost predicate Sails(s: State, p: Pid) {
    && Healthy(s, p) && (s.lock.None? || s.lock == Some(p))
    && WellFormed(s.db) && Remaining(s, p)
  }

  ghost predicate IsDue(s: State, p: Pid, move: Move) {
    p in s.migrators && !Dead(s.migrators[p]) && move == DueOf(s, p)
  }

  lemma SailsOn(release: Migrations, base: Database, s: State, p: Pid)
    requires Inv(release, base, s) && Sails(s, p) && !Dead(s.migrators[p])
    ensures Enabled(s, DueOf(s, p)) && Sails(Do(s, DueOf(s, p)), p)
  {
    assert MigratorHolds(release, s, p);
    assert Due(s, p) == DueOf(s, p);
    NeverStuck(release, base, s, p);
    DueKeepsHealth(release, base, s, p);
    LockStaysOwn(s, p);
  }

  /** The statement that p sends next. */
  predicate Sends(m: Migrator, p: Pid, move: Move) {
    && move.pid == p
    && match m.phase
       case Locking => move.AcquireLock?
       case Checking => move.CheckTable?
       case Reading => move.ReadVersion?
       case Stepping(_) => move.RunStep?
       case Inserting => move.InsertRow?
       case _ => false
  }

  lemma StatementIsDue(release: Migrations, base: Database, s: State, p: Pid, move: Move)
    requires Inv(release, base, s) && Sails(s, p) && InStatement(s.migrators[p]) && Sends(s.migrators[p], p, move)
    ensures IsDue(s, p, move) && HasOpen(s, p) && Enabled(s, move)
  {
    SailsOn(release, base, s, p);
  }

  lemma AnswerIsDue(release: Migrations, base: Database, s: State, p: Pid)
    requires Inv(release, base, s) && Sails(s, p) && At(s, p, Awaiting) && !CommitPending(s, p)
    ensures IsDue(s, p, CommitReturns(p)) && Enabled(s, CommitReturns(p))
  {
    assert MigratorHolds(release, s, p);
  }

  lemma LockStaysOwn(s: State, p: Pid)
    requires p in s.migrators && Enabled(s, DueOf(s, p)) && (s.lock.None? || s.lock == Some(p))
    ensures var lock := Do(s, DueOf(s, p)).lock;
            lock.None? || lock == Some(p)
  {
  }

  lemma PendingIsDue(release: Migrations, base: Database, s: State, p: Pid)
    requires Inv(release, base, s) && Sails(s, p) && CommitPending(s, p) && !Dead(s.migrators[p])
    ensures IsDue(s, p, ServerCommits(p)) && Enabled(s, ServerCommits(p))
    ensures !CommitPending(Do(s, ServerCommits(p)), p)
  {
    assert MigratorHolds(release, s, p);
  }

  lemma HolderReads(release: Migrations, base: Database, s: State, p: Pid)
    requires Inv(release, base, s) && HasOpen(s, p) && (At(s, p, Checking) || At(s, p, Reading))
    ensures s.lock == Some(p)
  {
    assert MigratorHolds(release, s, p);
  }

  lemma ScriptsLast(s: State, move: Move)
    requires Enabled(s, move)
    ensures forall p :: p in s.migrators ==> p in Do(s, move).migrators && Do(s, move).migrators[p].scripts == s.migrators[p].scripts
  {
  }

  lemma StatementKeepsClient(s: State, move: Move)
    requires Enabled(s, move)
    requires move.AcquireLock? || move.CheckTable? || move.ReadVersion? || move.RunStep? || move.InsertRow?
    ensures var m, m' := s.migrators[move.pid], Do(s, move).migrators[move.pid];
            m'.scripts == m.scripts && (m'.phase.RollingBack? ==> m'.next == m.next)
  {
  }

  lemma ForeignMove(s: State, move: Move, p: Pid)
    requires Foreign(move, p) && Enabled(s, move)
    ensures p in s.migrators ==> SameClient(s, Do(s, move), p)
    ensures p in s.migrators && HasOpen(Do(s, move), p) ==> Do(s, move).migrators[p].session == s.migrators[p].session
    ensures p !in s.migrators ==> p !in Do(s, move).migrators
  {
  }
}
