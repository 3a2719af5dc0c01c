/** What holds in every state any interleaving of the protocol can reach. */
module Invariant {
  import opened Wrappers
  import opened Scripts
  import opened Protocol

  /** `db` is `base` after versions Version(base) + 1, ..., Version(db). */
  ghost predicate Reached(release: Migrations, base: Database, db: Database) {
    && WellFormed(base) && WellFormed(db)
    && Version(base) <= Version(db)
    && (Version(db) < |release| || db == base)
    && (Version(db) < |release| ==> Replay(release, Version(base), Version(db), base) == Some(db))
  }

  /** The open transaction of p, asked to commit, changes nothing or takes the
      database from its version to the next one of p's list. */
  ghost predicate CommitsNext(s: State, m: Migrator)
    requires WellFormed(s.db) && m.session.Open?
  {
    if m.session.pending.None? then m.next >= |m.scripts|
    else
      && m.next == Version(s.db) + 1
      && 0 <= m.next < |m.scripts|
      && ApplyVersion(m.scripts[m.next], m.next, s.db) == m.session.pending
  }

  /** The bound on the counter at a loop head. After an iteration that found
      nothing to apply the counter is one past the version read plus one. */
  predicate HeadBound(next: int, version: int, len: nat) {
    || next <= version + 1
    || (len < next <= version + 2 && len <= version + 1)
  }

  ghost predicate PhaseHolds(s: State, p: Pid)
    requires WellFormed(s.db) && p in s.migrators
  {
    var m, v := s.migrators[p], Version(s.db);
    var len := |m.scripts|;
    var open := m.session.Open?;
    match m.phase
    case Head => !open && HeadBound(m.next, v, len) && m.begun <= m.next
    case Locking =>
      && m.next < len && m.next <= v + 1 && m.begun <= m.next + 1
      && (open ==> s.lock != Some(p) && !m.session.commitRequested && m.session.pending.None?)
    case Checking =>
      && m.next < len && m.next <= v + 1 && m.begun <= m.next + 1
      && (open ==> s.lock == Some(p) && !m.session.commitRequested && m.session.pending.None?)
    case Reading =>
      && m.next < len && m.next <= v + 1 && m.begun <= m.next + 1
      && (open ==> s.lock == Some(p) && !m.session.commitRequested && m.session.pending.None? && s.db.versions.Some?)
    case Stepping(j) =>
      && m.next <= v + 1 && m.begun <= m.next + 1
      && 0 <= m.next < len && j <= |m.scripts[m.next]|
      && (open ==>
            && s.lock == Some(p) && !m.session.commitRequested && m.next == v + 1
            && ExecSteps(m.scripts[m.next][..j], s.db) == Some(View(s, p)))
    case Inserting =>
      && m.next <= v + 1 && m.begun <= m.next + 1
      && 0 <= m.next < len
      && (open ==>
            && s.lock == Some(p) && !m.session.commitRequested && m.next == v + 1
            && ExecSteps(m.scripts[m.next], s.db) == Some(View(s, p)))
    case Committing =>
      && 0 <= m.next <= v + 1 && m.begun <= m.next + 1
      && (m.session.Ended? ==> !m.session.committed)
      && (open ==> s.lock == Some(p) && !m.session.commitRequested && CommitsNext(s, m))
    case Awaiting =>
      && 0 <= m.next <= v + 1 && m.begun <= m.next + 1
      && (m.session.Ended? && m.session.committed && m.next < len ==> m.next <= v)
      && (open ==> m.session.commitRequested)
    case RollingBack => open ==> !m.session.commitRequested
    case Returned(outcome) => outcome == Success ==> len <= v + 1
    case Crashed => true
  }

  ghost predicate MigratorHolds(release: Migrations, s: State, p: Pid)
    requires WellFormed(s.db) && p in s.migrators
  {
    var m := s.migrators[p];
    && m.scripts <= release
    && m.begun <= |m.scripts|
    && PhaseHolds(s, p)
    && (m.session.Open? && m.session.pending.Some? ==> s.lock == Some(p))
    && (m.session.Open? && m.session.commitRequested ==> s.lock == Some(p) && CommitsNext(s, m))
  }

  /** The log names every version after the initial one once, in order, each
      run by a migrator whose list has it. */
  ghost predicate LogHolds(base: Database, s: State)
    requires WellFormed(base) && WellFormed(s.db)
  {
    && |s.log| == Version(s.db) - Version(base)
    && forall i :: 0 <= i < |s.log| ==>
         && s.log[i].version == Version(base) + 1 + i
         && s.log[i].pid in s.migrators
         && s.log[i].version < |s.migrators[s.log[i].pid].scripts|
  }

  ghost predicate Inv(release: Migrations, base: Database, s: State) {
    && Reached(release, base, s.db)
    && (s.lock.Some? ==> HasOpen(s, s.lock.value))
    && (forall p :: p in s.migrators ==> MigratorHolds(release, s, p))
    && LogHolds(base, s)
  }

  lemma InitialInv(release: Migrations, base: Database)
    requires WellFormed(base)
    ensures Inv(release, base, Initial(base))
  {
  }

  /** From s to s' nothing changed but p's own record, and perhaps that p took
      or gave back the lock. */
  ghost predicate OnlyMoves(s: State, s': State, p: Pid) {
    && p in s'.migrators && s'.migrators == s.migrators[p := s'.migrators[p]]
    && (p in s.migrators ==> s'.migrators[p].scripts == s.migrators[p].scripts)
    && s'.db == s.db && s'.log == s.log
    && (s'.lock == s.lock || (s'.lock == Some(p) && s.lock == None) || (s'.lock == None && s.lock == Some(p)))
    && (s'.lock == Some(p) ==> s'.migrators[p].session.Open?)
  }

  predicate TakesEffect(s: State, move: Move) {
    move.ServerCommits? && HasOpen(s, move.pid) && s.migrators[move.pid].session.pending.Some?
  }

  lemma MoveIsLocal(s: State, move: Move)
    requires Enabled(s, move) && !TakesEffect(s, move)
    requires s.lock.Some? ==> HasOpen(s, s.lock.value)
    requires move.pid in s.migrators && s.migrators[move.pid].phase == Head ==> !HasOpen(s, move.pid)
    ensures OnlyMoves(s, Do(s, move), move.pid)
  {
  }

  lemma OthersUndisturbed(release: Migrations, base: Database, s: State, s': State, p: Pid)
    requires Inv(release, base, s)
    requires OnlyMoves(s, s', p) && MigratorHolds(release, s', p)
    ensures Inv(release, base, s')
  {
    forall q | q in s'.migrators ensures MigratorHolds(release, s', q) {
      if q != p {
        assert MigratorHolds(release, s, q);
        assert s'.migrators[q] == s.migrators[q];
      }
    }
  }

  /** A commit under the lock takes the database to the next version. */
  lemma CommitReachesNext(release: Migrations, base: Database, s: State, p: Pid)
    requires Inv(release, base, s)
    requires Enabled(s, ServerCommits(p)) && s.migrators[p].session.pending.Some?
    ensures var db' := Do(s, ServerCommits(p)).db;
            && Reached(release, base, db') && Version(db') == Version(s.db) + 1 == s.migrators[p].next
            && s.lock == Some(p) && s.migrators[p].next < |s.migrators[p].scripts|
  {
    var m := s.migrators[p];
    assert MigratorHolds(release, s, p);
    assert m.scripts[m.next] == release[m.next];
    NextIsReached(release, base, s.db, m.session.pending.value);
  }

  lemma NextIsReached(release: Migrations, base: Database, db: Database, db': Database)
    requires Reached(release, base, db) && Version(db) + 1 < |release|
    requires ApplyVersion(release[Version(db) + 1], Version(db) + 1, db) == Some(db')
    ensures Reached(release, base, db') && Version(db') == Version(db) + 1
  {
    ApplyVersionExtends(release[Version(db) + 1], db);
    assert Replay(release, Version(base), Version(db), base) == Some(db);
  }

  lemma CommitKeepsMigrator(release: Migrations, base: Database, s: State, p: Pid, q: Pid)
    requires Inv(release, base, s) && q in s.migrators
    requires Enabled(s, ServerCommits(p)) && s.migrators[p].session.pending.Some?
    requires WellFormed(Do(s, ServerCommits(p)).db)
    requires Version(Do(s, ServerCommits(p)).db) == Version(s.db) + 1 == s.migrators[p].next
    ensures MigratorHolds(release, Do(s, ServerCommits(p)), q)
  {
    assert MigratorHolds(release, s, p);
    assert MigratorHolds(release, s, q);
  }

  lemma CommitPreservesInv(release: Migrations, base: Database, s: State, p: Pid)
    requires Inv(release, base, s)
    requires Enabled(s, ServerCommits(p)) && s.migrators[p].session.pending.Some?
    ensures Inv(release, base, Do(s, ServerCommits(p)))
  {
    var s' := Do(s, ServerCommits(p));
    CommitReachesNext(release, base, s, p);
    forall q | q in s'.migrators ensures MigratorHolds(release, s', q) {
      CommitKeepsMigrator(release, base, s, p, q);
    }
  }

  // The next lemmas follow one migrator through its own moves.

  lemma LocksAndReads(release: Migrations, base: Database, s: State, move: Move)
    requires Inv(release, base, s) && Enabled(s, move)
    requires move.Begin? || move.BeginFails? || move.Finish? || move.AcquireLock? || move.CheckTable? || move.ReadVersion?
    ensures MigratorHolds(release, Do(s, move), move.pid)
  {
    var p := move.pid;
    assert MigratorHolds(release, s, p);
    var m, v := s.migrators[p], Version(s.db);
    if (move.CheckTable? && s.db.versions.None?) || move.ReadVersion? {
      assert View(s, p) == s.db;
      assert Do(s, move) == Put(s, p, Overwrite(m, v));
      if v + 1 < |m.scripts| {
        assert m.scripts[v + 1][..0] == [];
      }
    }
  }

  lemma RunsOneStep(release: Migrations, base: Database, s: State, p: Pid)
    requires Inv(release, base, s) && Enabled(s, RunStep(p))
    requires s.migrators[p].phase.j < |s.migrators[p].scripts[s.migrators[p].next]|
    ensures MigratorHolds(release, Do(s, RunStep(p)), p)
  {
    assert MigratorHolds(release, s, p);
    var m := s.migrators[p];
    var steps, j := m.scripts[m.next], m.phase.j;
    assert steps[..j + 1][..j] == steps[..j];
    assert steps[..j + 1][j] == steps[j];
    assert ExecSteps(steps[..j + 1], s.db) == ExecStep(steps[j], View(s, p));
  }

  lemma EndsStepLoop(release: Migrations, base: Database, s: State, p: Pid)
    requires Inv(release, base, s) && Enabled(s, RunStep(p))
    requires s.migrators[p].phase.j >= |s.migrators[p].scripts[s.migrators[p].next]|
    ensures MigratorHolds(release, Do(s, RunStep(p)), p)
  {
    assert MigratorHolds(release, s, p);
    var m := s.migrators[p];
    assert m.scripts[m.next][..m.phase.j] == m.scripts[m.next];
  }

  lemma InsertsRow(release: Migrations, base: Database, s: State, p: Pid)
    requires Inv(release, base, s) && Enabled(s, InsertRow(p))
    ensures MigratorHolds(release, Do(s, InsertRow(p)), p)
  {
    assert MigratorHolds(release, s, p);
    var m := s.migrators[p];
    assert ApplyVersion(m.scripts[m.next], m.next, s.db) == InsertVersion(View(s, p), m.next);
  }

  lemma EndsTransaction(release: Migrations, base: Database, s: State, move: Move)
    requires Inv(release, base, s) && Enabled(s, move)
    requires
      || move.RequestCommit? || move.CommitReturns? || move.CommitReportsError? || move.StatementFails?
      || move.Rollback? || move.RollbackReportsError? || move.Crash? || move.ServerAborts? || move.ServerGrants?
      || (move.ServerCommits? && s.migrators[move.pid].session.pending.None?)
    ensures MigratorHolds(release, Do(s, move), move.pid)
  {
    assert MigratorHolds(release, s, move.pid);
  }

  lemma OwnMove(release: Migrations, base: Database, s: State, move: Move)
    requires Inv(release, base, s) && Enabled(s, move) && !TakesEffect(s, move)
    requires move.Start? ==> move.scripts <= release
    ensures MigratorHolds(release, Do(s, move), move.pid)
  {
    match move
    case Start(_, _) =>
    case Begin(_) | BeginFails(_) | Finish(_) | AcquireLock(_) | CheckTable(_) | ReadVersion(_) =>
      LocksAndReads(release, base, s, move);
    case RunStep(p) =>
      if s.migrators[p].phase.j < |s.migrators[p].scripts[s.migrators[p].next]| {
        RunsOneStep(release, base, s, p);
      } else {
        EndsStepLoop(release, base, s, p);
      }
    case InsertRow(p) =>
      InsertsRow(release, base, s, p);
    case _ =>
      EndsTransaction(release, base, s, move);
  }

  lemma StepPreservesInv(release: Migrations, base: Database, s: State, move: Move)
    requires Inv(release, base, s) && Enabled(s, move)
    requires move.Start? ==> move.scripts <= release
    ensures Inv(release, base, Do(s, move))
  {
    var p := move.pid;
    if TakesEffect(s, move) {
      CommitPreservesInv(release, base, s, p);
    } else {
      assert p in s.migrators ==> MigratorHolds(release, s, p);
      MoveIsLocal(s, move);
      OwnMove(release, base, s, move);
      OthersUndisturbed(release, base, s, Do(s, move), p);
    }
  }

  lemma {:induction false} RunPreservesInv(release: Migrations, base: Database, s: State, moves: seq<Move>)
    requires Inv(release, base, s) && Uses(moves, release)
    ensures match Exec(s, moves)
            case None => true
            case Some(s') => Inv(release, base, s')
    decreases |moves|
  {
    if moves != [] {
      var init, last := moves[..|moves| - 1], moves[|moves| - 1];
      assert moves == init + [last];
      RunPreservesInv(release, base, s, init);
      match Exec(s, init)
      case None =>
      case Some(mid) =>
        if Enabled(mid, last) {
          StepPreservesInv(release, base, mid, last);
        }
    }
  }
}
