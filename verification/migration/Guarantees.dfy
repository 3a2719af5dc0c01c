/** What the migration protocol promises, over every run. */
module Guarantees {
  import opened Wrappers
  import opened Scripts
  import opened Effects
  import opened Protocol
  import opened Invariant

  lemma RunInv(release: Migrations, base: Database, moves: seq<Move>)
    requires WellFormed(base) && Uses(moves, release) && Exec(Initial(base), moves).Some?
    ensures Inv(release, base, Exec(Initial(base), moves).value)
  {
    InitialInv(release, base);
    RunPreservesInv(release, base, Initial(base), moves);
  }

  /** In every interleaving, with every kind of failure, the committed database
      is the sequential replay of the versions after the initial one: its data is
      what all their steps have made of the initial data, one after the other, and
      the table "version" gained exactly their rows. */
  lemma EveryRunIsAReplay(release: Migrations, base: Database, moves: seq<Move>)
    requires WellFormed(base) && Uses(moves, release)
    requires Exec(Initial(base), moves).Some?
    ensures var db := Exec(Initial(base), moves).value.db;
            && Reached(release, base, db) && Gained(release, base, db)
            && Rows(db) == Rows(base) + Range(Version(base) + 1, Version(db) + 1)
  {
    RunIsReplay(release, base, moves, Exec(Initial(base), moves).value);
  }

  lemma RunIsReplay(release: Migrations, base: Database, moves: seq<Move>, s: State)
    requires WellFormed(base) && Uses(moves, release) && Exec(Initial(base), moves) == Some(s)
    ensures Reached(release, base, s.db) && Gained(release, base, s.db)
    ensures Rows(s.db) == Rows(base) + Range(Version(base) + 1, Version(s.db) + 1)
  {
    RunInv(release, base, moves);
    ReachedRows(release, base, s.db);
    ReachedGains(release, base, s.db);
  }

  lemma ReachedGains(release: Migrations, base: Database, db: Database)
    requires Reached(release, base, db)
    ensures Gained(release, base, db)
  {
    if Version(db) < |release| {
      ReplayRunsEveryStep(release, Version(base), Version(db), base);
    }
  }

  lemma ReachedRows(release: Migrations, base: Database, db: Database)
    requires Reached(release, base, db)
    ensures Rows(db) == Rows(base) + Range(Version(base) + 1, Version(db) + 1)
  {
    if Version(db) < |release| {
      ReplayRows(release, Version(db), base);
    }
  }

  /** Each version takes effect at most once, in order, and only through a
      migrator that has it; the transactions that took effect are as many as
      the versions gained. */
  lemma VersionsTakeEffectOnce(release: Migrations, base: Database, moves: seq<Move>)
    requires WellFormed(base) && Uses(moves, release)
    requires Exec(Initial(base), moves).Some?
    ensures var s := Exec(Initial(base), moves).value;
            && WellFormed(s.db) && |s.log| == Version(s.db) - Version(base)
            && (forall i :: 0 <= i < |s.log| ==> s.log[i].version == Version(base) + 1 + i)
            && (forall i, j :: 0 <= i < j < |s.log| ==> s.log[i].version != s.log[j].version)
            && (forall i :: 0 <= i < |s.log| ==>
                  s.log[i].pid in s.migrators && s.log[i].version < |s.migrators[s.log[i].pid].scripts|)
  {
    RunInv(release, base, moves);
  }

  /** The database changes only when the server commits the holder of the lock,
      and then by the next version of that holder's own list: nobody lowers the
      version, skips one, or writes one it does not have. */
  lemma OnlyTheLockHolderAdvances(release: Migrations, base: Database, s: State, move: Move)
    requires Inv(release, base, s) && Enabled(s, move)
    ensures var s' := Do(s, move);
            || s'.db == s.db
            || (&& move == ServerCommits(move.pid) && s.lock == Some(move.pid)
                && WellFormed(s'.db) && Version(s'.db) == Version(s.db) + 1 < |s.migrators[move.pid].scripts|
                && ApplyVersion(s.migrators[move.pid].scripts[Version(s'.db)], Version(s'.db), s.db) == Some(s'.db))
  {
    if TakesEffect(s, move) {
      assert MigratorHolds(release, s, move.pid);
      ApplyVersionExtends(s.migrators[move.pid].scripts[Version(s.db) + 1], s.db);
    } else {
      assert move.pid in s.migrators ==> MigratorHolds(release, s, move.pid);
      MoveIsLocal(s, move);
    }
  }

  /** At a loop head the counter is at most one past the committed version,
      unless the last iteration found nothing to apply: then it is two past it
      and the loop ends. */
  lemma CounterAtLoopHead(release: Migrations, base: Database, s: State, p: Pid)
    requires Inv(release, base, s) && At(s, p, Head)
    ensures var m, v := s.migrators[p], Version(s.db);
            && (m.next <= v + 1 || (m.next == v + 2 && |m.scripts| <= v + 1))
            && (m.next < |m.scripts| ==> m.next <= v + 1)
            && (m.next >= |m.scripts| ==> |m.scripts| <= v + 1)
  {
    assert MigratorHolds(release, s, p);
  }

  /** After an iteration the counter is at most one past the committed version
      exactly if the iteration applied a version, or somebody else has advanced
      the database since it was read. */
  lemma CounterAfterIteration(release: Migrations, base: Database, s: State, p: Pid)
    requires Inv(release, base, s) && Enabled(s, CommitReturns(p))
    ensures var m, v := s.migrators[p], Version(s.db);
            Do(s, CommitReturns(p)).migrators[p].next <= v + 1 <==> m.next < |m.scripts| || m.next <= v
  {
    assert MigratorHolds(release, s, p);
  }

  // One replica finds a database at version 0 and has nothing to add.
  function IdleRun(scripts: Migrations): seq<Move> {
    [Start(0, scripts), Begin(0), AcquireLock(0), CheckTable(0), ReadVersion(0),
     RequestCommit(0), ServerCommits(0), CommitReturns(0)]
  }

  function IdleState(base: Database, scripts: Migrations, i: nat): State
    requires i <= 8
  {
    if i == 0 then Initial(base)
    else
      var phase := [Head, Locking, Checking, Reading, Committing, Awaiting, Awaiting, Head][i - 1];
      var next := if i < 5 then 0 else if i < 8 then 1 else 2;
      var session := if i == 1 then NoSession else if i <= 6 then Open(None, i == 6) else Ended(true);
      State(base, if 3 <= i <= 6 then Some(0) else None,
            map[0 := Migrator(scripts, phase, next, session, if i == 1 then 0 else 1)], [])
  }

  lemma IdleUntilLocked(base: Database, scripts: Migrations, i: nat)
    requires |scripts| == 1 && base.versions == Some([0]) && i < 4
    ensures Enabled(IdleState(base, scripts, i), IdleRun(scripts)[i])
    ensures Do(IdleState(base, scripts, i), IdleRun(scripts)[i]) == IdleState(base, scripts, i + 1)
  {
  }

  lemma IdleFromRead(base: Database, scripts: Migrations, i: nat)
    requires |scripts| == 1 && base.versions == Some([0]) && 4 <= i < 8
    ensures Enabled(IdleState(base, scripts, i), IdleRun(scripts)[i])
    ensures Do(IdleState(base, scripts, i), IdleRun(scripts)[i]) == IdleState(base, scripts, i + 1)
  {
    assert MaxRow([0]) == 0;
  }

  /** A run in which the counter does pass the committed version by two: the
      database is at version 0, and the list has one version only. */
  lemma CounterCanPassVersionByTwo(scripts: Migrations, data: Data)
    requires |scripts| == 1
    ensures var base := Database(data, Some([0]));
            && Exec(Initial(base), IdleRun(scripts)).Some?
            && var s := Exec(Initial(base), IdleRun(scripts)).value;
               At(s, 0, Head) && s.db == base && Version(base) == 0 && s.migrators[0].next == 2
  {
    var base := Database(data, Some([0]));
    var moves := IdleRun(scripts);
    for i := 0 to 8
      invariant Exec(Initial(base), moves[..i]) == Some(IdleState(base, scripts, i))
    {
      assert moves[..i + 1] == moves[..i] + [moves[i]];
      ExecGrows(Initial(base), moves[..i], moves[i]);
      if i < 4 {
        IdleUntilLocked(base, scripts, i);
      } else {
        IdleFromRead(base, scripts, i);
      }
    }
    assert moves[..8] == moves;
  }

  lemma ExecGrows(s: State, moves: seq<Move>, last: Move)
    ensures Exec(s, moves + [last]) ==
            match Exec(s, moves)
            case None => None
            case Some(mid) => if Enabled(mid, last) then Some(Do(mid, last)) else None
  {
    assert (moves + [last])[..|moves|] == moves;
  }

  lemma {:induction false} ExecSplits(s: State, first: seq<Move>, rest: seq<Move>)
    ensures Exec(s, first + rest) ==
            match Exec(s, first)
            case None => None
            case Some(mid) => Exec(mid, rest)
    decreases |rest|
  {
    if rest == [] {
      assert first + rest == first;
    } else {
      var init := rest[..|rest| - 1];
      ExecSplits(s, first, init);
      assert (first + rest)[..|first + rest| - 1] == first + init;
    }
  }

  lemma SuccessIsFinal(s: State, p: Pid, move: Move)
    requires At(s, p, Returned(Success)) && Enabled(s, move)
    ensures At(Do(s, move), p, Returned(Success)) && Do(s, move).migrators[p].scripts == s.migrators[p].scripts
  {
  }

  lemma {:induction false} SuccessStays(s: State, moves: seq<Move>, p: Pid)
    requires At(s, p, Returned(Success))
    ensures match Exec(s, moves)
            case None => true
            case Some(s') => At(s', p, Returned(Success)) && s'.migrators[p].scripts == s.migrators[p].scripts
    decreases |moves|
  {
    if moves != [] {
      var init, last := moves[..|moves| - 1], moves[|moves| - 1];
      SuccessStays(s, init, p);
      match Exec(s, init)
      case None =>
      case Some(mid) => if Enabled(mid, last) { SuccessIsFinal(mid, p, last); }
    }
  }

  /** Once Migrate has returned nil, the database is at or past the last version
      of that replica's list, then and after whatever others do later. */
  lemma SuccessMeansUpToDateForever(release: Migrations, base: Database, s: State, p: Pid, later: seq<Move>)
    requires Inv(release, base, s) && Uses(later, release) && At(s, p, Returned(Success))
    requires Exec(s, later).Some?
    ensures var db := Exec(s, later).value.db;
            && WellFormed(db) && Version(db) >= |s.migrators[p].scripts| - 1
            && (Version(base) < |s.migrators[p].scripts| ==>
                  forall v :: Version(base) < v < |s.migrators[p].scripts| ==> v in Rows(db))
  {
    RunPreservesInv(release, base, s, later);
    SuccessStays(s, later, p);
    var s' := Exec(s, later).value;
    assert MigratorHolds(release, s', p);
    ReachedRows(release, base, s'.db);
    forall v | Version(base) < v < |s.migrators[p].scripts| ensures v in Rows(s'.db) {
      assert Rows(s'.db)[|Rows(base)| + v - Version(base) - 1] == v;
    }
  }

  /** Any history of failures, crashes and restarts in which some replica of the
      full release succeeded ends in the database every other such history, an
      undisturbed single run among them, ends in. */
  lemma RecoveryIsExact(release: Migrations, base: Database, one: seq<Move>, two: seq<Move>, p: Pid, q: Pid)
    requires WellFormed(base) && Uses(one, release) && Uses(two, release)
    requires Exec(Initial(base), one).Some? && Exec(Initial(base), two).Some?
    requires At(Exec(Initial(base), one).value, p, Returned(Success))
    requires At(Exec(Initial(base), two).value, q, Returned(Success))
    requires Exec(Initial(base), one).value.migrators[p].scripts == release
    requires Exec(Initial(base), two).value.migrators[q].scripts == release
    ensures Exec(Initial(base), one).value.db == Exec(Initial(base), two).value.db
    ensures Version(base) < |release| ==>
              Some(Exec(Initial(base), one).value.db) == Replay(release, Version(base), |release| - 1, base)
  {
    FullReleaseDecides(release, base, one, p);
    FullReleaseDecides(release, base, two, q);
  }

  lemma FullReleaseDecides(release: Migrations, base: Database, moves: seq<Move>, p: Pid)
    requires WellFormed(base) && Uses(moves, release) && Exec(Initial(base), moves).Some?
    requires At(Exec(Initial(base), moves).value, p, Returned(Success))
    requires Exec(Initial(base), moves).value.migrators[p].scripts == release
    ensures Some(Exec(Initial(base), moves).value.db) ==
            if Version(base) < |release| then Replay(release, Version(base), |release| - 1, base) else Some(base)
  {
    RunInv(release, base, moves);
    SuccessOfFullRelease(release, base, Exec(Initial(base), moves).value, p);
  }

  lemma SuccessOfFullRelease(release: Migrations, base: Database, s: State, p: Pid)
    requires Inv(release, base, s) && At(s, p, Returned(Success)) && s.migrators[p].scripts == release
    ensures Some(s.db) ==
            if Version(base) < |release| then Replay(release, Version(base), |release| - 1, base) else Some(base)
  {
    assert MigratorHolds(release, s, p);
  }

  /** Under the lock the version read is the committed one; max() is never NULL,
      and the INSERT meets no duplicate and no negative number. It is rejected
      only if no step created the table, or if the number is no int4. */
  lemma ReadsAndInsertsAreSafe(release: Migrations, base: Database, s: State, p: Pid)
    requires Inv(release, base, s) && HasOpen(s, p)
    ensures At(s, p, Reading) ==>
              && Rows(View(s, p)) != [] && View(s, p) == s.db
              && !Do(s, ReadVersion(p)).migrators[p].phase.RollingBack?
              && Do(s, ReadVersion(p)).migrators[p].next == Version(s.db) + 1
    ensures At(s, p, Inserting) ==>
              && 0 <= s.migrators[p].next < |s.migrators[p].scripts|
              && s.migrators[p].next !in Rows(View(s, p))
              && (InsertVersion(View(s, p), s.migrators[p].next).None? <==>
                    View(s, p).versions.None? || s.migrators[p].next > MAX_INT4)
  {
    assert MigratorHolds(release, s, p);
    if At(s, p, Inserting) {
      StepsKeepVersionRows(s.migrators[p].scripts[s.migrators[p].next], s.db);
    }
  }

  /** p has failed: it will not ask the server to commit what it has written. */
  predicate GaveUp(s: State, p: Pid) {
    && p in s.migrators
    && Gone(s.migrators[p])
    && (s.migrators[p].session.Open? ==> !s.migrators[p].session.commitRequested)
  }

  /** Whoever meets an error or dies before asking for the commit has given up. */
  lemma FailingIsGivingUp(release: Migrations, base: Database, s: State, p: Pid)
    requires Inv(release, base, s)
    ensures Enabled(s, BeginFails(p)) ==> GaveUp(Do(s, BeginFails(p)), p)
    ensures Enabled(s, StatementFails(p)) ==> GaveUp(Do(s, StatementFails(p)), p)
    ensures At(s, p, RollingBack) ==> GaveUp(s, p)
  {
    assert p in s.migrators ==> MigratorHolds(release, s, p);
  }

  lemma DyingIsGivingUp(release: Migrations, base: Database, s: State, p: Pid)
    requires Inv(release, base, s) && Enabled(s, Crash(p)) && !At(s, p, Awaiting)
    ensures GaveUp(Do(s, Crash(p)), p)
  {
    assert MigratorHolds(release, s, p);
  }

  /** The failures that the guarantees withstand: at any moment a process may start,
      an unfinished one may die, and the server may end any open transaction or
      carry out a requested commit; beginning, rolling back and committing may
      report an error wherever they may succeed. */
  lemma FailuresAreAlwaysPossible(s: State, p: Pid, scripts: Migrations)
    ensures p !in s.migrators ==> Enabled(s, Start(p, scripts))
    ensures p in s.migrators && !Dead(s.migrators[p]) ==> Enabled(s, Crash(p))
    ensures HasOpen(s, p) ==> Enabled(s, ServerAborts(p))
    ensures HasOpen(s, p) && s.migrators[p].session.commitRequested ==> Enabled(s, ServerCommits(p))
    ensures Enabled(s, Begin(p)) <==> Enabled(s, BeginFails(p))
    ensures Enabled(s, Rollback(p)) <==> Enabled(s, RollbackReportsError(p))
    ensures Enabled(s, CommitReturns(p)) ==> Enabled(s, CommitReportsError(p))
  {
  }

  /** A commit may report an error as soon as it is asked for. */
  lemma CommitMayFail(s: State, p: Pid)
    requires Enabled(s, RequestCommit(p))
    ensures Enabled(Do(s, RequestCommit(p)), CommitReportsError(p))
  {
  }

  /** max() of an empty table is NULL, which is an error. */
  lemma EmptyTableIsAnError(s: State, p: Pid)
    requires Enabled(s, ReadVersion(p)) && Rows(View(s, p)) == []
    ensures Do(s, ReadVersion(p)) == Put(s, p, s.migrators[p].(phase := RollingBack))
    ensures GaveUp(Do(s, ReadVersion(p)), p) <==> !s.migrators[p].session.commitRequested
  {
  }

  /** A client that crashes or gives up while its session is queued for the lock
      may still be granted it; the session then keeps it until the server ends it. */
  lemma QueuedSessionMayGetTheLock(s: State, p: Pid)
    requires At(s, p, Locking) && HasOpen(s, p) && s.lock.None?
    ensures Exec(s, [Crash(p), ServerGrants(p)]).Some? && Exec(s, [Crash(p), ServerGrants(p)]).value.lock == Some(p)
    ensures Exec(s, [StatementFails(p), ServerGrants(p)]).Some?
    ensures Exec(s, [StatementFails(p), ServerGrants(p)]).value.lock == Some(p)
  {
    TwoMoves(s, Crash(p), ServerGrants(p));
    TwoMoves(s, StatementFails(p), ServerGrants(p));
  }

  lemma TwoMoves(s: State, first: Move, second: Move)
    requires Enabled(s, first) && Enabled(Do(s, first), second)
    ensures Exec(s, [first, second]) == Some(Do(Do(s, first), second))
  {
    assert [] + [first] == [first] && [first] + [second] == [first, second];
    ExecGrows(s, [], first);
    ExecGrows(s, [first], second);
  }

  /** A statement can fail exactly where one is sent: with the lock free and the
      session open, where a statement of p is possible, be it a step or not. */
  lemma StatementsFailWhereSent(s: State, p: Pid)
    requires HasOpen(s, p) && s.lock.None?
    ensures Enabled(s, StatementFails(p)) <==>
              || Enabled(s, AcquireLock(p)) || Enabled(s, CheckTable(p)) || Enabled(s, ReadVersion(p))
              || Enabled(s, InsertRow(p))
              || (Enabled(s, RunStep(p)) && !At(Do(s, RunStep(p)), p, Inserting))
  {
  }

  lemma GivingUpIsFinal(s: State, p: Pid, move: Move)
    requires GaveUp(s, p) && Enabled(s, move)
    ensures var s' := Do(s, move);
            && GaveUp(s', p)
            && (s'.log == s.log || (move.pid != p && s'.log == s.log + [Applied(move.pid, s.migrators[move.pid].next)]))
            && (move.pid == p ==> s'.db == s.db)
  {
  }

  /** A version whose steps or INSERT failed, or whose client died before the
      commit, leaves no trace in any interleaving; with nobody else at work the
      database stays as it was. */
  lemma {:induction false} FailureLeavesNoTrace(s: State, p: Pid, moves: seq<Move>)
    requires GaveUp(s, p)
    ensures match Exec(s, moves)
            case None => true
            case Some(s') =>
              && GaveUp(s', p)
              && s.log <= s'.log
              && (forall i :: |s.log| <= i < |s'.log| ==> s'.log[i].pid != p)
              && ((forall move :: move in moves ==> move.pid == p) ==> s'.db == s.db)
    decreases |moves|
  {
    if moves != [] {
      var init, last := moves[..|moves| - 1], moves[|moves| - 1];
      assert moves == init + [last];
      FailureLeavesNoTrace(s, p, init);
      match Exec(s, init)
      case None =>
      case Some(mid) => if Enabled(mid, last) { GivingUpIsFinal(mid, p, last); }
    }
  }

  /** While p works on version k under the lock, the database is at k - 1. */
  lemma WorksOnTheNextVersion(release: Migrations, base: Database, s: State, p: Pid)
    requires Inv(release, base, s) && HasOpen(s, p)
    requires AtStep(s, p) || At(s, p, Inserting)
    ensures var k := s.migrators[p].next;
            && s.lock == Some(p) && 0 <= k < |release|
            && Replay(release, Version(base), k - 1, base) == Some(s.db)
            && Version(s.db) == k - 1
  {
    assert MigratorHolds(release, s, p);
  }
}
