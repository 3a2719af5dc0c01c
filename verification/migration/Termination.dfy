/** Every run is bounded, and no reachable state is stuck. */
module Termination {
  import opened Wrappers
  import opened Scripts
  import opened Effects
  import opened Protocol
  import opened Invariant
  import opened Guarantees

  function VersionsLeft(m: Migrator): nat {
    if m.next < |m.scripts| then |m.scripts| - m.next else 0
  }

  function PhasesLeft(m: Migrator): nat {
    match m.phase
    case Head => if m.next < |m.scripts| then 10 else 2
    case Locking => 9
    case Checking => 8
    case Reading => 7
    case Stepping(_) => 6
    case Inserting => 5
    case Committing => 4
    case Awaiting => 3
    case RollingBack => 1
    case Returned(_) => 0
    case Crashed => 0
  }

  function StepsLeft(m: Migrator): nat {
    if m.phase.Stepping? && 0 <= m.next < |m.scripts| && m.phase.j <= |m.scripts[m.next]|
    then |m.scripts[m.next]| - m.phase.j else 0
  }

  predicate Closer(a: Migrator, b: Migrator) {
    || VersionsLeft(a) < VersionsLeft(b)
    || (VersionsLeft(a) == VersionsLeft(b) && PhasesLeft(a) < PhasesLeft(b))
    || (VersionsLeft(a) == VersionsLeft(b) && PhasesLeft(a) == PhasesLeft(b) && StepsLeft(a) < StepsLeft(b))
  }

  predicate ByServer(move: Move) {
    move.ServerCommits? || move.ServerAborts? || move.ServerGrants?
  }

  predicate SameProgress(a: Migrator, b: Migrator) {
    a.phase == b.phase && a.next == b.next && VersionsLeft(a) == VersionsLeft(b)
    && PhasesLeft(a) == PhasesLeft(b) && StepsLeft(a) == StepsLeft(b)
  }

  lemma OthersKeepProgress(s: State, move: Move, p: Pid)
    requires Enabled(s, move) && !move.Start? && p in s.migrators
    requires move.pid != p || ByServer(move)
    ensures SameProgress(Do(s, move).migrators[p], s.migrators[p])
  {
  }

  lemma ReadsBringCloser(release: Migrations, base: Database, s: State, move: Move)
    requires Inv(release, base, s) && Enabled(s, move) && (move.CheckTable? || move.ReadVersion?)
    ensures Closer(Do(s, move).migrators[move.pid], s.migrators[move.pid])
  {
    var p := move.pid;
    ReadsAreCurrent(release, base, s, p);
    var m, m' := s.migrators[p], Do(s, move).migrators[p];
    assert m' == m.(phase := Reading) || m' == m.(phase := RollingBack) || m' == Overwrite(m, Version(s.db));
    assert m'.next >= m.next || m' == m.(phase := RollingBack);
  }

  lemma CommitsBringCloser(release: Migrations, base: Database, s: State, move: Move)
    requires Inv(release, base, s) && Enabled(s, move) && !ByServer(move)
    requires move.RequestCommit? || move.CommitReturns? || move.CommitReportsError?
    ensures Closer(Do(s, move).migrators[move.pid], s.migrators[move.pid])
  {
    assert MigratorHolds(release, s, move.pid);
  }

  lemma StepsBringCloser(release: Migrations, base: Database, s: State, move: Move)
    requires Inv(release, base, s) && Enabled(s, move) && (move.RunStep? || move.InsertRow?)
    ensures Closer(Do(s, move).migrators[move.pid], s.migrators[move.pid])
  {
    assert MigratorHolds(release, s, move.pid);
  }

  lemma WorkBringsCloser(release: Migrations, base: Database, s: State, move: Move)
    requires Inv(release, base, s) && Enabled(s, move) && !ByServer(move) && !move.Start?
    requires !move.CheckTable? && !move.ReadVersion? && !move.RunStep? && !move.InsertRow?
    requires !move.RequestCommit? && !move.CommitReturns? && !move.CommitReportsError?
    ensures Closer(Do(s, move).migrators[move.pid], s.migrators[move.pid])
  {
    assert MigratorHolds(release, s, move.pid);
  }

  /** Each move of a client brings its run strictly closer to its end, although
      the callee overwrites the counter and others advance the database between
      iterations; no move of anyone else sets it back. */
  lemma ClientMovesComeToAnEnd(release: Migrations, base: Database, s: State, move: Move, p: Pid)
    requires Inv(release, base, s) && Enabled(s, move) && !move.Start? && p in s.migrators
    ensures if move.pid == p && !ByServer(move)
            then Closer(Do(s, move).migrators[p], s.migrators[p])
            else SameProgress(Do(s, move).migrators[p], s.migrators[p])
  {
    if move.pid != p || ByServer(move) {
      OthersKeepProgress(s, move, p);
    } else if move.CheckTable? || move.ReadVersion? {
      ReadsBringCloser(release, base, s, move);
    } else if move.RequestCommit? || move.CommitReturns? || move.CommitReportsError? {
      CommitsBringCloser(release, base, s, move);
    } else if move.RunStep? || move.InsertRow? {
      StepsBringCloser(release, base, s, move);
    } else {
      WorkBringsCloser(release, base, s, move);
    }
  }

  lemma ReadsAreCurrent(release: Migrations, base: Database, s: State, p: Pid)
    requires Inv(release, base, s) && HasOpen(s, p) && (At(s, p, Checking) || At(s, p, Reading))
    ensures View(s, p) == s.db && s.migrators[p].next <= Version(s.db) + 1
  {
    assert MigratorHolds(release, s, p);
  }

  /** A run opens at most as many transactions as its list has versions. */
  lemma TransactionsAreBounded(release: Migrations, base: Database, moves: seq<Move>, p: Pid)
    requires WellFormed(base) && Uses(moves, release)
    requires Exec(Initial(base), moves).Some? && p in Exec(Initial(base), moves).value.migrators
    ensures var m := Exec(Initial(base), moves).value.migrators[p];
            m.begun <= |m.scripts|
  {
    RunInv(release, base, moves);
    assert MigratorHolds(release, Exec(Initial(base), moves).value, p);
  }

  /** A move that is due in s and that p waits for: p's own next statement, the
      answer of the server, or the end of the transaction p is queued behind.
      Statements fail here only when their session is already gone. */
  function Due(s: State, p: Pid): Move
    requires p in s.migrators
  {
    var m := s.migrators[p];
    if m.phase == Locking && m.session.Open? && s.lock.Some? && s.lock.value in s.migrators then
      DueOf(s, s.lock.value)
    else
      DueOf(s, p)
  }

  function DueOf(s: State, p: Pid): Move
    requires p in s.migrators
  {
    var m := s.migrators[p];
    match m.phase
    case Head => if m.next < |m.scripts| then Begin(p) else Finish(p)
    case Locking => if m.session.Open? then AcquireLock(p) else StatementFails(p)
    case Checking => if m.session.Open? then CheckTable(p) else StatementFails(p)
    case Reading => if m.session.Open? then ReadVersion(p) else StatementFails(p)
    case Stepping(j) =>
      if m.session.Open? || (0 <= m.next < |m.scripts| && j >= |m.scripts[m.next]|) then RunStep(p)
      else StatementFails(p)
    case Inserting => if m.session.Open? then InsertRow(p) else StatementFails(p)
    case Committing => RequestCommit(p)
    case Awaiting =>
      if m.session.Open? then ServerCommits(p)
      else if m.session.Ended? && m.session.committed then CommitReturns(p)
      else CommitReportsError(p)
    case RollingBack => Rollback(p)
    case Returned(_) =>
      if m.session.Open? && m.session.commitRequested then ServerCommits(p) else ServerAborts(p)
    case Crashed =>
      if m.session.Open? && m.session.commitRequested then ServerCommits(p) else ServerAborts(p)
  }

  lemma DueOfIsEnabled(release: Migrations, s: State, p: Pid)
    requires WellFormed(s.db) && p in s.migrators && MigratorHolds(release, s, p)
    requires !Dead(s.migrators[p]) || s.migrators[p].session.Open?
    requires At(s, p, Locking) && HasOpen(s, p) ==> s.lock.None?
    ensures Enabled(s, DueOf(s, p)) && !DueOf(s, p).Start? && DueOf(s, p).pid == p
  {
  }

  /** No reachable state is stuck: while p is unfinished, the move it waits for
      is possible. */
  lemma NeverStuck(release: Migrations, base: Database, s: State, p: Pid)
    requires Inv(release, base, s) && p in s.migrators && !Dead(s.migrators[p])
    ensures Enabled(s, Due(s, p)) && !Due(s, p).Start?
    ensures Due(s, p).pid == p || (At(s, p, Locking) && s.lock == Some(Due(s, p).pid) && HasOpen(s, Due(s, p).pid))
  {
    assert MigratorHolds(release, s, p);
    if Due(s, p) == DueOf(s, p) {
      DueOfIsEnabled(release, s, p);
    } else {
      var q := s.lock.value;
      assert MigratorHolds(release, s, q);
      DueOfIsEnabled(release, s, q);
    }
  }

  function OpenCount(s: State, p: Pid): nat {
    if HasOpen(s, p) then 1 else 0
  }

  // The migrator that holds the lock, or p itself.
  function Ahead(s: State, p: Pid): (q: Pid)
    requires p in s.migrators
    ensures q in s.migrators
  {
    if s.lock.Some? && s.lock.value in s.migrators then s.lock.value else p
  }

  function Locked(s: State): nat {
    if s.lock.Some? then 1 else 0
  }

  ghost predicate DueBringsCloser(s: State, s': State, p: Pid)
    requires p in s.migrators && p in s'.migrators
  {
    || Closer(s'.migrators[p], s.migrators[p])
    || (SameProgress(s'.migrators[p], s.migrators[p]) && OpenCount(s', p) < OpenCount(s, p))
    || (SameProgress(s'.migrators[p], s.migrators[p]) && OpenCount(s', p) == OpenCount(s, p)
        && (|| Locked(s') < Locked(s)
            || (s'.lock == s.lock && Closer(s'.migrators[Ahead(s', p)], s.migrators[Ahead(s, p)]))))
  }

  lemma MoveOfHolder(release: Migrations, base: Database, s: State, p: Pid)
    requires Inv(release, base, s) && p in s.migrators && !Dead(s.migrators[p]) && Enabled(s, Due(s, p))
    requires Due(s, p).pid != p && s.lock == Some(Due(s, p).pid) && !Due(s, p).Start?
    ensures var s' := Do(s, Due(s, p));
            && OpenCount(s', p) == OpenCount(s, p)
            && (s'.lock == s.lock || s'.lock.None?)
            && (ByServer(Due(s, p)) ==> s'.lock.None?)
  {
  }

  lemma OwnMoveOfServer(release: Migrations, base: Database, s: State, p: Pid)
    requires Inv(release, base, s) && p in s.migrators && !Dead(s.migrators[p]) && Enabled(s, Due(s, p))
    requires Due(s, p).pid == p && ByServer(Due(s, p))
    ensures OpenCount(Do(s, Due(s, p)), p) < OpenCount(s, p)
  {
  }

  lemma DueMoveBringsCloser(release: Migrations, base: Database, s: State, p: Pid)
    requires Inv(release, base, s) && p in s.migrators && !Dead(s.migrators[p])
    ensures var move := Due(s, p);
            Enabled(s, move) && p in Do(s, move).migrators && DueBringsCloser(s, Do(s, move), p)
    ensures !Due(s, p).Start? && !Due(s, p).Crash?
  {
    NeverStuck(release, base, s, p);
    var move := Due(s, p);
    var q := move.pid;
    ClientMovesComeToAnEnd(release, base, s, move, p);
    if q != p {
      ClientMovesComeToAnEnd(release, base, s, move, q);
      MoveOfHolder(release, base, s, p);
    } else if ByServer(move) {
      OwnMoveOfServer(release, base, s, p);
    }
  }

  /** Every move of the sequence is the one that is due for p when it is made. */
  ghost predicate AllDue(s: State, moves: seq<Move>, p: Pid)
    decreases |moves|
  {
    moves == [] ||
    (&& p in s.migrators && !Dead(s.migrators[p])
     && moves[0] == Due(s, p) && Enabled(s, moves[0])
     && AllDue(Do(s, moves[0]), moves[1..], p))
  }

  lemma ExecOne(s: State, move: Move)
    ensures Exec(s, [move]) == if Enabled(s, move) then Some(Do(s, move)) else None
  {
    ExecGrows(s, [], move);
    assert [] + [move] == [move];
  }

  lemma {:induction false} DueMovesRun(s: State, moves: seq<Move>, p: Pid)
    requires AllDue(s, moves, p)
    ensures Exec(s, moves).Some?
    decreases |moves|
  {
    if moves != [] {
      var first, rest := moves[0], moves[1..];
      DueMovesRun(Do(s, first), rest, p);
      ExecOne(s, first);
      ExecSplits(s, [first], rest);
      assert moves == [first] + rest;
    }
  }

  /** p has met no failure: its session is there whenever it needs one. */
  predicate Healthy(s: State, p: Pid) {
    && p in s.migrators
    && var m := s.migrators[p];
       match m.phase
       case Head => true
       case Awaiting => m.session.Open? || (m.session.Ended? && m.session.committed)
       case RollingBack => false
       case Returned(outcome) => outcome == Success
       case Crashed => false
       case _ => m.session.Open?
  }

  /** The versions that are still missing can be applied to the database as it
      is. */
  ghost predicate Remaining(s: State, p: Pid)
    requires p in s.migrators && WellFormed(s.db)
  {
    var m := s.migrators[p].scripts;
    Version(s.db) < |m| - 1 ==> Replay(m, Version(s.db), |m| - 1, s.db).Some?
  }

  lemma RemainingIsApplicable(s: State, p: Pid)
    requires p in s.migrators && WellFormed(s.db)
    ensures Remaining(s, p) <==>
              (var m := s.migrators[p].scripts; Version(s.db) < |m| - 1 ==> Applicable(m, |m| - 1, s.db))
  {
    var m := s.migrators[p].scripts;
    if Version(s.db) < |m| - 1 {
      ReplaySucceedsIff(m, |m| - 1, s.db);
    }
  }

  /** From every reachable state every unfinished run can be completed by the
      moves that are due, and by nothing else. A run that has met no failure then
      succeeds exactly if the missing versions can be applied. */
  lemma {:induction false} EveryRunCanFinish(release: Migrations, base: Database, s: State, p: Pid)
    returns (moves: seq<Move>)
    requires Inv(release, base, s) && p in s.migrators && !s.migrators[p].phase.Crashed?
    ensures AllDue(s, moves, p) && Exec(s, moves).Some? && p in Exec(s, moves).value.migrators
    ensures Exec(s, moves).value.migrators[p].phase.Returned?
    ensures Healthy(s, p) ==>
              (Exec(s, moves).value.migrators[p].phase == Returned(Success) <==> Remaining(s, p))
    ensures Remaining(s, p) <==>
              (var m := s.migrators[p].scripts; Version(s.db) < |m| - 1 ==> Applicable(m, |m| - 1, s.db))
    ensures Inv(release, base, Exec(s, moves).value)
    ensures Exec(s, moves).value.migrators[p].scripts == s.migrators[p].scripts
    decreases VersionsLeft(s.migrators[p]), PhasesLeft(s.migrators[p]), StepsLeft(s.migrators[p]), OpenCount(s, p),
              Locked(s), VersionsLeft(s.migrators[Ahead(s, p)]), PhasesLeft(s.migrators[Ahead(s, p)]),
              StepsLeft(s.migrators[Ahead(s, p)])
  {
    RemainingIsApplicable(s, p);
    if s.migrators[p].phase.Returned? {
      moves := [];
      SuccessNeedsRemaining(release, base, s, s, p);
      return;
    }
    var move := Due(s, p);
    DueMoveBringsCloser(release, base, s, p);
    var s' := Do(s, move);
    StepPreservesInv(release, base, s, move);
    DueNeverCrashes(s, p);
    if Healthy(s, p) && Remaining(s, p) {
      DueKeepsHealth(release, base, s, p);
    }
    var rest := EveryRunCanFinish(release, base, s', p);
    moves := [move] + rest;
    assert moves[1..] == rest;
    DueMovesRun(s, moves, p);
    ExecSplits(s, [move], rest);
    ExecOne(s, move);
    OthersOrOwnScripts(s, move, p);
    SuccessNeedsRemaining(release, base, s, Exec(s, moves).value, p);
  }

  /** When p has succeeded, everything it had to apply before could be applied. */
  lemma SuccessNeedsRemaining(release: Migrations, base: Database, s: State, end: State, p: Pid)
    requires Inv(release, base, s) && Inv(release, base, end) && p in s.migrators && p in end.migrators
    requires end.migrators[p].scripts == s.migrators[p].scripts
    ensures end.migrators[p].phase == Returned(Success) ==> Remaining(s, p)
  {
    var m, v, v' := s.migrators[p].scripts, Version(s.db), Version(end.db);
    if end.migrators[p].phase == Returned(Success) && v < |m| - 1 {
      assert MigratorHolds(release, s, p) && MigratorHolds(release, end, p);
      ReachedIsPassed(release, base, s.db, end.db, |m| - 1);
      ReplayPrefix(m, release, v, |m| - 1, s.db);
    }
  }

  lemma ReachedIsPassed(release: Migrations, base: Database, db: Database, db': Database, k: int)
    requires Reached(release, base, db) && Reached(release, base, db')
    requires Version(db) <= k <= Version(db') && k < |release| && Version(db) < Version(db')
    ensures Replay(release, Version(db), k, db).Some?
  {
    ReplaySplits(release, Version(base), k, Version(db'), base);
    ReplaySplits(release, Version(base), Version(db), k, base);
  }

  lemma DueNeverCrashes(s: State, p: Pid)
    requires p in s.migrators && !Dead(s.migrators[p]) && Enabled(s, Due(s, p)) && !Due(s, p).Start? && !Due(s, p).Crash?
    ensures !Do(s, Due(s, p)).migrators[p].phase.Crashed?
  {
  }

  /** A step of a version that can be applied does not fail. */
  lemma {:induction false} FirstStepsRun(steps: seq<Step>, j: nat, db: Database)
    requires j <= |steps| && ExecSteps(steps, db).Some?
    ensures ExecSteps(steps[..j], db).Some?
    decreases |steps|
  {
    if j == |steps| {
      assert steps[..j] == steps;
    } else {
      assert steps[..|steps| - 1][..j] == steps[..j];
      FirstStepsRun(steps[..|steps| - 1], j, db);
    }
  }

  /** What remains starts with the next version. */
  lemma NextCanBeApplied(m: Migrations, db: Database)
    requires WellFormed(db) && Version(db) < |m| - 1 && Replay(m, Version(db), |m| - 1, db).Some?
    ensures ApplyVersion(m[Version(db) + 1], Version(db) + 1, db).Some?
    ensures var next := ApplyVersion(m[Version(db) + 1], Version(db) + 1, db).value;
            WellFormed(next) && Version(next) == Version(db) + 1
            && Replay(m, Version(next), |m| - 1, next) == Replay(m, Version(db), |m| - 1, db)
  {
    var v := Version(db);
    ReplaySplits(m, v, v + 1, |m| - 1, db);
    assert Replay(m, v, v, db) == Some(db);
    ApplyVersionExtends(m[v + 1], db);
  }

  /** The database moves on by a version of the release; what remains for p can
      still be applied. */
  lemma CommitKeepsRemaining(release: Migrations, base: Database, s: State, p: Pid, q: Pid)
    requires Inv(release, base, s) && p in s.migrators && Remaining(s, p)
    requires Enabled(s, ServerCommits(q)) && s.migrators[q].session.pending.Some?
    ensures WellFormed(Do(s, ServerCommits(q)).db) && Remaining(Do(s, ServerCommits(q)), p)
  {
    CommitReachesNext(release, base, s, q);
    assert MigratorHolds(release, s, p);
    assert MigratorHolds(release, s, q);
    var m, v := s.migrators[p].scripts, Version(s.db);
    if v < |m| - 1 {
      assert m[v + 1] == release[v + 1] == s.migrators[q].scripts[v + 1];
      NextCanBeApplied(m, s.db);
    }
  }

  lemma RemainingStays(release: Migrations, base: Database, s: State, p: Pid, move: Move)
    requires Inv(release, base, s) && p in s.migrators && Remaining(s, p) && Enabled(s, move) && !move.Start?
    ensures WellFormed(Do(s, move).db) && p in Do(s, move).migrators && Remaining(Do(s, move), p)
  {
    OthersOrOwnScripts(s, move, p);
    if TakesEffect(s, move) {
      CommitKeepsRemaining(release, base, s, p, move.pid);
    } else {
      OnlyTheLockHolderAdvances(release, base, s, move);
      assert MigratorHolds(release, s, move.pid);
      MoveIsLocal(s, move);
    }
  }

  lemma OthersOrOwnScripts(s: State, move: Move, p: Pid)
    requires Enabled(s, move) && !move.Start? && p in s.migrators
    ensures p in Do(s, move).migrators && Do(s, move).migrators[p].scripts == s.migrators[p].scripts
  {
  }

  lemma StepSucceeds(release: Migrations, base: Database, s: State, p: Pid)
    requires Inv(release, base, s) && Healthy(s, p) && Remaining(s, p) && Enabled(s, RunStep(p))
    ensures Healthy(Do(s, RunStep(p)), p)
  {
    assert MigratorHolds(release, s, p);
    var m := s.migrators[p];
    NextCanBeApplied(m.scripts, s.db);
    var steps, j := m.scripts[m.next], m.phase.j;
    if j < |steps| {
      StepOfAppliedRuns(steps, j, s.db, View(s, p));
    }
  }

  lemma StepOfAppliedRuns(steps: seq<Step>, j: nat, db: Database, mid: Database)
    requires j < |steps| && ExecSteps(steps, db).Some? && ExecSteps(steps[..j], db) == Some(mid)
    ensures ExecStep(steps[j], mid).Some?
  {
    FirstStepsRun(steps, j + 1, db);
    assert steps[..j + 1][..j] == steps[..j];
    assert steps[..j + 1][j] == steps[j];
  }

  lemma InsertSucceeds(release: Migrations, base: Database, s: State, p: Pid)
    requires Inv(release, base, s) && Healthy(s, p) && Remaining(s, p) && Enabled(s, InsertRow(p))
    ensures Healthy(Do(s, InsertRow(p)), p)
  {
    assert MigratorHolds(release, s, p);
    NextCanBeApplied(s.migrators[p].scripts, s.db);
  }

  lemma OthersKeepHealth(release: Migrations, base: Database, s: State, p: Pid)
    requires Inv(release, base, s) && p in s.migrators && !Dead(s.migrators[p]) && Healthy(s, p)
    requires Enabled(s, Due(s, p)) && (Due(s, p).pid != p || ByServer(Due(s, p))) && !Due(s, p).Start?
    ensures Healthy(Do(s, Due(s, p)), p)
  {
  }

  lemma OwnDueKeepsHealth(release: Migrations, base: Database, s: State, p: Pid)
    requires Inv(release, base, s) && p in s.migrators && !Dead(s.migrators[p]) && Healthy(s, p)
    requires Enabled(s, Due(s, p)) && Due(s, p).pid == p && !ByServer(Due(s, p))
    requires !Due(s, p).RunStep? && !Due(s, p).InsertRow?
    ensures Healthy(Do(s, Due(s, p)), p)
  {
    assert MigratorHolds(release, s, p);
  }

  lemma DueKeepsHealth(release: Migrations, base: Database, s: State, p: Pid)
    requires Inv(release, base, s) && p in s.migrators && !Dead(s.migrators[p]) && Healthy(s, p) && Remaining(s, p)
    requires Enabled(s, Due(s, p)) && !Due(s, p).Start?
    ensures var s' := Do(s, Due(s, p));
            Healthy(s', p) && WellFormed(s'.db) && Remaining(s', p)
  {
    var move := Due(s, p);
    RemainingStays(release, base, s, p, move);
    if move.pid != p || ByServer(move) {
      OthersKeepHealth(release, base, s, p);
    } else if move.RunStep? {
      StepSucceeds(release, base, s, p);
    } else if move.InsertRow? {
      InsertSucceeds(release, base, s, p);
    } else {
      OwnDueKeepsHealth(release, base, s, p);
    }
  }
}
