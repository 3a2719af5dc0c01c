/** What the loop counter of `Migrate` is while nobody else is at work. */
module Undisturbed {
  import opened Wrappers
  import opened Scripts
  import opened Protocol
  import opened Invariant
  import opened Guarantees
  import opened Termination

  /** Where the counter and the version stand, if the database was at version
      `v0` when p started and only p has moved since. */
  ghost predicate Calm(v0: int, s: State, p: Pid) {
    && WellFormed(s.db) && p in s.migrators
    && var m, v := s.migrators[p], Version(s.db);
       var len := |m.scripts|;
       && (if v0 < len - 1 then v0 <= v <= len - 1 else v == v0)
       && (m.begun == 0 ==> m.phase == Head || Dead(m))
       && match m.phase
          case Head =>
            if m.begun == 0 then m.next == 0 && v == v0 else m.next == if v0 < len - 1 then v + 1 else v + 2
          case Locking => v0 < len - 1 ==> v < len - 1
          case Checking => v0 < len - 1 ==> v < len - 1
          case Reading => v0 < len - 1 ==> v < len - 1
          case Stepping(_) => m.next == v + 1 < len
          case Inserting => m.next == v + 1 < len
          case Committing => m.next == v + 1 && (v0 < len - 1 ==> v < len - 1)
          case Awaiting =>
            if v0 < len - 1 && m.session.Ended? && m.session.committed then m.next == v
            else m.next == v + 1 && (v0 < len - 1 ==> v < len - 1)
          case _ => true
  }

  lemma CalmReads(release: Migrations, base: Database, s: State, move: Move, v0: int)
    requires Inv(release, base, s) && Enabled(s, move) && Calm(v0, s, move.pid)
    requires move.CheckTable? || move.ReadVersion?
    ensures Calm(v0, Do(s, move), move.pid)
  {
    var p := move.pid;
    ReadsAreCurrent(release, base, s, p);
    ReadsAndInsertsAreSafe(release, base, s, p);
    var m, m' := s.migrators[p], Do(s, move).migrators[p];
    assert m' == m.(phase := Reading) || m' == Overwrite(m, Version(s.db));
  }

  lemma CalmCommits(release: Migrations, base: Database, s: State, p: Pid, v0: int)
    requires Inv(release, base, s) && Enabled(s, ServerCommits(p)) && Calm(v0, s, p)
    ensures Calm(v0, Do(s, ServerCommits(p)), p)
  {
    assert MigratorHolds(release, s, p);
    if s.migrators[p].session.pending.Some? {
      CommitReachesNext(release, base, s, p);
    }
    StepPreservesInv(release, base, s, ServerCommits(p));
    assert MigratorHolds(release, Do(s, ServerCommits(p)), p);
  }

  lemma CalmOther(release: Migrations, base: Database, s: State, move: Move, v0: int)
    requires Inv(release, base, s) && Enabled(s, move) && Calm(v0, s, move.pid) && !move.Start?
    requires !move.CheckTable? && !move.ReadVersion? && !move.ServerCommits?
    ensures Calm(v0, Do(s, move), move.pid)
  {
    assert MigratorHolds(release, s, move.pid);
  }

  lemma CalmStep(release: Migrations, base: Database, s: State, move: Move, v0: int)
    requires Inv(release, base, s) && Enabled(s, move) && Calm(v0, s, move.pid) && !move.Start?
    ensures Calm(v0, Do(s, move), move.pid)
  {
    if move.CheckTable? || move.ReadVersion? {
      CalmReads(release, base, s, move, v0);
    } else if move.ServerCommits? {
      CalmCommits(release, base, s, move.pid, v0);
    } else {
      CalmOther(release, base, s, move, v0);
    }
  }

  lemma FirstStep(s: State, move: Move)
    requires Enabled(s, move) && move.Start? && WellFormed(s.db)
    ensures Calm(Version(s.db), Do(s, move), move.pid)
    ensures Do(s, move).migrators[move.pid].scripts == move.scripts
  {
  }

  lemma ScriptsStay(s: State, move: Move)
    requires Enabled(s, move) && !move.Start?
    ensures move.pid in s.migrators && move.pid in Do(s, move).migrators
    ensures Do(s, move).migrators[move.pid].scripts == s.migrators[move.pid].scripts
  {
  }

  lemma NotStarted(s: State, move: Move)
    requires Enabled(s, move) && move.pid in s.migrators
    ensures !move.Start?
  {
  }

  lemma CalmNext(release: Migrations, base: Database, s: State, move: Move, v0: int, m: Migrations)
    requires Inv(release, base, s) && Enabled(s, move) && Calm(v0, s, move.pid)
    requires s.migrators[move.pid].scripts == m
    ensures Inv(release, base, Do(s, move)) && Calm(v0, Do(s, move), move.pid)
    ensures Do(s, move).migrators[move.pid].scripts == m
  {
    NotStarted(s, move);
    CalmStep(release, base, s, move, v0);
    StepPreservesInv(release, base, s, move);
    ScriptsStay(s, move);
  }

  ghost predicate Leads(s: State, move: Move, s': State) {
    Enabled(s, move) && s' == Do(s, move)
  }

  /** The states before, between and after the moves of a run. */
  ghost predicate Follows(states: seq<State>, moves: seq<Move>) {
    && |states| == |moves| + 1
    && forall k :: 0 <= k < |moves| ==> Leads(states[k], moves[k], states[k + 1])
  }

  /** p starts, and only p moves. */
  ghost predicate Trail(states: seq<State>, moves: seq<Move>, p: Pid) {
    && Follows(states, moves) && moves != [] && moves[0].Start?
    && forall k :: 0 <= k < |moves| ==> moves[k].pid == p
  }

  ghost predicate Begins(release: Migrations, base: Database, states: seq<State>, moves: seq<Move>, p: Pid) {
    Trail(states, moves, p) && moves[0].scripts <= release && Inv(release, base, states[0])
  }

  lemma {:induction false} AlwaysCalm(release: Migrations, base: Database, states: seq<State>, moves: seq<Move>, p: Pid, k: nat)
    requires Begins(release, base, states, moves, p) && 0 < k <= |moves|
    ensures Inv(release, base, states[k]) && Calm(Version(states[0].db), states[k], p)
    ensures states[k].migrators[p].scripts == moves[0].scripts
    decreases k
  {
    assert Leads(states[k - 1], moves[k - 1], states[k - 1 + 1]);
    if k == 1 {
      StepPreservesInv(release, base, states[0], moves[0]);
      FirstStep(states[0], moves[0]);
    } else {
      AlwaysCalm(release, base, states, moves, p, k - 1);
      CalmNext(release, base, states[k - 1], moves[k - 1], Version(states[0].db), moves[0].scripts);
    }
  }

  /** The counter is at most one past the committed version. */
  ghost predicate Bounded(s: State, p: Pid)
    requires p in s.migrators
  {
    WellFormed(s.db) && s.migrators[p].next <= Version(s.db) + 1
  }

  /** It is so whenever p is at the loop head. */
  ghost predicate BoundedAtHeads(states: seq<State>, p: Pid) {
    forall k :: 0 < k < |states| && At(states[k], p, Head) ==> Bounded(states[k], p)
  }

  // The loop is about to end, or has ended, without an error.
  predicate Leaving(s: State, p: Pid) {
    && p in s.migrators && s.migrators[p].phase in {Head, Returned(Success), Crashed}
    && (s.migrators[p].phase.Head? ==> s.migrators[p].next >= |s.migrators[p].scripts| && !HasOpen(s, p))
  }

  lemma LeavingStep(s: State, move: Move)
    requires Enabled(s, move) && Leaving(s, move.pid)
    ensures Leaving(Do(s, move), move.pid)
  {
  }

  lemma {:induction false} LeavingStays(states: seq<State>, moves: seq<Move>, p: Pid, i: nat, k: nat)
    requires Trail(states, moves, p) && i <= k <= |moves| && Leaving(states[i], p)
    ensures Leaving(states[k], p)
    decreases k
  {
    if i < k {
      LeavingStays(states, moves, p, i, k - 1);
      assert Leads(states[k - 1], moves[k - 1], states[k - 1 + 1]);
      LeavingStep(states[k - 1], moves[k - 1]);
    }
  }

  lemma SuccessStep(s: State, move: Move)
    requires Enabled(s, move) && At(Do(s, move), move.pid, Returned(Success))
    ensures if move.Finish? then At(s, move.pid, Head) && s.migrators[move.pid].next >= |s.migrators[move.pid].scripts|
            else At(s, move.pid, Returned(Success))
  {
  }

  /** A run that ends in success ended at a head with an exhausted list. */
  lemma {:induction false} LastHead(states: seq<State>, moves: seq<Move>, p: Pid, k: nat) returns (i: nat)
    requires Trail(states, moves, p) && k <= |moves| && At(states[k], p, Returned(Success)) && p !in states[0].migrators
    ensures 0 < i < k && At(states[i], p, Head)
    ensures states[i].migrators[p].next >= |states[i].migrators[p].scripts|
    decreases k
  {
    assert Leads(states[k - 1], moves[k - 1], states[k - 1 + 1]);
    SuccessStep(states[k - 1], moves[k - 1]);
    if moves[k - 1].Finish? {
      i := k - 1;
    } else {
      i := LastHead(states, moves, p, k - 1);
    }
  }

  lemma HeadsBelowLast(release: Migrations, base: Database, states: seq<State>, moves: seq<Move>, p: Pid)
    requires Begins(release, base, states, moves, p)
    requires |moves[0].scripts| == 0 || Version(states[0].db) < |moves[0].scripts| - 1
    ensures BoundedAtHeads(states, p)
  {
    forall k | 0 < k < |states| && At(states[k], p, Head) ensures Bounded(states[k], p) {
      AlwaysCalm(release, base, states, moves, p, k);
      assert MigratorHolds(release, states[k], p);
    }
  }

  lemma HeadsOfFailed(release: Migrations, base: Database, states: seq<State>, moves: seq<Move>, p: Pid)
    requires Begins(release, base, states, moves, p) && !Leaving(states[|moves|], p)
    ensures BoundedAtHeads(states, p)
  {
    forall k | 0 < k < |states| && At(states[k], p, Head) ensures Bounded(states[k], p) {
      AlwaysCalm(release, base, states, moves, p, k);
      assert MigratorHolds(release, states[k], p);
      if states[k].migrators[p].next >= |states[k].migrators[p].scripts| {
        LeavingStays(states, moves, p, k, |moves|);
      }
    }
  }

  lemma HeadsOfIdle(release: Migrations, base: Database, states: seq<State>, moves: seq<Move>, p: Pid)
    requires Begins(release, base, states, moves, p) && At(states[|moves|], p, Returned(Success))
    requires |moves[0].scripts| > 0 && Version(states[0].db) >= |moves[0].scripts| - 1
    ensures !BoundedAtHeads(states, p)
  {
    assert Leads(states[0], moves[0], states[0 + 1]);
    var i := LastHead(states, moves, p, |moves|);
    AlwaysCalm(release, base, states, moves, p, i);
    assert !Bounded(states[i], p);
  }

  /** A replica that runs undisturbed and succeeds keeps its counter at most one
      past the committed version at every loop head, exactly if it has no
      scripts at all or finds the database below its last version; one that
      fails always does. */
  lemma UndisturbedCounter(release: Migrations, base: Database, states: seq<State>, moves: seq<Move>, p: Pid)
    requires Begins(release, base, states, moves, p)
    requires p in states[|moves|].migrators && states[|moves|].migrators[p].phase.Returned?
    ensures BoundedAtHeads(states, p) <==>
            || !At(states[|moves|], p, Returned(Success))
            || |moves[0].scripts| == 0 || Version(states[0].db) < |moves[0].scripts| - 1
  {
    if |moves[0].scripts| == 0 || Version(states[0].db) < |moves[0].scripts| - 1 {
      HeadsBelowLast(release, base, states, moves, p);
    } else if At(states[|moves|], p, Returned(Success)) {
      HeadsOfIdle(release, base, states, moves, p);
    } else {
      HeadsOfFailed(release, base, states, moves, p);
    }
  }

  /** The states of a run from its move `from` on. */
  ghost function StatesFrom(s: State, moves: seq<Move>, from: nat): (states: seq<State>)
    requires Exec(s, moves).Some? && from <= |moves|
    ensures |states| == |moves| - from + 1 && states[|moves| - from] == Exec(s, moves).value
    ensures Exec(s, moves[..from]) == Some(states[0])
    decreases |moves|
  {
    var last := Exec(s, moves).value;
    if from == |moves| then
      assert moves[..from] == moves;
      [last]
    else
      var init := moves[..|moves| - 1];
      assert init[..from] == moves[..from];
      StatesFrom(s, init, from) + [last]
  }

  lemma OneMoreFollows(states: seq<State>, moves: seq<Move>, from: nat, s': State)
    requires from < |moves| && Follows(states, moves[..|moves| - 1][from..])
    requires Leads(states[|states| - 1], moves[|moves| - 1], s')
    ensures Follows(states + [s'], moves[from..])
  {
    var init, run, longer := moves[..|moves| - 1][from..], moves[from..], states + [s'];
    assert run == init + [moves[|moves| - 1]];
    forall k | 0 <= k < |run| ensures Leads(longer[k], run[k], longer[k + 1]) {
      if k < |init| {
        assert Leads(states[k], init[k], states[k + 1]);
      }
    }
  }

  lemma LastMove(s: State, moves: seq<Move>, from: nat, mid: State, end: State)
    requires from < |moves| && Exec(s, moves) == Some(end) && Exec(s, moves[..|moves| - 1]) == Some(mid)
    ensures Leads(mid, moves[|moves| - 1], end)
    ensures StatesFrom(s, moves, from) == StatesFrom(s, moves[..|moves| - 1], from) + [end]
  {
  }

  lemma {:induction false} StatesFollow(s: State, moves: seq<Move>, from: nat, end: State)
    requires from <= |moves| && Exec(s, moves) == Some(end)
    ensures Follows(StatesFrom(s, moves, from), moves[from..])
    decreases |moves|
  {
    if from < |moves| {
      var init := moves[..|moves| - 1];
      var mid := Exec(s, init).value;
      StatesFollow(s, init, from, mid);
      LastMove(s, moves, from, mid, end);
      OneMoreFollows(StatesFrom(s, init, from), moves, from, end);
    }
  }

  /** The same for the last part of a run, in which p is alone. */
  lemma UndisturbedEnd(release: Migrations, base: Database, moves: seq<Move>, from: nat, p: Pid)
    requires WellFormed(base) && Uses(moves, release) && Exec(Initial(base), moves).Some?
    requires from < |moves| && moves[from].Start? && forall k :: from <= k < |moves| ==> moves[k].pid == p
    requires p in Exec(Initial(base), moves).value.migrators
    requires Exec(Initial(base), moves).value.migrators[p].phase.Returned?
    ensures var states := StatesFrom(Initial(base), moves, from);
            && WellFormed(states[0].db)
            && (BoundedAtHeads(states, p) <==>
                  || !At(Exec(Initial(base), moves).value, p, Returned(Success))
                  || |moves[from].scripts| == 0 || Version(states[0].db) < |moves[from].scripts| - 1)
  {
    var states, rest := StatesFrom(Initial(base), moves, from), moves[from..];
    InitialInv(release, base);
    assert Uses(moves[..from], release);
    RunPreservesInv(release, base, Initial(base), moves[..from]);
    StatesFollow(Initial(base), moves, from, Exec(Initial(base), moves).value);
    assert moves[from] in moves && rest[0] == moves[from];
    UndisturbedCounter(release, base, states, rest, p);
  }
}
