/**
  Any number of service replicas run `Migrate` against one database server.

  A client (the Go process) and its server session are kept apart: a client may
  die or give up at any point, while its session, and with it the advisory lock,
  lives on until the server ends the session's transaction.
 */
module Protocol {
  import opened Wrappers
  import opened Scripts

  type Pid = nat

  datatype Outcome = Success | BeginFailed | StatementFailed | RollbackFailed | CommitFailed

  /** Where a client is. The comments name the next statement. */
  datatype Phase =
    | Head                // the loop condition, then db.Begin()
    | Locking             // SELECT pg_advisory_xact_lock
    | Checking            // SELECT EXISTS ... table_name='version'
    | Reading             // SELECT max(version)
    | Stepping(j: nat)    // step j of version `next`, or the end of the step loop
    | Inserting           // INSERT INTO version
    | Committing          // tx.Commit(): send the request
    | Awaiting            // tx.Commit(): wait for the answer
    | RollingBack         // tx.Rollback()
    | Returned(outcome: Outcome)
    | Crashed

  /** `pending` is what the transaction has written and would commit; while it
      is None the transaction sees the committed database. */
  datatype Session =
    | NoSession
    | Open(pending: Option<Database>, commitRequested: bool)
    | Ended(committed: bool)

  /** `next` is the loop counter `nextVersion`; `begun` counts transactions. */
  datatype Migrator = Migrator(scripts: Migrations, phase: Phase, next: int, session: Session, begun: nat)

  /** A version whose transaction took effect, and the migrator that ran it. */
  datatype Applied = Applied(pid: Pid, version: int)

  datatype State = State(
    db: Database,
    lock: Option<Pid>,
    migrators: map<Pid, Migrator>,
    log: seq<Applied>)

  datatype Move =
    | Start(pid: Pid, scripts: Migrations)
    | Begin(pid: Pid)
    | BeginFails(pid: Pid)
    | Finish(pid: Pid)
    | AcquireLock(pid: Pid)
    | CheckTable(pid: Pid)
    | ReadVersion(pid: Pid)
    | RunStep(pid: Pid)
    | InsertRow(pid: Pid)
    | RequestCommit(pid: Pid)
    | CommitReturns(pid: Pid)
    | CommitReportsError(pid: Pid)
    | StatementFails(pid: Pid)
    | Rollback(pid: Pid)
    | RollbackReportsError(pid: Pid)
    | Crash(pid: Pid)
    | ServerCommits(pid: Pid)
    | ServerAborts(pid: Pid)
    | ServerGrants(pid: Pid)

  predicate At(s: State, p: Pid, phase: Phase) {
    p in s.migrators && s.migrators[p].phase == phase
  }

  predicate AtStep(s: State, p: Pid) {
    p in s.migrators && s.migrators[p].phase.Stepping?
  }

  predicate HasOpen(s: State, p: Pid) {
    p in s.migrators && s.migrators[p].session.Open?
  }

  predicate Dead(m: Migrator) {
    m.phase.Returned? || m.phase.Crashed?
  }

  /** No longer waiting for an answer. If its session is still open and was queued
      for the lock, the server does not know. */
  predicate Gone(m: Migrator) {
    m.phase.RollingBack? || Dead(m)
  }

  predicate InStatement(m: Migrator) {
    || m.phase in {Locking, Checking, Reading, Inserting}
    || (m.phase.Stepping? && 0 <= m.next < |m.scripts| && m.phase.j < |m.scripts[m.next]|)
  }

  /** What a statement of p's transaction sees under READ COMMITTED. */
  function View(s: State, p: Pid): Database
    requires HasOpen(s, p)
  {
    match s.migrators[p].session.pending
    case None => s.db
    case Some(db) => db
  }

  predicate Enabled(s: State, move: Move) {
    var p := move.pid;
    match move
    case Start(_, _) => p !in s.migrators
    case Begin(_) => At(s, p, Head) && s.migrators[p].next < |s.migrators[p].scripts|
    case BeginFails(_) => At(s, p, Head) && s.migrators[p].next < |s.migrators[p].scripts|
    case Finish(_) => At(s, p, Head) && s.migrators[p].next >= |s.migrators[p].scripts|
    case AcquireLock(_) => At(s, p, Locking) && HasOpen(s, p) && s.lock.None?
    case CheckTable(_) => At(s, p, Checking) && HasOpen(s, p)
    case ReadVersion(_) => At(s, p, Reading) && HasOpen(s, p)
    case RunStep(_) =>
      && AtStep(s, p) && 0 <= s.migrators[p].next < |s.migrators[p].scripts|
      && (s.migrators[p].phase.j < |s.migrators[p].scripts[s.migrators[p].next]| ==> HasOpen(s, p))
    case InsertRow(_) => At(s, p, Inserting) && HasOpen(s, p)
    case RequestCommit(_) => At(s, p, Committing)
    case CommitReturns(_) => At(s, p, Awaiting) && s.migrators[p].session.Ended? && s.migrators[p].session.committed
    case CommitReportsError(_) => At(s, p, Awaiting)
    case StatementFails(_) => p in s.migrators && InStatement(s.migrators[p])
    case Rollback(_) => At(s, p, RollingBack)
    case RollbackReportsError(_) => At(s, p, RollingBack)
    case Crash(_) => p in s.migrators && !Dead(s.migrators[p])
    case ServerCommits(_) => HasOpen(s, p) && s.migrators[p].session.commitRequested
    case ServerAborts(_) => HasOpen(s, p)
    case ServerGrants(_) => HasOpen(s, p) && s.lock.None? && Gone(s.migrators[p])
  }

  function Put(s: State, p: Pid, m: Migrator): State {
    s.(migrators := s.migrators[p := m])
  }

  function Released(s: State, p: Pid): State {
    if s.lock == Some(p) then s.(lock := None) else s
  }

  /** The server ends p's transaction: without effect, or with it. */
  function EndSession(s: State, p: Pid, commit: bool): State
    requires HasOpen(s, p)
  {
    var m := s.migrators[p];
    var s' := Put(Released(s, p), p, m.(session := Ended(commit)));
    if commit && m.session.pending.Some?
    then s'.(db := m.session.pending.value, log := s.log + [Applied(p, m.next)])
    else s'
  }

  /** The last query of getCurrentVersion answered `current`: the callee
      overwrites the loop counter of its caller. */
  function Overwrite(m: Migrator, current: int): Migrator {
    var next := current + 1;
    m.(next := next, phase := if next >= |m.scripts| then Committing else Stepping(0))
  }

  function Write(m: Migrator, result: Option<Database>, phase: Phase): Migrator
    requires m.session.Open?
  {
    match result
    case None => m.(phase := RollingBack)
    case Some(db) => m.(phase := phase, session := m.session.(pending := result))
  }

  function Do(s: State, move: Move): State
    requires Enabled(s, move)
  {
    var p := move.pid;
    if move.Start? then
      Put(s, p, Migrator(move.scripts, Head, 0, NoSession, 0))
    else
      var m := s.migrators[p];
      match move
      case Begin(_) => Put(s, p, m.(phase := Locking, session := Open(None, false), begun := m.begun + 1))
      case BeginFails(_) => Put(s, p, m.(phase := Returned(BeginFailed)))
      case Finish(_) => Put(s, p, m.(phase := Returned(Success)))
      case AcquireLock(_) => Put(s, p, m.(phase := Checking)).(lock := Some(p))
      case CheckTable(_) =>
        Put(s, p, if View(s, p).versions.None? then Overwrite(m, -1) else m.(phase := Reading))
      case ReadVersion(_) =>
        // max() of no rows is NULL, which does not scan into an int64
        var rows := Rows(View(s, p));
        Put(s, p, if rows == [] then m.(phase := RollingBack) else Overwrite(m, MaxRow(rows)))
      case RunStep(_) =>
        var steps := m.scripts[m.next];
        if m.phase.j < |steps| then
          Put(s, p, Write(m, ExecStep(steps[m.phase.j], View(s, p)), Stepping(m.phase.j + 1)))
        else
          Put(s, p, m.(phase := Inserting))
      case InsertRow(_) => Put(s, p, Write(m, InsertVersion(View(s, p), m.next), Committing))
      case RequestCommit(_) =>
        Put(s, p, m.(phase := Awaiting,
                     session := if m.session.Open? then m.session.(commitRequested := true) else m.session))
      case CommitReturns(_) => Put(s, p, m.(phase := Head, next := m.next + 1))
      case CommitReportsError(_) => Put(s, p, m.(phase := Returned(CommitFailed)))
      case StatementFails(_) => Put(s, p, m.(phase := RollingBack))
      case Rollback(_) =>
        var s' := if m.session.Open? then EndSession(s, p, false) else s;
        Put(s', p, s'.migrators[p].(phase := Returned(StatementFailed)))
      case RollbackReportsError(_) => Put(s, p, m.(phase := Returned(RollbackFailed)))
      case Crash(_) => Put(s, p, m.(phase := Crashed))
      case ServerCommits(_) => EndSession(s, p, true)
      case ServerAborts(_) => EndSession(s, p, false)
      case ServerGrants(_) => s.(lock := Some(p))
  }

  /** The state after a sequence of moves; None if some move is not possible. */
  function Exec(s: State, moves: seq<Move>): Option<State>
    decreases |moves|
  {
    if moves == [] then Some(s)
    else
      match Exec(s, moves[..|moves| - 1])
      case None => None
      case Some(mid) => if Enabled(mid, moves[|moves| - 1]) then Some(Do(mid, moves[|moves| - 1])) else None
  }

  function Initial(base: Database): State {
    State(base, None, map[], [])
  }

  /** Every replica was built from `release` or from an earlier prefix of it. */
  ghost predicate Uses(moves: seq<Move>, release: Migrations) {
    forall move :: move in moves && move.Start? ==> move.scripts <= release
  }
}
