/**
  Any number of goroutines call `CaptureError` while one goroutine runs `loop`;
  they meet on an unbuffered channel. The three statements of an operation are
  separate steps on the shared client context.
 */
module Channel {
  import opened Wrappers
  import opened Client

  type Pid = nat

  datatype Job = Job(ctx: Context, err: string)

  /** A goroutine with the calls it makes; `sent` of them have returned, and
      `offer` is the operation it is blocked on sending. */
  datatype Sender = Sender(jobs: seq<Job>, sent: nat, offer: Option<Op>)

  datatype Stage = SettingUser | Capturing | Clearing

  datatype Consumer = Waiting | Running(op: Op, stage: Stage) | Stopped

  /** The index-th call of goroutine pid. */
  datatype CallId = CallId(pid: Pid, index: nat)

  datatype State = State(
    senders: map<Pid, Sender>,
    consumer: Consumer,
    user: Option<User>,
    closed: bool,
    panicked: bool,
    events: seq<Event>,
    received: seq<CallId>)

  datatype Move =
    | Call(pid: Pid)
    | Receive(pid: Pid)
    | Step
    | Close
    | Stop
    | SendOnClosed(pid: Pid)

  predicate Enabled(s: State, move: Move) {
    && !s.panicked
    && match move
       case Call(p) =>
         p in s.senders && s.senders[p].offer.None? && s.senders[p].sent < |s.senders[p].jobs|
       case Receive(p) =>
         p in s.senders && s.senders[p].offer.Some? && s.consumer.Waiting? && !s.closed
       case Step => s.consumer.Running?
       case Close => !s.closed
       case Stop => s.consumer.Waiting? && s.closed
       case SendOnClosed(p) => p in s.senders && s.senders[p].offer.Some? && s.closed
  }

  function Do(userInfo: UserInfoFn, s: State, move: Move): State
    requires Enabled(s, move)
  {
    match move
    case Call(p) =>
      var q := s.senders[p];
      var job := q.jobs[q.sent];
      s.(senders := s.senders[p := q.(offer := Some(OpFor(userInfo, job.ctx, job.err)))])
    case Receive(p) =>
      var q := s.senders[p];
      s.(senders := s.senders[p := q.(offer := None, sent := q.sent + 1)],
         consumer := Running(q.offer.value, SettingUser),
         received := s.received + [CallId(p, q.sent)])
    case Step =>
      var op := s.consumer.op;
      (match s.consumer.stage
       case SettingUser =>
         s.(user := if op.user.Some? then op.user else s.user, consumer := Running(op, Capturing))
       case Capturing =>
         s.(events := s.events + [Event(s.user, Tags(op), op.err)], consumer := Running(op, Clearing))
       case Clearing =>
         s.(user := None, consumer := Waiting))
    case Close => s.(closed := true)
    case Stop => s.(consumer := Stopped)
    case SendOnClosed(p) => s.(panicked := true)
  }

  function Exec(userInfo: UserInfoFn, s: State, moves: seq<Move>): Option<State> {
    if moves == [] then Some(s)
    else
      match Exec(userInfo, s, moves[..|moves| - 1])
      case None => None
      case Some(mid) =>
        var last := moves[|moves| - 1];
        if Enabled(mid, last) then Some(Do(userInfo, mid, last)) else None
  }

  ghost predicate Initial(s: State) {
    && (forall p :: p in s.senders ==> s.senders[p].sent == 0 && s.senders[p].offer.None?)
    && s.consumer == Waiting && s.user == None && !s.closed && !s.panicked && s.events == [] && s.received == []
  }

  // The indices of p's calls among `calls`, in order.
  function CallsOf(calls: seq<CallId>, p: Pid): seq<nat> {
    if calls == [] then []
    else
      var last := calls[|calls| - 1];
      CallsOf(calls[..|calls| - 1], p) + if last.pid == p then [last.index] else []
  }

  ghost predicate IsCall(s: State, id: CallId) {
    id.pid in s.senders && id.index < |s.senders[id.pid].jobs|
  }

  function OpOf(userInfo: UserInfoFn, s: State, id: CallId): Op
    requires IsCall(s, id)
  {
    var job := s.senders[id.pid].jobs[id.index];
    OpFor(userInfo, job.ctx, job.err)
  }

  // How many of the received operations have emitted their event.
  function Captured(s: State): int {
    if s.consumer.Running? && s.consumer.stage != Clearing then |s.received| - 1 else |s.received|
  }

  /** The shared context is empty between operations. */
  ghost predicate ContextHolds(userInfo: UserInfoFn, s: State) {
    match s.consumer
    case Waiting => s.user == None
    case Stopped => s.user == None && s.closed
    case Running(op, stage) =>
      && s.user == (if stage == SettingUser then None else op.user)
      && s.received != [] && IsCall(s, s.received[|s.received| - 1])
      && op == OpOf(userInfo, s, s.received[|s.received| - 1])
  }

  /** One event for each captured operation, and the right one. */
  ghost predicate EventsHold(userInfo: UserInfoFn, s: State) {
    && |s.events| == Captured(s)
    && (forall i :: 0 <= i < |s.received| ==> IsCall(s, s.received[i]))
    && (forall i :: 0 <= i < |s.events| ==> s.events[i] == EventOf(OpOf(userInfo, s, s.received[i])))
  }

  /** Each goroutine's calls were received once, in call order. */
  ghost predicate SenderHolds(userInfo: UserInfoFn, s: State, p: Pid)
    requires p in s.senders
  {
    && s.senders[p].sent <= |s.senders[p].jobs|
    && CallsOf(s.received, p) == seq(s.senders[p].sent, i => i)
    && (s.senders[p].offer.Some? ==>
          && s.senders[p].sent < |s.senders[p].jobs|
          && s.senders[p].offer.value == OpOf(userInfo, s, CallId(p, s.senders[p].sent)))
  }

  ghost predicate Inv(userInfo: UserInfoFn, s: State) {
    && ContextHolds(userInfo, s)
    && EventsHold(userInfo, s)
    && forall p :: p in s.senders ==> SenderHolds(userInfo, s, p)
  }

  ghost predicate SameJobs(s: State, s': State) {
    s'.senders.Keys == s.senders.Keys && forall p :: p in s.senders ==> s'.senders[p].jobs == s.senders[p].jobs
  }

  lemma JobsStay(userInfo: UserInfoFn, s: State, move: Move)
    requires Enabled(s, move)
    ensures SameJobs(s, Do(userInfo, s, move))
  {
  }

  lemma ContextStep(userInfo: UserInfoFn, s: State, move: Move)
    requires Inv(userInfo, s) && Enabled(s, move)
    ensures ContextHolds(userInfo, Do(userInfo, s, move))
  {
    if move.Receive? {
      assert SenderHolds(userInfo, s, move.pid);
    }
  }

  lemma OpStays(userInfo: UserInfoFn, s: State, s': State, id: CallId)
    requires SameJobs(s, s') && IsCall(s, id)
    ensures IsCall(s', id) && OpOf(userInfo, s', id) == OpOf(userInfo, s, id)
  {
  }

  // What a move does to the calls received and the events emitted.
  lemma EventsGrow(userInfo: UserInfoFn, s: State, move: Move)
    requires Inv(userInfo, s) && Enabled(s, move)
    ensures var s' := Do(userInfo, s, move);
            && |s'.events| == Captured(s')
            && (s'.received == s.received
                || (s'.received == s.received + [s'.received[|s.received|]] && IsCall(s, s'.received[|s.received|])))
            && (s'.events == s.events
                || (s'.received == s.received && s.received != []
                    && s'.events == s.events + [EventOf(OpOf(userInfo, s, s.received[|s.received| - 1]))]))
  {
    if move.Receive? {
      assert SenderHolds(userInfo, s, move.pid);
    }
  }

  lemma EventsStep(userInfo: UserInfoFn, s: State, move: Move)
    requires Inv(userInfo, s) && Enabled(s, move)
    ensures EventsHold(userInfo, Do(userInfo, s, move))
  {
    var s' := Do(userInfo, s, move);
    JobsStay(userInfo, s, move);
    EventsGrow(userInfo, s, move);
    forall i | 0 <= i < |s'.received| ensures IsCall(s', s'.received[i]) {
      OpStays(userInfo, s, s', s'.received[i]);
    }
    forall i | 0 <= i < |s'.events| ensures s'.events[i] == EventOf(OpOf(userInfo, s', s'.received[i])) {
      OpStays(userInfo, s, s', s'.received[i]);
    }
  }

  lemma ReceivedInOrder(userInfo: UserInfoFn, s: State, p: Pid, q: Pid)
    requires Inv(userInfo, s) && Enabled(s, Receive(p)) && q in s.senders
    ensures CallsOf(Do(userInfo, s, Receive(p)).received, q) ==
            seq(if q == p then s.senders[p].sent + 1 else s.senders[q].sent, i => i)
  {
    assert SenderHolds(userInfo, s, p) && SenderHolds(userInfo, s, q);
    CallsGrow(s.received, CallId(p, s.senders[p].sent), q);
    var n := s.senders[p].sent;
    assert seq(n + 1, i => i) == seq(n, i => i) + [n];
  }

  lemma CallsGrow(calls: seq<CallId>, id: CallId, q: Pid)
    ensures CallsOf(calls + [id], q) == CallsOf(calls, q) + if id.pid == q then [id.index] else []
  {
    assert (calls + [id])[..|calls|] == calls;
  }

  lemma SendersStep(userInfo: UserInfoFn, s: State, move: Move, p: Pid)
    requires Inv(userInfo, s) && Enabled(s, move) && p in s.senders
    ensures p in Do(userInfo, s, move).senders && SenderHolds(userInfo, Do(userInfo, s, move), p)
  {
    assert SenderHolds(userInfo, s, p);
    if move.Receive? {
      ReceivedInOrder(userInfo, s, move.pid, p);
    }
  }

  lemma StepPreservesInv(userInfo: UserInfoFn, s: State, move: Move)
    requires Inv(userInfo, s) && Enabled(s, move)
    ensures Inv(userInfo, Do(userInfo, s, move)) && SameJobs(s, Do(userInfo, s, move))
  {
    var s' := Do(userInfo, s, move);
    JobsStay(userInfo, s, move);
    ContextStep(userInfo, s, move);
    EventsStep(userInfo, s, move);
    forall p | p in s'.senders ensures SenderHolds(userInfo, s', p) {
      SendersStep(userInfo, s, move, p);
    }
  }

  lemma {:induction false} RunPreservesInv(userInfo: UserInfoFn, s: State, moves: seq<Move>)
    requires Initial(s)
    ensures match Exec(userInfo, s, moves)
            case None => true
            case Some(s') => Inv(userInfo, s') && SameJobs(s, s')
    decreases |moves|
  {
    if moves != [] {
      var init := moves[..|moves| - 1];
      RunPreservesInv(userInfo, s, init);
      match Exec(userInfo, s, init)
      case None =>
      case Some(mid) =>
        if Enabled(mid, moves[|moves| - 1]) {
          StepPreservesInv(userInfo, mid, moves[|moves| - 1]);
        }
    }
  }

  /** In every interleaving each event carries exactly the user and request id
      that its own call extracted, and the events come in the order in which the
      operations were received. */
  lemma EachEventIsItsOwnCalls(userInfo: UserInfoFn, s: State, moves: seq<Move>, i: nat)
    requires Initial(s) && Exec(userInfo, s, moves).Some?
    requires i < |Exec(userInfo, s, moves).value.events|
    ensures var s' := Exec(userInfo, s, moves).value;
            && |s'.events| <= |s'.received| && IsCall(s, s'.received[i])
            && s'.events[i] == EventOf(OpOf(userInfo, s, s'.received[i]))
  {
    RunPreservesInv(userInfo, s, moves);
  }

  /** Spelled out: the error, the user and the request id of that call and of no
      other. */
  lemma EventCarriesItsContext(userInfo: UserInfoFn, s: State, moves: seq<Move>, i: nat)
    requires Initial(s) && Exec(userInfo, s, moves).Some?
    requires i < |Exec(userInfo, s, moves).value.events|
    ensures var s' := Exec(userInfo, s, moves).value;
            && |s'.events| <= |s'.received| && IsCall(s, s'.received[i])
            && var job := s.senders[s'.received[i].pid].jobs[s'.received[i].index];
               Describes(s'.events[i], userInfo, job.ctx, job.err)
  {
    EachEventIsItsOwnCalls(userInfo, s, moves, i);
  }

  function ReceivedOps(userInfo: UserInfoFn, s: State): seq<Op>
    requires forall i :: 0 <= i < |s.received| ==> IsCall(s, s.received[i])
  {
    seq(|s.received|, i requires 0 <= i < |s.received| => OpOf(userInfo, s, s.received[i]))
  }

  /** Whenever the loop is idle or has ended, every received operation has been
      executed exactly once, none is left over, and the events are those of a
      sequential run of `Loop`; each goroutine's calls were received once each,
      in the order it made them. */
  lemma NothingIsLostOrDuplicated(userInfo: UserInfoFn, s: State, moves: seq<Move>)
    requires Initial(s) && Exec(userInfo, s, moves).Some?
    ensures var s' := Exec(userInfo, s, moves).value;
            && (forall i :: 0 <= i < |s'.received| ==> IsCall(s', s'.received[i]))
            && (!s'.consumer.Running? ==> s'.events == EventsOf(ReceivedOps(userInfo, s')) && s'.user == None)
            && (forall p :: p in s'.senders ==>
                  && p in s.senders && s'.senders[p].jobs == s.senders[p].jobs
                  && CallsOf(s'.received, p) == seq(s'.senders[p].sent, i => i))
  {
    RunPreservesInv(userInfo, s, moves);
  }

  /** Every call of every goroutine has returned. */
  predicate AllSent(s: State) {
    forall p | p in s.senders :: s.senders[p].offer.None? && s.senders[p].sent >= |s.senders[p].jobs|
  }

  /** The channel is closed, if at all, only once every call has returned. */
  ghost predicate ClosesLast(userInfo: UserInfoFn, s: State, moves: seq<Move>) {
    forall i :: 0 <= i < |moves| && moves[i] == Close && Exec(userInfo, s, moves[..i]).Some? ==>
      AllSent(Exec(userInfo, s, moves[..i]).value)
  }

  lemma {:induction false} ClosingLastIsSafe(userInfo: UserInfoFn, s: State, moves: seq<Move>)
    requires Initial(s) && ClosesLast(userInfo, s, moves)
    ensures match Exec(userInfo, s, moves)
            case None => true
            case Some(s') =>
              && !s'.panicked && (s'.closed ==> AllSent(s'))
              && (s'.consumer.Stopped? ==> s'.closed)
    decreases |moves|
  {
    if moves != [] {
      var k := |moves| - 1;
      forall i | 0 <= i < k && moves[..k][i] == Close && Exec(userInfo, s, moves[..k][..i]).Some?
        ensures AllSent(Exec(userInfo, s, moves[..k][..i]).value)
      {
        assert moves[..k][..i] == moves[..i];
      }
      ClosingLastIsSafe(userInfo, s, moves[..k]);
      assert moves[k] == Close ==> ClosesLast(userInfo, s, moves);
    }
  }

  /** Closed after its senders, the loop ends with every call of every goroutine
      executed exactly once, and no send ever meets a closed channel. */
  lemma CleanShutdownDeliversAll(userInfo: UserInfoFn, s: State, moves: seq<Move>)
    requires Initial(s) && ClosesLast(userInfo, s, moves)
    requires Exec(userInfo, s, moves).Some? && Exec(userInfo, s, moves).value.consumer.Stopped?
    ensures var s' := Exec(userInfo, s, moves).value;
            && !s'.panicked && |s'.events| == |s'.received|
            && forall p :: p in s.senders ==>
                 p in s'.senders && CallsOf(s'.received, p) == seq(|s.senders[p].jobs|, i => i)
  {
    RunPreservesInv(userInfo, s, moves);
    ClosingLastIsSafe(userInfo, s, moves);
  }

  /** Closing is safe only then: from any state in which a call has not returned
      a close can be followed by a send on the closed channel, which panics. */
  lemma EarlyCloseCanPanic(userInfo: UserInfoFn, s: State) returns (moves: seq<Move>)
    requires Inv(userInfo, s) && !s.panicked && !s.closed && !AllSent(s)
    ensures moves != [] && moves[0] == Close
    ensures Exec(userInfo, s, moves).Some? && Exec(userInfo, s, moves).value.panicked
  {
    var p :| p in s.senders && !(s.senders[p].offer.None? && s.senders[p].sent >= |s.senders[p].jobs|);
    var closed := Do(userInfo, s, Close);
    ExecOne(userInfo, s, [], Close);
    if s.senders[p].offer.Some? {
      ExecOne(userInfo, s, [Close], SendOnClosed(p));
      moves := [Close] + [SendOnClosed(p)];
    } else {
      ExecOne(userInfo, s, [Close], Call(p));
      ExecOne(userInfo, s, [Close] + [Call(p)], SendOnClosed(p));
      moves := [Close] + [Call(p)] + [SendOnClosed(p)];
    }
  }

  lemma ExecOne(userInfo: UserInfoFn, s: State, moves: seq<Move>, last: Move)
    ensures Exec(userInfo, s, moves + [last]) ==
            match Exec(userInfo, s, moves)
            case None => None
            case Some(mid) => if Enabled(mid, last) then Some(Do(userInfo, mid, last)) else None
  {
    assert (moves + [last])[..|moves|] == moves;
  }

  /** The only move left is Close, or there is none at all, exactly if the calls
      are done and the loop is idle, or has ended if the channel is closed. */
  lemma NeverStuck(userInfo: UserInfoFn, s: State)
    requires Inv(userInfo, s) && !s.panicked
    ensures (forall move :: Enabled(s, move) ==> move == Close)
            <==> AllSent(s) && s.consumer == if s.closed then Stopped else Waiting
  {
    if s.consumer.Running? {
      assert Enabled(s, Step);
    } else if !AllSent(s) {
      var p :| p in s.senders && !(s.senders[p].offer.None? && s.senders[p].sent >= |s.senders[p].jobs|);
      assert Enabled(s, Call(p)) || Enabled(s, Receive(p)) || Enabled(s, SendOnClosed(p));
    } else if s.closed && s.consumer.Waiting? {
      assert Enabled(s, Stop);
    }
  }

  // What a goroutine still has to do: five moves for each call.
  function SenderWork(q: Sender): nat {
    if q.sent >= |q.jobs| then 0 else 5 * (|q.jobs| - q.sent) - if q.offer.Some? then 1 else 0
  }

  ghost function SendersWork(senders: map<Pid, Sender>, ps: set<Pid>): nat
    requires ps <= senders.Keys
  {
    if ps == {} then 0
    else
      var p :| p in ps;
      SenderWork(senders[p]) + SendersWork(senders, ps - {p})
  }

  function LoopWork(c: Consumer): nat {
    match c
    case Running(_, SettingUser) => 4
    case Running(_, Capturing) => 3
    case Running(_, Clearing) => 2
    case Waiting => 1
    case Stopped => 0
  }

  /** A bound on the moves that are still possible, closing apart. */
  ghost function Work(s: State): nat {
    SendersWork(s.senders, s.senders.Keys) + LoopWork(s.consumer) + if s.panicked then 0 else 1
  }

  lemma {:induction false} WorkOfOne(senders: map<Pid, Sender>, ps: set<Pid>, p: Pid)
    requires p in ps && ps <= senders.Keys
    ensures SendersWork(senders, ps) == SenderWork(senders[p]) + SendersWork(senders, ps - {p})
    decreases ps
  {
    var q :| q in ps && SendersWork(senders, ps) == SenderWork(senders[q]) + SendersWork(senders, ps - {q});
    if q != p {
      WorkOfOne(senders, ps - {q}, p);
      WorkOfOne(senders, ps - {p}, q);
      assert ps - {q} - {p} == ps - {p} - {q};
    }
  }

  lemma {:induction false} WorkOfOthers(senders: map<Pid, Sender>, senders': map<Pid, Sender>, ps: set<Pid>)
    requires ps <= senders.Keys && ps <= senders'.Keys && forall p :: p in ps ==> senders'[p] == senders[p]
    ensures SendersWork(senders', ps) == SendersWork(senders, ps)
    decreases ps
  {
    if ps != {} {
      var p :| p in ps;
      WorkOfOne(senders, ps, p);
      WorkOfOne(senders', ps, p);
      WorkOfOthers(senders, senders', ps - {p});
    }
  }

  function Jobs(q: Sender): nat {
    |q.jobs|
  }

  ghost function AllJobs(senders: map<Pid, Sender>, ps: set<Pid>): nat
    requires ps <= senders.Keys
  {
    if ps == {} then 0
    else
      var p :| p in ps;
      Jobs(senders[p]) + AllJobs(senders, ps - {p})
  }

  lemma {:induction false} JobsOfOne(senders: map<Pid, Sender>, ps: set<Pid>, p: Pid)
    requires p in ps && ps <= senders.Keys
    ensures AllJobs(senders, ps) == Jobs(senders[p]) + AllJobs(senders, ps - {p})
    decreases ps
  {
    var q :| q in ps && AllJobs(senders, ps) == Jobs(senders[q]) + AllJobs(senders, ps - {q});
    if q != p {
      JobsOfOne(senders, ps - {q}, p);
      JobsOfOne(senders, ps - {p}, q);
      assert ps - {q} - {p} == ps - {p} - {q};
    }
  }

  lemma {:induction false} InitialSendersWork(senders: map<Pid, Sender>, ps: set<Pid>)
    requires ps <= senders.Keys && forall p :: p in ps ==> senders[p].sent == 0 && senders[p].offer.None?
    ensures SendersWork(senders, ps) == 5 * AllJobs(senders, ps)
    decreases ps
  {
    if ps != {} {
      var p :| p in ps;
      WorkOfOne(senders, ps, p);
      JobsOfOne(senders, ps, p);
      InitialSendersWork(senders, ps - {p});
    }
  }

  /** At the start there are five moves for each call, one for the loop to end and
      one for a panic. */
  lemma InitialWork(s: State)
    requires Initial(s)
    ensures Work(s) == 5 * AllJobs(s.senders, s.senders.Keys) + 2
  {
    InitialSendersWork(s.senders, s.senders.Keys);
  }

  lemma WorkAfterUpdate(senders: map<Pid, Sender>, p: Pid, q: Sender)
    requires p in senders
    ensures SendersWork(senders[p := q], senders.Keys) + SenderWork(senders[p]) == SendersWork(senders, senders.Keys) + SenderWork(q)
  {
    WorkOfOne(senders, senders.Keys, p);
    WorkOfOne(senders[p := q], senders.Keys, p);
    WorkOfOthers(senders, senders[p := q], senders.Keys - {p});
  }

  lemma MovesDoWork(userInfo: UserInfoFn, s: State, move: Move)
    requires Inv(userInfo, s) && Enabled(s, move)
    ensures if move == Close then Work(Do(userInfo, s, move)) == Work(s) else Work(Do(userInfo, s, move)) < Work(s)
  {
    var s' := Do(userInfo, s, move);
    if move.Call? || move.Receive? {
      var p := move.pid;
      assert SenderHolds(userInfo, s, p);
      WorkAfterUpdate(s.senders, p, s'.senders[p]);
      assert s'.senders.Keys == s.senders.Keys && s'.senders == s.senders[p := s'.senders[p]];
    }
  }

  /** Every run is finite: it has at most as many moves as there is work at its
      start, and one close. */
  lemma {:induction false} RunsAreBounded(userInfo: UserInfoFn, s: State, moves: seq<Move>)
    requires Initial(s)
    ensures match Exec(userInfo, s, moves)
            case None => true
            case Some(s') => |moves| + Work(s') <= Work(s) + if s'.closed then 1 else 0
    decreases |moves|
  {
    if moves != [] {
      var init, last := moves[..|moves| - 1], moves[|moves| - 1];
      RunsAreBounded(userInfo, s, init);
      RunPreservesInv(userInfo, s, init);
      match Exec(userInfo, s, init)
      case None =>
      case Some(mid) =>
        if Enabled(mid, last) {
          MovesDoWork(userInfo, mid, last);
        }
    }
  }

  /** So after a close the loop ends: the run is finite, and when it has nothing
      left to do it has panicked, or every call has returned and the loop has
      ended. */
  lemma LoopEndsAfterClose(userInfo: UserInfoFn, s: State, moves: seq<Move>)
    requires Initial(s) && Exec(userInfo, s, moves).Some? && Exec(userInfo, s, moves).value.closed
    ensures var s' := Exec(userInfo, s, moves).value;
            && |moves| <= Work(s) + 1
            && ((forall move :: !Enabled(s', move)) <==> s'.panicked || (AllSent(s') && s'.consumer.Stopped?))
  {
    RunsAreBounded(userInfo, s, moves);
    RunPreservesInv(userInfo, s, moves);
    var s' := Exec(userInfo, s, moves).value;
    if !s'.panicked {
      NeverStuck(userInfo, s');
      assert !Enabled(s', Close);
    }
  }
}
