/** The Sentry client: one operation, and the loop that executes them. */
module Client {
  import opened Wrappers

  datatype User = User(id: string, username: string, email: string)

  /** What else a request context carries. */
  type Payload(!new)

  datatype Context = NilContext | Context(requestID: string, clientRequestID: string, payload: Payload)

  /** The answer of a userInfo callback; its error is ignored. */
  datatype UserInfo = UserInfo(user: Option<User>, err: bool)

  type UserInfoFn = Option<Context -> UserInfo>

  /** An event as Sentry gets it. */
  datatype Event = Event(user: Option<User>, tags: map<string, string>, err: string)

  /** The function value that CaptureError sends: what it captured. */
  datatype Op = Op(user: Option<User>, reqID: string, err: string)

  function ExtractRequestID(ctx: Context): string {
    if ctx.NilContext? then ""
    else if ctx.requestID == "" then ctx.clientRequestID
    else ctx.requestID
  }

  /** The user of the callback's answer, also if it comes with an error. */
  function UserAnswered(userInfo: UserInfoFn, ctx: Context): Option<User> {
    match userInfo
    case None => None
    case Some(f) => f(ctx).user
  }

  function OpFor(userInfo: UserInfoFn, ctx: Context, err: string): Op {
    Op(UserAnswered(userInfo, ctx), ExtractRequestID(ctx), err)
  }

  function Tags(op: Op): map<string, string> {
    if op.reqID != "" then map["req_ID" := op.reqID] else map[]
  }

  /** The event that is right for an operation, whatever ran before it. */
  function EventOf(op: Op): Event {
    Event(op.user, Tags(op), op.err)
  }

  function EventsOf(ops: seq<Op>): seq<Event> {
    seq(|ops|, i requires 0 <= i < |ops| => EventOf(ops[i]))
  }

  class RavenClient {
    var user: Option<User>
    var events: seq<Event>

    constructor ()
      ensures user == None && events == []
    {
      user, events := None, [];
    }

    method SetUserContext(u: User)
      modifies this
      ensures user == Some(u) && events == old(events)
    {
      user := Some(u);
    }

    /** The event carries whatever context the client has at this moment. */
    method CaptureError(err: string, tags: map<string, string>)
      modifies this
      ensures user == old(user) && events == old(events) + [Event(user, tags, err)]
    {
      events := events + [Event(user, tags, err)];
    }

    method ClearContext()
      modifies this
      ensures user == None && events == old(events)
    {
      user := None;
    }
  }

  class Sentry {
    const c: RavenClient
    const userInfo: UserInfoFn

    constructor (userInfo: UserInfoFn)
      ensures this.userInfo == userInfo && fresh(c) && c.user == None && c.events == []
    {
      c := new RavenClient();
      this.userInfo := userInfo;
    }

    /** The body of an operation. It never clears a user it has not set, so it
        needs an empty context, and leaves one. */
    method Execute(op: Op)
      modifies c
      ensures c.user == None
      ensures c.events == old(c.events) + [Event(if op.user.Some? then op.user else old(c.user), Tags(op), op.err)]
    {
      if op.user.Some? {
        c.SetUserContext(op.user.value);
      }
      var additionalContext := map[];
      if op.reqID != "" {
        additionalContext := additionalContext["req_ID" := op.reqID];
      }
      c.CaptureError(op.err, additionalContext);
      c.ClearContext();
    }

    /** `received` are the operations that arrive before the channel is closed. */
    method Loop(received: seq<Op>)
      requires c.user == None
      modifies c
      ensures c.user == None && c.events == old(c.events) + EventsOf(received)
    {
      for i := 0 to |received|
        invariant c.user == None && c.events == old(c.events) + EventsOf(received[..i])
      {
        Execute(received[i]);
        assert EventsOf(received[..i + 1]) == EventsOf(received[..i]) + [EventOf(received[i])];
      }
      assert received[..|received|] == received;
    }
  }

  /** The event is about this error; it has the user of the callback's answer, and
      of the two request ids the first that is not empty. */
  ghost predicate Describes(event: Event, userInfo: UserInfoFn, ctx: Context, err: string) {
    && event.err == err
    && (userInfo.None? ==> event.user.None?)
    && (userInfo.Some? ==> event.user == userInfo.value(ctx).user)
    && (ctx.NilContext? ==> event.tags == map[])
    && (ctx.Context? && ctx.requestID != "" ==> event.tags == map["req_ID" := ctx.requestID])
    && (ctx.Context? && ctx.requestID == "" && ctx.clientRequestID != "" ==>
          event.tags == map["req_ID" := ctx.clientRequestID])
    && (ctx.Context? && ctx.requestID == "" && ctx.clientRequestID == "" ==> event.tags == map[])
  }

  /** What is sent on the channel; nothing for a client that was never set up. */
  method CaptureError(s: Sentry?, ctx: Context, err: string) returns (sent: Option<Op>)
    ensures sent.None? <==> s == null
    // the operation of this very call
    ensures s != null ==> Describes(EventOf(sent.value), s.userInfo, ctx, err)
  {
    if s == null {
      return None;
    }
    var user: Option<User> := None;
    if s.userInfo.Some? {
      user := s.userInfo.value(ctx).user;
    }
    var reqID := ExtractRequestID(ctx);
    return Some(Op(user, reqID, err));
  }
}
