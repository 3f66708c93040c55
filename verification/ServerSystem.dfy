/**
 * The server as three threads that interleave: the network thread running handlers, the database thread and
 * the update thread. Every handler, every locked region and every queue operation is one step.
 */
module ServerSystem {
  import opened Bytes
  import opened User
  import opened Store
  import Json
  import M = Message
  import Picture
  import Session
  import Writer

  type Sid = nat

  /** A session without its writer. */
  datatype Conn = Conn(
    user: User,
    reading: bool,  // a read is outstanding; not any more after the end of file
    joined: bool    // history: a login or register message has arrived
  )

  /** History: how many broadcasts had been made when a session became a member and when it stopped being one. */
  datatype Span = Span(from: nat, until: nat)

  /** Closures posted to the network thread. */
  datatype Task = Send(sid: Sid, message: M.Message) | Close(sid: Sid)

  datatype NetworkThread =
    | NetIdle
    | NetJoin(request: Request)          // the pending entry is written, the request not pushed yet

  datatype DatabaseThread =
    | DbIdle
    | DbWork(request: Request)           // taken from the queue, not answered yet
    | DbStopped

  datatype UpdateThread =
    | Responses                          // at the head of the loop over the responses
    | Joining(response: Response)
    | Found(sid: Sid, response: Response)
    | Accepting(sid: Sid)
    | Welcoming(sid: Sid)
    | Rejecting(sid: Sid, reason: Text)
    | Dropping(sid: Sid)
    | Picturing(response: Response)
    | Inbox                              // at the head of the loop over the inbox
    | Broadcasting(message: M.Message)
    | Saving(message: M.Message)
    | Idle                               // outside `update`

  /** What would be undefined behaviour or an escaping exception in the original. */
  datatype Fault = NoFault | NullSession | UnknownKick | BadPicture | BadText

  datatype System = System(
    conns: map<Sid, Conn>,
    writers: map<Sid, Writer.Writer<M.Message>>,
    sessions: seq<Sid>,                  // m_Sessions
    pending: map<Text, Sid>,             // m_PendingSessions
    inbox: seq<M.Message>,
    tasks: seq<Task>,
    requests: seq<Request>,
    responses: seq<Response>,
    tables: Tables,
    net: NetworkThread,
    db: DatabaseThread,
    upd: UpdateThread,
    fault: Fault,
    // history
    logs: map<Sid, seq<M.Message>>,      // everything given to a session's `send`, in order
    spans: map<Sid, Span>,
    broadcasts: seq<M.Message>
  )

  function Initial(tables: Tables): System {
    System(map[], map[], [], map[], [], [], [], [], tables, NetIdle, DbIdle, Idle, NoFault, map[], map[], [])
  }

  /** The session the update thread is busy with. */
  function Holder(u: UpdateThread): Option<Sid> {
    match u
    case Found(sid, _) => Some(sid)
    case Accepting(sid) => Some(sid)
    case Welcoming(sid) => Some(sid)
    case Rejecting(sid, _) => Some(sid)
    case Dropping(sid) => Some(sid)
    case _ => None
  }

  /** Every reference to a session leads to one, and the sessions' writers are sound. */
  ghost predicate Typed(s: System) {
    && s.writers.Keys == s.conns.Keys && s.logs.Keys == s.conns.Keys && s.spans.Keys == s.conns.Keys
    && WritersValid(s.writers)
    && AllIn(s.sessions, s.conns)
    && (forall n :: n in s.pending ==> s.pending[n] in s.conns)
    && (forall i :: 0 <= i < |s.tasks| ==> s.tasks[i].sid in s.conns)
    && (Holder(s.upd).Some? ==> Holder(s.upd).value in s.conns)
  }

  ghost predicate WritersValid(writers: map<Sid, Writer.Writer<M.Message>>) {
    forall x :: x in writers ==> Writer.Valid(writers[x])
  }

  predicate AllIn(sessions: seq<Sid>, conns: map<Sid, Conn>) {
    forall i :: 0 <= i < |sessions| ==> sessions[i] in conns
  }

  // ----- what the steps do -----

  /** `session->send`. */
  function Post(s: System, sid: Sid, m: M.Message): System
    requires sid in s.logs
  {
    s.(logs := s.logs[sid := s.logs[sid] + [m]], tasks := s.tasks + [Send(sid, m)])
  }

  function PostAll(s: System, to: seq<Sid>, m: M.Message): System
    requires forall i :: 0 <= i < |to| ==> to[i] in s.logs
    decreases |to|
  {
    if to == [] then s else PostAll(Post(s, to[0], m), to[1..], m)
  }

  /** The first member with this username. */
  function FindMember(conns: map<Sid, Conn>, sessions: seq<Sid>, name: Text): (r: Option<Sid>)
    requires AllIn(sessions, conns)
    ensures r.Some? ==> r.value in sessions && conns[r.value].user.username == name
    ensures r.None? ==> forall i :: 0 <= i < |sessions| ==> conns[sessions[i]].user.username != name
  {
    if sessions == [] then None
    else if conns[sessions[0]].user.username == name then Some(sessions[0])
    else FindMember(conns, sessions[1..], name)
  }

  /** `std::erase`: every occurrence goes. */
  function Without(sessions: seq<Sid>, sid: Sid): (r: seq<Sid>)
    ensures forall x :: x in r <==> x in sessions && x != sid
  {
    if sessions == [] then []
    else (if sessions[0] == sid then [] else [sessions[0]]) + Without(sessions[1..], sid)
  }

  /** `erase` at the first occurrence. */
  function WithoutFirst(sessions: seq<Sid>, sid: Sid): (r: seq<Sid>)
    ensures forall x :: x in r ==> x in sessions
    ensures forall x :: x in sessions && x != sid ==> x in r
  {
    if sessions == [] then []
    else if sessions[0] == sid then sessions[1..] else [sessions[0]] + WithoutFirst(sessions[1..], sid)
  }

  function DoConnect(s: System, sid: Sid): System {
    s.(conns := s.conns[sid := Conn(NOBODY, true, false)], writers := s.writers[sid := Writer.New()],
       logs := s.logs[sid := []], spans := s.spans[sid := Span(0, 0)])
  }

  function DoReceive(s: System, sid: Sid, m: M.Message): System
    requires sid in s.conns
  {
    var c := s.conns[sid];
    var (user, events) := Session.React(c.user, m, []);
    if events == [] then s
    else
      match events[0]
      case LoginInfoSent(u) =>
        s.(conns := s.conns[sid := c.(user := user, joined := true)],
           pending := s.pending[CStr(u.username) := sid], net := NetJoin(Login(u)))
      case RegisterInfoSent(u) =>
        s.(conns := s.conns[sid := c.(user := user, joined := true)],
           pending := s.pending[CStr(u.username) := sid], net := NetJoin(Register(u)))
      case ChatReceived(_) => s.(inbox := s.inbox + [m])
      case PictureSent(u, content) => s.(requests := s.requests + [SavePicture(u, CStr(content))])
  }

  function DoEndOfFile(s: System, sid: Sid): System
    requires Typed(s) && sid in s.conns
  {
    var span := if sid in s.sessions then s.spans[sid].(until := |s.broadcasts|) else s.spans[sid];
    s.(conns := s.conns[sid := s.conns[sid].(reading := false)], spans := s.spans[sid := span],
       sessions := Without(s.sessions, sid))
  }

  ghost function DoWrite(s: System, sid: Sid, step: Writer.Step<M.Message>): System
    requires Typed(s) && sid in s.conns && Writer.Enabled(s.writers[sid], step)
  {
    s.(writers := s.writers[sid := Writer.Apply(s.writers[sid], step, false)])
  }

  function DoPushJoin(s: System): System
    requires s.net.NetJoin?
  {
    s.(requests := s.requests + [s.net.request], net := NetIdle)
  }

  ghost function DoRunTask(s: System): System
    requires Typed(s) && s.tasks != []
  {
    var r := s.(tasks := s.tasks[1..]);
    match s.tasks[0]
    case Send(sid, m) =>
      if M.Serialize(m).None? then r.(fault := BadText) else DoWrite(r, sid, Writer.Post(m))
    case Close(sid) => DoWrite(r, sid, Writer.AskClose)
  }

  function DoTakeRequest(s: System): System
    requires s.requests != []
  {
    s.(requests := s.requests[1..], db := DbWork(s.requests[0]))
  }

  function DoAnswer(s: System): System
    requires s.db.DbWork?
  {
    var o := Handle(s.tables, s.db.request);
    s.(tables := o.tables, responses := s.responses + o.responses, requests := s.requests + o.requeued,
       db := if s.db.request.Shutdown? then DbStopped else DbIdle,
       fault := if o.threw then BadPicture else s.fault)
  }

  function DoPopResponse(s: System): System {
    if s.responses == [] then s.(upd := Inbox)
    else
      var r := s.responses[0];
      s.(responses := s.responses[1..], upd := if r.kind.USER_PROFILE_PICTURE? then Picturing(r) else Joining(r))
  }

  /** The pending entry is looked up and erased; without one the original goes on with a null session. */
  function DoFindPending(s: System): System
    requires s.upd.Joining?
  {
    var r := s.upd.response;
    if r.username in s.pending then
      s.(pending := s.pending - {r.username}, upd := Found(s.pending[r.username], r))
    else s.(fault := NullSession)
  }

  function ConnectedReason(): Text { Json.Ascii("User is already connected") }

  function DoCheckConnected(s: System): System
    requires Typed(s) && s.upd.Found?
  {
    var sid, r := s.upd.sid, s.upd.response;
    if r.kind.LOGIN_FAIL? || r.kind.REGISTER_FAIL? then s.(upd := Rejecting(sid, r.message))
    else if FindMember(s.conns, s.sessions, s.conns[sid].user.username).Some? then
      s.(upd := Rejecting(sid, ConnectedReason()))
    else s.(upd := Accepting(sid))
  }

  /** The picture lookups between a new member and each of the others. */
  function Lookups(conns: map<Sid, Conn>, sessions: seq<Sid>, user: User): seq<Request>
    requires AllIn(sessions, conns)
  {
    if sessions == [] then []
    else
      var other := conns[sessions[0]].user;
      [GetPicture(other, CStr(user.username)), GetPicture(user, CStr(other.username))]
        + Lookups(conns, sessions[1..], user)
  }

  /** For each member both pictures are asked for: its own for the new one, the new one's for it. */
  lemma {:induction false} LookupsAsk(conns: map<Sid, Conn>, sessions: seq<Sid>, user: User)
    requires AllIn(sessions, conns)
    ensures var rs := Lookups(conns, sessions, user);
      && |rs| == 2 * |sessions|
      && (forall i :: 0 <= i < |rs| ==> rs[i].GetPicture?)
      && (forall k :: 0 <= k < |sessions| ==>
            && rs[2 * k] == GetPicture(conns[sessions[k]].user, CStr(user.username))
            && rs[2 * k + 1] == GetPicture(user, CStr(conns[sessions[k]].user.username)))
    decreases |sessions|
  {
    hide CStr;
    if sessions != [] {
      var rest := Lookups(conns, sessions[1..], user);
      var rs := Lookups(conns, sessions, user);
      LookupsAsk(conns, sessions[1..], user);
      assert forall i :: 2 <= i < |rs| ==> rs[i] == rest[i - 2];
      forall k | 1 <= k < |sessions|
        ensures rs[2 * k] == rest[2 * (k - 1)] && rs[2 * k + 1] == rest[2 * (k - 1) + 1]
        ensures sessions[k] == sessions[1..][k - 1]
      {
      }
    }
  }

  function DoAccept(s: System): System
    requires Typed(s) && s.upd.Accepting?
  {
    var sid := s.upd.sid;
    s.(requests := s.requests + Lookups(s.conns, s.sessions, s.conns[sid].user), sessions := s.sessions + [sid],
       spans := s.spans[sid := Span(|s.broadcasts|, |s.broadcasts|)], upd := Welcoming(sid))
  }

  function WelcomeText(): Text { Json.Ascii("Successfully connected to the server") }

  function DoWelcome(s: System, now: M.Int64): System
    requires Typed(s) && s.upd.Welcoming?
  {
    Post(s, s.upd.sid, M.Message(M.LOGIN_RESPONSE_ACCEPT, [], WelcomeText(), now)).(upd := Responses)
  }

  function DoReject(s: System, now: M.Int64): System
    requires Typed(s) && s.upd.Rejecting?
  {
    Post(s, s.upd.sid, M.Message(M.LOGIN_RESPONSE_REJECT, [], s.upd.reason, now)).(upd := Dropping(s.upd.sid))
  }

  function DoDrop(s: System): System
    requires s.upd.Dropping?
  {
    s.(tasks := s.tasks + [Close(s.upd.sid)], upd := Responses)
  }

  function PictureMessage(r: Response, now: M.Int64): M.Message {
    match Picture.Content(r.message)
    case Some(content) => M.Message(M.PROFILE_PICTURE, r.username, content, now)
    case None => M.Message(M.PROFILE_PICTURE, r.username, [], now)
  }

  function DoSendPicture(s: System, now: M.Int64): System
    requires Typed(s) && s.upd.Picturing?
  {
    var r := s.upd.response;
    match FindMember(s.conns, s.sessions, r.recipient)
    case None => s.(upd := Responses)
    case Some(sid) => Post(s, sid, PictureMessage(r, now)).(upd := Responses)
  }

  function DoPopMessage(s: System): System {
    if s.inbox == [] then s.(upd := Idle) else s.(inbox := s.inbox[1..], upd := Broadcasting(s.inbox[0]))
  }

  function DoBroadcast(s: System): System
    requires Typed(s) && s.upd.Broadcasting?
  {
    var m := s.upd.message;
    PostAll(s, s.sessions, m).(broadcasts := s.broadcasts + [m], upd := Saving(m))
  }

  function DoSaveBroadcast(s: System): System
    requires s.upd.Saving?
  {
    s.(requests := s.requests + [SaveMessage(s.upd.message)], upd := Inbox)
  }

  /** Kicking somebody who is no member dereferences the end iterator in the original. */
  function DoKick(s: System, name: Text, reason: Text, now: M.Int64): System
    requires Typed(s)
  {
    match FindMember(s.conns, s.sessions, name)
    case None => s.(fault := UnknownKick)
    case Some(sid) =>
      var r := Post(s, sid, M.Message(M.SERVER_KICK_REQUEST, [], reason, now));
      r.(tasks := r.tasks + [Close(sid)], sessions := WithoutFirst(s.sessions, sid),
         spans := s.spans[sid := s.spans[sid].(until := |s.broadcasts|)])
  }

  // ----- steps of the three threads -----

  datatype NetworkStep =
    | Connect(sid: Sid)
    | Receive(sid: Sid, message: M.Message)
    | PushJoin
    | EndOfFile(sid: Sid)
    | RunTask
    | Written(sid: Sid, ok: bool)

  datatype DatabaseStep = TakeRequest | Answer

  datatype UpdateStep =
    | PopResponse
    | FindPending
    | CheckConnected
    | Accept
    | Welcome(now: M.Int64)
    | Reject(now: M.Int64)
    | Drop
    | SendPicture(now: M.Int64)
    | PopMessage
    | Broadcast
    | SaveBroadcast
    | NextFrame
    | Kick(name: Text, reason: Text, now: M.Int64)

  datatype Step = Network(n: NetworkStep) | Database(d: DatabaseStep) | Update(u: UpdateStep)

  ghost predicate NetworkEnabled(s: System, step: NetworkStep) {
    match step
    case Connect(sid) => s.net.NetIdle? && sid !in s.conns
    case Receive(sid, m) => s.net.NetIdle? && sid in s.conns && s.conns[sid].reading
    case PushJoin => s.net.NetJoin?
    case EndOfFile(sid) => s.net.NetIdle? && sid in s.conns && s.conns[sid].reading
    case RunTask => s.net.NetIdle? && s.tasks != []
    case Written(sid, ok) =>
      s.net.NetIdle? && sid in s.conns && sid in s.writers && Writer.Enabled(s.writers[sid], Writer.Done(ok))
  }

  predicate DatabaseEnabled(s: System, step: DatabaseStep) {
    match step
    case TakeRequest => s.db.DbIdle? && s.requests != []
    case Answer => s.db.DbWork?
  }

  predicate UpdateEnabled(s: System, step: UpdateStep) {
    match step
    case PopResponse => s.upd.Responses?
    case FindPending => s.upd.Joining?
    case CheckConnected => s.upd.Found?
    case Accept => s.upd.Accepting?
    case Welcome(_) => s.upd.Welcoming?
    case Reject(_) => s.upd.Rejecting?
    case Drop => s.upd.Dropping?
    case SendPicture(_) => s.upd.Picturing?
    case PopMessage => s.upd.Inbox?
    case Broadcast => s.upd.Broadcasting?
    case SaveBroadcast => s.upd.Saving?
    case NextFrame => s.upd.Idle?
    case Kick(_, _, _) => s.upd.Idle?
  }

  ghost predicate Enabled(s: System, step: Step) {
    && s.fault == NoFault
    && match step
       case Network(n) => NetworkEnabled(s, n)
       case Database(d) => DatabaseEnabled(s, d)
       case Update(u) => UpdateEnabled(s, u)
  }

  ghost function ApplyNetwork(s: System, step: NetworkStep): System
    requires Typed(s) && NetworkEnabled(s, step)
  {
    match step
    case Connect(sid) => DoConnect(s, sid)
    case Receive(sid, m) => DoReceive(s, sid, m)
    case PushJoin => DoPushJoin(s)
    case EndOfFile(sid) => DoEndOfFile(s, sid)
    case RunTask => DoRunTask(s)
    case Written(sid, ok) => DoWrite(s, sid, Writer.Done(ok))
  }

  function ApplyDatabase(s: System, step: DatabaseStep): System
    requires DatabaseEnabled(s, step)
  {
    match step
    case TakeRequest => DoTakeRequest(s)
    case Answer => DoAnswer(s)
  }

  ghost function ApplyUpdate(s: System, step: UpdateStep): System
    requires Typed(s) && UpdateEnabled(s, step)
  {
    match step
    case PopResponse => DoPopResponse(s)
    case FindPending => DoFindPending(s)
    case CheckConnected => DoCheckConnected(s)
    case Accept => DoAccept(s)
    case Welcome(now) => DoWelcome(s, now)
    case Reject(now) => DoReject(s, now)
    case Drop => DoDrop(s)
    case SendPicture(now) => DoSendPicture(s, now)
    case PopMessage => DoPopMessage(s)
    case Broadcast => DoBroadcast(s)
    case SaveBroadcast => DoSaveBroadcast(s)
    case NextFrame => s.(upd := Responses)
    case Kick(name, reason, now) => DoKick(s, name, reason, now)
  }

  ghost function Apply(s: System, step: Step): System
    requires Typed(s) && Enabled(s, step)
  {
    match step
    case Network(n) => ApplyNetwork(s, n)
    case Database(d) => ApplyDatabase(s, d)
    case Update(u) => ApplyUpdate(s, u)
  }

  // ----- no step leaves a dangling reference -----

  lemma {:induction false} PostAllFrame(s: System, to: seq<Sid>, m: M.Message)
    requires forall i :: 0 <= i < |to| ==> to[i] in s.logs
    ensures var r := PostAll(s, to, m);
      && r.logs.Keys == s.logs.Keys
      && r == s.(logs := r.logs, tasks := r.tasks)
      && r.tasks == s.tasks + seq(|to|, i requires 0 <= i < |to| => Send(to[i], m))
    decreases |to|
  {
    if to != [] {
      PostAllFrame(Post(s, to[0], m), to[1..], m);
      assert PostAll(s, to, m).tasks == s.tasks + ([Send(to[0], m)]
        + seq(|to[1..]|, i requires 0 <= i < |to[1..]| => Send(to[1..][i], m)));
      assert [Send(to[0], m)] + seq(|to[1..]|, i requires 0 <= i < |to[1..]| => Send(to[1..][i], m))
          == seq(|to|, i requires 0 <= i < |to| => Send(to[i], m));
    }
  }

  lemma MembersLogged(s: System)
    requires Typed(s)
    ensures forall i :: 0 <= i < |s.sessions| ==> s.sessions[i] in s.logs
  {
    hide WritersValid;
  }

  /** What the update thread never touches. */
  predicate SameOutside(s: System, r: System) {
    r.conns == s.conns && r.writers == s.writers && r.tables == s.tables && r.net == s.net && r.db == s.db
  }

  /** Nor does it ask the database for anything, or broadcast, most of the time. */
  predicate AsksNothing(s: System, r: System) {
    SameOutside(s, r) && r.requests == s.requests && r.broadcasts == s.broadcasts && !r.upd.Saving?
  }

  lemma PostFrame(s: System, now: M.Int64)
    requires Typed(s)
    ensures s.upd.Welcoming? ==> AsksNothing(s, DoWelcome(s, now))
    ensures s.upd.Rejecting? ==> AsksNothing(s, DoReject(s, now))
  {
    hide Typed, WelcomeText;
  }

  lemma SendPictureFrame(s: System, now: M.Int64)
    requires Typed(s) && s.upd.Picturing?
    ensures AsksNothing(s, DoSendPicture(s, now))
  {
    hide Typed, PictureMessage, FindMember;
  }

  lemma KickFrame(s: System, name: Text, reason: Text, now: M.Int64)
    requires Typed(s) && s.upd.Idle?
    ensures AsksNothing(s, DoKick(s, name, reason, now))
  {
    hide Typed, FindMember, WithoutFirst;
  }

  lemma BroadcastFrame(s: System)
    requires Typed(s) && s.upd.Broadcasting?
    ensures var r := DoBroadcast(s);
      SameOutside(s, r) && r.requests == s.requests && r.broadcasts == s.broadcasts + [s.upd.message]
  {
    hide Typed, PostAll;
    MembersLogged(s);
    PostAllFrame(s, s.sessions, s.upd.message);
  }

  lemma FindPendingFrame(s: System)
    requires s.upd.Joining?
    ensures AsksNothing(s, DoFindPending(s))
  {
  }

  /** The check only decides where the update thread goes on. */
  lemma CheckConnectedIs(s: System)
    requires Typed(s) && s.upd.Found?
    ensures var r := DoCheckConnected(s); r == s.(upd := r.upd) && (r.upd.Rejecting? || r.upd.Accepting?)
    ensures DoCheckConnected(s).upd.sid == s.upd.sid
  {
    hide WritersValid, AllIn, FindMember, ConnectedReason;
  }

  lemma CheckConnectedFrame(s: System)
    requires Typed(s) && s.upd.Found?
    ensures AsksNothing(s, DoCheckConnected(s))
  {
    hide Typed, DoCheckConnected;
    CheckConnectedIs(s);
  }

  lemma PopResponseFrame(s: System)
    ensures AsksNothing(s, DoPopResponse(s))
  {
  }

  lemma PopMessageFrame(s: System)
    ensures AsksNothing(s, DoPopMessage(s))
  {
  }

  lemma UpdateFrame(s: System, step: UpdateStep)
    requires Typed(s) && UpdateEnabled(s, step)
    ensures SameOutside(s, ApplyUpdate(s, step))
    ensures step.Accept? || step.Broadcast? || step.SaveBroadcast? || AsksNothing(s, ApplyUpdate(s, step))
    ensures ApplyUpdate(s, step).broadcasts == s.broadcasts + if step.Broadcast? then [s.upd.message] else []
  {
    hide Typed, Lookups, DoWelcome, DoReject, DoSendPicture, DoBroadcast, DoKick, DoPopResponse, DoPopMessage,
      DoFindPending, DoCheckConnected;
    match step
    case PopResponse => PopResponseFrame(s);
    case FindPending => FindPendingFrame(s);
    case CheckConnected => CheckConnectedFrame(s);
    case Accept => assert SameOutside(s, DoAccept(s));
    case Welcome(now) => PostFrame(s, now);
    case Reject(now) => PostFrame(s, now);
    case Drop => assert AsksNothing(s, DoDrop(s));
    case SendPicture(now) => SendPictureFrame(s, now);
    case PopMessage => PopMessageFrame(s);
    case Broadcast => BroadcastFrame(s);
    case SaveBroadcast => assert SameOutside(s, DoSaveBroadcast(s));
    case NextFrame =>
    case Kick(name, reason, now) => KickFrame(s, name, reason, now);
  }

  lemma ConnectTyped(s: System, sid: Sid)
    requires Typed(s)
    ensures Typed(DoConnect(s, sid))
  {
  }

  lemma ReceiveTyped(s: System, sid: Sid, m: M.Message)
    requires Typed(s) && sid in s.conns
    ensures Typed(DoReceive(s, sid, m))
  {
    hide WritersValid;
    var r := DoReceive(s, sid, m);
    assert r.conns.Keys == s.conns.Keys;
  }

  lemma EndOfFileTyped(s: System, sid: Sid)
    requires Typed(s) && sid in s.conns
    ensures Typed(DoEndOfFile(s, sid))
  {
    hide WritersValid;
    var r := DoEndOfFile(s, sid);
    assert r.conns.Keys == s.conns.Keys && r.spans.Keys == s.spans.Keys;
    assert forall i :: 0 <= i < |r.sessions| ==> r.sessions[i] in s.sessions;
  }

  lemma WriteTyped(s: System, sid: Sid, step: Writer.Step<M.Message>)
    requires Typed(s) && sid in s.conns && Writer.Enabled(s.writers[sid], step)
    ensures Typed(DoWrite(s, sid, step))
  {
    hide Writer.Apply, Writer.Enabled, Writer.Valid;
  }

  lemma RunTaskTyped(s: System)
    requires Typed(s) && s.tasks != []
    ensures Typed(DoRunTask(s))
  {
    hide M.Serialize, Writer.Apply, WritersValid;
    var r := s.(tasks := s.tasks[1..]);
    assert Typed(r);
    match s.tasks[0]
    case Send(sid, m) => if M.Serialize(m).Some? { WriteTyped(r, sid, Writer.Post(m)); }
    case Close(sid) => WriteTyped(r, sid, Writer.AskClose);
  }

  lemma PostTyped(s: System, sid: Sid, m: M.Message)
    requires Typed(s) && sid in s.conns
    ensures Typed(Post(s, sid, m))
  {
    hide WritersValid;
  }

  lemma KickTyped(s: System, name: Text, reason: Text, now: M.Int64)
    requires Typed(s)
    ensures Typed(DoKick(s, name, reason, now))
  {
    hide WritersValid;
    var found := FindMember(s.conns, s.sessions, name);
    if found.Some? {
      var r := DoKick(s, name, reason, now);
      PostTyped(s, found.value, M.Message(M.SERVER_KICK_REQUEST, [], reason, now));
      assert forall i :: 0 <= i < |r.sessions| ==> r.sessions[i] in s.sessions;
    }
  }

  lemma BroadcastTyped(s: System)
    requires Typed(s) && s.upd.Broadcasting?
    ensures Typed(DoBroadcast(s))
  {
    hide WritersValid;
    PostAllFrame(s, s.sessions, s.upd.message);
  }

  lemma SendPictureTyped(s: System, now: M.Int64)
    requires Typed(s) && s.upd.Picturing?
    ensures Typed(DoSendPicture(s, now))
  {
    hide WritersValid, PictureMessage;
    var found := FindMember(s.conns, s.sessions, s.upd.response.recipient);
    if found.Some? {
      PostTyped(s, found.value, PictureMessage(s.upd.response, now));
    }
  }

  lemma PopTyped(s: System)
    requires Typed(s)
    ensures Typed(DoPopResponse(s)) && Typed(DoPopMessage(s))
  {
    hide WritersValid, AllIn;
  }

  lemma FindPendingTyped(s: System)
    requires Typed(s) && s.upd.Joining?
    ensures Typed(DoFindPending(s))
  {
    hide WritersValid, AllIn;
  }

  lemma CheckConnectedTyped(s: System)
    requires Typed(s) && s.upd.Found?
    ensures Typed(DoCheckConnected(s))
  {
    hide WritersValid, ConnectedReason, FindMember;
  }

  lemma AcceptTyped(s: System)
    requires Typed(s) && s.upd.Accepting?
    ensures Typed(DoAccept(s))
  {
    hide WritersValid, Lookups;
    var r := DoAccept(s);
    assert r.spans.Keys == s.spans.Keys;
  }

  lemma DropTyped(s: System)
    requires Typed(s) && s.upd.Dropping?
    ensures Typed(DoDrop(s))
  {
    hide WritersValid, AllIn;
  }

  lemma AnswerTyped(s: System, now: M.Int64)
    requires Typed(s)
    ensures s.upd.Welcoming? ==> Typed(DoWelcome(s, now))
    ensures s.upd.Rejecting? ==> Typed(DoReject(s, now))
  {
    hide WritersValid, AllIn, WelcomeText;
    if s.upd.Welcoming? {
      PostTyped(s, s.upd.sid, M.Message(M.LOGIN_RESPONSE_ACCEPT, [], WelcomeText(), now));
    } else if s.upd.Rejecting? {
      PostTyped(s, s.upd.sid, M.Message(M.LOGIN_RESPONSE_REJECT, [], s.upd.reason, now));
    }
  }

  lemma NetworkTyped(s: System, step: NetworkStep)
    requires Typed(s) && NetworkEnabled(s, step)
    ensures Typed(ApplyNetwork(s, step))
  {
    hide WritersValid, DoConnect, DoReceive, DoEndOfFile, DoRunTask, DoWrite, Writer.Enabled;
    match step
    case Connect(sid) => ConnectTyped(s, sid);
    case Receive(sid, m) => ReceiveTyped(s, sid, m);
    case PushJoin =>
    case EndOfFile(sid) => EndOfFileTyped(s, sid);
    case RunTask => RunTaskTyped(s);
    case Written(sid, ok) => WriteTyped(s, sid, Writer.Done(ok));
  }

  lemma DatabaseTyped(s: System, step: DatabaseStep)
    requires Typed(s) && DatabaseEnabled(s, step)
    ensures Typed(ApplyDatabase(s, step))
  {
    hide WritersValid, AllIn, Handle;
  }

  lemma UpdateTyped(s: System, step: UpdateStep)
    requires Typed(s) && UpdateEnabled(s, step)
    ensures Typed(ApplyUpdate(s, step))
  {
    hide WritersValid, AllIn, DoPopResponse, DoFindPending, DoCheckConnected, DoAccept, DoWelcome, DoReject, DoDrop,
      DoSendPicture, DoPopMessage, DoBroadcast, DoKick;
    match step
    case PopResponse => PopTyped(s);
    case FindPending => FindPendingTyped(s);
    case CheckConnected => CheckConnectedTyped(s);
    case Accept => AcceptTyped(s);
    case Welcome(now) => AnswerTyped(s, now);
    case Reject(now) => AnswerTyped(s, now);
    case Drop => DropTyped(s);
    case SendPicture(now) => SendPictureTyped(s, now);
    case PopMessage => PopTyped(s);
    case Broadcast => BroadcastTyped(s);
    case SaveBroadcast =>
    case NextFrame =>
    case Kick(name, reason, now) => KickTyped(s, name, reason, now);
  }

  /** No step leaves a dangling reference. */
  lemma StepTyped(s: System, step: Step)
    requires Typed(s) && Enabled(s, step)
    ensures Typed(Apply(s, step))
  {
    hide Typed, ApplyNetwork, ApplyDatabase, ApplyUpdate, NetworkEnabled, DatabaseEnabled, UpdateEnabled;
    match step
    case Network(n) => NetworkTyped(s, n);
    case Database(d) => DatabaseTyped(s, d);
    case Update(u) => UpdateTyped(s, u);
  }
}
