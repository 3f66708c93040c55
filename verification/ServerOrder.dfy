/** The order of chats in every run, whatever the clients do: each session is sent the broadcasts of its memberships. */
module ServerOrder {
  import opened Bytes
  import opened Common
  import opened Store
  import opened ServerSystem
  import opened ServerInvariants
  import opened ServerProof
  import opened ServerUpdateProof
  import opened ServerRuns
  import opened ServerHypotheses
  import opened ServerAnswers
  import opened ServerClashes
  import M = Message
  import Writer

  // ----- no session is a member twice -----

  /** Needs neither H1 nor H2: a session is only accepted when no member has its name, so when it is no member. */
  ghost predicate Once(s: System) {
    Distinct(s.sessions) && (s.upd.Accepting? ==> s.upd.sid !in s.sessions)
  }

  lemma {:induction false} WithoutDistinct(sessions: seq<Sid>, sid: Sid)
    requires Distinct(sessions)
    ensures Distinct(Without(sessions, sid))
    decreases |sessions|
  {
    if sessions != [] {
      var rest := Without(sessions[1..], sid);
      WithoutDistinct(sessions[1..], sid);
      assert forall j :: 0 <= j < |rest| ==> rest[j] in sessions[1..];
      assert sessions[0] !in sessions[1..];
    }
  }

  lemma EndOfFileOnce(s: System, sid: Sid)
    requires Typed(s) && sid in s.conns && Once(s)
    ensures Once(DoEndOfFile(s, sid))
  {
    hide Typed, Distinct;
    WithoutDistinct(s.sessions, sid);
  }

  lemma KickOnce(s: System, name: Text, reason: Text, now: M.Int64)
    requires Typed(s) && s.upd.Idle? && Once(s)
    ensures Once(DoKick(s, name, reason, now))
  {
    hide WritersValid, Distinct, FindMember, Without, WithoutFirst;
    var found := FindMember(s.conns, s.sessions, name);
    if found.Some? {
      WithoutFirstIsWithout(s.sessions, found.value);
      WithoutDistinct(s.sessions, found.value);
    }
  }

  lemma CheckOnce(s: System)
    requires Typed(s) && s.upd.Found? && Once(s)
    ensures Once(DoCheckConnected(s))
  {
    hide WritersValid, Distinct, FindMember, ConnectedReason;
  }

  lemma AcceptOnce(s: System)
    requires Typed(s) && s.upd.Accepting? && Once(s)
    ensures Once(DoAccept(s))
  {
    hide Typed, Lookups;
    var r := DoAccept(s);
    assert forall i :: 0 <= i < |s.sessions| ==> s.sessions[i] in s.sessions;
  }

  lemma NetworkOnce(s: System, step: NetworkStep)
    requires Typed(s) && NetworkEnabled(s, step) && Once(s)
    ensures Once(ApplyNetwork(s, step))
  {
    hide Typed, Distinct, DoReceive, DoRunTask, Writer.Enabled, Writer.Apply;
    match step
    case Connect(_) =>
    case Receive(sid, m) => ReceiveIs(s, sid, m);
    case PushJoin =>
    case EndOfFile(sid) => EndOfFileOnce(s, sid);
    case RunTask => RunTaskFrame(s);
    case Written(_, _) =>
  }

  lemma UpdateOnce(s: System, step: UpdateStep)
    requires Typed(s) && UpdateEnabled(s, step) && Once(s)
    ensures Once(ApplyUpdate(s, step))
  {
    hide Typed, Distinct, DoPopResponse, DoCheckConnected, DoAccept, DoWelcome, DoReject, DoDrop, DoSendPicture,
      DoPopMessage, DoBroadcast, DoKick;
    match step
    case PopResponse => PopSameMembers(s);
    case FindPending =>
    case CheckConnected => CheckOnce(s);
    case Accept => AcceptOnce(s);
    case Welcome(now) => SendingSameMembers(s, now);
    case Reject(now) => SendingSameMembers(s, now);
    case Drop => SendingSameMembers(s, 0);
    case SendPicture(now) => SendingSameMembers(s, now);
    case PopMessage => PopSameMembers(s);
    case Broadcast => BroadcastSameMembers(s);
    case SaveBroadcast =>
    case NextFrame =>
    case Kick(name, reason, now) => KickOnce(s, name, reason, now);
  }

  lemma OnceStep(s: System, step: Step)
    requires Typed(s) && Enabled(s, step) && Once(s)
    ensures Once(Apply(s, step))
  {
    hide Typed, Once, Handle, ApplyNetwork, ApplyUpdate, NetworkEnabled, UpdateEnabled;
    match step
    case Network(n) => NetworkOnce(s, n);
    case Database(d) => DatabaseOnce(s, d);
    case Update(u) => UpdateOnce(s, u);
  }

  lemma DatabaseOnce(s: System, step: DatabaseStep)
    requires DatabaseEnabled(s, step) && Once(s)
    ensures Once(ApplyDatabase(s, step))
  {
    hide Handle, Distinct;
  }

  /** In every run no session is a member twice. */
  lemma {:induction false} OnceAt(tables: Tables, run: Run, k: nat)
    requires IsRun(tables, run) && k <= |run.steps|
    ensures Once(run.states[k])
  {
    hide Typed, Enabled, Apply;
    if k > 0 {
      OnceAt(tables, run, k - 1);
      assert StepAt(run, k - 1);
      OnceStep(run.states[k - 1], run.steps[k - 1]);
    }
  }

  // ----- what a step adds to a session's chats -----

  predicate IsChat(m: M.Message) { m.command == M.CHAT_MESSAGE }

  function ChatsOf(s: System, sid: Sid): seq<M.Message>
    requires sid in s.logs
  {
    Chats(s.logs[sid])
  }

  lemma SameChats(s: System, r: System, sid: Sid)
    requires sid in s.logs && sid in r.logs && r.logs[sid] == s.logs[sid]
    ensures ChatsOf(r, sid) == ChatsOf(s, sid)
  {
  }

  lemma PostChats(s: System, x: Sid, m: M.Message, sid: Sid)
    requires x in s.logs && sid in s.logs && !IsChat(m)
    ensures sid in Post(s, x, m).logs && ChatsOf(Post(s, x, m), sid) == ChatsOf(s, sid)
  {
    hide Chats;
    ChatsAppend(s.logs[x], m);
  }

  lemma NetworkChats(s: System, step: NetworkStep, sid: Sid)
    requires Typed(s) && NetworkEnabled(s, step) && sid in s.conns && sid in s.logs
    ensures sid in ApplyNetwork(s, step).logs && ChatsOf(ApplyNetwork(s, step), sid) == ChatsOf(s, sid)
  {
    hide Typed, Chats, DoReceive, DoRunTask, Writer.Enabled, Writer.Apply;
    match step
    case Connect(x) => SameChats(s, DoConnect(s, x), sid);
    case Receive(x, m) => ReceiveIs(s, x, m);
    case PushJoin =>
    case EndOfFile(x) => SameChats(s, DoEndOfFile(s, x), sid);
    case RunTask => RunTaskFrame(s);
    case Written(_, _) =>
  }

  lemma AnsweredChats(s: System, now: M.Int64, sid: Sid)
    requires Typed(s) && sid in s.logs
    ensures s.upd.Welcoming? ==> sid in DoWelcome(s, now).logs && ChatsOf(DoWelcome(s, now), sid) == ChatsOf(s, sid)
    ensures s.upd.Rejecting? ==> sid in DoReject(s, now).logs && ChatsOf(DoReject(s, now), sid) == ChatsOf(s, sid)
  {
    hide Typed, Chats, WelcomeText;
    HolderLogged(s);
    if s.upd.Welcoming? {
      PostChats(s, s.upd.sid, M.Message(M.LOGIN_RESPONSE_ACCEPT, [], WelcomeText(), now), sid);
    } else if s.upd.Rejecting? {
      PostChats(s, s.upd.sid, M.Message(M.LOGIN_RESPONSE_REJECT, [], s.upd.reason, now), sid);
    }
  }

  lemma SendPictureChats(s: System, now: M.Int64, sid: Sid)
    requires Typed(s) && s.upd.Picturing? && sid in s.logs
    ensures sid in DoSendPicture(s, now).logs && ChatsOf(DoSendPicture(s, now), sid) == ChatsOf(s, sid)
  {
    hide Typed, Chats, PictureMessage, FindMember;
    FoundLogged(s, s.upd.response.recipient);
    PictureCommand(s.upd.response, now);
    var found := FindMember(s.conns, s.sessions, s.upd.response.recipient);
    if found.Some? {
      PostChats(s, found.value, PictureMessage(s.upd.response, now), sid);
    }
  }

  lemma KickChats(s: System, name: Text, reason: Text, now: M.Int64, sid: Sid)
    requires Typed(s) && sid in s.logs
    ensures sid in DoKick(s, name, reason, now).logs && ChatsOf(DoKick(s, name, reason, now), sid) == ChatsOf(s, sid)
  {
    hide Typed, Chats, FindMember, WithoutFirst;
    FoundLogged(s, name);
    var found := FindMember(s.conns, s.sessions, name);
    if found.Some? {
      PostChats(s, found.value, M.Message(M.SERVER_KICK_REQUEST, [], reason, now), sid);
    }
  }

  lemma BroadcastChats(s: System, sid: Sid)
    requires Typed(s) && s.upd.Broadcasting? && Once(s) && IsChat(s.upd.message) && sid in s.logs
    ensures sid in DoBroadcast(s).logs
    ensures ChatsOf(DoBroadcast(s), sid) == ChatsOf(s, sid) + if sid in s.sessions then [s.upd.message] else []
  {
    hide Typed, Chats, PostAll, Distinct;
    MembersLogged(s);
    PostAllFrame(s, s.sessions, s.upd.message);
    PostAllLogs(s, s.sessions, s.upd.message);
    ChatsAppend(s.logs[sid], s.upd.message);
  }

  lemma OtherChats(s: System, sid: Sid)
    requires Typed(s) && sid in s.logs
    ensures s.upd.Responses? ==> DoPopResponse(s).logs == s.logs
    ensures s.upd.Inbox? ==> DoPopMessage(s).logs == s.logs
    ensures s.upd.Joining? ==> DoFindPending(s).logs == s.logs
    ensures s.upd.Found? ==> DoCheckConnected(s).logs == s.logs
  {
    hide Typed, FindMember, ConnectedReason;
  }

  /** What is added to a session's chats: the message broadcast, if the session is a member. */
  function ChatBy(s: System, step: Step, sid: Sid): seq<M.Message> {
    if step == Update(Broadcast) && s.upd.Broadcasting? && sid in s.sessions then [s.upd.message] else []
  }

  lemma UpdateChats(s: System, step: UpdateStep, sid: Sid)
    requires Typed(s) && UpdateEnabled(s, step) && Once(s) && sid in s.logs
    requires s.upd.Broadcasting? ==> IsChat(s.upd.message)
    ensures sid in ApplyUpdate(s, step).logs
    ensures ChatsOf(ApplyUpdate(s, step), sid) == ChatsOf(s, sid) + ChatBy(s, Update(step), sid)
  {
    hide Typed, Chats, Once, DoPopResponse, DoFindPending, DoCheckConnected, DoWelcome, DoReject, DoSendPicture,
      DoPopMessage, DoBroadcast, DoKick, Lookups;
    match step
    case PopResponse => OtherChats(s, sid);
    case FindPending => OtherChats(s, sid);
    case CheckConnected => OtherChats(s, sid);
    case Accept =>
    case Welcome(now) => AnsweredChats(s, now, sid);
    case Reject(now) => AnsweredChats(s, now, sid);
    case Drop =>
    case SendPicture(now) => SendPictureChats(s, now, sid);
    case PopMessage => OtherChats(s, sid);
    case Broadcast => BroadcastChats(s, sid);
    case SaveBroadcast =>
    case NextFrame =>
    case Kick(name, reason, now) => KickChats(s, name, reason, now, sid);
  }

  lemma ChatStep(s: System, step: Step, sid: Sid)
    requires Typed(s) && Enabled(s, step) && Once(s) && sid in s.conns && sid in s.logs
    requires s.upd.Broadcasting? ==> IsChat(s.upd.message)
    ensures sid in Apply(s, step).logs
    ensures ChatsOf(Apply(s, step), sid) == ChatsOf(s, sid) + ChatBy(s, step, sid)
  {
    hide Typed, ChatsOf, Once, Handle, ApplyNetwork, ApplyDatabase, ApplyUpdate, NetworkEnabled, UpdateEnabled, IsChat;
    match step
    case Network(n) => NetworkChats(s, n, sid);
    case Database(d) => DatabaseChats(s, d, sid);
    case Update(u) => UpdateChats(s, u, sid);
  }

  lemma DatabaseChats(s: System, step: DatabaseStep, sid: Sid)
    requires DatabaseEnabled(s, step) && sid in s.logs
    ensures sid in ApplyDatabase(s, step).logs && ChatsOf(ApplyDatabase(s, step), sid) == ChatsOf(s, sid)
  {
    hide Handle, Chats;
  }

  // ----- every run -----

  /** The broadcasts made in the first steps while the session was a member, in the order of the broadcasts. */
  function WhileMember(run: Run, k: nat, sid: Sid): seq<M.Message>
    requires k <= |run.steps| < |run.states|
  {
    if k == 0 then [] else WhileMember(run, k - 1, sid) + ChatBy(run.states[k - 1], run.steps[k - 1], sid)
  }

  lemma NobodyYet(s: System, sid: Sid)
    requires Typed(s) && sid !in s.conns
    ensures sid !in s.sessions
  {
    hide WritersValid;
  }

  /**
   * In every run, with neither H1 nor H2, the chats a session has been sent are exactly the broadcasts made while it
   * was a member, each once, in the one order of the broadcasts.
   */
  lemma {:induction false} ChatsOfMembers(tables: Tables, run: Run, k: nat, sid: Sid)
    requires IsRun(tables, run) && k <= |run.steps|
    ensures sid in run.states[k].conns ==>
      sid in run.states[k].logs && ChatsOf(run.states[k], sid) == WhileMember(run, k, sid)
    ensures sid !in run.states[k].conns ==> WhileMember(run, k, sid) == []
  {
    hide Typed, Apply, ChatsOf, Once, NetworkEnabled, DatabaseEnabled, UpdateEnabled;
    if k > 0 {
      var p, last := run.states[k - 1], run.steps[k - 1];
      ChatsOfMembers(tables, run, k - 1, sid);
      assert StepAt(run, k - 1);
      if sid in p.conns {
        OnceAt(tables, run, k - 1);
        BroadcastsChat(tables, run, k - 1);
        ChatStep(p, last, sid);
        ConnsGrow(p, last);
      } else {
        NobodyYet(p, sid);
        if sid in Apply(p, last).conns {
          OnlyConnects(p, last, sid);
          NewChats(p, sid);
        }
      }
    }
  }

  lemma NewChats(s: System, sid: Sid)
    ensures sid in DoConnect(s, sid).logs && ChatsOf(DoConnect(s, sid), sid) == []
  {
  }
}
