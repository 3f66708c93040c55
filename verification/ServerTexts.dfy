/** Every text the server sends can be written: what clients sent was parsed, and the rest is made of it. */
module ServerTexts {
  import opened Bytes
  import opened User
  import opened Store
  import opened Json
  import opened ServerSystem
  import opened ServerRuns
  import opened Delivery
  import M = Message
  import Picture
  import PictureFidelity
  import opened ServerProof
  import opened ServerUpdateProof
  import opened ServerProgress
  import opened ServerStanding
  import Writer

  // ----- what is well-formed -----

  predicate RequestOk(r: Request) {
    match r
    case Login(user) => ValidUtf8(user.username)
    case Register(user) => ValidUtf8(user.username)
    case SavePicture(user, _) => ValidUtf8(user.username)
    case GetPicture(target, _) => ValidUtf8(target.username)
    case _ => true
  }

  /** The message of a picture response is pixels. */
  predicate ResponseOk(r: Response) {
    ValidUtf8(r.username) && (!r.kind.USER_PROFILE_PICTURE? ==> ValidUtf8(r.message))
  }

  ghost predicate ThreadOk(u: UpdateThread) {
    match u
    case Joining(r) => ResponseOk(r)
    case Found(_, r) => ResponseOk(r)
    case Rejecting(_, reason) => ValidUtf8(reason)
    case Picturing(r) => ResponseOk(r)
    case Broadcasting(m) => Sendable(m)
    case _ => true
  }

  ghost predicate UsersOk(conns: map<Sid, Conn>) {
    forall x :: x in conns ==> ValidUtf8(conns[x].user.username)
  }

  ghost predicate RequestsOk(rs: seq<Request>) {
    forall i :: 0 <= i < |rs| ==> RequestOk(rs[i])
  }

  ghost predicate ResponsesOk(rs: seq<Response>) {
    forall i :: 0 <= i < |rs| ==> ResponseOk(rs[i])
  }

  ghost predicate InboxOk(ms: seq<M.Message>) {
    forall i :: 0 <= i < |ms| ==> Sendable(ms[i])
  }

  ghost predicate TasksOk(tasks: seq<Task>) {
    forall i :: 0 <= i < |tasks| && tasks[i].Send? ==> Sendable(tasks[i].message)
  }

  ghost predicate TextsOk(s: System) {
    && UsersOk(s.conns) && RequestsOk(s.requests) && ResponsesOk(s.responses) && InboxOk(s.inbox) && TasksOk(s.tasks)
    && ThreadOk(s.upd)
    && (s.net.NetJoin? ==> RequestOk(s.net.request))
    && (s.db.DbWork? ==> RequestOk(s.db.request))
  }

  /** A message that arrives was parsed. */
  ghost predicate Parsed(step: Step) {
    step.Network? && step.n.Receive? ==> exists raw :: M.Deserialize(raw) == Some(step.n.message)
  }

  /** The operator kicks a member with a reason that is not UTF-8. */
  predicate BadKick(s: System, step: Step) {
    && step.Update? && step.u.Kick? && !ValidUtf8(step.u.reason)
    && AllIn(s.sessions, s.conns) && FindMember(s.conns, s.sessions, step.u.name).Some?
  }

  ghost predicate TextsGiven(s: System, step: Step) {
    Parsed(step) && !BadKick(s, step)
  }

  // ----- texts the server makes -----

  lemma AsciiIsValid(s: string)
    ensures ValidUtf8(Ascii(s))
  {
    Picture.PlainIsValid(Ascii(s));
  }

  lemma ReasonValid(name: Text, problem: string)
    requires ValidUtf8(name)
    ensures ValidUtf8(Reason(name, problem))
  {
    hide ValidUtf8, Ascii;
    AsciiIsValid("User ");
    AsciiIsValid(problem);
    ValidConcat(Ascii("User "), name);
    ValidConcat(Ascii("User ") + name, Ascii(problem));
  }

  lemma PictureMessageSendable(r: Response, now: M.Int64)
    requires ValidUtf8(r.username)
    ensures Sendable(PictureMessage(r, now))
  {
    hide ValidUtf8, Picture.Content;
    Picture.ContentPlain(r.message);
    Picture.PlainIsValid(Picture.Content(r.message).value);
  }

  lemma NothingIsValid()
    ensures ValidUtf8([])
  {
  }

  lemma HandleTexts(t: Tables, r: Request)
    requires RequestOk(r)
    ensures RequestsOk(Handle(t, r).requeued) && ResponsesOk(Handle(t, r).responses)
  {
    hide ValidUtf8, Reason, CStr, GetUserId, AddUser, AddMessage, AddPicture, PictureContent, Password, Picture.Pixels;
    NothingIsValid();
    match r
    case Login(user) =>
      PictureFidelity.CStrValid(user.username);
      ReasonValid(user.username, " could not be found");
      ReasonValid(user.username, " password does not match");
    case Register(user) =>
      PictureFidelity.CStrValid(user.username);
      ReasonValid(user.username, " already exist");
    case GetPicture(target, _) => PictureFidelity.CStrValid(target.username);
    case _ =>
  }

  lemma {:induction false} LookupsTexts(conns: map<Sid, Conn>, sessions: seq<Sid>, user: User)
    requires AllIn(sessions, conns) && UsersOk(conns) && ValidUtf8(user.username)
    ensures RequestsOk(Lookups(conns, sessions, user))
    decreases |sessions|
  {
    hide ValidUtf8, CStr;
    if sessions != [] {
      LookupsTexts(conns, sessions[1..], user);
    }
  }

  // ----- the steps -----

  lemma JoinTexts(s: System, sid: Sid, m: M.Message)
    requires TextsOk(s) && sid in s.conns && ValidUtf8(m.senderName)
    requires m.command == M.LOGIN_REQUEST || m.command == M.REGISTER_REQUEST
    ensures TextsOk(DoReceive(s, sid, m))
  {
    hide ValidUtf8, CStr, RequestsOk, ResponsesOk, InboxOk, TasksOk, ThreadOk;
  }

  lemma ChatTexts(s: System, m: M.Message)
    requires TextsOk(s) && Sendable(m)
    ensures TextsOk(s.(inbox := s.inbox + [m]))
  {
    hide Sendable, RequestsOk, RequestOk, ResponsesOk, UsersOk, TasksOk, ThreadOk;
  }

  lemma RequestTexts(s: System, r: Request)
    requires TextsOk(s) && RequestOk(r)
    ensures TextsOk(s.(requests := s.requests + [r]))
  {
    hide RequestsOk, RequestOk, ResponsesOk, UsersOk, InboxOk, TasksOk, ThreadOk;
    Pushed(s.requests, [r]);
  }

  lemma ReceiveTexts(s: System, sid: Sid, m: M.Message)
    requires TextsOk(s) && sid in s.conns && Sendable(m)
    ensures TextsOk(DoReceive(s, sid, m))
  {
    hide ValidUtf8, CStr, RequestsOk, ResponsesOk, InboxOk, TasksOk, ThreadOk;
    if m.command == M.LOGIN_REQUEST || m.command == M.REGISTER_REQUEST {
      JoinTexts(s, sid, m);
    } else {
      hide TextsOk;
      if m.command == M.CHAT_MESSAGE {
        ChatTexts(s, m);
      } else if m.command == M.PROFILE_PICTURE {
        var r := SavePicture(s.conns[sid].user, CStr(m.content));
        assert RequestOk(r) by { UserOk(s, sid); }
        RequestTexts(s, r);
      }
    }
  }

  lemma UserOk(s: System, sid: Sid)
    requires TextsOk(s) && sid in s.conns
    ensures ValidUtf8(s.conns[sid].user.username)
  {
    hide ValidUtf8, RequestsOk, ResponsesOk, InboxOk, TasksOk, ThreadOk;
  }

  lemma ConnectTexts(s: System, sid: Sid)
    requires TextsOk(s)
    ensures TextsOk(DoConnect(s, sid))
  {
    hide ValidUtf8, RequestsOk, ResponsesOk, InboxOk, TasksOk, ThreadOk, RequestOk;
    NothingIsValid();
  }

  lemma RunTaskTexts(s: System)
    requires Typed(s) && TextsOk(s) && s.tasks != []
    ensures TextsOk(DoRunTask(s)) && DoRunTask(s).fault == s.fault
  {
    hide Typed, ValidUtf8, RequestsOk, ResponsesOk, InboxOk, UsersOk, ThreadOk, RequestOk, Writer.Apply, M.Serialize;
    if s.tasks[0].Send? {
      M.MessageRoundTrip(s.tasks[0].message);
    }
  }

  lemma NetworkTexts(s: System, step: NetworkStep)
    requires Typed(s) && NetworkEnabled(s, step) && TextsOk(s) && Parsed(Network(step))
    ensures TextsOk(ApplyNetwork(s, step)) && ApplyNetwork(s, step).fault == s.fault
  {
    hide Typed, ValidUtf8, RequestsOk, ResponsesOk, InboxOk, TasksOk, ThreadOk, RequestOk, DoRunTask, CStr,
      Writer.Apply, Writer.Enabled, M.Deserialize;
    match step
    case Connect(sid) => ConnectTexts(s, sid);
    case Receive(sid, m) =>
      var raw :| M.Deserialize(raw) == Some(m);
      M.ParsedValid(raw);
      ReceiveTexts(s, sid, m);
    case PushJoin => assert RequestsOk(s.requests + [s.net.request]) by { Pushed(s.requests, [s.net.request]); }
    case EndOfFile(sid) => assert UsersOk(DoEndOfFile(s, sid).conns);
    case RunTask => RunTaskTexts(s);
    case Written(_, _) =>
  }

  lemma Pushed(rs: seq<Request>, more: seq<Request>)
    requires RequestsOk(rs) && forall i :: 0 <= i < |more| ==> RequestOk(more[i])
    ensures RequestsOk(rs + more)
  {
    hide RequestOk;
  }

  lemma Posted(tasks: seq<Task>, t: Task)
    requires TasksOk(tasks) && (t.Send? ==> Sendable(t.message))
    ensures TasksOk(tasks + [t])
  {
    hide Sendable;
  }

  lemma DatabaseTexts(s: System, step: DatabaseStep)
    requires DatabaseEnabled(s, step) && TextsOk(s)
    ensures TextsOk(ApplyDatabase(s, step))
  {
    hide InboxOk, TasksOk, ThreadOk, RequestOk, ResponseOk, UsersOk, Handle;
    if step.Answer? {
      HandleTexts(s.tables, s.db.request);
    }
  }

  lemma PopResponseTexts(s: System)
    requires TextsOk(s) && s.upd.Responses?
    ensures TextsOk(DoPopResponse(s))
  {
    hide InboxOk, TasksOk, RequestsOk, RequestOk, ResponseOk, UsersOk;
  }

  lemma PopMessageTexts(s: System)
    requires TextsOk(s) && s.upd.Inbox?
    ensures TextsOk(DoPopMessage(s))
  {
    hide Sendable, TasksOk, RequestsOk, RequestOk, ResponsesOk, UsersOk;
  }

  lemma FindPendingTexts(s: System)
    requires TextsOk(s) && s.upd.Joining?
    ensures TextsOk(DoFindPending(s))
  {
    hide TasksOk, InboxOk, RequestsOk, RequestOk, ResponsesOk, UsersOk, ResponseOk;
  }

  lemma CheckConnectedTexts(s: System)
    requires Typed(s) && TextsOk(s) && s.upd.Found?
    ensures TextsOk(DoCheckConnected(s))
  {
    hide WritersValid, AllIn, TasksOk, InboxOk, RequestsOk, RequestOk, ResponsesOk, UsersOk, ValidUtf8, FindMember,
      Ascii;
    AsciiIsValid("User is already connected");
  }

  lemma AcceptTexts(s: System)
    requires Typed(s) && TextsOk(s) && s.upd.Accepting?
    ensures TextsOk(DoAccept(s))
  {
    hide WritersValid, TasksOk, InboxOk, RequestsOk, RequestOk, ResponsesOk, ValidUtf8, Lookups;
    var user := s.conns[s.upd.sid].user;
    LookupsTexts(s.conns, s.sessions, user);
    LookupsPushed(s.requests, Lookups(s.conns, s.sessions, user));
  }

  lemma LookupsPushed(rs: seq<Request>, more: seq<Request>)
    requires RequestsOk(rs) && RequestsOk(more)
    ensures RequestsOk(rs + more)
  {
    hide RequestOk;
  }

  lemma AnsweringTexts(s: System, now: M.Int64)
    requires Typed(s) && TextsOk(s)
    ensures s.upd.Welcoming? ==> TextsOk(DoWelcome(s, now))
    ensures s.upd.Rejecting? ==> TextsOk(DoReject(s, now))
    ensures s.upd.Dropping? ==> TextsOk(DoDrop(s))
  {
    hide Typed, TasksOk, InboxOk, RequestsOk, RequestOk, ResponsesOk, UsersOk, ValidUtf8, Ascii;
    NothingIsValid();
    AsciiIsValid("Successfully connected to the server");
    if s.upd.Welcoming? {
      Posted(s.tasks, Send(s.upd.sid, M.Message(M.LOGIN_RESPONSE_ACCEPT, [], WelcomeText(), now)));
    } else if s.upd.Rejecting? {
      Posted(s.tasks, Send(s.upd.sid, M.Message(M.LOGIN_RESPONSE_REJECT, [], s.upd.reason, now)));
    } else if s.upd.Dropping? {
      Posted(s.tasks, Close(s.upd.sid));
    }
  }

  lemma SendPictureTexts(s: System, now: M.Int64)
    requires Typed(s) && TextsOk(s) && s.upd.Picturing?
    ensures TextsOk(DoSendPicture(s, now))
  {
    hide WritersValid, TasksOk, InboxOk, RequestsOk, RequestOk, ResponsesOk, UsersOk, ValidUtf8, PictureMessage,
      FindMember;
    var found := FindMember(s.conns, s.sessions, s.upd.response.recipient);
    PictureMessageSendable(s.upd.response, now);
    if found.Some? {
      Posted(s.tasks, Send(found.value, PictureMessage(s.upd.response, now)));
    }
  }

  lemma BroadcastTexts(s: System)
    requires Typed(s) && TextsOk(s) && s.upd.Broadcasting?
    ensures TextsOk(DoBroadcast(s))
  {
    hide Typed, InboxOk, RequestsOk, RequestOk, ResponsesOk, UsersOk, Sendable, PostAll;
    MembersLogged(s);
    PostAllFrame(s, s.sessions, s.upd.message);
  }

  lemma SaveTexts(s: System)
    requires TextsOk(s) && s.upd.Saving?
    ensures TextsOk(DoSaveBroadcast(s))
  {
    hide InboxOk, TasksOk, ResponsesOk, UsersOk, ValidUtf8, RequestsOk;
    Pushed(s.requests, [SaveMessage(s.upd.message)]);
  }

  lemma KickTexts(s: System, name: Text, reason: Text, now: M.Int64)
    requires Typed(s) && TextsOk(s) && s.upd.Idle? && !BadKick(s, Update(Kick(name, reason, now)))
    ensures TextsOk(DoKick(s, name, reason, now))
  {
    hide WritersValid, TasksOk, InboxOk, RequestsOk, RequestOk, ResponsesOk, UsersOk, ValidUtf8, FindMember,
      WithoutFirst;
    NothingIsValid();
    var found := FindMember(s.conns, s.sessions, name);
    if found.Some? {
      var t := Send(found.value, M.Message(M.SERVER_KICK_REQUEST, [], reason, now));
      Posted(s.tasks, t);
      Posted(s.tasks + [t], Close(found.value));
    }
  }

  lemma UpdateTexts(s: System, step: UpdateStep)
    requires Typed(s) && UpdateEnabled(s, step) && TextsOk(s) && !BadKick(s, Update(step))
    ensures TextsOk(ApplyUpdate(s, step))
  {
    hide Typed, BadKick, ValidUtf8, TasksOk, InboxOk, RequestsOk, RequestOk, ResponsesOk, UsersOk, DoPopResponse,
      DoFindPending, DoCheckConnected, DoAccept, DoWelcome, DoReject, DoDrop, DoSendPicture, DoPopMessage, DoBroadcast,
      DoSaveBroadcast, DoKick;
    match step
    case PopResponse => PopResponseTexts(s);
    case FindPending => FindPendingTexts(s);
    case CheckConnected => CheckConnectedTexts(s);
    case Accept => AcceptTexts(s);
    case Welcome(now) => AnsweringTexts(s, now);
    case Reject(now) => AnsweringTexts(s, now);
    case Drop => AnsweringTexts(s, 0);
    case SendPicture(now) => SendPictureTexts(s, now);
    case PopMessage => PopMessageTexts(s);
    case Broadcast => BroadcastTexts(s);
    case SaveBroadcast => SaveTexts(s);
    case NextFrame =>
    case Kick(name, reason, now) => KickTexts(s, name, reason, now);
  }

  lemma UpdateNotBadText(s: System, step: UpdateStep)
    requires Typed(s) && UpdateEnabled(s, step) && s.fault == NoFault
    ensures ApplyUpdate(s, step).fault != BadText
  {
    hide Typed;
    if step.FindPending? {
      assert DoFindPending(s).fault in {NoFault, NullSession};
    } else {
      hide ApplyUpdate;
      UpdateFaults(s, step);
    }
  }

  /** Every step keeps the texts well-formed, so none ends in a text that cannot be written. */
  lemma StepTexts(s: System, step: Step)
    requires Typed(s) && Enabled(s, step) && TextsOk(s) && TextsGiven(s, step)
    ensures TextsOk(Apply(s, step)) && Apply(s, step).fault != BadText
  {
    hide Typed, TextsOk, Parsed, BadKick, ApplyNetwork, ApplyUpdate, NetworkEnabled, UpdateEnabled, Handle;
    match step
    case Network(n) => NetworkTexts(s, n);
    case Database(d) => DatabaseTexts(s, d);
    case Update(u) => UpdateTexts(s, u); UpdateNotBadText(s, u);
  }

  // ----- every run -----

  ghost predicate ParsedAt(run: Run, k: nat)
    requires k < |run.steps|
  {
    Parsed(run.steps[k])
  }

  predicate BadKickAt(run: Run, k: nat)
    requires k < |run.steps| && |run.states| == |run.steps| + 1
  {
    BadKick(run.states[k], run.steps[k])
  }

  lemma NoTexts(tables: Tables)
    ensures TextsOk(Initial(tables))
  {
  }

  /**
   * No message of the server fails to be written, provided no member is kicked with a reason that is not UTF-8; the
   * names and chats of the clients are, because they have been parsed.
   */
  lemma {:induction false} BadTextUnreachable(tables: Tables, run: Run, k: nat)
    requires IsRun(tables, run) && k <= |run.steps|
    requires forall i :: 0 <= i < k ==> ParsedAt(run, i) && !BadKickAt(run, i)
    ensures TextsOk(run.states[k]) && run.states[k].fault != BadText
  {
    hide Typed, Enabled, Apply, TextsOk, Parsed, BadKick;
    if k == 0 {
      NoTexts(tables);
    } else {
      BadTextUnreachable(tables, run, k - 1);
      assert StepAt(run, k - 1) && ParsedAt(run, k - 1) && !BadKickAt(run, k - 1);
      StepTexts(run.states[k - 1], run.steps[k - 1]);
    }
  }

  // ----- a reason that is not UTF-8 -----

  /** A message that cannot be written is posted. */
  ghost predicate Spoiled(s: System) {
    exists i :: 0 <= i < |s.tasks| && s.tasks[i].Send? && !Sendable(s.tasks[i].message)
  }

  lemma SpoiledGrows(s: System, r: System)
    requires Spoiled(s) && s.tasks <= r.tasks
    ensures Spoiled(r)
  {
    hide Sendable;
    var i :| 0 <= i < |s.tasks| && s.tasks[i].Send? && !Sendable(s.tasks[i].message);
    assert r.tasks[i] == s.tasks[i];
  }

  /** Running it is the fault; running another task before it brings it nearer. */
  lemma SpoiledRuns(s: System)
    requires Typed(s) && Spoiled(s) && s.tasks != []
    ensures Spoiled(DoRunTask(s)) || DoRunTask(s).fault == BadText
  {
    hide Typed, Sendable, M.Serialize;
    var i :| 0 <= i < |s.tasks| && s.tasks[i].Send? && !Sendable(s.tasks[i].message);
    if i == 0 {
      UnsendableFails(s.tasks[0].message);
    } else {
      RunTaskIs(s);
      assert DoRunTask(s).tasks[i - 1] == s.tasks[i];
    }
  }

  lemma UnsendableFails(m: M.Message)
    requires !Sendable(m)
    ensures M.Serialize(m).None?
  {
    hide M.Serialize, ValidUtf8;
    M.MessageRoundTrip(m);
  }

  lemma NetworkGrows(s: System, step: NetworkStep)
    requires Typed(s) && NetworkEnabled(s, step) && !step.RunTask?
    ensures ApplyNetwork(s, step).tasks == s.tasks
  {
    hide Typed, DoReceive, Writer.Apply, Writer.Enabled;
    if step.Receive? {
      ReceiveUnmoved(s, step.sid, step.message);
    }
  }

  lemma PostingGrows(s: System, now: M.Int64)
    requires Typed(s)
    ensures s.upd.Welcoming? ==> s.tasks <= DoWelcome(s, now).tasks
    ensures s.upd.Rejecting? ==> s.tasks <= DoReject(s, now).tasks
    ensures s.upd.Dropping? ==> s.tasks <= DoDrop(s).tasks
    ensures s.upd.Accepting? ==> s.tasks <= DoAccept(s).tasks
  {
    hide Typed, WelcomeText, Lookups;
  }

  lemma SendPictureGrows(s: System, now: M.Int64)
    requires Typed(s) && s.upd.Picturing?
    ensures s.tasks <= DoSendPicture(s, now).tasks
  {
    hide Typed, PictureMessage, FindMember;
  }

  lemma KickGrows(s: System, name: Text, reason: Text, now: M.Int64)
    requires Typed(s)
    ensures s.tasks <= DoKick(s, name, reason, now).tasks
  {
    hide Typed, FindMember, WithoutFirst;
  }

  lemma BroadcastGrows(s: System)
    requires Typed(s) && s.upd.Broadcasting?
    ensures s.tasks <= DoBroadcast(s).tasks
  {
    hide Typed, PostAll;
    MembersLogged(s);
    PostAllFrame(s, s.sessions, s.upd.message);
  }

  lemma UpdateGrows(s: System, step: UpdateStep)
    requires Typed(s) && UpdateEnabled(s, step)
    ensures s.tasks <= ApplyUpdate(s, step).tasks
  {
    hide Typed, DoPopResponse, DoFindPending, DoCheckConnected, DoAccept, DoWelcome, DoReject, DoDrop, DoSendPicture,
      DoPopMessage, DoBroadcast, DoSaveBroadcast, DoKick;
    match step
    case PopResponse => PopResponseUnmoved(s);
    case FindPending => FindUnmoved(s);
    case CheckConnected => CheckUnmoved(s);
    case Accept => PostingGrows(s, 0);
    case Welcome(now) => PostingGrows(s, now);
    case Reject(now) => PostingGrows(s, now);
    case Drop => PostingGrows(s, 0);
    case SendPicture(now) => SendPictureGrows(s, now);
    case PopMessage => PopMessageUnmoved(s);
    case Broadcast => BroadcastGrows(s);
    case SaveBroadcast => SaveUnmoved(s);
    case NextFrame =>
    case Kick(name, reason, now) => KickGrows(s, name, reason, now);
  }

  lemma SpoiledStep(s: System, step: Step)
    requires Typed(s) && Enabled(s, step) && Spoiled(s)
    ensures Spoiled(Apply(s, step)) || Apply(s, step).fault == BadText
  {
    hide Typed, Spoiled, ApplyUpdate, UpdateEnabled, Handle, Writer.Enabled;
    match step
    case Network(n) =>
      hide ApplyNetwork;
      if n.RunTask? {
        assert ApplyNetwork(s, n) == DoRunTask(s) by { RunTaskApplies(s); }
        SpoiledRuns(s);
      } else {
        NetworkGrows(s, n);
        SpoiledGrows(s, Apply(s, step));
      }
    case Database(d) => SpoiledGrows(s, Apply(s, step));
    case Update(u) => UpdateGrows(s, u); SpoiledGrows(s, Apply(s, step));
  }

  lemma RunTaskApplies(s: System)
    requires Typed(s) && NetworkEnabled(s, RunTask)
    ensures ApplyNetwork(s, RunTask) == DoRunTask(s)
  {
  }

  lemma BadKickSpoils(s: System, step: Step)
    requires Typed(s) && Enabled(s, step) && BadKick(s, step)
    ensures Spoiled(Apply(s, step))
  {
    hide WritersValid, ValidUtf8, FindMember, WithoutFirst;
    var found := FindMember(s.conns, s.sessions, step.u.name);
    var m := M.Message(M.SERVER_KICK_REQUEST, [], step.u.reason, step.u.now);
    assert Apply(s, step).tasks[|s.tasks|] == Send(found.value, m);
  }

  lemma {:induction false} SpoiledAt(tables: Tables, run: Run, bad: nat, k: nat)
    requires IsRun(tables, run) && bad < k <= |run.steps| && BadKickAt(run, bad)
    ensures Spoiled(run.states[k]) || run.states[k].fault == BadText
    decreases k
  {
    hide Typed, Apply, Spoiled, BadKick, NetworkEnabled, DatabaseEnabled, UpdateEnabled;
    if k == bad + 1 {
      assert StepAt(run, bad);
      BadKickSpoils(run.states[bad], run.steps[bad]);
    } else {
      SpoiledAt(tables, run, bad, k - 1);
      assert StepAt(run, k - 1);
      SpoiledStep(run.states[k - 1], run.steps[k - 1]);
    }
  }

  lemma RestNotSpoiled(s: System)
    requires AtRest(s) && s.fault == NoFault
    ensures !Spoiled(s)
  {
    hide Writer.Enabled;
    assert !Enabled(s, Network(PushJoin)) && !Enabled(s, Network(RunTask));
  }

  /**
   * A run that comes to rest without another fault has met a text that cannot be written if and only if a member
   * was kicked with a reason that is not UTF-8.
   */
  lemma BadTextExactly(tables: Tables, run: Run)
    requires IsRun(tables, run) && (forall k :: 0 <= k < |run.steps| ==> ParsedAt(run, k))
    requires AtRest(run.states[|run.steps|])
    requires run.states[|run.steps|].fault == NoFault || run.states[|run.steps|].fault == BadText
    ensures run.states[|run.steps|].fault == BadText <==> exists k :: 0 <= k < |run.steps| && BadKickAt(run, k)
  {
    hide StepAt, ParsedAt, BadKickAt, AtRest, Spoiled, TextsOk;
    var last := run.states[|run.steps|];
    if k :| 0 <= k < |run.steps| && BadKickAt(run, k) {
      SpoiledAt(tables, run, k, |run.steps|);
      if last.fault == NoFault {
        RestNotSpoiled(last);
      }
    } else {
      BadTextUnreachable(tables, run, |run.steps|);
    }
  }
}
