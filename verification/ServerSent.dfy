/** What every step sends to every session, word by word, and where the rejections of a run come from. */
module ServerSent {
  import opened Bytes
  import opened Common
  import opened Json
  import opened User
  import opened Store
  import opened ServerSystem
  import opened ServerInvariants
  import opened ServerProof
  import opened ServerUpdateProof
  import opened ServerRuns
  import opened ServerHypotheses
  import opened ServerAnswers
  import opened ServerClashes
  import opened ServerOrder
  import M = Message
  import PasswordHasher
  import Picture
  import Writer
  import ServerStore
  import StoreRuns

  // ----- one step -----

  /** What the update thread's step sends to the session. */
  function SentByUpdate(s: System, step: UpdateStep, sid: Sid): seq<M.Message>
    requires Typed(s) && UpdateEnabled(s, step)
  {
    match step
    case Welcome(now) =>
      if s.upd.sid != sid then []
      else [M.Message(M.LOGIN_RESPONSE_ACCEPT, [], Ascii("Successfully connected to the server"), now)]
    case Reject(now) =>
      if s.upd.sid != sid then [] else [M.Message(M.LOGIN_RESPONSE_REJECT, [], s.upd.reason, now)]
    case SendPicture(now) =>
      var r := s.upd.response;
      if FindMember(s.conns, s.sessions, r.recipient) != Some(sid) || Picture.Content(r.message).None? then []
      else [M.Message(M.PROFILE_PICTURE, r.username, Picture.Content(r.message).value, now)]
    case Broadcast => if sid in s.sessions then [s.upd.message] else []
    case Kick(name, reason, now) =>
      if FindMember(s.conns, s.sessions, name) != Some(sid) then []
      else [M.Message(M.SERVER_KICK_REQUEST, [], reason, now)]
    case _ => []
  }

  function SentBy(s: System, step: Step, sid: Sid): seq<M.Message>
    requires Typed(s) && (step.Update? ==> UpdateEnabled(s, step.u))
  {
    if step.Update? then SentByUpdate(s, step.u, sid) else []
  }

  /** The session's log grows by these messages. */
  ghost predicate LogGrows(s: System, r: System, sid: Sid, sent: seq<M.Message>) {
    sid in s.logs && sid in r.logs && r.logs[sid] == s.logs[sid] + sent
  }

  lemma PostGrows(s: System, x: Sid, m: M.Message, sid: Sid)
    requires x in s.logs && sid in s.logs
    ensures LogGrows(s, Post(s, x, m), sid, if x == sid then [m] else [])
  {
  }

  lemma AnswerSent(s: System, now: M.Int64, sid: Sid)
    requires Typed(s) && sid in s.logs
    ensures s.upd.Welcoming? ==> LogGrows(s, DoWelcome(s, now), sid, SentByUpdate(s, Welcome(now), sid))
    ensures s.upd.Rejecting? ==> LogGrows(s, DoReject(s, now), sid, SentByUpdate(s, Reject(now), sid))
  {
    hide Typed, Ascii;
    HolderLogged(s);
    if s.upd.Welcoming? {
      PostGrows(s, s.upd.sid, M.Message(M.LOGIN_RESPONSE_ACCEPT, [], WelcomeText(), now), sid);
    } else if s.upd.Rejecting? {
      PostGrows(s, s.upd.sid, M.Message(M.LOGIN_RESPONSE_REJECT, [], s.upd.reason, now), sid);
    }
  }

  lemma PictureSent(s: System, now: M.Int64, sid: Sid)
    requires Typed(s) && s.upd.Picturing? && sid in s.logs
    ensures LogGrows(s, DoSendPicture(s, now), sid, SentByUpdate(s, SendPicture(now), sid))
  {
    hide Typed, FindMember, Picture.Content;
    FoundLogged(s, s.upd.response.recipient);
    Picture.PictureRoundTrip(s.upd.response.message);
    var found := FindMember(s.conns, s.sessions, s.upd.response.recipient);
    if found.Some? {
      PostGrows(s, found.value, PictureMessage(s.upd.response, now), sid);
    }
  }

  lemma KickSent(s: System, name: Text, reason: Text, now: M.Int64, sid: Sid)
    requires Typed(s) && s.upd.Idle? && sid in s.logs
    ensures LogGrows(s, DoKick(s, name, reason, now), sid, SentByUpdate(s, Kick(name, reason, now), sid))
  {
    hide Typed, FindMember, WithoutFirst;
    FoundLogged(s, name);
    var found := FindMember(s.conns, s.sessions, name);
    if found.Some? {
      PostGrows(s, found.value, M.Message(M.SERVER_KICK_REQUEST, [], reason, now), sid);
    }
  }

  lemma BroadcastSent(s: System, sid: Sid)
    requires Typed(s) && s.upd.Broadcasting? && Once(s) && sid in s.logs
    ensures LogGrows(s, DoBroadcast(s), sid, SentByUpdate(s, Broadcast, sid))
  {
    hide Typed, PostAll, Distinct;
    MembersLogged(s);
    PostAllFrame(s, s.sessions, s.upd.message);
    PostAllLogs(s, s.sessions, s.upd.message);
  }

  lemma UpdateSent(s: System, step: UpdateStep, sid: Sid)
    requires Typed(s) && UpdateEnabled(s, step) && Once(s) && sid in s.logs
    ensures LogGrows(s, ApplyUpdate(s, step), sid, SentByUpdate(s, step, sid))
  {
    hide Typed, Once, DoPopResponse, DoFindPending, DoCheckConnected, DoWelcome, DoReject, DoSendPicture,
      DoPopMessage, DoBroadcast, DoKick, Lookups, FindMember, Picture.Content, Ascii;
    match step
    case PopResponse => OtherChats(s, sid);
    case FindPending => OtherChats(s, sid);
    case CheckConnected => OtherChats(s, sid);
    case Accept =>
    case Welcome(now) => AnswerSent(s, now, sid);
    case Reject(now) => AnswerSent(s, now, sid);
    case Drop =>
    case SendPicture(now) => PictureSent(s, now, sid);
    case PopMessage => OtherChats(s, sid);
    case Broadcast => BroadcastSent(s, sid);
    case SaveBroadcast =>
    case NextFrame =>
    case Kick(name, reason, now) => KickSent(s, name, reason, now, sid);
  }

  lemma NetworkSent(s: System, step: NetworkStep, sid: Sid)
    requires Typed(s) && NetworkEnabled(s, step) && sid in s.conns && sid in s.logs
    ensures LogGrows(s, ApplyNetwork(s, step), sid, [])
  {
    hide Typed, DoReceive, DoRunTask, Writer.Enabled, Writer.Apply;
    match step
    case Connect(x) => assert x != sid;
    case Receive(x, m) => ReceiveIs(s, x, m);
    case PushJoin =>
    case EndOfFile(_) =>
    case RunTask => RunTaskFrame(s);
    case Written(_, _) =>
  }

  lemma DatabaseSent(s: System, step: DatabaseStep, sid: Sid)
    requires DatabaseEnabled(s, step) && sid in s.logs
    ensures LogGrows(s, ApplyDatabase(s, step), sid, [])
  {
    hide Handle;
  }

  /** Every step adds to every session's log exactly what is said above, so nothing to most of them. */
  lemma SentStep(s: System, step: Step, sid: Sid)
    requires Typed(s) && Enabled(s, step) && Once(s) && sid in s.conns && sid in s.logs
    ensures sid in Apply(s, step).logs && Apply(s, step).logs[sid] == s.logs[sid] + SentBy(s, step, sid)
  {
    hide Typed, Once, Handle, ApplyNetwork, ApplyDatabase, ApplyUpdate, NetworkEnabled, UpdateEnabled, SentByUpdate;
    match step
    case Network(n) => NetworkSent(s, n, sid);
    case Database(d) => DatabaseSent(s, d, sid);
    case Update(u) => UpdateSent(s, u, sid);
  }

  // ----- how the update thread comes to reject -----

  /** The two bad answers to a join, and the two good ones. */
  predicate Failed(r: Response) { r.kind.LOGIN_FAIL? || r.kind.REGISTER_FAIL? }

  predicate Succeeded(r: Response) { r.kind.LOGIN_SUCCESS? || r.kind.REGISTER_SUCCESS? }

  /** Why a join is rejected that was answered so. */
  function ReasonFor(r: Response): Text {
    if Succeeded(r) then Ascii("User is already connected") else r.message
  }

  lemma NetworkUpd(s: System, step: NetworkStep)
    requires Typed(s) && NetworkEnabled(s, step)
    ensures ApplyNetwork(s, step).upd == s.upd
  {
    hide Typed, DoReceive, DoRunTask, Writer.Enabled, Writer.Apply;
    match step
    case Receive(x, m) => ReceiveIs(s, x, m);
    case RunTask => RunTaskFrame(s);
    case _ =>
  }

  /** The update thread is neither looking for a session nor about to reject one. */
  predicate Elsewhere(u: UpdateThread) { !u.Joining? && !u.Found? && !u.Rejecting? }

  lemma SendingElsewhere(s: System, now: M.Int64)
    requires Typed(s)
    ensures s.upd.Welcoming? ==> Elsewhere(DoWelcome(s, now).upd)
    ensures s.upd.Rejecting? ==> Elsewhere(DoReject(s, now).upd)
    ensures s.upd.Picturing? ==> Elsewhere(DoSendPicture(s, now).upd)
    ensures s.upd.Broadcasting? ==> Elsewhere(DoBroadcast(s).upd)
    ensures Elsewhere(DoPopMessage(s).upd)
  {
    hide Typed, PostAll, FindMember, PictureMessage, WelcomeText;
    if s.upd.Broadcasting? {
      MembersLogged(s);
    }
  }

  lemma KickElsewhere(s: System, name: Text, reason: Text, now: M.Int64)
    requires Typed(s) && s.upd.Idle?
    ensures Elsewhere(DoKick(s, name, reason, now).upd)
  {
    hide Typed, FindMember, WithoutFirst;
  }

  lemma FoundConnected(s: System)
    requires Typed(s) && s.upd.Found?
    ensures s.upd.sid in s.conns
  {
  }

  lemma CheckRejects(s: System)
    requires Typed(s) && s.upd.Found? && (Succeeded(s.upd.response) || Failed(s.upd.response))
    ensures DoCheckConnected(s).upd.Rejecting? ==>
              DoCheckConnected(s).upd == Rejecting(s.upd.sid, ReasonFor(s.upd.response))
  {
    hide Typed, DoCheckConnected, Ascii;
    FoundConnected(s);
    AcceptedExactly(s);
  }

  /** Where the update thread stands, and for what response. */
  predicate Decides(s: System, step: Step, r: System) {
    && (r.upd.Joining? && r.upd != s.upd ==>
          && step == Update(PopResponse) && s.responses != [] && r.upd == Joining(s.responses[0])
          && !s.responses[0].kind.USER_PROFILE_PICTURE?)
    && (r.upd.Found? && r.upd != s.upd ==>
          && step == Update(FindPending) && s.upd.Joining? && s.upd.response.username in s.pending
          && r.upd == Found(s.pending[s.upd.response.username], s.upd.response))
    && (r.upd.Rejecting? && r.upd != s.upd ==>
          && step == Update(CheckConnected) && s.upd.Found?
          && r.upd == Rejecting(s.upd.sid, ReasonFor(s.upd.response)))
  }

  lemma UpdateDecides(s: System, step: UpdateStep)
    requires Typed(s) && UpdateEnabled(s, step)
    requires s.upd.Found? ==> Succeeded(s.upd.response) || Failed(s.upd.response)
    ensures Decides(s, Update(step), ApplyUpdate(s, step))
  {
    hide Typed, DoCheckConnected, DoAccept, DoWelcome, DoReject, DoSendPicture, DoPopMessage, DoBroadcast, DoKick,
      ReasonFor;
    match step
    case CheckConnected => CheckConnectedIs(s); CheckRejects(s);
    case Accept => assert Elsewhere(DoAccept(s).upd) by { AcceptElsewhere(s); }
    case Welcome(now) => SendingElsewhere(s, now);
    case Reject(now) => SendingElsewhere(s, now);
    case SendPicture(now) => SendingElsewhere(s, now);
    case PopMessage => SendingElsewhere(s, 0);
    case Broadcast => SendingElsewhere(s, 0);
    case Kick(name, reason, now) => KickElsewhere(s, name, reason, now);
    case _ =>
  }

  lemma AcceptElsewhere(s: System)
    requires Typed(s) && s.upd.Accepting?
    ensures Elsewhere(DoAccept(s).upd)
  {
    hide Typed, Lookups;
  }

  lemma StepDecides(s: System, step: Step)
    requires Typed(s) && Enabled(s, step)
    requires s.upd.Found? ==> Succeeded(s.upd.response) || Failed(s.upd.response)
    ensures Decides(s, step, Apply(s, step))
  {
    hide Typed, Handle, ApplyNetwork, ApplyUpdate, NetworkEnabled, UpdateEnabled;
    match step
    case Network(n) => NetworkUpd(s, n);
    case Database(_) =>
    case Update(u) => UpdateDecides(s, u);
  }

  // ----- every run -----

  /** At this step a response was taken from the queue, about a join. */
  ghost predicate PoppedAt(run: Run, j: nat, r: Response) {
    && j < |run.steps| < |run.states| && run.steps[j] == Update(PopResponse)
    && run.states[j].responses != [] && run.states[j].responses[0] == r && !r.kind.USER_PROFILE_PICTURE?
  }

  /** At this step the session was found under the response's name. */
  ghost predicate FoundAt(run: Run, i: nat, sid: Sid, r: Response) {
    && i < |run.steps| < |run.states| && run.steps[i] == Update(FindPending)
    && run.states[i].upd == Joining(r) && r.username in run.states[i].pending
    && run.states[i].pending[r.username] == sid
  }

  /** What the update thread holds, it has from such steps. */
  ghost predicate FromSteps(run: Run, k: nat)
    requires k <= |run.steps| < |run.states|
  {
    var u := run.states[k].upd;
    && (u.Joining? ==> exists j: nat :: j < k && PoppedAt(run, j, u.response))
    && (u.Found? ==> exists i: nat :: i < k && FoundAt(run, i, u.sid, u.response))
    && (u.Found? ==> exists j: nat :: j < k && PoppedAt(run, j, u.response))
    && (u.Rejecting? ==> RejectFrom(run, k, u.sid, u.reason))
  }

  /** For this session one of the first steps found a response with this reason, which had been taken before. */
  ghost predicate RejectFrom(run: Run, k: nat, sid: Sid, reason: Text) {
    exists i: nat, j: nat, r: Response ::
      j < k && i < k && PoppedAt(run, j, r) && FoundAt(run, i, sid, r) && reason == ReasonFor(r)
  }

  lemma RejectFromMore(run: Run, k: nat, sid: Sid, reason: Text)
    requires RejectFrom(run, k, sid, reason)
    ensures RejectFrom(run, k + 1, sid, reason)
  {
    hide PoppedAt, FoundAt, ReasonFor;
  }

  lemma {:induction false} FromStepsAt(tables: Tables, run: Run, k: nat)
    requires IsRun(tables, run) && k <= |run.steps|
    ensures FromSteps(run, k)
  {
    hide Typed, Enabled, Apply, RejectFrom, ReasonFor;
    if k > 0 {
      var p, last, s := run.states[k - 1], run.steps[k - 1], run.states[k];
      FromStepsAt(tables, run, k - 1);
      assert StepAt(run, k - 1);
      StepDecides(p, last);
      FromStepsNext(run, k - 1);
    }
  }

  lemma FromStepsNext(run: Run, k: nat)
    requires k < |run.steps| < |run.states| && FromSteps(run, k)
    requires Decides(run.states[k], run.steps[k], run.states[k + 1])
    ensures FromSteps(run, k + 1)
  {
    hide ReasonFor, RejectFrom;
    var s, r := run.states[k], run.states[k + 1];
    if r.upd.Joining? && r.upd != s.upd {
      assert PoppedAt(run, k, r.upd.response);
    }
    if r.upd.Found? && r.upd != s.upd {
      assert FoundAt(run, k, r.upd.sid, r.upd.response);
    }
    if r.upd.Rejecting? {
      if r.upd == s.upd {
        RejectFromMore(run, k, r.upd.sid, r.upd.reason);
      } else {
        var i: nat :| i < k && FoundAt(run, i, s.upd.sid, s.upd.response);
        var j: nat :| j < k && PoppedAt(run, j, s.upd.response);
        RejectFromIs(run, k + 1, i, j, s.upd.sid, s.upd.response);
      }
    }
  }

  lemma RejectFromIs(run: Run, k: nat, i: nat, j: nat, sid: Sid, r: Response)
    requires j < k && i < k && PoppedAt(run, j, r) && FoundAt(run, i, sid, r)
    ensures RejectFrom(run, k, sid, ReasonFor(r))
  {
    hide PoppedAt, FoundAt, ReasonFor;
  }

  /** A rejection in a log: it names no sender, and its content has such an origin. */
  ghost predicate Explained(run: Run, k: nat, sid: Sid, m: M.Message) {
    m.command == M.LOGIN_RESPONSE_REJECT ==> m.senderName == [] && RejectFrom(run, k, sid, m.content)
  }

  lemma SentExplained(tables: Tables, run: Run, k: nat, sid: Sid)
    requires IsRun(tables, run) && k < |run.steps| && sid in run.states[k].conns
    requires Typed(run.states[k]) && Enabled(run.states[k], run.steps[k])
    ensures forall i :: 0 <= i < |SentBy(run.states[k], run.steps[k], sid)| ==>
              Explained(run, k, sid, SentBy(run.states[k], run.steps[k], sid)[i])
  {
    hide Typed, StepAt, RejectFrom, Ascii, FindMember, Picture.Content;
    FromStepsAt(tables, run, k);
    BroadcastsChat(tables, run, k);
  }

  /**
   * In every run, whatever the clients do: each rejection a session has been sent has an empty sender, and its content
   * is "User is already connected" if the response found under the session's pending name was a success, and
   * otherwise the message of that response.
   */
  lemma {:induction false} RejectsExplained(tables: Tables, run: Run, k: nat, sid: Sid)
    requires IsRun(tables, run) && k <= |run.steps| && sid in run.states[k].conns
    ensures sid in run.states[k].logs
    ensures forall i :: 0 <= i < |run.states[k].logs[sid]| ==> Explained(run, k, sid, run.states[k].logs[sid][i])
  {
    hide Typed, Apply, Once, NetworkEnabled, DatabaseEnabled, UpdateEnabled, RejectFrom, SentByUpdate;
    if k > 0 {
      var p, last := run.states[k - 1], run.steps[k - 1];
      assert StepAt(run, k - 1);
      if sid in p.conns {
        RejectsExplained(tables, run, k - 1, sid);
        OnceAt(tables, run, k - 1);
        SentStep(p, last, sid);
        SentExplained(tables, run, k - 1, sid);
        ExplainedMore(run, k - 1, sid, run.states[k].logs[sid]);
      } else {
        OnlyConnects(p, last, sid);
      }
    }
  }

  lemma ExplainedMore(run: Run, k: nat, sid: Sid, log: seq<M.Message>)
    requires forall i :: 0 <= i < |log| ==> Explained(run, k, sid, log[i])
    ensures forall i :: 0 <= i < |log| ==> Explained(run, k + 1, sid, log[i])
  {
    hide RejectFrom;
    forall i | 0 <= i < |log| && log[i].command == M.LOGIN_RESPONSE_REJECT
      ensures RejectFrom(run, k + 1, sid, log[i].content)
    {
      assert Explained(run, k, sid, log[i]);
      RejectFromMore(run, k, sid, log[i].content);
    }
  }

  // ----- the words of the database -----

  /** What a login is answered with, in words. */
  lemma LoginTexts(t: Tables, user: User)
    ensures var name := CStr(user.username);
      HandleLogin(t, user).responses ==
        if GetUserId(t, user).None? then
          [Response(name, Ascii("User ") + user.username + Ascii(" could not be found"), [], LOGIN_FAIL)]
        else if Password(t.users, GetUserId(t, user).value) != Some(PasswordHasher.HashOf(CStr(user.password))) then
          [Response(name, Ascii("User ") + user.username + Ascii(" password does not match"), [], LOGIN_FAIL)]
        else [Response(name, [], [], LOGIN_SUCCESS)]
  {
    hide Ascii, CStr, GetUserId, Password, PasswordHasher.HashOf;
  }

  lemma RegisterTexts(t: Tables, user: User)
    ensures var name := CStr(user.username);
      HandleRegister(t, user).responses ==
        if GetUserId(t, user).None? then [Response(name, [], [], REGISTER_SUCCESS)]
        else [Response(name, Ascii("User ") + user.username + Ascii(" already exist"), [], REGISTER_FAIL)]
  {
    hide Ascii, CStr, GetUserId, AddUser;
  }

  /** One of the three reasons the database has, for the user of this name. */
  predicate IsReason(text: Text, name: Text) {
    || text == Ascii("User ") + name + Ascii(" could not be found")
    || text == Ascii("User ") + name + Ascii(" password does not match")
    || text == Ascii("User ") + name + Ascii(" already exist")
  }

  ghost predicate Reasoned(r: Response) {
    Failed(r) ==> exists name: Text :: IsReason(r.message, name) && CStr(name) == r.username
  }

  lemma HandleReasoned(t: Tables, request: Request)
    ensures forall i :: 0 <= i < |Handle(t, request).responses| ==> Reasoned(Handle(t, request).responses[i])
  {
    hide HandleLogin, HandleRegister, IsReason, CStr, GetUserId, Password, PasswordHasher.HashOf, Picture.Pixels,
         AddMessage, AddPicture, PictureContent;
    match request
    case Login(user) => LoginTexts(t, user); ReasonIs(user.username);
    case Register(user) => RegisterTexts(t, user); ReasonIs(user.username);
    case _ =>
  }

  lemma ReasonIs(name: Text)
    ensures IsReason(Ascii("User ") + name + Ascii(" could not be found"), name)
    ensures IsReason(Ascii("User ") + name + Ascii(" password does not match"), name)
    ensures IsReason(Ascii("User ") + name + Ascii(" already exist"), name)
  {
    hide Ascii;
  }

  ghost predicate AllReasoned(rs: seq<Response>) {
    forall i :: 0 <= i < |rs| ==> Reasoned(rs[i])
  }

  lemma MadeReasoned(s: System, step: Step)
    ensures AllReasoned(StoreRuns.HandleAll(s.tables, ServerStore.AnsweredBy(s, step)).responses)
  {
    hide Handle, Reasoned, StoreRuns.HandleAll;
    if step == Database(Answer) && s.db.DbWork? {
      HandleReasoned(s.tables, s.db.request);
      ServerStore.HandleOne(s.tables, s.db.request);
    } else {
      ServerStore.NothingHandled(s.tables);
    }
  }

  lemma ReasonedQueue(popped: seq<Response>, r: seq<Response>, was: seq<Response>, made: seq<Response>)
    requires popped + r == was + made && AllReasoned(was) && AllReasoned(made)
    ensures AllReasoned(r)
  {
    hide Reasoned;
    assert AllReasoned(was + made);
    assert forall i :: 0 <= i < |r| ==> r[i] == (popped + r)[|popped| + i];
  }

  lemma ReasonedStep(s: System, step: Step)
    requires Typed(s) && Enabled(s, step) && AllReasoned(s.responses)
    ensures AllReasoned(Apply(s, step).responses)
  {
    hide Typed, Apply, Enabled, AllReasoned, StoreRuns.HandleAll, ServerStore.AnsweredBy, ServerStore.PoppedBy;
    MadeReasoned(s, step);
    ServerStore.StoreStep(s, step);
    ReasonedQueue(ServerStore.PoppedBy(s, step), Apply(s, step).responses, s.responses,
                  StoreRuns.HandleAll(s.tables, ServerStore.AnsweredBy(s, step)).responses);
  }

  lemma {:induction false} ReasonedAt(tables: Tables, run: Run, k: nat)
    requires IsRun(tables, run) && k <= |run.steps|
    ensures AllReasoned(run.states[k].responses)
  {
    hide Typed, Enabled, Apply, Reasoned;
    if k > 0 {
      ReasonedAt(tables, run, k - 1);
      assert StepAt(run, k - 1);
      ReasonedStep(run.states[k - 1], run.steps[k - 1]);
    }
  }

  /** Every rejection in every log of every run says one of four things. */
  lemma RejectTexts(tables: Tables, run: Run, k: nat, sid: Sid, i: nat)
    requires IsRun(tables, run) && k <= |run.steps| && sid in run.states[k].conns && sid in run.states[k].logs
    requires i < |run.states[k].logs[sid]| && run.states[k].logs[sid][i].command == M.LOGIN_RESPONSE_REJECT
    ensures var content := run.states[k].logs[sid][i].content;
      || content == Ascii("User is already connected")
      || (exists name: Text :: IsReason(content, name))
  {
    hide StepAt, IsReason, FoundAt, Ascii;
    RejectsExplained(tables, run, k, sid);
    var content := run.states[k].logs[sid][i].content;
    assert Explained(run, k, sid, run.states[k].logs[sid][i]);
    var f: nat, j: nat, r: Response :| j < k && f < k && PoppedAt(run, j, r) && FoundAt(run, f, sid, r)
      && content == ReasonFor(r);
    ReasonedAt(tables, run, j);
    if !Succeeded(r) {
      assert Reasoned(r);
    }
  }
}
