/**
 * Where a session stands: one that was accepted and is still read from is a member, and one that was rejected or
 * kicked has its disconnect asked for.
 */
module ServerStanding {
  import opened Bytes
  import opened Store
  import opened ServerSystem
  import opened ServerInvariants
  import opened ServerProof
  import opened ServerUpdateProof
  import opened ServerRuns
  import opened ServerHypotheses
  import M = Message
  import Writer

  ghost predicate Stands(reading: bool, log: seq<M.Message>, member: bool, u: UpdateThread, tasks: seq<Task>,
                         closing: bool, sid: Sid) {
    && (Ended(log) && u != Dropping(sid) ==> ClosePosted(tasks, sid) || closing)
    && (reading && (Open(log) || u == Welcoming(sid)) ==> member)
  }

  ghost predicate StandsAt(s: System, sid: Sid) {
    && sid in s.conns && sid in s.logs && sid in s.writers
    && Stands(s.conns[sid].reading, s.logs[sid], sid in s.sessions, s.upd, s.tasks, s.writers[sid].closing, sid)
  }

  ghost predicate Standing(s: System) {
    forall sid :: sid in s.conns ==> StandsAt(s, sid)
  }

  lemma StandsHere(s: System, sid: Sid)
    requires Standing(s) && sid in s.conns
    ensures StandsAt(s, sid)
  {
  }

  // ----- steps that send nothing and change no member -----

  predicate Settling(u: UpdateThread) { u.Dropping? || u.Welcoming? }

  ghost predicate Unmoved(s: System, r: System) {
    && r.logs == s.logs && r.writers == s.writers && r.tasks == s.tasks && r.sessions == s.sessions
    && (r.upd == s.upd || (!Settling(s.upd) && !Settling(r.upd)))
    && r.conns.Keys == s.conns.Keys
    && (forall x :: x in r.conns && x in s.conns ==> r.conns[x].reading == s.conns[x].reading)
  }

  lemma UnmovedStanding(s: System, r: System)
    requires Standing(s) && Unmoved(s, r)
    ensures Standing(r)
  {
    hide Open, Ended, ClosePosted;
    forall x | x in r.conns
      ensures StandsAt(r, x)
    {
      assert x in s.conns && StandsAt(s, x);
    }
  }

  lemma ReceiveUnmoved(s: System, sid: Sid, m: M.Message)
    requires sid in s.conns
    ensures Unmoved(s, DoReceive(s, sid, m))
  {
    hide CStr, DoReceive;
    ReceiveIs(s, sid, m);
    assert DoReceive(s, sid, m).conns.Keys == s.conns.Keys;
  }

  lemma MoveUnmoved(s: System)
    ensures s.net.NetJoin? ==> Unmoved(s, DoPushJoin(s))
    ensures s.requests != [] ==> Unmoved(s, DoTakeRequest(s))
    ensures s.db.DbWork? ==> Unmoved(s, DoAnswer(s))
  {
    hide Handle;
  }

  lemma PopResponseUnmoved(s: System)
    requires s.upd.Responses?
    ensures Unmoved(s, DoPopResponse(s))
  {
  }

  lemma PopMessageUnmoved(s: System)
    requires s.upd.Inbox?
    ensures Unmoved(s, DoPopMessage(s))
  {
  }

  lemma SaveUnmoved(s: System)
    requires s.upd.Saving?
    ensures Unmoved(s, DoSaveBroadcast(s))
  {
  }

  lemma NextFrameUnmoved(s: System)
    requires s.upd.Idle?
    ensures Unmoved(s, s.(upd := Responses))
  {
  }

  lemma FindUnmoved(s: System)
    requires s.upd.Joining?
    ensures Unmoved(s, DoFindPending(s))
  {
  }

  lemma CheckUnmoved(s: System)
    requires Typed(s) && s.upd.Found?
    ensures Unmoved(s, DoCheckConnected(s))
  {
    hide WritersValid, AllIn, FindMember, ConnectedReason;
  }

  // ----- the network thread -----

  lemma ConnectStanding(s: System, sid: Sid)
    requires Typed(s) && Standing(s) && sid !in s.conns
    ensures Standing(DoConnect(s, sid))
  {
    hide Stands, WritersValid, Writer.Valid;
    var r := DoConnect(s, sid);
    assert sid !in s.sessions && s.upd != Welcoming(sid);
    NewStands(s.upd, s.tasks, sid);
    forall x | x in r.conns
      ensures StandsAt(r, x)
    {
      if x != sid {
        assert x in s.conns && StandsAt(s, x);
        ConnectOther(s, sid, x);
      }
    }
  }

  lemma ConnectOther(s: System, sid: Sid, x: Sid)
    requires StandsAt(s, x) && x != sid
    ensures StandsAt(DoConnect(s, sid), x)
  {
    hide Stands;
  }

  lemma NewStands(u: UpdateThread, tasks: seq<Task>, sid: Sid)
    requires u != Welcoming(sid)
    ensures Stands(true, [], false, u, tasks, false, sid)
  {
  }

  lemma EndOfFileStanding(s: System, sid: Sid)
    requires Typed(s) && Standing(s) && sid in s.conns
    ensures Standing(DoEndOfFile(s, sid))
  {
    hide Open, Ended, ClosePosted, WritersValid;
    var r := DoEndOfFile(s, sid);
    forall x | x in r.conns
      ensures StandsAt(r, x)
    {
      assert x in s.conns && StandsAt(s, x);
    }
  }

  lemma TakenClose(tasks: seq<Task>, sid: Sid)
    requires tasks != [] && ClosePosted(tasks, sid)
    ensures tasks[0] == Close(sid) || ClosePosted(tasks[1..], sid)
  {
    var i :| 0 <= i < |tasks| && tasks[i] == Close(sid);
    if i > 0 {
      assert tasks[1..][i - 1] == Close(sid);
    }
  }

  lemma RunTaskClosing(s: System, x: Sid)
    requires Typed(s) && s.tasks != [] && x in s.writers && DoRunTask(s).fault == NoFault
    ensures x in DoRunTask(s).writers
    ensures DoRunTask(s).writers[x].closing == (s.writers[x].closing || s.tasks[0] == Close(x))
    ensures DoRunTask(s).tasks == s.tasks[1..]
  {
    hide Writer.Apply, Writer.Valid, M.Serialize;
    var sid := s.tasks[0].sid;
    match s.tasks[0]
    case Send(_, m) => Writer.StepFacts(s.writers[sid], Writer.Post(m), false);
    case Close(_) => Writer.StepFacts(s.writers[sid], Writer.AskClose, false);
  }

  lemma RunTaskStanding(s: System)
    requires Typed(s) && Standing(s) && s.tasks != [] && DoRunTask(s).fault == NoFault
    ensures Standing(DoRunTask(s))
  {
    hide Open, Ended, ClosePosted, Typed, DoRunTask;
    var r := DoRunTask(s);
    RunTaskFrame(s);
    forall x | x in r.conns
      ensures StandsAt(r, x)
    {
      assert StandsAt(s, x);
      RunTaskClosing(s, x);
      if ClosePosted(s.tasks, x) {
        TakenClose(s.tasks, x);
      }
    }
  }

  lemma WrittenStanding(s: System, sid: Sid, ok: bool)
    requires Typed(s) && Standing(s) && sid in s.conns && Writer.Enabled(s.writers[sid], Writer.Done(ok))
    ensures Standing(DoWrite(s, sid, Writer.Done(ok)))
  {
    hide Open, Ended, ClosePosted, Writer.Apply, Writer.Valid, Writer.Enabled;
    var r := DoWrite(s, sid, Writer.Done(ok));
    Writer.StepFacts(s.writers[sid], Writer.Done(ok), false);
    forall x | x in r.conns
      ensures StandsAt(r, x)
    {
      assert StandsAt(s, x);
    }
  }

  // ----- the update thread -----

  lemma StillPosted(tasks: seq<Task>, more: seq<Task>, sid: Sid)
    requires ClosePosted(tasks, sid)
    ensures ClosePosted(tasks + more, sid)
  {
    var i :| 0 <= i < |tasks| && tasks[i] == Close(sid);
    assert (tasks + more)[i] == Close(sid);
  }

  lemma JustPosted(tasks: seq<Task>, sid: Sid)
    ensures ClosePosted(tasks + [Close(sid)], sid)
  {
    assert (tasks + [Close(sid)])[|tasks|] == Close(sid);
  }

  /** Only one session's log, membership or thread state changes; the tasks grow. */
  ghost predicate OthersStay(s: System, r: System, sid: Sid, more: seq<Task>) {
    && r.conns == s.conns && r.writers == s.writers && r.logs.Keys == s.logs.Keys && r.tasks == s.tasks + more
    && (forall x :: x in s.logs && x != sid ==> r.logs[x] == s.logs[x])
    && (forall x :: x != sid ==> (x in r.sessions <==> x in s.sessions))
    && HoldsAtMost(s.upd, sid) && HoldsAtMost(r.upd, sid)
  }

  lemma OneMoved(s: System, r: System, sid: Sid, more: seq<Task>)
    requires Standing(s) && OthersStay(s, r, sid, more) && StandsAt(r, sid)
    ensures Standing(r)
  {
    hide Open, Ended, ClosePosted;
    forall x | x in r.conns
      ensures StandsAt(r, x)
    {
      if x != sid {
        assert StandsAt(s, x);
        if ClosePosted(s.tasks, x) {
          StillPosted(s.tasks, more, x);
        }
      }
    }
  }

  lemma SentStanding(s: System, sid: Sid, m: M.Message, u: UpdateThread)
    requires Standing(s) && sid in s.conns && sid in s.logs && sid in s.writers
    requires HoldsAtMost(s.upd, sid) && HoldsAtMost(u, sid)
    requires Stands(s.conns[sid].reading, s.logs[sid] + [m], sid in s.sessions, u, s.tasks + [Send(sid, m)],
                    s.writers[sid].closing, sid)
    ensures Standing(Sent(s, sid, m, u))
  {
    hide Stands;
    OneMoved(s, Sent(s, sid, m, u), sid, [Send(sid, m)]);
  }

  lemma AcceptStanding(s: System)
    requires Typed(s) && Sound(s) && Standing(s) && s.upd.Accepting?
    ensures Standing(DoAccept(s))
  {
    hide Standing, Pipeline, Members, Segments, OnlyChats, Channels, Flight, Legal, Open, Ended, ClosePosted,
      WritersValid, AllIn, Lookups, Waiting;
    var sid := s.upd.sid;
    assert PhaseAt(s, sid);
    StandsHere(s, sid);
    OpenNotEnded([]);
    assert s.tasks + [] == s.tasks;
    OneMoved(s, DoAccept(s), sid, []);
  }

  lemma WelcomeStanding(s: System, now: M.Int64)
    requires Typed(s) && Sound(s) && Standing(s) && s.upd.Welcoming?
    ensures Standing(DoWelcome(s, now))
  {
    hide Standing, Pipeline, Members, Segments, OnlyChats, Channels, Flight, Legal, Open, Ended, ClosePosted,
      WritersValid, AllIn, Waiting, WelcomeText;
    var sid := s.upd.sid;
    var m := M.Message(M.LOGIN_RESPONSE_ACCEPT, [], WelcomeText(), now);
    assert PhaseAt(s, sid);
    StandsHere(s, sid);
    assert s.logs[sid] + [m] == [m];
    FirstMessage(m);
    OpenNotEnded([m]);
    SentStanding(s, sid, m, Responses);
  }

  lemma RejectStanding(s: System, now: M.Int64)
    requires Typed(s) && Sound(s) && Standing(s) && s.upd.Rejecting?
    ensures Standing(DoReject(s, now))
  {
    hide Standing, Pipeline, Members, Segments, OnlyChats, Channels, Flight, Legal, Open, Ended, ClosePosted,
      WritersValid, AllIn, Waiting;
    var sid := s.upd.sid;
    var m := M.Message(M.LOGIN_RESPONSE_REJECT, [], s.upd.reason, now);
    assert PhaseAt(s, sid);
    StandsHere(s, sid);
    assert s.logs[sid] + [m] == [m];
    FirstMessage(m);
    EndedNotOpen([m]);
    SentStanding(s, sid, m, Dropping(sid));
  }

  lemma EndedNotOpen(log: seq<M.Message>)
    requires Ended(log)
    ensures !Open(log)
  {
    hide Open, Ended;
    if Open(log) {
      OpenNotEnded(log);
    }
  }

  lemma DropStanding(s: System)
    requires Typed(s) && Sound(s) && Standing(s) && s.upd.Dropping?
    ensures Standing(DoDrop(s))
  {
    hide Standing, Pipeline, Members, Segments, OnlyChats, Channels, Flight, Legal, Open, Ended, ClosePosted,
      WritersValid, AllIn, Waiting;
    var sid := s.upd.sid;
    assert PhaseAt(s, sid);
    StandsHere(s, sid);
    EndedNotOpen(s.logs[sid]);
    JustPosted(s.tasks, sid);
    OneMoved(s, DoDrop(s), sid, [Close(sid)]);
  }

  lemma SendPictureStanding(s: System, now: M.Int64)
    requires Typed(s) && Sound(s) && Standing(s) && s.upd.Picturing?
    ensures Standing(DoSendPicture(s, now))
  {
    hide Standing, Pipeline, Members, Segments, OnlyChats, Channels, Flight, Legal, Open, Ended, ClosePosted,
      WritersValid, Phases, Waiting, PictureMessage, FindMember;
    var found := FindMember(s.conns, s.sessions, s.upd.response.recipient);
    if found.Some? {
      var sid := found.value;
      var m := PictureMessage(s.upd.response, now);
      PictureCommand(s.upd.response, now);
      MemberOpen(s, sid);
      StandsHere(s, sid);
      OpenGrows(s.logs[sid], m);
      OpenNotEnded(s.logs[sid] + [m]);
      SentStanding(s, sid, m, Responses);
    } else {
      UnmovedStanding(s, s.(upd := Responses));
    }
  }

  lemma KickStanding(s: System, name: Text, reason: Text, now: M.Int64)
    requires Typed(s) && Sound(s) && Standing(s) && s.upd.Idle?
    ensures Standing(DoKick(s, name, reason, now))
  {
    hide Standing, Pipeline, Members, Segments, OnlyChats, Channels, Flight, Legal, Open, Ended, ClosePosted,
      WritersValid, Phases, Waiting, FindMember;
    var found := FindMember(s.conns, s.sessions, name);
    if found.Some? {
      var sid := found.value;
      var m := M.Message(M.SERVER_KICK_REQUEST, [], reason, now);
      MemberOpen(s, sid);
      StandsHere(s, sid);
      OpenGrows(s.logs[sid], m);
      EndedNotOpen(s.logs[sid] + [m]);
      JustPosted(s.tasks + [Send(sid, m)], sid);
      assert s.tasks + [Send(sid, m)] + [Close(sid)] == s.tasks + [Send(sid, m), Close(sid)];
      OneMoved(s, DoKick(s, name, reason, now), sid, [Send(sid, m), Close(sid)]);
    } else {
      UnmovedStanding(s, s.(fault := UnknownKick));
    }
  }

  lemma BroadcastStanding(s: System)
    requires Typed(s) && Sound(s) && Standing(s) && s.upd.Broadcasting?
    ensures Standing(DoBroadcast(s))
  {
    hide Pipeline, Segments, Channels, Flight, Legal, Open, Ended, ClosePosted, WritersValid, Phases, Waiting, PostAll;
    var m, r := s.upd.message, DoBroadcast(s);
    PostAllFrame(s, s.sessions, m);
    PostAllLogs(s, s.sessions, m);
    forall x | x in r.conns
      ensures StandsAt(r, x)
    {
      assert StandsAt(s, x);
      if x in s.sessions {
        MemberOpen(s, x);
        OpenGrows(s.logs[x], m);
        OpenNotEnded(s.logs[x] + [m]);
      } else if ClosePosted(s.tasks, x) {
        StillPosted(s.tasks, r.tasks[|s.tasks|..], x);
        assert r.tasks == s.tasks + r.tasks[|s.tasks|..];
      }
    }
  }

  // ----- all the steps -----

  lemma StepStanding(s: System, step: Step)
    requires Typed(s) && Sound(s) && Standing(s) && Enabled(s, step) && Apply(s, step).fault == NoFault
    ensures Standing(Apply(s, step))
  {
    hide Typed, Sound, Standing, Unmoved, DoConnect, DoReceive, DoPushJoin, DoEndOfFile, DoRunTask, DoWrite,
      DoTakeRequest, DoAnswer, DoPopResponse, DoFindPending, DoCheckConnected, DoAccept, DoWelcome, DoReject, DoDrop,
      DoSendPicture, DoPopMessage, DoBroadcast, DoSaveBroadcast, DoKick, Writer.Enabled;
    match step
    case Network(Connect(sid)) => ConnectStanding(s, sid);
    case Network(Receive(sid, m)) => ReceiveUnmoved(s, sid, m); UnmovedStanding(s, Apply(s, step));
    case Network(PushJoin) => MoveUnmoved(s); UnmovedStanding(s, Apply(s, step));
    case Network(EndOfFile(sid)) => EndOfFileStanding(s, sid);
    case Network(RunTask) => RunTaskStanding(s);
    case Network(Written(sid, ok)) => WrittenStanding(s, sid, ok);
    case Database(_) => MoveUnmoved(s); UnmovedStanding(s, Apply(s, step));
    case Update(FindPending) => FindUnmoved(s); UnmovedStanding(s, Apply(s, step));
    case Update(CheckConnected) => CheckUnmoved(s); UnmovedStanding(s, Apply(s, step));
    case Update(Accept) => AcceptStanding(s);
    case Update(Welcome(now)) => WelcomeStanding(s, now);
    case Update(Reject(now)) => RejectStanding(s, now);
    case Update(Drop) => DropStanding(s);
    case Update(SendPicture(now)) => SendPictureStanding(s, now);
    case Update(Broadcast) => BroadcastStanding(s);
    case Update(Kick(name, reason, now)) => KickStanding(s, name, reason, now);
    case Update(PopResponse) => PopResponseUnmoved(s); UnmovedStanding(s, Apply(s, step));
    case Update(PopMessage) => PopMessageUnmoved(s); UnmovedStanding(s, Apply(s, step));
    case Update(SaveBroadcast) => SaveUnmoved(s); UnmovedStanding(s, Apply(s, step));
    case Update(NextFrame) => NextFrameUnmoved(s); UnmovedStanding(s, Apply(s, step));
  }

  // ----- every run -----

  lemma {:induction false} RunStanding(tables: Tables, run: Run, k: nat)
    requires IsBehavedRun(tables, run) && k <= |run.steps| && run.states[k].fault == NoFault
    ensures Standing(run.states[k])
  {
    hide Typed, Sound, Standing, Apply, WellBehaved;
    if k == 0 {
      NobodyStands(tables);
    } else {
      assert StepAt(run, k - 1) && BehavedAt(run, k - 1);
      RunStanding(tables, run, k - 1);
      RunInv(tables, run, k - 1);
      StepStanding(run.states[k - 1], run.steps[k - 1]);
    }
  }

  lemma NobodyStands(tables: Tables)
    ensures Standing(Initial(tables))
  {
  }

  /**
   * An accepted session that is still read from is a member, and has been sent every chat broadcast since its
   * acceptance.
   */
  lemma AcceptedHearsAll(tables: Tables, run: Run, k: nat, s: System, sid: Sid)
    requires Reached(tables, run, k, s) && sid in s.conns && sid in s.logs && sid in s.spans
    requires s.conns[sid].reading && Parse(s.logs[sid]) == Accepted
    ensures sid in s.sessions
    ensures s.spans[sid].from <= |s.broadcasts| && Chats(s.logs[sid]) == s.broadcasts[s.spans[sid].from..]
  {
    hide IsRun, Chats, Parse, Open, Ended, Legal, ClosePosted;
    ParseMeans(s.logs[sid]);
    RunStanding(tables, run, k);
    assert StandsAt(s, sid);
    TotalOrder(tables, run, k, s, sid);
    assert s.broadcasts[s.spans[sid].from..] == s.broadcasts[s.spans[sid].from..|s.broadcasts|];
  }

  /**
   * A session that was rejected or kicked is disconnected: once its tasks have run and its writes have succeeded,
   * its last message is written and its socket closed.
   */
  lemma EndedSessionsClose(tables: Tables, run: Run, k: nat, s: System, sid: Sid)
    requires Reached(tables, run, k, s) && sid in s.conns && sid in s.logs && sid in s.writers
    requires Parse(s.logs[sid]) == Finished && s.upd != Dropping(sid)
    requires forall i :: 0 <= i < |s.tasks| ==> s.tasks[i].sid != sid
    requires !s.writers[sid].inFlight && !s.writers[sid].failed
    ensures s.writers[sid].written == s.logs[sid] && !s.writers[sid].open
  {
    hide IsRun, Parse, Open, Ended, Legal, Flight, Pipeline, Phases, Members, Segments, OnlyChats, WritersValid, AllIn;
    ParseMeans(s.logs[sid]);
    RunStanding(tables, run, k);
    ReachedInv(tables, run, k, s);
    assert StandsAt(s, sid);
    NoSends(s.tasks, sid);
    assert Channel(s.writers[sid], s.logs[sid], s.tasks, sid);
  }

  // ----- members that are not read from -----

  predicate EndsAt(run: Run, i: nat, sid: Sid)
    requires i < |run.steps|
  {
    run.steps[i] == Network(EndOfFile(sid))
  }

  predicate AcceptsAt(run: Run, j: nat, sid: Sid)
    requires j < |run.steps| && |run.states| == |run.steps| + 1
  {
    run.steps[j] == Update(Accept) && run.states[j].upd == Accepting(sid)
  }

  lemma NetworkReading(s: System, step: NetworkStep, sid: Sid)
    requires Typed(s) && NetworkEnabled(s, step) && sid in ApplyNetwork(s, step).conns
    ensures ApplyNetwork(s, step).conns[sid].reading
       <==> (sid in s.conns ==> s.conns[sid].reading) && step != EndOfFile(sid)
  {
    hide Typed, DoReceive, DoRunTask, Writer.Enabled, Writer.Apply;
    match step
    case Connect(_) =>
    case Receive(x, m) => ReceiveUnmoved(s, x, m);
    case PushJoin =>
    case EndOfFile(_) =>
    case RunTask => RunTaskFrame(s);
    case Written(_, _) =>
  }

  /** Only its end of file stops a connection from being read. */
  lemma ReadingStep(s: System, step: Step, sid: Sid)
    requires Typed(s) && Enabled(s, step) && sid in Apply(s, step).conns
    ensures Apply(s, step).conns[sid].reading
       <==> (sid in s.conns ==> s.conns[sid].reading) && step != Network(EndOfFile(sid))
  {
    hide Typed, Handle, ApplyNetwork, ApplyUpdate, NetworkEnabled, UpdateEnabled;
    match step
    case Network(n) => NetworkReading(s, n, sid);
    case Database(_) =>
    case Update(u) => UpdateFrame(s, u);
  }

  lemma {:induction false} ReadingMeans(tables: Tables, run: Run, k: nat, sid: Sid)
    requires IsRun(tables, run) && k <= |run.steps|
    ensures sid in run.states[k].conns ==>
      (run.states[k].conns[sid].reading <==> forall i :: 0 <= i < k ==> !EndsAt(run, i, sid))
    ensures sid !in run.states[k].conns ==> forall i :: 0 <= i < k ==> !EndsAt(run, i, sid)
  {
    hide Typed, Apply, NetworkEnabled, DatabaseEnabled, UpdateEnabled;
    if k > 0 {
      var p, last := run.states[k - 1], run.steps[k - 1];
      ReadingMeans(tables, run, k - 1, sid);
      assert StepAt(run, k - 1);
      assert EndsAt(run, k - 1, sid) <==> last == Network(EndOfFile(sid));
      ConnsGrow(p, last);
      if sid in Apply(p, last).conns {
        ReadingStep(p, last, sid);
      }
      if sid !in p.conns {
        EndsConnected(p, last, sid);
      }
    }
  }

  lemma EndsConnected(s: System, step: Step, sid: Sid)
    requires Enabled(s, step) && sid !in s.conns
    ensures step != Network(EndOfFile(sid))
  {
    hide Writer.Enabled;
  }

  /** A member was one before, or is being accepted; its end of file ends that. */
  lemma MemberStep(s: System, step: Step, sid: Sid)
    requires Typed(s) && Enabled(s, step) && sid in Apply(s, step).sessions
    ensures (sid in s.sessions && step != Network(EndOfFile(sid)))
      || (step == Update(Accept) && s.upd == Accepting(sid))
  {
    hide Typed, Handle, ApplyNetwork, ApplyUpdate, NetworkEnabled;
    match step
    case Network(n) => NetworkKeepsMembers(s, n, sid);
    case Database(_) =>
    case Update(u) => UpdateKeepsMembers(s, u, sid);
  }

  lemma NetworkKeepsMembers(s: System, step: NetworkStep, sid: Sid)
    requires Typed(s) && NetworkEnabled(s, step) && sid in ApplyNetwork(s, step).sessions
    ensures sid in s.sessions && step != EndOfFile(sid)
  {
    hide Typed, DoReceive, DoRunTask, Writer.Enabled, Writer.Apply;
    match step
    case Connect(_) =>
    case Receive(x, m) => ReceiveUnmoved(s, x, m);
    case PushJoin =>
    case EndOfFile(_) =>
    case RunTask => RunTaskFrame(s);
    case Written(_, _) =>
  }

  lemma SendingKeepsMembers(s: System, now: M.Int64)
    requires Typed(s)
    ensures s.upd.Welcoming? ==> DoWelcome(s, now).sessions == s.sessions
    ensures s.upd.Rejecting? ==> DoReject(s, now).sessions == s.sessions
    ensures s.upd.Picturing? ==> DoSendPicture(s, now).sessions == s.sessions
  {
    hide Typed, WelcomeText, PictureMessage, FindMember;
  }

  lemma BroadcastKeepsMembers(s: System)
    requires Typed(s) && s.upd.Broadcasting?
    ensures DoBroadcast(s).sessions == s.sessions
  {
    hide Typed, PostAll;
    MembersLogged(s);
    PostAllFrame(s, s.sessions, s.upd.message);
  }

  lemma KickRemoves(s: System, name: Text, reason: Text, now: M.Int64, sid: Sid)
    requires Typed(s) && sid in DoKick(s, name, reason, now).sessions
    ensures sid in s.sessions
  {
    hide Typed, FindMember;
  }

  lemma UpdateKeepsMembers(s: System, step: UpdateStep, sid: Sid)
    requires Typed(s) && UpdateEnabled(s, step) && sid in ApplyUpdate(s, step).sessions
    ensures sid in s.sessions || (step == Accept && s.upd == Accepting(sid))
  {
    hide Typed, DoPopResponse, DoFindPending, DoCheckConnected, DoWelcome, DoReject, DoSendPicture, DoPopMessage,
      DoBroadcast, DoKick, Lookups;
    match step
    case PopResponse => PopResponseUnmoved(s);
    case FindPending => FindUnmoved(s);
    case CheckConnected => CheckUnmoved(s);
    case Accept =>
    case Welcome(now) => SendingKeepsMembers(s, now);
    case Reject(now) => SendingKeepsMembers(s, now);
    case Drop =>
    case SendPicture(now) => SendingKeepsMembers(s, now);
    case PopMessage => PopMessageUnmoved(s);
    case Broadcast => BroadcastKeepsMembers(s);
    case SaveBroadcast =>
    case NextFrame =>
    case Kick(name, reason, now) => KickRemoves(s, name, reason, now, sid);
  }

  lemma {:induction false} LastAcceptance(tables: Tables, run: Run, k: nat, sid: Sid)
    requires IsRun(tables, run) && k <= |run.steps| && sid in run.states[k].sessions
    ensures exists j :: 0 <= j < k && AcceptsAt(run, j, sid) && forall i :: j < i < k ==> !EndsAt(run, i, sid)
  {
    hide Typed, Enabled, Apply;
    if k > 0 {
      assert StepAt(run, k - 1);
      MemberStep(run.states[k - 1], run.steps[k - 1], sid);
      if run.steps[k - 1] == Update(Accept) && run.states[k - 1].upd == Accepting(sid) {
        assert AcceptsAt(run, k - 1, sid);
      } else {
        LastAcceptance(tables, run, k - 1, sid);
        var j :| 0 <= j < k - 1 && AcceptsAt(run, j, sid) && forall i :: j < i < k - 1 ==> !EndsAt(run, i, sid);
        assert !EndsAt(run, k - 1, sid);
      }
    }
  }

  /** In any run, a member is not read from exactly if its end of file came before an acceptance of it. */
  lemma MembersNotRead(tables: Tables, run: Run, k: nat, sid: Sid)
    requires IsRun(tables, run) && k <= |run.steps| && sid in run.states[k].sessions
    ensures sid in run.states[k].conns
    ensures !run.states[k].conns[sid].reading
       <==> exists i, j :: 0 <= i < j < k && EndsAt(run, i, sid) && AcceptsAt(run, j, sid)
  {
    hide StepAt, EndsAt, AcceptsAt;
    TypedAt(tables, run, k);
    assert sid in run.states[k].conns by { hide WritersValid; }
    ReadingMeans(tables, run, k, sid);
    LastAcceptance(tables, run, k, sid);
    var j :| 0 <= j < k && AcceptsAt(run, j, sid) && forall i :: j < i < k ==> !EndsAt(run, i, sid);
    if !run.states[k].conns[sid].reading {
      var i :| 0 <= i < k && EndsAt(run, i, sid);
      NotBoth(run, i, sid);
      assert i < j;
    }
  }

  lemma NotBoth(run: Run, i: nat, sid: Sid)
    requires i < |run.steps| && |run.states| == |run.steps| + 1 && EndsAt(run, i, sid)
    ensures !AcceptsAt(run, i, sid)
  {
  }

  // ----- who is sent what -----

  /** A picture goes to the member with the recipient's name and to nobody else. */
  lemma PictureReachesRecipient(s: System, now: M.Int64, x: Sid)
    requires Typed(s) && Members(s.conns, s.sessions, s.upd) && s.upd.Picturing? && x in s.conns
    ensures x in s.logs && x in DoSendPicture(s, now).logs
    ensures DoSendPicture(s, now).logs[x] == s.logs[x] +
      if x in s.sessions && s.conns[x].user.username == s.upd.response.recipient
      then [PictureMessage(s.upd.response, now)] else []
  {
    hide WritersValid, PictureMessage;
    OnlyMemberNamed(s.conns, s.sessions, s.upd, s.upd.response.recipient, x);
  }

  /** A kick reaches the member with the name and nobody else. */
  lemma KickReachesOne(s: System, name: Text, reason: Text, now: M.Int64, x: Sid)
    requires Typed(s) && Members(s.conns, s.sessions, s.upd) && x in s.conns
    ensures x in s.logs && x in DoKick(s, name, reason, now).logs
    ensures DoKick(s, name, reason, now).logs[x] == s.logs[x] +
      if x in s.sessions && s.conns[x].user.username == name
      then [M.Message(M.SERVER_KICK_REQUEST, [], reason, now)] else []
  {
    hide WritersValid, WithoutFirst;
    OnlyMemberNamed(s.conns, s.sessions, s.upd, name, x);
  }

  lemma OnlyMemberNamed(conns: map<Sid, Conn>, sessions: seq<Sid>, u: UpdateThread, name: Text, x: Sid)
    requires Members(conns, sessions, u)
    ensures FindMember(conns, sessions, name) == Some(x) <==>
      x in sessions && x in conns && conns[x].user.username == name
  {
    var found := FindMember(conns, sessions, name);
    if x in sessions && conns[x].user.username == name {
      var i :| 0 <= i < |sessions| && sessions[i] == x;
      assert found.Some?;
      var j :| 0 <= j < |sessions| && sessions[j] == found.value;
      assert i == j;
    }
  }
}
