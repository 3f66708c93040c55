/** Every step of every thread keeps the invariants. */
module ServerProof {
  import opened Bytes
  import opened User
  import opened Store
  import opened StoreRuns
  import opened ServerSystem
  import opened ServerInvariants
  import M = Message
  import Writer

  // ----- the joins on their way -----

  lemma {:induction false} JoinsConcat(a: seq<Request>, b: seq<Request>)
    ensures Joins(a + b) == Joins(a) + Joins(b)
    decreases |a|
  {
    hide JoinOf;
    if a == [] {
      assert a + b == b;
    } else {
      assert (a + b)[1..] == a[1..] + b;
      JoinsConcat(a[1..], b);
    }
  }

  lemma JoinsOne(request: Request)
    ensures Joins([request]) == JoinOf(request)
  {
    assert [request][1..] == [];
  }

  lemma {:induction false} NoJoins(rs: seq<Request>)
    requires forall i :: 0 <= i < |rs| ==> !IsJoin(rs[i])
    ensures Joins(rs) == []
    decreases |rs|
  {
    if rs != [] {
      NoJoins(rs[1..]);
    }
  }

  /** Queueing a request that is no join leaves the joins on their way alone. */
  lemma OtherRequests(s: System, rs: seq<Request>)
    requires Joins(rs) == []
    ensures Flight(s.(requests := s.requests + rs)) == Flight(s)
  {
    hide Joins, Answers;
    JoinsConcat(s.requests, rs);
    assert Joins(s.requests) + [] == Joins(s.requests);
  }

  lemma PushJoinFlight(s: System)
    requires s.net.NetJoin?
    ensures Flight(DoPushJoin(s)) == Flight(s)
  {
    hide Joins, Answers;
    JoinsConcat(s.requests, [s.net.request]);
  }

  lemma TakeRequestFlight(s: System)
    requires s.db.DbIdle? && s.requests != []
    ensures Flight(DoTakeRequest(s)) == Flight(s)
  {
    hide Joins, Answers;
    JoinsConcat([s.requests[0]], s.requests[1..]);
    assert s.requests == [s.requests[0]] + s.requests[1..];
  }

  lemma AnswerFlight(s: System)
    requires s.db.DbWork?
    ensures Flight(DoAnswer(s)) == Flight(s)
  {
    hide Joins, Answers, Handle;
    var o := Handle(s.tables, s.db.request);
    HandleAnswers(s.tables, s.db.request);
    AnswersConcat(s.responses, o.responses);
    JoinsConcat(s.requests, o.requeued);
    NoJoins(o.requeued);
  }

  lemma PushJoinSound(s: System)
    requires Sound(s) && s.net.NetJoin?
    ensures Sound(DoPushJoin(s))
  {
    hide Flight, Pipeline, Phases, Members, Segments, OnlyChats, Channels;
    PushJoinFlight(s);
  }

  lemma TakeRequestSound(s: System)
    requires Sound(s) && s.db.DbIdle? && s.requests != []
    ensures Sound(DoTakeRequest(s))
  {
    hide Flight, Pipeline, Phases, Members, Segments, OnlyChats, Channels;
    TakeRequestFlight(s);
  }

  lemma AnswerSound(s: System)
    requires Sound(s) && s.db.DbWork?
    ensures Sound(DoAnswer(s))
  {
    hide Flight, Pipeline, Phases, Members, Segments, OnlyChats, Channels, Handle;
    AnswerFlight(s);
  }

  /** The update thread turns from one activity that holds no session to another. */
  predicate Neutral(u: UpdateThread) {
    u.Responses? || u.Picturing? || u.Inbox? || u.Broadcasting? || u.Saving? || u.Idle? || u.Joining?
  }

  lemma NeutralPhases(conns: map<Sid, Conn>, sessions: seq<Sid>, pending: map<Text, Sid>, u: UpdateThread,
                      v: UpdateThread, logs: map<Sid, seq<M.Message>>)
    requires Neutral(u) && Neutral(v) && Phases(conns, sessions, pending, u, logs)
    ensures Phases(conns, sessions, pending, v, logs)
  {
    hide Legal, Open, Ended, Waiting;
  }

  lemma NeutralMembers(conns: map<Sid, Conn>, sessions: seq<Sid>, u: UpdateThread, v: UpdateThread)
    requires Neutral(v) && Members(conns, sessions, u)
    ensures Members(conns, sessions, v)
  {
  }

  lemma PopResponseFlight(s: System)
    requires s.upd.Responses?
    ensures Flight(DoPopResponse(s)) == Flight(s)
  {
    hide Joins, Answers;
    if s.responses != [] {
      var first := s.responses[0];
      AnswersConcat([first], s.responses[1..]);
      AnswersOne(first);
      assert s.responses == [first] + s.responses[1..];
    }
  }

  /** Between two activities that hold no session only the joins on their way and the chats matter. */
  lemma NeutralSound(s: System, r: System)
    requires Sound(s) && Neutral(s.upd) && Neutral(r.upd) && Flight(r) == Flight(s)
    requires r.upd.Joining? ==> !r.upd.response.kind.USER_PROFILE_PICTURE?
    requires OnlyChats(r.inbox, r.upd, r.broadcasts)
    requires r.conns == s.conns && r.pending == s.pending && r.sessions == s.sessions && r.logs == s.logs
    requires r.spans == s.spans && r.broadcasts == s.broadcasts && r.writers == s.writers && r.tasks == s.tasks
    ensures Sound(r)
  {
    hide Flight, Pipeline, Phases, Members, Segments, OnlyChats, Channels, Neutral;
    NeutralPhases(s.conns, s.sessions, s.pending, s.upd, r.upd, s.logs);
    NeutralMembers(s.conns, s.sessions, s.upd, r.upd);
  }

  lemma PopResponseSound(s: System)
    requires Sound(s) && s.upd.Responses?
    ensures Sound(DoPopResponse(s))
  {
    hide Flight, Pipeline, Phases, Members, Segments, Channels, AllChats;
    PopResponseFlight(s);
    NeutralSound(s, DoPopResponse(s));
  }

  lemma PopMessageSound(s: System)
    requires Sound(s) && s.upd.Inbox?
    ensures Sound(DoPopMessage(s))
  {
    hide Pipeline, Phases, Members, Segments, AllChats, Channels, Joins, Answers;
    if s.inbox != [] {
      TailChats(s.inbox);
    }
    NeutralSound(s, DoPopMessage(s));
  }

  lemma TailChats(inbox: seq<M.Message>)
    requires AllChats(inbox) && inbox != []
    ensures AllChats(inbox[1..]) && inbox[0].command == M.CHAT_MESSAGE
  {
  }

  lemma SaveBroadcastSound(s: System)
    requires Sound(s) && s.upd.Saving?
    ensures Sound(DoSaveBroadcast(s))
  {
    hide Pipeline, Phases, Members, Segments, Channels, AllChats, Joins, Answers;
    var r := DoSaveBroadcast(s);
    JoinsOne(SaveMessage(s.upd.message));
    OtherRequests(s, [SaveMessage(s.upd.message)]);
    assert Flight(r) == Flight(s.(requests := r.requests));
    NeutralSound(s, r);
  }

  lemma NextFrameSound(s: System)
    requires Sound(s) && s.upd.Idle?
    ensures Sound(s.(upd := Responses))
  {
    hide Pipeline, Phases, Members, Segments, Channels, AllChats, Joins, Answers;
    NeutralSound(s, s.(upd := Responses));
  }

  // ----- one session changes -----

  ghost predicate PhaseAt(s: System, sid: Sid)
    requires sid in s.conns && sid in s.logs
  {
    PhaseOk(s.conns[sid], s.logs[sid], sid in s.sessions, Waiting(s.conns[sid], s.pending, sid), s.upd, sid)
  }

  predicate HoldsAtMost(u: UpdateThread, sid: Sid) {
    Holder(u).Some? ==> Holder(u).value == sid
  }

  /** All sessions but one are as before. */
  ghost predicate Elsewhere(s: System, r: System, sid: Sid) {
    && s.conns.Keys - {sid} == r.conns.Keys - {sid} && s.logs.Keys - {sid} == r.logs.Keys - {sid}
    && (forall x :: x in s.conns && x != sid ==> Alike(s, r, x))
  }

  ghost predicate Alike(s: System, r: System, x: Sid) {
    && (x in s.conns && x in r.conns && r.conns[x] == s.conns[x])
    && (x in s.logs && x in r.logs && r.logs[x] == s.logs[x])
    && (x in r.sessions <==> x in s.sessions)
    && (Waiting(r.conns[x], r.pending, x) <==> Waiting(s.conns[x], s.pending, x))
  }

  lemma PhaseAlike(s: System, r: System, sid: Sid, x: Sid)
    requires x != sid && Alike(s, r, x) && PhaseAt(s, x)
    requires s.upd == r.upd || (HoldsAtMost(s.upd, sid) && HoldsAtMost(r.upd, sid))
    ensures PhaseAt(r, x)
  {
    hide Legal, Open, Ended, Waiting;
  }

  lemma PhasesBut(s: System, r: System, sid: Sid)
    requires Phases(s.conns, s.sessions, s.pending, s.upd, s.logs)
    requires Elsewhere(s, r, sid)
    requires s.upd == r.upd || (HoldsAtMost(s.upd, sid) && HoldsAtMost(r.upd, sid))
    requires sid in r.conns && sid in r.logs && PhaseAt(r, sid)
    ensures Phases(r.conns, r.sessions, r.pending, r.upd, r.logs)
  {
    hide PhaseOk, Waiting, Alike, HoldsAtMost;
    forall x | x in r.conns
      ensures x in r.logs && PhaseAt(r, x)
    {
      if x != sid {
        assert x in r.conns.Keys - {sid};
        assert Alike(s, r, x) && PhaseAt(s, x);
        PhaseAlike(s, r, sid, x);
        assert x in s.logs.Keys - {sid};
      }
    }
  }

  // ----- the network thread -----

  lemma ConnectSound(s: System, sid: Sid)
    requires Typed(s) && Sound(s) && sid !in s.conns
    ensures Sound(DoConnect(s, sid))
  {
    hide Flight, Pipeline, Phases, Members, Segments, OnlyChats, Channels;
    ConnectFlight(s, sid);
    ConnectPipeline(s, sid);
    ConnectMembers(s, sid);
    ConnectSegments(s, sid);
    ConnectPhases(s, sid);
    ConnectChannels(s, sid);
  }

  lemma ConnectPipeline(s: System, sid: Sid)
    requires Pipeline(s.conns, s.pending, Flight(s)) && sid !in s.conns
    ensures var r := DoConnect(s, sid); Pipeline(r.conns, r.pending, Flight(s))
  {
    hide Flight, Named, DistinctNames;
  }

  lemma ConnectMembers(s: System, sid: Sid)
    requires Members(s.conns, s.sessions, s.upd) && sid !in s.conns
    ensures var r := DoConnect(s, sid); Members(r.conns, r.sessions, r.upd)
  {
    var r := DoConnect(s, sid);
    assert AllIn(r.sessions, r.conns);
    assert forall i :: 0 <= i < |s.sessions| ==> r.conns[s.sessions[i]] == s.conns[s.sessions[i]];
  }

  lemma ConnectSegments(s: System, sid: Sid)
    requires Typed(s) && Segments(s.logs, s.spans, s.sessions, s.broadcasts) && sid !in s.conns
    ensures var r := DoConnect(s, sid); Segments(r.logs, r.spans, r.sessions, r.broadcasts)
  {
    hide WritersValid, Segment;
    assert sid !in s.sessions;
    assert Segment([], Span(0, 0), false, s.broadcasts) by {
      NoSegment(s.broadcasts);
    }
  }

  lemma NoSegment(broadcasts: seq<M.Message>)
    ensures Segment([], Span(0, 0), false, broadcasts)
  {
  }

  lemma ConnectFlight(s: System, sid: Sid)
    ensures Flight(DoConnect(s, sid)) == Flight(s)
  {
    hide Joins, Answers;
  }

  lemma ConnectPhases(s: System, sid: Sid)
    requires Typed(s) && Phases(s.conns, s.sessions, s.pending, s.upd, s.logs) && sid !in s.conns
    ensures var r := DoConnect(s, sid); Phases(r.conns, r.sessions, r.pending, r.upd, r.logs)
  {
    hide Open, Ended, WritersValid, Writer.Valid;
    var r := DoConnect(s, sid);
    assert Holder(r.upd) != Some(sid) && sid !in r.sessions;
    forall x | x in r.conns
      ensures PhaseOk(r.conns[x], r.logs[x], x in r.sessions, Waiting(r.conns[x], r.pending, x), r.upd, x)
    {
    }
  }

  lemma {:induction false} NoSends(tasks: seq<Task>, sid: Sid)
    requires forall i :: 0 <= i < |tasks| ==> tasks[i].sid != sid
    ensures SendsTo(tasks, sid) == [] && !ClosePosted(tasks, sid)
  {
    if tasks != [] {
      NoSends(tasks[1..], sid);
      if ClosePosted(tasks, sid) {
        assert false;
      }
    }
  }

  lemma ConnectChannels(s: System, sid: Sid)
    requires Typed(s) && Channels(s.writers, s.logs, s.tasks) && sid !in s.conns
    ensures var r := DoConnect(s, sid); Channels(r.writers, r.logs, r.tasks)
  {
    hide Ended, WritersValid, Writer.Valid, SendsTo, ClosePosted;
    NoSends(s.tasks, sid);
    NewWriter();
  }

  lemma NewWriter()
    ensures Writer.Valid(Writer.New<M.Message>())
  {
  }

  // ----- posting and running tasks -----

  lemma {:induction false} SendsToAppend(tasks: seq<Task>, t: Task, sid: Sid)
    ensures SendsTo(tasks + [t], sid) ==
      SendsTo(tasks, sid) + (if t.Send? && t.sid == sid then [t.message] else [])
    decreases |tasks|
  {
    if tasks == [] {
      assert tasks + [t] == [t];
    } else {
      assert (tasks + [t])[1..] == tasks[1..] + [t];
      SendsToAppend(tasks[1..], t, sid);
    }
  }

  lemma {:induction false} NoSendsAmong(tasks: seq<Task>, sid: Sid)
    requires forall i :: 0 <= i < |tasks| ==> !(tasks[i].Send? && tasks[i].sid == sid)
    ensures SendsTo(tasks, sid) == []
  {
    if tasks != [] {
      NoSendsAmong(tasks[1..], sid);
    }
  }

  /** A task for another session changes nothing for this one. */
  lemma AppendOther(w: Writer.Writer<M.Message>, log: seq<M.Message>, tasks: seq<Task>, t: Task, sid: Sid)
    requires Channel(w, log, tasks, sid) && t.sid != sid
    ensures Channel(w, log, tasks + [t], sid)
  {
    hide Ended, Writer.Valid, SendsTo;
    SendsToAppend(tasks, t, sid);
    assert SendsTo(tasks, sid) + [] == SendsTo(tasks, sid);
    assert ClosePosted(tasks + [t], sid) ==> ClosePosted(tasks, sid);
  }

  /** Nothing is sent after the message that ends a session. */
  lemma AppendSend(w: Writer.Writer<M.Message>, log: seq<M.Message>, tasks: seq<Task>, m: M.Message, sid: Sid)
    requires Channel(w, log, tasks, sid) && !Ended(log)
    ensures Channel(w, log + [m], tasks + [Send(sid, m)], sid)
  {
    hide Ended, Writer.Valid, SendsTo;
    var t := Send(sid, m);
    SendsToAppend(tasks, t, sid);
    assert w.posted + (SendsTo(tasks, sid) + [m]) == log + [m];
    assert ClosePosted(tasks + [t], sid) ==> ClosePosted(tasks, sid);
  }

  lemma AppendClose(w: Writer.Writer<M.Message>, log: seq<M.Message>, tasks: seq<Task>, sid: Sid)
    requires Channel(w, log, tasks, sid) && Ended(log)
    ensures Channel(w, log, tasks + [Close(sid)], sid)
  {
    hide Ended, Writer.Valid, SendsTo;
    SendsToAppend(tasks, Close(sid), sid);
    assert SendsTo(tasks, sid) + [] == SendsTo(tasks, sid);
  }

  lemma PostChannels(s: System, sid: Sid, m: M.Message)
    requires Channels(s.writers, s.logs, s.tasks) && sid in s.logs && !Ended(s.logs[sid])
    ensures var r := Post(s, sid, m); Channels(r.writers, r.logs, r.tasks)
  {
    hide Ended, Channel;
    forall x | x in s.logs
      ensures Channel(s.writers[x], Post(s, sid, m).logs[x], Post(s, sid, m).tasks, x)
    {
      if x == sid {
        AppendSend(s.writers[x], s.logs[x], s.tasks, m, x);
      } else {
        AppendOther(s.writers[x], s.logs[x], s.tasks, Send(sid, m), x);
      }
    }
  }

  lemma CloseChannels(writers: map<Sid, Writer.Writer<M.Message>>, logs: map<Sid, seq<M.Message>>,
                      tasks: seq<Task>, sid: Sid)
    requires Channels(writers, logs, tasks) && sid in logs && Ended(logs[sid])
    ensures Channels(writers, logs, tasks + [Close(sid)])
  {
    hide Ended, Channel;
    forall x | x in logs
      ensures Channel(writers[x], logs[x], tasks + [Close(sid)], x)
    {
      if x == sid {
        AppendClose(writers[x], logs[x], tasks, x);
      } else {
        AppendOther(writers[x], logs[x], tasks, Close(sid), x);
      }
    }
  }

  lemma TakeTask(tasks: seq<Task>, sid: Sid)
    requires tasks != [] && ClosesLast(tasks, sid)
    ensures SendsTo(tasks, sid)
         == (if tasks[0].Send? && tasks[0].sid == sid then [tasks[0].message] else []) + SendsTo(tasks[1..], sid)
    ensures ClosePosted(tasks[1..], sid) ==> ClosePosted(tasks, sid)
    ensures ClosesLast(tasks[1..], sid)
    ensures tasks[0] == Close(sid) ==> ClosePosted(tasks, sid) && SendsTo(tasks, sid) == []
  {
    if tasks[0] == Close(sid) {
      NoSendsAmong(tasks[1..], sid);
    }
  }

  lemma TakeOther(w: Writer.Writer<M.Message>, log: seq<M.Message>, tasks: seq<Task>, sid: Sid)
    requires Channel(w, log, tasks, sid) && tasks != [] && tasks[0].sid != sid
    ensures Channel(w, log, tasks[1..], sid)
  {
    hide Ended, Writer.Valid, SendsTo, ClosePosted, ClosesLast;
    TakeTask(tasks, sid);
  }

  lemma TakeSend(w: Writer.Writer<M.Message>, log: seq<M.Message>, tasks: seq<Task>, sid: Sid)
    requires Channel(w, log, tasks, sid) && tasks != [] && tasks[0].Send? && tasks[0].sid == sid
    ensures Channel(Writer.Apply(w, Writer.Post(tasks[0].message), false), log, tasks[1..], sid)
  {
    hide Ended, Writer.Valid, Writer.Apply, SendsTo, ClosePosted, ClosesLast;
    TakeTask(tasks, sid);
    Writer.StepFacts(w, Writer.Post(tasks[0].message), false);
  }

  lemma TakeClose(w: Writer.Writer<M.Message>, log: seq<M.Message>, tasks: seq<Task>, sid: Sid)
    requires Channel(w, log, tasks, sid) && tasks != [] && tasks[0] == Close(sid)
    ensures Channel(Writer.Apply(w, Writer.AskClose, false), log, tasks[1..], sid)
  {
    hide Ended, Writer.Valid, Writer.Apply, SendsTo, ClosePosted, ClosesLast;
    TakeTask(tasks, sid);
    Writer.StepFacts(w, Writer.AskClose, false);
  }

  lemma WriteDone(w: Writer.Writer<M.Message>, log: seq<M.Message>, tasks: seq<Task>, sid: Sid, ok: bool)
    requires Channel(w, log, tasks, sid) && Writer.Enabled(w, Writer.Done(ok))
    ensures Channel(Writer.Apply(w, Writer.Done(ok), false), log, tasks, sid)
  {
    hide Ended, Writer.Valid, Writer.Apply, SendsTo, ClosePosted;
    Writer.StepFacts(w, Writer.Done(ok), false);
  }

  lemma RunTaskChannels(s: System)
    requires Typed(s) && s.tasks != [] && Channels(s.writers, s.logs, s.tasks)
    requires DoRunTask(s).fault == NoFault
    ensures var r := DoRunTask(s); Channels(r.writers, r.logs, r.tasks)
  {
    hide Channel, Writer.Apply, Writer.Valid, M.Serialize;
    var sid := s.tasks[0].sid;
    forall x | x in s.logs
      ensures Channel(DoRunTask(s).writers[x], s.logs[x], s.tasks[1..], x)
    {
      if x != sid {
        TakeOther(s.writers[x], s.logs[x], s.tasks, x);
      } else if s.tasks[0].Send? {
        TakeSend(s.writers[x], s.logs[x], s.tasks, x);
      } else {
        TakeClose(s.writers[x], s.logs[x], s.tasks, x);
      }
    }
  }

  lemma WrittenChannels(s: System, sid: Sid, ok: bool)
    requires Typed(s) && Channels(s.writers, s.logs, s.tasks)
    requires sid in s.conns && Writer.Enabled(s.writers[sid], Writer.Done(ok))
    ensures var r := DoWrite(s, sid, Writer.Done(ok)); Channels(r.writers, r.logs, r.tasks)
  {
    hide Channel, Writer.Apply, Writer.Valid;
    WriteDone(s.writers[sid], s.logs[sid], s.tasks, sid, ok);
  }

  // ----- steps of the network thread -----

  lemma RunTaskSound(s: System)
    requires Typed(s) && Sound(s) && s.tasks != [] && DoRunTask(s).fault == NoFault
    ensures Sound(DoRunTask(s))
  {
    hide Flight, Typed, Pipeline, Phases, Members, Segments, OnlyChats, Channels, DoRunTask;
    RunTaskChannels(s);
    RunTaskFrame(s);
  }

  lemma RunTaskIs(s: System)
    requires Typed(s) && s.tasks != []
    ensures var r := DoRunTask(s); r == s.(tasks := s.tasks[1..], writers := r.writers, fault := r.fault)
  {
    hide Typed, Writer.Apply, M.Serialize;
    match s.tasks[0]
    case Send(_, m) => if M.Serialize(m).None? { } else { }
    case Close(_) =>
  }

  lemma RunTaskFrame(s: System)
    requires Typed(s) && s.tasks != []
    ensures var r := DoRunTask(s); r == s.(tasks := s.tasks[1..], writers := r.writers, fault := r.fault)
    ensures Flight(DoRunTask(s)) == Flight(s)
  {
    hide Joins, Answers, Typed, DoRunTask;
    RunTaskIs(s);
  }

  lemma WrittenSound(s: System, sid: Sid, ok: bool)
    requires Typed(s) && Sound(s) && sid in s.conns && Writer.Enabled(s.writers[sid], Writer.Done(ok))
    ensures Sound(DoWrite(s, sid, Writer.Done(ok)))
  {
    hide Joins, Answers, Typed, Pipeline, Phases, Members, Segments, OnlyChats, Channels, Writer.Apply;
    WrittenChannels(s, sid, ok);
  }

  lemma {:induction false} WithoutApart(conns: map<Sid, Conn>, sessions: seq<Sid>, sid: Sid)
    requires AllIn(sessions, conns) && Apart(conns, sessions)
    ensures AllIn(Without(sessions, sid), conns) && Apart(conns, Without(sessions, sid))
    decreases |sessions|
  {
    var r := Without(sessions, sid);
    assert forall i :: 0 <= i < |r| ==> r[i] in sessions;
    if sessions != [] {
      var rest := Without(sessions[1..], sid);
      WithoutApart(conns, sessions[1..], sid);
      assert forall j :: 0 <= j < |rest| ==> rest[j] in sessions[1..];
    }
  }

  /** The users of the members, and of the session about to become one, are the same. */
  lemma MembersAlike(conns: map<Sid, Conn>, other: map<Sid, Conn>, sessions: seq<Sid>, u: UpdateThread)
    requires Members(conns, sessions, u)
    requires forall x :: x in conns && (x in sessions || (u.Accepting? && u.sid == x)) ==>
      x in other && other[x].user == conns[x].user
    ensures Members(other, sessions, u)
  {
    forall i | 0 <= i < |sessions|
      ensures sessions[i] in other && other[sessions[i]].user == conns[sessions[i]].user
    {
      assert sessions[i] in sessions && sessions[i] in conns;
    }
  }

  lemma EndOfFileMembers(s: System, sid: Sid)
    requires Typed(s) && sid in s.conns && Members(s.conns, s.sessions, s.upd)
    ensures var r := DoEndOfFile(s, sid); Members(r.conns, r.sessions, r.upd)
  {
    hide WritersValid;
    var r := DoEndOfFile(s, sid);
    WithoutApart(s.conns, s.sessions, sid);
    assert forall i :: 0 <= i < |r.sessions| ==> r.sessions[i] in s.sessions;
    assert Members(s.conns, r.sessions, s.upd);
    MembersAlike(s.conns, r.conns, r.sessions, s.upd);
  }

  lemma EndOfFilePhases(s: System, sid: Sid)
    requires Typed(s) && sid in s.conns && Phases(s.conns, s.sessions, s.pending, s.upd, s.logs)
    ensures var r := DoEndOfFile(s, sid); Phases(r.conns, r.sessions, r.pending, r.upd, r.logs)
  {
    hide WritersValid, Legal, Open, Ended;
    var r := DoEndOfFile(s, sid);
    assert PhaseAt(s, sid);
    assert Waiting(r.conns[sid], r.pending, sid) == Waiting(s.conns[sid], s.pending, sid);
    PhasesBut(s, r, sid);
  }

  /** The broadcasts a session has been sent end where it stops being a member. */
  lemma EndOfFileSegments(s: System, sid: Sid)
    requires Typed(s) && sid in s.conns && Segments(s.logs, s.spans, s.sessions, s.broadcasts)
    ensures var r := DoEndOfFile(s, sid); Segments(r.logs, r.spans, r.sessions, r.broadcasts)
  {
    hide WritersValid, Chats;
    var r := DoEndOfFile(s, sid);
    forall x | x in r.logs
      ensures x in r.spans && Segment(r.logs[x], r.spans[x], x in r.sessions, r.broadcasts)
    {
      assert Segment(s.logs[x], s.spans[x], x in s.sessions, s.broadcasts);
    }
  }

  lemma EndOfFilePipeline(s: System, sid: Sid)
    requires Typed(s) && sid in s.conns && Pipeline(s.conns, s.pending, Flight(s))
    ensures var r := DoEndOfFile(s, sid); Pipeline(r.conns, r.pending, Flight(r))
  {
    hide Joins, Answers, WritersValid, Named, DistinctNames;
    var r := DoEndOfFile(s, sid);
    assert Flight(r) == Flight(s);
  }

  lemma EndOfFileSound(s: System, sid: Sid)
    requires Typed(s) && Sound(s) && sid in s.conns
    ensures Sound(DoEndOfFile(s, sid))
  {
    hide Flight, Typed, Pipeline, Phases, Members, Segments, OnlyChats, Channels;
    EndOfFilePipeline(s, sid);
    EndOfFilePhases(s, sid);
    EndOfFileMembers(s, sid);
    EndOfFileSegments(s, sid);
  }

  // ----- a message arrives -----

  /** A join that has been read from the socket: `push` of its request comes next. */
  function DoJoin(s: System, sid: Sid, user: User, request: Request): System
    requires sid in s.conns
  {
    s.(conns := s.conns[sid := s.conns[sid].(user := user, joined := true)],
       pending := s.pending[CStr(user.username) := sid], net := NetJoin(request))
  }

  /** What becomes of a message, by its command. */
  lemma ReceiveIs(s: System, sid: Sid, m: M.Message)
    requires sid in s.conns
    ensures var user := User(m.senderName, m.content);
      DoReceive(s, sid, m) ==
        if m.command == M.LOGIN_REQUEST then DoJoin(s, sid, user, Login(user))
        else if m.command == M.REGISTER_REQUEST then DoJoin(s, sid, user, Register(user))
        else if m.command == M.CHAT_MESSAGE then s.(inbox := s.inbox + [m])
        else if m.command == M.PROFILE_PICTURE then
          s.(requests := s.requests + [SavePicture(s.conns[sid].user, CStr(m.content))])
        else s
  {
    hide CStr;
  }

  lemma JoinFlight(s: System, sid: Sid, user: User, request: Request)
    requires sid in s.conns && s.net.NetIdle? && (request == Login(user) || request == Register(user))
    ensures Flight(DoJoin(s, sid, user, request)) == Flight(s) + [(CStr(user.username), request.Register?)]
  {
    hide Joins, Answers;
    assert Joins([request]) == [(CStr(user.username), request.Register?)] by {
      JoinsOne(request);
    }
  }

  lemma NamedAppend(flight: seq<(Text, bool)>, e: (Text, bool), n: Text)
    ensures Named(flight + [e], n) <==> Named(flight, n) || e.0 == n
  {
    if Named(flight, n) {
      var i :| 0 <= i < |flight| && flight[i].0 == n;
      assert (flight + [e])[i].0 == n;
    }
    if e.0 == n {
      assert (flight + [e])[|flight|].0 == n;
    }
  }

  lemma DistinctAppend(flight: seq<(Text, bool)>, e: (Text, bool))
    requires DistinctNames(flight) && !Named(flight, e.0)
    ensures DistinctNames(flight + [e])
  {
  }

  lemma JoinPipeline(conns: map<Sid, Conn>, pending: map<Text, Sid>, flight: seq<(Text, bool)>, sid: Sid, c: Conn,
                     registers: bool)
    requires Pipeline(conns, pending, flight) && sid in conns && !conns[sid].joined && c.joined
    requires !Named(flight, CStr(c.user.username))
    ensures var n := CStr(c.user.username);
      Pipeline(conns[sid := c], pending[n := sid], flight + [(n, registers)])
  {
    hide Named, DistinctNames;
    var n := CStr(c.user.username);
    var e := (n, registers);
    DistinctAppend(flight, e);
    forall k
      ensures k in pending[n := sid] <==> Named(flight + [e], k)
    {
      NamedAppend(flight, e, k);
    }
  }

  lemma JoinPhases(s: System, sid: Sid, user: User, request: Request)
    requires sid in s.conns && Phases(s.conns, s.sessions, s.pending, s.upd, s.logs)
    requires s.logs.Keys == s.conns.Keys && !s.conns[sid].joined && CStr(user.username) !in s.pending
    ensures var r := DoJoin(s, sid, user, request); Phases(r.conns, r.sessions, r.pending, r.upd, r.logs)
  {
    hide Legal, Open, Ended;
    var r := DoJoin(s, sid, user, request);
    assert PhaseAt(s, sid);
    assert Waiting(r.conns[sid], r.pending, sid);
    JoinElsewhere(s, sid, user, request);
    PhasesBut(s, r, sid);
  }

  lemma JoinElsewhere(s: System, sid: Sid, user: User, request: Request)
    requires sid in s.conns && s.logs.Keys == s.conns.Keys && CStr(user.username) !in s.pending
    ensures Elsewhere(s, DoJoin(s, sid, user, request), sid)
  {
  }

  lemma JoinMembers(s: System, sid: Sid, user: User, request: Request)
    requires sid in s.conns && !s.conns[sid].joined && Members(s.conns, s.sessions, s.upd)
    requires Phases(s.conns, s.sessions, s.pending, s.upd, s.logs)
    ensures var r := DoJoin(s, sid, user, request); Members(r.conns, r.sessions, r.upd)
  {
    hide Members, Waiting, Legal;
    var r := DoJoin(s, sid, user, request);
    assert sid !in s.sessions && Holder(s.upd) != Some(sid);
    MembersAlike(s.conns, r.conns, s.sessions, s.upd);
  }

  lemma JoinSound(s: System, sid: Sid, user: User, request: Request)
    requires Typed(s) && Sound(s) && sid in s.conns && s.net.NetIdle? && !s.conns[sid].joined
    requires request == Login(user) || request == Register(user)
    requires !Named(Flight(s), CStr(user.username))
    ensures Sound(DoJoin(s, sid, user, request))
  {
    hide Flight, Phases, Members, Segments, OnlyChats, Channels, WritersValid, AllIn, Named, DistinctNames;
    var c := s.conns[sid].(user := user, joined := true);
    assert CStr(user.username) !in s.pending;
    JoinFlight(s, sid, user, request);
    JoinPipeline(s.conns, s.pending, Flight(s), sid, c, request.Register?);
    JoinPhases(s, sid, user, request);
    JoinMembers(s, sid, user, request);
  }

  lemma ChatSound(s: System, m: M.Message)
    requires Sound(s) && m.command == M.CHAT_MESSAGE
    ensures Sound(s.(inbox := s.inbox + [m]))
  {
    hide Joins, Answers, Pipeline, Phases, Members, Segments, Channels;
  }

  lemma RequestsSound(s: System, rs: seq<Request>)
    requires Sound(s) && Joins(rs) == []
    ensures Sound(s.(requests := s.requests + rs))
  {
    hide Flight, Pipeline, Phases, Members, Segments, OnlyChats, Channels;
    OtherRequests(s, rs);
  }

  lemma ReceiveSound(s: System, sid: Sid, m: M.Message)
    requires Typed(s) && Sound(s) && s.net.NetIdle? && sid in s.conns
    requires WellBehaved(s, Network(Receive(sid, m)))
    ensures Sound(DoReceive(s, sid, m))
  {
    hide Sound, Typed, Flight, Named, CStr;
    var user := User(m.senderName, m.content);
    if m.command == M.LOGIN_REQUEST {
      JoinSound(s, sid, user, Login(user));
    } else if m.command == M.REGISTER_REQUEST {
      JoinSound(s, sid, user, Register(user));
    } else if m.command == M.CHAT_MESSAGE {
      ChatSound(s, m);
    } else if m.command == M.PROFILE_PICTURE {
      JoinsOne(SavePicture(s.conns[sid].user, CStr(m.content)));
      RequestsSound(s, [SavePicture(s.conns[sid].user, CStr(m.content))]);
    }
  }

  /** H1 and H2 are what the network thread needs. */
  lemma NetworkSound(s: System, step: NetworkStep)
    requires Typed(s) && Sound(s) && s.fault == NoFault
    requires NetworkEnabled(s, step) && WellBehaved(s, Network(step))
    ensures ApplyNetwork(s, step).fault == NoFault ==> Sound(ApplyNetwork(s, step))
  {
    hide Sound, Typed, DoConnect, DoReceive, DoEndOfFile, DoRunTask, DoWrite, DoPushJoin, Writer.Enabled, WellBehaved;
    match step
    case Connect(sid) => ConnectSound(s, sid);
    case Receive(sid, m) => ReceiveSound(s, sid, m);
    case PushJoin => PushJoinSound(s);
    case EndOfFile(sid) => EndOfFileSound(s, sid);
    case RunTask => if DoRunTask(s).fault == NoFault { RunTaskSound(s); }
    case Written(sid, ok) => WrittenSound(s, sid, ok);
  }

  lemma DatabaseSound(s: System, step: DatabaseStep)
    requires Typed(s) && Sound(s) && DatabaseEnabled(s, step)
    ensures Sound(ApplyDatabase(s, step))
  {
    hide Sound, Typed, DoTakeRequest, DoAnswer;
    match step
    case TakeRequest => TakeRequestSound(s);
    case Answer => AnswerSound(s);
  }
}
