/** Every step of the update thread keeps the invariants. */
module ServerUpdateProof {
  import opened Bytes
  import opened Common
  import opened Store
  import opened StoreRuns
  import opened ServerSystem
  import opened ServerInvariants
  import opened ServerProof
  import M = Message
  import Writer

  // ----- the log of a session grows -----

  lemma OpenNotEnded(log: seq<M.Message>)
    requires log == [] || Open(log)
    ensures !Ended(log)
  {
  }

  lemma OpenGrows(log: seq<M.Message>, m: M.Message)
    requires Open(log)
    ensures Casual(m) ==> Open(log + [m])
    ensures m.command == M.SERVER_KICK_REQUEST ==> Ended(log + [m])
  {
    assert (log + [m])[..|log|] == log;
  }

  lemma FirstMessage(m: M.Message)
    ensures m.command == M.LOGIN_RESPONSE_ACCEPT ==> Open([m])
    ensures m.command == M.LOGIN_RESPONSE_REJECT ==> Ended([m])
  {
  }

  lemma ChatsAppend(log: seq<M.Message>, m: M.Message)
    ensures Chats(log + [m]) == Chats(log) + (if m.command == M.CHAT_MESSAGE then [m] else [])
  {
    assert (log + [m])[..|log|] == log;
  }

  /** A message that is no chat leaves every segment as it is. */
  lemma PostSegments(s: System, sid: Sid, m: M.Message)
    requires Segments(s.logs, s.spans, s.sessions, s.broadcasts) && sid in s.logs && m.command != M.CHAT_MESSAGE
    ensures Segments(Post(s, sid, m).logs, s.spans, s.sessions, s.broadcasts)
  {
    hide Chats;
    ChatsAppend(s.logs[sid], m);
  }

  // ----- a response meets its session -----

  lemma NamedFirst(e: (Text, bool), flight: seq<(Text, bool)>, n: Text)
    ensures Named([e] + flight, n) <==> Named(flight, n) || e.0 == n
  {
    var all := [e] + flight;
    if Named(flight, n) {
      var i :| 0 <= i < |flight| && flight[i].0 == n;
      assert all[i + 1].0 == n;
    }
    if e.0 == n {
      assert all[0].0 == n;
    }
  }

  lemma DistinctRest(e: (Text, bool), flight: seq<(Text, bool)>)
    requires DistinctNames([e] + flight)
    ensures DistinctNames(flight) && !Named(flight, e.0)
  {
    var all := [e] + flight;
    assert all[0] == e;
    forall i | 0 <= i < |flight|
      ensures all[i + 1] == flight[i] && flight[i].0 != e.0
    {
    }
  }

  /** The oldest join on its way is taken out of the map and off its way. */
  lemma TakePending(conns: map<Sid, Conn>, pending: map<Text, Sid>, e: (Text, bool), flight: seq<(Text, bool)>)
    requires Pipeline(conns, pending, [e] + flight)
    ensures e.0 in pending && Pipeline(conns, pending - {e.0}, flight)
  {
    hide Named, DistinctNames;
    DistinctRest(e, flight);
    NamedFirst(e, flight, e.0);
    forall n
      ensures n in pending - {e.0} <==> Named(flight, n)
    {
      NamedFirst(e, flight, n);
    }
  }

  /** The joins on their way behind the one being answered. */
  function Behind(s: System): seq<(Text, bool)>
    requires s.upd.Joining?
  {
    Answers(s.responses)
    + (if s.db.DbWork? then Joins([s.db.request]) else [])
    + Joins(s.requests)
    + (if s.net.NetJoin? then Joins([s.net.request]) else [])
  }

  function Front(r: Response): (Text, bool) { (r.username, r.kind.REGISTER_SUCCESS? || r.kind.REGISTER_FAIL?) }

  lemma JoiningFlight(s: System)
    requires s.upd.Joining? && !s.upd.response.kind.USER_PROFILE_PICTURE?
    ensures Flight(s) == [Front(s.upd.response)] + Behind(s)
    ensures Flight(DoFindPending(s)) == if s.upd.response.username in s.pending then Behind(s) else Flight(s)
  {
    hide Answers, Joins;
    AnswersOne(s.upd.response);
  }

  /** H2 at work: the response finds the session that joined, so the null session is never reached. */
  lemma FindPendingSound(s: System)
    requires Typed(s) && Sound(s) && s.upd.Joining?
    ensures s.upd.response.username in s.pending && Sound(DoFindPending(s))
  {
    hide Answers, Joins, Flight, Behind, WritersValid, AllIn, Phases, Members, Segments, Channels, Named, DistinctNames,
      AllChats, CStr;
    var r := DoFindPending(s);
    JoiningFlight(s);
    TakePending(s.conns, s.pending, Front(s.upd.response), Behind(s));
    FindPendingPhases(s);
    OtherMembers(s.conns, s.sessions, s.upd, r.upd);
  }

  lemma OtherMembers(conns: map<Sid, Conn>, sessions: seq<Sid>, u: UpdateThread, v: UpdateThread)
    requires !v.Accepting? && Members(conns, sessions, u)
    ensures Members(conns, sessions, v)
  {
  }

  lemma FindPendingPhases(s: System)
    requires s.upd.Joining? && s.upd.response.username in s.pending && s.logs.Keys == s.conns.Keys
    requires Phases(s.conns, s.sessions, s.pending, s.upd, s.logs)
    requires var n := s.upd.response.username;
      var sid := s.pending[n]; sid in s.conns && s.conns[sid].joined && CStr(s.conns[sid].user.username) == n
    ensures var r := DoFindPending(s); Phases(r.conns, r.sessions, r.pending, r.upd, r.logs)
  {
    hide Open, Ended, CStr;
    var r := DoFindPending(s);
    var sid := r.upd.sid;
    assert PhaseAt(s, sid);
    PhasesBut(s, r, sid);
  }

  lemma CheckConnectedPhases(s: System)
    requires Typed(s) && s.upd.Found? && Phases(s.conns, s.sessions, s.pending, s.upd, s.logs)
    ensures var r := DoCheckConnected(s); Phases(r.conns, r.sessions, r.pending, r.upd, r.logs)
  {
    hide Legal, Open, Ended, CStr, WritersValid, AllIn, FindMember, ConnectedReason, Waiting;
    var r := DoCheckConnected(s);
    assert PhaseAt(s, s.upd.sid);
    PhasesBut(s, r, s.upd.sid);
  }

  /** A session is only accepted when no member has its username. */
  lemma CheckConnectedMembers(s: System)
    requires Typed(s) && s.upd.Found? && Members(s.conns, s.sessions, s.upd)
    ensures Members(s.conns, s.sessions, DoCheckConnected(s).upd)
  {
    hide WritersValid, FindMember, ConnectedReason, AllIn, Apart;
  }

  lemma CheckConnectedFlight(s: System)
    requires Typed(s) && s.upd.Found?
    ensures Flight(DoCheckConnected(s)) == Flight(s)
  {
    hide Answers, Joins, WritersValid, FindMember, ConnectedReason, AllIn;
  }

  lemma CheckConnectedSound(s: System)
    requires Typed(s) && Sound(s) && s.upd.Found?
    ensures Sound(DoCheckConnected(s))
  {
    hide Flight, WritersValid, FindMember, ConnectedReason, AllIn, Pipeline, Phases, Members, Segments, Channels,
      AllChats;
    CheckConnectedPhases(s);
    CheckConnectedMembers(s);
    CheckConnectedFlight(s);
  }

  /** Who is accepted: the sender of a good login or registration whose name no member has. */
  lemma AcceptedExactly(s: System)
    requires Typed(s) && s.upd.Found? && s.upd.sid in s.conns
    ensures var r, name := s.upd.response, s.conns[s.upd.sid].user.username;
      var failed := r.kind.LOGIN_FAIL? || r.kind.REGISTER_FAIL?;
      var connected := exists x :: x in s.sessions && x in s.conns && s.conns[x].user.username == name;
      DoCheckConnected(s).upd ==
        if failed then Rejecting(s.upd.sid, r.message)
        else if connected then Rejecting(s.upd.sid, ConnectedReason())
        else Accepting(s.upd.sid)
  {
    hide WritersValid, ConnectedReason;
  }

  // ----- accepting -----

  lemma AcceptFlight(s: System)
    requires Typed(s) && s.upd.Accepting?
    ensures Flight(DoAccept(s)) == Flight(s)
  {
    hide Answers, Joins, WritersValid, AllIn, Lookups;
    var user := s.conns[s.upd.sid].user;
    LookupsAsk(s.conns, s.sessions, user);
    NoJoins(Lookups(s.conns, s.sessions, user));
    OtherRequests(s, Lookups(s.conns, s.sessions, user));
  }

  lemma AcceptPhases(s: System)
    requires Typed(s) && s.upd.Accepting? && Phases(s.conns, s.sessions, s.pending, s.upd, s.logs)
    ensures s.upd.sid !in s.sessions && s.logs[s.upd.sid] == []
    ensures var r := DoAccept(s); Phases(r.conns, r.sessions, r.pending, r.upd, r.logs)
  {
    hide Legal, Open, Ended, CStr, WritersValid, AllIn, Lookups, Waiting;
    var r := DoAccept(s);
    assert PhaseAt(s, s.upd.sid);
    PhasesBut(s, r, s.upd.sid);
  }

  lemma AcceptMembers(s: System)
    requires Typed(s) && s.upd.Accepting? && Members(s.conns, s.sessions, s.upd) && s.upd.sid !in s.sessions
    ensures var r := DoAccept(s); Members(r.conns, r.sessions, r.upd)
  {
    hide WritersValid, Lookups;
  }

  lemma AcceptSegments(s: System)
    requires Typed(s) && s.upd.Accepting? && s.upd.sid !in s.sessions && s.logs[s.upd.sid] == []
    requires Segments(s.logs, s.spans, s.sessions, s.broadcasts)
    ensures var r := DoAccept(s); Segments(r.logs, r.spans, r.sessions, r.broadcasts)
  {
    hide WritersValid, Lookups, AllIn, Segment;
    var r := DoAccept(s);
    StartSegment(s.broadcasts);
    forall x | x in r.logs
      ensures x in r.spans && Segment(r.logs[x], r.spans[x], x in r.sessions, r.broadcasts)
    {
      assert x != s.upd.sid ==> (x in r.sessions <==> x in s.sessions);
    }
  }

  lemma StartSegment(broadcasts: seq<M.Message>)
    ensures Segment([], Span(|broadcasts|, |broadcasts|), true, broadcasts)
  {
    assert broadcasts[|broadcasts|..|broadcasts|] == [];
  }

  lemma AcceptSound(s: System)
    requires Typed(s) && Sound(s) && s.upd.Accepting?
    ensures Sound(DoAccept(s))
  {
    hide Flight, WritersValid, AllIn, Lookups, Pipeline, Phases, Members, Segments, Channels, AllChats;
    AcceptFlight(s);
    AcceptPhases(s);
    AcceptMembers(s);
    AcceptSegments(s);
  }

  // ----- one message to one session -----

  /** After `m` was sent to `sid` and the update thread went on to `u`. */
  function Sent(s: System, sid: Sid, m: M.Message, u: UpdateThread): System
    requires sid in s.logs
  {
    Post(s, sid, m).(upd := u)
  }

  lemma SentPhases(s: System, sid: Sid, m: M.Message, u: UpdateThread)
    requires Typed(s) && sid in s.conns && Phases(s.conns, s.sessions, s.pending, s.upd, s.logs)
    requires HoldsAtMost(s.upd, sid) && HoldsAtMost(u, sid)
    requires PhaseAt(Sent(s, sid, m, u), sid)
    ensures Phases(s.conns, s.sessions, s.pending, u, Post(s, sid, m).logs)
  {
    hide PhaseOk, WritersValid, AllIn, Waiting;
    PhasesBut(s, Sent(s, sid, m, u), sid);
  }

  lemma SentSound(s: System, sid: Sid, m: M.Message, u: UpdateThread)
    requires Typed(s) && Sound(s) && sid in s.conns && !Ended(s.logs[sid]) && m.command != M.CHAT_MESSAGE
    requires HoldsAtMost(s.upd, sid) && HoldsAtMost(u, sid)
    requires PhaseAt(Sent(s, sid, m, u), sid)
    requires !s.upd.Joining? && (u.Responses? || u.Dropping?)
    ensures Sound(Sent(s, sid, m, u))
  {
    hide Joins, Answers, PhaseAt, HoldsAtMost, Ended, WritersValid, AllIn, Pipeline, Phases, Members, Segments,
      Channels, AllChats;
    var r := Sent(s, sid, m, u);
    assert Flight(r) == Flight(s);
    SentPhases(s, sid, m, u);
    OtherMembers(s.conns, s.sessions, s.upd, u);
    PostSegments(s, sid, m);
    PostChannels(s, sid, m);
  }

  lemma WelcomeSound(s: System, now: M.Int64)
    requires Typed(s) && Sound(s) && s.upd.Welcoming?
    ensures Sound(DoWelcome(s, now))
  {
    hide Flight, WritersValid, AllIn, Pipeline, Members, Segments, Channels, OnlyChats, WelcomeText, Open, Ended,
      Waiting;
    var sid := s.upd.sid;
    var m := M.Message(M.LOGIN_RESPONSE_ACCEPT, [], WelcomeText(), now);
    assert PhaseAt(s, sid);
    assert s.logs[sid] + [m] == [m];
    FirstMessage(m);
    OpenNotEnded(s.logs[sid]);
    assert PhaseAt(Sent(s, sid, m, Responses), sid);
    SentSound(s, sid, m, Responses);
  }

  lemma RejectSound(s: System, now: M.Int64)
    requires Typed(s) && Sound(s) && s.upd.Rejecting?
    ensures Sound(DoReject(s, now))
  {
    hide Flight, WritersValid, AllIn, Pipeline, Members, Segments, Channels, OnlyChats, Open, Ended, Waiting;
    var sid := s.upd.sid;
    var m := M.Message(M.LOGIN_RESPONSE_REJECT, [], s.upd.reason, now);
    assert PhaseAt(s, sid);
    assert s.logs[sid] + [m] == [m];
    FirstMessage(m);
    OpenNotEnded(s.logs[sid]);
    assert PhaseAt(Sent(s, sid, m, Dropping(sid)), sid);
    SentSound(s, sid, m, Dropping(sid));
  }

  lemma DropPhases(s: System)
    requires Typed(s) && s.upd.Dropping? && Phases(s.conns, s.sessions, s.pending, s.upd, s.logs)
    ensures Ended(s.logs[s.upd.sid])
    ensures Phases(s.conns, s.sessions, s.pending, Responses, s.logs)
  {
    hide WritersValid, AllIn, Open, Ended, Waiting;
    var r := DoDrop(s);
    assert PhaseAt(s, s.upd.sid);
    PhasesBut(s, r, s.upd.sid);
  }

  lemma DropSound(s: System)
    requires Typed(s) && Sound(s) && s.upd.Dropping?
    ensures Sound(DoDrop(s))
  {
    hide Joins, Answers, Ended, WritersValid, AllIn, Pipeline, Phases, Members, Segments, Channels, AllChats;
    assert Flight(DoDrop(s)) == Flight(s);
    DropPhases(s);
    OtherMembers(s.conns, s.sessions, s.upd, Responses);
    CloseChannels(s.writers, s.logs, s.tasks, s.upd.sid);
  }

  /** A member whose welcome is not outstanding has an open log. */
  lemma MemberOpen(s: System, sid: Sid)
    requires Typed(s) && Phases(s.conns, s.sessions, s.pending, s.upd, s.logs) && sid in s.sessions
    requires s.upd != Welcoming(sid)
    ensures sid in s.conns && Open(s.logs[sid]) && s.conns[sid].joined && !Waiting(s.conns[sid], s.pending, sid)
  {
    hide WritersValid, Open, Ended, Legal, Waiting;
  }

  lemma SendPictureSound(s: System, now: M.Int64)
    requires Typed(s) && Sound(s) && s.upd.Picturing?
    ensures Sound(DoSendPicture(s, now))
  {
    hide Flight, WritersValid, Pipeline, Phases, Members, Segments, Channels, OnlyChats, PictureMessage, Open, Ended,
      Waiting, FindMember;
    var found := FindMember(s.conns, s.sessions, s.upd.response.recipient);
    if found.Some? {
      var sid := found.value;
      var m := PictureMessage(s.upd.response, now);
      assert m.command == M.PROFILE_PICTURE by { PictureCommand(s.upd.response, now); }
      MemberOpen(s, sid);
      OpenGrows(s.logs[sid], m);
      OpenNotEnded(s.logs[sid]);
      assert PhaseAt(Sent(s, sid, m, Responses), sid);
      SentSound(s, sid, m, Responses);
    } else {
      PictureUnsent(s);
    }
  }

  lemma PictureCommand(r: Response, now: M.Int64)
    ensures PictureMessage(r, now).command == M.PROFILE_PICTURE
  {
  }

  lemma PictureUnsent(s: System)
    requires Sound(s) && s.upd.Picturing?
    ensures Sound(s.(upd := Responses))
  {
    hide Joins, Answers, Pipeline, Phases, Members, Segments, Channels, AllChats;
    NeutralSound(s, s.(upd := Responses));
  }

  // ----- broadcasting -----

  /** Everybody in the list gets the message once, nobody else does. */
  lemma {:induction false} PostAllLogs(s: System, to: seq<Sid>, m: M.Message)
    requires Distinct(to) && forall i :: 0 <= i < |to| ==> to[i] in s.logs
    ensures PostAll(s, to, m).logs.Keys == s.logs.Keys
    ensures forall x :: x in s.logs ==>
      PostAll(s, to, m).logs[x] == if x in to then s.logs[x] + [m] else s.logs[x]
    decreases |to|
  {
    if to != [] {
      var t := Post(s, to[0], m);
      assert to[0] !in to[1..];
      PostAllLogs(t, to[1..], m);
      assert forall x :: x in to <==> x == to[0] || x in to[1..];
    }
  }

  lemma {:induction false} PostAllChannels(s: System, to: seq<Sid>, m: M.Message)
    requires Distinct(to) && forall i :: 0 <= i < |to| ==> to[i] in s.logs && !Ended(s.logs[to[i]])
    requires Channels(s.writers, s.logs, s.tasks)
    ensures var r := PostAll(s, to, m); Channels(s.writers, r.logs, r.tasks)
    decreases |to|
  {
    hide Channels, Ended;
    if to != [] {
      PostChannels(s, to[0], m);
      PostAllChannels(Post(s, to[0], m), to[1..], m);
    }
  }

  lemma BroadcastPhases(s: System)
    requires Typed(s) && s.upd.Broadcasting? && Distinct(s.sessions) && s.upd.message.command == M.CHAT_MESSAGE
    requires Phases(s.conns, s.sessions, s.pending, s.upd, s.logs)
    ensures var r := DoBroadcast(s); Phases(r.conns, r.sessions, r.pending, r.upd, r.logs)
    ensures forall x :: x in s.sessions ==> x in s.logs && Open(s.logs[x])
  {
    hide WritersValid, Open, Ended, Waiting, PostAll;
    var r := DoBroadcast(s);
    PostAllFrame(s, s.sessions, s.upd.message);
    PostAllLogs(s, s.sessions, s.upd.message);
    forall x | x in s.conns
      ensures PhaseAt(r, x)
    {
      assert PhaseAt(s, x);
      if x in s.sessions {
        OpenGrows(s.logs[x], s.upd.message);
      }
    }
  }

  /** Every member's segment grows by the message, the others' segments stay. */
  lemma BroadcastSegments(s: System)
    requires Typed(s) && s.upd.Broadcasting? && Distinct(s.sessions) && s.upd.message.command == M.CHAT_MESSAGE
    requires Segments(s.logs, s.spans, s.sessions, s.broadcasts)
    ensures var r := DoBroadcast(s); Segments(r.logs, r.spans, r.sessions, r.broadcasts)
  {
    hide WritersValid, PostAll, Chats;
    var m := s.upd.message;
    var r := DoBroadcast(s);
    PostAllFrame(s, s.sessions, m);
    PostAllLogs(s, s.sessions, m);
    forall x | x in r.logs
      ensures x in r.spans && Segment(r.logs[x], r.spans[x], x in r.sessions, r.broadcasts)
    {
      SegmentGrows(s.logs[x], s.spans[x], x in s.sessions, s.broadcasts, m);
    }
  }

  lemma SegmentGrows(log: seq<M.Message>, span: Span, member: bool, broadcasts: seq<M.Message>, m: M.Message)
    requires Segment(log, span, member, broadcasts) && m.command == M.CHAT_MESSAGE
    ensures Segment(if member then log + [m] else log, span, member, broadcasts + [m])
  {
    hide Chats;
    ChatsAppend(log, m);
    if member {
      assert (broadcasts + [m])[span.from..|broadcasts| + 1] == broadcasts[span.from..] + [m];
    } else {
      assert (broadcasts + [m])[span.from..span.until] == broadcasts[span.from..span.until];
    }
  }

  lemma BroadcastSound(s: System)
    requires Typed(s) && Sound(s) && s.upd.Broadcasting?
    ensures Sound(DoBroadcast(s))
  {
    hide Joins, Answers, WritersValid, Pipeline, Phases, Segments, Channels, PostAll, Open, Ended;
    var r := DoBroadcast(s);
    PostAllFrame(s, s.sessions, s.upd.message);
    assert Flight(r) == Flight(s);
    BroadcastPhases(s);
    OtherMembers(s.conns, s.sessions, s.upd, r.upd);
    BroadcastSegments(s);
    assert forall x :: x in s.sessions ==> !Ended(s.logs[x]) by {
      forall x | x in s.sessions ensures !Ended(s.logs[x]) { OpenNotEnded(s.logs[x]); }
    }
    PostAllChannels(s, s.sessions, s.upd.message);
  }

  // ----- kicking -----

  lemma {:induction false} WithoutAbsent(sessions: seq<Sid>, sid: Sid)
    requires sid !in sessions
    ensures Without(sessions, sid) == sessions
  {
    if sessions != [] {
      WithoutAbsent(sessions[1..], sid);
    }
  }

  /** No session is a member twice, so erasing the first occurrence erases all. */
  lemma {:induction false} WithoutFirstIsWithout(sessions: seq<Sid>, sid: Sid)
    requires Distinct(sessions)
    ensures WithoutFirst(sessions, sid) == Without(sessions, sid)
  {
    if sessions != [] {
      if sessions[0] == sid {
        assert sid !in sessions[1..];
        WithoutAbsent(sessions[1..], sid);
      } else {
        WithoutFirstIsWithout(sessions[1..], sid);
      }
    }
  }

  /** A session that disconnects or is kicked goes, and the others stay in their order. */
  lemma {:induction false} OnlyOneLeaves(a: seq<Sid>, sid: Sid, b: seq<Sid>)
    requires Distinct(a + [sid] + b)
    ensures Without(a + [sid] + b, sid) == WithoutFirst(a + [sid] + b, sid) == a + b
    decreases |a|
  {
    var all := a + [sid] + b;
    if a == [] {
      assert all[1..] == b && sid !in b by { assert forall i :: 0 <= i < |b| ==> all[i + 1] == b[i]; }
      WithoutAbsent(b, sid);
    } else {
      assert all[1..] == a[1..] + [sid] + b;
      assert all[|a|] == sid;
      OnlyOneLeaves(a[1..], sid, b);
    }
  }

  lemma KickPhases(s: System, r: System, sid: Sid, m: M.Message)
    requires Typed(s) && s.upd.Idle? && sid in s.sessions && Phases(s.conns, s.sessions, s.pending, s.upd, s.logs)
    requires r == s.(logs := Post(s, sid, m).logs, sessions := Without(s.sessions, sid))
    requires m.command == M.SERVER_KICK_REQUEST
    ensures Open(s.logs[sid]) && Ended(r.logs[sid])
    ensures Phases(r.conns, r.sessions, r.pending, r.upd, r.logs)
  {
    hide WritersValid, AllIn, Open, Ended, Waiting;
    MemberOpen(s, sid);
    OpenGrows(s.logs[sid], m);
    assert PhaseAt(r, sid);
    assert Elsewhere(s, r, sid);
    PhasesBut(s, r, sid);
  }

  lemma SegmentEnds(log: seq<M.Message>, span: Span, broadcasts: seq<M.Message>, m: M.Message)
    requires Segment(log, span, true, broadcasts) && m.command != M.CHAT_MESSAGE
    ensures Segment(log + [m], span.(until := |broadcasts|), false, broadcasts)
  {
    hide Chats;
    ChatsAppend(log, m);
  }

  lemma KickSegments(s: System, r: System, sid: Sid, m: M.Message)
    requires Typed(s) && sid in s.sessions && Segments(s.logs, s.spans, s.sessions, s.broadcasts)
    requires r == s.(logs := Post(s, sid, m).logs, sessions := Without(s.sessions, sid),
                     spans := s.spans[sid := s.spans[sid].(until := |s.broadcasts|)])
    requires m.command != M.CHAT_MESSAGE
    ensures Segments(r.logs, r.spans, r.sessions, r.broadcasts)
  {
    hide WritersValid, Segment;
    assert sid in s.conns && Segment(s.logs[sid], s.spans[sid], true, s.broadcasts);
    SegmentEnds(s.logs[sid], s.spans[sid], s.broadcasts, m);
  }

  lemma KickMembers(s: System, sid: Sid)
    requires Members(s.conns, s.sessions, s.upd) && s.upd.Idle?
    ensures WithoutFirst(s.sessions, sid) == Without(s.sessions, sid)
    ensures Members(s.conns, Without(s.sessions, sid), s.upd)
  {
    hide Without, WithoutFirst;
    WithoutFirstIsWithout(s.sessions, sid);
    WithoutApart(s.conns, s.sessions, sid);
  }

  lemma KickSound(s: System, name: Text, reason: Text, now: M.Int64)
    requires Typed(s) && Sound(s) && s.upd.Idle?
    ensures DoKick(s, name, reason, now).fault == s.fault ==> Sound(DoKick(s, name, reason, now))
  {
    hide Joins, Answers, WritersValid, Pipeline, Phases, Members, Segments, Channels, Open, Ended, FindMember, Without,
      WithoutFirst, AllChats;
    var found := FindMember(s.conns, s.sessions, name);
    if found.Some? {
      var sid := found.value;
      var m := M.Message(M.SERVER_KICK_REQUEST, [], reason, now);
      var r := DoKick(s, name, reason, now);
      var posted := Post(s, sid, m);
      assert Flight(r) == Flight(s);
      KickMembers(s, sid);
      KickPhases(s, s.(logs := posted.logs, sessions := r.sessions), sid, m);
      KickSegments(s, s.(logs := posted.logs, sessions := r.sessions, spans := r.spans), sid, m);
      OpenNotEnded(s.logs[sid]);
      PostChannels(s, sid, m);
      CloseChannels(s.writers, posted.logs, posted.tasks, sid);
    }
  }

  // ----- all the steps -----

  lemma UpdateSound(s: System, step: UpdateStep)
    requires Typed(s) && Sound(s) && UpdateEnabled(s, step) && s.fault == NoFault
    ensures ApplyUpdate(s, step).fault != NullSession
    ensures ApplyUpdate(s, step).fault == NoFault ==> Sound(ApplyUpdate(s, step))
  {
    hide Sound, Typed, DoCheckConnected, DoAccept, DoWelcome, DoReject, DoDrop, DoSendPicture, DoPopMessage,
      DoBroadcast, DoSaveBroadcast, DoPopResponse, FindMember, WithoutFirst;
    UpdateFaults(s, step);
    match step
    case PopResponse => PopResponseSound(s);
    case FindPending => FindPendingSound(s);
    case CheckConnected => CheckConnectedSound(s);
    case Accept => AcceptSound(s);
    case Welcome(now) => WelcomeSound(s, now);
    case Reject(now) => RejectSound(s, now);
    case Drop => DropSound(s);
    case SendPicture(now) => SendPictureSound(s, now);
    case PopMessage => PopMessageSound(s);
    case Broadcast => BroadcastSound(s);
    case SaveBroadcast => SaveBroadcastSound(s);
    case NextFrame => NextFrameSound(s);
    case Kick(name, reason, now) => KickSound(s, name, reason, now);
  }

  /** Only two steps of the update thread can end in a fault. */
  lemma UpdateFaults(s: System, step: UpdateStep)
    requires Typed(s) && UpdateEnabled(s, step)
    ensures !step.FindPending? && !step.Kick? ==> ApplyUpdate(s, step).fault == s.fault
    ensures step.Kick? ==> ApplyUpdate(s, step).fault in {s.fault, UnknownKick}
  {
    hide AllIn, WritersValid, PostAll, PictureMessage, Lookups, FindMember, WithoutFirst, ConnectedReason, WelcomeText;
    if step.Broadcast? {
      PostAllFrame(s, s.sessions, s.upd.message) by {
        assert forall i :: 0 <= i < |s.sessions| ==> s.sessions[i] in s.logs by { MembersLogged(s); }
      }
    }
  }

  lemma OtherFaults(s: System, step: Step)
    requires Typed(s) && Enabled(s, step) && !step.Update?
    ensures Apply(s, step).fault != NullSession
  {
    hide AllIn, WritersValid, Handle, Writer.Enabled, Writer.Apply, M.Serialize;
    match step
    case Network(Connect(_)) =>
    case Network(Receive(_, _)) =>
    case Network(PushJoin) =>
    case Network(EndOfFile(_)) =>
    case Network(RunTask) => assert DoRunTask(s).fault in {s.fault, BadText};
    case Network(Written(_, _)) =>
    case Database(TakeRequest) =>
    case Database(Answer) => assert DoAnswer(s).fault in {s.fault, BadPicture};
  }

  /** Under H1 and H2 every step of every thread keeps the invariants. */
  lemma StepInv(s: System, step: Step)
    requires Inv(s) && Enabled(s, step) && WellBehaved(s, step)
    ensures Inv(Apply(s, step))
  {
    hide Sound, Typed, WellBehaved, ApplyNetwork, ApplyDatabase, ApplyUpdate, NetworkEnabled, DatabaseEnabled,
      UpdateEnabled;
    StepTyped(s, step);
    match step
    case Network(n) => OtherFaults(s, step); NetworkSound(s, n);
    case Database(d) => OtherFaults(s, step); DatabaseSound(s, d);
    case Update(u) => UpdateSound(s, u);
  }
}
