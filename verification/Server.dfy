/**
 * The methods of the server as they run on the update thread, each proved to be a path of steps of the
 * interleaved system, so that what is proved of the steps holds of the methods.
 */
module Server {
  import opened Bytes
  import opened User
  import opened Store
  import opened ServerSystem
  import opened ServerInvariants
  import opened ServerUpdateProof
  import Json
  import M = Message

  // ----- loops and the functions they compute -----

  lemma {:induction false} PostAllSnoc(s: System, to: seq<Sid>, x: Sid, m: M.Message)
    requires x in s.logs && forall i :: 0 <= i < |to| ==> to[i] in s.logs
    ensures x in PostAll(s, to, m).logs
    ensures PostAll(s, to + [x], m) == Post(PostAll(s, to, m), x, m)
    decreases |to|
  {
    if to != [] {
      assert (to + [x])[1..] == to[1..] + [x];
      PostAllSnoc(Post(s, to[0], m), to[1..], x, m);
    } else {
      assert PostAll(Post(s, x, m), [], m) == Post(s, x, m);
      assert (to + [x])[1..] == [];
    }
  }

  lemma {:induction false} LookupsSnoc(conns: map<Sid, Conn>, sessions: seq<Sid>, x: Sid, user: User)
    requires AllIn(sessions + [x], conns) && AllIn(sessions, conns) && x in conns
    ensures Lookups(conns, sessions + [x], user) == Lookups(conns, sessions, user)
      + [GetPicture(conns[x].user, CStr(user.username)), GetPicture(user, CStr(conns[x].user.username))]
    decreases |sessions|
  {
    hide CStr;
    if sessions != [] {
      assert (sessions + [x])[1..] == sessions[1..] + [x];
      LookupsSnoc(conns, sessions[1..], x, user);
    } else {
      assert (sessions + [x])[1..] == [];
    }
  }

  lemma {:induction false} FindMemberIs(conns: map<Sid, Conn>, sessions: seq<Sid>, name: Text, k: nat)
    requires AllIn(sessions, conns) && k <= |sessions|
    requires forall j :: 0 <= j < k ==> conns[sessions[j]].user.username != name
    requires k < |sessions| ==> conns[sessions[k]].user.username == name
    ensures FindMember(conns, sessions, name) == if k < |sessions| then Some(sessions[k]) else None
    decreases |sessions|
  {
    if sessions != [] && k > 0 {
      FindMemberIs(conns, sessions[1..], name, k - 1);
    }
  }

  lemma {:induction false} WithoutFirstIs(sessions: seq<Sid>, k: nat)
    requires k < |sessions| && forall j :: 0 <= j < k ==> sessions[j] != sessions[k]
    ensures WithoutFirst(sessions, sessions[k]) == sessions[..k] + sessions[k + 1..]
    decreases |sessions|
  {
    if k > 0 {
      var rest := sessions[1..];
      assert rest[k - 1] == sessions[k];
      WithoutFirstIs(rest, k - 1);
      assert sessions[..k] == [sessions[0]] + rest[..k - 1] && sessions[k + 1..] == rest[k..];
    }
  }

  // ----- paths of the update thread -----

  ghost predicate Able(s: System, step: UpdateStep) {
    Typed(s) && s.fault == NoFault && UpdateEnabled(s, step)
  }

  /** The state after some steps of the update thread, undisturbed. */
  ghost function Play(s: System, steps: seq<UpdateStep>): Option<System> {
    if steps == [] then Some(s)
    else
      var p :- Play(s, steps[..|steps| - 1]);
      if Able(p, steps[|steps| - 1]) then Some(ApplyUpdate(p, steps[|steps| - 1])) else None
  }

  ghost predicate Path(s: System, r: System) {
    exists steps :: Play(s, steps) == Some(r)
  }

  lemma {:induction false} PathInv(s: System, steps: seq<UpdateStep>, r: System)
    requires Inv(s) && Play(s, steps) == Some(r)
    ensures Inv(r)
  {
    hide Inv, Typed, UpdateEnabled, ApplyUpdate;
    if steps != [] {
      var p := Play(s, steps[..|steps| - 1]).value;
      PathInv(s, steps[..|steps| - 1], p);
      StepInv(p, Update(steps[|steps| - 1]));
    }
  }

  /** A sound state without a fault on a path from `start`. */
  ghost predicate On(start: System, s: System) {
    Path(start, s) && Typed(s) && s.fault == NoFault
  }

  lemma OnStart(start: System)
    requires Typed(start) && start.fault == NoFault
    ensures On(start, start)
  {
    hide Typed;
    assert Play(start, []) == Some(start);
  }

  lemma OnStep(start: System, p: System, step: UpdateStep)
    requires On(start, p) && UpdateEnabled(p, step) && ApplyUpdate(p, step).fault == NoFault
    ensures On(start, ApplyUpdate(p, step))
  {
    hide Typed, UpdateEnabled, ApplyUpdate;
    UpdateTyped(p, step);
    var steps :| Play(start, steps) == Some(p);
    assert (steps + [step])[..|steps|] == steps;
    assert Play(start, steps + [step]) == Some(ApplyUpdate(p, step));
  }

  lemma OnInv(start: System, s: System)
    requires On(start, s) && Inv(start)
    ensures Inv(s) && Sound(s)
  {
    hide Sound, Typed;
    var steps :| Play(start, steps) == Some(s);
    PathInv(start, steps, s);
  }

  // ----- what a whole method does to the state -----

  function Accepted(s: System, now: M.Int64): System
    requires Typed(s) && s.upd.Accepting?
  {
    AcceptTyped(s);
    DoWelcome(DoAccept(s), now)
  }

  function Rejected(s: System, now: M.Int64): System
    requires Typed(s) && s.upd.Rejecting?
  {
    DoDrop(DoReject(s, now))
  }

  /** The join's session is found and the decision made. */
  function Checked(s: System): (c: System)
    requires Typed(s) && s.upd.Joining? && s.upd.response.username in s.pending
    ensures Typed(c) && (c.upd.Accepting? || c.upd.Rejecting?)
  {
    FindPendingTyped(s);
    CheckConnectedTyped(DoFindPending(s));
    DoCheckConnected(DoFindPending(s))
  }

  function PendingHandled(s: System, now: M.Int64): System
    requires Typed(s) && s.upd.Joining? && s.upd.response.username in s.pending
  {
    var c := Checked(s);
    if c.upd.Accepting? then Accepted(c, now) else Rejected(c, now)
  }

  lemma OnPop(start: System, s: System)
    requires On(start, s)
    ensures s.upd.Responses? ==> On(start, DoPopResponse(s))
    ensures s.upd.Inbox? ==> On(start, DoPopMessage(s))
  {
    hide Path, Typed;
    if s.upd.Responses? {
      OnStep(start, s, PopResponse);
    }
    if s.upd.Inbox? {
      OnStep(start, s, PopMessage);
    }
  }

  lemma OnPicture(start: System, s: System, now: M.Int64)
    requires On(start, s) && s.upd.Picturing?
    ensures var r := DoSendPicture(s, now);
      On(start, r) && r == s.(logs := r.logs, tasks := r.tasks, upd := Responses)
  {
    hide Path, WritersValid, AllIn, FindMember, PictureMessage;
    OnStep(start, s, SendPicture(now));
  }

  lemma OnAccepted(start: System, s: System, now: M.Int64)
    requires On(start, s) && s.upd.Accepting?
    ensures var r := Accepted(s, now);
      && On(start, r)
      && r == s.(logs := r.logs, tasks := r.tasks, upd := Responses, sessions := r.sessions, spans := r.spans,
                 requests := r.requests)
  {
    hide Path, WritersValid, AllIn, Lookups, WelcomeText;
    OnStep(start, s, Accept);
    OnStep(start, DoAccept(s), Welcome(now));
  }

  lemma OnRejected(start: System, s: System, now: M.Int64)
    requires On(start, s) && s.upd.Rejecting?
    ensures var r := Rejected(s, now);
      On(start, r) && r == s.(logs := r.logs, tasks := r.tasks, upd := Responses)
  {
    hide Path, WritersValid, AllIn;
    OnStep(start, s, Reject(now));
    OnStep(start, DoReject(s, now), Drop);
  }

  lemma OnPending(start: System, s: System, now: M.Int64)
    requires On(start, s) && s.upd.Joining? && s.upd.response.username in s.pending
    ensures var r := PendingHandled(s, now);
      && On(start, r) && r.upd == Responses
      && r.inbox == s.inbox && r.broadcasts == s.broadcasts && r.responses == s.responses
  {
    hide Path, WritersValid, AllIn, Accepted, Rejected, FindMember, ConnectedReason;
    var f := DoFindPending(s);
    assert On(start, f) by { OnStep(start, s, FindPending); }
    var c := DoCheckConnected(f);
    assert On(start, c) by { OnStep(start, f, CheckConnected); }
    if c.upd.Accepting? {
      OnAccepted(start, c, now);
    } else {
      OnRejected(start, c, now);
    }
  }

  lemma NullOnPath(start: System, s: System)
    requires On(start, s) && s.upd.Joining? && s.upd.response.username !in s.pending
    ensures !Inv(start)
  {
    hide Inv, Sound;
    if Inv(start) {
      OnInv(start, s);
      FindPendingSound(s);
    }
  }

  /** One message is broadcast and handed to the database. */
  lemma OnBroadcast(start: System, s: System)
    requires On(start, s) && s.upd.Broadcasting?
    ensures forall i :: 0 <= i < |s.sessions| ==> s.sessions[i] in s.logs
    ensures var r := PostAll(s, s.sessions, s.upd.message);
      && r == s.(logs := r.logs, tasks := r.tasks)
      && On(start, r.(broadcasts := s.broadcasts + [s.upd.message],
                      requests := s.requests + [SaveMessage(s.upd.message)], upd := Inbox))
  {
    hide Path, WritersValid, AllIn, PostAll;
    MembersLogged(s);
    PostAllFrame(s, s.sessions, s.upd.message);
    var b := DoBroadcast(s);
    OnStep(start, s, UpdateStep.Broadcast);
    OnStep(start, b, SaveBroadcast);
  }

  /** What the roster is told of a rejection. */
  function RejectedText(name: Text, reason: Text): Text {
    Json.Ascii("Rejected: ") + name + Json.Ascii(" reason: ") + reason
  }

  /** What the roster is told of a join about to be answered: an accepted name, or the text of a rejection. */
  function Arrivals(conns: map<Sid, Conn>, u: UpdateThread): seq<Text> {
    if u.Accepting? && u.sid in conns then [CStr(conns[u.sid].user.username)] else []
  }

  function Departures(conns: map<Sid, Conn>, u: UpdateThread): seq<Text> {
    if u.Rejecting? && u.sid in conns then [RejectedText(conns[u.sid].user.username, u.reason)] else []
  }

  class Server {
    var conns: map<Sid, Conn>         // the session objects
    var sessions: seq<Sid>
    var pending: map<Text, Sid>
    var inbox: seq<M.Message>
    var tasks: seq<Task>              // what is posted to the network thread
    var requests: seq<Request>        // the queues of the database
    var responses: seq<Response>
    var pendingUsernames: seq<Text>       // for the roster: who was accepted
    var disconnectedUsernames: seq<Text>  // for the roster: who left, and who was rejected
    ghost var rest: System            // what only the other threads change, and the history

    ghost function View(u: UpdateThread): System
      reads this
    {
      rest.(conns := conns, sessions := sessions, pending := pending, inbox := inbox, tasks := tasks,
            requests := requests, responses := responses, upd := u)
    }

    method Send(sid: Sid, m: M.Message, ghost u: UpdateThread)
      requires sid in View(u).logs
      modifies this`tasks, this`rest
      ensures View(u) == Post(old(View(u)), sid, m)
    {
      tasks := tasks + [Task.Send(sid, m)];
      rest := rest.(logs := rest.logs[sid := rest.logs[sid] + [m]]);
    }

    method DisconnectAfterWrite(sid: Sid, ghost u: UpdateThread)
      modifies this`tasks
      ensures View(u) == old(View(u)).(tasks := old(tasks) + [Close(sid)])
    {
      tasks := tasks + [Close(sid)];
    }

    /** Every member is sent the message, in the order of the members. */
    method Broadcast(m: M.Message, ghost u: UpdateThread)
      requires forall i :: 0 <= i < |sessions| ==> sessions[i] in View(u).logs
      modifies this`tasks, this`rest
      ensures sessions == old(sessions)
      ensures View(u) == PostAll(old(View(u)), sessions, m)
    {
      ghost var before := View(u);
      for i := 0 to |sessions|
        invariant sessions == before.sessions
        invariant View(u) == PostAll(before, sessions[..i], m)
      {
        assert sessions[..i + 1] == sessions[..i] + [sessions[i]];
        PostAllSnoc(before, sessions[..i], sessions[i], m);
        Send(sessions[i], m, u);
      }
      assert sessions[..|sessions|] == sessions;
    }

    /** The position of the first member with this username. */
    method Find(name: Text) returns (k: nat)
      requires AllIn(sessions, conns)
      ensures k <= |sessions| && forall j :: 0 <= j < k ==> conns[sessions[j]].user.username != name
      ensures FindMember(conns, sessions, name) == if k < |sessions| then Some(sessions[k]) else None
    {
      k := 0;
      while k < |sessions| && conns[sessions[k]].user.username != name
        invariant k <= |sessions| && forall j :: 0 <= j < k ==> conns[sessions[j]].user.username != name
      {
        k := k + 1;
      }
      FindMemberIs(conns, sessions, name, k);
    }

    method IsUserConnected(user: User) returns (connected: bool)
      requires AllIn(sessions, conns)
      ensures connected <==> exists i :: 0 <= i < |sessions| && conns[sessions[i]].user.username == user.username
    {
      var k := Find(user.username);
      connected := k < |sessions|;
      if connected {
        assert conns[sessions[k]].user.username == user.username;
      }
    }

    /** Asks for the pictures between a new member and each of the others. */
    method RequestPictures(user: User)
      requires AllIn(sessions, conns)
      modifies this`requests
      ensures requests == old(requests) + Lookups(conns, sessions, user)
    {
      hide CStr;
      for i := 0 to |sessions|
        invariant AllIn(sessions[..i], conns)
        invariant requests == old(requests) + Lookups(conns, sessions[..i], user)
      {
        assert sessions[..i + 1] == sessions[..i] + [sessions[i]];
        LookupsSnoc(conns, sessions[..i], sessions[i], user);
        var other := conns[sessions[i]].user;
        requests := requests + [GetPicture(other, CStr(user.username)), GetPicture(user, CStr(other.username))];
      }
      assert sessions[..|sessions|] == sessions;
    }

    method OnClientAccept(sid: Sid, now: M.Int64)
      requires Typed(View(Accepting(sid)))
      modifies this
      ensures View(Responses) == Accepted(old(View(Accepting(sid))), now)
      ensures pendingUsernames == old(pendingUsernames) + Arrivals(old(conns), Accepting(sid))
      ensures disconnectedUsernames == old(disconnectedUsernames)
      ensures sid in old(conns) && pendingUsernames == old(pendingUsernames) + [CStr(old(conns)[sid].user.username)]
      ensures sid in old(rest).logs && rest.logs == old(rest).logs[sid := old(rest).logs[sid]
        + [M.Message(M.LOGIN_RESPONSE_ACCEPT, [], Json.Ascii("Successfully connected to the server"), now)]]
    {
      hide Typed, Lookups, Json.Ascii, CStr;
      ghost var before := View(Accepting(sid));
      AcceptTyped(before);
      AcceptingIn(before);
      RequestPictures(conns[sid].user);
      sessions := sessions + [sid];
      rest := rest.(spans := rest.spans[sid := Span(|rest.broadcasts|, |rest.broadcasts|)]);
      assert View(Welcoming(sid)) == DoAccept(before);
      pendingUsernames := pendingUsernames + [CStr(conns[sid].user.username)];
      Send(sid, M.Message(M.LOGIN_RESPONSE_ACCEPT, [], WelcomeText(), now), Welcoming(sid));
    }

    method OnClientReject(sid: Sid, reason: Text, now: M.Int64)
      requires Typed(View(Rejecting(sid, reason)))
      modifies this`tasks, this`rest, this`disconnectedUsernames
      ensures View(Responses) == Rejected(old(View(Rejecting(sid, reason))), now)
      ensures disconnectedUsernames == old(disconnectedUsernames) + Departures(conns, Rejecting(sid, reason))
      ensures sid in conns && disconnectedUsernames == old(disconnectedUsernames)
        + [Json.Ascii("Rejected: ") + conns[sid].user.username + Json.Ascii(" reason: ") + reason]
      ensures tasks == old(tasks)
        + [Task.Send(sid, M.Message(M.LOGIN_RESPONSE_REJECT, [], reason, now)), Close(sid)]
      ensures sid in old(rest).logs && rest.logs == old(rest).logs[sid := old(rest).logs[sid]
        + [M.Message(M.LOGIN_RESPONSE_REJECT, [], reason, now)]]
    {
      hide WritersValid, AllIn, Json.Ascii;
      Send(sid, M.Message(M.LOGIN_RESPONSE_REJECT, [], reason, now), Dropping(sid));
      DisconnectAfterWrite(sid, Dropping(sid));
      disconnectedUsernames := disconnectedUsernames + [RejectedText(conns[sid].user.username, reason)];
    }

    /** Runs on the network thread, while the update thread is anywhere. */
    method OnClientDisconnected(sid: Sid, ghost u: UpdateThread)
      requires Typed(View(u)) && sid in conns
      modifies this
      ensures View(u) == DoEndOfFile(old(View(u)), sid)
      ensures disconnectedUsernames == old(disconnectedUsernames) + [old(conns)[sid].user.username]
      ensures pendingUsernames == old(pendingUsernames)
    {
      hide WritersValid, AllIn;
      disconnectedUsernames := disconnectedUsernames + [conns[sid].user.username];
      if sid in sessions {
        rest := rest.(spans := rest.spans[sid := rest.spans[sid].(until := |rest.broadcasts|)]);
      }
      conns := conns[sid := conns[sid].(reading := false)];
      sessions := Without(sessions, sid);
    }

    method HandleProfilePictureDataRequest(response: Response, now: M.Int64)
      requires Typed(View(Picturing(response)))
      modifies this`tasks, this`rest
      ensures View(Responses) == DoSendPicture(old(View(Picturing(response))), now)
    {
      hide WritersValid, PictureMessage;
      var k := Find(response.recipient);
      if k < |sessions| {
        Send(sessions[k], PictureMessage(response, now), Picturing(response));
      }
    }

    /** False when the response finds no session, where the original goes on with a null pointer. */
    method HandlePendingSessions(response: Response, now: M.Int64) returns (found: bool)
      requires Typed(View(Joining(response)))
      modifies this
      ensures found <==> response.username in old(pending)
      ensures found ==> View(Responses) == PendingHandled(old(View(Joining(response))), now)
      ensures !found ==> View(Joining(response)) == old(View(Joining(response)))
      ensures found ==> var c := Checked(old(View(Joining(response))));
        && pendingUsernames == old(pendingUsernames) + Arrivals(c.conns, c.upd)
        && disconnectedUsernames == old(disconnectedUsernames) + Departures(c.conns, c.upd)
      ensures !found ==>
        pendingUsernames == old(pendingUsernames) && disconnectedUsernames == old(disconnectedUsernames)
    {
      hide Typed, RejectedText, CStr, ConnectedReason, Accepted, Rejected, FindMember;
      ghost var s := View(Joining(response));
      found := response.username in pending;
      if !found {
        return;
      }
      FindPendingTyped(s);
      var sid := pending[response.username];
      pending := pending - {response.username};
      ghost var f := View(Found(sid, response));
      assert f == DoFindPending(s);
      CheckConnectedTyped(f);
      if response.kind.LOGIN_FAIL? || response.kind.REGISTER_FAIL? {
        OnClientReject(sid, response.message, now);
      } else {
        assert sid in conns && AllIn(sessions, conns) by { FoundIn(f); }
        ConnectedIsFound(conns, sessions, conns[sid].user.username);
        var connected := IsUserConnected(conns[sid].user);
        if connected {
          OnClientReject(sid, ConnectedReason(), now);
        } else {
          OnClientAccept(sid, now);
        }
      }
    }

    /** False when nobody has the name, where the original dereferences the end iterator. */
    method KickUser(name: Text, reason: Text, now: M.Int64) returns (found: bool)
      requires Typed(View(Idle))
      modifies this
      ensures found <==> FindMember(old(conns), old(sessions), name).Some?
      ensures found ==> View(Idle) == DoKick(old(View(Idle)), name, reason, now)
      ensures !found ==> View(Idle) == old(View(Idle))
      ensures disconnectedUsernames == old(disconnectedUsernames) + if found then [CStr(name)] else []
      ensures pendingUsernames == old(pendingUsernames)
    {
      hide WritersValid;
      var k := Find(name);
      found := k < |sessions|;
      if found {
        var sid := sessions[k];
        WithoutFirstIs(sessions, k);
        Send(sid, M.Message(M.SERVER_KICK_REQUEST, [], reason, now), Idle);
        DisconnectAfterWrite(sid, Idle);
        sessions := sessions[..k] + sessions[k + 1..];
        rest := rest.(spans := rest.spans[sid := rest.spans[sid].(until := |rest.broadcasts|)]);
        disconnectedUsernames := disconnectedUsernames + [CStr(name)];
      }
    }

    /**
     * One frame: all responses, then all messages. The state afterwards lies on a path of the update thread,
     * and it keeps the invariants. False stands for the null session.
     */
    method Update(now: M.Int64) returns (ok: bool)
      requires Typed(View(Responses)) && View(Responses).fault == NoFault
      modifies this
      ensures ok ==> responses == [] && inbox == [] && Path(old(View(Responses)), View(Idle))
      ensures ok ==> rest.broadcasts == old(rest.broadcasts) + old(inbox)
      ensures Inv(old(View(Responses))) ==> ok && Inv(View(Idle))
      ensures old(pendingUsernames) <= pendingUsernames && old(disconnectedUsernames) <= disconnectedUsernames
    {
      hide Typed, Inv, On, Path, PendingHandled, Checked, Arrivals, Departures, DoSendPicture, PostAll;
      ghost var start := View(Responses);
      OnStart(start);
      while responses != []
        invariant old(pendingUsernames) <= pendingUsernames && old(disconnectedUsernames) <= disconnectedUsernames
        invariant On(start, View(Responses)) && rest.broadcasts == start.broadcasts && inbox == start.inbox
        decreases |responses|
      {
        OnPop(start, View(Responses));
        var response := responses[0];
        responses := responses[1..];
        if response.kind.USER_PROFILE_PICTURE? {
          ghost var s := View(Picturing(response));
          OnPicture(start, s, now);
          OnTyped(start, s);
          HandleProfilePictureDataRequest(response, now);
        } else {
          ghost var s := View(Joining(response));
          OnTyped(start, s);
          ok := HandlePendingSessions(response, now);
          if !ok {
            NullOnPath(start, s);
            return false;
          }
          OnPending(start, s, now);
        }
      }
      OnPop(start, View(Responses));
      while inbox != []
        invariant old(pendingUsernames) <= pendingUsernames && old(disconnectedUsernames) <= disconnectedUsernames
        invariant On(start, View(Inbox)) && responses == []
        invariant rest.broadcasts + inbox == start.broadcasts + start.inbox
        decreases |inbox|
      {
        OnPop(start, View(Inbox));
        var message := inbox[0];
        inbox := inbox[1..];
        ghost var s := View(Broadcasting(message));
        OnBroadcast(start, s);
        Broadcast(message, Broadcasting(message));
        rest := rest.(broadcasts := rest.broadcasts + [message]);
        requests := requests + [SaveMessage(message)];
      }
      OnPop(start, View(Inbox));
      OnTyped(start, View(Idle));
      if Inv(start) {
        OnInv(start, View(Idle));
      }
      return true;
    }
  }

  lemma AcceptingIn(s: System)
    requires Typed(s) && s.upd.Accepting?
    ensures AllIn(s.sessions, s.conns) && s.upd.sid in s.conns && s.upd.sid in s.logs && s.upd.sid in s.spans
  {
    hide WritersValid;
  }

  lemma OnTyped(start: System, s: System)
    requires On(start, s)
    ensures Typed(s) && s.fault == NoFault && Path(start, s)
  {
    hide Typed, Path;
  }

  lemma FoundIn(s: System)
    requires Typed(s) && s.upd.Found?
    ensures s.upd.sid in s.conns && AllIn(s.sessions, s.conns)
  {
  }

  lemma ConnectedIsFound(conns: map<Sid, Conn>, sessions: seq<Sid>, name: Text)
    requires AllIn(sessions, conns)
    ensures FindMember(conns, sessions, name).Some?
        <==> exists i :: 0 <= i < |sessions| && conns[sessions[i]].user.username == name
  {
  }
}
