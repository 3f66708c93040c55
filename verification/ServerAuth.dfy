/** Every member's password was checked against the one registered under the member's username. */
module ServerAuth {
  import opened Bytes
  import opened User
  import opened Store
  import opened StoreRefinement
  import opened StoreRuns
  import opened ServerSystem
  import opened ServerInvariants
  import opened ServerProof
  import ServerUpdateProof
  import opened ServerRuns
  import M = Message
  import PasswordHasher
  import Picture
  import Writer

  /** The account under the user's name has the user's password: hashed whole, or as a C string. */
  ghost predicate Authentic(b: Book, user: User) {
    var n := CStr(user.username);
    && n in b.accounts
    && (b.accounts[n].password == PasswordHasher.HashOf(user.password)
        || b.accounts[n].password == PasswordHasher.HashOf(CStr(user.password)))
  }

  predicate Success(r: Response) { r.kind.LOGIN_SUCCESS? || r.kind.REGISTER_SUCCESS? }

  /** The requests on their way, oldest first. */
  function Coming(s: System): seq<Request> {
    (if s.db.DbWork? then [s.db.request] else []) + s.requests + (if s.net.NetJoin? then [s.net.request] else [])
  }

  /** The responses on their way, oldest first. */
  function Going(s: System): seq<Response> {
    (if s.upd.Joining? then [s.upd.response] else []) + s.responses
  }

  /** A member, or a session about to become one. */
  ghost predicate Vouched(s: System, sid: Sid) {
    || sid in s.sessions
    || s.upd == Accepting(sid) || s.upd == Welcoming(sid)
    || (s.upd.Found? && s.upd.sid == sid && !s.upd.response.kind.LOGIN_FAIL? && !s.upd.response.kind.REGISTER_FAIL?)
  }

  /** A join leads back to the session whose user it carries. */
  ghost predicate RequestsOk(conns: map<Sid, Conn>, pending: map<Text, Sid>, coming: seq<Request>) {
    forall r :: r in coming && IsJoin(r) ==>
      var n := CStr(r.user.username);
      n in pending && pending[n] in conns && conns[pending[n]].user == r.user
  }

  ghost predicate ResponsesOk(b: Book, conns: map<Sid, Conn>, pending: map<Text, Sid>, going: seq<Response>) {
    forall r :: r in going && Success(r) ==>
      r.username in pending && pending[r.username] in conns && Authentic(b, conns[pending[r.username]].user)
  }

  ghost predicate SessionsOk(b: Book, s: System) {
    forall sid :: sid in s.conns && Vouched(s, sid) ==> Authentic(b, s.conns[sid].user)
  }

  ghost predicate AuthInv(s: System) {
    && WellFormed(s.tables)
    && RequestsOk(s.conns, s.pending, Coming(s))
    && ResponsesOk(BookOf(s.tables), s.conns, s.pending, Going(s))
    && SessionsOk(BookOf(s.tables), s)
  }

  // ----- steps that answer nothing and take no join -----

  ghost predicate Quiet(s: System, r: System) {
    && r.tables == s.tables && r.pending == s.pending
    && (forall x :: x in s.conns ==> x in r.conns && r.conns[x].user == s.conns[x].user)
    && (forall q :: q in Coming(r) && IsJoin(q) ==> q in Coming(s))
    && (forall q :: q in Going(r) && Success(q) ==> q in Going(s))
    && (forall x :: Vouched(r, x) ==> Vouched(s, x) && x in s.conns)
  }

  lemma QuietAuth(s: System, r: System)
    requires AuthInv(s) && Quiet(s, r)
    ensures AuthInv(r)
  {
    hide WellFormed, BookOf, Authentic, Coming, Going, Vouched, CStr;
  }

  lemma VouchedTyped(s: System)
    requires Typed(s)
    ensures forall x :: Vouched(s, x) ==> x in s.conns
  {
    hide WritersValid;
  }

  lemma ConnectQuiet(s: System, sid: Sid)
    requires Typed(s) && sid !in s.conns
    ensures Quiet(s, DoConnect(s, sid))
  {
    hide Typed;
    VouchedTyped(s);
  }

  lemma ReceiveQuiet(s: System, sid: Sid, m: M.Message)
    requires Typed(s) && sid in s.conns && !IsJoinMessage(m)
    ensures Quiet(s, DoReceive(s, sid, m))
  {
    hide Typed, CStr, DoReceive;
    VouchedTyped(s);
    ReceiveIs(s, sid, m);
    assert m.command != M.LOGIN_REQUEST && m.command != M.REGISTER_REQUEST;
  }

  lemma EndOfFileQuiet(s: System, sid: Sid)
    requires Typed(s) && sid in s.conns
    ensures Quiet(s, DoEndOfFile(s, sid))
  {
    hide Typed;
    VouchedTyped(s);
  }

  lemma PushJoinQuiet(s: System)
    requires Typed(s) && s.net.NetJoin?
    ensures Quiet(s, DoPushJoin(s))
  {
    hide Typed;
    VouchedTyped(s);
    assert Coming(DoPushJoin(s)) == Coming(s);
  }

  lemma TakeRequestQuiet(s: System)
    requires Typed(s) && s.requests != [] && s.db.DbIdle?
    ensures Quiet(s, DoTakeRequest(s))
  {
    hide Typed;
    VouchedTyped(s);
    assert s.requests == [s.requests[0]] + s.requests[1..];
    assert Coming(DoTakeRequest(s)) == Coming(s);
  }

  lemma RunTaskQuiet(s: System)
    requires Typed(s) && s.tasks != []
    ensures Quiet(s, DoRunTask(s))
  {
    hide Typed, DoRunTask;
    VouchedTyped(s);
    RunTaskFrame(s);
  }

  lemma WriteQuiet(s: System, sid: Sid, ok: bool)
    requires Typed(s) && sid in s.conns && Writer.Enabled(s.writers[sid], Writer.Done(ok))
    ensures Quiet(s, DoWrite(s, sid, Writer.Done(ok)))
  {
    hide Typed, Writer.Enabled, Writer.Apply;
    VouchedTyped(s);
  }

  lemma PopResponseQuiet(s: System)
    requires Typed(s) && s.upd.Responses?
    ensures Quiet(s, DoPopResponse(s))
  {
    hide Typed, Coming, Going, Vouched;
    var r := DoPopResponse(s);
    VouchedTyped(s);
    assert Coming(r) == Coming(s) by { SameRequests(s, r); }
    PopGoing(s);
    PopVouched(s);
  }

  lemma PopGoing(s: System)
    requires s.upd.Responses?
    ensures forall q :: q in Going(DoPopResponse(s)) ==> q in Going(s)
  {
    if s.responses != [] {
      assert s.responses == [s.responses[0]] + s.responses[1..];
    }
  }

  lemma PopVouched(s: System)
    requires s.upd.Responses?
    ensures forall x :: Vouched(DoPopResponse(s), x) ==> Vouched(s, x)
  {
  }

  lemma SameRequests(s: System, r: System)
    requires r == s.(upd := r.upd, responses := r.responses, inbox := r.inbox)
    ensures Coming(r) == Coming(s)
  {
  }

  lemma PopMessageQuiet(s: System)
    requires Typed(s) && s.upd.Inbox?
    ensures Quiet(s, DoPopMessage(s))
  {
    hide Typed, Coming, Going, Vouched;
    var r := DoPopMessage(s);
    VouchedTyped(s);
    assert Coming(r) == Coming(s) by { SameRequests(s, r); }
    PopMessageKeeps(s);
  }

  lemma PopMessageKeeps(s: System)
    requires s.upd.Inbox?
    ensures Going(DoPopMessage(s)) == Going(s)
    ensures forall x :: Vouched(DoPopMessage(s), x) ==> Vouched(s, x)
  {
  }

  lemma CheckConnectedQuiet(s: System)
    requires Typed(s) && s.upd.Found?
    ensures Quiet(s, DoCheckConnected(s))
  {
    hide WritersValid, AllIn, FindMember, ConnectedReason;
    VouchedTyped(s);
  }

  lemma AcceptQuiet(s: System)
    requires Typed(s) && s.upd.Accepting?
    ensures Quiet(s, DoAccept(s))
  {
    hide WritersValid, Lookups;
    VouchedTyped(s);
    LookupsAsk(s.conns, s.sessions, s.conns[s.upd.sid].user);
  }

  /** A message to one session, or to all, concerns no vouching. */
  lemma SentQuiet(s: System, r: System)
    requires Typed(s) && Neutral(r.upd) && !r.upd.Joining?
    requires r == s.(logs := r.logs, tasks := r.tasks, upd := r.upd, broadcasts := r.broadcasts, sessions := r.sessions,
                     spans := r.spans)
    requires forall x :: x in r.sessions ==> x in s.sessions
    ensures Quiet(s, r)
  {
    hide Typed;
    VouchedTyped(s);
  }

  lemma RejectQuiet(s: System, now: M.Int64)
    requires Typed(s) && s.upd.Rejecting?
    ensures Quiet(s, DoReject(s, now))
  {
    hide WritersValid;
    VouchedTyped(s);
  }

  lemma SaveQuiet(s: System)
    requires Typed(s) && s.upd.Saving?
    ensures Quiet(s, DoSaveBroadcast(s))
  {
    hide Typed;
    VouchedTyped(s);
  }

  lemma SendingQuiet(s: System, step: UpdateStep)
    requires Typed(s) && UpdateEnabled(s, step)
    requires step.Welcome? || step.Drop? || step.SendPicture? || step.Broadcast? || step.NextFrame?
    ensures Quiet(s, ApplyUpdate(s, step))
  {
    hide WritersValid, AllIn, PostAll, PictureMessage, FindMember, WelcomeText, Quiet;
    if step.Broadcast? {
      MembersLogged(s);
      PostAllFrame(s, s.sessions, s.upd.message);
    }
    SentQuiet(s, ApplyUpdate(s, step));
  }

  lemma KickQuiet(s: System, name: Text, reason: Text, now: M.Int64)
    requires Typed(s) && s.upd.Idle?
    ensures Quiet(s, DoKick(s, name, reason, now))
  {
    hide WritersValid, AllIn, FindMember, WithoutFirst, Quiet;
    var r := DoKick(s, name, reason, now);
    if FindMember(s.conns, s.sessions, name).Some? {
      SentQuiet(s, r);
    } else {
      FaultQuiet(s, UnknownKick);
    }
  }

  lemma FaultQuiet(s: System, f: Fault)
    requires Typed(s)
    ensures Quiet(s, s.(fault := f))
  {
    hide Typed;
    VouchedTyped(s);
  }

  lemma QuietStep(s: System, step: Step)
    requires Typed(s) && Enabled(s, step)
    requires step.Network? && step.n.Receive? ==> !IsJoinMessage(step.n.message)
    requires step != Database(Answer) && step != Update(FindPending)
    ensures Quiet(s, Apply(s, step))
  {
    hide Typed, Quiet, DoConnect, DoReceive, DoPushJoin, DoEndOfFile, DoRunTask, DoWrite, DoTakeRequest, DoPopResponse,
      DoCheckConnected, DoAccept, DoReject, DoPopMessage, DoSaveBroadcast, DoKick, IsJoinMessage, Writer.Enabled;
    match step
    case Network(Connect(sid)) => ConnectQuiet(s, sid);
    case Network(Receive(sid, m)) => ReceiveQuiet(s, sid, m);
    case Network(PushJoin) => PushJoinQuiet(s);
    case Network(EndOfFile(sid)) => EndOfFileQuiet(s, sid);
    case Network(RunTask) => RunTaskQuiet(s);
    case Network(Written(sid, ok)) => WriteQuiet(s, sid, ok);
    case Database(TakeRequest) => TakeRequestQuiet(s);
    case Update(PopResponse) => PopResponseQuiet(s);
    case Update(PopMessage) => PopMessageQuiet(s);
    case Update(CheckConnected) => CheckConnectedQuiet(s);
    case Update(Accept) => AcceptQuiet(s);
    case Update(Reject(now)) => RejectQuiet(s, now);
    case Update(SaveBroadcast) => SaveQuiet(s);
    case Update(Kick(name, reason, now)) => KickQuiet(s, name, reason, now);
    case Update(u) => SendingQuiet(s, u);
  }

  // ----- a join arrives -----

  /** The pending entries lead to sessions that have joined, so the new one is not among them. */
  lemma JoinRequests(conns: map<Sid, Conn>, pending: map<Text, Sid>, coming: seq<Request>, sid: Sid, c: Conn,
                     r: Request)
    requires RequestsOk(conns, pending, coming) && CStr(c.user.username) !in pending && IsJoin(r) && r.user == c.user
    requires sid in conns && !conns[sid].joined
    requires forall n :: n in pending ==> pending[n] in conns && conns[pending[n]].joined
    ensures RequestsOk(conns[sid := c], pending[CStr(c.user.username) := sid], coming + [r])
  {
    hide CStr, IsJoin;
  }

  lemma JoinResponses(b: Book, conns: map<Sid, Conn>, pending: map<Text, Sid>, going: seq<Response>, sid: Sid, c: Conn)
    requires ResponsesOk(b, conns, pending, going) && CStr(c.user.username) !in pending
    requires sid in conns && !conns[sid].joined
    requires forall n :: n in pending ==> pending[n] in conns && conns[pending[n]].joined
    ensures ResponsesOk(b, conns[sid := c], pending[CStr(c.user.username) := sid], going)
  {
    hide CStr, Authentic;
  }

  lemma JoinAuth(s: System, sid: Sid, user: User, request: Request)
    requires Typed(s) && Sound(s) && AuthInv(s) && sid in s.conns && s.net.NetIdle? && !s.conns[sid].joined
    requires request == Login(user) || request == Register(user)
    requires !Named(Flight(s), CStr(user.username))
    ensures AuthInv(DoJoin(s, sid, user, request))
  {
    hide Typed, Flight, WellFormed, BookOf, Authentic, CStr, Named, DistinctNames, Phases, Members, Segments, OnlyChats,
      Channels, Coming, Going, Vouched, RequestsOk, ResponsesOk;
    JoinVouched(s, sid, user, request);
    JoinMoves(s, sid, user, request);
    var c := s.conns[sid].(user := user, joined := true);
    JoinRequests(s.conns, s.pending, Coming(s), sid, c, request);
    JoinResponses(BookOf(s.tables), s.conns, s.pending, Going(s), sid, c);
  }

  lemma JoinMoves(s: System, sid: Sid, user: User, request: Request)
    requires sid in s.conns && s.net.NetIdle?
    ensures var r := DoJoin(s, sid, user, request); Coming(r) == Coming(s) + [request] && Going(r) == Going(s)
    ensures forall x :: Vouched(DoJoin(s, sid, user, request), x) <==> Vouched(s, x)
  {
    hide CStr;
  }

  lemma JoinVouched(s: System, sid: Sid, user: User, request: Request)
    requires Typed(s) && sid in s.conns && Phases(s.conns, s.sessions, s.pending, s.upd, s.logs) && !s.conns[sid].joined
    ensures !Vouched(s, sid)
  {
    hide Typed, Legal, Waiting;
    assert PhaseAt(s, sid);
  }

  // ----- the database answers -----

  lemma BookKeeps(b: Book, request: Request, user: User)
    requires Authentic(b, user)
    ensures Authentic(BookHandle(b, request).book, user)
  {
    hide CStr, PasswordHasher.HashOf, BookLogin, Reason, Picture.Pixels;
  }

  /** A successful answer is given under the name of the join, to a user whose password is the account's. */
  lemma BookVouches(b: Book, request: Request, r: Response)
    requires r in BookHandle(b, request).responses && Success(r)
    ensures IsJoin(request) && r.username == CStr(request.user.username)
    ensures Authentic(BookHandle(b, request).book, request.user)
  {
    hide CStr, PasswordHasher.HashOf, Reason, Picture.Pixels;
  }

  lemma AnswerMoves(s: System)
    requires s.db.DbWork?
    ensures var r, o := DoAnswer(s), Handle(s.tables, s.db.request);
      && r == s.(tables := o.tables, responses := r.responses, requests := r.requests, db := r.db, fault := r.fault)
      && r.responses == s.responses + o.responses && r.requests == s.requests + o.requeued && !r.db.DbWork?
  {
    hide Handle;
  }

  lemma AnswerGoing(s: System)
    requires s.db.DbWork?
    ensures Going(DoAnswer(s)) == Going(s) + Handle(s.tables, s.db.request).responses
  {
    hide Handle, DoAnswer;
    AnswerMoves(s);
  }

  lemma AnswerComing(s: System)
    requires s.db.DbWork?
    ensures forall q :: q in Coming(DoAnswer(s)) && IsJoin(q) ==> q in Coming(s)
    ensures s.db.request in Coming(s)
  {
    hide Handle, DoAnswer, IsJoin;
    AnswerMoves(s);
    var requeued := Handle(s.tables, s.db.request).requeued;
    RequeuedNoJoin(s.tables, s.db.request);
    var push := if s.net.NetJoin? then [s.net.request] else [];
    assert Coming(DoAnswer(s)) == s.requests + requeued + push;
    assert Coming(s) == [s.db.request] + s.requests + push;
  }

  lemma RequeuedNoJoin(t: Tables, r: Request)
    ensures forall q :: q in Handle(t, r).requeued ==> !IsJoin(q)
  {
    hide Handle;
    HandleAnswers(t, r);
  }

  lemma AnswerAuth(s: System)
    requires AuthInv(s) && s.db.DbWork?
    ensures AuthInv(DoAnswer(s))
  {
    hide WellFormed, BookOf, Authentic, CStr, Coming, Going, Handle, BookHandle, DoAnswer, Vouched, Success, IsJoin;
    var r, q := DoAnswer(s), s.db.request;
    var b := BookOf(s.tables);
    HandleRefines(s.tables, q);
    AnswerMoves(s);
    AnswerComing(s);
    AnswerGoing(s);
    assert BookOf(r.tables) == BookHandle(b, q).book;
    forall a | a in Going(r) && Success(a)
      ensures a.username in s.pending && s.pending[a.username] in s.conns
      ensures Authentic(BookOf(r.tables), s.conns[s.pending[a.username]].user)
    {
      if a in Going(s) {
        BookKeeps(b, q, s.conns[s.pending[a.username]].user);
      } else {
        BookVouches(b, q, a);
      }
    }
    forall sid | sid in s.conns && Vouched(r, sid)
      ensures Authentic(BookOf(r.tables), s.conns[sid].user)
    {
      assert Vouched(s, sid) by { SameVouched(s, r, sid); }
      BookKeeps(b, q, s.conns[sid].user);
    }
  }

  lemma SameVouched(s: System, r: System, sid: Sid)
    requires Vouched(r, sid) && r.sessions == s.sessions && r.upd == s.upd
    ensures Vouched(s, sid)
  {
  }

  // ----- a response meets its session -----

  lemma {:induction false} AnswersNamed(responses: seq<Response>, r: Response)
    requires r in responses && !r.kind.USER_PROFILE_PICTURE?
    ensures Named(Answers(responses), r.username)
    decreases |responses|
  {
    var first := responses[0];
    AnswersConcat([first], responses[1..]);
    AnswersOne(first);
    assert responses == [first] + responses[1..];
    var rest := Answers(responses[1..]);
    if r == first {
      assert Answers(responses)[0].0 == r.username;
    } else {
      AnswersNamed(responses[1..], r);
      var i :| 0 <= i < |rest| && rest[i].0 == r.username;
      var k := if first.kind.USER_PROFILE_PICTURE? then i else i + 1;
      assert Answers(responses)[k] == rest[i];
    }
  }

  lemma {:induction false} JoinsNamed(requests: seq<Request>, r: Request)
    requires r in requests && IsJoin(r)
    ensures Named(Joins(requests), CStr(r.user.username))
    decreases |requests|
  {
    hide CStr;
    var rest := Joins(requests[1..]);
    if r == requests[0] {
      assert Joins(requests)[0].0 == CStr(r.user.username);
    } else {
      JoinsNamed(requests[1..], r);
      var i :| 0 <= i < |rest| && rest[i].0 == CStr(r.user.username);
      assert Joins(requests)[|JoinOf(requests[0])| + i] == rest[i];
    }
  }

  lemma NamedWithin(before: seq<(Text, bool)>, flight: seq<(Text, bool)>, after: seq<(Text, bool)>, n: Text)
    requires Named(flight, n)
    ensures Named(before + flight + after, n)
  {
    var i :| 0 <= i < |flight| && flight[i].0 == n;
    assert (before + flight + after)[|before| + i] == flight[i];
  }

  /** Behind a join no other one has its name. */
  lemma OthersNamed(s: System, n: Text)
    requires s.upd.Joining? && !Named(ServerUpdateProof.Behind(s), n)
    ensures forall q :: q in Coming(s) && IsJoin(q) ==> CStr(q.user.username) != n
    ensures forall r :: r in s.responses && Success(r) ==> r.username != n
  {
    hide CStr, Joins, Answers, Named;
    var work := if s.db.DbWork? then [s.db.request] else [];
    var push := if s.net.NetJoin? then [s.net.request] else [];
    assert Joins([]) == [] by { NoJoins([]); }
    var behind := ServerUpdateProof.Behind(s);
    forall q | q in Coming(s) && IsJoin(q)
      ensures CStr(q.user.username) != n
    {
      var k := CStr(q.user.username);
      if q in work {
        JoinsNamed(work, q);
        NamedWithin(Answers(s.responses), Joins(work), Joins(s.requests) + Joins(push), k);
        assert behind == Answers(s.responses) + Joins(work) + (Joins(s.requests) + Joins(push));
      } else if q in s.requests {
        JoinsNamed(s.requests, q);
        NamedWithin(Answers(s.responses) + Joins(work), Joins(s.requests), Joins(push), k);
      } else {
        JoinsNamed(push, q);
        NamedWithin(Answers(s.responses) + Joins(work) + Joins(s.requests), Joins(push), [], k);
        assert behind + [] == behind;
      }
    }
    forall r | r in s.responses && Success(r)
      ensures r.username != n
    {
      AnswersNamed(s.responses, r);
      NamedWithin([], Answers(s.responses), Joins(work) + Joins(s.requests) + Joins(push), r.username);
      assert behind == [] + Answers(s.responses) + (Joins(work) + Joins(s.requests) + Joins(push));
    }
  }

  lemma FindPendingAuth(s: System)
    requires Typed(s) && Sound(s) && AuthInv(s) && s.upd.Joining?
    ensures AuthInv(DoFindPending(s))
  {
    hide Typed, Flight, WellFormed, BookOf, Authentic, CStr, Phases, Members, Segments, OnlyChats, Channels, Named,
      DistinctNames, ServerUpdateProof.Behind, Vouched, Coming;
    var r, n := DoFindPending(s), s.upd.response.username;
    var e, behind := ServerUpdateProof.Front(s.upd.response), ServerUpdateProof.Behind(s);
    ServerUpdateProof.JoiningFlight(s);
    ServerUpdateProof.DistinctRest(e, behind);
    ServerUpdateProof.TakePending(s.conns, s.pending, e, behind);
    OthersNamed(s, n);
    assert Coming(r) == Coming(s) by { TakenRequests(s, r); }
    assert Going(r) == s.responses;
    assert Success(s.upd.response) ==> s.upd.response in Going(s);
    forall x | x in r.conns && Vouched(r, x)
      ensures Authentic(BookOf(r.tables), r.conns[x].user)
    {
      FoundVouched(s, r, x);
    }
  }

  lemma TakenRequests(s: System, r: System)
    requires r == s.(upd := r.upd, pending := r.pending)
    ensures Coming(r) == Coming(s)
  {
  }

  lemma FoundVouched(s: System, r: System, x: Sid)
    requires s.upd.Joining? && s.upd.response.username in s.pending && r == DoFindPending(s) && Vouched(r, x)
    requires !s.upd.response.kind.USER_PROFILE_PICTURE?
    ensures Vouched(s, x) || (x == s.pending[s.upd.response.username] && Success(s.upd.response))
  {
  }

  // ----- every run -----

  lemma AuthStep(s: System, step: Step)
    requires Typed(s) && Sound(s) && AuthInv(s) && Enabled(s, step) && WellBehaved(s, step)
    ensures AuthInv(Apply(s, step))
  {
    hide Typed, Sound, AuthInv, Named, Flight, Quiet, CStr, DoAnswer, DoFindPending, Writer.Enabled;
    if step == Database(Answer) {
      AnswerAuth(s);
    } else if step == Update(FindPending) {
      FindPendingAuth(s);
    } else if step.Network? && step.n.Receive? && IsJoinMessage(step.n.message) {
      ReceiveAuth(s, step.n.sid, step.n.message);
    } else {
      QuietStep(s, step);
      QuietAuth(s, Apply(s, step));
    }
  }

  lemma ReceiveAuth(s: System, sid: Sid, m: M.Message)
    requires Typed(s) && Sound(s) && AuthInv(s) && s.net.NetIdle? && sid in s.conns && IsJoinMessage(m)
    requires WellBehaved(s, Network(Receive(sid, m)))
    ensures AuthInv(DoReceive(s, sid, m))
  {
    hide Typed, Sound, AuthInv, Named, Flight, CStr;
    var user := User(m.senderName, m.content);
    JoinAuth(s, sid, user, if m.command == M.LOGIN_REQUEST then Login(user) else Register(user));
  }

  lemma InitialAuth(tables: Tables)
    requires WellFormed(tables)
    ensures AuthInv(Initial(tables))
  {
    hide WellFormed, BookOf;
  }

  lemma {:induction false} RunAuth(tables: Tables, run: Run, k: nat)
    requires WellFormed(tables) && IsBehavedRun(tables, run) && k <= |run.steps| && run.states[k].fault == NoFault
    ensures AuthInv(run.states[k])
  {
    hide Typed, Sound, AuthInv, Apply, WellBehaved, WellFormed;
    if k == 0 {
      InitialAuth(tables);
    } else {
      assert StepAt(run, k - 1) && BehavedAt(run, k - 1);
      RunAuth(tables, run, k - 1);
      RunInv(tables, run, k - 1);
      AuthStep(run.states[k - 1], run.steps[k - 1]);
    }
  }

  /**
   * Nobody is a member who did not prove a password: in every reachable state the account under a member's
   * username has the hash of the password that member sent.
   */
  lemma MembersAreAuthentic(tables: Tables, run: Run, k: nat, s: System, sid: Sid)
    requires WellFormed(tables) && Reached(tables, run, k, s) && sid in s.sessions && sid in s.conns
    ensures var user := s.conns[sid].user;
      var accounts := BookOf(s.tables).accounts;
      && CStr(user.username) in accounts
      && (accounts[CStr(user.username)].password == PasswordHasher.HashOf(user.password)
          || accounts[CStr(user.username)].password == PasswordHasher.HashOf(CStr(user.password)))
  {
    hide WellFormed, BookOf, CStr, PasswordHasher.HashOf, RequestsOk, ResponsesOk, IsRun;
    RunAuth(tables, run, k);
    assert Vouched(s, sid);
  }
}
