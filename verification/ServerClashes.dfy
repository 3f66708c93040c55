/** Exactly when two connected sessions come to share a username: when a session that has been let in joins again. */
module ServerClashes {
  import opened Bytes
  import opened Common
  import opened User
  import opened Store
  import StoreRuns
  import opened ServerSystem
  import opened ServerInvariants
  import opened ServerProof
  import opened ServerUpdateProof
  import opened ServerRuns
  import opened ServerNames
  import M = Message
  import PasswordHasher
  import Writer

  // ----- one step -----

  /** A member, or the session that is being accepted. */
  predicate LetIn(sessions: seq<Sid>, u: UpdateThread, sid: Sid) {
    sid in sessions || (u.Accepting? && u.sid == sid)
  }

  /** The session has been let in and takes the name of another one that has. */
  ghost predicate Clashes(conns: map<Sid, Conn>, sessions: seq<Sid>, u: UpdateThread, sid: Sid, name: Text) {
    && LetIn(sessions, u, sid)
    && exists y :: y != sid && y in conns && LetIn(sessions, u, y) && conns[y].user.username == name
  }

  /** A server that knows its members can tell before it takes the message. */
  ghost predicate ClashingStep(s: System, step: Step) {
    step.Network? && step.n.Receive? && IsJoinMessage(step.n.message)
    && Clashes(s.conns, s.sessions, s.upd, step.n.sid, step.n.message.senderName)
  }

  /** All that have been let in have names of their own; this is what `Members` says. */
  lemma MembersMeans(conns: map<Sid, Conn>, sessions: seq<Sid>, u: UpdateThread)
    requires Members(conns, sessions, u)
    ensures Distinct(sessions) && (u.Accepting? ==> u.sid !in sessions)
    ensures forall x, y :: LetIn(sessions, u, x) && LetIn(sessions, u, y) && x != y && x in conns && y in conns ==>
      conns[x].user.username != conns[y].user.username
  {
    forall x, y | LetIn(sessions, u, x) && LetIn(sessions, u, y) && x != y && x in conns && y in conns
      ensures conns[x].user.username != conns[y].user.username
    {
      if x in sessions && y in sessions {
        var i :| 0 <= i < |sessions| && sessions[i] == x;
        var j :| 0 <= j < |sessions| && sessions[j] == y;
        assert i != j;
      }
    }
  }

  lemma MembersIf(conns: map<Sid, Conn>, sessions: seq<Sid>, u: UpdateThread)
    requires AllIn(sessions, conns) && Distinct(sessions) && (u.Accepting? ==> u.sid in conns && u.sid !in sessions)
    requires forall x, y :: LetIn(sessions, u, x) && LetIn(sessions, u, y) && x != y && x in conns && y in conns ==>
      conns[x].user.username != conns[y].user.username
    ensures Members(conns, sessions, u)
  {
    forall i, j | 0 <= i < j < |sessions|
      ensures sessions[i] != sessions[j] && conns[sessions[i]].user.username != conns[sessions[j]].user.username
    {
      assert LetIn(sessions, u, sessions[i]) && LetIn(sessions, u, sessions[j]);
    }
    if u.Accepting? {
      forall i | 0 <= i < |sessions|
        ensures conns[sessions[i]].user.username != conns[u.sid].user.username
      {
        assert LetIn(sessions, u, sessions[i]) && LetIn(sessions, u, u.sid);
      }
    }
  }

  /** A join keeps the names apart exactly if it does not clash. */
  lemma RenameExactly(conns: map<Sid, Conn>, sessions: seq<Sid>, u: UpdateThread, sid: Sid, c: Conn)
    requires Members(conns, sessions, u) && sid in conns
    ensures Members(conns[sid := c], sessions, u) <==> !Clashes(conns, sessions, u, sid, c.user.username)
  {
    hide Members, LetIn;
    var other := conns[sid := c];
    MembersMeans(conns, sessions, u);
    if Clashes(conns, sessions, u, sid, c.user.username) {
      if Members(other, sessions, u) {
        MembersMeans(other, sessions, u);
      }
    } else {
      assert AllIn(sessions, other) && (u.Accepting? ==> u.sid in other) by { MembersIn(conns, sessions, u); }
      MembersIf(other, sessions, u);
    }
  }

  lemma MembersIn(conns: map<Sid, Conn>, sessions: seq<Sid>, u: UpdateThread)
    requires Members(conns, sessions, u)
    ensures AllIn(sessions, conns) && (u.Accepting? ==> u.sid in conns)
  {
  }

  lemma JoinExactly(s: System, sid: Sid, m: M.Message)
    requires Members(s.conns, s.sessions, s.upd) && sid in s.conns && IsJoinMessage(m)
    ensures var r := DoReceive(s, sid, m);
      Members(r.conns, r.sessions, r.upd) <==> !Clashes(s.conns, s.sessions, s.upd, sid, m.senderName)
  {
    hide Members, Clashes, CStr;
    var c := s.conns[sid].(user := User(m.senderName, m.content), joined := true);
    RenameExactly(s.conns, s.sessions, s.upd, sid, c);
  }

  lemma OtherReceive(s: System, sid: Sid, m: M.Message)
    requires sid in s.conns && !IsJoinMessage(m)
    ensures var r := DoReceive(s, sid, m); r.conns == s.conns && r.sessions == s.sessions && r.upd == s.upd
  {
    hide CStr;
    assert m.command != M.LOGIN_REQUEST && m.command != M.REGISTER_REQUEST;
  }

  lemma NetworkMembers(s: System, step: NetworkStep)
    requires Typed(s) && NetworkEnabled(s, step) && Members(s.conns, s.sessions, s.upd)
    ensures var r := ApplyNetwork(s, step);
      Members(r.conns, r.sessions, r.upd) <==> !ClashingStep(s, Network(step))
  {
    hide Typed, Members, Clashes, IsJoinMessage, DoConnect, DoReceive, DoEndOfFile, DoRunTask, Writer.Enabled,
      Writer.Apply;
    match step
    case Connect(sid) => ConnectKeeps(s, sid); ConnectMembers(s, sid);
    case Receive(sid, m) =>
      if IsJoinMessage(m) {
        JoinExactly(s, sid, m);
      } else {
        OtherReceive(s, sid, m);
      }
    case PushJoin =>
    case EndOfFile(sid) => EndOfFileMembers(s, sid);
    case RunTask => RunTaskFrame(s);
    case Written(_, _) =>
  }

  lemma ConnectKeeps(s: System, sid: Sid)
    ensures DoConnect(s, sid).sessions == s.sessions && DoConnect(s, sid).upd == s.upd
  {
  }

  lemma KickKeepsMembers(s: System, name: Text, reason: Text, now: M.Int64)
    requires Typed(s) && s.upd.Idle? && Members(s.conns, s.sessions, s.upd)
    ensures var r := DoKick(s, name, reason, now); Members(r.conns, r.sessions, r.upd)
  {
    hide WritersValid, Members, FindMember, Without, WithoutFirst;
    var found := FindMember(s.conns, s.sessions, name);
    if found.Some? {
      KickMembers(s, found.value);
    }
  }

  lemma AcceptKeepsMembers(s: System)
    requires Typed(s) && s.upd.Accepting? && Members(s.conns, s.sessions, s.upd)
    ensures var r := DoAccept(s); Members(r.conns, r.sessions, r.upd)
  {
    hide Typed, Members, DoAccept;
    MembersMeans(s.conns, s.sessions, s.upd);
    AcceptMembers(s);
  }

  lemma CheckKeepsMembers(s: System)
    requires Typed(s) && s.upd.Found? && Members(s.conns, s.sessions, s.upd)
    ensures var r := DoCheckConnected(s); Members(r.conns, r.sessions, r.upd)
  {
    hide WritersValid, AllIn, Members, FindMember, ConnectedReason;
    CheckConnectedMembers(s);
    assert DoCheckConnected(s).conns == s.conns && DoCheckConnected(s).sessions == s.sessions;
  }

  /** The other steps of the update thread change no member and accept nobody. */
  predicate SameMembers(s: System, r: System) {
    r.conns == s.conns && r.sessions == s.sessions && !r.upd.Accepting?
  }

  lemma PopSameMembers(s: System)
    ensures s.upd.Responses? ==> SameMembers(s, DoPopResponse(s))
    ensures s.upd.Inbox? ==> SameMembers(s, DoPopMessage(s))
  {
  }

  lemma SendingSameMembers(s: System, now: M.Int64)
    requires Typed(s)
    ensures s.upd.Welcoming? ==> SameMembers(s, DoWelcome(s, now))
    ensures s.upd.Rejecting? ==> SameMembers(s, DoReject(s, now))
    ensures s.upd.Dropping? ==> SameMembers(s, DoDrop(s))
    ensures s.upd.Picturing? ==> SameMembers(s, DoSendPicture(s, now))
  {
    hide Typed, WelcomeText, PictureMessage, FindMember;
  }

  lemma BroadcastSameMembers(s: System)
    requires Typed(s) && s.upd.Broadcasting?
    ensures SameMembers(s, DoBroadcast(s))
  {
    hide Typed, PostAll;
    MembersLogged(s);
    PostAllFrame(s, s.sessions, s.upd.message);
  }

  lemma UpdateMembers(s: System, step: UpdateStep)
    requires Typed(s) && UpdateEnabled(s, step) && Members(s.conns, s.sessions, s.upd)
    ensures var r := ApplyUpdate(s, step); Members(r.conns, r.sessions, r.upd)
  {
    hide Typed, Members, DoPopResponse, DoCheckConnected, DoAccept, DoWelcome, DoReject, DoDrop, DoSendPicture,
      DoPopMessage, DoBroadcast, DoKick;
    match step
    case PopResponse => PopSameMembers(s); OtherMembers(s.conns, s.sessions, s.upd, DoPopResponse(s).upd);
    case FindPending => OtherMembers(s.conns, s.sessions, s.upd, DoFindPending(s).upd);
    case CheckConnected => CheckKeepsMembers(s);
    case Accept => AcceptKeepsMembers(s);
    case Welcome(now) => SendingSameMembers(s, now); OtherMembers(s.conns, s.sessions, s.upd, DoWelcome(s, now).upd);
    case Reject(now) => SendingSameMembers(s, now); OtherMembers(s.conns, s.sessions, s.upd, DoReject(s, now).upd);
    case Drop => SendingSameMembers(s, 0); OtherMembers(s.conns, s.sessions, s.upd, DoDrop(s).upd);
    case SendPicture(now) =>
      SendingSameMembers(s, now);
      OtherMembers(s.conns, s.sessions, s.upd, DoSendPicture(s, now).upd);
    case PopMessage => PopSameMembers(s); OtherMembers(s.conns, s.sessions, s.upd, DoPopMessage(s).upd);
    case Broadcast => BroadcastSameMembers(s); OtherMembers(s.conns, s.sessions, s.upd, DoBroadcast(s).upd);
    case SaveBroadcast => OtherMembers(s.conns, s.sessions, s.upd, DoSaveBroadcast(s).upd);
    case NextFrame => OtherMembers(s.conns, s.sessions, s.upd, Responses);
    case Kick(name, reason, now) => KickKeepsMembers(s, name, reason, now);
  }

  /** Every step keeps the names of all that have been let in apart, except exactly the clashing ones. */
  lemma StepExactly(s: System, step: Step)
    requires Typed(s) && Enabled(s, step) && Members(s.conns, s.sessions, s.upd)
    ensures var r := Apply(s, step); Members(r.conns, r.sessions, r.upd) <==> !ClashingStep(s, step)
  {
    hide Typed, Members, ClashingStep, ApplyNetwork, ApplyUpdate, NetworkEnabled, UpdateEnabled, Handle;
    match step
    case Network(n) => NetworkMembers(s, n);
    case Database(d) => NoClash(s, step);
    case Update(u) => NoClash(s, step); UpdateMembers(s, u);
  }

  lemma NoClash(s: System, step: Step)
    requires !step.Network?
    ensures !ClashingStep(s, step)
  {
  }

  // ----- every run -----

  ghost predicate MembersAt(run: Run, k: nat)
    requires k < |run.states|
  {
    Members(run.states[k].conns, run.states[k].sessions, run.states[k].upd)
  }

  ghost predicate ClashAt(run: Run, k: nat)
    requires k < |run.steps| && |run.states| == |run.steps| + 1
  {
    ClashingStep(run.states[k], run.steps[k])
  }

  lemma {:induction false} MembersWithoutClash(tables: Tables, run: Run, k: nat)
    requires IsRun(tables, run) && k <= |run.steps|
    requires forall i :: 0 <= i < k ==> !ClashAt(run, i)
    ensures MembersAt(run, k)
  {
    hide Typed, Enabled, Apply, ClashingStep;
    if k > 0 {
      MembersWithoutClash(tables, run, k - 1);
      assert StepAt(run, k - 1) && !ClashAt(run, k - 1);
      StepExactly(run.states[k - 1], run.steps[k - 1]);
    }
  }

  lemma ClashBreaks(tables: Tables, run: Run, k: nat)
    requires IsRun(tables, run) && k < |run.steps| && ClashAt(run, k) && MembersAt(run, k)
    ensures !MembersAt(run, k + 1)
  {
    hide Typed, Enabled, Apply, ClashingStep, Members;
    assert StepAt(run, k);
    StepExactly(run.states[k], run.steps[k]);
  }

  /**
   * Whatever the clients do: the names of those let in stay distinct throughout a run if and only if no join
   * clashes when it is read.
   */
  lemma NamesDistinctExactly(tables: Tables, run: Run)
    requires IsRun(tables, run)
    ensures (forall k :: 0 <= k <= |run.steps| ==> MembersAt(run, k))
       <==> (forall k :: 0 <= k < |run.steps| ==> !ClashAt(run, k))
  {
    hide StepAt, ClashAt, MembersAt;
    if forall k :: 0 <= k < |run.steps| ==> !ClashAt(run, k) {
      forall k | 0 <= k <= |run.steps|
        ensures MembersAt(run, k)
      {
        MembersWithoutClash(tables, run, k);
      }
    } else {
      var k :| 0 <= k < |run.steps| && ClashAt(run, k);
      if MembersAt(run, k) {
        ClashBreaks(tables, run, k);
      }
    }
  }

  /** So connected usernames are distinct in every run without a clash, with or without H1 and H2. */
  lemma ConnectedApart(tables: Tables, run: Run, k: nat)
    requires IsRun(tables, run) && k <= |run.steps|
    requires forall i :: 0 <= i < k ==> !ClashAt(run, i)
    ensures var s := run.states[k]; forall i, j :: 0 <= i < j < |s.sessions| ==>
      && s.sessions[i] in s.conns && s.sessions[j] in s.conns
      && s.conns[s.sessions[i]].user.username != s.conns[s.sessions[j]].user.username
  {
    hide StepAt, ClashAt;
    MembersWithoutClash(tables, run, k);
  }

  /** H1 rules clashes out: only a session that has joined is let in. */
  lemma JoiningOnceNeverClashes(s: System, step: Step)
    requires Typed(s) && Phases(s.conns, s.sessions, s.pending, s.upd, s.logs) && Enabled(s, step) && JoinsOnce(s, step)
    ensures !ClashingStep(s, step)
  {
    hide Typed, Legal, Waiting, Writer.Enabled;
    if step.Network? && step.n.Receive? {
      assert PhaseAt(s, step.n.sid);
    }
  }

  // ----- a run that clashes -----

  /** A run with H1 and H2 from the empty tables leads here. */
  ghost predicate Orderly(s: System) {
    exists run :: IsBehavedRun(EMPTY, run) && run.states[|run.steps|] == s
  }

  lemma OrderlyStep(s: System, step: Step)
    requires Orderly(s) && Typed(s) && Enabled(s, step) && WellBehaved(s, step)
    ensures Orderly(Apply(s, step)) && Typed(Apply(s, step))
  {
    hide Typed, Enabled, Apply, WellBehaved, StepAt;
    var run :| IsBehavedRun(EMPTY, run) && run.states[|run.steps|] == s;
    Continues(EMPTY, run, step);
    StepTyped(s, step);
    var longer := Run(run.states + [Apply(s, step)], run.steps + [step]);
    forall k | 0 <= k < |longer.steps|
      ensures BehavedAt(longer, k)
    {
      if k < |run.steps| {
        assert BehavedAt(run, k);
      }
    }
    assert longer.states[|longer.steps|] == Apply(s, step);
    assert IsBehavedRun(EMPTY, longer);
  }

  /** Nothing is on its way and the update thread is between two frames. */
  predicate Calm(s: System) {
    && s.fault == NoFault && s.net.NetIdle? && s.db.DbIdle? && s.upd.Idle?
    && s.requests == [] && s.responses == [] && s.inbox == [] && s.pending == map[]
  }

  function Registered(name: Text): Response { Response(CStr(name), [], [], REGISTER_SUCCESS) }

  /** A new connection registers a new name and is answered by the database. */
  lemma Registers(s: System, sid: Sid, name: Text) returns (r: System)
    requires Orderly(s) && Typed(s) && Calm(s) && sid in s.conns && s.conns[sid].reading && !s.conns[sid].joined
    requires UserId(s.tables.users, CStr(name)).None?
    ensures Orderly(r) && Typed(r)
    ensures r == s.(conns := s.conns[sid := s.conns[sid].(user := User(name, []), joined := true)],
                    pending := map[CStr(name) := sid], responses := [Registered(name)],
                    tables := AddUser(s.tables, User(name, [])))
  {
    hide Orderly, Typed, CStr, AddUser;
    var m := M.Message(M.REGISTER_REQUEST, name, [], 0);
    assert Flight(s) == [];
    OrderlyStep(s, Network(Receive(sid, m)));
    var s1 := DoReceive(s, sid, m);
    OrderlyStep(s1, Network(PushJoin));
    var s2 := DoPushJoin(s1);
    OrderlyStep(s2, Database(TakeRequest));
    var s3 := DoTakeRequest(s2);
    OrderlyStep(s3, Database(Answer));
    r := DoAnswer(s3);
    assert s3.requests + [] == [];
    assert Handle(s.tables, Register(User(name, [])))
        == Outcome(AddUser(s.tables, User(name, [])), [Registered(name)], [], false);
  }

  /** The answer reaches the update thread. */
  lemma Answered(s: System, sid: Sid, name: Text) returns (r: System)
    requires Orderly(s) && Typed(s) && s.fault == NoFault && s.upd.Idle? && s.responses == [Registered(name)]
    requires s.pending == map[CStr(name) := sid] && sid in s.conns && s.conns[sid].user.username == name
    requires AllIn(s.sessions, s.conns)
    requires forall i :: 0 <= i < |s.sessions| ==> s.conns[s.sessions[i]].user.username != name
    ensures Orderly(r) && Typed(r)
    ensures r == s.(upd := Accepting(sid), pending := map[], responses := [])
  {
    hide Orderly, Typed, CStr, ConnectedReason;
    OrderlyStep(s, Update(NextFrame));
    var s1 := s.(upd := Responses);
    OrderlyStep(s1, Update(PopResponse));
    var s2 := DoPopResponse(s1);
    OrderlyStep(s2, Update(FindPending));
    var s3 := DoFindPending(s2);
    assert s3.pending == map[];
    OrderlyStep(s3, Update(CheckConnected));
    r := DoCheckConnected(s3);
  }

  function AcceptMessage(): M.Message { M.Message(M.LOGIN_RESPONSE_ACCEPT, [], WelcomeText(), 0) }

  /** And the session becomes a member. */
  lemma LetsIn(s: System, sid: Sid) returns (r: System)
    requires Orderly(s) && Typed(s) && s.fault == NoFault && s.upd == Accepting(sid)
    requires s.responses == [] && s.inbox == []
    ensures Orderly(r) && Typed(r)
    ensures r.sessions == s.sessions + [sid] && r.upd == Idle && r.conns == s.conns && r.tables == s.tables
    ensures r.net == s.net && r.db == s.db && r.fault == NoFault && r.pending == s.pending
    ensures r.responses == [] && r.inbox == []
    ensures StoreRuns.Joins(r.requests) == StoreRuns.Joins(s.requests)
    ensures s.sessions == [] ==> r.requests == s.requests
    ensures sid in s.logs && r.logs == s.logs[sid := s.logs[sid] + [AcceptMessage()]]
  {
    hide Orderly, Typed, Lookups, WelcomeText, CStr, StoreRuns.Joins;
    OrderlyStep(s, Update(Accept));
    var s1 := DoAccept(s);
    TypedIn(s);
    var lookups := Lookups(s.conns, s.sessions, s.conns[sid].user);
    LookupsAsk(s.conns, s.sessions, s.conns[sid].user);
    NoJoins(lookups);
    JoinsConcat(s.requests, lookups);
    assert s.sessions == [] ==> lookups == [];
    OrderlyStep(s1, Update(Welcome(0)));
    var s2 := DoWelcome(s1, 0);
    OrderlyStep(s2, Update(PopResponse));
    var s3 := DoPopResponse(s2);
    OrderlyStep(s3, Update(PopMessage));
    r := DoPopMessage(s3);
  }

  lemma TypedIn(s: System)
    requires Typed(s)
    ensures AllIn(s.sessions, s.conns) && (s.upd.Accepting? ==> s.upd.sid in s.conns && s.upd.sid in s.logs)
  {
    hide WritersValid;
  }

  lemma TwoConnected()
    ensures var s := DoConnect(DoConnect(Initial(EMPTY), 0), 1); Orderly(s) && Typed(s)
  {
    hide Typed, Enabled, Apply, DoConnect, WellBehaved;
    var s := Initial(EMPTY);
    var start := Run([s], []);
    assert IsBehavedRun(EMPTY, start) && start.states[0] == s;
    InitialTyped(EMPTY);
    ConnectEnabled(s, 0);
    OrderlyStep(s, Network(Connect(0)));
    ConnectEnabled(DoConnect(s, 0), 1);
    OrderlyStep(DoConnect(s, 0), Network(Connect(1)));
  }

  /** Two sessions register under different names and become members, without a breach of H1 or H2. */
  lemma TwoMembers(a: Text, b: Text) returns (r: System)
    requires CStr(a) != CStr(b)
    ensures Orderly(r) && Typed(r) && r.fault == NoFault && r.net.NetIdle? && r.sessions == [0, 1]
    ensures 0 in r.conns && 1 in r.conns && r.conns[0].reading && r.conns[1].user.username == b
    ensures Flight(r) == []
  {
    hide Orderly, Typed, CStr, AddUser;
    TwoConnected();
    var s := DoConnect(DoConnect(Initial(EMPTY), 0), 1);
    var s1 := Registers(s, 0, a);
    var s2 := Answered(s1, 0, a);
    var s3 := LetsIn(s2, 0);
    assert UserId(s3.tables.users, CStr(b)).None? by { NewName(a, b); }
    var s4 := Registers(s3, 1, b);
    var s5 := Answered(s4, 1, b);
    r := LetsIn(s5, 1);
    assert Flight(r) == [] by { NothingOnItsWay(r); }
  }

  lemma NewName(a: Text, b: Text)
    requires CStr(a) != CStr(b)
    ensures UserId(EMPTY.users, CStr(a)).None? && UserId(AddUser(EMPTY, User(a, [])).users, CStr(b)).None?
  {
    hide CStr, PasswordHasher.HashOf;
    var users := AddUser(EMPTY, User(a, [])).users;
    assert users[1..] == [];
  }

  lemma NothingOnItsWay(s: System)
    requires s.net.NetIdle? && s.db.DbIdle? && !s.upd.Joining? && s.responses == [] && StoreRuns.Joins(s.requests) == []
    ensures Flight(s) == []
  {
  }

  /** A run from the empty tables in which H2 held whenever a message arrived. */
  ghost predicate FreshRun(run: Run) {
    IsRun(EMPTY, run) && forall k :: 0 <= k < |run.steps| ==> FreshAt(run, k)
  }

  ghost predicate ShareName(s: System) {
    exists x, y ::
      && x in s.sessions && y in s.sessions && x != y && x in s.conns && y in s.conns
      && s.conns[x].user.username == s.conns[y].user.username
  }

  /** The join of a member under another member's name. */
  lemma TakesName(s: System, m: M.Message)
    requires Typed(s) && s.fault == NoFault && s.net.NetIdle? && s.sessions == [0, 1]
    requires 0 in s.conns && 1 in s.conns && s.conns[0].reading
    requires m.command == M.LOGIN_REQUEST && m.senderName == s.conns[1].user.username
    ensures Enabled(s, Network(Receive(0, m))) && ShareName(Apply(s, Network(Receive(0, m))))
  {
    hide Typed, CStr;
    var r := Apply(s, Network(Receive(0, m)));
    assert 0 in r.sessions && 1 in r.sessions && r.conns[0].user.username == r.conns[1].user.username;
  }

  /**
   * Without H1, though with H2, a run from the empty tables leads to two members with one username: two sessions
   * register under any two names, and then one of them joins again under the other's.
   */
  lemma SecondJoinClashes(a: Text, b: Text)
    requires CStr(a) != CStr(b)
    ensures exists run :: FreshRun(run) && ShareName(run.states[|run.steps|])
  {
    hide Orderly, Typed, CStr, Enabled, Apply, ShareName, FreshRun;
    var s := TwoMembers(a, b);
    var m := M.Message(M.LOGIN_REQUEST, b, [], 0);
    TakesName(s, m);
    OrderlyAllowed(s);
    AllowedStep(s, Network(Receive(0, m)));
  }

  /** A run with H2 from the empty tables leads here. */
  ghost predicate Allowed(s: System) {
    exists run :: FreshRun(run) && run.states[|run.steps|] == s
  }

  lemma OrderlyAllowed(s: System)
    requires Orderly(s)
    ensures Allowed(s)
  {
    hide StepAt, FreshName, JoinsOnce;
    var run :| IsBehavedRun(EMPTY, run) && run.states[|run.steps|] == s;
    forall k | 0 <= k < |run.steps|
      ensures FreshAt(run, k)
    {
      assert BehavedAt(run, k);
    }
    assert FreshRun(run);
  }

  lemma AllowedStep(s: System, step: Step)
    requires Allowed(s) && Typed(s) && Enabled(s, step) && FreshName(s, step)
    ensures Allowed(Apply(s, step)) && Typed(Apply(s, step))
  {
    hide Typed, Enabled, Apply, FreshName, StepAt;
    var run :| FreshRun(run) && run.states[|run.steps|] == s;
    Continues(EMPTY, run, step);
    StepTyped(s, step);
    var longer := Run(run.states + [Apply(s, step)], run.steps + [step]);
    forall k | 0 <= k < |longer.steps|
      ensures FreshAt(longer, k)
    {
      if k < |run.steps| {
        assert FreshAt(run, k);
      }
    }
    assert longer.states[|longer.steps|] == Apply(s, step);
    assert FreshRun(longer);
  }
}
