/** The server comes to rest: what its threads do on their own ends, and then every join has been answered. */
module ServerProgress {
  import opened Bytes
  import opened Common
  import opened User
  import opened Store
  import opened ServerSystem
  import opened ServerInvariants
  import opened ServerProof
  import opened ServerUpdateProof
  import opened ServerRuns
  import M = Message
  import Writer

  /** The steps that need nothing from outside: no client, no socket, no operator. A frame starts if it has work. */
  predicate Own(s: System, step: Step) {
    match step
    case Network(n) => n.PushJoin? || n.RunTask?
    case Database(_) => true
    case Update(u) => !u.Kick? && (u.NextFrame? ==> s.responses != [] || s.inbox != [])
  }

  // ----- the work that is left; `m` bounds the number of members -----

  function Job(r: Request, m: nat): nat {
    match r
    case Login(_) => 10 * m + 9
    case Register(_) => 10 * m + 9
    case SaveMessage(_) => 2
    case SavePicture(_, _) => 7
    case GetPicture(_, _) => 5
    case Shutdown => 2
  }

  function Jobs(rs: seq<Request>, m: nat): nat {
    if rs == [] then 0 else Job(rs[0], m) + Jobs(rs[1..], m)
  }

  function Reply(r: Response, m: nat): nat {
    if r.kind.USER_PROFILE_PICTURE? then 3 else 10 * m + 7
  }

  function Replies(rs: seq<Response>, m: nat): nat {
    if rs == [] then 0 else Reply(rs[0], m) + Replies(rs[1..], m)
  }

  function InHand(u: UpdateThread, m: nat): nat {
    match u
    case Joining(_) => 10 * m + 6
    case Found(_, _) => 10 * m + 5
    case Accepting(_) => 10 * m + 3
    case Welcoming(_) => 2
    case Rejecting(_, _) => 4
    case Dropping(_) => 2
    case Picturing(_) => 2
    case Broadcasting(_) => m + 4
    case Saving(_) => 3
    case _ => 0
  }

  function Outside(s: System, m: nat): nat {
    (if s.net.NetJoin? then Job(s.net.request, m) + 1 else 0)
    + (if s.db.DbWork? then Job(s.db.request, m) - 1 else 0)
    + |s.tasks|
  }

  function Work(s: System, m: nat): nat {
    Jobs(s.requests, m) + Replies(s.responses, m) + |s.inbox| * (m + 5) + InHand(s.upd, m) + Outside(s, m)
  }

  /** How far the update thread is in its round, when a step does none of the work. */
  function Round(s: System): nat {
    match s.upd
    case Inbox => if s.responses != [] then 4 else 1
    case Idle => if s.responses != [] || s.inbox != [] then 3 else 0
    case _ => 2
  }

  /** A step does some of the work, or brings the round on. */
  ghost predicate Advances(s: System, r: System, m: nat) {
    Work(r, m) < Work(s, m) || (Work(r, m) == Work(s, m) && Round(r) < Round(s))
  }

  function Measure(s: System, m: nat): nat { 5 * Work(s, m) + Round(s) }

  lemma AdvancesMeasure(s: System, r: System, m: nat)
    requires Advances(s, r, m)
    ensures Measure(r, m) < Measure(s, m)
  {
    hide Work;
  }

  // ----- sums -----

  lemma {:induction false} JobsConcat(a: seq<Request>, b: seq<Request>, m: nat)
    ensures Jobs(a + b, m) == Jobs(a, m) + Jobs(b, m)
  {
    hide Job;
    if a == [] {
      assert a + b == b;
    } else {
      assert (a + b)[1..] == a[1..] + b;
      JobsConcat(a[1..], b, m);
    }
  }

  lemma {:induction false} RepliesConcat(a: seq<Response>, b: seq<Response>, m: nat)
    ensures Replies(a + b, m) == Replies(a, m) + Replies(b, m)
  {
    hide Reply;
    if a == [] {
      assert a + b == b;
    } else {
      assert (a + b)[1..] == a[1..] + b;
      RepliesConcat(a[1..], b, m);
    }
  }

  lemma JobsOne(r: Request, m: nat)
    ensures Jobs([r], m) == Job(r, m)
  {
    assert [r][1..] == [];
  }

  lemma RepliesOne(r: Response, m: nat)
    ensures Replies([r], m) == Reply(r, m)
  {
    assert [r][1..] == [];
  }

  /** Handling a request makes less work than the request was. */
  lemma HandleWork(t: Tables, r: Request, m: nat)
    ensures var o := Handle(t, r); Replies(o.responses, m) + Jobs(o.requeued, m) < Job(r, m) - 1
  {
    hide Reason, LoginError, GetUserId, AddUser, AddMessage, AddPicture, PictureContent;
    var o := Handle(t, r);
    if |o.responses| == 1 {
      assert o.responses == [o.responses[0]];
      RepliesOne(o.responses[0], m);
    }
    if |o.requeued| == 1 {
      assert o.requeued == [o.requeued[0]];
      JobsOne(o.requeued[0], m);
    }
  }

  lemma {:induction false} LookupsWork(conns: map<Sid, Conn>, sessions: seq<Sid>, user: User, m: nat)
    requires AllIn(sessions, conns)
    ensures Jobs(Lookups(conns, sessions, user), m) == 10 * |sessions|
    decreases |sessions|
  {
    hide CStr;
    if sessions != [] {
      var other := conns[sessions[0]].user;
      var a, b := GetPicture(other, CStr(user.username)), GetPicture(user, CStr(other.username));
      LookupsWork(conns, sessions[1..], user, m);
      JobsConcat([a, b], Lookups(conns, sessions[1..], user), m);
      JobsOne(b, m);
      assert [a, b][1..] == [b];
    }
  }

  /** The members are distinct connections. */
  lemma FewMembers(conns: map<Sid, Conn>, sessions: seq<Sid>)
    requires AllIn(sessions, conns) && Apart(conns, sessions)
    ensures |sessions| <= |conns.Keys|
  {
    assert Distinct(sessions);
    assert forall x :: x in sessions ==> x in conns.Keys;
    FewDistinct(sessions, conns.Keys);
  }

  lemma {:induction false} FewDistinct(xs: seq<Sid>, all: set<Sid>)
    requires Distinct(xs) && forall x :: x in xs ==> x in all
    ensures |xs| <= |all|
  {
    if xs != [] {
      assert xs[0] in all && xs[0] !in xs[1..];
      FewDistinct(xs[1..], all - {xs[0]});
    }
  }

  // ----- the steps -----

  lemma PushJoinAdvances(s: System, m: nat)
    requires s.net.NetJoin?
    ensures Work(DoPushJoin(s), m) < Work(s, m)
  {
    hide Jobs, Replies, Job;
    JobsConcat(s.requests, [s.net.request], m);
    JobsOne(s.net.request, m);
  }

  lemma RunTaskAdvances(s: System, m: nat)
    requires Typed(s) && s.tasks != []
    ensures Work(DoRunTask(s), m) < Work(s, m)
  {
    hide Jobs, Replies, Job, Typed, DoRunTask, InHand;
    RunTaskFrame(s);
  }

  lemma TakeAdvances(s: System, m: nat)
    requires s.requests != [] && s.db.DbIdle?
    ensures Work(DoTakeRequest(s), m) < Work(s, m)
  {
    hide Replies;
    assert Jobs(s.requests, m) == Job(s.requests[0], m) + Jobs(s.requests[1..], m);
  }

  lemma AnswerAdvances(s: System, m: nat)
    requires s.db.DbWork?
    ensures Work(DoAnswer(s), m) < Work(s, m)
  {
    hide Jobs, Replies, Job, Handle, InHand;
    var o := Handle(s.tables, s.db.request);
    HandleWork(s.tables, s.db.request, m);
    JobsConcat(s.requests, o.requeued, m);
    RepliesConcat(s.responses, o.responses, m);
  }

  lemma PopResponseAdvances(s: System, m: nat)
    requires s.upd.Responses?
    ensures Advances(s, DoPopResponse(s), m)
  {
    hide Jobs, Job;
    if s.responses != [] {
      assert Replies(s.responses, m) == Reply(s.responses[0], m) + Replies(s.responses[1..], m);
    }
  }

  lemma PopMessageAdvances(s: System, m: nat)
    requires s.upd.Inbox?
    ensures Advances(s, DoPopMessage(s), m)
  {
    hide Jobs, Job, Replies;
    if s.inbox != [] {
      assert |s.inbox| * (m + 5) == (|s.inbox| - 1) * (m + 5) + (m + 5);
    }
  }

  lemma FindPendingAdvances(s: System, m: nat)
    requires s.upd.Joining? && s.upd.response.username in s.pending
    ensures Work(DoFindPending(s), m) < Work(s, m)
  {
    hide Jobs, Job, Replies;
  }

  lemma CheckConnectedAdvances(s: System, m: nat)
    requires Typed(s) && s.upd.Found?
    ensures Work(DoCheckConnected(s), m) < Work(s, m)
  {
    hide Jobs, Job, Replies, WritersValid, AllIn, FindMember, ConnectedReason;
  }

  lemma AcceptAdvances(s: System, m: nat)
    requires Typed(s) && s.upd.Accepting? && |s.sessions| <= m
    ensures Work(DoAccept(s), m) < Work(s, m)
  {
    hide Jobs, Job, Replies, WritersValid, Lookups;
    var user := s.conns[s.upd.sid].user;
    LookupsWork(s.conns, s.sessions, user, m);
    JobsConcat(s.requests, Lookups(s.conns, s.sessions, user), m);
  }

  lemma AnsweringAdvances(s: System, m: nat, now: M.Int64)
    requires Typed(s)
    ensures s.upd.Welcoming? ==> Work(DoWelcome(s, now), m) < Work(s, m)
    ensures s.upd.Rejecting? ==> Work(DoReject(s, now), m) < Work(s, m)
    ensures s.upd.Dropping? ==> Work(DoDrop(s), m) < Work(s, m)
  {
    hide Jobs, Job, Replies, Typed, WelcomeText;
  }

  lemma SendPictureAdvances(s: System, m: nat, now: M.Int64)
    requires Typed(s) && s.upd.Picturing?
    ensures Work(DoSendPicture(s, now), m) < Work(s, m)
  {
    hide Jobs, Job, Replies, Typed, FindMember, PictureMessage;
  }

  lemma BroadcastAdvances(s: System, m: nat)
    requires Typed(s) && s.upd.Broadcasting? && |s.sessions| <= m
    ensures Work(DoBroadcast(s), m) < Work(s, m)
  {
    hide Jobs, Job, Replies, Typed, PostAll;
    MembersLogged(s);
    PostAllFrame(s, s.sessions, s.upd.message);
  }

  lemma SaveAdvances(s: System, m: nat)
    requires s.upd.Saving?
    ensures Work(DoSaveBroadcast(s), m) < Work(s, m)
  {
    hide Jobs, Replies;
    JobsConcat(s.requests, [SaveMessage(s.upd.message)], m);
    JobsOne(SaveMessage(s.upd.message), m);
  }

  lemma NextFrameAdvances(s: System, m: nat)
    requires s.upd.Idle? && (s.responses != [] || s.inbox != [])
    ensures Advances(s, s.(upd := Responses), m)
  {
    hide Jobs, Job, Replies;
  }

  lemma UpdateAdvances(s: System, step: UpdateStep, m: nat)
    requires Inv(s) && s.fault == NoFault && UpdateEnabled(s, step) && Own(s, Update(step)) && |s.sessions| <= m
    ensures Advances(s, ApplyUpdate(s, step), m)
  {
    hide Typed, Sound, Work, Round, DoPopResponse, DoFindPending, DoCheckConnected, DoAccept, DoWelcome, DoReject,
      DoDrop, DoSendPicture, DoPopMessage, DoBroadcast, DoSaveBroadcast;
    match step
    case PopResponse => PopResponseAdvances(s, m);
    case FindPending => FindPendingSound(s); FindPendingAdvances(s, m);
    case CheckConnected => CheckConnectedAdvances(s, m);
    case Accept => AcceptAdvances(s, m);
    case Welcome(now) => AnsweringAdvances(s, m, now);
    case Reject(now) => AnsweringAdvances(s, m, now);
    case Drop => AnsweringAdvances(s, m, 0);
    case SendPicture(now) => SendPictureAdvances(s, m, now);
    case PopMessage => PopMessageAdvances(s, m);
    case Broadcast => BroadcastAdvances(s, m);
    case SaveBroadcast => SaveAdvances(s, m);
    case NextFrame => NextFrameAdvances(s, m);
  }

  lemma StepAdvances(s: System, step: Step, m: nat)
    requires Inv(s) && Enabled(s, step) && Own(s, step) && |s.sessions| <= m
    ensures Advances(s, Apply(s, step), m)
  {
    hide Typed, Sound, Work, Round, DoPushJoin, DoRunTask, DoTakeRequest, DoAnswer, ApplyUpdate, UpdateEnabled,
      Writer.Enabled;
    match step
    case Network(PushJoin) => PushJoinAdvances(s, m);
    case Network(RunTask) => RunTaskAdvances(s, m);
    case Database(TakeRequest) => TakeAdvances(s, m);
    case Database(Answer) => AnswerAdvances(s, m);
    case Update(u) => UpdateAdvances(s, u, m);
  }

  /** No own step connects anybody. */
  lemma SameConns(s: System, step: Step)
    requires Typed(s) && Enabled(s, step) && Own(s, step)
    ensures Apply(s, step).conns == s.conns
  {
    hide Typed, Handle, DoRunTask, ApplyUpdate, UpdateEnabled, Writer.Enabled;
    match step
    case Network(PushJoin) =>
    case Network(RunTask) => RunTaskFrame(s);
    case Database(_) =>
    case Update(u) => UpdateFrame(s, u);
  }

  // ----- every run -----

  ghost predicate OwnAt(run: Run, k: nat)
    requires k < |run.steps| && |run.states| == |run.steps| + 1
  {
    Own(run.states[k], run.steps[k])
  }

  lemma SoundMembers(s: System)
    requires Inv(s) && s.fault == NoFault
    ensures |s.sessions| <= |s.conns.Keys|
  {
    hide Typed, Pipeline, Phases, Segments, OnlyChats, Channels, Flight, Apart;
    FewMembers(s.conns, s.sessions);
  }

  /**
   * The server's own steps come to an end: from any reachable state on there are at most as many in a row as the
   * measure of that state says.
   */
  lemma {:induction false} OwnStepsEnd(tables: Tables, run: Run, from: nat, to: nat)
    requires IsBehavedRun(tables, run) && from <= to <= |run.steps|
    requires forall k :: from <= k < to ==> OwnAt(run, k)
    ensures run.states[to].conns == run.states[from].conns
    ensures to - from + Measure(run.states[to], |run.states[from].conns.Keys|)
         <= Measure(run.states[from], |run.states[from].conns.Keys|)
  {
    hide Inv, Typed, Apply, Own, Measure, Advances;
    if from < to {
      OwnStepsEnd(tables, run, from, to - 1);
      assert StepAt(run, to - 1) && OwnAt(run, to - 1);
      RunInv(tables, run, to - 1);
      var s, step := run.states[to - 1], run.steps[to - 1];
      SoundMembers(s);
      SameConns(s, step);
      StepAdvances(s, step, |s.conns.Keys|);
      AdvancesMeasure(s, Apply(s, step), |s.conns.Keys|);
    }
  }

  /** Nothing is left that the server would do on its own. */
  ghost predicate AtRest(s: System) {
    forall step :: Own(s, step) ==> !Enabled(s, step)
  }

  lemma RestIsSettled(s: System)
    requires AtRest(s) && s.fault == NoFault && !s.db.DbStopped?
    ensures Settled(s) && s.tasks == [] && s.inbox == []
  {
    hide Writer.Enabled;
    assert !Enabled(s, Network(PushJoin)) && !Enabled(s, Network(RunTask));
    assert !Enabled(s, Database(TakeRequest)) && !Enabled(s, Database(Answer));
    RestIsIdle(s);
    assert Own(s, Update(NextFrame)) ==> !Enabled(s, Update(NextFrame));
  }

  lemma RestIsIdle(s: System)
    requires AtRest(s) && s.fault == NoFault
    ensures s.upd.Idle?
  {
    var step := match s.upd
      case Responses => PopResponse
      case Joining(_) => FindPending
      case Found(_, _) => CheckConnected
      case Accepting(_) => Accept
      case Welcoming(_) => Welcome(0)
      case Rejecting(_, _) => Reject(0)
      case Dropping(_) => Drop
      case Picturing(_) => SendPicture(0)
      case Inbox => PopMessage
      case Broadcasting(_) => Broadcast
      case Saving(_) => SaveBroadcast
      case Idle => NextFrame;
    assert Own(s, Update(step)) ==> !Enabled(s, Update(step));
  }

  /**
   * Where they end, unless the database thread has been shut down, every session that has joined has been sent
   * exactly one answer, and every chat that arrived has been broadcast.
   */
  lemma RestAnswersAll(tables: Tables, run: Run, k: nat, s: System)
    requires Reached(tables, run, k, s) && AtRest(s) && !s.db.DbStopped?
    ensures s.pending == map[]
    ensures forall sid :: sid in s.conns && s.conns[sid].joined ==> sid in s.logs && AnswerCount(s.logs[sid]) == 1
    ensures s.broadcasts == Arrived(run.steps, k)
  {
    hide IsRun, AtRest, AnswerCount, Arrived;
    RestIsSettled(s);
    SettledAnswersAll(tables, run, k, s);
    assert s.upd.Idle? by { RestIsIdle(s); }
    ReachedChats(tables, run, k, s);
  }

  lemma ReachedChats(tables: Tables, run: Run, k: nat, s: System)
    requires Reached(tables, run, k, s)
    ensures Heard(s) == Arrived(run.steps, k)
  {
    hide StepAt, BehavedAt, Arrived, Heard;
    ChatsConserved(tables, run, k);
  }
}
