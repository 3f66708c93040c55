/** What is asked of the database: every join, picture and broadcast once, in order. */
module ServerRequests {
  import opened Bytes
  import opened User
  import opened Store
  import opened StoreRuns
  import opened ServerSystem
  import opened ServerRuns
  import ServerProof
  import M = Message
  import Writer

  /** The two threads that ask for something to be stored. */
  datatype Origin = Clients | Broadcasts

  predicate From(r: Request, o: Origin) {
    match o
    case Clients => IsJoin(r) || r.SavePicture?
    case Broadcasts => r.SaveMessage?
  }

  function OnlyFirst(r: Request, o: Origin): seq<Request> {
    if From(r, o) then [r] else []
  }

  function Only(rs: seq<Request>, o: Origin): seq<Request> {
    if rs == [] then [] else OnlyFirst(rs[0], o) + Only(rs[1..], o)
  }

  lemma {:induction false} OnlyConcat(a: seq<Request>, b: seq<Request>, o: Origin)
    ensures Only(a + b, o) == Only(a, o) + Only(b, o)
    decreases |a|
  {
    hide OnlyFirst;
    if a == [] {
      assert a + b == b;
    } else {
      assert (a + b)[1..] == a[1..] + b;
      OnlyConcat(a[1..], b, o);
    }
  }

  lemma {:induction false} OnlyNone(rs: seq<Request>, o: Origin)
    requires forall i :: 0 <= i < |rs| ==> rs[i].GetPicture?
    ensures Only(rs, o) == []
  {
    if rs != [] {
      OnlyNone(rs[1..], o);
    }
  }

  lemma OnlyOne(r: Request, o: Origin)
    ensures Only([r], o) == OnlyFirst(r, o)
  {
    assert [r][1..] == [];
  }

  // ----- one step -----

  /** The request a message of a client stands for. */
  function RequestOf(user: User, m: M.Message): seq<Request> {
    if m.command == M.LOGIN_REQUEST then [Login(User(m.senderName, m.content))]
    else if m.command == M.REGISTER_REQUEST then [Register(User(m.senderName, m.content))]
    else if m.command == M.PROFILE_PICTURE then [SavePicture(user, CStr(m.content))]
    else []
  }

  /** What a step makes somebody ask for. */
  function AskedBy(s: System, step: Step, o: Origin): seq<Request> {
    match step
    case Network(Receive(sid, m)) => if o == Clients && sid in s.conns then RequestOf(s.conns[sid].user, m) else []
    case Update(Broadcast) => if o == Broadcasts && s.upd.Broadcasting? then [SaveMessage(s.upd.message)] else []
    case _ => []
  }

  /** What a step takes from the queue. */
  function TakenBy(s: System, step: Step): seq<Request> {
    if step == Database(TakeRequest) && s.requests != [] then [s.requests[0]] else []
  }

  /** Asked for and not taken yet. */
  function Due(s: System, o: Origin): seq<Request> {
    Only(s.requests, o)
    + match o
      case Clients => if s.net.NetJoin? then [s.net.request] else []
      case Broadcasts => if s.upd.Saving? then [SaveMessage(s.upd.message)] else []
  }

  lemma DueReceive(s: System, sid: Sid, m: M.Message, o: Origin)
    requires sid in s.conns && s.net.NetIdle?
    ensures Due(DoReceive(s, sid, m), o) == Due(s, o) + if o == Clients then RequestOf(s.conns[sid].user, m) else []
  {
    hide Only, CStr;
    if m.command == M.PROFILE_PICTURE {
      var r := SavePicture(s.conns[sid].user, CStr(m.content));
      OnlyConcat(s.requests, [r], o);
      OnlyOne(r, o);
    }
  }

  /** A login or register request is what the network thread is about to push. */
  ghost predicate JoinsInHand(s: System) {
    s.net.NetJoin? ==> IsJoin(s.net.request)
  }

  lemma DuePushJoin(s: System, o: Origin)
    requires s.net.NetJoin? && JoinsInHand(s)
    ensures Due(DoPushJoin(s), o) == Due(s, o)
  {
    hide Only;
    OnlyConcat(s.requests, [s.net.request], o);
    OnlyOne(s.net.request, o);
  }

  lemma DueTake(s: System, o: Origin)
    requires s.requests != []
    ensures Only([s.requests[0]], o) + Due(DoTakeRequest(s), o) == Due(s, o)
  {
    hide Only;
    OnlyConcat([s.requests[0]], s.requests[1..], o);
    assert s.requests == [s.requests[0]] + s.requests[1..];
  }

  lemma DueAnswer(s: System, o: Origin)
    requires s.db.DbWork?
    ensures Due(DoAnswer(s), o) == Due(s, o)
  {
    hide Only, Handle;
    var requeued := Handle(s.tables, s.db.request).requeued;
    HandleAnswers(s.tables, s.db.request);
    OnlyConcat(s.requests, requeued, o);
    OnlyNone(requeued, o);
  }

  lemma DueAccept(s: System, o: Origin)
    requires Typed(s) && s.upd.Accepting?
    ensures Due(DoAccept(s), o) == Due(s, o)
  {
    hide Only, Lookups, WritersValid;
    var user := s.conns[s.upd.sid].user;
    LookupsAsk(s.conns, s.sessions, user);
    OnlyConcat(s.requests, Lookups(s.conns, s.sessions, user), o);
    OnlyNone(Lookups(s.conns, s.sessions, user), o);
  }

  lemma DueSave(s: System, o: Origin)
    requires s.upd.Saving?
    ensures Due(DoSaveBroadcast(s), o) == Due(s, o)
  {
    hide Only;
    var r := SaveMessage(s.upd.message);
    OnlyConcat(s.requests, [r], o);
    OnlyOne(r, o);
  }

  lemma DueBroadcast(s: System, o: Origin)
    requires Typed(s) && s.upd.Broadcasting?
    ensures Due(DoBroadcast(s), o) == Due(s, o) + if o == Broadcasts then [SaveMessage(s.upd.message)] else []
  {
    hide Only, Typed, PostAll;
    MembersLogged(s);
    PostAllFrame(s, s.sessions, s.upd.message);
  }

  /** A step that leaves the queue and what is in hand alone. */
  lemma DueSame(s: System, r: System, o: Origin)
    requires r.requests == s.requests && r.net == s.net
    requires s.upd.Saving? || r.upd.Saving? ==> r.upd == s.upd
    ensures Due(r, o) == Due(s, o)
  {
  }

  lemma DueUpdate(s: System, step: UpdateStep, o: Origin)
    requires Typed(s) && UpdateEnabled(s, step)
    ensures Due(ApplyUpdate(s, step), o) == Due(s, o) + AskedBy(s, Update(step), o)
  {
    hide Typed, Due, DoAccept, DoBroadcast, DoSaveBroadcast;
    match step
    case Accept => DueAccept(s, o);
    case Broadcast => DueBroadcast(s, o);
    case SaveBroadcast => DueSave(s, o);
    case _ => DueOther(s, step, o);
  }

  lemma DueOther(s: System, step: UpdateStep, o: Origin)
    requires Typed(s) && UpdateEnabled(s, step) && !step.Accept? && !step.SaveBroadcast? && !step.Broadcast?
    ensures Due(ApplyUpdate(s, step), o) == Due(s, o)
  {
    hide Typed, Due, ApplyUpdate;
    UpdateFrame(s, step);
    DueSame(s, ApplyUpdate(s, step), o);
  }

  lemma DueNetwork(s: System, step: NetworkStep, o: Origin)
    requires Typed(s) && NetworkEnabled(s, step) && JoinsInHand(s)
    ensures Due(ApplyNetwork(s, step), o) == Due(s, o) + AskedBy(s, Network(step), o)
  {
    hide Typed, Only, RequestOf, DoReceive, DoPushJoin, DoRunTask, Writer.Apply, Writer.Enabled;
    match step
    case Connect(sid) => DueSame(s, DoConnect(s, sid), o);
    case Receive(sid, m) => DueReceive(s, sid, m, o);
    case PushJoin => DuePushJoin(s, o);
    case EndOfFile(sid) => DueSame(s, DoEndOfFile(s, sid), o);
    case RunTask => ServerProof.RunTaskFrame(s); DueSame(s, DoRunTask(s), o);
    case Written(sid, ok) => DueSame(s, DoWrite(s, sid, Writer.Done(ok)), o);
  }

  lemma DueStep(s: System, step: Step, o: Origin)
    requires Typed(s) && Enabled(s, step) && JoinsInHand(s)
    ensures Only(TakenBy(s, step), o) + Due(Apply(s, step), o) == Due(s, o) + AskedBy(s, step, o)
  {
    hide Typed, Due, ApplyNetwork, ApplyUpdate, DoTakeRequest, DoAnswer, NetworkEnabled, UpdateEnabled, JoinsInHand;
    match step
    case Network(n) => DueNetwork(s, n, o);
    case Update(u) => DueUpdate(s, u, o);
    case Database(TakeRequest) => DueTake(s, o);
    case Database(Answer) => DueAnswer(s, o);
  }

  lemma JoinsInHandStep(s: System, step: Step)
    requires Typed(s) && Enabled(s, step) && JoinsInHand(s)
    ensures JoinsInHand(Apply(s, step))
  {
    hide Typed, CStr, Handle, ApplyUpdate, UpdateEnabled, DoRunTask, DoWrite, Writer.Enabled;
    match step
    case Network(Connect(_)) =>
    case Network(Receive(_, _)) =>
    case Network(PushJoin) =>
    case Network(EndOfFile(_)) =>
    case Network(RunTask) => ServerProof.RunTaskFrame(s);
    case Network(Written(_, _)) => assert Apply(s, step).net == s.net by { WriteKeepsNet(s, step.n.sid, step.n.ok); }
    case Database(_) =>
    case Update(u) => UpdateFrame(s, u);
  }

  lemma WriteKeepsNet(s: System, sid: Sid, ok: bool)
    requires Typed(s) && sid in s.conns && Writer.Enabled(s.writers[sid], Writer.Done(ok))
    ensures DoWrite(s, sid, Writer.Done(ok)).net == s.net
  {
    hide Typed, Writer.Enabled, Writer.Apply;
  }

  // ----- every run -----

  /** What the first steps of a run make somebody ask for. */
  function Asked(run: Run, k: nat, o: Origin): seq<Request>
    requires k <= |run.steps| < |run.states|
  {
    if k == 0 then [] else Asked(run, k - 1, o) + AskedBy(run.states[k - 1], run.steps[k - 1], o)
  }

  /** What the database thread takes from the queue in the first steps. */
  function Taken(run: Run, k: nat): seq<Request>
    requires k <= |run.steps| < |run.states|
  {
    if k == 0 then [] else Taken(run, k - 1) + TakenBy(run.states[k - 1], run.steps[k - 1])
  }

  /**
   * Whatever the clients and the broadcasts ask of the database is taken by its thread once, in order: what was
   * taken and what is due is what was asked.
   */
  lemma {:induction false} RequestsConserved(tables: Tables, run: Run, k: nat, o: Origin)
    requires IsRun(tables, run) && k <= |run.steps|
    ensures JoinsInHand(run.states[k])
    ensures Only(Taken(run, k), o) + Due(run.states[k], o) == Asked(run, k, o)
  {
    hide Typed, Enabled, Apply, JoinsInHand, AskedBy, TakenBy, Due;
    if k == 0 {
      NothingDue(tables, o);
    } else {
      var p, last := run.states[k - 1], run.steps[k - 1];
      RequestsConserved(tables, run, k - 1, o);
      assert StepAt(run, k - 1);
      DueStep(p, last, o);
      JoinsInHandStep(p, last);
      OnlyConcat(Taken(run, k - 1), TakenBy(p, last), o);
      Regroup(Only(Taken(run, k - 1), o), Only(TakenBy(p, last), o), Due(Apply(p, last), o), Due(p, o),
              AskedBy(p, last, o));
    }
  }

  lemma Regroup(taken: seq<Request>, now: seq<Request>, due: seq<Request>, was: seq<Request>, asked: seq<Request>)
    requires now + due == was + asked
    ensures taken + now + due == taken + was + asked
  {
    assert taken + now + due == taken + (now + due);
    assert taken + (was + asked) == taken + was + asked;
  }

  lemma NothingDue(tables: Tables, o: Origin)
    ensures JoinsInHand(Initial(tables)) && Due(Initial(tables), o) == []
  {
  }

  function SavesOf(ms: seq<M.Message>): seq<Request> {
    seq(|ms|, i requires 0 <= i < |ms| => SaveMessage(ms[i]))
  }

  lemma {:induction false} BroadcastsAsked(tables: Tables, run: Run, k: nat)
    requires IsRun(tables, run) && k <= |run.steps|
    ensures Asked(run, k, Broadcasts) == SavesOf(run.states[k].broadcasts)
  {
    hide Typed, Enabled, Apply;
    if k > 0 {
      BroadcastsAsked(tables, run, k - 1);
      assert StepAt(run, k - 1);
      BroadcastsStep(run.states[k - 1], run.steps[k - 1]);
    }
  }

  lemma BroadcastsStep(s: System, step: Step)
    requires Typed(s) && Enabled(s, step)
    ensures Apply(s, step).broadcasts ==
      s.broadcasts + if step == Update(Broadcast) && s.upd.Broadcasting? then [s.upd.message] else []
  {
    hide Typed, CStr, Handle, DoRunTask, Writer.Enabled, Writer.Apply, ApplyUpdate;
    match step
    case Network(RunTask) => ServerProof.RunTaskFrame(s);
    case Network(_) =>
    case Database(_) =>
    case Update(u) => UpdateFrame(s, u);
  }

  /** Every broadcast is handed to the database once, in the order of the broadcasts. */
  lemma BroadcastsAreSaved(tables: Tables, run: Run, k: nat)
    requires IsRun(tables, run) && k <= |run.steps|
    ensures Only(Taken(run, k), Broadcasts) + Due(run.states[k], Broadcasts) == SavesOf(run.states[k].broadcasts)
  {
    hide StepAt, Only, Due, Taken, Asked;
    RequestsConserved(tables, run, k, Broadcasts);
    BroadcastsAsked(tables, run, k);
  }
}
