/** Why the server needs what is assumed of its clients. */
module ServerHypotheses {
  import opened Bytes
  import opened User
  import opened Store
  import opened ServerSystem
  import opened ServerInvariants
  import opened ServerRuns
  import opened ServerProof
  import M = Message
  import Writer

  // ----- H1 in terms of the run -----

  predicate JoinStep(step: Step, sid: Sid) {
    step.Network? && step.n.Receive? && step.n.sid == sid && IsJoinMessage(step.n.message)
  }

  lemma JoinedStep(s: System, step: Step, sid: Sid)
    requires Typed(s) && Enabled(s, step) && sid in Apply(s, step).conns
    ensures Apply(s, step).conns[sid].joined <==> (sid in s.conns && s.conns[sid].joined) || JoinStep(step, sid)
  {
    hide Typed, Handle, ApplyNetwork, ApplyUpdate, NetworkEnabled, UpdateEnabled, IsJoinMessage;
    match step
    case Network(n) => JoinedNetwork(s, n, sid);
    case Database(_) =>
    case Update(u) => UpdateFrame(s, u);
  }

  lemma JoinedNetwork(s: System, step: NetworkStep, sid: Sid)
    requires Typed(s) && NetworkEnabled(s, step) && sid in ApplyNetwork(s, step).conns
    ensures ApplyNetwork(s, step).conns[sid].joined <==>
      (sid in s.conns && s.conns[sid].joined) || JoinStep(Network(step), sid)
  {
    hide Typed, DoReceive, DoRunTask, Writer.Enabled, Writer.Apply, IsJoinMessage;
    match step
    case Connect(_) =>
    case Receive(x, m) => JoinedReceive(s, x, m, sid);
    case PushJoin =>
    case EndOfFile(_) =>
    case RunTask => RunTaskFrame(s);
    case Written(_, _) =>
  }

  lemma JoinedReceive(s: System, x: Sid, m: M.Message, sid: Sid)
    requires x in s.conns
    ensures DoReceive(s, x, m).conns.Keys == s.conns.Keys
    ensures sid in s.conns ==>
      (DoReceive(s, x, m).conns[sid].joined <==> s.conns[sid].joined || (x == sid && IsJoinMessage(m)))
  {
    hide CStr;
    assert DoReceive(s, x, m).conns.Keys == s.conns.Keys;
  }

  /** `joined` says whether the connection has sent a login or register message in the run. */
  lemma {:induction false} JoinedMeans(tables: Tables, run: Run, k: nat, sid: Sid)
    requires IsRun(tables, run) && k <= |run.steps|
    ensures sid in run.states[k].conns ==>
      (run.states[k].conns[sid].joined <==> exists i :: 0 <= i < k && JoinStep(run.steps[i], sid))
    ensures sid !in run.states[k].conns ==> forall i :: 0 <= i < k ==> !JoinStep(run.steps[i], sid)
  {
    hide Typed, Apply, NetworkEnabled, DatabaseEnabled, UpdateEnabled, JoinStep;
    if k > 0 {
      var p, last := run.states[k - 1], run.steps[k - 1];
      JoinedMeans(tables, run, k - 1, sid);
      assert StepAt(run, k - 1);
      ConnsGrow(p, last);
      if sid in Apply(p, last).conns {
        JoinedStep(p, last, sid);
      } else {
        OnlyConnectedJoin(p, last, sid);
      }
    }
  }

  lemma OnlyConnectedJoin(s: System, step: Step, sid: Sid)
    requires Enabled(s, step) && sid !in s.conns
    ensures !JoinStep(step, sid)
  {
    hide Writer.Enabled;
  }

  lemma ConnsGrow(s: System, step: Step)
    requires Typed(s) && Enabled(s, step)
    ensures s.conns.Keys <= Apply(s, step).conns.Keys
  {
    hide WritersValid, AllIn, Handle, CStr, Writer.Enabled, Writer.Apply, M.Serialize, ApplyUpdate;
    if step.Update? {
      UpdateFrame(s, step.u);
    }
  }

  // ----- without H2 -----

  /** H1 held whenever a message arrived. */
  ghost predicate JoinedOnce(run: Run) {
    |run.states| == |run.steps| + 1 && forall k :: 0 <= k < |run.steps| ==> JoinsOnceAt(run, k)
  }

  predicate JoinsOnceAt(run: Run, k: nat)
    requires k < |run.steps| && |run.states| == |run.steps| + 1
  {
    JoinsOnce(run.states[k], run.steps[k])
  }

  /** A run from the empty tables in which every connection joins at most once leads here. */
  ghost predicate Possible(s: System) {
    exists run :: IsRun(EMPTY, run) && JoinedOnce(run) && run.states[|run.steps|] == s
  }

  lemma PossibleStep(s: System, step: Step)
    requires Possible(s) && Typed(s) && Enabled(s, step) && JoinsOnce(s, step)
    ensures Possible(Apply(s, step)) && Typed(Apply(s, step))
  {
    hide Typed, Enabled, Apply, JoinsOnce, StepAt;
    var run :| IsRun(EMPTY, run) && JoinedOnce(run) && run.states[|run.steps|] == s;
    Continues(EMPTY, run, step);
    StepTyped(s, step);
    var longer := Run(run.states + [Apply(s, step)], run.steps + [step]);
    forall k | 0 <= k < |longer.steps|
      ensures JoinsOnceAt(longer, k)
    {
      if k < |run.steps| {
        assert JoinsOnceAt(run, k);
      }
    }
    assert longer.states[|longer.steps|] == Apply(s, step);
    assert IsRun(EMPTY, longer) && JoinedOnce(longer);
  }

  function LoginMessage(name: Text): M.Message { M.Message(M.LOGIN_REQUEST, name, [], 0) }

  /** Two connections have joined under one name and neither join has been answered. */
  function TwoJoins(name: Text): System {
    var u := User(name, []);
    var c := Conn(u, true, true);
    Initial(EMPTY).(
      conns := map[0 := c, 1 := c], writers := map[0 := Writer.New(), 1 := Writer.New()],
      logs := map[0 := [], 1 := []], spans := map[0 := Span(0, 0), 1 := Span(0, 0)],
      pending := map[CStr(name) := 1], requests := [Login(u), Login(u)])
  }

  lemma Connected(name: Text)
    ensures var s := DoConnect(DoConnect(Initial(EMPTY), 0), 1); Possible(s) && Typed(s)
  {
    hide Typed, Enabled, Apply, DoConnect, FreshName;
    var s := Initial(EMPTY);
    var start := Run([s], []);
    assert IsRun(EMPTY, start) && JoinedOnce(start) && start.states[0] == s;
    InitialTyped(EMPTY);
    ConnectEnabled(s, 0);
    PossibleStep(s, Network(Connect(0)));
    ConnectEnabled(DoConnect(s, 0), 1);
    PossibleStep(DoConnect(s, 0), Network(Connect(1)));
  }

  /** Reading the join of a new connection and pushing its request. */
  lemma JoinPossible(s: System, sid: Sid, name: Text)
    requires Possible(s) && Typed(s) && s.fault == NoFault && s.net.NetIdle?
    requires sid in s.conns && s.conns[sid].reading && !s.conns[sid].joined
    ensures var u := User(name, []);
      var r := s.(conns := s.conns[sid := s.conns[sid].(user := u, joined := true)],
                  pending := s.pending[CStr(name) := sid], requests := s.requests + [Login(u)]);
      Possible(r) && Typed(r)
  {
    hide Possible, Typed, CStr;
    var m := LoginMessage(name);
    PossibleStep(s, Network(Receive(sid, m)));
    var t := DoReceive(s, sid, m);
    assert Apply(s, Network(Receive(sid, m))) == t;
    PossibleStep(t, Network(PushJoin));
  }

  lemma TwoJoinsPossible(name: Text)
    ensures Possible(TwoJoins(name)) && Typed(TwoJoins(name))
  {
    hide Possible, Typed, CStr;
    Connected(name);
    var s := DoConnect(DoConnect(Initial(EMPTY), 0), 1);
    JoinPossible(s, 0, name);
    var u := User(name, []);
    var t := s.(conns := s.conns[0 := s.conns[0].(user := u, joined := true)],
                pending := s.pending[CStr(name) := 0], requests := s.requests + [Login(u)]);
    JoinPossible(t, 1, name);
    var r := t.(conns := t.conns[1 := t.conns[1].(user := u, joined := true)],
                pending := t.pending[CStr(name) := 1], requests := t.requests + [Login(u)]);
    assert r == TwoJoins(name);
  }

  function Unknown(name: Text): Response {
    Response(CStr(name), Reason(name, " could not be found"), [], LOGIN_FAIL)
  }

  /** Serving a join under a name that is not registered. */
  lemma ServePossible(s: System, name: Text)
    requires Possible(s) && Typed(s) && s.fault == NoFault && s.db.DbIdle? && s.tables == EMPTY
    requires s.requests != [] && s.requests[0] == Login(User(name, []))
    ensures var r := s.(requests := s.requests[1..], responses := s.responses + [Unknown(name)]);
      Possible(r) && Typed(r)
  {
    hide Possible, Typed, CStr, Reason;
    PossibleStep(s, Database(TakeRequest));
    var t := DoTakeRequest(s);
    PossibleStep(t, Database(Answer));
    assert Handle(EMPTY, Login(User(name, []))) == Outcome(EMPTY, [Unknown(name)], [], false);
    assert t.requests + [] == t.requests;
  }

  /** The first answer takes the pending entry, which belongs to the second connection. */
  lemma FirstAnswer(s: System, name: Text) returns (r: System)
    requires Possible(s) && Typed(s) && s.fault == NoFault && s.upd.Idle? && |s.responses| == 2
    requires s.responses[0] == s.responses[1] == Unknown(name)
    requires s.pending.Keys == {CStr(name)} && s.pending[CStr(name)] in s.conns
    ensures Possible(r) && Typed(r) && r.fault == NoFault && r.upd.Found? && r.upd.response == Unknown(name)
    ensures r.responses == [Unknown(name)] && r.pending == map[]
  {
    hide Possible, Typed, CStr, Reason;
    PossibleStep(s, Update(NextFrame));
    var s1 := s.(upd := Responses);
    PossibleStep(s1, Update(PopResponse));
    var s2 := DoPopResponse(s1);
    PossibleStep(s2, Update(FindPending));
    r := DoFindPending(s2);
    assert r.pending == map[];
  }

  lemma Refused(s: System, name: Text) returns (r: System)
    requires Possible(s) && Typed(s) && s.fault == NoFault && s.upd.Found? && s.upd.response == Unknown(name)
    ensures Possible(r) && Typed(r) && r.fault == NoFault && r.upd.Responses?
    ensures r.responses == s.responses && r.pending == s.pending
  {
    hide Possible, Typed, CStr, Reason;
    PossibleStep(s, Update(CheckConnected));
    var s1 := DoCheckConnected(s);
    PossibleStep(s1, Update(Reject(0)));
    var s2 := DoReject(s1, 0);
    PossibleStep(s2, Update(Drop));
    r := DoDrop(s2);
  }

  /**
   * With two joins under one name on their way, each from its own connection, the second answer finds no
   * session: the original then uses a null pointer.
   */
  lemma NullSessionWithoutH2(name: Text)
    ensures exists s :: Possible(s) && s.fault == NullSession
  {
    hide Possible, Typed, CStr, Reason;
    TwoJoinsPossible(name);
    var s := TwoJoins(name);
    ServePossible(s, name);
    var t := s.(requests := s.requests[1..], responses := s.responses + [Unknown(name)]);
    ServePossible(t, name);
    var u := t.(requests := t.requests[1..], responses := t.responses + [Unknown(name)]);
    var found := FirstAnswer(u, name);
    var v := Refused(found, name);
    PossibleStep(v, Update(PopResponse));
    var w := DoPopResponse(v);
    PossibleStep(w, Update(FindPending));
    assert DoFindPending(w).fault == NullSession;
  }
}
