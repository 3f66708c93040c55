/** Under whose name a connection acts: the one of its last join, whatever the answer was. */
module ServerClaims {
  import opened Bytes
  import opened User
  import opened Store
  import opened StoreRefinement
  import opened StoreRuns
  import opened ServerSystem
  import opened ServerInvariants
  import opened ServerProof
  import opened ServerRuns
  import opened ServerHypotheses
  import opened ServerRequests
  import opened ServerStore
  import M = Message
  import Picture
  import ServerAnswers
  import Writer

  /** The user of the connection's last join among the first steps. */
  ghost function Claimed(steps: seq<Step>, k: nat, sid: Sid): User
    requires k <= |steps|
  {
    if k == 0 then NOBODY
    else if JoinStep(steps[k - 1], sid) then
      User(steps[k - 1].n.message.senderName, steps[k - 1].n.message.content)
    else Claimed(steps, k - 1, sid)
  }

  lemma ReceiveUser(s: System, x: Sid, m: M.Message, sid: Sid)
    requires x in s.conns && sid in s.conns
    ensures sid in DoReceive(s, x, m).conns
    ensures DoReceive(s, x, m).conns[sid].user ==
      if x == sid && IsJoinMessage(m) then User(m.senderName, m.content) else s.conns[sid].user
  {
    hide DoReceive, CStr;
    ReceiveIs(s, x, m);
  }

  lemma NetworkUser(s: System, step: NetworkStep, sid: Sid)
    requires Typed(s) && NetworkEnabled(s, step) && sid in s.conns
    ensures sid in ApplyNetwork(s, step).conns
    ensures ApplyNetwork(s, step).conns[sid].user ==
      if JoinStep(Network(step), sid) then User(step.message.senderName, step.message.content) else s.conns[sid].user
  {
    hide Typed, DoReceive, DoRunTask, IsJoinMessage, Writer.Enabled, Writer.Apply;
    match step
    case Connect(_) =>
    case Receive(x, m) => ReceiveUser(s, x, m, sid);
    case PushJoin =>
    case EndOfFile(_) =>
    case RunTask => RunTaskFrame(s);
    case Written(_, _) =>
  }

  lemma UserStep(s: System, step: Step, sid: Sid)
    requires Typed(s) && Enabled(s, step) && sid in s.conns
    ensures sid in Apply(s, step).conns
    ensures Apply(s, step).conns[sid].user ==
      if JoinStep(step, sid) then User(step.n.message.senderName, step.n.message.content) else s.conns[sid].user
  {
    hide Typed, Handle, IsJoinMessage, ApplyNetwork, ApplyUpdate, NetworkEnabled, UpdateEnabled;
    match step
    case Network(n) => NetworkUser(s, n, sid);
    case Database(_) =>
    case Update(u) => UpdateFrame(s, u);
  }

  lemma NewUser(s: System, step: Step, sid: Sid)
    requires Typed(s) && Enabled(s, step) && sid !in s.conns && sid in Apply(s, step).conns
    ensures Apply(s, step).conns[sid].user == NOBODY
  {
    hide Typed, Enabled, Apply;
    ServerAnswers.OnlyConnects(s, step, sid);
  }

  /** In any run the user of a connection is the one of its last join, accepted or not. */
  lemma {:induction false} UserIsClaimed(tables: Tables, run: Run, k: nat, sid: Sid)
    requires IsRun(tables, run) && k <= |run.steps|
    ensures sid in run.states[k].conns ==> run.states[k].conns[sid].user == Claimed(run.steps, k, sid)
    ensures sid !in run.states[k].conns ==> Claimed(run.steps, k, sid) == NOBODY
  {
    hide Typed, Apply, NetworkEnabled, DatabaseEnabled, UpdateEnabled, IsJoinMessage;
    if k > 0 {
      var p, last := run.states[k - 1], run.steps[k - 1];
      UserIsClaimed(tables, run, k - 1, sid);
      assert StepAt(run, k - 1);
      if sid in p.conns {
        UserStep(p, last, sid);
      } else {
        OnlyConnectedJoin(p, last, sid);
        if sid in Apply(p, last).conns {
          NewUser(p, last, sid);
        }
      }
    }
  }

  /** So a picture message asks for a save under the name the connection last joined with. */
  lemma SavesClaimed(tables: Tables, run: Run, k: nat, sid: Sid, m: M.Message)
    requires IsRun(tables, run) && k < |run.steps| && run.steps[k] == Network(Receive(sid, m))
    requires m.command == M.PROFILE_PICTURE
    ensures AskedBy(run.states[k], run.steps[k], Clients) == [SavePicture(Claimed(run.steps, k, sid), CStr(m.content))]
  {
    hide Typed, Apply, Writer.Enabled, Claimed;
    assert StepAt(run, k);
    UserIsClaimed(tables, run, k, sid);
  }

  /**
   * And in any run an account's picture changes at exactly one kind of step: the answer to a save of pixels under
   * its name, whoever asked for it.
   */
  lemma PictureAtStep(tables: Tables, run: Run, k: nat, name: Text)
    requires WellFormed(tables) && IsRun(tables, run) && k < |run.steps| && run.states[k + 1].fault != BadPicture
    requires name in BookOf(run.states[k].tables).accounts
    ensures name in BookOf(run.states[k + 1].tables).accounts
    ensures var asked := AnsweredBy(run.states[k], run.steps[k]);
      BookOf(run.states[k + 1].tables).accounts[name].picture ==
        if asked != [] && Saves(asked[0], name) && Picture.Pixels(asked[0].content) !in {None, Some([])}
        then Picture.Pixels(asked[0].content)
        else BookOf(run.states[k].tables).accounts[name].picture
  {
    hide WellFormed, BookOf, Typed, Enabled, Apply, Handle, BookHandle, HandleAll, Picture.Pixels, Saves;
    var s, step := run.states[k], run.steps[k];
    assert StepAt(run, k);
    StoreStep(s, step);
    assert s.fault == NoFault by { EnabledFault(s, step); }
    WellFormedAt(tables, run, k);
    if step == Database(Answer) && s.db.DbWork? {
      HandleOne(s.tables, s.db.request);
      HandleRefines(s.tables, s.db.request);
      PictureAfter(BookOf(s.tables), s.db.request, name);
    } else {
      NothingHandled(s.tables);
    }
  }

  lemma EnabledFault(s: System, step: Step)
    requires Enabled(s, step)
    ensures s.fault == NoFault
  {
    hide NetworkEnabled, UpdateEnabled, DatabaseEnabled;
  }
}
