/** Exactly when a response finds no session: when two joins under one name were on their way together. */
module ServerNames {
  import opened Bytes
  import opened User
  import opened Store
  import opened StoreRuns
  import opened ServerSystem
  import opened ServerInvariants
  import opened ServerProof
  import opened ServerUpdateProof
  import opened ServerRuns
  import opened ServerProgress
  import M = Message
  import Writer

  // ----- how often a name is on its way -----

  function Count(flight: seq<(Text, bool)>, n: Text): nat {
    if flight == [] then 0 else (if flight[0].0 == n then 1 else 0) + Count(flight[1..], n)
  }

  lemma {:induction false} CountConcat(a: seq<(Text, bool)>, b: seq<(Text, bool)>, n: Text)
    ensures Count(a + b, n) == Count(a, n) + Count(b, n)
    decreases |a|
  {
    if a == [] {
      assert a + b == b;
    } else {
      assert (a + b)[1..] == a[1..] + b;
      CountConcat(a[1..], b, n);
    }
  }

  lemma CountOne(e: (Text, bool), n: Text)
    ensures Count([e], n) == if e.0 == n then 1 else 0
  {
    assert [e][1..] == [];
  }

  lemma {:induction false} CountNamed(flight: seq<(Text, bool)>, n: Text)
    ensures Count(flight, n) > 0 <==> Named(flight, n)
  {
    if flight != [] {
      assert flight == [flight[0]] + flight[1..];
      NamedFirst(flight[0], flight[1..], n);
      CountNamed(flight[1..], n);
    }
  }

  /** How often the name is a key of the pending map. */
  function Listed(s: System, n: Text): nat { if n in s.pending then 1 else 0 }

  // ----- what a step does to a name -----

  /** The response being answered is that of a join. */
  predicate Proper(s: System) {
    s.upd.Joining? ==> !s.upd.response.kind.USER_PROFILE_PICTURE?
  }

  /** The step reads a join under the name. */
  predicate Asks(step: Step, n: Text) {
    step.Network? && step.n.Receive? && IsJoinMessage(step.n.message) && CStr(step.n.message.senderName) == n
  }

  /** The step takes the pending entry of the name. */
  predicate Takes(s: System, step: Step, n: Text) {
    step == Update(FindPending) && s.upd.Joining? && s.upd.response.username == n && n in s.pending
  }

  /** Neither the joins on their way nor the pending map change. */
  ghost predicate Still(s: System, r: System) {
    Flight(r) == Flight(s) && r.pending == s.pending && Proper(r)
  }

  lemma StillIs(s: System, r: System)
    requires r.net == s.net && r.db == s.db && r.requests == s.requests && r.responses == s.responses
    requires r.pending == s.pending && Proper(s)
    requires s.upd.Joining? || r.upd.Joining? ==> r.upd == s.upd
    ensures Still(s, r)
  {
    hide Joins, Answers;
  }

  lemma OtherStill(s: System, sid: Sid, m: M.Message)
    requires sid in s.conns && !IsJoinMessage(m) && Proper(s)
    ensures Still(s, DoReceive(s, sid, m))
  {
    hide Flight, CStr;
    var r := SavePicture(s.conns[sid].user, CStr(m.content));
    assert m.command != M.LOGIN_REQUEST && m.command != M.REGISTER_REQUEST;
    if m.command == M.PROFILE_PICTURE {
      JoinsOne(r);
      OtherRequests(s, [r]);
    } else {
      StillIs(s, DoReceive(s, sid, m));
    }
  }

  lemma NetworkStill(s: System, step: NetworkStep)
    requires Typed(s) && NetworkEnabled(s, step) && Proper(s)
    requires step.Receive? ==> !IsJoinMessage(step.message)
    ensures Still(s, ApplyNetwork(s, step))
  {
    hide Typed, Flight, IsJoinMessage, DoReceive, DoRunTask, Writer.Enabled, Writer.Apply;
    match step
    case Connect(sid) => StillIs(s, DoConnect(s, sid));
    case Receive(sid, m) => OtherStill(s, sid, m);
    case PushJoin => PushJoinFlight(s);
    case EndOfFile(sid) => StillIs(s, DoEndOfFile(s, sid));
    case RunTask => RunTaskFrame(s);
    case Written(sid, ok) => StillIs(s, DoWrite(s, sid, Writer.Done(ok)));
  }

  lemma DatabaseStill(s: System, step: DatabaseStep)
    requires DatabaseEnabled(s, step) && Proper(s)
    ensures Still(s, ApplyDatabase(s, step))
  {
    hide Flight, Handle;
    match step
    case TakeRequest => TakeRequestFlight(s);
    case Answer => AnswerFlight(s);
  }

  /** The steps that send something touch neither the responses nor the pending map. */
  lemma AnsweringStill(s: System, now: M.Int64)
    requires Typed(s)
    ensures s.upd.Welcoming? ==> Still(s, DoWelcome(s, now))
    ensures s.upd.Rejecting? ==> Still(s, DoReject(s, now))
    ensures s.upd.Dropping? ==> Still(s, DoDrop(s))
  {
    hide Typed, WelcomeText, Still;
    if s.upd.Welcoming? {
      StillIs(s, DoWelcome(s, now));
    } else if s.upd.Rejecting? {
      StillIs(s, DoReject(s, now));
    } else if s.upd.Dropping? {
      StillIs(s, DoDrop(s));
    }
  }

  lemma SendPictureStill(s: System, now: M.Int64)
    requires Typed(s) && s.upd.Picturing?
    ensures Still(s, DoSendPicture(s, now))
  {
    hide Typed, FindMember, PictureMessage, Still;
    StillIs(s, DoSendPicture(s, now));
  }

  lemma KickStill(s: System, name: Text, reason: Text, now: M.Int64)
    requires Typed(s) && s.upd.Idle?
    ensures Still(s, DoKick(s, name, reason, now))
  {
    hide Typed, FindMember, WithoutFirst, Still;
    StillIs(s, DoKick(s, name, reason, now));
  }

  lemma BroadcastStill(s: System)
    requires Typed(s) && s.upd.Broadcasting?
    ensures Still(s, DoBroadcast(s))
  {
    hide Typed, PostAll, Flight, Still;
    MembersLogged(s);
    PostAllFrame(s, s.sessions, s.upd.message);
    StillIs(s, DoBroadcast(s));
  }

  lemma SaveStill(s: System)
    requires s.upd.Saving?
    ensures Still(s, DoSaveBroadcast(s))
  {
    hide Joins, Answers;
    JoinsOne(SaveMessage(s.upd.message));
    JoinsConcat(s.requests, [SaveMessage(s.upd.message)]);
  }

  lemma PopStill(s: System)
    ensures s.upd.Responses? ==> Still(s, DoPopResponse(s))
    ensures s.upd.Inbox? ==> Still(s, DoPopMessage(s))
  {
    hide Joins, Answers;
    if s.upd.Responses? {
      PopResponseFlight(s);
    }
  }

  lemma CheckStill(s: System)
    requires Typed(s)
    ensures s.upd.Found? ==> Still(s, DoCheckConnected(s))
    ensures s.upd.Accepting? ==> Still(s, DoAccept(s))
  {
    hide Typed, Flight, FindMember, ConnectedReason, Lookups;
    if s.upd.Found? {
      CheckConnectedFlight(s);
    }
    if s.upd.Accepting? {
      AcceptFlight(s);
    }
  }

  lemma UpdateStill(s: System, step: UpdateStep)
    requires Typed(s) && UpdateEnabled(s, step) && Proper(s) && !step.FindPending?
    ensures Still(s, ApplyUpdate(s, step))
  {
    hide Typed, Still, DoPopResponse, DoCheckConnected, DoAccept, DoWelcome, DoReject, DoDrop, DoSendPicture,
      DoPopMessage, DoBroadcast, DoSaveBroadcast, DoKick;
    match step
    case PopResponse => PopStill(s);
    case CheckConnected => CheckStill(s);
    case Accept => CheckStill(s);
    case PopMessage => PopStill(s);
    case Broadcast => BroadcastStill(s);
    case SaveBroadcast => SaveStill(s);
    case NextFrame => StillIs(s, s.(upd := Responses));
    case Welcome(now) => AnsweringStill(s, now);
    case Reject(now) => AnsweringStill(s, now);
    case Drop => AnsweringStill(s, 0);
    case SendPicture(now) => SendPictureStill(s, now);
    case Kick(name, reason, now) => KickStill(s, name, reason, now);
  }

  /** A join adds its name to both sides. */
  lemma JoinBalance(s: System, sid: Sid, m: M.Message, n: Text)
    requires s.net.NetIdle? && sid in s.conns && IsJoinMessage(m) && Proper(s)
    ensures var r := DoReceive(s, sid, m);
      && Proper(r)
      && Count(Flight(r), n) == Count(Flight(s), n) + (if CStr(m.senderName) == n then 1 else 0)
      && Listed(r, n) == (if CStr(m.senderName) == n then 1 else Listed(s, n))
  {
    hide Flight, CStr, Count;
    var user := User(m.senderName, m.content);
    var request := if m.command == M.LOGIN_REQUEST then Login(user) else Register(user);
    assert DoReceive(s, sid, m) == DoJoin(s, sid, user, request);
    JoinFlight(s, sid, user, request);
    var e := (CStr(user.username), request.Register?);
    CountConcat(Flight(s), [e], n);
    CountOne(e, n);
  }

  /** An answer takes its name from both sides, or from neither if the map does not have it. */
  lemma FindBalance(s: System, n: Text)
    requires s.upd.Joining? && Proper(s)
    ensures var r, taken := DoFindPending(s), Takes(s, Update(FindPending), n);
      && Proper(r)
      && Count(Flight(r), n) + (if taken then 1 else 0) == Count(Flight(s), n)
      && Listed(r, n) == (if taken then 0 else Listed(s, n))
  {
    hide Flight, Count, Behind;
    JoiningFlight(s);
    CountConcat([Front(s.upd.response)], Behind(s), n);
    CountOne(Front(s.upd.response), n);
  }

  lemma BalanceStep(s: System, step: Step, n: Text)
    requires Typed(s) && Enabled(s, step) && Proper(s)
    ensures var r := Apply(s, step);
      && Proper(r)
      && Count(Flight(r), n) + (if Takes(s, step, n) then 1 else 0)
           == Count(Flight(s), n) + (if Asks(step, n) then 1 else 0)
      && Listed(r, n) == (if Asks(step, n) then 1 else if Takes(s, step, n) then 0 else Listed(s, n))
  {
    hide Typed, Flight, Count, CStr, IsJoinMessage, DoFindPending, DoReceive, Writer.Enabled;
    match step
    case Network(n') =>
      if n'.Receive? && IsJoinMessage(n'.message) {
        JoinBalance(s, n'.sid, n'.message, n);
      } else {
        hide ApplyNetwork;
        NetworkStill(s, n');
      }
    case Database(d) => hide ApplyDatabase; DatabaseStill(s, d);
    case Update(u) =>
      if u.FindPending? {
        FindBalance(s, n);
      } else {
        hide ApplyUpdate;
        UpdateStill(s, u);
      }
  }

  // ----- while H2 holds, and from where it is broken on -----

  /** Every name is on its way exactly as often as it is a key. */
  ghost predicate Matched(s: System) {
    Proper(s) && forall n :: Count(Flight(s), n) == Listed(s, n)
  }

  /** The name is on its way more often than it is a key: some answer will find no entry. */
  ghost predicate Doomed(s: System, n: Text) {
    Proper(s) && Count(Flight(s), n) > Listed(s, n)
  }

  lemma MatchedStep(s: System, step: Step)
    requires Typed(s) && Enabled(s, step) && Matched(s) && FreshName(s, step)
    ensures Matched(Apply(s, step)) && Apply(s, step).fault != NullSession
  {
    hide Typed, Flight, Count, CStr, IsJoinMessage, Apply;
    var r := Apply(s, step);
    BalanceStep(s, step, []);
    forall n
      ensures Count(Flight(r), n) == Listed(r, n)
    {
      BalanceStep(s, step, n);
      CountNamed(Flight(s), n);
    }
    MatchedFinds(s, step);
  }

  lemma MatchedFinds(s: System, step: Step)
    requires Typed(s) && Enabled(s, step) && Matched(s)
    ensures Apply(s, step).fault != NullSession
  {
    hide Typed, Flight, Count, ApplyNetwork, ApplyDatabase, Behind;
    if step == Update(FindPending) {
      var n := s.upd.response.username;
      JoiningFlight(s);
      CountConcat([Front(s.upd.response)], Behind(s), n);
      CountOne(Front(s.upd.response), n);
    } else if step.Update? {
      hide ApplyUpdate;
      UpdateFaults(s, step.u);
    } else {
      OtherFaults(s, step);
    }
  }

  lemma DoomedStep(s: System, step: Step, n: Text)
    requires Typed(s) && Enabled(s, step) && Doomed(s, n)
    ensures Doomed(Apply(s, step), n)
  {
    hide Typed, Enabled, Flight, Count, Apply;
    BalanceStep(s, step, n);
  }

  lemma BrokenDooms(s: System, step: Step)
    requires Typed(s) && Enabled(s, step) && Proper(s) && !FreshName(s, step)
    ensures Doomed(Apply(s, step), CStr(step.n.message.senderName))
  {
    hide Typed, Enabled, Flight, Count, Apply, CStr, IsJoinMessage;
    var n := CStr(step.n.message.senderName);
    BalanceStep(s, step, n);
    CountNamed(Flight(s), n);
  }

  lemma RestNotDoomed(s: System, n: Text)
    requires AtRest(s) && s.fault == NoFault && !s.db.DbStopped?
    ensures !Doomed(s, n)
  {
    hide AtRest;
    RestIsSettled(s);
    assert Flight(s) == [];
  }

  // ----- every run -----

  ghost predicate FreshAt(run: Run, k: nat)
    requires k < |run.steps| && |run.states| == |run.steps| + 1
  {
    FreshName(run.states[k], run.steps[k])
  }

  lemma {:induction false} ProperAt(tables: Tables, run: Run, k: nat)
    requires IsRun(tables, run) && k <= |run.steps|
    ensures Proper(run.states[k])
  {
    hide Typed, Enabled, Apply, Flight, Count;
    if k > 0 {
      ProperAt(tables, run, k - 1);
      assert StepAt(run, k - 1);
      BalanceStep(run.states[k - 1], run.steps[k - 1], []);
    }
  }

  lemma NothingListed(tables: Tables)
    ensures Matched(Initial(tables))
  {
    assert Flight(Initial(tables)) == [];
  }

  lemma {:induction false} MatchedAt(tables: Tables, run: Run, k: nat)
    requires IsRun(tables, run) && k <= |run.steps|
    requires forall i :: 0 <= i < k ==> FreshAt(run, i)
    ensures Matched(run.states[k]) && run.states[k].fault != NullSession
  {
    hide Typed, Enabled, Apply, Matched, FreshName;
    if k == 0 {
      NothingListed(tables);
    } else {
      MatchedAt(tables, run, k - 1);
      assert StepAt(run, k - 1) && FreshAt(run, k - 1);
      MatchedStep(run.states[k - 1], run.steps[k - 1]);
    }
  }

  lemma {:induction false} DoomedAt(tables: Tables, run: Run, broken: nat, k: nat)
    requires IsRun(tables, run) && broken < k <= |run.steps| && !FreshAt(run, broken)
    ensures exists n :: Doomed(run.states[k], n)
    decreases k
  {
    hide Typed, Enabled, Apply, Doomed, FreshName;
    if k == broken + 1 {
      ProperAt(tables, run, broken);
      assert StepAt(run, broken);
      BrokenDooms(run.states[broken], run.steps[broken]);
    } else {
      DoomedAt(tables, run, broken, k - 1);
      var n :| Doomed(run.states[k - 1], n);
      assert StepAt(run, k - 1);
      DoomedStep(run.states[k - 1], run.steps[k - 1], n);
    }
  }

  /** Every run in which H2 was broken ends in a fault, if it comes to rest at all. */
  lemma BrokenNamesFault(tables: Tables, run: Run, k: nat)
    requires IsRun(tables, run) && k < |run.steps| && !FreshAt(run, k)
    requires AtRest(run.states[|run.steps|]) && !run.states[|run.steps|].db.DbStopped?
    ensures run.states[|run.steps|].fault != NoFault
  {
    hide StepAt, FreshAt, Doomed, AtRest;
    var last := run.states[|run.steps|];
    DoomedAt(tables, run, k, |run.steps|);
    var n :| Doomed(last, n);
    if last.fault == NoFault {
      RestNotDoomed(last, n);
    }
  }

  /**
   * A run that comes to rest without another fault has reached the null session if and only if a join was read
   * while another one under its name was on its way. This takes neither H1 nor well-formed tables.
   */
  lemma NullSessionExactly(tables: Tables, run: Run)
    requires IsRun(tables, run) && AtRest(run.states[|run.steps|]) && !run.states[|run.steps|].db.DbStopped?
    requires run.states[|run.steps|].fault == NoFault || run.states[|run.steps|].fault == NullSession
    ensures run.states[|run.steps|].fault == NullSession <==> exists k :: 0 <= k < |run.steps| && !FreshAt(run, k)
  {
    hide StepAt, FreshAt, AtRest;
    if k :| 0 <= k < |run.steps| && !FreshAt(run, k) {
      BrokenNamesFault(tables, run, k);
    } else {
      MatchedAt(tables, run, |run.steps|);
    }
  }

  // ----- the same as the callback can see it -----

  lemma FreshIsNoKey(s: System, n: Text)
    requires Matched(s)
    ensures Named(Flight(s), n) <==> n in s.pending
  {
    hide Flight, Named, Count;
    CountNamed(Flight(s), n);
    assert Count(Flight(s), n) == Listed(s, n);
  }

  /** A join is read while its name is a key of the pending map. */
  predicate TakesKey(s: System, step: Step) {
    step.Network? && step.n.Receive? && IsJoinMessage(step.n.message) && CStr(step.n.message.senderName) in s.pending
  }

  /** While H2 has held, its next breach is the first join under a name that is a key. */
  lemma FreshExactly(s: System, step: Step)
    requires Matched(s)
    ensures FreshName(s, step) <==> !TakesKey(s, step)
  {
    hide Flight, Named, Matched, CStr, IsJoinMessage;
    if step.Network? && step.n.Receive? {
      FreshIsNoKey(s, CStr(step.n.message.senderName));
    }
  }

  ghost predicate KeyAt(run: Run, k: nat)
    requires k < |run.steps| && |run.states| == |run.steps| + 1
  {
    TakesKey(run.states[k], run.steps[k])
  }

  /** Up to any moment, no breach of H2 means no join under a key, and back. */
  lemma {:induction false} NoKeyTaken(tables: Tables, run: Run, k: nat)
    requires IsRun(tables, run) && k <= |run.steps|
    ensures (forall i :: 0 <= i < k ==> FreshAt(run, i)) <==> (forall i :: 0 <= i < k ==> !KeyAt(run, i))
  {
    hide StepAt, FreshName, TakesKey, Matched;
    if k > 0 {
      NoKeyTaken(tables, run, k - 1);
      if forall i :: 0 <= i < k - 1 ==> FreshAt(run, i) {
        MatchedAt(tables, run, k - 1);
        FreshExactly(run.states[k - 1], run.steps[k - 1]);
        assert FreshAt(run, k - 1) <==> !KeyAt(run, k - 1);
      }
    }
  }

  /**
   * So a run that comes to rest without another fault has reached the null session if and only if the callback of a
   * login or registration overwrote a pending entry.
   */
  lemma NullSessionByOverwriting(tables: Tables, run: Run)
    requires IsRun(tables, run) && AtRest(run.states[|run.steps|]) && !run.states[|run.steps|].db.DbStopped?
    requires run.states[|run.steps|].fault == NoFault || run.states[|run.steps|].fault == NullSession
    ensures run.states[|run.steps|].fault == NullSession <==> exists k :: 0 <= k < |run.steps| && KeyAt(run, k)
  {
    hide StepAt, FreshAt, KeyAt, AtRest;
    NullSessionExactly(tables, run);
    NoKeyTaken(tables, run, |run.steps|);
  }
}
