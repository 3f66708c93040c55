/** Every join is answered once, and the outgoing language is kept exactly where no connection joins twice. */
module ServerAnswers {
  import opened Bytes
  import opened User
  import opened Store
  import opened ServerSystem
  import opened ServerInvariants
  import opened ServerProof
  import opened ServerRuns
  import opened ServerHypotheses
  import opened ServerNames
  import opened ServerProgress
  import opened ServerClashes
  import ServerUpdateProof
  import M = Message
  import Writer

  // ----- the answers a session has been sent and those it is owed -----

  /** The pending entries that lead to the session. */
  function Entries(pending: map<Text, Sid>, sid: Sid): nat {
    |set n | n in pending && pending[n] == sid|
  }

  /** The update thread is about to answer the session. */
  predicate Answering(u: UpdateThread, sid: Sid) {
    (u.Found? || u.Accepting? || u.Welcoming? || u.Rejecting?) && u.sid == sid
  }

  function Tally(s: System, sid: Sid): nat
    requires sid in s.logs
  {
    AnswerCount(s.logs[sid]) + Entries(s.pending, sid) + (if Answering(s.upd, sid) then 1 else 0)
  }

  lemma EntriesAdd(pending: map<Text, Sid>, n: Text, sid: Sid, x: Sid)
    requires n !in pending
    ensures Entries(pending[n := sid], x) == Entries(pending, x) + (if x == sid then 1 else 0)
  {
    var before := set k | k in pending && pending[k] == x;
    var more := pending[n := sid];
    var after := set k | k in more && more[k] == x;
    if x == sid {
      assert after == before + {n};
    } else {
      assert after == before;
    }
  }

  lemma EntriesRemove(pending: map<Text, Sid>, n: Text, x: Sid)
    requires n in pending
    ensures Entries(pending, x) == Entries(pending - {n}, x) + (if pending[n] == x then 1 else 0)
  {
    EntriesAdd(pending - {n}, n, pending[n], x);
    assert (pending - {n})[n := pending[n]] == pending;
  }

  lemma NoEntries(pending: map<Text, Sid>, x: Sid)
    requires forall n :: n in pending ==> pending[n] != x
    ensures Entries(pending, x) == 0
  {
    assert (set n | n in pending && pending[n] == x) == {};
  }

  lemma AnswerCountMore(log: seq<M.Message>, m: M.Message)
    ensures AnswerCount(log + [m]) == AnswerCount(log) + (if IsAnswer(m) then 1 else 0)
  {
    assert (log + [m])[..|log|] == log;
  }

  // ----- what a step does to the tally -----

  /** Neither the logs nor the pending map change, nor whom the update thread is about to answer. */
  predicate SameAnswers(s: System, r: System, sid: Sid) {
    r.logs == s.logs && r.pending == s.pending && (Answering(r.upd, sid) <==> Answering(s.upd, sid))
  }

  lemma SameTally(s: System, r: System, sid: Sid)
    requires sid in s.logs && SameAnswers(s, r, sid)
    ensures sid in r.logs && Tally(r, sid) == Tally(s, sid)
  {
    hide AnswerCount, Entries, Answering;
  }

  lemma ConnectTally(s: System, x: Sid, sid: Sid)
    requires sid in s.logs && x != sid
    ensures sid in DoConnect(s, x).logs && Tally(DoConnect(s, x), sid) == Tally(s, sid)
  {
    hide AnswerCount, Entries, Answering;
  }

  lemma JoinTally(s: System, x: Sid, user: User, request: Request, sid: Sid)
    requires x in s.conns && sid in s.logs && CStr(user.username) !in s.pending
    ensures sid in DoJoin(s, x, user, request).logs
    ensures Tally(DoJoin(s, x, user, request), sid) == Tally(s, sid) + (if x == sid then 1 else 0)
  {
    hide AnswerCount, Entries, Answering, CStr;
    EntriesAdd(s.pending, CStr(user.username), x, sid);
  }

  lemma ReceiveTally(s: System, x: Sid, m: M.Message, sid: Sid)
    requires x in s.conns && sid in s.logs
    requires IsJoinMessage(m) ==> CStr(m.senderName) !in s.pending
    ensures sid in DoReceive(s, x, m).logs
    ensures Tally(DoReceive(s, x, m), sid) == Tally(s, sid) + (if IsJoinMessage(m) && x == sid then 1 else 0)
  {
    hide DoReceive, DoJoin, Tally, CStr, Answering;
    var user := User(m.senderName, m.content);
    ReceiveIs(s, x, m);
    if m.command == M.LOGIN_REQUEST {
      JoinTally(s, x, user, Login(user), sid);
    } else if m.command == M.REGISTER_REQUEST {
      JoinTally(s, x, user, Register(user), sid);
    } else {
      SameTally(s, DoReceive(s, x, m), sid);
    }
  }

  lemma NetworkTally(s: System, step: NetworkStep, sid: Sid)
    requires Typed(s) && NetworkEnabled(s, step) && sid in s.conns && sid in s.logs
    requires step.Receive? && IsJoinMessage(step.message) ==> CStr(step.message.senderName) !in s.pending
    ensures sid in ApplyNetwork(s, step).logs
    ensures Tally(ApplyNetwork(s, step), sid) == Tally(s, sid) + (if JoinStep(Network(step), sid) then 1 else 0)
  {
    hide Typed, Tally, IsJoinMessage, CStr, Answering, DoConnect, DoReceive, DoRunTask, Writer.Enabled, Writer.Apply;
    match step
    case Connect(x) => ConnectTally(s, x, sid);
    case Receive(x, m) => ReceiveTally(s, x, m, sid);
    case PushJoin => SameTally(s, DoPushJoin(s), sid);
    case EndOfFile(x) => SameTally(s, DoEndOfFile(s, x), sid);
    case RunTask => RunTaskFrame(s); SameTally(s, DoRunTask(s), sid);
    case Written(x, ok) => SameTally(s, DoWrite(s, x, Writer.Done(ok)), sid);
  }

  lemma DatabaseTally(s: System, step: DatabaseStep, sid: Sid)
    requires DatabaseEnabled(s, step) && sid in s.logs
    ensures sid in ApplyDatabase(s, step).logs && Tally(ApplyDatabase(s, step), sid) == Tally(s, sid)
  {
    hide Tally, Answering, Handle;
    SameTally(s, ApplyDatabase(s, step), sid);
  }

  /** An answer takes the entry it finds into the hands of the update thread. */
  lemma FindTally(s: System, sid: Sid)
    requires s.upd.Joining? && sid in s.logs
    ensures sid in DoFindPending(s).logs && Tally(DoFindPending(s), sid) == Tally(s, sid)
  {
    hide AnswerCount, Entries;
    var n := s.upd.response.username;
    if n in s.pending {
      EntriesRemove(s.pending, n, sid);
    }
  }

  lemma CheckTally(s: System, sid: Sid)
    requires Typed(s) && sid in s.logs
    ensures s.upd.Found? ==> sid in DoCheckConnected(s).logs && Tally(DoCheckConnected(s), sid) == Tally(s, sid)
    ensures s.upd.Accepting? ==> sid in DoAccept(s).logs && Tally(DoAccept(s), sid) == Tally(s, sid)
  {
    hide Typed, Tally, DoCheckConnected, Lookups;
    if s.upd.Found? {
      CheckConnectedIs(s);
      SameTally(s, DoCheckConnected(s), sid);
    } else if s.upd.Accepting? {
      SameTally(s, DoAccept(s), sid);
    }
  }

  lemma PostTally(s: System, x: Sid, m: M.Message, u: UpdateThread, sid: Sid)
    requires x in s.logs && sid in s.logs
    requires Answering(u, sid) <==> Answering(s.upd, sid) && !(IsAnswer(m) && x == sid)
    requires IsAnswer(m) && x == sid ==> Answering(s.upd, sid)
    ensures sid in Post(s, x, m).logs && Tally(Post(s, x, m).(upd := u), sid) == Tally(s, sid)
  {
    hide AnswerCount, Entries, Answering;
    AnswerCountMore(s.logs[x], m);
  }

  /** The answer itself: what was owed has been sent. */
  lemma AnsweredTally(s: System, now: M.Int64, sid: Sid)
    requires Typed(s) && sid in s.logs
    ensures s.upd.Welcoming? ==> sid in DoWelcome(s, now).logs && Tally(DoWelcome(s, now), sid) == Tally(s, sid)
    ensures s.upd.Rejecting? ==> sid in DoReject(s, now).logs && Tally(DoReject(s, now), sid) == Tally(s, sid)
    ensures s.upd.Dropping? ==> sid in DoDrop(s).logs && Tally(DoDrop(s), sid) == Tally(s, sid)
  {
    hide Typed, Tally, WelcomeText;
    assert Typed(s) ==> (s.upd.Welcoming? || s.upd.Rejecting? ==> s.upd.sid in s.logs) by { HolderLogged(s); }
    if s.upd.Welcoming? {
      PostTally(s, s.upd.sid, M.Message(M.LOGIN_RESPONSE_ACCEPT, [], WelcomeText(), now), Responses, sid);
    } else if s.upd.Rejecting? {
      PostTally(s, s.upd.sid, M.Message(M.LOGIN_RESPONSE_REJECT, [], s.upd.reason, now), Dropping(s.upd.sid), sid);
    } else if s.upd.Dropping? {
      SameTally(s, DoDrop(s), sid);
    }
  }

  lemma HolderLogged(s: System)
    requires Typed(s)
    ensures s.upd.Welcoming? || s.upd.Rejecting? ==> s.upd.sid in s.logs
  {
    hide WritersValid;
  }

  lemma FoundLogged(s: System, name: Text)
    requires Typed(s)
    ensures AllIn(s.sessions, s.conns)
    ensures FindMember(s.conns, s.sessions, name).Some? ==> FindMember(s.conns, s.sessions, name).value in s.logs
  {
    hide WritersValid;
  }

  lemma SendPictureTally(s: System, now: M.Int64, sid: Sid)
    requires Typed(s) && s.upd.Picturing? && sid in s.logs
    ensures sid in DoSendPicture(s, now).logs && Tally(DoSendPicture(s, now), sid) == Tally(s, sid)
  {
    hide Typed, Tally, PictureMessage, FindMember;
    FoundLogged(s, s.upd.response.recipient);
    var found := FindMember(s.conns, s.sessions, s.upd.response.recipient);
    if found.Some? {
      assert !IsAnswer(PictureMessage(s.upd.response, now)) by { PictureIsNoAnswer(s.upd.response, now); }
      PostTally(s, found.value, PictureMessage(s.upd.response, now), Responses, sid);
    } else {
      SameTally(s, s.(upd := Responses), sid);
    }
  }

  lemma PictureIsNoAnswer(r: Response, now: M.Int64)
    ensures !IsAnswer(PictureMessage(r, now))
  {
  }

  lemma KickTally(s: System, name: Text, reason: Text, now: M.Int64, sid: Sid)
    requires Typed(s) && s.upd.Idle? && sid in s.logs
    ensures sid in DoKick(s, name, reason, now).logs && Tally(DoKick(s, name, reason, now), sid) == Tally(s, sid)
  {
    hide Typed, Tally, FindMember, WithoutFirst;
    FoundLogged(s, name);
    var found := FindMember(s.conns, s.sessions, name);
    if found.Some? {
      var posted := Post(s, found.value, M.Message(M.SERVER_KICK_REQUEST, [], reason, now));
      PostTally(s, found.value, M.Message(M.SERVER_KICK_REQUEST, [], reason, now), Idle, sid);
      assert posted.(upd := Idle) == posted;
      SameTally(posted, DoKick(s, name, reason, now), sid);
    } else {
      SameTally(s, s.(fault := UnknownKick), sid);
    }
  }

  lemma {:induction false} PostAllTally(s: System, to: seq<Sid>, m: M.Message, sid: Sid)
    requires (forall i :: 0 <= i < |to| ==> to[i] in s.logs) && sid in s.logs && !IsAnswer(m)
    ensures sid in PostAll(s, to, m).logs && Tally(PostAll(s, to, m), sid) == Tally(s, sid)
    decreases |to|
  {
    hide Tally;
    if to != [] {
      var p := Post(s, to[0], m);
      PostTally(s, to[0], m, s.upd, sid);
      assert p.(upd := s.upd) == p;
      PostAllTally(p, to[1..], m, sid);
    }
  }

  lemma BroadcastTally(s: System, sid: Sid)
    requires Typed(s) && s.upd.Broadcasting? && !IsAnswer(s.upd.message) && sid in s.logs
    ensures sid in DoBroadcast(s).logs && Tally(DoBroadcast(s), sid) == Tally(s, sid)
  {
    hide Typed, Tally, PostAll;
    MembersLogged(s);
    PostAllFrame(s, s.sessions, s.upd.message);
    PostAllTally(s, s.sessions, s.upd.message, sid);
    SameTally(PostAll(s, s.sessions, s.upd.message), DoBroadcast(s), sid);
  }

  lemma PopTally(s: System, sid: Sid)
    requires sid in s.logs
    ensures s.upd.Responses? ==> sid in DoPopResponse(s).logs && Tally(DoPopResponse(s), sid) == Tally(s, sid)
    ensures s.upd.Inbox? ==> sid in DoPopMessage(s).logs && Tally(DoPopMessage(s), sid) == Tally(s, sid)
    ensures s.upd.Saving? ==> sid in DoSaveBroadcast(s).logs && Tally(DoSaveBroadcast(s), sid) == Tally(s, sid)
  {
    hide Tally;
    if s.upd.Responses? {
      SameTally(s, DoPopResponse(s), sid);
    } else if s.upd.Inbox? {
      SameTally(s, DoPopMessage(s), sid);
    } else if s.upd.Saving? {
      SameTally(s, DoSaveBroadcast(s), sid);
    }
  }

  lemma UpdateTally(s: System, step: UpdateStep, sid: Sid)
    requires Typed(s) && UpdateEnabled(s, step) && sid in s.logs
    requires s.upd.Broadcasting? ==> !IsAnswer(s.upd.message)
    ensures sid in ApplyUpdate(s, step).logs && Tally(ApplyUpdate(s, step), sid) == Tally(s, sid)
  {
    hide Typed, Tally, DoPopResponse, DoFindPending, DoCheckConnected, DoAccept, DoWelcome, DoReject, DoDrop,
      DoSendPicture, DoPopMessage, DoBroadcast, DoSaveBroadcast, DoKick;
    match step
    case PopResponse => PopTally(s, sid);
    case FindPending => FindTally(s, sid);
    case CheckConnected => CheckTally(s, sid);
    case Accept => CheckTally(s, sid);
    case Welcome(now) => AnsweredTally(s, now, sid);
    case Reject(now) => AnsweredTally(s, now, sid);
    case Drop => AnsweredTally(s, 0, sid);
    case SendPicture(now) => SendPictureTally(s, now, sid);
    case PopMessage => PopTally(s, sid);
    case Broadcast => BroadcastTally(s, sid);
    case SaveBroadcast => PopTally(s, sid);
    case NextFrame => SameTally(s, s.(upd := Responses), sid);
    case Kick(name, reason, now) => KickTally(s, name, reason, now, sid);
  }

  /** A join that is read adds one to what its session has been sent and is owed; no other step changes that. */
  lemma TallyStep(s: System, step: Step, sid: Sid)
    requires Typed(s) && Enabled(s, step) && Matched(s) && FreshName(s, step) && sid in s.conns && sid in s.logs
    requires s.upd.Broadcasting? ==> !IsAnswer(s.upd.message)
    ensures sid in Apply(s, step).logs
    ensures Tally(Apply(s, step), sid) == Tally(s, sid) + (if JoinStep(step, sid) then 1 else 0)
  {
    hide Typed, Tally, ApplyNetwork, ApplyDatabase, ApplyUpdate, UpdateEnabled, DatabaseEnabled, Matched, IsJoinMessage,
      Writer.Enabled, CStr, Flight, Named, IsAnswer;
    match step
    case Network(n) =>
      if n.Receive? && IsJoinMessage(n.message) {
        FreshIsNoKey(s, CStr(n.message.senderName));
      }
      NetworkTally(s, n, sid);
    case Database(d) => DatabaseTally(s, d, sid);
    case Update(u) => UpdateTally(s, u, sid);
  }

  // ----- every run -----

  /** How many joins of the connection the first steps read. */
  ghost function JoinCount(steps: seq<Step>, k: nat, sid: Sid): nat
    requires k <= |steps|
  {
    if k == 0 then 0 else JoinCount(steps, k - 1, sid) + (if JoinStep(steps[k - 1], sid) then 1 else 0)
  }

  /** The message being broadcast is a chat, in any run. */
  lemma BroadcastsChat(tables: Tables, run: Run, k: nat)
    requires IsRun(tables, run) && k <= |run.steps|
    ensures run.states[k].upd.Broadcasting? ==>
      run.states[k].upd.message.command == M.CHAT_MESSAGE && !IsAnswer(run.states[k].upd.message)
  {
    hide StepAt, Arrived;
    var s := run.states[k];
    ChatsConserved(tables, run, k);
    ArrivedChats(run.steps, k);
    if s.upd.Broadcasting? {
      assert Heard(s)[|s.broadcasts|] == s.upd.message;
    }
  }

  lemma {:induction false} ArrivedChats(steps: seq<Step>, k: nat)
    requires k <= |steps|
    ensures forall i :: 0 <= i < |Arrived(steps, k)| ==> Arrived(steps, k)[i].command == M.CHAT_MESSAGE
  {
    if k > 0 {
      ArrivedChats(steps, k - 1);
    }
  }

  lemma NewTally(s: System, sid: Sid)
    requires Typed(s) && sid !in s.conns
    ensures Tally(DoConnect(s, sid), sid) == 0
  {
    hide WritersValid, AllIn, Entries;
    NoEntries(s.pending, sid);
  }

  /**
   * Under H2 alone, at any moment: the answers a session has been sent and those it is owed are as many as the joins
   * it has sent.
   */
  lemma {:induction false} TallyAt(tables: Tables, run: Run, k: nat, sid: Sid)
    requires IsRun(tables, run) && k <= |run.steps|
    requires forall i :: 0 <= i < k ==> FreshAt(run, i)
    ensures sid in run.states[k].conns ==>
      sid in run.states[k].logs && Tally(run.states[k], sid) == JoinCount(run.steps, k, sid)
    ensures sid !in run.states[k].conns ==> JoinCount(run.steps, k, sid) == 0
  {
    hide Typed, Apply, Tally, Matched, FreshName, NetworkEnabled, DatabaseEnabled, UpdateEnabled, JoinStep, IsAnswer;
    if k > 0 {
      var p, last := run.states[k - 1], run.steps[k - 1];
      TallyAt(tables, run, k - 1, sid);
      assert StepAt(run, k - 1) && FreshAt(run, k - 1);
      if sid in p.conns {
        MatchedAt(tables, run, k - 1);
        BroadcastsChat(tables, run, k - 1);
        TallyStep(p, last, sid);
        ConnsGrow(p, last);
      } else {
        OnlyConnectedJoin(p, last, sid);
        if sid in Apply(p, last).conns {
          OnlyConnects(p, last, sid);
          NewTally(p, sid);
        }
      }
    }
  }

  lemma NetworkConnects(s: System, step: NetworkStep)
    requires Typed(s) && NetworkEnabled(s, step) && !step.Connect?
    ensures ApplyNetwork(s, step).conns.Keys == s.conns.Keys
  {
    hide Typed, DoReceive, DoRunTask, Writer.Enabled, Writer.Apply;
    match step
    case Receive(x, m) => JoinedReceive(s, x, m, x);
    case PushJoin =>
    case EndOfFile(_) =>
    case RunTask => RunTaskFrame(s);
    case Written(_, _) =>
  }

  lemma OnlyConnects(s: System, step: Step, sid: Sid)
    requires Typed(s) && Enabled(s, step) && sid !in s.conns && sid in Apply(s, step).conns
    ensures step == Network(Connect(sid)) && Apply(s, step) == DoConnect(s, sid) && sid in DoConnect(s, sid).logs
  {
    hide Typed, Handle, ApplyUpdate, UpdateEnabled, NetworkEnabled;
    match step
    case Network(n) =>
      if !n.Connect? {
        hide ApplyNetwork;
        NetworkConnects(s, n);
      }
    case Database(_) =>
    case Update(u) => UpdateFrame(s, u);
  }

  /** A run that has come to rest without a fault. */
  ghost predicate ComesToRest(tables: Tables, run: Run) {
    && IsRun(tables, run)
    && run.states[|run.steps|].fault == NoFault && AtRest(run.states[|run.steps|])
    && !run.states[|run.steps|].db.DbStopped?
  }

  /** In such a run H2 held, or it would have ended in a fault. */
  lemma RestKeptNames(tables: Tables, run: Run)
    requires ComesToRest(tables, run)
    ensures forall k :: 0 <= k < |run.steps| ==> FreshAt(run, k)
  {
    hide StepAt, FreshAt, AtRest;
    forall k | 0 <= k < |run.steps|
      ensures FreshAt(run, k)
    {
      if !FreshAt(run, k) {
        BrokenNamesFault(tables, run, k);
      }
    }
  }

  lemma RestOwesNothing(s: System, sid: Sid)
    requires AtRest(s) && s.fault == NoFault && !s.db.DbStopped? && Matched(s) && sid in s.logs
    ensures Tally(s, sid) == AnswerCount(s.logs[sid])
  {
    hide AtRest, AnswerCount, Entries;
    RestIsSettled(s);
    RestIsIdle(s);
    assert Flight(s) == [];
    forall n ensures n !in s.pending {
      assert Count(Flight(s), n) == Listed(s, n);
    }
    NoEntries(s.pending, sid);
  }

  /** Whatever the clients do: once the server has come to rest without a fault every join has been answered once. */
  lemma AnswersAtRest(tables: Tables, run: Run, sid: Sid)
    requires ComesToRest(tables, run) && sid in run.states[|run.steps|].conns
    ensures sid in run.states[|run.steps|].logs
    ensures AnswerCount(run.states[|run.steps|].logs[sid]) == JoinCount(run.steps, |run.steps|, sid)
  {
    hide AtRest, Matched, StepAt, FreshAt, Tally, AnswerCount, JoinCount;
    RestKeptNames(tables, run);
    TallyAt(tables, run, |run.steps|, sid);
    MatchedAt(tables, run, |run.steps|);
    RestOwesNothing(run.states[|run.steps|], sid);
  }

  // ----- the language -----

  lemma {:induction false} CountGrows(steps: seq<Step>, i: nat, k: nat, sid: Sid)
    requires i <= k <= |steps|
    ensures JoinCount(steps, i, sid) <= JoinCount(steps, k, sid)
    decreases k
  {
    hide JoinStep;
    if i < k {
      CountGrows(steps, i, k - 1, sid);
    }
  }

  lemma JoinsTwice(steps: seq<Step>, i: nat, k: nat, sid: Sid)
    requires i < k < |steps| && JoinStep(steps[i], sid) && JoinStep(steps[k], sid)
    ensures JoinCount(steps, |steps|, sid) >= 2
  {
    hide JoinStep;
    CountGrows(steps, i + 1, k, sid);
    CountGrows(steps, k + 1, |steps|, sid);
  }

  /** No connection joins twice: then H1 held at every step. */
  lemma SingleJoins(tables: Tables, run: Run, k: nat)
    requires IsRun(tables, run) && k < |run.steps|
    requires forall sid :: JoinCount(run.steps, |run.steps|, sid) <= 1
    ensures JoinsOnce(run.states[k], run.steps[k])
  {
    hide StepAt, JoinCount;
    var step := run.steps[k];
    if step.Network? && step.n.Receive? && IsJoinMessage(step.n.message) {
      var sid := step.n.sid;
      JoinedMeans(tables, run, k, sid);
      assert JoinStep(step, sid);
      if i :| 0 <= i < k && JoinStep(run.steps[i], sid) {
        JoinsTwice(run.steps, i, k, sid);
      }
    }
  }

  lemma SingleLegal(tables: Tables, run: Run, sid: Sid)
    requires ComesToRest(tables, run) && sid in run.states[|run.steps|].conns
    requires forall x :: JoinCount(run.steps, |run.steps|, x) <= 1
    ensures sid in run.states[|run.steps|].logs && Parse(run.states[|run.steps|].logs[sid]) != Wrong
  {
    hide StepAt, AtRest, JoinCount, JoinsOnce, FreshName, Parse;
    RestKeptNames(tables, run);
    forall k | 0 <= k < |run.steps|
      ensures BehavedAt(run, k)
    {
      SingleJoins(tables, run, k);
      assert FreshAt(run, k);
    }
    OutgoingLanguage(tables, run, |run.steps|, run.states[|run.steps|], sid);
  }

  /**
   * In a run that has come to rest without a fault every session was sent a word of the grammar if and only if no
   * connection joined twice.
   */
  lemma LanguageExactly(tables: Tables, run: Run)
    requires ComesToRest(tables, run)
    ensures (forall sid :: sid in run.states[|run.steps|].logs ==> Parse(run.states[|run.steps|].logs[sid]) != Wrong)
       <==> (forall sid :: JoinCount(run.steps, |run.steps|, sid) <= 1)
  {
    hide StepAt, AtRest, JoinCount, FreshAt, Parse, AnswerCount;
    var last := run.states[|run.steps|];
    TypedAt(tables, run, |run.steps|);
    assert last.logs.Keys == last.conns.Keys by { hide WritersValid; }
    if forall sid :: JoinCount(run.steps, |run.steps|, sid) <= 1 {
      forall sid | sid in last.logs
        ensures Parse(last.logs[sid]) != Wrong
      {
        SingleLegal(tables, run, sid);
      }
    } else {
      var sid :| JoinCount(run.steps, |run.steps|, sid) > 1;
      RestKeptNames(tables, run);
      TallyAt(tables, run, |run.steps|, sid);
      AnswersAtRest(tables, run, sid);
      if Parse(last.logs[sid]) != Wrong {
        LegalCount(last.logs[sid]);
      }
    }
  }

  // ----- a second login -----

  /** A member logs in again under its own name, and the database answers. */
  lemma LogsInAgain(s: System, name: Text) returns (r: System, x: Response)
    requires Orderly(s) && Typed(s) && Calm(s) && s.sessions == [0] && 0 in s.conns && s.conns[0].reading
    ensures Allowed(r) && Typed(r) && x.username == CStr(name) && !x.kind.USER_PROFILE_PICTURE?
    ensures r == s.(conns := s.conns[0 := s.conns[0].(user := User(name, []), joined := true)],
                    pending := map[CStr(name) := 0], responses := [x])
  {
    hide Orderly, Allowed, Typed, CStr, LoginError;
    var m := M.Message(M.LOGIN_REQUEST, name, [], 0);
    assert Flight(s) == [];
    OrderlyAllowed(s);
    AllowedStep(s, Network(Receive(0, m)));
    var s1 := DoReceive(s, 0, m);
    AllowedStep(s1, Network(PushJoin));
    var s2 := DoPushJoin(s1);
    AllowedStep(s2, Database(TakeRequest));
    var s3 := DoTakeRequest(s2);
    AllowedStep(s3, Database(Answer));
    r := DoAnswer(s3);
    assert s3.requests + [] == [];
    x := Handle(s.tables, Login(User(name, []))).responses[0];
    assert Handle(s.tables, Login(User(name, []))) == Outcome(s.tables, [x], [], false);
  }

  /** Whatever the answer, it is a rejection, because a member has the name: the session itself. */
  lemma IsRejected(s: System, name: Text, x: Response) returns (r: System)
    requires Allowed(s) && Typed(s) && s.fault == NoFault && s.upd.Idle? && s.responses == [x]
    requires x.username == CStr(name) && !x.kind.USER_PROFILE_PICTURE? && s.pending == map[CStr(name) := 0]
    requires s.sessions == [0] && 0 in s.conns && s.conns[0].user.username == name && 0 in s.logs
    ensures Allowed(r) && r.sessions == [0] && 0 in r.logs
    ensures exists m: M.Message :: m.command == M.LOGIN_RESPONSE_REJECT && r.logs[0] == s.logs[0] + [m]
  {
    hide Allowed, Typed, CStr, DoCheckConnected, ConnectedReason;
    AllowedStep(s, Update(NextFrame));
    var s1 := s.(upd := Responses);
    AllowedStep(s1, Update(PopResponse));
    var s2 := DoPopResponse(s1);
    AllowedStep(s2, Update(FindPending));
    var s3 := DoFindPending(s2);
    assert 0 in s3.sessions;
    AllowedStep(s3, Update(CheckConnected));
    var s4 := DoCheckConnected(s3);
    ServerUpdateProof.AcceptedExactly(s3);
    CheckConnectedIs(s3);
    AllowedStep(s4, Update(Reject(0)));
    r := DoReject(s4, 0);
  }

  lemma AcceptThenReject(log: seq<M.Message>, m: M.Message)
    requires log == [AcceptMessage()] && m.command == M.LOGIN_RESPONSE_REJECT
    ensures Parse(log + [m]) == Wrong
  {
    hide WelcomeText;
    assert (log + [m])[..1] == log && log[..0] == [];
    assert Parse(log) == Next(Parse([]), log[0]);
  }

  /** The only member has been sent no word of the grammar. */
  predicate SentNoWord(s: System) {
    s.sessions == [0] && 0 in s.logs && Parse(s.logs[0]) == Wrong
  }

  /** The member's log is no word of the grammar any more, although its name is the only one. */
  lemma SecondLogin(name: Text)
    ensures exists run :: FreshRun(run) && SentNoWord(run.states[|run.steps|])
  {
    hide Orderly, Allowed, Typed, CStr, AddUser, Parse, FreshRun;
    var c := OneConnected();
    var s1 := Registers(c, 0, name);
    var s2 := Answered(s1, 0, name);
    var s3 := LetsIn(s2, 0);
    var s4, x := LogsInAgain(s3, name);
    var s5 := IsRejected(s4, name, x);
    var m: M.Message :| m.command == M.LOGIN_RESPONSE_REJECT && s5.logs[0] == s4.logs[0] + [m];
    AcceptThenReject(s4.logs[0], m);
    AllowedIs(s5);
  }

  lemma AllowedIs(s: System)
    requires Allowed(s)
    ensures exists run :: FreshRun(run) && run.states[|run.steps|] == s
  {
    hide StepAt, FreshAt;
  }

  lemma OneConnected() returns (s: System)
    ensures s == DoConnect(Initial(EMPTY), 0) && Orderly(s) && Typed(s)
  {
    hide Typed, Enabled, Apply, DoConnect, WellBehaved;
    var start := Run([Initial(EMPTY)], []);
    assert IsBehavedRun(EMPTY, start) && start.states[0] == Initial(EMPTY);
    InitialTyped(EMPTY);
    ConnectEnabled(Initial(EMPTY), 0);
    OrderlyStep(Initial(EMPTY), Network(Connect(0)));
    s := DoConnect(Initial(EMPTY), 0);
  }
}
