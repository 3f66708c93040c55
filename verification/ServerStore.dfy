/** The database inside the interleaved server: what it has answered, and what becomes of the answers. */
module ServerStore {
  import opened Bytes
  import opened User
  import opened Store
  import opened StoreRefinement
  import opened StoreRuns
  import opened Json
  import opened ServerSystem
  import opened ServerInvariants
  import opened ServerRuns
  import DatabaseRuns
  import M = Message
  import PasswordHasher
  import Picture
  import PictureFidelity
  import ServerProof
  import ServerStanding
  import Writer

  // ----- one step -----

  predicate SameStore(s: System, r: System) {
    r.tables == s.tables && r.responses == s.responses
  }

  lemma NetworkStore(s: System, step: NetworkStep)
    requires Typed(s) && NetworkEnabled(s, step)
    ensures SameStore(s, ApplyNetwork(s, step))
  {
    hide Typed, CStr, DoRunTask, Writer.Enabled, Writer.Apply;
    match step
    case Connect(sid) => assert SameStore(s, DoConnect(s, sid));
    case Receive(sid, m) => assert SameStore(s, DoReceive(s, sid, m));
    case PushJoin =>
    case EndOfFile(sid) => assert SameStore(s, DoEndOfFile(s, sid));
    case RunTask => ServerProof.RunTaskFrame(s);
    case Written(_, _) =>
  }

  lemma SendingStore(s: System, now: M.Int64)
    requires Typed(s)
    ensures s.upd.Welcoming? ==> SameStore(s, DoWelcome(s, now))
    ensures s.upd.Rejecting? ==> SameStore(s, DoReject(s, now))
    ensures s.upd.Picturing? ==> SameStore(s, DoSendPicture(s, now))
  {
    hide Typed, WelcomeText, PictureMessage, FindMember;
  }

  lemma KickStore(s: System, name: Text, reason: Text, now: M.Int64)
    requires Typed(s)
    ensures SameStore(s, DoKick(s, name, reason, now))
  {
    hide Typed, FindMember, WithoutFirst;
  }

  lemma BroadcastStore(s: System)
    requires Typed(s) && s.upd.Broadcasting?
    ensures SameStore(s, DoBroadcast(s))
  {
    hide Typed, PostAll;
    MembersLogged(s);
    PostAllFrame(s, s.sessions, s.upd.message);
  }

  lemma CheckStore(s: System)
    requires Typed(s)
    ensures s.upd.Joining? ==> SameStore(s, DoFindPending(s))
    ensures s.upd.Found? ==> SameStore(s, DoCheckConnected(s))
    ensures s.upd.Accepting? ==> SameStore(s, DoAccept(s))
  {
    hide Typed, FindMember, ConnectedReason, Lookups;
  }

  lemma PopMessageStore(s: System)
    ensures SameStore(s, DoPopMessage(s))
  {
  }

  lemma UpdateStore(s: System, step: UpdateStep)
    requires Typed(s) && UpdateEnabled(s, step) && !step.PopResponse?
    ensures SameStore(s, ApplyUpdate(s, step))
  {
    hide Typed, DoFindPending, DoCheckConnected, DoAccept, DoWelcome, DoReject, DoSendPicture, DoPopMessage,
      DoBroadcast, DoKick;
    match step
    case FindPending => CheckStore(s);
    case CheckConnected => CheckStore(s);
    case Accept => CheckStore(s);
    case Welcome(now) => SendingStore(s, now);
    case Reject(now) => SendingStore(s, now);
    case Drop => assert SameStore(s, DoDrop(s));
    case SendPicture(now) => SendingStore(s, now);
    case PopMessage => PopMessageStore(s);
    case Broadcast => BroadcastStore(s);
    case SaveBroadcast => assert SameStore(s, DoSaveBroadcast(s));
    case NextFrame =>
    case Kick(name, reason, now) => KickStore(s, name, reason, now);
  }

  /** The request a step answers. */
  function AnsweredBy(s: System, step: Step): seq<Request> {
    if step == Database(Answer) && s.db.DbWork? then [s.db.request] else []
  }

  /** The response a step takes from the queue. */
  function PoppedBy(s: System, step: Step): seq<Response> {
    if step == Update(PopResponse) && s.responses != [] then [s.responses[0]] else []
  }

  lemma HandleOne(t: Tables, r: Request)
    ensures var o, f := Handle(t, r), HandleAll(t, [r]);
      f.tables == o.tables && f.responses == o.responses && f.threw == o.threw
  {
    hide Handle;
    assert [r][1..] == [];
  }

  /** Every step does to the store what handling the requests it answers does. */
  lemma StoreStep(s: System, step: Step)
    requires Typed(s) && Enabled(s, step)
    ensures var r, f := Apply(s, step), HandleAll(s.tables, AnsweredBy(s, step));
      && r.tables == f.tables
      && PoppedBy(s, step) + r.responses == s.responses + f.responses
      && (f.threw ==> r.fault == BadPicture)
  {
    hide Typed, Handle, HandleAll, ApplyNetwork, ApplyUpdate, NetworkEnabled, UpdateEnabled;
    NothingHandled(s.tables);
    match step
    case Network(n) => NetworkStore(s, n);
    case Database(TakeRequest) =>
    case Database(Answer) => HandleOne(s.tables, s.db.request);
    case Update(u) =>
      if u.PopResponse? {
        PopStore(s);
      } else {
        UpdateStore(s, u);
      }
  }

  lemma NothingHandled(t: Tables)
    ensures HandleAll(t, []) == Folded(t, [], [], false)
  {
  }

  lemma PopStore(s: System)
    requires Typed(s) && UpdateEnabled(s, PopResponse)
    ensures var r := ApplyUpdate(s, PopResponse);
      r.tables == s.tables && PoppedBy(s, Update(PopResponse)) + r.responses == s.responses
  {
    hide Typed;
  }

  // ----- every run -----

  /** The requests answered from one state of a run to another. */
  function Answered(run: Run, i: nat, k: nat): seq<Request>
    requires i <= k <= |run.steps| < |run.states|
    decreases k
  {
    if k == i then [] else Answered(run, i, k - 1) + AnsweredBy(run.states[k - 1], run.steps[k - 1])
  }

  /** The responses taken from the queue from one state to another. */
  function Popped(run: Run, i: nat, k: nat): seq<Response>
    requires i <= k <= |run.steps| < |run.states|
    decreases k
  {
    if k == i then [] else Popped(run, i, k - 1) + PoppedBy(run.states[k - 1], run.steps[k - 1])
  }

  /**
   * The store at any moment of a run is what handling the requests answered so far makes of the earlier one, in
   * that order; and the responses taken and those queued are the responses of that handling.
   */
  lemma {:induction false} StoreFollows(tables: Tables, run: Run, i: nat, k: nat)
    requires IsRun(tables, run) && i <= k <= |run.steps| && run.states[k].fault != BadPicture
    ensures var f := HandleAll(run.states[i].tables, Answered(run, i, k));
      && !f.threw && run.states[k].tables == f.tables
      && Popped(run, i, k) + run.states[k].responses == run.states[i].responses + f.responses
    decreases k
  {
    hide Typed, Apply, HandleAll, AnsweredBy, PoppedBy, NetworkEnabled, DatabaseEnabled, UpdateEnabled;
    if i == k {
      NothingHandled(run.states[i].tables);
    } else {
      var p, last := run.states[k - 1], run.steps[k - 1];
      assert StepAt(run, k - 1);
      StoreFollows(tables, run, i, k - 1);
      StoreStep(p, last);
      var t, before, now := run.states[i].tables, Answered(run, i, k - 1), AnsweredBy(p, last);
      DatabaseRuns.HandleAllConcat(t, before, now);
      Rearranged(Popped(run, i, k - 1), PoppedBy(p, last), Apply(p, last).responses, p.responses,
                 run.states[i].responses, HandleAll(t, before).responses, HandleAll(p.tables, now).responses);
    }
  }

  lemma Rearranged<T>(popped: seq<T>, pop: seq<T>, queue: seq<T>, was: seq<T>, first: seq<T>, made: seq<T>,
                      more: seq<T>)
    requires popped + was == first + made && pop + queue == was + more
    ensures popped + pop + queue == first + (made + more)
  {
    assert popped + pop + queue == popped + (pop + queue);
    assert popped + (was + more) == (popped + was) + more;
    assert (first + made) + more == first + (made + more);
  }

  lemma {:induction false} WellFormedAt(tables: Tables, run: Run, k: nat)
    requires WellFormed(tables) && IsRun(tables, run) && k <= |run.steps| && run.states[k].fault != BadPicture
    ensures WellFormed(run.states[k].tables)
  {
    hide WellFormed, StepAt, HandleAll, BookHandleAll, BookOf, Answered, Popped;
    StoreFollows(tables, run, 0, k);
    assert run.states[0].tables == tables;
    RunRefines(tables, Answered(run, 0, k));
  }

  // ----- logging in, in any run -----

  /** The step answers this request, and not with an exception. */
  ghost predicate AnswersAt(run: Run, i: nat, r: Request) {
    && i < |run.steps| && |run.states| == |run.steps| + 1
    && run.steps[i] == Database(Answer) && run.states[i].db == DbWork(r)
    && run.states[i].fault != BadPicture && run.states[i + 1].fault != BadPicture
  }

  lemma AnswerIs(tables: Tables, run: Run, i: nat, r: Request)
    requires IsRun(tables, run) && AnswersAt(run, i, r)
    ensures var o := Handle(run.states[i].tables, r);
      && run.states[i + 1].tables == o.tables && !o.threw
      && run.states[i + 1].responses == run.states[i].responses + o.responses
  {
    hide Typed, Handle, Enabled;
    assert StepAt(run, i);
  }

  /**
   * In any run: once a registration has been answered with success, a later login under the name is answered with
   * success if and only if its password, as a C string, hashes like the registered one.
   */
  lemma LoginAnswered(tables: Tables, run: Run, i: nat, j: nat, user: User, login: User)
    requires WellFormed(tables) && IsRun(tables, run) && i < j
    requires AnswersAt(run, i, Register(user)) && AnswersAt(run, j, Login(login))
    requires CStr(login.username) == CStr(user.username)
    requires run.states[i + 1].responses == run.states[i].responses
      + [Response(CStr(user.username), [], [], REGISTER_SUCCESS)]
    ensures exists r: Response ::
      && run.states[j + 1].responses == run.states[j].responses + [r] && r.username == CStr(user.username)
      && (r.kind == LOGIN_SUCCESS <==>
            PasswordHasher.HashOf(CStr(login.password)) == PasswordHasher.HashOf(user.password))
  {
    hide WellFormed, StepAt, Handle, HandleAll, Answered, Popped, PasswordHasher.HashOf, CStr, LoginError;
    var t := run.states[i].tables;
    WellFormedAt(tables, run, i);
    AnswerIs(tables, run, i, Register(user));
    AnswerIs(tables, run, j, Login(login));
    StoreFollows(tables, run, i + 1, j);
    assert Response(CStr(user.username), [], [], REGISTER_SUCCESS) in Handle(t, Register(user)).responses by {
      SameTail(run.states[i].responses, Handle(t, Register(user)).responses,
               [Response(CStr(user.username), [], [], REGISTER_SUCCESS)]);
    }
    LoginAfterRegister(t, user, Answered(run, i + 1, j), login);
    LoginOne(run.states[j].tables, login);
  }

  lemma SameTail<T>(a: seq<T>, b: seq<T>, c: seq<T>)
    requires a + b == a + c
    ensures b == c
  {
    assert b == (a + b)[|a|..] && c == (a + c)[|a|..];
  }

  lemma LoginOne(t: Tables, login: User)
    ensures exists r ::
      && Handle(t, Login(login)).responses == [r] && r.username == CStr(login.username)
      && (r.kind == LOGIN_SUCCESS <==> Accepts(t, login))
  {
    hide LoginError;
    var rs := Handle(t, Login(login)).responses;
    assert |rs| == 1 && rs == [rs[0]] && rs[0].username == CStr(login.username);
    assert rs[0] in rs;
  }

  // ----- pictures, in any run -----

  /** In any run a saved picture is what later lookups of the user are answered with, until another is saved. */
  lemma PictureAnswered(tables: Tables, run: Run, i: nat, j: nat, user: User, pixels: Text, target: User,
                        requester: Text)
    requires WellFormed(tables) && IsRun(tables, run) && i < j && pixels != [] && Picture.Content(pixels).Some?
    requires AnswersAt(run, i, SavePicture(user, CStr(Picture.Content(pixels).value)))
    requires AnswersAt(run, j, GetPicture(target, requester))
    requires CStr(user.username) in BookOf(run.states[i].tables).accounts
    requires CStr(target.username) == CStr(user.username)
    requires var between := Answered(run, i + 1, j);
      forall l :: 0 <= l < |between| ==> !Saves(between[l], CStr(user.username))
    ensures run.states[j + 1].responses == run.states[j].responses
      + [Response(CStr(user.username), pixels, requester, USER_PROFILE_PICTURE)]
  {
    hide WellFormed, StepAt, BookOf, Handle, HandleAll, Answered, Popped, CStr, Saves, Picture.Content, Picture.Pixels;
    var content := Picture.Content(pixels).value;
    Picture.PictureRoundTrip(pixels);
    assert CStr(content) == content by { WholeCStr(content); }
    WellFormedAt(tables, run, i);
    AnswerIs(tables, run, i, SavePicture(user, content));
    AnswerIs(tables, run, j, GetPicture(target, requester));
    StoreFollows(tables, run, i + 1, j);
    PictureFidelity.SavedPictureIsFound(run.states[i].tables, user, content, pixels, Answered(run, i + 1, j), target,
                                        requester);
  }

  lemma WholeCStr(s: Text)
    requires NulFree(s)
    ensures CStr(s) == s
  {
  }

  /** Responses are taken in the order in which they were made: this one when those before it have been. */
  lemma TakenInTurn(tables: Tables, run: Run, j: nat, l: nat, r: Response)
    requires IsRun(tables, run) && j < l < |run.steps| && run.states[l].fault != BadPicture
    requires run.states[j + 1].responses == run.states[j].responses + [r]
    requires run.steps[l] == Update(PopResponse) && |Popped(run, j + 1, l)| == |run.states[j].responses|
    ensures run.states[l + 1].upd == if r.kind.USER_PROFILE_PICTURE? then Picturing(r) else Joining(r)
  {
    hide Typed, Enabled, HandleAll, Answered, Popped;
    StoreFollows(tables, run, j + 1, l);
    var before, queue := Popped(run, j + 1, l), run.states[l].responses;
    assert (before + queue)[|before|] == r;
    assert StepAt(run, l);
  }

  /** And with a picture in hand the member it is for, and nobody else, is sent the pixels. */
  lemma PixelsSent(tables: Tables, run: Run, k: nat, s: System, name: Text, pixels: Text, requester: Text, now: M.Int64,
                   x: Sid)
    requires Reached(tables, run, k, s) && ValidUtf8(name) && x in s.conns
    requires s.upd == Picturing(Response(name, pixels, requester, USER_PROFILE_PICTURE))
    ensures Enabled(s, Update(SendPicture(now))) && Typed(s)
    ensures x in s.logs && x in Apply(s, Update(SendPicture(now))).logs
    ensures exists m ::
      && Apply(s, Update(SendPicture(now))).logs[x] == s.logs[x] +
           (if x in s.sessions && s.conns[x].user.username == requester then [m] else [])
      && M.Serialize(m).Some? && M.Deserialize(M.Serialize(m).value) == Some(m)
      && m.command == M.PROFILE_PICTURE && m.senderName == name && Picture.Pixels(m.content) == Some(pixels)
  {
    hide IsRun, Typed, M.Serialize, M.Deserialize, ValidUtf8, Picture.Pixels, PictureMessage, DoSendPicture, Flight,
      Pipeline, Phases, Members, Segments, OnlyChats, Channels;
    ReachedInv(tables, run, k, s);
    ServerStanding.PictureReachesRecipient(s, now, x);
    PictureFidelity.PictureDelivered(name, pixels, requester, now);
  }
}
