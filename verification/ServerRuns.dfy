/** What holds after every run of the interleaved server. */
module ServerRuns {
  import opened Bytes
  import opened Store
  import opened ServerSystem
  import opened ServerInvariants
  import ServerProof
  import opened ServerUpdateProof
  import M = Message
  import Writer

  // ----- runs -----

  /** The states a run goes through and the steps between them. */
  datatype Run = Run(states: seq<System>, steps: seq<Step>)

  ghost predicate Follows(s: System, step: Step, r: System) {
    Typed(s) && Enabled(s, step) && r == Apply(s, step)
  }

  ghost predicate StepAt(run: Run, k: nat)
    requires k < |run.steps| && |run.states| == |run.steps| + 1
  {
    Follows(run.states[k], run.steps[k], run.states[k + 1])
  }

  ghost predicate IsRun(tables: Tables, run: Run) {
    && |run.states| == |run.steps| + 1
    && run.states[0] == Initial(tables)
    && forall k :: 0 <= k < |run.steps| ==> StepAt(run, k)
  }

  ghost predicate BehavedAt(run: Run, k: nat)
    requires k < |run.steps| && |run.states| == |run.steps| + 1
  {
    WellBehaved(run.states[k], run.steps[k])
  }

  /** A run in which H1 and H2 held whenever a message arrived. */
  ghost predicate IsBehavedRun(tables: Tables, run: Run) {
    IsRun(tables, run) && forall k :: 0 <= k < |run.steps| ==> BehavedAt(run, k)
  }

  /** No state of a run has a dangling reference. */
  lemma {:induction false} TypedAt(tables: Tables, run: Run, k: nat)
    requires IsRun(tables, run) && k <= |run.steps|
    ensures Typed(run.states[k])
  {
    hide Typed, Enabled, Apply;
    if k == 0 {
      InitialTyped(tables);
    } else {
      assert StepAt(run, k - 1);
      StepTyped(run.states[k - 1], run.steps[k - 1]);
    }
  }

  lemma InitialTyped(tables: Tables)
    ensures Typed(Initial(tables))
  {
    hide Writer.Valid;
  }

  /** So whatever step is enabled after a run continues it. */
  lemma Continues(tables: Tables, run: Run, step: Step)
    requires IsRun(tables, run) && Enabled(run.states[|run.steps|], step)
    ensures Typed(run.states[|run.steps|])
    ensures IsRun(tables, Run(run.states + [Apply(run.states[|run.steps|], step)], run.steps + [step]))
  {
    hide Typed, Enabled, Apply, Initial;
    var n := |run.steps|;
    TypedAt(tables, run, n);
    var longer := Run(run.states + [Apply(run.states[n], step)], run.steps + [step]);
    forall k | 0 <= k < n + 1
      ensures StepAt(longer, k)
    {
      if k < n {
        assert StepAt(run, k);
      }
    }
  }

  /** A new connection is always possible while the network thread is idle. */
  lemma ConnectEnabled(s: System, sid: Sid)
    requires s.fault == NoFault && s.net.NetIdle? && sid !in s.conns && Typed(s)
    ensures Enabled(s, Network(Connect(sid))) && Apply(s, Network(Connect(sid))) == DoConnect(s, sid)
    ensures WellBehaved(s, Network(Connect(sid)))
    ensures DoConnect(s, sid).fault == NoFault && DoConnect(s, sid).net.NetIdle?
    ensures DoConnect(s, sid).conns.Keys == s.conns.Keys + {sid}
  {
    hide Typed;
  }

  lemma {:induction false} RunInv(tables: Tables, run: Run, k: nat)
    requires IsBehavedRun(tables, run) && k <= |run.steps|
    ensures Inv(run.states[k])
  {
    hide Inv, Typed, Enabled, Apply, WellBehaved;
    if k == 0 {
      InitialInv(tables);
    } else {
      RunInv(tables, run, k - 1);
      assert StepAt(run, k - 1) && BehavedAt(run, k - 1);
      StepInv(run.states[k - 1], run.steps[k - 1]);
    }
  }

  /** The session a response belongs to is always found, so the original never dereferences null here. */
  lemma NullSessionUnreachable(tables: Tables, run: Run, k: nat)
    requires IsBehavedRun(tables, run) && k <= |run.steps|
    ensures run.states[k].fault != NullSession
  {
    hide Sound, Typed, IsBehavedRun;
    RunShape(tables, run);
    RunInv(tables, run, k);
  }

  lemma RunShape(tables: Tables, run: Run)
    requires IsBehavedRun(tables, run)
    ensures IsRun(tables, run) && |run.states| == |run.steps| + 1
  {
    hide StepAt, BehavedAt;
  }

  /** A state of a run with H1 and H2, at or before which no step has ended in a fault. */
  ghost predicate Reached(tables: Tables, run: Run, k: nat, s: System) {
    IsBehavedRun(tables, run) && k <= |run.steps| && run.states[k] == s && s.fault == NoFault
  }

  lemma ReachedInv(tables: Tables, run: Run, k: nat, s: System)
    requires Reached(tables, run, k, s)
    ensures Inv(s) && Typed(s) && Sound(s)
  {
    hide Sound, Typed, IsRun;
    RunInv(tables, run, k);
  }

  // ----- what a session is sent -----

  /** REJECT | ACCEPT (CHAT | PICTURE)* KICK? as an automaton. */
  datatype Grammar = Fresh | Accepted | Finished | Wrong

  function Next(g: Grammar, m: M.Message): Grammar {
    match g
    case Fresh =>
      if m.command == M.LOGIN_RESPONSE_ACCEPT then Accepted
      else if m.command == M.LOGIN_RESPONSE_REJECT then Finished
      else Wrong
    case Accepted => if Casual(m) then Accepted else if m.command == M.SERVER_KICK_REQUEST then Finished else Wrong
    case _ => Wrong
  }

  function Parse(log: seq<M.Message>): Grammar {
    if log == [] then Fresh else Next(Parse(log[..|log| - 1]), log[|log| - 1])
  }

  /** `Open`, `Ended` and `Legal` are what the automaton computes. */
  lemma {:induction false} ParseMeans(log: seq<M.Message>)
    ensures Parse(log) == Fresh <==> log == []
    ensures Parse(log) == Accepted <==> Open(log)
    ensures Parse(log) == Finished <==> Ended(log)
    ensures Parse(log) != Wrong <==> Legal(log)
  {
    if log != [] {
      var front := log[..|log| - 1];
      ParseMeans(front);
      OpenSnoc(front, log[|log| - 1]);
      EndedSnoc(front, log[|log| - 1]);
      assert log == front + [log[|log| - 1]];
    }
  }

  lemma OpenSnoc(log: seq<M.Message>, m: M.Message)
    ensures Open(log + [m]) <==>
      if log == [] then m.command == M.LOGIN_RESPONSE_ACCEPT else Open(log) && Casual(m)
  {
    var r := log + [m];
    assert r[|log|] == m;
    if Open(r) {
      assert forall i :: 0 <= i < |log| ==> r[i] == log[i];
    }
  }

  lemma EndedSnoc(log: seq<M.Message>, m: M.Message)
    ensures Ended(log + [m]) <==>
      || (log == [] && m.command == M.LOGIN_RESPONSE_REJECT)
      || (Open(log) && m.command == M.SERVER_KICK_REQUEST)
  {
    assert (log + [m])[..|log|] == log;
  }

  /** Every session's outgoing messages are a prefix of the grammar, and a session that has not joined gets none. */
  lemma OutgoingLanguage(tables: Tables, run: Run, k: nat, s: System, sid: Sid)
    requires Reached(tables, run, k, s) && sid in s.conns
    ensures sid in s.logs && Parse(s.logs[sid]) != Wrong
    ensures !s.conns[sid].joined ==> s.logs[sid] == []
    ensures sid in s.sessions && s.upd != Welcoming(sid) ==> Parse(s.logs[sid]) == Accepted
  {
    hide Pipeline, Members, Segments, OnlyChats, Channels, Typed, Flight, Reached, Legal, Open, Ended, Waiting;
    ReachedInv(tables, run, k, s);
    assert ServerProof.PhaseAt(s, sid);
    ParseMeans(s.logs[sid]);
  }

  // ----- one answer per join -----

  predicate IsAnswer(m: M.Message) {
    m.command == M.LOGIN_RESPONSE_ACCEPT || m.command == M.LOGIN_RESPONSE_REJECT
  }

  function AnswerCount(log: seq<M.Message>): nat {
    if log == [] then 0 else AnswerCount(log[..|log| - 1]) + (if IsAnswer(log[|log| - 1]) then 1 else 0)
  }

  lemma {:induction false} LegalCount(log: seq<M.Message>)
    requires Parse(log) != Wrong
    ensures AnswerCount(log) == if log == [] then 0 else 1
  {
    if log != [] {
      LegalCount(log[..|log| - 1]);
    }
  }

  /** A join of the session has not been answered yet. */
  ghost predicate Outstanding(s: System, sid: Sid)
    requires sid in s.conns
  {
    Waiting(s.conns[sid], s.pending, sid) || Held(s.upd, sid) || s.upd == Welcoming(sid)
  }

  /** A session has been sent exactly one answer once it has joined and is not waiting for it, and none before. */
  lemma OneAnswer(tables: Tables, run: Run, k: nat, s: System, sid: Sid)
    requires Reached(tables, run, k, s) && sid in s.conns
    ensures sid in s.logs
    ensures AnswerCount(s.logs[sid]) == if s.conns[sid].joined && !Outstanding(s, sid) then 1 else 0
  {
    hide Pipeline, Members, Segments, OnlyChats, Channels, Typed, Flight, Reached, Legal, Open, Ended, Waiting;
    ReachedInv(tables, run, k, s);
    assert ServerProof.PhaseAt(s, sid);
    ParseMeans(s.logs[sid]);
    LegalCount(s.logs[sid]);
  }

  /**
   * The pending map is exactly the joins on their way: no name twice, no entry without a join, no join without
   * an entry, and each entry leads to the session that joined under the name.
   */
  lemma PendingIsInFlight(tables: Tables, run: Run, k: nat, s: System)
    requires Reached(tables, run, k, s)
    ensures forall i, j :: 0 <= i < j < |Flight(s)| ==> Flight(s)[i].0 != Flight(s)[j].0
    ensures forall n :: n in s.pending <==> exists i :: 0 <= i < |Flight(s)| && Flight(s)[i].0 == n
    ensures forall n :: n in s.pending ==>
      s.pending[n] in s.conns && CStr(s.conns[s.pending[n]].user.username) == n
    ensures forall n, m :: n in s.pending && m in s.pending && n != m ==> s.pending[n] != s.pending[m]
  {
    hide Phases, Members, Segments, OnlyChats, Channels, Typed, Flight, Reached, CStr;
    ReachedInv(tables, run, k, s);
    assert forall n :: n in s.pending <==> Named(Flight(s), n);
  }

  /** Nothing is on its way and the update thread has nothing in hand. */
  predicate Settled(s: System) {
    && s.net.NetIdle? && !s.db.DbWork? && s.requests == [] && s.responses == []
    && !s.upd.Joining? && Holder(s.upd).None?
  }

  /** Once the server has settled nobody waits: every session that joined has been sent exactly one answer. */
  lemma SettledAnswersAll(tables: Tables, run: Run, k: nat, s: System)
    requires Reached(tables, run, k, s) && Settled(s)
    ensures s.pending == map[]
    ensures forall sid :: sid in s.conns && s.conns[sid].joined ==> sid in s.logs && AnswerCount(s.logs[sid]) == 1
  {
    hide Reached, CStr, AnswerCount;
    PendingIsInFlight(tables, run, k, s);
    assert Flight(s) == [];
    forall sid | sid in s.conns && s.conns[sid].joined
      ensures sid in s.logs && AnswerCount(s.logs[sid]) == 1
    {
      OneAnswer(tables, run, k, s, sid);
    }
  }

  // ----- members -----

  /** The connected usernames are pairwise distinct, and no session is a member twice. */
  lemma ConnectedNamesDistinct(tables: Tables, run: Run, k: nat, s: System)
    requires Reached(tables, run, k, s)
    ensures AllIn(s.sessions, s.conns)
    ensures forall i, j :: 0 <= i < j < |s.sessions| ==>
      s.sessions[i] != s.sessions[j]
      && s.conns[s.sessions[i]].user.username != s.conns[s.sessions[j]].user.username
  {
    hide Pipeline, Phases, Segments, OnlyChats, Channels, Typed, Flight, Reached;
    ReachedInv(tables, run, k, s);
  }

  // ----- broadcasts -----

  function Until(s: System, sid: Sid): nat
    requires sid in s.spans
  {
    if sid in s.sessions then |s.broadcasts| else s.spans[sid].until
  }

  /** The chats a session has been sent are one contiguous piece of the one log of broadcasts. */
  lemma TotalOrder(tables: Tables, run: Run, k: nat, s: System, sid: Sid)
    requires Reached(tables, run, k, s) && sid in s.conns
    ensures sid in s.logs && sid in s.spans
    ensures s.spans[sid].from <= Until(s, sid) <= |s.broadcasts|
    ensures Chats(s.logs[sid]) == s.broadcasts[s.spans[sid].from..Until(s, sid)]
  {
    hide Pipeline, Phases, Members, OnlyChats, Channels, Flight, Reached, WritersValid, AllIn;
    ReachedInv(tables, run, k, s);
    assert Segment(s.logs[sid], s.spans[sid], sid in s.sessions, s.broadcasts);
  }

  /**
   * Two sessions were sent the same chats in the same order while both were members: cutting their chats to the
   * common part of their spans gives the same sequence.
   */
  lemma SameOrder(tables: Tables, run: Run, k: nat, s: System, x: Sid, y: Sid, from: nat, until: nat)
    requires Reached(tables, run, k, s) && x in s.conns && y in s.conns
    requires x in s.spans && y in s.spans
    requires s.spans[x].from <= from <= until <= Until(s, x) && s.spans[y].from <= from <= until <= Until(s, y)
    ensures x in s.logs && y in s.logs
    ensures until - s.spans[x].from <= |Chats(s.logs[x])| && until - s.spans[y].from <= |Chats(s.logs[y])|
    ensures Chats(s.logs[x])[from - s.spans[x].from..until - s.spans[x].from]
         == Chats(s.logs[y])[from - s.spans[y].from..until - s.spans[y].from]
  {
    hide Reached, Chats, Until;
    TotalOrder(tables, run, k, s, x);
    TotalOrder(tables, run, k, s, y);
    Slice(s.broadcasts, s.spans[x].from, Until(s, x), from, until);
    Slice(s.broadcasts, s.spans[y].from, Until(s, y), from, until);
  }

  lemma Slice(log: seq<M.Message>, a: nat, b: nat, from: nat, until: nat)
    requires a <= from <= until <= b <= |log|
    ensures log[a..b][from - a..until - a] == log[from..until]
  {
    var cut := log[a..b];
    forall i | 0 <= i < until - from
      ensures cut[from - a..until - a][i] == log[from..until][i]
    {
      assert cut[from - a + i] == log[from + i];
    }
  }

  /** The chat messages among the first steps of a run, in order. */
  function Arrived(steps: seq<Step>, k: nat): seq<M.Message>
    requires k <= |steps|
  {
    if k == 0 then []
    else
      var last := steps[k - 1];
      Arrived(steps, k - 1)
      + if last.Network? && last.n.Receive? && last.n.message.command == M.CHAT_MESSAGE then [last.n.message] else []
  }

  /** Every chat that arrived is broadcast, about to be, or waiting in the inbox: none lost, none twice, in order. */
  function Heard(s: System): seq<M.Message> {
    s.broadcasts + (if s.upd.Broadcasting? then [s.upd.message] else []) + s.inbox
  }

  lemma {:induction false} ChatsConserved(tables: Tables, run: Run, k: nat)
    requires IsRun(tables, run) && k <= |run.steps|
    ensures Heard(run.states[k]) == Arrived(run.steps, k)
  {
    hide Typed, Enabled, Apply;
    if k > 0 {
      ChatsConserved(tables, run, k - 1);
      assert StepAt(run, k - 1);
      HeardStep(run.states[k - 1], run.steps[k - 1]);
    }
  }

  lemma HeardStep(s: System, step: Step)
    requires Typed(s) && Enabled(s, step)
    ensures Heard(Apply(s, step)) == Heard(s) +
      if step.Network? && step.n.Receive? && step.n.message.command == M.CHAT_MESSAGE then [step.n.message] else []
  {
    hide Typed, Heard;
    match step
    case Network(n) => HeardNetwork(s, n);
    case Database(d) => assert Heard(Apply(s, step)) == Heard(s) by { HeardDatabase(s, d); }
    case Update(u) => HeardUpdate(s, u);
  }

  lemma HeardNetwork(s: System, step: NetworkStep)
    requires Typed(s) && NetworkEnabled(s, step)
    ensures Heard(ApplyNetwork(s, step)) == Heard(s) +
      if step.Receive? && step.message.command == M.CHAT_MESSAGE then [step.message] else []
  {
    hide Typed, DoReceive, Writer.Enabled, Writer.Apply, M.Serialize;
    match step
    case Connect(_) => assert Heard(DoConnect(s, step.sid)) == Heard(s);
    case Receive(sid, m) => HeardReceive(s, sid, m);
    case PushJoin =>
    case EndOfFile(sid) => assert Heard(DoEndOfFile(s, sid)) == Heard(s);
    case RunTask => assert Heard(DoRunTask(s)) == Heard(s);
    case Written(_, _) =>
  }

  lemma HeardReceive(s: System, sid: Sid, m: M.Message)
    requires sid in s.conns
    ensures Heard(DoReceive(s, sid, m)) == Heard(s) + if m.command == M.CHAT_MESSAGE then [m] else []
  {
    hide CStr;
  }

  lemma HeardDatabase(s: System, step: DatabaseStep)
    requires DatabaseEnabled(s, step)
    ensures Heard(ApplyDatabase(s, step)) == Heard(s)
  {
    hide Handle;
  }

  lemma HeardUpdate(s: System, step: UpdateStep)
    requires Typed(s) && UpdateEnabled(s, step)
    ensures Heard(ApplyUpdate(s, step)) == Heard(s)
  {
    hide AllIn, WritersValid, PostAll, PictureMessage, Lookups, FindMember, WithoutFirst, ConnectedReason, WelcomeText;
    if step.Broadcast? {
      MembersLogged(s);
      PostAllFrame(s, s.sessions, s.upd.message);
    }
  }

  // ----- from `send` to the socket -----

  /**
   * What has been completely written to a session's socket is a prefix of what it was sent; and a socket closed
   * by the server's own disconnect had been sent its last message, all of it completely written.
   */
  lemma WrittenIsPrefixOfSent(tables: Tables, run: Run, k: nat, s: System, sid: Sid)
    requires Reached(tables, run, k, s) && sid in s.conns
    ensures sid in s.logs && sid in s.writers
    ensures s.writers[sid].written <= s.logs[sid]
    ensures s.writers[sid].written + s.writers[sid].queue + SendsTo(s.tasks, sid) == s.logs[sid]
    ensures !s.writers[sid].open ==> s.writers[sid].written == s.logs[sid] && Parse(s.logs[sid]) == Finished
  {
    hide Pipeline, Phases, Members, Segments, OnlyChats, Flight, Reached, WritersValid, AllIn, Ended, SendsTo,
      ClosePosted, ClosesLast;
    ReachedInv(tables, run, k, s);
    var w := s.writers[sid];
    assert Channel(w, s.logs[sid], s.tasks, sid);
    ParseMeans(s.logs[sid]);
    Writer.ValidPosted(w);
  }
}
