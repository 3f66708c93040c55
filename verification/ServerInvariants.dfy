/** The invariants of the interleaved server, each over the part of the state it is about. */
module ServerInvariants {
  import opened Bytes
  import opened Store
  import opened StoreRuns
  import opened ServerSystem
  import M = Message
  import Writer

  // ----- joins on their way -----

  /**
   * The joins on their way through the server, oldest first: being answered, in the response queue, with the
   * database thread, in the request queue, with the network thread. The flag tells a registration.
   */
  function Flight(s: System): seq<(Text, bool)> {
    (if s.upd.Joining? then Answers([s.upd.response]) else [])
    + Answers(s.responses)
    + (if s.db.DbWork? then Joins([s.db.request]) else [])
    + Joins(s.requests)
    + (if s.net.NetJoin? then Joins([s.net.request]) else [])
  }

  ghost predicate Named(flight: seq<(Text, bool)>, n: Text) {
    exists i :: 0 <= i < |flight| && flight[i].0 == n
  }

  ghost predicate DistinctNames(flight: seq<(Text, bool)>) {
    forall i, j :: 0 <= i < j < |flight| ==> flight[i].0 != flight[j].0
  }

  /** The pending map and the joins on their way correspond one to one. */
  ghost predicate Pipeline(conns: map<Sid, Conn>, pending: map<Text, Sid>, flight: seq<(Text, bool)>) {
    && DistinctNames(flight)
    && (forall n :: n in pending <==> Named(flight, n))
    && (forall n :: n in pending ==>
          pending[n] in conns && conns[pending[n]].joined && CStr(conns[pending[n]].user.username) == n)
  }

  predicate IsJoinMessage(m: M.Message) {
    m.command == M.LOGIN_REQUEST || m.command == M.REGISTER_REQUEST
  }

  /** H1: a connection joins at most once. */
  predicate JoinsOnce(s: System, step: Step) {
    match step
    case Network(Receive(sid, m)) => IsJoinMessage(m) && sid in s.conns ==> !s.conns[sid].joined
    case _ => true
  }

  /** H2: no two joins on their way share a username. */
  ghost predicate FreshName(s: System, step: Step) {
    match step
    case Network(Receive(_, m)) => IsJoinMessage(m) ==> !Named(Flight(s), CStr(m.senderName))
    case _ => true
  }

  ghost predicate WellBehaved(s: System, step: Step) {
    JoinsOnce(s, step) && FreshName(s, step)
  }

  // ----- what a session may be sent -----

  predicate Casual(m: M.Message) { m.command == M.CHAT_MESSAGE || m.command == M.PROFILE_PICTURE }

  /** An accept, then chats and pictures. */
  ghost predicate Open(log: seq<M.Message>) {
    && log != [] && log[0].command == M.LOGIN_RESPONSE_ACCEPT
    && (forall i :: 1 <= i < |log| ==> Casual(log[i]))
  }

  /** A reject alone, or an open log closed by a kick. */
  ghost predicate Ended(log: seq<M.Message>) {
    && log != []
    && var last := log[|log| - 1].command;
       || (|log| == 1 && last == M.LOGIN_RESPONSE_REJECT)
       || (Open(log[..|log| - 1]) && last == M.SERVER_KICK_REQUEST)
  }

  /** The prefixes of REJECT | ACCEPT (CHAT | PICTURE)* KICK?. */
  ghost predicate Legal(log: seq<M.Message>) {
    log == [] || Open(log) || Ended(log)
  }

  ghost predicate Waiting(c: Conn, pending: map<Text, Sid>, sid: Sid) {
    var n := CStr(c.user.username);
    c.joined && n in pending && pending[n] == sid
  }

  /** The update thread has the session's answer in hand, before it is a member. */
  predicate Held(u: UpdateThread, sid: Sid) {
    (u.Found? || u.Accepting? || u.Rejecting?) && u.sid == sid
  }

  ghost predicate PhaseOk(c: Conn, log: seq<M.Message>, member: bool, waiting: bool, u: UpdateThread, sid: Sid) {
    && Legal(log)
    && (!c.joined || waiting ==> log == [] && !member && Holder(u) != Some(sid))
    && (Held(u, sid) ==> log == [] && !member)
    && (u == Welcoming(sid) ==> log == [])
    && (u == Dropping(sid) ==> Ended(log) && !member)
    && (member && u != Welcoming(sid) ==> Open(log))
    && (c.joined && !waiting && !Held(u, sid) && u != Welcoming(sid) ==> log != [])
  }

  ghost predicate Phases(conns: map<Sid, Conn>, sessions: seq<Sid>, pending: map<Text, Sid>, u: UpdateThread,
                         logs: map<Sid, seq<M.Message>>) {
    forall sid :: sid in conns ==>
      sid in logs && PhaseOk(conns[sid], logs[sid], sid in sessions, Waiting(conns[sid], pending, sid), u, sid)
  }

  // ----- members -----

  ghost predicate Apart(conns: map<Sid, Conn>, sessions: seq<Sid>)
    requires AllIn(sessions, conns)
  {
    forall i, j :: 0 <= i < j < |sessions| ==>
      sessions[i] != sessions[j] && conns[sessions[i]].user.username != conns[sessions[j]].user.username
  }

  ghost predicate Members(conns: map<Sid, Conn>, sessions: seq<Sid>, u: UpdateThread) {
    && AllIn(sessions, conns) && Apart(conns, sessions)
    && (u.Accepting? ==> u.sid in conns && forall i :: 0 <= i < |sessions| ==>
          conns[sessions[i]].user.username != conns[u.sid].user.username)
  }

  // ----- broadcasts -----

  function Chats(log: seq<M.Message>): seq<M.Message> {
    if log == [] then []
    else
      var last := log[|log| - 1];
      Chats(log[..|log| - 1]) + (if last.command == M.CHAT_MESSAGE then [last] else [])
  }

  /** The part of the broadcasts a session has been sent: from its acceptance to its removal, or up to now. */
  ghost predicate Segment(log: seq<M.Message>, span: Span, member: bool, broadcasts: seq<M.Message>) {
    var until := if member then |broadcasts| else span.until;
    span.from <= until <= |broadcasts| && Chats(log) == broadcasts[span.from..until]
  }

  ghost predicate Segments(logs: map<Sid, seq<M.Message>>, spans: map<Sid, Span>, sessions: seq<Sid>,
                           broadcasts: seq<M.Message>) {
    forall sid :: sid in logs ==> sid in spans && Segment(logs[sid], spans[sid], sid in sessions, broadcasts)
  }

  ghost predicate AllChats(ms: seq<M.Message>) {
    forall i :: 0 <= i < |ms| ==> ms[i].command == M.CHAT_MESSAGE
  }

  ghost predicate OnlyChats(inbox: seq<M.Message>, u: UpdateThread, broadcasts: seq<M.Message>) {
    && AllChats(inbox) && AllChats(broadcasts)
    && (u.Broadcasting? || u.Saving? ==> u.message.command == M.CHAT_MESSAGE)
  }

  // ----- from `send` to the socket -----

  function SendsTo(tasks: seq<Task>, sid: Sid): seq<M.Message> {
    if tasks == [] then []
    else (if tasks[0].Send? && tasks[0].sid == sid then [tasks[0].message] else []) + SendsTo(tasks[1..], sid)
  }

  ghost predicate ClosePosted(tasks: seq<Task>, sid: Sid) {
    exists i :: 0 <= i < |tasks| && tasks[i] == Close(sid)
  }

  ghost predicate ClosesLast(tasks: seq<Task>, sid: Sid) {
    forall i, j :: 0 <= i < j < |tasks| && tasks[i] == Close(sid) ==> !(tasks[j].Send? && tasks[j].sid == sid)
  }

  /** What was sent is what the writer got and what is posted for it; a close comes after the last message. */
  ghost predicate Channel(w: Writer.Writer<M.Message>, log: seq<M.Message>, tasks: seq<Task>, sid: Sid) {
    && Writer.Valid(w) && !w.dropped
    && log == w.posted + SendsTo(tasks, sid)
    && (ClosePosted(tasks, sid) || w.closing ==> Ended(log))
    && (w.closing ==> w.askedAt == |log|)
    && ClosesLast(tasks, sid)
  }

  ghost predicate Channels(writers: map<Sid, Writer.Writer<M.Message>>, logs: map<Sid, seq<M.Message>>,
                           tasks: seq<Task>) {
    forall sid :: sid in logs ==> sid in writers && Channel(writers[sid], logs[sid], tasks, sid)
  }

  // ----- all of it -----

  ghost predicate Sound(s: System) {
    && (s.upd.Joining? ==> !s.upd.response.kind.USER_PROFILE_PICTURE?)
    && Pipeline(s.conns, s.pending, Flight(s))
    && Phases(s.conns, s.sessions, s.pending, s.upd, s.logs)
    && Members(s.conns, s.sessions, s.upd)
    && Segments(s.logs, s.spans, s.sessions, s.broadcasts)
    && OnlyChats(s.inbox, s.upd, s.broadcasts)
    && Channels(s.writers, s.logs, s.tasks)
  }

  ghost predicate Inv(s: System) {
    && Typed(s)
    && s.fault != NullSession
    && (s.fault == NoFault ==> Sound(s))
  }

  lemma NothingInFlight(tables: Tables)
    ensures Pipeline(map[], map[], Flight(Initial(tables)))
  {
    assert Flight(Initial(tables)) == [];
  }

  lemma InitialInv(tables: Tables)
    ensures Inv(Initial(tables))
  {
    hide Writer.Valid, Flight, Pipeline, PhaseOk, Segment, Channel;
    NothingInFlight(tables);
  }
}
