/**
 * The loop of a session over its buffered lines inside the interleaved server: what it passes on is what the steps
 * for the same lines do.
 */
module ServerLines {
  import opened Bytes
  import opened User
  import opened Store
  import opened Session
  import opened ServerSystem
  import opened ServerProof
  import M = Message

  /** A message is received, and the request of a join pushed. */
  function ReceiveOne(s: System, sid: Sid, m: M.Message): (r: System)
    requires sid in s.conns && s.net.NetIdle?
    ensures sid in r.conns && r.net == s.net
  {
    var r := DoReceive(s, sid, m);
    if r.net.NetJoin? then DoPushJoin(r) else r
  }

  function ReceiveAll(s: System, sid: Sid, ms: seq<M.Message>): System
    requires sid in s.conns && s.net.NetIdle?
    decreases |ms|
  {
    if ms == [] then s else ReceiveAll(ReceiveOne(s, sid, ms[0]), sid, ms[1..])
  }

  /** What lines that can be parsed say. */
  function Parsed(lines: seq<Text>): seq<M.Message>
    requires forall i :: 0 <= i < |lines| ==> M.Deserialize(lines[i]).Some?
  {
    if lines == [] then [] else [M.Deserialize(lines[0]).value] + Parsed(lines[1..])
  }

  /** The requests the callbacks of the server make of the events. */
  function RequestsOf(events: seq<Event>): seq<Request> {
    if events == [] then []
    else
      (match events[0]
       case LoginInfoSent(u) => [Login(u)]
       case RegisterInfoSent(u) => [Register(u)]
       case ChatReceived(_) => []
       case PictureSent(u, content) => [SavePicture(u, CStr(content))]) + RequestsOf(events[1..])
  }

  /** A join waits under its name for an answer. */
  function PendingOne(pending: map<Text, Sid>, sid: Sid, e: Event): map<Text, Sid> {
    match e
    case LoginInfoSent(u) => pending[CStr(u.username) := sid]
    case RegisterInfoSent(u) => pending[CStr(u.username) := sid]
    case _ => pending
  }

  function PendingAfter(pending: map<Text, Sid>, sid: Sid, events: seq<Event>): map<Text, Sid>
    decreases |events|
  {
    if events == [] then pending else PendingAfter(PendingOne(pending, sid, events[0]), sid, events[1..])
  }

  /** From one state to the other the events have been passed on, and nothing else has. */
  ghost predicate PassedOn(s: System, r: System, sid: Sid, user: User, events: seq<Event>) {
    && sid in r.conns && r.conns[sid].user == user && r.net == s.net
    && (forall i :: 0 <= i < |ReceivedLines(events)| ==> M.Deserialize(ReceivedLines(events)[i]).Some?)
    && r.inbox == s.inbox + Parsed(ReceivedLines(events))
    && r.requests == s.requests + RequestsOf(events)
    && r.pending == PendingAfter(s.pending, sid, events)
    && r.logs == s.logs && r.sessions == s.sessions && r.tasks == s.tasks && r.upd == s.upd
  }

  lemma OneEvent(pending: map<Text, Sid>, sid: Sid, e: Event)
    ensures ReceivedLines([e]) == if e.ChatReceived? then [e.line] else []
    ensures RequestsOf([e]) == match e
                               case LoginInfoSent(u) => [Login(u)]
                               case RegisterInfoSent(u) => [Register(u)]
                               case ChatReceived(_) => []
                               case PictureSent(u, content) => [SavePicture(u, CStr(content))]
    ensures PendingAfter(pending, sid, [e])
         == if e.LoginInfoSent? || e.RegisterInfoSent? then pending[CStr(e.user.username) := sid] else pending
  {
    hide CStr;
    assert [e][1..] == [];
  }

  lemma ParsedOne(line: Text)
    requires M.Deserialize(line).Some?
    ensures Parsed([line]) == [M.Deserialize(line).value] && Parsed([]) == []
  {
    hide M.Deserialize;
    assert [line][1..] == [];
  }

  lemma NoEvents(pending: map<Text, Sid>, sid: Sid)
    ensures ReceivedLines([]) == [] && RequestsOf([]) == [] && PendingAfter(pending, sid, []) == pending
  {
  }

  /** One line. */
  lemma OnePassedOn(s: System, sid: Sid, line: Text)
    requires sid in s.conns && s.net.NetIdle? && M.Deserialize(line).Some?
    ensures var m := M.Deserialize(line).value;
            var reaction := React(s.conns[sid].user, m, line);
            PassedOn(s, ReceiveOne(s, sid, m), sid, reaction.0, reaction.1)
  {
    hide M.Deserialize, CStr, DoReceive, ReceivedLines, RequestsOf, PendingAfter, Parsed;
    var m := M.Deserialize(line).value;
    ReceiveIs(s, sid, m);
    ParsedOne(line);
    var events := React(s.conns[sid].user, m, line).1;
    if events == [] {
      NoEvents(s.pending, sid);
    } else {
      assert events == [events[0]];
      OneEvent(s.pending, sid, events[0]);
    }
  }

  lemma {:induction false} RequestsConcat(a: seq<Event>, b: seq<Event>)
    ensures RequestsOf(a + b) == RequestsOf(a) + RequestsOf(b)
  {
    hide CStr;
    if a == [] {
      assert a + b == b;
    } else {
      assert (a + b)[1..] == a[1..] + b;
      RequestsConcat(a[1..], b);
    }
  }

  lemma {:induction false} PendingConcat(pending: map<Text, Sid>, sid: Sid, a: seq<Event>, b: seq<Event>)
    ensures PendingAfter(pending, sid, a + b) == PendingAfter(PendingAfter(pending, sid, a), sid, b)
    decreases |a|
  {
    hide PendingOne;
    if a == [] {
      assert a + b == b;
    } else {
      assert (a + b)[1..] == a[1..] + b;
      PendingConcat(PendingOne(pending, sid, a[0]), sid, a[1..], b);
    }
  }

  lemma {:induction false} ParsedConcat(a: seq<Text>, b: seq<Text>)
    requires forall i :: 0 <= i < |a| ==> M.Deserialize(a[i]).Some?
    requires forall i :: 0 <= i < |b| ==> M.Deserialize(b[i]).Some?
    ensures Parsed(a + b) == Parsed(a) + Parsed(b)
  {
    hide M.Deserialize;
    if a == [] {
      assert a + b == b;
    } else {
      assert (a + b)[1..] == a[1..] + b;
      ParsedConcat(a[1..], b);
    }
  }

  lemma PassedOnTwice(s: System, p: System, r: System, sid: Sid, u: User, v: User, a: seq<Event>, b: seq<Event>)
    requires PassedOn(s, p, sid, u, a) && PassedOn(p, r, sid, v, b)
    ensures PassedOn(s, r, sid, v, a + b)
  {
    hide M.Deserialize, ReceivedLines, RequestsOf, PendingAfter, Parsed;
    ReceivedConcat(a, b);
    RequestsConcat(a, b);
    PendingConcat(s.pending, sid, a, b);
    ParsedConcat(ReceivedLines(a), ReceivedLines(b));
  }

  /**
   * Draining a buffer and receiving its handled lines message by message come to the same: the inbox grows by what
   * parsing the passed-on chat lines again gives, in order, and the database is asked for the same things.
   */
  lemma {:induction false} DrainReceives(s: System, sid: Sid, lines: seq<Text>)
    requires sid in s.conns && s.net.NetIdle?
    ensures var d := ReactAll(s.conns[sid].user, lines);
            PassedOn(s, ReceiveAll(s, sid, Parsed(Handled(lines))), sid, d.user, d.events)
    decreases |lines|
  {
    hide M.Deserialize, React, ReceiveOne, ReceivedLines, RequestsOf, PendingAfter, PassedOn;
    var user := s.conns[sid].user;
    if lines == [] || M.Deserialize(lines[0]).None? {
      Unchanged(s, sid);
    } else {
      var m := M.Deserialize(lines[0]).value;
      var p := ReceiveOne(s, sid, m);
      var (u, events) := React(user, m, lines[0]);
      OnePassedOn(s, sid, lines[0]);
      assert p.conns[sid].user == u by { PassedOnUser(s, p, sid, u, events); }
      DrainReceives(p, sid, lines[1..]);
      var more := Handled(lines[1..]);
      assert ([lines[0]] + more)[1..] == more;
      var d := ReactAll(u, lines[1..]);
      PassedOnTwice(s, p, ReceiveAll(p, sid, Parsed(more)), sid, u, d.user, events, d.events);
      assert ([m] + Parsed(more))[1..] == Parsed(more);
    }
  }

  lemma PassedOnUser(s: System, r: System, sid: Sid, user: User, events: seq<Event>)
    requires PassedOn(s, r, sid, user, events)
    ensures sid in r.conns && r.conns[sid].user == user
  {
    hide ReceivedLines, RequestsOf, PendingAfter, Parsed;
  }

  lemma Unchanged(s: System, sid: Sid)
    requires sid in s.conns
    ensures PassedOn(s, s, sid, s.conns[sid].user, []) && Parsed([]) == []
  {
    NoEvents(s.pending, sid);
  }

  /** So the inbox grows by the chats among the handled lines. */
  lemma ChatsReachInbox(s: System, sid: Sid, lines: seq<Text>)
    requires sid in s.conns && s.net.NetIdle?
    ensures ReceiveAll(s, sid, Parsed(Handled(lines))).inbox == s.inbox + Parsed(ChatLines(Handled(lines)))
  {
    hide M.Deserialize, ReceiveAll, Parsed, ChatLines, Handled, ReactAll, RequestsOf, PendingAfter;
    var user := s.conns[sid].user;
    DrainReceives(s, sid, lines);
    ChatsPassedOn(user, lines);
  }
}
