/** One connection of the server: the handlers that write its queue and drain its read buffer. */
module Session {
  import opened Bytes
  import opened Lines
  import opened User
  import M = Message
  import Writer

  /** What a session passes on: its callbacks, and chat lines into the shared inbox. */
  datatype Event =
    | LoginInfoSent(user: User)
    | RegisterInfoSent(user: User)
    | ChatReceived(line: Text)
    | PictureSent(user: User, content: Text)

  /** The reaction to one message: the session's user afterwards, and what is passed on. */
  function React(user: User, m: M.Message, line: Text): (User, seq<Event>) {
    if m.command == M.LOGIN_REQUEST then
      var u := User(m.senderName, m.content); (u, [LoginInfoSent(u)])
    else if m.command == M.REGISTER_REQUEST then
      var u := User(m.senderName, m.content); (u, [RegisterInfoSent(u)])
    else if m.command == M.CHAT_MESSAGE then (user, [ChatReceived(line)])
    else if m.command == M.PROFILE_PICTURE then (user, [PictureSent(user, m.content)])
    else (user, [])
  }

  /** The lines `getline` finds in a whole buffer: the terminated ones and a non-empty unterminated tail. */
  function Getlines(s: Text): seq<Text>
    decreases |s|
  {
    if s == [] then []
    else
      var k := LineEnd(s);
      [s[..k]] + Getlines(if k < |s| then s[k + 1..] else [])
  }

  datatype Drained = Drained(user: User, events: seq<Event>, ok: bool)

  /** Reacting to lines one at a time, up to the first that cannot be parsed. */
  function ReactAll(user: User, lines: seq<Text>): Drained
    decreases |lines|
  {
    if lines == [] then Drained(user, [], true)
    else
      match M.Deserialize(lines[0])
      case None => Drained(user, [], false)
      case Some(m) =>
        var (u, events) := React(user, m, lines[0]);
        var d := ReactAll(u, lines[1..]);
        d.(events := events + d.events)
  }

  /** The lines before the first one that cannot be parsed. */
  function Handled(lines: seq<Text>): (r: seq<Text>)
    ensures forall i :: 0 <= i < |r| ==> M.Deserialize(r[i]).Some?
  {
    if lines == [] || M.Deserialize(lines[0]).None? then [] else [lines[0]] + Handled(lines[1..])
  }

  /** They are the beginning of the lines, and all of them unless the next one cannot be parsed. */
  lemma {:induction false} HandledUpTo(lines: seq<Text>)
    ensures Handled(lines) <= lines
    ensures Handled(lines) != lines ==> M.Deserialize(lines[|Handled(lines)|]).None?
  {
    hide M.Deserialize;
    if lines != [] && M.Deserialize(lines[0]).Some? {
      var more := Handled(lines[1..]);
      HandledUpTo(lines[1..]);
      assert lines == [lines[0]] + lines[1..];
      assert Handled(lines) == [lines[0]] + more;
      assert more != lines[1..] ==> lines[1..][|more|] == lines[|more| + 1];
    }
  }

  predicate IsChatLine(line: Text) {
    M.Deserialize(line).Some? && M.Deserialize(line).value.command == M.CHAT_MESSAGE
  }

  /** Those of the lines that are chats, as they are. */
  function ChatLines(lines: seq<Text>): (r: seq<Text>)
    ensures forall i :: 0 <= i < |r| ==> IsChatLine(r[i])
  {
    if lines == [] then [] else (if IsChatLine(lines[0]) then [lines[0]] else []) + ChatLines(lines[1..])
  }

  /** The lines that have been put into the shared inbox. */
  function ReceivedLines(events: seq<Event>): seq<Text> {
    if events == [] then []
    else (if events[0].ChatReceived? then [events[0].line] else []) + ReceivedLines(events[1..])
  }

  lemma {:induction false} ReceivedConcat(a: seq<Event>, b: seq<Event>)
    ensures ReceivedLines(a + b) == ReceivedLines(a) + ReceivedLines(b)
  {
    if a == [] {
      assert a + b == b;
    } else {
      assert (a + b)[1..] == a[1..] + b;
      ReceivedConcat(a[1..], b);
    }
  }

  lemma ReactReceived(user: User, m: M.Message, line: Text)
    ensures ReceivedLines(React(user, m, line).1) == if m.command == M.CHAT_MESSAGE then [line] else []
  {
  }

  /** Reacting to lines passes on exactly the chats among those that are handled, unchanged and in order. */
  lemma {:induction false} ChatsPassedOn(user: User, lines: seq<Text>)
    ensures ReactAll(user, lines).ok <==> Handled(lines) == lines
    ensures ReceivedLines(ReactAll(user, lines).events) == ChatLines(Handled(lines))
    decreases |lines|
  {
    hide M.Deserialize, React;
    if lines != [] && M.Deserialize(lines[0]).Some? {
      var m := M.Deserialize(lines[0]).value;
      var (u, events) := React(user, m, lines[0]);
      var more := Handled(lines[1..]);
      ChatsPassedOn(u, lines[1..]);
      ReactReceived(user, m, lines[0]);
      ReceivedConcat(events, ReactAll(u, lines[1..]).events);
      assert ([lines[0]] + more)[1..] == more;
      assert lines == [lines[0]] + lines[1..];
    }
  }

  class Session {
    var user: User
    var socketOpen: bool
    var buffer: Text
    var writeQueue: seq<Text>
    var shouldDisconnectAfterWrite: bool
    var events: seq<Event>
    ghost var writer: Writer.Writer<Text>

    ghost predicate Valid()
      reads this
    {
      && Writer.Valid(writer)
      && writer.queue == writeQueue
      && writer.open == socketOpen
      && writer.closing == shouldDisconnectAfterWrite
    }

    constructor ()
      ensures Valid() && writer == Writer.New() && user == NOBODY && buffer == [] && events == []
    {
      user, socketOpen, buffer, writeQueue := NOBODY, true, [], [];
      shouldDisconnectAfterWrite, events := false, [];
      writer := Writer.New();
    }

    method Disconnect()
      modifies this`socketOpen
      ensures !socketOpen
    {
      socketOpen := false;
    }

    /** Starts the asynchronous write of the front of the queue. */
    method OnWrite()
      requires writer.queue != [] && !writer.inFlight && !writer.failed
      modifies this`writer
      ensures writer == Writer.StartWrite(old(writer))
    {
      writer := Writer.StartWrite(writer);
    }

    /** The closure `send` posts; false stands for the exception of `serialize`. */
    method RunSend(message: M.Message) returns (ok: bool)
      requires Valid()
      modifies this`writeQueue, this`writer
      ensures Valid()
      ensures ok <==> M.Serialize(message).Some?
      ensures ok ==> writer == Writer.Apply(old(writer), Writer.Post(M.Serialize(message).value + [NEWLINE]), false)
      ensures !ok ==> unchanged(this)
    {
      var idle := writeQueue == [];
      match M.Serialize(message) {
        case None => return false;
        case Some(text) =>
          writeQueue := writeQueue + [text + [NEWLINE]];
          writer := writer.(queue := writeQueue, posted := writer.posted + [text + [NEWLINE]]);
      }
      if idle {
        OnWrite();
      }
      return true;
    }

    /** The closure `disconnectAfterWrite` posts. */
    method RunDisconnectAfterWrite()
      requires Valid()
      modifies this`shouldDisconnectAfterWrite, this`socketOpen, this`writer
      ensures Valid()
      ensures writer == Writer.Apply(old(writer), Writer.AskClose, false)
    {
      writer := Writer.Apply(writer, Writer.AskClose, false);
      shouldDisconnectAfterWrite := true;
      if writeQueue == [] {
        Disconnect();
      }
    }

    /** The handler of a completed write. */
    method OnWritten(ok: bool)
      requires Valid() && Writer.Enabled(writer, Writer.Done(ok))
      modifies this`writeQueue, this`socketOpen, this`writer
      ensures Valid()
      ensures writer == Writer.Apply(old(writer), Writer.Done(ok), false)
    {
      if ok {
        writer := writer.(queue := writeQueue[1..], written := writer.written + [writeQueue[0]], inFlight := false);
        writeQueue := writeQueue[1..];
        if writeQueue != [] {
          OnWrite();
        } else if shouldDisconnectAfterWrite {
          writer := writer.(open := false);
          Disconnect();
        }
      } else {
        writer := writer.(inFlight := false, failed := true);
      }
    }

    /** Drains the read buffer; false stands for the exception of a line that cannot be parsed. */
    method HandleMessage() returns (ok: bool)
      modifies this`buffer, this`user, this`events
      ensures var d := ReactAll(old(user), Getlines(old(buffer)));
        ok == d.ok && user == d.user && events == old(events) + d.events
      ensures ok ==> buffer == []
      ensures var lines := Getlines(old(buffer));
        && (ok <==> Handled(lines) == lines)
        && ReceivedLines(events) == ReceivedLines(old(events)) + ChatLines(Handled(lines))
    {
      hide M.Deserialize, React, LineEnd, ReactAll, Getlines, Handled, ChatLines, ReceivedLines;
      ChatsPassedOn(user, Getlines(buffer));
      ReceivedConcat(events, ReactAll(user, Getlines(buffer)).events);
      ghost var all := ReactAll(user, Getlines(buffer));
      ghost var before: seq<Event> := [];
      assert before + all.events == all.events;
      while buffer != []
        invariant var d := ReactAll(user, Getlines(buffer));
          all == d.(events := before + d.events)
        invariant events == old(events) + before
        decreases |buffer|
      {
        ReactToFirst(user, buffer, before);
        var k := LineEnd(buffer);
        var line := buffer[..k];
        buffer := if k < |buffer| then buffer[k + 1..] else [];
        match M.Deserialize(line) {
          case None => return false;
          case Some(message) =>
            var reaction := React(user, message, line);
            user := reaction.0;
            events := events + reaction.1;
            before := before + reaction.1;
        }
      }
      ReactToNothing(user);
      return true;
    }
  }

  lemma ReactToNothing(user: User)
    ensures ReactAll(user, Getlines([])) == Drained(user, [], true)
  {
  }

  /** The first line that the drain loop takes, and what it leaves. */
  lemma FirstGetline(buffer: Text)
    requires buffer != []
    ensures var k := LineEnd(buffer);
      Getlines(buffer) == [buffer[..k]] + Getlines(if k < |buffer| then buffer[k + 1..] else [])
  {
    hide LineEnd;
  }

  lemma ReactToLine(user: User, line: Text, more: seq<Text>)
    ensures M.Deserialize(line).None? ==> ReactAll(user, [line] + more) == Drained(user, [], false)
    ensures M.Deserialize(line).Some? ==>
      var (u, events) := React(user, M.Deserialize(line).value, line);
      var e := ReactAll(u, more);
      ReactAll(user, [line] + more) == e.(events := events + e.events)
  {
    hide M.Deserialize, React;
    assert ([line] + more)[1..] == more;
  }

  /** One round of the drain loop. */
  lemma ReactToFirst(user: User, buffer: Text, before: seq<Event>)
    requires buffer != []
    ensures var k := LineEnd(buffer);
      var rest := if k < |buffer| then buffer[k + 1..] else [];
      var d := ReactAll(user, Getlines(buffer));
      match M.Deserialize(buffer[..k])
      case None => d == Drained(user, [], false)
      case Some(m) =>
        var r := React(user, m, buffer[..k]);
        var e := ReactAll(r.0, Getlines(rest));
        d.(events := before + d.events) == e.(events := before + r.1 + e.events)
  {
    hide M.Deserialize, React, LineEnd, Getlines, ReactAll;
    var k := LineEnd(buffer);
    var rest := if k < |buffer| then buffer[k + 1..] else [];
    FirstGetline(buffer);
    ReactToLine(user, buffer[..k], Getlines(rest));
    if M.Deserialize(buffer[..k]).Some? {
      var r := React(user, M.Deserialize(buffer[..k]).value, buffer[..k]);
      var e := ReactAll(r.0, Getlines(rest));
      assert before + (r.1 + e.events) == before + r.1 + e.events;
    }
  }

  // ----- what draining the whole buffer means -----

  lemma {:induction false} GetlinesSplit(s: Text)
    ensures Getlines(s) == Terminated(s) + (if Unterminated(s) == [] then [] else [Unterminated(s)])
  {
    hide LineEnd;
    if s != [] {
      var k := LineEnd(s);
      if k < |s| {
        var l, rest := s[..k], s[k + 1..];
        GetlinesSplit(rest);
        var more := if Unterminated(rest) == [] then [] else [Unterminated(rest)];
        assert [l] + (Terminated(rest) + more) == ([l] + Terminated(rest)) + more;
      } else {
        assert s[..k] == s;
      }
    }
  }

  /** Draining agrees with reading line by line exactly when the buffer does not end in the middle of a line. */
  lemma DrainIsLineByLine(s: Text)
    ensures Getlines(s) == Terminated(s) <==> (s == [] || s[|s| - 1] == NEWLINE)
  {
    hide Getlines, Terminated, Unterminated;
    GetlinesSplit(s);
    SplitJoins(s);
    TailAfterNewline(s);
  }

  lemma {:induction false} TailAfterNewline(s: Text)
    ensures Unterminated(s) == [] <==> (s == [] || s[|s| - 1] == NEWLINE)
  {
    hide LineEnd;
    var k := LineEnd(s);
    if k < |s| {
      TailAfterNewline(s[k + 1..]);
      assert k + 1 < |s| ==> s[k + 1..][|s[k + 1..]| - 1] == s[|s| - 1];
    }
  }

  /** Line-terminated chunks can be handled one by one or together: the session reacts in the same way. */
  lemma {:induction false} ReactAllConcat(user: User, a: seq<Text>, b: seq<Text>)
    ensures var d := ReactAll(user, a);
      ReactAll(user, a + b) ==
        if d.ok then var e := ReactAll(d.user, b); e.(events := d.events + e.events) else d
    decreases |a|
  {
    hide M.Deserialize, React;
    if a == [] {
      assert a + b == b;
    } else {
      assert (a + b)[1..] == a[1..] + b;
      match M.Deserialize(a[0])
      case None =>
      case Some(m) =>
        var (u, events) := React(user, m, a[0]);
        ReactAllConcat(u, a[1..], b);
        var d, e := ReactAll(u, a[1..]), ReactAll(ReactAll(u, a[1..]).user, b);
        assert events + (d.events + e.events) == (events + d.events) + e.events;
    }
  }

  lemma GetlinesAfter(ls: seq<Text>, rest: Text)
    requires AllOneLine(ls)
    ensures Getlines(Stream(ls) + rest) == ls + Getlines(rest)
  {
    hide Getlines, Stream, Terminated, Unterminated;
    SplitUnique(ls, rest);
    GetlinesSplit(Stream(ls) + rest);
    GetlinesSplit(rest);
  }

  /** More text after a started line goes on with that line, so it adds no line to those of the text. */
  lemma StartedLine(r: Text, b: Text)
    requires OneLine(r) && b != []
    ensures |Getlines(r + b)| == |Getlines(b)|
  {
    hide LineEnd, Getlines;
    var k := LineEnd(b);
    LineEndGoesOn(r, b);
    FirstGetline(r + b);
    FirstGetline(b);
    if k < |b| {
      assert (r + b)[|r| + k + 1..] == b[k + 1..];
    }
  }

  lemma {:induction false} LineEndGoesOn(r: Text, b: Text)
    requires OneLine(r)
    ensures LineEnd(r + b) == |r| + LineEnd(b)
  {
    if r == [] {
      assert r + b == b;
    } else {
      assert (r + b)[1..] == r[1..] + b && (r + b)[0] == r[0];
      LineEndGoesOn(r[1..], b);
    }
  }

  /** Draining in two goes finds the same lines as draining at once if and only if no line is cut in two. */
  lemma ChunksExactly(a: Text, b: Text)
    ensures Getlines(a + b) == Getlines(a) + Getlines(b) <==> a == [] || b == [] || a[|a| - 1] == NEWLINE
  {
    hide Getlines, Stream, Terminated, Unterminated;
    var ls, r := Terminated(a), Unterminated(a);
    SplitJoins(a);
    TailAfterNewline(a);
    assert a + b == Stream(ls) + (r + b);
    GetlinesAfter(ls, r + b);
    GetlinesAfter(ls, r);
    GetlinesOne(r);
    if r == [] {
      assert r + b == b && ls + [] == ls;
    } else if b == [] {
      GetlinesOne(b);
      assert r + b == r && Getlines(a) + [] == Getlines(a);
    } else {
      StartedLine(r, b);
      assert |Getlines(a) + Getlines(b)| == |ls| + 1 + |Getlines(b)|;
    }
  }

  lemma GetlinesOne(r: Text)
    requires OneLine(r)
    ensures Getlines(r) == if r == [] then [] else [r]
  {
    hide Getlines, Terminated, Unterminated;
    SplitLast(r);
    GetlinesSplit(r);
  }

  lemma TerminatedChunks(user: User, a: Text, b: Text)
    requires a == [] || a[|a| - 1] == NEWLINE
    ensures var d := ReactAll(user, Getlines(a));
      ReactAll(user, Getlines(a + b)) ==
        if d.ok then var e := ReactAll(d.user, Getlines(b)); e.(events := d.events + e.events) else d
  {
    hide Getlines, ReactAll;
    ChunksExactly(a, b);
    ReactAllConcat(user, Getlines(a), Getlines(b));
  }

  /**
   * A buffer with a complete line, so that the session drains it, and the beginning of another one: the two parts
   * of that line are read as two lines.
   */
  lemma CutLineWitness(l: Text, a: Text, b: Text)
    requires OneLine(l) && OneLine(a) && OneLine(b) && a != [] && b != []
    ensures Getlines(l + [NEWLINE] + a) + Getlines(b + [NEWLINE]) == [l, a, b]
    ensures Getlines(l + [NEWLINE] + a + (b + [NEWLINE])) == [l, a + b]
  {
    hide Getlines, Stream;
    StreamOne(l);
    GetlinesAfter([l], a);
    GetlinesOne(a);
    OneTerminated(b);
    GetlinesAfter([l], a + b + [NEWLINE]);
    OneTerminated(a + b);
    assert l + [NEWLINE] + a + (b + [NEWLINE]) == l + [NEWLINE] + (a + b + [NEWLINE]);
  }

  lemma OneTerminated(l: Text)
    requires OneLine(l)
    ensures Getlines(l + [NEWLINE]) == [l]
  {
    hide Getlines, Stream;
    StreamOne(l);
    GetlinesAfter([l], []);
    GetlinesOne([]);
    assert l + [NEWLINE] + [] == l + [NEWLINE];
  }

  /**
   * What this does to a client: a buffer that ends inside one of its messages, after any complete lines, makes the
   * drain loop fail.
   */
  lemma CutMessageStops(user: User, ls: seq<Text>, m: M.Message, u: Text)
    requires AllOneLine(ls) && M.Serialize(m).Some? && u != [] && u < M.Serialize(m).value
    ensures !ReactAll(user, Getlines(Stream(ls) + u)).ok
  {
    hide Getlines, Stream, M.Serialize, M.Deserialize, React;
    M.MessageRoundTrip(m);
    M.CutMessage(m, u);
    assert OneLine(u);
    GetlinesAfter(ls, u);
    GetlinesOne(u);
    ReactAllConcat(user, ls, [u]);
  }
}
