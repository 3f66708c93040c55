/** A client's stream of messages, cut into the buffers that the session drains one after the other. */
module Drains {
  import opened Bytes
  import opened Lines
  import opened User
  import opened Session
  import opened Delivery
  import Json
  import M = Message

  /** Draining one buffer after the other, until one cannot be drained. */
  function DrainAll(user: User, chunks: seq<Text>): Drained
    decreases |chunks|
  {
    if chunks == [] then Drained(user, [], true)
    else
      var d := ReactAll(user, Getlines(chunks[0]));
      if !d.ok then d
      else var e := DrainAll(d.user, chunks[1..]); e.(events := d.events + e.events)
  }

  function Joined(chunks: seq<Text>): Text {
    if chunks == [] then [] else chunks[0] + Joined(chunks[1..])
  }

  /** The buffer does not end in the middle of a line. */
  predicate EndsLine(chunk: Text) {
    chunk == [] || chunk[|chunk| - 1] == NEWLINE
  }

  ghost predicate AllSendable(ms: seq<M.Message>) {
    forall i :: 0 <= i < |ms| ==> Sendable(ms[i])
  }

  // ----- lines that are messages -----

  /** Whole messages are never refused. */
  lemma {:induction false} MessagesDrain(user: User, ms: seq<M.Message>)
    requires AllSendable(ms)
    ensures ReactAll(user, LinesOf(ms)).ok
    decreases |ms|
  {
    hide M.Serialize, M.Deserialize, React, Json.ValidUtf8;
    if ms != [] {
      M.MessageRoundTrip(ms[0]);
      assert LinesOf(ms)[1..] == LinesOf(ms[1..]);
      MessagesDrain(React(user, ms[0], LineOf(ms[0])).0, ms[1..]);
    }
  }

  /** An empty line is no message. */
  lemma EmptyLineStops(user: User, more: seq<Text>)
    ensures !ReactAll(user, [[]] + more).ok
  {
    hide React;
    assert M.Deserialize([]).None? by { NothingParsed(); }
    assert ([[]] + more)[0] == [];
  }

  lemma NothingParsed()
    ensures M.Deserialize([]).None?
  {
    hide M.AfterKey;
    assert M.AfterKey(M.CommandKey(), []).None? by { NoKey(); }
  }

  lemma NoKey()
    ensures M.AfterKey(M.CommandKey(), []).None?
  {
  }

  /** A buffer that starts with a newline cannot be drained. */
  lemma NewlineStops(user: User, rest: Text)
    ensures !ReactAll(user, Getlines([NEWLINE] + rest)).ok
  {
    hide ReactAll, Getlines, Stream;
    StreamOne([]);
    assert [] + [NEWLINE] == [NEWLINE];
    GetlinesAfter([[]], rest);
    EmptyLineStops(user, Getlines(rest));
  }

  /** Nor can buffers that start with one once empty ones are left out. */
  lemma {:induction false} LeadingNewline(user: User, chunks: seq<Text>)
    requires Joined(chunks) != [] && Joined(chunks)[0] == NEWLINE
    ensures !DrainAll(user, chunks).ok
    decreases |chunks|
  {
    hide ReactAll, Getlines;
    var c := chunks[0];
    if c == [] {
      GetlinesOne([]);
      ReactToNothing(user);
      assert Joined(chunks) == Joined(chunks[1..]);
      LeadingNewline(user, chunks[1..]);
    } else {
      assert c == [NEWLINE] + c[1..];
      NewlineStops(user, c[1..]);
    }
  }

  // ----- the first buffer of a stream of messages -----

  lemma LinesSplit(ms: seq<M.Message>, j: nat)
    requires j <= |ms|
    ensures LinesOf(ms) == LinesOf(ms[..j]) + LinesOf(ms[j..])
    ensures Stream(LinesOf(ms)) == Stream(LinesOf(ms[..j])) + Stream(LinesOf(ms[j..]))
  {
    hide M.Serialize, LineOf, Stream;
    assert LinesOf(ms) == LinesOf(ms[..j]) + LinesOf(ms[j..]);
    StreamAppend(LinesOf(ms[..j]), LinesOf(ms[j..]));
  }

  /** It holds the first messages whole, and then a part of the next line. */
  lemma FirstBuffer(ms: seq<M.Message>, a: Text, b: Text) returns (j: nat, u: Text)
    requires AllSendable(ms) && a + b == Stream(LinesOf(ms))
    ensures j <= |ms| && a == Stream(LinesOf(ms[..j])) + u && u + b == Stream(LinesOf(ms[j..])) && OneLine(u)
    ensures EndsLine(a) <==> u == []
  {
    hide M.Serialize, LineOf, Stream, Terminated, Unterminated, Json.ValidUtf8;
    LinesAreLines(ms);
    PrefixOfLines(a, LinesOf(ms));
    j, u := |Terminated(a)|, Unterminated(a);
    assert Terminated(a) == LinesOf(ms)[..j] == LinesOf(ms[..j]);
    SplitJoins(a);
    LinesSplit(ms, j);
    var whole := Stream(LinesOf(ms[..j]));
    assert u + b == (a + b)[|whole|..];
    TailAfterNewline(a);
  }

  /** A part of a line is a beginning of the next message, or all of it without its newline. */
  lemma PartOfLine(ms: seq<M.Message>, u: Text, b: Text)
    requires AllSendable(ms) && u != [] && OneLine(u) && u + b == Stream(LinesOf(ms))
    ensures ms != [] && M.Serialize(ms[0]).Some? && u <= M.Serialize(ms[0]).value
    ensures u == M.Serialize(ms[0]).value ==> b != [] && b[0] == NEWLINE
  {
    hide M.Serialize, Json.ValidUtf8;
    M.MessageRoundTrip(ms[0]);
    var line := M.Serialize(ms[0]).value;
    var text := u + b;
    assert text == line + [NEWLINE] + Stream(LinesOf(ms[1..])) by {
      assert LinesOf(ms)[1..] == LinesOf(ms[1..]);
    }
    assert text[|line|] == NEWLINE;
    assert forall i :: 0 <= i < |u| ==> u[i] == text[i];
    assert u == text[..|u|] == line[..|u|];
    if u == line {
      assert b == text[|line|..];
    }
  }

  /** Cut inside a line, the buffer or the ones after it cannot be drained. */
  lemma CutStops(user: User, ms: seq<M.Message>, chunks: seq<Text>)
    requires AllSendable(ms) && chunks != [] && Joined(chunks) == Stream(LinesOf(ms)) && !EndsLine(chunks[0])
    ensures !DrainAll(user, chunks).ok
  {
    hide ReactAll, Getlines, Stream, M.Serialize, Json.ValidUtf8;
    var a, b := chunks[0], Joined(chunks[1..]);
    var j, u := FirstBuffer(ms, a, b);
    PartOfLine(ms[j..], u, b);
    var m := ms[j];
    if u < M.Serialize(m).value {
      LinesAreLines(ms[..j]);
      CutMessageStops(user, LinesOf(ms[..j]), m, u);
    } else {
      LeadingNewline(ReactAll(user, Getlines(a)).user, chunks[1..]);
    }
  }

  /** Cut at the end of a line, the buffer is its messages, and the others are the stream of the rest. */
  lemma WholeBuffer(user: User, ms: seq<M.Message>, chunks: seq<Text>) returns (j: nat)
    requires AllSendable(ms) && chunks != [] && Joined(chunks) == Stream(LinesOf(ms)) && EndsLine(chunks[0])
    ensures j <= |ms| && Joined(chunks[1..]) == Stream(LinesOf(ms[j..]))
    ensures Getlines(chunks[0]) == LinesOf(ms[..j])
  {
    hide Getlines, Stream, M.Serialize, Json.ValidUtf8, LineOf;
    var a, b := chunks[0], Joined(chunks[1..]);
    var u: Text;
    j, u := FirstBuffer(ms, a, b);
    LinesAreLines(ms[..j]);
    GetlinesAfter(LinesOf(ms[..j]), u);
    GetlinesOne(u);
    assert LinesOf(ms[..j]) + [] == LinesOf(ms[..j]);
    assert [] + b == b;
  }

  // ----- every chunking -----

  /**
   * However the stream of a client's messages is cut into buffers: all can be drained if and only if each is empty
   * or ends in a newline, and then the session reacts as to the messages one by one.
   */
  lemma {:induction false} DrainsExactly(user: User, ms: seq<M.Message>, chunks: seq<Text>)
    requires AllSendable(ms) && Joined(chunks) == Stream(LinesOf(ms))
    ensures DrainAll(user, chunks).ok <==> forall i :: 0 <= i < |chunks| ==> EndsLine(chunks[i])
    ensures DrainAll(user, chunks).ok ==> DrainAll(user, chunks) == ReactAll(user, LinesOf(ms))
    decreases |chunks|
  {
    hide ReactAll, Getlines, Stream, M.Serialize, Json.ValidUtf8, EndsLine, LineOf, Sendable;
    if chunks == [] {
      NothingSent(user, ms);
    } else if EndsLine(chunks[0]) {
      var j := WholeBuffer(user, ms, chunks);
      var d := ReactAll(user, LinesOf(ms[..j]));
      MessagesDrain(user, ms[..j]);
      DrainsExactly(d.user, ms[j..], chunks[1..]);
      assert forall i :: 1 <= i < |chunks| ==> chunks[i] == chunks[1..][i - 1];
      LinesSplit(ms, j);
      ReactAllConcat(user, LinesOf(ms[..j]), LinesOf(ms[j..]));
    } else {
      CutStops(user, ms, chunks);
    }
  }

  lemma NothingSent(user: User, ms: seq<M.Message>)
    requires Stream(LinesOf(ms)) == []
    ensures ReactAll(user, LinesOf(ms)) == Drained(user, [], true)
  {
    hide M.Serialize, M.Deserialize, React;
    EmptyStream(LinesOf(ms));
  }

  lemma EmptyStream(ls: seq<Text>)
    requires Stream(ls) == []
    ensures ls == []
  {
  }

  /** A buffer that the read handler can get, and the next one: the message is whole, only its newline is late. */
  lemma LateNewline(user: User, l: M.Message, m: M.Message)
    requires Sendable(l) && Sendable(m)
    ensures var a := LineOf(l) + [NEWLINE] + LineOf(m);
      && ReactAll(user, Getlines(a)).ok
      && !DrainAll(user, [a, [NEWLINE]]).ok
  {
    hide ReactAll, Getlines, Stream, LineOf, Json.ValidUtf8;
    var ms := [l, m];
    var a := LineOf(l) + [NEWLINE] + LineOf(m);
    LinesAreLines(ms);
    assert LinesOf(ms) == [LineOf(l), LineOf(m)];
    assert OneLine(LinesOf(ms)[0]) && OneLine(LinesOf(ms)[1]);
    StreamOne(LineOf(l));
    GetlinesAfter([LineOf(l)], LineOf(m));
    LineNotEmpty(m);
    GetlinesOne(LineOf(m));
    assert Getlines(a) == LinesOf(ms);
    MessagesDrain(user, ms);
    assert [a, [NEWLINE]][1..] == [[NEWLINE]];
    assert Joined([[NEWLINE]]) == [NEWLINE] by { assert [[NEWLINE]][1..] == []; }
    LeadingNewline(ReactAll(user, Getlines(a)).user, [[NEWLINE]]);
  }

  lemma LineNotEmpty(m: M.Message)
    requires Sendable(m)
    ensures LineOf(m) != []
  {
    hide M.Serialize, M.Deserialize, Json.ValidUtf8;
    M.MessageRoundTrip(m);
    NothingParsed();
  }
}
