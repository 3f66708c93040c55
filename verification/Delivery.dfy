/** From the sender's writer to the receiver's inbox: message text, newline framing and chunking together. */
module Delivery {
  import opened Bytes
  import opened Lines
  import opened Json
  import M = Message
  import Writer
  import Reader

  function LineOf(m: M.Message): Text {
    match M.Serialize(m)
    case Some(text) => text
    case None => []
  }

  ghost predicate Sendable(m: M.Message) {
    ValidUtf8(m.senderName) && ValidUtf8(m.content)
  }

  function LinesOf(ms: seq<M.Message>): seq<Text> {
    seq(|ms|, i requires 0 <= i < |ms| => LineOf(ms[i]))
  }

  /**
   * What the socket has taken over: the completed writes and a part of the write that is outstanding or failed.
   */
  ghost predicate OnTheWire(wire: Text, w: Writer.Writer<M.Message>) {
    exists part: Text ::
      && wire == Stream(LinesOf(w.written)) + part
      && part <= (if w.queue == [] then [] else LineOf(w.queue[0]) + [NEWLINE])
  }

  lemma WireIsPrefixOfPosted(wire: Text, w: Writer.Writer<M.Message>)
    requires Writer.Valid(w) && OnTheWire(wire, w)
    ensures wire <= Stream(LinesOf(w.posted))
  {
    hide LineOf, Stream, M.Serialize;
    var done, waiting := LinesOf(w.written), LinesOf(w.queue);
    assert LinesOf(w.posted) == done + waiting;
    StreamAppend(done, waiting);
    if w.queue != [] {
      assert waiting == [LineOf(w.queue[0])] + waiting[1..];
      StreamAppend([waiting[0]], waiting[1..]);
      StreamOne(waiting[0]);
    }
  }

  lemma LinesAreLines(ms: seq<M.Message>)
    requires forall i :: 0 <= i < |ms| ==> Sendable(ms[i])
    ensures AllOneLine(LinesOf(ms))
  {
    hide M.Serialize, ValidUtf8;
    forall i | 0 <= i < |ms| ensures OneLine(LinesOf(ms)[i]) {
      M.MessageRoundTrip(ms[i]);
    }
  }

  /**
   * A receiver of any part of the messages' stream, in any chunks: its inbox, parsed, is the first messages, in
   * order; and if it waits for more it has taken every message that arrived completely.
   */
  lemma ReceivesPrefix(ms: seq<M.Message>, receiver: seq<Reader.Step>)
    requires Reader.Exec(receiver).Some?
    requires forall i :: 0 <= i < |ms| ==> Sendable(ms[i])
    requires Reader.Arrived(receiver) <= Stream(LinesOf(ms))
    ensures var r := Reader.Exec(receiver).value;
      && |r.inbox| <= |ms|
      && (forall i :: 0 <= i < |r.inbox| ==> M.Deserialize(r.inbox[i]) == Some(ms[i]))
      && (NEWLINE !in r.buffer ==> |r.inbox| == |Terminated(Reader.Arrived(receiver))|)
      && (NEWLINE !in r.buffer && Reader.Arrived(receiver) == Stream(LinesOf(ms)) ==> |r.inbox| == |ms|)
  {
    hide M.Serialize, M.Deserialize, ValidUtf8, Stream, Terminated, Unterminated, Reader.Exec;
    var r, ls, arrived := Reader.Exec(receiver).value, LinesOf(ms), Reader.Arrived(receiver);
    LinesAreLines(ms);
    PrefixOfLines(arrived, ls);
    Reader.Framing(receiver);
    assert r.inbox <= ls;
    forall i | 0 <= i < |r.inbox| ensures M.Deserialize(r.inbox[i]) == Some(ms[i]) {
      assert r.inbox[i] == ls[i] == LineOf(ms[i]);
      M.MessageRoundTrip(ms[i]);
    }
    if arrived == Stream(ls) {
      SplitUnique(ls, []);
      SplitLast([]);
      assert Stream(ls) + [] == Stream(ls);
    }
  }

  /** For every run of the writer, whatever of its output has arrived, in whatever chunks. */
  lemma EndToEnd(sender: seq<Writer.Step<M.Message>>, closeOnError: bool, wire: Text, receiver: seq<Reader.Step>)
    requires Writer.Exec(sender, closeOnError).Some? && Reader.Exec(receiver).Some?
    requires forall i :: 0 <= i < |Writer.Posts(sender)| ==> Sendable(Writer.Posts(sender)[i])
    requires OnTheWire(wire, Writer.Exec(sender, closeOnError).value)
    requires Reader.Arrived(receiver) <= wire
    ensures var r, ms := Reader.Exec(receiver).value, Writer.Posts(sender);
      && |r.inbox| <= |ms|
      && (forall i :: 0 <= i < |r.inbox| ==> M.Deserialize(r.inbox[i]) == Some(ms[i]))
      && (NEWLINE !in r.buffer ==> |r.inbox| == |Terminated(Reader.Arrived(receiver))|)
      && (NEWLINE !in r.buffer && Reader.Arrived(receiver) == Stream(LinesOf(ms)) ==> |r.inbox| == |ms|)
  {
    hide M.Serialize, M.Deserialize, ValidUtf8, Stream, Terminated, Unterminated, Writer.Exec, Reader.Exec, OnTheWire;
    var w := Writer.Exec(sender, closeOnError).value;
    Writer.WriterRun(sender, closeOnError);
    Writer.ValidPosted(w);
    WireIsPrefixOfPosted(wire, w);
    ReceivesPrefix(Writer.Posts(sender), receiver);
  }
}
