/** From the server's steps to the clients' inboxes: what the readers at the other ends of the sockets see. */
module ServerDelivery {
  import opened Bytes
  import opened Json
  import opened Store
  import opened ServerSystem
  import opened ServerInvariants
  import opened ServerRuns
  import Lines
  import M = Message
  import Delivery
  import Reader
  import Writer

  // ----- only texts that can be written reach a writer -----

  ghost predicate AllSendable(ms: seq<M.Message>) {
    forall i :: 0 <= i < |ms| ==> Delivery.Sendable(ms[i])
  }

  ghost predicate WritersSendable(writers: map<Sid, Writer.Writer<M.Message>>) {
    forall x :: x in writers ==> AllSendable(writers[x].posted)
  }

  lemma RunTaskSendable(s: System)
    requires Typed(s) && s.tasks != [] && WritersSendable(s.writers)
    ensures WritersSendable(DoRunTask(s).writers)
  {
    hide Writer.Apply, Writer.Valid, M.Serialize, Delivery.Sendable;
    var sid := s.tasks[0].sid;
    match s.tasks[0]
    case Send(_, m) =>
      if M.Serialize(m).Some? {
        Writer.StepFacts(s.writers[sid], Writer.Post(m), false);
        MessageSendable(m);
      }
    case Close(_) => Writer.StepFacts(s.writers[sid], Writer.AskClose, false);
  }

  lemma MessageSendable(m: M.Message)
    requires M.Serialize(m).Some?
    ensures Delivery.Sendable(m)
  {
    hide M.Serialize, ValidUtf8;
    M.MessageRoundTrip(m);
  }

  lemma WrittenSendable(s: System, sid: Sid, ok: bool)
    requires Typed(s) && sid in s.conns && Writer.Enabled(s.writers[sid], Writer.Done(ok)) && WritersSendable(s.writers)
    ensures WritersSendable(DoWrite(s, sid, Writer.Done(ok)).writers)
  {
    hide Writer.Apply, Writer.Valid, Writer.Enabled, Delivery.Sendable;
    Writer.StepFacts(s.writers[sid], Writer.Done(ok), false);
  }

  lemma StepSendable(s: System, step: Step)
    requires Typed(s) && Enabled(s, step) && WritersSendable(s.writers)
    ensures WritersSendable(Apply(s, step).writers)
  {
    hide Typed, Handle, CStr, DoRunTask, DoWrite, Writer.Enabled, Delivery.Sendable, ApplyUpdate, UpdateEnabled;
    match step
    case Network(Connect(_)) =>
    case Network(Receive(_, _)) =>
    case Network(PushJoin) =>
    case Network(EndOfFile(_)) =>
    case Network(RunTask) => RunTaskSendable(s);
    case Network(Written(sid, ok)) => WrittenSendable(s, sid, ok);
    case Database(TakeRequest) =>
    case Database(Answer) =>
    case Update(u) => UpdateFrame(s, u);
  }

  lemma {:induction false} RunSendable(tables: Tables, run: Run, k: nat)
    requires IsRun(tables, run) && k <= |run.steps|
    ensures WritersSendable(run.states[k].writers)
  {
    hide Typed, Enabled, Apply, WritersSendable;
    if k == 0 {
      assert WritersSendable(map[]) by { NoWriters(); }
    } else {
      RunSendable(tables, run, k - 1);
      assert StepAt(run, k - 1);
      StepSendable(run.states[k - 1], run.steps[k - 1]);
    }
  }

  lemma NoWriters()
    ensures WritersSendable(map[])
  {
  }

  // ----- what a client sees -----

  /**
   * Whatever part of a session's bytes has reached the client, in whatever chunks: its inbox, parsed, is the
   * first messages the server sent to the session, in order.
   */
  lemma ClientSeesPrefix(tables: Tables, run: Run, k: nat, s: System, sid: Sid, wire: Text,
                         receiver: seq<Reader.Step>)
    requires Reached(tables, run, k, s) && sid in s.conns && sid in s.writers
    requires Delivery.OnTheWire(wire, s.writers[sid])
    requires Reader.Exec(receiver).Some? && Reader.Arrived(receiver) <= wire
    ensures sid in s.logs
    ensures var inbox := Reader.Exec(receiver).value.inbox;
      |inbox| <= |s.logs[sid]| && forall i :: 0 <= i < |inbox| ==> M.Deserialize(inbox[i]) == Some(s.logs[sid][i])
  {
    hide Sound, Writer.Valid, AllIn, Reader.Exec, Delivery.OnTheWire, M.Deserialize, Delivery.Sendable, SendsTo,
      Lines.Stream, Lines.Terminated, StepAt, BehavedAt, Parse;
    var w := s.writers[sid];
    WrittenIsPrefixOfSent(tables, run, k, s, sid);
    RunSendable(tables, run, k);
    ReachedInv(tables, run, k, s);
    Writer.ValidPosted(w);
    Delivery.WireIsPrefixOfPosted(wire, w);
    Delivery.ReceivesPrefix(w.posted, receiver);
    assert w.posted <= s.logs[sid];
  }

  /** The chats in a parsed inbox. */
  function SeenChats(inbox: seq<Text>): seq<M.Message> {
    if inbox == [] then []
    else
      SeenChats(inbox[..|inbox| - 1]) +
        match M.Deserialize(inbox[|inbox| - 1])
        case None => []
        case Some(m) => if m.command == M.CHAT_MESSAGE then [m] else []
  }

  lemma {:induction false} SeenIsPrefix(inbox: seq<Text>, log: seq<M.Message>)
    requires |inbox| <= |log| && forall i :: 0 <= i < |inbox| ==> M.Deserialize(inbox[i]) == Some(log[i])
    ensures SeenChats(inbox) <= Chats(log)
    decreases |log|
  {
    hide M.Deserialize;
    if |inbox| < |log| {
      SeenIsPrefix(inbox, log[..|log| - 1]);
    } else if log != [] {
      SeenExactly(inbox, log);
    }
  }

  lemma {:induction false} SeenExactly(inbox: seq<Text>, log: seq<M.Message>)
    requires |inbox| == |log| && forall i :: 0 <= i < |inbox| ==> M.Deserialize(inbox[i]) == Some(log[i])
    ensures SeenChats(inbox) == Chats(log)
    decreases |log|
  {
    hide M.Deserialize;
    if log != [] {
      SeenExactly(inbox[..|inbox| - 1], log[..|log| - 1]);
    }
  }

  /**
   * Total-order broadcast as the clients see it: the chats in every client's inbox are the first broadcasts from
   * its acceptance on, without a gap, in the one order of the broadcast log.
   */
  lemma ClientsSeeOneOrder(tables: Tables, run: Run, k: nat, s: System, sid: Sid, wire: Text,
                           receiver: seq<Reader.Step>)
    requires Reached(tables, run, k, s) && sid in s.conns && sid in s.writers
    requires Delivery.OnTheWire(wire, s.writers[sid])
    requires Reader.Exec(receiver).Some? && Reader.Arrived(receiver) <= wire
    ensures sid in s.spans && s.spans[sid].from <= |s.broadcasts|
    ensures SeenChats(Reader.Exec(receiver).value.inbox) <= s.broadcasts[s.spans[sid].from..]
  {
    hide Reached, Reader.Exec, Delivery.OnTheWire, M.Deserialize, Chats, SeenChats, Until;
    var inbox := Reader.Exec(receiver).value.inbox;
    ClientSeesPrefix(tables, run, k, s, sid, wire, receiver);
    TotalOrder(tables, run, k, s, sid);
    SeenIsPrefix(inbox, s.logs[sid]);
    var from, until := s.spans[sid].from, Until(s, sid);
    assert s.broadcasts[from..until] == s.broadcasts[from..][..until - from];
  }
}
