/**
 * The asynchronous writer of a connection as a state machine: posted messages wait in a queue, one
 * asynchronous write at a time sends the front, and each completion decides what happens next.
 */
module Writer {
  import opened Bytes

  datatype Writer<T> = Writer(
    queue: seq<T>,
    inFlight: bool,        // an asynchronous write of the front is outstanding
    closing: bool,         // a disconnect after the last write has been asked for
    open: bool,            // the socket
    // history
    posted: seq<T>,        // every message handed to the queue
    written: seq<T>,       // those whose write completed
    started: nat,          // writes started
    failed: bool,          // a write completed with an error
    dropped: bool,         // the socket was closed for another reason than the asked disconnect
    askedAt: nat           // how many messages had been posted when the disconnect was first asked for
  )

  function New<T>(): Writer<T> {
    Writer([], false, false, true, [], [], 0, false, false, 0)
  }

  datatype Step<T> =
    | Post(message: T)     // the posted closure of `send` runs
    | AskClose             // the posted closure of `disconnectAfterWrite` runs
    | Done(ok: bool)       // the outstanding write completes
    | Drop                 // the client closes its socket after a read error

  ghost predicate Enabled<T>(w: Writer<T>, s: Step<T>) {
    s.Done? ==> w.inFlight && (s.ok ==> w.open)
  }

  /** `onWrite`: starting a write is only sound while none is outstanding. */
  function StartWrite<T>(w: Writer<T>): Writer<T>
    requires w.queue != [] && !w.inFlight && !w.failed
  {
    w.(inFlight := true, started := w.started + 1)
  }

  ghost predicate Valid<T>(w: Writer<T>) {
    && w.posted == w.written + w.queue
    && (w.failed ==> !w.inFlight && w.queue != [])
    && (!w.failed ==> (w.inFlight <==> w.queue != []))
    && w.started == |w.written| + (if w.inFlight || w.failed then 1 else 0)
    && (w.closing ==> w.askedAt <= |w.posted|)
    && (!w.open && !w.dropped ==> w.closing && w.askedAt <= |w.written|)
    && (w.closing && w.open && !w.failed ==> w.inFlight)
  }

  /** `closeOnError` tells the client, which closes its socket after a failed write, from the session. */
  function Apply<T>(w: Writer<T>, s: Step<T>, closeOnError: bool): (r: Writer<T>)
    requires Valid(w) && Enabled(w, s)
    ensures Valid(r)
  {
    match s
    case Post(x) =>
      var q := w.(queue := w.queue + [x], posted := w.posted + [x]);
      if w.queue == [] then StartWrite(q) else q
    case AskClose =>
      var c := w.(closing := true, askedAt := if w.closing then w.askedAt else |w.posted|);
      if w.queue == [] then c.(open := false) else c
    case Done(ok) =>
      if ok then
        var d := w.(queue := w.queue[1..], written := w.written + [w.queue[0]], inFlight := false);
        if d.queue != [] then StartWrite(d) else if d.closing then d.(open := false) else d
      else
        var f := w.(inFlight := false, failed := true);
        if closeOnError then f.(open := false, dropped := true) else f
    case Drop => w.(open := false, dropped := true)
  }

  // ----- runs -----

  ghost function Exec<T>(steps: seq<Step<T>>, closeOnError: bool): (r: Option<Writer<T>>)
    ensures r.Some? ==> Valid(r.value)
  {
    if steps == [] then Some(New())
    else
      var w :- Exec(steps[..|steps| - 1], closeOnError);
      var s := steps[|steps| - 1];
      if Enabled(w, s) then Some(Apply(w, s, closeOnError)) else None
  }

  function Posts<T>(steps: seq<Step<T>>): seq<T> {
    if steps == [] then []
    else
      var s := steps[|steps| - 1];
      Posts(steps[..|steps| - 1]) + if s.Post? then [s.message] else []
  }

  lemma StepFacts<T>(w: Writer<T>, s: Step<T>, closeOnError: bool)
    requires Valid(w) && Enabled(w, s)
    ensures var r := Apply(w, s, closeOnError);
      && r.posted == w.posted + (if s.Post? then [s.message] else [])
      && r.closing == (w.closing || s == AskClose)
      && r.askedAt == (if w.closing || s != AskClose then w.askedAt else |w.posted|)
      && (!closeOnError && s != Drop ==> r.dropped == w.dropped)
  {
    match s
    case Post(x) => assert Apply(w, s, closeOnError).posted == w.posted + [x];
    case AskClose =>
    case Done(ok) =>
    case Drop =>
  }

  /**
   * In every run: what was written, followed by the queue, is what was posted, in order; a write is
   * outstanding exactly while the queue is not empty, unless one has failed; writes are started one at a time.
   */
  lemma {:induction false} WriterRun<T>(steps: seq<Step<T>>, closeOnError: bool)
    ensures var r := Exec(steps, closeOnError); r.Some? ==>
      && r.value.written + r.value.queue == Posts(steps)
      && (!r.value.failed ==> (r.value.inFlight <==> r.value.queue != []))
      && |r.value.written| <= r.value.started <= |r.value.written| + 1
  {
    hide Apply;
    if steps != [] {
      var w := Exec(steps[..|steps| - 1], closeOnError);
      WriterRun(steps[..|steps| - 1], closeOnError);
      if w.Some? && Enabled(w.value, steps[|steps| - 1]) {
        StepFacts(w.value, steps[|steps| - 1], closeOnError);
      }
    }
  }

  /** After a failed write nothing is started any more, and after the close nothing more is written. */
  lemma FailedStaysSilent<T>(w: Writer<T>, s: Step<T>, closeOnError: bool)
    requires Valid(w) && Enabled(w, s)
    ensures w.failed ==> Apply(w, s, closeOnError).started == w.started
                         && Apply(w, s, closeOnError).failed && Apply(w, s, closeOnError).written == w.written
    ensures !w.open ==> !Apply(w, s, closeOnError).open && Apply(w, s, closeOnError).written == w.written
  {
  }

  /**
   * The asked disconnect closes the socket only after every message posted before it is completely written;
   * and when neither a write has failed nor one is outstanding, everything posted has been written and the
   * socket is closed if the disconnect was asked for.
   */
  lemma {:induction false} CloseWaitsForWrites<T>(steps: seq<Step<T>>, asked: nat, closeOnError: bool)
    requires asked < |steps| && steps[asked] == AskClose
    requires forall i :: 0 <= i < asked ==> steps[i] != AskClose
    requires Exec(steps, closeOnError).Some?
    ensures var w := Exec(steps, closeOnError).value;
      && (!w.open && !w.dropped ==> Posts(steps[..asked]) <= w.written)
      && (!w.failed && !w.inFlight ==> w.written == Posts(steps) && !w.open)
  {
    AskedAt(steps, asked, closeOnError);
    WriterRun(steps, closeOnError);
    PostsPrefix(steps, asked);
  }

  lemma {:induction false} AskedAt<T>(steps: seq<Step<T>>, asked: nat, closeOnError: bool)
    requires asked < |steps| && steps[asked] == AskClose
    requires forall i :: 0 <= i < asked ==> steps[i] != AskClose
    requires Exec(steps, closeOnError).Some?
    ensures Exec(steps, closeOnError).value.closing
    ensures Exec(steps, closeOnError).value.askedAt == |Posts(steps[..asked])|
  {
    hide Apply, Valid;
    var front := steps[..|steps| - 1];
    StepFacts(Exec(front, closeOnError).value, steps[|steps| - 1], closeOnError);
    if asked < |front| {
      AskedAt(front, asked, closeOnError);
      assert front[..asked] == steps[..asked];
    } else {
      NotAsked(front, closeOnError);
      WriterRun(front, closeOnError);
      ValidPosted(Exec(front, closeOnError).value);
      assert front == steps[..asked];
    }
  }

  lemma ValidPosted<T>(w: Writer<T>)
    requires Valid(w)
    ensures w.posted == w.written + w.queue
  {
  }

  lemma {:induction false} NotAsked<T>(steps: seq<Step<T>>, closeOnError: bool)
    requires forall i :: 0 <= i < |steps| ==> steps[i] != AskClose
    requires Exec(steps, closeOnError).Some?
    ensures !Exec(steps, closeOnError).value.closing
  {
    hide Apply;
    if steps != [] {
      NotAsked(steps[..|steps| - 1], closeOnError);
      StepFacts(Exec(steps[..|steps| - 1], closeOnError).value, steps[|steps| - 1], closeOnError);
    }
  }

  lemma {:induction false} PostsPrefix<T>(steps: seq<Step<T>>, k: nat)
    requires k <= |steps|
    ensures Posts(steps[..k]) <= Posts(steps)
  {
    if k < |steps| {
      PostsPrefix(steps[..|steps| - 1], k);
      assert steps[..|steps| - 1][..k] == steps[..k];
    } else {
      assert steps[..k] == steps;
    }
  }
}
