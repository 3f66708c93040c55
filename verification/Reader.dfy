/** The client's line reader: one asynchronous read-until-newline at a time over a stream cut into chunks. */
module Reader {
  import opened Bytes
  import opened Lines

  datatype Reader = Reader(buffer: Text, inbox: seq<Text>)

  datatype Step =
    | Arrive(chunk: Text)  // the outstanding read appends a chunk of the stream to the buffer
    | Deliver              // the buffer holds a newline: the read completes and its handler takes one line

  /** While a newline is buffered the read completes instead of reading on. */
  predicate Enabled(r: Reader, s: Step) {
    match s
    case Arrive(_) => NEWLINE !in r.buffer
    case Deliver => NEWLINE in r.buffer
  }

  /** `getline` on the buffer, then the push to the inbox. */
  function TakeLine(r: Reader): Reader
    requires NEWLINE in r.buffer
  {
    var k := LineEnd(r.buffer);
    Reader(r.buffer[k + 1..], r.inbox + [r.buffer[..k]])
  }

  function Apply(r: Reader, s: Step): Reader
    requires Enabled(r, s)
  {
    match s
    case Arrive(chunk) => r.(buffer := r.buffer + chunk)
    case Deliver => TakeLine(r)
  }

  function Exec(steps: seq<Step>): Option<Reader> {
    if steps == [] then Some(Reader([], []))
    else
      var r :- Exec(steps[..|steps| - 1]);
      var s := steps[|steps| - 1];
      if Enabled(r, s) then Some(Apply(r, s)) else None
  }

  function Arrived(steps: seq<Step>): Text {
    if steps == [] then []
    else
      var s := steps[|steps| - 1];
      Arrived(steps[..|steps| - 1]) + if s.Arrive? then s.chunk else []
  }

  lemma TakeLineKeepsStream(r: Reader)
    requires NEWLINE in r.buffer && AllOneLine(r.inbox)
    ensures AllOneLine(TakeLine(r).inbox)
    ensures Stream(TakeLine(r).inbox) + TakeLine(r).buffer == Stream(r.inbox) + r.buffer
  {
    hide Stream, LineEnd;
    var k := LineEnd(r.buffer);
    var line, rest := r.buffer[..k], r.buffer[k + 1..];
    StreamAppend(r.inbox, [line]);
    StreamOne(line);
    assert r.buffer == line + [NEWLINE] + rest;
  }

  lemma {:induction false} NothingLost(steps: seq<Step>)
    requires Exec(steps).Some?
    ensures AllOneLine(Exec(steps).value.inbox)
    ensures Stream(Exec(steps).value.inbox) + Exec(steps).value.buffer == Arrived(steps)
  {
    hide TakeLine, LineEnd;
    if steps != [] {
      var front, s := steps[..|steps| - 1], steps[|steps| - 1];
      NothingLost(front);
      var r := Exec(front).value;
      match s
      case Deliver => TakeLineKeepsStream(r);
      case Arrive(chunk) => assert Stream(r.inbox) + (r.buffer + chunk) == (Stream(r.inbox) + r.buffer) + chunk;
    }
  }

  /**
   * However the stream is cut into chunks: the inbox, followed by the lines still buffered, is exactly the
   * terminated lines that arrived, and behind them the buffer holds exactly the unterminated rest.
   */
  lemma Framing(steps: seq<Step>)
    requires Exec(steps).Some?
    ensures var r := Exec(steps).value;
      && r.inbox + Terminated(r.buffer) == Terminated(Arrived(steps))
      && Unterminated(r.buffer) == Unterminated(Arrived(steps))
      && (NEWLINE !in r.buffer ==> r.inbox == Terminated(Arrived(steps)) && r.buffer == Unterminated(Arrived(steps)))
  {
    hide Exec, Arrived, Terminated, Unterminated, Stream;
    var r := Exec(steps).value;
    NothingLost(steps);
    SplitUnique(r.inbox, r.buffer);
    if NEWLINE !in r.buffer {
      SplitLast(r.buffer);
    }
  }
}
