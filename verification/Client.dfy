/** The client's connection: posted sends, the writer, the line reader and the messages sent on joining. */
module Client {
  import opened Bytes
  import opened Lines
  import opened Json
  import M = Message
  import Picture
  import Reader
  import Writer

  class Client {
    var username: Text
    var password: Text
    var pixels: Text
    var tasks: seq<Text>        // closures posted by `send`, not run yet
    var socketOpen: bool
    var writeQueue: seq<Text>
    var readBuffer: Text
    var inbox: seq<Text>
    ghost var writer: Writer.Writer<Text>

    ghost predicate Valid()
      reads this
    {
      && Writer.Valid(writer)
      && writer.queue == writeQueue
      && writer.open == socketOpen
      && !writer.closing
    }

    ghost function Reading(): Reader.Reader
      reads this
    {
      Reader.Reader(readBuffer, inbox)
    }

    constructor (username: Text, password: Text, pixels: Text)
      ensures Valid() && writer == Writer.New() && Reading() == Reader.Reader([], []) && tasks == []
      ensures this.username == username && this.password == password && this.pixels == pixels
    {
      this.username, this.password, this.pixels := username, password, pixels;
      tasks, socketOpen, writeQueue, readBuffer, inbox := [], true, [], [], [];
      writer := Writer.New();
    }

    /** Serializes at once and posts the rest; false stands for the exception of `serialize`. */
    method Send(message: M.Message) returns (ok: bool)
      modifies this`tasks
      ensures ok <==> M.Serialize(message).Some?
      ensures tasks == old(tasks) + if ok then [M.Serialize(message).value + [NEWLINE]] else []
    {
      match M.Serialize(message) {
        case None => return false;
        case Some(text) =>
          tasks := tasks + [text + [NEWLINE]];
          return true;
      }
    }

    method OnWrite()
      requires writer.queue != [] && !writer.inFlight && !writer.failed
      modifies this`writer
      ensures writer == Writer.StartWrite(old(writer))
    {
      writer := Writer.StartWrite(writer);
    }

    /** Runs the oldest posted closure. */
    method RunTask()
      requires Valid() && tasks != []
      modifies this`tasks, this`writeQueue, this`writer
      ensures Valid()
      ensures tasks == old(tasks)[1..]
      ensures writer == Writer.Apply(old(writer), Writer.Post(old(tasks)[0]), true)
    {
      var text := tasks[0];
      tasks := tasks[1..];
      var idle := writeQueue == [];
      writeQueue := writeQueue + [text];
      writer := writer.(queue := writeQueue, posted := writer.posted + [text]);
      if idle {
        OnWrite();
      }
    }

    /** The handler of a completed write. */
    method OnWritten(ok: bool)
      requires Valid() && Writer.Enabled(writer, Writer.Done(ok))
      modifies this`writeQueue, this`socketOpen, this`writer
      ensures Valid()
      ensures writer == Writer.Apply(old(writer), Writer.Done(ok), true)
    {
      if ok {
        writer := writer.(queue := writeQueue[1..], written := writer.written + [writeQueue[0]], inFlight := false);
        writeQueue := writeQueue[1..];
        if writeQueue != [] {
          OnWrite();
        }
      } else {
        writer := writer.(inFlight := false, failed := true, open := false, dropped := true);
        socketOpen := false;
      }
    }

    /** The handler of a completed read: one line to the inbox, or the close of the socket. */
    method OnRead(ok: bool)
      requires Valid() && (ok ==> NEWLINE in readBuffer)
      modifies this`readBuffer, this`inbox, this`socketOpen, this`writer
      ensures Valid()
      ensures Reading() == if ok then Reader.TakeLine(old(Reading())) else old(Reading())
      ensures writer == if ok then old(writer) else Writer.Apply(old(writer), Writer.Drop, true)
    {
      if ok {
        var k := LineEnd(readBuffer);
        var line := readBuffer[..k];
        readBuffer := readBuffer[k + 1..];
        inbox := inbox + [line];
      } else {
        writer := Writer.Apply(writer, Writer.Drop, true);
        socketOpen := false;
      }
    }

    /** The join message, then the picture message; its content is empty when there is no picture. */
    method OnJoin(joinType: M.Command, now1: M.Int64, now2: M.Int64) returns (ok: bool)
      modifies this`tasks
      ensures ok <==> ValidUtf8(username) && ValidUtf8(password)
      ensures ok ==> |tasks| == |old(tasks)| + 2 && tasks[..|old(tasks)|] == old(tasks)
      ensures ok ==>
        IsLineOf(tasks[|old(tasks)|], M.Message(joinType, username, password, now1))
      ensures ok ==> exists content ::
        && IsLineOf(tasks[|old(tasks)| + 1], M.Message(M.PROFILE_PICTURE, username, content, now2))
        && (pixels == [] <==> content == [])
        && (pixels != [] ==> Picture.Pixels(content) == Some(pixels))
    {
      hide M.Serialize, M.Deserialize, ValidUtf8, Picture.Pixels, Picture.Content;
      var join := M.Message(joinType, username, password, now1);
      M.MessageRoundTrip(join);
      ok := Send(join);
      if !ok {
        return;
      }
      var content: Text := [];
      if pixels != [] {
        Picture.PictureRoundTrip(pixels);
        content := Picture.Content(pixels).value;
      }
      var picture := M.Message(M.PROFILE_PICTURE, username, content, now2);
      ContentValid(pixels);
      M.MessageRoundTrip(picture);
      ok := Send(picture);
    }
  }

  /** A line that the receiver parses back to the message. */
  ghost predicate IsLineOf(line: Text, m: M.Message) {
    && line != [] && line[|line| - 1] == NEWLINE
    && OneLine(line[..|line| - 1])
    && M.Deserialize(line[..|line| - 1]) == Some(m)
  }

  lemma ContentValid(pixels: Text)
    ensures ValidUtf8([])
    ensures Picture.Content(pixels).Some? && ValidUtf8(Picture.Content(pixels).value)
  {
    hide Picture.Content, ValidUtf8;
    Picture.PlainIsValid([]);
    Picture.ContentPlain(pixels);
    Picture.PlainIsValid(Picture.Content(pixels).value);
  }
}
