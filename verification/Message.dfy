/** The wire message: a JSON object of four fields, and the picture object carried in a content field. */
module Message {
  import opened Bytes
  import opened Json

  type Int64 = x: int | -0x8000_0000_0000_0000 <= x < 0x8000_0000_0000_0000

  /** The underlying value of `Command`; values without an enumerator are possible too. */
  type Command = Byte

  const LOGIN_REQUEST: Command := 0
  const REGISTER_REQUEST: Command := 1
  const LOGIN_RESPONSE_REJECT: Command := 2
  const LOGIN_RESPONSE_ACCEPT: Command := 3
  const CHAT_MESSAGE: Command := 4
  const USER_JOINED: Command := 5
  const USER_LEFT: Command := 6
  const SERVER_KICK_REQUEST: Command := 7
  const PROFILE_PICTURE: Command := 8

  datatype Message = Message(command: Command, senderName: Text, content: Text, timestamp: Int64)

  // The fields in the order of the keys, as the library keeps them in a sorted map.
  function CommandKey(): Text { Ascii("{\"command\":") }
  function ContentKey(): Text { Ascii(",\"content\":\"") }
  function SenderKey(): Text { Ascii("\",\"sender_name\":\"") }
  function TimestampKey(): Text { Ascii("\",\"time_stamp\":") }
  function CloseBrace(): Text { Ascii("}") }

  /** `js.dump()`; it throws on a field that is not well-formed UTF-8. */
  function Serialize(m: Message): Option<Text> {
    match (Escape(m.content), Escape(m.senderName))
    case (Some(content), Some(sender)) =>
      Some(CommandKey() + (PrintInt(m.command) + (ContentKey() + (content + (SenderKey() + (sender
        + (TimestampKey() + (PrintInt(m.timestamp) + CloseBrace()))))))))
    case _ => None
  }

  /** Parsing such a text; `None` stands for the library's exceptions. The command keeps its low eight bits. */
  function Deserialize(raw: Text): Option<Message> {
    var (command, s1) :- AfterKey(CommandKey(), raw);
    var s2 :- Expect(ContentKey(), s1);
    var (content, s3) :- Scan(s2);
    var s4 :- Expect(SenderKey()[1..], s3);
    var (sender, s5) :- Scan(s4);
    var (timestamp, s6) :- AfterKey(TimestampKey()[1..], s5);
    if s6 == CloseBrace() && -0x8000_0000_0000_0000 <= timestamp < 0x8000_0000_0000_0000
    then Some(Message(command % 256, sender, content, timestamp)) else None
  }

  function AfterKey(key: Text, s: Text): Option<(int, Text)> {
    var t :- Expect(key, s);
    ReadInt(t)
  }

  lemma AfterKeyRoundTrip(key: Text, n: int, rest: Text)
    requires rest == [] || !IsDigit(rest[0])
    ensures AfterKey(key, key + (PrintInt(n) + rest)) == Some((n, rest))
  {
    hide PrintInt, ReadInt;
    ExpectRoundTrip(key, PrintInt(n) + rest);
    IntRoundTrip(n, rest);
  }

  lemma KeyShapes()
    ensures SenderKey() == [QUOTE] + SenderKey()[1..] && TimestampKey() == [QUOTE] + TimestampKey()[1..]
    ensures CloseBrace() != [] && ContentKey() != [] && !IsDigit(ContentKey()[0]) && !IsDigit(CloseBrace()[0])
    ensures NoControl(CommandKey()) && NoControl(ContentKey()) && NoControl(SenderKey())
    ensures NoControl(TimestampKey()) && NoControl(CloseBrace())
  {
  }

  /**
   * Messages that can be written are exactly those whose texts are well-formed UTF-8; they are read back
   * unchanged, and their text holds no control character, so no newline.
   */
  lemma MessageRoundTrip(m: Message)
    ensures Serialize(m).Some? <==> ValidUtf8(m.senderName) && ValidUtf8(m.content)
    ensures Serialize(m).Some? ==> Deserialize(Serialize(m).value) == Some(m)
    ensures Serialize(m).Some? ==> NoControl(Serialize(m).value) && NEWLINE !in Serialize(m).value
  {
    hide Escape, Scan, PrintInt, ValidUtf8, CommandKey, ContentKey, SenderKey, TimestampKey, CloseBrace, AfterKey,
         Expect, IsDigit;
    KeyShapes();
    var p7 := CloseBrace();
    var p6 := TimestampKey()[1..] + (PrintInt(m.timestamp) + p7);
    StringRoundTrip(m.senderName, p6);
    if Escape(m.senderName).Some? {
      var p5 := Escape(m.senderName).value + ([QUOTE] + p6);
      var p4 := SenderKey()[1..] + p5;
      StringRoundTrip(m.content, p4);
      if Escape(m.content).Some? {
        var p3 := Escape(m.content).value + ([QUOTE] + p4);
        var p2 := ContentKey() + p3;
        var raw := CommandKey() + (PrintInt(m.command) + p2);
        assert Serialize(m) == Some(raw) by {
          assert TimestampKey() + (PrintInt(m.timestamp) + p7) == [QUOTE] + p6;
          assert SenderKey() + p5 == [QUOTE] + p4;
        }
        IntRoundTrip(m.command, []);
        IntRoundTrip(m.timestamp, []);
        AfterKeyRoundTrip(CommandKey(), m.command, p2);
        ExpectRoundTrip(ContentKey(), p3);
        ExpectRoundTrip(SenderKey()[1..], p5);
        AfterKeyRoundTrip(TimestampKey()[1..], m.timestamp, p7);
        assert NoControl(p5) && NoControl(p3) && NoControl(raw);
      }
    } else {
      StringRoundTrip(m.content, []);
    }
  }

  lemma AfterKeyMore(key: Text, s: Text, t: Text)
    requires AfterKey(key, s).Some? && AfterKey(key, s).value.1 != []
    ensures AfterKey(key, s + t) == Some((AfterKey(key, s).value.0, AfterKey(key, s).value.1 + t))
  {
    hide Expect, ReadInt;
    ExpectMore(key, s, t);
    ReadIntMore(Expect(key, s).value, t);
  }

  /** No message is the beginning of another text that can be parsed. */
  lemma PrefixFree(u: Text, t: Text)
    requires Deserialize(u).Some? && Deserialize(u + t).Some?
    ensures t == []
  {
    hide CommandKey, ContentKey, SenderKey, TimestampKey, CloseBrace, AfterKey, Expect, Scan;
    KeyShapes();
    var (command, s1) := AfterKey(CommandKey(), u).value;
    var s2 := Expect(ContentKey(), s1).value;
    assert s1 != [] by { ExpectedNotEmpty(ContentKey(), s1); }
    var (content, s3) := Scan(s2).value;
    var s4 := Expect(SenderKey()[1..], s3).value;
    var (sender, s5) := Scan(s4).value;
    var (timestamp, s6) := AfterKey(TimestampKey()[1..], s5).value;
    assert s6 == CloseBrace() && s6 != [];
    AfterKeyMore(CommandKey(), u, t);
    ExpectMore(ContentKey(), s1, t);
    ScanMore(s2, t);
    ExpectMore(SenderKey()[1..], s3, t);
    ScanMore(s4, t);
    AfterKeyMore(TimestampKey()[1..], s5, t);
    assert s6 + t == CloseBrace();
  }

  lemma ExpectedNotEmpty(lit: Text, s: Text)
    requires lit != [] && Expect(lit, s).Some?
    ensures s != []
  {
  }

  /** What is cut off a serialized message cannot be parsed, wherever it is cut. */
  lemma CutMessage(m: Message, u: Text)
    requires Serialize(m).Some? && u < Serialize(m).value
    ensures Deserialize(u).None?
  {
    hide Serialize, Deserialize, ValidUtf8;
    var text := Serialize(m).value;
    MessageRoundTrip(m);
    assert text == u + text[|u|..];
    if Deserialize(u).Some? {
      PrefixFree(u, text[|u|..]);
    }
  }

  /** Whatever can be parsed has well-formed texts, so it can be written. */
  lemma ParsedValid(raw: Text)
    requires Deserialize(raw).Some?
    ensures ValidUtf8(Deserialize(raw).value.senderName) && ValidUtf8(Deserialize(raw).value.content)
    ensures Serialize(Deserialize(raw).value).Some?
  {
    hide CommandKey, ContentKey, SenderKey, TimestampKey, CloseBrace, AfterKey, Expect, Scan, ValidUtf8, Serialize;
    KeyShapes();
    var (_, s1) := AfterKey(CommandKey(), raw).value;
    var s2 := Expect(ContentKey(), s1).value;
    var (_, s3) := Scan(s2).value;
    var s4 := Expect(SenderKey()[1..], s3).value;
    ScanValid(s2);
    ScanValid(s4);
    MessageRoundTrip(Deserialize(raw).value);
  }
}
