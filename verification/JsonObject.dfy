/** A reader of compact JSON objects that knows no keys, and what it finds in the texts of the messages. */
module JsonObject {
  import opened Bytes
  import opened Json
  import M = Message
  import Picture
  import Base64

  datatype Value = Str(text: Text) | Num(number: int)

  type Fields = map<Text, Value>

  const COLON: Byte := 58
  const COMMA: Byte := 44
  const OPEN: Byte := 123
  const CLOSE: Byte := 125

  /** Reads a string, its opening quote included. */
  function ReadString(s: Text): (r: Option<(Text, Text)>)
    ensures r.Some? ==> |r.value.1| < |s|
  {
    if s == [] || s[0] != QUOTE then None else Scan(s[1..])
  }

  function ReadValue(s: Text): (r: Option<(Value, Text)>)
    ensures r.Some? ==> |r.value.1| < |s|
  {
    if s != [] && s[0] == QUOTE then
      var (text, rest) :- ReadString(s);
      Some((Str(text), rest))
    else
      var (number, rest) :- ReadInt(s);
      Some((Num(number), rest))
  }

  /** Reads one member, the name, a colon and the value. */
  function ReadMember(s: Text): (r: Option<(Text, Value, Text)>)
    ensures r.Some? ==> |r.value.2| < |s|
  {
    var (name, t) :- ReadString(s);
    if t == [] || t[0] != COLON then None
    else
      var (value, rest) :- ReadValue(t[1..]);
      Some((name, value, rest))
  }

  /** Reads members until the closing brace; of two with one name the last one stays. */
  function ReadMembers(fields: Fields, s: Text): Option<(Fields, Text)>
    decreases |s|
  {
    var (name, value, rest) :- ReadMember(s);
    var more := fields[name := value];
    if rest == [] then None
    else if rest[0] == COMMA then ReadMembers(more, rest[1..])
    else if rest[0] == CLOSE then Some((more, rest[1..]))
    else None
  }

  /** Reads a text that is one object. */
  function ReadObject(s: Text): Option<Fields> {
    if s == Ascii("{}") then Some(map[])
    else if s == [] || s[0] != OPEN then None
    else
      var (fields, rest) :- ReadMembers(map[], s[1..]);
      if rest == [] then Some(fields) else None
  }

  // ----- names -----

  /** Names without anything to escape. */
  ghost predicate PlainName(name: Text) {
    forall i :: 0 <= i < |name| ==> 0x20 <= name[i] < 0x80 && name[i] != QUOTE && name[i] != BACKSLASH
  }

  lemma {:induction false} ScanPlain(name: Text, rest: Text)
    requires PlainName(name)
    ensures Scan(name + ([QUOTE] + rest)) == Some((name, rest))
  {
    var s := name + ([QUOTE] + rest);
    if name == [] {
      assert s == [QUOTE] + rest;
      assert s[1..] == rest;
    } else {
      ScanPlain(name[1..], rest);
      assert s[1..] == name[1..] + ([QUOTE] + rest);
      assert s[..1] == [name[0]];
      assert CharLen(s) == 1;
      assert name == [name[0]] + name[1..];
    }
  }

  /** A member as it stands in a text: the quoted name, the colon, and what follows. */
  function Named(name: Text, t: Text): Text {
    [QUOTE] + (name + ([QUOTE] + ([COLON] + t)))
  }

  lemma NumberMember(name: Text, t: Text)
    requires PlainName(name) && ReadInt(t).Some?
    ensures ReadMember(Named(name, t)) == Some((name, Num(ReadInt(t).value.0), ReadInt(t).value.1))
  {
    hide Scan, ReadDigits;
    var s := Named(name, t);
    ScanPlain(name, [COLON] + t);
    assert s[1..] == name + ([QUOTE] + ([COLON] + t));
    assert ([COLON] + t)[1..] == t;
    assert t[0] != QUOTE;
  }

  lemma StringMember(name: Text, t: Text)
    requires PlainName(name) && Scan(t).Some?
    ensures ReadMember(Named(name, [QUOTE] + t)) == Some((name, Str(Scan(t).value.0), Scan(t).value.1))
  {
    hide Scan, ReadInt;
    var s := Named(name, [QUOTE] + t);
    ScanPlain(name, [COLON] + ([QUOTE] + t));
    assert s[1..] == name + ([QUOTE] + ([COLON] + ([QUOTE] + t)));
    assert ([COLON] + ([QUOTE] + t))[1..] == [QUOTE] + t;
    assert ([QUOTE] + t)[1..] == t;
  }

  // ----- the fields of a message -----

  /** What the four keys of a message lead to. */
  function MessageFields(command: int, content: Text, sender: Text, timestamp: int): Fields {
    map[
      Ascii("command") := Num(command),
      Ascii("content") := Str(content),
      Ascii("sender_name") := Str(sender),
      Ascii("time_stamp") := Num(timestamp)
    ]
  }

  // The fixed texts are the punctuation around the names.
  lemma KeyTexts()
    ensures M.CommandKey() == [OPEN, QUOTE] + Ascii("command") + [QUOTE, COLON]
    ensures M.ContentKey() == [COMMA, QUOTE] + Ascii("content") + [QUOTE, COLON, QUOTE]
    ensures M.SenderKey() == [QUOTE, COMMA, QUOTE] + Ascii("sender_name") + [QUOTE, COLON, QUOTE]
    ensures M.TimestampKey() == [QUOTE, COMMA, QUOTE] + Ascii("time_stamp") + [QUOTE, COLON]
  {
  }

  lemma NumberText(first: Byte, name: Text, t: Text)
    ensures [first, QUOTE] + name + [QUOTE, COLON] + t == [first] + Named(name, t)
  {
  }

  lemma StringText(first: Byte, name: Text, t: Text)
    ensures [first, QUOTE] + name + [QUOTE, COLON, QUOTE] + t == [first] + Named(name, [QUOTE] + t)
  {
  }

  lemma PlainNames()
    ensures PlainName(Ascii("command")) && PlainName(Ascii("content"))
    ensures PlainName(Ascii("sender_name")) && PlainName(Ascii("time_stamp"))
  {
  }

  lemma CommandStart(t: Text)
    ensures M.CommandKey() + t == [OPEN] + Named(Ascii("command"), t)
  {
    hide Ascii, M.CommandKey, Named;
    KeyTexts();
    NumberText(OPEN, Ascii("command"), t);
  }

  lemma ContentStart(t: Text)
    ensures M.ContentKey() + t == [COMMA] + Named(Ascii("content"), [QUOTE] + t)
  {
    hide Ascii, M.ContentKey, Named;
    KeyTexts();
    StringText(COMMA, Ascii("content"), t);
  }

  lemma SenderStart(t: Text)
    ensures M.SenderKey() != [] && M.SenderKey()[1..] + t == [COMMA] + Named(Ascii("sender_name"), [QUOTE] + t)
  {
    hide Ascii, M.SenderKey, Named;
    KeyTexts();
    StringText(COMMA, Ascii("sender_name"), t);
    assert M.SenderKey()[1..] == [COMMA, QUOTE] + Ascii("sender_name") + [QUOTE, COLON, QUOTE];
  }

  lemma TimestampStart(t: Text)
    ensures M.TimestampKey() != [] && M.TimestampKey()[1..] + t == [COMMA] + Named(Ascii("time_stamp"), t)
  {
    hide Ascii, M.TimestampKey, Named;
    KeyTexts();
    NumberText(COMMA, Ascii("time_stamp"), t);
    assert M.TimestampKey()[1..] == [COMMA, QUOTE] + Ascii("time_stamp") + [QUOTE, COLON];
  }

  lemma ExpectedText(lit: Text, s: Text)
    requires Expect(lit, s).Some?
    ensures s == lit + Expect(lit, s).value
  {
  }

  /** One more member read, and a comma after it. */
  lemma OneMember(fields: Fields, s: Text, rest: Text)
    requires ReadMember(s).Some? && ReadMember(s).value.2 == [COMMA] + rest
    ensures ReadMembers(fields, s) == ReadMembers(fields[ReadMember(s).value.0 := ReadMember(s).value.1], rest)
  {
    hide ReadMember;
    assert ([COMMA] + rest)[1..] == rest;
  }

  lemma LastMember(fields: Fields, s: Text)
    requires ReadMember(s).Some? && ReadMember(s).value.2 == [CLOSE]
    ensures ReadMembers(fields, s) == Some((fields[ReadMember(s).value.0 := ReadMember(s).value.1], []))
  {
    hide ReadMember;
    assert [CLOSE][1..] == [];
  }

  lemma ObjectStart(s: Text)
    requires ReadMember(s).Some? && ReadMembers(map[], s).Some? && ReadMembers(map[], s).value.1 == []
    ensures ReadObject([OPEN] + s) == Some(ReadMembers(map[], s).value.0)
  {
    hide ReadMembers, Scan;
    assert ([OPEN] + s)[1..] == s;
  }

  /** Whatever is taken for a message is an object of its four fields under their names. */
  lemma MessageRead(raw: Text)
    requires M.Deserialize(raw).Some?
    ensures M.AfterKey(M.CommandKey(), raw).Some?
    ensures var m, n := M.Deserialize(raw).value, M.AfterKey(M.CommandKey(), raw).value.0;
            m.command == n % 256 && ReadObject(raw) == Some(MessageFields(n, m.content, m.senderName, m.timestamp))
  {
    hide M.CommandKey, M.ContentKey, M.SenderKey, M.TimestampKey, Expect, Scan, ReadInt, ReadMember, ReadMembers,
         ReadObject, Named, Ascii, PlainName, IsDigit;
    M.KeyShapes();
    var m := M.Deserialize(raw).value;
    var t1 := Expect(M.CommandKey(), raw).value;
    var (n, s1) := ReadInt(t1).value;
    var s2 := Expect(M.ContentKey(), s1).value;
    var (_, s3) := Scan(s2).value;
    var s4 := Expect(M.SenderKey()[1..], s3).value;
    var (_, s5) := Scan(s4).value;
    var t6 := Expect(M.TimestampKey()[1..], s5).value;
    ExpectedText(M.CommandKey(), raw);
    ExpectedText(M.ContentKey(), s1);
    ExpectedText(M.SenderKey()[1..], s3);
    ExpectedText(M.TimestampKey()[1..], s5);
    PlainNames();
    CommandStart(t1);
    ContentStart(s2);
    SenderStart(s4);
    TimestampStart(t6);
    NumberMember(Ascii("command"), t1);
    StringMember(Ascii("content"), s2);
    StringMember(Ascii("sender_name"), s4);
    NumberMember(Ascii("time_stamp"), t6);
    var p1 := Named(Ascii("command"), t1);
    var p2 := Named(Ascii("content"), [QUOTE] + s2);
    var p3 := Named(Ascii("sender_name"), [QUOTE] + s4);
    var p4 := Named(Ascii("time_stamp"), t6);
    var f1: Fields := map[Ascii("command") := Num(n)];
    var f2 := f1[Ascii("content") := Str(m.content)];
    var f3 := f2[Ascii("sender_name") := Str(m.senderName)];
    OneMember(map[], p1, p2);
    OneMember(f1, p2, p3);
    OneMember(f2, p3, p4);
    Braces();
    LastMember(f3, p4);
    ObjectStart(p1);
  }

  lemma Braces()
    ensures M.CloseBrace() == [CLOSE]
  {
  }

  /** Every message that can be written is written as the object of its fields. */
  lemma MessageWritten(m: M.Message)
    requires ValidUtf8(m.senderName) && ValidUtf8(m.content)
    ensures M.Serialize(m).Some?
    ensures ReadObject(M.Serialize(m).value) == Some(map[
              Ascii("command") := Num(m.command),
              Ascii("content") := Str(m.content),
              Ascii("sender_name") := Str(m.senderName),
              Ascii("time_stamp") := Num(m.timestamp)
            ])
  {
    hide M.Deserialize, M.CommandKey, ReadObject, Ascii, ValidUtf8;
    M.MessageRoundTrip(m);
    var raw := M.Serialize(m).value;
    MessageRead(raw);
    CommandWritten(m);
  }

  /** The number written after the first key. */
  lemma CommandWritten(m: M.Message)
    requires M.Serialize(m).Some?
    ensures M.AfterKey(M.CommandKey(), M.Serialize(m).value).Some?
    ensures M.AfterKey(M.CommandKey(), M.Serialize(m).value).value.0 == m.command
  {
    hide M.CommandKey, M.SenderKey, M.TimestampKey, M.AfterKey, PrintInt, Escape, IsDigit;
    M.KeyShapes();
    var rest := M.Serialize(m).value[|M.CommandKey() + PrintInt(m.command)|..];
    assert M.Serialize(m).value == M.CommandKey() + (PrintInt(m.command) + rest);
    assert rest[0] == M.ContentKey()[0];
    M.AfterKeyRoundTrip(M.CommandKey(), m.command, rest);
  }

  /** The same for messages that are read: the command is the low byte of its number. */
  lemma MessageTaken(raw: Text) returns (number: int)
    requires M.Deserialize(raw).Some?
    ensures M.Deserialize(raw).value.command == number % 256
    ensures ReadObject(raw) == Some(map[
              Ascii("command") := Num(number),
              Ascii("content") := Str(M.Deserialize(raw).value.content),
              Ascii("sender_name") := Str(M.Deserialize(raw).value.senderName),
              Ascii("time_stamp") := Num(M.Deserialize(raw).value.timestamp)
            ])
  {
    hide M.Deserialize, M.CommandKey, ReadObject, Ascii, M.AfterKey;
    MessageRead(raw);
    number := M.AfterKey(M.CommandKey(), raw).value.0;
  }

  // ----- the field of a picture -----

  lemma PixelsText()
    ensures Picture.OpenObject() == [OPEN, QUOTE] + Ascii("base64_pixels") + [QUOTE, COLON, QUOTE]
    ensures PlainName(Ascii("base64_pixels")) && Picture.CloseObject()[1..] == [CLOSE]
  {
  }

  lemma PixelsStart(t: Text)
    ensures Picture.OpenObject() + t == [OPEN] + Named(Ascii("base64_pixels"), [QUOTE] + t)
    ensures PlainName(Ascii("base64_pixels"))
    ensures Picture.CloseObject() != [] && Picture.CloseObject()[1..] == [CLOSE]
  {
    hide Ascii, Picture.OpenObject, Named, PlainName;
    PixelsText();
    StringText(OPEN, Ascii("base64_pixels"), t);
  }

  /** Whatever is taken for a picture is an object of one field. */
  lemma PictureTaken(content: Text) returns (encoded: Text)
    requires Picture.Pixels(content).Some?
    ensures ReadObject(content) == Some(map[Ascii("base64_pixels") := Str(encoded)])
    ensures Picture.Pixels(content) == Some(Base64.DecodeSpec(encoded))
  {
    hide Picture.OpenObject, Picture.CloseObject, Base64.DecodeSpec, Expect, Scan, ReadMember, ReadMembers, ReadObject,
         Named, Ascii, PlainName;
    Picture.ObjectShapes();
    var s := Expect(Picture.OpenObject(), content).value;
    encoded := Scan(s).value.0;
    PixelsStart(s);
    ExpectedText(Picture.OpenObject(), content);
    StringMember(Ascii("base64_pixels"), s);
    var p := Named(Ascii("base64_pixels"), [QUOTE] + s);
    LastMember(map[], p);
    ObjectStart(p);
  }

  /** Pixels are written as the object of that field, which holds their Base64 text. */
  lemma PictureWritten(pixels: Text)
    ensures Picture.Content(pixels).Some?
    ensures ReadObject(Picture.Content(pixels).value)
         == Some(map[Ascii("base64_pixels") := Str(Base64.EncodeSpec(pixels))])
  {
    hide Picture.OpenObject, Picture.CloseObject, Base64.EncodeSpec, Expect, Scan, Escape, ReadMember, ReadMembers,
         ReadObject, Named, Ascii, PlainName, ValidUtf8;
    Picture.ObjectShapes();
    var encoded := Base64.EncodeSpec(pixels);
    Picture.EncodingPlain(pixels);
    Picture.PlainIsValid(encoded);
    var close := Picture.CloseObject()[1..];
    StringRoundTrip(encoded, close);
    var s := Escape(encoded).value + ([QUOTE] + close);
    PixelsStart(s);
    StringMember(Ascii("base64_pixels"), s);
    var p := Named(Ascii("base64_pixels"), [QUOTE] + s);
    LastMember(map[], p);
    ObjectStart(p);
  }

  // ----- the commands -----

  /** The numbers of the enumerators. */
  lemma CommandNumbers()
    ensures M.LOGIN_REQUEST == 0 && M.REGISTER_REQUEST == 1 && M.LOGIN_RESPONSE_REJECT == 2
    ensures M.LOGIN_RESPONSE_ACCEPT == 3 && M.CHAT_MESSAGE == 4 && M.USER_JOINED == 5 && M.USER_LEFT == 6
    ensures M.SERVER_KICK_REQUEST == 7 && M.PROFILE_PICTURE == 8
  {
  }

  // ----- a whole text -----

  lemma {:induction false} PlainEscapes(name: Text)
    requires PlainName(name)
    ensures Escape(name) == Some(name)
  {
    if name != [] {
      PlainEscapes(name[1..]);
      assert name == [name[0]] + name[1..];
    }
  }

  lemma ChatPieces()
    ensures M.CommandKey() + Ascii("4") == Ascii("{\"command\":4")
    ensures M.ContentKey() + Ascii("hi") == Ascii(",\"content\":\"hi")
    ensures M.SenderKey() + Ascii("alice") == Ascii("\",\"sender_name\":\"alice")
    ensures M.TimestampKey() + (Ascii("0") + M.CloseBrace()) == Ascii("\",\"time_stamp\":0}")
  {
  }

  /** The text of one chat message, key by key. */
  lemma ChatText()
    ensures M.Serialize(M.Message(M.CHAT_MESSAGE, Ascii("alice"), Ascii("hi"), 0))
         == Some(Ascii("{\"command\":4") + Ascii(",\"content\":\"hi") + Ascii("\",\"sender_name\":\"alice")
                 + Ascii("\",\"time_stamp\":0}"))
  {
    hide Escape, PrintInt, Ascii, M.CommandKey, M.ContentKey, M.SenderKey, M.TimestampKey, M.CloseBrace;
    PlainWords();
    PlainEscapes(Ascii("alice"));
    PlainEscapes(Ascii("hi"));
    ChatPieces();
    Reassociate(M.CommandKey(), Ascii("4"), M.ContentKey(), Ascii("hi"), M.SenderKey(), Ascii("alice"),
                M.TimestampKey() + (Ascii("0") + M.CloseBrace()));
  }

  lemma Reassociate(a: Text, b: Text, c: Text, d: Text, e: Text, f: Text, g: Text)
    ensures a + (b + (c + (d + (e + (f + g))))) == (a + b) + (c + d) + (e + f) + g
  {
  }

  lemma PlainWords()
    ensures PlainName(Ascii("alice")) && PlainName(Ascii("hi"))
    ensures PrintInt(4) == Ascii("4") && PrintInt(0) == Ascii("0")
  {
  }
}
