/** Profile pictures on the wire: the pixels in Base64 inside a one-field JSON object. */
module Picture {
  import opened Bytes
  import opened Json
  import Base64
  import Common

  function OpenObject(): Text { Ascii("{\"base64_pixels\":\"") }
  function CloseObject(): Text { Ascii("\"}") }

  /** The content field the client and the server send for a picture. */
  function Content(pixels: Text): Option<Text> {
    var escaped :- Escape(Base64.EncodeSpec(pixels));
    Some(OpenObject() + (escaped + CloseObject()))
  }

  /** Reading such a content field; `None` stands for the JSON library's exceptions. */
  function Pixels(content: Text): Option<Text> {
    var s :- Expect(OpenObject(), content);
    var (encoded, rest) :- Scan(s);
    if rest == CloseObject()[1..] then Some(Base64.DecodeSpec(encoded)) else None
  }

  ghost predicate Plain(s: Text) {
    forall i :: 0 <= i < |s| ==> 0x20 <= s[i] < 0x80
  }

  lemma {:induction false} LettersPlain(vs: seq<nat>)
    requires Base64.Below(vs, 64)
    ensures Plain(Base64.Letters(vs))
  {
    if vs != [] {
      LettersPlain(vs[1..]);
    }
  }

  lemma EncodingPlain(pixels: Text)
    ensures Plain(Base64.EncodeSpec(pixels))
  {
    hide Base64.FilledBits, Base64.Letters, Base64.Regroup;
    assert Common.Pow2(6) == 64;
    LettersPlain(Base64.Regroup(Base64.FilledBits(pixels), 6));
  }

  lemma {:induction false} PlainIsValid(s: Text)
    requires Plain(s)
    ensures ValidUtf8(s)
  {
    if s != [] {
      PlainIsValid(s[1..]);
    }
  }

  /** Escaping keeps a text within the printable and plain bytes. */
  lemma {:induction false} EscapePlain(s: Text)
    requires Plain(s)
    ensures Escape(s).Some? && Plain(Escape(s).value)
  {
    if s != [] {
      EscapePlain(s[1..]);
      assert Plain(EscapeByte(s[0]));
    }
  }

  lemma ContentPlain(pixels: Text)
    ensures Content(pixels).Some? && Plain(Content(pixels).value)
  {
    hide Base64.EncodeSpec, Escape, OpenObject, CloseObject;
    EncodingPlain(pixels);
    EscapePlain(Base64.EncodeSpec(pixels));
    ObjectShapes();
  }

  /** Any pixels survive the trip; the content has no NUL byte, so a C string copy of it is complete. */
  lemma PictureRoundTrip(pixels: Text)
    ensures Content(pixels).Some? && Pixels(Content(pixels).value) == Some(pixels)
    ensures NulFree(Content(pixels).value) && Content(pixels).value != []
  {
    hide Base64.EncodeSpec, Base64.DecodeSpec, Escape, Scan, Expect, ValidUtf8, OpenObject, CloseObject;
    ObjectShapes();
    var encoded := Base64.EncodeSpec(pixels);
    var close := CloseObject()[1..];
    EncodingPlain(pixels);
    PlainIsValid(encoded);
    StringRoundTrip(encoded, close);
    ExpectRoundTrip(OpenObject(), Escape(encoded).value + CloseObject());
    Base64.RoundTrip(pixels);
    ContentPlain(pixels);
  }

  lemma ObjectShapes()
    ensures CloseObject() != [] && CloseObject() == [QUOTE] + CloseObject()[1..]
    ensures OpenObject() != [] && Plain(OpenObject()) && Plain(CloseObject())
  {
  }
}
