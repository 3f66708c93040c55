/** A profile picture on its whole way: client, wire, server, database, and back to a requester. */
module PictureFidelity {
  import opened Bytes
  import opened User
  import opened Store
  import opened StoreRefinement
  import opened StoreRuns
  import opened Json
  import M = Message
  import Picture
  import ServerSystem
  import Session

  lemma CStrStep(s: Text)
    requires s != [] && s[0] != NUL
    ensures CStr(s) == [s[0]] + CStr(s[1..])
  {
  }

  lemma {:induction false} CStrSkip(a: Text, b: Text)
    requires NulFree(a)
    ensures CStr(a + b) == a + CStr(b)
  {
    hide CStr;
    if a == [] {
      assert a + b == b && a + CStr(b) == CStr(b);
    } else {
      assert (a + b)[1..] == a[1..] + b && (a + b)[0] == a[0];
      CStrStep(a + b);
      CStrSkip(a[1..], b);
      assert a == [a[0]] + a[1..];
    }
  }

  /** Cutting well-formed UTF-8 at a NUL byte leaves well-formed UTF-8. */
  lemma {:induction false} CStrValid(s: Text)
    requires ValidUtf8(s)
    ensures ValidUtf8(CStr(s))
    decreases |s|
  {
    hide CharLen, CStr;
    if s != [] && s[0] != NUL {
      var k := CharLen(s);
      if k == 1 {
        assert s[..1] == [s[0]];
      } else {
        CharLenWide(s);
      }
      assert s == s[..k] + s[k..];
      CStrSkip(s[..k], s[k..]);
      CStrValid(s[k..]);
      CharLenPrefix(s, CStr(s[k..]));
      assert CStr(s)[k..] == CStr(s[k..]);
    } else {
      CStrEmpty(s);
    }
  }

  lemma CStrEmpty(s: Text)
    requires s == [] || s[0] == NUL
    ensures CStr(s) == []
  {
  }

  /** What the client sends for its pixels arrives at the database as it was. */
  lemma PictureArrives(user: User, pixels: Text, now: M.Int64)
    requires ValidUtf8(user.username)
    ensures Picture.Content(pixels).Some?
    ensures var m := M.Message(M.PROFILE_PICTURE, user.username, Picture.Content(pixels).value, now);
      && M.Serialize(m).Some? && M.Deserialize(M.Serialize(m).value) == Some(m)
      && Session.React(user, m, M.Serialize(m).value) == (user, [Session.PictureSent(user, m.content)])
      && CStr(m.content) == m.content && m.content != [] && Picture.Pixels(m.content) == Some(pixels)
  {
    hide M.Serialize, M.Deserialize, ValidUtf8, Picture.Content, Picture.Pixels;
    Picture.PictureRoundTrip(pixels);
    Picture.ContentPlain(pixels);
    Picture.PlainIsValid(Picture.Content(pixels).value);
    M.MessageRoundTrip(M.Message(M.PROFILE_PICTURE, user.username, Picture.Content(pixels).value, now));
  }

  lemma BookSaves(b: Book, user: User, content: Text, pixels: Text)
    requires CStr(user.username) in b.accounts && content != [] && Picture.Pixels(content) == Some(pixels)
    requires pixels != []
    ensures var o := BookHandle(b, SavePicture(user, content));
      && !o.threw && CStr(user.username) in o.book.accounts
      && o.book.accounts[CStr(user.username)].picture == Some(pixels)
  {
    hide CStr, Picture.Pixels;
  }

  lemma BookFinds(b: Book, target: User, requester: Text, pixels: Text)
    requires CStr(target.username) in b.accounts && b.accounts[CStr(target.username)].picture == Some(pixels)
    ensures BookHandle(b, GetPicture(target, requester)).responses
      == [Response(CStr(target.username), pixels, requester, USER_PROFILE_PICTURE)]
  {
    hide CStr;
  }

  /** A saved picture is what every later lookup finds, until the user saves another one. */
  lemma SavedPictureIsFound(t: Tables, user: User, content: Text, pixels: Text, between: seq<Request>, target: User,
                            requester: Text)
    requires WellFormed(t) && CStr(user.username) in BookOf(t).accounts
    requires content != [] && Picture.Pixels(content) == Some(pixels) && pixels != []
    requires forall i :: 0 <= i < |between| ==> !Saves(between[i], CStr(user.username))
    requires CStr(target.username) == CStr(user.username)
    ensures var saved := Handle(t, SavePicture(user, content));
      var later := HandleAll(saved.tables, between).tables;
      && !saved.threw
      && Handle(later, GetPicture(target, requester)).responses
           == [Response(CStr(user.username), pixels, requester, USER_PROFILE_PICTURE)]
  {
    hide WellFormed, BookOf, Handle, BookHandle, HandleAll, BookHandleAll, CStr, Picture.Pixels, Saves;
    var name := CStr(user.username);
    var saved := Handle(t, SavePicture(user, content));
    HandleRefines(t, SavePicture(user, content));
    BookSaves(BookOf(t), user, content, pixels);
    RunRefines(saved.tables, between);
    PictureKept(BookOf(saved.tables), between, name);
    var later := HandleAll(saved.tables, between).tables;
    HandleRefines(later, GetPicture(target, requester));
    BookFinds(BookOf(later), target, requester, pixels);
  }

  /** What the server makes of the response carries the pixels to the requester. */
  lemma PictureDelivered(name: Text, pixels: Text, requester: Text, now: M.Int64)
    requires ValidUtf8(name)
    ensures var out := ServerSystem.PictureMessage(Response(name, pixels, requester, USER_PROFILE_PICTURE), now);
      && out.command == M.PROFILE_PICTURE && out.senderName == name && Picture.Pixels(out.content) == Some(pixels)
      && M.Serialize(out).Some? && M.Deserialize(M.Serialize(out).value) == Some(out)
  {
    hide M.Serialize, M.Deserialize, ValidUtf8, Picture.Content, Picture.Pixels;
    Picture.PictureRoundTrip(pixels);
    Picture.ContentPlain(pixels);
    Picture.PlainIsValid(Picture.Content(pixels).value);
    M.MessageRoundTrip(M.Message(M.PROFILE_PICTURE, name, Picture.Content(pixels).value, now));
  }

  /**
   * The pixels a registered client sends come back byte for byte to whoever asks, after any requests among which
   * the user saves no other picture: the text on the wire is parsed back, saved, looked up, sent and parsed again.
   */
  lemma PixelsComeBack(t: Tables, user: User, pixels: Text, between: seq<Request>, target: User, requester: Text,
                       now1: M.Int64, now2: M.Int64)
    requires WellFormed(t) && CStr(user.username) in BookOf(t).accounts && ValidUtf8(user.username)
    requires pixels != []
    requires forall i :: 0 <= i < |between| ==> !Saves(between[i], CStr(user.username))
    requires CStr(target.username) == CStr(user.username)
    ensures Picture.Content(pixels).Some?
    ensures var sent := M.Message(M.PROFILE_PICTURE, user.username, Picture.Content(pixels).value, now1);
      M.Serialize(sent).Some? && M.Deserialize(M.Serialize(sent).value) == Some(sent)
    ensures var saved := Handle(t, SavePicture(user, CStr(Picture.Content(pixels).value)));
      var later := HandleAll(saved.tables, between).tables;
      var responses := Handle(later, GetPicture(target, requester)).responses;
      && |responses| == 1
      && var out := ServerSystem.PictureMessage(responses[0], now2);
         M.Serialize(out).Some? && var back := M.Deserialize(M.Serialize(out).value);
           && back.Some? && back.value.command == M.PROFILE_PICTURE && back.value.senderName == CStr(user.username)
           && Picture.Pixels(back.value.content) == Some(pixels)
  {
    hide WellFormed, BookOf, Handle, HandleAll, M.Serialize, M.Deserialize, ValidUtf8, Picture.Content, Picture.Pixels,
      CStr, Saves, ServerSystem.PictureMessage, Session.React;
    PictureArrives(user, pixels, now1);
    SavedPictureIsFound(t, user, Picture.Content(pixels).value, pixels, between, target, requester);
    CStrValid(user.username);
    PictureDelivered(CStr(user.username), pixels, requester, now2);
  }
}
