/** What holds over whole sequences of database requests. */
module StoreRuns {
  import opened Bytes
  import opened User
  import opened Store
  import opened StoreRefinement
  import PasswordHasher
  import Picture

  datatype Folded = Folded(tables: Tables, responses: seq<Response>, requeued: seq<Request>, threw: bool)

  /** Handling requests in order; an exception ends the worker. */
  function HandleAll(t: Tables, rs: seq<Request>): Folded
    decreases |rs|
  {
    if rs == [] then Folded(t, [], [], false)
    else
      var o := Handle(t, rs[0]);
      if o.threw then Folded(o.tables, o.responses, o.requeued, true)
      else
        var f := HandleAll(o.tables, rs[1..]);
        Folded(f.tables, o.responses + f.responses, o.requeued + f.requeued, f.threw)
  }

  datatype BookFolded = BookFolded(book: Book, responses: seq<Response>, requeued: seq<Request>, threw: bool)

  function BookHandleAll(b: Book, rs: seq<Request>): BookFolded
    decreases |rs|
  {
    if rs == [] then BookFolded(b, [], [], false)
    else
      var o := BookHandle(b, rs[0]);
      if o.threw then BookFolded(o.book, o.responses, o.requeued, true)
      else
        var f := BookHandleAll(o.book, rs[1..]);
        BookFolded(f.book, o.responses + f.responses, o.requeued + f.requeued, f.threw)
  }

  lemma EmptyTables()
    ensures WellFormed(EMPTY) && BookOf(EMPTY) == Book(map[], [])
  {
  }

  /** Over every request sequence the tables stay well-formed and behave like the book. */
  lemma {:induction false} RunRefines(t: Tables, rs: seq<Request>)
    requires WellFormed(t)
    ensures var f, g := HandleAll(t, rs), BookHandleAll(BookOf(t), rs);
      && WellFormed(f.tables) && BookOf(f.tables) == g.book
      && f.responses == g.responses && f.requeued == g.requeued && f.threw == g.threw
    decreases |rs|
  {
    hide WellFormed, BookOf, Handle, BookHandle;
    if rs != [] {
      HandleRefines(t, rs[0]);
      RunRefines(Handle(t, rs[0]).tables, rs[1..]);
    }
  }

  // ----- join answers -----

  predicate IsJoin(r: Request) { r.Login? || r.Register? }

  function JoinOf(r: Request): seq<(Text, bool)> {
    if IsJoin(r) then [(CStr(r.user.username), r.Register?)] else []
  }

  /** The names of the joins, in order, with their kind. */
  function Joins(rs: seq<Request>): seq<(Text, bool)>
    decreases |rs|
  {
    if rs == [] then []
    else JoinOf(rs[0]) + Joins(rs[1..])
  }

  function Answers(responses: seq<Response>): seq<(Text, bool)>
    decreases |responses|
  {
    if responses == [] then []
    else
      var r := responses[0];
      (if r.kind.USER_PROFILE_PICTURE? then [] else [(r.username, r.kind.REGISTER_SUCCESS? || r.kind.REGISTER_FAIL?)])
        + Answers(responses[1..])
  }

  lemma {:induction false} AnswersConcat(a: seq<Response>, b: seq<Response>)
    ensures Answers(a + b) == Answers(a) + Answers(b)
    decreases |a|
  {
    if a == [] {
      assert a + b == b;
    } else {
      assert (a + b)[1..] == a[1..] + b;
      AnswersConcat(a[1..], b);
    }
  }

  lemma AnswersOne(r: Response)
    ensures Answers([r]) ==
      if r.kind.USER_PROFILE_PICTURE? then [] else [(r.username, r.kind.REGISTER_SUCCESS? || r.kind.REGISTER_FAIL?)]
  {
  }

  /** One request: a join gets exactly one answer, of its kind and under its name; nothing else gets one. */
  lemma HandleAnswers(t: Tables, r: Request)
    ensures Answers(Handle(t, r).responses) == Joins([r])
    ensures forall i :: 0 <= i < |Handle(t, r).requeued| ==> Handle(t, r).requeued[i].GetPicture?
    ensures IsJoin(r) ==> !Handle(t, r).threw
  {
    hide Reason, LoginError, GetUserId, AddUser, AddMessage, AddPicture, Picture.Pixels, PictureContent, CStr;
    var o := Handle(t, r);
    assert [r][1..] == [];
    if o.responses != [] {
      assert o.responses == [o.responses[0]];
      AnswersOne(o.responses[0]);
    }
    match r
    case Login(_) =>
    case Register(_) =>
    case SaveMessage(_) =>
    case SavePicture(_, _) =>
    case GetPicture(_, _) =>
    case Shutdown =>
  }

  /** Exactly one answer per join, in request order. */
  lemma {:induction false} OneAnswerPerJoin(t: Tables, rs: seq<Request>)
    requires !HandleAll(t, rs).threw
    ensures Answers(HandleAll(t, rs).responses) == Joins(rs)
    ensures forall r :: r in HandleAll(t, rs).requeued ==> r.GetPicture?
    decreases |rs|
  {
    hide Handle;
    if rs != [] {
      var o := Handle(t, rs[0]);
      HandleAnswers(t, rs[0]);
      OneAnswerPerJoin(o.tables, rs[1..]);
      AnswersConcat(o.responses, HandleAll(o.tables, rs[1..]).responses);
      assert [rs[0]][1..] == [];
    }
  }

  // ----- accounts never change their password, pictures only by a save -----

  lemma {:induction false} PasswordKept(b: Book, rs: seq<Request>, name: Text)
    requires name in b.accounts
    ensures name in BookHandleAll(b, rs).book.accounts
    ensures BookHandleAll(b, rs).book.accounts[name].password == b.accounts[name].password
    decreases |rs|
  {
    hide BookLogin, Reason, PasswordHasher.HashOf, Picture.Pixels;
    if rs != [] {
      PasswordKept(BookHandle(b, rs[0]).book, rs[1..], name);
    }
  }

  ghost predicate Saves(r: Request, name: Text) {
    r.SavePicture? && CStr(r.user.username) == name && r.content != []
  }

  lemma {:induction false} PictureKept(b: Book, rs: seq<Request>, name: Text)
    requires name in b.accounts
    requires forall i :: 0 <= i < |rs| ==> !Saves(rs[i], name)
    ensures name in BookHandleAll(b, rs).book.accounts
    ensures BookHandleAll(b, rs).book.accounts[name].picture == b.accounts[name].picture
    decreases |rs|
  {
    hide BookLogin, Reason, PasswordHasher.HashOf, Picture.Pixels;
    if rs != [] {
      PictureKept(BookHandle(b, rs[0]).book, rs[1..], name);
    }
  }

  /** What a request does to an account's picture: only a save under the name, of pixels, replaces it. */
  lemma PictureAfter(b: Book, r: Request, name: Text)
    requires name in b.accounts
    ensures name in BookHandle(b, r).book.accounts
    ensures BookHandle(b, r).book.accounts[name].picture ==
      if Saves(r, name) && Picture.Pixels(r.content) !in {None, Some([])} then Picture.Pixels(r.content)
      else b.accounts[name].picture
  {
    hide BookLogin, Reason, PasswordHasher.HashOf, Picture.Pixels, CStr;
  }

  predicate Accepts(t: Tables, user: User) {
    exists r :: r in Handle(t, Login(user)).responses && r.kind == LOGIN_SUCCESS
  }

  predicate Registers(t: Tables, user: User) {
    exists r :: r in Handle(t, Register(user)).responses && r.kind == REGISTER_SUCCESS
  }

  /** A save does not ask for the password: a user whose login is refused replaces the account's picture too. */
  lemma RefusedSaves(t: Tables, user: User, content: Text, pixels: Text)
    requires WellFormed(t) && CStr(user.username) in BookOf(t).accounts && !Accepts(t, user)
    requires content != [] && Picture.Pixels(content) == Some(pixels) && pixels != []
    ensures var r := Handle(t, SavePicture(user, content)).tables;
      CStr(user.username) in BookOf(r).accounts && BookOf(r).accounts[CStr(user.username)].picture == Some(pixels)
  {
    hide WellFormed, BookOf, Handle, BookHandle, Picture.Pixels, CStr, Accepts;
    HandleRefines(t, SavePicture(user, content));
    PictureAfter(BookOf(t), SavePicture(user, content), CStr(user.username));
  }

  /**
   * After a successful registration, whatever happens in between, a login under the name succeeds exactly if
   * the login password, read as a C string, hashes like the registered password.
   */
  lemma LoginAfterRegister(t: Tables, user: User, between: seq<Request>, login: User)
    requires WellFormed(t) && Registers(t, user)
    requires CStr(login.username) == CStr(user.username)
    ensures var later := HandleAll(Handle(t, Register(user)).tables, between).tables;
      Accepts(later, login) <==> PasswordHasher.HashOf(CStr(login.password)) == PasswordHasher.HashOf(user.password)
  {
    hide WellFormed, BookOf, Handle, HandleAll, BookHandleAll, PasswordHasher.HashOf, Reason;
    var name := CStr(user.username);
    var o := Handle(t, Register(user));
    HandleRefines(t, Register(user));
    RunRefines(o.tables, between);
    PasswordKept(BookOf(o.tables), between, name);
    var later := HandleAll(o.tables, between).tables;
    HandleRefines(later, Login(login));
  }

  /** So a password without a NUL byte logs in for ever, and one changed in up to three neighbouring bytes never. */
  lemma RegisteredPasswordWorks(t: Tables, user: User, between: seq<Request>)
    requires WellFormed(t) && Registers(t, user) && NulFree(user.password)
    ensures Accepts(HandleAll(Handle(t, Register(user)).tables, between).tables, user)
  {
    hide WellFormed, Registers, Accepts, Handle, HandleAll, PasswordHasher.HashOf;
    LoginAfterRegister(t, user, between, user);
  }

  lemma ChangedPasswordFails(t: Tables, name: Text, p: Text, v: Text, w: Text, s: Text, between: seq<Request>)
    requires |v| == |w| <= 3 && v != w
    requires NulFree(p + w + s)
    requires WellFormed(t) && Registers(t, User(name, p + v + s))
    ensures !Accepts(HandleAll(Handle(t, Register(User(name, p + v + s))).tables, between).tables,
                     User(name, p + w + s))
  {
    hide WellFormed, Registers, Accepts, Handle, HandleAll, PasswordHasher.HashOf;
    LoginAfterRegister(t, User(name, p + v + s), between, User(name, p + w + s));
    PasswordHasher.LocalChangeChangesHash(p, v, w, s);
  }

  /** With a NUL byte in the password the same login can be refused: registration hashes the bytes after it too. */
  lemma NulPasswordWitness(name: Text)
    ensures var user := User(name, [NUL]);
      Registers(EMPTY, user) && !Accepts(Handle(EMPTY, Register(user)).tables, user)
  {
    hide WellFormed, BookOf, PasswordHasher.HashOf, Reason;
    var user := User(name, [NUL]);
    EmptyTables();
    assert Handle(EMPTY, Register(user)).responses == [Response(CStr(name), [], [], REGISTER_SUCCESS)];
    assert Response(CStr(name), [], [], REGISTER_SUCCESS) in Handle(EMPTY, Register(user)).responses;
    LoginAfterRegister(EMPTY, user, [], user);
    assert HandleAll(Handle(EMPTY, Register(user)).tables, []).tables == Handle(EMPTY, Register(user)).tables;
    PasswordHasher.CutPasswordWitness();
  }
}
