/** The tables behave like one map from usernames to accounts, and a log of messages. */
module StoreRefinement {
  import opened Bytes
  import opened User
  import opened Store
  import M = Message
  import PasswordHasher
  import Picture

  // ----- the abstract store -----

  datatype Account = Account(password: Text, picture: Option<Text>)

  datatype Entry = Entry(sender: Text, content: Text, timestamp: M.Int64)

  datatype Book = Book(accounts: map<Text, Account>, log: seq<Entry>)

  datatype BookOutcome = BookOutcome(book: Book, responses: seq<Response>, requeued: seq<Request>, threw: bool)

  function BookLogin(b: Book, user: User): Response {
    var name := CStr(user.username);
    if name !in b.accounts then
      Response(name, Reason(user.username, " could not be found"), [], LOGIN_FAIL)
    else if b.accounts[name].password == PasswordHasher.HashOf(CStr(user.password)) then
      Response(name, [], [], LOGIN_SUCCESS)
    else Response(name, Reason(user.username, " password does not match"), [], LOGIN_FAIL)
  }

  function BookHandle(b: Book, request: Request): BookOutcome {
    match request
    case Login(user) => BookOutcome(b, [BookLogin(b, user)], [], false)
    case Register(user) =>
      var name := CStr(user.username);
      if name in b.accounts then
        BookOutcome(b, [Response(name, Reason(user.username, " already exist"), [], REGISTER_FAIL)], [], false)
      else
        var accounts := b.accounts[name := Account(PasswordHasher.HashOf(user.password), None)];
        BookOutcome(b.(accounts := accounts), [Response(name, [], [], REGISTER_SUCCESS)], [], false)
    case SaveMessage(m) =>
      var name := CStr(m.senderName);
      if name !in b.accounts then BookOutcome(b, [], [], false)
      else BookOutcome(b.(log := b.log + [Entry(name, CStr(m.content), m.timestamp)]), [], [], false)
    case SavePicture(user, content) =>
      var name := CStr(user.username);
      if content == [] then BookOutcome(b, [], [GetPicture(user, name)], false)
      else if name !in b.accounts then BookOutcome(b, [], [], false)
      else if Picture.Pixels(content).None? then BookOutcome(b, [], [], true)
      else if Picture.Pixels(content) == Some([]) then BookOutcome(b, [], [], false)
      else
        var account := b.accounts[name].(picture := Picture.Pixels(content));
        BookOutcome(b.(accounts := b.accounts[name := account]), [], [], false)
    case GetPicture(target, requester) =>
      var name := CStr(target.username);
      if name !in b.accounts || b.accounts[name].picture.None? then BookOutcome(b, [], [], false)
      else
        var pixels := b.accounts[name].picture.value;
        BookOutcome(b, [Response(name, pixels, requester, USER_PROFILE_PICTURE)], [], false)
    case Shutdown => BookOutcome(b, [], [], false)
  }

  // ----- the tables' invariant and what they stand for -----

  ghost predicate DistinctUsers(users: seq<UserRow>) {
    forall i, j :: 0 <= i < j < |users| ==> users[i].username != users[j].username && users[i].id != users[j].id
  }

  ghost predicate HasUser(users: seq<UserRow>, id: nat) {
    exists i :: 0 <= i < |users| && users[i].id == id
  }

  ghost predicate OnePictureEach(pictures: seq<PictureRow>) {
    forall i, j :: 0 <= i < j < |pictures| ==> pictures[i].userId != pictures[j].userId
  }

  /**
   * Usernames and ids are distinct although the schema only makes the ids unique; every message and every
   * picture belongs to an existing user; no user has two pictures.
   */
  ghost predicate WellFormed(t: Tables) {
    && DistinctUsers(t.users)
    && (forall i :: 0 <= i < |t.users| ==> t.users[i].id < t.nextUser)
    && (forall i :: 0 <= i < |t.messages| ==> HasUser(t.users, t.messages[i].userId))
    && (forall i :: 0 <= i < |t.pictures| ==> HasUser(t.users, t.pictures[i].userId))
    && OnePictureEach(t.pictures)
  }

  function Names(users: seq<UserRow>): set<Text> {
    set i | 0 <= i < |users| :: users[i].username
  }

  /** The name behind an id. */
  function NameOf(users: seq<UserRow>, id: nat): Text {
    if users == [] then [] else if users[0].id == id then users[0].username else NameOf(users[1..], id)
  }

  function AccountOf(t: Tables, name: Text): Account {
    match UserId(t.users, name)
    case None => Account([], None)
    case Some(id) =>
      Account(match Password(t.users, id) case None => [] case Some(p) => p, PictureContent(t.pictures, id))
  }

  function EntryOf(users: seq<UserRow>, row: MessageRow): Entry {
    Entry(NameOf(users, row.userId), row.content, row.timestamp)
  }

  function BookOf(t: Tables): Book {
    Book(map name | name in Names(t.users) :: AccountOf(t, name),
         seq(|t.messages|, i requires 0 <= i < |t.messages| => EntryOf(t.users, t.messages[i])))
  }

  // ----- queries on well-formed tables -----

  lemma {:induction false} UserIdFinds(users: seq<UserRow>, name: Text)
    ensures UserId(users, name).Some? <==> name in Names(users)
    ensures UserId(users, name).Some? ==>
      exists i :: 0 <= i < |users| && users[i].username == name && UserId(users, name) == Some(users[i].id)
  {
    if users != [] {
      UserIdFinds(users[1..], name);
      assert users == [users[0]] + users[1..];
    }
  }

  lemma {:induction false} RowQueries(users: seq<UserRow>, i: nat)
    requires DistinctUsers(users) && i < |users|
    ensures UserId(users, users[i].username) == Some(users[i].id)
    ensures Password(users, users[i].id) == Some(users[i].password)
    ensures NameOf(users, users[i].id) == users[i].username
  {
    if i > 0 {
      RowQueries(users[1..], i - 1);
    }
  }

  lemma {:induction false} UserIdAppend(users: seq<UserRow>, row: UserRow, name: Text)
    ensures UserId(users + [row], name)
         == if UserId(users, name).Some? then UserId(users, name)
            else if row.username == name then Some(row.id) else None
  {
    if users != [] {
      UserIdAppend(users[1..], row, name);
      assert (users + [row])[1..] == users[1..] + [row];
    }
  }

  lemma {:induction false} RowAppend(users: seq<UserRow>, row: UserRow, id: nat)
    ensures HasUser(users, id) ==> Password(users + [row], id) == Password(users, id)
    ensures HasUser(users, id) ==> NameOf(users + [row], id) == NameOf(users, id)
    ensures !HasUser(users, row.id) ==> Password(users + [row], row.id) == Some(row.password)
  {
    if users != [] {
      RowAppend(users[1..], row, id);
      assert (users + [row])[1..] == users[1..] + [row];
      assert HasUser(users[1..], row.id) ==> HasUser(users, row.id) by {
        if HasUser(users[1..], row.id) {
          var i :| 0 <= i < |users[1..]| && users[1..][i].id == row.id;
          assert users[i + 1].id == row.id;
        }
      }
      if HasUser(users, id) && users[0].id != id {
        var i :| 0 <= i < |users| && users[i].id == id;
        assert users[1..][i - 1].id == id;
      }
      if users[0].id == row.id {
        assert HasUser(users, row.id);
      }
    }
  }

  lemma {:induction false} NoPicture(pictures: seq<PictureRow>, userId: nat)
    requires forall i :: 0 <= i < |pictures| ==> pictures[i].userId != userId
    ensures PictureContent(pictures, userId) == None
  {
    if pictures != [] {
      NoPicture(pictures[1..], userId);
    }
  }

  /** REPLACE: the user's picture is the new one, everybody else keeps theirs, and still one row each. */
  lemma {:induction false} ReplacePicture(pictures: seq<PictureRow>, row: PictureRow, userId: nat)
    requires OnePictureEach(pictures)
    ensures var r := WithoutUser(pictures, row.userId) + [row];
      && PictureContent(r, userId)
           == (if userId == row.userId then Some(row.content) else PictureContent(pictures, userId))
      && OnePictureEach(r)
      && (forall i :: 0 <= i < |r| ==> r[i] == row || (r[i] in pictures && r[i].userId != row.userId))
  {
    if pictures != [] {
      var rest := WithoutUser(pictures[1..], row.userId) + [row];
      ReplacePicture(pictures[1..], row, userId);
      if pictures[0].userId == row.userId {
        assert WithoutUser(pictures, row.userId) + [row] == rest;
      } else {
        assert WithoutUser(pictures, row.userId) + [row] == [pictures[0]] + rest;
        assert ([pictures[0]] + rest)[1..] == rest;
      }
    }
  }

  // ----- the refinement, request by request -----

  lemma BookFacts(t: Tables, name: Text)
    ensures name in BookOf(t).accounts <==> UserId(t.users, name).Some?
    ensures name in BookOf(t).accounts ==> BookOf(t).accounts[name] == AccountOf(t, name)
  {
    UserIdFinds(t.users, name);
  }

  /** The account found under a name is the row of that name. */
  lemma FoundRow(t: Tables, name: Text)
    requires WellFormed(t) && UserId(t.users, name).Some?
    ensures HasUser(t.users, UserId(t.users, name).value)
    ensures Password(t.users, UserId(t.users, name).value) == Some(AccountOf(t, name).password)
    ensures NameOf(t.users, UserId(t.users, name).value) == name
  {
    UserIdFinds(t.users, name);
    var i :| 0 <= i < |t.users| && t.users[i].username == name && UserId(t.users, name) == Some(t.users[i].id);
    RowQueries(t.users, i);
  }

  ghost predicate Agree(o: Outcome, b: BookOutcome) {
    && WellFormed(o.tables) && BookOf(o.tables) == b.book
    && o.responses == b.responses && o.requeued == b.requeued && o.threw == b.threw
  }

  lemma LoginRefines(t: Tables, user: User)
    requires WellFormed(t)
    ensures Agree(Handle(t, Login(user)), BookHandle(BookOf(t), Login(user)))
  {
    hide WellFormed, BookOf, UserId, Password, AccountOf, PasswordHasher.HashOf, Reason;
    var name := CStr(user.username);
    BookFacts(t, name);
    if UserId(t.users, name).Some? {
      FoundRow(t, name);
    }
  }

  lemma OldIds(t: Tables)
    requires WellFormed(t)
    ensures !HasUser(t.users, t.nextUser)
    ensures PictureContent(t.pictures, t.nextUser) == None
  {
    NoPicture(t.pictures, t.nextUser);
  }

  lemma AddUserWellFormed(t: Tables, user: User)
    requires WellFormed(t) && UserId(t.users, CStr(user.username)).None?
    ensures WellFormed(AddUser(t, user))
  {
    hide UserId, PasswordHasher.HashOf;
    var t2 := AddUser(t, user);
    UserIdFinds(t.users, CStr(user.username));
    forall id | HasUser(t.users, id) ensures HasUser(t2.users, id) {
      var i :| 0 <= i < |t.users| && t.users[i].id == id;
      assert t2.users[i].id == id;
    }
  }

  lemma AddUserAccount(t: Tables, user: User, name: Text)
    requires WellFormed(t) && UserId(t.users, CStr(user.username)).None?
    ensures var t2 := AddUser(t, user);
      && (name in BookOf(t2).accounts <==> name in BookOf(t).accounts || name == CStr(user.username))
      && (name in BookOf(t2).accounts ==>
            BookOf(t2).accounts[name] == if name == CStr(user.username)
              then Account(PasswordHasher.HashOf(user.password), None) else BookOf(t).accounts[name])
  {
    hide WellFormed, BookOf, UserId, Password, PasswordHasher.HashOf;
    var t2 := AddUser(t, user);
    var row := t2.users[|t.users|];
    BookFacts(t, name);
    BookFacts(t2, name);
    UserIdAppend(t.users, row, name);
    OldIds(t);
    PasswordHasher.HashNulFree(user.password);
    if UserId(t.users, name).Some? {
      FoundRow(t, name);
      RowAppend(t.users, row, UserId(t.users, name).value);
    } else {
      RowAppend(t.users, row, row.id);
    }
  }

  lemma AddUserLog(t: Tables, user: User)
    requires WellFormed(t)
    ensures BookOf(AddUser(t, user)).log == BookOf(t).log
  {
    hide UserId, Password, PasswordHasher.HashOf, HasUser, NameOf;
    var t2 := AddUser(t, user);
    forall i | 0 <= i < |t.messages| ensures EntryOf(t2.users, t.messages[i]) == EntryOf(t.users, t.messages[i]) {
      RowAppend(t.users, t2.users[|t.users|], t.messages[i].userId);
    }
  }

  lemma RegisterRefines(t: Tables, user: User)
    requires WellFormed(t)
    ensures Agree(Handle(t, Register(user)), BookHandle(BookOf(t), Register(user)))
  {
    hide WellFormed, BookOf, UserId, AddUser, PasswordHasher.HashOf, Reason;
    var name := CStr(user.username);
    BookFacts(t, name);
    if UserId(t.users, name).None? {
      var t2 := AddUser(t, user);
      AddUserWellFormed(t, user);
      AddUserLog(t, user);
      var accounts := BookOf(t).accounts[name := Account(PasswordHasher.HashOf(user.password), None)];
      forall n ensures (n in BookOf(t2).accounts <==> n in accounts)
                && (n in accounts ==> BookOf(t2).accounts[n] == accounts[n])
      {
        AddUserAccount(t, user, n);
      }
      assert BookOf(t2).accounts == accounts;
    }
  }

  lemma SaveMessageRefines(t: Tables, m: M.Message)
    requires WellFormed(t)
    ensures Agree(Handle(t, SaveMessage(m)), BookHandle(BookOf(t), SaveMessage(m)))
  {
    hide UserId, Password, HasUser, NameOf, DistinctUsers;
    var name := CStr(m.senderName);
    BookFacts(t, name);
    if UserId(t.users, name).Some? {
      FoundRow(t, name);
      var t2 := AddMessage(t, m);
      assert forall n :: AccountOf(t2, n) == AccountOf(t, n);
      assert BookOf(t2).accounts == BookOf(t).accounts;
      assert BookOf(t2).log == BookOf(t).log + [EntryOf(t.users, t2.messages[|t.messages|])];
    }
  }

  lemma AddPictureAccount(t: Tables, id: nat, pixels: Text, name: Text, n: Text)
    requires WellFormed(t) && UserId(t.users, name) == Some(id)
    ensures var t2 := AddPicture(t, id, pixels);
      && (n in BookOf(t2).accounts <==> n in BookOf(t).accounts)
      && (n in BookOf(t2).accounts ==>
            BookOf(t2).accounts[n] == if n == name
              then BookOf(t).accounts[n].(picture := Some(pixels)) else BookOf(t).accounts[n])
  {
    hide BookOf, UserId, Password, WithoutUser, PictureContent, HasUser, DistinctUsers;
    var t2 := AddPicture(t, id, pixels);
    BookFacts(t, n);
    BookFacts(t2, n);
    if UserId(t.users, n).Some? {
      ReplacePicture(t.pictures, PictureRow(t.nextPicture, pixels, id), UserId(t.users, n).value);
      FoundRow(t, n);
      FoundRow(t, name);
    }
  }

  lemma AddPictureWellFormed(t: Tables, id: nat, pixels: Text)
    requires WellFormed(t) && HasUser(t.users, id)
    ensures WellFormed(AddPicture(t, id, pixels))
  {
    hide WithoutUser, HasUser, DistinctUsers;
    ReplacePicture(t.pictures, PictureRow(t.nextPicture, pixels, id), id);
  }

  lemma SavePictureRefines(t: Tables, user: User, content: Text)
    requires WellFormed(t)
    ensures Agree(Handle(t, SavePicture(user, content)), BookHandle(BookOf(t), SavePicture(user, content)))
  {
    hide WellFormed, BookOf, UserId, Picture.Pixels, AddPicture;
    var name := CStr(user.username);
    BookFacts(t, name);
    if UserId(t.users, name).Some? && content != [] && Picture.Pixels(content) !in {None, Some([])} {
      var id, pixels := UserId(t.users, name).value, Picture.Pixels(content).value;
      var t2 := AddPicture(t, id, pixels);
      FoundRow(t, name);
      AddPictureWellFormed(t, id, pixels);
      SameLog(t, id, pixels);
      var accounts := BookOf(t).accounts[name := BookOf(t).accounts[name].(picture := Some(pixels))];
      forall n ensures (n in BookOf(t2).accounts <==> n in accounts)
                && (n in accounts ==> BookOf(t2).accounts[n] == accounts[n])
      {
        AddPictureAccount(t, id, pixels, name, n);
      }
      assert BookOf(t2).accounts == accounts;
    }
  }

  lemma SameLog(t: Tables, id: nat, pixels: Text)
    ensures BookOf(AddPicture(t, id, pixels)).log == BookOf(t).log
  {
    hide WithoutUser, NameOf;
  }

  lemma GetPictureRefines(t: Tables, target: User, requester: Text)
    requires WellFormed(t)
    ensures Agree(Handle(t, GetPicture(target, requester)), BookHandle(BookOf(t), GetPicture(target, requester)))
  {
    hide WellFormed, BookOf, UserId, PictureContent, Password;
    BookFacts(t, CStr(target.username));
  }

  /** One request: the tables stay well-formed, and tables and book answer alike and end up alike. */
  lemma HandleRefines(t: Tables, request: Request)
    requires WellFormed(t)
    ensures Agree(Handle(t, request), BookHandle(BookOf(t), request))
  {
    hide WellFormed, BookOf, Agree;
    match request
    case Login(user) => LoginRefines(t, user);
    case Register(user) => RegisterRefines(t, user);
    case SaveMessage(m) => SaveMessageRefines(t, m);
    case SavePicture(user, content) => SavePictureRefines(t, user, content);
    case GetPicture(target, requester) => GetPictureRefines(t, target, requester);
    case Shutdown => ShutdownRefines(t);
  }

  lemma ShutdownRefines(t: Tables)
    requires WellFormed(t)
    ensures Agree(Handle(t, Shutdown), BookHandle(BookOf(t), Shutdown))
  {
    hide WellFormed, BookOf;
  }
}
