/** The database tables, the queries on them, and the request handlers as functions of the tables. */
module Store {
  import opened Bytes
  import opened User
  import Json
  import M = Message
  import PasswordHasher
  import Picture

  // ----- tables -----

  datatype UserRow = UserRow(id: nat, username: Text, password: Text)
  datatype MessageRow = MessageRow(id: nat, content: Text, timestamp: M.Int64, userId: nat)
  datatype PictureRow = PictureRow(id: nat, content: Text, userId: nat)

  /** The next ids are those AUTOINCREMENT hands out. */
  datatype Tables = Tables(
    users: seq<UserRow>, messages: seq<MessageRow>, pictures: seq<PictureRow>,
    nextUser: nat, nextMessage: nat, nextPicture: nat)

  const EMPTY := Tables([], [], [], 1, 1, 1)

  /** SELECT id FROM users WHERE username = ?: the first row. */
  function UserId(users: seq<UserRow>, name: Text): Option<nat> {
    if users == [] then None
    else if users[0].username == name then Some(users[0].id)
    else UserId(users[1..], name)
  }

  /** SELECT password FROM users WHERE id = ? */
  function Password(users: seq<UserRow>, id: nat): Option<Text> {
    if users == [] then None
    else if users[0].id == id then Some(users[0].password)
    else Password(users[1..], id)
  }

  /** SELECT content FROM profile_pictures WHERE user_id = ? */
  function PictureContent(pictures: seq<PictureRow>, userId: nat): Option<Text> {
    if pictures == [] then None
    else if pictures[0].userId == userId then Some(pictures[0].content)
    else PictureContent(pictures[1..], userId)
  }

  /** The rows a REPLACE on the unique `user_id` leaves. */
  function WithoutUser(pictures: seq<PictureRow>, userId: nat): seq<PictureRow> {
    if pictures == [] then []
    else (if pictures[0].userId == userId then [] else [pictures[0]]) + WithoutUser(pictures[1..], userId)
  }

  /** Text arguments are bound as C strings. */
  function GetUserId(t: Tables, user: User): Option<nat> {
    UserId(t.users, CStr(user.username))
  }

  function AddUser(t: Tables, user: User): Tables {
    var row := UserRow(t.nextUser, CStr(user.username), CStr(PasswordHasher.HashOf(user.password)));
    t.(users := t.users + [row], nextUser := t.nextUser + 1)
  }

  function AddMessage(t: Tables, m: M.Message): Tables {
    match GetUserId(t, User(m.senderName, []))
    case None => t
    case Some(id) =>
      var row := MessageRow(t.nextMessage, CStr(m.content), m.timestamp, id);
      t.(messages := t.messages + [row], nextMessage := t.nextMessage + 1)
  }

  function AddPicture(t: Tables, userId: nat, pixels: Text): Tables {
    var row := PictureRow(t.nextPicture, pixels, userId);
    t.(pictures := WithoutUser(t.pictures, userId) + [row], nextPicture := t.nextPicture + 1)
  }

  // ----- requests and responses -----

  datatype Request =
    | Login(user: User)
    | Register(user: User)
    | SaveMessage(message: M.Message)
    | SavePicture(user: User, content: Text)
    | GetPicture(target: User, requester: Text)
    | Shutdown

  datatype ResponseType = LOGIN_SUCCESS | LOGIN_FAIL | REGISTER_SUCCESS | REGISTER_FAIL | USER_PROFILE_PICTURE

  datatype Response = Response(username: Text, message: Text, recipient: Text, kind: ResponseType)

  /** What handling one request does; `threw` stands for the JSON exceptions of a malformed picture. */
  datatype Outcome = Outcome(tables: Tables, responses: seq<Response>, requeued: seq<Request>, threw: bool)

  function Reason(name: Text, problem: string): Text {
    Json.Ascii("User ") + name + Json.Ascii(problem)
  }

  /** `checkUserLoginInfo`: the stored hash against the hash of the provided password read as a C string. */
  function LoginError(t: Tables, user: User): Option<Text> {
    match GetUserId(t, user)
    case None => Some(Reason(user.username, " could not be found"))
    case Some(id) =>
      if Password(t.users, id) == Some(PasswordHasher.HashOf(CStr(user.password))) then None
      else Some(Reason(user.username, " password does not match"))
  }

  function HandleLogin(t: Tables, user: User): Outcome {
    match LoginError(t, user)
    case None => Outcome(t, [Response(CStr(user.username), [], [], LOGIN_SUCCESS)], [], false)
    case Some(e) => Outcome(t, [Response(CStr(user.username), e, [], LOGIN_FAIL)], [], false)
  }

  function HandleRegister(t: Tables, user: User): Outcome {
    if GetUserId(t, user).Some? then
      var e := Reason(user.username, " already exist");
      Outcome(t, [Response(CStr(user.username), e, [], REGISTER_FAIL)], [], false)
    else Outcome(AddUser(t, user), [Response(CStr(user.username), [], [], REGISTER_SUCCESS)], [], false)
  }

  function HandleSavePicture(t: Tables, user: User, content: Text): Outcome {
    if content == [] then Outcome(t, [], [GetPicture(user, CStr(user.username))], false)
    else
      match GetUserId(t, user)
      case None => Outcome(t, [], [], false)
      case Some(id) =>
        match Picture.Pixels(content)
        case None => Outcome(t, [], [], true)
        case Some(pixels) =>
          // no bytes are bound as NULL, which the column refuses
          Outcome(if pixels == [] then t else AddPicture(t, id, pixels), [], [], false)
  }

  function HandleGetPicture(t: Tables, target: User, requester: Text): Outcome {
    match GetUserId(t, target)
    case None => Outcome(t, [], [], false)
    case Some(id) =>
      match PictureContent(t.pictures, id)
      case None => Outcome(t, [], [], false)
      case Some(pixels) =>
        Outcome(t, [Response(CStr(target.username), pixels, requester, USER_PROFILE_PICTURE)], [], false)
  }

  function Handle(t: Tables, request: Request): Outcome {
    match request
    case Login(user) => HandleLogin(t, user)
    case Register(user) => HandleRegister(t, user)
    case SaveMessage(m) => Outcome(AddMessage(t, m), [], [], false)
    case SavePicture(user, content) => HandleSavePicture(t, user, content)
    case GetPicture(target, requester) => HandleGetPicture(t, target, requester)
    case Shutdown => Outcome(t, [], [], false)
  }
}
