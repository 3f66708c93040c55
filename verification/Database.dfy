/** The database worker: its handlers, and the loop that serves the request queue until the shutdown request. */
module Database {
  import opened Bytes
  import opened User
  import opened Store
  import M = Message
  import PasswordHasher
  import Picture

  /** `stopped` says that an exception left the loop. */
  datatype Worker = Worker(
    tables: Tables, requests: seq<Request>, responses: seq<Response>, shutdown: bool, stopped: bool)

  predicate Running(w: Worker) {
    !w.shutdown && !w.stopped && w.requests != []
  }

  /** One round of the loop: the front request is taken and handled; what it re-queues goes to the back. */
  function Serve(w: Worker): Worker
    requires Running(w)
  {
    var o := Handle(w.tables, w.requests[0]);
    Worker(o.tables, w.requests[1..] + o.requeued, w.responses + o.responses, w.requests[0].Shutdown?, o.threw)
  }

  /** An empty picture save re-queues a lookup, so it counts twice. */
  function Weight(rs: seq<Request>): nat {
    if rs == [] then 0
    else (if rs[0].SavePicture? && rs[0].content == [] then 2 else 1) + Weight(rs[1..])
  }

  lemma {:induction false} WeightConcat(a: seq<Request>, b: seq<Request>)
    ensures Weight(a + b) == Weight(a) + Weight(b)
  {
    if a == [] {
      assert a + b == b;
    } else {
      assert (a + b)[1..] == a[1..] + b;
      WeightConcat(a[1..], b);
    }
  }

  lemma ServeDecreases(w: Worker)
    requires Running(w)
    ensures Weight(Serve(w).requests) < Weight(w.requests)
  {
    hide Reason, LoginError, GetUserId, AddUser, AddMessage, AddPicture, Picture.Pixels, PictureContent;
    var o := Handle(w.tables, w.requests[0]);
    WeightConcat(w.requests[1..], o.requeued);
    assert |o.requeued| <= 1;
    if |o.requeued| == 1 {
      assert o.requeued[1..] == [];
    }
  }

  /** The loop until it ends or waits for a request. */
  function Run(w: Worker): Worker
    decreases Weight(w.requests)
  {
    if Running(w) then
      ServeDecreases(w);
      Run(Serve(w))
    else w
  }

  // ----- the handlers -----

  class Database {
    var tables: Tables          // the database file
    var requests: seq<Request>
    var responses: seq<Response>
    var shutdown: bool

    function State(stopped: bool): Worker
      reads this
    {
      Worker(tables, requests, responses, shutdown, stopped)
    }

    constructor (tables: Tables)
      ensures State(false) == Worker(tables, [], [], false, false)
    {
      this.tables, requests, responses, shutdown := tables, [], [], false;
    }

    method Push(request: Request)
      modifies this`requests
      ensures requests == old(requests) + [request]
    {
      requests := requests + [request];
    }

    /** The request of a picture copies its content as a C string. */
    method RequestProfilePictureSave(user: User, content: Text)
      modifies this`requests
      ensures requests == old(requests) + [SavePicture(user, CStr(content))]
    {
      Push(SavePicture(user, CStr(content)));
    }

    method RequestUserProfilePicture(user: User, requester: Text)
      modifies this`requests
      ensures requests == old(requests) + [GetPicture(user, CStr(requester))]
    {
      Push(GetPicture(user, CStr(requester)));
    }

    method CheckUserPassword(id: nat, user: User) returns (matches: bool)
      ensures matches <==> Password(tables.users, id) == Some(PasswordHasher.HashOf(CStr(user.password)))
    {
      matches := false;
      match Password(tables.users, id) {
        case None =>
        case Some(stored) =>
          var provided := PasswordHasher.Hash(CStr(user.password));
          matches := provided == stored;
      }
    }

    method CheckUserLoginInfo(user: User) returns (error: Option<Text>)
      ensures error == LoginError(tables, user)
    {
      hide PasswordHasher.HashOf, Reason;
      match GetUserId(tables, user) {
        case Some(id) =>
          var matches := CheckUserPassword(id, user);
          if matches {
            return None;
          }
          return Some(Reason(user.username, " password does not match"));
        case None =>
          return Some(Reason(user.username, " could not be found"));
      }
    }

    method HandleLoginRequest(user: User)
      modifies this`responses
      ensures responses == old(responses) + HandleLogin(tables, user).responses
    {
      hide LoginError;
      var error := CheckUserLoginInfo(user);
      if error.None? {
        responses := responses + [Response(CStr(user.username), [], [], LOGIN_SUCCESS)];
      } else {
        responses := responses + [Response(CStr(user.username), error.value, [], LOGIN_FAIL)];
      }
    }

    method InsertUser(user: User)
      modifies this`tables
      ensures tables == AddUser(old(tables), user)
    {
      hide PasswordHasher.HashOf;
      var hashed := PasswordHasher.Hash(user.password);
      var row := UserRow(tables.nextUser, CStr(user.username), CStr(hashed));
      tables := tables.(users := tables.users + [row], nextUser := tables.nextUser + 1);
    }

    method HandleRegisterRequest(user: User)
      modifies this`tables, this`responses
      ensures var o := HandleRegister(old(tables), user);
        tables == o.tables && responses == old(responses) + o.responses
    {
      hide AddUser, Reason;
      if GetUserId(tables, user).Some? {
        responses := responses
          + [Response(CStr(user.username), Reason(user.username, " already exist"), [], REGISTER_FAIL)];
      } else {
        InsertUser(user);
        responses := responses + [Response(CStr(user.username), [], [], REGISTER_SUCCESS)];
      }
    }

    method HandleMessageSaveRequest(m: M.Message)
      modifies this`tables
      ensures tables == AddMessage(old(tables), m)
    {
      match GetUserId(tables, User(m.senderName, [])) {
        case None =>
        case Some(id) =>
          var row := MessageRow(tables.nextMessage, CStr(m.content), m.timestamp, id);
          tables := tables.(messages := tables.messages + [row], nextMessage := tables.nextMessage + 1);
      }
    }

    method HandleProfilePictureSaveRequest(user: User, content: Text) returns (threw: bool)
      requires content != []
      modifies this`tables
      ensures var o := HandleSavePicture(old(tables), user, content); tables == o.tables && threw == o.threw
    {
      match GetUserId(tables, user) {
        case None => return false;
        case Some(id) =>
          match Picture.Pixels(content) {
            case None => return true;
            case Some(pixels) =>
              if pixels == [] {
                return false;
              }
              var row := PictureRow(tables.nextPicture, pixels, id);
              tables := tables.(pictures := WithoutUser(tables.pictures, id) + [row],
                                nextPicture := tables.nextPicture + 1);
              return false;
          }
      }
    }

    method HandleUserProfilePictureRequest(target: User, requester: Text)
      modifies this`responses
      ensures responses == old(responses) + HandleGetPicture(tables, target, requester).responses
    {
      match GetUserId(tables, target) {
        case None =>
        case Some(id) =>
          match PictureContent(tables.pictures, id) {
            case None =>
            case Some(pixels) =>
              responses := responses + [Response(CStr(target.username), pixels, requester, USER_PROFILE_PICTURE)];
          }
      }
    }

    /** The loop of `run`, from any moment until it ends or waits; true when an exception has left it. */
    method RunLoop() returns (threw: bool)
      modifies this
      ensures State(threw) == Run(old(State(false)))
    {
      hide Handle, HandleLogin, HandleRegister, AddMessage, Weight;
      threw := false;
      while !shutdown && requests != []
        invariant !threw && Run(State(false)) == Run(old(State(false)))
        decreases Weight(requests)
      {
        ghost var before := State(false);
        ServeDecreases(before);
        RunStep(before);
        var request := requests[0];
        requests := requests[1..];
        HandleCases(tables, request);
        match request {
          case Login(user) =>
            HandleLoginRequest(user);
          case Register(user) =>
            HandleRegisterRequest(user);
          case SaveMessage(m) =>
            HandleMessageSaveRequest(m);
          case SavePicture(user, content) =>
            if content == [] {
              RequestUserProfilePicture(user, user.username);
            } else {
              threw := HandleProfilePictureSaveRequest(user, content);
            }
          case GetPicture(target, requester) =>
            HandleUserProfilePictureRequest(target, requester);
          case Shutdown =>
            shutdown := true;
        }
        assert State(threw) == Serve(before);
        if threw {
          return true;
        }
      }
    }
  }

  lemma RunStep(w: Worker)
    requires Running(w)
    ensures Run(w) == Run(Serve(w))
  {
  }

  /** Which part of the outcome each kind of request can touch. */
  lemma HandleCases(t: Tables, r: Request)
    ensures r.Login? ==> Handle(t, r) == Outcome(t, HandleLogin(t, r.user).responses, [], false)
    ensures r.Register? ==>
      Handle(t, r) == Outcome(HandleRegister(t, r.user).tables, HandleRegister(t, r.user).responses, [], false)
    ensures r.SaveMessage? ==> Handle(t, r) == Outcome(AddMessage(t, r.message), [], [], false)
    ensures r.SavePicture? && r.content == [] ==>
      Handle(t, r) == Outcome(t, [], [GetPicture(r.user, CStr(r.user.username))], false)
    ensures r.SavePicture? && r.content != [] ==>
      var o := HandleSavePicture(t, r.user, r.content); Handle(t, r) == Outcome(o.tables, [], [], o.threw)
    ensures r.GetPicture? ==>
      Handle(t, r) == Outcome(t, HandleGetPicture(t, r.target, r.requester).responses, [], false)
    ensures r.Shutdown? ==> Handle(t, r) == Outcome(t, [], [], false)
  {
    hide Reason, LoginError, GetUserId, AddUser, AddMessage, AddPicture, Picture.Pixels, PictureContent;
  }
}
