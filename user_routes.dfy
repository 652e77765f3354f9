/**
 * The `users` blueprint. Per-user routes are self-only: the actor's id is
 * compared with the path id before the user is looked up, so a foreign id
 * answers 403 whether or not it exists, and admins get no exception.
 * `create_user` has no login guard.
 */
module UserRoutes {
  import opened Wrappers
  import opened Models
  import opened Http
  import opened AuthUtils
  import opened Store
  import opened AuthRoutes
  import opened TicketRoutes

  /** `get_users`: every user's dictionary, to any logged-in actor. */
  function GetUsers(session: Session, users: UserTable, isJson: bool): (r: Response)
    ensures session.userId.None? ==> r == LoginDenial(isJson)
    ensures session.userId.Some? ==> r.Ok? && r.payload.UserList?
    ensures r.Ok? ==> r.payload.users.Keys == users.Keys
    ensures r.Ok? ==> forall k :: k in users ==> r.payload.users[k] == ToDict(users[k])
  {
    match LoginRequired(session, isJson)
    case Deny(denial) => denial
    case Proceed => Ok(UserList(map k | k in users :: ToDict(users[k])))
  }

  /**
   * The self-only check shared by the per-user routes: None when the
   * handler goes on, otherwise the answer it gives first.
   */
  function SelfOnly(session: Session, users: UserTable, uid: int): (r: Option<Response>)
    ensures r.None? <==> GetCurrentUser(session, users).Some? && GetCurrentUser(session, users).value.id == uid
  {
    match GetCurrentUser(session, users)
    case None => Some(ServerError)
    case Some(u) => if u.id != uid then Some(Err(403, AccessDenied)) else None
  }

  /** `get_user`: only one's own record; 403 before any existence check. */
  function GetUser(session: Session, users: UserTable, isJson: bool, uid: int): (r: Response)
    ensures session.userId.None? ==> r == LoginDenial(isJson)
    ensures session.userId.Some? && GetCurrentUser(session, users).None? ==> r == ServerError
    ensures (session.userId.Some? && GetCurrentUser(session, users).Some?
             && GetCurrentUser(session, users).value.id != uid) ==> r == Err(403, AccessDenied)
    ensures r.Ok? ==> uid in users && r == Ok(UserBody(ToDict(users[uid])))
    ensures UsersKeyed(users) ==>
      (r.Ok? <==> GetCurrentUser(session, users).Some? && GetCurrentUser(session, users).value.id == uid)
    ensures (UsersKeyed(users) && GetCurrentUser(session, users).Some?
             && GetCurrentUser(session, users).value.id == uid) ==> r == Ok(UserBody(ToDict(users[uid])))
  {
    match LoginRequired(session, isJson)
    case Deny(denial) => denial
    case Proceed =>
      match SelfOnly(session, users, uid)
      case Some(answer) => answer
      case None =>
        assert UsersKeyed(users) ==> uid == session.userId.value;
        if uid !in users then NotFound else Ok(UserBody(ToDict(users[uid])))
  }

  /**
   * The 404 branch of the self-only routes is dead: an actor whose id
   * equals the path id is itself the row being looked up.
   */
  lemma SelfOnlyRoutesNeverAnswer404(session: Session, users: UserTable, tickets: TicketTable, isJson: bool, uid: int)
    requires UsersKeyed(users)
    ensures GetUser(session, users, isJson, uid) != NotFound
    ensures GetUserTickets(session, users, tickets, isJson, uid) != NotFound
  {
    if session.userId.Some? && GetCurrentUser(session, users).Some? {
      var u := GetCurrentUser(session, users).value;
      assert u == users[session.userId.value];
      assert u.id == session.userId.value;
    }
  }

  /** `get_user_tickets`: the tickets owned by the path id, for that user only. */
  function GetUserTickets(session: Session, users: UserTable, tickets: TicketTable, isJson: bool, uid: int): (r: Response)
    ensures session.userId.None? ==> r == LoginDenial(isJson)
    ensures session.userId.Some? && GetCurrentUser(session, users).None? ==> r == ServerError
    ensures (session.userId.Some? && GetCurrentUser(session, users).Some?
             && GetCurrentUser(session, users).value.id != uid) ==> r == Err(403, AccessDenied)
    ensures r.Ok? ==> r.payload.TicketList?
    ensures r.Ok? ==> forall k :: k in r.payload.tickets <==> k in tickets && tickets[k].userId == uid
  {
    match LoginRequired(session, isJson)
    case Deny(denial) => denial
    case Proceed =>
      match SelfOnly(session, users, uid)
      case Some(answer) => answer
      case None => if uid !in users then NotFound else Ok(TicketList(OwnedBy(tickets, uid)))
  }

  /** Asking for one's own id under /users/<id>/tickets lists what /tickets lists. */
  lemma OwnTicketsTwoWays(session: Session, users: UserTable, tickets: TicketTable, isJson: bool)
    requires UsersKeyed(users)
    requires GetCurrentUser(session, users).Some?
    ensures var me := GetCurrentUser(session, users).value;
      GetUserTickets(session, users, tickets, isJson, me.id) == GetTickets(session, users, tickets, isJson)
  {
    var me := GetCurrentUser(session, users).value;
    assert me.id == session.userId.value;
  }

  /** The first key `create_user` reads that is missing, in evaluation order. */
  function CreateUserKeyError(data: Body): string
    requires HasIdentity(data) && !("first_name" in data && "last_name" in data)
  {
    KeyErrorMessage(if "first_name" !in data then "first_name" else "last_name")
  }

  /** `create_user` inserts a row when the commit does not fail. */
  predicate CreateUserAccepted(users: UserTable, data: Body) {
    HasIdentity(data) && "first_name" in data && "last_name" in data
    && !Taken(users, data["username"], data["email"])
  }

  /** The password hash `create_user` stores: set only when a password is given. */
  function InitialHash(data: Body, hashOf: string -> string): (h: Option<string>)
    ensures h.Some? <==> "password" in data
    ensures h.Some? ==> h.value == hashOf(data["password"])
  {
    if "password" in data then Some(hashOf(data["password"])) else None
  }

  /**
   * `create_user` (no login needed): a duplicate username or email, a missing
   * key or a failed commit answers 400 and adds nothing; otherwise one row.
   */
  method CreateUser(app: App, data: Body, hashOf: string -> string, dbError: Option<string>) returns (r: Response)
    requires app.Valid()
    modifies app`users, app`nextUserId
    ensures app.Valid()
    ensures !HasIdentity(data) ==> r == Err(400, IdentityKeyError(data))
    ensures HasIdentity(data) && Taken(old(app.users), data["username"], data["email"]) ==>
      r == Err(400, DuplicateAccountMessage)
    ensures (HasIdentity(data) && !Taken(old(app.users), data["username"], data["email"])
             && !("first_name" in data && "last_name" in data)) ==>
      r == Err(400, CreateUserKeyError(data))
    ensures CreateUserAccepted(old(app.users), data) && dbError.Some? ==> r == Err(400, dbError.value)
    ensures CreateUserAccepted(old(app.users), data) && dbError.None? ==>
      var user := NewAccount(old(app.nextUserId), data, InitialHash(data, hashOf));
      && user.id !in old(app.users)
      && app.users == old(app.users)[user.id := user]
      && r == Created(UserBody(ToDict(user)))
    ensures !(CreateUserAccepted(old(app.users), data) && dbError.None?) ==> app.users == old(app.users)
  {
    if !HasIdentity(data) {
      return Err(400, IdentityKeyError(data));
    }
    var username, email := data["username"], data["email"];
    var existing := FirstUserWhere(app.users, app.nextUserId, (u: User) => u.username == username || u.email == email);
    if existing.Some? {
      var k := existing.value;
      assert app.users[k].username == username || app.users[k].email == email;
      assert Taken(app.users, username, email);
      return Err(400, DuplicateAccountMessage);
    }
    assert !Taken(app.users, username, email) by {
      forall k | k in app.users
        ensures !(app.users[k].username == username || app.users[k].email == email)
      {
        assert !(((u: User) => u.username == username || u.email == email)(app.users[k]));
      }
    }
    if !("first_name" in data && "last_name" in data) {
      return Err(400, CreateUserKeyError(data));
    }
    var user := NewAccount(app.nextUserId, data, None);
    if "password" in data {
      user := user.(passwordHash := Some(hashOf(data["password"])));
    }
    if dbError.Some? {
      return Err(400, dbError.value);
    }
    WriteKeepsUniqueIff(app.users, user.id, user);
    app.users := app.users[user.id := user];
    app.nextUserId := app.nextUserId + 1;
    r := Created(UserBody(ToDict(user)));
  }

  /**
   * The field-wise update of `update_user`: each of username, email,
   * first_name and last_name is replaced only when its key is present, and
   * the hash only when a password is given.
   */
  function ApplyUserChanges(u: User, data: Body, hashOf: string -> string): (v: User)
    ensures v.id == u.id && v.isAdmin == u.isAdmin && v.isActive == u.isActive
    ensures v.username == (if "username" in data then data["username"] else u.username)
    ensures v.email == (if "email" in data then data["email"] else u.email)
    ensures v.firstName == (if "first_name" in data then data["first_name"] else u.firstName)
    ensures v.lastName == (if "last_name" in data then data["last_name"] else u.lastName)
    ensures "password" !in data ==> v.passwordHash == u.passwordHash
    ensures "password" in data ==> v.passwordHash == Some(hashOf(data["password"]))
  {
    u.(username := GetOr(data, "username", u.username),
       email := GetOr(data, "email", u.email),
       firstName := GetOr(data, "first_name", u.firstName),
       lastName := GetOr(data, "last_name", u.lastName),
       passwordHash := if "password" in data then Some(hashOf(data["password"])) else u.passwordHash)
  }

  /**
   * `update_user`: only on one's own record. The update is applied field by
   * field; a commit that would give another user the same username or
   * email, or that fails, rolls back and answers 400.
   */
  method UpdateUser(app: App, isJson: bool, uid: int, data: Body, hashOf: string -> string, dbError: Option<string>)
    returns (r: Response)
    requires app.Valid()
    modifies app`users
    ensures app.Valid()
    ensures app.session.userId.None? ==> r == LoginDenial(isJson)
    ensures app.session.userId.Some? ==>
      match SelfOnly(app.session, old(app.users), uid)
      case Some(answer) => r == answer
      case None =>
        var updated := ApplyUserChanges(old(app.users)[uid], data, hashOf);
        if ClashesWith(old(app.users), uid, updated) then r == Err(400, UniqueViolationMessage)
        else if dbError.Some? then r == Err(400, dbError.value)
        else app.users == old(app.users)[uid := updated] && r == Ok(UserBody(ToDict(updated)))
    ensures !r.Ok? ==> app.users == old(app.users)
  {
    match LoginRequired(app.session, isJson)
    case Deny(denial) => return denial;
    case Proceed =>
    var check := SelfOnly(app.session, app.users, uid);
    if check.Some? {
      return check.value;
    }
    if uid !in app.users {
      return NotFound;
    }
    var user := app.users[uid];
    user := user.(username := GetOr(data, "username", user.username));
    user := user.(email := GetOr(data, "email", user.email));
    user := user.(firstName := GetOr(data, "first_name", user.firstName));
    user := user.(lastName := GetOr(data, "last_name", user.lastName));
    if "password" in data {
      user := user.(passwordHash := Some(hashOf(data["password"])));
    }
    WriteKeepsUniqueIff(app.users, uid, user);
    if ClashesWith(app.users, uid, user) {
      return Err(400, UniqueViolationMessage);
    }
    if dbError.Some? {
      return Err(400, dbError.value);
    }
    app.users := app.users[uid := user];
    r := Ok(UserBody(ToDict(user)));
  }

  /**
   * `delete_user`: only one's own record is removed. The session still
   * holds that id afterwards, so it names no user any more.
   */
  method DeleteUser(app: App, isJson: bool, uid: int, dbError: Option<string>) returns (r: Response)
    requires app.Valid()
    modifies app`users
    ensures app.Valid()
    ensures app.session.userId.None? ==> r == LoginDenial(isJson)
    ensures app.session.userId.Some? ==>
      match SelfOnly(app.session, old(app.users), uid)
      case Some(answer) => r == answer
      case None =>
        if dbError.Some? then r == Err(400, dbError.value)
        else app.users == old(app.users) - {uid} && r == Ok(Message("User deleted successfully"))
    ensures !r.Ok? ==> app.users == old(app.users)
    ensures r.Ok? ==> app.session.userId == Some(uid) && GetCurrentUser(app.session, app.users).None?
  {
    match LoginRequired(app.session, isJson)
    case Deny(denial) => return denial;
    case Proceed =>
    var check := SelfOnly(app.session, app.users, uid);
    if check.Some? {
      return check.value;
    }
    if uid !in app.users {
      return NotFound;
    }
    if dbError.Some? {
      return Err(400, dbError.value);
    }
    RemoveKeepsUnique(app.users, uid);
    app.users := app.users - {uid};
    r := Ok(Message("User deleted successfully"));
  }
}
