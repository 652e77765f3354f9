/**
 * The `auth` blueprint: login, logout, register and profile. Login and
 * logout write the session; register inserts a user and commits or rolls
 * back. Password hashing is a pair of function parameters.
 */
module AuthRoutes {
  import opened Wrappers
  import opened Models
  import opened Http
  import opened AuthUtils
  import opened Store

  const LoginFailedMessage := "Invalid username or password"
  const DuplicateAccountMessage := "Username or email already exists"

  /** Some row has this username and the password check accepts its hash. */
  ghost predicate CredentialsAccepted(
    users: UserTable, username: string, password: string,
    checkPassword: (Option<string>, string) -> bool)
  {
    exists k :: k in users && users[k].username == username && checkPassword(users[k].passwordHash, password)
  }

  /** The answer to a successful login. */
  function LoginSuccess(u: User, isJson: bool): Response {
    if isJson then Ok(UserMessage("Login successful", ToDict(u))) else Redirect(HomePage)
  }

  /**
   * GET renders the form. POST succeeds exactly when a user with that
   * username exists and the password check passes; the session then names
   * that user. A failed login leaves the session as it was.
   */
  method Login(
    app: App, isJson: bool, isPost: bool, username: string, password: string,
    checkPassword: (Option<string>, string) -> bool)
    returns (r: Response)
    requires app.Valid()
    modifies app`session
    ensures !isPost ==> r == Render(LoginTemplate) && app.session == old(app.session)
    ensures isPost && CredentialsAccepted(app.users, username, password, checkPassword) ==>
      exists k :: k in app.users && app.users[k].username == username
        && app.session == Session(Some(k), Some(username))
        && r == LoginSuccess(app.users[k], isJson)
    ensures isPost && !CredentialsAccepted(app.users, username, password, checkPassword) ==>
      app.session == old(app.session)
      && r == (if isJson then Err(401, LoginFailedMessage) else Render(LoginTemplate))
  {
    if !isPost {
      return Render(LoginTemplate);
    }
    var found := FirstUserWhere(app.users, app.nextUserId, (u: User) => u.username == username);
    if found.Some? && checkPassword(app.users[found.value].passwordHash, password) {
      var user := app.users[found.value];
      assert user.username == username && user.id == found.value;
      app.session := Session(Some(user.id), Some(user.username));
      r := LoginSuccess(user, isJson);
    } else {
      assert !CredentialsAccepted(app.users, username, password, checkPassword) by {
        forall k | k in app.users && app.users[k].username == username
          ensures !checkPassword(app.users[k].passwordHash, password)
        {
          assert ((u: User) => u.username == username)(app.users[k]);
          assert found.Some? && found.value == k;
        }
      }
      r := if isJson then Err(401, LoginFailedMessage) else Render(LoginTemplate);
    }
  }

  /** `session.clear()`: whatever the session held, it is empty afterwards. */
  method Logout(app: App, isJson: bool) returns (r: Response)
    modifies app`session
    ensures app.session == EmptySession
    ensures r == (if isJson then Ok(Message("Logout successful")) else Redirect(HomePage))
  {
    app.session := EmptySession;
    r := if isJson then Ok(Message("Logout successful")) else Redirect(HomePage);
  }

  /** `profile`: behind `login_required`, the current user's dictionary. */
  function Profile(session: Session, users: UserTable, isJson: bool): (r: Response)
    ensures session.userId.None? ==> r == LoginDenial(isJson)
    ensures session.userId.Some? && !isJson ==> r == Render(ProfileTemplate)
    ensures session.userId.Some? && isJson ==>
      match GetCurrentUser(session, users)
      case Some(u) => r == Ok(UserBody(ToDict(u)))
      case None => r == ServerError
  {
    match LoginRequired(session, isJson)
    case Deny(denial) => denial
    case Proceed =>
      var user := GetCurrentUser(session, users);
      if isJson then
        (if user.None? then ServerError else Ok(UserBody(ToDict(user.value))))
      else
        Render(ProfileTemplate)
  }

  /** After logout the profile is refused with 401 (or a redirect to login). */
  lemma ProfileAfterLogout(users: UserTable, isJson: bool)
    ensures Profile(EmptySession, users, isJson) == LoginDenial(isJson)
    ensures isJson ==> Profile(EmptySession, users, isJson) == Err(401, AuthRequiredMessage)
  {
  }

  /**
   * Some existing row shares the username or the email. For a row to be
   * inserted under an id not yet in use, this is exactly the clash the
   * unique constraints would refuse.
   */
  function Taken(users: UserTable, username: string, email: string): (b: bool)
    ensures forall id, u: User :: id !in users && u.username == username && u.email == email ==>
      (b <==> ClashesWith(users, id, u))
  {
    exists k :: k in users && (users[k].username == username || users[k].email == email)
  }

  /** The keys `register` reads before and after its duplicate check. */
  predicate HasIdentity(data: Body) {
    "username" in data && "email" in data
  }

  predicate HasRegistration(data: Body) {
    HasIdentity(data) && "first_name" in data && "last_name" in data && "password" in data
  }

  /** The first of the keys read by the duplicate check that is missing. */
  function IdentityKeyError(data: Body): string
    requires !HasIdentity(data)
  {
    KeyErrorMessage(if "username" !in data then "username" else "email")
  }

  /** The first of the keys read after the duplicate check that is missing. */
  function RegistrationKeyError(data: Body): string
    requires HasIdentity(data) && !HasRegistration(data)
  {
    KeyErrorMessage(
      if "first_name" !in data then "first_name"
      else if "last_name" !in data then "last_name"
      else "password")
  }

  /** The row a registration (or `create_user`) inserts: not admin, active. */
  function NewAccount(id: int, data: Body, hash: Option<string>): (u: User)
    requires HasIdentity(data) && "first_name" in data && "last_name" in data
    ensures u.id == id && u.passwordHash == hash && !u.isAdmin && u.isActive
    ensures ToDict(u) == UserDict(id, data["username"], data["email"], data["first_name"], data["last_name"], false, true)
  {
    User(id, data["username"], data["email"], data["first_name"], data["last_name"], hash, false, true)
  }

  /** The request registers a new user when the commit does not fail. */
  predicate RegisterAccepted(users: UserTable, data: Body) {
    HasRegistration(data) && !Taken(users, data["username"], data["email"])
  }

  function RegisterFailure(isJson: bool, msg: string): Response {
    if isJson then Err(400, msg) else Render(RegisterTemplate)
  }

  /**
   * `register`: on POST, a missing key, an existing username or email, or a
   * failed commit answers 400 (the form again for a browser) and adds no
   * user; otherwise exactly one user is added under a fresh id. The session
   * is not touched.
   */
  method Register(
    app: App, isJson: bool, isPost: bool, data: Body,
    hashOf: string -> string, dbError: Option<string>)
    returns (r: Response)
    requires app.Valid()
    modifies app`users, app`nextUserId
    ensures app.Valid()
    ensures !isPost ==> r == Render(RegisterTemplate)
    ensures isPost && !HasIdentity(data) ==> r == RegisterFailure(isJson, IdentityKeyError(data))
    ensures isPost && HasIdentity(data) && Taken(old(app.users), data["username"], data["email"]) ==>
      r == RegisterFailure(isJson, DuplicateAccountMessage)
    ensures (isPost && HasIdentity(data) && !HasRegistration(data)
             && !Taken(old(app.users), data["username"], data["email"])) ==>
      r == RegisterFailure(isJson, RegistrationKeyError(data))
    ensures isPost && RegisterAccepted(old(app.users), data) && dbError.Some? ==>
      r == RegisterFailure(isJson, dbError.value)
    ensures isPost && RegisterAccepted(old(app.users), data) && dbError.None? ==>
      var id := old(app.nextUserId);
      var user := NewAccount(id, data, Some(hashOf(data["password"])));
      && id !in old(app.users)
      && app.users == old(app.users)[id := user]
      && r == (if isJson then Created(UserMessage("Registration successful", ToDict(user))) else Redirect(LoginPage))
    ensures !(isPost && RegisterAccepted(old(app.users), data) && dbError.None?) ==>
      app.users == old(app.users)
  {
    if !isPost {
      return Render(RegisterTemplate);
    }
    if !HasIdentity(data) {
      return RegisterFailure(isJson, IdentityKeyError(data));
    }
    var username, email := data["username"], data["email"];
    var existing := FirstUserWhere(app.users, app.nextUserId, (u: User) => u.username == username || u.email == email);
    if existing.Some? {
      var k := existing.value;
      assert app.users[k].username == username || app.users[k].email == email;
      assert Taken(app.users, username, email);
      return RegisterFailure(isJson, DuplicateAccountMessage);
    }
    assert !Taken(app.users, username, email) by {
      forall k | k in app.users
        ensures !(app.users[k].username == username || app.users[k].email == email)
      {
        assert !(((u: User) => u.username == username || u.email == email)(app.users[k]));
      }
    }
    if !HasRegistration(data) {
      return RegisterFailure(isJson, RegistrationKeyError(data));
    }
    var user := NewAccount(app.nextUserId, data, Some(hashOf(data["password"])));
    if dbError.Some? {
      // db.session.rollback(): the table is left as it was
      return RegisterFailure(isJson, dbError.value);
    }
    WriteKeepsUniqueIff(app.users, user.id, user);
    app.users := app.users[user.id := user];
    app.nextUserId := app.nextUserId + 1;
    r := if isJson then Created(UserMessage("Registration successful", ToDict(user))) else Redirect(LoginPage);
  }
}
