/**
 * The guard decorators `login_required` and `admin_required` and the lookup
 * `get_current_user`, as decisions over the session and the user table.
 * The `isJson` flag is Flask's `request.is_json` (a JSON Content-Type).
 */
module AuthUtils {
  import opened Wrappers
  import opened Models
  import opened Http

  /** Either the wrapped handler runs, or the decorator answers by itself. */
  datatype Guard = Proceed | Deny(response: Response)

  const AuthRequiredMessage := "Authentication required"
  const AdminRequiredMessage := "Admin privileges required"

  /** `User.query.get(session['user_id'])`, or None without a `user_id`. */
  function GetCurrentUser(session: Session, users: UserTable): (r: Option<User>)
    ensures session.userId.None? ==> r.None?
    ensures session.userId.Some? && session.userId.value !in users ==> r.None?
    ensures session.userId.Some? && session.userId.value in users ==> r == Some(users[session.userId.value])
  {
    match session.userId
    case None => None
    case Some(id) => if id in users then Some(users[id]) else None
  }

  /** The answer to a request that carries no `user_id`. */
  function LoginDenial(isJson: bool): (r: Response)
    ensures isJson ==> r == Err(401, AuthRequiredMessage)
    ensures !isJson ==> r == Redirect(LoginPage)
  {
    if isJson then Err(401, AuthRequiredMessage) else Redirect(LoginPage)
  }

  /**
   * `login_required` lets the handler run exactly when the session holds a
   * `user_id`; whether that id still names a user is not checked.
   */
  function LoginRequired(session: Session, isJson: bool): (g: Guard)
    ensures g.Proceed? <==> session.userId.Some?
    ensures g.Deny? ==> g.response == LoginDenial(isJson)
  {
    if session.userId.None? then Deny(LoginDenial(isJson)) else Proceed
  }

  /** The session resolves to a user whose `is_admin` flag is set. */
  function IsAdminSession(session: Session, users: UserTable): (b: bool)
    ensures b <==> session.userId.Some? && session.userId.value in users && users[session.userId.value].isAdmin
  {
    match GetCurrentUser(session, users)
    case Some(u) => u.isAdmin
    case None => false
  }

  /**
   * `admin_required`: without `user_id` the same denial as `login_required`;
   * with one that names no user or a non-admin, 403 or a redirect home.
   */
  function AdminRequired(session: Session, users: UserTable, isJson: bool): (g: Guard)
    ensures g.Proceed? <==> IsAdminSession(session, users)
    ensures session.userId.None? ==> g == LoginRequired(session, isJson)
    ensures session.userId.Some? && g.Deny? ==>
      g.response == (if isJson then Err(403, AdminRequiredMessage) else Redirect(HomePage))
  {
    if session.userId.None? then
      Deny(LoginDenial(isJson))
    else
      var user := GetCurrentUser(session, users);
      if user.None? || !user.value.isAdmin then
        Deny(if isJson then Err(403, AdminRequiredMessage) else Redirect(HomePage))
      else
        Proceed
  }

  /** `request.is_json` changes only the shape of a denial, never the decision. */
  lemma JsonShapesOnlyTheDenial(session: Session, users: UserTable)
    ensures LoginRequired(session, true).Proceed? == LoginRequired(session, false).Proceed?
    ensures AdminRequired(session, users, true).Proceed? == AdminRequired(session, users, false).Proceed?
    ensures LoginRequired(session, true).Deny? ==> LoginRequired(session, true).response.Err?
    ensures LoginRequired(session, false).Deny? ==> LoginRequired(session, false).response.Redirect?
    ensures AdminRequired(session, users, true).Deny? ==> AdminRequired(session, users, true).response.Err?
    ensures AdminRequired(session, users, false).Deny? ==> AdminRequired(session, users, false).response.Redirect?
  {
  }

  /** Whatever `admin_required` admits, `login_required` admits too. */
  lemma AdminGuardIsStricter(session: Session, users: UserTable, isJson: bool)
    ensures AdminRequired(session, users, isJson).Proceed? ==> LoginRequired(session, isJson).Proceed?
  {
  }

  /**
   * A session whose `user_id` names no user passes `login_required` but
   * resolves to no current user, which the handlers then dereference.
   */
  lemma StaleSessionPassesLogin(session: Session, users: UserTable, isJson: bool)
    requires session.userId.Some? && session.userId.value !in users
    ensures LoginRequired(session, isJson).Proceed?
    ensures GetCurrentUser(session, users).None?
    ensures AdminRequired(session, users, isJson).Deny?
  {
  }
}
