/**
 * The shared create-ticket modal: its construction options, the body it
 * sends to `POST /api/tickets`, and the assignee list an admin sees.
 */
module CreateModal {
  import opened Wrappers
  import opened Models
  import opened AuthUtils
  import opened TicketRoutes
  import opened JsStrings
  import opened JsJson
  import opened Api

  /** `parseInt(assigneeValue)` as it lands in the body: a number, or null for NaN. */
  function AssigneeJson(value: string): (j: Json)
    ensures j.JNum? || j == JNull
    ensures j == JNull <==> ParseInt(value).None?
  {
    match ParseInt(value)
    case Some(n) => JNum(n)
    case None => JNull
  }

  /** The options of the assignee select hold user ids as text, so the body carries the id itself. */
  lemma AssigneeOptionRoundTrip(id: int)
    ensures AssigneeJson(IntToString(id)) == JNum(id)
  {
    ParseIntOfIntToString(id);
  }

  /** The current user's `is_admin` flag, as the page received it; false with no current user. */
  function IsAdminUser(user: Option<UserDict>): (b: bool)
    ensures user.None? ==> !b
    ensures user.Some? ==> (b <==> user.value.isAdmin)
  {
    user.Some? && user.value.isAdmin
  }

  /**
   * When the page's current user is the dictionary of the session's user,
   * the modal treats them as an admin exactly when `admin_required` would
   * let their requests through.
   */
  lemma AdminFlagMatchesServerGuard(session: Session, users: UserTable, isJson: bool)
    ensures var user := match GetCurrentUser(session, users)
                        case Some(u) => Some(ToDict(u))
                        case None => None;
      IsAdminUser(user) <==> AdminRequired(session, users, isJson).Proceed?
  {
  }

  /**
   * The body `handleCreateTicket` sends: the four form fields, and for an
   * admin who chose someone, `assigned_to`.
   */
  function CreatePayload(title: string, description: string, priority: string, status: string,
                         user: Option<UserDict>, assigneeValue: string): (p: map<string, Json>)
    ensures p.Keys == {"title", "description", "priority", "status"}
                      + (if IsAdminUser(user) && assigneeValue != "" then {"assigned_to"} else {})
    ensures p["title"] == JStr(title) && p["description"] == JStr(description)
    ensures p["priority"] == JStr(priority) && p["status"] == JStr(status)
    ensures "assigned_to" in p ==> p["assigned_to"] == AssigneeJson(assigneeValue)
  {
    var base := map["title" := JStr(title), "description" := JStr(description),
                    "priority" := JStr(priority), "status" := JStr(status)];
    if IsAdminUser(user) && assigneeValue != "" then base["assigned_to" := AssigneeJson(assigneeValue)] else base
  }

  /**
   * What the server builds from that body: the four form fields, the actor
   * as owner and no assignee, whatever the admin chose in the modal.
   */
  lemma ServerBuildsTicketFromPayload(id: int, owner: int, title: string, description: string,
                                      priority: string, status: string,
                                      user: Option<UserDict>, assigneeValue: string)
    ensures var body := StringFields(CreatePayload(title, description, priority, status, user, assigneeValue));
      && "title" in body && "description" in body
      && NewTicket(id, body, owner) == Ticket(id, title, description, status, priority, owner, None)
  {
    var body := StringFields(CreatePayload(title, description, priority, status, user, assigneeValue));
    assert body["title"] == title && body["description"] == description;
    assert body["priority"] == priority && body["status"] == status;
  }

  /** An entry of the assignee list as the server describes a user. */
  datatype AssigneeEntry = AssigneeEntry(
    id: int,
    fullName: Option<string>,
    firstName: Option<string>,
    lastName: Option<string>,
    username: string)

  /** The characters of a missing name: `name || ''`. */
  function OrEmpty(name: Option<string>): string {
    if name.Some? then name.value else ""
  }

  predicate Blank(s: string) {
    forall i :: 0 <= i < |s| ==> IsSpace(s[i])
  }

  /** Two names joined by a space are blank exactly when both names are. */
  lemma JoinedBlank(first: string, last: string)
    ensures Blank(first + " " + last) <==> Blank(first) && Blank(last)
  {
    var joined := first + " " + last;
    if Blank(first) && Blank(last) {
      forall i | 0 <= i < |joined|
        ensures IsSpace(joined[i])
      {
        if i > |first| {
          assert joined[i] == last[i - |first| - 1];
        }
      }
    }
    if Blank(joined) {
      forall i | 0 <= i < |first|
        ensures IsSpace(first[i])
      {
        assert joined[i] == first[i];
      }
      forall i | 0 <= i < |last|
        ensures IsSpace(last[i])
      {
        assert joined[|first| + 1 + i] == last[i];
      }
    }
  }

  /**
   * The first and last name joined by a space and trimmed: a string with no
   * space at either end, empty exactly when both names are blank.
   */
  function NamesJoined(u: AssigneeEntry): (r: string)
    ensures r != [] ==> !IsSpace(r[0]) && !IsSpace(r[|r| - 1])
    ensures r == [] <==> Blank(OrEmpty(u.firstName)) && Blank(OrEmpty(u.lastName))
  {
    var first, last := OrEmpty(u.firstName), OrEmpty(u.lastName);
    var joined := first + " " + last;
    TrimEmptyIffBlank(joined);
    assert Trim(joined) == [] <==> Blank(joined);
    JoinedBlank(first, last);
    Trim(joined)
  }

  /** The option text: the full name, else the trimmed first and last name, else the username. */
  function DisplayName(u: AssigneeEntry): (name: string)
    ensures u.fullName.Some? && u.fullName.value != [] ==> name == u.fullName.value
    ensures (u.fullName.None? || u.fullName.value == []) && NamesJoined(u) != [] ==> name == NamesJoined(u)
    ensures (u.fullName.None? || u.fullName.value == []) && NamesJoined(u) == [] ==> name == u.username
  {
    if u.fullName.Some? && u.fullName.value != [] then u.fullName.value
    else if NamesJoined(u) != [] then NamesJoined(u)
    else u.username
  }

  /**
   * A user with a username always gets a non-empty option text, and without
   * a full name it is the username exactly when both names are blank.
   */
  lemma DisplayNameNeverBlank(u: AssigneeEntry)
    requires u.username != []
    ensures DisplayName(u) != []
    ensures u.fullName.None? && u.firstName.None? && u.lastName.None? ==> DisplayName(u) == u.username
  {
    if u.fullName.None? && u.firstName.None? && u.lastName.None? {
      assert IsSpace(" "[0]);
      TrimEmptyIffBlank(" ");
    }
  }

  /** The warning shown when the assignee list fails to load. */
  datatype AssigneeLoadIssue = NetworkIssue | PermissionIssue | SessionExpired | OtherIssue

  /** The if-chain over the error message: network, then 403, then 401. */
  function ClassifyAssigneeError(message: string): (k: AssigneeLoadIssue)
    ensures k == NetworkIssue <==> Includes(ToLowerCase(message), "network")
    ensures k == PermissionIssue <==> !Includes(ToLowerCase(message), "network") && Includes(message, "403")
    ensures k == SessionExpired <==>
      !Includes(ToLowerCase(message), "network") && !Includes(message, "403") && Includes(message, "401")
  {
    if Includes(ToLowerCase(message), "network") then NetworkIssue
    else if Includes(message, "403") then PermissionIssue
    else if Includes(message, "401") then SessionExpired
    else OtherIssue
  }

  /** A string lacking a character that `sub` contains does not contain `sub`. */
  lemma MissingCharExcludes(s: string, sub: string, c: char)
    requires c in sub && c !in s
    ensures !Includes(s, sub)
  {
  }

  /** Lower-casing cannot produce a lower-case letter whose two cases are both absent. */
  lemma LowerCaseKeepsAbsence(s: string, c: char)
    requires 'a' <= c <= 'z' && c !in s && UpperOf(c) !in s
    ensures c !in ToLowerCase(s)
  {
    forall i | 0 <= i < |s| ensures ToLowerCase(s)[i] != c {
      assert s[i] != c && s[i] != UpperOf(c);
    }
  }

  function UpperOf(c: char): char
    requires 'a' <= c <= 'z'
  {
    (c as int - 32) as char
  }

  /** When `apiRequest` cannot reach the server, the modal reports a network issue. */
  lemma UnreachableServerIsNetworkIssue()
    ensures ClassifyAssigneeError(NetworkErrorMessage) == NetworkIssue
  {
    var lower := ToLowerCase(NetworkErrorMessage);
    forall i | 0 <= i < 7 ensures lower[i] == "network"[i] {
      assert lower[i] == LowerChar(NetworkErrorMessage[i]);
    }
    assert lower[..7] == "network";
    IncludesAt(lower, "network", 0);
  }

  /** A message with neither a `k` nor a `K` and no digit `4` gets the generic warning. */
  lemma GenericWithoutMarkers(message: string)
    requires 'k' !in message && 'K' !in message && '4' !in message
    ensures ClassifyAssigneeError(message) == OtherIssue
  {
    LowerCaseKeepsAbsence(message, 'k');
    MissingCharExcludes(ToLowerCase(message), "network", 'k');
    MissingCharExcludes(message, "403", '4');
    MissingCharExcludes(message, "401", '4');
  }

  /**
   * An `{"error": message}` denial is reported by its text, not its status,
   * so a text without `k`, `K` or `4` gets the generic warning whatever the
   * status was.
   */
  lemma TextDenialIsGeneric(message: string, status: int)
    requires message != []
    requires 'k' !in message && 'K' !in message && '4' !in message
    ensures ClassifyAssigneeError(ErrorMessage(ErrorBody(message), status)) == OtherIssue
  {
    assert ErrorMessage(ErrorBody(message), status) == message;
    GenericWithoutMarkers(message);
  }

  /** The admin (403) and login (401) denials are such texts. */
  lemma ServerDenialsAreText()
    ensures AdminRequiredMessage != [] && 'k' !in AdminRequiredMessage && 'K' !in AdminRequiredMessage
    ensures '4' !in AdminRequiredMessage
    ensures AuthRequiredMessage != [] && 'k' !in AuthRequiredMessage && 'K' !in AuthRequiredMessage
    ensures '4' !in AuthRequiredMessage
  {
  }

  /**
   * A 403 answer whose body carries no truthy `error` text is reported as
   * `HTTP 403` and reaches the permission branch. (A text that itself
   * contains "403" reaches it too, at any status.)
   */
  lemma BareForbiddenIsPermissionIssue(data: Json)
    requires !(Truthy(data) && Property(data, "error").Some? && Truthy(Property(data, "error").value))
    ensures ClassifyAssigneeError(ErrorMessage(data, 403)) == PermissionIssue
  {
    var bare := ErrorMessage(data, 403);
    assert IntToString(403) == "403" by {
      assert NatToDigits(4) == "4";
      assert NatToDigits(40) == "40";
    }
    assert bare == "HTTP 403";
    LowerCaseKeepsAbsence(bare, 'k');
    MissingCharExcludes(ToLowerCase(bare), "network", 'k');
    assert bare[5..8] == "403";
    IncludesAt(bare, "403", 5);
  }

  class CreateTicketModal {
    var redirectAfterCreate: bool
    var redirectUrl: string
    var currentUser: Option<UserDict>

    /**
     * `new CreateTicketModal(options)`: no redirect unless asked for, the
     * redirect target `/dashboard` unless a non-empty one is given, and the
     * user from the page's `data-user-info` element if any.
     */
    constructor (redirectOption: Option<bool>, urlOption: Option<string>, userInfo: Option<UserDict>)
      ensures redirectAfterCreate == (redirectOption == Some(true))
      ensures redirectUrl == (if urlOption.Some? && urlOption.value != [] then urlOption.value else "/dashboard")
      ensures currentUser == userInfo
    {
      redirectAfterCreate := redirectOption == Some(true);
      redirectUrl := if urlOption.Some? && urlOption.value != [] then urlOption.value else "/dashboard";
      currentUser := userInfo;
    }

    /** `handleCreateTicket`: the body is built from the form, then extended for an admin. */
    method BuildPayload(title: string, description: string, priority: string, status: string,
                        assigneeValue: string) returns (payload: map<string, Json>)
      ensures payload == CreatePayload(title, description, priority, status, currentUser, assigneeValue)
    {
      payload := map["title" := JStr(title), "description" := JStr(description),
                     "priority" := JStr(priority), "status" := JStr(status)];
      if currentUser.Some? && currentUser.value.isAdmin {
        assert IsAdminUser(currentUser);
        if assigneeValue != "" {
          payload := payload["assigned_to" := AssigneeJson(assigneeValue)];
        }
      } else {
        assert !IsAdminUser(currentUser);
      }
    }
  }
}
