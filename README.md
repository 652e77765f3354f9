# Ticket tracker: server guards, routes and browser scripts in Dafny

This project models the core of a small Flask help-desk application and
proves properties of the model.

On the server side, it covers:

- the login and admin guards;
- the `auth` blueprint (login, logout, register, profile);
- the `tickets` and `users` REST blueprints.

On the browser side, it covers:

- the admin and user dashboards;
- the shared create-ticket and edit-ticket modals;
- the unified `apiRequest` helper.

The server's persistent state is a `Store.App` object:

- `users` and `tickets` hold the tables, as maps keyed by primary key;
- `session` holds the Flask session's `user_id` and `username`;
- `nextUserId` and `nextTicketId` stand for the two id sequences.

`App.Valid()` holds the guarantees the database keeps. Usernames and emails
are unique, every row sits under its own id, and ids lie below the next
sequence value.

Request handlers come in two kinds:

- Handlers that only read are functions of the state, returning a
  `Http.Response`. `Err(code, message)` stands for a JSON `{"error": message}`
  answer, `Redirect` and `Render` for the browser answers, `NotFound` for
  `get_or_404`, and `ServerError` for an exception outside any `try`.
- Handlers that write are methods on `App`. Their postconditions give the new
  tables and the answer for every branch, in the order the handler takes them.

A commit or flush failure is an explicit `dbError` parameter. A uniqueness
violation is decided by `Models.ClashesWith`. Either one rolls back to the
state before the request.

The browser scripts come in two kinds as well:

- Module-level arrays and class fields become classes with `seq` fields,
  whose methods state the new contents. These are `AdminPage.AdminDashboard`,
  `DashboardPage.Dashboard`, `EditModal.EditTicketModal` and
  `CreateModal.CreateTicketModal`.
- Filter predicates, counters, labels and payloads become functions. The
  JavaScript built-ins they rely on are modelled in `JsStrings`, `JsJson` and
  `JsArrays`.

Several lemmas connect the two sides:

- a ticket the server lets a user read is one the edit modal lets them open;
- the bodies the modals send are turned by the server into the tickets stated;
- the server's error bodies reach the caller of `apiRequest` as the thrown
  message.

The routes in routes/tickets.py are owner-only: every read, update and delete
compares `ticket.user_id` with the current user. The tests in
_test/tickets_routes_test.py also expect admin and assignee access and
`/admin/...` endpoints. routes/tickets.py does not implement these, and the
model follows the code.

## Model

| member | source | states |
|---|---|---|
| AuthUtils.GetCurrentUser | auth/auth_utils.py:37-40 | None without a `user_id`; otherwise the row under that id, or None when no row has it |
| AuthUtils.LoginDenial | auth/auth_utils.py:9-13 | 401 "Authentication required" for JSON, a redirect to the login page otherwise |
| AuthUtils.IsAdminSession | auth/auth_utils.py:27-28 | the session's `user_id` names a row whose `is_admin` is set |
| AuthUtils.LoginRequired | auth/auth_utils.py:5-15 | the handler runs iff the session has a `user_id` (existence of the user is not checked); otherwise 401 "Authentication required" for JSON, a redirect to login otherwise |
| AuthUtils.AdminRequired | auth/auth_utils.py:17-35 | the handler runs iff the session resolves to a user with `is_admin`; without `user_id` the same denial as `login_required`; otherwise 403 "Admin privileges required" or a redirect home |
| AuthUtils.JsonShapesOnlyTheDenial | auth/auth_utils.py:8-34 | whether a guard admits the request does not depend on `request.is_json`; JSON denials are error responses |
| AuthUtils.AdminGuardIsStricter | auth/auth_utils.py:17-35 | whatever `admin_required` admits, `login_required` admits too |
| AuthUtils.StaleSessionPassesLogin | auth/auth_utils.py:8-14 | a session whose `user_id` names no user passes `login_required` but not `admin_required` |
| Models.WriteKeepsUniqueIff | routes/users.py:63-76 | writing a row keeps usernames and emails unique exactly when no other row holds its username or email |
| Models.RemoveKeepsUnique | routes/users.py:86-89 | deleting a row keeps usernames and emails unique |
| Store.FirstUserWhere | auth/auth_routes.py:21 | `.first()` over the users table: the smallest id whose row matches, or None exactly when no row matches (loop over the id range) |
| Store.GetOr | routes/tickets.py:24-25 | `data.get(key, default)`: the value when the key is present, the default otherwise |
| AuthRoutes.Login | auth/auth_routes.py:8-42 | GET renders the form; POST succeeds iff a user with that username exists and the password check passes, and the session then holds its id and username; a failure leaves the session unchanged and gives 401 "Invalid username or password" (JSON) or the form |
| AuthRoutes.Logout | auth/auth_routes.py:44-51 | the session is empty afterwards whatever it held; 200 "Logout successful" or a redirect home |
| AuthRoutes.Profile | auth/auth_routes.py:108-115 | behind `login_required`, the current user's dictionary (without hash) for JSON, the profile page otherwise |
| AuthRoutes.Taken | auth/auth_routes.py:65-70 | for a row about to be inserted under an unused id, an existing username or email is exactly a clash with the unique constraints |
| AuthRoutes.NewAccount | auth/auth_routes.py:78-83 | the row has the given id and hash, the body's four fields, is not admin and is active |
| AuthRoutes.ProfileAfterLogout | auth/auth_routes.py:108-115 | after logout the profile answers 401 (JSON) or redirects to login |
| AuthRoutes.Register | auth/auth_routes.py:53-106 | POST: missing `username`/`email` (KeyError text), an existing username or email ("Username or email already exists"), a missing later key, or a failed commit answers 400 (the form for a browser) and adds no user; otherwise exactly one non-admin active user with the hashed password under a fresh id; the session is untouched |
| TicketRoutes.OwnedBy | routes/tickets.py:12 | the tickets whose `user_id` is the given id, unchanged |
| TicketRoutes.GetTickets | routes/tickets.py:7-13 | exactly the actor's own tickets; 500 for a session naming no user |
| TicketRoutes.GetTicket | routes/tickets.py:35-45 | 404 for a missing id before any ownership check; 200 with the ticket iff the actor owns it; 403 "Access denied" for any other resolved actor |
| TicketRoutes.NewTicket | routes/tickets.py:21-27 | the given id, the actor as owner, no assignee, title and description from the body, status and priority from the body or "open" and "medium" |
| TicketRoutes.CreateTicketError | routes/tickets.py:21-26 | a missing title is reported first, then a missing description, then an unresolved actor; no error iff none of these holds |
| TicketRoutes.NewTicketIgnoresOwnerAndAssignee | routes/tickets.py:21-27 | the new row's owner is the actor and it has no assignee, whatever the body claims; status defaults to "open" and priority to "medium" |
| TicketRoutes.CreateTicket | routes/tickets.py:15-33 | a missing title or description (KeyError text), an unresolved actor or a failed commit answers 400 and adds nothing; otherwise one new ticket under a fresh id, answered with 201 |
| TicketRoutes.ApplyTicketChanges | routes/tickets.py:58-62 | title, description, status and priority are each replaced only when the key is present; id, owner and assignee are kept |
| TicketRoutes.ApplyTicketChangesIdempotent | routes/tickets.py:58-62 | applying the same update twice equals applying it once |
| TicketRoutes.ApplyTicketChangesEmpty | routes/tickets.py:58-62 | an empty body changes nothing |
| TicketRoutes.UpdateTicket | routes/tickets.py:47-68 | 404 before 403; the owner's update changes that ticket only; 403 and a failed commit leave the table unchanged |
| TicketRoutes.DeleteTicket | routes/tickets.py:70-86 | 404 before 403; the owner's delete removes that ticket only with "Ticket deleted successfully"; otherwise the table is unchanged |
| UserRoutes.GetUsers | routes/users.py:7-11 | every user's dictionary to any logged-in actor |
| UserRoutes.SelfOnly | routes/users.py:46-49 | the handler goes on iff the actor resolves and its id equals the path id |
| UserRoutes.GetUser | routes/users.py:43-52 | 403 for a foreign id, checked before existence (admins included); with rows keyed by id, 200 with the actor's own dictionary exactly when the actor reads their own id |
| UserRoutes.SelfOnlyRoutesNeverAnswer404 | routes/users.py:48-51 | with rows keyed by id, the 404 branch of the self-only reads cannot be reached |
| UserRoutes.GetUserTickets | routes/users.py:94-104 | 403 for a foreign id; otherwise the tickets owned by the path id |
| UserRoutes.OwnTicketsTwoWays | routes/users.py:94-104 | `/users/<own id>/tickets` answers exactly what `/tickets` answers |
| UserRoutes.CreateUser | routes/users.py:13-41 | no login guard; a duplicate username or email, a missing key or a failed commit answers 400 and adds nothing; otherwise one non-admin active row, with a hash only when a password is given |
| UserRoutes.InitialHash | routes/users.py:33-34 | a hash exactly when the body has a password, and then the hash of that password |
| UserRoutes.ApplyUserChanges | routes/users.py:63-70 | username, email, first and last name replaced only when present; the hash only when a password is given; id and flags kept |
| UserRoutes.UpdateUser | routes/users.py:54-76 | only one's own record; a result clashing with another user's username or email, or a failed commit, answers 400 and leaves the table unchanged |
| UserRoutes.DeleteUser | routes/users.py:78-92 | only one's own record is removed, with "User deleted successfully"; the session then names no user |
| JsStrings.IndexOf | static/js/api.js:30 | the first position where the pattern occurs, or -1 exactly when it occurs nowhere |
| JsStrings.ReplaceFirst | static/js/api.js:7 | `replace` with a string pattern: unchanged without an occurrence; otherwise the first occurrence, wherever it is, is replaced and the rest is kept |
| JsStrings.ToLowerCase | static/js/create_ticket_modal.js:123 | same length, each character lower-cased |
| JsStrings.Trim | static/js/create_ticket_modal.js:115 | the result is the slice of the input left once its leading and trailing spaces are removed, with no space at either end |
| JsStrings.TrimEmptyIffBlank | static/js/create_ticket_modal.js:115 | trimming yields "" exactly when every character is a space |
| JsStrings.IntToString | static/js/admin_dashboard.js:177 | a non-empty text with no surrounding space, starting with "-" iff the number is negative |
| JsStrings.ParseInt | static/js/create_ticket_modal.js:65 | NaN exactly when no digit follows the leading spaces and sign; otherwise the value of the leading digit run, negated after a minus |
| JsStrings.ParseIntOfIntToString | static/js/create_ticket_modal.js:65 | `parseInt(String(n)) == n` |
| JsStrings.StringToNumber | static/js/dashboard.js:174 | the number a string converts to under `==`; a blank string is 0 |
| JsStrings.StringToNumberOfIntToString | static/js/dashboard.js:174 | `n == String(n)` holds |
| JsStrings.IntToStringInjective | static/js/admin_dashboard.js:177 | different numbers print differently |
| JsJson.Property | static/js/api.js:36 | a named property is present exactly on objects that have that key |
| JsJson.Truthy | static/js/api.js:36 | falsy exactly for null, false, 0 and the empty string |
| JsJson.ToJsString | static/js/api.js:36 | a string is kept as it is; a number's text reads back as that number; null reads "null" |
| JsJson.StringFields | routes/tickets.py:57 | the string members of a JSON body, as the handlers read them |
| JsArrays.Filter | static/js/dashboard.js:104 | an element is kept iff it was there and satisfies the predicate, and every copy of a kept element is kept |
| JsArrays.FilterIsSubsequence | static/js/dashboard.js:104 | filtering keeps the kept elements in their order |
| JsArrays.FilterExtensional | static/js/dashboard.js:104 | predicates that agree on every element filter alike |
| JsArrays.FilterKeepsAll | static/js/admin_dashboard.js:168-170 | a predicate every element meets keeps the whole array |
| JsArrays.CountDisjoint | static/js/admin_dashboard.js:154-155 | two counters over predicates that never both hold add up to at most the length |
| JsArrays.CountDisjoint3 | static/js/dashboard.js:44-46 | the same for three pairwise exclusive predicates |
| JsArrays.FindIndex | static/js/dashboard.js:174 | the first matching index, or -1 iff nothing matches |
| JsArrays.Find | static/js/edit_ticket_modal.js:107 | the element at `findIndex`'s position (the first match), or undefined iff nothing matches |
| AdminPage.FilterTickets | static/js/admin_dashboard.js:168-182 | a ticket is kept iff the status, priority and assignee filters all match, with every copy kept, in the original order |
| AdminPage.HasAssignee | static/js/admin_dashboard.js:175 | `ticket.assigned_to` is truthy as a JSON value (null and 0 are not) |
| AdminPage.AssigneeMatches | static/js/admin_dashboard.js:172-179 | "all" keeps every ticket, "unassigned" exactly those without a truthy assignee, any other value only tickets whose assignee id reads back from it |
| AdminPage.Keeps | static/js/admin_dashboard.js:168-182 | with every select on "all" every ticket passes; a passing ticket has the chosen status and priority and matches the assignee select |
| AdminPage.NoFiltersKeepEverything | static/js/admin_dashboard.js:168-170 | with every filter on "all", every ticket is kept |
| AdminPage.AssigneeFilterSelectsUser | static/js/admin_dashboard.js:173-178 | choosing a user's id in the assignee filter keeps exactly the tickets assigned to that user |
| AdminPage.ComputeStats | static/js/admin_dashboard.js:151-161 | total is the number of loaded tickets; unassigned is at most the total; in-progress plus closed is at most the total |
| AdminPage.StatsCountFilteredRows | static/js/admin_dashboard.js:151-161 | the unassigned, in-progress and closed counters are the numbers of rows the "unassigned", "in_progress" and "closed" filters keep |
| AdminPage.StatsAfterPrepend | static/js/admin_dashboard.js:16-17 | prepending a ticket raises the total by one and each counter by one exactly when it applies to that ticket |
| AdminPage.Capitalize | static/js/admin_dashboard.js:315-317 | same length; only the first character is upper-cased |
| AdminPage.CapitalizeIdempotent | static/js/admin_dashboard.js:315-317 | capitalising twice is capitalising once |
| AdminPage.StatusLabel | static/js/admin_dashboard.js:119 | the badge differs from the status only at the first underscore, which becomes a space, and at the first character, which is upper-cased |
| AdminPage.StatusBadges | static/js/admin_dashboard.js:119 | the three statuses read "Open", "In progress" and "Closed" |
| AdminPage.PriorityLabel | static/js/admin_dashboard.js:123-124 | "URGENT" for high and urgent, otherwise the capitalised priority |
| AdminPage.PriorityBadges | static/js/admin_dashboard.js:123-124 | the four priorities read Low, Medium, URGENT, URGENT |
| AdminPage.DescriptionPreview | static/js/admin_dashboard.js:110 | empty for an empty description, the whole text up to 50 characters, else the first 50 and "..." (the same expression is at static/js/dashboard.js:73) |
| AdminPage.PreviewIsBounded | static/js/admin_dashboard.js:110 | at most 53 characters, starting with the description's first 50, longer than 50 iff the description was cut |
| AdminPage.AdminDashboard.constructor | static/js/admin_dashboard.js:2-4 | both lists start empty |
| AdminPage.AdminDashboard.LoadTickets | static/js/admin_dashboard.js:74-89 | both lists become the loaded tickets and the counters are recomputed |
| AdminPage.AdminDashboard.ApplyFilters | static/js/admin_dashboard.js:163-185 | the view becomes the filtered tickets |
| AdminPage.AdminDashboard.ClearFilters | static/js/admin_dashboard.js:187-193 | the filters are reset and the view becomes every ticket |
| AdminPage.AdminDashboard.OnTicketCreatedAsWritten | static/js/admin_dashboard.js:14-19 | the ticket is prepended and the counters refreshed, then the call throws and the view is unchanged |
| AdminPage.AdminDashboard.OnTicketCreated | static/js/admin_dashboard.js:14-19 | the ticket is prepended, the existing ones shift by one, and the view is refiltered to include it when the filters match |
| AdminPage.CreatedTicketMissingFromView | static/js/admin_dashboard.js:14-19 | a new ticket the filters match is absent from the old view and present in the refiltered one |
| DashboardPage.FilterTickets | static/js/dashboard.js:100-111 | a ticket is kept iff the status and priority filters each match, with every copy kept, in the original order |
| DashboardPage.Keeps | static/js/dashboard.js:104-108 | the same test as the admin page's with its assignee select on "all" |
| DashboardPage.SameAsAdminFilter | static/js/dashboard.js:104-108 | the user dashboard filters exactly like the admin dashboard with its assignee filter on "all" |
| DashboardPage.ComputeStats | static/js/dashboard.js:42-52 | total is the length of `allTickets`; open, in-progress and closed are the numbers of rows the matching status filter keeps, and add up to at most the total |
| DashboardPage.IndexOfIdField | static/js/dashboard.js:174 | the first ticket whose id loosely equals the form's id text, or -1 iff none does |
| DashboardPage.LooseIdMatch | static/js/dashboard.js:174 | when the form's text is some number's decimal form, it matches exactly the ticket with that id |
| DashboardPage.EditFormFindsTicket | static/js/dashboard.js:147 | the id written into the edit form finds the first ticket with that id |
| DashboardPage.WithoutId | static/js/dashboard.js:196 | every copy of every ticket with that id is dropped; every copy of the rest is kept, in order |
| DashboardPage.Dashboard.constructor | static/js/dashboard.js:3-4 | both lists start empty |
| DashboardPage.Dashboard.LoadTickets | static/js/dashboard.js:23-35 | both lists become the loaded tickets |
| DashboardPage.Dashboard.ApplyFilters | static/js/dashboard.js:100-111 | the view becomes the filtered `allTickets` |
| DashboardPage.Dashboard.HandleCreateTicket | static/js/dashboard.js:113-141 | on success the new ticket is prepended, the view refiltered and the counters recomputed; on failure nothing changes |
| DashboardPage.Dashboard.HandleEditTicket | static/js/dashboard.js:156-186 | only the first ticket whose id matches is replaced; with no match or a failed request nothing changes |
| DashboardPage.Dashboard.DeleteTicket | static/js/dashboard.js:188-204 | after confirmation and success every ticket with that id is removed and the rest keep their order; otherwise nothing changes |
| DashboardPage.DeletedTicketGone | static/js/dashboard.js:196-198 | after a delete no shown ticket has that id |
| EditModal.FindById | static/js/edit_ticket_modal.js:107 | a ticket with that id no earlier ticket has (the first), or none iff no ticket has it |
| EditModal.CanEdit | static/js/edit_ticket_modal.js:115-117 | nobody without a current user; any admin; otherwise exactly the creator or the assignee |
| EditModal.ServerOwnerRuleImpliesCanEdit | static/js/edit_ticket_modal.js:115-117 | whenever routes/tickets.py:42 lets the current user read a ticket, the modal lets that user open it |
| EditModal.CanEditAdmitsNonOwners | static/js/edit_ticket_modal.js:115-117 | an admin who does not own a ticket may open it, while the server answers 403 |
| EditModal.UpdatePayload | static/js/edit_ticket_modal.js:59-76 | title, description and priority always; status and assignee only when their fields exist; an empty assignee is null |
| EditModal.ServerAppliesUpdatePayload | static/js/edit_ticket_modal.js:59-76 | the owner's update applies the text fields and keeps the assignee, whatever the modal sent |
| EditModal.EditTicketModal.constructor | static/js/edit_ticket_modal.js:6-15 | the tickets from the options or an empty list; no ticket open |
| EditModal.EditTicketModal.EditTicket | static/js/edit_ticket_modal.js:104-122 | looks in the given list, else its own; a missing ticket or a refused user leaves `currentTicket` unchanged; an allowed user opens the ticket |
| EditModal.EditTicketModal.BuildUpdatePayload | static/js/edit_ticket_modal.js:59-76 | the body built step by step is `UpdatePayload` |
| EditModal.EditTicketModal.UpdateTicketsArray | static/js/edit_ticket_modal.js:202-204 | the list is replaced and nothing else changes |
| CreateModal.AssigneeJson | static/js/create_ticket_modal.js:65 | a number, or null exactly when `parseInt` gives NaN |
| CreateModal.AssigneeOptionRoundTrip | static/js/create_ticket_modal.js:65 | an assignee option's value is sent as that user's id |
| CreateModal.IsAdminUser | static/js/create_ticket_modal.js:62 | false without a current user; otherwise the current user's `is_admin` |
| CreateModal.AdminFlagMatchesServerGuard | static/js/create_ticket_modal.js:62 | for the session's own user dictionary, the modal's admin test holds exactly when `admin_required` (auth/auth_utils.py:17-35) lets the request through |
| CreateModal.CreatePayload | static/js/create_ticket_modal.js:54-67 | always title, description, priority and status; `assigned_to` iff the user is admin and chose someone |
| CreateModal.ServerBuildsTicketFromPayload | static/js/create_ticket_modal.js:54-67 | the server turns that body into a ticket with those four fields, owned by the actor, with no assignee |
| CreateModal.DisplayName | static/js/create_ticket_modal.js:115 | full name, else the trimmed first and last name, else the username |
| CreateModal.NamesJoined | static/js/create_ticket_modal.js:115 | no space at either end; empty exactly when both the first and the last name are blank |
| CreateModal.DisplayNameNeverBlank | static/js/create_ticket_modal.js:115 | a user with a username always gets a non-empty text, the username itself when no names are given |
| CreateModal.ClassifyAssigneeError | static/js/create_ticket_modal.js:123-131 | network (case-insensitive) first, then "403", then "401", then generic |
| CreateModal.UnreachableServerIsNetworkIssue | static/js/create_ticket_modal.js:123-124 | the helper's network failure is classified as a network issue |
| CreateModal.GenericWithoutMarkers | static/js/create_ticket_modal.js:123-131 | a message with no k and no 4 is generic |
| CreateModal.TextDenialIsGeneric | static/js/create_ticket_modal.js:125-130 | a JSON denial with such a text is generic whatever its status |
| CreateModal.ServerDenialsAreText | auth/auth_utils.py:22-30 | the admin and login denial texts are such texts |
| CreateModal.BareForbiddenIsPermissionIssue | static/js/create_ticket_modal.js:125-126 | a 403 answer whose body has no truthy `error` text is reported as "HTTP 403" and reaches the permission branch |
| CreateModal.CreateTicketModal.constructor | static/js/create_ticket_modal.js:6-15 | no redirect unless asked; target "/dashboard" unless a non-empty one is given |
| CreateModal.CreateTicketModal.BuildPayload | static/js/create_ticket_modal.js:51-67 | the body built step by step is `CreatePayload` |
| Api.UpgradeUrl | static/js/api.js:5-9 | an `http://` URL becomes `https://` iff the page is served over https; other URLs are unchanged |
| Api.UpgradeUrlSettles | static/js/api.js:5-9 | on an https page no request leaves as `http://`; upgrading twice is upgrading once |
| Api.MergeOptions | static/js/api.js:10-21 | JSON Content-Type and Accept and same-origin credentials by default; caller headers and options win key by key |
| Api.ResponseData | static/js/api.js:28-34 | a JSON body as parsed, "Invalid JSON response" when it does not parse, "Non-JSON response" with the status otherwise |
| Api.ErrorMessage | static/js/api.js:35-36 | the truthy `error` member, else "HTTP " and the status |
| Api.ApiRequest | static/js/api.js:4-39 | a rejected fetch throws "Network error: Unable to connect to server."; a non-ok response throws the error message; an ok response returns the data |
| Api.ServerErrorReachesCaller | static/js/api.js:35-36 | the server's `{"error": message}` is thrown with that message |
| Api.NonJsonErrorHidesStatus | static/js/api.js:33-36 | a non-JSON error page is always reported as "Non-JSON response" |
| Api.StatusMessageNeedsJsonBody | static/js/api.js:36 | "HTTP status" only arises from a parsed JSON body |
| Api.Install | static/js/api.js:3 | an existing `apiRequest` is never replaced |
| Api.InstallIdempotent | static/js/api.js:3 | loading the script twice is loading it once |

## Left out

- models.py is not part of this model. The columns, the unique constraints on username and email, and the `to_dict` fields without the hash follow _test/models_test.py. New users default to active and non-admin.
- Flask plumbing is not modelled: `flash`, template rendering, `url_for`, `jsonify` and the blueprint wiring. Redirects and pages are enumerations.
- Request bodies are string maps. A body that is not JSON, does not parse, or whose values are not strings is not modelled. Neither is the `.get` of a login field that is absent.
- Password hashing and checking (werkzeug) are foreign calls. They are the parameters `hashOf` and `checkPassword`.
- The database is maps with an all-or-nothing commit. The driver's exception text is the `dbError` parameter or `UniqueViolationMessage`. Timestamps and foreign-key cascades on user delete are not modelled.
- Store.FirstUserWhere: `.first()` without `order_by` is assumed to return the row with the smallest id.
- TicketRoutes.CreateTicket: the ticket sequence is assumed not to advance on a failed insert. PostgreSQL does advance it, which shows only in the ids.
- Admin and assignee access to tickets and the `/api/tickets/admin/...` endpoints that the scripts call exist only in the tests. routes/tickets.py does not have them.
- setup/, main.py, config.py, static/js/profile.js and the test harness are not part of this model.
- The scripts' DOM work is not modelled: rendering, `escapeHtml`, `formatDate`, bootstrap modals, toasts and `confirm`. The confirmation and the request outcome are parameters.
- `fetch`, `await` and `setTimeout` are not modelled. A request's outcome is a parameter of the handler that awaits it, and the redirect after create is not modelled.
- The admin dashboard's `updateTicket`, `assignTicket` and `deleteTicket` are not modelled. They only send a request and reload.
- DashboardPage.Dashboard.LoadTickets: the script makes `allTickets` and `filteredTickets` the same array. Later in-place `unshift` and index writes therefore also show in the view until the next refilter. The model keeps two values, and every handler refilters right away.
- JsStrings.ToLowerCase and AdminPage.Capitalize map ASCII letters only. JavaScript maps all of Unicode, and `toUpperCase` can change the length (for example ß).
- JsStrings.Trim covers the common space characters, not every Unicode space separator.
- AdminPage.DescriptionPreview counts Unicode scalar values, as Dafny strings do. The scripts' `length > 50` and `substring(0, 50)` count UTF-16 code units, so a description with characters outside the Basic Multilingual Plane (emoji, for example) is cut later in the model than in the browser, and the browser may split such a character.
- AdminPage.PreviewIsBounded states its bound of 53 in the same scalar-value count, not in UTF-16 code units.
- DashboardPage.Dashboard.HandleCreateTicket assumes that the user dashboard's page supplies `capitalize` and `showToast`. dashboard.js:77 and 82 call `capitalize`, which only admin_dashboard.js:315 defines. Without it, rendering the table inside `applyFilters` throws, the counters are not refreshed and the failure toast shows.
- DashboardPage.Dashboard.HandleEditTicket makes the same assumption about `capitalize` and `showToast`.
- DashboardPage.Dashboard.DeleteTicket makes the same assumption about `capitalize` and `showToast`.
- JsStrings.ParseInt reads decimal only: a `0x` prefix, which `parseInt` reads as hexadecimal, is not modelled.
- JsStrings.StringToNumber reads signed decimal integers only: fractions, exponents, `Infinity` and hexadecimal are not modelled.
- JsJson.Json numbers are integers, and ticket descriptions are strings. A null description is treated as the empty string.
- Api.MergeOptions treats header names as exact keys. The case-insensitive merging done by `fetch`'s `Headers` is not modelled.

## Findings

| source | as written | input that shows it | evidently intended | confidence | as-written member | corrected member |
|---|---|---|---|---|---|---|
| static/js/admin_dashboard.js:18 | after prepending the new ticket and refreshing the counters, the callback calls `filterTickets()`, which no script defines, so it throws and the table keeps the old filtered list | any ticket created from the admin dashboard while its filters match it | refilter with the current selects (`applyFilters()`), so the new ticket appears | low, not executed (a page template outside this model could define the function) | AdminPage.AdminDashboard.OnTicketCreatedAsWritten | AdminPage.AdminDashboard.OnTicketCreated |
