/** The responses the Flask handlers produce, as tagged values. */
module Http {
  import opened Models

  /** The two redirect targets: `url_for('auth.login')` and `url_for('home')`. */
  datatype Page = LoginPage | HomePage

  /** The HTML templates a handler renders for browser (non-JSON) requests. */
  datatype Template = LoginTemplate | RegisterTemplate | ProfileTemplate

  /** JSON bodies of successful responses. */
  datatype Payload =
    | Message(text: string)
    | UserBody(user: UserDict)
    | UserMessage(text: string, user: UserDict)
    | UserList(users: map<int, UserDict>)
    | TicketBody(ticket: Ticket)
    | TicketList(tickets: map<int, Ticket>)

  datatype Response =
    | Ok(payload: Payload)              // 200 with a JSON body
    | Created(payload: Payload)         // 201 with a JSON body
    | Err(code: int, msg: string)       // {"error": msg} with that status
    | Redirect(to: Page)                // 302 (a flashed message is not modelled)
    | Render(template: Template)        // 200 with an HTML page
    | NotFound                          // `get_or_404` aborting with 404
    | ServerError                       // an exception nobody catches: 500

  const AccessDenied := "Access denied"

  /** `str(e)` of the `KeyError` raised by `data[key]`. */
  function KeyErrorMessage(key: string): string {
    "'" + key + "'"
  }

  /** `str(e)` of reading `.id` from the `None` that `get_current_user` returned. */
  const NoneIdMessage := "'NoneType' object has no attribute 'id'"

  /** Stand-in for the driver's text when a commit breaks a unique constraint. */
  const UniqueViolationMessage := "duplicate key value violates unique constraint"
}
