/**
 * The shared edit-ticket modal: which ticket it opens, who may open it, the
 * body it sends to `PUT /api/tickets/<id>`, and the ticket list it looks in.
 */
module EditModal {
  import opened Wrappers
  import opened Models
  import opened Http
  import opened AuthUtils
  import opened TicketRoutes
  import opened JsJson
  import opened JsArrays

  /** `ticketsArray.find(t => t.id === ticketId)`. */
  function FindById(tickets: seq<Ticket>, id: int): (r: Option<Ticket>)
    ensures r.None? <==> forall j :: 0 <= j < |tickets| ==> tickets[j].id != id
    ensures r.Some? ==> r.value.id == id && r.value in tickets
    ensures r.Some? ==> exists i :: 0 <= i < |tickets| && r.value == tickets[i] && forall j :: 0 <= j < i ==> tickets[j].id != id
  {
    Find(tickets, (t: Ticket) => t.id == id)
  }

  /**
   * The permission test of `editTicket`: nobody without a current user, any
   * admin, and otherwise the creator or the assignee only.
   */
  function CanEdit(user: Option<UserDict>, t: Ticket): (b: bool)
    ensures user.None? ==> !b
    ensures user.Some? && user.value.isAdmin ==> b
    ensures user.Some? && !user.value.isAdmin ==>
      (b <==> t.userId == user.value.id || t.assignedTo == Some(user.value.id))
  {
    user.Some? && (user.value.isAdmin || t.userId == user.value.id || t.assignedTo == Some(user.value.id))
  }

  /**
   * Whenever the server lets the current user read a ticket (the owner rule
   * that also governs update and delete), the modal lets that user open it.
   */
  lemma ServerOwnerRuleImpliesCanEdit(session: Session, users: UserTable, tickets: TicketTable, isJson: bool, id: int)
    requires GetTicket(session, users, tickets, isJson, id).Ok?
    ensures GetCurrentUser(session, users).Some?
    ensures CanEdit(Some(ToDict(GetCurrentUser(session, users).value)), tickets[id])
  {
  }

  /**
   * The converse fails: an admin who neither created nor is assigned the
   * ticket may open the modal, and the server then refuses the update.
   */
  lemma CanEditAdmitsNonOwners()
    ensures var admin := User(1, "root", "root@example.org", "Ada", "Admin", None, true, true);
      var t := Ticket(7, "Printer", "Jammed", "open", "medium", 2, None);
      var session := Session(Some(1), Some("root"));
      && CanEdit(Some(ToDict(admin)), t)
      && GetTicket(session, map[1 := admin], map[7 := t], true, 7) == Err(403, AccessDenied)
  {
  }

  /** What `editTicket` did. */
  datatype EditOutcome = TicketNotFound | EditRefused | Opened

  /**
   * The body `handleUpdateTicket` sends: title, description and priority
   * always; status and assignee only when their fields are on the page,
   * with an empty assignee sent as null.
   */
  function UpdatePayload(title: string, description: string, priority: string,
                         statusField: Option<string>, assigneeField: Option<string>): (p: map<string, Json>)
    ensures p.Keys == {"title", "description", "priority"}
                      + (if statusField.Some? then {"status"} else {})
                      + (if assigneeField.Some? then {"assigned_to"} else {})
    ensures p["title"] == JStr(title) && p["description"] == JStr(description) && p["priority"] == JStr(priority)
    ensures statusField.Some? ==> p["status"] == JStr(statusField.value)
    ensures assigneeField.Some? && assigneeField.value == "" ==> p["assigned_to"] == JNull
    ensures assigneeField.Some? && assigneeField.value != "" ==> p["assigned_to"] == JStr(assigneeField.value)
  {
    var base := map["title" := JStr(title), "description" := JStr(description), "priority" := JStr(priority)];
    var withStatus := if statusField.Some? then base["status" := JStr(statusField.value)] else base;
    if assigneeField.Some? then
      withStatus["assigned_to" := if assigneeField.value == "" then JNull else JStr(assigneeField.value)]
    else withStatus
  }

  /**
   * What the server makes of that body for the owner: the text fields are
   * applied and the assignee, whatever the modal sent, is kept as it was.
   */
  lemma ServerAppliesUpdatePayload(t: Ticket, title: string, description: string, priority: string,
                                   statusField: Option<string>, assigneeField: Option<string>)
    ensures var body := StringFields(UpdatePayload(title, description, priority, statusField, assigneeField));
      ApplyTicketChanges(t, body)
        == t.(title := title, description := description, priority := priority,
              status := if statusField.Some? then statusField.value else t.status)
  {
    var body := StringFields(UpdatePayload(title, description, priority, statusField, assigneeField));
    assert body["title"] == title && body["description"] == description && body["priority"] == priority;
    assert "status" in body <==> statusField.Some?;
  }

  class EditTicketModal {
    var currentUser: Option<UserDict>
    var currentTicket: Option<Ticket>
    var allTickets: seq<Ticket>

    /**
     * `new EditTicketModal(options)`: the ticket list from the options or
     * empty, the user from the page's `data-user-info` element if any, and
     * no ticket open.
     */
    constructor (optionTickets: Option<seq<Ticket>>, userInfo: Option<UserDict>)
      ensures allTickets == (if optionTickets.Some? then optionTickets.value else [])
      ensures currentUser == userInfo && currentTicket.None?
    {
      allTickets := if optionTickets.Some? then optionTickets.value else [];
      currentUser := userInfo;
      currentTicket := None;
    }

    /**
     * `editTicket(ticketId, tickets)`: look in the given list, else in the
     * modal's own; open the ticket only for a user allowed to edit it.
     */
    method EditTicket(id: int, tickets: Option<seq<Ticket>>) returns (outcome: EditOutcome)
      modifies this`currentTicket
      ensures var found := FindById(if tickets.Some? then tickets.value else allTickets, id);
        && (found.None? ==> outcome == TicketNotFound && currentTicket == old(currentTicket))
        && (found.Some? && !CanEdit(currentUser, found.value) ==>
              outcome == EditRefused && currentTicket == old(currentTicket))
        && (found.Some? && CanEdit(currentUser, found.value) ==>
              outcome == Opened && currentTicket == found)
    {
      var source := if tickets.Some? then tickets.value else allTickets;
      var ticket := FindById(source, id);
      if ticket.None? {
        return TicketNotFound;
      }
      if !CanEdit(currentUser, ticket.value) {
        return EditRefused;
      }
      currentTicket := ticket;
      outcome := Opened;
    }

    /** `handleUpdateTicket`: the body is built field by field. */
    method BuildUpdatePayload(title: string, description: string, priority: string,
                              statusField: Option<string>, assigneeField: Option<string>)
      returns (payload: map<string, Json>)
      ensures payload == UpdatePayload(title, description, priority, statusField, assigneeField)
    {
      payload := map["title" := JStr(title), "description" := JStr(description), "priority" := JStr(priority)];
      if statusField.Some? {
        payload := payload["status" := JStr(statusField.value)];
      }
      if assigneeField.Some? {
        payload := payload["assigned_to" := if assigneeField.value == "" then JNull else JStr(assigneeField.value)];
      }
    }

    /** `updateTicketsArray`: the list is replaced and nothing else changes. */
    method UpdateTicketsArray(tickets: seq<Ticket>)
      modifies this`allTickets
      ensures allTickets == tickets
    {
      allTickets := tickets;
    }
  }
}
