/**
 * The `tickets` blueprint. Every route sits behind `login_required`; the
 * ticket policy is owner-only, and a missing ticket answers 404 before
 * ownership is looked at. Reads are functions of the current state; writes
 * are methods on the application state that commit or roll back.
 */
module TicketRoutes {
  import opened Wrappers
  import opened Models
  import opened Http
  import opened AuthUtils
  import opened Store

  /** `Ticket.query.filter_by(user_id=uid).all()`, as a sub-table. */
  function OwnedBy(tickets: TicketTable, uid: int): (r: TicketTable)
    ensures forall k :: k in r <==> k in tickets && tickets[k].userId == uid
    ensures forall k :: k in r ==> r[k] == tickets[k]
  {
    map k | k in tickets && tickets[k].userId == uid :: tickets[k]
  }

  /** The resolved current user owns `t` (`ticket.user_id == current_user.id`). */
  predicate ActorOwns(session: Session, users: UserTable, t: Ticket) {
    match GetCurrentUser(session, users)
    case Some(u) => u.id == t.userId
    case None => false
  }

  /** `get_tickets`: the actor's own tickets and no others. */
  function GetTickets(session: Session, users: UserTable, tickets: TicketTable, isJson: bool): (r: Response)
    ensures session.userId.None? ==> r == LoginDenial(isJson)
    ensures session.userId.Some? && GetCurrentUser(session, users).None? ==> r == ServerError
    ensures r.Ok? ==> r.payload.TicketList? && GetCurrentUser(session, users).Some?
    ensures r.Ok? ==> forall k :: k in r.payload.tickets <==>
      k in tickets && tickets[k].userId == GetCurrentUser(session, users).value.id
    ensures r.Ok? ==> forall k :: k in r.payload.tickets ==> r.payload.tickets[k] == tickets[k]
    ensures GetCurrentUser(session, users).Some? ==> r.Ok?
  {
    match LoginRequired(session, isJson)
    case Deny(denial) => denial
    case Proceed =>
      match GetCurrentUser(session, users)
      case None => ServerError
      case Some(u) => Ok(TicketList(OwnedBy(tickets, u.id)))
  }

  /**
   * `get_ticket`: 200 exactly for the owner; a missing id is 404 for any
   * logged-in actor, before ownership is checked; anyone else gets 403.
   */
  function GetTicket(session: Session, users: UserTable, tickets: TicketTable, isJson: bool, id: int): (r: Response)
    ensures session.userId.None? ==> r == LoginDenial(isJson)
    ensures session.userId.Some? && id !in tickets ==> r == NotFound
    ensures r.Ok? <==> session.userId.Some? && id in tickets && ActorOwns(session, users, tickets[id])
    ensures r.Ok? ==> r == Ok(TicketBody(tickets[id]))
    ensures (session.userId.Some? && id in tickets && GetCurrentUser(session, users).Some?
             && !ActorOwns(session, users, tickets[id])) ==> r == Err(403, AccessDenied)
  {
    match LoginRequired(session, isJson)
    case Deny(denial) => denial
    case Proceed =>
      if id !in tickets then NotFound
      else
        match GetCurrentUser(session, users)
        case None => ServerError
        case Some(u) =>
          if tickets[id].userId != u.id then Err(403, AccessDenied) else Ok(TicketBody(tickets[id]))
  }

  /**
   * The row `create_ticket` builds: title and description from the body,
   * status and priority with their defaults, the owner always the actor and
   * no assignee.
   */
  function NewTicket(id: int, data: Body, owner: int): (t: Ticket)
    requires "title" in data && "description" in data
    ensures t.id == id && t.userId == owner && t.assignedTo.None?
    ensures t.title == data["title"] && t.description == data["description"]
    ensures t.status == (if "status" in data then data["status"] else "open")
    ensures t.priority == (if "priority" in data then data["priority"] else "medium")
  {
    Ticket(id, data["title"], data["description"],
           GetOr(data, "status", DefaultStatus), GetOr(data, "priority", DefaultPriority),
           owner, None)
  }

  /** Whatever the body says about `user_id` or `assigned_to` is ignored. */
  lemma NewTicketIgnoresOwnerAndAssignee(id: int, data: Body, owner: int, claimedOwner: string, claimedAssignee: string)
    requires "title" in data && "description" in data
    ensures var t := NewTicket(id, data, owner);
      && t.userId == owner && t.assignedTo == None
      && NewTicket(id, data["user_id" := claimedOwner]["assigned_to" := claimedAssignee], owner) == t
    ensures "status" !in data ==> NewTicket(id, data, owner).status == "open"
    ensures "priority" !in data ==> NewTicket(id, data, owner).priority == "medium"
  {
    var d := data["user_id" := claimedOwner]["assigned_to" := claimedAssignee];
    assert d["title"] == data["title"] && d["description"] == data["description"];
    assert GetOr(d, "status", DefaultStatus) == GetOr(data, "status", DefaultStatus);
    assert GetOr(d, "priority", DefaultPriority) == GetOr(data, "priority", DefaultPriority);
  }

  /** The message `create_ticket` answers with when building the row fails. */
  function CreateTicketError(data: Body, actor: Option<User>): (e: Option<string>)
    ensures e.None? <==> "title" in data && "description" in data && actor.Some?
    ensures "title" !in data ==> e == Some(KeyErrorMessage("title"))
    ensures "title" in data && "description" !in data ==> e == Some(KeyErrorMessage("description"))
    ensures "title" in data && "description" in data && actor.None? ==> e == Some(NoneIdMessage)
  {
    if "title" !in data then Some(KeyErrorMessage("title"))
    else if "description" !in data then Some(KeyErrorMessage("description"))
    else if actor.None? then Some(NoneIdMessage)
    else None
  }

  /**
   * `create_ticket`: a new row owned by the actor under a fresh id, or 400
   * with the table unchanged (missing key, unresolved actor, failed commit).
   */
  method CreateTicket(app: App, isJson: bool, data: Body, dbError: Option<string>) returns (r: Response)
    requires app.Valid()
    modifies app`tickets, app`nextTicketId
    ensures app.Valid()
    ensures app.session.userId.None? ==> r == LoginDenial(isJson)
    ensures app.session.userId.Some? ==>
      var actor := GetCurrentUser(app.session, app.users);
      match CreateTicketError(data, actor)
      case Some(msg) => r == Err(400, msg)
      case None =>
        if dbError.Some? then r == Err(400, dbError.value)
        else
          var t := NewTicket(old(app.nextTicketId), data, actor.value.id);
          && old(app.nextTicketId) !in old(app.tickets)
          && app.tickets == old(app.tickets)[t.id := t]
          && r == Created(TicketBody(t))
    ensures !r.Created? ==> app.tickets == old(app.tickets)
  {
    match LoginRequired(app.session, isJson)
    case Deny(denial) => return denial;
    case Proceed =>
    var actor := GetCurrentUser(app.session, app.users);
    var failure := CreateTicketError(data, actor);
    if failure.Some? {
      return Err(400, failure.value);
    }
    var ticket := NewTicket(app.nextTicketId, data, actor.value.id);
    if dbError.Some? {
      return Err(400, dbError.value);
    }
    app.tickets := app.tickets[ticket.id := ticket];
    app.nextTicketId := app.nextTicketId + 1;
    r := Created(TicketBody(ticket));
  }

  /**
   * The field-wise update of `update_ticket`: each of title, description,
   * status and priority is replaced only when its key is present.
   */
  function ApplyTicketChanges(t: Ticket, data: Body): (u: Ticket)
    ensures u.id == t.id && u.userId == t.userId && u.assignedTo == t.assignedTo
    ensures u.title == (if "title" in data then data["title"] else t.title)
    ensures u.description == (if "description" in data then data["description"] else t.description)
    ensures u.status == (if "status" in data then data["status"] else t.status)
    ensures u.priority == (if "priority" in data then data["priority"] else t.priority)
  {
    t.(title := GetOr(data, "title", t.title),
       description := GetOr(data, "description", t.description),
       status := GetOr(data, "status", t.status),
       priority := GetOr(data, "priority", t.priority))
  }

  /** Sending the same update twice has the effect of sending it once. */
  lemma ApplyTicketChangesIdempotent(t: Ticket, data: Body)
    ensures ApplyTicketChanges(ApplyTicketChanges(t, data), data) == ApplyTicketChanges(t, data)
  {
  }

  /** An empty body changes nothing. */
  lemma ApplyTicketChangesEmpty(t: Ticket)
    ensures ApplyTicketChanges(t, map[]) == t
  {
  }

  /**
   * `update_ticket`: 404 for a missing id, 403 for a non-owner; the owner's
   * update replaces the submitted fields of that ticket only, or a failed
   * commit rolls back to the table as it was.
   */
  method UpdateTicket(app: App, isJson: bool, id: int, data: Body, dbError: Option<string>) returns (r: Response)
    requires app.Valid()
    modifies app`tickets
    ensures app.Valid()
    ensures app.session.userId.None? ==> r == LoginDenial(isJson)
    ensures app.session.userId.Some? && id !in old(app.tickets) ==> r == NotFound
    ensures app.session.userId.Some? && id in old(app.tickets) ==>
      match GetCurrentUser(app.session, app.users)
      case None => r == ServerError
      case Some(u) =>
        if u.id != old(app.tickets)[id].userId then r == Err(403, AccessDenied)
        else if dbError.Some? then r == Err(400, dbError.value)
        else
          && app.tickets == old(app.tickets)[id := ApplyTicketChanges(old(app.tickets)[id], data)]
          && r == Ok(TicketBody(app.tickets[id]))
    ensures !r.Ok? ==> app.tickets == old(app.tickets)
  {
    match LoginRequired(app.session, isJson)
    case Deny(denial) => return denial;
    case Proceed =>
    var actor := GetCurrentUser(app.session, app.users);
    if id !in app.tickets {
      return NotFound;
    }
    if actor.None? {
      return ServerError;
    }
    var ticket := app.tickets[id];
    if ticket.userId != actor.value.id {
      return Err(403, AccessDenied);
    }
    ticket := ticket.(title := GetOr(data, "title", ticket.title));
    ticket := ticket.(description := GetOr(data, "description", ticket.description));
    ticket := ticket.(status := GetOr(data, "status", ticket.status));
    ticket := ticket.(priority := GetOr(data, "priority", ticket.priority));
    if dbError.Some? {
      return Err(400, dbError.value);
    }
    app.tickets := app.tickets[id := ticket];
    r := Ok(TicketBody(ticket));
  }

  /**
   * `delete_ticket`: the owner's request removes that ticket only; 404,
   * 403 and a failed commit leave the table unchanged.
   */
  method DeleteTicket(app: App, isJson: bool, id: int, dbError: Option<string>) returns (r: Response)
    requires app.Valid()
    modifies app`tickets
    ensures app.Valid()
    ensures app.session.userId.None? ==> r == LoginDenial(isJson)
    ensures app.session.userId.Some? && id !in old(app.tickets) ==> r == NotFound
    ensures app.session.userId.Some? && id in old(app.tickets) ==>
      match GetCurrentUser(app.session, app.users)
      case None => r == ServerError
      case Some(u) =>
        if u.id != old(app.tickets)[id].userId then r == Err(403, AccessDenied)
        else if dbError.Some? then r == Err(400, dbError.value)
        else app.tickets == old(app.tickets) - {id} && r == Ok(Message("Ticket deleted successfully"))
    ensures !r.Ok? ==> app.tickets == old(app.tickets)
  {
    match LoginRequired(app.session, isJson)
    case Deny(denial) => return denial;
    case Proceed =>
    var actor := GetCurrentUser(app.session, app.users);
    if id !in app.tickets {
      return NotFound;
    }
    if actor.None? {
      return ServerError;
    }
    if app.tickets[id].userId != actor.value.id {
      return Err(403, AccessDenied);
    }
    if dbError.Some? {
      return Err(400, dbError.value);
    }
    app.tickets := app.tickets - {id};
    r := Ok(Message("Ticket deleted successfully"));
  }
}
