/**
 * The server's state between requests: the two tables the handlers read and
 * write through SQLAlchemy, and the Flask session of the client at hand.
 */
module Store {
  import opened Wrappers
  import opened Models

  class App {
    var users: UserTable
    var tickets: TicketTable
    var session: Session
    /** The next values of the two id sequences. */
    var nextUserId: int
    var nextTicketId: int

    /** What the database guarantees of every committed state. */
    ghost predicate Valid()
      reads this
    {
      && UniqueAccounts(users)
      && UsersKeyed(users)
      && TicketsKeyed(tickets)
      && (forall k :: k in users ==> 1 <= k < nextUserId)
      && (forall k :: k in tickets ==> 1 <= k < nextTicketId)
      && nextUserId >= 1 && nextTicketId >= 1
    }

    constructor ()
      ensures Valid()
      ensures users == map[] && tickets == map[] && session == EmptySession
    {
      users := map[];
      tickets := map[];
      session := EmptySession;
      nextUserId := 1;
      nextTicketId := 1;
    }
  }

  /**
   * `User.query.filter(p).first()`: the smallest id whose row satisfies `p`,
   * or None. Rows are visited in id order over the range the sequence has
   * handed out.
   */
  method FirstUserWhere(users: UserTable, nextId: int, p: User -> bool) returns (found: Option<int>)
    requires forall k :: k in users ==> 1 <= k < nextId
    ensures found.Some? ==> found.value in users && p(users[found.value])
    ensures found.Some? ==> forall k :: k in users && k < found.value ==> !p(users[k])
    ensures found.None? ==> forall k :: k in users ==> !p(users[k])
  {
    var i := 1;
    while i < nextId
      invariant 1 <= i && (i <= nextId || nextId < 1)
      invariant forall k :: k in users && k < i ==> !p(users[k])
    {
      if i in users && p(users[i]) {
        return Some(i);
      }
      i := i + 1;
    }
    return None;
  }

  /** `data.get(key, default)`. */
  function GetOr(data: Body, key: string, default: string): (v: string)
    ensures key in data ==> v == data[key]
    ensures key !in data ==> v == default
  {
    if key in data then data[key] else default
  }
}
