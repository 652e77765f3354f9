/**
 * The rows the server stores and the session it keeps.
 *
 * models.py is not part of this model: the columns, their defaults and the
 * unique constraints on `username` and `email` are the ones the model tests
 * rely on (_test/models_test.py).
 */
module Models {
  import opened Wrappers

  /** A row of the users table. The hash is produced by an external function. */
  datatype User = User(
    id: int,
    username: string,
    email: string,
    firstName: string,
    lastName: string,
    passwordHash: Option<string>,
    isAdmin: bool,
    isActive: bool)

  /** What `User.to_dict()` exposes: every column except the password hash. */
  datatype UserDict = UserDict(
    id: int,
    username: string,
    email: string,
    firstName: string,
    lastName: string,
    isAdmin: bool,
    isActive: bool)

  /** A row of the tickets table, also the JSON object the browser receives. */
  datatype Ticket = Ticket(
    id: int,
    title: string,
    description: string,
    status: string,
    priority: string,
    userId: int,
    assignedTo: Option<int>)

  /** The two keys of the Flask session the program reads and writes. */
  datatype Session = Session(userId: Option<int>, username: Option<string>)

  const EmptySession := Session(None, None)

  type UserTable = map<int, User>
  type TicketTable = map<int, Ticket>

  /** A request body (a JSON object or a submitted form) with string values. */
  type Body = map<string, string>

  const DefaultStatus := "open"
  const DefaultPriority := "medium"

  function ToDict(u: User): UserDict {
    UserDict(u.id, u.username, u.email, u.firstName, u.lastName, u.isAdmin, u.isActive)
  }

  /** Every row is stored under its own primary key. */
  ghost predicate UsersKeyed(users: UserTable) {
    forall k :: k in users ==> users[k].id == k
  }

  ghost predicate TicketsKeyed(tickets: TicketTable) {
    forall k :: k in tickets ==> tickets[k].id == k
  }

  /** The unique constraints on users.username and users.email. */
  predicate UniqueAccounts(users: UserTable) {
    forall a, b :: a in users && b in users && a != b ==>
      users[a].username != users[b].username && users[a].email != users[b].email
  }

  /** Some row other than `id` already holds the username or the email of `u`. */
  predicate ClashesWith(users: UserTable, id: int, u: User) {
    exists k :: k in users && k != id && (users[k].username == u.username || users[k].email == u.email)
  }

  /**
   * Writing `u` under `id` keeps the unique constraints exactly when no other
   * row holds its username or email: this is the test the database applies
   * at commit.
   */
  lemma WriteKeepsUniqueIff(users: UserTable, id: int, u: User)
    requires UniqueAccounts(users)
    ensures UniqueAccounts(users[id := u]) <==> !ClashesWith(users, id, u)
  {
    var m := users[id := u];
    if ClashesWith(users, id, u) {
      var k :| k in users && k != id && (users[k].username == u.username || users[k].email == u.email);
      assert m[k] == users[k] && m[id] == u;
      assert !UniqueAccounts(m);
    } else {
      forall a, b | a in m && b in m && a != b
        ensures m[a].username != m[b].username && m[a].email != m[b].email
      {
        if a == id {
          assert m[b] == users[b];
        } else if b == id {
          assert m[a] == users[a];
        }
      }
    }
  }

  /** Removing rows never breaks the unique constraints. */
  lemma RemoveKeepsUnique(users: UserTable, id: int)
    requires UniqueAccounts(users)
    ensures UniqueAccounts(users - {id})
  {
  }
}
