/**
 * The relational store the route handlers write to, and the one kind of
 * `users` update they issue: `update(users).set(...).where(eq(users.id, id))`.
 */
module Database {
  import opened Schema

  /**
   * The columns one `set(...)` writes. Every update also stamps `updatedAt`.
   * No update ever writes `id`, `role`, `createdAt` or `emailVerified`.
   */
  datatype Patch =
    | SetPassword(hash: string)
    | SetProfile(name: string, email: string)
    | SetImage(image: Option<string>)

  /** A row after one `set(...)` at time `now`. */
  function Apply(u: User, p: Patch, now: Time): (r: User)
    ensures r.id == u.id && r.role == u.role && r.createdAt == u.createdAt
    ensures r.emailVerified == u.emailVerified && r.updatedAt == now
    ensures r.password == (if p.SetPassword? then Some(p.hash) else u.password)
    ensures r.image == (if p.SetImage? then p.image else u.image)
    ensures r.name == (if p.SetProfile? then Some(p.name) else u.name)
    ensures r.email == (if p.SetProfile? then p.email else u.email)
  {
    match p
    case SetPassword(h) => u.(password := Some(h), updatedAt := now)
    case SetProfile(n, e) => u.(name := Some(n), email := e, updatedAt := now)
    case SetImage(i) => u.(image := i, updatedAt := now)
  }

  /**
   * `update(users).set(p).where(eq(users.id, id))`: the row with that id is
   * rewritten, every other row is left alone, and a missing id matches nothing.
   */
  function UpdateUser(users: UsersTable, id: string, p: Patch, now: Time): (r: UsersTable)
    ensures r.Keys == users.Keys
    ensures id in users ==> r[id] == Apply(users[id], p, now)
    ensures forall other :: other in users && other != id ==> r[other] == users[other]
    ensures id !in users ==> r == users
  {
    if id in users then users[id := Apply(users[id], p, now)] else users
  }

  /** Some row other than `id` holds `email`: the uniqueness scan of the profile handlers. */
  predicate EmailHeldByOther(users: UsersTable, email: string, id: string)
  {
    exists other :: other in users && other != id && users[other].email == email
  }

  /**
   * An update keeps the table well formed, provided that a profile update
   * only writes an email that no other row holds.
   */
  lemma UpdateKeepsValid(users: UsersTable, id: string, p: Patch, now: Time)
    requires UsersValid(users)
    requires p.SetProfile? ==> !EmailHeldByOther(users, p.email, id)
    ensures UsersValid(UpdateUser(users, id, p, now))
  {
  }

  /** Without the uniqueness scan, a profile update can break the unique email column. */
  lemma UnscannedUpdateBreaksUniqueness()
    ensures var users := map["a" := NewUser("a", "x@y", None, None, 0), "b" := NewUser("b", "z@y", None, None, 0)];
      UsersValid(users) && EmailHeldByOther(users, "z@y", "a")
      && !UniqueEmails(UpdateUser(users, "a", SetProfile("A", "z@y"), 1))
  {
    var users := map["a" := NewUser("a", "x@y", None, None, 0), "b" := NewUser("b", "z@y", None, None, 0)];
    assert users["b"].email == "z@y";
    var r := UpdateUser(users, "a", SetProfile("A", "z@y"), 1);
    assert r["a"].email == r["b"].email;
  }

  /** The store: both tables, which the handlers reassign in place. */
  class Db {
    var users: UsersTable
    var tokens: TokensTable

    /** The schema's constraints: keys, unique email, unique token. */
    ghost predicate Valid()
      reads this
    {
      UsersValid(users) && TokensKeyed(tokens)
    }

    constructor (users: UsersTable, tokens: TokensTable)
      requires UsersValid(users) && TokensKeyed(tokens)
      ensures Valid() && this.users == users && this.tokens == tokens
    {
      this.users := users;
      this.tokens := tokens;
    }
  }
}
