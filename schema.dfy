/**
 * Row shapes of the `users` and `verificationTokens` tables and the
 * constraints the schema puts on them (db/schema.ts).
 *
 * A table is modelled as a map from its unique column to its row:
 * `users` by the primary key `id`, `verificationTokens` by the unique
 * `token` column (that table has no primary key; `identifier` is not unique).
 */
module Schema {

  datatype Option<T> = None | Some(value: T)

  /** Timestamps are milliseconds on a single integer clock. */
  type Time = int

  /** The `role` column is a closed text enum: "user" or "admin". */
  datatype Role = UserRole | AdminRole

  /** The role a new row gets when none is given. */
  const DefaultRole: Role := UserRole

  /** The text stored in the `role` column for a role. */
  function RoleText(r: Role): string
  {
    match r
    case UserRole => "user"
    case AdminRole => "admin"
  }

  /** Reads the `role` column; any text outside the enum is refused. */
  function ParseRole(s: string): (r: Option<Role>)
    ensures r.Some? <==> (s == "user" || s == "admin")
    ensures r.Some? ==> RoleText(r.value) == s
  {
    if s == "user" then Some(UserRole)
    else if s == "admin" then Some(AdminRole)
    else None
  }

  /** The enum and its text form are inverse: the column holds exactly two roles. */
  lemma RoleTextRoundTrip(r: Role)
    ensures ParseRole(RoleText(r)) == Some(r)
    ensures RoleText(DefaultRole) == "user"
  {
  }

  /**
   * A row of `users`. `name`, `emailVerified`, `image` and `password` are
   * nullable; `email`, `role`, `createdAt` and `updatedAt` are not.
   */
  datatype User = User(
    id: string,
    name: Option<string>,
    email: string,
    emailVerified: Option<Time>,
    image: Option<string>,
    password: Option<string>,
    role: Role,
    createdAt: Time,
    updatedAt: Time)

  /** A row of `verificationTokens`: all three columns are non-null. */
  datatype VerificationToken = VerificationToken(identifier: string, token: string, expires: Time)

  type UsersTable = map<string, User>
  type TokensTable = map<string, VerificationToken>

  /** Each row is stored under its own primary key. */
  predicate UsersKeyed(users: UsersTable)
  {
    forall id :: id in users ==> users[id].id == id
  }

  /** The `email` column is unique. */
  predicate UniqueEmails(users: UsersTable)
  {
    forall a, b :: a in users && b in users && users[a].email == users[b].email ==> a == b
  }

  /** Each token row is stored under its own (unique) token. */
  predicate TokensKeyed(tokens: TokensTable)
  {
    forall t :: t in tokens ==> tokens[t].token == t
  }

  predicate UsersValid(users: UsersTable)
  {
    UsersKeyed(users) && UniqueEmails(users)
  }

  /** `where(eq(users.email, email))` finds a row. */
  predicate EmailRegistered(users: UsersTable, email: string)
  {
    exists id :: id in users && users[id].email == email
  }

  /** The rows of `verificationTokens` whose identifier is `identifier`. */
  function TokensFor(tokens: TokensTable, identifier: string): set<string>
  {
    set t | t in tokens && tokens[t].identifier == identifier
  }

  /** A new row as the schema's defaults fill it in: role "user", timestamps now. */
  function NewUser(id: string, email: string, name: Option<string>, password: Option<string>, now: Time): (u: User)
    ensures u.role == DefaultRole && u.createdAt == now && u.updatedAt == now
    ensures u.id == id && u.email == email && u.image.None? && u.emailVerified.None?
    ensures u.name == name && u.password == password
    ensures UsersValid(map[id := u])
  {
    User(id, name, email, None, None, password, DefaultRole, now, now)
  }
}
