/**
 * PUT of app/api/user/change-password/route.ts: a signed-in user replaces
 * their password after proving the current one.
 *
 * bcrypt's hash and compare are the parameters `hash` and `matches`.
 */
module ChangePassword {
  import opened Schema
  import opened Http
  import opened Auth
  import opened Database

  const MinPasswordLength := 8

  const NotSignedIn := Reply(Unauthorized, "Unauthorized")
  const MissingFields := Reply(BadRequest, "Current password and new password are required")
  const TooShort := Reply(BadRequest, "Password must be at least 8 characters long")
  const NoPassword := Reply(NotFound, "User not found or password not set")
  const WrongPassword := Reply(BadRequest, "Current password is incorrect")
  const Changed := Reply(Ok, "Password updated successfully")

  /**
   * The guard ladder, in source order; the first failing guard decides the
   * answer, and None means every guard passed.
   */
  function Guard(session: Option<Session>, current: Option<string>, next: Option<string>,
                 users: UsersTable, matches: (string, string) -> bool): (r: Option<Reply>)
    ensures r.None? <==>
      && UserId(session).Some?
      && Present(current) && Present(next) && |next.value| >= MinPasswordLength
      && UserId(session).value in users
      && Present(users[UserId(session).value].password)
      && matches(current.value, users[UserId(session).value].password.value)
    ensures UserId(session).None? ==> r == Some(NotSignedIn)
    ensures UserId(session).Some? && !(Present(current) && Present(next)) ==> r == Some(MissingFields)
    ensures UserId(session).Some? && Present(current) && Present(next) && |next.value| < MinPasswordLength
            ==> r == Some(TooShort)
    ensures UserId(session).Some? && Present(current) && Present(next) && |next.value| >= MinPasswordLength
            && (UserId(session).value !in users || !Present(users[UserId(session).value].password))
            ==> r == Some(NoPassword)
    ensures UserId(session).Some? && Present(current) && Present(next) && |next.value| >= MinPasswordLength
            && UserId(session).value in users && Present(users[UserId(session).value].password)
            && !matches(current.value, users[UserId(session).value].password.value)
            ==> r == Some(WrongPassword)
  {
    if UserId(session).None? then Some(NotSignedIn)
    else if !Present(current) || !Present(next) then Some(MissingFields)
    else if |next.value| < MinPasswordLength then Some(TooShort)
    else
      var id := UserId(session).value;
      if id !in users || !Present(users[id].password) then Some(NoPassword)
      else if !matches(current.value, users[id].password.value) then Some(WrongPassword)
      else None
  }

  /** A new password of exactly the minimum length passes the length guard. */
  lemma MinimumLengthAccepted(session: Option<Session>, current: string, next: string,
                              users: UsersTable, matches: (string, string) -> bool)
    requires UserId(session).Some? && |next| == MinPasswordLength && current != ""
    ensures Guard(session, Some(current), Some(next), users, matches) !in
              {Some(NotSignedIn), Some(MissingFields), Some(TooShort)}
  {
  }

  /**
   * The handler: on success only the session user's password (the hash of
   * the new one) and `updatedAt` change; every failing path writes nothing.
   */
  method Put(db: Db, session: Option<Session>, current: Option<string>, next: Option<string>,
         now: Time, hash: string -> string, matches: (string, string) -> bool) returns (reply: Reply)
    requires db.Valid()
    modifies db
    ensures db.Valid() && db.tokens == old(db.tokens)
    ensures var g := Guard(session, current, next, old(db.users), matches);
      if g.Some? then reply == g.value && db.users == old(db.users)
      else reply == Changed
           && db.users == UpdateUser(old(db.users), UserId(session).value, SetPassword(hash(next.value)), now)
  {
    var g := Guard(session, current, next, db.users, matches);
    if g.Some? {
      return g.value;
    }
    var id := UserId(session).value;
    UpdateKeepsValid(db.users, id, SetPassword(hash(next.value)), now);
    db.users := UpdateUser(db.users, id, SetPassword(hash(next.value)), now);
    reply := Changed;
  }
}
