/**
 * GET and PUT of app/api/user/profile/route.ts: any signed-in user reads
 * or edits their own name and email.
 */
module UserProfile {
  import opened Schema
  import opened Http
  import opened Auth
  import opened Database
  import opened Profile

  const NotSignedIn := Reply(Unauthorized, "Unauthorized")
  const UserNotFound := Reply(NotFound, "User not found")
  const UpdateFailed := Reply(ServerError, "Failed to update profile")
  const Updated := "Profile updated successfully"

  /** GET: 401 without a session id, else the session user's own row or 404. */
  function Get(users: UsersTable, session: Option<Session>): (r: Outcome<ProfileView>)
    requires UsersKeyed(users)
    ensures UserId(session).None? ==> r == Failure(NotSignedIn)
    ensures r.Success? <==> UserId(session).Some? && UserId(session).value in users
    ensures UserId(session).Some? ==> r == Lookup(users, UserId(session).value, UserNotFound)
  {
    if UserId(session).None? then Failure(NotSignedIn)
    else Lookup(users, UserId(session).value, UserNotFound)
  }

  /** PUT: 401 without a session id; otherwise the checked update of the session user's row. */
  method Put(db: Db, session: Option<Session>, name: Option<string>, email: Option<string>, now: Time)
    returns (reply: Reply, updated: Option<UpdatedProfile>)
    requires db.Valid()
    modifies db
    ensures db.Valid() && db.tokens == old(db.tokens)
    ensures UserId(session).None? ==> reply == NotSignedIn && db.users == old(db.users) && updated.None?
    ensures UserId(session).Some? ==>
      Saved(old(db.users), db.users, UserId(session).value, name, email, now, UpdateFailed, Updated, reply, updated)
  {
    var id := UserId(session);
    if id.None? {
      return NotSignedIn, None;
    }
    reply, updated := Save(db, id.value, name, email, now, UpdateFailed, Updated);
  }
}
