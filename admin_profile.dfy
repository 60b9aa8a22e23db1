/**
 * GET and PUT of app/api/admin/profile/route.ts: the user profile handlers
 * behind the admin guard, with their own message texts.
 */
module AdminProfile {
  import opened Schema
  import opened Http
  import opened Auth
  import opened Database
  import opened Profile

  const NotAdmin := Reply(Unauthorized, "Unauthorized - Admin access required")
  const AdminNotFound := Reply(NotFound, "Admin user not found")
  const UpdateFailed := Reply(ServerError, "Failed to update admin profile")
  const Updated := "Admin profile updated successfully"

  /** GET: 401 unless the session has an id and role "admin", else the admin's own row or 404. */
  function Get(users: UsersTable, session: Option<Session>): (r: Outcome<ProfileView>)
    requires UsersKeyed(users)
    ensures !(UserId(session).Some? && IsAdmin(session)) ==> r == Failure(NotAdmin)
    ensures r.Success? <==> UserId(session).Some? && IsAdmin(session) && UserId(session).value in users
    ensures UserId(session).Some? && IsAdmin(session) ==> r == Lookup(users, UserId(session).value, AdminNotFound)
  {
    if AdminId(session).None? then Failure(NotAdmin)
    else Lookup(users, AdminId(session).value, AdminNotFound)
  }

  /** PUT: 401 unless admin; otherwise the checked update of the admin's own row (never its role). */
  method Put(db: Db, session: Option<Session>, name: Option<string>, email: Option<string>, now: Time)
    returns (reply: Reply, updated: Option<UpdatedProfile>)
    requires db.Valid()
    modifies db
    ensures db.Valid() && db.tokens == old(db.tokens)
    ensures !(UserId(session).Some? && IsAdmin(session)) ==>
      reply == NotAdmin && db.users == old(db.users) && updated.None?
    ensures UserId(session).Some? && IsAdmin(session) ==>
      Saved(old(db.users), db.users, UserId(session).value, name, email, now, UpdateFailed, Updated, reply, updated)
  {
    var id := AdminId(session);
    if id.None? {
      return NotAdmin, None;
    }
    reply, updated := Save(db, id.value, name, email, now, UpdateFailed, Updated);
  }
}
