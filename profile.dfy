/**
 * What the user profile route (app/api/user/profile/route.ts) and the admin
 * profile route (app/api/admin/profile/route.ts) share once their session
 * guard has passed: the row lookup of GET and the checked update of PUT.
 * The two routes differ only in their guard and their message texts.
 */
module Profile {
  import opened Schema
  import opened Http
  import opened Database

  /** The columns GET selects. */
  datatype ProfileView = ProfileView(id: string, name: Option<string>, email: string, role: Role,
                                     createdAt: Time, updatedAt: Time)

  /** The columns PUT returns. */
  datatype UpdatedProfile = UpdatedProfile(id: string, name: Option<string>, email: string, role: Role,
                                           updatedAt: Time)

  const MissingFields := Reply(BadRequest, "Name and email are required")
  const EmailTaken := Reply(BadRequest, "Email is already taken by another user")

  /** The session user's own row, as GET selects it, or `notFound`. */
  function Lookup(users: UsersTable, id: string, notFound: Reply): (r: Outcome<ProfileView>)
    requires UsersKeyed(users)
    ensures r.Success? <==> id in users
    ensures r.Failure? ==> r.reply == notFound
    ensures r.Success? ==> var u := users[id];
      r.value.id == id && r.value.name == u.name && r.value.email == u.email && r.value.role == u.role
      && r.value.createdAt == u.createdAt && r.value.updatedAt == u.updatedAt
  {
    if id in users then
      var u := users[id];
      Success(ProfileView(u.id, u.name, u.email, u.role, u.createdAt, u.updatedAt))
    else
      Failure(notFound)
  }

  /**
   * The checks PUT makes before writing: both fields truthy, then no other
   * row holding the requested email.
   */
  function Rejection(users: UsersTable, id: string, name: Option<string>, email: Option<string>): (r: Option<Reply>)
    ensures r.None? <==> Present(name) && Present(email) && !EmailHeldByOther(users, email.value, id)
    ensures !(Present(name) && Present(email)) ==> r == Some(MissingFields)
    ensures Present(name) && Present(email) && EmailHeldByOther(users, email.value, id) ==> r == Some(EmailTaken)
    ensures r.Some? ==> r.value.status == BadRequest
  {
    if !Present(name) || !Present(email) then Some(MissingFields)
    else if EmailHeldByOther(users, email.value, id) then Some(EmailTaken)
    else None
  }

  /** Keeping one's own current email never trips the uniqueness check. */
  lemma OwnEmailAllowed(users: UsersTable, id: string, name: string)
    requires UsersValid(users) && id in users && name != "" && users[id].email != ""
    ensures Rejection(users, id, Some(name), Some(users[id].email)).None?
  {
  }

  /** A successful PUT keeps the email column unique. */
  lemma SaveKeepsEmailsUnique(users: UsersTable, id: string, name: Option<string>, email: Option<string>, now: Time)
    requires UsersValid(users)
    requires Rejection(users, id, name, email).None?
    ensures UsersValid(UpdateUser(users, id, SetProfile(name.value, email.value), now))
  {
    UpdateKeepsValid(users, id, SetProfile(name.value, email.value), now);
  }

  /**
   * The outcome of PUT once the session guard passed for `id`: a 400 from
   * the checks, a 500 when no row has that id, or the update of name, email
   * and `updatedAt` of that row alone. The role column is never written.
   */
  ghost predicate Saved(before: UsersTable, after: UsersTable, id: string, name: Option<string>, email: Option<string>,
                        now: Time, failed: Reply, saved: string, reply: Reply, updated: Option<UpdatedProfile>)
  {
    var g := Rejection(before, id, name, email);
    if g.Some? then reply == g.value && after == before && updated.None?
    else if id !in before then reply == failed && after == before && updated.None?
    else
      && reply == Reply(Ok, saved)
      && after == UpdateUser(before, id, SetProfile(name.value, email.value), now)
      && updated == Some(UpdatedProfile(id, Some(name.value), email.value, before[id].role, now))
  }

  /** A PUT, whatever its outcome, touches no row but the session user's and no role at all. */
  lemma SavedTouchesOnlyOwnRow(before: UsersTable, after: UsersTable, id: string, name: Option<string>,
                               email: Option<string>, now: Time, failed: Reply, saved: string,
                               reply: Reply, updated: Option<UpdatedProfile>)
    requires Saved(before, after, id, name, email, now, failed, saved, reply, updated)
    ensures after.Keys == before.Keys
    ensures forall k :: k in before ==> after[k].role == before[k].role && after[k].createdAt == before[k].createdAt
    ensures forall k :: k in before && k != id ==> after[k] == before[k]
    ensures after != before ==> reply == Reply(Ok, saved)
  {
  }

  /** PUT after its session guard. */
  method Save(db: Db, id: string, name: Option<string>, email: Option<string>, now: Time,
              failed: Reply, saved: string) returns (reply: Reply, updated: Option<UpdatedProfile>)
    requires db.Valid()
    modifies db
    ensures db.Valid() && db.tokens == old(db.tokens)
    ensures Saved(old(db.users), db.users, id, name, email, now, failed, saved, reply, updated)
  {
    var g := Rejection(db.users, id, name, email);
    if g.Some? {
      return g.value, None;
    }
    if id !in db.users {
      return failed, None;
    }
    SaveKeepsEmailsUnique(db.users, id, name, email, now);
    db.users := UpdateUser(db.users, id, SetProfile(name.value, email.value), now);
    var u := db.users[id];
    reply := Reply(Ok, saved);
    updated := Some(UpdatedProfile(u.id, u.name, u.email, u.role, u.updatedAt));
  }
}
