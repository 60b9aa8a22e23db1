/**
 * The session fact the identity provider hands to the middleware and to
 * every route handler. Credential checking itself is not part of this model.
 */
module Auth {
  import opened Schema

  /** `session.user`: both fields may be missing. `role` is the raw text. */
  datatype SessionUser = SessionUser(id: Option<string>, role: Option<string>)

  /** A session object; its `user` may be missing. */
  datatype Session = Session(user: Option<SessionUser>)

  /**
   * `session?.user?.id` when it is truthy: a missing session, a missing
   * user, a missing id and the empty id all give None.
   */
  function UserId(session: Option<Session>): (r: Option<string>)
    ensures r.Some? ==> r.value != ""
    ensures r.Some? <==> session.Some? && session.value.user.Some?
                          && session.value.user.value.id.Some? && session.value.user.value.id.value != ""
  {
    if session.Some? && session.value.user.Some? then
      var id := session.value.user.value.id;
      if id.Some? && id.value != "" then id else None
    else None
  }

  /** `session.user?.role === "admin"`: a missing user or role is not admin. */
  predicate IsAdmin(session: Option<Session>)
  {
    session.Some? && session.value.user.Some? && session.value.user.value.role == Some(RoleText(AdminRole))
  }

  /** The guard of the admin-only handlers: `!session?.user?.id || session.user.role !== "admin"`. */
  function AdminId(session: Option<Session>): (r: Option<string>)
    ensures r.Some? <==> UserId(session).Some? && IsAdmin(session)
    ensures r.Some? ==> r == UserId(session)
  {
    if UserId(session).Some? && IsAdmin(session) then UserId(session) else None
  }
}
