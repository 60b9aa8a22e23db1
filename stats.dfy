/**
 * GET of app/api/admin/stats/route.ts: three counts over the users table,
 * behind the admin guard. The handler only reads.
 */
module Stats {
  import opened Schema
  import opened Http
  import opened Auth

  /** The trailing window of "recent" sign-ups: seven days. */
  const Week: int := 7 * 24 * 60 * 60 * 1000

  const NotAdmin := Reply(Unauthorized, "Unauthorized - Admin access required")

  datatype UserStats = UserStats(totalUsers: nat, recentUsers: nat, totalAdmins: nat)

  /** `where(gte(users.createdAt, since))`: the ids of rows created at or after `since`. */
  function CreatedSince(users: UsersTable, since: Time): (ids: set<string>)
    ensures ids <= users.Keys
  {
    set id | id in users && users[id].createdAt >= since
  }

  /** `where(eq(users.role, "admin"))`. */
  function Admins(users: UsersTable): (ids: set<string>)
    ensures ids <= users.Keys
  {
    set id | id in users && users[id].role == AdminRole
  }

  /** The counts at time `now`; both filtered counts are bounded by the total. */
  function Compute(users: UsersTable, now: Time): (s: UserStats)
    ensures s.totalUsers == |users|
    ensures s.recentUsers == |CreatedSince(users, now - Week)|
    ensures s.totalAdmins == |Admins(users)|
    ensures s.recentUsers <= s.totalUsers && s.totalAdmins <= s.totalUsers
  {
    var recent := CreatedSince(users, now - Week);
    var admins := Admins(users);
    SubsetCount(users, recent);
    SubsetCount(users, admins);
    UserStats(|users|, |recent|, |admins|)
  }

  /** A set of row ids is no larger than the table. */
  lemma SubsetCount(users: UsersTable, ids: set<string>)
    requires ids <= users.Keys
    ensures |ids| <= |users|
  {
    assert |users.Keys| == |users|;
    SubsetCard(ids, users.Keys);
  }

  lemma {:induction false} SubsetCard(a: set<string>, b: set<string>)
    requires a <= b
    ensures |a| <= |b|
    decreases |b|
  {
    if a != {} {
      var x :| x in a;
      SubsetCard(a - {x}, b - {x});
    }
  }

  /** GET: 401 without an admin session, else the counts. */
  function Get(users: UsersTable, session: Option<Session>, now: Time): (r: Outcome<UserStats>)
    ensures r.Failure? <==> AdminId(session).None?
    ensures r.Failure? ==> r.reply == NotAdmin
    ensures r.Success? ==> r.value == Compute(users, now)
    ensures r.Success? ==> r.value.totalUsers == |users| && r.value.recentUsers <= |users|
                           && r.value.totalAdmins <= |users|
  {
    if AdminId(session).None? then Failure(NotAdmin) else Success(Compute(users, now))
  }

  /** The window is inclusive: a row created exactly seven days ago is recent. */
  lemma WindowInclusive(users: UsersTable, id: string, now: Time)
    requires id in users && users[id].createdAt == now - Week
    ensures id in CreatedSince(users, now - Week)
  {
  }

  /** Every row is either an admin or not: admins and the rest partition the table. */
  lemma AdminsPartition(users: UsersTable)
    ensures |Admins(users)| + |set id | id in users && users[id].role == UserRole| == |users|
  {
    var admins := Admins(users);
    var rest := set id | id in users && users[id].role == UserRole;
    assert admins + rest == users.Keys;
    assert admins * rest == {};
    assert |users.Keys| == |users|;
  }

  /** A later clock never counts more recent sign-ups. */
  lemma RecentShrinksOverTime(users: UsersTable, now: Time, later: Time)
    requires now <= later
    ensures Compute(users, later).recentUsers <= Compute(users, now).recentUsers
  {
    SubsetCard(CreatedSince(users, later - Week), CreatedSince(users, now - Week));
  }
}
