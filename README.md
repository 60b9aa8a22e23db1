# Account gateway of next-starter, modelled in Dafny

This project models the decision and state-update rules of a Next.js account application:

- the authorization callback of `middleware.ts`. It decides, for every page request, to let the request through or to redirect it to the login page or to a role's dashboard;
- the `users` and `verificationTokens` tables of `db/schema.ts`, with their constraints: primary key, unique email, unique token, and the role enum;
- the password-reset lifecycle. The request route issues a token that lives 24 hours and replaces every earlier token of that email. The confirm route accepts only an exact, unexpired (email, token) pair, rewrites that user's password and consumes the token;
- the account handlers, each a ladder of guards followed by one update of the session user's row:
  - change password;
  - user and admin profile, GET and PUT;
  - avatar upload and removal;
- the admin statistics: three counts over the users table.

The store is the class `Database.Db`. It holds both tables as maps keyed by their unique column:

- `users` by `id`;
- `verificationTokens` by `token`.

Each route file is a module. A handler that writes is a method that `modifies` the store and states the store's whole new state. The read-only handlers are functions over the users table: the GET of both profile routes and the GET of the statistics route. The other pure parts are functions too, and properties about them are lemmas:

- guard ladders;
- table queries;
- the route decision;
- the avatar extension.

The following become parameters:

- The clock is an integer `now`, in milliseconds.
- bcrypt's hash and compare are the function parameters `hash` and `matches`.
- The random reset token (nanoid) and the avatar file name (uuid) are fresh-value parameters.
- The session is a value `Option<Session>`.
- Each JSON body field is an `Option<string>`. A missing field, `null` and `""` are all falsy.

Notes on the code:

- The middleware never answers 401. It only redirects.
- The statistics route does not use the Redis cache: it recomputes on every call, and there is no `fromCache` flag.
- Token rotation is two separate statements, not one transaction (see `ResetRequest.RequestReset`).
- The password update and the token deletion are two separate writes.

## Model

| member | source | states |
|---|---|---|
| `Schema.ParseRole` | db/schema.ts:10 | the role column accepts exactly the texts "user" and "admin", and reading a role gives back its text |
| `Schema.RoleTextRoundTrip` | db/schema.ts:10 | the enum and its text are inverse; the default role is "user" |
| `Schema.NewUser` | db/schema.ts:3-13 | a row filled by the schema defaults has role "user", createdAt = updatedAt = now, and no image or verified date; the nullable name and password are stored as given, possibly null; a table of that one row is well formed |
| `Auth.UserId` | app/api/user/profile/route.ts:11 | `session?.user?.id` counts only when session, user and a non-empty id are all present |
| `Auth.AdminId` | app/api/admin/profile/route.ts:11 | the admin guard passes exactly when there is a session id and the role is "admin" |
| `Database.Apply` | app/api/admin/profile/route.ts:82-89 | an update writes only its own columns plus updatedAt = now; id, role, createdAt and emailVerified are never written |
| `Database.UpdateUser` | app/api/avatar/route.ts:70-76 | `update ... where id = :id` rewrites that row alone, keeps the key set, and matches nothing when the id is absent |
| `Database.EmailHeldByOther` | app/api/user/profile/route.ts:69-75 | the uniqueness scan: some row other than the caller's holds the email |
| `Database.Db.Valid` | db/schema.ts:4-6 | the store's invariant: users keyed by id with unique emails, tokens keyed by their unique token (db/schema.ts:39) |
| `Database.Db.constructor` | db/schema.ts:3-41 | a store built from well-formed tables is valid and holds exactly those tables |
| `Database.UpdateKeepsValid` | db/schema.ts:4-6 | any update keeps ids keyed and emails unique, as long as a profile update writes an email no other row holds |
| `Database.UnscannedUpdateBreaksUniqueness` | app/api/user/profile/route.ts:68-80 | without the uniqueness scan, a profile update could make two rows share an email |
| `Middleware.Decide` | middleware.ts:5-68 | every (path, session) pair gets Allow or one redirect; the redirect goes to /login, /dashboard or /admin/dashboard; /login only when anonymous; /admin/dashboard only for an admin |
| `Middleware.IsPublicRoute` | middleware.ts:10-11 | a path is public when it starts with "/login", "/register" or "/reset-password" |
| `Middleware.Classify` | middleware.ts:10-41 | each path falls in one route class: public, admin area, user area, root, or other |
| `Middleware.ClassesDisjoint` | middleware.ts:10-41 | the public, "/admin" and "/dashboard"/"/profile" prefixes exclude each other, and "/" has none of them |
| `Middleware.DecideFollowsPolicy` | middleware.ts:9-67 | the ordered rule chain equals an independent table that first classifies the path, then decides by route class and session |
| `Middleware.UserRouteNeverAdminRoute` | middleware.ts:47 | the `!startsWith("/admin")` test of the user-route rule is always true where it is evaluated |
| `Middleware.AnonymousProtectedGoesToLogin` | middleware.ts:14-16 | an anonymous request to a non-public path other than "/" is redirected to /login |
| `Middleware.SignedInPublicGoesHome` | middleware.ts:19-26 | a signed-in request to a public path goes to /admin/dashboard for an admin and to /dashboard otherwise, including when the role is missing |
| `Middleware.AdminRouteGuard` | middleware.ts:29-38 | on an "/admin" path, a signed-in non-admin is sent to /dashboard and an admin is let through |
| `Middleware.UserRouteGuard` | middleware.ts:41-50 | on a "/dashboard" or "/profile" path, an admin is sent to /admin/dashboard and a non-admin is let through |
| `Middleware.RootRoute` | middleware.ts:53-65 | "/" is allowed when anonymous and redirects to the role home when signed in |
| `Middleware.NoRedirectLoop` | middleware.ts:14-67 | deciding again on any redirect target with the same session yields Allow |
| `Middleware.RawPrefixClassification` | middleware.ts:11-41 | matching is by raw prefix: "/administrator" is an admin path, "/login-help" a public one, "/profiles" a user one |
| `ResetRequest.DeleteByIdentifier` | app/api/auth/reset-password/request/route.ts:39-41 | deleting by identifier leaves no row for that email and every other row unchanged, and adds nothing |
| `ResetRequest.Issue` | app/api/auth/reset-password/request/route.ts:39-48 | the table after delete-then-insert: the keys left by the delete plus the new token, whose row is (email, token, now + 24 h) |
| `ResetRequest.IssueLeavesOneToken` | app/api/auth/reset-password/request/route.ts:34-48 | after an issue, the email has exactly one token, the new one, and it expires 24 hours after now |
| `ResetRequest.IssueKeepsOthers` | app/api/auth/reset-password/request/route.ts:39-41 | the rows of every other identifier are exactly as before |
| `ResetRequest.IssueKeepsKeyed` | app/api/auth/reset-password/request/route.ts:44-48 | the token table stays keyed by its unique token column |
| `ResetRequest.RequestReset` | app/api/auth/reset-password/request/route.ts:7-66 | a falsy email gives 400 and an unknown email gives 200 with the neutral message, both with no write; otherwise the email's tokens are replaced by the new one and the success message is returned; if the new token collides with a remaining row, the answer is 500 and the delete has still happened |
| `ResetRequest.OkRepliesDiffer` | app/api/auth/reset-password/request/route.ts:25-58 | the unknown-email and success answers share status 200 but have different messages |
| `ResetConfirm.FindValidToken` | app/api/auth/reset-password/confirm/route.ts:26-36 | a token is found exactly when a row matches the email and the token and expires strictly after now |
| `ResetConfirm.TokenBoundToEmail` | app/api/auth/reset-password/confirm/route.ts:31-32 | one token can never be accepted for two different emails |
| `ResetConfirm.ExpiredTokenRejected` | app/api/auth/reset-password/confirm/route.ts:33 | a row whose expiry is at or before now is refused even if it was never used |
| `ResetConfirm.ConsumedTokenRejected` | app/api/auth/reset-password/confirm/route.ts:71-74 | after the used token is deleted, it is refused at any later time |
| `ResetConfirm.ReissueInvalidatesEarlier` | app/api/auth/reset-password/request/route.ts:38-48 | issuing a second token for an email makes the first one invalid |
| `ResetConfirm.IssuedTokenAccepted` | app/api/auth/reset-password/request/route.ts:34-36 | a freshly issued token is accepted for its email until 24 hours have passed |
| `ResetConfirm.ConfirmReset` | app/api/auth/reset-password/confirm/route.ts:7-87 | checks run in order: missing field (400), short password (400), no valid token (400, the same answer whether the token is absent, mismatched or expired), no user (404, token kept); none of these writes; on success, only that user's password becomes the hash of the new one, and only the used token is deleted |
| `ResetLifecycle.ConfirmTwice` | app/api/auth/reset-password/confirm/route.ts:26-74 | a successful confirm followed by the same request gives "Invalid or expired reset token" |
| `ResetLifecycle.RequestConfirmReplay` | app/api/auth/reset-password/confirm/route.ts:25-74 | request, confirm within 24 hours, confirm again: 200, then success, then the invalid-token 400, and no token is left for the email |
| `ChangePassword.Guard` | app/api/user/change-password/route.ts:12-60 | guards pass exactly when all of these hold: session id, both fields present, new password of 8 or more, the user's row has a password, and the current password matches; the first failing step decides the answer: no session 401, a missing field 400, a short password 400, no row or no password 404, a wrong current password 400 |
| `ChangePassword.MinimumLengthAccepted` | app/api/user/change-password/route.ts:28 | a new password of exactly 8 characters passes the auth, presence and length guards |
| `ChangePassword.Put` | app/api/user/change-password/route.ts:8-85 | a failing guard answers with its reply and writes nothing; otherwise only the session user's password (the hash of the new one) and updatedAt change |
| `Profile.Lookup` | app/api/user/profile/route.ts:18-38 | GET returns the selected columns of the row with the session id, or the not-found reply when there is none |
| `Profile.Rejection` | app/api/user/profile/route.ts:61-80 | PUT passes its checks exactly when name and email are truthy and no other row holds the email; a missing field gives 400 "Name and email are required", and an email held by another row gives 400 "Email is already taken by another user" |
| `Profile.OwnEmailAllowed` | app/api/user/profile/route.ts:75 | keeping one's own current email never trips the uniqueness check |
| `Profile.SaveKeepsEmailsUnique` | app/api/user/profile/route.ts:68-89 | an update that passed the checks keeps the email column unique |
| `Profile.SavedTouchesOnlyOwnRow` | app/api/admin/profile/route.ts:82-96 | whatever its outcome, PUT changes no other row and no role or createdAt, and it changes nothing unless it answers with the success message |
| `Profile.Save` | app/api/user/profile/route.ts:59-108 | PUT after the guard: 400 from the checks, 500 when no row has the id, or that row's name, email and updatedAt rewritten, with the updated columns returned |
| `UserProfile.Get` | app/api/user/profile/route.ts:7-46 | no session id gives 401; otherwise exactly `Lookup` of the caller's id: the selected columns of the caller's own row, or 404 "User not found" |
| `UserProfile.Put` | app/api/user/profile/route.ts:48-116 | no session id gives 401 with no write; otherwise the checked update of the caller's own row |
| `AdminProfile.Get` | app/api/admin/profile/route.ts:7-46 | no session id or a role other than "admin" gives 401; otherwise exactly `Lookup` of the admin's id: the selected columns of the admin's own row, or 404 "Admin user not found" |
| `AdminProfile.Put` | app/api/admin/profile/route.ts:48-116 | without an admin session, 401 with no write; otherwise the checked update of the admin's own row, which never writes a role |
| `Avatar.LastSegmentSpec` | app/api/avatar/route.ts:61 | `split('.').pop()` is the suffix without '.' that is the whole name or follows a '.' |
| `Avatar.LastSegmentUnique` | app/api/avatar/route.ts:61 | exactly one suffix has those properties |
| `Avatar.LastSegment` | app/api/avatar/route.ts:61 | `split('.').pop()`: the text after the last '.', or the whole string without one (its properties are `LastSegmentSpec`) |
| `Avatar.Extension` | app/api/avatar/route.ts:61 | the extension is never empty and has no '.'; it is the last segment when that is non-empty, and "jpg" when it is empty; a non-empty name with no '.' is its own extension |
| `Avatar.ExtensionExamples` | app/api/avatar/route.ts:61 | "me.photo.png" gives "png", "avatar." gives "jpg", "avatar" gives "avatar" |
| `Avatar.AvatarUrl` | app/api/avatar/route.ts:62-69 | the stored URL lies under "/uploads/avatars/" and its last '.'-segment is the upload's extension |
| `Avatar.UrlKeepsExtension` | app/api/avatar/route.ts:61-69 | deriving an extension from the stored URL gives the upload's extension back |
| `Avatar.Check` | app/api/avatar/route.ts:14-47 | checks run in the order session (401), file present, MIME type in the four image types, size at most 5 MiB (each 400), and each failing step gives its own answer; all pass exactly when each holds |
| `Avatar.FiveMiBAccepted` | app/api/avatar/route.ts:41-47 | a file of exactly 5 * 1024 * 1024 bytes is accepted |
| `Avatar.Upload` | app/api/avatar/route.ts:10-91 | a failed check writes nothing; otherwise the session user's image becomes the URL, the same URL is returned, and the answer is 200 |
| `Avatar.Remove` | app/api/avatar/route.ts:93-125 | no session id gives 401 with no write; otherwise only the session user's image becomes null, plus updatedAt |
| `Stats.CreatedSince` | app/api/admin/stats/route.ts:25 | the recent rows are a subset of the table |
| `Stats.Admins` | app/api/admin/stats/route.ts:26 | the admin rows are a subset of the table |
| `Stats.Compute` | app/api/admin/stats/route.ts:23-31 | totalUsers is the number of rows, recentUsers the number created in the last seven days, totalAdmins the number with role "admin"; neither filtered count exceeds the total |
| `Stats.Get` | app/api/admin/stats/route.ts:7-48 | no admin session gives 401; otherwise exactly the counts of `Compute` at the current time, computed without writing |
| `Stats.WindowInclusive` | app/api/admin/stats/route.ts:19-25 | a row created exactly seven days before now counts as recent |
| `Stats.AdminsPartition` | app/api/admin/stats/route.ts:26 | the admin rows and the user rows together are every row |
| `Stats.RecentShrinksOverTime` | app/api/admin/stats/route.ts:19-25 | on the same table, a later clock never counts more recent sign-ups |

## Left out

- Redis caching (lib/redis.ts). No modelled route uses it, so no cache hits, TTLs or invalidation are modelled.
- `activeUsers = Math.floor(totalUsers * 0.7)` in the statistics route. It is floating-point arithmetic.
- bcrypt hashing and comparison. They are the parameters `hash` and `matches`; the random salt, which makes real hashes differ between calls, is not modelled.
- nanoid and uuid generation. They are parameters, and their length (32 characters for the reset token) is not modelled.
- Local-time date arithmetic. `setHours(+24)` and `setDate(-7)` become now + 24 h and now − 7 days on an integer clock, so shifts across daylight-saving changes are not modelled.
- Concurrency and atomicity. The store is sequential, so the race between the uniqueness scan and the update, and the non-atomic delete-then-insert and update-then-delete pairs, are not modelled.
- Writing the avatar file to disk and creating its directory. Only the URL and the `image` column are modelled.
- The 500 answer of a failing query, except where it follows from a modelled constraint: a reset token that collides on the unique column.
- Session retrieval, JSON parsing and response bodies beyond status and message. Body fields that are not strings are not modelled.
- String length. The code measures UTF-16 code units; the model counts characters.
- The console logging of the reset request route, which writes the new token and its expiry (app/api/auth/reset-password/request/route.ts:50-53). No mail is sent, and the log is output only.
- The middleware `matcher` that keeps API and static paths away from the decision. It is taken as given.
- The `accounts` and `sessions` tables of db/schema.ts. No modelled route reads or writes them.
- The health probe, the UI pages and components, the seed and migration scripts, and lib/utils.ts.
- Email lookup takes the first row with `limit(1)` and no ordering. The model relies on the unique email column, so that row is the only one.
