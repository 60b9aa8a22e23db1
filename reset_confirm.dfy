/**
 * POST of app/api/auth/reset-password/confirm/route.ts: check a reset
 * token, store the hash of the new password and consume the token.
 *
 * bcrypt is the parameter `hash`; the clock is `now`.
 */
module ResetConfirm {
  import opened Schema
  import opened Http
  import opened Database
  import ResetRequest

  /** Passwords shorter than this are refused. */
  const MinPasswordLength := 8

  const MissingFields := Reply(BadRequest, "All fields are required")
  const TooShort := Reply(BadRequest, "Password must be at least 8 characters long")
  const InvalidToken := Reply(BadRequest, "Invalid or expired reset token")
  const UserNotFound := Reply(NotFound, "User not found")
  const ResetDone := Reply(Ok, "Password reset successful")

  /**
   * The token lookup: a row whose identifier is `email`, whose token is
   * `token` and whose expiry is strictly later than `now`.
   */
  function FindValidToken(tokens: TokensTable, email: string, token: string, now: Time): (r: Option<VerificationToken>)
    requires TokensKeyed(tokens)
    ensures r.Some? <==> exists k :: k in tokens && tokens[k].identifier == email
                                     && tokens[k].token == token && tokens[k].expires > now
    ensures r.Some? ==> r.value in tokens.Values && r.value.identifier == email
                        && r.value.token == token && r.value.expires > now
  {
    if token in tokens && tokens[token].identifier == email && tokens[token].expires > now then
      Some(tokens[token])
    else
      None
  }

  /** A token belongs to one email: it can never reset another email's password. */
  lemma TokenBoundToEmail(tokens: TokensTable, email: string, other: string, token: string, now: Time, later: Time)
    requires TokensKeyed(tokens)
    requires FindValidToken(tokens, email, token, now).Some?
    requires FindValidToken(tokens, other, token, later).Some?
    ensures email == other
  {
  }

  /** A row is never accepted at or after its expiry, even if it was never used. */
  lemma ExpiredTokenRejected(tokens: TokensTable, email: string, token: string, now: Time)
    requires TokensKeyed(tokens)
    requires token in tokens && tokens[token].expires <= now
    ensures FindValidToken(tokens, email, token, now).None?
  {
  }

  /** Once consumed, a token is never accepted again, whatever the time. */
  lemma ConsumedTokenRejected(tokens: TokensTable, email: string, token: string, later: Time)
    requires TokensKeyed(tokens)
    ensures TokensKeyed(tokens - {token})
    ensures FindValidToken(tokens - {token}, email, token, later).None?
  {
  }

  /** A second issue for the same email invalidates the first token. */
  lemma ReissueInvalidatesEarlier(tokens: TokensTable, email: string, first: string, second: string, now: Time, later: Time)
    requires TokensKeyed(tokens)
    requires second !in ResetRequest.DeleteByIdentifier(tokens, email)
    requires first != second
    ensures TokensKeyed(ResetRequest.Issue(tokens, email, second, now))
    ensures FindValidToken(ResetRequest.Issue(tokens, email, second, now), email, first, later).None?
  {
    ResetRequest.IssueKeepsKeyed(tokens, email, second, now);
    ResetRequest.IssueLeavesOneToken(tokens, email, second, now);
  }

  /** A freshly issued token is accepted for its email until 24 hours have passed. */
  lemma IssuedTokenAccepted(tokens: TokensTable, email: string, token: string, now: Time, later: Time)
    requires TokensKeyed(tokens)
    requires token !in ResetRequest.DeleteByIdentifier(tokens, email)
    requires later < now + ResetRequest.TokenLifetime
    ensures TokensKeyed(ResetRequest.Issue(tokens, email, token, now))
    ensures FindValidToken(ResetRequest.Issue(tokens, email, token, now), email, token, later).Some?
  {
    ResetRequest.IssueKeepsKeyed(tokens, email, token, now);
  }

  /**
   * The handler. Every failing path writes nothing; the success path rewrites
   * the password of the one user holding `email` and deletes the used token.
   * An absent, mismatched and expired token all get the same answer.
   */
  method ConfirmReset(db: Db, email: Option<string>, token: Option<string>, password: Option<string>,
                      now: Time, hash: string -> string) returns (reply: Reply)
    requires db.Valid()
    modifies db
    ensures db.Valid()
    ensures reply != ResetDone ==> db.users == old(db.users) && db.tokens == old(db.tokens)
    ensures !(Present(email) && Present(token) && Present(password)) ==> reply == MissingFields
    ensures Present(email) && Present(token) && Present(password) ==>
      var (e, t, p) := (email.value, token.value, password.value);
      && (|p| < MinPasswordLength ==> reply == TooShort)
      && (|p| >= MinPasswordLength && FindValidToken(old(db.tokens), e, t, now).None? ==> reply == InvalidToken)
      && (|p| >= MinPasswordLength && FindValidToken(old(db.tokens), e, t, now).Some? ==>
            if !EmailRegistered(old(db.users), e) then reply == UserNotFound
            else
              && reply == ResetDone
              && db.tokens == old(db.tokens) - {t}
              && exists id :: id in old(db.users) && old(db.users)[id].email == e
                              && db.users == UpdateUser(old(db.users), id, SetPassword(hash(p)), now))
  {
    if !(Present(email) && Present(token) && Present(password)) {
      return MissingFields;
    }
    var e, t, p := email.value, token.value, password.value;
    if |p| < MinPasswordLength {
      return TooShort;
    }
    var found := FindValidToken(db.tokens, e, t, now);
    if found.None? {
      return InvalidToken;
    }
    if !EmailRegistered(db.users, e) {
      return UserNotFound;
    }
    var id :| id in db.users && db.users[id].email == e;
    UpdateKeepsValid(db.users, id, SetPassword(hash(p)), now);
    db.users := UpdateUser(db.users, id, SetPassword(hash(p)), now);
    db.tokens := db.tokens - {found.value.token};
    reply := ResetDone;
  }
}
