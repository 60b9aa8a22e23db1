/**
 * The two reset handlers run one after the other against the same store:
 * request a token, confirm it, then present it again.
 */
module ResetLifecycle {
  import opened Schema
  import opened Http
  import opened Database
  import ResetRequest
  import ResetConfirm

  /** Confirming twice with the same token: a success is never followed by a second one. */
  method ConfirmTwice(db: Db, email: Option<string>, token: Option<string>, password: Option<string>,
                      now: Time, later: Time, hash: string -> string) returns (first: Reply, second: Reply)
    requires db.Valid()
    modifies db
    ensures db.Valid()
    ensures first == ResetConfirm.ResetDone ==> second == ResetConfirm.InvalidToken
  {
    first := ResetConfirm.ConfirmReset(db, email, token, password, now, hash);
    second := ResetConfirm.ConfirmReset(db, email, token, password, later, hash);
    if first == ResetConfirm.ResetDone {
      ResetConfirm.ConsumedTokenRejected(old(db.tokens), email.value, token.value, later);
    }
  }

  /**
   * Request, confirm within 24 hours, confirm again: the first confirm
   * succeeds and the replay is refused as an invalid or expired token.
   */
  method RequestConfirmReplay(db: Db, email: string, token: string, password: string,
                              now: Time, later: Time, hash: string -> string)
    returns (issued: Reply, confirmed: Reply, replayed: Reply)
    requires db.Valid()
    requires email != "" && token != "" && |password| >= ResetConfirm.MinPasswordLength
    requires EmailRegistered(db.users, email)
    requires token !in ResetRequest.DeleteByIdentifier(db.tokens, email)
    requires later < now + ResetRequest.TokenLifetime
    modifies db
    ensures db.Valid()
    ensures issued == ResetRequest.Sent
    ensures confirmed == ResetConfirm.ResetDone
    ensures replayed == ResetConfirm.InvalidToken
    ensures TokensFor(db.tokens, email) == {}
  {
    issued := ResetRequest.RequestReset(db, Some(email), token, now);
    ResetConfirm.IssuedTokenAccepted(old(db.tokens), email, token, now, later);
    ResetRequest.IssueLeavesOneToken(old(db.tokens), email, token, now);
    ghost var afterIssue := db.tokens;
    confirmed := ResetConfirm.ConfirmReset(db, Some(email), Some(token), Some(password), later, hash);
    assert TokensFor(db.tokens, email) == TokensFor(afterIssue, email) - {token};
    ResetConfirm.ConsumedTokenRejected(afterIssue, email, token, later);
    replayed := ResetConfirm.ConfirmReset(db, Some(email), Some(token), Some(password), later, hash);
  }
}
