/**
 * POST of app/api/auth/reset-password/request/route.ts: issue a password
 * reset token for an email that has an account.
 *
 * The random 32-character token is a parameter (`token`), and so is the
 * clock (`now`). The route sends no mail: it writes the token and its
 * expiry to the console, which is not part of this model.
 */
module ResetRequest {
  import opened Schema
  import opened Http
  import opened Database

  /** A token stays valid for 24 hours from issue. */
  const TokenLifetime: int := 24 * 60 * 60 * 1000

  const MissingEmail := Reply(BadRequest, "Email is required")
  const UnknownEmail := Reply(Ok, "If an account with this email exists, password reset instructions have been sent")
  const Sent := Reply(Ok, "Password reset instructions have been sent to your email")

  /** `delete(verificationTokens).where(eq(identifier, email))`. */
  function DeleteByIdentifier(tokens: TokensTable, identifier: string): (r: TokensTable)
    ensures TokensFor(r, identifier) == {}
    ensures forall t :: t in tokens && tokens[t].identifier != identifier ==> t in r && r[t] == tokens[t]
    ensures forall t :: t in r ==> t in tokens && r[t] == tokens[t]
  {
    map t | t in tokens && tokens[t].identifier != identifier :: tokens[t]
  }

  /** The row a successful issue inserts. */
  function NewToken(email: string, token: string, now: Time): VerificationToken
  {
    VerificationToken(email, token, now + TokenLifetime)
  }

  /**
   * The token table after a successful issue: every row of `email` removed,
   * then the new row inserted. The insert can only succeed when `token` is
   * not held by a remaining row (the column is unique).
   */
  function Issue(tokens: TokensTable, email: string, token: string, now: Time): (r: TokensTable)
    requires token !in DeleteByIdentifier(tokens, email)
    ensures r.Keys == DeleteByIdentifier(tokens, email).Keys + {token}
    ensures r[token] == NewToken(email, token, now)
  {
    DeleteByIdentifier(tokens, email)[token := NewToken(email, token, now)]
  }

  /** After an issue the email has exactly one token, the new one, expiring 24 hours later. */
  lemma IssueLeavesOneToken(tokens: TokensTable, email: string, token: string, now: Time)
    requires token !in DeleteByIdentifier(tokens, email)
    ensures TokensFor(Issue(tokens, email, token, now), email) == {token}
    ensures Issue(tokens, email, token, now)[token].expires == now + TokenLifetime
  {
  }

  /** Rows of every other identifier are exactly as before. */
  lemma IssueKeepsOthers(tokens: TokensTable, email: string, token: string, now: Time, other: string)
    requires token !in DeleteByIdentifier(tokens, email)
    requires other != email
    ensures TokensFor(Issue(tokens, email, token, now), other) == TokensFor(tokens, other)
    ensures forall t :: t in TokensFor(tokens, other) ==> Issue(tokens, email, token, now)[t] == tokens[t]
  {
  }

  /** The table stays keyed by its unique token column. */
  lemma IssueKeepsKeyed(tokens: TokensTable, email: string, token: string, now: Time)
    requires TokensKeyed(tokens)
    requires token !in DeleteByIdentifier(tokens, email)
    ensures TokensKeyed(Issue(tokens, email, token, now))
  {
  }

  /**
   * The handler. The users table is only read. The delete and the insert are
   * separate statements: when the insert fails on the unique token column,
   * the delete has already happened and the caller gets a 500.
   */
  method RequestReset(db: Db, email: Option<string>, token: string, now: Time) returns (reply: Reply)
    requires db.Valid()
    modifies db
    ensures db.Valid() && db.users == old(db.users)
    ensures !Present(email) ==> reply == MissingEmail && db.tokens == old(db.tokens)
    ensures Present(email) && !EmailRegistered(db.users, email.value) ==>
              reply == UnknownEmail && db.tokens == old(db.tokens)
    ensures Present(email) && EmailRegistered(db.users, email.value) ==>
              if token in DeleteByIdentifier(old(db.tokens), email.value) then
                reply == InternalError && db.tokens == DeleteByIdentifier(old(db.tokens), email.value)
              else
                reply == Sent && db.tokens == Issue(old(db.tokens), email.value, token, now)
  {
    if !Present(email) {
      return MissingEmail;
    }
    var e := email.value;
    if !EmailRegistered(db.users, e) {
      return UnknownEmail;
    }
    var kept := DeleteByIdentifier(db.tokens, e);
    db.tokens := kept;
    if token in kept {
      return InternalError;
    }
    IssueKeepsKeyed(old(db.tokens), e, token, now);
    db.tokens := kept[token := NewToken(e, token, now)];
    reply := Sent;
  }

  /**
   * The two 200 answers are not the same body: the unknown-email message
   * differs from the success message.
   */
  lemma OkRepliesDiffer()
    ensures UnknownEmail.status == Sent.status && UnknownEmail.message != Sent.message
  {
    assert |UnknownEmail.message| != |Sent.message|;
  }
}
