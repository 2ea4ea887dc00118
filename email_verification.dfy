/** controllers/emailVerificationController.js: confirming an email address
    and the cooldown on re-sending the confirmation link. */
module EmailVerification {
  import opened Common
  import opened UserModel

  /** At most one link every five minutes. */
  const CooldownMs: int := 5 * 60 * 1000

  // Response messages; a 500 carries the error's own text after this prefix.
  const LinkHasExpired: string := "Verification link has expired"
  const InvalidLinkToken: string := "Invalid verification token"
  const LinkRejected: string := "Invalid or expired verification token"
  const EmailVerified: string := "Email verified successfully! You can now log in."
  const NoAccount: string := "No account found with this email"
  const AlreadyVerified: string := "Email is already verified"
  const WaitBeforeResend: string := "Please wait 5 minutes before requesting another verification email"
  const VerificationSent: string := "Verification email sent successfully"
  const ResendFailed: string := "Error resending verification email"

  /** What `jwt.verify` makes of a verification token: its claims, or a
      `TokenExpiredError`, or a `JsonWebTokenError`. */
  datatype LinkVerdict = Claim(userId: Id, email: string) | LinkExpired | LinkInvalid

  /** When the current link was sent: its expiry less 24 hours, or 0 when the
      user has no pending link. */
  function LastSent(expires: Option<Time>): Time {
    if expires.Some? then expires.value - LinkLifetimeMs else 0
  }

  /** The 429 condition: less than five minutes since the last link. */
  predicate InCooldown(expires: Option<Time>, now: Time) {
    now - LastSent(expires) < CooldownMs
  }

  /** A link sent at `sentAt` (expiry `sentAt` + 24h) blocks a new one for
      exactly five minutes. */
  lemma CooldownIsFiveMinutesAfterSending(sentAt: Time, now: Time)
    ensures InCooldown(Some(sentAt + LinkLifetimeMs), now) <==> now < sentAt + CooldownMs
  {
  }

  /** Without a pending link the cooldown is measured from the epoch. */
  lemma NoPendingLinkNoCooldown(now: Time)
    requires now >= CooldownMs
    ensures !InCooldown(None, now)
  {
  }

  /** The `findOne` filter of `verifyEmail`: id, email and stored token all
      match and the stored expiry is still ahead. */
  predicate LinkMatches(u: User, userId: Id, email: string, token: Token, now: Time)
    reads u
  {
    && u.id == userId
    && u.email == email
    && u.emailVerificationToken == Some(token)
    && u.emailVerificationExpires.Some?
    && now < u.emailVerificationExpires.value
  }

  /** `verifyEmail`. Decoding errors are 400s with their own messages; a link
      that matches no user is a 400; a match marks the user verified and
      clears the pending link. */
  method VerifyEmail(users: seq<User>, token: Token, verdict: LinkVerdict, now: Time) returns (reply: Reply)
    requires DistinctIds(users)
    modifies users
    ensures verdict.LinkExpired? ==> reply == Reply(400, LinkHasExpired)
    ensures verdict.LinkInvalid? ==> reply == Reply(400, InvalidLinkToken)
    ensures verdict.Claim? ==> var i := FindById(users, verdict.userId);
      && (reply.status == 200 <==> i >= 0 && old(LinkMatches(users[i], verdict.userId, verdict.email, token, now)))
      && (reply.status == 200 ==>
            reply.message == EmailVerified
            && users[i].isEmailVerified
            && users[i].emailVerificationToken == None
            && users[i].emailVerificationExpires == None
            && users[i].Account() == old(users[i].Account()) && users[i].Lists() == old(users[i].Lists()) && users[i].Ledger() == old(users[i].Ledger()))
      && (reply.status != 200 ==> reply == Reply(400, LinkRejected))
    ensures forall k :: 0 <= k < |users| && (reply.status != 200 || k != FindById(users, verdict.userId)) ==>
      unchanged(users[k])
  {
    match verdict
    case LinkExpired =>
      reply := Reply(400, LinkHasExpired);
    case LinkInvalid =>
      reply := Reply(400, InvalidLinkToken);
    case Claim(userId, email) =>
      var i := FindById(users, userId);
      if i == -1 || !LinkMatches(users[i], userId, email, token, now) {
        reply := Reply(400, LinkRejected);
      } else {
        users[i].MarkEmailVerified();
        reply := Reply(200, EmailVerified);
      }
  }

  /** `resendVerification`. The e-mail itself goes through a collaborator whose
      success is `sent`; nothing is stored here. */
  function ResendVerification(users: seq<User>, email: string, now: Time, sent: bool): (r: Reply)
    reads users
    ensures FindByEmail(users, email) == -1 ==> r == Reply(404, NoAccount)
    ensures var i := FindByEmail(users, email);
      i >= 0 ==>
        && (users[i].isEmailVerified ==> r == Reply(400, AlreadyVerified))
        && (r.status == 429 <==> !users[i].isEmailVerified && InCooldown(users[i].emailVerificationExpires, now))
        && (r.status == 200 <==> !users[i].isEmailVerified && !InCooldown(users[i].emailVerificationExpires, now) && sent)
    ensures r.status in {200, 400, 404, 429, 500}
  {
    var i := FindByEmail(users, email);
    if i == -1 then Reply(404, NoAccount)
    else if users[i].isEmailVerified then Reply(400, AlreadyVerified)
    else if InCooldown(users[i].emailVerificationExpires, now) then
      Reply(429, WaitBeforeResend)
    else if sent then Reply(200, VerificationSent)
    else Reply(500, ResendFailed)
  }

  /** As written the 400 and the 429 never answer: a user the controller
      loads reads as unverified with no pending link, since the schema does
      not declare the verification paths, so once five minutes of the epoch
      have passed every found user gets the send's 200 or 500. */
  lemma ResendAsWrittenNeverRefuses(users: seq<User>, email: string, now: Time, sent: bool)
    requires FindByEmail(users, email) >= 0 && users[FindByEmail(users, email)].VerificationUnset()
    requires now >= CooldownMs
    ensures ResendVerification(users, email, now, sent) == (if sent then Reply(200, VerificationSent) else Reply(500, ResendFailed))
  {
  }
}
