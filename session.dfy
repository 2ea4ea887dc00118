/** routes/auth.js: login, refresh-token rotation, logout, e-mail
    verification and the account routes, over the users collection and the
    token blacklist. Each handler is a chain of guards, each with its own
    status, followed by in-place updates of one user document. */
module Session {
  import opened Common
  import opened UserModel
  import opened TokenBlacklist
  import opened EmailVerification
  import AuthMiddleware

  /** The `expiresAt` that refresh-token (7 days) and access-token (15
      minutes) blacklisting ask for; the blacklist schema drops both. */
  const RefreshExpiryMs: int := 7 * LinkLifetimeMs
  const AccessExpiryMs: int := 15 * 60 * 1000

  // Response messages of the handlers.
  const InvalidCredentials: string := "Invalid credentials"
  const VerifyBeforeLogin: string := "Please verify your email before logging in. A new verification email has been sent."
  const RefreshTokenRequired: string := "Refresh token is required"
  const TokenInvalidated: string := "Token has been invalidated"
  const InvalidRefreshToken: string := "Invalid refresh token"
  const UserNotFound: string := "User not found"
  const LoggedOut: string := "Logged out successfully"
  const ErrorLoggingOut: string := "Error logging out"
  const SendFailed: string := "Error sending verification email"
  const UsernameTaken: string := "Username is already taken"
  const EmailTaken: string := "Email is already taken"
  const UpdateFailed: string := "Error updating user"
  const WrongPassword: string := "Current password is incorrect"
  const PasswordChanged: string := "Password changed successfully"

  /** The reply of POST /login to a user it found: the verification check
      comes first, then the password. */
  function LoginReply(verified: bool, passwordMatches: bool): (r: Reply)
    ensures r.status == 200 <==> verified && passwordMatches
    ensures r == Reply(403, VerifyBeforeLogin) <==> !verified
    ensures r == Reply(400, InvalidCredentials) <==> verified && !passwordMatches
  {
    if !verified then Reply(403, VerifyBeforeLogin)
    else if !passwordMatches then Reply(400, InvalidCredentials)
    else Reply(200, "")
  }

  /** As written no login starts a session: the User schema does not declare
      `isEmailVerified`, so every user a request loads reads as unverified,
      and whatever the password the reply is the 403 with a new link. */
  lemma NoSessionAsWritten(u: User, passwordMatches: bool)
    requires u.VerificationUnset()
    ensures LoginReply(u.isEmailVerified, passwordMatches) == Reply(403, VerifyBeforeLogin)
    ensures LoginReply(u.isEmailVerified, passwordMatches).status != 200
  {
  }

  /** The token pair a login or refresh hands back. */
  datatype TokenPair = TokenPair(accessToken: Token, refreshToken: Token)

  /** The blacklist after logout's optional first insertion (the refresh
      token, when the body carries one). */
  function RevokeRefresh(blacklist: seq<Entry>, refreshToken: Option<Token>, now: Time): Result<seq<Entry>, CreateError>
  {
    if Truthy(refreshToken) then Create(blacklist, refreshToken.value, now + RefreshExpiryMs, now)
    else Ok(blacklist)
  }

  /** The tokens of a ledger, as a set. */
  ghost function Elems(ledger: seq<Token>): (r: set<Token>)
    ensures forall t :: t in r <==> t in ledger
  {
    set t | t in ledger
  }

  /** A refresh token that a successful logout at `now` blacklisted stays
      in the blacklist, so that `Refresh` answers "Token has been invalidated",
      for fifteen minutes and no longer; the access token's entry next to it
      does not change that. */
  lemma {:induction false} LoggedOutRefreshTokenBlockedForFifteenMinutes(
    before: seq<Entry>, refreshToken: Token, accessToken: Token, now: Time, later: Time)
    requires CreatedBy(before, now) && now <= later && refreshToken != ""
    requires RevokeRefresh(before, Some(refreshToken), now).Ok?
    requires Create(RevokeRefresh(before, Some(refreshToken), now).value, accessToken, now + AccessExpiryMs, now).Ok?
    ensures var after := Create(RevokeRefresh(before, Some(refreshToken), now).value, accessToken,
                                now + AccessExpiryMs, now).value;
      Contains(after, refreshToken, later) <==> later < now + TtlMs
  {
    var first := RevokeRefresh(before, Some(refreshToken), now).value;
    var after := Create(first, accessToken, now + AccessExpiryMs, now).value;
    BlacklistedForFifteenMinutes(before, refreshToken, now + RefreshExpiryMs, now, later);
    assert accessToken != refreshToken;
    assert after == first + [Entry(accessToken, now)];
    if Contains(after, refreshToken, later) {
      var k :| 0 <= k < |after| && after[k].token == refreshToken && Live(after[k], later);
      assert k < |first| && after[k] == first[k];
    }
    if Contains(first, refreshToken, later) {
      var k :| 0 <= k < |first| && first[k].token == refreshToken && Live(first[k], later);
      assert after[k] == first[k];
    }
  }

  /** The users collection and the blacklist collection. */
  class AuthService {
    var users: seq<User>
    var blacklist: seq<Entry>

    /** `_id` is unique and every ledger keeps its own invariant. */
    ghost predicate Valid()
      reads this, users
    {
      && DistinctIds(users)
      && (forall k :: 0 <= k < |users| ==> users[k].LedgerValid())
    }

    /** A token that no ledger holds or ever held: what `jwt.sign` yields
        for a new refresh token. */
    ghost predicate Fresh(t: Token)
      reads this, users
    {
      && t != ""
      && (forall k :: 0 <= k < |users| ==>
            t !in users[k].activeRefreshTokens && t !in users[k].retiredTokens)
    }

    /** The collections over a set of existing users, nothing blacklisted. */
    constructor (users: seq<User>)
      requires DistinctIds(users)
      requires forall k :: 0 <= k < |users| ==> users[k].LedgerValid()
      ensures Valid()
      ensures this.users == users && blacklist == []
    {
      this.users := users;
      blacklist := [];
    }

    /** POST /login. An unknown username and a wrong password get the same
        answer; an unverified user gets a new verification link (valid for
        24 hours) and no tokens, whatever happens to the e-mail; a verified
        user with the right password starts a single new session, every
        earlier refresh token being dropped. */
    method Login(username: string, passwordMatches: bool, verificationToken: Token,
                 accessToken: Token, refreshToken: Token, now: Time)
      returns (reply: Reply, tokens: Option<TokenPair>, requiresVerification: bool)
      requires Valid() && Fresh(refreshToken)
      modifies users
      ensures Valid()
      ensures old(FindByUsername(users, username)) == -1 ==>
        reply == Reply(400, InvalidCredentials) && tokens == None && !requiresVerification
      ensures var i := old(FindByUsername(users, username));
        i >= 0 && !old(users[i].isEmailVerified) ==>
          && reply == Reply(403, VerifyBeforeLogin) && requiresVerification && tokens == None
          && users[i].emailVerificationToken == Some(verificationToken)
          && users[i].emailVerificationExpires == Some(now + LinkLifetimeMs)
          && users[i].Ledger() == old(users[i].Ledger())
      ensures var i := old(FindByUsername(users, username));
        i >= 0 && old(users[i].isEmailVerified) && !passwordMatches ==>
          && reply == Reply(400, InvalidCredentials) && tokens == None && !requiresVerification
          && unchanged(users[i])
      ensures var i := old(FindByUsername(users, username));
        i >= 0 && old(users[i].isEmailVerified) && passwordMatches ==>
          && reply.status == 200 && !requiresVerification
          && tokens == Some(TokenPair(accessToken, refreshToken))
          && users[i].activeRefreshTokens == [refreshToken]
          && users[i].retiredTokens == old(users[i].retiredTokens) + Elems(old(users[i].activeRefreshTokens))
          && users[i].Verification() == old(users[i].Verification())
      ensures var i := old(FindByUsername(users, username));
        i >= 0 ==> users[i].Account() == old(users[i].Account()) && users[i].Lists() == old(users[i].Lists()) && users[i].isEmailVerified == old(users[i].isEmailVerified)
      ensures forall k :: 0 <= k < |users| && k != old(FindByUsername(users, username)) ==> unchanged(users[k])
    {
      var i := FindByUsername(users, username);
      if i == -1 {
        reply, tokens, requiresVerification := Reply(400, InvalidCredentials), None, false;
      } else {
        reply, tokens, requiresVerification := LoginAs(i, passwordMatches, verificationToken, accessToken, refreshToken, now);
      }
    }

    /** Login once the username is found: the verification check, then the
        password check, then the new session. */
    method LoginAs(i: nat, passwordMatches: bool, verificationToken: Token,
                   accessToken: Token, refreshToken: Token, now: Time)
      returns (reply: Reply, tokens: Option<TokenPair>, requiresVerification: bool)
      requires Valid() && i < |users| && Fresh(refreshToken)
      modifies users[i]
      ensures Valid()
      ensures reply == LoginReply(old(users[i].isEmailVerified), passwordMatches)
      ensures !old(users[i].isEmailVerified) ==>
        && reply == Reply(403, VerifyBeforeLogin) && requiresVerification && tokens == None
        && users[i].emailVerificationToken == Some(verificationToken)
        && users[i].emailVerificationExpires == Some(now + LinkLifetimeMs)
        && users[i].Ledger() == old(users[i].Ledger())
      ensures old(users[i].isEmailVerified) && !passwordMatches ==>
        && reply == Reply(400, InvalidCredentials) && tokens == None && !requiresVerification
        && unchanged(users[i])
      ensures old(users[i].isEmailVerified) && passwordMatches ==>
        && reply.status == 200 && !requiresVerification
        && tokens == Some(TokenPair(accessToken, refreshToken))
        && users[i].activeRefreshTokens == [refreshToken]
        && users[i].retiredTokens == old(users[i].retiredTokens) + Elems(old(users[i].activeRefreshTokens))
        && users[i].Verification() == old(users[i].Verification())
      ensures users[i].Account() == old(users[i].Account()) && users[i].Lists() == old(users[i].Lists()) && users[i].isEmailVerified == old(users[i].isEmailVerified)
    {
      var user := users[i];
      tokens, requiresVerification := None, false;
      if !user.isEmailVerified {
        IssueVerificationLink(i, verificationToken, now);
        // The verification e-mail is sent here; a failure is only logged.
        reply, requiresVerification := Reply(403, VerifyBeforeLogin), true;
      } else if !passwordMatches {
        reply := Reply(400, InvalidCredentials);
      } else {
        StartSession(i, refreshToken);
        reply := Reply(200, "");
        tokens := Some(TokenPair(accessToken, refreshToken));
      }
    }

    /** A new verification link for one user; the ledger is not touched. */
    method IssueVerificationLink(i: nat, token: Token, now: Time)
      requires Valid() && i < |users|
      modifies (users[i] as User)`emailVerificationToken, (users[i] as User)`emailVerificationExpires
      ensures Valid()
      ensures users[i].emailVerificationToken == Some(token)
      ensures users[i].emailVerificationExpires == Some(now + LinkLifetimeMs)
    {
      users[i].SetVerificationLink(token, now);
    }

    /** The session part of a successful login: the ledger is emptied, so
        every earlier refresh token is retired, and the new one becomes its
        only entry. */
    method StartSession(i: nat, refreshToken: Token)
      requires Valid() && i < |users| && Fresh(refreshToken)
      modifies (users[i] as User)`activeRefreshTokens, (users[i] as User)`retiredTokens
      ensures Valid()
      ensures users[i].activeRefreshTokens == [refreshToken]
      ensures users[i].retiredTokens == old(users[i].retiredTokens) + Elems(old(users[i].activeRefreshTokens))
    {
      var user := users[i];
      ghost var dropped := Elems(user.activeRefreshTokens);
      user.activeRefreshTokens := [];
      AddTokenBelowCap([], refreshToken);
      user.AddRefreshToken(refreshToken);
      user.retiredTokens := user.retiredTokens + dropped;
    }

    /** POST /refresh-token: token rotation. The guards run in order: no
        token, blacklisted, not verifiable, unknown user, not in the user's
        ledger. A rotation replaces the presented token by a new one in the
        ledger (same length) and blacklists the presented one. */
    method Refresh(token: Option<Token>, verdict: AuthMiddleware.Verdict, accessToken: Token,
                   newRefreshToken: Token, now: Time)
      returns (reply: Reply, tokens: Option<TokenPair>)
      requires Valid() && CreatedBy(blacklist, now) && Fresh(newRefreshToken)
      modifies this`blacklist, users
      ensures Valid() && CreatedBy(blacklist, now)
      ensures !Truthy(token) ==> reply == Reply(400, RefreshTokenRequired)
      ensures Truthy(token) && old(Contains(blacklist, token.value, now)) ==>
        reply == Reply(401, TokenInvalidated)
      ensures Truthy(token) && !old(Contains(blacklist, token.value, now)) && !verdict.Verified? ==>
        reply == Reply(401, InvalidRefreshToken)
      ensures Truthy(token) && !old(Contains(blacklist, token.value, now)) && verdict.Verified? ==>
        var i := FindById(users, verdict.id);
        && (i == -1 ==> reply == Reply(404, UserNotFound))
        && (i >= 0 && token.value !in old(users[i].activeRefreshTokens) ==> reply == Reply(401, InvalidRefreshToken))
        && (i >= 0 && token.value in old(users[i].activeRefreshTokens) ==>
              && reply.status == 200
              && tokens == Some(TokenPair(accessToken, newRefreshToken))
              && users[i].activeRefreshTokens
                 == AddToken(RemoveToken(old(users[i].activeRefreshTokens), token.value), newRefreshToken)
              && |users[i].activeRefreshTokens| == |old(users[i].activeRefreshTokens)|
              && token.value !in users[i].activeRefreshTokens
              && token.value in users[i].retiredTokens
              && blacklist == old(blacklist) + [Entry(token.value, now)]
              && users[i].Account() == old(users[i].Account()) && users[i].Lists() == old(users[i].Lists()) && users[i].Verification() == old(users[i].Verification())
              && (forall k :: 0 <= k < |users| && k != i ==> unchanged(users[k])))
      ensures reply.status != 200 ==>
        && tokens == None && blacklist == old(blacklist)
        && (forall k :: 0 <= k < |users| ==> unchanged(users[k]))
      // Replay rejection: a token the user has had rotated away never rotates again.
      ensures Truthy(token) && verdict.Verified? && FindById(users, verdict.id) >= 0
              && token.value in old(users[FindById(users, verdict.id)].retiredTokens) ==>
        reply.status == 401
    {
      tokens := None;
      if !Truthy(token) {
        reply := Reply(400, RefreshTokenRequired);
      } else if Contains(blacklist, token.value, now) {
        reply := Reply(401, TokenInvalidated);
      } else if !verdict.Verified? {
        reply := Reply(401, InvalidRefreshToken);
      } else {
        var i := FindById(users, verdict.id);
        if i == -1 {
          reply := Reply(404, UserNotFound);
        } else if token.value !in users[i].activeRefreshTokens {
          reply := Reply(401, InvalidRefreshToken);
        } else {
          Rotate(i, token.value, newRefreshToken, now);
          reply := Reply(200, "");
          tokens := Some(TokenPair(accessToken, newRefreshToken));
        }
      }
    }

    /** The rotation itself: the ledger swaps the presented token for the new
        one and the presented token is blacklisted. */
    method Rotate(i: nat, presented: Token, newRefreshToken: Token, now: Time)
      requires Valid() && i < |users| && CreatedBy(blacklist, now) && Fresh(newRefreshToken)
      requires presented != "" && presented in users[i].activeRefreshTokens
      requires !Contains(blacklist, presented, now)
      modifies this`blacklist, (users[i] as User)`activeRefreshTokens, (users[i] as User)`retiredTokens
      ensures Valid() && CreatedBy(blacklist, now)
      ensures users[i].activeRefreshTokens
              == AddToken(RemoveToken(old(users[i].activeRefreshTokens), presented), newRefreshToken)
      ensures |users[i].activeRefreshTokens| == |old(users[i].activeRefreshTokens)|
      ensures presented !in users[i].activeRefreshTokens
      ensures users[i].retiredTokens == old(users[i].retiredTokens) + {presented}
      ensures blacklist == old(blacklist) + [Entry(presented, now)]
      ensures users[i].Account() == old(users[i].Account()) && users[i].Lists() == old(users[i].Lists()) && users[i].Verification() == old(users[i].Verification())
    {
      users[i].RotateRefreshToken(presented, newRefreshToken);
      // Cannot fail: the token is non-empty and was found absent.
      blacklist := Create(blacklist, presented, now + RefreshExpiryMs, now).value;
    }

    /** POST /logout. The refresh token from the body (when there is one) is
        blacklisted first, then the access token; the user document is saved
        only after both insertions succeeded, so a failed insertion leaves the
        ledger as it was, although a refresh-token entry already made stays. */
    method Logout(caller: Principal, accessToken: Token, refreshToken: Option<Token>, now: Time)
      returns (reply: Reply)
      requires Valid() && CreatedBy(blacklist, now)
      modifies this`blacklist, users
      ensures Valid() && CreatedBy(blacklist, now)
      ensures FindById(users, caller.id) == -1 ==>
        reply == Reply(404, UserNotFound) && blacklist == old(blacklist)
      ensures FindById(users, caller.id) >= 0 && RevokeRefresh(old(blacklist), refreshToken, now).Err? ==>
        reply == Reply(500, ErrorLoggingOut) && blacklist == old(blacklist)
      ensures FindById(users, caller.id) >= 0 && RevokeRefresh(old(blacklist), refreshToken, now).Ok? ==>
        var first := RevokeRefresh(old(blacklist), refreshToken, now).value;
        var second := Create(first, accessToken, now + AccessExpiryMs, now);
        && (second.Err? ==> reply == Reply(500, ErrorLoggingOut) && blacklist == first)
        && (second.Ok? ==> reply == Reply(200, LoggedOut) && blacklist == second.value)
      ensures var i := FindById(users, caller.id);
        i >= 0 && reply.status == 200 ==>
        && Contains(blacklist, accessToken, now)
        && (Truthy(refreshToken) ==>
              && Contains(blacklist, refreshToken.value, now)
              && users[i].activeRefreshTokens == RemoveToken(old(users[i].activeRefreshTokens), refreshToken.value)
              && refreshToken.value !in users[i].activeRefreshTokens)
        && (!Truthy(refreshToken) ==> unchanged(users[i]))
        && users[i].Account() == old(users[i].Account()) && users[i].Lists() == old(users[i].Lists())
        && users[i].Verification() == old(users[i].Verification())
      ensures reply.status != 200 ==> forall k :: 0 <= k < |users| ==> unchanged(users[k])
      ensures forall k :: 0 <= k < |users| && k != FindById(users, caller.id) ==> unchanged(users[k])
    {
      var i := FindById(users, caller.id);
      if i == -1 {
        reply := Reply(404, UserNotFound);
      } else {
        reply := LogoutAs(i, accessToken, refreshToken, now);
      }
    }

    /** Logout once the user is found: both insertions, then the ledger step. */
    method LogoutAs(i: nat, accessToken: Token, refreshToken: Option<Token>, now: Time) returns (reply: Reply)
      requires Valid() && i < |users| && CreatedBy(blacklist, now)
      modifies this`blacklist, (users[i] as User)`activeRefreshTokens, (users[i] as User)`retiredTokens
      ensures Valid() && CreatedBy(blacklist, now)
      ensures RevokeRefresh(old(blacklist), refreshToken, now).Err? ==>
        reply == Reply(500, ErrorLoggingOut) && blacklist == old(blacklist)
      ensures RevokeRefresh(old(blacklist), refreshToken, now).Ok? ==>
        var first := RevokeRefresh(old(blacklist), refreshToken, now).value;
        var second := Create(first, accessToken, now + AccessExpiryMs, now);
        && (second.Err? ==> reply == Reply(500, ErrorLoggingOut) && blacklist == first)
        && (second.Ok? ==> reply == Reply(200, LoggedOut) && blacklist == second.value)
      ensures reply.status == 200 ==>
        && Contains(blacklist, accessToken, now)
        && (Truthy(refreshToken) ==>
              && Contains(blacklist, refreshToken.value, now)
              && users[i].activeRefreshTokens == RemoveToken(old(users[i].activeRefreshTokens), refreshToken.value)
              && refreshToken.value !in users[i].activeRefreshTokens)
        && (!Truthy(refreshToken) ==> unchanged(users[i]))
      ensures reply.status != 200 ==> unchanged(users[i])
      ensures users[i].Account() == old(users[i].Account()) && users[i].Lists() == old(users[i].Lists())
      ensures users[i].Verification() == old(users[i].Verification())
      ensures forall k :: 0 <= k < |users| && k != i ==> unchanged(users[k])
    {
      OthersAreOtherUsers(users, i);
      var revoked := RevokeTokens(accessToken, refreshToken, now);
      if !revoked {
        reply := Reply(500, ErrorLoggingOut);
      } else {
        EndSession(i, refreshToken);
        reply := Reply(200, LoggedOut);
      }
    }

    /** Logout's ledger step, saved once both insertions succeeded. */
    method EndSession(i: nat, refreshToken: Option<Token>)
      requires Valid() && i < |users|
      modifies (users[i] as User)`activeRefreshTokens, (users[i] as User)`retiredTokens
      ensures Valid()
      ensures Truthy(refreshToken) ==>
        && users[i].activeRefreshTokens == RemoveToken(old(users[i].activeRefreshTokens), refreshToken.value)
        && refreshToken.value !in users[i].activeRefreshTokens
      ensures !Truthy(refreshToken) ==> unchanged(users[i])
      ensures forall k :: 0 <= k < |users| && k != i ==> unchanged(users[k])
    {
      if Truthy(refreshToken) {
        var user := users[i];
        OthersAreOtherUsers(users, i);
        user.RetireRefreshToken(refreshToken.value);
      }
    }

    /** Logout's two blacklist insertions; `revoked` says both succeeded. */
    method RevokeTokens(accessToken: Token, refreshToken: Option<Token>, now: Time) returns (revoked: bool)
      requires CreatedBy(blacklist, now)
      modifies this`blacklist
      ensures CreatedBy(blacklist, now)
      ensures RevokeRefresh(old(blacklist), refreshToken, now).Err? ==> !revoked && blacklist == old(blacklist)
      ensures RevokeRefresh(old(blacklist), refreshToken, now).Ok? ==>
        var first := RevokeRefresh(old(blacklist), refreshToken, now).value;
        var second := Create(first, accessToken, now + AccessExpiryMs, now);
        && (second.Err? ==> !revoked && blacklist == first)
        && (second.Ok? ==> revoked && blacklist == second.value)
      ensures revoked ==> Contains(blacklist, accessToken, now)
      ensures revoked && Truthy(refreshToken) ==> Contains(blacklist, refreshToken.value, now)
    {
      var first := RevokeRefresh(blacklist, refreshToken, now);
      if first.Err? {
        return false;
      }
      blacklist := first.value;
      var second := Create(blacklist, accessToken, now + AccessExpiryMs, now);
      if second.Err? {
        return false;
      }
      blacklist := second.value;
      revoked := true;
    }

    /** GET /verify-email/:token. Unlike the controller, the lookup does not
        compare the e-mail claim: id, stored token and expiry decide. */
    method VerifyEmail(token: Token, verdict: LinkVerdict, now: Time) returns (reply: Reply)
      requires Valid()
      modifies users
      ensures Valid()
      ensures verdict.LinkExpired? ==> reply == Reply(400, LinkHasExpired)
      ensures verdict.LinkInvalid? ==> reply == Reply(400, InvalidLinkToken)
      ensures verdict.Claim? ==>
        var i := FindById(users, verdict.userId);
        && (reply.status == 200 <==>
              i >= 0 && old(LinkMatches(users[i], verdict.userId, users[i].email, token, now)))
        && (reply.status == 200 ==>
              && reply.message == EmailVerified
              && users[i].isEmailVerified
              && users[i].emailVerificationToken == None
              && users[i].emailVerificationExpires == None
              && users[i].Account() == old(users[i].Account()) && users[i].Lists() == old(users[i].Lists()) && users[i].Ledger() == old(users[i].Ledger()))
        && (reply.status != 200 ==> reply == Reply(400, LinkRejected))
      ensures forall k :: 0 <= k < |users| && (reply.status != 200 || k != FindById(users, verdict.userId)) ==>
        unchanged(users[k])
    {
      match verdict
      case LinkExpired =>
        reply := Reply(400, LinkHasExpired);
      case LinkInvalid =>
        reply := Reply(400, InvalidLinkToken);
      case Claim(userId, _) =>
        var i := FindById(users, userId);
        if i == -1 || !LinkMatches(users[i], userId, users[i].email, token, now) {
          reply := Reply(400, LinkRejected);
        } else {
          users[i].MarkEmailVerified();
          reply := Reply(200, EmailVerified);
        }
    }

    /** POST /resend-verification. The same guards as the controller; then a
        new 24-hour link is stored before the e-mail goes out, so a failed
        send (`sent` false) is a 500 that still leaves the new link behind. */
    method ResendVerification(email: string, verificationToken: Token, sent: bool, now: Time)
      returns (reply: Reply)
      requires Valid()
      modifies users
      ensures Valid()
      ensures reply.status == old(EmailVerification.ResendVerification(users, email, now, sent).status)
      ensures var i := old(FindByEmail(users, email));
        && (i == -1 ==> reply == Reply(404, NoAccount))
        && (i >= 0 && old(users[i].isEmailVerified) ==> reply == Reply(400, AlreadyVerified))
        && (i >= 0 && !old(users[i].isEmailVerified) && old(InCooldown(users[i].emailVerificationExpires, now)) ==>
              reply == Reply(429, WaitBeforeResend))
        && (i >= 0 && !old(users[i].isEmailVerified) && !old(InCooldown(users[i].emailVerificationExpires, now)) ==>
              && users[i].emailVerificationToken == Some(verificationToken)
              && users[i].emailVerificationExpires == Some(now + LinkLifetimeMs)
              && users[i].isEmailVerified == old(users[i].isEmailVerified)
              && users[i].Account() == old(users[i].Account()) && users[i].Lists() == old(users[i].Lists()) && users[i].Ledger() == old(users[i].Ledger())
              && reply == (if sent then Reply(200, VerificationSent) else Reply(500, SendFailed)))
      ensures forall k :: 0 <= k < |users| && (k != old(FindByEmail(users, email)) || reply.status in {400, 429}) ==>
        unchanged(users[k])
    {
      var i := FindByEmail(users, email);
      if i == -1 {
        reply := Reply(404, NoAccount);
      } else if users[i].isEmailVerified {
        reply := Reply(400, AlreadyVerified);
      } else if InCooldown(users[i].emailVerificationExpires, now) {
        reply := Reply(429, WaitBeforeResend);
      } else {
        IssueVerificationLink(i, verificationToken, now);
        reply := if sent then Reply(200, VerificationSent) else Reply(500, SendFailed);
      }
    }

    /** PUT /user. A changed username or e-mail must not belong to another
        user; the save then fails validation on an empty username or e-mail
        or on an experience level outside the enum. */
    method UpdateUser(caller: Principal, username: string, email: string, experienceLevel: Option<string>)
      returns (reply: Reply)
      requires Valid()
      modifies users
      ensures Valid()
      ensures FindById(users, caller.id) == -1 ==> reply == Reply(404, UserNotFound)
      ensures var i := FindById(users, caller.id);
        i >= 0 ==>
          var nameClash := username != old(users[i].username) && old(FindByUsername(users, username)) != -1;
          var emailClash := email != old(users[i].email) && old(FindByEmail(users, email)) != -1;
          var invalid := username == "" || email == ""
                         || (Truthy(experienceLevel) && ParseLevel(experienceLevel.value).None?);
          && (nameClash ==> reply == Reply(400, UsernameTaken))
          && (!nameClash && emailClash ==> reply == Reply(400, EmailTaken))
          && (!nameClash && !emailClash && invalid ==> reply == Reply(500, UpdateFailed))
          && (!nameClash && !emailClash && !invalid ==>
                && reply.status == 200
                && users[i].username == username
                && users[i].email == email
                && users[i].experienceLevel
                   == (if Truthy(experienceLevel) then ParseLevel(experienceLevel.value).value
                       else old(users[i].experienceLevel))
                && users[i].passwordHash == old(users[i].passwordHash)
                && users[i].isAdmin == old(users[i].isAdmin) && users[i].hasSeenGuide == old(users[i].hasSeenGuide)
                && users[i].Lists() == old(users[i].Lists()) && users[i].Ledger() == old(users[i].Ledger()) && users[i].Verification() == old(users[i].Verification()))
      ensures old(UniqueUsernames(users)) ==> UniqueUsernames(users)
      ensures old(UniqueEmails(users)) ==> UniqueEmails(users)
      ensures reply.status != 200 ==> forall k :: 0 <= k < |users| ==> unchanged(users[k])
      ensures forall k :: 0 <= k < |users| && k != FindById(users, caller.id) ==> unchanged(users[k])
    {
      var i := FindById(users, caller.id);
      if i == -1 {
        reply := Reply(404, UserNotFound);
      } else if username != users[i].username && FindByUsername(users, username) != -1 {
        reply := Reply(400, UsernameTaken);
      } else if email != users[i].email && FindByEmail(users, email) != -1 {
        reply := Reply(400, EmailTaken);
      } else if username == "" || email == ""
                || (Truthy(experienceLevel) && ParseLevel(experienceLevel.value).None?) {
        reply := Reply(500, UpdateFailed);
      } else {
        var level := if Truthy(experienceLevel) then ParseLevel(experienceLevel.value).value
                     else users[i].experienceLevel;
        SetProfile(i, username, email, level);
        reply := Reply(200, "");
      }
    }

    /** The assignments of PUT /user, once the checks have passed: the new
        names clash with no other user, so uniqueness survives. */
    method SetProfile(i: nat, username: string, email: string, level: ExperienceLevel)
      requires Valid() && i < |users|
      requires username == users[i].username || FindByUsername(users, username) == -1
      requires email == users[i].email || FindByEmail(users, email) == -1
      modifies (users[i] as User)`username, (users[i] as User)`email, (users[i] as User)`experienceLevel
      ensures Valid()
      ensures users[i].username == username && users[i].email == email && users[i].experienceLevel == level
      ensures users[i].passwordHash == old(users[i].passwordHash)
      ensures users[i].isAdmin == old(users[i].isAdmin) && users[i].hasSeenGuide == old(users[i].hasSeenGuide)
      ensures users[i].Lists() == old(users[i].Lists()) && users[i].Ledger() == old(users[i].Ledger()) && users[i].Verification() == old(users[i].Verification())
      ensures old(UniqueUsernames(users)) ==> UniqueUsernames(users)
      ensures old(UniqueEmails(users)) ==> UniqueEmails(users)
    {
      var user := users[i];
      user.username := username;
      user.email := email;
      user.experienceLevel := level;
    }

    /** PUT /change-password. The refresh-token ledger is left alone, so
        existing sessions survive a password change. */
    method ChangePassword(caller: Principal, currentMatches: bool, newHash: string) returns (reply: Reply)
      requires Valid()
      modifies users
      ensures Valid()
      ensures var i := FindById(users, caller.id);
        && (i == -1 ==> reply == Reply(404, UserNotFound))
        && (i >= 0 && !currentMatches ==> reply == Reply(400, WrongPassword))
        && (i >= 0 && currentMatches ==>
              && reply == Reply(200, PasswordChanged)
              && users[i].passwordHash == newHash
              && users[i].activeRefreshTokens == old(users[i].activeRefreshTokens)
              && users[i].username == old(users[i].username) && users[i].email == old(users[i].email)
              && users[i].experienceLevel == old(users[i].experienceLevel)
              && users[i].isAdmin == old(users[i].isAdmin) && users[i].hasSeenGuide == old(users[i].hasSeenGuide)
              && users[i].Lists() == old(users[i].Lists()) && users[i].Ledger() == old(users[i].Ledger()) && users[i].Verification() == old(users[i].Verification()))
      ensures reply.status != 200 ==> forall k :: 0 <= k < |users| ==> unchanged(users[k])
      ensures forall k :: 0 <= k < |users| && k != FindById(users, caller.id) ==> unchanged(users[k])
    {
      var i := FindById(users, caller.id);
      if i == -1 {
        reply := Reply(404, UserNotFound);
      } else if !currentMatches {
        reply := Reply(400, WrongPassword);
      } else {
        var user := users[i];
        user.passwordHash := newHash;
        reply := Reply(200, PasswordChanged);
      }
    }
  }
}
