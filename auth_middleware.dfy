/** middleware/auth.js: the access-token check in front of protected routes. */
module AuthMiddleware {
  import opened Common

  /** What `jwt.verify` does with a token: returns its `id` claim, or throws a
      `TokenExpiredError`, or throws any other error. */
  datatype Verdict = Verified(id: Id) | Expired | Invalid

  /** The middleware either calls `next()` having set `req.user`, or ends the
      request with an error. */
  datatype AuthOutcome =
    | Next(user: Id)
    | Deny(status: nat, message: string, tokenExpired: bool)

  /** The `x-auth-token` header is checked for presence, then verified; the
      outcome depends on nothing else (no blacklist, no user lookup). */
  function Authenticate(header: Option<Token>, verify: Token -> Verdict): (r: AuthOutcome)
    ensures r.Next? <==> Truthy(header) && verify(header.value).Verified?
    ensures r.Next? ==> r.user == verify(header.value).id
    ensures !Truthy(header) ==> r == Deny(401, "No token, authorization denied", false)
    ensures Truthy(header) && verify(header.value).Expired? ==> r == Deny(401, "Token expired", true)
    ensures Truthy(header) && verify(header.value).Invalid? ==> r == Deny(401, "Token is not valid", false)
  {
    if !Truthy(header) then Deny(401, "No token, authorization denied", false)
    else
      match verify(header.value)
      case Verified(id) => Next(id)
      case Expired => Deny(401, "Token expired", true)
      case Invalid => Deny(401, "Token is not valid", false)
  }

  /** Every refusal is a 401, and `tokenExpired` is set exactly for an
      expired token, so a client can tell "refresh" from "log in again". */
  lemma DenialsAre401(header: Option<Token>, verify: Token -> Verdict)
    requires Authenticate(header, verify).Deny?
    ensures Authenticate(header, verify).status == 401
    ensures Authenticate(header, verify).tokenExpired <==> Truthy(header) && verify(header.value).Expired?
  {
  }

  /** Two requests whose tokens verify alike are treated alike. */
  lemma DependsOnlyOnVerdict(h1: Token, h2: Token, verify: Token -> Verdict)
    requires h1 != "" && h2 != "" && verify(h1) == verify(h2)
    ensures Authenticate(Some(h1), verify) == Authenticate(Some(h2), verify)
  {
  }
}
