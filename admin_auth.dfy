/** middleware/adminAuth.js: the gate in front of admin-only routes. */
module AdminAuth {
  import opened Common
  import AuthMiddleware

  /** What `req.user` can hold: nothing, the bare id string that
      middleware/auth.js stores, or a principal object with `isAdmin`. */
  datatype RequestUser = NoUser | IdString(id: Id) | PrincipalObject(principal: Principal)

  /** `req.user.isAdmin`, read as JavaScript reads it: a string has no such property. */
  predicate IsAdminFlag(u: RequestUser) {
    u.PrincipalObject? && u.principal.isAdmin
  }

  datatype GateOutcome = Pass | Forbidden(status: nat, message: string)

  /** Only a request whose user is flagged admin passes; the request itself is
      not changed (the gate only decides). */
  function AdminGate(u: RequestUser): (r: GateOutcome)
    ensures r == Pass <==> u.PrincipalObject? && u.principal.isAdmin
    ensures r != Pass ==> r == Forbidden(403, "Access denied. Admin rights required.")
  {
    if u.NoUser? || !IsAdminFlag(u) then Forbidden(403, "Access denied. Admin rights required.")
    else Pass
  }

  /** Behind middleware/auth.js, which sets `req.user` to the id string, the
      gate refuses every request, admins included. */
  lemma AdminGateRefusesAuthenticatedRequests(header: Option<Token>, verify: Token -> AuthMiddleware.Verdict)
    requires AuthMiddleware.Authenticate(header, verify).Next?
    ensures AdminGate(IdString(AuthMiddleware.Authenticate(header, verify).user)).Forbidden?
    ensures AdminGate(IdString(AuthMiddleware.Authenticate(header, verify).user)).status == 403
  {
  }
}
