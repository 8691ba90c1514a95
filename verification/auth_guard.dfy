/**
 * The API guards. Token verification (`verifyAuthToken`) is the parameter
 * `verify`, which yields the claims or nothing where the source throws.
 * A guard either passes a value on or throws a response.
 */
module AuthGuard {
  import opened Common
  import opened Schema
  import opened AuthController
  import opened AuthRoutes

  datatype Gate<+T> = Pass(value: T) | Throw(status: int, error: ErrorCode)

  /**
   * `getCurrentUser()`: no user without a token, with a token that does not
   * verify, or with claims naming no stored user; otherwise the stored row,
   * not the token's claims.
   */
  function GetCurrentUser(s: Store, token: Option<string>, verify: string -> Option<Claims>): (r: Option<UserView>)
    ensures r.Some? <==>
      token.Some? && token.value != "" && verify(token.value).Some?
      && verify(token.value).value.sub >= 0 && verify(token.value).value.sub as nat in s.korisnici
    ensures r.Some? ==>
      var k := verify(token.value).value.sub as nat;
      r.value == ViewOfUser(k, s.korisnici[k])
  {
    if token.None? || token.value == "" then None
    else match verify(token.value)
      case None => None
      case Some(c) =>
        if c.sub >= 0 && c.sub as nat in s.korisnici then
          Some(ViewOfUser(c.sub as nat, s.korisnici[c.sub as nat]))
        else None
  }

  /** `requireUser()`: 401 without a current user, then 403 for a disabled one, else the user. */
  function RequireUser(current: Option<UserView>): (g: Gate<UserView>)
    ensures current.None? <==> g == Throw(401, Unauthorized)
    ensures g == Throw(403, UserDisabled) <==> current.Some? && !current.value.status
    ensures g.Pass? <==> current.Some? && current.value.status
    ensures g.Pass? ==> g.value == current.value
  {
    match current
    case None => Throw(401, Unauthorized)
    case Some(u) => if !u.status then Throw(403, UserDisabled) else Pass(u)
  }

  /** `requireRole(user, allowed)`: 403 exactly when the role is not allowed. */
  function RequireRole(user: UserView, allowed: seq<Role>): (g: Gate<()>)
    ensures g.Throw? <==> user.uloga !in allowed
    ensures g.Throw? ==> g == Throw(403, Forbidden)
  {
    if user.uloga !in allowed then Throw(403, Forbidden) else Pass(())
  }

  /** What every protected API route does first: `requireUser()` then `requireRole(user, allowed)`. */
  function Guard(s: Store, token: Option<string>, verify: string -> Option<Claims>, allowed: seq<Role>): (g: Gate<UserView>)
    ensures g.Pass? ==> g.value.status && g.value.uloga in allowed && Some(g.value) == GetCurrentUser(s, token, verify)
  {
    match RequireUser(GetCurrentUser(s, token, verify))
    case Throw(st, e) => Throw(st, e)
    case Pass(u) =>
      match RequireRole(u, allowed)
      case Throw(st, e) => Throw(st, e)
      case Pass(_) => Pass(u)
  }

  /** A disabled user is told USER_DISABLED and never FORBIDDEN, whatever the route allows. */
  lemma {:induction false} DisabledNeverForbidden(s: Store, token: Option<string>, verify: string -> Option<Claims>, allowed: seq<Role>)
    requires GetCurrentUser(s, token, verify).Some? && !GetCurrentUser(s, token, verify).value.status
    ensures Guard(s, token, verify, allowed) == Throw(403, UserDisabled)
  {
  }

  /** The guard decides exactly: 401, 403 USER_DISABLED, 403 FORBIDDEN or pass, in that order. */
  lemma {:induction false} GuardOutcomes(s: Store, token: Option<string>, verify: string -> Option<Claims>, allowed: seq<Role>)
    ensures var cu := GetCurrentUser(s, token, verify);
      var g := Guard(s, token, verify, allowed);
      && (cu.None? ==> g == Throw(401, Unauthorized))
      && (cu.Some? && !cu.value.status ==> g == Throw(403, UserDisabled))
      && (cu.Some? && cu.value.status && cu.value.uloga !in allowed ==> g == Throw(403, Forbidden))
      && (cu.Some? && cu.value.status && cu.value.uloga in allowed ==> g == Pass(cu.value))
  {
  }

  /** Only the token's subject is read: two tokens with the same subject give the same current user, whatever role or e-mail they claim. */
  lemma {:induction false} RoleClaimIgnored(s: Store, t1: string, t2: string, verify: string -> Option<Claims>)
    requires t1 != "" && t2 != ""
    requires verify(t1).Some? && verify(t2).Some? && verify(t1).value.sub == verify(t2).value.sub
    ensures GetCurrentUser(s, Some(t1), verify) == GetCurrentUser(s, Some(t2), verify)
  {
  }
}
