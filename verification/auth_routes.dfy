/**
 * The login and register route handlers: the controller's error code
 * becomes the HTTP status, and a success signs a token whose claims are
 * the returned user's id, e-mail and role. Signing and the cookie are not
 * modelled; the claims are.
 */
module AuthRoutes {
  import opened Common
  import opened Text
  import opened Schema
  import opened AuthController

  /** The claims a session token carries */
  datatype Claims = Claims(sub: int, email: string, uloga: Role)

  /** A route's answer: the error code with its status, or the user with the claims of the token set as a cookie */
  datatype AuthResponse = Refused(status: int, code: ErrorCode) | Granted(status: int, user: UserView, claims: Claims)

  function ClaimsOf(v: UserView): Claims {
    Claims(v.id, v.email, v.uloga)
  }

  /** The status the login route gives an error code */
  function LoginStatus(code: ErrorCode): (st: int)
    ensures st == 401 <==> code == InvalidCredentials
    ensures st == 403 <==> code == UserDisabled
    ensures st != 401 && st != 403 ==> st == 400
  {
    if code == InvalidCredentials then 401 else if code == UserDisabled then 403 else 400
  }

  /** The status the register route gives an error code; an exception from the store is a 500. */
  function RegisterStatus(code: ErrorCode): (st: int)
    ensures st == 409 <==> code == EmailExists
    ensures st == 500 <==> code == DbError
    ensures st != 409 && st != 500 ==> st == 400
  {
    if code == DbError then 500 else if code == EmailExists then 409 else 400
  }

  /** `POST /api/auth/login` */
  function LoginRoute(s: Store, lower: string -> string, passOk: (string, string) -> bool,
                      email: TextField, sifra: TextField): (r: AuthResponse)
    requires UniqueEmail(s.korisnici)
    ensures r.Refused? <==> LoginUser(s, lower, passOk, email, sifra).Failure?
    ensures r.Refused? ==> r.code == LoginUser(s, lower, passOk, email, sifra).error && r.status == LoginStatus(r.code)
    ensures r.Granted? ==>
      && r.status == 200 && r.user == LoginUser(s, lower, passOk, email, sifra).value
      && r.claims.sub == r.user.id && r.claims.email == r.user.email && r.claims.uloga == r.user.uloga
  {
    match LoginUser(s, lower, passOk, email, sifra)
    case Failure(e) => Refused(LoginStatus(e), e)
    case Success(v) => Granted(200, v, ClaimsOf(v))
  }

  /** `POST /api/auth/register` */
  function RegisterRoute(s: Store, lower: string -> string, hashed: string,
                         imePrezime: TextField, email: TextField, sifra: TextField, uloga: TextField): (res: (Store, AuthResponse))
    requires Issued(s.korisnici, s.serials.korisnik) && UniqueEmail(s.korisnici)
    ensures UniqueEmail(res.0.korisnici)
    ensures res.0 == RegisterUser(s, lower, hashed, imePrezime, email, sifra, uloga).0
    ensures res.1.Refused? <==> RegisterUser(s, lower, hashed, imePrezime, email, sifra, uloga).1.Failure?
    ensures res.1.Refused? ==>
      res.1.code == RegisterUser(s, lower, hashed, imePrezime, email, sifra, uloga).1.error && res.1.status == RegisterStatus(res.1.code)
    ensures res.1.Granted? ==>
      && res.1.status == 201 && res.1.user == RegisterUser(s, lower, hashed, imePrezime, email, sifra, uloga).1.value
      && res.1.claims.sub == res.1.user.id && res.1.claims.email == res.1.user.email && res.1.claims.uloga == res.1.user.uloga
  {
    var (t, r) := RegisterUser(s, lower, hashed, imePrezime, email, sifra, uloga);
    match r
    case Failure(e) => (t, Refused(RegisterStatus(e), e))
    case Success(v) => (t, Granted(201, v, ClaimsOf(v)))
  }

  /**
   * A token issued at registration carries the same claims as one issued at
   * the next login with the same e-mail and password.
   */
  lemma {:induction false} RegisterAndLoginClaimsAgree(s: Store, lower: string -> string, passOk: (string, string) -> bool, hashed: string,
                                                       imePrezime: TextField, email: TextField, sifra: TextField, uloga: TextField)
    requires Issued(s.korisnici, s.serials.korisnik) && UniqueEmail(s.korisnici)
    requires email.Present? ==> NormalizeStable(lower, email.s)
    requires sifra.Present? ==> passOk(sifra.s, hashed)
    ensures var reg := RegisterRoute(s, lower, hashed, imePrezime, email, sifra, uloga);
      reg.1.Granted? ==>
        var log := LoginRoute(reg.0, lower, passOk, email, sifra);
        log.Granted? && log.claims == reg.1.claims && log.status == 200 && reg.1.status == 201
  {
    RegisterThenLogin(s, lower, passOk, hashed, imePrezime, email, sifra, uloga);
  }
}
