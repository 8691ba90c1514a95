/**
 * The page-route middleware: public paths pass, `/uvoznik` and `/dobavljac`
 * pages need a cookie whose token payload names the matching role, and a
 * mismatch is sent to the role's home. The token payload is read without
 * verifying the signature; `atob` and `JSON.parse` followed by reading the
 * `uloga` field are the parameter `decode`, which yields nothing where they
 * throw.
 */
module Middleware {
  import opened Common
  import opened Text
  import opened Schema
  import opened RoleRoutes

  /** The middleware's private `homeByRole(role)`, which takes any value and compares it strictly with the role names. */
  function HomeByAnyRole(role: JsValue): string {
    if role.Str? && role.s == "UVOZNIK" then "/uvoznik/dobavljaci"
    else if role.Str? && role.s == "DOBAVLJAC" then "/dobavljac/proizvod"
    else if role.Str? && role.s == "ADMIN" then "/"
    else "/"
  }

  /** The value a role takes in the token's JSON payload */
  function RoleValue(uloga: Option<Role>, n: JsNumber): JsValue {
    if uloga.Some? then Str(RoleName(uloga.value), n) else Undefined
  }

  /** The two copies of `homeByRole` agree on every role and on an undefined one. */
  lemma HomeCopiesAgree(uloga: Option<Role>, n: JsNumber)
    ensures HomeByAnyRole(RoleValue(uloga, n)) == HomeByRole(uloga)
  {
  }

  // ---- the payload's base64url text ----

  /** `payload.replace(/-/g, "+").replace(/_/g, "/")` */
  function ToStandard(p: string): (b: string)
    ensures |b| == |p|
    ensures forall i :: 0 <= i < |p| ==> b[i] == (if p[i] == '-' then '+' else if p[i] == '_' then '/' else p[i])
  {
    seq(|p|, i requires 0 <= i < |p| => if p[i] == '-' then '+' else if p[i] == '_' then '/' else p[i])
  }

  /** `"===".slice((b.length + 3) % 4)`, where `length` counts UTF-16 code units */
  function Padding(b: string): string {
    "==="[(Utf16Length(b) + 3) % 4..]
  }

  /** The padded standard-alphabet text handed to `atob` */
  function PaddedPayload(p: string): string {
    ToStandard(p) + Padding(ToStandard(p))
  }

  /** The padding is at most three `=` and completes the UTF-16 length to a multiple of 4. */
  lemma {:induction false} PaddingCompletes(b: string)
    ensures |Padding(b)| <= 3
    ensures forall i :: 0 <= i < |Padding(b)| ==> Padding(b)[i] == '='
    ensures Utf16Length(b + Padding(b)) % 4 == 0
  {
    var n := (Utf16Length(b) + 3) % 4;
    var pad := Padding(b);
    assert |pad| == 3 - n;
    forall i | 0 <= i < |pad| ensures pad[i] == '=' {
      assert pad[i] == "==="[n + i];
    }
    Utf16LengthBmp(pad);
    Utf16Append(b, pad);
  }

  /**
   * The padded text starts with the translated payload, holds no `-` or `_`,
   * adds at most three `=`, and has a UTF-16 length divisible by 4.
   */
  lemma {:induction false} PaddedShape(p: string)
    ensures var q := PaddedPayload(p);
      && q[..|p|] == ToStandard(p)
      && |q| - |p| <= 3
      && (forall i :: |p| <= i < |q| ==> q[i] == '=')
      && (forall i :: 0 <= i < |q| ==> q[i] != '-' && q[i] != '_')
      && Utf16Length(q) % 4 == 0
  {
    var b := ToStandard(p);
    var q := PaddedPayload(p);
    var pad := Padding(b);
    PaddingCompletes(b);
    assert q == b + pad;
    assert q[..|p|] == b;
    forall i | |p| <= i < |q| ensures q[i] == '=' {
      assert q[i] == pad[i - |b|];
    }
    forall i | 0 <= i < |q| ensures q[i] != '-' && q[i] != '_' {
      if i < |p| {
        assert q[i] == b[i];
      } else {
        assert q[i] == pad[i - |b|];
      }
    }
  }

  /** The inverse translation, `+` back to `-` and `/` back to `_`, after the padding is cut off */
  function ToUrl(q: string, n: nat): (p: string)
    requires n <= |q|
    ensures |p| == n
  {
    seq(n, i requires 0 <= i < n => if q[i] == '+' then '-' else if q[i] == '/' then '_' else q[i])
  }

  /** A base64url payload, free of `+` and `/`, is recovered from its padded form. */
  lemma {:induction false} PaddingRoundTrip(p: string)
    requires forall i :: 0 <= i < |p| ==> p[i] != '+' && p[i] != '/'
    ensures |p| <= |PaddedPayload(p)| && ToUrl(PaddedPayload(p), |p|) == p
  {
    var q := PaddedPayload(p);
    forall i | 0 <= i < |p| ensures ToUrl(q, |p|)[i] == p[i] {
      assert q[i] == ToStandard(p)[i];
    }
  }

  /**
   * `decodeJwtPayload(token)` followed by `?.uloga`: the role value of the
   * payload, the middle one of exactly three dot-separated parts, or nothing.
   */
  function DecodeJwtPayload(token: string, decode: string -> Option<JsValue>): (r: Option<JsValue>)
    ensures Count(token, '.') != 2 ==> r.None?
    ensures Count(token, '.') == 2 ==> r == decode(PaddedPayload(Split(token, '.')[1]))
  {
    var parts := Split(token, '.');
    if |parts| != 3 then None else decode(PaddedPayload(parts[1]))
  }

  // ---- the routing decision ----

  datatype Decision = Next | Redirect(path: string)

  /** Paths the middleware lets through before looking at anything else */
  predicate Public(path: string) {
    StartsWith(path, "/api") || StartsWith(path, "/_next") || path == "/favicon.ico" || StartsWith(path, "/assets")
  }

  predicate UvoznikPage(path: string) {
    StartsWith(path, "/uvoznik")
  }

  predicate DobavljacPage(path: string) {
    StartsWith(path, "/dobavljac")
  }

  /** The role a request carries: the payload's `uloga`, undefined when the payload does not decode */
  function RoleOf(cookie: Option<string>, decode: string -> Option<JsValue>): JsValue
    requires cookie.Some?
  {
    match DecodeJwtPayload(cookie.value, decode)
    case None => Undefined
    case Some(v) => v
  }

  /** `role === name` */
  predicate IsRole(role: JsValue, name: string) {
    role.Str? && role.s == name
  }

  /** `middleware(req)` for the request's path and `auth` cookie */
  function Decide(pathname: string, cookie: Option<string>, decode: string -> Option<JsValue>): (d: Decision)
    ensures Public(pathname) ==> d == Next
    ensures !UvoznikPage(pathname) && !DobavljacPage(pathname) ==> d == Next
    ensures !Public(pathname) && (UvoznikPage(pathname) || DobavljacPage(pathname)) ==>
      && ((cookie.None? || cookie.value == "") ==> d == Redirect("/login"))
      && (cookie.Some? && cookie.value != "" && !Truthy(RoleOf(cookie, decode)) ==> d == Redirect("/login"))
      && (cookie.Some? && cookie.value != "" && Truthy(RoleOf(cookie, decode)) ==>
            var role := RoleOf(cookie, decode);
            && (UvoznikPage(pathname) && !IsRole(role, "UVOZNIK") ==> d == Redirect(HomeByAnyRole(role)))
            && (DobavljacPage(pathname) && !IsRole(role, "DOBAVLJAC") ==> d == Redirect(HomeByAnyRole(role))))
    ensures d == Next <==>
      || Public(pathname) || (!UvoznikPage(pathname) && !DobavljacPage(pathname))
      || (cookie.Some? && cookie.value != "" && Truthy(RoleOf(cookie, decode))
          && (UvoznikPage(pathname) ==> IsRole(RoleOf(cookie, decode), "UVOZNIK"))
          && (DobavljacPage(pathname) ==> IsRole(RoleOf(cookie, decode), "DOBAVLJAC")))
  {
    if Public(pathname) then Next
    else if !UvoznikPage(pathname) && !DobavljacPage(pathname) then Next
    else if cookie.None? || cookie.value == "" then Redirect("/login")
    else
      var role := RoleOf(cookie, decode);
      if !Truthy(role) then Redirect("/login")
      else if UvoznikPage(pathname) && !IsRole(role, "UVOZNIK") then Redirect(HomeByAnyRole(role))
      else if DobavljacPage(pathname) && !IsRole(role, "DOBAVLJAC") then Redirect(HomeByAnyRole(role))
      else Next
  }

  /** A redirect never leads to another one: the target, requested with the same cookie, passes. */
  lemma {:induction false} NoRedirectLoop(pathname: string, cookie: Option<string>, decode: string -> Option<JsValue>)
    ensures Decide(pathname, cookie, decode).Redirect? ==> Decide(Decide(pathname, cookie, decode).path, cookie, decode) == Next
  {
    var d := Decide(pathname, cookie, decode);
    if d.Redirect? {
      assert !StartsWith("/login", "/uvoznik") && !StartsWith("/login", "/dobavljac");
      assert !StartsWith("/", "/uvoznik") && !StartsWith("/", "/dobavljac");
      assert StartsWith("/uvoznik/dobavljaci", "/uvoznik") && !StartsWith("/uvoznik/dobavljaci", "/dobavljac");
      assert StartsWith("/dobavljac/proizvod", "/dobavljac") && !StartsWith("/dobavljac/proizvod", "/uvoznik");
    }
  }
}
