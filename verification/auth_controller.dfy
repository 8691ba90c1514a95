/**
 * Login and registration. `toLowerCase` is the parameter `lower`, the
 * password check (`bcrypt.compare`) is the parameter `passOk`, and the
 * password hash (`bcrypt.hash`, salted) is the input `hashed`.
 */
module AuthController {
  import opened Common
  import opened Text
  import opened Schema

  /** `e.trim().toLowerCase()` */
  function Normalize(lower: string -> string, e: string): string {
    lower(Trim(e))
  }

  /** `input.email?.trim().toLowerCase()`: the normalised e-mail, or undefined for an absent or null one. */
  function NormalizedEmail(lower: string -> string, x: TextField): (r: Option<string>)
    ensures r.Some? <==> x.Present?
    ensures r.Some? ==> r.value == Normalize(lower, x.s)
  {
    if x.Present? then Some(Normalize(lower, x.s)) else None
  }

  /** A field whose JavaScript value is truthy: a non-empty string */
  predicate Filled(x: TextField) {
    x.Present? && x.s != ""
  }

  /** The user record the controller returns, and the session's current user */
  datatype UserView = UserView(id: nat, imePrezime: string, email: string, uloga: Role, status: bool)

  function ViewOfUser(k: nat, u: Korisnik): (v: UserView)
    ensures v.id == k && v.imePrezime == u.imePrezime && v.email == u.email && v.uloga == u.uloga && v.status == u.status
  {
    UserView(k, u.imePrezime, u.email, u.uloga, u.status)
  }

  /** `getUserByEmail(email)`: the user whose stored e-mail equals the normalised argument */
  function GetUserByEmail(s: Store, lower: string -> string, email: string): (r: Option<nat>)
    requires UniqueEmail(s.korisnici)
    ensures r.Some? ==> r.value in s.korisnici && s.korisnici[r.value].email == Normalize(lower, email)
    ensures r.None? ==> forall k :: k in s.korisnici ==> s.korisnici[k].email != Normalize(lower, email)
  {
    UserByEmail(s.korisnici, Normalize(lower, email))
  }

  /** Both login fields are truthy once the e-mail is normalised */
  predicate LoginFilled(lower: string -> string, email: TextField, sifra: TextField) {
    email.Present? && Normalize(lower, email.s) != "" && Filled(sifra)
  }

  /**
   * `loginUser({email, sifra})`: INVALID_INPUT for an empty field; then the
   * lookup (which normalises the normalised e-mail once more); an unknown
   * e-mail and a wrong password both give INVALID_CREDENTIALS; a disabled
   * user is refused before the password is checked.
   */
  function LoginUser(s: Store, lower: string -> string, passOk: (string, string) -> bool,
                     email: TextField, sifra: TextField): (r: Result<UserView>)
    requires UniqueEmail(s.korisnici)
    ensures !LoginFilled(lower, email, sifra) <==> r == Failure(InvalidInput)
    ensures LoginFilled(lower, email, sifra) ==>
      var found := GetUserByEmail(s, lower, Normalize(lower, email.s));
      && (found.None? ==> r == Failure(InvalidCredentials))
      && (found.Some? && !s.korisnici[found.value].status ==> r == Failure(UserDisabled))
      && (found.Some? && s.korisnici[found.value].status && !passOk(sifra.s, s.korisnici[found.value].sifra) ==>
            r == Failure(InvalidCredentials))
      && (found.Some? && s.korisnici[found.value].status && passOk(sifra.s, s.korisnici[found.value].sifra) ==>
            r == Success(ViewOfUser(found.value, s.korisnici[found.value])))
  {
    match NormalizedEmail(lower, email)
    case None => Failure(InvalidInput)
    case Some(e) =>
      if e == "" || !Filled(sifra) then Failure(InvalidInput)
      else
        match GetUserByEmail(s, lower, e)
        case None => Failure(InvalidCredentials)
        case Some(k) =>
          var u := s.korisnici[k];
          if !u.status then Failure(UserDisabled)
          else if !passOk(sifra.s, u.sifra) then Failure(InvalidCredentials)
          else Success(ViewOfUser(k, u))
  }

  /** `input.uloga ?? "UVOZNIK"` */
  function RequestedRole(uloga: TextField): string {
    if uloga.Present? then uloga.s else "UVOZNIK"
  }

  /** The row the store accepts as a new user: widths and the unique e-mail. */
  predicate UserStorable(s: Store, u: Korisnik) {
    KorisnikFits(u) && forall k :: k in s.korisnici ==> s.korisnici[k].email != u.email
  }

  /** Adding a user under a fresh key whose e-mail no user has keeps the e-mails unique. */
  lemma InsertKeepsUniqueEmail(us: map<nat, Korisnik>, k: nat, u: Korisnik)
    requires UniqueEmail(us) && k !in us
    requires forall j :: j in us ==> us[j].email != u.email
    ensures UniqueEmail(us[k := u])
  {
    var t := us[k := u];
    forall a, b | a in t && b in t && a != b
      ensures t[a].email != t[b].email
    {
      if a != k && b != k {
        assert t[a] == us[a] && t[b] == us[b];
      }
    }
  }

  /**
   * `registerUser({imePrezime, email, sifra, uloga})`: INVALID_INPUT for an
   * empty field or a password under 6 UTF-16 units; EMAIL_EXISTS when the
   * lookup finds the e-mail; otherwise one new active user with the
   * normalised e-mail and the hashed password. The store refuses a role
   * string outside the enum, an overlong field or a duplicate e-mail the
   * lookup missed (an exception).
   */
  function RegisterUser(s: Store, lower: string -> string, hashed: string,
                        imePrezime: TextField, email: TextField, sifra: TextField, uloga: TextField): (res: (Store, Result<UserView>))
    requires Issued(s.korisnici, s.serials.korisnik) && UniqueEmail(s.korisnici)
    ensures UniqueEmail(res.0.korisnici) && Issued(res.0.korisnici, res.0.serials.korisnik)
    ensures res.1.Failure? ==> res.0 == s
    ensures !(imePrezime.Present? && Trim(imePrezime.s) != "" && LoginFilled(lower, email, sifra)) ==>
      res.1 == Failure(InvalidInput)
    ensures LoginFilled(lower, email, sifra) && Utf16Length(sifra.s) < 6 ==> res.1 == Failure(InvalidInput)
    ensures res.1 == Failure(EmailExists) <==>
      && imePrezime.Present? && Trim(imePrezime.s) != "" && LoginFilled(lower, email, sifra) && Utf16Length(sifra.s) >= 6
      && GetUserByEmail(s, lower, Normalize(lower, email.s)).Some?
    ensures res.1.Success? ==>
      var v := res.1.value;
      var row := Korisnik(Trim(imePrezime.s), Normalize(lower, email.s), hashed, v.uloga, true);
      && imePrezime.Present? && email.Present? && sifra.Present? && Utf16Length(sifra.s) >= 6
      && RoleName(v.uloga) == RequestedRole(uloga)
      && v.id !in s.korisnici && v == ViewOfUser(v.id, row) && v.status
      && UserStorable(s, row)
      && res.0 == s.(korisnici := s.korisnici[v.id := row], serials := s.serials.(korisnik := v.id + 1))
    ensures && imePrezime.Present? && Trim(imePrezime.s) != "" && LoginFilled(lower, email, sifra) && Utf16Length(sifra.s) >= 6
            && GetUserByEmail(s, lower, Normalize(lower, email.s)).None? ==>
      var role := ParseRole(RequestedRole(uloga));
      && (res.1.Success? <==>
            role.Some? && UserStorable(s, Korisnik(Trim(imePrezime.s), Normalize(lower, email.s), hashed, role.value, true)))
      && (res.1.Failure? ==> res.1 == Failure(DbError))
  {
    var name := if imePrezime.Present? then Some(Trim(imePrezime.s)) else None;
    match (name, NormalizedEmail(lower, email))
    case (None, _) => (s, Failure(InvalidInput))
    case (_, None) => (s, Failure(InvalidInput))
    case (Some(n), Some(e)) =>
      if n == "" || e == "" || !Filled(sifra) then (s, Failure(InvalidInput))
      else if Utf16Length(sifra.s) < 6 then (s, Failure(InvalidInput))
      else if GetUserByEmail(s, lower, e).Some? then (s, Failure(EmailExists))
      else
        match ParseRole(RequestedRole(uloga))
        case None => (s, Failure(DbError))
        case Some(role) =>
          var row := Korisnik(n, e, hashed, role, true);
          if !UserStorable(s, row) then (s, Failure(DbError))
          else
            var k := s.serials.korisnik;
            var t := s.(korisnici := s.korisnici[k := row], serials := s.serials.(korisnik := k + 1));
            InsertKeepsUniqueEmail(s.korisnici, k, row);
            (t, Success(ViewOfUser(k, row)))
  }

  // ---- properties ----

  /** The password check comes last: with a disabled user the answer is USER_DISABLED whatever the password check says. */
  lemma {:induction false} DisabledBeforePassword(s: Store, lower: string -> string, p1: (string, string) -> bool,
                                                  p2: (string, string) -> bool, email: TextField, sifra: TextField)
    requires UniqueEmail(s.korisnici)
    ensures LoginUser(s, lower, p1, email, sifra) == Failure(UserDisabled) <==>
            LoginUser(s, lower, p2, email, sifra) == Failure(UserDisabled)
  {
  }

  /** The e-mail normalisation settles after one round: normalising the normalised form changes nothing. */
  predicate NormalizeStable(lower: string -> string, e: string) {
    Normalize(lower, Normalize(lower, e)) == Normalize(lower, e)
  }

  /**
   * Registration and login fit together: whenever the normalisation of the
   * e-mail settles and the password matches its hash, logging in with the
   * same e-mail and password returns the user just registered.
   */
  lemma {:induction false} RegisterThenLogin(s: Store, lower: string -> string, passOk: (string, string) -> bool, hashed: string,
                                             imePrezime: TextField, email: TextField, sifra: TextField, uloga: TextField)
    requires Issued(s.korisnici, s.serials.korisnik) && UniqueEmail(s.korisnici)
    requires email.Present? ==> NormalizeStable(lower, email.s)
    requires sifra.Present? ==> passOk(sifra.s, hashed)
    ensures var res := RegisterUser(s, lower, hashed, imePrezime, email, sifra, uloga);
      res.1.Success? ==> LoginUser(res.0, lower, passOk, email, sifra) == res.1
  {
    var res := RegisterUser(s, lower, hashed, imePrezime, email, sifra, uloga);
    if res.1.Success? {
      var k := res.1.value.id;
      var e := Normalize(lower, email.s);
      assert res.0.korisnici[k].email == e;
      var found := GetUserByEmail(res.0, lower, e);
      assert Normalize(lower, e) == e;
      assert found == Some(k);
    }
  }

  /** Registering keeps every schema constraint; a new user is always active. */
  lemma {:induction false} RegisterKeepsValid(s: Store, lower: string -> string, hashed: string,
                                              imePrezime: TextField, email: TextField, sifra: TextField, uloga: TextField)
    requires Valid(s)
    ensures Valid(RegisterUser(s, lower, hashed, imePrezime, email, sifra, uloga).0)
  {
    var res := RegisterUser(s, lower, hashed, imePrezime, email, sifra, uloga);
    if res.1.Success? {
      var t := res.0;
      assert KorisniciValid(t);
      assert ProizvodiValid(t) by {
        forall k | k in t.proizvodi ensures ProizvodAdmissible(t, t.proizvodi[k]) {
          assert ProizvodAdmissible(s, s.proizvodi[k]);
        }
      }
      assert SaradnjeValid(t) by {
        forall k | k in t.saradnje ensures SaradnjaAdmissible(t, t.saradnje[k]) {
          assert SaradnjaAdmissible(s, s.saradnje[k]);
        }
      }
    }
  }
}
