/**
 * The relational store: one map per table, keyed by the serial primary key,
 * and the constraints the database schema enforces, gathered in `Valid`.
 * The container and invoice tables are reduced to the sets of product and
 * collaboration ids that a dependent row references.
 */
module Schema {
  import opened Common

  /** The `uloga` enum */
  datatype Role = Admin | Uvoznik | Dobavljac

  function RoleName(r: Role): string {
    match r
    case Admin => "ADMIN"
    case Uvoznik => "UVOZNIK"
    case Dobavljac => "DOBAVLJAC"
  }

  /** The enum value a string denotes; the database refuses every other string. */
  function ParseRole(s: string): (r: Option<Role>)
    ensures r.Some? ==> RoleName(r.value) == s
    ensures r.None? ==> s != "ADMIN" && s != "UVOZNIK" && s != "DOBAVLJAC"
  {
    if s == "ADMIN" then Some(Admin)
    else if s == "UVOZNIK" then Some(Uvoznik)
    else if s == "DOBAVLJAC" then Some(Dobavljac)
    else None
  }

  /** Every role has exactly one name, and the name denotes it again. */
  lemma ParseRoleName(r: Role)
    ensures ParseRole(RoleName(r)) == Some(r)
  {
  }

  datatype Korisnik = Korisnik(imePrezime: string, email: string, sifra: string, uloga: Role, status: bool)

  datatype Kategorija = Kategorija(ime: string, opis: Option<string>)

  /** A product; dimensions and price are real numbers, not IEEE doubles. */
  datatype Proizvod = Proizvod(
    sifra: string, naziv: string, slika: string,
    sirina: real, visina: real, duzina: real, cena: real,
    idKategorija: nat, idDobavljac: nat)

  /** A collaboration as the controllers see it, with the `pending` column. */
  datatype Saradnja = Saradnja(idUvoznik: nat, idDobavljac: nat, datumPocetka: int, status: bool, pending: bool)

  /** The next value of each table's serial sequence */
  datatype Serials = Serials(korisnik: nat, kategorija: nat, proizvod: nat, saradnja: nat)

  datatype Store = Store(
    korisnici: map<nat, Korisnik>,
    kategorije: map<nat, Kategorija>,
    proizvodi: map<nat, Proizvod>,
    saradnje: map<nat, Saradnja>,
    fakturisane: set<nat>,   // collaborations referenced by a faktura
    uKontejneru: set<nat>,   // products referenced by a stavkaKontejnera
    serials: Serials)

  // ---- column widths (varchar(n)) ----

  predicate KorisnikFits(u: Korisnik) {
    |u.imePrezime| <= 255 && |u.email| <= 255 && |u.sifra| <= 255
  }

  predicate KategorijaFits(c: Kategorija) {
    |c.ime| <= 100 && (c.opis.Some? ==> |c.opis.value| <= 255)
  }

  predicate ProizvodFits(p: Proizvod) {
    |p.sifra| <= 50 && |p.naziv| <= 255 && |p.slika| <= 255
  }

  /** The largest value of an `integer` or `serial` column (a 32-bit signed integer). */
  const MaxInt4: int := 2147483647

  // ---- constraints ----

  /** Serial keys start at 1 and lie below the sequence's next value. */
  predicate Issued<V>(m: map<nat, V>, next: nat) {
    next >= 1 && forall k :: k in m ==> 1 <= k < next
  }

  predicate UniqueEmail(us: map<nat, Korisnik>) {
    forall a, b :: a in us && b in us && a != b ==> us[a].email != us[b].email
  }

  predicate UniqueIme(cs: map<nat, Kategorija>) {
    forall a, b :: a in cs && b in cs && a != b ==> cs[a].ime != cs[b].ime
  }

  predicate UniqueSifra(ps: map<nat, Proizvod>) {
    forall a, b :: a in ps && b in ps && a != b ==> ps[a].sifra != ps[b].sifra
  }

  predicate SamePair(r: Saradnja, u: nat, d: nat) {
    r.idUvoznik == u && r.idDobavljac == d
  }

  /** The unique index on `(idUvoznik, idDobavljac)` */
  predicate PairUnique(ss: map<nat, Saradnja>) {
    forall a, b :: a in ss && b in ss && a != b ==> !SamePair(ss[b], ss[a].idUvoznik, ss[a].idDobavljac)
  }

  /** What the store accepts as a product row: widths, both foreign keys. */
  predicate ProizvodAdmissible(s: Store, p: Proizvod) {
    ProizvodFits(p) && p.idKategorija in s.kategorije && p.idDobavljac in s.korisnici
  }

  /** What the store accepts as a collaboration row: both foreign keys. */
  predicate SaradnjaAdmissible(s: Store, r: Saradnja) {
    r.idUvoznik in s.korisnici && r.idDobavljac in s.korisnici
  }

  /** The user table: keys issued by its sequence, unique e-mails, widths. */
  predicate KorisniciValid(s: Store) {
    && Issued(s.korisnici, s.serials.korisnik)
    && UniqueEmail(s.korisnici)
    && (forall k :: k in s.korisnici ==> KorisnikFits(s.korisnici[k]))
  }

  /** The category table: keys issued by its sequence, unique names, widths. */
  predicate KategorijeValid(s: Store) {
    && Issued(s.kategorije, s.serials.kategorija)
    && UniqueIme(s.kategorije)
    && (forall k :: k in s.kategorije ==> KategorijaFits(s.kategorije[k]))
  }

  /** The product table: keys, unique codes, admissible rows, container items refer to products. */
  predicate ProizvodiValid(s: Store) {
    && Issued(s.proizvodi, s.serials.proizvod)
    && UniqueSifra(s.proizvodi)
    && (forall k :: k in s.proizvodi ==> ProizvodAdmissible(s, s.proizvodi[k]))
    && s.uKontejneru <= s.proizvodi.Keys
  }

  /** The collaboration table: keys, one row per pair, admissible rows, invoices refer to collaborations. */
  predicate SaradnjeValid(s: Store) {
    && Issued(s.saradnje, s.serials.saradnja)
    && PairUnique(s.saradnje)
    && (forall k :: k in s.saradnje ==> SaradnjaAdmissible(s, s.saradnje[k]))
    && s.fakturisane <= s.saradnje.Keys
  }

  /** What the collaboration controller needs to find a pair's row and to issue a fresh key */
  predicate SaradnjeKeyed(s: Store) {
    Issued(s.saradnje, s.serials.saradnja) && PairUnique(s.saradnje)
  }

  /** Every constraint of the schema */
  predicate Valid(s: Store) {
    KorisniciValid(s) && KategorijeValid(s) && ProizvodiValid(s) && SaradnjeValid(s)
  }

  /** The one user with e-mail `e`, if any (the e-mail column is unique). */
  function UserByEmail(us: map<nat, Korisnik>, e: string): (r: Option<nat>)
    requires UniqueEmail(us)
    ensures r.Some? ==> r.value in us && us[r.value].email == e
    ensures r.None? ==> forall k :: k in us ==> us[k].email != e
  {
    if exists k :: k in us && us[k].email == e then
      var k :| k in us && us[k].email == e; Some(k)
    else None
  }

  /** The one collaboration row of the pair `(u, d)`, if any (the pair is unique). */
  function PairRow(ss: map<nat, Saradnja>, u: nat, d: nat): (r: Option<nat>)
    requires PairUnique(ss)
    ensures r.Some? ==> r.value in ss && SamePair(ss[r.value], u, d)
    ensures r.None? ==> forall k :: k in ss ==> !SamePair(ss[k], u, d)
  {
    if exists k :: k in ss && SamePair(ss[k], u, d) then
      var k :| k in ss && SamePair(ss[k], u, d); Some(k)
    else None
  }

  // ---- read-side joins ----

  /** A product row as the listing queries return it, with the category name its left join finds. */
  datatype ProizvodView = ProizvodView(proizvod: Proizvod, kategorijaIme: Option<string>)

  /** The left join of a product with its category: the name, or null without a matching row. */
  function ViewOf(s: Store, p: Proizvod): (v: ProizvodView)
    ensures v.proizvod == p
    ensures v.kategorijaIme.Some? <==> p.idKategorija in s.kategorije
    ensures v.kategorijaIme.Some? ==> v.kategorijaIme.value == s.kategorije[p.idKategorija].ime
  {
    ProizvodView(p, if p.idKategorija in s.kategorije then Some(s.kategorije[p.idKategorija].ime) else None)
  }

  // ---- writes that keep the constraints ----

  /** A write to the collaboration table alone keeps the store valid when the table stays valid. */
  lemma SaradnjeWriteValid(s: Store, t: Store)
    requires Valid(s) && SaradnjeValid(t)
    requires t.korisnici == s.korisnici && t.kategorije == s.kategorije && t.proizvodi == s.proizvodi
    requires t.uKontejneru == s.uKontejneru && t.serials.korisnik == s.serials.korisnik
    requires t.serials.kategorija == s.serials.kategorija && t.serials.proizvod == s.serials.proizvod
    ensures Valid(t)
  {
    assert KorisniciValid(t);
    assert KategorijeValid(t);
    assert ProizvodiValid(t) by {
      forall k | k in t.proizvodi ensures ProizvodAdmissible(t, t.proizvodi[k]) {
        assert ProizvodAdmissible(s, s.proizvodi[k]);
      }
    }
  }

  /** A write to the category table alone keeps the store valid when the table stays valid and every product's category remains. */
  lemma KategorijeWriteValid(s: Store, t: Store)
    requires Valid(s) && KategorijeValid(t)
    requires t.korisnici == s.korisnici && t.proizvodi == s.proizvodi && t.saradnje == s.saradnje
    requires t.uKontejneru == s.uKontejneru && t.fakturisane == s.fakturisane
    requires t.serials.korisnik == s.serials.korisnik && t.serials.proizvod == s.serials.proizvod
    requires t.serials.saradnja == s.serials.saradnja
    requires forall k :: k in s.proizvodi ==> s.proizvodi[k].idKategorija in t.kategorije
    ensures Valid(t)
  {
    assert KorisniciValid(t);
    assert ProizvodiValid(t) by {
      forall k | k in t.proizvodi ensures ProizvodAdmissible(t, t.proizvodi[k]) {
        assert ProizvodAdmissible(s, s.proizvodi[k]);
      }
    }
    assert SaradnjeValid(t) by {
      forall k | k in t.saradnje ensures SaradnjaAdmissible(t, t.saradnje[k]) {
        assert SaradnjaAdmissible(s, s.saradnje[k]);
      }
    }
  }

  /** A write to the product table alone keeps the store valid when the table stays valid. */
  lemma ProizvodiWriteValid(s: Store, t: Store)
    requires Valid(s) && ProizvodiValid(t)
    requires t.korisnici == s.korisnici && t.kategorije == s.kategorije && t.saradnje == s.saradnje
    requires t.fakturisane == s.fakturisane && t.serials.korisnik == s.serials.korisnik
    requires t.serials.kategorija == s.serials.kategorija && t.serials.saradnja == s.serials.saradnja
    ensures Valid(t)
  {
    assert KorisniciValid(t);
    assert KategorijeValid(t);
    assert SaradnjeValid(t) by {
      forall k | k in t.saradnje ensures SaradnjaAdmissible(t, t.saradnje[k]) {
        assert SaradnjaAdmissible(s, s.saradnje[k]);
      }
    }
  }
}
