/**
 * The product controller: create-time validation and insert, the listing
 * with its optional supplier filter, the ownership gate, the patch builder
 * and update, and delete, which the store refuses while a container item
 * still refers to the product.
 */
module ProizvodController {
  import opened Common
  import opened Text
  import opened Schema

  /** A request body: every field as the parsed JSON gives it (a null body reads as all fields undefined). */
  datatype ProizvodBody = ProizvodBody(
    sifra: JsValue, naziv: JsValue, slika: JsValue,
    sirina: JsValue, visina: JsValue, duzina: JsValue, cena: JsValue,
    idKategorija: JsValue, idDobavljac: JsValue)

  /** The body field that a `Field` names */
  function Value(body: ProizvodBody, f: Field): JsValue {
    match f
    case Sifra => body.sifra
    case Naziv => body.naziv
    case Slika => body.slika
    case Sirina => body.sirina
    case Visina => body.visina
    case Duzina => body.duzina
    case Cena => body.cena
    case IdKategorija => body.idKategorija
    case IdDobavljac => body.idDobavljac
    case _ => Undefined
  }

  /** A string that is not blank after trimming */
  predicate FilledString(x: JsValue) {
    x.Str? && Trim(x.s) != ""
  }

  /** The check each field must pass: filled strings, finite numbers, positive integer ids. */
  predicate Acceptable(body: ProizvodBody, f: Field) {
    match f
    case Sifra => FilledString(body.sifra)
    case Naziv => FilledString(body.naziv)
    case Slika => FilledString(body.slika)
    case Sirina => IsFinite(ToNumber(body.sirina))
    case Visina => IsFinite(ToNumber(body.visina))
    case Duzina => IsFinite(ToNumber(body.duzina))
    case Cena => IsFinite(ToNumber(body.cena))
    case IdKategorija => IsPosInt(ToNumber(body.idKategorija))
    case IdDobavljac => IsPosInt(ToNumber(body.idDobavljac))
    case _ => true
  }

  /**
   * Whether a field passes: on create it must pass its check; in a patch an
   * undefined field passes, and `idDobavljac` passes only when undefined.
   */
  predicate Accepts(body: ProizvodBody, f: Field, patch: bool) {
    if !patch then Acceptable(body, f)
    else if f == IdDobavljac then body.idDobavljac == Undefined
    else Value(body, f) == Undefined || Acceptable(body, f)
  }

  /** The order in which `validateCreateInput` checks the fields */
  const CreateOrder: seq<Field> := [Sifra, Naziv, Slika, Sirina, Visina, Duzina, Cena, IdKategorija, IdDobavljac]

  /** The order in which `updateProizvod` checks the fields */
  const PatchOrder: seq<Field> := [IdDobavljac, Sifra, Naziv, Slika, Sirina, Visina, Duzina, Cena, IdKategorija]

  /** The index of the first field from `i` on that fails, or nothing when all pass */
  function FirstRejected(body: ProizvodBody, order: seq<Field>, patch: bool, i: nat): (r: Option<nat>)
    requires i <= |order|
    ensures r.None? ==> forall j :: i <= j < |order| ==> Accepts(body, order[j], patch)
    ensures r.Some? ==>
      && i <= r.value < |order| && !Accepts(body, order[r.value], patch)
      && forall j :: i <= j < r.value ==> Accepts(body, order[j], patch)
    decreases |order| - i
  {
    if i == |order| then None
    else if !Accepts(body, order[i], patch) then Some(i)
    else FirstRejected(body, order, patch, i + 1)
  }

  /** The checked fields of a body, checked in `order`, all pass up to index `i` and fail there. */
  predicate FailsFirstAt(body: ProizvodBody, order: seq<Field>, patch: bool, i: nat) {
    && i < |order| && !Accepts(body, order[i], patch)
    && forall j :: 0 <= j < i ==> Accepts(body, order[j], patch)
  }

  /** The trimmed string of a filled string field */
  function Trimmed(x: JsValue): string
    requires x.Str?
  {
    Trim(x.s)
  }

  /** `p` is the product a body spells: its strings trimmed and filled, its numbers and ids as coerced. */
  predicate Validated(body: ProizvodBody, p: Proizvod) {
    && body.sifra.Str? && p.sifra == Trim(body.sifra.s) && p.sifra != ""
    && body.naziv.Str? && p.naziv == Trim(body.naziv.s) && p.naziv != ""
    && body.slika.Str? && p.slika == Trim(body.slika.s) && p.slika != ""
    && ToNumber(body.sirina) == Finite(p.sirina) && ToNumber(body.visina) == Finite(p.visina)
    && ToNumber(body.duzina) == Finite(p.duzina) && ToNumber(body.cena) == Finite(p.cena)
    && p.idKategorija > 0 && ToNumber(body.idKategorija) == IdNumber(p.idKategorija)
    && p.idDobavljac > 0 && ToNumber(body.idDobavljac) == IdNumber(p.idDobavljac)
  }

  /** The product built from a body whose every field passes its check */
  function Built(body: ProizvodBody): (p: Proizvod)
    requires forall i :: 0 <= i < |CreateOrder| ==> Accepts(body, CreateOrder[i], false)
    ensures Validated(body, p)
  {
    assert Accepts(body, CreateOrder[0], false) && Accepts(body, CreateOrder[1], false);
    assert Accepts(body, CreateOrder[2], false) && Accepts(body, CreateOrder[3], false);
    assert Accepts(body, CreateOrder[4], false) && Accepts(body, CreateOrder[5], false);
    assert Accepts(body, CreateOrder[6], false) && Accepts(body, CreateOrder[7], false);
    assert Accepts(body, CreateOrder[8], false);
    Proizvod(
      Trimmed(body.sifra), Trimmed(body.naziv), Trimmed(body.slika),
      ToNumber(body.sirina).v, ToNumber(body.visina).v, ToNumber(body.duzina).v, ToNumber(body.cena).v,
      ParseId(ToNumber(body.idKategorija)).value, ParseId(ToNumber(body.idDobavljac)).value)
  }

  /**
   * `validateCreateInput(body)`: the first field, in the source's order, that
   * fails its check is reported; otherwise the product with trimmed strings
   * and the coerced numbers.
   */
  function ValidateCreateInput(body: ProizvodBody): (r: Result<Proizvod>)
    ensures r.Success? <==> forall i :: 0 <= i < |CreateOrder| ==> Accepts(body, CreateOrder[i], false)
    ensures r.Failure? ==> exists i: nat :: FailsFirstAt(body, CreateOrder, false, i) && r.error == BadField(CreateOrder[i])
    ensures r.Success? ==> Validated(body, r.value)
  {
    match FirstRejected(body, CreateOrder, false, 0)
    case Some(i) => Failure(BadField(CreateOrder[i]))
    case None => Success(Built(body))
  }

  /** The row the store accepts as product `k`: widths, both foreign keys and the unique code. */
  predicate Storable(s: Store, k: nat, p: Proizvod) {
    ProizvodAdmissible(s, p) && forall j :: j in s.proizvodi && j != k ==> s.proizvodi[j].sifra != p.sifra
  }

  /**
   * `createProizvod(body)`: 400 naming the first bad field, with the store
   * untouched; 201 with the new row; 500 when the store refuses the row.
   */
  function CreateProizvod(s: Store, body: ProizvodBody): (res: (Store, Reply<(nat, Proizvod)>))
    requires Issued(s.proizvodi, s.serials.proizvod)
    ensures ValidateCreateInput(body).Failure? ==> res == (s, Err(400, ValidateCreateInput(body).error))
    ensures ValidateCreateInput(body).Success? && !Storable(s, s.serials.proizvod, ValidateCreateInput(body).value) ==>
      res == (s, Err(500, DbError))
    ensures res.1.Ok? ==>
      var (k, p) := res.1.data;
      && res.1.status == 201 && ValidateCreateInput(body) == Success(p)
      && k == s.serials.proizvod && k !in s.proizvodi && Storable(s, k, p)
      && res.0 == s.(proizvodi := s.proizvodi[k := p], serials := s.serials.(proizvod := k + 1))
    ensures ValidateCreateInput(body).Success? && Storable(s, s.serials.proizvod, ValidateCreateInput(body).value) ==>
      res.1.Ok?
  {
    match ValidateCreateInput(body)
    case Failure(e) => (s, Err(400, e))
    case Success(p) =>
      var k := s.serials.proizvod;
      if Storable(s, k, p) then
        (s.(proizvodi := s.proizvodi[k := p], serials := s.serials.(proizvod := k + 1)), Ok(201, (k, p)))
      else (s, Err(500, DbError))
  }

  /** A listing row: the product view and the supplier's name from a left join. */
  datatype KatalogRow = KatalogRow(view: ProizvodView, dobavljacIme: Option<string>)

  function KatalogRowOf(s: Store, p: Proizvod): (row: KatalogRow)
    ensures row.view == ViewOf(s, p)
    ensures row.dobavljacIme.Some? <==> p.idDobavljac in s.korisnici
    ensures row.dobavljacIme.Some? ==> row.dobavljacIme.value == s.korisnici[p.idDobavljac].imePrezime
  {
    KatalogRow(ViewOf(s, p), if p.idDobavljac in s.korisnici then Some(s.korisnici[p.idDobavljac].imePrezime) else None)
  }

  /**
   * `getAllProizvodi(filter)`: every product, or, when the supplier filter is
   * a truthy number, the products whose supplier id equals it.
   */
  function GetAllProizvodi(s: Store, idDobavljac: Option<JsNumber>): (res: Reply<map<nat, KatalogRow>>)
    ensures res.Ok? && res.status == 200
    ensures forall p :: p in res.data ==> p in s.proizvodi && res.data[p] == KatalogRowOf(s, s.proizvodi[p])
    ensures idDobavljac.Some? && NumTruthy(idDobavljac.value) ==>
      forall p :: p in res.data <==> p in s.proizvodi && IdNumber(s.proizvodi[p].idDobavljac) == idDobavljac.value
    ensures !(idDobavljac.Some? && NumTruthy(idDobavljac.value)) ==> res.data.Keys == s.proizvodi.Keys
  {
    if idDobavljac.Some? && NumTruthy(idDobavljac.value) then
      Ok(200, map p | p in s.proizvodi && IdNumber(s.proizvodi[p].idDobavljac) == idDobavljac.value ::
        KatalogRowOf(s, s.proizvodi[p]))
    else
      Ok(200, map p | p in s.proizvodi :: KatalogRowOf(s, s.proizvodi[p]))
  }

  /** `assertOwnership(userId, productId)`: 404 for a missing product, 403 for another supplier's, else ok. */
  function AssertOwnership(s: Store, userId: int, productId: nat): (res: Reply<()>)
    ensures res.Ok? <==> productId in s.proizvodi && s.proizvodi[productId].idDobavljac == userId
    ensures res.Ok? ==> res.status == 200
    ensures productId !in s.proizvodi ==> res == Err(404, NotFound)
    ensures productId in s.proizvodi && s.proizvodi[productId].idDobavljac != userId ==> res == Err(403, Forbidden)
  {
    if productId !in s.proizvodi then Err(404, NotFound)
    else if s.proizvodi[productId].idDobavljac != userId then Err(403, Forbidden)
    else Ok(200, ())
  }

  /** The columns a patch sets; `idDobavljac` is not among them. */
  datatype ProizvodPatch = ProizvodPatch(
    sifra: Option<string>, naziv: Option<string>, slika: Option<string>,
    sirina: Option<real>, visina: Option<real>, duzina: Option<real>, cena: Option<real>,
    idKategorija: Option<nat>)

  predicate EmptyPatch(p: ProizvodPatch) {
    p.sifra.None? && p.naziv.None? && p.slika.None? && p.sirina.None? && p.visina.None?
    && p.duzina.None? && p.cena.None? && p.idKategorija.None?
  }

  function StrField(x: JsValue): Option<string> {
    if x.Str? then Some(Trim(x.s)) else None
  }

  function NumField(x: JsValue): Option<real> {
    if x != Undefined && ToNumber(x).Finite? then Some(ToNumber(x).v) else None
  }

  /**
   * The patch `updateProizvod` builds: the first field, in the source's order,
   * that fails is reported (any defined `idDobavljac` first of all); a patch
   * that sets nothing is refused.
   */
  function BuildPatch(body: ProizvodBody): (r: Result<ProizvodPatch>)
    ensures r.Failure? && r.error != NoFields ==>
      exists i: nat :: FailsFirstAt(body, PatchOrder, true, i) && r.error == BadField(PatchOrder[i])
    ensures (forall i :: 0 <= i < |PatchOrder| ==> Accepts(body, PatchOrder[i], true)) <==> (r.Success? || r == Failure(NoFields))
    ensures r.Success? ==> !EmptyPatch(r.value) && Reflects(body, r.value)
  {
    match FirstRejected(body, PatchOrder, true, 0)
    case Some(i) => Failure(BadField(PatchOrder[i]))
    case None =>
      var idKat := if body.idKategorija == Undefined then None else ParseId(ToNumber(body.idKategorija));
      var p := ProizvodPatch(
        StrField(body.sifra), StrField(body.naziv), StrField(body.slika),
        NumField(body.sirina), NumField(body.visina), NumField(body.duzina), NumField(body.cena),
        idKat);
      ReflectsBuilt(body);
      if EmptyPatch(p) then Failure(NoFields) else Success(p)
  }

  /** A patch column is set exactly when the body defines the field, to the trimmed string. */
  predicate StrReflects(x: JsValue, o: Option<string>) {
    (x == Undefined <==> o.None?) && (o.Some? ==> x.Str? && o.value == Trim(x.s))
  }

  /** A patch column is set exactly when the body defines the field, to its coerced number. */
  predicate NumReflects(x: JsValue, o: Option<real>) {
    (x == Undefined <==> o.None?) && (o.Some? ==> ToNumber(x) == Finite(o.value))
  }

  /** The patch sets exactly the fields the body defines, each to the value the body gives. */
  predicate Reflects(body: ProizvodBody, p: ProizvodPatch) {
    && StrReflects(body.sifra, p.sifra) && StrReflects(body.naziv, p.naziv) && StrReflects(body.slika, p.slika)
    && NumReflects(body.sirina, p.sirina) && NumReflects(body.visina, p.visina)
    && NumReflects(body.duzina, p.duzina) && NumReflects(body.cena, p.cena)
    && (body.idKategorija == Undefined <==> p.idKategorija.None?)
    && (p.idKategorija.Some? ==> p.idKategorija.value > 0 && ToNumber(body.idKategorija) == IdNumber(p.idKategorija.value))
  }

  /** The patch built from a body whose every field passes reflects that body. */
  lemma ReflectsBuilt(body: ProizvodBody)
    requires forall j :: 0 <= j < |PatchOrder| ==> Accepts(body, PatchOrder[j], true)
    ensures Reflects(body, ProizvodPatch(
        StrField(body.sifra), StrField(body.naziv), StrField(body.slika),
        NumField(body.sirina), NumField(body.visina), NumField(body.duzina), NumField(body.cena),
        if body.idKategorija == Undefined then None else ParseId(ToNumber(body.idKategorija))))
  {
    assert Accepts(body, PatchOrder[1], true) && Accepts(body, PatchOrder[2], true);
    assert Accepts(body, PatchOrder[3], true) && Accepts(body, PatchOrder[4], true);
    assert Accepts(body, PatchOrder[5], true) && Accepts(body, PatchOrder[6], true);
    assert Accepts(body, PatchOrder[7], true) && Accepts(body, PatchOrder[8], true);
  }

  /** The row after the patch: each set column replaced, every other column, the supplier included, kept. */
  function ApplyPatch(row: Proizvod, p: ProizvodPatch): Proizvod {
    Proizvod(
      if p.sifra.Some? then p.sifra.value else row.sifra,
      if p.naziv.Some? then p.naziv.value else row.naziv,
      if p.slika.Some? then p.slika.value else row.slika,
      if p.sirina.Some? then p.sirina.value else row.sirina,
      if p.visina.Some? then p.visina.value else row.visina,
      if p.duzina.Some? then p.duzina.value else row.duzina,
      if p.cena.Some? then p.cena.value else row.cena,
      if p.idKategorija.Some? then p.idKategorija.value else row.idKategorija,
      row.idDobavljac)
  }

  /**
   * `updateProizvod(userId, productId, body)`: 400 for a bad id, then the
   * ownership gate (404/403), then the patch (400); 500 when the store
   * refuses the patched row; otherwise 200 with the patched row.
   */
  function UpdateProizvod(s: Store, userId: int, productId: JsNumber, body: ProizvodBody): (res: (Store, Reply<(nat, Proizvod)>))
    ensures ParseId(productId).None? ==> res == (s, Err(400, BadField(IdParam)))
    ensures ParseId(productId).Some? && AssertOwnership(s, userId, ParseId(productId).value).Err? ==>
      var e := AssertOwnership(s, userId, ParseId(productId).value);
      res == (s, Err(e.status, e.error))
    ensures ParseId(productId).Some? && AssertOwnership(s, userId, ParseId(productId).value).Ok? && BuildPatch(body).Failure? ==>
      res == (s, Err(400, BuildPatch(body).error))
    ensures res.1.Err? ==> res.0 == s
    ensures res.1.Ok? ==>
      var (k, row) := res.1.data;
      && res.1.status == 200
      && ParseId(productId) == Some(k) && k in s.proizvodi && s.proizvodi[k].idDobavljac == userId
      && BuildPatch(body).Success? && row == ApplyPatch(s.proizvodi[k], BuildPatch(body).value)
      && Storable(s, k, row)
      && res.0 == s.(proizvodi := s.proizvodi[k := row])
    ensures ParseId(productId).Some? && AssertOwnership(s, userId, ParseId(productId).value).Ok? && BuildPatch(body).Success? ==>
      var k := ParseId(productId).value;
      var row := ApplyPatch(s.proizvodi[k], BuildPatch(body).value);
      && (res.1.Ok? <==> Storable(s, k, row))
      && (!Storable(s, k, row) ==> res == (s, Err(500, DbError)))
  {
    match ParseId(productId)
    case None => (s, Err(400, BadField(IdParam)))
    case Some(k) =>
      match AssertOwnership(s, userId, k)
      case Err(st, e) => (s, Err(st, e))
      case Ok(_, _) =>
        match BuildPatch(body)
        case Failure(e) => (s, Err(400, e))
        case Success(p) =>
          var row := ApplyPatch(s.proizvodi[k], p);
          if Storable(s, k, row) then (s.(proizvodi := s.proizvodi[k := row]), Ok(200, (k, row)))
          else (s, Err(500, DbError))
  }

  /**
   * `deleteProizvod(userId, productId)`: the same id and ownership gates; 409
   * while a container item refers to the product, the row kept; otherwise
   * exactly that row goes.
   */
  function DeleteProizvod(s: Store, userId: int, productId: JsNumber): (res: (Store, Reply<(nat, Proizvod)>))
    ensures ParseId(productId).None? ==> res == (s, Err(400, BadField(IdParam)))
    ensures ParseId(productId).Some? && AssertOwnership(s, userId, ParseId(productId).value).Err? ==>
      var e := AssertOwnership(s, userId, ParseId(productId).value);
      res == (s, Err(e.status, e.error))
    ensures res.1.Err? ==> res.0 == s
    ensures (ParseId(productId).Some? && AssertOwnership(s, userId, ParseId(productId).value).Ok?
             && ParseId(productId).value in s.uKontejneru) ==> res == (s, Err(409, Conflict))
    ensures res.1.Ok? ==>
      var k := res.1.data.0;
      && res.1.status == 200
      && ParseId(productId) == Some(k) && k in s.proizvodi && s.proizvodi[k].idDobavljac == userId
      && k !in s.uKontejneru && res.1.data.1 == s.proizvodi[k]
      && res.0 == s.(proizvodi := s.proizvodi - {k})
    ensures (ParseId(productId).Some? && AssertOwnership(s, userId, ParseId(productId).value).Ok?
             && ParseId(productId).value !in s.uKontejneru) ==> res.1.Ok?
  {
    match ParseId(productId)
    case None => (s, Err(400, BadField(IdParam)))
    case Some(k) =>
      match AssertOwnership(s, userId, k)
      case Err(st, e) => (s, Err(st, e))
      case Ok(_, _) =>
        if k in s.uKontejneru then (s, Err(409, Conflict))
        else (s.(proizvodi := s.proizvodi - {k}), Ok(200, (k, s.proizvodi[k])))
  }

  // ---- properties ----

  /** A body that spells out a product: its strings, numbers and ids as JSON values */
  function BodyOf(p: Proizvod): ProizvodBody {
    ProizvodBody(
      Str(p.sifra, NaN), Str(p.naziv, NaN), Str(p.slika, NaN),
      Num(Finite(p.sirina)), Num(Finite(p.visina)), Num(Finite(p.duzina)), Num(Finite(p.cena)),
      Num(IdNumber(p.idKategorija)), Num(IdNumber(p.idDobavljac)))
  }

  /** Validation gives back every product whose strings are trimmed and filled and whose ids are positive. */
  lemma {:induction false} ValidateBodyOf(p: Proizvod)
    requires Trim(p.sifra) == p.sifra != "" && Trim(p.naziv) == p.naziv != "" && Trim(p.slika) == p.slika != ""
    requires p.idKategorija > 0 && p.idDobavljac > 0
    ensures ValidateCreateInput(BodyOf(p)) == Success(p)
  {
    var body := BodyOf(p);
    assert ParseId(IdNumber(p.idKategorija)) == Some(p.idKategorija);
    assert ParseId(IdNumber(p.idDobavljac)) == Some(p.idDobavljac);
    assert IsPosInt(IdNumber(p.idKategorija)) && IsPosInt(IdNumber(p.idDobavljac));
    assert forall i :: 0 <= i < |CreateOrder| ==> Accepts(body, CreateOrder[i], false);
  }

  /** Every product validation accepts is already in that form, so validating its body again gives it back. */
  lemma {:induction false} ValidateIdempotent(body: ProizvodBody)
    ensures ValidateCreateInput(body).Success? ==>
      ValidateCreateInput(BodyOf(ValidateCreateInput(body).value)) == ValidateCreateInput(body)
  {
    if ValidateCreateInput(body).Success? {
      var p := ValidateCreateInput(body).value;
      TrimIdempotent(body.sifra.s);
      TrimIdempotent(body.naziv.s);
      TrimIdempotent(body.slika.s);
      ValidateBodyOf(p);
    }
  }

  /** An update changes exactly the columns the body defines, and never the supplier. */
  lemma {:induction false} UpdateChangesOnlySupplied(s: Store, userId: int, productId: JsNumber, body: ProizvodBody)
    ensures var res := UpdateProizvod(s, userId, productId, body);
      res.1.Ok? ==>
        var (k, row) := res.1.data;
        var old_ := s.proizvodi[k];
        && row.idDobavljac == old_.idDobavljac
        && (body.sifra == Undefined ==> row.sifra == old_.sifra)
        && (body.sifra != Undefined ==> row.sifra == Trim(body.sifra.s))
        && (body.naziv == Undefined ==> row.naziv == old_.naziv)
        && (body.naziv != Undefined ==> row.naziv == Trim(body.naziv.s))
        && (body.slika == Undefined ==> row.slika == old_.slika)
        && (body.slika != Undefined ==> row.slika == Trim(body.slika.s))
        && (body.sirina == Undefined ==> row.sirina == old_.sirina)
        && (body.sirina != Undefined ==> ToNumber(body.sirina) == Finite(row.sirina))
        && (body.visina == Undefined ==> row.visina == old_.visina)
        && (body.visina != Undefined ==> ToNumber(body.visina) == Finite(row.visina))
        && (body.duzina == Undefined ==> row.duzina == old_.duzina)
        && (body.duzina != Undefined ==> ToNumber(body.duzina) == Finite(row.duzina))
        && (body.cena == Undefined ==> row.cena == old_.cena)
        && (body.cena != Undefined ==> ToNumber(body.cena) == Finite(row.cena))
        && (body.idKategorija == Undefined ==> row.idKategorija == old_.idKategorija)
        && (body.idKategorija != Undefined ==> ToNumber(body.idKategorija) == IdNumber(row.idKategorija))
        && body.idDobavljac == Undefined
  {
    var res := UpdateProizvod(s, userId, productId, body);
    if res.1.Ok? {
      var p := BuildPatch(body).value;
      assert Reflects(body, p);
      assert Accepts(body, PatchOrder[0], true);
    }
  }

  /** An update by `userId` leaves another supplier's product as it was. */
  lemma {:induction false} UpdateLeavesForeign(s: Store, userId: int, productId: JsNumber, body: ProizvodBody, k: nat)
    requires k in s.proizvodi && s.proizvodi[k].idDobavljac != userId
    ensures var t := UpdateProizvod(s, userId, productId, body).0; k in t.proizvodi && t.proizvodi[k] == s.proizvodi[k]
  {
    var u := UpdateProizvod(s, userId, productId, body);
    if u.1.Ok? {
      assert u.1.data.0 != k;
    }
  }

  /** A delete by `userId` leaves another supplier's product as it was. */
  lemma {:induction false} DeleteLeavesForeign(s: Store, userId: int, productId: JsNumber, k: nat)
    requires k in s.proizvodi && s.proizvodi[k].idDobavljac != userId
    ensures var t := DeleteProizvod(s, userId, productId).0; k in t.proizvodi && t.proizvodi[k] == s.proizvodi[k]
  {
    var d := DeleteProizvod(s, userId, productId);
    if d.1.Ok? {
      assert d.1.data.0 != k;
    }
  }

  /** Another supplier's product is never touched: neither an update nor a delete by `userId` changes it. */
  lemma {:induction false} ForeignProductUntouched(s: Store, userId: int, productId: JsNumber, body: ProizvodBody, k: nat)
    requires k in s.proizvodi && s.proizvodi[k].idDobavljac != userId
    ensures var t := UpdateProizvod(s, userId, productId, body).0; k in t.proizvodi && t.proizvodi[k] == s.proizvodi[k]
    ensures var t := DeleteProizvod(s, userId, productId).0; k in t.proizvodi && t.proizvodi[k] == s.proizvodi[k]
  {
    UpdateLeavesForeign(s, userId, productId, body, k);
    DeleteLeavesForeign(s, userId, productId, k);
  }

  /** Writing a storable row under key `k` (a new key below the next serial value, or an existing one) keeps every schema constraint. */
  lemma {:induction false} StorableWriteValid(s: Store, k: nat, p: Proizvod, next: nat)
    requires Valid(s) && Storable(s, k, p)
    requires 1 <= k < next && s.serials.proizvod <= next
    ensures Valid(s.(proizvodi := s.proizvodi[k := p], serials := s.serials.(proizvod := next)))
  {
    var t := s.(proizvodi := s.proizvodi[k := p], serials := s.serials.(proizvod := next));
    assert UniqueSifra(t.proizvodi) by {
      forall a, b | a in t.proizvodi && b in t.proizvodi && a != b
        ensures t.proizvodi[a].sifra != t.proizvodi[b].sifra
      {
        if a != k && b != k {
          assert t.proizvodi[a] == s.proizvodi[a] && t.proizvodi[b] == s.proizvodi[b];
        }
      }
    }
    assert forall j :: j in t.proizvodi ==> ProizvodAdmissible(t, t.proizvodi[j]) by {
      forall j | j in t.proizvodi ensures ProizvodAdmissible(t, t.proizvodi[j]) {
        if j != k {
          assert ProizvodAdmissible(s, s.proizvodi[j]);
        }
      }
    }
    ProizvodiWriteValid(s, t);
  }

  /** Creating a product keeps every schema constraint. */
  lemma {:induction false} CreateProizvodKeepsValid(s: Store, body: ProizvodBody)
    requires Valid(s)
    ensures Valid(CreateProizvod(s, body).0)
  {
    var res := CreateProizvod(s, body);
    if res.1.Ok? {
      var (k, p) := res.1.data;
      StorableWriteValid(s, k, p, k + 1);
    }
  }

  /** Updating a product keeps every schema constraint. */
  lemma {:induction false} UpdateProizvodKeepsValid(s: Store, userId: int, productId: JsNumber, body: ProizvodBody)
    requires Valid(s)
    ensures Valid(UpdateProizvod(s, userId, productId, body).0)
  {
    var res := UpdateProizvod(s, userId, productId, body);
    if res.1.Ok? {
      var (k, p) := res.1.data;
      StorableWriteValid(s, k, p, s.serials.proizvod);
      assert s.serials.(proizvod := s.serials.proizvod) == s.serials;
    }
  }

  /** Deleting a product keeps every schema constraint: no container item is left pointing at it. */
  lemma {:induction false} DeleteProizvodKeepsValid(s: Store, userId: int, productId: JsNumber)
    requires Valid(s)
    ensures Valid(DeleteProizvod(s, userId, productId).0)
  {
    var res := DeleteProizvod(s, userId, productId);
    if res.1.Ok? {
      var t := res.0;
      assert ProizvodiValid(t) by {
        forall j | j in t.proizvodi ensures ProizvodAdmissible(t, t.proizvodi[j]) {
          assert ProizvodAdmissible(s, s.proizvodi[j]);
        }
      }
      ProizvodiWriteValid(s, t);
    }
  }
}
