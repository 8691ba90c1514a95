/**
 * The `/api/proizvodi/[id]` route handlers. As written they call the
 * controller with the arguments shifted by one place: the path id lands in
 * `userId`, the JSON body (PATCH) or nothing (DELETE) lands in `productId`.
 * Both functions below that end in `AsWritten` model that; `PatchRoute` and
 * `DeleteRoute` pass the session user's id, the path id and the body where
 * the controller expects them.
 */
module ProizvodRoutes {
  import opened Common
  import opened Text
  import opened Schema
  import opened ProizvodController

  /** The body the controller sees when it is called without one: every field undefined */
  const NoBody: ProizvodBody := ProizvodBody(Undefined, Undefined, Undefined, Undefined, Undefined, Undefined, Undefined, Undefined, Undefined)

  /**
   * The path id, a string, in the place of the numeric `userId`: it is
   * strictly equal to no supplier id, and -1, which no key equals, stands for it.
   */
  const PathIdAsUser: int := -1

  /**
   * `PATCH` as written: `updateProizvod(params.id, body)`. The request's JSON
   * value is coerced as the product id and the controller sees no body.
   */
  function PatchRouteAsWritten(s: Store, idParam: string, request: JsValue): (res: (Store, Reply<(nat, Proizvod)>))
    ensures res.0 == s
  {
    UpdateProizvod(s, PathIdAsUser, ToNumber(request), NoBody)
  }

  /**
   * As written, no PATCH succeeds: a JSON value that is not a positive integer
   * is a bad id (400), a missing product is 404, and any existing product
   * belongs to someone else (403).
   */
  lemma PatchRouteAlwaysRejects(s: Store, idParam: string, request: JsValue)
    ensures var res := PatchRouteAsWritten(s, idParam, request).1;
      && res.Err?
      && (ParseId(ToNumber(request)).None? ==> res == Err(400, BadField(IdParam)))
      && (ParseId(ToNumber(request)).Some? && ParseId(ToNumber(request)).value !in s.proizvodi ==> res == Err(404, NotFound))
      && (ParseId(ToNumber(request)).Some? && ParseId(ToNumber(request)).value in s.proizvodi ==> res == Err(403, Forbidden))
  {
  }

  /** `DELETE` as written: `deleteProizvod(params.id)`; the product id is undefined, so NaN. */
  function DeleteRouteAsWritten(s: Store, idParam: string): (res: (Store, Reply<(nat, Proizvod)>))
    ensures res.0 == s
  {
    DeleteProizvod(s, PathIdAsUser, ToNumber(Undefined))
  }

  /** As written, every DELETE is refused with 400 for a bad id, whatever the path id. */
  lemma DeleteRouteAlwaysRejects(s: Store, idParam: string)
    ensures DeleteRouteAsWritten(s, idParam).1 == Err(400, BadField(IdParam))
  {
  }

  /** `PATCH` with the arguments in place: the session user, the path id, the body. */
  function PatchRoute(s: Store, userId: int, idParam: JsNumber, body: ProizvodBody): (res: (Store, Reply<(nat, Proizvod)>))
    ensures res.1.Ok? <==>
      && ParseId(idParam).Some? && ParseId(idParam).value in s.proizvodi
      && s.proizvodi[ParseId(idParam).value].idDobavljac == userId
      && BuildPatch(body).Success?
      && Storable(s, ParseId(idParam).value, ApplyPatch(s.proizvodi[ParseId(idParam).value], BuildPatch(body).value))
  {
    UpdateProizvod(s, userId, idParam, body)
  }

  /** `DELETE` with the arguments in place: the session user and the path id. */
  function DeleteRoute(s: Store, userId: int, idParam: JsNumber): (res: (Store, Reply<(nat, Proizvod)>))
    ensures res.1.Ok? <==>
      && ParseId(idParam).Some? && ParseId(idParam).value in s.proizvodi
      && s.proizvodi[ParseId(idParam).value].idDobavljac == userId
      && ParseId(idParam).value !in s.uKontejneru
  {
    DeleteProizvod(s, userId, idParam)
  }

  /** The body `{naziv: name}` with a trimmed, filled name builds a patch that sets the name and nothing else. */
  lemma {:induction false} RenamePatch(name: string, row: Proizvod)
    requires Trim(name) == name && name != ""
    ensures var body := NoBody.(naziv := Str(name, NaN));
      BuildPatch(body).Success? && ApplyPatch(row, BuildPatch(body).value) == row.(naziv := name)
  {
    var body := NoBody.(naziv := Str(name, NaN));
    assert forall j :: 0 <= j < |PatchOrder| ==> Accepts(body, PatchOrder[j], true);
    assert Reflects(body, BuildPatch(body).value);
  }

  /** With the arguments in place, the owner can rename a product: a PATCH of a trimmed, filled name succeeds. */
  lemma {:induction false} OwnerCanRename(s: Store, k: nat, name: string)
    requires Valid(s) && k in s.proizvodi && k > 0
    requires Trim(name) == name && name != "" && |name| <= 255
    ensures var body := NoBody.(naziv := Str(name, NaN));
      PatchRoute(s, s.proizvodi[k].idDobavljac, IdNumber(k), body).1.Ok?
  {
    var row := s.proizvodi[k];
    assert ParseId(IdNumber(k)) == Some(k);
    RenamePatch(name, row);
    assert ProizvodAdmissible(s, row);
    assert Storable(s, k, row.(naziv := name)) by {
      forall j | j in s.proizvodi && j != k ensures s.proizvodi[j].sifra != row.sifra {
        assert UniqueSifra(s.proizvodi);
      }
    }
  }
}
