/**
 * The supplier's own product listing, optionally narrowed to one category.
 * A category filter that is not a positive integer is ignored, not refused.
 */
module DobavljacController {
  import opened Common
  import opened Schema
  import opened ProizvodController

  /** `filter.kategorijaId && isPosInt(filter.kategorijaId)`: whether the category filter takes effect */
  predicate FilterApplies(kategorijaId: Option<JsNumber>) {
    kategorijaId.Some? && NumTruthy(kategorijaId.value) && IsPosInt(kategorijaId.value)
  }

  /** The truthiness test adds nothing: the filter applies exactly for a positive integer id. */
  lemma FilterAppliesIffPositiveId(kategorijaId: Option<JsNumber>)
    ensures FilterApplies(kategorijaId) <==> exists k: nat :: k > 0 && kategorijaId == Some(IdNumber(k))
  {
    if kategorijaId.Some? {
      var r := ParseId(kategorijaId.value);
      if r.Some? {
        assert kategorijaId == Some(IdNumber(r.value));
      }
    }
  }

  /**
   * `getMojiProizvodiDobavljaca(idDobavljac, {kategorijaId})`: the caller's
   * products, in the given category when the filter applies, each with its
   * category name from the left join.
   */
  function GetMojiProizvodiDobavljaca(s: Store, idDobavljac: int, kategorijaId: Option<JsNumber>): (res: Reply<map<nat, ProizvodView>>)
    ensures res.Ok? && res.status == 200
    ensures forall p :: p in res.data ==>
      && p in s.proizvodi && s.proizvodi[p].idDobavljac == idDobavljac
      && res.data[p] == ViewOf(s, s.proizvodi[p])
    ensures FilterApplies(kategorijaId) ==>
      forall p :: p in res.data <==>
        p in s.proizvodi && s.proizvodi[p].idDobavljac == idDobavljac
        && IdNumber(s.proizvodi[p].idKategorija) == kategorijaId.value
    ensures !FilterApplies(kategorijaId) ==>
      forall p :: p in res.data <==> p in s.proizvodi && s.proizvodi[p].idDobavljac == idDobavljac
  {
    if FilterApplies(kategorijaId) then
      var c := ParseId(kategorijaId.value).value;
      assert forall p :: p in s.proizvodi ==>
        (s.proizvodi[p].idKategorija == c <==> IdNumber(s.proizvodi[p].idKategorija) == kategorijaId.value);
      Ok(200, map p | p in s.proizvodi && s.proizvodi[p].idDobavljac == idDobavljac && s.proizvodi[p].idKategorija == c ::
        ViewOf(s, s.proizvodi[p]))
    else
      Ok(200, map p | p in s.proizvodi && s.proizvodi[p].idDobavljac == idDobavljac :: ViewOf(s, s.proizvodi[p]))
  }

  /** The filtered listing is the unfiltered one narrowed to the category, and so never larger. */
  lemma {:induction false} FilterNarrows(s: Store, idDobavljac: int, kategorijaId: Option<JsNumber>)
    ensures GetMojiProizvodiDobavljaca(s, idDobavljac, kategorijaId).data.Keys <= GetMojiProizvodiDobavljaca(s, idDobavljac, None).data.Keys
    ensures FilterApplies(kategorijaId) ==>
      forall p :: p in GetMojiProizvodiDobavljaca(s, idDobavljac, kategorijaId).data <==>
        p in GetMojiProizvodiDobavljaca(s, idDobavljac, None).data
        && IdNumber(s.proizvodi[p].idKategorija) == kategorijaId.value
  {
    var all := GetMojiProizvodiDobavljaca(s, idDobavljac, None).data;
    var some := GetMojiProizvodiDobavljaca(s, idDobavljac, kategorijaId).data;
    assert !FilterApplies(None);
    assert forall p :: p in some ==> p in all;
  }

  /**
   * The catalogue filtered by a supplier holds the same products as that
   * supplier's own listing, each with the same row and category name.
   */
  lemma {:induction false} CatalogAgreesWithOwnListing(s: Store, d: nat)
    requires d > 0
    ensures var cat, own := GetAllProizvodi(s, Some(IdNumber(d))).data, GetMojiProizvodiDobavljaca(s, d, None).data;
      && cat.Keys == own.Keys
      && forall p :: p in cat ==> cat[p].view == own[p]
  {
    var cat, own := GetAllProizvodi(s, Some(IdNumber(d))).data, GetMojiProizvodiDobavljaca(s, d, None).data;
    assert NumTruthy(IdNumber(d));
    assert !FilterApplies(None);
    forall p | p in s.proizvodi
      ensures IdNumber(s.proizvodi[p].idDobavljac) == IdNumber(d) <==> s.proizvodi[p].idDobavljac == d
    {
      if IdNumber(s.proizvodi[p].idDobavljac) == IdNumber(d) {
        assert (s.proizvodi[p].idDobavljac as real).Floor == (d as real).Floor;
      }
    }
  }
}
