/**
 * The importer's read side: the suppliers it collaborates with, their
 * products, and one supplier's products guarded by an active collaboration.
 * "Active" here means `status = true`; none of these queries reads `pending`.
 * The importer id comes from the session and is any number the caller holds.
 */
module UvoznikController {
  import opened Common
  import opened Schema

  /** The collaboration `k` belongs to importer `u` and has `status = true`. */
  predicate Sees(s: Store, u: int, k: nat) {
    k in s.saradnje && s.saradnje[k].idUvoznik == u && s.saradnje[k].status
  }

  /** One row of "my suppliers": the supplier's user fields next to the collaboration's. */
  datatype DobavljacRow = DobavljacRow(
    idDobavljac: nat, imePrezime: string, email: string,
    saradnjaId: nat, datumPocetka: int, statusSaradnje: bool)

  /**
   * `getMojiDobavljaci(u)`: the inner join of the importer's status-true
   * collaborations with the supplier's user row, keyed by collaboration id.
   */
  function GetMojiDobavljaci(s: Store, u: int): (res: Reply<map<nat, DobavljacRow>>)
    ensures res.Ok? && res.status == 200
    ensures forall k :: k in res.data <==> Sees(s, u, k) && s.saradnje[k].idDobavljac in s.korisnici
    ensures forall k :: k in res.data ==>
      && Sees(s, u, k) && s.saradnje[k].idDobavljac in s.korisnici
      && res.data[k].saradnjaId == k && res.data[k].statusSaradnje
      && res.data[k].idDobavljac == s.saradnje[k].idDobavljac
      && res.data[k].datumPocetka == s.saradnje[k].datumPocetka
      && res.data[k].email == s.korisnici[res.data[k].idDobavljac].email
      && res.data[k].imePrezime == s.korisnici[res.data[k].idDobavljac].imePrezime
  {
    Ok(200, map k | k in s.saradnje && Sees(s, u, k) && s.saradnje[k].idDobavljac in s.korisnici ::
      var r := s.saradnje[k];
      var d := s.korisnici[r.idDobavljac];
      DobavljacRow(r.idDobavljac, d.imePrezime, d.email, k, r.datumPocetka, r.status))
  }

  /** One row of "products of my suppliers": the product view and the supplier's name. */
  datatype PonudaRow = PonudaRow(view: ProizvodView, dobavljacIme: string)

  /** The join condition of `getProizvodiMojihDobavljaca` for collaboration `k` and product `p` */
  predicate Offers(s: Store, u: int, k: nat, p: nat) {
    && Sees(s, u, k) && s.saradnje[k].idDobavljac in s.korisnici
    && p in s.proizvodi && s.proizvodi[p].idDobavljac == s.saradnje[k].idDobavljac
  }

  /**
   * `getProizvodiMojihDobavljaca(u)`: collaboration ⋈ supplier ⋈ product,
   * left-joined with the category, one row per (collaboration, product).
   */
  function GetProizvodiMojihDobavljaca(s: Store, u: int): (res: Reply<map<(nat, nat), PonudaRow>>)
    ensures res.Ok? && res.status == 200
    ensures forall k: nat, p: nat :: (k, p) in res.data <==> Offers(s, u, k, p)
    ensures forall k: nat, p: nat :: (k, p) in res.data ==>
      && Offers(s, u, k, p)
      && res.data[(k, p)].view == ViewOf(s, s.proizvodi[p])
      && res.data[(k, p)].dobavljacIme == s.korisnici[s.proizvodi[p].idDobavljac].imePrezime
  {
    Ok(200, map kp | kp in OfferKeys(s, u) :: OfferRow(s, kp.1))
  }

  /** The (collaboration, product) pairs that meet the join condition */
  function OfferKeys(s: Store, u: int): (keys: set<(nat, nat)>)
    ensures forall k: nat, p: nat :: (k, p) in keys <==> Offers(s, u, k, p)
  {
    set k, p | k in s.saradnje && p in s.proizvodi && Offers(s, u, k, p) :: (k, p)
  }

  /** The joined row of product `p`: its category name and its supplier's name */
  function OfferRow(s: Store, p: nat): PonudaRow
    requires p in s.proizvodi && s.proizvodi[p].idDobavljac in s.korisnici
  {
    PonudaRow(ViewOf(s, s.proizvodi[p]), s.korisnici[s.proizvodi[p].idDobavljac].imePrezime)
  }

  /** The products the join returns, forgetting which collaboration matched them */
  function OfferedProducts(s: Store, u: int): (ps: set<nat>)
    ensures forall p :: p in ps <==> exists k :: (k, p) in GetProizvodiMojihDobavljaca(s, u).data
  {
    var rows := GetProizvodiMojihDobavljaca(s, u).data;
    set kp | kp in rows :: kp.1
  }

  /**
   * `getProizvodiDobavljacaAkoSaradjujemo(u, d)`: 400 for a supplier id that is
   * not a positive integer, before any lookup; 403 without a status-true
   * collaboration between the two; otherwise every product of that supplier.
   */
  function GetProizvodiDobavljacaAkoSaradjujemo(s: Store, u: int, dobavljacId: JsNumber): (res: Reply<map<nat, ProizvodView>>)
    ensures ParseId(dobavljacId).None? ==> res == Err(400, BadField(IdDobavljac))
    ensures ParseId(dobavljacId).Some? ==>
      var d := ParseId(dobavljacId).value;
      && ((forall k :: Sees(s, u, k) ==> s.saradnje[k].idDobavljac != d) <==> res == Err(403, Forbidden))
      && (res.Ok? ==> res.status == 200
                      && (forall p :: p in res.data <==> p in s.proizvodi && s.proizvodi[p].idDobavljac == d)
                      && (forall p :: p in res.data ==> res.data[p] == ViewOf(s, s.proizvodi[p])))
  {
    match ParseId(dobavljacId)
    case None => Err(400, BadField(IdDobavljac))
    case Some(d) =>
      if !exists k :: k in s.saradnje && Sees(s, u, k) && s.saradnje[k].idDobavljac == d then Err(403, Forbidden)
      else Ok(200, map p | p in s.proizvodi && s.proizvodi[p].idDobavljac == d :: ViewOf(s, s.proizvodi[p]))
  }

  // ---- properties of the three queries ----

  /** The store with the `pending` flag of row `k` set to `b` */
  function WithPending(s: Store, k: nat, b: bool): Store
    requires k in s.saradnje
  {
    s.(saradnje := s.saradnje[k := s.saradnje[k].(pending := b)])
  }

  /** Rewriting the `pending` flag of any row does not change "my suppliers". */
  lemma {:induction false} SuppliersIgnorePending(s: Store, u: int, k: nat, b: bool)
    requires k in s.saradnje
    ensures GetMojiDobavljaci(WithPending(s, k, b), u) == GetMojiDobavljaci(s, u)
  {
    var t := WithPending(s, k, b);
    var rt := GetMojiDobavljaci(t, u).data;
    var rs := GetMojiDobavljaci(s, u).data;
    assert forall j :: Sees(t, u, j) <==> Sees(s, u, j);
    assert rt.Keys == rs.Keys;
    forall j | j in rt ensures rt[j] == rs[j] {
      assert t.saradnje[j].idDobavljac == s.saradnje[j].idDobavljac;
    }
    assert rt == rs;
  }

  /** Rewriting the `pending` flag of any row does not change the products of my suppliers. */
  lemma {:induction false} OffersIgnorePending(s: Store, u: int, k: nat, b: bool)
    requires k in s.saradnje
    ensures GetProizvodiMojihDobavljaca(WithPending(s, k, b), u) == GetProizvodiMojihDobavljaca(s, u)
  {
    var t := WithPending(s, k, b);
    OffersSameKeys(s, t, u);
    var keys := OfferKeys(s, u);
    forall kp | kp in keys ensures OfferRow(t, kp.1) == OfferRow(s, kp.1) {
      assert Offers(s, u, kp.0, kp.1);
    }
    assert (map kp | kp in keys :: OfferRow(t, kp.1)) == (map kp | kp in keys :: OfferRow(s, kp.1));
  }

  /** Two stores that agree on everything the join reads except `pending` give the join the same keys. */
  lemma OffersSameKeys(s: Store, t: Store, u: int)
    requires t.korisnici == s.korisnici && t.proizvodi == s.proizvodi && t.saradnje.Keys == s.saradnje.Keys
    requires forall j :: j in s.saradnje ==>
      SamePair(t.saradnje[j], s.saradnje[j].idUvoznik, s.saradnje[j].idDobavljac) && t.saradnje[j].status == s.saradnje[j].status
    ensures OfferKeys(t, u) == OfferKeys(s, u)
    ensures GetProizvodiMojihDobavljaca(t, u).data.Keys == GetProizvodiMojihDobavljaca(s, u).data.Keys
  {
    var kt, ks := OfferKeys(t, u), OfferKeys(s, u);
    forall kp | kp in kt ensures kp in ks {
      assert Offers(t, u, kp.0, kp.1);
    }
    forall kp | kp in ks ensures kp in kt {
      assert Offers(s, u, kp.0, kp.1);
    }
    assert kt == ks;
  }

  /** Rewriting the `pending` flag of any row does not change the guarded lookup. */
  lemma {:induction false} GuardIgnoresPending(s: Store, u: int, k: nat, b: bool, d: JsNumber)
    requires k in s.saradnje
    ensures GetProizvodiDobavljacaAkoSaradjujemo(WithPending(s, k, b), u, d) == GetProizvodiDobavljacaAkoSaradjujemo(s, u, d)
  {
    var t := WithPending(s, k, b);
    if ParseId(d).Some? {
      var id := ParseId(d).value;
      assert forall j :: Sees(t, u, j) <==> Sees(s, u, j);
      var mt := map p | p in t.proizvodi && t.proizvodi[p].idDobavljac == id :: ViewOf(t, t.proizvodi[p]);
      var ms := map p | p in s.proizvodi && s.proizvodi[p].idDobavljac == id :: ViewOf(s, s.proizvodi[p]);
      assert mt == ms;
    }
  }

  /** With one row per pair, no supplier is listed twice among "my suppliers". */
  lemma {:induction false} SuppliersDistinct(s: Store, u: int)
    requires PairUnique(s.saradnje)
    ensures var rows := GetMojiDobavljaci(s, u).data;
      forall a, b :: a in rows && b in rows && a != b ==> rows[a].idDobavljac != rows[b].idDobavljac
  {
    var rows := GetMojiDobavljaci(s, u).data;
    forall a, b | a in rows && b in rows && a != b
      ensures rows[a].idDobavljac != rows[b].idDobavljac
    {
      assert !SamePair(s.saradnje[b], s.saradnje[a].idUvoznik, s.saradnje[a].idDobavljac);
    }
  }

  /** With one row per pair, each product is matched by one collaboration only: no product appears twice. */
  lemma {:induction false} OfferedOnce(s: Store, u: int)
    requires PairUnique(s.saradnje)
    ensures var rows := GetProizvodiMojihDobavljaca(s, u).data;
      forall k1: nat, k2: nat, p: nat :: (k1, p) in rows && (k2, p) in rows ==> k1 == k2
  {
    var rows := GetProizvodiMojihDobavljaca(s, u).data;
    forall k1: nat, k2: nat, p: nat | (k1, p) in rows && (k2, p) in rows
      ensures k1 == k2
    {
      assert Offers(s, u, k1, p) && Offers(s, u, k2, p);
      if k1 != k2 {
        assert SamePair(s.saradnje[k2], s.saradnje[k1].idUvoznik, s.saradnje[k1].idDobavljac);
        assert false;
      }
    }
  }

  /**
   * The two list queries agree: a product is offered exactly when its supplier
   * is among "my suppliers".
   */
  lemma {:induction false} OfferedMatchesSuppliers(s: Store, u: int, p: nat)
    ensures p in OfferedProducts(s, u) <==>
      p in s.proizvodi &&
      exists k :: k in GetMojiDobavljaci(s, u).data && GetMojiDobavljaci(s, u).data[k].idDobavljac == s.proizvodi[p].idDobavljac
  {
    var rows := GetMojiDobavljaci(s, u).data;
    if p in OfferedProducts(s, u) {
      var k :| (k, p) in GetProizvodiMojihDobavljaca(s, u).data;
      assert k in rows;
    }
    if p in s.proizvodi && exists k :: k in rows && rows[k].idDobavljac == s.proizvodi[p].idDobavljac {
      var k :| k in rows && rows[k].idDobavljac == s.proizvodi[p].idDobavljac;
      assert Offers(s, u, k, p);
      assert (k, p) in GetProizvodiMojihDobavljaca(s, u).data;
    }
  }

  /**
   * The guarded per-supplier lookup agrees with the join: in a valid store, a
   * product of supplier `d` is offered to `u` exactly when the lookup of `d`
   * succeeds, and a successful lookup returns exactly `d`'s offered products.
   */
  lemma {:induction false} GuardedAgreesWithJoin(s: Store, u: int, d: nat)
    requires Valid(s) && d > 0
    ensures var res := GetProizvodiDobavljacaAkoSaradjujemo(s, u, IdNumber(d));
      && (forall p :: p in s.proizvodi && s.proizvodi[p].idDobavljac == d ==> (p in OfferedProducts(s, u) <==> res.Ok?))
      && (res.Ok? ==> forall p :: p in res.data <==> p in OfferedProducts(s, u) && s.proizvodi[p].idDobavljac == d)
  {
    var res := GetProizvodiDobavljacaAkoSaradjujemo(s, u, IdNumber(d));
    assert ParseId(IdNumber(d)) == Some(d);
    forall p | p in s.proizvodi && s.proizvodi[p].idDobavljac == d
      ensures p in OfferedProducts(s, u) <==> res.Ok?
    {
      OfferedMatchesSuppliers(s, u, p);
      if res.Ok? {
        var k :| k in s.saradnje && Sees(s, u, k) && s.saradnje[k].idDobavljac == d;
        assert SaradnjaAdmissible(s, s.saradnje[k]);
        assert k in GetMojiDobavljaci(s, u).data;
      }
    }
    if res.Ok? {
      forall p ensures p in res.data <==> p in OfferedProducts(s, u) && s.proizvodi[p].idDobavljac == d {
        if p in OfferedProducts(s, u) {
          OfferedMatchesSuppliers(s, u, p);
        }
      }
    }
  }
}
