/**
 * The collaboration (saradnja) controller. A collaboration's two flags
 * `(pending, status)` encode its state: requested `(true, false)`, active
 * `(false, true)` and terminated `(false, false)`. `CreateSaradnja` is the
 * transition function; `UpdateSaradnja` writes the flags without checking
 * any transition; `DeleteSaradnja` is blocked by a referencing invoice.
 */
module SaradnjaController {
  import opened Common
  import opened Schema

  /** The logical state of a collaboration, read the way `createSaradnja` reads it: `pending` first. */
  datatype State = Requested | Active | Terminated

  function StateOf(r: Saradnja): State {
    if r.pending then Requested else if r.status then Active else Terminated
  }

  /** The flag pairs that encode a state; `(true, true)` encodes none. */
  predicate LegalFlags(r: Saradnja) {
    !(r.pending && r.status)
  }

  /** What a collaboration request does, as a transition table over the pair's state. */
  datatype RequestOutcome = Created | Reopened | Rejected(code: ErrorCode)

  function RequestStep(st: Option<State>): (Option<State>, RequestOutcome) {
    match st
    case None => (Some(Requested), Created)
    case Some(Requested) => (Some(Requested), Rejected(RequestAlreadySent))
    case Some(Active) => (Some(Active), Rejected(AlreadyActive))
    case Some(Terminated) => (Some(Requested), Reopened)
  }

  /** The body of a collaboration request: `{ idUvoznik, idDobavljac }`. */
  datatype CreateBody = CreateBody(idUvoznik: JsValue, idDobavljac: JsValue)

  /** `validateCreateSaradnja`: both ids must be positive integers, `idUvoznik` is checked first. */
  function ValidateCreate(body: CreateBody): (r: Result<(nat, nat)>)
    ensures r.Success? <==> IsPosInt(ToNumber(body.idUvoznik)) && IsPosInt(ToNumber(body.idDobavljac))
    ensures r.Success? ==>
      && r.value.0 > 0 && ToNumber(body.idUvoznik) == IdNumber(r.value.0)
      && r.value.1 > 0 && ToNumber(body.idDobavljac) == IdNumber(r.value.1)
    ensures !IsPosInt(ToNumber(body.idUvoznik)) ==> r == Failure(BadField(IdUvoznik))
    ensures IsPosInt(ToNumber(body.idUvoznik)) && !IsPosInt(ToNumber(body.idDobavljac)) ==>
      r == Failure(BadField(IdDobavljac))
  {
    match (ParseId(ToNumber(body.idUvoznik)), ParseId(ToNumber(body.idDobavljac)))
    case (None, _) => Failure(BadField(IdUvoznik))
    case (Some(_), None) => Failure(BadField(IdDobavljac))
    case (Some(u), Some(d)) => Success((u, d))
  }

  /** Nothing but the collaboration table changes, and only at key `k`. */
  predicate OnlyRowChanged(s: Store, t: Store, k: nat) {
    && t.korisnici == s.korisnici && t.kategorije == s.kategorije && t.proizvodi == s.proizvodi
    && t.fakturisane == s.fakturisane && t.uKontejneru == s.uKontejneru
    && forall j :: j in s.saradnje && j != k ==> j in t.saradnje && t.saradnje[j] == s.saradnje[j]
  }

  /**
   * The part of `createSaradnja` after validation, for the importer `u` and the
   * supplier `d` at time `now`: with a row for the pair, reject a pending or an
   * active one with 409 and reopen a terminated one in place (200); without a
   * row, insert a requested one (201). An insert whose user ids do not exist
   * fails in the store (500).
   */
  function RequestPair(s: Store, u: nat, d: nat, now: int): (res: (Store, Reply<(nat, Saradnja)>))
    requires SaradnjeKeyed(s)
    ensures forall k :: k in s.saradnje && SamePair(s.saradnje[k], u, d) && s.saradnje[k].pending ==>
      res == (s, Err(409, RequestAlreadySent))
    ensures forall k :: k in s.saradnje && SamePair(s.saradnje[k], u, d) && !s.saradnje[k].pending && s.saradnje[k].status ==>
      res == (s, Err(409, AlreadyActive))
    ensures forall k :: k in s.saradnje && SamePair(s.saradnje[k], u, d) && !s.saradnje[k].pending && !s.saradnje[k].status ==>
      && res.0.saradnje.Keys == s.saradnje.Keys
      && res.1 == Ok(200, (k, res.0.saradnje[k]))
      && res.0.saradnje[k] == Saradnja(u, d, s.saradnje[k].datumPocetka, false, true)
      && OnlyRowChanged(s, res.0, k)
    ensures (forall k :: k in s.saradnje ==> !SamePair(s.saradnje[k], u, d)) && (u !in s.korisnici || d !in s.korisnici) ==>
      res == (s, Err(500, DbError))
    ensures (forall k :: k in s.saradnje ==> !SamePair(s.saradnje[k], u, d)) && u in s.korisnici && d in s.korisnici ==>
      && res.1.Ok? && res.1.status == 201
      && res.1.data.0 !in s.saradnje
      && res.0.saradnje.Keys == s.saradnje.Keys + {res.1.data.0}
      && res.0.saradnje[res.1.data.0] == Saradnja(u, d, now, false, true)
      && res.1.data.1 == res.0.saradnje[res.1.data.0]
      && OnlyRowChanged(s, res.0, res.1.data.0)
  {
    match PairRow(s.saradnje, u, d)
    case Some(k) => AnswerExisting(s, k)
    case None => InsertRequest(s, Saradnja(u, d, now, false, true))
  }

  /** A request that finds the row `k` for its pair: 409 unless the row is terminated, which is reopened. */
  function AnswerExisting(s: Store, k: nat): (res: (Store, Reply<(nat, Saradnja)>))
    requires k in s.saradnje
    ensures s.saradnje[k].pending ==> res == (s, Err(409, RequestAlreadySent))
    ensures !s.saradnje[k].pending && s.saradnje[k].status ==> res == (s, Err(409, AlreadyActive))
    ensures !s.saradnje[k].pending && !s.saradnje[k].status ==>
      && res.0.saradnje.Keys == s.saradnje.Keys
      && res.1 == Ok(200, (k, res.0.saradnje[k]))
      && res.0.saradnje[k] == s.saradnje[k].(pending := true, status := false)
      && OnlyRowChanged(s, res.0, k)
  {
    var existing := s.saradnje[k];
    if existing.pending then (s, Err(409, RequestAlreadySent))
    else if existing.status then (s, Err(409, AlreadyActive))
    else
      var updated := existing.(pending := true, status := false);
      (s.(saradnje := s.saradnje[k := updated]), Ok(200, (k, updated)))
  }

  /** A request for a pair without a row: insert it (201), or fail in the store when a user id is unknown (500). */
  function InsertRequest(s: Store, row: Saradnja): (res: (Store, Reply<(nat, Saradnja)>))
    requires Issued(s.saradnje, s.serials.saradnja)
    ensures !SaradnjaAdmissible(s, row) ==> res == (s, Err(500, DbError))
    ensures SaradnjaAdmissible(s, row) ==>
      && res.1.Ok? && res.1.status == 201
      && res.1.data.0 !in s.saradnje
      && res.0.saradnje.Keys == s.saradnje.Keys + {res.1.data.0}
      && res.0.saradnje[res.1.data.0] == row
      && res.1.data.1 == row
      && OnlyRowChanged(s, res.0, res.1.data.0)
  {
    if SaradnjaAdmissible(s, row) then
      var id := s.serials.saradnja;
      var t := s.(saradnje := s.saradnje[id := row],
                  serials := s.serials.(saradnja := id + 1));
      (t, Ok(201, (id, row)))
    else (s, Err(500, DbError))
  }

  /** `createSaradnja(body)` at time `now`: 400 for bad ids (the store is untouched), else the request on the pair. */
  function CreateSaradnja(s: Store, body: CreateBody, now: int): (res: (Store, Reply<(nat, Saradnja)>))
    requires SaradnjeKeyed(s)
    ensures SaradnjeKeyed(res.0)
    ensures res.1.status == 400 <==> ValidateCreate(body).Failure?
    ensures ValidateCreate(body).Failure? ==> res == (s, Err(400, ValidateCreate(body).error))
    ensures ValidateCreate(body).Success? ==>
      res == RequestPair(s, ValidateCreate(body).value.0, ValidateCreate(body).value.1, now)
  {
    match ValidateCreate(body)
    case Failure(e) => (s, Err(400, e))
    case Success((u, d)) =>
      RequestFollowsTable(s, u, d, now);
      RequestPair(s, u, d, now)
  }

  /** A PATCH body: `{ status?, pending? }` with arbitrary JSON values. */
  datatype PatchBody = PatchBody(status: JsValue, pending: JsValue)

  /** The boolean fields a PATCH supplies */
  datatype FlagPatch = FlagPatch(status: Option<bool>, pending: Option<bool>)

  /** Builds the patch: a defined field must be a boolean (`status` is checked first); an empty patch is refused. */
  function ParsePatch(body: PatchBody): (r: Result<FlagPatch>)
    ensures body.status != Undefined && !body.status.Bool? ==> r == Failure(BadField(Status))
    ensures (body.status == Undefined || body.status.Bool?) && body.pending != Undefined && !body.pending.Bool? ==>
      r == Failure(BadField(Pending))
    ensures body.status == Undefined && body.pending == Undefined ==> r == Failure(NoFields)
    ensures r.Success? ==>
      && (body.status.Bool? <==> r.value.status.Some?)
      && (body.status.Bool? ==> r.value.status.value == body.status.b)
      && (body.pending.Bool? <==> r.value.pending.Some?)
      && (body.pending.Bool? ==> r.value.pending.value == body.pending.b)
  {
    if body.status != Undefined && !body.status.Bool? then Failure(BadField(Status))
    else if body.pending != Undefined && !body.pending.Bool? then Failure(BadField(Pending))
    else
      var st := if body.status.Bool? then Some(body.status.b) else None;
      var pe := if body.pending.Bool? then Some(body.pending.b) else None;
      if st.None? && pe.None? then Failure(NoFields) else Success(FlagPatch(st, pe))
  }

  function ApplyFlags(r: Saradnja, p: FlagPatch): Saradnja {
    r.(status := if p.status.Some? then p.status.value else r.status,
       pending := if p.pending.Some? then p.pending.value else r.pending)
  }

  /**
   * `updateSaradnja(id, body)`: a raw patch of the two flags of one row.
   * No transition is checked, so `(true, true)` can be written. An id beyond
   * the key column's range makes the update statement fail in the store (500).
   */
  function UpdateSaradnja(s: Store, id: JsNumber, body: PatchBody): (res: (Store, Reply<(nat, Saradnja)>))
    ensures SaradnjeKeyed(s) ==> SaradnjeKeyed(res.0)
    ensures ParseId(id).None? ==> res == (s, Err(400, BadField(IdParam)))
    ensures ParseId(id).Some? && ParsePatch(body).Failure? ==> res == (s, Err(400, ParsePatch(body).error))
    ensures ParseId(id).Some? && ParsePatch(body).Success? && ParseId(id).value > MaxInt4 ==>
      res == (s, Err(500, DbError))
    ensures ParseId(id).Some? && ParsePatch(body).Success? && ParseId(id).value <= MaxInt4 && ParseId(id).value !in s.saradnje ==>
      res == (s, Err(404, NotFound))
    ensures res.1.Ok? ==>
      var k := ParseId(id).value;
      var old_ := s.saradnje[k];
      && ParseId(id).Some? && k in s.saradnje && k <= MaxInt4
      && res.0.saradnje.Keys == s.saradnje.Keys
      && res.1 == Ok(200, (k, res.0.saradnje[k]))
      && OnlyRowChanged(s, res.0, k)
      && SamePair(res.0.saradnje[k], old_.idUvoznik, old_.idDobavljac)
      && res.0.saradnje[k].datumPocetka == old_.datumPocetka
      && res.0.saradnje[k].status == (if body.status.Bool? then body.status.b else old_.status)
      && res.0.saradnje[k].pending == (if body.pending.Bool? then body.pending.b else old_.pending)
    ensures ParseId(id).Some? && ParsePatch(body).Success? && ParseId(id).value <= MaxInt4 && ParseId(id).value in s.saradnje ==>
      res.1.Ok?
  {
    match ParseId(id)
    case None => (s, Err(400, BadField(IdParam)))
    case Some(k) =>
      match ParsePatch(body)
      case Failure(e) => (s, Err(400, e))
      case Success(p) =>
        if k > MaxInt4 then (s, Err(500, DbError))
        else if k !in s.saradnje then (s, Err(404, NotFound))
        else
          var updated := ApplyFlags(s.saradnje[k], p);
          FlagsWriteKeyed(s.saradnje, k, updated);
          (s.(saradnje := s.saradnje[k := updated]), Ok(200, (k, updated)))
  }

  /**
   * `deleteSaradnja(id)`: 400 for a bad id, 404 for a missing row, 409 when an
   * invoice references the row (the restrict foreign key), otherwise the row goes.
   * Every store failure lands in the same 409, an id beyond the key column's
   * range included.
   */
  function DeleteSaradnja(s: Store, id: JsNumber): (res: (Store, Reply<(nat, Saradnja)>))
    ensures ParseId(id).None? ==> res == (s, Err(400, BadField(IdParam)))
    ensures ParseId(id).Some? && ParseId(id).value > MaxInt4 ==> res == (s, Err(409, Conflict))
    ensures ParseId(id).Some? && ParseId(id).value <= MaxInt4 && ParseId(id).value !in s.saradnje ==>
      res == (s, Err(404, NotFound))
    ensures ParseId(id).Some? && ParseId(id).value in s.saradnje && ParseId(id).value in s.fakturisane ==>
      res == (s, Err(409, Conflict))
    ensures res.1.Ok? ==>
      var k := ParseId(id).value;
      && ParseId(id).Some? && k in s.saradnje && k !in s.fakturisane && k <= MaxInt4
      && res.1 == Ok(200, (k, s.saradnje[k]))
      && res.0.saradnje.Keys == s.saradnje.Keys - {k}
      && OnlyRowChanged(s, res.0, k)
    ensures ParseId(id).Some? && ParseId(id).value <= MaxInt4 && ParseId(id).value in s.saradnje && ParseId(id).value !in s.fakturisane ==>
      res.1.Ok?
  {
    match ParseId(id)
    case None => (s, Err(400, BadField(IdParam)))
    case Some(k) =>
      if k > MaxInt4 then (s, Err(409, Conflict))
      else if k !in s.saradnje then (s, Err(404, NotFound))
      else if k in s.fakturisane then (s, Err(409, Conflict))
      else (s.(saradnje := s.saradnje - {k}), Ok(200, (k, s.saradnje[k])))
  }

  /** The optional filter of `getAllSaradnje`; an absent or zero id means "no filter". */
  datatype SaradnjaFilter = SaradnjaFilter(idUvoznik: Option<int>, idDobavljac: Option<int>)

  predicate Given(x: Option<int>) {
    x.Some? && x.value != 0
  }

  /**
   * `getAllSaradnje(filter)`: an importer filter wins; the supplier filter is
   * applied only when no importer filter is given; otherwise every row.
   */
  function GetAllSaradnje(s: Store, filter: SaradnjaFilter): (res: Reply<map<nat, Saradnja>>)
    ensures res.Ok? && res.status == 200
    ensures forall k :: k in res.data ==> k in s.saradnje && res.data[k] == s.saradnje[k]
    ensures Given(filter.idUvoznik) ==>
      forall k :: k in s.saradnje ==> (k in res.data <==> s.saradnje[k].idUvoznik == filter.idUvoznik.value)
    ensures !Given(filter.idUvoznik) && Given(filter.idDobavljac) ==>
      forall k :: k in s.saradnje ==> (k in res.data <==> s.saradnje[k].idDobavljac == filter.idDobavljac.value)
    ensures !Given(filter.idUvoznik) && !Given(filter.idDobavljac) ==> res.data == s.saradnje
  {
    if Given(filter.idUvoznik) then
      Ok(200, map k | k in s.saradnje && s.saradnje[k].idUvoznik == filter.idUvoznik.value :: s.saradnje[k])
    else if Given(filter.idDobavljac) then
      Ok(200, map k | k in s.saradnje && s.saradnje[k].idDobavljac == filter.idDobavljac.value :: s.saradnje[k])
    else Ok(200, s.saradnje)
  }

  /** `getSaradnjaById(id)`: an id beyond the key column's range makes the query fail in the store (500). */
  function GetSaradnjaById(s: Store, id: JsNumber): (res: Reply<(nat, Saradnja)>)
    ensures ParseId(id).None? ==> res == Err(400, BadField(IdParam))
    ensures ParseId(id).Some? && ParseId(id).value > MaxInt4 ==> res == Err(500, DbError)
    ensures res.Ok? ==> ParseId(id).Some? && res.data.0 == ParseId(id).value && res.data.0 in s.saradnje
                        && res.data.1 == s.saradnje[res.data.0] && res.status == 200
    ensures ParseId(id).Some? && ParseId(id).value <= MaxInt4 && ParseId(id).value !in s.saradnje ==> res == Err(404, NotFound)
  {
    match ParseId(id)
    case None => Err(400, BadField(IdParam))
    case Some(k) =>
      if k > MaxInt4 then Err(500, DbError)
      else if k in s.saradnje then Ok(200, (k, s.saradnje[k])) else Err(404, NotFound)
  }

  /** The filter that selects every row */
  const NoFilter := SaradnjaFilter(None, None)

  /**
   * A filtered listing is the full listing narrowed to the importer's rows,
   * or, without an importer, to the supplier's; once an importer is given
   * the supplier filter makes no difference.
   */
  lemma {:induction false} SaradnjeFilterNarrows(s: Store, f: SaradnjaFilter)
    ensures var all, some := GetAllSaradnje(s, NoFilter).data, GetAllSaradnje(s, f).data;
      && (forall k :: k in some ==> k in all && some[k] == all[k])
      && (Given(f.idUvoznik) ==> forall k :: k in all ==> (k in some <==> all[k].idUvoznik == f.idUvoznik.value))
      && (!Given(f.idUvoznik) && Given(f.idDobavljac) ==>
            forall k :: k in all ==> (k in some <==> all[k].idDobavljac == f.idDobavljac.value))
      && (Given(f.idUvoznik) ==> some == GetAllSaradnje(s, f.(idDobavljac := None)).data)
  {
    assert GetAllSaradnje(s, NoFilter).data == s.saradnje;
  }

  /** Looking a row up by an id in the key range finds exactly what the full listing holds under that id. */
  lemma {:induction false} ByIdMatchesListing(s: Store, id: JsNumber)
    requires ParseId(id).Some? && ParseId(id).value <= MaxInt4
    ensures var k, all := ParseId(id).value, GetAllSaradnje(s, NoFilter).data;
      GetSaradnjaById(s, id) == if k in all then Ok(200, (k, all[k])) else Err(404, NotFound)
  {
    assert GetAllSaradnje(s, NoFilter).data == s.saradnje;
  }

  // ---- the schema's constraints survive every write ----

  /** Rewriting a row without moving it to another pair keeps one row per pair. */
  lemma FlagsWriteKeyed(ss: map<nat, Saradnja>, k: nat, r: Saradnja)
    requires k in ss && SamePair(r, ss[k].idUvoznik, ss[k].idDobavljac)
    ensures PairUnique(ss) ==> PairUnique(ss[k := r])
  {
    if PairUnique(ss) {
      var tt := ss[k := r];
      forall a, b | a in tt && b in tt && a != b
        ensures !SamePair(tt[b], tt[a].idUvoznik, tt[a].idDobavljac)
      {
        assert SamePair(tt[a], ss[a].idUvoznik, ss[a].idDobavljac);
        assert SamePair(tt[b], ss[b].idUvoznik, ss[b].idDobavljac);
      }
    }
  }

  lemma FlagsWriteValid(s: Store, k: nat, r: Saradnja)
    requires Valid(s) && k in s.saradnje
    requires SamePair(r, s.saradnje[k].idUvoznik, s.saradnje[k].idDobavljac)
    ensures Valid(s.(saradnje := s.saradnje[k := r]))
  {
    var t := s.(saradnje := s.saradnje[k := r]);
    FlagsWriteKeyed(s.saradnje, k, r);
    assert SaradnjeValid(t) by {
      forall j | j in t.saradnje ensures SaradnjaAdmissible(t, t.saradnje[j]) {
        assert SaradnjaAdmissible(s, s.saradnje[j]);
      }
    }
    SaradnjeWriteValid(s, t);
  }

  lemma InsertWriteValid(s: Store, r: Saradnja)
    requires Valid(s) && SaradnjaAdmissible(s, r)
    requires forall k :: k in s.saradnje ==> !SamePair(s.saradnje[k], r.idUvoznik, r.idDobavljac)
    ensures Valid(s.(saradnje := s.saradnje[s.serials.saradnja := r],
                     serials := s.serials.(saradnja := s.serials.saradnja + 1)))
  {
    var id := s.serials.saradnja;
    var t := s.(saradnje := s.saradnje[id := r], serials := s.serials.(saradnja := id + 1));
    assert PairUnique(t.saradnje) by {
      forall a, b | a in t.saradnje && b in t.saradnje && a != b
        ensures !SamePair(t.saradnje[b], t.saradnje[a].idUvoznik, t.saradnje[a].idDobavljac)
      {
        if a == id {
          assert t.saradnje[b] == s.saradnje[b];
        } else if b == id {
          assert t.saradnje[a] == s.saradnje[a];
        }
      }
    }
    assert Issued(t.saradnje, t.serials.saradnja);
    assert forall j :: j in t.saradnje ==> SaradnjaAdmissible(t, t.saradnje[j]) by {
      forall j | j in t.saradnje ensures SaradnjaAdmissible(t, t.saradnje[j]) {
        if j != id {
          assert SaradnjaAdmissible(s, s.saradnje[j]);
        }
      }
    }
    SaradnjeWriteValid(s, t);
  }

  lemma RemoveWriteValid(s: Store, k: nat)
    requires Valid(s) && k !in s.fakturisane
    ensures Valid(s.(saradnje := s.saradnje - {k}))
  {
    var t := s.(saradnje := s.saradnje - {k});
    assert PairUnique(t.saradnje);
    assert forall j :: j in t.saradnje ==> SaradnjaAdmissible(t, t.saradnje[j]) by {
      forall j | j in t.saradnje ensures SaradnjaAdmissible(t, t.saradnje[j]) {
        assert SaradnjaAdmissible(s, s.saradnje[j]);
      }
    }
    SaradnjeWriteValid(s, t);
  }

  /** A collaboration request keeps every schema constraint; in particular a pair never gets a second row. */
  lemma CreateKeepsValid(s: Store, body: CreateBody, now: int)
    requires Valid(s)
    ensures Valid(CreateSaradnja(s, body, now).0)
  {
    if ValidateCreate(body).Success? {
      var (u, d) := ValidateCreate(body).value;
      match PairRow(s.saradnje, u, d)
      case Some(k) =>
        var r := s.saradnje[k];
        if !r.pending && !r.status {
          FlagsWriteValid(s, k, r.(pending := true, status := false));
        }
      case None =>
        var row := Saradnja(u, d, now, false, true);
        if SaradnjaAdmissible(s, row) {
          InsertWriteValid(s, row);
        }
    }
  }

  /** A flag patch keeps every schema constraint. */
  lemma UpdateKeepsValid(s: Store, id: JsNumber, body: PatchBody)
    requires Valid(s)
    ensures Valid(UpdateSaradnja(s, id, body).0)
  {
    var res := UpdateSaradnja(s, id, body);
    if res.1.Ok? {
      var k := res.1.data.0;
      FlagsWriteValid(s, k, res.0.saradnje[k]);
      assert res.0 == s.(saradnje := s.saradnje[k := res.0.saradnje[k]]);
    }
  }

  /** A delete keeps every schema constraint: no invoice is left pointing at a missing collaboration. */
  lemma DeleteKeepsValid(s: Store, id: JsNumber)
    requires Valid(s)
    ensures Valid(DeleteSaradnja(s, id).0)
  {
    var res := DeleteSaradnja(s, id);
    if res.1.Ok? {
      RemoveWriteValid(s, res.1.data.0);
    }
  }

  // ---- the state machine ----

  /** The state of the pair's row, or nothing when the pair has no row */
  function PairState(s: Store, u: nat, d: nat): Option<State>
    requires PairUnique(s.saradnje)
  {
    match PairRow(s.saradnje, u, d)
    case Some(k) => Some(StateOf(s.saradnje[k]))
    case None => None
  }

  /** How a reply of `createSaradnja` reads as an outcome of the transition table */
  function OutcomeOf(r: Reply<(nat, Saradnja)>): RequestOutcome {
    match r
    case Ok(st, _) => if st == 201 then Created else Reopened
    case Err(_, e) => Rejected(e)
  }

  /**
   * For two existing users, a request moves the pair exactly as the transition
   * table says: absent and terminated become requested, requested and active
   * are refused with their own codes.
   */
  lemma RequestFollowsTable(s: Store, u: nat, d: nat, now: int)
    requires SaradnjeKeyed(s)
    ensures SaradnjeKeyed(RequestPair(s, u, d, now).0)
    ensures u in s.korisnici && d in s.korisnici ==>
      RequestStep(PairState(s, u, d)) ==
      (PairState(RequestPair(s, u, d, now).0, u, d), OutcomeOf(RequestPair(s, u, d, now).1))
  {
    var res := RequestPair(s, u, d, now);
    var t := res.0;
    match PairRow(s.saradnje, u, d)
    case Some(k) =>
      FlagsWriteKeyed(s.saradnje, k, t.saradnje[k]);
      assert t.saradnje == s.saradnje[k := t.saradnje[k]];
      assert PairRow(t.saradnje, u, d) == Some(k);
    case None =>
      if t == s { return; }
      var id := res.1.data.0;
      assert PairUnique(t.saradnje) by {
        forall a, b | a in t.saradnje && b in t.saradnje && a != b
          ensures !SamePair(t.saradnje[b], t.saradnje[a].idUvoznik, t.saradnje[a].idDobavljac)
        {
          if a == id {
            assert t.saradnje[b] == s.saradnje[b];
          } else if b == id {
            assert t.saradnje[a] == s.saradnje[a];
          } else {
            assert t.saradnje[a] == s.saradnje[a] && t.saradnje[b] == s.saradnje[b];
          }
        }
      }
      assert PairRow(t.saradnje, u, d) == Some(id);
  }

  /** Requests never produce the flag pair `(true, true)`: if no row holds it before, none holds it after. */
  lemma CreateKeepsLegalFlags(s: Store, body: CreateBody, now: int)
    requires SaradnjeKeyed(s)
    requires forall k :: k in s.saradnje ==> LegalFlags(s.saradnje[k])
    ensures var t := CreateSaradnja(s, body, now).0;
            forall k :: k in t.saradnje ==> LegalFlags(t.saradnje[k])
  {
  }

  /** The flag patch checks no transition: it writes `(true, true)` onto any existing row. */
  lemma UpdateWritesIllegalFlags(s: Store, k: nat)
    requires k in s.saradnje && 0 < k <= MaxInt4
    ensures var res := UpdateSaradnja(s, IdNumber(k), PatchBody(Bool(true), Bool(true)));
            res.1.Ok? && k in res.0.saradnje && !LegalFlags(res.0.saradnje[k])
  {
  }

  /** The request body naming the importer `u` and the supplier `d` as JSON numbers */
  function IdsBody(u: nat, d: nat): CreateBody {
    CreateBody(Num(IdNumber(u)), Num(IdNumber(d)))
  }

  /**
   * The life of one pair: request (201), request again (409), accept (200),
   * request again (409), terminate (200) and request again, which reopens the
   * same row (200) instead of inserting a second one.
   */
  lemma {:induction false} PairLifecycle(s: Store, u: nat, d: nat, t0: int, t1: int, t2: int, t3: int)
    requires SaradnjeKeyed(s) && u > 0 && d > 0 && u in s.korisnici && d in s.korisnici
    requires forall k :: k in s.saradnje ==> !SamePair(s.saradnje[k], u, d)
    requires s.serials.saradnja <= MaxInt4
    ensures
      var c1 := CreateSaradnja(s, IdsBody(u, d), t0);
      var k := c1.1.data.0;
      var c2 := CreateSaradnja(c1.0, IdsBody(u, d), t1);
      var a := UpdateSaradnja(c2.0, IdNumber(k), PatchBody(Bool(true), Bool(false)));
      var c3 := CreateSaradnja(a.0, IdsBody(u, d), t2);
      var e := UpdateSaradnja(c3.0, IdNumber(k), PatchBody(Bool(false), Bool(false)));
      var c4 := CreateSaradnja(e.0, IdsBody(u, d), t3);
      && c1.1.Ok? && c1.1.status == 201 && k > 0
      && c2.1 == Err(409, RequestAlreadySent)
      && a.1.Ok? && a.1.status == 200
      && c3.1 == Err(409, AlreadyActive)
      && e.1.Ok? && e.1.status == 200
      && c4.1 == Ok(200, (k, Saradnja(u, d, t0, false, true)))
      && c4.0.saradnje.Keys == c1.0.saradnje.Keys
  {
    var body := IdsBody(u, d);
    assert ValidateCreate(body) == Success((u, d));
    var c1 := CreateSaradnja(s, body, t0);
    var k := c1.1.data.0;
    assert k in c1.0.saradnje && c1.0.saradnje[k] == Saradnja(u, d, t0, false, true);
    assert k > 0;
    var c2 := CreateSaradnja(c1.0, body, t1);
    assert c2.0 == c1.0;
    var a := UpdateSaradnja(c2.0, IdNumber(k), PatchBody(Bool(true), Bool(false)));
    assert ParseId(IdNumber(k)) == Some(k);
    assert a.0.saradnje[k] == Saradnja(u, d, t0, true, false);
    var c3 := CreateSaradnja(a.0, body, t2);
    assert c3.0 == a.0;
    var e := UpdateSaradnja(c3.0, IdNumber(k), PatchBody(Bool(false), Bool(false)));
    assert e.0.saradnje[k] == Saradnja(u, d, t0, false, false);
    var c4 := CreateSaradnja(e.0, body, t3);
  }
}
