/**
 * The importer's collaboration page: the lists it derives from the rows
 * `GET /api/saradnja` returns and from the list of all suppliers, and the
 * patch its "end collaboration" button sends. Rendering and fetching are
 * not modelled.
 */
module SaradnjePage {
  import opened Common
  import opened Schema
  import opened SaradnjaController

  /** A collaboration row as the page receives it; the joined names are not used by the derivations. */
  datatype Row = Row(idSaradnja: nat, saradnja: Saradnja)

  /** An entry of the supplier list */
  datatype DobavljacItem = DobavljacItem(id: int, imePrezime: string, email: string, status: bool)

  /** The signed-in user as `/api/auth/me` reports it */
  datatype Me = Me(id: int, uloga: Role)

  /** `xs.filter(keep)` */
  function Filter<T(!new)>(xs: seq<T>, keep: T -> bool): (r: seq<T>)
    ensures |r| <= |xs|
    ensures forall x :: x in r <==> x in xs && keep(x)
    decreases |xs|
  {
    if |xs| == 0 then [] else (if keep(xs[0]) then [xs[0]] else []) + Filter(xs[1..], keep)
  }

  /** Filtering keeps the order: the filter of a concatenation is the concatenation of the filters. */
  lemma {:induction false} FilterAppend<T(!new)>(a: seq<T>, b: seq<T>, keep: T -> bool)
    ensures Filter(a + b, keep) == Filter(a, keep) + Filter(b, keep)
    decreases |a|
  {
    if |a| > 0 {
      assert (a + b)[1..] == a[1..] + b;
      FilterAppend(a[1..], b, keep);
    } else {
      assert a + b == b;
    }
  }

  /** Filtering a sequence extended by one element extends the filtered sequence by that element when it passes. */
  lemma FilterSnoc<T(!new)>(xs: seq<T>, x: T, keep: T -> bool)
    ensures Filter(xs + [x], keep) == Filter(xs, keep) + (if keep(x) then [x] else [])
  {
    FilterAppend(xs, [x], keep);
    assert Filter([x], keep) == (if keep(x) then [x] else []) + Filter([x][1..], keep);
  }

  /** Two filters whose conditions never hold together select at most as many elements as there are. */
  lemma {:induction false} FilterDisjointSize<T(!new)>(xs: seq<T>, p: T -> bool, q: T -> bool)
    requires forall x :: x in xs ==> !(p(x) && q(x))
    ensures |Filter(xs, p)| + |Filter(xs, q)| <= |xs|
    decreases |xs|
  {
    if |xs| > 0 {
      FilterDisjointSize(xs[1..], p, q);
    }
  }

  // ---- usedDobavljacIds and availableDobavljaci ----

  /** A row that is pending or active blocks a new request to its supplier; a terminated one does not. */
  predicate Blocks(r: Saradnja) {
    r.pending || r.status
  }

  /** `usedDobavljacIds`: the suppliers of the rows that are pending or active */
  method UsedDobavljacIds(rows: seq<Row>) returns (used: set<int>)
    ensures forall d: int :: d in used <==>
      exists i :: 0 <= i < |rows| && Blocks(rows[i].saradnja) && rows[i].saradnja.idDobavljac == d
  {
    used := {};
    for n := 0 to |rows|
      invariant forall d: int :: d in used <==>
        exists i :: 0 <= i < n && Blocks(rows[i].saradnja) && rows[i].saradnja.idDobavljac == d
    {
      if rows[n].saradnja.pending || rows[n].saradnja.status {
        used := used + {rows[n].saradnja.idDobavljac as int};
      }
    }
  }

  /** The test of `availableDobavljaci`: the supplier is not among the used ids. */
  function NotUsed(used: set<int>): DobavljacItem -> bool {
    (d: DobavljacItem) => d.id !in used
  }

  /** `availableDobavljaci`: the suppliers without a pending or active row, in their original order */
  method AvailableDobavljaci(ds: seq<DobavljacItem>, used: set<int>) returns (avail: seq<DobavljacItem>)
    ensures avail == Filter(ds, NotUsed(used))
    ensures forall d :: d in avail <==> d in ds && d.id !in used
  {
    var keep := NotUsed(used);
    avail := [];
    for n := 0 to |ds|
      invariant avail == Filter(ds[..n], keep)
    {
      FilterSnoc(ds[..n], ds[n], keep);
      assert ds[..n + 1] == ds[..n] + [ds[n]];
      if keep(ds[n]) {
        avail := avail + [ds[n]];
      }
    }
    assert ds[..|ds|] == ds;
  }

  // ---- pendingMine and activeMine ----

  function PendingOf(meId: int): Row -> bool {
    (x: Row) => x.saradnja.idUvoznik as int == meId && x.saradnja.pending
  }

  function ActiveOf(meId: int): Row -> bool {
    (x: Row) => x.saradnja.idUvoznik as int == meId && !x.saradnja.pending && x.saradnja.status
  }

  /** `pendingMine`: the signed-in importer's open requests, none without a user */
  function PendingMine(rows: seq<Row>, me: Option<Me>): (r: seq<Row>)
    ensures me.None? ==> r == []
    ensures forall x :: x in r <==> me.Some? && x in rows && x.saradnja.idUvoznik as int == me.value.id && x.saradnja.pending
  {
    if me.None? then [] else Filter(rows, PendingOf(me.value.id))
  }

  /** `activeMine`: the signed-in importer's active collaborations, none without a user */
  function ActiveMine(rows: seq<Row>, me: Option<Me>): (r: seq<Row>)
    ensures me.None? ==> r == []
    ensures forall x :: x in r <==>
      me.Some? && x in rows && x.saradnja.idUvoznik as int == me.value.id && !x.saradnja.pending && x.saradnja.status
  {
    if me.None? then [] else Filter(rows, ActiveOf(me.value.id))
  }

  /** No row is both pending and active, so the two lists share nothing and together hold at most all rows. */
  lemma {:induction false} PendingActiveDisjoint(rows: seq<Row>, me: Option<Me>)
    ensures forall x :: x in PendingMine(rows, me) ==> x !in ActiveMine(rows, me)
    ensures |PendingMine(rows, me)| + |ActiveMine(rows, me)| <= |rows|
  {
    if me.Some? {
      FilterDisjointSize(rows, PendingOf(me.value.id), ActiveOf(me.value.id));
    }
  }

  /** The page never offers a supplier that one of its pending or active rows already names. */
  lemma {:induction false} AvailableExcludesMine(rows: seq<Row>, ds: seq<DobavljacItem>, used: set<int>, me: Option<Me>)
    requires forall d: int :: d in used <==>
      exists i :: 0 <= i < |rows| && Blocks(rows[i].saradnja) && rows[i].saradnja.idDobavljac == d
    ensures forall d, x :: d in Filter(ds, NotUsed(used)) && (x in PendingMine(rows, me) || x in ActiveMine(rows, me)) ==>
      d.id != x.saradnja.idDobavljac as int
  {
    forall d, x | d in Filter(ds, NotUsed(used)) && (x in PendingMine(rows, me) || x in ActiveMine(rows, me))
      ensures d.id != x.saradnja.idDobavljac as int
    {
      var i :| 0 <= i < |rows| && rows[i] == x;
      assert Blocks(rows[i].saradnja);
    }
  }

  /** A terminated row leaves its supplier available unless another row of the list blocks it. */
  lemma {:induction false} TerminatedDoesNotBlock(rows: seq<Row>, used: set<int>, d: nat)
    requires forall e: int :: e in used <==>
      exists i :: 0 <= i < |rows| && Blocks(rows[i].saradnja) && rows[i].saradnja.idDobavljac == e
    requires forall i :: 0 <= i < |rows| && rows[i].saradnja.idDobavljac == d ==> StateOf(rows[i].saradnja) == Terminated
    ensures d !in used
  {
    forall i | 0 <= i < |rows| && rows[i].saradnja.idDobavljac == d
      ensures !Blocks(rows[i].saradnja)
    {
      assert StateOf(rows[i].saradnja) == Terminated;
    }
  }

  // ---- cancelActive ----

  /** The body `cancelActive` sends: `{pending: false, status: false}` */
  function CancelActivePatch(): PatchBody {
    PatchBody(Bool(false), Bool(false))
  }

  /**
   * Ending an active collaboration leaves its row terminated, and a later
   * request naming both the importer and the supplier reopens that row
   * instead of inserting another. The page's own request sends the supplier
   * alone and never gets this far (`PageRequestAsWrittenRejected`).
   */
  lemma {:induction false} CancelThenRequest(s: Store, k: nat, now: int)
    requires SaradnjeKeyed(s) && 0 < k <= MaxInt4 && k in s.saradnje && StateOf(s.saradnje[k]) == Active
    requires s.saradnje[k].idUvoznik > 0 && s.saradnje[k].idDobavljac > 0
    ensures
      var r := s.saradnje[k];
      var e := UpdateSaradnja(s, IdNumber(k), CancelActivePatch());
      var c := CreateSaradnja(e.0, IdsBody(r.idUvoznik, r.idDobavljac), now);
      && e.1.Ok? && e.0.saradnje[k] == r.(status := false, pending := false)
      && StateOf(e.0.saradnje[k]) == Terminated
      && c.1 == Ok(200, (k, r.(status := false, pending := true)))
      && c.0.saradnje.Keys == s.saradnje.Keys
  {
    var r := s.saradnje[k];
    assert ParseId(IdNumber(k)) == Some(k);
    var e := UpdateSaradnja(s, IdNumber(k), CancelActivePatch());
    assert e.0.saradnje[k] == r.(status := false, pending := false);
    var body := IdsBody(r.idUvoznik, r.idDobavljac);
    assert ValidateCreate(body) == Success((r.idUvoznik, r.idDobavljac));
  }

  // ---- requestSaradnja ----

  /** The body `requestSaradnja(idDobavljac)` posts: `{ idDobavljac }`, with no importer id */
  function PageRequestBody(d: int): CreateBody {
    CreateBody(Undefined, Num(Finite(d as real)))
  }

  /** As written, every request the page sends is refused for the missing `idUvoznik`, and nothing changes. */
  lemma PageRequestAsWrittenRejected(s: Store, d: int, now: int)
    requires SaradnjeKeyed(s)
    ensures CreateSaradnja(s, PageRequestBody(d), now) == (s, Err(400, BadField(IdUvoznik)))
  {
  }

  /** The request the page evidently means: the signed-in importer's id next to the supplier's */
  function CorrectedRequestBody(me: Me, d: int): CreateBody {
    CreateBody(Num(Finite(me.id as real)), Num(Finite(d as real)))
  }

  /**
   * With both ids sent, a request to a supplier the page offers (no pending
   * or active row for the pair) succeeds: a new requested row (201) or the
   * terminated row reopened (200), which is then pending.
   */
  lemma {:induction false} CorrectedRequestSucceeds(s: Store, me: Me, d: nat, now: int)
    requires SaradnjeKeyed(s) && me.id > 0 && d > 0 && me.id in s.korisnici && d in s.korisnici
    requires forall k :: k in s.saradnje && SamePair(s.saradnje[k], me.id, d) ==> !Blocks(s.saradnje[k])
    ensures var res := CreateSaradnja(s, CorrectedRequestBody(me, d), now);
      && res.1.Ok? && (res.1.status == 201 || res.1.status == 200)
      && res.1.data.0 in res.0.saradnje && res.0.saradnje[res.1.data.0] == res.1.data.1
      && SamePair(res.1.data.1, me.id, d) && StateOf(res.1.data.1) == Requested
  {
    var u: nat := me.id;
    var body := CorrectedRequestBody(me, d);
    assert body == IdsBody(u, d);
    assert ValidateCreate(body) == Success((u, d));
    match PairRow(s.saradnje, u, d)
    case Some(k) =>
      assert !Blocks(s.saradnje[k]);
    case None =>
  }
}
