/**
 * The category controller: create with a trimmed, non-blank name; delete by
 * id, which the store refuses while a product still uses the category; and
 * update that merges the supplied fields into the stored row and refuses a
 * merge that changes nothing.
 */
module KategorijeController {
  import opened Common
  import opened Text
  import opened Schema

  /** `input.ime?.trim()`: the trimmed name, or undefined for an absent or null name. */
  function TrimmedName(x: TextField): (r: Option<string>)
    ensures r.Some? <==> x.Present?
    ensures r.Some? ==> r.value == Trim(x.s)
  {
    if x.Present? then Some(Trim(x.s)) else None
  }

  /** The row the store accepts as a new or rewritten category `k`: widths and the unique name. */
  predicate Storable(s: Store, k: nat, c: Kategorija) {
    KategorijaFits(c) && forall j :: j in s.kategorije && j != k ==> s.kategorije[j].ime != c.ime
  }

  /**
   * `createCategory({ime, opis})`: a name that is absent, null or blank after
   * trimming is refused; a missing or null description is stored as null. The
   * insert fails in the store (an exception) for a duplicate or overlong name.
   */
  function CreateCategory(s: Store, ime: TextField, opis: TextField): (res: (Store, Result<(nat, Kategorija)>))
    requires Issued(s.kategorije, s.serials.kategorija)
    ensures TrimmedName(ime).None? || TrimmedName(ime).value == "" ==> res == (s, Failure(ValidationError))
    ensures res.1.Success? ==>
      var (k, c) := res.1.value;
      && ime.Present? && c.ime == Trim(ime.s) && c.ime != ""
      && c.opis == (if opis.Present? then Some(opis.s) else None)
      && k !in s.kategorije && k == s.serials.kategorija
      && res.0 == s.(kategorije := s.kategorije[k := c], serials := s.serials.(kategorija := k + 1))
    ensures ime.Present? && Trim(ime.s) != "" ==>
      var c := Kategorija(Trim(ime.s), if opis.Present? then Some(opis.s) else None);
      (res.1.Success? <==> Storable(s, s.serials.kategorija, c)) && (res.1.Failure? ==> res == (s, Failure(DbError)))
  {
    match TrimmedName(ime)
    case None => (s, Failure(ValidationError))
    case Some(name) =>
      if name == "" then (s, Failure(ValidationError))
      else
        var c := Kategorija(name, if opis.Present? then Some(opis.s) else None);
        var k := s.serials.kategorija;
        if Storable(s, k, c) then
          (s.(kategorije := s.kategorije[k := c], serials := s.serials.(kategorija := k + 1)), Success((k, c)))
        else (s, Failure(DbError))
  }

  /** Some product still refers to category `k` (the restrict foreign key). */
  predicate InUse(s: Store, k: nat) {
    exists p :: p in s.proizvodi && s.proizvodi[p].idKategorija == k
  }

  /**
   * `deleteCategoryById(id)`: a non-positive or non-integer id is refused;
   * a missing row is NOT_FOUND; the store refuses to delete a category a
   * product uses (an exception); otherwise exactly that row goes.
   */
  function DeleteCategoryById(s: Store, id: JsNumber): (res: (Store, Result<(nat, Kategorija)>))
    ensures ParseId(id).None? ==> res == (s, Failure(ValidationError))
    ensures ParseId(id).Some? && ParseId(id).value !in s.kategorije ==> res == (s, Failure(NotFound))
    ensures ParseId(id).Some? && ParseId(id).value in s.kategorije && InUse(s, ParseId(id).value) ==>
      res == (s, Failure(DbError))
    ensures res.1.Success? ==>
      var k := ParseId(id).value;
      && ParseId(id).Some? && k in s.kategorije && !InUse(s, k)
      && res.1.value == (k, s.kategorije[k])
      && res.0 == s.(kategorije := s.kategorije - {k})
    ensures ParseId(id).Some? && ParseId(id).value in s.kategorije && !InUse(s, ParseId(id).value) ==> res.1.Success?
  {
    match ParseId(id)
    case None => (s, Failure(ValidationError))
    case Some(k) =>
      if k !in s.kategorije then (s, Failure(NotFound))
      else if InUse(s, k) then (s, Failure(DbError))
      else (s.(kategorije := s.kategorije - {k}), Success((k, s.kategorije[k])))
  }

  /** The row an update writes: each field is the supplied one when defined and the stored one otherwise. */
  function Merged(stored: Kategorija, ime: TextField, opis: TextField): Kategorija {
    Kategorija(
      if ime.Present? then Trim(ime.s) else stored.ime,
      match opis case Absent => stored.opis case NullText => None case Present(o) => Some(o))
  }

  /**
   * `updateCategory(id, {ime, opis})`: a bad id, or neither field defined, is
   * refused (a null description counts as defined, a null name does not);
   * a missing row is NOT_FOUND; each final field is the supplied one when
   * defined and the stored one otherwise; a merge equal to the stored row is
   * NO_CHANGES. A trimmed name may be blank here, unlike on create.
   */
  function UpdateCategory(s: Store, id: JsNumber, ime: TextField, opis: TextField): (res: (Store, Result<(nat, Kategorija)>))
    ensures ParseId(id).None? ==> res == (s, Failure(ValidationError))
    ensures ParseId(id).Some? && !ime.Present? && opis.Absent? ==> res == (s, Failure(ValidationError))
    ensures ParseId(id).Some? && (ime.Present? || !opis.Absent?) && ParseId(id).value !in s.kategorije ==>
      res == (s, Failure(NotFound))
    ensures res.1.Failure? ==> res.0 == s
    ensures res.1.Failure? && res.1.error == NoChanges ==>
      && ParseId(id).Some? && ParseId(id).value in s.kategorije
      && (ime.Present? ==> Trim(ime.s) == s.kategorije[ParseId(id).value].ime)
      && (opis.NullText? ==> s.kategorije[ParseId(id).value].opis.None?)
      && (opis.Present? ==> s.kategorije[ParseId(id).value].opis == Some(opis.s))
    ensures res.1.Success? ==>
      var (k, c) := res.1.value;
      && ParseId(id) == Some(k) && k in s.kategorije
      && var old_ := s.kategorije[k];
      && c.ime == (if ime.Present? then Trim(ime.s) else old_.ime)
      && c.opis == (match opis case Absent => old_.opis case NullText => None case Present(o) => Some(o))
      && c != old_
      && Storable(s, k, c)
      && res.0 == s.(kategorije := s.kategorije[k := c])
    ensures ParseId(id).Some? && (ime.Present? || !opis.Absent?) && ParseId(id).value in s.kategorije ==>
      var k := ParseId(id).value;
      var c := Merged(s.kategorije[k], ime, opis);
      && (c == s.kategorije[k] ==> res == (s, Failure(NoChanges)))
      && (c != s.kategorije[k] ==> (res.1.Success? <==> Storable(s, k, c)) && (res.1.Failure? ==> res == (s, Failure(DbError))))
  {
    match ParseId(id)
    case None => (s, Failure(ValidationError))
    case Some(k) =>
      var name := TrimmedName(ime);
      if name.None? && opis.Absent? then (s, Failure(ValidationError))
      else if k !in s.kategorije then (s, Failure(NotFound))
      else
        var c := Merged(s.kategorije[k], ime, opis);
        if c == s.kategorije[k] then (s, Failure(NoChanges))
        else
          if Storable(s, k, c) then (s.(kategorije := s.kategorije[k := c]), Success((k, c)))
          else (s, Failure(DbError))
  }

  // ---- properties ----

  /** A stored name has no surrounding whitespace, so trimming it again is a no-op. */
  lemma {:induction false} CreateStoresTrimmed(s: Store, ime: TextField, opis: TextField)
    requires Issued(s.kategorije, s.serials.kategorija)
    ensures var res := CreateCategory(s, ime, opis);
      res.1.Success? ==> Trim(res.1.value.1.ime) == res.1.value.1.ime && res.1.value.1.ime != ""
  {
    if ime.Present? {
      TrimIdempotent(ime.s);
    }
  }

  /** Creating a category keeps every schema constraint (one row per name, widths, fresh key). */
  lemma {:induction false} CreateCategoryKeepsValid(s: Store, ime: TextField, opis: TextField)
    requires Valid(s)
    ensures Valid(CreateCategory(s, ime, opis).0)
  {
    var res := CreateCategory(s, ime, opis);
    if res.1.Success? {
      var (k, c) := res.1.value;
      var t := res.0;
      assert KategorijeValid(t) by {
        forall a, b | a in t.kategorije && b in t.kategorije && a != b
          ensures t.kategorije[a].ime != t.kategorije[b].ime
        {
          if a != k && b != k {
            assert t.kategorije[a] == s.kategorije[a] && t.kategorije[b] == s.kategorije[b];
          }
        }
      }
      KategorijeWriteValid(s, t);
    }
  }

  /** Deleting a category keeps every schema constraint: no product is left without its category. */
  lemma {:induction false} DeleteCategoryKeepsValid(s: Store, id: JsNumber)
    requires Valid(s)
    ensures Valid(DeleteCategoryById(s, id).0)
  {
    var res := DeleteCategoryById(s, id);
    if res.1.Success? {
      var k := res.1.value.0;
      var t := res.0;
      forall p | p in s.proizvodi ensures s.proizvodi[p].idKategorija in t.kategorije {
        assert ProizvodAdmissible(s, s.proizvodi[p]);
      }
      KategorijeWriteValid(s, t);
    }
  }

  /** Updating a category keeps every schema constraint. */
  lemma {:induction false} UpdateCategoryKeepsValid(s: Store, id: JsNumber, ime: TextField, opis: TextField)
    requires Valid(s)
    ensures Valid(UpdateCategory(s, id, ime, opis).0)
  {
    var res := UpdateCategory(s, id, ime, opis);
    if res.1.Success? {
      var (k, c) := res.1.value;
      var t := res.0;
      assert KategorijeValid(t) by {
        forall a, b | a in t.kategorije && b in t.kategorije && a != b
          ensures t.kategorije[a].ime != t.kategorije[b].ime
        {
          if a != k && b != k {
            assert t.kategorije[a] == s.kategorije[a] && t.kategorije[b] == s.kategorije[b];
          }
        }
      }
      forall p | p in s.proizvodi ensures s.proizvodi[p].idKategorija in t.kategorije {
        assert ProizvodAdmissible(s, s.proizvodi[p]);
      }
      KategorijeWriteValid(s, t);
    }
  }

  /** An update is idempotent: repeating one that succeeded is answered NO_CHANGES and writes nothing. */
  lemma {:induction false} UpdateTwiceNoChanges(s: Store, id: JsNumber, ime: TextField, opis: TextField)
    ensures var res := UpdateCategory(s, id, ime, opis);
      res.1.Success? ==> UpdateCategory(res.0, id, ime, opis) == (res.0, Failure(NoChanges))
  {
    var res := UpdateCategory(s, id, ime, opis);
    if res.1.Success? {
      var (k, c) := res.1.value;
      assert res.0.kategorije[k] == c;
    }
  }

  /** In a valid store a category just created can be deleted at once, which restores the table. */
  lemma {:induction false} CreateThenDelete(s: Store, ime: TextField, opis: TextField)
    requires Valid(s)
    ensures var res := CreateCategory(s, ime, opis);
      res.1.Success? ==>
        var del := DeleteCategoryById(res.0, IdNumber(res.1.value.0));
        del.1 == Success(res.1.value) && del.0.kategorije == s.kategorije
  {
    var res := CreateCategory(s, ime, opis);
    if res.1.Success? {
      var k := res.1.value.0;
      assert ParseId(IdNumber(k)) == Some(k);
      assert !InUse(res.0, k) by {
        forall p | p in s.proizvodi ensures s.proizvodi[p].idKategorija != k {
          assert ProizvodAdmissible(s, s.proizvodi[p]);
        }
      }
      assert res.0.kategorije - {k} == s.kategorije;
    }
  }
}
