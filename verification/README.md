# A Dafny model of the importer/supplier B2B back end

The application lets importers (`UVOZNIK`) request collaborations (`saradnja`)
with suppliers (`DOBAVLJAC`), browse the products of the suppliers they work
with, and lets suppliers maintain their catalogue. This project models the
core of its server side and the derivations of the importer's collaboration
page. It states the core's promises as contracts and lemmas:

- **Store.** The PostgreSQL tables become one map per table, keyed by serial
  id, in `Schema.Store`. The schema's constraints are gathered in
  `Schema.Valid`: unique e-mail, unique category name, unique product code,
  one collaboration per (importer, supplier) pair, foreign keys and column
  widths. The container and invoice tables are kept only as the sets of
  product and collaboration ids they reference, because that is all the
  restrict foreign keys need.
- **Controllers.** Each controller function is a pure function from a store
  and the request's values to a new store and a reply
  (`Common.Reply`/`Common.Result`). Database exceptions become the opaque
  `DbError`, or the 409 that the collaboration and product deletes report.
- **JavaScript semantics.** `Number(...)`, `Number.isInteger` and truthiness
  are written out over `Common.JsNumber`/`Common.JsValue`. `trim`, one-character
  `split` and UTF-16 `length` are written out in `Text`.
- **Opaque operations.** `toLowerCase`, bcrypt's compare, the password hash,
  JWT verification and `atob` + `JSON.parse` cannot be written out. They
  enter as parameters (`lower`, `passOk`, `hashed`, `verify`, `decode`).
- **Collaboration states.** The pair's flags `(pending, status)` encode the
  states requested, active and terminated (`SaradnjaController.StateOf`).
  `createSaradnja` implements the request transition (`RequestStep`).
  `updateSaradnja` writes the flags unchecked.

The schema file declares no `pending` column on `saradnja`. The controllers
and the pages read and write one. The model follows the controllers and
gives every collaboration row a `pending` flag.

## Model

| member | source | states |
|---|---|---|
| Common.ParseId | src/controllers/saradnja_controller.ts:20-24 | yields an id exactly for the numbers that denote a positive integer, and then that integer |
| Text.TrimEmptyIffAllSpace | src/controllers/kategorije_controller.ts:13-18 | a trimmed name is empty exactly when the original is whitespace only |
| Text.TrimIdempotent | src/controllers/kategorije_controller.ts:13-20 | a trimmed string has no whitespace at either end, and trimming it again changes nothing |
| Text.Utf16Length | src/controllers/auth_controller.ts:86 | `length` counts UTF-16 units: at least one and at most two per code point |
| Text.Split | middleware.ts:15-16 | `split` on one character gives one more piece than there are separators, none containing it |
| Text.JoinSplit | middleware.ts:15-16 | splitting loses nothing: joining the pieces with the separator gives the token back |
| Schema.ParseRole | src/db/schema.ts:3-10 | the role enum accepts exactly the three role names, each naming its role |
| Schema.UserByEmail | src/db/schema.ts:8 | with unique e-mails, the lookup finds the one user with that e-mail, or there is none |
| Schema.PairRow | src/db/schema.ts:41-46 | with the unique pair index, the lookup finds the one row of a pair, or there is none |
| Schema.ViewOf | src/controllers/uvoznik_controller.ts:49 | the category left join gives the category's name when the row exists and null otherwise |
| Schema.SaradnjeWriteValid | src/db/schema.ts:34-47 | a write confined to the collaboration table keeps every constraint when that table stays valid |
| Schema.KategorijeWriteValid | src/db/schema.ts:15-31 | a write confined to the category table keeps every constraint when every product's category remains |
| Schema.ProizvodiWriteValid | src/db/schema.ts:21-32 | a write confined to the product table keeps every constraint when that table stays valid |
| SaradnjaController.ValidateCreate | src/controllers/saradnja_controller.ts:6-18 | accepts exactly two positive-integer ids; names `idUvoznik` first when both are bad |
| SaradnjaController.RequestPair | src/controllers/saradnja_controller.ts:36-73 | pending row: 409 REQUEST_ALREADY_SENT; active row: 409 ALREADY_ACTIVE; terminated row: reopened, 200; no row: inserted, 201, or 500 for an unknown user |
| SaradnjaController.AnswerExisting | src/controllers/saradnja_controller.ts:44-58 | an existing row is refused while pending or active, and otherwise set to pending with no other row touched |
| SaradnjaController.InsertRequest | src/controllers/saradnja_controller.ts:61-73 | a new request gets the next serial id, flags pending and inactive; the store refuses unknown users |
| SaradnjaController.CreateSaradnja | src/controllers/saradnja_controller.ts:27-75 | 400 exactly for invalid ids, store untouched; otherwise the pair's request step; one row per pair kept |
| SaradnjaController.ParsePatch | src/controllers/saradnja_controller.ts:82-100 | each defined flag must be a boolean, `status` checked first; a patch with neither flag is refused |
| SaradnjaController.UpdateSaradnja | src/controllers/saradnja_controller.ts:78-117 | 400 for a bad id or patch, 500 for an id beyond the `integer` key range, 404 for a missing row; else 200 and only that row changes: the given flags, pair and date kept |
| SaradnjaController.DeleteSaradnja | src/controllers/saradnja_controller.ts:119-144 | 400 bad id, 409 for an id beyond the `integer` key range, 404 missing, 409 while an invoice refers to the row; otherwise exactly that row goes |
| SaradnjaController.GetAllSaradnje | src/controllers/saradnja_controller.ts:146-181 | every row, or those of the importer when that filter is truthy, else those of the supplier when that one is |
| SaradnjaController.GetSaradnjaById | src/controllers/saradnja_controller.ts:183-201 | 400 for a bad id, 500 for an id beyond the `integer` key range, 404 for a missing row, else that row |
| SaradnjaController.SaradnjeFilterNarrows | src/controllers/saradnja_controller.ts:170-174 | a filtered listing is the full one narrowed to the importer's rows, or else the supplier's; with an importer the supplier filter makes no difference |
| SaradnjaController.ByIdMatchesListing | src/controllers/saradnja_controller.ts:183-197 | for an id in range, the lookup returns exactly the row the full listing holds under it, and 404 when it holds none |
| SaradnjaController.FlagsWriteKeyed | src/db/schema.ts:41-46 | rewriting a row's flags without moving its pair keeps one row per pair |
| SaradnjaController.FlagsWriteValid | src/controllers/saradnja_controller.ts:103-107 | a flag update keeps every schema constraint |
| SaradnjaController.InsertWriteValid | src/controllers/saradnja_controller.ts:61-69 | inserting a request for a pair without a row keeps every schema constraint |
| SaradnjaController.RemoveWriteValid | src/controllers/saradnja_controller.ts:124-127 | removing a row no invoice refers to keeps every schema constraint |
| SaradnjaController.CreateKeepsValid | src/controllers/saradnja_controller.ts:27-75 | a collaboration request keeps every schema constraint |
| SaradnjaController.UpdateKeepsValid | src/controllers/saradnja_controller.ts:78-117 | a flag patch keeps every schema constraint |
| SaradnjaController.DeleteKeepsValid | src/controllers/saradnja_controller.ts:119-144 | a delete keeps every schema constraint, invoices included |
| SaradnjaController.RequestFollowsTable | src/controllers/saradnja_controller.ts:42-71 | for known users, a request's reply and the pair's new state follow the transition table |
| SaradnjaController.CreateKeepsLegalFlags | src/controllers/saradnja_controller.ts:52-68 | requests never write the flag pair (pending, active) |
| SaradnjaController.UpdateWritesIllegalFlags | src/controllers/saradnja_controller.ts:84-96 | a patch can write the flag pair (pending, active), which encodes no state |
| SaradnjaController.PairLifecycle | src/controllers/saradnja_controller.ts:27-117 | request 201, repeat 409, accept, repeat 409, terminate, then a request reopens the same row, 200 |
| UvoznikController.GetMojiDobavljaci | src/controllers/uvoznik_controller.ts:6-25 | exactly the importer's status-true collaborations whose supplier exists, with the supplier's name and e-mail |
| UvoznikController.GetProizvodiMojihDobavljaca | src/controllers/uvoznik_controller.ts:27-56 | exactly the (collaboration, product) pairs of the three-way join, with category and supplier names |
| UvoznikController.OfferedProducts | src/controllers/uvoznik_controller.ts:27-56 | the products the join returns, whichever collaboration matched them |
| UvoznikController.GetProizvodiDobavljacaAkoSaradjujemo | src/controllers/uvoznik_controller.ts:64-105 | 400 for a bad supplier id; 403 exactly without a status-true collaboration; else all that supplier's products |
| UvoznikController.SuppliersIgnorePending | src/controllers/uvoznik_controller.ts:17-19 | changing any row's `pending` flag leaves "my suppliers" unchanged |
| UvoznikController.OffersIgnorePending | src/controllers/uvoznik_controller.ts:46-50 | changing any row's `pending` flag leaves "products of my suppliers" unchanged |
| UvoznikController.OffersSameKeys | src/controllers/uvoznik_controller.ts:46-50 | the join's rows depend only on pairs, `status`, users and products |
| UvoznikController.GuardIgnoresPending | src/controllers/uvoznik_controller.ts:69-99 | changing any row's `pending` flag leaves the guarded lookup unchanged |
| UvoznikController.SuppliersDistinct | src/controllers/uvoznik_controller.ts:17-19 | with one row per pair, no supplier is listed twice |
| UvoznikController.OfferedOnce | src/controllers/uvoznik_controller.ts:46-50 | with one row per pair, each product appears under one collaboration only |
| UvoznikController.OfferedMatchesSuppliers | src/controllers/uvoznik_controller.ts:17-50 | a product is offered exactly when its supplier is among "my suppliers" |
| UvoznikController.GuardedAgreesWithJoin | src/controllers/uvoznik_controller.ts:64-105 | in a valid store the guarded lookup succeeds exactly when the join offers the supplier's products, and returns exactly them |
| DobavljacController.FilterAppliesIffPositiveId | src/controllers/dobavljac_controller.ts:9-22 | the category filter takes effect exactly for a positive integer id |
| DobavljacController.GetMojiProizvodiDobavljaca | src/controllers/dobavljac_controller.ts:13-48 | exactly the caller's products, narrowed to the category when the filter applies, with category names |
| DobavljacController.FilterNarrows | src/controllers/dobavljac_controller.ts:18-22 | the filtered listing is the unfiltered one restricted to the category |
| KategorijeController.TrimmedName | src/controllers/kategorije_controller.ts:13 | the trimmed name exists exactly when a string name was sent |
| KategorijeController.CreateCategory | src/controllers/kategorije_controller.ts:12-23 | a missing or blank name is refused; else one new row, trimmed name, null for a missing description, fresh id |
| KategorijeController.DeleteCategoryById | src/controllers/kategorije_controller.ts:25-37 | bad id refused, missing row NOT_FOUND, a category in use is kept by the store; else exactly that row goes |
| KategorijeController.UpdateCategory | src/controllers/kategorije_controller.ts:39-89 | bad id or no field refused, missing NOT_FOUND, unchanged merge NO_CHANGES; otherwise success exactly when the store accepts the merged row, which then replaces the stored one, and a store failure when it does not |
| KategorijeController.CreateStoresTrimmed | src/controllers/kategorije_controller.ts:13-20 | a created category's name is non-empty and trimming it changes nothing |
| KategorijeController.CreateCategoryKeepsValid | src/controllers/kategorije_controller.ts:12-23 | creating a category keeps every schema constraint |
| KategorijeController.DeleteCategoryKeepsValid | src/controllers/kategorije_controller.ts:25-37 | deleting a category keeps every constraint: no product loses its category |
| KategorijeController.UpdateCategoryKeepsValid | src/controllers/kategorije_controller.ts:79-88 | updating a category keeps every schema constraint |
| KategorijeController.UpdateTwiceNoChanges | src/controllers/kategorije_controller.ts:67-77 | repeating a successful update is answered NO_CHANGES and writes nothing |
| KategorijeController.CreateThenDelete | src/controllers/kategorije_controller.ts:12-37 | in a valid store a just-created category can be deleted at once, restoring the table |
| ProizvodController.FirstRejected | src/controllers/proizvod_controller.ts:31-48 | finds the first field, in checking order, that fails its check, or reports that all pass |
| ProizvodController.ValidateCreateInput | src/controllers/proizvod_controller.ts:17-64 | accepts exactly when every field passes; else names the first failing field; trims strings and coerces numbers |
| ProizvodController.CreateProizvod | src/controllers/proizvod_controller.ts:66-82 | 400 naming the first bad field; 201 inserting the validated row under the next id; 500 when the store refuses it |
| ProizvodController.GetAllProizvodi | src/controllers/proizvod_controller.ts:84-127 | every product, or those of the supplier when the filter is truthy, with category and supplier names |
| DobavljacController.CatalogAgreesWithOwnListing | src/controllers/proizvod_controller.ts:84-127 | the catalogue filtered by a supplier holds exactly the products of that supplier's own listing, with the same rows and category names |
| ProizvodController.AssertOwnership | src/controllers/proizvod_controller.ts:236-252 | passes exactly for an existing product of that supplier; else 404 for a missing one, 403 for a foreign one |
| ProizvodController.BuildPatch | src/controllers/proizvod_controller.ts:263-319 | any defined `idDobavljac` is refused first; the first bad field is named; a patch sets exactly the defined fields |
| ProizvodController.UpdateProizvod | src/controllers/proizvod_controller.ts:254-336 | 400 bad id, 404/403 ownership, 400 bad patch; for the owner's acceptable patch 200 exactly when the store accepts the patched row, and 500 when it refuses it; on 200 only that row is patched |
| ProizvodController.DeleteProizvod | src/controllers/proizvod_controller.ts:338-368 | 400 bad id, 404/403 ownership, 409 while a container item refers to it; else exactly that row goes |
| ProizvodController.ValidateBodyOf | src/controllers/proizvod_controller.ts:31-63 | every product with trimmed filled strings and positive ids passes validation unchanged |
| ProizvodController.ValidateIdempotent | src/controllers/proizvod_controller.ts:50-63 | validating the body of an accepted product gives the same product again |
| ProizvodController.UpdateChangesOnlySupplied | src/controllers/proizvod_controller.ts:268-326 | an update changes exactly the columns the body defines, never the supplier, and no other row |
| ProizvodController.ForeignProductUntouched | src/controllers/proizvod_controller.ts:248-250 | neither update nor delete by one supplier changes another supplier's product |
| ProizvodController.StorableWriteValid | src/db/schema.ts:21-32 | writing a row the store accepts keeps every schema constraint |
| ProizvodController.CreateProizvodKeepsValid | src/controllers/proizvod_controller.ts:72-76 | creating a product keeps every schema constraint |
| ProizvodController.UpdateProizvodKeepsValid | src/controllers/proizvod_controller.ts:321-326 | updating a product keeps every schema constraint |
| ProizvodController.DeleteProizvodKeepsValid | src/controllers/proizvod_controller.ts:347-351 | deleting a product keeps every constraint: no container item is left dangling |
| ProizvodRoutes.PatchRouteAsWritten | src/controllers/proizvod_controller.ts:254-258 | the PATCH handler of the `[id]` route, which passes the path id as `userId` and the body as `productId` (route.ts line 7), never changes the store |
| ProizvodRoutes.PatchRouteAlwaysRejects | src/controllers/proizvod_controller.ts:236-258 | as written no PATCH succeeds: 400, 404 or 403 according to what the request body coerces to |
| ProizvodRoutes.DeleteRouteAsWritten | src/controllers/proizvod_controller.ts:338-340 | the DELETE handler of the `[id]` route, which passes the path id as `userId` and nothing as `productId` (route.ts line 13), never changes the store |
| ProizvodRoutes.DeleteRouteAlwaysRejects | src/controllers/proizvod_controller.ts:338-340 | as written every DELETE is a 400 for a bad id |
| ProizvodRoutes.PatchRoute | src/controllers/proizvod_controller.ts:254-336 | with the arguments in place, a PATCH succeeds exactly for the owner's existing product and an acceptable patch |
| ProizvodRoutes.DeleteRoute | src/controllers/proizvod_controller.ts:338-368 | with the arguments in place, a DELETE succeeds exactly for the owner's product not in a container |
| ProizvodRoutes.RenamePatch | src/controllers/proizvod_controller.ts:277-282 | a body holding only a trimmed, filled name builds a patch that sets the name and nothing else |
| ProizvodRoutes.OwnerCanRename | src/controllers/proizvod_controller.ts:254-336 | with the arguments in place, the owner can rename a product |
| AuthController.NormalizedEmail | src/controllers/auth_controller.ts:31 | a sent e-mail is trimmed and lower-cased; a missing one stays undefined |
| AuthController.GetUserByEmail | src/controllers/auth_controller.ts:12-16 | finds the user whose stored e-mail is the normalised argument, or none |
| AuthController.LoginUser | src/controllers/auth_controller.ts:24-62 | INVALID_INPUT iff a field is empty; unknown e-mail and wrong password INVALID_CREDENTIALS; disabled user USER_DISABLED; else the user |
| AuthController.RegisterUser | src/controllers/auth_controller.ts:65-120 | INVALID_INPUT, short password, EMAIL_EXISTS iff the lookup finds it; otherwise success exactly when the role is in the enum and the store accepts the row, and a store failure when not; a success adds one new active user with the normalised e-mail and the hashed password |
| AuthController.DisabledBeforePassword | src/controllers/auth_controller.ts:43-50 | a disabled user gets USER_DISABLED whatever the password check says |
| AuthController.RegisterThenLogin | src/controllers/auth_controller.ts:31-106 | when the e-mail normalisation settles and the password matches, logging in returns the user just registered |
| AuthController.RegisterKeepsValid | src/controllers/auth_controller.ts:97-106 | registration keeps every schema constraint |
| AuthRoutes.LoginStatus | src/app/api/auth/login/route.ts:10-13 | 401 exactly for INVALID_CREDENTIALS, 403 exactly for USER_DISABLED, 400 otherwise |
| AuthRoutes.RegisterStatus | src/app/api/auth/register/route.ts:16-39 | 409 exactly for EMAIL_EXISTS, 500 exactly for a store failure, 400 otherwise |
| AuthRoutes.LoginRoute | src/app/api/auth/login/route.ts:5-37 | refuses exactly when login fails, with the mapped status; else 200 with claims copied from the user |
| AuthRoutes.RegisterRoute | src/app/api/auth/register/route.ts:5-40 | refuses exactly when registration fails, with the mapped status; else 201 with claims copied from the new user |
| AuthRoutes.RegisterAndLoginClaimsAgree | src/app/api/auth/register/route.ts:25-29 | a token from registration carries the same claims as one from the following login |
| AuthGuard.GetCurrentUser | src/lib/auth_guard.ts:16-40 | a user exactly for a non-empty verified token whose subject is a stored user, and then the stored row |
| AuthGuard.RequireUser | src/lib/auth_guard.ts:42-57 | 401 exactly without a user, 403 USER_DISABLED exactly for a disabled one, else the user |
| AuthGuard.RequireRole | src/lib/auth_guard.ts:59-66 | 403 FORBIDDEN exactly when the stored role is not allowed |
| AuthGuard.Guard | src/lib/auth_guard.ts:42-66 | a pass yields the current user, active and with an allowed role |
| AuthGuard.DisabledNeverForbidden | src/lib/auth_guard.ts:50-55 | a disabled user is refused as disabled, never as forbidden |
| AuthGuard.GuardOutcomes | src/lib/auth_guard.ts:44-65 | the guard's outcome is 401, 403 USER_DISABLED, 403 FORBIDDEN or pass, checked in that order |
| AuthGuard.RoleClaimIgnored | src/lib/auth_guard.ts:30-39 | only the token's subject matters: the role and e-mail it claims are not read |
| RoleRoutes.HomeByRole | src/lib/role_routes.ts:3-8 | each role's landing page; ADMIN and no role land on `/` |
| Middleware.HomeCopiesAgree | middleware.ts:6-11 | the middleware's private copy of the landing page function agrees with the shared one on every role |
| Middleware.ToStandard | middleware.ts:19 | the payload with every `-` turned into `+` and every `_` into `/`, of the same length |
| Middleware.PaddedShape | middleware.ts:19-20 | the padded payload extends the translated one by at most three `=`, has no `-` or `_`, and a UTF-16 length divisible by 4 |
| Middleware.PaddingRoundTrip | middleware.ts:18-20 | a base64url payload is recovered from its padded standard form |
| Middleware.DecodeJwtPayload | middleware.ts:13-27 | nothing unless the token has exactly three dot-separated parts; else the decoding of the padded middle part |
| Middleware.Decide | middleware.ts:29-78 | public and unprotected paths pass; protected ones need a cookie and a role; a mismatched role goes to its home |
| Middleware.NoRedirectLoop | middleware.ts:59-75 | the target of a redirect, requested with the same cookie, passes |
| SaradnjePage.Filter | src/app/uvoznik/saradnje/page.tsx:87-89 | `filter` keeps exactly the elements that pass the test |
| SaradnjePage.FilterAppend | src/app/uvoznik/saradnje/page.tsx:87-89 | filtering keeps the order: the filter of a concatenation is the concatenation of the filters |
| SaradnjePage.FilterDisjointSize | src/app/uvoznik/saradnje/page.tsx:91-99 | two filters with exclusive tests together select at most all elements |
| SaradnjePage.UsedDobavljacIds | src/app/uvoznik/saradnje/page.tsx:77-85 | exactly the suppliers of rows that are pending or active |
| SaradnjePage.AvailableDobavljaci | src/app/uvoznik/saradnje/page.tsx:87-89 | the suppliers not among the used ids, in their original order |
| SaradnjePage.PendingMine | src/app/uvoznik/saradnje/page.tsx:91-94 | exactly the signed-in importer's pending rows; none without a user |
| SaradnjePage.ActiveMine | src/app/uvoznik/saradnje/page.tsx:96-99 | exactly the signed-in importer's active, not pending, rows; none without a user |
| SaradnjePage.PendingActiveDisjoint | src/app/uvoznik/saradnje/page.tsx:91-99 | the pending and active lists share no row and together hold at most all rows |
| SaradnjePage.AvailableExcludesMine | src/app/uvoznik/saradnje/page.tsx:77-99 | no available supplier is the supplier of a pending or active row |
| SaradnjePage.TerminatedDoesNotBlock | src/app/uvoznik/saradnje/page.tsx:77-85 | a supplier whose rows are all terminated is not among the used ids |
| SaradnjePage.CancelThenRequest | src/app/uvoznik/saradnje/page.tsx:155-162 | ending an active collaboration leaves its row terminated, and a later request naming both ids reopens that same row |
| SaradnjePage.PageRequestAsWrittenRejected | src/app/uvoznik/saradnje/page.tsx:120-128 | as written, the page's request body `{ idDobavljac }` is refused with 400 for the missing `idUvoznik`, and the store is untouched |
| SaradnjePage.CorrectedRequestSucceeds | src/controllers/saradnja_controller.ts:27-75 | a request naming the importer and a supplier the page offers succeeds with 201 or 200 and leaves the pair's row requested |

## Left out

- Everything outside the controllers' logic: I/O, HTTP transport, cookies,
  React rendering, `fetch`, router navigation and the layouts.
- Opaque library code. `toLowerCase`, bcrypt's hash and compare, JWT
  signing and verification, and `atob` + `JSON.parse` are parameters. The
  model only assumes about them what each lemma's `requires` says.
- Concurrency. Every controller runs alone on the store. The 404s that
  `updateProizvod` and `deleteProizvod` return when the row vanishes between
  the ownership check and the write cannot happen in a sequential run, so
  they are not modelled.
- Floating point. Dimensions and prices are reals, and `Number(...)` on a
  string or an object is not computed: such a value carries the number it
  coerces to.
- The 500 replies of the read queries. Reads never fail in the model,
  except a collaboration looked up by an id beyond the `integer` key range;
  the writes' store failures are modelled.
- Message strings. Only error codes and statuses are modelled. The 400s of
  the collaboration and product controllers are told apart by the field
  they name.
- Query projections. The rows carry the whole product or collaboration
  record rather than the selected columns. `datumPocetka` is an integer
  timestamp supplied by the caller.
- SaradnjaController.GetAllSaradnje: returns the collaboration rows without
  the joined importer and supplier names and e-mails.
- Request bodies. Fields that a controller's parameter type declares as
  strings are modelled as absent, null or a string (`Common.TextField`).
  Other JSON values in those places are not modelled.
- The role. A role string outside the enum makes the store refuse a
  registration; the model reports that as `DbError`.
- The kategorije routes. The category controller does not catch store
  exceptions. The model reports them as `DbError`, and the routes that turn
  them into responses are not part of this model.
- `getAllCategories`, `getUserById` and the GET handlers of the routes.
  They are plain reads, covered by the store lookups.
- Uncalled functions. `getSviDobavljaciBezSaradnje` is called by a route
  but is not part of this model, and the commented-out
  `updateProizvod`/`deleteProizvod` of the product controller are not
  modelled.
- The middleware's `matcher`. It restricts the middleware to `/uvoznik` and
  `/dobavljac` paths; the model decides every path and lets the others pass.
- The text-search filters of the other pages: they depend on Unicode case
  mapping.
- KategorijeController.UpdateCategory: a positive id above 2147483647, the
  largest `integer` key, makes the lookup throw in the source; the model
  answers NOT_FOUND.
- KategorijeController.DeleteCategoryById: the same out-of-range id throws
  in the source; the model answers NOT_FOUND.
- ProizvodController.UpdateProizvod: an out-of-range product id makes the
  ownership query throw outside any `try`; the model answers 404.
- ProizvodController.DeleteProizvod: the same out-of-range id throws in the
  ownership query; the model answers 404.
- UvoznikController.GetProizvodiDobavljacaAkoSaradjujemo: an out-of-range
  supplier id makes the query fail (500 in the source); the model answers 403.
- SaradnjaController.GetAllSaradnje: an out-of-range filter id makes the
  query fail (500 in the source); the model returns an empty listing.
- SaradnjaController.InsertRequest: a refused insert leaves the serial
  counter unchanged, while PostgreSQL's sequence consumes its value even
  then, so the source's later ids can be higher than the model's.
- KategorijeController.CreateCategory: a refused insert leaves the serial
  counter unchanged; the sequence in the source still advances.
- ProizvodController.CreateProizvod: a refused insert leaves the serial
  counter unchanged; the sequence in the source still advances.
- AuthController.RegisterUser: a refused insert leaves the serial counter
  unchanged; the sequence in the source still advances.

## Findings

| source | as written | input that shows it | evidently intended | confidence | as-written member | corrected member |
|---|---|---|---|---|---|---|
| `src/app/api/proizvodi/[id]/route.ts:7` | `updateProizvod(params.id, body)` passes the path id as `userId` and the body as `productId` | PATCH `/api/proizvodi/5` with `{"naziv":"X"}` by the owner of product 5: the body coerces to NaN, so 400 bad id | `updateProizvod(user.id, params.id, body)` after a `requireRole(DOBAVLJAC)` guard that supplies `user.id`; the route has no guard today | high, not executed | ProizvodRoutes.PatchRouteAsWritten | ProizvodRoutes.PatchRoute |
| `src/app/api/proizvodi/[id]/route.ts:13` | `deleteProizvod(params.id)` passes the path id as `userId` and no `productId` | DELETE `/api/proizvodi/5` by the owner of product 5: the product id is undefined, so 400 bad id | `deleteProizvod(user.id, params.id)` after a `requireRole(DOBAVLJAC)` guard that supplies `user.id`; the route has no guard today | high, not executed | ProizvodRoutes.DeleteRouteAsWritten | ProizvodRoutes.DeleteRoute |
| src/app/uvoznik/saradnje/page.tsx:127 | `requestSaradnja` posts `{ idDobavljac }` only, and the POST route hands the body unchanged to `createSaradnja`, which requires `idUvoznik` | the importer clicks "request" for any offered supplier: 400 "idUvoznik je obavezan", nothing stored | the body carries the signed-in importer's id as well, `{ idUvoznik: me.id, idDobavljac }` (or the route fills it from the session) | high, not executed | SaradnjePage.PageRequestAsWrittenRejected | SaradnjePage.CorrectedRequestSucceeds |

The lemmas `ProizvodRoutes.PatchRouteAlwaysRejects` and
`ProizvodRoutes.DeleteRouteAlwaysRejects` show that, as written, no request
succeeds. `ProizvodRoutes.OwnerCanRename` shows that the corrected PATCH
lets the owner rename a product. `SaradnjePage.PageRequestAsWrittenRejected`
shows that every collaboration request the importer's page sends is refused;
`SaradnjePage.CorrectedRequestSucceeds` shows that the same request with
both ids succeeds for every supplier the page offers.
