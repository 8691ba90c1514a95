/**
 * Values shared by every controller: optional values, the JavaScript
 * numbers and body values the controllers coerce, the error codes they
 * report and the `{status, json}` record they return.
 */
module Common {

  datatype Option<+T> = None | Some(value: T)

  /** A JavaScript number as produced by `Number(...)`: finite, NaN or an infinity. */
  datatype JsNumber = Finite(v: real) | NaN | Infinity(negative: bool)

  /**
   * A value read from a parsed JSON body or a query parameter. Converting a
   * string or an object to a number is not modelled: each such value carries
   * the number `Number(...)` yields for it.
   */
  datatype JsValue =
    | Undefined
    | Null
    | Bool(b: bool)
    | Str(s: string, asNumber: JsNumber)
    | Num(n: JsNumber)
    | Obj(objAsNumber: JsNumber)

  /** A request field the controller's parameter type declares as an optional string: absent, null or a string. */
  datatype TextField = Absent | NullText | Present(s: string)

  /** `Number.isInteger(n)` */
  predicate IsInteger(n: JsNumber) {
    n.Finite? && n.v == n.v.Floor as real
  }

  /** `Number.isFinite(n)` */
  predicate IsFinite(n: JsNumber) {
    n.Finite?
  }

  /** `Number.isInteger(n) && n > 0`, the id test every controller repeats */
  predicate IsPosInt(n: JsNumber) {
    IsInteger(n) && n.v > 0.0
  }

  /** JavaScript truthiness of a number: everything but 0, -0 and NaN */
  predicate NumTruthy(n: JsNumber) {
    match n
    case Finite(v) => v != 0.0
    case NaN => false
    case Infinity(_) => true
  }

  /** JavaScript truthiness of a body value */
  predicate Truthy(x: JsValue) {
    match x
    case Undefined => false
    case Null => false
    case Bool(b) => b
    case Str(s, _) => s != ""
    case Num(n) => NumTruthy(n)
    case Obj(_) => true
  }

  /** `Number(x)` */
  function ToNumber(x: JsValue): JsNumber {
    match x
    case Undefined => NaN
    case Null => Finite(0.0)
    case Bool(b) => if b then Finite(1.0) else Finite(0.0)
    case Str(_, n) => n
    case Num(n) => n
    case Obj(n) => n
  }

  /** The JavaScript number that denotes the id `k` */
  function IdNumber(k: nat): JsNumber {
    Finite(k as real)
  }

  /**
   * `parseId`: the positive integer a coerced id denotes, or nothing.
   * It yields a value exactly for the numbers that are positive integers.
   */
  function ParseId(n: JsNumber): (r: Option<nat>)
    ensures r.Some? <==> exists k: nat :: k > 0 && n == IdNumber(k)
    ensures r.Some? ==> r.value > 0 && n == IdNumber(r.value)
  {
    if IsPosInt(n) then
      assert n == IdNumber(n.v.Floor);
      Some(n.v.Floor)
    else
      assert forall k: nat :: k > 0 ==> n != IdNumber(k) by {
        forall k: nat | k > 0
          ensures n != IdNumber(k)
        {
          assert (k as real).Floor == k;
        }
      }
      None
  }

  /** The conditions a controller reports; messages are not modelled. */
  datatype ErrorCode =
    | Unauthorized        // no session
    | UserDisabled        // the session's user has status = false
    | Forbidden           // role, ownership or collaboration check failed
    | ValidationError     // kategorije controller: malformed input
    | InvalidInput        // auth controller: malformed input
    | InvalidCredentials  // unknown e-mail or wrong password
    | EmailExists
    | NotFound
    | RequestAlreadySent
    | AlreadyActive
    | NoChanges
    | Conflict            // a restrict foreign key blocked a delete
    | BadField(field: Field) // a 400 naming the offending body field
    | NoFields            // a patch without any recognised field
    | DbError             // the store refused a write (opaque 500)

  /** The body fields that a 400 response can name. */
  datatype Field =
    | IdParam | IdUvoznik | IdDobavljac | Status | Pending
    | Sifra | Naziv | Slika | Sirina | Visina | Duzina | Cena | IdKategorija

  /** The `{status, json}` record that the controllers return. */
  datatype Reply<+T> = Ok(status: int, data: T) | Err(status: int, error: ErrorCode)

  /** The `{data}` / `{error: {code}}` record of the kategorije and auth controllers. */
  datatype Result<+T> = Success(value: T) | Failure(error: ErrorCode)
}
