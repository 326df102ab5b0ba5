/**
 * The slice of JavaScript's value model that the module SDK inspects:
 * truthiness, nullish checks, `typeof`/`Array.isArray`/`instanceof Error`
 * tests, and the result of a call that may throw.
 */
module Js {

  /** Optional value; `None` stands for `null`/`undefined` where the source uses `??`. */
  datatype Option<+T> = None | Some(value: T) {
    function GetOr(default: T): T {
      match this
      case Some(v) => v
      case None => default
    }
  }

  /** The result of a call that may throw: the returned value or the thrown value. */
  datatype Outcome<+T> = Returns(value: T) | Throws(error: JsValue)

  /** An IEEE-754 double, reduced to what the SDK distinguishes: finite or not. */
  datatype Number = Finite(value: real) | NaN | PositiveInfinity | NegativeInfinity

  /** A JavaScript value. `JError` is an `Error` instance with its message;
      `JFunction` is an opaque callable. */
  datatype JsValue =
    | JUndefined
    | JNull
    | JBool(b: bool)
    | JNum(n: Number)
    | JStr(s: string)
    | JArray(items: seq<JsValue>)
    | JObject(fields: map<string, JsValue>)
    | JError(message: string)
    | JFunction(id: nat)

  /** `Boolean(v)`: false, 0, -0, NaN, '', null and undefined are falsy. */
  predicate Truthy(v: JsValue) {
    match v
    case JUndefined => false
    case JNull => false
    case JBool(b) => b
    case JNum(n) => n != Finite(0.0) && n != NaN
    case JStr(s) => s != ""
    case _ => true
  }

  /** `v == null` (loose equality): `null` or `undefined`. */
  predicate Nullish(v: JsValue) {
    v == JUndefined || v == JNull
  }

  /** `typeof v === 'object'` for a non-null value. */
  predicate IsObjectLike(v: JsValue) {
    v.JArray? || v.JObject? || v.JError?
  }

  /** The own enumerable properties the SDK reads from an object-like value. */
  function Fields(v: JsValue): map<string, JsValue> {
    if v.JObject? then v.fields else map[]
  }

  /** A property read `v[key]`; a missing key reads as `undefined`. */
  function Get(v: JsValue, key: string): JsValue {
    var f := Fields(v);
    if key in f then f[key] else JUndefined
  }

  /** `isJsonRecord` (dist/server.js): truthy, `typeof 'object'`, not an array. */
  predicate IsJsonRecord(v: JsValue) {
    Truthy(v) && IsObjectLike(v) && !v.JArray?
  }
}
