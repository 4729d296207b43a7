/** Values shared by the whole model: optional values, settled promises,
    thrown JavaScript values, model availability and untyped JSON values. */
module Common {

  datatype Option<+T> = None | Some(value: T)

  /** A JavaScript value that was thrown: an `Error` (with its `name` and
      `message`) or anything else. */
  datatype Thrown = ErrorObject(name: string, message: string) | NonError

  /** How a promise settled. */
  datatype Settled<+T> = Resolved(value: T) | Rejected(error: Thrown)

  /** The states reported by the built-in model's `availability()`. */
  datatype Availability = Unavailable | Downloadable | Downloading | Available

  /** An untyped JSON value as produced by a partial structured object. */
  datatype JsValue =
    | Undefined
    | Null
    | Bool(b: bool)
    | Num(x: real)
    | Str(s: string)
    | Arr(items: seq<JsValue>)
    | Obj(props: map<string, JsValue>)

  /** `record[key]`: a missing key reads as `undefined`. */
  function Get<K>(record: map<K, JsValue>, key: K): JsValue {
    if key in record then record[key] else Undefined
  }

  /** JavaScript truthiness (NaN is not modelled: numbers are reals). */
  predicate Truthy(v: JsValue) {
    match v
    case Undefined => false
    case Null => false
    case Bool(b) => b
    case Num(x) => x != 0.0
    case Str(s) => s != ""
    case Arr(_) => true
    case Obj(_) => true
  }
}
