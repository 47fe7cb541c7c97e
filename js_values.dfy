/**
 * The few JavaScript runtime notions the client relies on: absent values,
 * the dynamically typed values that flow through request bodies and
 * responses, truthiness (the `||` and `if (x)` tests of the source), and
 * the ordered key/value view of a plain object (`Object.entries`).
 */
module JsValues {

  /** `undefined` (or a key that is not there) versus a present value. */
  datatype Option<+T> = None | Some(value: T)

  /**
   * A JavaScript value as far as the client can tell values apart.
   * Numbers are integers here: NaN, fractions and -0 are not modelled.
   * Objects (Blob, FormData, parsed JSON, ...) are opaque and identified by a number.
   */
  datatype JsValue =
    | Undefined
    | Null
    | Bool(b: bool)
    | Number(n: int)
    | Str(s: string)
    | Object(id: nat)

  /** ToBoolean: what `if (v)`, `!v` and `v || d` test. */
  predicate Truthy(v: JsValue) {
    match v
    case Undefined => false
    case Null => false
    case Bool(b) => b
    case Number(n) => n != 0
    case Str(s) => s != ""
    case Object(_) => true
  }

  /**
   * The own enumerable properties of a plain object, in the order
   * `Object.entries` and `Object.keys` list them (the host orders
   * integer-like keys first; the model takes the order as given).
   */
  type Entries<V> = seq<(string, V)>

  /**
   * The position `Array.prototype.find` stops at: the first element the
   * test accepts, or the length when it accepts none.
   */
  function FindIndex<T>(xs: seq<T>, test: T -> bool): (k: nat)
    ensures k <= |xs|
    ensures k < |xs| ==> test(xs[k])
    ensures forall j :: 0 <= j < k ==> !test(xs[j])
    decreases |xs|
  {
    if xs == [] || test(xs[0]) then 0 else FindIndex(xs[1..], test) + 1
  }
}
