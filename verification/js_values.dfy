/**
 * The little of JavaScript's untyped objects that the discount forms and cards rely on:
 * a payload is an object whose fields hold integers (every numeric form input goes through
 * `parseInt(...) || 0`) or strings (the category select), and a missing field reads as
 * `undefined`.
 */
module JsValues {
  import opened Wrappers

  /** A field value of a discount payload. */
  datatype Value = Int(n: int) | Str(s: string)

  /** A discount payload: a plain object keyed by field name. */
  type Payload = map<string, Value>

  /** Reading `payload?.field`: absent when the payload or the field is missing. */
  function Field(payload: Option<Payload>, field: string): (r: Option<Value>)
    ensures r.Some? <==> payload.Some? && field in payload.value
    ensures r.Some? ==> r.value == payload.value[field]
  {
    match payload
    case None => None
    case Some(p) => if field in p then Some(p[field]) else None
  }

  /** JavaScript truthiness of a field read: `undefined`, `0` and `""` are falsy, all else truthy. */
  predicate Truthy(v: Option<Value>) {
    match v
    case None => false
    case Some(Int(n)) => n != 0
    case Some(Str(s)) => s != []
  }

  /** The test `!x && x !== 0` fails to hold: `x` is truthy or is the number 0. */
  predicate TruthyOrZero(v: Option<Value>) {
    Truthy(v) || v == Some(Int(0))
  }

  /** Truthiness of a string-valued form field such as the discount code. */
  predicate NonEmpty(s: string) {
    s != []
  }
}
