/**
 * JavaScript values as the mock services and pages see them: the records
 * are plain objects, modelled as maps from property name to value, and
 * object spread `{ ...a, ...b }` is map union with the right side winning.
 */
module JsValues {
  import opened JsStrings

  /** The values that occur in the records: strings, integers, booleans,
      the two special numbers the code can produce, and `undefined`. */
  datatype Value = Str(s: string) | Int(i: int) | Bool(b: bool) | NaNValue | NegInfinity | Undefined

  type Record = map<string, Value>

  datatype Option<T> = None | Some(value: T)

  /** Property access `r.key`: `undefined` when the key is absent. */
  function Get(r: Record, key: string): (v: Value)
    ensures key !in r ==> v == Undefined
    ensures key in r ==> v == r[key]
  {
    if key in r then r[key] else Undefined
  }

  /** `a === b`: structural for strings, numbers and booleans, never for NaN. */
  predicate StrictEq(a: Value, b: Value)
  {
    a == b && !a.NaNValue?
  }

  /** A number: the only kind of value Math.max sees among the Ids. */
  predicate IsNumber(v: Value)
  {
    v.Int? || v.NaNValue? || v.NegInfinity?
  }

  /** The record field that holds a `parseInt` result. */
  function FromParsed(p: IntOrNaN): (v: Value)
    ensures p.Num? ==> v == Int(p.n)
    ensures p.NaN? ==> v == NaNValue
  {
    match p
    case Num(n) => Int(n)
    case NaN => NaNValue
  }

  /** JavaScript truthiness: "", 0, NaN, false and `undefined` are falsy. */
  predicate Truthy(v: Value)
  {
    match v
    case Str(s) => s != ""
    case Int(i) => i != 0
    case Bool(b) => b
    case NaNValue => false
    case NegInfinity => true
    case Undefined => false
  }

  /** The text of a string value; other values, which the forms never hold in text fields, give "". */
  function TextOf(v: Value): (s: string)
    ensures v.Str? ==> s == v.s
  {
    if v.Str? then v.s else ""
  }
}
