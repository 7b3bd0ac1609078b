/**
 * Python values as the settings code sees them: None, bool, int or str,
 * with Python's truthiness and `str()`.
 */
module Dynamic {
  import opened Decimal

  datatype Value = NoneV | BoolV(b: bool) | IntV(i: int) | StrV(s: string)

  /** Python's `bool(v)`. */
  predicate Truthy(v: Value) {
    match v
    case NoneV => false
    case BoolV(b) => b
    case IntV(i) => i != 0
    case StrV(s) => s != ""
  }

  /** Python's `str(v)`. */
  function Str(v: Value): string {
    match v
    case NoneV => "None"
    case BoolV(b) => if b then "True" else "False"
    case IntV(i) => IntToString(i)
    case StrV(s) => s
  }

  /** The idiom `x if x else default`, used for every stored setting with a default. */
  function OrDefault(v: Value, default: Value): (r: Value)
    ensures Truthy(v) ==> r == v
    ensures !Truthy(v) ==> r == default
  {
    if Truthy(v) then v else default
  }
}
