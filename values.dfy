/** Scalars as the extractors and the database hand them over: Python's
    `None`, a `str` or an `int`, with `str()` and truthiness. */
module Values {
  import opened Numeric

  datatype Value = Null | Str(s: string) | Int(i: int)

  /** Python's `str(v)`. */
  function ToStr(v: Value): string {
    match v
    case Null => "None"
    case Str(s) => s
    case Int(i) => IntToString(i)
  }

  /** Python truthiness: `None`, `""` and `0` are false. */
  predicate Truthy(v: Value) {
    match v
    case Null => false
    case Str(s) => s != []
    case Int(i) => i != 0
  }

  /** `str(v or "")`: a missing or empty value becomes the empty string and
      every other value its string form. */
  function OrEmpty(v: Value): (r: string)
    ensures r == "" <==> !Truthy(v)
    ensures Truthy(v) ==> r == ToStr(v)
  {
    if Truthy(v) then ToStr(v) else ""
  }
}
