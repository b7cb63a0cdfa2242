/** JavaScript values as the services see them in Airtable record fields and
    request parameters, with the truthiness rules that `||`, `!` and `Boolean`
    apply to them. */
module JsValues {

  datatype Option<+T> = None | Some(value: T)

  /** A field value. An absent key of a fields map stands for `undefined`;
      `Other` is an object or an array (always truthy, has no string methods). */
  datatype Value =
    | Bool(b: bool)
    | Num(n: real)
    | Str(s: string)
    | Null
    | Other

  /** The outcome of a JavaScript expression that may throw. */
  datatype Completion<+T> = Normal(value: T) | Throw(message: string)

  /** `Boolean(v)`: false, 0, "" and null are falsy; objects are truthy. */
  predicate Truthy(v: Value) {
    match v
    case Bool(b) => b
    case Num(n) => n != 0.0
    case Str(s) => s != ""
    case Null => false
    case Other => true
  }

  /** `a || b` on values. */
  function Or(a: Value, b: Value): (r: Value)
    ensures Truthy(a) ==> r == a
    ensures !Truthy(a) ==> r == b
  {
    if Truthy(a) then a else b
  }

  /** An optional string (`string | undefined`) is truthy when present and non-empty. */
  predicate PresentText(s: Option<string>) {
    s.Some? && s.value != ""
  }
}
