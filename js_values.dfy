/** The JavaScript values the `/rss` handler reads from a request or from a parsed feed. */
module JsValues {

  /** A property that is missing (`undefined`), `null`, or a string. */
  datatype Value = Undefined | Null | Str(s: string)

  /** A conventional optional value, for lookups that may find nothing. */
  datatype Option<T> = None | Some(value: T)

  /** JavaScript truthiness on these values: only a non-empty string is truthy. */
  predicate Truthy(v: Value)
  {
    v.Str? && v.s != ""
  }

  /** `a || b`: the first operand when it is truthy, otherwise the second. */
  function Or(a: Value, b: Value): Value
  {
    if Truthy(a) then a else b
  }

  /** `String(v)`, which is what a template literal `${v}` inserts. */
  function ToStr(v: Value): string
  {
    match v
    case Undefined => "undefined"
    case Null => "null"
    case Str(s) => s
  }
}
