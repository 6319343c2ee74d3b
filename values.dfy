/**
  The JavaScript values that the handlers receive in request bodies and
  store in their records, and the truthiness test that every `!field`
  validation in the handlers relies on.
 */
module Values {

  datatype Option<+T> = None | Some(value: T)

  /** A JSON/JavaScript scalar as it arrives in a parsed request body.
      A field the body does not mention reads as `Undefined`. */
  datatype Val = Undefined | Null | Bool(b: bool) | Num(n: int) | Str(s: string)

  /** JavaScript truthiness: `undefined`, `null`, `false`, `0` and `""` are falsy. */
  predicate Truthy(v: Val) {
    match v
    case Undefined => false
    case Null => false
    case Bool(b) => b
    case Num(n) => n != 0
    case Str(s) => s != ""
  }

  /** `x || fallback` for a value that is a string when present. */
  function OrElse(x: Option<string>, fallback: string): string
  {
    if x.Some? && x.value != "" then x.value else fallback
  }

  /** Truthiness of an optional string (a path parameter, a claim, a query parameter). */
  predicate Present(x: Option<string>) {
    x.Some? && x.value != ""
  }
}
