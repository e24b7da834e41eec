/** JavaScript value conventions the handlers lean on: an optional request
    field, and the truthiness tests (`if (x)`, `x || null`) applied to it. */
module JsValues {

  /** A request field that may be absent (`undefined`). */
  datatype Option<+T> = None | Some(value: T)

  /** A loosely typed request-body value, as `req.body[field]` can hold it.
      Arrays and nested objects are not modelled. */
  datatype Value = Str(s: string) | Num(n: int) | Bool(b: bool) | Null

  /** JavaScript truthiness of an optional string: present and not "". */
  predicate Present(o: Option<string>) {
    o.Some? && o.value != ""
  }

  /** JavaScript truthiness of an optional number: present and not 0. */
  predicate PresentNum(o: Option<int>) {
    o.Some? && o.value != 0
  }

  /** `x || null` on an optional string: "" and absent both become null. */
  function OrNull(o: Option<string>): (r: Option<string>)
    ensures r.Some? <==> Present(o)
    ensures r.Some? ==> r == o
  {
    if Present(o) then o else None
  }

  /** `x || fallback` on an optional string. */
  function OrElse(o: Option<string>, fallback: string): (r: string)
    ensures Present(o) ==> r == o.value
    ensures !Present(o) ==> r == fallback
  {
    if Present(o) then o.value else fallback
  }

  /** JavaScript truthiness of a body value (`!!x`). */
  predicate Truthy(v: Value) {
    match v
    case Str(s) => s != ""
    case Num(n) => n != 0
    case Bool(b) => b
    case Null => false
  }
}
