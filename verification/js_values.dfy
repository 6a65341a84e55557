/**
  JavaScript values as the handler and the page see them: a property that may be
  `null` or `undefined`, and the truthiness tests `??`, `||` and `filter(Boolean)`
  apply to strings.
 */
module JsValues {

  /** A property that may be `null` or `undefined`; `??` and `?.` treat both alike. */
  datatype Nullable<+T> = Nullish | Value(value: T)

  /** JavaScript truthiness of an optional string: nullish and `""` are falsy. */
  predicate Truthy(v: Nullable<string>) {
    v.Value? && v.value != ""
  }

  /** `v ?? d`: the default replaces only `null` and `undefined`. */
  function Coalesce<T>(v: Nullable<T>, d: T): T {
    match v
    case Value(x) => x
    case Nullish => d
  }

  /** `v || d` on a string property: the default replaces every falsy value. */
  function OrElse(v: Nullable<string>, d: string): string {
    if Truthy(v) then v.value else d
  }

  /** `vs.filter(Boolean)`: the truthy strings, in order. */
  function FilterTruthy(vs: seq<Nullable<string>>): (r: seq<string>)
    ensures |r| <= |vs|
    ensures forall k :: 0 <= k < |r| ==> r[k] != ""
  {
    if vs == [] then []
    else if Truthy(vs[0]) then [vs[0].value] + FilterTruthy(vs[1..])
    else FilterTruthy(vs[1..])
  }

  /** `parts.join(sep)`. */
  function Join(parts: seq<string>, sep: string): string {
    if parts == [] then ""
    else if |parts| == 1 then parts[0]
    else parts[0] + sep + Join(parts[1..], sep)
  }
}
