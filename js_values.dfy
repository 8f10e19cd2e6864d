/** JSON-shaped values as the pages receive them from the server, with the
    JavaScript notions the pages use on them: truthiness, `??`, property access. */
module Js {

  /** A JavaScript value. Numbers are integers: a decimal such as a price
      of 19.99 has no value here. NaN is never produced by the modelled code
      paths except through parseInt, which the Strings module models separately. */
  datatype Value =
    | Undefined
    | Null
    | Bool(b: bool)
    | Num(n: int)
    | Str(s: string)
    | Arr(elems: seq<Value>)
    | Obj(fields: map<string, Value>)

  /** A plain object, such as a row the server sent: a missing key reads as undefined. */
  type Record = map<string, Value>

  /** JavaScript truthiness, as `if (v)`, `v ? a : b` and `v || d` test it. */
  predicate Truthy(v: Value)
  {
    match v
    case Undefined => false
    case Null => false
    case Bool(b) => b
    case Num(n) => n != 0
    case Str(s) => s != ""
    case Arr(_) => true
    case Obj(_) => true
  }

  /** null or undefined: the values `?.` and `??` stop at. */
  predicate Nullish(v: Value)
  {
    v.Undefined? || v.Null?
  }

  /** `rec[key]` */
  function Get(rec: Record, key: string): Value
  {
    if key in rec then rec[key] else Undefined
  }

  /** `v?.[key]`: property access that stops at null/undefined. Properties of
      strings, arrays and other primitives are not modelled (they read as undefined). */
  function Member(v: Value, key: string): Value
  {
    if v.Obj? && key in v.fields then v.fields[key] else Undefined
  }

  /** `a || b` */
  function Or(a: Value, b: Value): Value
  {
    if Truthy(a) then a else b
  }

  /** `a ?? b` */
  function Coalesce(a: Value, b: Value): Value
  {
    if Nullish(a) then b else a
  }

  /** `a || b` yields a truthy value whenever the fallback b is truthy. */
  lemma OrTruthy(a: Value, b: Value)
    requires Truthy(b)
    ensures Truthy(Or(a, b))
  {
  }
}
