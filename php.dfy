/** PHP and Laravel notions the controllers rely on, over the Js.Value
    shapes: truthiness, string conversion, reading a request field, and what
    the `required` rule accepts. */
module Php {
  import opened Strings
  import opened Js

  /** PHP truthiness, as `$x ? a : b` tests it: '0', '', 0, null, false and
      the empty array are false. */
  predicate PhpTruthy(v: Value)
  {
    match v
    case Undefined => false
    case Null => false
    case Bool(b) => b
    case Num(n) => n != 0
    case Str(s) => s != "" && s != "0"
    case Arr(e) => |e| > 0
    case Obj(f) => |f| > 0
  }

  /** `$request->field`: a field the request does not carry reads as null. */
  function Input(req: Record, field: string): Value
  {
    if field in req && !req[field].Undefined? then req[field] else Null
  }

  /** PHP's string conversion of a scalar (arrays are not converted here). */
  function PhpString(v: Value): string
  {
    match v
    case Str(s) => s
    case Num(n) => IntToString(n)
    case Bool(b) => if b then "1" else ""
    case _ => ""
  }

  /** The characters PHP's `trim` strips by default: space, tab, line feed,
      carriage return, NUL and vertical tab. Other Unicode spaces, such as
      the no-break space, are kept. */
  predicate PhpSpace(c: char)
  {
    c == ' ' || c == '\t' || c == '\n' || c == '\r' || c as int == 0 || c as int == 11
  }

  /** `trim($s) === ''`: every character is one `trim` strips. */
  predicate PhpBlank(s: string)
  {
    forall i :: 0 <= i < |s| ==> PhpSpace(s[i])
  }

  /** A JSON array or a JSON object: the request decodes both to a PHP
      array, so both pass the `array` rule and `is_array`. */
  predicate IsPhpArray(v: Value)
  {
    v.Arr? || v.Obj?
  }

  /** The values of such an array: the elements of a list, the member values
      of an object; other values have none. */
  function ArrayValues(v: Value): (r: set<Value>)
    ensures v.Arr? ==> forall x :: x in r <==> x in v.elems
    ensures v.Obj? ==> forall x :: x in r <==> exists k :: k in v.fields && v.fields[k] == x
    ensures !IsPhpArray(v) ==> r == {}
  {
    match v
    case Arr(e) => set x | x in e
    case Obj(f) => f.Values
    case _ => {}
  }

  /** The `required` rule: present, not null, not a string that trims to
      '', not an empty array; an empty JSON object reaches PHP as an empty
      array too, so it fails as well. */
  predicate Filled(v: Value)
  {
    !v.Undefined? && !v.Null? && !(v.Str? && PhpBlank(v.s))
    && !(v.Arr? && v.elems == []) && !(v.Obj? && v.fields == map[])
  }

  /** A string passes `required` exactly when it has a character `trim`
      keeps; '0' passes, unlike PHP truthiness, a no-break space passes and
      a NUL does not. */
  lemma FilledString(s: string)
    ensures Filled(Str(s)) <==> exists i :: 0 <= i < |s| && !PhpSpace(s[i])
    ensures Filled(Str("0")) && !PhpTruthy(Str("0"))
    ensures Filled(Str("\U{00A0}")) && !Filled(Str("\0"))
  {
    assert !PhpSpace("0"[0]);
    assert !PhpSpace("\U{00A0}"[0]);
  }
}
