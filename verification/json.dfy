/**
 * The JavaScript values a JSON request body can carry, and the parts of the
 * language's semantics the handlers rely on: reading a property that may be
 * missing, and the truthiness test behind the `a || b` default idiom.
 */
module Json {

  /** A JavaScript value. Numbers are read as reals; JSON never yields NaN. */
  datatype Value =
    | Undefined
    | Null
    | Bool(b: bool)
    | Num(x: real)
    | Str(s: string)
    | Arr(items: seq<Value>)
    | Obj(fields: map<string, Value>)

  /** A plain object: an appointment record or a parsed request body. */
  type Record = map<string, Value>

  /** `o[k]`: a property that is absent reads as `undefined`. */
  function Field(o: Record, k: string): (v: Value)
    ensures k in o ==> v == o[k]
    ensures k !in o ==> v == Undefined
  {
    if k in o then o[k] else Undefined
  }

  /** JavaScript falsiness restricted to the values above: undefined, null, false, 0 and "". */
  predicate Falsy(v: Value): (b: bool)
    ensures v.Undefined? || v.Null? ==> b
    ensures v.Bool? ==> (b <==> !v.b)
    ensures v.Num? ==> (b <==> v.x == 0.0)
    ensures v.Str? ==> (b <==> |v.s| == 0)
    ensures v.Arr? || v.Obj? ==> !b
  {
    v == Undefined || v == Null || v == Bool(false) || v == Num(0.0) || v == Str("")
  }

  predicate Truthy(v: Value) {
    !Falsy(v)
  }

  /** `a || b`: `a` when it is truthy, otherwise `b`. */
  function Or(a: Value, b: Value): (r: Value)
    ensures Truthy(a) ==> r == a
    ensures Falsy(a) ==> r == b
    ensures Truthy(r) <==> Truthy(a) || Truthy(b)
  {
    if Truthy(a) then a else b
  }
}
