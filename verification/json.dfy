/** The JavaScript values a parsed JSON request body can hold, with the two
    JavaScript notions the request validation relies on: truthiness and
    property access. NaN and the infinities are not modelled. */
module Json {

  datatype Value =
    | Undefined
    | Null
    | Bool(b: bool)
    | Num(n: real)
    | Str(s: string)
    | Arr(items: seq<Value>)
    | Obj(fields: map<string, Value>)

  /** JavaScript truthiness: `undefined`, `null`, `false`, `0` and `""`
      are falsy; every array and object is truthy. */
  predicate Truthy(v: Value)
  {
    match v
    case Undefined => false
    case Null => false
    case Bool(b) => b
    case Num(n) => n != 0.0
    case Str(s) => s != ""
    case Arr(_) => true
    case Obj(_) => true
  }

  /** `v.key`. Reading a property of `undefined` or `null` throws, so the
      caller must rule those out; a property that is not there reads as
      `undefined`, also on numbers, strings and arrays. */
  function Get(v: Value, key: string): Value
    requires !v.Undefined? && !v.Null?
  {
    if v.Obj? && key in v.fields then v.fields[key] else Undefined
  }

  /** `typeof v === 'number'`. */
  predicate IsNumber(v: Value)
  {
    v.Num?
  }
}
