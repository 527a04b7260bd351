/**
 * The JavaScript values the route builder and the integer filter see: request data
 * and route-configuration data after JSON parsing.
 */
module JsValues {

  /** A JavaScript number other than NaN. `-0` is not distinguished from `0`. */
  datatype JsNumber = Finite(value: real) | Infinity(negative: bool)

  datatype JsValue =
    | Undefined
    | Null
    | Bool(b: bool)
    | Num(n: JsNumber)
    | NaN
    | Str(s: string)
    | Arr(elems: seq<JsValue>)
    | Obj(props: map<string, JsValue>)

  /** A plain JavaScript object, as a property map. */
  type Object = map<string, JsValue>

  /** JavaScript truthiness (the `ToBoolean` conversion used by `if (x)` and `&&`): every
      array and object is truthy, `undefined`, `null` and NaN never are. */
  predicate Truthy(v: JsValue)
    ensures (v.Arr? || v.Obj?) ==> Truthy(v)
    ensures (v.Undefined? || v.Null? || v.NaN?) ==> !Truthy(v)
  {
    match v
    case Undefined => false
    case Null => false
    case NaN => false
    case Bool(b) => b
    case Num(n) => n != Finite(0.0)
    case Str(s) => s != ""
    case Arr(_) => true
    case Obj(_) => true
  }

  /** Property read `o[key]`: an absent key reads as `undefined`. */
  function Get(o: Object, key: string): (v: JsValue)
    ensures key !in o ==> !Truthy(v)
    ensures key in o ==> v == o[key]
  {
    if key in o then o[key] else Undefined
  }
}
