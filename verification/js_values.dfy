/**
 * The JavaScript values that travel through the query layer's parameter
 * conversion, with JavaScript's truthiness and `typeof` tests.
 */
module JsValues {

  /**
   * A JavaScript value, as far as the query layer tells values apart.
   * Numbers and dates are carried as opaque reals: no arithmetic happens on
   * them in this layer. `NaN` is separate because, besides zero, it is the
   * one falsy number.
   */
  datatype JsValue =
    | Undefined
    | Null
    | Bool(b: bool)
    | Num(n: real)
    | NaN
    | Str(s: string)
    | Date(time: real)
    | Arr(elems: seq<JsValue>)
    | Obj(props: map<string, JsValue>)

  /** JavaScript truthiness: `undefined`, `null`, `false`, `0`, `NaN` and `''` are falsy; every object is truthy. */
  predicate Truthy(v: JsValue) {
    match v
    case Undefined => false
    case Null => false
    case Bool(b) => b
    case Num(n) => n != 0.0
    case NaN => false
    case Str(s) => s != ""
    case _ => true
  }

  /** `typeof v === 'object'`: `null`, arrays, dates and plain objects. */
  predicate IsObjectType(v: JsValue) {
    v.Null? || v.Date? || v.Arr? || v.Obj?
  }

  /** Property lookup `props[key]` on a plain object: `undefined` when the key is absent. */
  function Get(props: map<string, JsValue>, key: string): JsValue {
    if key in props then props[key] else Undefined
  }

  /** Property lookup `v[key]` on a truthy object; an array or a date has no own property of that name here. */
  function Property(v: JsValue, key: string): JsValue {
    if v.Obj? then Get(v.props, key) else Undefined
  }
}
