/** JavaScript values as the pinch-zoom component reads them out of its option objects. */
module JsValues {

  /** The conventional Some/None datatype; None stands for JavaScript's `undefined` result. */
  datatype Option<+T> = None | Some(value: T)

  /**
   * A JavaScript value. Plain objects are modelled by their own enumerable
   * properties; NaN, symbols and functions are not distinguished.
   */
  datatype Value =
    | Undefined
    | Null
    | Bool(b: bool)
    | Num(n: real)
    | Str(s: string)
    | Obj(fields: map<string, Value>)

  /** An option object, such as the component's `properties`: property name to value. */
  type Options = map<string, Value>

  /** JavaScript's ToBoolean: undefined, null, false, 0 and "" are falsy, every object is truthy. */
  predicate Truthy(v: Value) {
    match v
    case Undefined => false
    case Null => false
    case Bool(b) => b
    case Num(n) => n != 0.0
    case Str(s) => s != ""
    case Obj(_) => true
  }

  /** A property read `o[key]`: a missing property reads as undefined. */
  function Get(o: Options, key: string): Value {
    if key in o then o[key] else Undefined
  }
}
