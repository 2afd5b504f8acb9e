/** A small model of the JavaScript values that reach the front end from the
    chat provider: primitives, arrays and plain objects. Only the operations
    the renderer and the response handling use are defined here: truthiness,
    property access and the `||` operator. */
module JsValues {

  datatype Value =
    | Undefined
    | Null
    | Bool(bval: bool)
    | Num(nval: real)
    | NaN
    | Str(sval: string)
    | Arr(elems: seq<Value>)
    | Obj(props: map<string, Value>)

  /** JavaScript's truthiness: `undefined`, `null`, `false`, `0`, `NaN` and `""` are falsy. */
  predicate Truthy(v: Value) {
    match v
    case Undefined => false
    case Null => false
    case Bool(b) => b
    case Num(n) => n != 0.0
    case NaN => false
    case Str(s) => s != ""
    case Arr(_) => true
    case Obj(_) => true
  }

  /** `typeof v === 'object'` (which includes `null` and arrays). */
  predicate IsObjectType(v: Value) {
    v.Null? || v.Arr? || v.Obj?
  }

  /** `v?.name` for the property names the front end reads; none of them is an
      inherited property of strings, arrays or plain objects, so every value
      other than an object holding the key yields `undefined`. */
  function Property(v: Value, name: string): (r: Value)
    ensures !v.Obj? ==> r == Undefined
    ensures v.Obj? && name !in v.props ==> r == Undefined
    ensures v.Obj? && name in v.props ==> r == v.props[name]
  {
    match v
    case Obj(props) => if name in props then props[name] else Undefined
    case _ => Undefined
  }

  /** `a || b`: the left operand when it is truthy, otherwise the right one. */
  function Or(a: Value, b: Value): Value {
    if Truthy(a) then a else b
  }
}
