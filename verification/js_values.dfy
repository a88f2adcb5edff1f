/**
  JavaScript values as the product-listing utilities see them, with the
  language's notion of truthiness and its short-circuit `||` operator.
  Numbers are integers here: the values this code handles are page numbers,
  limits, totals and identifiers, and NaN is not one of them.
 */
module JsValues {

  datatype Option<+T> = None | Some(value: T)

  /** A JavaScript value. `Obj` stands for any object or array, identified
      by an opaque reference; every object is truthy, even an empty array. */
  datatype JsValue =
    | Undefined
    | Null
    | Bool(b: bool)
    | Num(n: int)
    | Str(s: string)
    | Obj(ref: nat)

  /** JavaScript truthiness: `undefined`, `null`, `false`, `0` and `''`
      are the falsy values. */
  predicate Truthy(v: JsValue) {
    match v
    case Undefined => false
    case Null => false
    case Bool(b) => b
    case Num(n) => n != 0
    case Str(s) => s != ""
    case Obj(_) => true
  }

  /** Neither `undefined` nor `null`. */
  predicate Defined(v: JsValue) {
    !v.Undefined? && !v.Null?
  }

  /** `a || b`: the first operand when it is truthy, else the second. */
  function Or(a: JsValue, b: JsValue): JsValue {
    if Truthy(a) then a else b
  }

  /** A string read from the DOM that may be missing, as produced by
      optional chaining (`element?.value`). */
  function OptionalStr(s: Option<string>): JsValue {
    match s
    case None => Undefined
    case Some(v) => Str(v)
  }

  /** A numeric global that may be unset (`undefined`). */
  function OptionalNum(n: Option<int>): JsValue {
    match n
    case None => Undefined
    case Some(v) => Num(v)
  }
}
