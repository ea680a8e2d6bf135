/** The JavaScript values that reach the controllers' entry points, reduced to the
    distinctions their guards make: `typeof x === 'number'`, truthiness (`!x`),
    `x === null` and `x instanceof HTMLElement`. Numbers are kept as reals, so the
    guards can be stated without floating point; NaN and the infinities are
    separate cases because they behave differently under `!x`. */
module JsValues {

  /** A value passed as `columns`. */
  datatype JsValue =
    | Finite(x: real)           // any finite number, -0 included (it equals 0)
    | Infinity(negative: bool)  // Infinity or -Infinity
    | NaN
    | Null
    | Undefined
    | NonNumber(truthy: bool)   // a string, boolean, object, function, bigint or symbol

  /** `typeof v === 'number'` */
  predicate TypeofNumber(v: JsValue) {
    v.Finite? || v.Infinity? || v.NaN?
  }

  /** `!!v`: the falsy numbers are 0, -0 and NaN; null and undefined are falsy. */
  predicate Truthy(v: JsValue) {
    match v
    case Finite(x) => x != 0.0
    case Infinity(_) => true
    case NaN => false
    case Null => false
    case Undefined => false
    case NonNumber(t) => t
  }

  /** A value passed as the gallery's container element. `Nullish` is null or
      undefined; every object is truthy, and whether it is an HTMLElement is a
      property of the object that the model takes as given. */
  datatype ElementArg =
    | Nullish
    | Object(id: nat, isHTMLElement: bool)

  /** `e instanceof HTMLElement` */
  predicate IsHTMLElement(e: ElementArg) {
    e.Object? && e.isHTMLElement
  }

  /** `!!e` */
  predicate ElementTruthy(e: ElementArg) {
    e.Object?
  }

  /** What a `throw` carries: an `Error` raised by the code itself, or the
      `TypeError` the engine raises for a property access on undefined or a call
      of something that is not a function. */
  datatype JsError =
    | Error(message: string)
    | TypeError(message: string)

  /** How a call that returns nothing ends: normally or by a throw. */
  datatype Completion = Normal | Throw(error: JsError)

  /** How a call that returns a value ends. */
  datatype Result<T> = Value(value: T) | Thrown(error: JsError)
}
