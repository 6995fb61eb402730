/** The JavaScript values that reach the application's handlers from JSON
    bodies, their truthiness, and the results of `parseFloat`. */
module Js {

  /** A value read from a parsed JSON body: a missing key reads as
      `Undefined`; an array or object is `Compound`, carrying the text that
      `String(value)` gives for it. */
  datatype JsValue =
    | Undefined
    | Null
    | Bool(b: bool)
    | Num(n: real)
    | Str(s: string)
    | Compound(text: string)

  /** JavaScript truthiness: `undefined`, `null`, `false`, `0` and `""` are falsy. */
  predicate Truthy(v: JsValue)
  {
    match v
    case Undefined => false
    case Null => false
    case Bool(b) => b
    case Num(n) => n != 0.0
    case Str(s) => s != ""
    case Compound(_) => true
  }

  /** A `parseFloat` result: `NaN`, or a finite number. */
  datatype Float = NaN | Fin(r: real)

  /** `x || 0` on a `parseFloat` result: `NaN` and `0` both become `0`. */
  function OrZero(x: Float): (r: real)
    ensures x.Fin? && x.r != 0.0 ==> r == x.r
    ensures x.NaN? || x.r == 0.0 ==> r == 0.0
  {
    match x
    case NaN => 0.0
    case Fin(v) => v
  }

  /** `parseFloat(v)`: the argument is converted to text first; the decimal
      prefix parser on text is the parameter `parseText`. A number converts
      to text that reads back as itself. */
  function ParseFloat(v: JsValue, parseText: string -> Float): (r: Float)
    ensures v.Num? ==> r == Fin(v.n)
    ensures v.Undefined? || v.Null? || v.Bool? ==> r == NaN
    ensures v.Str? ==> r == parseText(v.s)
  {
    match v
    case Num(n) => Fin(n)
    case Str(s) => parseText(s)
    case Compound(t) => parseText(t)
    case _ => NaN
  }

  /** A browser `File`: its name and declared MIME type. */
  datatype File = File(name: string, mimeType: string)
}
