/**
 * Parsed JSON as JavaScript sees it, with the truthiness, property access and
 * `Math.round` rules that the modelled handlers and validators use.
 */
module JsValue {

  /**
   * A JavaScript value that can come out of `JSON.parse` or be passed to the
   * validators. Finite numbers are reals; NaN and the infinities carry a tag.
   */
  datatype Value =
    | Undefined
    | Null
    | Bool(b: bool)
    | Num(x: real)
    | NonFinite(isNaN: bool)
    | Str(s: string)
    | Arr(items: seq<Value>)
    | Obj(props: map<string, Value>)

  /** JavaScript truthiness: `false`, `0`, `NaN`, `""`, `null` and `undefined` are falsy. */
  predicate Truthy(v: Value)
  {
    match v
    case Undefined => false
    case Null => false
    case Bool(b) => b
    case Num(x) => x != 0.0
    case NonFinite(isNaN) => !isNaN
    case Str(s) => s != ""
    case Arr(_) => true
    case Obj(_) => true
  }

  /** `v[key]` for a value that is neither `null` nor `undefined`; missing keys read as `undefined`. */
  function Prop(v: Value, key: string): (r: Value)
    ensures !v.Obj? ==> r == Undefined
    ensures v.Obj? && key !in v.props ==> r == Undefined
  {
    if v.Obj? && key in v.props then v.props[key] else Undefined
  }

  /** `a || b` */
  function Or(a: Value, b: Value): (r: Value)
    ensures Truthy(a) ==> r == a
    ensures !Truthy(a) ==> r == b
  {
    if Truthy(a) then a else b
  }

  /** `Math.round(x)` on a finite number: the nearest integer, halves rounded up. */
  function RoundHalfUp(x: real): (n: int)
    ensures n as real - 0.5 <= x < n as real + 0.5
  {
    (x + 0.5).Floor
  }

  /** Rounding a number inside integer bounds stays inside them. */
  lemma RoundStaysInBounds(x: real, lo: int, hi: int)
    requires lo as real <= x <= hi as real
    ensures lo <= RoundHalfUp(x) <= hi
  {
  }

  /** The rounding examples that the game-state tests pin down. */
  lemma RoundExamples()
    ensures RoundHalfUp(5.7) == 6 && RoundHalfUp(3.4) == 3 && RoundHalfUp(2.6) == 3
    ensures RoundHalfUp(2.5) == 3
  {
  }
}
