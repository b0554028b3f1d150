/** The few JavaScript value shapes the engine inspects: truthiness, `typeof`,
    `err.message || err`, and the number an array turns into under `-`. */
module JsValues {
  datatype JsVal =
    | Undefined
    | Null
    | Bool(b: bool)
    | Num(n: int)
    | Str(s: string)
    | Obj
    | Fun
    | Error(message: string)

  /** JavaScript truthiness. */
  predicate Truthy(v: JsVal) {
    match v
    case Undefined => false
    case Null => false
    case Bool(b) => b
    case Num(n) => n != 0
    case Str(s) => s != ""
    case _ => true
  }

  /** The `typeof` operator. */
  function TypeOf(v: JsVal): (t: string)
    ensures t == "function" <==> v.Fun?
    ensures t == "undefined" <==> v.Undefined?
    ensures t == "object" <==> v.Null? || v.Obj? || v.Error?
  {
    match v
    case Undefined => "undefined"
    case Null => "object"
    case Bool(_) => "boolean"
    case Num(_) => "number"
    case Str(_) => "string"
    case Obj => "object"
    case Fun => "function"
    case Error(_) => "object"
  }

  /** `err.message || err`: the text put into an error report. */
  function ErrDetail(err: JsVal): (d: JsVal)
    ensures Truthy(err) ==> Truthy(d)
    ensures err.Error? && err.message != "" ==> d == Str(err.message)
    ensures !(err.Error? && err.message != "") ==> d == err
  {
    if err.Error? && err.message != "" then Str(err.message) else err
  }

  /** A JavaScript number as far as the engine's arithmetic needs it. */
  datatype JsNumber = NaN | Finite(value: int)

  predicate IsDigit(c: char) {
    '0' <= c <= '9'
  }

  predicate AllDigits(s: string) {
    forall i :: 0 <= i < |s| ==> IsDigit(s[i])
  }

  /** The decimal value of a string of digits. */
  function DecimalValue(s: string): (n: nat)
    requires AllDigits(s)
    ensures s == [] ==> n == 0
    ensures |s| == 1 ==> n == s[0] as int - '0' as int
  {
    if s == [] then 0
    else DecimalValue(s[..|s| - 1]) * 10 + (s[|s| - 1] as int - '0' as int)
  }

  /** `Number(a)` for an array of names: the number of `a.join(',')`.
      The empty array is 0; two or more names give text with a comma,
      which is never numeric; one name is read as a plain decimal numeral. */
  function ArrayToNumber(a: seq<string>): (r: JsNumber)
    ensures |a| >= 2 ==> r == NaN
    ensures a == [] ==> r == Finite(0)
    ensures |a| == 1 ==> r == (if AllDigits(a[0]) then Finite(DecimalValue(a[0])) else NaN)
    ensures r.Finite? ==> r.value >= 0
  {
    if a == [] then Finite(0)
    else if |a| >= 2 then NaN
    else if AllDigits(a[0]) then Finite(DecimalValue(a[0]))
    else NaN
  }

  /** `x - y` for an integer `x`. */
  function Minus(x: int, y: JsNumber): (r: JsNumber)
    ensures r.NaN? <==> y.NaN?
    ensures r.Finite? ==> r.value + y.value == x
  {
    match y
    case NaN => NaN
    case Finite(k) => Finite(x - k)
  }

  /** Truthiness of a number: NaN and 0 are falsy. */
  predicate NumberTruthy(n: JsNumber) {
    n.Finite? && n.value != 0
  }
}
