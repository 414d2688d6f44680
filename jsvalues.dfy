/**
  JavaScript values as the installer and its algorithms see them.

  Numbers are abstract IEEE doubles: the special values (NaN, the two
  infinities, the two zeros) are constructors of their own and every other
  number is an exact nonzero real.  Objects are plain bags of own enumerable
  properties; functions are opaque and identified by a number.  An array
  is an array-like object whose `length` is one of those own properties.
 */
module JsValues {

  datatype Option<T> = None | Some(value: T)

  /** The exceptions the modelled code raises or propagates. */
  datatype JsError = TypeError(message: string) | RangeError(message: string)

  datatype Result<T> = Ok(value: T) | Err(error: JsError)

  /** An abstract double; `Finite` never holds zero (zeros carry their sign). */
  datatype Num = NaN | Inf(neg: bool) | Zero(neg: bool) | Finite(r: real)

  type Number = n: Num | n.Finite? ==> n.r != 0.0 witness NaN

  datatype Value =
    | Undefined
    | Null
    | Boolean(b: bool)
    | Numeric(n: Number)
    | Str(s: string)
    | Function(id: nat)
    | Object(fields: map<string, Value>)

  /** The answers of the `typeof` operator. */
  datatype TypeTag = TUndefined | TObject | TBoolean | TNumber | TString | TFunction

  /** A call `callee.call(thisArg, ...args)` into code the model cannot see. */
  type Invoke = (Value, Value, seq<Value>) -> Value

  function TypeOf(v: Value): (t: TypeTag)
    ensures t == TObject <==> v.Null? || v.Object?
    ensures t == TFunction <==> v.Function?
  {
    match v
    case Undefined => TUndefined
    case Null => TObject
    case Boolean(_) => TBoolean
    case Numeric(_) => TNumber
    case Str(_) => TString
    case Function(_) => TFunction
    case Object(_) => TObject
  }

  /** ToBoolean: the falsy values are undefined, null, false, NaN, the zeros and "". */
  predicate Truthy(v: Value) {
    match v
    case Undefined => false
    case Null => false
    case Boolean(b) => b
    case Numeric(n) => !(n.NaN? || n.Zero?)
    case Str(s) => s != ""
    case Function(_) => true
    case Object(_) => true
  }

  /** `typeof func === "function"`; host reflection through Object.prototype.toString is not modelled. */
  predicate IsCallable(v: Value) {
    v.Function?
  }

  predicate IsNullish(v: Value) {
    v.Null? || v.Undefined?
  }

  /** The double holding the integer `i` (zero is +0). */
  function NumberOfInt(i: int): (n: Number)
    ensures i == 0 ==> n == Zero(false)
    ensures i != 0 ==> n == Finite(i as real)
  {
    if i == 0 then Zero(false) else Finite(i as real)
  }

  predicate IsDigit(c: char) {
    '0' <= c <= '9'
  }

  predicate AllDigits(s: string) {
    forall i :: 0 <= i < |s| ==> IsDigit(s[i])
  }

  /** The value of a string of decimal digits. */
  function DigitsValue(s: string): (n: nat)
    requires AllDigits(s)
  {
    if s == "" then 0
    else DigitsValue(s[..|s| - 1]) * 10 + (s[|s| - 1] as int - '0' as int)
  }

  /** ToNumber on the string forms the model understands: "" and plain decimal digits. */
  function StringToNumber(s: string): Number {
    if s == "" then Zero(false)
    else if AllDigits(s) then NumberOfInt(DigitsValue(s))
    else NaN
  }

  /** ToNumber (ECMA-262 section 7.1.3); objects and functions give NaN, without calling valueOf or toString. */
  function ToNumber(v: Value): Number {
    match v
    case Undefined => NaN
    case Null => Zero(false)
    case Boolean(b) => if b then Finite(1.0) else Zero(false)
    case Numeric(n) => n
    case Str(s) => StringToNumber(s)
    case Function(_) => NaN
    case Object(_) => NaN
  }

  function Digit(d: nat): (c: char)
    requires d < 10
    ensures IsDigit(c)
  {
    ('0' as int + d) as char
  }

  /** ToString of a non-negative integer: its decimal digits, no leading zero. */
  function NatToString(n: nat): (s: string)
    ensures |s| > 0 && AllDigits(s)
  {
    if n < 10 then [Digit(n)] else NatToString(n / 10) + [Digit(n % 10)]
  }

  function IntToString(i: int): (s: string) {
    if i < 0 then "-" + NatToString(-i) else NatToString(i)
  }

  /** The index `i < n` whose decimal form is `key`, if there is one. */
  function KeyIndex(key: string, n: nat): (r: Option<nat>)
    ensures r.Some? ==> r.value < n && NatToString(r.value) == key
    ensures r.None? ==> forall i :: 0 <= i < n ==> NatToString(i) != key
  {
    if n == 0 then None
    else if NatToString(n - 1) == key then Some(n - 1)
    else KeyIndex(key, n - 1)
  }

  /** The own enumerable properties `Object.keys` and `assign` see; primitives have none here. */
  function OwnFields(v: Value): map<string, Value> {
    if v.Object? then v.fields else map[]
  }

  /** `Object(v)[key]` for a non-nullish `v`: string wrappers expose their characters and length. */
  function Get(v: Value, key: string): Value {
    match v
    case Object(f) => if key in f then f[key] else Undefined
    case Str(s) =>
      (match KeyIndex(key, |s|)
       case Some(i) => Str([s[i]])
       case None => if key == "length" then Numeric(NumberOfInt(|s|)) else Undefined)
    case _ => Undefined
  }

  /** HasProperty on `Object(v)`, own properties only. */
  predicate HasProperty(v: Value, key: string) {
    match v
    case Object(f) => key in f
    case Str(s) => KeyIndex(key, |s|).Some? || key == "length"
    case _ => false
  }
}
