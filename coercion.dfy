/**
  The numeric coercions of polyfill_global.js: `toInteger`, `toLength`, and
  the clamping to `[0, hi]` that the string built-ins apply to positions.
 */
module Coercion {
  import opened JsValues

  /** Number.MAX_SAFE_INTEGER, 2^53 - 1. */
  const MaxSafeInteger: nat := 0x1F_FFFF_FFFF_FFFF

  function Abs(x: real): real {
    if x < 0.0 then -x else x
  }

  function Min(a: int, b: int): int {
    if a <= b then a else b
  }

  function Max(a: int, b: int): int {
    if a >= b then a else b
  }

  predicate IsIntegral(x: real) {
    x == x.Floor as real
  }

  /**
    `toInteger`: NaN becomes +0, zeros and infinities are returned as they
    are, and any other number is truncated toward zero, keeping its sign (a
    negative fraction becomes -0).
   */
  function ToInteger(n: Number): (t: Number)
    ensures n.NaN? ==> t == Zero(false)
    ensures n.Zero? || n.Inf? ==> t == n
    ensures n.Finite? && -1.0 < n.r < 1.0 ==> t == Zero(n.r < 0.0)
    ensures n.Finite? && n.r >= 1.0 ==>
      t.Finite? && IsIntegral(t.r) && 1.0 <= t.r <= n.r < t.r + 1.0
    ensures n.Finite? && n.r <= -1.0 ==>
      t.Finite? && IsIntegral(t.r) && t.r - 1.0 < n.r <= t.r <= -1.0
  {
    match n
    case NaN => Zero(false)
    case Zero(_) => n
    case Inf(_) => n
    case Finite(x) =>
      var f := Abs(x).Floor;
      FloorFacts(Abs(x));
      if f == 0 then Zero(x < 0.0)
      else if x > 0.0 then Finite(f as real)
      else Finite(-(f as real))
  }

  lemma FloorFacts(y: real)
    ensures y.Floor as real <= y < y.Floor as real + 1.0
    ensures IsIntegral(y.Floor as real) && IsIntegral(-(y.Floor as real))
  {
    IntegralOfInt(y.Floor);
    IntegralOfInt(-y.Floor);
    assert -(y.Floor as real) == (-y.Floor) as real;
  }

  lemma IntegralOfInt(k: int)
    ensures IsIntegral(k as real)
  {
  }

  /** toInteger never grows a number and never flips its sign. */
  lemma TruncationShrinks(n: Number)
    requires n.Finite?
    ensures var t := ToInteger(n);
      (t.Zero? && t.neg == (n.r < 0.0)) ||
      (t.Finite? && Abs(t.r) <= Abs(n.r) && (t.r < 0.0 <==> n.r < 0.0))
  {
  }

  /** min(max(toInteger(n), 0), hi), the clamping step of toLength and of string positions. */
  function Clamp(n: Number, hi: nat): (r: nat)
    ensures r <= hi
    ensures n.Finite? && n.r >= 0.0 ==> r == Min(n.r.Floor, hi)
    ensures n.Finite? && n.r < 0.0 ==> r == 0
    ensures n.NaN? || n.Zero? || n == Inf(true) ==> r == 0
    ensures n == Inf(false) ==> r == hi
  {
    match ToInteger(n)
    case NaN => 0
    case Zero(_) => 0
    case Inf(neg) => if neg then 0 else hi
    case Finite(y) => if y < 0.0 then 0 else Min(y.Floor, hi)
  }

  /** `toLength`: the length an array-like with this `length` value is read with. */
  function ToLength(n: Number): (r: nat)
    ensures r <= MaxSafeInteger
  {
    Clamp(n, MaxSafeInteger)
  }

  /** toLength agrees with toInteger on every value already in range, and saturates outside it. */
  lemma ToLengthInRange(n: Number)
    ensures var t := ToInteger(n);
      (t.Finite? && 0.0 < t.r <= MaxSafeInteger as real ==> ToLength(n) as real == t.r) &&
      (t.Zero? ==> ToLength(n) == 0) &&
      ((t.Finite? && t.r < 0.0) || t == Inf(true) ==> ToLength(n) == 0) &&
      ((t.Finite? && t.r > MaxSafeInteger as real) || t == Inf(false) ==> ToLength(n) == MaxSafeInteger)
  {
  }

  /** On an integer, toLength is the integer clamped into [0, 2^53 - 1]. */
  lemma ToLengthOfInt(k: int)
    ensures ToLength(NumberOfInt(k)) == Min(Max(k, 0), MaxSafeInteger)
  {
  }

  /** The subtraction `n - k` of a double and a non-negative integer, on exact reals. */
  function Sub(n: Number, k: nat): (d: Number)
    ensures n.NaN? ==> d.NaN?
    ensures n.Inf? ==> d == n
    ensures n.Zero? ==> d == if k == 0 then n else Finite(-(k as real))
    ensures n.Finite? && n.r != k as real ==> d == Finite(n.r - k as real)
    ensures n.Finite? && n.r == k as real ==> d == Zero(false)
  {
    match n
    case NaN => NaN
    case Inf(_) => n
    case Zero(_) => if k == 0 then n else Finite(-(k as real))
    case Finite(x) => if x - k as real == 0.0 then Zero(false) else Finite(x - k as real)
  }

  /** Subtracting from an integer double gives the double of the difference. */
  lemma SubOfInt(a: int, k: nat)
    ensures Sub(NumberOfInt(a), k) == NumberOfInt(a - k)
  {
  }
}
