/**
  The `includes` of polyfill_global.js installed on Array.prototype: it
  delegates to the receiver's `indexOf`, so the built-in
  Array.prototype.indexOf of ECMA-262 6th edition (section 22.1.3.11) is
  modelled here, next to the SameValueZero matching of ECMA-262 7th edition
  (section 22.1.3.11 there) that the standard's `includes` uses.
 */
module Arrays {
  import opened JsValues
  import opened Coercion

  /** Strict equality `a === b`; NaN equals nothing and the two zeros are equal. */
  predicate StrictEquals(a: Value, b: Value) {
    match (a, b)
    case (Numeric(x), Numeric(y)) =>
      (match (x, y)
       case (Zero(_), Zero(_)) => true
       case (Inf(p), Inf(q)) => p == q
       case (Finite(u), Finite(w)) => u == w
       case _ => false)
    case _ => a == b && !a.Numeric?
  }

  /** SameValueZero: as strict equality, except that NaN equals NaN. */
  predicate SameValueZero(a: Value, b: Value) {
    StrictEquals(a, b) || (a == Numeric(NaN) && b == Numeric(NaN))
  }

  /** Index `j` is held by the array-like and its member is strictly equal to `search`. */
  predicate HoldsAt(arr: Value, search: Value, j: nat) {
    HasProperty(arr, NatToString(j)) && StrictEquals(search, Get(arr, NatToString(j)))
  }

  /** The first held index in [k, len) strictly equal to `search`, or -1. */
  function ArrayIndexFrom(arr: Value, search: Value, k: nat, len: nat): (r: int)
    ensures r == -1 ==> forall j :: k <= j < len ==> !HoldsAt(arr, search, j)
    ensures r != -1 ==> k <= r < len && HoldsAt(arr, search, r) && forall j :: k <= j < r ==> !HoldsAt(arr, search, j)
    decreases len - k
  {
    if k >= len then -1
    else if HoldsAt(arr, search, k) then k
    else ArrayIndexFrom(arr, search, k + 1, len)
  }

  /** Where Array.prototype.indexOf starts: None when `fromIndex` is at or past the length; negative counts from the end. */
  function StartIndex(fromIndex: Value, len: nat): (k: Option<nat>)
    ensures k.Some? ==> k.value <= len
  {
    match ToInteger(ToNumber(fromIndex))
    case Inf(neg) => if neg then Some(0) else None
    case Finite(y) =>
      if y >= len as real then None
      else if y >= 0.0 then Some(y.Floor)
      else Some(Max(len + y.Floor, 0))
    case _ => Some(0)
  }

  /** Array.prototype.indexOf(search, fromIndex) on a non-nullish receiver. */
  function ArrayIndexOf(arr: Value, search: Value, fromIndex: Value): int {
    var len := ToLength(ToNumber(Get(arr, "length")));
    if len == 0 then -1
    else match StartIndex(fromIndex, len)
      case None => -1
      case Some(k) => ArrayIndexFrom(arr, search, k, len)
  }

  const NullReceiverMessage: string := "Cannot read property 'indexOf' of null or undefined"

  /** Array `includes`: `this.indexOf(search, fromIndex) > -1`; a nullish receiver throws. */
  function ArrayIncludes(arr: Value, search: Value, fromIndex: Value): (r: Result<bool>)
    ensures r.Err? <==> IsNullish(arr)
  {
    if IsNullish(arr) then Err(TypeError(NullReceiverMessage))
    else Ok(ArrayIndexOf(arr, search, fromIndex) > -1)
  }

  /** Array includes holds exactly when some held index from the start on is strictly equal to `search`. */
  lemma ArrayIncludesIff(arr: Value, search: Value, fromIndex: Value)
    requires !IsNullish(arr)
    ensures var len := ToLength(ToNumber(Get(arr, "length")));
      ArrayIncludes(arr, search, fromIndex).value <==>
      StartIndex(fromIndex, len).Some? &&
      exists j :: StartIndex(fromIndex, len).value <= j < len && HoldsAt(arr, search, j)
  {
    var len := ToLength(ToNumber(Get(arr, "length")));
    var start := StartIndex(fromIndex, len);
    var idx := ArrayIndexOf(arr, search, fromIndex);
    assert ArrayIncludes(arr, search, fromIndex).value == (idx > -1);
    if len == 0 {
      assert idx == -1;
    } else if start.None? {
      assert idx == -1;
    } else {
      assert idx == ArrayIndexFrom(arr, search, start.value, len);
      ArrayIndexFromFound(arr, search, start.value, len);
    }
  }

  lemma ArrayIndexFromFound(arr: Value, search: Value, k: nat, len: nat)
    ensures ArrayIndexFrom(arr, search, k, len) > -1 <==> exists j :: k <= j < len && HoldsAt(arr, search, j)
  {
    var r := ArrayIndexFrom(arr, search, k, len);
    if r != -1 {
      assert HoldsAt(arr, search, r);
    }
  }

  /** Through indexOf, NaN is never found: `[NaN].includes(NaN)` is false as written. */
  lemma ArrayIncludesMissesNaN(arr: Value, fromIndex: Value)
    requires !IsNullish(arr)
    ensures ArrayIncludes(arr, Numeric(NaN), fromIndex) == Ok(false)
  {
    var len := ToLength(ToNumber(Get(arr, "length")));
    var start := StartIndex(fromIndex, len);
    if len > 0 && start.Some? {
      NaNNeverHeld(arr, start.value, len);
    }
    assert ArrayIndexOf(arr, Numeric(NaN), fromIndex) == -1;
  }

  lemma NaNNeverHeld(arr: Value, k: nat, len: nat)
    ensures ArrayIndexFrom(arr, Numeric(NaN), k, len) == -1
  {
  }

  /** Array includes with SameValueZero matching, as ECMA-262 7th edition defines it. */
  function ArrayIncludesStd(arr: Value, search: Value, fromIndex: Value): (r: Result<bool>)
    ensures r.Err? <==> IsNullish(arr)
    ensures r.Ok? ==> (r.value <==>
      var len := ToLength(ToNumber(Get(arr, "length")));
      StartIndex(fromIndex, len).Some? &&
      exists j :: StartIndex(fromIndex, len).value <= j < len && MatchesAt(arr, search, j))
  {
    if IsNullish(arr) then Err(TypeError(NullReceiverMessage))
    else
      var len := ToLength(ToNumber(Get(arr, "length")));
      match StartIndex(fromIndex, len)
      case None => Ok(false)
      case Some(k) =>
        SameValueZeroFromIff(arr, search, k, len);
        Ok(SameValueZeroFrom(arr, search, k, len))
  }

  /** The member at `j` (undefined for a hole) is SameValueZero-equal to `search`. */
  predicate MatchesAt(arr: Value, search: Value, j: nat) {
    SameValueZero(search, Get(arr, NatToString(j)))
  }

  /** Some index in [k, len) holds a member SameValueZero-equal to `search`; holes read as undefined. */
  predicate SameValueZeroFrom(arr: Value, search: Value, k: nat, len: nat)
    decreases len - k
  {
    if k >= len then false
    else MatchesAt(arr, search, k) || SameValueZeroFrom(arr, search, k + 1, len)
  }

  lemma {:induction false} SameValueZeroFromIff(arr: Value, search: Value, k: nat, len: nat)
    ensures SameValueZeroFrom(arr, search, k, len) <==>
      exists j :: k <= j < len && MatchesAt(arr, search, j)
    decreases len - k
  {
    if k < len {
      SameValueZeroFromIff(arr, search, k + 1, len);
      if MatchesAt(arr, search, k) {
        assert k <= k < len && MatchesAt(arr, search, k);
      } else if exists j :: k <= j < len && MatchesAt(arr, search, j) {
        var j :| k <= j < len && MatchesAt(arr, search, j);
        assert k + 1 <= j < len;
      }
    }
  }

  /** With the standard's matching, `[NaN].includes(NaN)` is true. */
  lemma ArrayIncludesStdFindsNaN()
    ensures ArrayIncludesStd(Object(map["0" := Numeric(NaN), "length" := Numeric(Finite(1.0))]), Numeric(NaN), Undefined)
      == Ok(true)
  {
    var a := Object(map["0" := Numeric(NaN), "length" := Numeric(Finite(1.0))]);
    assert ToLength(ToNumber(Get(a, "length"))) == 1;
    assert SameValueZero(Numeric(NaN), Get(a, NatToString(0)));
  }

  /** `[,].includes(undefined)` is false as written: indexOf skips the hole at index 0. */
  lemma ArrayIncludesSkipsHoles()
    ensures ArrayIncludes(Object(map["length" := Numeric(Finite(1.0))]), Undefined, Undefined) == Ok(false)
  {
    var a := Object(map["length" := Numeric(Finite(1.0))]);
    assert ToLength(ToNumber(Get(a, "length"))) == 1;
    assert NatToString(0) == "0";
    assert !HoldsAt(a, Undefined, 0);
  }

  /** With the standard's reading, the hole reads as undefined, so `[,].includes(undefined)` is true. */
  lemma ArrayIncludesStdReadsHoles()
    ensures ArrayIncludesStd(Object(map["length" := Numeric(Finite(1.0))]), Undefined, Undefined) == Ok(true)
  {
    var a := Object(map["length" := Numeric(Finite(1.0))]);
    assert ToLength(ToNumber(Get(a, "length"))) == 1;
    assert NatToString(0) == "0";
    assert MatchesAt(a, Undefined, 0);
  }
}
