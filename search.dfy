/**
  `findIndex` and the `find` / `findIndex` wrappers of polyfill_global.js.
  The scan goes through `Array.prototype.every`, which visits only the
  indices the array-like holds (holes are skipped) and stops as soon as the
  callback returns false; the callback records the first index whose
  handler result is truthy and then returns false.
 */
module Search {
  import opened JsValues
  import opened Coercion

  /** The tag `Object.prototype.toString` reports for a value. */
  function ClassOf(v: Value): string {
    match v
    case Undefined => "Undefined"
    case Null => "Null"
    case Boolean(_) => "Boolean"
    case Numeric(_) => "Number"
    case Str(_) => "String"
    case Function(_) => "Function"
    case Object(_) => "Object"
  }

  function NotAFunctionMessage(handler: Value): string {
    "[object " + ClassOf(handler) + "] is not a function"
  }

  const NullReceiverMessage: string := "Array.prototype.every called on null or undefined"

  /** The length `every` scans: `toLength(array.length)`. */
  function ScanLength(arr: Value): nat {
    ToLength(ToNumber(Get(arr, "length")))
  }

  /** Index `i` is held by the array-like and the handler's result on it is truthy. */
  predicate Hit(arr: Value, handler: Value, context: Value, invoke: Invoke, i: nat) {
    var key := NatToString(i);
    HasProperty(arr, key) &&
    Truthy(invoke(handler, context, [Get(arr, key), Numeric(NumberOfInt(i)), arr]))
  }

  /** The first hit at or after `k` and below `len`: the least hit, or -1 exactly when there is none. */
  function FirstHit(arr: Value, handler: Value, context: Value, invoke: Invoke, k: nat, len: nat): (r: int)
    ensures r == -1 ==> forall j :: k <= j < len ==> !Hit(arr, handler, context, invoke, j)
    ensures r != -1 ==> k <= r < len && Hit(arr, handler, context, invoke, r)
    ensures r != -1 ==> forall j :: k <= j < r ==> !Hit(arr, handler, context, invoke, j)
    decreases len - k
  {
    if k >= len then -1
    else if Hit(arr, handler, context, invoke, k) then k
    else FirstHit(arr, handler, context, invoke, k + 1, len)
  }

  /** The indices in [k, hi) that `every` visits: those the array-like holds. */
  function Visited(arr: Value, k: nat, hi: nat): seq<nat>
    decreases hi - k
  {
    if k >= hi then []
    else (if HasProperty(arr, NatToString(k)) then [k] else []) + Visited(arr, k + 1, hi)
  }

  lemma {:induction false} VisitedSnoc(arr: Value, k: nat, hi: nat)
    requires k <= hi
    ensures Visited(arr, k, hi + 1) ==
      Visited(arr, k, hi) + (if HasProperty(arr, NatToString(hi)) then [hi] else [])
    decreases hi - k
  {
    if k < hi {
      VisitedSnoc(arr, k + 1, hi);
    }
  }

  /**
    `findIndex(array, handler, context)`.  A handler that is not a function,
    or a nullish array, throws a TypeError.  Otherwise the result is the
    first held index whose handler result is truthy, or -1; `calls` lists
    the indices the handler was called on, which stop at that index.
   */
  method FindIndex(arr: Value, handler: Value, context: Value, invoke: Invoke)
    returns (r: Result<int>, calls: seq<nat>)
    ensures !handler.Function? ==> r == Err(TypeError(NotAFunctionMessage(handler))) && calls == []
    ensures handler.Function? && IsNullish(arr) ==> r == Err(TypeError(NullReceiverMessage)) && calls == []
    ensures r.Ok? <==> handler.Function? && !IsNullish(arr)
    ensures r.Ok? ==> r.value == FirstHit(arr, handler, context, invoke, 0, ScanLength(arr))
    ensures r.Ok? ==> calls == Visited(arr, 0, if r.value < 0 then ScanLength(arr) else r.value + 1)
  {
    var index: int := -1;
    if !handler.Function? {
      return Err(TypeError(NotAFunctionMessage(handler))), [];
    }
    if arr == Null || arr == Undefined {
      return Err(TypeError(NullReceiverMessage)), [];
    }
    var len := ToLength(ToNumber(Get(arr, "length")));
    index, calls := Every(arr, handler, context, invoke, len);
    r := Ok(index);
  }

  /**
    The `Array.prototype.every` scan inside findIndex: it calls the handler
    on each held index below `len` until one result is truthy, and records
    that index.
   */
  method Every(arr: Value, handler: Value, context: Value, invoke: Invoke, len: nat)
    returns (index: int, calls: seq<nat>)
    ensures index == FirstHit(arr, handler, context, invoke, 0, len)
    ensures calls == Visited(arr, 0, if index < 0 then len else index + 1)
  {
    index := -1;
    var k := 0;
    calls := [];
    while k < len
      invariant 0 <= k <= len
      invariant index == -1
      invariant FirstHit(arr, handler, context, invoke, 0, len) == FirstHit(arr, handler, context, invoke, k, len)
      invariant calls == Visited(arr, 0, k)
    {
      var key := NatToString(k);
      VisitedSnoc(arr, 0, k);
      if HasProperty(arr, key) {
        calls := calls + [k];
        if Truthy(invoke(handler, context, [Get(arr, key), Numeric(NumberOfInt(k)), arr])) {
          index := k;
        }
        if !(index < 0) {
          break;
        }
      }
      k := k + 1;
    }
  }

  /**
    `find(handler, context)`: the member at the index findIndex returns.
    When nothing matches that index is -1, so the result is the member
    named "-1", which is undefined unless the array-like has one.
   */
  method Find(arr: Value, handler: Value, context: Value, invoke: Invoke) returns (r: Result<Value>)
    ensures r.Ok? <==> handler.Function? && !IsNullish(arr)
    ensures r.Ok? ==> r.value == Get(arr, IntToString(FirstHit(arr, handler, context, invoke, 0, ScanLength(arr))))
  {
    var index, _ := FindIndex(arr, handler, context, invoke);
    match index
    case Err(e) => r := Err(e);
    case Ok(i) => r := Ok(Get(arr, IntToString(i)));
  }

  /** Over `[1, 2, 3, 4]` a handler true from index 2 on makes findIndex 2 and find 3. */
  lemma FirstMatchExample(handler: Value, context: Value, invoke: Invoke)
    requires var a := Sample();
      forall i :: 0 <= i < 4 ==> (Hit(a, handler, context, invoke, i) <==> i >= 2)
    ensures FirstHit(Sample(), handler, context, invoke, 0, ScanLength(Sample())) == 2
    ensures Get(Sample(), IntToString(2)) == Numeric(Finite(3.0))
  {
    var a := Sample();
    assert ScanLength(a) == 4;
    assert !Hit(a, handler, context, invoke, 0);
    assert !Hit(a, handler, context, invoke, 1);
    assert Hit(a, handler, context, invoke, 2);
  }

  function Sample(): Value {
    Object(map["0" := Numeric(Finite(1.0)), "1" := Numeric(Finite(2.0)), "2" := Numeric(Finite(3.0)),
               "3" := Numeric(Finite(4.0)), "length" := Numeric(Finite(4.0))])
  }
}
