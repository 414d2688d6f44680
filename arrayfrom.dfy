/**
  The `Array.from` replacement of polyfill_global.js: it reads an array-like
  source (anything with a `length` and indexed members), clamps its length
  with `toLength` and copies, or maps, each index into a new array.  Only the
  path that builds a plain array is modelled.
 */
module ArrayFrom {
  import opened JsValues
  import opened Coercion

  const NullSourceMessage: string :=
    "Array.from requires an array-like object - not null or undefined"

  const BadMapMessage: string :=
    "Array.from: when provided, the second argument must be a function"

  const InvalidLengthMessage: string := "Invalid array length"

  /** The largest length an array can have: 2^32 - 1. */
  const MaxArrayLength: nat := 0xFFFF_FFFF

  /** `toLength(items.length)`. */
  function SourceLength(items: Value): nat {
    ToLength(ToNumber(Get(items, "length")))
  }

  /**
    Element `i` of the result: `items[i]`, or `map(items[i], i)` called with
    `mapContext` as `this`.  Without a map, a hole reads as undefined and an
    own field of an object is copied as it is.
   */
  function Element(items: Value, mapFn: Value, mapContext: Value, invoke: Invoke, i: nat): (r: Value)
    ensures mapFn.Undefined? && !HasProperty(items, NatToString(i)) ==> r == Undefined
    ensures mapFn.Undefined? && items.Object? && NatToString(i) in items.fields ==> r == items.fields[NatToString(i)]
  {
    var item := Get(items, NatToString(i));
    if mapFn.Undefined? then item else invoke(mapFn, mapContext, [item, Numeric(NumberOfInt(i))])
  }

  /**
    `Array.from(arrayLike, mapFn, mapContext)`; an omitted argument is
    undefined.  A nullish source, or a map argument that is present and not
    callable, throws a TypeError; a clamped length above 2^32 - 1 makes
    `new Array(length)` throw a RangeError.  Otherwise the result has the
    source's clamped length and element `i` is the source's member `i`
    (undefined where it is missing), or its image under the map function.
   */
  method From(arrayLike: Value, mapFn: Value, mapContext: Value, invoke: Invoke) returns (r: Result<seq<Value>>)
    ensures IsNullish(arrayLike) ==> r == Err(TypeError(NullSourceMessage))
    ensures !IsNullish(arrayLike) && !mapFn.Undefined? && !IsCallable(mapFn) ==> r == Err(TypeError(BadMapMessage))
    ensures !IsNullish(arrayLike) && (mapFn.Undefined? || IsCallable(mapFn)) && SourceLength(arrayLike) > MaxArrayLength ==>
      r == Err(RangeError(InvalidLengthMessage))
    ensures r.Ok? <==> !IsNullish(arrayLike) && (mapFn.Undefined? || IsCallable(mapFn)) && SourceLength(arrayLike) <= MaxArrayLength
    ensures r.Ok? ==> |r.value| == SourceLength(arrayLike)
    ensures r.Ok? ==> forall i :: 0 <= i < |r.value| ==> r.value[i] == Element(arrayLike, mapFn, mapContext, invoke, i)
  {
    if arrayLike == Null || arrayLike == Undefined {
      return Err(TypeError(NullSourceMessage));
    }
    var items := arrayLike;
    var length := ToLength(ToNumber(Get(items, "length")));
    if mapFn != Undefined && !IsCallable(mapFn) {
      return Err(TypeError(BadMapMessage));
    }
    if length > MaxArrayLength {
      return Err(RangeError(InvalidLengthMessage));
    }
    var arr := Fill(items, mapFn, mapContext, invoke, length);
    assert forall j :: 0 <= j < length ==> arr[..][j] == arr[j];
    r := Ok(arr[..]);
  }

  /** The copying loop of `Array.from`: a new array whose element `i` is `Element(.., i)`. */
  method Fill(items: Value, mapFn: Value, mapContext: Value, invoke: Invoke, length: nat) returns (arr: array<Value>)
    requires mapFn.Undefined? || IsCallable(mapFn)
    ensures fresh(arr) && arr.Length == length
    ensures forall j :: 0 <= j < length ==> arr[j] == Element(items, mapFn, mapContext, invoke, j)
  {
    arr := new Value[length];
    var i := 0;
    while i < length
      invariant 0 <= i <= length
      invariant forall j :: 0 <= j < i ==> arr[j] == Element(items, mapFn, mapContext, invoke, j)
    {
      var item := Get(items, NatToString(i));
      arr[i] := if Truthy(mapFn) then invoke(mapFn, mapContext, [item, Numeric(NumberOfInt(i))]) else item;
      i := i + 1;
    }
  }

  /** `Array.from({0: "a", 1: "b", length: 2})` reads two members, and `{length: 3}` yields undefined three times. */
  lemma Examples(mapContext: Value, invoke: Invoke)
    ensures var pair := Object(map["0" := Str("a"), "1" := Str("b"), "length" := Numeric(Finite(2.0))]);
      SourceLength(pair) == 2 &&
      Element(pair, Undefined, mapContext, invoke, 0) == Str("a") &&
      Element(pair, Undefined, mapContext, invoke, 1) == Str("b")
    ensures var holes := Object(map["length" := Numeric(Finite(3.0))]);
      SourceLength(holes) == 3 &&
      forall i :: 0 <= i < 3 ==> Element(holes, Undefined, mapContext, invoke, i) == Undefined
  {
    var holes := Object(map["length" := Numeric(Finite(3.0))]);
    forall i | 0 <= i < 3 ensures Element(holes, Undefined, mapContext, invoke, i) == Undefined {
      assert NatToString(i) != "length";
    }
  }
}
