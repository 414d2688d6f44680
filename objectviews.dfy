/**
  `Object.values` and `Object.entries` of polyfill_global.js: both map over
  `Object.keys(object)`.  The order of the keys is the host's, so it is an
  argument here, constrained to be a listing of the object's own keys.
 */
module ObjectViews {
  import opened JsValues

  const NullObjectMessage: string := "Cannot convert undefined or null to object"

  /** The keys `Object.keys(o)` may list for a non-nullish `o`, in some order. */
  predicate KeyListing(o: Value, keys: seq<string>) {
    (forall i, j :: 0 <= i < j < |keys| ==> keys[i] != keys[j]) &&
    if o.Object? then (forall k :: k in keys ==> k in o.fields) && (forall k :: k in o.fields ==> k in keys)
    else if o.Str? then keys == IndexKeys(0, |o.s|)
    else keys == []
  }

  /** The index keys "k", ..., "n-1" of a string wrapper. */
  function IndexKeys(k: nat, n: nat): seq<string>
    decreases n - k
  {
    if k >= n then [] else [NatToString(k)] + IndexKeys(k + 1, n)
  }

  /** `Object.values(o)`: the value under each listed key; a nullish argument throws. */
  function Values(o: Value, keys: seq<string>): (r: Result<seq<Value>>)
    requires !IsNullish(o) ==> KeyListing(o, keys)
    ensures r.Err? <==> IsNullish(o)
    ensures r.Ok? ==> |r.value| == |keys| && forall i :: 0 <= i < |keys| ==> r.value[i] == Get(o, keys[i])
  {
    if IsNullish(o) then Err(TypeError(NullObjectMessage))
    else Ok(seq(|keys|, i requires 0 <= i < |keys| => Get(o, keys[i])))
  }

  /** `Object.entries(o)`: each listed key paired with its value; a nullish argument throws. */
  function Entries(o: Value, keys: seq<string>): (r: Result<seq<(string, Value)>>)
    requires !IsNullish(o) ==> KeyListing(o, keys)
    ensures r.Err? <==> IsNullish(o)
    ensures r.Ok? ==> |r.value| == |keys| && forall i :: 0 <= i < |keys| ==> r.value[i] == (keys[i], Get(o, keys[i]))
  {
    if IsNullish(o) then Err(TypeError(NullObjectMessage))
    else Ok(seq(|keys|, i requires 0 <= i < |keys| => (keys[i], Get(o, keys[i]))))
  }

  /** The values are the second components of the entries, in the same order. */
  lemma ValuesAreEntrySeconds(o: Value, keys: seq<string>)
    requires !IsNullish(o) && KeyListing(o, keys)
    ensures |Values(o, keys).value| == |Entries(o, keys).value|
    ensures forall i :: 0 <= i < |keys| ==> Values(o, keys).value[i] == Entries(o, keys).value[i].1
  {
  }

  /** On a plain object the entries list every own property exactly once, each with its own value. */
  lemma EntriesCoverFields(f: map<string, Value>, keys: seq<string>)
    requires KeyListing(Object(f), keys)
    ensures var es := Entries(Object(f), keys).value;
      (forall i :: 0 <= i < |es| ==> es[i].0 in f && es[i].1 == f[es[i].0]) &&
      (forall k :: k in f ==> exists i :: 0 <= i < |es| && es[i] == (k, f[k])) &&
      |es| == |f|
  {
    var es := Entries(Object(f), keys).value;
    forall k | k in f ensures exists i :: 0 <= i < |es| && es[i] == (k, f[k]) {
      var i :| 0 <= i < |keys| && keys[i] == k;
      assert es[i] == (k, f[k]);
    }
    DistinctListingSize(keys, f.Keys);
  }

  /** A duplicate-free listing of a finite set has the set's size. */
  lemma {:induction false} DistinctListingSize(keys: seq<string>, ks: set<string>)
    requires forall i, j :: 0 <= i < j < |keys| ==> keys[i] != keys[j]
    requires forall k :: k in keys <==> k in ks
    ensures |keys| == |ks|
  {
    if |keys| > 0 {
      var last := keys[|keys| - 1];
      var init := keys[..|keys| - 1];
      forall k ensures k in init <==> k in ks - {last} {
        if k in init {
          var i :| 0 <= i < |init| && init[i] == k;
          assert keys[i] == k;
        }
        if k in ks - {last} {
          assert k in keys;
          var i :| 0 <= i < |keys| && keys[i] == k;
          assert i < |keys| - 1;
          assert init[i] == k;
        }
      }
      DistinctListingSize(init, ks - {last});
    }
  }
}
