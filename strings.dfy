/**
  `startsWith`, `endsWith` and string `includes` of polyfill_global.js.
  `startsWith` and `includes` delegate to the receiver's `indexOf`, so the
  built-in String.prototype.indexOf of ECMA-262 6th edition (section
  21.1.3.8) is modelled here; `endsWith` goes through
  String.prototype.substring (section 21.1.3.19).
 */
module Strings {
  import opened JsValues
  import opened Coercion

  /** `search` occurs in `s` starting at index `j`. */
  predicate OccursAt(s: string, search: string, j: int) {
    0 <= j && j + |search| <= |s| && s[j..j + |search|] == search
  }

  /** The first occurrence of `search` in `s` at or after `k`, or -1. */
  function IndexFrom(s: string, search: string, k: nat): (r: int)
    ensures r == -1 ==> forall j :: k <= j ==> !OccursAt(s, search, j)
    ensures r != -1 ==> k <= r && OccursAt(s, search, r) && forall j :: k <= j < r ==> !OccursAt(s, search, j)
    decreases |s| + 1 - k
  {
    if k + |search| > |s| then -1
    else if s[k..k + |search|] == search then k
    else IndexFrom(s, search, k + 1)
  }

  /** String.prototype.indexOf(search, position): the search starts at the position clamped into [0, |s|]. */
  function StringIndexOf(s: string, search: string, position: Value): int {
    IndexFrom(s, search, Clamp(ToNumber(position), |s|))
  }

  // ---------------------------------------------------------------------
  // startsWith

  /**
    `startsWith`: `this.indexOf(search, position) === 0`.  It holds exactly
    when the position clamps to 0 and `search` is a prefix of `s`.
   */
  predicate StartsWith(s: string, search: string, position: Value)
    ensures StartsWith(s, search, position) <==>
      Clamp(ToNumber(position), |s|) == 0 && |search| <= |s| && s[..|search|] == search
  {
    var start := Clamp(ToNumber(position), |s|);
    assert start == 0 && |search| <= |s| && s[..|search|] == search ==> OccursAt(s, search, 0);
    StringIndexOf(s, search, position) == 0
  }

  predicate IsPrefix(search: string, s: string) {
    |search| <= |s| && s[..|search|] == search
  }

  /** Without a position, startsWith holds exactly when `search` is a prefix of `s`. */
  lemma StartsWithIsPrefix(s: string, search: string)
    ensures StartsWith(s, search, Undefined) <==> IsPrefix(search, s)
  {
    assert Clamp(ToNumber(Undefined), |s|) == 0;
    if IsPrefix(search, s) {
      assert OccursAt(s, search, 0);
    }
  }

  /** A position that clamps above 0 makes startsWith false, wherever `search` occurs. */
  lemma StartsWithPastZero(s: string, search: string, position: Value)
    requires Clamp(ToNumber(position), |s|) > 0
    ensures !StartsWith(s, search, position)
  {
  }

  /** startsWith as ECMA-262 6th edition section 21.1.3.18 defines it: `search` occurs at the clamped position. */
  predicate StartsWithStd(s: string, search: string, position: Value)
    ensures StartsWithStd(s, search, position) <==> IsPrefix(search, s[Clamp(ToNumber(position), |s|)..])
  {
    var start := Clamp(ToNumber(position), |s|);
    assert start + |search| <= |s| ==> s[start..][..|search|] == s[start..start + |search|];
    OccursAt(s, search, start)
  }

  /** The two agree whenever the position clamps to 0, in particular when it is omitted. */
  lemma StartsWithAgreesAtZero(s: string, search: string, position: Value)
    requires Clamp(ToNumber(position), |s|) == 0
    ensures StartsWith(s, search, position) <==> StartsWithStd(s, search, position)
  {
  }

  /** `"abc".startsWith("b", 1)` is false as written, though "b" is at index 1. */
  lemma StartsWithPositionCounterexample()
    ensures !StartsWith("abc", "b", Numeric(Finite(1.0)))
    ensures StartsWithStd("abc", "b", Numeric(Finite(1.0)))
  {
    assert Clamp(ToNumber(Numeric(Finite(1.0))), 3) == 1;
    assert "abc"[1..2] == "b";
  }

  // ---------------------------------------------------------------------
  // includes on strings

  /**
    String `includes`: `this.indexOf(search, position) > -1`.  The empty
    string is always included, and a match never is longer than `s`.
   */
  predicate StringIncludes(s: string, search: string, position: Value)
    ensures search == [] ==> StringIncludes(s, search, position)
    ensures StringIncludes(s, search, position) ==> |search| <= |s|
  {
    var start := Clamp(ToNumber(position), |s|);
    assert search == [] ==> OccursAt(s, search, start);
    StringIndexOf(s, search, position) > -1
  }

  /** includes holds exactly when `search` occurs at or after the clamped position. */
  lemma StringIncludesIff(s: string, search: string, position: Value)
    ensures StringIncludes(s, search, position) <==>
      exists j :: Clamp(ToNumber(position), |s|) <= j && OccursAt(s, search, j)
  {
  }

  // ---------------------------------------------------------------------
  // endsWith

  /** The relational comparison `n > len` for a number and a string length. */
  predicate GreaterThan(n: Number, len: nat) {
    match n
    case NaN => false
    case Inf(neg) => !neg
    case Zero(_) => false
    case Finite(r) => r > len as real
  }

  /** String.prototype.substring(a, b): both ends clamped into [0, |s|], then put in order. */
  function Substring(s: string, a: Number, b: Number): (r: string)
    ensures |r| <= |s|
  {
    var x := Clamp(a, |s|);
    var y := Clamp(b, |s|);
    s[Min(x, y)..Max(x, y)]
  }

  /**
    `endsWith(search, position)`: the end is the string's length when the
    position is undefined or larger than it, otherwise the position itself;
    the result compares `substring(end - |search|, end)` with `search`.
    The empty string ends every string, and a match never is longer than `s`.
   */
  predicate EndsWith(s: string, search: string, position: Value)
    ensures search == [] ==> EndsWith(s, search, position)
    ensures EndsWith(s, search, position) ==> |search| <= |s|
  {
    var end := if position.Undefined? || GreaterThan(ToNumber(position), |s|)
               then NumberOfInt(|s|) else ToNumber(position);
    assert Sub(end, 0) == end;
    Substring(s, Sub(end, |search|), end) == search
  }

  /** endsWith as ECMA-262 6th edition section 21.1.3.6 defines it. */
  predicate EndsWithStd(s: string, search: string, position: Value) {
    var end := if position.Undefined? then |s| else Clamp(ToNumber(position), |s|);
    end - |search| >= 0 && s[end - |search|..end] == search
  }

  lemma FloorShift(x: real, k: nat)
    ensures (x - k as real).Floor == x.Floor - k
  {
    FloorFacts(x);
    FloorFacts(x - k as real);
  }

  /** A position above the length clamps to the length. */
  lemma ClampAbove(n: Number, len: nat)
    requires GreaterThan(n, len)
    ensures Clamp(n, len) == len
  {
    if n.Finite? {
      FloorFacts(n.r);
    }
  }

  /** For a position not above the length, subtracting before clamping is subtracting after, floored at 0. */
  lemma ClampSub(n: Number, len: nat, k: nat)
    requires !GreaterThan(n, len)
    ensures Clamp(Sub(n, k), len) == Max(Clamp(n, len) - k, 0)
  {
    if n.Finite? && n.r > 0.0 {
      FloorFacts(n.r);
      FloorShift(n.r, k);
      var d := Sub(n, k);
      if d.Finite? && d.r > 0.0 {
        assert Clamp(d, len) == Min((n.r - k as real).Floor, len);
      }
    }
  }

  lemma ClampLength(len: nat, k: nat)
    ensures Clamp(NumberOfInt(len), len) == len
    ensures Clamp(Sub(NumberOfInt(len), k), len) == Max(len - k, 0)
  {
    SubOfInt(len, k);
  }

  /** With the end at the length, substring takes the last |search| characters (or all of them). */
  lemma SubstringAtLength(s: string, k: nat)
    ensures Substring(s, Sub(NumberOfInt(|s|), k), NumberOfInt(|s|)) == s[Max(|s| - k, 0)..|s|]
  {
    ClampLength(|s|, k);
  }

  /** With the end at a position not above the length, substring ends at the clamped position. */
  lemma SubstringAtPosition(s: string, n: Number, k: nat)
    requires !GreaterThan(n, |s|)
    ensures var e := Clamp(n, |s|); Substring(s, Sub(n, k), n) == s[Max(e - k, 0)..e]
  {
    ClampSub(n, |s|, k);
  }

  /** Matching the clamped slice is matching a slice of exactly |search| characters. */
  lemma SliceMatches(s: string, search: string, e: nat)
    requires e <= |s|
    ensures s[Max(e - |search|, 0)..e] == search <==> e - |search| >= 0 && s[e - |search|..e] == search
  {
    if e - |search| < 0 {
      assert |s[0..e]| < |search|;
    }
  }

  /** endsWith agrees with the standard when the end is the string's length. */
  lemma EndsWithStandardAtLength(s: string, search: string, position: Value)
    requires position.Undefined? || GreaterThan(ToNumber(position), |s|)
    ensures EndsWith(s, search, position) <==> EndsWithStd(s, search, position)
  {
    SubstringAtLength(s, |search|);
    if !position.Undefined? {
      ClampAbove(ToNumber(position), |s|);
    }
    SliceMatches(s, search, |s|);
  }

  /** endsWith agrees with the standard when the end is a position not above the length. */
  lemma EndsWithStandardAtPosition(s: string, search: string, position: Value)
    requires !position.Undefined? && !GreaterThan(ToNumber(position), |s|)
    ensures EndsWith(s, search, position) <==> EndsWithStd(s, search, position)
  {
    var n := ToNumber(position);
    SubstringAtPosition(s, n, |search|);
    SliceMatches(s, search, Clamp(n, |s|));
  }

  /** endsWith agrees with the standard's algorithm on every input. */
  lemma EndsWithIsStandard(s: string, search: string, position: Value)
    ensures EndsWith(s, search, position) <==> EndsWithStd(s, search, position)
  {
    if position.Undefined? || GreaterThan(ToNumber(position), |s|) {
      EndsWithStandardAtLength(s, search, position);
    } else {
      EndsWithStandardAtPosition(s, search, position);
    }
  }

  /** A true endsWith means `search` fits before the end: `"hello".endsWith("hello", 3)` is false. */
  lemma EndsWithFits(s: string, search: string, position: Value)
    requires EndsWith(s, search, position)
    ensures |search| <= (if position.Undefined? then |s| else Clamp(ToNumber(position), |s|))
  {
    EndsWithIsStandard(s, search, position);
  }

  lemma EndsWithExamples()
    ensures EndsWith("hello world", "world", Undefined)
    ensures !EndsWith("hello", "hello", Numeric(Finite(3.0)))
  {
    EndsWithIsStandard("hello world", "world", Undefined);
    assert "hello world"[6..11] == "world";
    EndsWithIsStandard("hello", "hello", Numeric(Finite(3.0)));
    assert Clamp(ToNumber(Numeric(Finite(3.0))), 5) == 3;
  }
}
