# polyfill: the conditional property installer and its algorithms, in Dafny

This project models the core of the `polyfill` library. That core has two parts.

1. **The installer** (`src/polyfill.js`). A call `polyfill(objects, properties, value, settings, force)` does three things:
   - It turns its first argument into a list of targets. `Array.prototype` always counts as a single target.
   - It turns its second argument into a map from names to values. A string name plus a value becomes a one-entry map; with a map, the later arguments shift down one place.
   - For each target and each name, it calls `Object.defineProperty` only when `force` is truthy or `typeof target[name] !== typeof value`. The attributes are `assign({value}, polyfill.defaults, settings)`, where later sources win.
2. **The algorithms it installs** (`src/polyfill_global.js`): `toInteger`, `toLength`, `Array.from`, `findIndex`/`find`, `startsWith`, `endsWith`, `includes`, `Object.values` and `Object.entries`.

Modules, one per concern:

- `JsValues` (jsvalues.dfy): JavaScript values.
  - Numbers are an abstract double: `NaN | Inf(neg) | Zero(neg) | Finite(r)`, with `r` a nonzero exact real.
  - Also here: `typeof`, ToBoolean, ToNumber, and property reads on array-likes.
- `Coercion` (coercion.dfy): `toInteger`, `toLength`, and the clamp into `[0, hi]` that string positions use.
- `Polyfill` (polyfill.dfy): the installer.
  - `Target` is a class whose `props` map the method updates in place. A target listed twice in one call is the same object.
  - `PlainObject` is the object literal `assign` writes into.
  - Each method is proved against a specification function (`AssignSpec`, `Install`).
- `ArrayFrom` (arrayfrom.dfy): `Array.from`, as a method whose loop fills a fresh array.
- `Search` (search.dfy): `findIndex` as a method whose loop mirrors `Array.prototype.every`, plus `find`.
- `Strings` (strings.dfy): `startsWith`, `endsWith` and `includes` on strings.
  - The built-ins they call (`String.prototype.indexOf`, `substring`) are modelled from ECMA-262 6th edition.
  - The same file holds reference definitions from the standard, to compare against.
- `Arrays` (arrays.dfy): `includes` on arrays, over the built-in `Array.prototype.indexOf` of ECMA-262 6th edition, with the SameValueZero version of ECMA-262 7th edition beside it.
- `ObjectViews` (objectviews.dfy): `Object.values` and `Object.entries`.

Calls into code the model cannot see become a parameter `invoke: (callee, this, args) -> Value`. This covers the `Array.from` map function and the `findIndex` handler. `Array.prototype` is a parameter of the installer. The order of `Object.keys` is a parameter of `Object.values`/`Object.entries`.

## Model

| member | source | states |
|---|---|---|
| `JsValues.TypeOf` | src/polyfill.js:115 | `typeof` says "object" exactly for null and objects, and "function" exactly for functions |
| `Coercion.ToInteger` | src/polyfill_global.js:44-60 | NaN gives +0. Zeros and infinities are returned unchanged. Any other number is truncated toward zero to an integer in the same unit interval: x >= 1 gives t with t <= x < t+1, x <= -1 gives t with t-1 < x <= t, and a fraction gives a zero with the sign of x |
| `Coercion.TruncationShrinks` | src/polyfill_global.js:52-57 | for a finite input, the result is never larger in magnitude and never has the opposite sign |
| `Coercion.Clamp` | src/polyfill_global.js:62-64 | min(max(toInteger(n), 0), hi) is at most hi. It is floor(n) capped at hi for non-negative finite n, 0 for negative n, NaN, the zeros and -Infinity, and hi for +Infinity |
| `Coercion.ToLength` | src/polyfill_global.js:62-64 | the result lies in [0, 2^53-1] |
| `Coercion.ToLengthInRange` | src/polyfill_global.js:62-64 | toLength equals toInteger on every value already in (0, 2^53-1]. It is 0 for zeros and negatives, and 2^53-1 above the range |
| `Coercion.ToLengthOfInt` | src/polyfill_global.js:62-64 | on an integer k the result is min(max(k, 0), 2^53-1), so toLength(-5) = 0 and toLength(2^60) = 2^53-1 |
| `Coercion.Sub` | src/polyfill_global.js:157 | `length - search.length` on the abstract double: NaN and the infinities absorb the subtraction; a finite x - x is +0 while -0 - 0 stays -0, and a zero minus a positive k is -k; any other finite difference is exactly the real difference |
| `Polyfill.Assign` | src/polyfill.js:7-23 | the first argument's fields become `AssignSpec` of the old fields and the sources. The same object is returned |
| `Polyfill.CopyOwnKeys` | src/polyfill.js:13-15 | one source's own keys are copied over the target's, the source's values winning |
| `Polyfill.AssignLaterWins` | src/polyfill.js:9-19 | a key that a source holds and no later source holds ends up with that source's value |
| `Polyfill.AssignUntouched` | src/polyfill.js:9-19 | a key no source holds (null and undefined sources hold none) keeps its value or stays absent |
| `Polyfill.Defaults` | src/polyfill.js:140-144 | the default attributes: configurable true, enumerable false, writable true (the property they give is stated by `Polyfill.DefaultProperty`) |
| `Polyfill.ReadOnly` | src/polyfill.js:150-153 | the read-only settings: configurable false and writable false, with no enumerable key (the property they give is stated by `Polyfill.ReadOnlyProperty`) |
| `Polyfill.Descriptor` | src/polyfill.js:120-124 | the merged descriptor has exactly the keys value, configurable, enumerable and writable, plus any settings key. Its value is the new value unless settings has its own `value` |
| `Polyfill.DescriptorAttr` | src/polyfill.js:120-124 | in the merged descriptor, each attribute comes from settings when settings has it, otherwise from the defaults |
| `Polyfill.InstalledProperty` | src/polyfill.js:117-124 | when settings has no `value` key, the installed property holds the new value. Each attribute is ToBoolean of the settings field when present, else true/false/true for configurable/enumerable/writable |
| `Polyfill.DefaultProperty` | src/polyfill.js:140-144 | with null or undefined settings the property is configurable, not enumerable and writable |
| `Polyfill.ReadOnlyProperty` | src/polyfill.js:150-153 | with `polyfill.readOnly` the property is neither configurable, nor writable, nor enumerable (enumerable falls back to the default false) |
| `Polyfill.DefineProperty` | src/polyfill.js:117-125 | the target's property under the key is replaced by the descriptor's data property; nothing else changes |
| `Polyfill.Normalise` | src/polyfill.js:92-94 | a non-array, or Array.prototype itself, becomes a one-element list; any other array is used as the target list |
| `Polyfill.Overload` | src/polyfill.js:96-107 | a string name yields exactly the map {name: value}, with the 4th and 5th arguments as settings and force. A map is used as given, with the 3rd argument as settings and the 4th as force |
| `Polyfill.DecideCases` | src/polyfill.js:115 | `Polyfill.Decide`, the test "force, or typeof object[key] differs from typeof val", always holds with force. Without force, a member that already holds the value is kept, and a missing member is defined exactly when the value is not undefined |
| `Polyfill.Install` | src/polyfill.js:111-127 | after one visit, every name of the request whose decision holds has the installed property; every other name, in the request or not, keeps its old state, present or absent |
| `Polyfill.InstallKeys` | src/polyfill.js:111-127 | each processed name whose decision holds (force truthy, or a different typeof) now has the installed property. Every other name, including names not in the map, is left exactly as it was, present or absent |
| `Polyfill.InstallKeysStep` | src/polyfill.js:111-115 | processing one more name decides on the current state, which for that name is still the original one |
| `Polyfill.InstallIdempotent` | src/polyfill.js:109-131 | visiting a target a second time with the same request changes nothing, with or without force |
| `Polyfill.SecondVisitDecidesNothing` | src/polyfill.js:115 | without force (and without a `value` in settings), every name passes the typeof test after one install, so a second call defines nothing |
| `Polyfill.InstallOn` | src/polyfill.js:111-129 | the inner loop leaves the target's properties equal to `Install` of its old properties |
| `Polyfill.Visit` | src/polyfill.js:109-131 | one visit of the outer loop leaves the target installed, whether or not an earlier visit already installed it |
| `Polyfill.Polyfill` | src/polyfill.js:88-133 | every target in the normalised list ends up equal to `Install` of its old properties, exactly once even when listed twice. Only listed targets may change |
| `ArrayFrom.From` | src/polyfill_global.js:66-127 | a null or undefined source throws a TypeError, and so does a map argument that is present and not callable. Next, a clamped length above 2^32-1 throws a RangeError, because `new Array(length)` rejects it. The call succeeds exactly when none of these applies. The result's length is toLength(items.length). Element i is items[i] (undefined where missing), or map(items[i], i) called with the context as `this` |
| `ArrayFrom.Element` | src/polyfill_global.js:111-117 | without a map, element i of the result is the object's own field i when there is one, and undefined for a hole. With a map, it is the map function's result on (items[i], i) |
| `ArrayFrom.Fill` | src/polyfill_global.js:105-121 | the copying loop yields a new array of the clamped length whose element i is the source's member i, or its image under the map function |
| `ArrayFrom.Examples` | src/polyfill_global.js:109-123 | {0:"a",1:"b",length:2} reads as ["a","b"], and {length:3} reads as three undefineds |
| `Search.FirstHit` | src/polyfill_global.js:180-190 | the scan's result is either -1 with no held index matching, or the least held index whose handler result is truthy |
| `Search.Every` | src/polyfill_global.js:180-188 | the scan stops at the first held index whose handler result is truthy and returns it (or -1); the handler is called on the held indices up to that one |
| `Search.FindIndex` | src/polyfill_global.js:168-192 | a non-function handler (or a nullish array, which `every` rejects) throws a TypeError. Otherwise the result is the first matching held index or -1. The handler is called on exactly the held indices up to and including the match, never after it |
| `Search.Find` | src/polyfill_global.js:202-204 | `find` returns the member at findIndex's result. For -1 that is the member named "-1", which is undefined unless the object has one |
| `Search.FirstMatchExample` | src/polyfill_global.js:197-204 | over [1,2,3,4] with a handler true from index 2 on, findIndex gives 2 and find gives 3 |
| `Strings.IndexFrom` | src/polyfill_global.js:145-147 | indexOf from k returns the least occurrence at or after k, or -1 exactly when there is none |
| `Strings.StartsWith` | src/polyfill_global.js:145-147 | startsWith as written holds exactly when the position clamps to 0 and search is a prefix of the string |
| `Strings.StartsWithIsPrefix` | src/polyfill_global.js:145-147 | without a position, startsWith holds exactly when search is a prefix |
| `Strings.StartsWithPastZero` | src/polyfill_global.js:145-147 | any position that clamps above 0 makes startsWith false |
| `Strings.StartsWithAgreesAtZero` | src/polyfill_global.js:145-147 | where the position clamps to 0, the code agrees with the standard's startsWith |
| `Strings.StartsWithPositionCounterexample` | src/polyfill_global.js:145-147 | "abc".startsWith("b", 1) is false as written and true by the standard |
| `Strings.StartsWithStd` | src/polyfill_global.js:145-147 | the standard's startsWith: search is a prefix of the string from the clamped position on |
| `Strings.StringIncludes` | src/polyfill_global.js:136-138 | the empty search string is always included, and an included string is never longer than the receiver |
| `Strings.StringIncludesIff` | src/polyfill_global.js:136-138 | string includes holds exactly when search occurs at or after the clamped position |
| `Strings.Substring` | src/polyfill_global.js:157 | substring never yields more than the string |
| `Strings.ClampAbove` | src/polyfill_global.js:153-155 | a position above the length clamps to the length |
| `Strings.ClampSub` | src/polyfill_global.js:157 | for a position not above the length, clamping `position - |search|` gives the clamped position minus |search|, floored at 0 |
| `Strings.EndsWith` | src/polyfill_global.js:150-159 | every string ends with the empty string, at any position, and a true endsWith means search is no longer than the receiver |
| `Strings.EndsWithIsStandard` | src/polyfill_global.js:150-159 | endsWith agrees with the algorithm of section 21.1.3.6 of ECMA-262 6th edition on every input, including NaN, negative, fractional, infinite and oversized positions |
| `Strings.EndsWithFits` | src/polyfill_global.js:150-159 | a true endsWith implies that search fits before the end position |
| `Strings.EndsWithExamples` | src/polyfill_global.js:150-159 | "hello world".endsWith("world") is true and "hello".endsWith("hello", 3) is false |
| `Arrays.ArrayIndexFrom` | src/polyfill_global.js:136-138 | Array indexOf from k returns the least held index in [k, len) strictly equal to search, or -1 exactly when there is none |
| `Arrays.ArrayIncludes` | src/polyfill_global.js:136-138 | a nullish receiver throws a TypeError, any other succeeds |
| `Arrays.ArrayIncludesIff` | src/polyfill_global.js:136-138 | array includes holds exactly when some held index from the start index on holds a strictly equal member |
| `Arrays.ArrayIncludesMissesNaN` | src/polyfill_global.js:136-138 | array includes never finds NaN, because strict equality never holds for NaN |
| `Arrays.ArrayIncludesStd` | src/polyfill_global.js:136-138 | includes with SameValueZero matching holds exactly when some index from the start index on has a SameValueZero-equal member |
| `Arrays.ArrayIncludesStdFindsNaN` | src/polyfill_global.js:136-138 | with SameValueZero, [NaN].includes(NaN) is true |
| `Arrays.ArrayIncludesSkipsHoles` | src/polyfill_global.js:136-138 | as written, [,].includes(undefined) is false, because indexOf skips the hole |
| `Arrays.ArrayIncludesStdReadsHoles` | src/polyfill_global.js:136-138 | by the standard, the hole reads as undefined, so [,].includes(undefined) is true |
| `ObjectViews.Values` | src/polyfill_global.js:8-14 | a nullish argument throws. Otherwise the result has as many entries as Object.keys, and entry i is o[keys[i]] |
| `ObjectViews.Entries` | src/polyfill_global.js:17-23 | a nullish argument throws. Otherwise the result has as many entries as Object.keys, and entry i is [keys[i], o[keys[i]]] |
| `ObjectViews.ValuesAreEntrySeconds` | src/polyfill_global.js:8-23 | values are the second components of entries, in the same order |
| `ObjectViews.EntriesCoverFields` | src/polyfill_global.js:17-23 | on a plain object, the entries list every own property exactly once, each with its own value |

## Findings

| source | as written | input that shows it | evidently intended | confidence | as-written member | corrected member |
|---|---|---|---|---|---|---|
| src/polyfill_global.js:145-147 | `startsWith` returns `indexOf(search, position) === 0`, so any position greater than 0 makes it false | `"abc".startsWith("b", 1)` gives false | true when `search` occurs at the clamped position (section 21.1.3.18 of ECMA-262 6th edition) | high; not executed | `Strings.StartsWithPositionCounterexample` | `Strings.StartsWithStd` |
| src/polyfill_global.js:136-138 | `includes` returns `indexOf(search) > -1`, and indexOf uses strict equality | `[NaN].includes(NaN)` gives false | true: Array.prototype.includes of ECMA-262 7th edition matches with SameValueZero | medium; not executed | `Arrays.ArrayIncludesMissesNaN` | `Arrays.ArrayIncludesStd` |
| src/polyfill_global.js:136-138 | `includes` goes through `indexOf`, which visits only the indices the array holds | `[,].includes(undefined)` gives false | true: Array.prototype.includes of ECMA-262 7th edition reads every index below the length, so a hole reads as undefined | medium; not executed | `Arrays.ArrayIncludesSkipsHoles` | `Arrays.ArrayIncludesStd` |

## Left out

- src/polyfill_dom.js is not part of this model. Its DOM helpers wrap browser APIs that are not shown.
- `Polyfill.DefineProperty`: `Object.defineProperty` failures are not modelled. It throws a TypeError when the merged descriptor is incompatible with an existing non-configurable member; a compatible one, such as the same value with the same attributes, succeeds. It also throws when a new key is added to a non-extensible target, such as a frozen or sealed one. The escaping exception would abort the rest of the call. The model's `DefineProperty` always succeeds.
- Inherited members: `typeof object[key]` also sees the prototype chain. The model's decision looks only at the target's own properties.
- Accessor properties: a `get` or `set` key in the settings would make an accessor; the model builds data properties only. A `value` key in the settings does override the value, as in the source.
- The order in which `Object.keys(properties)` lists the names. The installer loop picks names in an unspecified order, and its proved result does not depend on that order.
- `Polyfill.Overload`: the name `"__proto__"` is an ordinary key here. In the source, line 100 of src/polyfill.js sets the prototype of the fresh `{}` instead (or does nothing for a primitive value), so `Object.keys` lists nothing and nothing is installed.
- Arguments of other shapes: a `properties` argument that is neither a string nor an object, and `assign` sources or `Object.keys` arguments that are strings (their index keys), are not modelled. `Object.values`/`Object.entries` do model string arguments, whose keys are the indices.
- The immutability that `Object.freeze` gives `polyfill.defaults` and `polyfill.readOnly`, the preference for a native `Object.assign`, and the `window.polyfill` wiring. These are host mechanics; the model's constants simply never change.
- The `polyfillAll(...)` registration at src/polyfill_global.js:194 names a function that no shown file defines. `find` and `findIndex` are modelled as methods directly.
- IEEE-754 arithmetic: `Number.isNaN`, `EPSILON` and the safe-integer constants (src/polyfill_global.js:27-31, 164-166) are not modelled. `MAX_SAFE_INTEGER` is the integer 2^53-1. Finite numbers are exact reals, so rounding and overflow are not modelled.
- `JsValues.ToNumber`: strings convert only when empty or all decimal digits. Signs, decimals, exponents, whitespace, hex and "Infinity" give NaN here. Objects and functions give NaN without calling `valueOf`/`toString`.
- `isCallable`'s `Object.prototype.toString` test (src/polyfill_global.js:35-42) is host reflection. Callable means "is a function" here.
- The callable-constructor branch of `Array.from` (`new Context(length)`, src/polyfill_global.js:105-107), and iterable sources. Only the plain-array result is modelled.
- Side effects of callbacks and getters: the map function and the findIndex handler are pure functions of their arguments. They cannot mutate the array-like while it is being read.
- Dynamic dispatch of `this.indexOf`: `includes` and `startsWith` are modelled against the built-in `indexOf` of strings (and, for `includes`, also of arrays). The `search` argument is already a string for the string methods.
- Object identity in strict equality: objects are compared structurally.
- `Strings.StartsWith`, `Strings.EndsWith`, `Strings.StringIncludes`, `ArrayFrom.From`: a Dafny `char` is a Unicode scalar value, while JavaScript lengths and positions count UTF-16 code units. The model agrees with the source only on strings whose characters lie in the Basic Multilingual Plane. For example, `"\u{1F600}".endsWith("\u{1F600}", 1)` is false in the source and true in the model, and `Array.from("\u{1F600}")` has two elements in the source and one in the model.
- `JsValues.Get`: functions have no own properties here, so a function's `length` (its arity) reads as undefined. `Array.from(function (a, b) {})` gives two undefineds in the source and `[]` in the model.
- `Search.FindIndex`: values carry no class tag, so the TypeError text for any object handler is "[object Object] is not a function". For an array handler the source says "[object Array] is not a function".
- The texts of the errors that the host raises are the model's own wording: the TypeErrors for `every`, `indexOf` and `Object.keys` on null or undefined, and the RangeError "Invalid array length" that `new Array(length)` raises in `Array.from`.
- `Search.FindIndex`, `Arrays.ArrayIncludes`: the built-ins `Array.prototype.every` and `Array.prototype.indexOf` are modelled from ECMA-262 6th edition, which reads the length with ToLength. ECMA-262 5th edition hosts, where this `findIndex` and `includes` get installed, read it with ToUint32 instead, so `{length: -1, 0: x}` is scanned up to index 2^32-2 there and not at all here.
- Arrays are modelled as array-like objects whose `length` is an ordinary own field. The operations read them as a real array would, except `Object.values`/`Object.entries` of such a value, which also list `length` where a real array's do not.
