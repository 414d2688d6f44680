/**
  The conditional property installer of polyfill.js.

  A call `polyfill(objects, properties, value, settings, force)` normalises
  its first argument into a list of targets and its second into a map from
  property names to values, then, for every target and every name, defines
  the property with `Object.defineProperty` when `force` is truthy or the
  target's current member has a different `typeof` from the new value.  The
  attributes come from merging `{value}`, the frozen defaults and the
  caller's settings with `assign`, later sources winning.
 */
module Polyfill {
  import opened JsValues

  /** The three attributes of a data property. */
  datatype Attrs = Attrs(configurable: bool, enumerable: bool, writable: bool)

  /** An own data property of a target. */
  datatype Prop = Prop(value: Value, attrs: Attrs)

  /** An object the installer may define members on: a built-in, a prototype or an array of such. */
  class Target {
    var props: map<string, Prop>
    const isArray: bool
    const elements: seq<Target>

    constructor (props0: map<string, Prop>, isArray0: bool, elements0: seq<Target>)
      ensures props == props0 && isArray == isArray0 && elements == elements0
    {
      props := props0;
      isArray := isArray0;
      elements := elements0;
    }
  }

  /** A plain object literal, the kind `assign` writes into. */
  class PlainObject {
    var fields: map<string, Value>

    constructor (fields0: map<string, Value>)
      ensures fields == fields0
    {
      fields := fields0;
    }
  }

  // ---------------------------------------------------------------------
  // assign

  /** The fields of `target` after copying each source's own keys into it, left to right. */
  function AssignSpec(target: map<string, Value>, sources: seq<Value>): map<string, Value>
  {
    if |sources| == 0 then target
    else AssignSpec(target, sources[..|sources| - 1]) + OwnFields(sources[|sources| - 1])
  }

  /** The `assign` fallback: null and undefined sources are skipped, and the first argument is mutated and returned. */
  method Assign(target: PlainObject, sources: seq<Value>) returns (r: PlainObject)
    modifies target
    ensures r == target
    ensures target.fields == AssignSpec(old(target.fields), sources)
  {
    var i := 0;
    while i < |sources|
      invariant 0 <= i <= |sources|
      invariant target.fields == AssignSpec(old(target.fields), sources[..i])
    {
      var arg := sources[i];
      ghost var before := target.fields;
      if arg != Null && arg != Undefined {
        CopyOwnKeys(target, OwnFields(arg));
      } else {
        assert before + OwnFields(arg) == before;
      }
      assert sources[..i + 1][..i] == sources[..i];
      assert AssignSpec(old(target.fields), sources[..i + 1]) == before + OwnFields(arg);
      i := i + 1;
    }
    assert sources[..i] == sources;
    r := target;
  }

  /** The inner loop of `assign`: `source[key] = arg[key]` for every own key of one argument. */
  method CopyOwnKeys(target: PlainObject, src: map<string, Value>)
    modifies target
    ensures target.fields == old(target.fields) + src
  {
    var pending := src.Keys;
    while pending != {}
      invariant pending <= src.Keys
      invariant target.fields == old(target.fields) + map k | k in src.Keys - pending :: src[k]
      decreases pending
    {
      var key :| key in pending;
      target.fields := target.fields[key := src[key]];
      pending := pending - {key};
    }
    assert (map k | k in src.Keys - pending :: src[k]) == src;
  }

  /** A key that a source holds and no later source holds ends up with that source's value. */
  lemma {:induction false} AssignLaterWins(target: map<string, Value>, sources: seq<Value>, j: nat, k: string)
    requires j < |sources| && k in OwnFields(sources[j])
    requires forall j' :: j < j' < |sources| ==> k !in OwnFields(sources[j'])
    ensures k in AssignSpec(target, sources)
    ensures AssignSpec(target, sources)[k] == OwnFields(sources[j])[k]
  {
    var n := |sources| - 1;
    if j < n {
      assert sources[..n][j] == sources[j];
      forall j' | j < j' < n ensures k !in OwnFields(sources[..n][j']) {
        assert sources[..n][j'] == sources[j'];
      }
      AssignLaterWins(target, sources[..n], j, k);
    }
  }

  /** A key no source holds keeps its value in the target, or stays absent. */
  lemma {:induction false} AssignUntouched(target: map<string, Value>, sources: seq<Value>, k: string)
    requires forall j :: 0 <= j < |sources| ==> k !in OwnFields(sources[j])
    ensures k in AssignSpec(target, sources) <==> k in target
    ensures k in target ==> AssignSpec(target, sources)[k] == target[k]
  {
    if |sources| > 0 {
      var n := |sources| - 1;
      forall j | 0 <= j < n ensures k !in OwnFields(sources[..n][j]) {
        assert sources[..n][j] == sources[j];
      }
      AssignUntouched(target, sources[..n], k);
    }
  }

  // ---------------------------------------------------------------------
  // Attribute constants

  /** `polyfill.defaults`: configurable, not enumerable, writable. */
  const Defaults: Value :=
    Object(map["configurable" := Boolean(true), "enumerable" := Boolean(false), "writable" := Boolean(true)])

  /** `polyfill.readOnly`: neither configurable nor writable; enumerable is left to the defaults. */
  const ReadOnly: Value :=
    Object(map["configurable" := Boolean(false), "writable" := Boolean(false)])

  // ---------------------------------------------------------------------
  // Merged descriptor and Object.defineProperty

  /**
    `assign({value: val}, polyfill.defaults, settings)`: the value and the
    three attributes, plus whatever keys settings adds; `value` is `val`
    unless settings overrides it.
   */
  function Descriptor(val: Value, settings: Value): (d: map<string, Value>)
    ensures d.Keys == {"value", "configurable", "enumerable", "writable"} + OwnFields(settings).Keys
    ensures "value" !in OwnFields(settings) ==> d["value"] == val
    ensures "value" in OwnFields(settings) ==> d["value"] == OwnFields(settings)["value"]
  {
    var m := map["value" := val];
    var sources := [Defaults, settings];
    assert sources[..1] == [Defaults] && [Defaults][..0] == [];
    assert AssignSpec(m, [Defaults]) == m + OwnFields(Defaults);
    assert AssignSpec(m, sources) == m + OwnFields(Defaults) + OwnFields(settings);
    assert OwnFields(Defaults).Keys == {"configurable", "enumerable", "writable"};
    AssignSpec(m, sources)
  }

  function Field(desc: map<string, Value>, key: string): Value {
    if key in desc then desc[key] else Undefined
  }

  /** The data property `Object.defineProperty` creates from a descriptor object. */
  function ToProp(desc: map<string, Value>): Prop {
    Prop(Field(desc, "value"),
         Attrs(Truthy(Field(desc, "configurable")), Truthy(Field(desc, "enumerable")), Truthy(Field(desc, "writable"))))
  }

  /** The property a single install defines. */
  function Installed(val: Value, settings: Value): Prop {
    ToProp(Descriptor(val, settings))
  }

  /** The attribute named `key` of an installed property: from settings if present there, else the default. */
  function AttrFrom(settings: Value, key: string, default: bool): bool {
    if key in OwnFields(settings) then Truthy(OwnFields(settings)[key]) else default
  }

  /** The installed property holds `val` and takes each attribute from settings when present, else from the defaults. */
  lemma InstalledProperty(val: Value, settings: Value)
    requires "value" !in OwnFields(settings)
    ensures Installed(val, settings) ==
      Prop(val, Attrs(AttrFrom(settings, "configurable", true),
                      AttrFrom(settings, "enumerable", false),
                      AttrFrom(settings, "writable", true)))
  {
    var sources := [Defaults, settings];
    var desc := Descriptor(val, settings);
    AssignUntouched(map["value" := val], sources, "value");
    DescriptorAttr(val, settings, "configurable");
    DescriptorAttr(val, settings, "enumerable");
    DescriptorAttr(val, settings, "writable");
  }

  lemma DescriptorAttr(val: Value, settings: Value, key: string)
    requires key in OwnFields(Defaults)
    ensures key in Descriptor(val, settings)
    ensures Descriptor(val, settings)[key] ==
      if key in OwnFields(settings) then OwnFields(settings)[key] else OwnFields(Defaults)[key]
  {
    var sources := [Defaults, settings];
    if key in OwnFields(settings) {
      AssignLaterWins(map["value" := val], sources, 1, key);
    } else {
      AssignLaterWins(map["value" := val], sources, 0, key);
    }
  }

  /** With `polyfill.readOnly`, the property is neither configurable, enumerable nor writable. */
  lemma ReadOnlyProperty(val: Value)
    ensures Installed(val, ReadOnly) == Prop(val, Attrs(false, false, false))
  {
    InstalledProperty(val, ReadOnly);
  }

  /** With no settings (null or undefined), the defaults apply unchanged. */
  lemma DefaultProperty(val: Value, settings: Value)
    requires IsNullish(settings)
    ensures Installed(val, settings) == Prop(val, Attrs(true, false, true))
  {
    InstalledProperty(val, settings);
  }

  /** `Object.defineProperty(object, key, desc)` with a complete data descriptor. */
  method DefineProperty(target: Target, key: string, desc: map<string, Value>)
    modifies target
    ensures target.props == old(target.props)[key := ToProp(desc)]
  {
    target.props := target.props[key := ToProp(desc)];
  }

  // ---------------------------------------------------------------------
  // Argument normalisation

  /** The list of targets: a non-array, or Array.prototype itself, is one target; any other array lists them. */
  function Normalise(objects: Target, arrayPrototype: Target): (ts: seq<Target>)
    ensures !objects.isArray || objects == arrayPrototype ==> ts == [objects]
    ensures objects.isArray && objects != arrayPrototype ==> ts == objects.elements
  {
    if !objects.isArray || objects == arrayPrototype then [objects] else objects.elements
  }

  /** The second argument: a property name (a string) or a map of names to values. */
  datatype Properties = Name(name: string) | Mapping(entries: map<string, Value>)

  /** What the call installs: names to values, the settings and the force flag. */
  datatype Request = Request(entries: map<string, Value>, settings: Value, force: Value)

  /** A name and a value become a one-entry map; after a map, the later arguments shift down one place. */
  function Overload(properties: Properties, value: Value, settings: Value, force: Value): (q: Request)
    ensures properties.Name? ==>
      q.entries.Keys == {properties.name} && q.entries[properties.name] == value &&
      q.settings == settings && q.force == force
    ensures properties.Mapping? ==>
      q.entries == properties.entries && q.settings == value && q.force == settings
  {
    match properties
    case Name(name) => Request(map[name := value], settings, force)
    case Mapping(entries) => Request(entries, value, settings)
  }

  // ---------------------------------------------------------------------
  // Install decision and its effect on one target

  /** `typeof object[key]`, an absent member being undefined. */
  function TypeOfMember(props: map<string, Prop>, key: string): TypeTag {
    if key in props then TypeOf(props[key].value) else TUndefined
  }

  /** `force || typeof object[key] !== typeof val`. */
  predicate Decide(props: map<string, Prop>, key: string, val: Value, force: Value) {
    Truthy(force) || TypeOfMember(props, key) != TypeOf(val)
  }

  /**
    What the decision means: force always installs; without force, a member
    already holding the value is kept, and a missing member is defined
    unless the value is undefined.
   */
  lemma DecideCases(props: map<string, Prop>, key: string, val: Value, force: Value)
    ensures Truthy(force) ==> Decide(props, key, val, force)
    ensures !Truthy(force) && key in props && props[key].value == val ==> !Decide(props, key, val, force)
    ensures !Truthy(force) && key !in props ==> (Decide(props, key, val, force) <==> !val.Undefined?)
  {
  }

  /** A target's properties after the names in `done` have been processed. */
  function InstallKeys(props: map<string, Prop>, q: Request, done: set<string>): (r: map<string, Prop>)
    requires done <= q.entries.Keys
    ensures forall k :: k in done && Decide(props, k, q.entries[k], q.force) ==>
      k in r && r[k] == Installed(q.entries[k], q.settings)
    ensures forall k :: !(k in done && Decide(props, k, q.entries[k], q.force)) ==>
      (k in r <==> k in props) && (k in props ==> r[k] == props[k])
  {
    map k | k in props.Keys + done && (k in props || Decide(props, k, q.entries[k], q.force)) ::
      if k in done && Decide(props, k, q.entries[k], q.force) then Installed(q.entries[k], q.settings) else props[k]
  }

  /**
    A target's properties after one visit by the call: every name of the
    request whose decision holds gets the installed property, and every
    other name keeps its state, present or absent.
   */
  function Install(props: map<string, Prop>, q: Request): (r: map<string, Prop>)
    ensures forall k :: k in q.entries && Decide(props, k, q.entries[k], q.force) ==>
      k in r && r[k] == Installed(q.entries[k], q.settings)
    ensures forall k :: !(k in q.entries && Decide(props, k, q.entries[k], q.force)) ==>
      (k in r <==> k in props) && (k in props ==> r[k] == props[k])
  {
    InstallKeys(props, q, q.entries.Keys)
  }

  /** Processing one more name defines it, or not, on the state reached so far. */
  lemma InstallKeysStep(props: map<string, Prop>, q: Request, done: set<string>, key: string)
    requires done <= q.entries.Keys && key in q.entries && key !in done
    ensures var cur := InstallKeys(props, q, done);
      InstallKeys(props, q, done + {key}) ==
        if Decide(cur, key, q.entries[key], q.force) then cur[key := Installed(q.entries[key], q.settings)] else cur
  {
    var cur := InstallKeys(props, q, done);
    var next := InstallKeys(props, q, done + {key});
    var expected := if Decide(cur, key, q.entries[key], q.force) then cur[key := Installed(q.entries[key], q.settings)] else cur;
    assert TypeOfMember(cur, key) == TypeOfMember(props, key);
    forall k ensures (k in next <==> k in expected) && (k in next ==> next[k] == expected[k]) {
      if k != key {
        assert (k in done + {key}) == (k in done);
      }
    }
    assert next == expected;
  }

  /** Visiting a target a second time with the same request changes nothing. */
  lemma InstallIdempotent(props: map<string, Prop>, q: Request)
    ensures Install(Install(props, q), q) == Install(props, q)
  {
    var once := Install(props, q);
    var twice := Install(once, q);
    forall k ensures (k in twice <==> k in once) && (k in twice ==> twice[k] == once[k]) {
      if k in q.entries && k in props && !Decide(props, k, q.entries[k], q.force) {
        assert TypeOfMember(once, k) == TypeOfMember(props, k);
      }
    }
    assert twice == once;
  }

  /** Without `force` and without a `value` in the settings, every name passes the typeof test after one install. */
  lemma SecondVisitDecidesNothing(props: map<string, Prop>, q: Request)
    requires !Truthy(q.force) && "value" !in OwnFields(q.settings)
    ensures forall k :: k in q.entries ==> !Decide(Install(props, q), k, q.entries[k], q.force)
  {
    forall k | k in q.entries ensures !Decide(Install(props, q), k, q.entries[k], q.force) {
      InstalledProperty(q.entries[k], q.settings);
    }
  }

  // ---------------------------------------------------------------------
  // The installer

  /** The inner loop: every name of the request, on one target. */
  method InstallOn(target: Target, q: Request)
    modifies target
    ensures target.props == Install(old(target.props), q)
  {
    var pending := q.entries.Keys;
    while pending != {}
      invariant pending <= q.entries.Keys
      invariant target.props == InstallKeys(old(target.props), q, q.entries.Keys - pending)
      decreases pending
    {
      var key :| key in pending;
      var val := q.entries[key];
      InstallKeysStep(old(target.props), q, q.entries.Keys - pending, key);
      if Truthy(q.force) || TypeOfMember(target.props, key) != TypeOf(val) {
        var desc := new PlainObject(map["value" := val]);
        var _ := Assign(desc, [Defaults, q.settings]);
        DefineProperty(target, key, desc.fields);
      }
      assert q.entries.Keys - (pending - {key}) == (q.entries.Keys - pending) + {key};
      pending := pending - {key};
    }
    assert q.entries.Keys - pending == q.entries.Keys;
  }

  /** One visit of the outer loop: a target seen before is already installed, and stays so. */
  method Visit(target: Target, q: Request, ghost base: map<string, Prop>)
    requires target.props == base || target.props == Install(base, q)
    modifies target
    ensures target.props == Install(base, q)
  {
    InstallIdempotent(base, q);
    InstallOn(target, q);
  }

  /**
    `polyfill(objects, properties, value, settings, force)`.  Every listed
    target ends up installed exactly once (a target listed twice too), and
    nothing outside the list changes.
   */
  method Polyfill(objects: Target, arrayPrototype: Target, properties: Properties,
                  value: Value, settings: Value, force: Value)
    modifies set t | t in Normalise(objects, arrayPrototype)
    ensures forall t :: t in Normalise(objects, arrayPrototype) ==>
      t.props == Install(old(t.props), Overload(properties, value, settings, force))
  {
    var targets := Normalise(objects, arrayPrototype);
    var q := Overload(properties, value, settings, force);
    ghost var done: set<Target> := {};
    var i := 0;
    while i < |targets|
      invariant 0 <= i <= |targets|
      invariant forall j :: 0 <= j < i ==> targets[j] in done
      invariant forall t :: t in done ==> t in targets && t.props == Install(old(t.props), q)
      invariant forall t :: t in targets && t !in done ==> t.props == old(t.props)
    {
      var target := targets[i];
      Visit(target, q, old(target.props));
      done := done + {target};
      i := i + 1;
    }
  }
}
