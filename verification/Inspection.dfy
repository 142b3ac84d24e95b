/** What Home Assistant would do with a device document, finding by finding. */
module Inspection {
  import opened Text
  import opened Documents

  datatype Kind =
    | KindNoDocument | KindCatalog | KindNodeID | KindOrigin | KindDeviceIdentity | KindNoComponents
    | KindUnencodable | KindNonFinite | KindPlatformMissing | KindPlatformUnsupported
    | KindUniqueIDMissing | KindUniqueIDDuplicate | KindUnknownKey | KindRequiredKey | KindDeviceClass
    | KindStateClass | KindOptions | KindLegacyUnit | KindUnitDeviceClass | KindUnitStateClass
    | KindLastReset | KindNumericExpectation | KindEntityCategory | KindNumberBounds
    | KindAvailabilityTopic | KindAvailabilityKey

  datatype Scope = ScopeDocument | ScopeComponent

  /** A key of a body, or of one entry of its availability list. */
  datatype Key = Plain(name: string) | Entry(index: nat, name: string)

  datatype Finding = Finding(scope: Scope, component: string, kind: Kind, error: bool, keys: seq<Key>, strippable: bool)

  /** The findings of one inspection. Their order, which only their messages decide, is left out. */
  type Findings = set<Finding>

  function DocFinding(kind: Kind, component: string, error: bool, keys: seq<Key>): Finding {
    Finding(ScopeDocument, component, kind, error, keys, false)
  }

  function CompError(kind: Kind, component: string, keys: seq<Key>): Finding {
    Finding(ScopeComponent, component, kind, true, keys, false)
  }

  function CompWarning(kind: Kind, component: string, keys: seq<Key>): Finding {
    Finding(ScopeComponent, component, kind, false, keys, false)
  }

  function Strippable(kind: Kind, component: string, key: Key): Finding {
    Finding(ScopeComponent, component, kind, false, [key], true)
  }

  function When(condition: bool, f: Finding): Findings {
    if condition then {f} else {}
  }

  /** A platform's keys, each with whether it is required; platforms with variants choose by a key. */
  datatype Schema = Schema(keys: map<string, bool>, discriminator: string, variants: map<string, map<string, bool>>)

  /** The catalogue. `number` is how a string reads as a number; `defaults` are the number platform's. */
  datatype Tables = Tables(
    supported: set<string>, platforms: map<string, Schema>, deviceClasses: map<string, set<string>>,
    nonNumeric: set<string>, stateClassUnits: map<string, set<string>>, deviceClassUnits: map<string, set<string>>,
    ambiguousUnits: map<string, string>, stateClasses: map<string, set<string>>,
    defaults: map<string, real>, number: string -> Option<real>, blank: string -> bool)

  const NON_ENTITY: set<string> := {"device_automation", "tag"}
  const ENTRY_KEYS: set<string> := {"topic", "payload_available", "payload_not_available", "value_template"}
  const CATEGORIES: set<string> := {"config", "diagnostic"}
  const CONFIG_REFUSED: set<string> := {"sensor", "binary_sensor"}

  function AllowedKeys(schema: Schema, body: Body): set<string> {
    if schema.keys != map[] then schema.keys.Keys
    else if StrAt(body, schema.discriminator) in schema.variants then
      schema.variants[StrAt(body, schema.discriminator)].Keys
    else set v, k | v in schema.variants && k in schema.variants[v] :: k
  }

  function RequiredKeys(schema: Schema, body: Body): set<string> {
    if schema.keys != map[] then set k | k in schema.keys && schema.keys[k]
    else if StrAt(body, schema.discriminator) in schema.variants then
      var chosen := schema.variants[StrAt(body, schema.discriminator)];
      set k | k in chosen && chosen[k]
    else {}
  }

  /** Keys Home Assistant would drop. */
  function UnknownKeys(t: Tables, ignore: set<string>, platform: string, body: Body): set<string> {
    if platform !in t.platforms || AllowedKeys(t.platforms[platform], body) == {} then {}
    else set n | n in body && n != PLATFORM && n !in ignore && n !in AllowedKeys(t.platforms[platform], body)
  }

  function MissingKeys(t: Tables, platform: string, body: Body): set<string> {
    if platform !in t.platforms then {} else RequiredKeys(t.platforms[platform], body) - body.Keys
  }

  function Entries(body: Body): seq<Value> {
    if AVAILABILITY !in body then []
    else
      match body[AVAILABILITY]
      case List(items) => items
      case Obj(_) => [body[AVAILABILITY]]
      case _ => []
  }

  predicate EntryAt(body: Body, i: nat) {
    i < |Entries(body)| && Entries(body)[i].Obj?
  }

  function TopiclessEntries(body: Body): set<nat> {
    set i: nat | i < |Entries(body)| && EntryAt(body, i) && StrAt(Entries(body)[i].fields, "topic") == ""
  }

  function ExtraEntryKeys(body: Body): set<Key> {
    set i: nat, n | i < |Entries(body)| && EntryAt(body, i) && n in Entries(body)[i].fields && n !in ENTRY_KEYS :: Entry(i, n)
  }

  function UnitOf(t: Tables, body: Body): string {
    var unit := StrAt(body, "unit_of_measurement");
    if t.blank(unit) then "" else unit
  }

  predicate StateClassImpossible(t: Tables, body: Body) {
    var dc, sc := StrAt(body, "device_class"), StrAt(body, "state_class");
    sc != "" && dc != "" && dc in t.stateClasses && sc !in t.stateClasses[dc]
  }

  predicate LastResetWithoutTotal(body: Body) {
    "last_reset_value_template" in body && StrAt(body, "state_class") != "total"
  }

  function OptionFindings(t: Tables, key: string, body: Body): (r: Findings)
    ensures forall f | f in r :: f.component == key
  {
    if "options" !in body || body["options"] == Null then {}
    else if body["options"] == List([]) then {CompError(KindOptions, key, [Plain("options")])}
    else
      When(StrAt(body, "device_class") != "enum", CompError(KindOptions, key, [Plain("options"), Plain("device_class")]))
      + When(StrAt(body, "state_class") != "", CompError(KindOptions, key, [Plain("options"), Plain("state_class")]))
      + When(UnitOf(t, body) != "", CompError(KindOptions, key, [Plain("options"), Plain("unit_of_measurement")]))
  }

  function UnitFindings(t: Tables, key: string, body: Body): (r: Findings)
    ensures forall f | f in r :: f.component == key
  {
    var unit, sc, dc := UnitOf(t, body), StrAt(body, "state_class"), StrAt(body, "device_class");
    var legacy := unit != "" && unit in t.ambiguousUnits && t.ambiguousUnits[unit] != unit;
    var normalized := if legacy then t.ambiguousUnits[unit] else unit;
    When(sc != "" && sc in t.stateClassUnits && unit !in t.stateClassUnits[sc],
         CompError(KindUnitStateClass, key, [Plain("unit_of_measurement"), Plain("state_class")]))
    + When(legacy, CompWarning(KindLegacyUnit, key, [Plain("unit_of_measurement")]))
    + When(normalized != "" && dc != "" && dc in t.deviceClassUnits && normalized !in t.deviceClassUnits[dc],
           CompError(KindUnitDeviceClass, key, [Plain("unit_of_measurement"), Plain("device_class")]))
    + When(dc in t.nonNumeric && unit != "" && "options" !in body,
           CompError(KindNumericExpectation, key, [Plain("unit_of_measurement"), Plain("device_class")]))
  }

  function SensorFindings(t: Tables, key: string, body: Body): (r: Findings)
    ensures forall f | f in r :: f.component == key
  {
    When(LastResetWithoutTotal(body), CompError(KindLastReset, key, [Plain("last_reset_value_template"), Plain("state_class")]))
    + OptionFindings(t, key, body)
    + UnitFindings(t, key, body)
    + When(StateClassImpossible(t, body), Strippable(KindStateClass, key, Plain("state_class")))
  }

  function AsNumber(t: Tables, v: Value): Option<real> {
    match v
    case Num(x) => Some(x)
    case Str(s) => t.number(s)
    case Bool(b) => Some(if b then 1.0 else 0.0)
    case _ => None
  }

  function Bound(t: Tables, body: Body, name: string, fallback: real): Option<real> {
    if name in body then AsNumber(t, body[name])
    else if name in t.defaults then Some(t.defaults[name])
    else Some(fallback)
  }

  function NumberFindings(t: Tables, key: string, body: Body): (r: Findings)
    ensures forall f | f in r :: f.component == key
  {
    var unit := StrAt(body, "unit_of_measurement");
    var low, high, step := Bound(t, body, "min", 0.0), Bound(t, body, "max", 100.0), Bound(t, body, "step", 1.0);
    When(unit != "" && unit in t.ambiguousUnits && t.ambiguousUnits[unit] != unit,
         CompWarning(KindLegacyUnit, key, [Plain("unit_of_measurement")]))
    + When(low.None?, CompError(KindNumberBounds, key, [Plain("min")]))
    + When(high.None?, CompError(KindNumberBounds, key, [Plain("max")]))
    + When(step.None? || step.value < 0.001, CompError(KindNumberBounds, key, [Plain("step")]))
    + When(low.Some? && high.Some? && low.value > high.value, CompError(KindNumberBounds, key, [Plain("min"), Plain("max")]))
  }

  predicate CategoryRefused(platform: string, body: Body) {
    && "entity_category" in body
    && body["entity_category"] != Null
    && var category := body["entity_category"];
       || !category.Str?
       || category.s !in CATEGORIES
       || (category.s == "config" && platform in CONFIG_REFUSED)
  }

  function SchemaFindings(t: Tables, ignore: set<string>, key: string, platform: string, body: Body): (r: Findings)
    ensures forall f | f in r :: f.component == key
  {
    (set n | n in UnknownKeys(t, ignore, platform, body) :: Strippable(KindUnknownKey, key, Plain(n)))
    + (set n | n in MissingKeys(t, platform, body) :: CompError(KindRequiredKey, key, [Plain(n)]))
  }

  function AvailabilityFindings(key: string, body: Body): (r: Findings)
    ensures forall f | f in r :: f.component == key
  {
    (set i | i in TopiclessEntries(body) :: CompError(KindAvailabilityTopic, key, [Entry(i, "topic")]))
    + (set k | k in ExtraEntryKeys(body) :: Strippable(KindAvailabilityKey, key, k))
  }

  function ClassFindings(t: Tables, key: string, platform: string, body: Body): (r: Findings)
    ensures forall f | f in r :: f.component == key
  {
    var dc := StrAt(body, "device_class");
    When(dc != "" && platform in t.deviceClasses && dc !in t.deviceClasses[platform],
         CompError(KindDeviceClass, key, [Plain("device_class")]))
    + When(CategoryRefused(platform, body), CompError(KindEntityCategory, key, [Plain("entity_category")]))
  }

  function PlatformFindings(t: Tables, key: string, platform: string, body: Body): (r: Findings)
    ensures forall f | f in r :: f.component == key
  {
    if platform == "sensor" then SensorFindings(t, key, body)
    else if platform == "number" then NumberFindings(t, key, body)
    else {}
  }

  /** The checks of one body on a known platform, apart from its identity. */
  function KeyFindings(t: Tables, ignore: set<string>, key: string, platform: string, body: Body): (r: Findings)
    ensures forall f | f in r :: f.component == key
  {
    SchemaFindings(t, ignore, key, platform, body)
    + (if AVAILABILITY in ignore then {} else AvailabilityFindings(key, body))
    + ClassFindings(t, key, platform, body)
    + PlatformFindings(t, key, platform, body)
  }

  /** What a walk judges by: the platforms Home Assistant supports, and the checks of one body that gets
      past the platform and the identity, under its key. */
  datatype Judge = Judge(supported: set<string>, check: (string, Body) -> Findings)

  /** The catalogue's judge. */
  function JudgeOf(t: Tables, ignore: set<string>): Judge {
    Judge(t.supported, (key: string, body: Body) => KeyFindings(t, ignore, key, StrAt(body, PLATFORM), body))
  }

  /** Findings carry the key they were found under. */
  ghost predicate Named(judge: Judge) {
    forall key, body, f | f in judge.check(key, body) :: f.component == key
  }

  /** A body that gets past the platform checks and is no removal. */
  predicate Judged(judge: Judge, body: Body) {
    StrAt(body, PLATFORM) != "" && StrAt(body, PLATFORM) in judge.supported && !IsRemoval(body)
  }

  /** What the registry keys an entity on, once the body is judged. */
  function Identity(judge: Judge, c: Component): Option<(string, string)> {
    if !c.encoding.Encoded? || !Judged(judge, c.encoding.body) || StrAt(c.encoding.body, UNIQUE_ID) == "" then None
    else Some((StrAt(c.encoding.body, PLATFORM), StrAt(c.encoding.body, UNIQUE_ID)))
  }

  /** body: `taken` says an earlier key already has this identity. */
  function BodyFindings(judge: Judge, key: string, body: Body, taken: bool): Findings {
    var platform := StrAt(body, PLATFORM);
    if platform == "" then {DocFinding(KindPlatformMissing, key, true, [Plain(PLATFORM)])}
    else if platform !in judge.supported then {DocFinding(KindPlatformUnsupported, key, true, [Plain(PLATFORM)])}
    else if IsRemoval(body) then {}
    else if StrAt(body, UNIQUE_ID) == "" && platform !in NON_ENTITY then
      {DocFinding(KindUniqueIDMissing, key, true, [Plain(UNIQUE_ID)])}
    else
      When(StrAt(body, UNIQUE_ID) != "" && taken, CompError(KindUniqueIDDuplicate, key, [Plain(UNIQUE_ID)]))
      + judge.check(key, body)
  }

  function ComponentFindings(judge: Judge, key: string, c: Component, taken: bool): Findings {
    match c.encoding
    case NonFinite(names) => {DocFinding(KindNonFinite, key, true, seq(|names|, i requires 0 <= i < |names| => Plain(names[i])))}
    case Unencodable => {DocFinding(KindUnencodable, key, true, [])}
    case Encoded(body) => BodyFindings(judge, key, body, taken)
  }

  /** An earlier component of the document has this one's identity. */
  predicate Taken(judge: Judge, components: map<string, Component>, key: string)
    requires key in components
  {
    Identity(judge, components[key]).Some? &&
    exists k | k in components :: Less(k, key) && Identity(judge, components[k]) == Identity(judge, components[key])
  }

  predicate LegalID(id: string) {
    id != "" && forall i | 0 <= i < |id| :: 'a' <= id[i] <= 'z' || 'A' <= id[i] <= 'Z' || '0' <= id[i] <= '9' || id[i] in {'_', '-'}
  }

  function FrameFindings(b: Document): (r: Findings)
    ensures forall f | f in r :: f.component == ""
  {
    When(!LegalID(b.nodeID), DocFinding(KindNodeID, "", true, []))
    + When(b.originName == "", DocFinding(KindOrigin, "", false, [Plain("origin.name")]))
    + When(b.identifiers == [] && b.connections == [],
           DocFinding(KindDeviceIdentity, "", true, [Plain("device.identifiers"), Plain("device.connections")]))
    + When(b.components == map[], DocFinding(KindNoComponents, "", false, [Plain("components")]))
  }

  function FindingsAt(judge: Judge, components: map<string, Component>, key: string): Findings {
    if key !in components then {}
    else ComponentFindings(judge, key, components[key], Taken(judge, components, key))
  }

  function AllFindings(judge: Judge, components: map<string, Component>): (r: Findings)
    ensures forall f :: f in r <==> exists k :: f in FindingsAt(judge, components, k)
  {
    set k, f | k in components && f in FindingsAt(judge, components, k) :: f
  }

  /** Inspect, on a readable catalogue. */
  function Inspect(judge: Judge, b: Document): Findings {
    FrameFindings(b) + AllFindings(judge, b.components)
  }

  /** Every finding about a component carries its key. */
  lemma ComponentFindingsName(judge: Judge, key: string, c: Component, taken: bool, f: Finding)
    requires Named(judge)
    requires f in ComponentFindings(judge, key, c, taken)
    ensures f.component == key
  {
  }

  /** inspector: appends findings and remembers identities while it walks the sorted keys. */
  class Inspector {
    const judge: Judge
    var seen: map<(string, string), string>
    var out: Findings

    constructor (judge: Judge)
      ensures this.judge == judge && seen == map[] && out == {}
    {
      this.judge, seen, out := judge, map[], {};
    }

    method JudgeComponent(key: string, c: Component)
      modifies this
      ensures var id := Identity(judge, c);
              && out == old(out) + ComponentFindings(judge, key, c, id.Some? && id.value in old(seen))
              && seen == if id.Some? && id.value !in old(seen) then old(seen)[id.value := key] else old(seen)
    {
      if c.encoding.NonFinite? {
        var names := c.encoding.names;
        out := out + {DocFinding(KindNonFinite, key, true, seq(|names|, i requires 0 <= i < |names| => Plain(names[i])))};
        return;
      }
      if c.encoding.Unencodable? {
        out := out + {DocFinding(KindUnencodable, key, true, [])};
        return;
      }
      var body := c.encoding.body;
      var platform := StrAt(body, PLATFORM);
      if platform == "" {
        out := out + {DocFinding(KindPlatformMissing, key, true, [Plain(PLATFORM)])};
        return;
      }
      if platform !in judge.supported {
        out := out + {DocFinding(KindPlatformUnsupported, key, true, [Plain(PLATFORM)])};
        return;
      }
      if IsRemoval(body) {
        return;
      }
      var uniqueID := StrAt(body, UNIQUE_ID);
      if uniqueID == "" && platform !in NON_ENTITY {
        out := out + {DocFinding(KindUniqueIDMissing, key, true, [Plain(UNIQUE_ID)])};
        return;
      }
      if uniqueID != "" {
        if (platform, uniqueID) in seen {
          out := out + {CompError(KindUniqueIDDuplicate, key, [Plain(UNIQUE_ID)])};
        } else {
          seen := seen[(platform, uniqueID) := key];
        }
      }
      out := out + judge.check(key, body);
    }

    /** The whole walk: what it has seen is exactly what earlier keys took. */
    method Walk(components: map<string, Component>, order: seq<string>)
      requires Lists(order, components.Keys)
      requires seen == map[]
      modifies this
      ensures forall f :: f in out <==> f in old(out) || exists k :: f in FindingsAt(judge, components, k)
    {
      ghost var before := out;
      ghost var at := (k: string) => FindingsAt(judge, components, k);
      ghost var parts: seq<Findings> := [];
      for i := 0 to |order|
        invariant SeenUpTo(judge, components, order, i, seen)
        invariant |parts| == i && Found(at, order, parts)
        invariant out == before + Union(parts)
      {
        ghost var found := JudgeKey(components, order, i);
        parts := parts + [found];
      }
      FoundEverywhere(at, order, components.Keys, parts);
      assert forall f, k :: f in FindingsAt(judge, components, k) <==> f in at(k);
    }

    method JudgeKey(components: map<string, Component>, order: seq<string>, i: nat) returns (ghost found: Findings)
      requires Lists(order, components.Keys) && i < |order|
      requires SeenUpTo(judge, components, order, i, seen)
      modifies this
      ensures found == FindingsAt(judge, components, order[i])
      ensures out == old(out) + found
      ensures SeenUpTo(judge, components, order, i + 1, seen)
    {
      var key := order[i];
      TakenIsSeen(judge, components, order, i);
      JudgeComponent(key, components[key]);
      SeenGrows(judge, components, order, i, old(seen), seen);
      found := FindingsAt(judge, components, key);
    }
  }

  function Union(parts: seq<Findings>): Findings {
    if parts == [] then {} else Union(parts[..|parts| - 1]) + parts[|parts| - 1]
  }

  /** What was found at the first keys, key by key. */
  predicate Found(at: string -> Findings, order: seq<string>, parts: seq<Findings>) {
    |parts| <= |order| && forall j | 0 <= j < |parts| :: parts[j] == at(order[j])
  }

  lemma {:induction false} InUnion(parts: seq<Findings>, f: Finding)
    ensures f in Union(parts) <==> exists j :: 0 <= j < |parts| && f in parts[j]
  {
    if parts != [] {
      InUnion(parts[..|parts| - 1], f);
    }
  }

  lemma FoundEverywhere(at: string -> Findings, order: seq<string>, keys: set<string>, parts: seq<Findings>)
    requires Lists(order, keys) && |parts| == |order| && Found(at, order, parts)
    requires forall k | k !in keys :: at(k) == {}
    ensures forall f :: f in Union(parts) <==> exists k :: f in at(k)
  {
    forall f ensures f in Union(parts) <==> exists k :: f in at(k) {
      InUnion(parts, f);
      if k :| f in at(k) {
        var j :| 0 <= j < |order| && order[j] == k;
        assert f in parts[j];
      }
    }
  }

  /** The identities of the first n keys, as the walk remembers them. */
  ghost predicate SeenUpTo(judge: Judge, components: map<string, Component>, order: seq<string>, n: nat, seen: map<(string, string), string>)
    requires n <= |order| && forall k | k in order :: k in components
  {
    forall id :: id in seen <==> exists j :: 0 <= j < n && Identity(judge, components[order[j]]) == Some(id)
  }

  lemma SeenGrows(judge: Judge, components: map<string, Component>, order: seq<string>, n: nat,
                  was: map<(string, string), string>, seen: map<(string, string), string>)
    requires n < |order| && forall k | k in order :: k in components
    requires SeenUpTo(judge, components, order, n, was)
    requires var id := Identity(judge, components[order[n]]);
             seen == if id.Some? && id.value !in was then was[id.value := order[n]] else was
    ensures SeenUpTo(judge, components, order, n + 1, seen)
  {
    forall id ensures id in seen <==> exists j :: 0 <= j < n + 1 && Identity(judge, components[order[j]]) == Some(id) {
      if id in was {
        var j :| 0 <= j < n && Identity(judge, components[order[j]]) == Some(id);
      }
    }
  }

  lemma TakenIsSeen(judge: Judge, components: map<string, Component>, order: seq<string>, i: nat)
    requires Lists(order, components.Keys) && i < |order|
    ensures Taken(judge, components, order[i]) <==>
              (Identity(judge, components[order[i]]).Some?
               && exists j :: 0 <= j < i && Identity(judge, components[order[j]]) == Identity(judge, components[order[i]]))
  {
    var id := Identity(judge, components[order[i]]);
    if Taken(judge, components, order[i]) {
      var k :| k in components && Less(k, order[i]) && Identity(judge, components[k]) == id;
      var j :| 0 <= j < |order| && order[j] == k;
      LessIsTotal(k, order[i]);
      assert j < i;
    }
  }

  /** Inspect, as it runs: the frame first, then the components in key order. */
  method InspectDocument(judge: Judge, b: Document) returns (fs: Findings)
    ensures fs == Inspect(judge, b)
  {
    var inspector := new Inspector(judge);
    inspector.out := FrameFindings(b);
    var order := SortedKeys(b.components.Keys);
    inspector.Walk(b.components, order);
    fs := inspector.out;
  }

  /** Inspect of whatever it is given: no bundle, or a catalogue that cannot be read, is the only finding. */
  method InspectGiven(judge: Option<Judge>, b: Option<Document>) returns (fs: Findings)
    ensures b.None? ==> fs == {DocFinding(KindNoDocument, "", true, [])}
    ensures b.Some? && judge.None? ==> fs == {DocFinding(KindCatalog, "", true, [])}
    ensures b.Some? && judge.Some? ==> fs == Inspect(judge.value, b.value)
  {
    if b.None? {
      return {DocFinding(KindNoDocument, "", true, [])};
    }
    if judge.None? {
      return {DocFinding(KindCatalog, "", true, [])};
    }
    fs := InspectDocument(judge.value, b.value);
  }
}
