/** What makes a document wrong, said over the document and the tables alone: the walk reports exactly that. */
module Conformity {
  import opened Text
  import opened Documents
  import opened Inspection
  import opened Containment
  import opened Acceptance
  import opened CatalogueRules

  /** The text at a key, or none. */
  function Word(body: Body, key: string): string {
    if key in body then (match body[key] case Str(s) => s case _ => "") else ""
  }

  /** A unit of blanks is no unit. */
  function Unit(t: Tables, body: Body): string {
    if t.blank(Word(body, "unit_of_measurement")) then "" else Word(body, "unit_of_measurement")
  }

  // ------------------------------------------------------------- the conditions

  /** The key is one of the platform's, or of the variant the body chooses, or of some variant if it
      chooses none. */
  predicate LegalKey(schema: Schema, body: Body, n: string) {
    if schema.keys != map[] then n in schema.keys
    else
      var chosen := Word(body, schema.discriminator);
      if chosen in schema.variants then n in schema.variants[chosen]
      else exists v | v in schema.variants :: n in schema.variants[v]
  }

  predicate RequiredKey(schema: Schema, body: Body, n: string) {
    if schema.keys != map[] then n in schema.keys && schema.keys[n]
    else
      var chosen := Word(body, schema.discriminator);
      chosen in schema.variants && n in schema.variants[chosen] && schema.variants[chosen][n]
  }

  /** Home Assistant knows the platform's keys, and this is not one of them. */
  ghost predicate Unknown(t: Tables, ignore: set<string>, body: Body, n: string) {
    var p := Word(body, "platform");
    && n in body && n != "platform" && n !in ignore
    && p in t.platforms && !LegalKey(t.platforms[p], body, n) && exists m :: LegalKey(t.platforms[p], body, m)
  }

  predicate Missing(t: Tables, body: Body, n: string) {
    var p := Word(body, "platform");
    p in t.platforms && n !in body && RequiredKey(t.platforms[p], body, n)
  }

  /** The i-th availability entry; a single object is the first. */
  predicate AvailabilityEntry(body: Body, i: nat, entry: map<string, Value>) {
    && "availability" in body
    && match body["availability"]
       case List(items) => i < |items| && items[i] == Obj(entry)
       case Obj(fields) => i == 0 && fields == entry
       case _ => false
  }

  predicate HasTopic(entry: map<string, Value>) {
    "topic" in entry && entry["topic"].Str? && entry["topic"].s != ""
  }

  predicate WrongClass(t: Tables, body: Body) {
    var p, dc := Word(body, "platform"), Word(body, "device_class");
    dc != "" && p in t.deviceClasses && dc !in t.deviceClasses[p]
  }

  /** Only two categories exist, and a sensor, binary or not, is never configuration. */
  predicate RightCategory(body: Body) {
    || "entity_category" !in body
    || body["entity_category"] == Null
    || body["entity_category"] == Str("diagnostic")
    || (body["entity_category"] == Str("config") && Word(body, "platform") != "sensor" && Word(body, "platform") != "binary_sensor")
  }

  predicate WrongReset(body: Body) {
    "last_reset_value_template" in body && Word(body, "state_class") != "total"
  }

  /** Options that are given at all. */
  predicate HasOptions(body: Body) {
    "options" in body && body["options"] != Null && body["options"] != List([])
  }

  predicate WrongStateClassUnit(t: Tables, body: Body) {
    var sc := Word(body, "state_class");
    sc != "" && sc in t.stateClassUnits && Unit(t, body) !in t.stateClassUnits[sc]
  }

  /** An old spelling with a newer one in the tables. */
  predicate Legacy(t: Tables, unit: string) {
    unit != "" && unit in t.ambiguousUnits && t.ambiguousUnits[unit] != unit
  }

  predicate WrongDeviceClassUnit(t: Tables, body: Body) {
    var dc, unit := Word(body, "device_class"), Unit(t, body);
    var spelled := if Legacy(t, unit) then t.ambiguousUnits[unit] else unit;
    dc != "" && spelled != "" && dc in t.deviceClassUnits && spelled !in t.deviceClassUnits[dc]
  }

  predicate WrongStateClass(t: Tables, body: Body) {
    var dc, sc := Word(body, "device_class"), Word(body, "state_class");
    dc != "" && sc != "" && dc in t.stateClasses && sc !in t.stateClasses[dc]
  }

  predicate WrongNumeric(t: Tables, body: Body) {
    Word(body, "device_class") in t.nonNumeric && Unit(t, body) != "" && "options" !in body
  }

  /** What a number bound comes to; None when what is given is no number. */
  function BoundOf(t: Tables, body: Body, name: string, fallback: real): Option<real> {
    if name !in body then Some(if name in t.defaults then t.defaults[name] else fallback)
    else
      match body[name]
      case Num(x) => Some(x)
      case Str(s) => t.number(s)
      case Bool(on) => Some(if on then 1.0 else 0.0)
      case _ => None
  }

  predicate WrongOrder(t: Tables, body: Body) {
    var low, high := BoundOf(t, body, "min", 0.0), BoundOf(t, body, "max", 100.0);
    low.Some? && high.Some? && high.value < low.value
  }

  predicate WrongStep(t: Tables, body: Body) {
    var step := BoundOf(t, body, "step", 1.0);
    step.None? || step.value < 0.001
  }

  // ---------------------------------------------------------- what is reported

  /** A complaint about these keys of this component, as an error or as a warning that can be stripped or not. */
  predicate About(f: Finding, key: string, error: bool, strippable: bool, keys: seq<Key>) {
    f.scope == ScopeComponent && f.component == key && f.error == error && f.strippable == strippable && f.keys == keys
  }

  ghost predicate SchemaDue(t: Tables, ignore: set<string>, key: string, body: Body, f: Finding) {
    match f.kind
    case KindUnknownKey => exists n :: Unknown(t, ignore, body, n) && About(f, key, false, true, [Plain(n)])
    case KindRequiredKey => exists n :: Missing(t, body, n) && About(f, key, true, false, [Plain(n)])
    case _ => false
  }

  ghost predicate NestedDue(ignore: set<string>, key: string, body: Body, f: Finding) {
    && "availability" !in ignore
    && match f.kind
       case KindAvailabilityTopic =>
         exists i, e :: AvailabilityEntry(body, i, e) && !HasTopic(e) && About(f, key, true, false, [Entry(i, "topic")])
       case KindAvailabilityKey =>
         exists i, e, n :: AvailabilityEntry(body, i, e) && n in e && !EntryKey(n) && About(f, key, false, true, [Entry(i, n)])
       case _ => false
  }

  predicate EntryKey(n: string) {
    n == "topic" || n == "payload_available" || n == "payload_not_available" || n == "value_template"
  }

  predicate ClassDue(t: Tables, key: string, body: Body, f: Finding) {
    match f.kind
    case KindDeviceClass => WrongClass(t, body) && About(f, key, true, false, [Plain("device_class")])
    case KindEntityCategory => !RightCategory(body) && About(f, key, true, false, [Plain("entity_category")])
    case _ => false
  }

  predicate OptionsDue(t: Tables, key: string, body: Body, f: Finding) {
    || ("options" in body && body["options"] == List([]) && About(f, key, true, false, [Plain("options")]))
    || (HasOptions(body) && Word(body, "device_class") != "enum"
        && About(f, key, true, false, [Plain("options"), Plain("device_class")]))
    || (HasOptions(body) && Word(body, "state_class") != ""
        && About(f, key, true, false, [Plain("options"), Plain("state_class")]))
    || (HasOptions(body) && Unit(t, body) != ""
        && About(f, key, true, false, [Plain("options"), Plain("unit_of_measurement")]))
  }

  predicate SensorDue(t: Tables, key: string, body: Body, f: Finding) {
    match f.kind
    case KindLastReset =>
      WrongReset(body) && About(f, key, true, false, [Plain("last_reset_value_template"), Plain("state_class")])
    case KindOptions => OptionsDue(t, key, body, f)
    case KindUnitStateClass =>
      WrongStateClassUnit(t, body) && About(f, key, true, false, [Plain("unit_of_measurement"), Plain("state_class")])
    case KindLegacyUnit => Legacy(t, Unit(t, body)) && About(f, key, false, false, [Plain("unit_of_measurement")])
    case KindUnitDeviceClass =>
      WrongDeviceClassUnit(t, body) && About(f, key, true, false, [Plain("unit_of_measurement"), Plain("device_class")])
    case KindStateClass => WrongStateClass(t, body) && About(f, key, false, true, [Plain("state_class")])
    case KindNumericExpectation =>
      WrongNumeric(t, body) && About(f, key, true, false, [Plain("unit_of_measurement"), Plain("device_class")])
    case _ => false
  }

  predicate NumberDue(t: Tables, key: string, body: Body, f: Finding) {
    match f.kind
    case KindLegacyUnit =>
      Legacy(t, Word(body, "unit_of_measurement")) && About(f, key, false, false, [Plain("unit_of_measurement")])
    case KindNumberBounds =>
      || (BoundOf(t, body, "min", 0.0).None? && About(f, key, true, false, [Plain("min")]))
      || (BoundOf(t, body, "max", 100.0).None? && About(f, key, true, false, [Plain("max")]))
      || (WrongStep(t, body) && About(f, key, true, false, [Plain("step")]))
      || (WrongOrder(t, body) && About(f, key, true, false, [Plain("min"), Plain("max")]))
    case _ => false
  }

  /** Everything the tables have to say about one body. */
  ghost predicate Due(t: Tables, ignore: set<string>, key: string, body: Body, f: Finding) {
    || SchemaDue(t, ignore, key, body, f)
    || NestedDue(ignore, key, body, f)
    || ClassDue(t, key, body, f)
    || (Word(body, "platform") == "sensor" && SensorDue(t, key, body, f))
    || (Word(body, "platform") == "number" && NumberDue(t, key, body, f))
  }

  lemma SameWord(body: Body, key: string)
    ensures StrAt(body, key) == Word(body, key)
  {
  }

  lemma SchemaReported(t: Tables, ignore: set<string>, key: string, body: Body, f: Finding)
    ensures f in SchemaFindings(t, ignore, key, Word(body, "platform"), body) <==> SchemaDue(t, ignore, key, body, f)
  {
    var p := Word(body, "platform");
    if p in t.platforms {
      LegalIsAllowedKey(t.platforms[p], body);
    }
    forall n ensures n in UnknownKeys(t, ignore, p, body) <==> Unknown(t, ignore, body, n) {
    }
    forall n ensures n in MissingKeys(t, p, body) <==> Missing(t, body, n) {
    }
  }

  lemma LegalIsAllowedKey(schema: Schema, body: Body)
    ensures forall n :: n in AllowedKeys(schema, body) <==> LegalKey(schema, body, n)
    ensures forall n :: n in RequiredKeys(schema, body) <==> RequiredKey(schema, body, n)
  {
    SameWord(body, schema.discriminator);
  }

  lemma SameEntries(body: Body, i: nat)
    ensures EntryAt(body, i) ==> AvailabilityEntry(body, i, Entries(body)[i].fields)
    ensures forall e :: AvailabilityEntry(body, i, e) ==> EntryAt(body, i) && Entries(body)[i] == Obj(e)
  {
  }

  lemma TopicReported(key: string, body: Body, f: Finding)
    ensures f in (set i | i in TopiclessEntries(body) :: CompError(KindAvailabilityTopic, key, [Entry(i, "topic")]))
            <==> f.kind == KindAvailabilityTopic && NestedDue({}, key, body, f)
  {
    if i :| i in TopiclessEntries(body) && f == CompError(KindAvailabilityTopic, key, [Entry(i, "topic")]) {
      SameEntries(body, i);
      assert !HasTopic(Entries(body)[i].fields);
    }
    if f.kind == KindAvailabilityTopic && NestedDue({}, key, body, f) {
      var i, e :| AvailabilityEntry(body, i, e) && !HasTopic(e) && About(f, key, true, false, [Entry(i, "topic")]);
      SameEntries(body, i);
      assert i in TopiclessEntries(body);
    }
  }

  lemma EntryKeysReported(key: string, body: Body, f: Finding)
    ensures f in (set k | k in ExtraEntryKeys(body) :: Strippable(KindAvailabilityKey, key, k))
            <==> f.kind == KindAvailabilityKey && NestedDue({}, key, body, f)
  {
    if k :| k in ExtraEntryKeys(body) && f == Strippable(KindAvailabilityKey, key, k) {
      SameEntries(body, k.index);
      assert !EntryKey(k.name);
    }
    if f.kind == KindAvailabilityKey && NestedDue({}, key, body, f) {
      var i, e, n :| AvailabilityEntry(body, i, e) && n in e && !EntryKey(n) && About(f, key, false, true, [Entry(i, n)]);
      SameEntries(body, i);
      assert Entry(i, n) in ExtraEntryKeys(body);
    }
  }

  lemma NestedReported(key: string, body: Body, f: Finding)
    ensures f in AvailabilityFindings(key, body) <==> NestedDue({}, key, body, f)
  {
    TopicReported(key, body, f);
    EntryKeysReported(key, body, f);
  }

  lemma ClassReported(t: Tables, key: string, body: Body, f: Finding)
    ensures f in ClassFindings(t, key, Word(body, "platform"), body) <==> ClassDue(t, key, body, f)
  {
    SameWord(body, "device_class");
  }

  lemma OptionsReported(t: Tables, key: string, body: Body, f: Finding)
    ensures f in OptionFindings(t, key, body) <==> f.kind == KindOptions && OptionsDue(t, key, body, f)
  {
    SameWord(body, "device_class");
    SameWord(body, "state_class");
    SameWord(body, "unit_of_measurement");
  }

  predicate UnitDue(t: Tables, key: string, body: Body, f: Finding) {
    && (f.kind == KindUnitStateClass || f.kind == KindLegacyUnit || f.kind == KindUnitDeviceClass || f.kind == KindNumericExpectation)
    && SensorDue(t, key, body, f)
  }

  lemma StateClassUnitReported(t: Tables, key: string, body: Body, f: Finding)
    requires f.kind == KindUnitStateClass
    ensures f in UnitFindings(t, key, body) <==> UnitDue(t, key, body, f)
  {
    SameWord(body, "device_class");
    SameWord(body, "state_class");
    SameWord(body, "unit_of_measurement");
  }

  lemma LegacyUnitReported(t: Tables, key: string, body: Body, f: Finding)
    requires f.kind == KindLegacyUnit
    ensures f in UnitFindings(t, key, body) <==> UnitDue(t, key, body, f)
  {
    SameWord(body, "device_class");
    SameWord(body, "state_class");
    SameWord(body, "unit_of_measurement");
  }

  lemma DeviceClassUnitReported(t: Tables, key: string, body: Body, f: Finding)
    requires f.kind == KindUnitDeviceClass
    ensures f in UnitFindings(t, key, body) <==> UnitDue(t, key, body, f)
  {
    SameWord(body, "device_class");
    SameWord(body, "state_class");
    SameWord(body, "unit_of_measurement");
  }

  lemma NumericReported(t: Tables, key: string, body: Body, f: Finding)
    requires f.kind == KindNumericExpectation
    ensures f in UnitFindings(t, key, body) <==> UnitDue(t, key, body, f)
  {
    SameWord(body, "device_class");
    SameWord(body, "state_class");
    SameWord(body, "unit_of_measurement");
  }

  lemma UnitsReported(t: Tables, key: string, body: Body, f: Finding)
    ensures f in UnitFindings(t, key, body) <==> UnitDue(t, key, body, f)
  {
    match f.kind
    case KindUnitStateClass => StateClassUnitReported(t, key, body, f);
    case KindLegacyUnit => LegacyUnitReported(t, key, body, f);
    case KindUnitDeviceClass => DeviceClassUnitReported(t, key, body, f);
    case KindNumericExpectation => NumericReported(t, key, body, f);
    case _ => NoOtherUnits(t, key, body, f);
  }

  lemma NoOtherUnits(t: Tables, key: string, body: Body, f: Finding)
    requires f.kind != KindUnitStateClass && f.kind != KindLegacyUnit && f.kind != KindUnitDeviceClass && f.kind != KindNumericExpectation
    ensures f !in UnitFindings(t, key, body)
  {
  }

  lemma ResetReported(key: string, body: Body, f: Finding)
    ensures f in When(LastResetWithoutTotal(body), CompError(KindLastReset, key, [Plain("last_reset_value_template"), Plain("state_class")]))
            <==> f.kind == KindLastReset && WrongReset(body)
                 && About(f, key, true, false, [Plain("last_reset_value_template"), Plain("state_class")])
  {
    SameWord(body, "state_class");
  }

  lemma StateClassReported(t: Tables, key: string, body: Body, f: Finding)
    ensures f in When(StateClassImpossible(t, body), Strippable(KindStateClass, key, Plain("state_class")))
            <==> f.kind == KindStateClass && WrongStateClass(t, body) && About(f, key, false, true, [Plain("state_class")])
  {
    SameWord(body, "device_class");
    SameWord(body, "state_class");
  }

  lemma SensorReported(t: Tables, key: string, body: Body, f: Finding)
    ensures f in SensorFindings(t, key, body) <==> SensorDue(t, key, body, f)
  {
    OptionsReported(t, key, body, f);
    UnitsReported(t, key, body, f);
    ResetReported(key, body, f);
    StateClassReported(t, key, body, f);
  }

  lemma NumberUnitReported(t: Tables, key: string, body: Body, f: Finding)
    requires f.kind == KindLegacyUnit
    ensures f in NumberFindings(t, key, body) <==> NumberDue(t, key, body, f)
  {
    SameWord(body, "unit_of_measurement");
  }

  lemma SameBound(t: Tables, body: Body, name: string, fallback: real)
    ensures Bound(t, body, name, fallback) == BoundOf(t, body, name, fallback)
  {
  }

  lemma BoundsReported(t: Tables, key: string, body: Body, f: Finding)
    requires f.kind != KindLegacyUnit
    ensures f in NumberFindings(t, key, body) <==> NumberDue(t, key, body, f)
  {
    SameBound(t, body, "min", 0.0);
    SameBound(t, body, "max", 100.0);
    SameBound(t, body, "step", 1.0);
  }

  lemma NumberReported(t: Tables, key: string, body: Body, f: Finding)
    ensures f in NumberFindings(t, key, body) <==> NumberDue(t, key, body, f)
  {
    if f.kind == KindLegacyUnit {
      NumberUnitReported(t, key, body, f);
    } else {
      BoundsReported(t, key, body, f);
    }
  }

  /** The checks of one body report exactly what is due. */
  lemma BodyReported(t: Tables, ignore: set<string>, key: string, body: Body, f: Finding)
    ensures f in KeyFindings(t, ignore, key, StrAt(body, PLATFORM), body) <==> Due(t, ignore, key, body, f)
  {
    SameWord(body, "platform");
    SchemaReported(t, ignore, key, body, f);
    NestedReported(key, body, f);
    ClassReported(t, key, body, f);
    SensorReported(t, key, body, f);
    NumberReported(t, key, body, f);
  }

  // ------------------------------------------------------------- the whole walk

  /** More than a platform is there. */
  predicate Whole(body: Body) {
    exists n | n in body :: n != "platform"
  }

  /** What an entity is registered under, if this component is one Home Assistant would register. */
  predicate IsEntity(t: Tables, c: Component, platform: string, id: string) {
    && c.encoding.Encoded? && Word(c.encoding.body, "platform") == platform && platform != "" && platform in t.supported
    && Whole(c.encoding.body) && Word(c.encoding.body, "unique_id") == id && id != ""
  }

  /** An earlier key has the same platform and identity. */
  ghost predicate IsDuplicate(t: Tables, b: Document, key: string)
    requires key in b.components
  {
    exists p, id, k ::
      IsEntity(t, b.components[key], p, id) && k in b.components && Less(k, key) && IsEntity(t, b.components[k], p, id)
  }

  /** A complaint about the whole document because of this component. */
  predicate DocumentAbout(f: Finding, key: string, keys: seq<Key>) {
    f == Finding(ScopeDocument, key, f.kind, true, keys, false)
  }

  /** Everything there is to say about the component at this key. */
  ghost predicate DueAt(t: Tables, ignore: set<string>, b: Document, key: string, f: Finding)
    requires key in b.components
  {
    match b.components[key].encoding
    case NonFinite(names) =>
      f.kind == KindNonFinite && |f.keys| == |names| && DocumentAbout(f, key, f.keys)
      && forall i | 0 <= i < |names| :: f.keys[i] == Plain(names[i])
    case Unencodable => f.kind == KindUnencodable && DocumentAbout(f, key, [])
    case Encoded(body) => BodyDue(t.supported, key, body, IsDuplicate(t, b, key), Due(t, ignore, key, body, f), f)
  }

  /** What there is to say about a body, given whether its identity is taken and whether the tables complain. */
  predicate BodyDue(supported: set<string>, key: string, body: Body, duplicate: bool, due: bool, f: Finding) {
    var p := Word(body, "platform");
    if p == "" then f.kind == KindPlatformMissing && DocumentAbout(f, key, [Plain("platform")])
    else if p !in supported then f.kind == KindPlatformUnsupported && DocumentAbout(f, key, [Plain("platform")])
    else if !Whole(body) then false
    else if Word(body, "unique_id") == "" && p != "tag" && p != "device_automation" then
      f.kind == KindUniqueIDMissing && DocumentAbout(f, key, [Plain("unique_id")])
    else
      || (f.kind == KindUniqueIDDuplicate && Word(body, "unique_id") != "" && duplicate
          && About(f, key, true, false, [Plain("unique_id")]))
      || due
  }

  lemma BodyFindingsReported(judge: Judge, key: string, body: Body, taken: bool, due: bool, f: Finding)
    requires due <==> f in judge.check(key, body)
    ensures f in BodyFindings(judge, key, body, taken) <==> BodyDue(judge.supported, key, body, taken, due, f)
  {
    SameWord(body, "platform");
    SameWord(body, "unique_id");
    assert Whole(body) <==> !IsRemoval(body);
  }

  lemma TakenIsDuplicate(t: Tables, ignore: set<string>, b: Document, key: string)
    requires key in b.components
    ensures Taken(JudgeOf(t, ignore), b.components, key) <==> IsDuplicate(t, b, key)
  {
    var judge := JudgeOf(t, ignore);
    forall k | k in b.components
      ensures Identity(judge, b.components[k]).Some? ==>
                IsEntity(t, b.components[k], Identity(judge, b.components[k]).value.0, Identity(judge, b.components[k]).value.1)
      ensures forall p, id :: IsEntity(t, b.components[k], p, id) ==> Identity(judge, b.components[k]) == Some((p, id)) {
      EntityIdentity(t, ignore, b.components[k]);
    }
  }

  lemma EntityIdentity(t: Tables, ignore: set<string>, c: Component)
    ensures var id := Identity(JudgeOf(t, ignore), c); id.Some? ==> IsEntity(t, c, id.value.0, id.value.1)
    ensures forall p, id :: IsEntity(t, c, p, id) ==> Identity(JudgeOf(t, ignore), c) == Some((p, id))
  {
    if c.encoding.Encoded? {
      SameWord(c.encoding.body, "platform");
      SameWord(c.encoding.body, "unique_id");
      assert Whole(c.encoding.body) <==> !IsRemoval(c.encoding.body);
    }
  }

  lemma ComponentReported(t: Tables, ignore: set<string>, b: Document, key: string, f: Finding)
    requires key in b.components
    ensures f in FindingsAt(JudgeOf(t, ignore), b.components, key) <==> DueAt(t, ignore, b, key, f)
  {
    var judge := JudgeOf(t, ignore);
    match b.components[key].encoding
    case NonFinite(names) => NonFiniteReported(key, names, f);
    case Unencodable =>
    case Encoded(body) =>
      TakenIsDuplicate(t, ignore, b, key);
      BodyReported(t, ignore, key, body, f);
      BodyFindingsReported(judge, key, body, Taken(judge, b.components, key), Due(t, ignore, key, body, f), f);
  }

  lemma NonFiniteReported(key: string, names: seq<string>, f: Finding)
    ensures f == DocFinding(KindNonFinite, key, true, seq(|names|, i requires 0 <= i < |names| => Plain(names[i])))
            <==> f.kind == KindNonFinite && |f.keys| == |names| && DocumentAbout(f, key, f.keys)
                 && forall i | 0 <= i < |names| :: f.keys[i] == Plain(names[i])
  {
    if |f.keys| == |names| && forall i | 0 <= i < |names| :: f.keys[i] == Plain(names[i]) {
      assert f.keys == seq(|names|, i requires 0 <= i < |names| => Plain(names[i]));
    }
  }

  /** The walk's findings about a component are exactly those, of their kinds, under its key. */
  lemma InspectReports(t: Tables, ignore: set<string>, b: Document, key: string, f: Finding)
    requires key in b.components && key != ""
    ensures f in Inspect(JudgeOf(t, ignore), b) && f.component == key <==> DueAt(t, ignore, b, key, f)
  {
    var judge := JudgeOf(t, ignore);
    ComponentReported(t, ignore, b, key, f);
    assert Named(judge);
    if f in Inspect(judge, b) && f.component == key {
      FoundUnder(judge, b, key, f);
    }
    if f in FindingsAt(judge, b.components, key) {
      ComponentFindingsName(judge, key, b.components[key], Taken(judge, b.components, key), f);
    }
  }

  // ------------------------------------------------------- the document's own keys

  predicate DiscoverySegment(id: string) {
    id != "" && forall c | c in id :: 'a' <= c <= 'z' || 'A' <= c <= 'Z' || '0' <= c <= '9' || c == '_' || c == '-'
  }

  /** What there is to say about the document apart from its components. */
  predicate FrameDue(b: Document, f: Finding) {
    && f.scope == ScopeDocument && f.component == "" && !f.strippable
    && match f.kind
       case KindNodeID => f.error && f.keys == [] && !DiscoverySegment(b.nodeID)
       case KindOrigin => !f.error && f.keys == [Plain("origin.name")] && b.originName == ""
       case KindDeviceIdentity =>
         f.error && f.keys == [Plain("device.identifiers"), Plain("device.connections")] && |b.identifiers| + |b.connections| == 0
       case KindNoComponents => !f.error && f.keys == [Plain("components")] && |b.components| == 0
       case _ => false
  }

  lemma NodeReported(b: Document, f: Finding)
    requires f.kind == KindNodeID
    ensures f in FrameFindings(b) <==> FrameDue(b, f)
  {
    SegmentIsLegal(b.nodeID);
  }

  lemma OriginReported(b: Document, f: Finding)
    requires f.kind == KindOrigin
    ensures f in FrameFindings(b) <==> FrameDue(b, f)
  {
  }

  lemma IdentityReported(b: Document, f: Finding)
    requires f.kind == KindDeviceIdentity
    ensures f in FrameFindings(b) <==> FrameDue(b, f)
  {
  }

  lemma EmptinessReported(b: Document, f: Finding)
    requires f.kind == KindNoComponents
    ensures f in FrameFindings(b) <==> FrameDue(b, f)
  {
  }

  lemma NothingElseReported(b: Document, f: Finding)
    requires f.kind != KindNodeID && f.kind != KindOrigin && f.kind != KindDeviceIdentity && f.kind != KindNoComponents
    ensures f !in FrameFindings(b)
  {
  }

  lemma FrameReported(b: Document, f: Finding)
    ensures f in FrameFindings(b) <==> FrameDue(b, f)
  {
    match f.kind
    case KindNodeID => NodeReported(b, f);
    case KindOrigin => OriginReported(b, f);
    case KindDeviceIdentity => IdentityReported(b, f);
    case KindNoComponents => EmptinessReported(b, f);
    case _ => NothingElseReported(b, f);
  }

  lemma SegmentIsLegal(id: string)
    ensures LegalID(id) <==> DiscoverySegment(id)
  {
    assert forall i | 0 <= i < |id| :: id[i] in id;
    if LegalID(id) {
      forall c | c in id ensures 'a' <= c <= 'z' || 'A' <= c <= 'Z' || '0' <= c <= '9' || c == '_' || c == '-' {
        var i :| 0 <= i < |id| && id[i] == c;
      }
    }
  }

  /** The findings under no key are the frame's, and those of a component whose key is empty. */
  lemma FrameIsInspected(t: Tables, ignore: set<string>, b: Document, f: Finding)
    ensures f in Inspect(JudgeOf(t, ignore), b) && f.component == "" <==>
              FrameDue(b, f) || ("" in b.components && f.component == "" && DueAt(t, ignore, b, "", f))
  {
    var judge := JudgeOf(t, ignore);
    FrameReported(b, f);
    if "" in b.components {
      ComponentReported(t, ignore, b, "", f);
    }
    if f in Inspect(judge, b) && f.component == "" && f !in FrameFindings(b) {
      var at :| f in FindingsAt(judge, b.components, at);
      ComponentFindingsName(judge, at, b.components[at], Taken(judge, b.components, at), f);
    }
    if "" in b.components && f in FindingsAt(judge, b.components, "") {
      assert f in AllFindings(judge, b.components);
    }
  }

  // ------------------------------------------------------------------- conformity

  predicate RightSensor(t: Tables, body: Body) {
    && !WrongReset(body) && !WrongStateClassUnit(t, body) && !WrongDeviceClassUnit(t, body) && !WrongNumeric(t, body)
    && ("options" in body ==> body["options"] != List([]))
    && (HasOptions(body) ==>
          Word(body, "device_class") == "enum" && Word(body, "state_class") == "" && Unit(t, body) == "")
  }

  predicate RightNumber(t: Tables, body: Body) {
    && BoundOf(t, body, "min", 0.0).Some? && BoundOf(t, body, "max", 100.0).Some?
    && !WrongOrder(t, body) && !WrongStep(t, body)
  }

  /** A body Home Assistant has nothing against: all required keys, a listed class, a legal category, a topic
      in each availability entry, and the rules of its platform. */
  ghost predicate Conforms(t: Tables, ignore: set<string>, body: Body) {
    && (forall n :: !Missing(t, body, n))
    && ("availability" in ignore || forall i, e | AvailabilityEntry(body, i, e) :: HasTopic(e))
    && !WrongClass(t, body) && RightCategory(body)
    && (Word(body, "platform") == "sensor" ==> RightSensor(t, body))
    && (Word(body, "platform") == "number" ==> RightNumber(t, body))
  }

  /** A body has an error exactly when it does not conform. */
  lemma ConformsExactly(t: Tables, ignore: set<string>, key: string, body: Body)
    ensures Conforms(t, ignore, body) <==> forall f :: Due(t, ignore, key, body, f) ==> !f.error
  {
    if !Conforms(t, ignore, body) {
      var f := Complaint(t, ignore, key, body);
    }
  }

  lemma Complaint(t: Tables, ignore: set<string>, key: string, body: Body) returns (f: Finding)
    requires !Conforms(t, ignore, body)
    ensures Due(t, ignore, key, body, f) && f.error
  {
    if n :| Missing(t, body, n) {
      f := Finding(ScopeComponent, key, KindRequiredKey, true, [Plain(n)], false);
      assert SchemaDue(t, ignore, key, body, f);
    } else if WrongClass(t, body) {
      f := Finding(ScopeComponent, key, KindDeviceClass, true, [Plain("device_class")], false);
    } else if !RightCategory(body) {
      f := Finding(ScopeComponent, key, KindEntityCategory, true, [Plain("entity_category")], false);
    } else if Word(body, "platform") == "sensor" && !RightSensor(t, body) {
      f := SensorComplaint(t, key, body);
    } else if Word(body, "platform") == "number" && !RightNumber(t, body) {
      f := NumberComplaint(t, key, body);
    } else {
      var i, e :| AvailabilityEntry(body, i, e) && !HasTopic(e);
      f := Finding(ScopeComponent, key, KindAvailabilityTopic, true, [Entry(i, "topic")], false);
      assert NestedDue(ignore, key, body, f);
    }
  }

  lemma SensorComplaint(t: Tables, key: string, body: Body) returns (f: Finding)
    requires !RightSensor(t, body)
    ensures SensorDue(t, key, body, f) && f.error
  {
    if WrongReset(body) {
      f := Finding(ScopeComponent, key, KindLastReset, true, [Plain("last_reset_value_template"), Plain("state_class")], false);
    } else if WrongStateClassUnit(t, body) {
      f := Finding(ScopeComponent, key, KindUnitStateClass, true, [Plain("unit_of_measurement"), Plain("state_class")], false);
    } else if WrongDeviceClassUnit(t, body) {
      f := Finding(ScopeComponent, key, KindUnitDeviceClass, true, [Plain("unit_of_measurement"), Plain("device_class")], false);
    } else if WrongNumeric(t, body) {
      f := Finding(ScopeComponent, key, KindNumericExpectation, true, [Plain("unit_of_measurement"), Plain("device_class")], false);
    } else if !HasOptions(body) {
      f := Finding(ScopeComponent, key, KindOptions, true, [Plain("options")], false);
    } else if Word(body, "device_class") != "enum" {
      f := Finding(ScopeComponent, key, KindOptions, true, [Plain("options"), Plain("device_class")], false);
    } else if Word(body, "state_class") != "" {
      f := Finding(ScopeComponent, key, KindOptions, true, [Plain("options"), Plain("state_class")], false);
    } else {
      f := Finding(ScopeComponent, key, KindOptions, true, [Plain("options"), Plain("unit_of_measurement")], false);
    }
  }

  lemma NumberComplaint(t: Tables, key: string, body: Body) returns (f: Finding)
    requires !RightNumber(t, body)
    ensures NumberDue(t, key, body, f) && f.error
  {
    if BoundOf(t, body, "min", 0.0).None? {
      f := Finding(ScopeComponent, key, KindNumberBounds, true, [Plain("min")], false);
    } else if BoundOf(t, body, "max", 100.0).None? {
      f := Finding(ScopeComponent, key, KindNumberBounds, true, [Plain("max")], false);
    } else if WrongStep(t, body) {
      f := Finding(ScopeComponent, key, KindNumberBounds, true, [Plain("step")], false);
    } else {
      f := Finding(ScopeComponent, key, KindNumberBounds, true, [Plain("min"), Plain("max")], false);
    }
  }

  /** A component Home Assistant would take: a removal marker, or an entity with an identity of its own whose
      body conforms. */
  ghost predicate Acceptable(t: Tables, ignore: set<string>, b: Document, key: string)
    requires key in b.components
  {
    match b.components[key].encoding
    case Encoded(body) =>
      var p, id := Word(body, "platform"), Word(body, "unique_id");
      && p != "" && p in t.supported
      && (Whole(body) ==>
            && (id != "" || p == "tag" || p == "device_automation")
            && (id != "" ==> !IsDuplicate(t, b, key))
            && Conforms(t, ignore, body))
    case _ => false
  }

  /** And a component has an error exactly when it is not such a one. */
  lemma AcceptableExactly(t: Tables, ignore: set<string>, b: Document, key: string)
    requires key in b.components && key != ""
    ensures Acceptable(t, ignore, b, key) <==>
              forall f | f in Inspect(JudgeOf(t, ignore), b) && f.component == key :: !f.error
  {
    if Acceptable(t, ignore, b, key) {
      forall f | f in Inspect(JudgeOf(t, ignore), b) && f.component == key ensures !f.error {
        InspectReports(t, ignore, b, key, f);
        ConformsExactly(t, ignore, key, b.components[key].encoding.body);
      }
    } else {
      var f := ComponentComplaint(t, ignore, b, key);
      InspectReports(t, ignore, b, key, f);
    }
  }

  lemma ComponentComplaint(t: Tables, ignore: set<string>, b: Document, key: string) returns (f: Finding)
    requires key in b.components && !Acceptable(t, ignore, b, key)
    ensures DueAt(t, ignore, b, key, f) && f.error && f.component == key
  {
    match b.components[key].encoding
    case NonFinite(names) =>
      f := Finding(ScopeDocument, key, KindNonFinite, true, seq(|names|, i requires 0 <= i < |names| => Plain(names[i])), false);
    case Unencodable => f := Finding(ScopeDocument, key, KindUnencodable, true, [], false);
    case Encoded(body) =>
      var p, id := Word(body, "platform"), Word(body, "unique_id");
      if p == "" {
        f := Finding(ScopeDocument, key, KindPlatformMissing, true, [Plain("platform")], false);
      } else if p !in t.supported {
        f := Finding(ScopeDocument, key, KindPlatformUnsupported, true, [Plain("platform")], false);
      } else if id == "" && p != "tag" && p != "device_automation" {
        f := Finding(ScopeDocument, key, KindUniqueIDMissing, true, [Plain("unique_id")], false);
      } else if id != "" && IsDuplicate(t, b, key) {
        f := Finding(ScopeComponent, key, KindUniqueIDDuplicate, true, [Plain("unique_id")], false);
      } else {
        f := Complaint(t, ignore, key, body);
        DueNames(t, ignore, key, body, f);
      }
  }

  lemma DueNames(t: Tables, ignore: set<string>, key: string, body: Body, f: Finding)
    requires Due(t, ignore, key, body, f)
    ensures f.component == key
  {
  }

  // -------------------------------------------------------------- laws of the tables

  lemma SameSchema(t: Tables, u: Tables, ignore: set<string>, key: string, body: Body, f: Finding)
    requires t.platforms == u.platforms
    ensures SchemaDue(t, ignore, key, body, f) <==> SchemaDue(u, ignore, key, body, f)
  {
  }

  lemma SameNumber(t: Tables, u: Tables, key: string, body: Body, f: Finding)
    requires t.ambiguousUnits == u.ambiguousUnits && t.defaults == u.defaults && t.number == u.number
    ensures NumberDue(t, key, body, f) <==> NumberDue(u, key, body, f)
  {
  }

  lemma SameClass(t: Tables, u: Tables, key: string, body: Body, f: Finding)
    requires t.deviceClasses == u.deviceClasses
    ensures ClassDue(t, key, body, f) <==> ClassDue(u, key, body, f)
  {
  }

  lemma SameSensor(t: Tables, u: Tables, key: string, body: Body, f: Finding)
    requires u == t.(platforms := u.platforms, deviceClasses := u.deviceClasses)
    ensures SensorDue(t, key, body, f) <==> SensorDue(u, key, body, f)
  {
  }

  function WithClass(t: Tables, p: string, dc: string): Tables
    requires p in t.deviceClasses
  {
    t.(deviceClasses := t.deviceClasses[p := t.deviceClasses[p] + {dc}])
  }

  function WithStateClassUnit(t: Tables, sc: string, unit: string): Tables
    requires sc in t.stateClassUnits
  {
    t.(stateClassUnits := t.stateClassUnits[sc := t.stateClassUnits[sc] + {unit}])
  }

  function WithDeviceClassUnit(t: Tables, dc: string, unit: string): Tables
    requires dc in t.deviceClassUnits
  {
    t.(deviceClassUnits := t.deviceClassUnits[dc := t.deviceClassUnits[dc] + {unit}])
  }

  function WithStateClass(t: Tables, dc: string, sc: string): Tables
    requires dc in t.stateClasses
  {
    t.(stateClasses := t.stateClasses[dc := t.stateClasses[dc] + {sc}])
  }

  /** Listing one more device class takes findings away and adds none; so striking one off takes none away. */
  lemma OneMoreClass(t: Tables, p: string, dc: string, ignore: set<string>, key: string, body: Body, f: Finding)
    requires p in t.deviceClasses
    ensures Due(WithClass(t, p, dc), ignore, key, body, f) ==> Due(t, ignore, key, body, f)
  {
    var u := WithClass(t, p, dc);
    SameSchema(t, u, ignore, key, body, f);
    SameNumber(t, u, key, body, f);
    SameSensor(t, u, key, body, f);
  }

  /** So does one more unit of a state class, */
  lemma OneMoreStateClassUnit(t: Tables, sc: string, unit: string, ignore: set<string>, key: string, body: Body, f: Finding)
    requires sc in t.stateClassUnits
    ensures Due(WithStateClassUnit(t, sc, unit), ignore, key, body, f) ==> Due(t, ignore, key, body, f)
  {
    var u := WithStateClassUnit(t, sc, unit);
    SameSchema(t, u, ignore, key, body, f);
    SameNumber(t, u, key, body, f);
    SameClass(t, u, key, body, f);
  }

  /** of a device class, */
  lemma OneMoreDeviceClassUnit(t: Tables, dc: string, unit: string, ignore: set<string>, key: string, body: Body, f: Finding)
    requires dc in t.deviceClassUnits
    ensures Due(WithDeviceClassUnit(t, dc, unit), ignore, key, body, f) ==> Due(t, ignore, key, body, f)
  {
    var u := WithDeviceClassUnit(t, dc, unit);
    SameSchema(t, u, ignore, key, body, f);
    SameNumber(t, u, key, body, f);
    SameClass(t, u, key, body, f);
  }

  /** one more state class of a device class, */
  lemma OneMoreStateClass(t: Tables, dc: string, sc: string, ignore: set<string>, key: string, body: Body, f: Finding)
    requires dc in t.stateClasses
    ensures Due(WithStateClass(t, dc, sc), ignore, key, body, f) ==> Due(t, ignore, key, body, f)
  {
    var u := WithStateClass(t, dc, sc);
    SameSchema(t, u, ignore, key, body, f);
    SameNumber(t, u, key, body, f);
    SameClass(t, u, key, body, f);
  }

  function WithKey(t: Tables, p: string, n: string): Tables
    requires p in t.platforms
  {
    t.(platforms := t.platforms[p := t.platforms[p].(keys := t.platforms[p].keys[n := false])])
  }

  /** and one more optional key of a platform. */
  lemma OneMoreKey(t: Tables, p: string, n: string, ignore: set<string>, key: string, body: Body, f: Finding)
    requires p in t.platforms && t.platforms[p].keys != map[] && n !in t.platforms[p].keys
    ensures Due(WithKey(t, p, n), ignore, key, body, f) ==> Due(t, ignore, key, body, f)
  {
    var u := WithKey(t, p, n);
    SameNumber(t, u, key, body, f);
    SameClass(t, u, key, body, f);
    SameSensor(t, u, key, body, f);
    FewerUnknown(t, p, n, ignore, body);
    SameRequired(t, p, n, body);
  }

  lemma FewerUnknown(t: Tables, p: string, n: string, ignore: set<string>, body: Body)
    requires p in t.platforms && t.platforms[p].keys != map[]
    ensures forall m | Unknown(WithKey(t, p, n), ignore, body, m) :: Unknown(t, ignore, body, m)
  {
    forall m | Unknown(WithKey(t, p, n), ignore, body, m) ensures Unknown(t, ignore, body, m) {
      var k :| k in t.platforms[p].keys;
      assert Word(body, "platform") == p ==> LegalKey(t.platforms[p], body, k);
    }
  }

  lemma SameRequired(t: Tables, p: string, n: string, body: Body)
    requires p in t.platforms && t.platforms[p].keys != map[] && n !in t.platforms[p].keys
    ensures forall m :: Missing(WithKey(t, p, n), body, m) <==> Missing(t, body, m)
  {
  }

  // --------------------------------------------------------------- what is published

  /** Containment publishes exactly the components Home Assistant would take. */
  lemma PublishesTheAcceptable(t: Tables, ignore: set<string>, strip: bool, rebuilds: Body -> bool, b: Document, key: string)
    requires key in b.components && key != ""
    ensures var out := Contain(JudgeOf(t, ignore), strip, rebuilds, b);
            && (key in out.components <==> Acceptable(t, ignore, b, key))
            && (!Acceptable(t, ignore, b, key) ==> key in out.withheld && out.withheld[key] == b.components[key])
            && (key in out.components && !strip ==> out.components[key] == b.components[key])
  {
    var judge := JudgeOf(t, ignore);
    AcceptableExactly(t, ignore, b, key);
    assert key in FailingComponents(Inspect(judge, b)) <==> exists f :: f in Inspect(judge, b) && f.error && f.component == key;
  }

  /** And stripping takes exactly the unknown keys and an impossible state class, as far as their spelling lets it. */
  lemma StripsTheUnknown(t: Tables, ignore: set<string>, body: Body, n: string)
    ensures Gone(t, ignore, body, n) <==>
              && !("availability[" <= n)
              && (Unknown(t, ignore, body, n)
                  || (n == "state_class" && Word(body, "platform") == "sensor" && WrongStateClass(t, body)))
  {
    SameWord(body, "platform");
    SameWord(body, "device_class");
    SameWord(body, "state_class");
    UnknownExactly(t, ignore, body);
  }

  lemma UnknownExactly(t: Tables, ignore: set<string>, body: Body)
    ensures forall n :: n in UnknownKeys(t, ignore, Word(body, "platform"), body) <==> Unknown(t, ignore, body, n)
  {
    var p := Word(body, "platform");
    if p in t.platforms {
      LegalIsAllowedKey(t.platforms[p], body);
    }
  }

  /** In an availability entry it takes exactly the keys that are not an entry's own. */
  lemma StripsExtraEntryKeys(t: Tables, ignore: set<string>, body: Body, i: nat, n: string)
    ensures Entry(i, n) in BodyStrips(t, ignore, body) <==>
              "availability" !in ignore && exists e :: AvailabilityEntry(body, i, e) && n in e && !EntryKey(n)
  {
    SameEntries(body, i);
  }
}
