/** The catalogue's checks obey what containment asks of a judge. */
module CatalogueRules {
  import opened Text
  import opened Documents
  import opened Inspection
  import opened KeySpelling
  import opened Containment
  import opened Acceptance

  predicate LegalIn(schema: Schema, name: string) {
    if schema.keys != map[] then name in schema.keys
    else forall v | v in schema.variants && schema.variants[v] != map[] :: name in schema.variants[v]
  }

  /** Every schema accepts `unique_id` and the key that chooses its variant; the number platform's
      defaults belong to keys it has. */
  predicate Legal(t: Tables) {
    && (forall p | p in t.platforms ::
          var schema := t.platforms[p];
          LegalIn(schema, UNIQUE_ID)
          && (schema.keys == map[] ==> LegalIn(schema, schema.discriminator) && schema.discriminator != "state_class"))
    && (forall n | n in t.defaults :: "number" in t.platforms && n in t.platforms["number"].keys)
  }

  /** What the strippable findings of one body name. */
  function BodyStrips(t: Tables, ignore: set<string>, body: Body): set<Key> {
    var platform := StrAt(body, PLATFORM);
    (set n | n in UnknownKeys(t, ignore, platform, body) :: Plain(n))
    + (if AVAILABILITY in ignore then {} else ExtraEntryKeys(body))
    + (if platform == "sensor" && StateClassImpossible(t, body) then {Plain("state_class")} else {})
  }

  lemma LegalIsAllowed(schema: Schema, body: Body, name: string)
    requires LegalIn(schema, name) && AllowedKeys(schema, body) != {}
    ensures name in AllowedKeys(schema, body)
  {
    var k :| k in AllowedKeys(schema, body);
    if schema.keys == map[] && StrAt(body, schema.discriminator) !in schema.variants {
      var v :| v in schema.variants && k in schema.variants[v];
      assert name in schema.variants[v];
    }
  }

  /** A legal key other than a sensor's state class is never stripped. */
  lemma LegalStays(t: Tables, ignore: set<string>, body: Body, name: string)
    requires StrAt(body, PLATFORM) in t.platforms ==> LegalIn(t.platforms[StrAt(body, PLATFORM)], name)
    requires name != "state_class"
    ensures Plain(name) !in BodyStrips(t, ignore, body)
  {
    var platform := StrAt(body, PLATFORM);
    if platform in t.platforms && AllowedKeys(t.platforms[platform], body) != {} {
      LegalIsAllowed(t.platforms[platform], body, name);
    }
  }

  /** What stripping this body takes out, the keys read as they are spelled. */
  function Removed(t: Tables, ignore: set<string>, body: Body): set<Key> {
    Reads(BodyStrips(t, ignore, body))
  }

  /** This key of the body is stripped. */
  predicate Gone(t: Tables, ignore: set<string>, body: Body, name: string) {
    Plain(name) in BodyStrips(t, ignore, body) && !Respelled(name)
  }

  function LeftOf(t: Tables, ignore: set<string>, body: Body): Body {
    StripBody(body, Removed(t, ignore, body))
  }

  lemma StrippedReads(t: Tables, ignore: set<string>, body: Body, name: string)
    ensures var left := LeftOf(t, ignore, body);
            && (Gone(t, ignore, body, name) ==> name !in left && StrAt(left, name) == "")
            && (!Gone(t, ignore, body, name) ==>
                  (name in left <==> name in body) && StrAt(left, name) == StrAt(body, name))
            && (!Gone(t, ignore, body, name) && name in body && name != AVAILABILITY ==> left[name] == body[name])
  {
    ReadsExactly(BodyStrips(t, ignore, body));
  }

  // ------------------------------------------------- what stripping cannot touch

  /** The platform, the identity and the variant survive stripping. */
  lemma StrippedKeepsSchema(t: Tables, ignore: set<string>, body: Body)
    requires Legal(t)
    ensures var left := LeftOf(t, ignore, body);
            var platform := StrAt(body, PLATFORM);
            && StrAt(left, PLATFORM) == platform && StrAt(left, UNIQUE_ID) == StrAt(body, UNIQUE_ID)
            && (platform in t.platforms ==>
                  AllowedKeys(t.platforms[platform], left) == AllowedKeys(t.platforms[platform], body)
                  && RequiredKeys(t.platforms[platform], left) == RequiredKeys(t.platforms[platform], body))
  {
    var platform := StrAt(body, PLATFORM);
    StrippedReads(t, ignore, body, PLATFORM);
    StrippedReads(t, ignore, body, UNIQUE_ID);
    LegalStays(t, ignore, body, UNIQUE_ID);
    if platform in t.platforms && t.platforms[platform].keys == map[] {
      var schema := t.platforms[platform];
      LegalStays(t, ignore, body, schema.discriminator);
      StrippedReads(t, ignore, body, schema.discriminator);
    }
  }

  /** What is left names no key to strip that was not named before. */
  lemma NoNewStrips(t: Tables, ignore: set<string>, body: Body)
    requires Legal(t)
    ensures BodyStrips(t, ignore, LeftOf(t, ignore, body)) <= BodyStrips(t, ignore, body)
  {
    var left := LeftOf(t, ignore, body);
    StrippedKeepsSchema(t, ignore, body);
    StrippedReads(t, ignore, body, "state_class");
    StrippedReads(t, ignore, body, "device_class");
    forall k | k in ExtraEntryKeys(left) ensures k in ExtraEntryKeys(body) {
      EntriesStay(t, ignore, body, k.index);
    }
    forall n | n in UnknownKeys(t, ignore, StrAt(body, PLATFORM), left)
      ensures n in UnknownKeys(t, ignore, StrAt(body, PLATFORM), body) {
      StrippedReads(t, ignore, body, n);
    }
  }

  /** So stripping again takes nothing. */
  lemma StrippedIsSettled(t: Tables, ignore: set<string>, body: Body)
    requires Legal(t)
    ensures var left := LeftOf(t, ignore, body); LeftOf(t, ignore, left) == left
  {
    var left := LeftOf(t, ignore, body);
    NoNewStrips(t, ignore, body);
    StripMore(body, Removed(t, ignore, body), Removed(t, ignore, left));
    assert Removed(t, ignore, body) + Removed(t, ignore, left) == Removed(t, ignore, body);
  }

  lemma EntriesStay(t: Tables, ignore: set<string>, body: Body, i: nat)
    requires EntryAt(LeftOf(t, ignore, body), i)
    ensures !Gone(t, ignore, body, AVAILABILITY) && EntryAt(body, i)
    ensures Entries(LeftOf(t, ignore, body))[i].fields == StripFields(Entries(body)[i].fields, Removed(t, ignore, body), i)
  {
    StrippedReads(t, ignore, body, AVAILABILITY);
  }

  lemma EntriesKept(t: Tables, ignore: set<string>, body: Body, i: nat)
    requires EntryAt(body, i) && !Gone(t, ignore, body, AVAILABILITY)
    ensures EntryAt(LeftOf(t, ignore, body), i)
  {
    StrippedReads(t, ignore, body, AVAILABILITY);
    ReadsExactly(BodyStrips(t, ignore, body));
  }

  /** A body is stripped down to a removal marker if and only if every key but its platform is taken. */
  lemma EmptiedExactly(t: Tables, ignore: set<string>, body: Body)
    ensures IsRemoval(LeftOf(t, ignore, body)) <==> forall n | n in body && n != PLATFORM :: Gone(t, ignore, body, n)
  {
    forall n | n in body ensures n in LeftOf(t, ignore, body) <==> !Gone(t, ignore, body, n) {
      StrippedReads(t, ignore, body, n);
    }
  }

  // -------------------------------------- what stripping costs, check by check

  predicate Sensor(body: Body) {
    StrAt(body, PLATFORM) == "sensor"
  }

  /** A sensor loses the `total` that its last-reset template needs. */
  predicate LosesTotal(t: Tables, ignore: set<string>, body: Body) {
    && Sensor(body) && StrAt(body, "state_class") == "total" && Gone(t, ignore, body, "state_class")
    && "last_reset_value_template" in body && !Gone(t, ignore, body, "last_reset_value_template")
  }

  /** A sensor loses a state class that its schema requires. */
  predicate LosesRequired(t: Tables, body: Body) {
    && Sensor(body) && StateClassImpossible(t, body)
    && "sensor" in t.platforms && "state_class" in RequiredKeys(t.platforms["sensor"], body)
  }

  /** A sensor keeps its options but loses the device class `enum`. */
  predicate LosesEnum(t: Tables, ignore: set<string>, body: Body) {
    && Sensor(body) && StrAt(body, "device_class") == "enum" && Gone(t, ignore, body, "device_class")
    && "options" in body && !Gone(t, ignore, body, "options")
    && body["options"] != Null && body["options"] != List([])
  }

  /** A sensor keeps a state class but loses the unit that goes with it. */
  predicate LosesUnit(t: Tables, ignore: set<string>, body: Body) {
    var sc := StrAt(body, "state_class");
    && Sensor(body) && sc != "" && !Gone(t, ignore, body, "state_class") && Gone(t, ignore, body, "unit_of_measurement")
    && sc in t.stateClassUnits && UnitOf(t, body) in t.stateClassUnits[sc] && "" !in t.stateClassUnits[sc]
  }

  /** A sensor with a unit loses the options, or the device class, that let it go without a number. */
  predicate GainsNumber(t: Tables, ignore: set<string>, body: Body) {
    var dc := StrAt(body, "device_class");
    && Sensor(body) && UnitOf(t, body) != "" && !Gone(t, ignore, body, "unit_of_measurement")
    && ("options" !in body || Gone(t, ignore, body, "options"))
    && (if Gone(t, ignore, body, "device_class") then "" else dc) in t.nonNumeric
    && !(dc in t.nonNumeric && "options" !in body)
  }

  predicate Crossed(low: Option<real>, high: Option<real>) {
    low.Some? && high.Some? && low.value > high.value
  }

  function BoundLeft(t: Tables, ignore: set<string>, body: Body, name: string, fallback: real): Option<real> {
    if Gone(t, ignore, body, name) then Some(fallback) else Bound(t, body, name, fallback)
  }

  /** A number falls back to a bound on the wrong side of the other one. */
  predicate LosesBound(t: Tables, ignore: set<string>, body: Body) {
    && StrAt(body, PLATFORM) == "number"
    && Crossed(BoundLeft(t, ignore, body, "min", 0.0), BoundLeft(t, ignore, body, "max", 100.0))
    && !Crossed(Bound(t, body, "min", 0.0), Bound(t, body, "max", 100.0))
  }

  /** A key of the body is spelled like the topic of this availability entry, and is stripped as that. */
  predicate LosesTopicAt(t: Tables, ignore: set<string>, body: Body, i: nat) {
    && EntryAt(body, i) && StrAt(Entries(body)[i].fields, "topic") != "" && Entry(i, "topic") in Removed(t, ignore, body)
  }

  predicate LosesTopic(t: Tables, ignore: set<string>, body: Body) {
    && AVAILABILITY !in ignore && !Gone(t, ignore, body, AVAILABILITY)
    && exists i | 0 <= i < |Entries(body)| :: LosesTopicAt(t, ignore, body, i)
  }

  predicate SensorSpoils(t: Tables, ignore: set<string>, body: Body) {
    || LosesTotal(t, ignore, body) || LosesEnum(t, ignore, body)
    || LosesUnit(t, ignore, body) || GainsNumber(t, ignore, body)
  }

  /** Everything stripping can make worse. */
  predicate Spoils(t: Tables, ignore: set<string>, body: Body) {
    || LosesRequired(t, body) || LosesTopic(t, ignore, body)
    || SensorSpoils(t, ignore, body) || LosesBound(t, ignore, body)
  }

  /** An error of the second set that is not in the first. */
  predicate NewError(before: Findings, after: Findings, f: Finding) {
    f in after && f.error && f !in before
  }

  ghost predicate SomeNewError(before: Findings, after: Findings) {
    exists f :: NewError(before, after, f)
  }

  lemma RequiredIsAllowed(schema: Schema, body: Body, n: string)
    requires n in RequiredKeys(schema, body)
    ensures n in AllowedKeys(schema, body)
  {
  }

  lemma OnlyRequiredLost(t: Tables, ignore: set<string>, key: string, body: Body, f: Finding)
    requires Legal(t)
    requires var left, platform := LeftOf(t, ignore, body), StrAt(body, PLATFORM);
             NewError(SchemaFindings(t, ignore, key, platform, body), SchemaFindings(t, ignore, key, platform, left), f)
    ensures LosesRequired(t, body)
  {
    var left, platform := LeftOf(t, ignore, body), StrAt(body, PLATFORM);
    StrippedKeepsSchema(t, ignore, body);
    var n := NewlyMissing(t, ignore, key, platform, body, left, f);
    StrippedReads(t, ignore, body, n);
    RequiredIsAllowed(t.platforms[platform], body, n);
  }

  lemma NewlyMissing(t: Tables, ignore: set<string>, key: string, platform: string, body: Body, left: Body, f: Finding)
    returns (n: string)
    requires NewError(SchemaFindings(t, ignore, key, platform, body), SchemaFindings(t, ignore, key, platform, left), f)
    ensures n in MissingKeys(t, platform, left) && n !in MissingKeys(t, platform, body)
  {
    n :| n in MissingKeys(t, platform, left) && f == CompError(KindRequiredKey, key, [Plain(n)]);
  }

  lemma RequiredLost(t: Tables, ignore: set<string>, key: string, body: Body) returns (f: Finding)
    requires Legal(t) && LosesRequired(t, body)
    ensures var left, platform := LeftOf(t, ignore, body), StrAt(body, PLATFORM);
            NewError(SchemaFindings(t, ignore, key, platform, body), SchemaFindings(t, ignore, key, platform, left), f)
  {
    StrippedKeepsSchema(t, ignore, body);
    StrippedReads(t, ignore, body, "state_class");
    f := CompError(KindRequiredKey, key, [Plain("state_class")]);
    assert "state_class" in MissingKeys(t, "sensor", LeftOf(t, ignore, body));
    assert "state_class" !in MissingKeys(t, "sensor", body);
  }

  lemma RequiredExactly(t: Tables, ignore: set<string>, key: string, body: Body)
    requires Legal(t)
    ensures var left, platform := LeftOf(t, ignore, body), StrAt(body, PLATFORM);
            SomeNewError(SchemaFindings(t, ignore, key, platform, body), SchemaFindings(t, ignore, key, platform, left))
            <==> LosesRequired(t, body)
  {
    var left, platform := LeftOf(t, ignore, body), StrAt(body, PLATFORM);
    if f :| NewError(SchemaFindings(t, ignore, key, platform, body), SchemaFindings(t, ignore, key, platform, left), f) {
      OnlyRequiredLost(t, ignore, key, body, f);
    }
    if LosesRequired(t, body) {
      var f := RequiredLost(t, ignore, key, body);
    }
  }

  lemma TopicsExactly(t: Tables, ignore: set<string>, key: string, body: Body)
    ensures var left := LeftOf(t, ignore, body);
            AVAILABILITY !in ignore ==>
              (SomeNewError(AvailabilityFindings(key, body), AvailabilityFindings(key, left)) <==> LosesTopic(t, ignore, body))
  {
    var left := LeftOf(t, ignore, body);
    if f :| NewError(AvailabilityFindings(key, body), AvailabilityFindings(key, left), f) && AVAILABILITY !in ignore {
      var i :| i in TopiclessEntries(left) && f == CompError(KindAvailabilityTopic, key, [Entry(i, "topic")]);
      assert i !in TopiclessEntries(body);
      EntriesStay(t, ignore, body, i);
      TopicLeft(t, ignore, body, i);
      assert LosesTopicAt(t, ignore, body, i);
    }
    if LosesTopic(t, ignore, body) {
      var i :| 0 <= i < |Entries(body)| && LosesTopicAt(t, ignore, body, i);
      EntriesKept(t, ignore, body, i);
      EntriesStay(t, ignore, body, i);
      TopicLeft(t, ignore, body, i);
      assert i in TopiclessEntries(left) && i !in TopiclessEntries(body);
      assert NewError(AvailabilityFindings(key, body), AvailabilityFindings(key, left),
                      CompError(KindAvailabilityTopic, key, [Entry(i, "topic")]));
    }
  }

  lemma TopicLeft(t: Tables, ignore: set<string>, body: Body, i: nat)
    requires EntryAt(body, i)
    ensures StrAt(StripFields(Entries(body)[i].fields, Removed(t, ignore, body), i), "topic") ==
              if Entry(i, "topic") in Removed(t, ignore, body) then "" else StrAt(Entries(body)[i].fields, "topic")
  {
  }

  lemma ClassesStay(t: Tables, ignore: set<string>, key: string, body: Body)
    ensures var left, platform := LeftOf(t, ignore, body), StrAt(body, PLATFORM);
            !SomeNewError(ClassFindings(t, key, platform, body), ClassFindings(t, key, platform, left))
  {
    StrippedReads(t, ignore, body, "device_class");
    StrippedReads(t, ignore, body, "entity_category");
  }

  // ---------------------------------------------------------------- numbers

  lemma BoundsLeft(t: Tables, ignore: set<string>, body: Body, name: string, fallback: real)
    requires Legal(t) && StrAt(body, PLATFORM) == "number" && name != "state_class"
    ensures Bound(t, LeftOf(t, ignore, body), name, fallback) == BoundLeft(t, ignore, body, name, fallback)
  {
    StrippedReads(t, ignore, body, name);
    if name in t.defaults {
      LegalStays(t, ignore, body, name);
    }
  }

  /** Bounds that are what they were, or their defaults. */
  lemma NumbersOf(t: Tables, key: string, body: Body, left: Body)
    requires Bound(t, left, "min", 0.0) in {Bound(t, body, "min", 0.0), Some(0.0)}
    requires Bound(t, left, "max", 100.0) in {Bound(t, body, "max", 100.0), Some(100.0)}
    requires Bound(t, left, "step", 1.0) in {Bound(t, body, "step", 1.0), Some(1.0)}
    ensures SomeNewError(NumberFindings(t, key, body), NumberFindings(t, key, left)) ==>
              Crossed(Bound(t, left, "min", 0.0), Bound(t, left, "max", 100.0))
              && !Crossed(Bound(t, body, "min", 0.0), Bound(t, body, "max", 100.0))
  {
  }

  lemma NumbersCross(t: Tables, key: string, body: Body, left: Body)
    requires Crossed(Bound(t, left, "min", 0.0), Bound(t, left, "max", 100.0))
    requires !Crossed(Bound(t, body, "min", 0.0), Bound(t, body, "max", 100.0))
    ensures SomeNewError(NumberFindings(t, key, body), NumberFindings(t, key, left))
  {
    assert NewError(NumberFindings(t, key, body), NumberFindings(t, key, left),
                    CompError(KindNumberBounds, key, [Plain("min"), Plain("max")]));
  }

  lemma NumbersExactly(t: Tables, ignore: set<string>, key: string, body: Body)
    requires Legal(t) && StrAt(body, PLATFORM) == "number"
    ensures SomeNewError(NumberFindings(t, key, body), NumberFindings(t, key, LeftOf(t, ignore, body)))
            <==> LosesBound(t, ignore, body)
  {
    BoundsLeft(t, ignore, body, "min", 0.0);
    BoundsLeft(t, ignore, body, "max", 100.0);
    BoundsLeft(t, ignore, body, "step", 1.0);
    NumbersOf(t, key, body, LeftOf(t, ignore, body));
    if LosesBound(t, ignore, body) {
      NumbersCross(t, key, body, LeftOf(t, ignore, body));
    }
  }

  // ---------------------------------------------------------------- sensors

  /** What the sensor rules read of a stripped body. */
  predicate SensorReads(t: Tables, ignore: set<string>, body: Body, left: Body) {
    && StrAt(left, "state_class") == (if Gone(t, ignore, body, "state_class") then "" else StrAt(body, "state_class"))
    && StrAt(left, "device_class") == (if Gone(t, ignore, body, "device_class") then "" else StrAt(body, "device_class"))
    && UnitOf(t, left) == (if Gone(t, ignore, body, "unit_of_measurement") then "" else UnitOf(t, body))
    && ("options" in left <==> "options" in body && !Gone(t, ignore, body, "options"))
    && ("options" in left ==> left["options"] == body["options"])
    && ("last_reset_value_template" in left <==>
          "last_reset_value_template" in body && !Gone(t, ignore, body, "last_reset_value_template"))
  }

  lemma LeftReads(t: Tables, ignore: set<string>, body: Body)
    ensures SensorReads(t, ignore, body, LeftOf(t, ignore, body))
  {
    StrippedReads(t, ignore, body, "state_class");
    StrippedReads(t, ignore, body, "device_class");
    StrippedReads(t, ignore, body, "unit_of_measurement");
    StrippedReads(t, ignore, body, "options");
    StrippedReads(t, ignore, body, "last_reset_value_template");
  }

  lemma OptionsExactly(t: Tables, ignore: set<string>, key: string, body: Body, left: Body)
    requires Sensor(body) && SensorReads(t, ignore, body, left)
    ensures SomeNewError(OptionFindings(t, key, body), OptionFindings(t, key, left)) <==> LosesEnum(t, ignore, body)
  {
    var f := CompError(KindOptions, key, [Plain("options"), Plain("device_class")]);
    if LosesEnum(t, ignore, body) {
      assert NewError(OptionFindings(t, key, body), OptionFindings(t, key, left), f);
    }
  }

  lemma OnlyUnitsLost(t: Tables, ignore: set<string>, key: string, body: Body, left: Body, f: Finding)
    requires Sensor(body) && SensorReads(t, ignore, body, left)
    requires NewError(UnitFindings(t, key, body), UnitFindings(t, key, left), f)
    ensures LosesUnit(t, ignore, body) || GainsNumber(t, ignore, body)
  {
  }

  lemma UnitLost(t: Tables, ignore: set<string>, key: string, body: Body, left: Body)
    requires SensorReads(t, ignore, body, left) && LosesUnit(t, ignore, body)
    ensures NewError(UnitFindings(t, key, body), UnitFindings(t, key, left),
                     CompError(KindUnitStateClass, key, [Plain("unit_of_measurement"), Plain("state_class")]))
  {
  }

  lemma NumberGained(t: Tables, ignore: set<string>, key: string, body: Body, left: Body)
    requires SensorReads(t, ignore, body, left) && GainsNumber(t, ignore, body)
    ensures NewError(UnitFindings(t, key, body), UnitFindings(t, key, left),
                     CompError(KindNumericExpectation, key, [Plain("unit_of_measurement"), Plain("device_class")]))
  {
  }

  lemma UnitsExactly(t: Tables, ignore: set<string>, key: string, body: Body, left: Body)
    requires Sensor(body) && SensorReads(t, ignore, body, left)
    ensures SomeNewError(UnitFindings(t, key, body), UnitFindings(t, key, left))
            <==> LosesUnit(t, ignore, body) || GainsNumber(t, ignore, body)
  {
    if f :| NewError(UnitFindings(t, key, body), UnitFindings(t, key, left), f) {
      OnlyUnitsLost(t, ignore, key, body, left, f);
    }
    if LosesUnit(t, ignore, body) {
      UnitLost(t, ignore, key, body, left);
    }
    if GainsNumber(t, ignore, body) {
      NumberGained(t, ignore, key, body, left);
    }
  }

  lemma ResetExactly(t: Tables, ignore: set<string>, body: Body, left: Body)
    requires Sensor(body) && SensorReads(t, ignore, body, left)
    ensures LastResetWithoutTotal(left) && !LastResetWithoutTotal(body) <==> LosesTotal(t, ignore, body)
  {
  }

  /** Findings of the last-reset rule. */
  function ResetFindings(key: string, body: Body): Findings {
    When(LastResetWithoutTotal(body), CompError(KindLastReset, key, [Plain("last_reset_value_template"), Plain("state_class")]))
  }

  function StateClassFindings(t: Tables, key: string, body: Body): Findings {
    When(StateClassImpossible(t, body), Strippable(KindStateClass, key, Plain("state_class")))
  }

  predicate Of(fs: Findings, kinds: set<Kind>) {
    forall f | f in fs :: f.kind in kinds
  }

  const RESET_KINDS: set<Kind> := {KindLastReset}
  const OPTION_KINDS: set<Kind> := {KindOptions}
  const UNIT_KINDS: set<Kind> := {KindUnitStateClass, KindLegacyUnit, KindUnitDeviceClass, KindNumericExpectation}
  const STATE_CLASS_KINDS: set<Kind> := {KindStateClass}

  lemma SensorKinds(t: Tables, key: string, body: Body)
    ensures Of(ResetFindings(key, body), RESET_KINDS) && Of(OptionFindings(t, key, body), OPTION_KINDS)
    ensures Of(UnitFindings(t, key, body), UNIT_KINDS) && Of(StateClassFindings(t, key, body), STATE_CLASS_KINDS)
    ensures SensorFindings(t, key, body) ==
              ResetFindings(key, body) + OptionFindings(t, key, body) + UnitFindings(t, key, body) + StateClassFindings(t, key, body)
  {
  }

  lemma StateClassOnlyWarns(t: Tables, key: string, body: Body, left: Body)
    ensures !SomeNewError(StateClassFindings(t, key, body), StateClassFindings(t, key, left))
  {
  }

  lemma SensorsExactly(t: Tables, ignore: set<string>, key: string, body: Body, left: Body)
    requires Sensor(body) && SensorReads(t, ignore, body, left)
    ensures SomeNewError(SensorFindings(t, key, body), SensorFindings(t, key, left)) <==> SensorSpoils(t, ignore, body)
  {
    OptionsExactly(t, ignore, key, body, left);
    UnitsExactly(t, ignore, key, body, left);
    ResetExactly(t, ignore, body, left);
    ResetIsNew(key, body, left);
    SensorParts(t, key, body, left);
  }

  lemma ResetIsNew(key: string, body: Body, left: Body)
    ensures SomeNewError(ResetFindings(key, body), ResetFindings(key, left)) <==>
              LastResetWithoutTotal(left) && !LastResetWithoutTotal(body)
  {
    var reset := CompError(KindLastReset, key, [Plain("last_reset_value_template"), Plain("state_class")]);
    if LastResetWithoutTotal(left) && !LastResetWithoutTotal(body) {
      assert NewError(ResetFindings(key, body), ResetFindings(key, left), reset);
    }
  }

  /** Two groups of checks with nothing in common: what is new to both is new to one. */
  lemma Together(before: Findings, after: Findings, before': Findings, after': Findings)
    requires after !! before' && after' !! before
    ensures SomeNewError(before + before', after + after') <==> SomeNewError(before, after) || SomeNewError(before', after')
  {
    if f :| NewError(before, after, f) {
      assert NewError(before + before', after + after', f);
    }
    if f :| NewError(before', after', f) {
      assert NewError(before + before', after + after', f);
    }
    if f :| NewError(before + before', after + after', f) {
      assert NewError(before, after, f) || NewError(before', after', f);
    }
  }

  lemma SensorParts(t: Tables, key: string, body: Body, left: Body)
    ensures SomeNewError(SensorFindings(t, key, body), SensorFindings(t, key, left)) <==>
              || SomeNewError(ResetFindings(key, body), ResetFindings(key, left))
              || SomeNewError(OptionFindings(t, key, body), OptionFindings(t, key, left))
              || SomeNewError(UnitFindings(t, key, body), UnitFindings(t, key, left))
  {
    SensorKinds(t, key, body);
    SensorKinds(t, key, left);
    StateClassOnlyWarns(t, key, body, left);
    ThreeParts(ResetFindings(key, body), OptionFindings(t, key, body), UnitFindings(t, key, body), StateClassFindings(t, key, body),
               ResetFindings(key, left), OptionFindings(t, key, left), UnitFindings(t, key, left), StateClassFindings(t, key, left),
               RESET_KINDS, OPTION_KINDS, UNIT_KINDS, STATE_CLASS_KINDS);
  }

  /** Four groups of checks, each with kinds of its own, the last of which never has a new error: what is new
      to all is new to one of the others. */
  lemma ThreeParts(a: Findings, b: Findings, c: Findings, d: Findings, a': Findings, b': Findings, c': Findings, d': Findings,
                   ka: set<Kind>, kb: set<Kind>, kc: set<Kind>, kd: set<Kind>)
    requires Of(a, ka) && Of(a', ka) && Of(b, kb) && Of(b', kb) && Of(c, kc) && Of(c', kc) && Of(d, kd) && Of(d', kd)
    requires ka !! kb && ka !! kc && ka !! kd && kb !! kc && kb !! kd && kc !! kd
    requires !SomeNewError(d, d')
    ensures SomeNewError(a + b + c + d, a' + b' + c' + d') <==> SomeNewError(a, a') || SomeNewError(b, b') || SomeNewError(c, c')
  {
    Together(a, a', b, b');
    Together(a + b, a' + b', c, c');
    Together(a + b + c, a' + b' + c', d, d');
  }

  // ------------------------------------------------------------- all of them

  lemma PlatformExactly(t: Tables, ignore: set<string>, key: string, body: Body)
    requires Legal(t)
    ensures var left, platform := LeftOf(t, ignore, body), StrAt(body, PLATFORM);
            SomeNewError(PlatformFindings(t, key, platform, body), PlatformFindings(t, key, platform, left))
            <==> SensorSpoils(t, ignore, body) || LosesBound(t, ignore, body)
  {
    if Sensor(body) {
      LeftReads(t, ignore, body);
      SensorsExactly(t, ignore, key, body, LeftOf(t, ignore, body));
    } else if StrAt(body, PLATFORM) == "number" {
      NumbersExactly(t, ignore, key, body);
    }
  }

  const SCHEMA_KINDS: set<Kind> := {KindUnknownKey, KindRequiredKey}
  const NESTED_KINDS: set<Kind> := {KindAvailabilityTopic, KindAvailabilityKey}
  const CLASS_KINDS: set<Kind> := {KindDeviceClass, KindEntityCategory}
  const PLATFORM_KINDS: set<Kind> := RESET_KINDS + OPTION_KINDS + UNIT_KINDS + STATE_CLASS_KINDS + {KindNumberBounds}

  lemma SchemaKinds(t: Tables, ignore: set<string>, key: string, platform: string, body: Body)
    ensures Of(SchemaFindings(t, ignore, key, platform, body), SCHEMA_KINDS)
  {
  }

  lemma NestedKinds(ignore: set<string>, key: string, body: Body)
    ensures Of(NestedFindings(ignore, key, body), NESTED_KINDS)
  {
  }

  lemma ClassKinds(t: Tables, key: string, platform: string, body: Body)
    ensures Of(ClassFindings(t, key, platform, body), CLASS_KINDS)
  {
  }

  lemma NumberKinds(t: Tables, key: string, body: Body)
    ensures Of(NumberFindings(t, key, body), {KindLegacyUnit, KindNumberBounds})
  {
  }

  lemma Wider(fs: Findings, kinds: set<Kind>, more: set<Kind>)
    requires Of(fs, kinds) && kinds <= more
    ensures Of(fs, more)
  {
  }

  lemma OfUnion(a: Findings, b: Findings, kinds: set<Kind>)
    requires Of(a, kinds) && Of(b, kinds)
    ensures Of(a + b, kinds)
  {
  }

  lemma SensorOf(t: Tables, key: string, body: Body)
    ensures Of(SensorFindings(t, key, body), PLATFORM_KINDS)
  {
    SensorKinds(t, key, body);
    Wider(ResetFindings(key, body), RESET_KINDS, PLATFORM_KINDS);
    Wider(OptionFindings(t, key, body), OPTION_KINDS, PLATFORM_KINDS);
    Wider(UnitFindings(t, key, body), UNIT_KINDS, PLATFORM_KINDS);
    Wider(StateClassFindings(t, key, body), STATE_CLASS_KINDS, PLATFORM_KINDS);
    OfUnion(ResetFindings(key, body), OptionFindings(t, key, body), PLATFORM_KINDS);
    OfUnion(ResetFindings(key, body) + OptionFindings(t, key, body), UnitFindings(t, key, body), PLATFORM_KINDS);
    OfUnion(ResetFindings(key, body) + OptionFindings(t, key, body) + UnitFindings(t, key, body),
            StateClassFindings(t, key, body), PLATFORM_KINDS);
  }

  lemma PlatformKinds(t: Tables, key: string, platform: string, body: Body)
    ensures Of(PlatformFindings(t, key, platform, body), PLATFORM_KINDS)
  {
    SensorOf(t, key, body);
    NumberKinds(t, key, body);
    Wider(NumberFindings(t, key, body), {KindLegacyUnit, KindNumberBounds}, PLATFORM_KINDS);
  }

  function NestedFindings(ignore: set<string>, key: string, body: Body): Findings {
    if AVAILABILITY in ignore then {} else AvailabilityFindings(key, body)
  }

  lemma PartsApart(t: Tables, ignore: set<string>, key: string, platform: string, body: Body, left: Body)
    requires !SomeNewError(ClassFindings(t, key, platform, body), ClassFindings(t, key, platform, left))
    ensures SomeNewError(KeyFindings(t, ignore, key, platform, body), KeyFindings(t, ignore, key, platform, left)) <==>
              || SomeNewError(SchemaFindings(t, ignore, key, platform, body), SchemaFindings(t, ignore, key, platform, left))
              || SomeNewError(NestedFindings(ignore, key, body), NestedFindings(ignore, key, left))
              || SomeNewError(PlatformFindings(t, key, platform, body), PlatformFindings(t, key, platform, left))
  {
    KindsOf(t, ignore, key, platform, body);
    KindsOf(t, ignore, key, platform, left);
    KeyParts(t, ignore, key, platform, body);
    KeyParts(t, ignore, key, platform, left);
    KindsAreApart();
    ThreeParts(SchemaFindings(t, ignore, key, platform, body), NestedFindings(ignore, key, body),
               PlatformFindings(t, key, platform, body), ClassFindings(t, key, platform, body),
               SchemaFindings(t, ignore, key, platform, left), NestedFindings(ignore, key, left),
               PlatformFindings(t, key, platform, left), ClassFindings(t, key, platform, left),
               SCHEMA_KINDS, NESTED_KINDS, PLATFORM_KINDS, CLASS_KINDS);
  }

  lemma KindsAreApart()
    ensures SCHEMA_KINDS !! NESTED_KINDS && SCHEMA_KINDS !! PLATFORM_KINDS && SCHEMA_KINDS !! CLASS_KINDS
    ensures NESTED_KINDS !! PLATFORM_KINDS && NESTED_KINDS !! CLASS_KINDS && PLATFORM_KINDS !! CLASS_KINDS
  {
  }

  lemma KindsOf(t: Tables, ignore: set<string>, key: string, platform: string, body: Body)
    ensures Of(SchemaFindings(t, ignore, key, platform, body), SCHEMA_KINDS) && Of(NestedFindings(ignore, key, body), NESTED_KINDS)
    ensures Of(PlatformFindings(t, key, platform, body), PLATFORM_KINDS) && Of(ClassFindings(t, key, platform, body), CLASS_KINDS)
  {
    SchemaKinds(t, ignore, key, platform, body);
    NestedKinds(ignore, key, body);
    PlatformKinds(t, key, platform, body);
    ClassKinds(t, key, platform, body);
  }

  lemma KeyParts(t: Tables, ignore: set<string>, key: string, platform: string, body: Body)
    ensures KeyFindings(t, ignore, key, platform, body) ==
              SchemaFindings(t, ignore, key, platform, body) + NestedFindings(ignore, key, body)
              + PlatformFindings(t, key, platform, body) + ClassFindings(t, key, platform, body)
  {
    Reordered(SchemaFindings(t, ignore, key, platform, body), NestedFindings(ignore, key, body),
              ClassFindings(t, key, platform, body), PlatformFindings(t, key, platform, body));
  }

  lemma Reordered(a: Findings, b: Findings, c: Findings, d: Findings)
    ensures a + b + c + d == a + b + d + c
  {
  }

  /** Stripping a body gives it an error it did not have if and only if it loses one of the things above. */
  lemma StrippingSpoilsExactly(t: Tables, ignore: set<string>, key: string, body: Body)
    requires Legal(t)
    ensures var left, platform := LeftOf(t, ignore, body), StrAt(body, PLATFORM);
            SomeNewError(KeyFindings(t, ignore, key, platform, body), KeyFindings(t, ignore, key, platform, left))
            <==> Spoils(t, ignore, body)
  {
    var left, platform := LeftOf(t, ignore, body), StrAt(body, PLATFORM);
    RequiredExactly(t, ignore, key, body);
    TopicsExactly(t, ignore, key, body);
    ClassesStay(t, ignore, key, body);
    PlatformExactly(t, ignore, key, body);
    PartsApart(t, ignore, key, platform, body, left);
  }

  /** The keys that the sensor and number rules read beside the stripped ones are keys of those platforms. */
  predicate ReadsLegal(t: Tables) {
    && ("sensor" in t.platforms ==>
          && LegalIn(t.platforms["sensor"], "device_class")
          && LegalIn(t.platforms["sensor"], "unit_of_measurement")
          && LegalIn(t.platforms["sensor"], "options")
          && Optional(t.platforms["sensor"], "state_class"))
    && ("number" in t.platforms ==> LegalIn(t.platforms["number"], "min") && LegalIn(t.platforms["number"], "max"))
  }

  predicate Optional(schema: Schema, name: string) {
    && (name in schema.keys ==> !schema.keys[name])
    && forall v | v in schema.variants && name in schema.variants[v] :: !schema.variants[v][name]
  }

  /** With such tables, and no key spelled like a nested one, only the last-reset rule can be spoilt. */
  lemma OnlyLastReset(t: Tables, ignore: set<string>, body: Body)
    requires Legal(t) && ReadsLegal(t) && forall n | n in body :: !Respelled(n)
    ensures Spoils(t, ignore, body) <==> LosesTotal(t, ignore, body)
  {
    if Sensor(body) {
      LegalStays(t, ignore, body, "device_class");
      LegalStays(t, ignore, body, "unit_of_measurement");
      LegalStays(t, ignore, body, "options");
    }
    if StrAt(body, PLATFORM) == "number" {
      LegalStays(t, ignore, body, "min");
      LegalStays(t, ignore, body, "max");
    }
    NoTopicLost(t, ignore, body);
  }

  lemma LostTopicIsSpelled(t: Tables, ignore: set<string>, body: Body, i: nat) returns (n: string)
    requires LosesTopicAt(t, ignore, body, i)
    ensures n in body && Respelled(n) && ReadKey(n) == Some(Entry(i, "topic"))
  {
    EntryRead(BodyStrips(t, ignore, body), i, "topic");
    assert "topic" in ENTRY_KEYS && Entry(i, "topic") !in BodyStrips(t, ignore, body);
    n :| Plain(n) in BodyStrips(t, ignore, body) && Respelled(n) && ReadKey(n) == Some(Entry(i, "topic"));
    NamedIsThere(t, ignore, body, n);
  }

  lemma NamedIsThere(t: Tables, ignore: set<string>, body: Body, n: string)
    requires Plain(n) in BodyStrips(t, ignore, body)
    ensures n in body
  {
  }

  lemma NoTopicLost(t: Tables, ignore: set<string>, body: Body)
    requires forall n | n in body :: !Respelled(n)
    ensures !LosesTopic(t, ignore, body)
  {
    forall i: nat | 0 <= i < |Entries(body)| ensures !LosesTopicAt(t, ignore, body, i) {
      if LosesTopicAt(t, ignore, body, i) {
        var n := LostTopicIsSpelled(t, ignore, body, i);
      }
    }
  }

  // ------------------------------------------------------------- what is named

  lemma StrippableNames(t: Tables, ignore: set<string>, key: string, body: Body, f: Finding)
    requires f in KeyFindings(t, ignore, key, StrAt(body, PLATFORM), body) && f.strippable
    ensures |f.keys| == 1 && f.keys[0] in BodyStrips(t, ignore, body)
  {
    var platform := StrAt(body, PLATFORM);
    if f in PlatformFindings(t, key, platform, body) {
      PlatformStrippable(t, key, platform, body, f);
    } else if f in SchemaFindings(t, ignore, key, platform, body) {
      assert f.kind == KindUnknownKey && f.keys[0].name in UnknownKeys(t, ignore, platform, body);
    } else if f in AvailabilityFindings(key, body) {
      assert f.keys[0] in ExtraEntryKeys(body);
    }
  }

  lemma PlatformStrippable(t: Tables, key: string, platform: string, body: Body, f: Finding)
    requires f in PlatformFindings(t, key, platform, body) && f.strippable
    ensures platform == "sensor" && StateClassImpossible(t, body) && f.keys == [Plain("state_class")]
  {
  }

  lemma NamedIsStrippable(t: Tables, ignore: set<string>, key: string, body: Body, k: Key) returns (f: Finding)
    requires k in BodyStrips(t, ignore, body)
    ensures f in KeyFindings(t, ignore, key, StrAt(body, PLATFORM), body)
    ensures f.strippable && f.component == key && f.keys == [k]
  {
    var platform := StrAt(body, PLATFORM);
    if k.Plain? && k.name in UnknownKeys(t, ignore, platform, body) {
      f := Strippable(KindUnknownKey, key, k);
      assert f in SchemaFindings(t, ignore, key, platform, body);
    } else if AVAILABILITY !in ignore && k in ExtraEntryKeys(body) {
      f := Strippable(KindAvailabilityKey, key, k);
      assert f in AvailabilityFindings(key, body);
    } else {
      f := Strippable(KindStateClass, key, k);
      assert f in SensorFindings(t, key, body);
      assert f in PlatformFindings(t, key, platform, body);
    }
  }


  // ------------------------------------------------------------------ the laws

  /** The catalogue as a judge, what its strippable findings name, and the bodies stripping spoils. */
  function RulesOf(t: Tables, ignore: set<string>): Rules {
    Rules(JudgeOf(t, ignore), (body: Body) => BodyStrips(t, ignore, body), (body: Body) => Spoils(t, ignore, body))
  }

  lemma CatalogueNames(t: Tables, ignore: set<string>)
    ensures Named(JudgeOf(t, ignore)) && NamesStrips(RulesOf(t, ignore))
  {
    var r := RulesOf(t, ignore);
    forall key, body, f | f in r.judge.check(key, body) && f.strippable
      ensures |f.keys| == 1 && f.keys[0] in r.strips(body) {
      StrippableNames(t, ignore, key, body, f);
    }
    forall key, body, k | k in r.strips(body) ensures Offers(r.judge, key, body, k) {
      var f := NamedIsStrippable(t, ignore, key, body, k);
    }
  }

  lemma CatalogueKeepsIdentity(t: Tables, ignore: set<string>)
    requires Legal(t)
    ensures KeepsIdentity(RulesOf(t, ignore))
  {
    var r := RulesOf(t, ignore);
    forall body: Body
      ensures StrAt(Left(r, body), PLATFORM) == StrAt(body, PLATFORM)
      ensures StrAt(Left(r, body), UNIQUE_ID) == StrAt(body, UNIQUE_ID)
      ensures Left(r, Left(r, body)) == Left(r, body) {
      StrippedKeepsSchema(t, ignore, body);
      StrippedIsSettled(t, ignore, body);
    }
  }

  lemma CatalogueIsSober(t: Tables, ignore: set<string>)
    requires Legal(t)
    ensures Sober(RulesOf(t, ignore))
  {
    var r := RulesOf(t, ignore);
    forall key, body ensures r.spoils(body) <==> GainsError(r, key, body) {
      SpoilsIsGains(t, ignore, key, body);
    }
    forall body | Checked(r.judge, body) && r.spoils(body) ensures !IsRemoval(Left(r, body)) {
      SpoiltIsNoRemoval(t, ignore, body);
    }
  }

  lemma SpoilsIsGains(t: Tables, ignore: set<string>, key: string, body: Body)
    requires Legal(t)
    ensures Spoils(t, ignore, body) <==> GainsError(RulesOf(t, ignore), key, body)
  {
    var r := RulesOf(t, ignore);
    StrippingSpoilsExactly(t, ignore, key, body);
    StrippedKeepsSchema(t, ignore, body);
    var before, after := r.judge.check(key, body), r.judge.check(key, Left(r, body));
    assert before == KeyFindings(t, ignore, key, StrAt(body, PLATFORM), body);
    assert after == KeyFindings(t, ignore, key, StrAt(body, PLATFORM), LeftOf(t, ignore, body));
    if GainsError(r, key, body) {
      var f :| f in after && f.error && f !in before;
      assert NewError(before, after, f);
    }
    if f :| NewError(before, after, f) {
      assert GainsError(r, key, body);
    }
  }

  lemma SpoiltIsNoRemoval(t: Tables, ignore: set<string>, body: Body)
    requires Legal(t) && Spoils(t, ignore, body)
    requires StrAt(body, UNIQUE_ID) != "" || StrAt(body, PLATFORM) in NON_ENTITY
    ensures !IsRemoval(LeftOf(t, ignore, body))
  {
    StrippedKeepsSchema(t, ignore, body);
    StrippedReads(t, ignore, body, AVAILABILITY);
    if StrAt(body, UNIQUE_ID) != "" {
      assert UNIQUE_ID in LeftOf(t, ignore, body) && UNIQUE_ID != PLATFORM;
    } else {
      assert LosesTopic(t, ignore, body) && AVAILABILITY in LeftOf(t, ignore, body) && AVAILABILITY != PLATFORM;
    }
  }

  /** When its tables accept an identity and a variant on every platform, the catalogue's checks are lawful,
      so everything proved of containment under a lawful judge holds of Contain as it runs. */
  lemma CatalogueIsLawful(t: Tables, ignore: set<string>)
    requires Legal(t)
    ensures Lawful(RulesOf(t, ignore))
  {
    CatalogueNames(t, ignore);
    CatalogueKeepsIdentity(t, ignore);
    CatalogueIsSober(t, ignore);
  }
}
