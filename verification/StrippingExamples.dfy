/** Components that stripping harms, one per way it can. */
module StrippingExamples {
  import opened Text
  import opened Documents
  import opened Inspection
  import opened KeySpelling
  import opened Containment
  import opened Acceptance
  import opened CatalogueRules

  // ----------------------------------------------------------- the state class

  /** A sensor Home Assistant merely warns about: its device class has no state class `total`. */
  const METER := Component("sensor", "meter", Encoded(map[
    "platform" := Str("sensor"), "unique_id" := Str("meter"), "device_class" := Str("monetary"),
    "state_class" := Str("total"), "last_reset_value_template" := Str("t")]))

  /** A catalogue that constrains nothing else. */
  const CATALOGUE := Tables({"sensor"}, map[], map[], {}, map[], map[], map[], map["monetary" := {}], map[],
                            (s: string) => None, (s: string) => s == "")

  const SITE := Document("node", ["id"], [], "bridge", map["meter" := METER], map[], map[])

  /** As rendered, Home Assistant accepts the meter and warns about its state class. */
  lemma MeterIsAccepted()
    ensures ErrorFree(Inspect(JudgeOf(CATALOGUE, {}), SITE))
  {
    SiteFrame();
    MeterIsClean();
    OnlyComponentClean(JudgeOf(CATALOGUE, {}), SITE, "meter");
  }

  lemma SiteFrame()
    ensures ErrorFree(FrameFindings(SITE)) && SITE.components.Keys == {"meter"}
  {
  }

  lemma OnlyComponentClean(judge: Judge, b: Document, key: string)
    requires b.components.Keys == {key} && ErrorFree(FrameFindings(b)) && !HasError(judge, b.components, key)
    ensures ErrorFree(Inspect(judge, b))
  {
    ErrorFreeExactly(judge, b);
  }

  /** Containment with stripping on hands out a document Home Assistant refuses the meter of. */
  lemma StrippingCanSpoil(rebuilds: Body -> bool)
    requires forall body :: rebuilds(body)
    ensures !ErrorFree(Inspect(JudgeOf(CATALOGUE, {}), Contain(JudgeOf(CATALOGUE, {}), true, rebuilds, SITE)))
  {
    CatalogueIsLawful(CATALOGUE, {});
    MeterIsClean();
    MeterIsSpoilt(rebuilds);
    SpoiltAlone(RulesOf(CATALOGUE, {}), rebuilds, SITE, "meter");
  }

  /** On a catalogue with no sensor schema, a metered sensor whose state class is impossible. */
  lemma TotalIsLost(t: Tables, body: Body)
    requires "sensor" !in t.platforms && Sensor(body) && StateClassImpossible(t, body)
    requires StrAt(body, "state_class") == "total" && "last_reset_value_template" in body
    ensures LosesTotal(t, {}, body) && LeftOf(t, {}, body) != body
  {
    assert Plain("state_class") in BodyStrips(t, {}, body) && "state_class" in body;
    NoSchemaNames(t, body);
    StrippedReads(t, {}, body, "state_class");
  }

  lemma NoSchemaNames(t: Tables, body: Body)
    requires StrAt(body, PLATFORM) !in t.platforms
    ensures forall n | Plain(n) in BodyStrips(t, {}, body) :: n == "state_class"
  {
  }

  lemma MeterReads()
    ensures var body := METER.encoding.body;
            && Sensor(body) && StateClassImpossible(CATALOGUE, body) && StrAt(body, "state_class") == "total"
            && "last_reset_value_template" in body
  {
  }

  lemma MeterIsChecked()
    ensures Checked(JudgeOf(CATALOGUE, {}), METER.encoding.body)
  {
    assert UNIQUE_ID in METER.encoding.body && UNIQUE_ID != PLATFORM;
  }

  lemma MeterIsSpoilt(rebuilds: Body -> bool)
    requires forall body :: rebuilds(body)
    ensures Spoilt(RulesOf(CATALOGUE, {}), rebuilds, "meter", METER)
  {
    MeterReads();
    MeterIsChecked();
    TotalIsLost(CATALOGUE, METER.encoding.body);
  }

  /** Contained again, it loses the meter. */
  lemma SecondPassWithholdsTheMeter(rebuilds: Body -> bool)
    requires forall body :: rebuilds(body)
    ensures var judge := JudgeOf(CATALOGUE, {});
            var once := Contain(judge, true, rebuilds, SITE);
            "meter" in once.components && "meter" !in Contain(judge, true, rebuilds, once).components
  {
    CatalogueIsLawful(CATALOGUE, {});
    MeterIsClean();
    MeterIsSpoilt(rebuilds);
    FailingExactly(JudgeOf(CATALOGUE, {}), SITE, "meter");
    SpoiltIsWithheld(RulesOf(CATALOGUE, {}), rebuilds, SITE, "meter");
  }

  lemma SpoiltAlone(r: Rules, rebuilds: Body -> bool, b: Document, key: string)
    requires Lawful(r) && key in b.components
    requires !HasError(r.judge, b.components, key) && Spoilt(r, rebuilds, key, b.components[key])
    ensures !ErrorFree(Inspect(r.judge, Contain(r.judge, true, rebuilds, b)))
  {
    FailingExactly(r.judge, b, key);
    SpoiltHasError(r, rebuilds, b, key);
    ErrorFreeExactly(r.judge, Contain(r.judge, true, rebuilds, b));
  }

  lemma MeterIsClean()
    ensures !HasError(JudgeOf(CATALOGUE, {}), SITE.components, "meter")
  {
    var judge, body := JudgeOf(CATALOGUE, {}), METER.encoding.body;
    LessIsTotal("meter", "meter");
    assert !Taken(judge, SITE.components, "meter");
    assert UNIQUE_ID in body && UNIQUE_ID != PLATFORM;
    assert Checked(judge, body);
    CheckedFindings(judge, "meter", METER);
    assert judge.check("meter", body) == KeyFindings(CATALOGUE, {}, "meter", "sensor", body);
    MeterKeys();
  }

  lemma CheckedFindings(judge: Judge, key: string, c: Component)
    requires c.encoding.Encoded? && Checked(judge, c.encoding.body)
    ensures ComponentFindings(judge, key, c, false) == judge.check(key, c.encoding.body)
  {
  }

  lemma MeterKeys()
    ensures forall f | f in KeyFindings(CATALOGUE, {}, "meter", "sensor", METER.encoding.body) :: !f.error
  {
    MeterSensor();
    MeterRest();
  }

  lemma MeterRest()
    ensures SchemaFindings(CATALOGUE, {}, "meter", "sensor", METER.encoding.body) == {}
    ensures ClassFindings(CATALOGUE, "meter", "sensor", METER.encoding.body) == {}
    ensures AvailabilityFindings("meter", METER.encoding.body) == {}
  {
    assert Entries(METER.encoding.body) == [];
  }

  lemma MeterSensor()
    ensures forall f | f in PlatformFindings(CATALOGUE, "meter", "sensor", METER.encoding.body) :: !f.error
  {
    assert UnitOf(CATALOGUE, METER.encoding.body) == "";
    assert "options" !in METER.encoding.body;
  }

  // --------------------------------------------------------- the other ways

  /** A catalogue of one platform that accepts only these keys. */
  function OnlyKeys(platform: string, keys: set<string>): Tables {
    Tables({platform}, map[platform := Schema(map k | k in keys :: false, "", map[])], map[], {}, map[], map[], map[],
           map[], map[], (s: string) => None, (s: string) => s == "")
  }

  lemma OnlyKeysIsLegal(platform: string, keys: set<string>)
    requires UNIQUE_ID in keys
    ensures Legal(OnlyKeys(platform, keys))
  {
  }

  /** There every other key is stripped. */
  lemma OthersAreGone(platform: string, keys: set<string>, body: Body, n: string)
    requires StrAt(body, PLATFORM) == platform && keys != {} && n in body && n != PLATFORM && n !in keys
    ensures Plain(n) in BodyStrips(OnlyKeys(platform, keys), {}, body)
  {
    var schema := OnlyKeys(platform, keys).platforms[platform];
    var k :| k in keys;
    assert k in schema.keys;
    assert AllowedKeys(schema, body) == keys;
  }

  /** A sensor platform that has options but no device class: the options lose their `enum`. */
  lemma EnumCanBeLost(body: Body, options: Value)
    requires Sensor(body) && StrAt(body, "device_class") == "enum"
    requires "options" in body && body["options"] == options && options != Null && options != List([])
    ensures Legal(OnlyKeys("sensor", {UNIQUE_ID, "options"})) && LosesEnum(OnlyKeys("sensor", {UNIQUE_ID, "options"}), {}, body)
  {
    var keys := {UNIQUE_ID, "options"};
    OnlyKeysIsLegal("sensor", keys);
    OthersAreGone("sensor", keys, body, "device_class");
    LegalStays(OnlyKeys("sensor", keys), {}, body, "options");
  }

  /** An unknown key spelled like the topic of the one availability entry: the code takes the topic out, and
      leaves the unknown key in. */
  lemma TopicCanBeLost(platform: string, body: Body, entry: map<string, Value>)
    requires StrAt(body, PLATFORM) == platform && AVAILABILITY in body && body[AVAILABILITY] == Obj(entry)
    requires StrAt(entry, "topic") != "" && Spell(Entry(0, "topic")) in body
    ensures var t := OnlyKeys(platform, {UNIQUE_ID, AVAILABILITY});
            && Legal(t) && LosesTopic(t, {}, body) && Spell(Entry(0, "topic")) in LeftOf(t, {}, body)
  {
    var keys, n := {UNIQUE_ID, AVAILABILITY}, Spell(Entry(0, "topic"));
    var t := OnlyKeys(platform, keys);
    OnlyKeysIsLegal(platform, keys);
    Behind(ENTRY_PREFIX, Digits(0) + ("]." + "topic"));
    assert Respelled(n);
    EntryReadsBack(0, "topic");
    NotAKey(n);
    OthersAreGone(platform, keys, body, n);
    EntryRead(BodyStrips(t, {}, body), 0, "topic");
    LegalStays(t, {}, body, AVAILABILITY);
    assert LosesTopicAt(t, {}, body, 0);
    StrippedReads(t, {}, body, n);
  }

  lemma NotAKey(n: string)
    requires Respelled(n)
    ensures n != PLATFORM && n != UNIQUE_ID && n != AVAILABILITY
  {
    assert |n| >= |ENTRY_PREFIX|;
  }

  /** A tag whose every other key is unknown: what is left of it is a removal marker. */
  lemma TagCanBeEmptied(body: Body, rebuilds: Body -> bool)
    requires StrAt(body, PLATFORM) == "tag" && !IsRemoval(body) && UNIQUE_ID !in body
    requires forall n | n in body :: !Respelled(n)
    requires forall left :: rebuilds(left)
    ensures var t := OnlyKeys("tag", {UNIQUE_ID});
            var c := Component("tag", "", Encoded(body));
            && Legal(t) && Stripped(RulesOf(t, {}), rebuilds, c) && IsRemoval(Left(RulesOf(t, {}), body))
  {
    var t := OnlyKeys("tag", {UNIQUE_ID});
    OnlyKeysIsLegal("tag", {UNIQUE_ID});
    forall n | n in body && n != PLATFORM ensures n !in LeftOf(t, {}, body) {
      OthersAreGone("tag", {UNIQUE_ID}, body, n);
      StrippedReads(t, {}, body, n);
    }
    assert IsRemoval(LeftOf(t, {}, body));
  }

  /** Documents in which these things happen. */
  lemma SuchBodiesExist() returns (orphaned: Body, respelled: Body, emptied: Body)
    ensures LosesEnum(OnlyKeys("sensor", {UNIQUE_ID, "options"}), {}, orphaned)
    ensures LosesTopic(OnlyKeys("sensor", {UNIQUE_ID, AVAILABILITY}), {}, respelled)
    ensures StrAt(emptied, PLATFORM) == "tag" && !IsRemoval(emptied) && IsRemoval(LeftOf(OnlyKeys("tag", {UNIQUE_ID}), {}, emptied))
  {
    orphaned := Orphaned();
    respelled := WithTopic();
    emptied := BareTag();
  }

  lemma Orphaned() returns (body: Body)
    ensures LosesEnum(OnlyKeys("sensor", {UNIQUE_ID, "options"}), {}, body)
  {
    body := map["platform" := Str("sensor"), "unique_id" := Str("mode"), "device_class" := Str("enum"), "options" := List([Str("on")])];
    EnumCanBeLost(body, List([Str("on")]));
  }

  lemma WithTopic() returns (body: Body)
    ensures LosesTopic(OnlyKeys("sensor", {UNIQUE_ID, AVAILABILITY}), {}, body)
  {
    var n := Spell(Entry(0, "topic"));
    var entry: map<string, Value> := map["topic" := Str("bridge/state")];
    Behind(ENTRY_PREFIX, Digits(0) + ("]." + "topic"));
    NotAKey(n);
    body := map[PLATFORM := Str("sensor"), AVAILABILITY := Obj(entry)];
    body := body[n := Null];
    TopicCanBeLost("sensor", body, entry);
  }

  lemma BareTag() returns (body: Body)
    ensures StrAt(body, PLATFORM) == "tag" && !IsRemoval(body) && IsRemoval(LeftOf(OnlyKeys("tag", {UNIQUE_ID}), {}, body))
  {
    body := map["platform" := Str("tag"), "note" := Null];
    assert "note" in body;
    TagCanBeEmptied(body, (left: Body) => true);
  }

  /** Why a lawful catalogue has to accept an identity everywhere: where it is unknown, stripping takes it. */
  lemma UnknownIdentityIsLost(t: Tables, ignore: set<string>, body: Body)
    requires StrAt(body, PLATFORM) in t.platforms && UNIQUE_ID !in ignore && StrAt(body, UNIQUE_ID) != ""
    requires var allowed := AllowedKeys(t.platforms[StrAt(body, PLATFORM)], body); allowed != {} && UNIQUE_ID !in allowed
    ensures StrAt(LeftOf(t, ignore, body), UNIQUE_ID) == ""
  {
    assert UNIQUE_ID in UnknownKeys(t, ignore, StrAt(body, PLATFORM), body);
    StrippedReads(t, ignore, body, UNIQUE_ID);
  }
}
