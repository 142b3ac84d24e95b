/** Home Assistant's discovery config topics: three forms, rendered and taken apart again. */
module ConfigTopics {
  import opened Text

  const DEFAULT_PREFIX := "homeassistant"
  const BUNDLE_SEGMENT := "device"
  const CONFIG := "config"

  datatype ConfigTopic = ConfigTopic(platform: string, nodeID: string, objectID: string, bundle: bool)

  function TrimSlash(s: string): string {
    if HasSuffix(s, "/") then s[..|s| - 1] else s
  }

  /** topicPrefix: the trailing-slash form, with the default for an empty prefix. */
  function TopicPrefix(prefix: string): (p: string)
    ensures |p| >= 1 && p[|p| - 1] == '/'
  {
    TrimSlash(if prefix == "" then DEFAULT_PREFIX else prefix) + "/"
  }

  function EntityConfigTopic(prefix: string, platform: string, nodeID: string, objectID: string): string {
    TopicPrefix(prefix) + platform + "/" + nodeID + "/" + objectID + "/config"
  }

  function FlatConfigTopic(prefix: string, platform: string, objectID: string): string {
    TopicPrefix(prefix) + platform + "/" + objectID + "/config"
  }

  function BundleConfigTopic(prefix: string, nodeID: string): string {
    TopicPrefix(prefix) + BUNDLE_SEGMENT + "/" + nodeID + "/config"
  }

  /** ParseConfigTopic. */
  function Parse(prefix: string, topic: string): Option<ConfigTopic> {
    var p := TopicPrefix(prefix);
    if !(p <= topic) || !HasSuffix(topic, "/config") then None
    else
      ReadLevels(Split(topic[|p|..]))
  }

  /** The levels after the prefix, the last of them `config`. */
  function ReadLevels(parts: seq<string>): Option<ConfigTopic> {
    if |parts| == 4 then
      if parts[0] == "" || parts[1] == "" || parts[2] == "" then None
      else Some(ConfigTopic(parts[0], parts[1], parts[2], false))
    else if |parts| == 3 && parts[0] == BUNDLE_SEGMENT then
      if parts[1] == "" then None else Some(ConfigTopic("", parts[1], "", true))
    else if |parts| == 3 then
      if parts[0] == "" || parts[1] == "" then None
      else Some(ConfigTopic(parts[0], "", parts[1], false))
    else None
  }

  predicate Segment(s: string) {
    s != "" && Flat(s)
  }

  /** The parsed values that name a config topic: a document, or an entity with or without a node id. */
  predicate Nameable(c: ConfigTopic) {
    if c.bundle then c.platform == "" && c.objectID == "" && Segment(c.nodeID)
    else if c.nodeID != "" then Segment(c.platform) && Segment(c.nodeID) && Segment(c.objectID)
    else Segment(c.platform) && Segment(c.objectID) && c.platform != BUNDLE_SEGMENT
  }

  function Render(prefix: string, c: ConfigTopic): string {
    if c.bundle then BundleConfigTopic(prefix, c.nodeID)
    else if c.nodeID != "" then EntityConfigTopic(prefix, c.platform, c.nodeID, c.objectID)
    else FlatConfigTopic(prefix, c.platform, c.objectID)
  }

  /** The levels after the prefix. */
  function Levels(c: ConfigTopic): seq<string> {
    if c.bundle then [BUNDLE_SEGMENT, c.nodeID, CONFIG]
    else if c.nodeID != "" then [c.platform, c.nodeID, c.objectID, CONFIG]
    else [c.platform, c.objectID, CONFIG]
  }

  lemma Join3(a: string, b: string, c: string)
    ensures Join([a, b, c]) == a + "/" + b + "/" + c
  {
    assert [a, b, c][1..] == [b, c];
    assert [b, c][1..] == [c];
    assert Join([c]) == c;
    assert Join([b, c]) == b + "/" + c;
    assert a + "/" + (b + "/" + c) == a + "/" + b + "/" + c;
  }

  lemma Join4(a: string, b: string, c: string, d: string)
    ensures Join([a, b, c, d]) == a + "/" + b + "/" + c + "/" + d
  {
    assert [a, b, c, d][1..] == [b, c, d];
    Join3(b, c, d);
    assert a + "/" + (b + "/" + c + "/" + d) == a + "/" + b + "/" + c + "/" + d;
  }

  /** The same text, bracketed the other way. */
  lemma Regroup(p: string, a: string, s: string, b: string, e: string)
    ensures p + a + s + b + e == p + (a + s + b + e)
  {
  }

  lemma EndsInConfig(x: string)
    ensures x + "/config" == x + "/" + CONFIG
  {
    assert "/config" == "/" + CONFIG;
  }

  lemma TwoSegments(p: string, a: string, b: string)
    ensures p + a + "/" + b + "/config" == p + Join([a, b, CONFIG])
  {
    Join3(a, b, CONFIG);
    EndsInConfig(a + "/" + b);
    Regroup(p, a, "/", b, "/config");
  }

  lemma ThreeSegments(p: string, a: string, b: string, c: string)
    ensures p + a + "/" + b + "/" + c + "/config" == p + Join([a, b, c, CONFIG])
  {
    Join4(a, b, c, CONFIG);
    EndsInConfig(a + "/" + b + "/" + c);
    Regroup(p, a, "/", b, "/");
    Regroup(p, a + "/" + b, "/", c, "/config");
    assert p + (a + "/" + b) == p + a + "/" + b;
  }

  lemma RenderIsJoin(prefix: string, c: ConfigTopic)
    ensures Render(prefix, c) == TopicPrefix(prefix) + Join(Levels(c))
  {
    if c.bundle {
      TwoSegments(TopicPrefix(prefix), BUNDLE_SEGMENT, c.nodeID);
    } else if c.nodeID != "" {
      ThreeSegments(TopicPrefix(prefix), c.platform, c.nodeID, c.objectID);
    } else {
      TwoSegments(TopicPrefix(prefix), c.platform, c.objectID);
    }
  }

  lemma RenderEnds(prefix: string, c: ConfigTopic)
    ensures HasSuffix(Render(prefix, c), "/config")
  {
  }

  /** Rendering then parsing returns what was rendered, under any prefix. */
  lemma PrintParse(prefix: string, c: ConfigTopic)
    requires Nameable(c)
    ensures Parse(prefix, Render(prefix, c)) == Some(c)
  {
    var p := TopicPrefix(prefix);
    RenderIsJoin(prefix, c);
    RenderEnds(prefix, c);
    assert Render(prefix, c)[|p|..] == Join(Levels(c));
    SplitJoin(Levels(c));
  }

  lemma LastLevel(s: string)
    requires HasSuffix(s, "/config")
    ensures Split(s) == Split(s[..|s| - 7]) + [CONFIG]
  {
    SuffixText(s);
    ConfigIsFlat();
    SplitTail(s[..|s| - 7], CONFIG);
  }

  lemma ConfigIsFlat()
    ensures Flat(CONFIG)
  {
  }

  lemma SuffixText(s: string)
    requires HasSuffix(s, "/config")
    ensures s == s[..|s| - 7] + "/" + CONFIG
  {
    assert s == s[..|s| - 7] + s[|s| - 7..];
    assert "/config" == "/" + CONFIG;
  }

  lemma SplitTail(front: string, tail: string)
    requires Flat(tail)
    ensures Split(front + "/" + tail) == Split(front) + [tail]
  {
    SplitConcat(front, tail);
    SplitFlat(tail);
  }

  /** What is left after the prefix either carries the whole suffix or is just `config`. */
  lemma SuffixAfterPrefix(p: string, rest: string)
    requires |p| >= 1 && p[|p| - 1] == '/' && HasSuffix(p + rest, "/config")
    ensures HasSuffix(rest, "/config") || rest == CONFIG
  {
    var whole := p + rest;
    var tail := whole[|whole| - 7..];
    if |rest| >= 7 {
      assert rest[|rest| - 7..] == tail;
    } else {
      assert tail[7 - |rest| - 1] == p[|p| - 1];
      assert 7 - |rest| - 1 == 0;
      assert rest == tail[1..];
    }
  }

  lemma ParsedLevels(prefix: string, topic: string)
    requires TopicPrefix(prefix) <= topic && HasSuffix(topic, "/config")
    ensures var parts := Split(topic[|TopicPrefix(prefix)|..]);
            parts[|parts| - 1] == CONFIG
  {
    var p := TopicPrefix(prefix);
    var rest := topic[|p|..];
    assert topic == p + rest;
    SuffixAfterPrefix(p, rest);
    RestEnds(rest);
  }

  lemma RestEnds(rest: string)
    requires HasSuffix(rest, "/config") || rest == CONFIG
    ensures var parts := Split(rest); parts[|parts| - 1] == CONFIG
  {
    if HasSuffix(rest, "/config") {
      LastLevel(rest);
      LastOf(Split(rest[..|rest| - 7]), CONFIG);
    } else {
      SplitFlat(rest);
    }
  }

  lemma LastOf(front: seq<string>, last: string)
    ensures (front + [last])[|front + [last]| - 1] == last
  {
  }

  /** Parsing then rendering returns the topic. */
  lemma ParsePrint(prefix: string, topic: string)
    requires Parse(prefix, topic).Some?
    ensures Nameable(Parse(prefix, topic).value)
    ensures Render(prefix, Parse(prefix, topic).value) == topic
  {
    var p, c := TopicPrefix(prefix), Parse(prefix, topic).value;
    var rest := topic[|p|..];
    var parts := Split(rest);
    ParsedLevels(prefix, topic);
    assert forall i | 0 <= i < |parts| :: parts[i] in parts;
    assert parts == Levels(c);
    JoinSplit(rest);
    RenderIsJoin(prefix, c);
  }

  /** Two different names never share a topic. */
  lemma RenderInjective(prefix: string, c: ConfigTopic, d: ConfigTopic)
    requires Nameable(c) && Nameable(d) && Render(prefix, c) == Render(prefix, d)
    ensures c == d
  {
    PrintParse(prefix, c);
    PrintParse(prefix, d);
  }

  /** A prefix with and without its trailing slash, and an unset one, address one tree. */
  lemma PrefixSpellings(prefix: string)
    requires prefix != "" && !HasSuffix(prefix, "/")
    ensures TopicPrefix(prefix + "/") == TopicPrefix(prefix)
    ensures TopicPrefix("") == TopicPrefix(DEFAULT_PREFIX)
  {
    assert (prefix + "/")[..|prefix|] == prefix;
  }

  // -------------------------------------------------- the other parser

  datatype Dumped = Dumped(platform: string, node: string, object_: string, bundle: bool)

  function TrimConfig(s: string): string {
    if HasSuffix(s, "/config") then s[..|s| - 7] else s
  }

  /** internal/dump's ParseTopic. */
  function DumpParse(topic: string, prefix: string): Option<Dumped> {
    var p := TrimSlash(prefix) + "/";
    if !(p <= topic) || !HasSuffix(topic, "/config") then None
    else
      ReadDumped(Split(TrimConfig(topic[|p|..])))
  }

  function ReadDumped(parts: seq<string>): Option<Dumped> {
    if |parts| == 3 then Some(Dumped(parts[0], parts[1], parts[2], false))
    else if |parts| == 2 && parts[0] == BUNDLE_SEGMENT then Some(Dumped("", parts[1], "", true))
    else if |parts| == 2 then Some(Dumped(parts[0], "", parts[1], false))
    else None
  }

  /** The segments a dumped topic was made of; a bundle's first is the literal `device`. */
  function DumpedSegments(topic: string, prefix: string): seq<string>
    requires DumpParse(topic, prefix).Some?
  {
    Split(TrimConfig(topic[|TrimSlash(prefix) + "/"|..]))
  }

  /** The two parsers agree, field by field, except that this one refuses empty segments. */
  lemma ParsersAgree(prefix: string, topic: string)
    requires prefix != ""
    ensures Parse(prefix, topic).Some?
            <==> DumpParse(topic, prefix).Some? && "" !in DumpedSegments(topic, prefix)
    ensures Parse(prefix, topic).Some? ==>
              var c, d := Parse(prefix, topic).value, DumpParse(topic, prefix).value;
              d == Dumped(c.platform, c.nodeID, c.objectID, c.bundle)
  {
    var p := TopicPrefix(prefix);
    if p <= topic && HasSuffix(topic, "/config") {
      var rest := topic[|p|..];
      assert topic == p + rest;
      SuffixAfterPrefix(p, rest);
      if HasSuffix(rest, "/config") {
        LastLevel(rest);
        LevelsAgree(Split(TrimConfig(rest)));
      } else {
        SplitFlat(rest);
      }
    }
  }

  lemma LevelsAgree(front: seq<string>)
    ensures ReadLevels(front + [CONFIG]).Some? <==> ReadDumped(front).Some? && "" !in front
    ensures ReadLevels(front + [CONFIG]).Some? ==>
              var c, d := ReadLevels(front + [CONFIG]).value, ReadDumped(front).value;
              d == Dumped(c.platform, c.nodeID, c.objectID, c.bundle)
  {
    EmptyAmong(front);
  }

  lemma EmptyAmong(parts: seq<string>)
    ensures |parts| == 3 ==> ("" in parts <==> parts[0] == "" || parts[1] == "" || parts[2] == "")
    ensures |parts| == 2 ==> ("" in parts <==> parts[0] == "" || parts[1] == "")
  {
  }

  lemma RenderNotEmpty(prefix: string, c: ConfigTopic)
    ensures Render(prefix, c) != ""
  {
    RenderEnds(prefix, c);
  }

  /** The three forms as they look, under the default prefix and another. */
  lemma EntityFormSpelled()
    ensures EntityConfigTopic("", "sensor", "node", "temp") == "homeassistant/sensor/node/temp/config"
  {
  }

  lemma FlatFormSpelled()
    ensures FlatConfigTopic("", "sensor", "id") == "homeassistant/sensor/id/config"
  {
  }

  lemma BundleFormSpelled()
    ensures BundleConfigTopic("ha/", "node") == "ha/device/node/config"
  {
  }

  /** So they are read back with each segment in its place. */
  lemma FormsRead()
    ensures Parse("", "homeassistant/sensor/node/temp/config") == Some(ConfigTopic("sensor", "node", "temp", false))
    ensures Parse("", "homeassistant/sensor/id/config") == Some(ConfigTopic("sensor", "", "id", false))
    ensures Parse("ha", "ha/device/node/config") == Some(ConfigTopic("", "node", "", true))
  {
    EntityFormSpelled();
    FlatFormSpelled();
    BundleFormSpelled();
    PrintParse("", ConfigTopic("sensor", "node", "temp", false));
    PrintParse("", ConfigTopic("sensor", "", "id", false));
    PrintParse("ha/", ConfigTopic("", "node", "", true));
    assert TopicPrefix("ha/") == TopicPrefix("ha");
  }
}
