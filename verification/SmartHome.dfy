/** The smart-home topic grammar: what this process writes never comes back as a command. */
module SmartHome {
  import opened Text
  import opened Filters
  import FilterSyntax

  const STATUS := "status"
  const SET := "set"
  const META := "meta"
  const MAINTENANCE := "maintenance"
  const CONNECTED := "connected"
  const INFO := "info"

  datatype Bucket = Unset | Values | Master | Calculated | Custom | Unknown

  function BucketText(b: Bucket): string {
    match b
    case Unset => ""
    case Values => "values"
    case Master => "master"
    case Calculated => "calculated"
    case Custom => "custom"
    case Unknown => "unknown"
  }

  datatype Slot = Slot(scope: seq<string>, address: string, channel: string, bucket: Bucket, path: seq<string>)

  datatype Pulse = DataPointEvent | ChannelEvent | ChannelImpulse | ChannelDeviceError | Invalid

  function Leaf(k: Pulse): string {
    match k
    case DataPointEvent => "event"
    case ChannelEvent => "event"
    case ChannelImpulse => "impulse"
    case ChannelDeviceError => "device_error"
    case Invalid => ""
  }

  // -------------------------------------------------------------- segments

  function SafeChar(c: char): char {
    if c == '/' || c == '+' || c == '#' || c == '\0' || c == ' ' || c == '\t' || c == '\n' || c == '\r' then '_' else c
  }

  /** Safe: no character that could change a topic's shape. */
  function Safe(s: string): (r: string)
    ensures |r| == |s| && Flat(r) && NoWildChars(r) && '\0' !in r
  {
    seq(|s|, i requires 0 <= i < |s| => SafeChar(s[i]))
  }

  /** The segments that survive: made safe, empty ones dropped. */
  function Segments(parts: seq<string>): (r: seq<string>)
    ensures forall p | p in r :: p != "" && Flat(p) && NoWildChars(p)
  {
    if parts == [] then []
    else
      var last := Safe(parts[|parts| - 1]);
      Segments(parts[..|parts| - 1]) + if last == "" then [] else [last]
  }

  function JoinSafe(parts: seq<string>): string {
    Join(Segments(parts))
  }

  method SafeSegment(s: string) returns (r: string)
    ensures r == Safe(s)
    ensures |r| == |s|
    ensures forall i | 0 <= i < |s| ::
              if s[i] == '/' || s[i] == '+' || s[i] == '#' || s[i] == '\0'
                 || s[i] == ' ' || s[i] == '\t' || s[i] == '\n' || s[i] == '\r' then r[i] == '_' else r[i] == s[i]
  {
    r := "";
    for i := 0 to |s|
      invariant r == Safe(s)[..i]
    {
      match s[i] {
        case '/' => r := r + "_";
        case '+' => r := r + "_";
        case '#' => r := r + "_";
        case '\0' => r := r + "_";
        case ' ' => r := r + "_";
        case '\t' => r := r + "_";
        case '\n' => r := r + "_";
        case '\r' => r := r + "_";
        case c => r := r + [c];
      }
    }
  }

  method JoinSegments(parts: seq<string>) returns (topic: string)
    ensures topic == JoinSafe(parts)
  {
    var kept: seq<string> := [];
    for i := 0 to |parts|
      invariant kept == Segments(parts[..i])
    {
      assert parts[..i + 1][..i] == parts[..i];
      var p := SafeSegment(parts[i]);
      if p != "" {
        kept := kept + [p];
      }
    }
    assert parts[..|parts|] == parts;
    topic := Join(kept);
  }

  // --------------------------------------------------------------- grammar

  datatype NameError = EmptyName | Reserved | Wildcard | HasSlash | EmptyLevel

  /** checkName. */
  function CheckName(name: string, multiLevel: bool): Option<NameError> {
    if name == "" then Some(EmptyName)
    else if name[0] == '$' then Some(Reserved)
    else if '+' in name || '#' in name || '\0' in name then Some(Wildcard)
    else if Flat(name) then None
    else if !multiLevel then Some(HasSlash)
    else if "" in Split(name) then Some(EmptyLevel)
    else None
  }

  predicate ValidName(name: string) {
    CheckName(name, true).None?
  }

  /** fn: no topic without at least one item level. */
  function Fn(name: string, function_: string, item: seq<string>): string {
    if name == "" || Segments(item) == [] then "" else name + "/" + (function_ + "/" + JoinSafe(item))
  }

  function Item(s: Slot): seq<string> {
    s.scope + [s.address, s.channel, BucketText(s.bucket)] + s.path
  }

  function StateTopic(name: string, s: Slot): string { Fn(name, STATUS, Item(s)) }

  function CommandTopic(name: string, s: Slot): string { Fn(name, SET, Item(s)) }

  function MetaTopic(name: string, s: Slot): string { Fn(name, META, Item(s)) }

  function MaintenanceTopic(name: string, item: seq<string>): string { Fn(name, MAINTENANCE, item) }

  function ConnectedTopic(name: string): string { if name == "" then "" else name + "/" + CONNECTED }

  function InfoTopic(name: string): string { if name == "" then "" else name + "/" + INFO }

  function AvailabilityTopic(name: string, s: Slot): string {
    if s.address == "" then "" else Fn(name, STATUS, s.scope + [s.address, "online"])
  }

  function PulseTopic(name: string, k: Pulse, s: Slot): string {
    if k == Invalid || k == DataPointEvent || s.address == "" then ""
    else Fn(name, STATUS, s.scope + [s.address, s.channel, Leaf(k)])
  }

  /** `<name>/maintenance/set/#`. */
  function MaintenanceFilter(name: string): string { name + "/" + (MAINTENANCE + "/" + (SET + "/" + "#")) }

  /** `<name>/set/#`. */
  function SetFilter(name: string): string { name + "/" + (SET + "/" + "#") }

  /** The filters this process takes commands on. */
  predicate CommandFilter(name: string, filter: string) {
    name + "/" + (SET + "/") <= filter || filter == MaintenanceFilter(name)
  }

  // ----------------------------------------------------------------- levels

  /** A valid name is topic levels of its own, the first not reserved for the broker. */
  lemma NameLevels(name: string)
    requires ValidName(name)
    ensures var n := Split(name);
            IsTopic(n) && !Dollar(n[0]) && forall p | p in n :: p != ""
  {
    NameHasNoWild(name);
    FirstLevel(name);
    if Flat(name) {
      SplitFlat(name);
    }
  }

  lemma {:induction false} NameHasNoWild(s: string)
    requires NoWildChars(s)
    ensures forall p | p in Split(s) :: NoWildChars(p)
  {
    if s != "" {
      NameHasNoWild(s[1..]);
      var rest := Split(s[1..]);
      assert NoWildChars(rest[0]) && forall p | p in rest[1..] :: p in rest;
    }
  }

  lemma FirstLevel(s: string)
    requires s != "" && s[0] != '$'
    ensures !Dollar(Split(s)[0])
  {
  }

  /** A rendered topic: the name, its function, its safe item levels. */
  lemma TopicLevels(name: string, function_: string, item: seq<string>)
    requires name != "" && Flat(function_) && Segments(item) != []
    ensures Split(Fn(name, function_, item)) == Split(name) + ([function_] + Segments(item))
  {
    SplitConcat(name, function_ + "/" + JoinSafe(item));
    SplitCons(function_, JoinSafe(item));
    SplitJoin(Segments(item));
  }

  lemma PlainFilterParts(name: string, filter: string)
    requires ValidName(name) && name <= filter
    ensures FilterSyntax.FilterParts(filter) == Split(filter)
  {
    assert filter[0] == name[0];
  }

  lemma SetFilterLevels(name: string, rest: string)
    requires ValidName(name)
    ensures FilterSyntax.FilterParts(name + "/" + (SET + "/" + rest)) == Split(name) + ([SET] + Split(rest))
  {
    PlainFilterParts(name, name + "/" + (SET + "/" + rest));
    SplitConcat(name, SET + "/" + rest);
    SplitCons(SET, rest);
  }

  lemma MaintenanceFilterLevels(name: string)
    requires ValidName(name)
    ensures FilterSyntax.FilterParts(MaintenanceFilter(name)) == Split(name) + ([MAINTENANCE, SET] + ["#"])
  {
    PlainFilterParts(name, MaintenanceFilter(name));
    SplitConcat(name, MAINTENANCE + "/" + (SET + "/" + "#"));
    SplitCons(MAINTENANCE, SET + "/" + "#");
    SplitCons(SET, "#");
    SplitFlat("#");
    assert [MAINTENANCE] + ([SET] + ["#"]) == [MAINTENANCE, SET] + ["#"];
  }

  /** Behind a common name, a literal level that differs decides. */
  lemma LevelDecides(name: seq<string>, f: seq<string>, t: seq<string>, n: nat)
    requires n < |f| && n < |t| && f[n] != "+" && f[n] != "#" && f[n] != t[n]
    ensures !Matches(name + f, name + t)
  {
    var i := |name| + n;
    assert (name + f)[i] == f[n] && (name + t)[i] == t[n];
    assert i < Plain(name + f);
    assert !LevelMatches((name + f)[i], (name + t)[i]);
  }

  /** No topic of another function reaches a handler; of maintenance topics, only those under `set`. */
  lemma FunctionDecides(name: string, filter: string, topic: string, function_: string, rest: seq<string>)
    requires ValidName(name) && CommandFilter(name, filter)
    requires Split(topic) == Split(name) + ([function_] + rest)
    requires function_ != SET && (function_ == MAINTENANCE ==> rest != [] && rest[0] != SET)
    ensures !FilterSyntax.MatchFilter(filter, topic)
  {
    if filter == MaintenanceFilter(name) {
      MaintenanceFilterLevels(name);
      LevelDecides(Split(name), [MAINTENANCE, SET] + ["#"], [function_] + rest, if function_ == MAINTENANCE then 1 else 0);
    } else {
      var tail := filter[|name + "/" + (SET + "/")|..];
      assert filter == name + "/" + (SET + "/" + tail);
      SetFilterLevels(name, tail);
      LevelDecides(Split(name), [SET] + Split(tail), [function_] + rest, 0);
    }
  }

  /** Nor does a topic that is a function and nothing below it. */
  lemma BareIsNoEcho(name: string, filter: string, function_: string)
    requires ValidName(name) && CommandFilter(name, filter)
    requires Flat(function_) && function_ != SET && function_ != MAINTENANCE
    ensures !FilterSyntax.MatchFilter(filter, name + "/" + function_)
  {
    SplitConcat(name, function_);
    SplitFlat(function_);
    FunctionDecides(name, filter, name + "/" + function_, function_, []);
  }

  /** What this process writes under its name about a slot. */
  predicate WrittenFor(name: string, topic: string, s: Slot, k: Pulse) {
    || topic == StateTopic(name, s)
    || topic == AvailabilityTopic(name, s)
    || topic == MetaTopic(name, s)
    || topic == PulseTopic(name, k, s)
  }

  /** And about itself. */
  predicate WrittenOnce(name: string, topic: string) {
    topic == ConnectedTopic(name) || topic == InfoTopic(name) || topic == MaintenanceTopic(name, ["stats"])
  }

  lemma FnIsNoEcho(name: string, function_: string, item: seq<string>, filter: string)
    requires ValidName(name) && CommandFilter(name, filter) && Fn(name, function_, item) != ""
    requires function_ != SET && function_ != MAINTENANCE && Flat(function_)
    ensures !FilterSyntax.MatchFilter(filter, Fn(name, function_, item))
  {
    TopicLevels(name, function_, item);
    FunctionDecides(name, filter, Fn(name, function_, item), function_, Segments(item));
  }

  /** No state, availability, meta or pulse topic of any slot, and no connected, info or statistics topic,
      reaches a handler subscribed under `<name>/set/` or at `<name>/maintenance/set/#`. */
  lemma NoEcho(name: string, filter: string, topic: string, s: Slot, k: Pulse)
    requires ValidName(name) && CommandFilter(name, filter)
    requires topic != "" && (WrittenFor(name, topic, s, k) || WrittenOnce(name, topic))
    ensures !FilterSyntax.MatchFilter(filter, topic)
  {
    if WrittenFor(name, topic, s, k) {
      SlotIsNoEcho(name, filter, topic, s, k);
    } else if topic == ConnectedTopic(name) {
      BareIsNoEcho(name, filter, CONNECTED);
    } else if topic == InfoTopic(name) {
      BareIsNoEcho(name, filter, INFO);
    } else {
      StatsIsNoEcho(name, filter);
    }
  }

  lemma SlotIsNoEcho(name: string, filter: string, topic: string, s: Slot, k: Pulse)
    requires ValidName(name) && CommandFilter(name, filter)
    requires topic != "" && WrittenFor(name, topic, s, k)
    ensures !FilterSyntax.MatchFilter(filter, topic)
  {
    if topic == StateTopic(name, s) {
      FnIsNoEcho(name, STATUS, Item(s), filter);
    } else if topic == AvailabilityTopic(name, s) {
      FnIsNoEcho(name, STATUS, s.scope + [s.address, "online"], filter);
    } else if topic == MetaTopic(name, s) {
      FnIsNoEcho(name, META, Item(s), filter);
    } else {
      FnIsNoEcho(name, STATUS, s.scope + [s.address, s.channel, Leaf(k)], filter);
    }
  }

  lemma StatsIsNoEcho(name: string, filter: string)
    requires ValidName(name) && CommandFilter(name, filter)
    ensures !FilterSyntax.MatchFilter(filter, MaintenanceTopic(name, ["stats"]))
  {
    assert Segments(["stats"]) == ["stats"] by {
      assert ["stats"][..0] == [];
      assert Safe("stats") == "stats";
    }
    TopicLevels(name, MAINTENANCE, ["stats"]);
    FunctionDecides(name, filter, MaintenanceTopic(name, ["stats"]), MAINTENANCE, ["stats"]);
  }

  /** The maintenance handler takes exactly the maintenance topics under `set`. */
  lemma MaintenanceCommandsExactly(name: string, item: seq<string>)
    requires ValidName(name) && Segments(item) != []
    ensures FilterSyntax.MatchFilter(MaintenanceFilter(name), MaintenanceTopic(name, item)) <==> Segments(item)[0] == SET
  {
    TopicLevels(name, MAINTENANCE, item);
    MaintenanceFilterLevels(name);
    NameLevels(name);
    MaintenanceDecides(Split(name), Segments(item));
  }

  lemma MaintenanceDecides(name: seq<string>, levels: seq<string>)
    requires IsTopic(name) && !Dollar(name[0]) && levels != []
    ensures Matches(name + ([MAINTENANCE, SET] + ["#"]), name + ([MAINTENANCE] + levels)) <==> levels[0] == SET
  {
    if levels[0] != SET {
      LevelDecides(name, [MAINTENANCE, SET] + ["#"], [MAINTENANCE] + levels, 1);
    } else {
      UnderPath(name, [MAINTENANCE, SET], levels[1..]);
      assert [MAINTENANCE] + levels == [MAINTENANCE, SET] + levels[1..];
    }
  }

  /** A literal path with `#` behind it matches everything below that path, and captures the rest. */
  lemma UnderPath(name: seq<string>, path: seq<string>, rest: seq<string>)
    requires IsTopic(name) && !Dollar(name[0]) && (forall p | p in path :: !Wild(p))
    ensures Matches(name + (path + ["#"]), name + (path + rest))
    ensures Remaining(name + (path + ["#"]), name + (path + rest)) == rest
  {
    var f, t := name + (path + ["#"]), name + (path + rest);
    forall i | 0 <= i < |f| - 1 ensures f[i] == t[i] && f[i] != "#" {
      if i < |name| {
        assert NoWildChars(name[i]);
        assert '#' in "#";
      } else {
        assert f[i] == path[i - |name|] && path[i - |name|] in path;
      }
    }
    assert t[0] == name[0];
    assert t[|name| + |path|..] == rest;
  }

  /** A slot's two topics differ in their function level and nowhere else. */
  lemma StateAndCommandDifferInFunction(name: string, s: Slot)
    requires name != ""
    ensures StateTopic(name, s) == "" <==> CommandTopic(name, s) == ""
    ensures StateTopic(name, s) != "" ==>
              var n := |Split(name)|;
              && n < |Split(StateTopic(name, s))|
              && Split(StateTopic(name, s))[n] == STATUS
              && Split(CommandTopic(name, s)) == Split(StateTopic(name, s))[n := SET]
  {
    var items := Segments(Item(s));
    if items != [] {
      TopicLevels(name, STATUS, Item(s));
      TopicLevels(name, SET, Item(s));
      OtherFunction(Split(name), STATUS, SET, items);
    }
  }

  lemma OtherFunction(n: seq<string>, a: string, b: string, items: seq<string>)
    ensures |n + ([a] + items)| > |n| && (n + ([a] + items))[|n|] == a && n + ([b] + items) == (n + ([a] + items))[|n| := b]
  {
  }

  /** The command handler's remainder is the item path, so it finds the state topic of the same slot. */
  lemma CommandFindsItsState(name: string, s: Slot)
    requires ValidName(name) && CommandTopic(name, s) != ""
    ensures var f, t := FilterSyntax.FilterParts(SetFilter(name)), Split(CommandTopic(name, s));
            && Matches(f, t)
            && name + "/" + (STATUS + "/" + Join(Remaining(f, t))) == StateTopic(name, s)
  {
    SetFilterLevels(name, "#");
    SplitFlat("#");
    TopicLevels(name, SET, Item(s));
    NameLevels(name);
    UnderPath(Split(name), [SET], Segments(Item(s)));
  }

  // ------------------------------------------------------- how topics look

  /** A process name is anything but empty, the broker's, a wildcard or NUL; it has levels only where it may,
      and no empty ones. */
  lemma NameRules(name: string, multiLevel: bool)
    ensures CheckName(name, multiLevel).None? <==>
              && name != "" && name[0] != '$' && '+' !in name && '#' !in name && '\0' !in name
              && ('/' !in name || (multiLevel && "" !in Split(name)))
  {
  }

  /** Parts that need no making safe. */
  predicate Clean(parts: seq<string>) {
    forall p | p in parts :: p != "" && Safe(p) == p
  }

  lemma {:induction false} CleanSegments(parts: seq<string>)
    requires Clean(parts)
    ensures Segments(parts) == parts
  {
    if parts != [] {
      assert parts == parts[..|parts| - 1] + [parts[|parts| - 1]];
      assert parts[|parts| - 1] in parts;
      CleanSegments(parts[..|parts| - 1]);
    }
  }

  /** No two buckets share their level. */
  lemma BucketsDiffer(a: Bucket, b: Bucket)
    ensures BucketText(a) == BucketText(b) <==> a == b
  {
  }

  /** A slot's topics, level by level: scope, address, channel, bucket and path, below the function. */
  lemma SlotLevels(name: string, s: Slot, item: seq<string>)
    requires ValidName(name) && s.bucket == Values
    requires item == s.scope + [s.address, s.channel, "values"] + s.path && Clean(item)
    ensures Split(StateTopic(name, s)) == Split(name) + (["status"] + item)
    ensures Split(CommandTopic(name, s)) == Split(name) + (["set"] + item)
    ensures Split(MetaTopic(name, s)) == Split(name) + (["meta"] + item)
  {
    assert Item(s) == item;
    CleanSegments(item);
    TopicLevels(name, STATUS, item);
    TopicLevels(name, SET, item);
    TopicLevels(name, META, item);
  }

  /** A device's availability and its channels' events, below the status function. */
  lemma DeviceLevels(name: string, s: Slot)
    requires ValidName(name) && Clean(s.scope + [s.address, s.channel]) && s.address != ""
    ensures Split(AvailabilityTopic(name, s)) == Split(name) + (["status"] + (s.scope + [s.address, "online"]))
    ensures Split(PulseTopic(name, ChannelEvent, s)) == Split(name) + (["status"] + (s.scope + [s.address, s.channel, "event"]))
  {
    forall p | p in s.scope + [s.address, s.channel] ensures p != "" && Safe(p) == p {
    }
    CleanWith(s.scope, s.address, s.channel);
    CleanSegments(s.scope + [s.address, "online"]);
    CleanSegments(s.scope + [s.address, s.channel, "event"]);
    TopicLevels(name, STATUS, s.scope + [s.address, "online"]);
    TopicLevels(name, STATUS, s.scope + [s.address, s.channel, "event"]);
  }

  lemma CleanWith(scope: seq<string>, a: string, c: string)
    requires Clean(scope + [a, c])
    ensures Clean(scope + [a, "online"]) && Clean(scope + [a, c, "event"])
  {
    assert a in scope + [a, c] && c in scope + [a, c];
    assert forall p | p in scope :: p in scope + [a, c];
    SafeWords();
  }

  lemma SafeWords()
    ensures Safe("online") == "online" && Safe("event") == "event"
  {
  }

  /** The other two pulses of a channel, */
  lemma PulseLevels(name: string, s: Slot)
    requires ValidName(name) && Clean(s.scope + [s.address, s.channel]) && s.address != ""
    ensures Split(PulseTopic(name, ChannelImpulse, s)) == Split(name) + (["status"] + (s.scope + [s.address, s.channel, "impulse"]))
    ensures Split(PulseTopic(name, ChannelDeviceError, s)) ==
            Split(name) + (["status"] + (s.scope + [s.address, s.channel, "device_error"]))
  {
    CleanAnd(s.scope + [s.address, s.channel], "impulse");
    CleanAnd(s.scope + [s.address, s.channel], "device_error");
    assert s.scope + [s.address, s.channel, "impulse"] == s.scope + [s.address, s.channel] + ["impulse"];
    assert s.scope + [s.address, s.channel, "device_error"] == s.scope + [s.address, s.channel] + ["device_error"];
    CleanSegments(s.scope + [s.address, s.channel, "impulse"]);
    CleanSegments(s.scope + [s.address, s.channel, "device_error"]);
    TopicLevels(name, STATUS, s.scope + [s.address, s.channel, "impulse"]);
    TopicLevels(name, STATUS, s.scope + [s.address, s.channel, "device_error"]);
  }

  lemma CleanAnd(parts: seq<string>, last: string)
    requires Clean(parts) && (last == "impulse" || last == "device_error")
    ensures Clean(parts + [last])
  {
  }

  /** and the process's own maintenance topics. */
  lemma MaintenanceLevels(name: string, item: seq<string>)
    requires ValidName(name) && item != [] && Clean(item)
    ensures Split(MaintenanceTopic(name, item)) == Split(name) + (["maintenance"] + item)
  {
    CleanSegments(item);
    TopicLevels(name, MAINTENANCE, item);
  }

  lemma OneBelow(name: string, leaf: string)
    requires Flat(leaf)
    ensures Split(name + "/" + leaf) == Split(name) + [leaf]
  {
    SplitConcat(name, leaf);
    SplitFlat(leaf);
  }

  lemma LeavesAreFlat()
    ensures Flat(CONNECTED) && Flat(INFO)
  {
  }

  /** The bridge's own two topics. */
  lemma BridgeLevels(name: string)
    requires ValidName(name)
    ensures Split(ConnectedTopic(name)) == Split(name) + ["connected"] && Split(InfoTopic(name)) == Split(name) + ["info"]
  {
    LeavesAreFlat();
    OneBelow(name, CONNECTED);
    OneBelow(name, INFO);
  }
}
