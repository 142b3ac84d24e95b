/** The dedup gate of the state and availability planes against a publisher without one. */
module DedupGate {
  import opened Text
  import FilterSyntax

  /** A payload the broker accepted, and whether the gate may act on it. */
  datatype Cached = Cached(payload: string, gated: bool)

  /** What a publisher remembers, and what a broker retains that only it writes to. */
  datatype Plane = Plane(index: map<string, Cached>, held: map<string, string>)

  datatype Report = Wrote | Unchanged | Failed

  /** One call. `refused` are the topics the broker would refuse during it; a refused send is not applied. */
  datatype Op =
    | Write(topic: string, payload: string, refused: set<string>)
    | Clear(topics: set<string>, refused: set<string>)
    | ClearUnder(prefix: string, refused: set<string>)
    | Forget(topics: set<string>)
    | Reset
    | Replay(refused: set<string>)

  /** A topic this process also takes commands on is never written. */
  predicate Guarded(filters: seq<string>, topic: string) {
    exists f | f in filters :: FilterSyntax.MatchFilter(f, topic)
  }

  predicate Goes(filters: seq<string>, refused: set<string>, topic: string) {
    topic != "" && !Guarded(filters, topic) && topic !in refused
  }

  predicate Suppressed(s: Plane, topic: string, payload: string) {
    topic in s.index && s.index[topic] == Cached(payload, true)
  }

  function Accepted(s: Plane, topic: string, payload: string): Plane {
    Plane(s.index[topic := Cached(payload, true)], s.held[topic := payload])
  }

  function WriteOne(filters: seq<string>, gate: bool, s: Plane, topic: string, payload: string, refused: set<string>): (Plane, Report) {
    if topic == "" || payload == "" || Guarded(filters, topic) then (s, Failed)
    else if gate && Suppressed(s, topic, payload) then (s, Unchanged)
    else if topic in refused then (s, Failed)
    else (Accepted(s, topic, payload), Wrote)
  }

  function Without(s: Plane, cleared: set<string>): Plane {
    Plane(s.index - cleared, s.held - cleared)
  }

  function ClearAll(filters: seq<string>, s: Plane, topics: set<string>, refused: set<string>): Plane {
    Without(s, set t | t in topics && Goes(filters, refused, t))
  }

  function Folded(s: string): string {
    seq(|s|, i requires 0 <= i < |s| => if 'A' <= s[i] <= 'Z' then s[i] - 'A' + 'a' else s[i])
  }

  /** Equal to the prefix, or below it at a level boundary, whatever the case. */
  predicate Under(prefix: string, topic: string) {
    var bounded := (if HasSuffix(prefix, "/") then prefix[..|prefix| - 1] else prefix) + "/";
    Folded(topic) == Folded(prefix) || (|topic| >= |bounded| && Folded(topic[..|bounded|]) == Folded(bounded))
  }

  function IndexUnder(s: Plane, prefix: string): set<string> {
    if prefix == "" then {} else set t | t in s.index && Under(prefix, t)
  }

  function Ungated(index: map<string, Cached>): map<string, Cached> {
    map t | t in index :: index[t].(gated := false)
  }

  function ReplayAll(filters: seq<string>, s: Plane, refused: set<string>): Plane {
    s.(held := s.held + map t | t in s.index && Goes(filters, refused, t) :: s.index[t].payload)
  }

  function Step(filters: seq<string>, gate: bool, s: Plane, op: Op): Plane {
    match op
    case Write(t, p, refused) => WriteOne(filters, gate, s, t, p, refused).0
    case Clear(ts, refused) => ClearAll(filters, s, ts, refused)
    case ClearUnder(prefix, refused) => ClearAll(filters, s, IndexUnder(s, prefix), refused)
    case Forget(ts) => s.(index := s.index - ts)
    case Reset => s.(index := Ungated(s.index))
    case Replay(refused) => ReplayAll(filters, s, refused)
  }

  function Run(filters: seq<string>, gate: bool, s: Plane, ops: seq<Op>): Plane {
    if ops == [] then s else Step(filters, gate, Run(filters, gate, s, ops[..|ops| - 1]), ops[|ops| - 1])
  }

  /** The index never names a topic this process takes commands on, and what the gate acts on is held. */
  predicate Mirrors(filters: seq<string>, s: Plane) {
    && (forall t | t in s.index :: t != "" && !Guarded(filters, t))
    && (forall t | t in s.index && s.index[t].gated :: t in s.held && s.held[t] == s.index[t].payload)
  }

  /** A write the gate suppresses would have changed nothing: not the broker, not the memory. */
  lemma SuppressedChangesNothing(filters: seq<string>, s: Plane, topic: string, payload: string, refused: set<string>)
    requires Mirrors(filters, s)
    ensures WriteOne(filters, true, s, topic, payload, refused).0 == WriteOne(filters, false, s, topic, payload, refused).0
  {
    if Suppressed(s, topic, payload) {
      assert s.index[topic := Cached(payload, true)] == s.index;
      assert s.held[topic := payload] == s.held;
    }
  }

  /** Over any run from an empty memory, whatever the broker held and whatever it refuses, the gated
      publisher leaves the retained map, and the memory, of the one without a gate. */
  lemma {:induction false} GateIsTransparent(filters: seq<string>, held: map<string, string>, ops: seq<Op>)
    ensures Run(filters, true, Plane(map[], held), ops) == Run(filters, false, Plane(map[], held), ops)
    ensures Mirrors(filters, Run(filters, true, Plane(map[], held), ops))
  {
    if ops != [] {
      var front, last := ops[..|ops| - 1], ops[|ops| - 1];
      GateIsTransparent(filters, held, front);
      var s := Run(filters, true, Plane(map[], held), front);
      if last.Write? {
        SuppressedChangesNothing(filters, s, last.topic, last.payload, last.refused);
      }
    }
  }

  /** The broker comes back empty. */
  function Wiped(s: Plane): Plane {
    s.(held := map[])
  }

  /** Whatever ran before, a fully successful replay after a broker came back empty restores exactly the
      indexed topics, and resetting the gate first or afterwards makes no difference. */
  lemma ReplayRestores(filters: seq<string>, held: map<string, string>, ops: seq<Op>)
    ensures var s := Wiped(Run(filters, true, Plane(map[], held), ops));
            && Run(filters, true, s, [Replay({})]).held == (map t | t in s.index :: s.index[t].payload)
            && Run(filters, true, s, [Reset, Replay({})]) == Run(filters, true, s, [Replay({}), Reset])
            && Run(filters, true, s, [Reset, Replay({})]).held == Run(filters, true, s, [Replay({})]).held
  {
    GateIsTransparent(filters, held, ops);
    ReplayRestoresFrom(filters, Wiped(Run(filters, true, Plane(map[], held), ops)));
  }

  lemma ReplayRestoresFrom(filters: seq<string>, s: Plane)
    requires s.held == map[]
    requires forall t | t in s.index :: t != "" && !Guarded(filters, t)
    ensures Run(filters, true, s, [Replay({})]).held == (map t | t in s.index :: s.index[t].payload)
    ensures Run(filters, true, s, [Reset, Replay({})]) == Run(filters, true, s, [Replay({}), Reset])
    ensures Run(filters, true, s, [Reset, Replay({})]).held == Run(filters, true, s, [Replay({})]).held
  {
  }

  /** Without the reset a wiped broker fools the gate: an unchanged value is not sent again. */
  lemma WipedBrokerNeedsReset(filters: seq<string>, held: map<string, string>, ops: seq<Op>, topic: string, payload: string)
    requires Goes(filters, {}, topic) && payload != ""
    ensures var s := Wiped(Run(filters, true, Plane(map[], held), ops));
            var after := Step(filters, true, s, Write(topic, payload, {}));
            (topic in after.held <==> !Suppressed(s, topic, payload))
    ensures var s := Step(filters, true, Wiped(Run(filters, true, Plane(map[], held), ops)), Reset);
            topic in Step(filters, true, s, Write(topic, payload, {})).held
  {
  }

  // ------------------------------------------------------------ below a prefix

  function WithoutSlash(prefix: string): string {
    if HasSuffix(prefix, "/") then prefix[..|prefix| - 1] else prefix
  }

  /** The same letter, or one the capital of the other. */
  predicate SameLetter(a: char, b: char) {
    || a == b
    || ('A' <= a <= 'Z' && 'a' <= b <= 'z' && a - 'A' == b - 'a')
    || ('A' <= b <= 'Z' && 'a' <= a <= 'z' && b - 'A' == a - 'a')
  }

  /** Folding forgets the case of a letter and nothing else. */
  lemma FoldedAlike(s: string, t: string)
    ensures Folded(s) == Folded(t) <==> |s| == |t| && forall i | 0 <= i < |s| :: SameLetter(s[i], t[i])
  {
    if Folded(s) == Folded(t) {
      assert |s| == |Folded(s)| == |Folded(t)| == |t|;
      forall i | 0 <= i < |s| ensures SameLetter(s[i], t[i]) {
        assert Folded(s)[i] == Folded(t)[i];
      }
    }
  }

  lemma FoldedParts(s: string, n: nat)
    requires n <= |s|
    ensures Folded(s[..n]) == Folded(s)[..n]
  {
  }

  lemma FoldedSlash(s: string)
    ensures Folded(s + "/") == Folded(s) + "/"
  {
  }

  /** A topic that starts with q and a slash has q's levels first, and more; and the other way round. */
  lemma StartsLevelwise(q: string, t: string)
    ensures q + "/" <= t <==> Split(q) <= Split(t) && |Split(q)| < |Split(t)|
  {
    if q + "/" <= t {
      var r := t[|q + "/"|..];
      assert t == q + "/" + r;
      SplitConcat(q, r);
    }
    if Split(q) <= Split(t) && |Split(q)| < |Split(t)| {
      var rest := Split(t)[|Split(q)|..];
      assert Split(t) == Split(q) + rest;
      assert forall x | x in rest :: x in Split(t);
      SplitJoin(rest);
      SplitConcat(q, Join(rest));
      SplitInjective(t, q + "/" + Join(rest));
    }
  }

  /** Under, level by level and whatever the case: at a prefix or below it; a trailing slash means below. */
  lemma UnderIsLevelwise(prefix: string, topic: string)
    ensures var p, t := Split(Folded(WithoutSlash(prefix))), Split(Folded(topic));
            Under(prefix, topic) <==> p <= t && (HasSuffix(prefix, "/") ==> |p| < |t|)
  {
    var q := WithoutSlash(prefix);
    var bounded := q + "/";
    FoldedSlash(q);
    StartsLevelwise(Folded(q), Folded(topic));
    if |topic| >= |bounded| {
      FoldedParts(topic, |bounded|);
    }
    assert (|topic| >= |bounded| && Folded(topic[..|bounded|]) == Folded(bounded)) <==> Folded(bounded) <= Folded(topic);
    if HasSuffix(prefix, "/") {
      assert prefix == q + "/";
    } else if Split(Folded(q)) == Split(Folded(topic)) {
      SplitInjective(Folded(q), Folded(topic));
    }
  }
}
