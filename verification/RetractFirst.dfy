/** One discovery form at a time, in every state the broker can be left in. */
module RetractFirst {
  import opened Text
  import opened Wire
  import opened Runtime
  import opened RuntimeRuns
  import opened RuntimeMirror
  import opened Sweep

  /** No retained document of this run stands beside a topic it supersedes. */
  predicate OneForm(held: map<string, Payload>) {
    forall t | t in held :: forall u | u in held[t].clears :: u !in held
  }

  /** `home` maps each per-entity topic to the document that supersedes it, and a document to itself. */
  predicate AtHome(home: string -> string, t: string, p: Payload) {
    forall u | u in p.clears :: home(t) == t && home(u) == t && u != t
  }

  predicate Housed(home: string -> string, held: map<string, Payload>) {
    forall t | t in held :: AtHome(home, t, held[t])
  }

  predicate Sound(home: string -> string, held: map<string, Payload>) {
    OneForm(held) && Housed(home, held)
  }

  /** Whatever prefix of this connection's sends the broker applies, it is sound. */
  predicate SoundPrefixes(home: string -> string, n: Net) {
    forall k | 0 <= k <= |n.log| :: Sound(home, Retained(n.base, n.log[..k]))
  }

  /** Reconnects fall between calls. */
  predicate SteadyNet(n: Net) {
    && (forall o | o in n.script :: o.drop.None?)
    && (forall v | v in n.views :: v.drop.None?)
  }

  /** The callers' side: documents and per-entity configs pair up, no topic the runtime has just
      superseded is published again, and a plain publish or a replay of one form follows this connection's
      own superseding of the other. */
  predicate Orderly(home: string -> string, m: Memo, call: Call) {
    match call
    case Bundle(t, doc, _) => home(t) == t && AtHome(home, t, doc) && t !in m.superseded
    case Component(t, config, parent) =>
      home(t) == parent != t && home(parent) == parent && config.clears == [] && t !in m.superseded
    case Plain(t, payload) =>
      payload.Some? ==>
        payload.value.clears == [] && t !in m.superseded && (home(t) == t || home(t) in m.superseded)
    case Replay(topics) =>
      forall t | t in topics && t in m.declared ::
        && (home(t) == t || home(t) in m.superseded)
        && forall u | u in m.declared[t].payload.clears :: u in m.superseded
    case _ => true
  }

  predicate OrderlyRun(cfg: Settings, home: string -> string, s: State, calls: seq<Call>) {
    calls != [] ==>
      && OrderlyRun(cfg, home, s, calls[..|calls| - 1])
      && var before := Run(cfg, s, calls[..|calls| - 1]);
         Orderly(home, CheckGeneration(before.memo, before.net.conn), calls[|calls| - 1])
  }

  /** What every call keeps. */
  predicate Clean(home: string -> string, s: State) {
    && Truthful(s) && SteadyNet(s.net) && SoundPrefixes(home, s.net)
    && (forall t | t in s.memo.declared :: AtHome(home, t, s.memo.declared[t].payload))
    && (Current(s) ==> forall u | u in s.memo.superseded :: u !in Holds(s.net) && u !in s.memo.declared)
  }

  /** This payload may be sent to this topic now. */
  predicate Fits(home: string -> string, held: map<string, Payload>, t: string, p: Payload) {
    && AtHome(home, t, p)
    && (home(t) == t || home(t) !in held)
    && forall u | u in p.clears :: u !in held
  }

  lemma WriteIsSound(home: string -> string, held: map<string, Payload>, t: string, p: Payload)
    requires Sound(home, held) && Fits(home, held, t, p)
    ensures Sound(home, held[t := p])
  {
  }

  lemma HoldsIsSound(home: string -> string, n: Net)
    requires SoundPrefixes(home, n)
    ensures Sound(home, Holds(n))
  {
    assert n.log[..|n.log|] == n.log;
  }

  /** A send that fits keeps every prefix sound, acknowledged or not. */
  lemma TransmitIsSound(home: string -> string, n: Net, send: Send)
    requires SteadyNet(n) && SoundPrefixes(home, n)
    requires send.payload.Some? ==> Fits(home, Holds(n), send.topic, send.payload.value)
    ensures var r := Transmit(n, send);
            && SteadyNet(r.0) && SoundPrefixes(home, r.0) && r.0.conn == n.conn
            && (Holds(r.0) == Holds(n) || Holds(r.0) == After(Holds(n), send))
            && (r.1 ==> Holds(r.0) == After(Holds(n), send))
  {
    SnocIsSound(home, n, send);
    RetainedSnoc(n.base, n.log, send);
    SteadyTransmit(n, send);
  }

  lemma SteadyTransmit(n: Net, send: Send)
    requires SteadyNet(n)
    ensures var r := Transmit(n, send).0; SteadyNet(r) && r.conn == n.conn && (r.log == n.log || r.log == n.log + [send])
  {
    var r := Transmit(n, send).0;
    assert forall o | o in r.script :: o in n.script;
  }

  lemma SnocIsSound(home: string -> string, n: Net, send: Send)
    requires SoundPrefixes(home, n)
    requires send.payload.Some? ==> Fits(home, Holds(n), send.topic, send.payload.value)
    ensures SoundPrefixes(home, n.(log := n.log + [send]))
  {
    var log := n.log + [send];
    HoldsIsSound(home, n);
    RetainedSnoc(n.base, n.log, send);
    if send.payload.Some? {
      WriteIsSound(home, Holds(n), send.topic, send.payload.value);
    }
    forall k | 0 <= k <= |log| ensures Sound(home, Retained(n.base, log[..k])) {
      if k == |log| {
        assert log[..k] == log;
      } else {
        assert log[..k] == n.log[..k];
      }
    }
  }

  lemma PublishIsClean(home: string -> string, s: State, topic: string, payload: Option<Payload>)
    requires Clean(home, s)
    requires var m := CheckGeneration(s.memo, s.net.conn);
             payload.Some? ==> topic !in m.superseded && Fits(home, Holds(s.net), topic, payload.value)
    ensures Clean(home, Publish(s, topic, payload).0)
  {
    if topic != "" {
      PublishIsTruthful(s, topic, payload);
      TransmitIsSound(home, s.net, Send(topic, payload));
    }
  }

  /** Trusting a snapshot is safe when what it does not show, nothing retains. */
  predicate Trusts(cfg: Settings, s: State, held: Option<set<string>>, topics: seq<string>) {
    && (held.Some? ==> cfg.supersedeObserved && s.memo.observed == held)
    && (cfg.supersedeObserved ==> Mirror(cfg, s) && forall t | t in topics :: Visible(cfg, t))
  }

  lemma SupersedeOneIsClean(cfg: Settings, home: string -> string, s: State, held: Option<set<string>>, t: string)
    requires Clean(home, s) && Current(s) && Trusts(cfg, s, held, [t])
    ensures var r := SupersedeOne(cfg, s, held, t);
            && Clean(home, r.0) && Current(r.0) && r.0.net.conn == s.net.conn
            && r.0.memo.superseded <= s.memo.superseded + {t}
            && (r.1 ==> t in r.0.memo.superseded)
            && Trusts(cfg, r.0, held, [])
  {
    assert t in [t];
    SupersedeOneIsTruthful(cfg, s, held, t);
    TransmitIsSound(home, s.net, Send(t, None));
    if cfg.supersedeObserved {
      SupersedeOneMirrors(cfg, s, held, t);
    }
  }

  lemma {:induction false} SupersedeAllIsClean(cfg: Settings, home: string -> string, s: State,
                                              held: Option<set<string>>, topics: seq<string>)
    requires Clean(home, s) && Current(s) && Trusts(cfg, s, held, topics)
    ensures var r := SupersedeAll(cfg, s, held, topics);
            && Clean(home, r.0) && Current(r.0) && r.0.net.conn == s.net.conn
            && r.0.memo.superseded <= s.memo.superseded + (set u | u in topics)
            && (r.1 ==> forall t | t in topics :: t in r.0.memo.superseded)
            && Trusts(cfg, r.0, held, [])
  {
    if topics != [] {
      var front, t := topics[..|topics| - 1], topics[|topics| - 1];
      assert topics == front + [t];
      SupersedeAllIsClean(cfg, home, s, held, front);
      var r := SupersedeAll(cfg, s, held, front);
      SupersedeAllIsTruthful(cfg, s, held, front);
      if r.1 {
        SupersedeOneIsClean(cfg, home, r.0, held, t);
        SupersedeOneIsTruthful(cfg, r.0, held, t);
      }
    }
  }

  lemma SupersedeIsClean(cfg: Settings, home: string -> string, s: State, topics: seq<string>)
    requires Clean(home, s) && Current(s) && Trusts(cfg, s, None, topics)
    ensures var r := Supersede(cfg, s, topics);
            && Clean(home, r.0) && Current(r.0) && r.0.net.conn == s.net.conn
            && r.0.memo.superseded <= s.memo.superseded + (set u | u in topics)
            && (r.1 ==> forall t | t in topics :: t in r.0.memo.superseded)
  {
    LookIsTruthful(cfg, s, topics);
    if cfg.supersedeObserved {
      LookMirrors(cfg, s, topics);
    }
    var r := RetainedConfigs(cfg, s, topics);
    assert r.0.net.log == s.net.log && r.0.net.base == s.net.base && r.0.net.conn == s.net.conn;
    SupersedeAllIsClean(cfg, home, r.0, r.1, topics);
  }

  lemma {:induction false} RetractIsClean(home: string -> string, s: State, topics: seq<string>)
    requires Clean(home, s)
    ensures Clean(home, Retract(s, topics))
  {
    if topics != [] {
      var before := Retract(s, topics[..|topics| - 1]);
      RetractIsClean(home, s, topics[..|topics| - 1]);
      TransmitIsSound(home, before.net, Send(topics[|topics| - 1], None));
    }
  }

  lemma {:induction false} ReplayIsClean(home: string -> string, s: State, topics: seq<string>)
    requires Clean(home, s) && Current(s)
    requires forall t | t in topics :: t in s.memo.declared
    requires Orderly(home, s.memo, Replay(topics))
    ensures var after := s.(net := ReplayAll(s.memo.declared, s.net, topics).0);
            Clean(home, after) && Current(after)
  {
    if topics != [] {
      var front, t := topics[..|topics| - 1], topics[|topics| - 1];
      assert topics == front + [t];
      ReplayIsClean(home, s, front);
      var before := s.(net := ReplayAll(s.memo.declared, s.net, front).0);
      var send := Send(t, Some(s.memo.declared[t].payload));
      TransmitIsSound(home, before.net, send);
    }
  }

  lemma {:induction false} SweepIsClean(home: string -> string, s: State, topics: seq<string>)
    requires Clean(home, s)
    ensures Clean(home, SweepAll(s, topics).0)
  {
    if topics != [] {
      var before := SweepAll(s, topics[..|topics| - 1]).0;
      SweepIsClean(home, s, topics[..|topics| - 1]);
      TransmitIsSound(home, before.net, Send(topics[|topics| - 1], None));
    }
  }

  lemma DropIsClean(home: string -> string, s: State, k: nat)
    requires Clean(home, s)
    ensures Clean(home, s.(net := Reconnected(s.net, k)))
  {
    var cut := if k <= |s.net.log| then k else |s.net.log|;
    assert Sound(home, Retained(s.net.base, s.net.log[..cut]));
  }

  lemma StepIsClean(cfg: Settings, home: string -> string, s: State, call: Call)
    requires Clean(home, s) && Orderly(home, CheckGeneration(s.memo, s.net.conn), call)
    requires cfg.supersedeObserved ==> Mirror(cfg, s) && Seeable(cfg, call)
    ensures Clean(home, Step(cfg, s, call))
  {
    match call
    case Bundle(t, doc, withheld) => BundleIsClean(cfg, home, s, t, doc, withheld);
    case Component(t, config, parent) => ComponentIsClean(cfg, home, s, t, config, parent);
    case Plain(t, payload) =>
      assert Clean(home, s.(memo := CheckGeneration(s.memo, s.net.conn)));
      PublishIsClean(home, s, t, payload);
    case Clear(topics) => RetractIsClean(home, s, topics);
    case Replay(topics) =>
      if forall t | t in topics :: t in s.memo.declared {
        ReplayIsClean(home, s.(memo := CheckGeneration(s.memo, s.net.conn)), topics);
      }
    case Orphans(ts) =>
      SweepIsClean(home, s.(memo := CheckGeneration(s.memo, s.net.conn)), ts);
    case Forget =>
    case Drop(k) => DropIsClean(home, s, k);
  }

  lemma BundleIsClean(cfg: Settings, home: string -> string, s: State, t: string, doc: Payload, withheld: seq<string>)
    requires Clean(home, s) && Orderly(home, CheckGeneration(s.memo, s.net.conn), Bundle(t, doc, withheld))
    requires cfg.supersedeObserved ==> Mirror(cfg, s) && Seeable(cfg, Bundle(t, doc, withheld))
    ensures Clean(home, PublishBundle(cfg, s, t, doc, withheld).0)
  {
    var c := s.(memo := CheckGeneration(s.memo, s.net.conn));
    var k := c.(memo := Keep(c.memo, t, withheld));
    KeepIsClean(cfg, home, c, t, withheld, doc.clears);
    SupersedeIsClean(cfg, home, k, doc.clears);
    if Supersede(cfg, k, doc.clears).1 {
      PublishIsClean(home, Supersede(cfg, k, doc.clears).0, t, Some(doc));
    }
  }

  /** What a document keeps bears on nothing else. */
  lemma KeepIsClean(cfg: Settings, home: string -> string, c: State, t: string, withheld: seq<string>, topics: seq<string>)
    requires Clean(home, c) && Current(c) && Trusts(cfg, c, None, topics)
    ensures var k := c.(memo := Keep(c.memo, t, withheld)); Clean(home, k) && Current(k) && Trusts(cfg, k, None, topics)
  {
  }

  lemma ComponentIsClean(cfg: Settings, home: string -> string, s: State, t: string, config: Payload, parent: string)
    requires Clean(home, s) && Orderly(home, CheckGeneration(s.memo, s.net.conn), Component(t, config, parent))
    requires cfg.supersedeObserved ==> Mirror(cfg, s) && Seeable(cfg, Component(t, config, parent))
    ensures Clean(home, PublishComponent(cfg, s, t, config, parent).0)
  {
    var c := s.(memo := CheckGeneration(s.memo, s.net.conn));
    assert Trusts(cfg, c, None, [parent]);
    SupersedeIsClean(cfg, home, c, [parent]);
    if Supersede(cfg, c, [parent]).1 {
      assert parent in [parent];
      PublishIsClean(home, Supersede(cfg, c, [parent]).0, t, Some(config));
    }
  }

  lemma {:induction false} RunsAreClean(cfg: Settings, home: string -> string, s: State, calls: seq<Call>)
    requires Clean(home, s) && OrderlyRun(cfg, home, s, calls)
    requires cfg.supersedeObserved ==> Mirror(cfg, s) && forall call | call in calls :: Seeable(cfg, call)
    ensures Clean(home, Run(cfg, s, calls))
  {
    if calls != [] {
      var front := calls[..|calls| - 1];
      RunsAreClean(cfg, home, s, front);
      if cfg.supersedeObserved {
        RunsMirror(cfg, s, front);
      }
      StepIsClean(cfg, home, Run(cfg, s, front), calls[|calls| - 1]);
    }
  }

  /** Retract first: over any orderly run with reconnects between calls, whatever the broker held before,
      every state it can be in holds no document of this run beside a topic that document supersedes. */
  lemma NeverBothForms(cfg: Settings, home: string -> string, base: map<string, Payload>, script: seq<Outcome>,
                       views: seq<View>, calls: seq<Call>, k: nat)
    requires forall t | t in base :: base[t].clears == []
    requires SteadyNet(Start(base, script, views).net)
    requires OrderlyRun(cfg, home, Start(base, script, views), calls)
    requires cfg.supersedeObserved ==>
               FaithfulNet(Start(base, script, views).net) && forall call | call in calls :: Seeable(cfg, call)
    requires k <= |Run(cfg, Start(base, script, views), calls).net.log|
    ensures var n := Run(cfg, Start(base, script, views), calls).net;
            OneForm(Retained(n.base, n.log[..k]))
  {
    RunsAreClean(cfg, home, Start(base, script, views), calls);
  }

  // --------------------------------------------------- where it fails

  const BLIND := Settings("homeassistant", false)
  const OLD := Payload("old", [])
  const CONFIG := Payload("{}", [])
  const DOC := Payload("{c}", ["entity"])
  const NEWER := Payload("{d}", ["entity"])

  /** A publish does not take its topic out of the superseded set: going to the document, back to the
      per-entity form and to the document again skips the second retraction. */
  lemma ThereAndBackKeepsBoth()
    ensures var n := Run(BLIND, Start(map[], [], []),
                         [Bundle("device", DOC, []), Component("entity", CONFIG, "device"), Bundle("device", NEWER, [])]).net;
            "entity" in Holds(n) && "device" in Holds(n) && !OneForm(Holds(n))
  {
    var s0 := Start(map[], [], []);
    var a, b, c := Bundle("device", DOC, []), Component("entity", CONFIG, "device"), Bundle("device", NEWER, []);
    assert [a, b, c][..2] == [a, b] && [a, b][..1] == [a] && [a][..0] == [];
    var s1 := Step(BLIND, s0, a);
    var s2 := Step(BLIND, s1, b);
    var s3 := Step(BLIND, s2, c);
    assert Run(BLIND, s0, [a]) == s1;
    assert Run(BLIND, s0, [a, b]) == s2;
    assert Run(BLIND, s0, [a, b, c]) == s3;
    FirstDocument(map[]);
    BackToEntity(s1, s2);
    SkipsTheRound(s2);
    BothAgain(s3.net);
  }

  /** The second document: its round is thought to be done. */
  lemma SkipsTheRound(s: State)
    requires s.memo.genSeen && s.memo.gen == 0 && s.net.conn == 0 && s.net.script == [] && s.net.refused == {}
    requires s.memo.superseded == {"entity", "device"} && s.memo.declared.Keys == {"entity"}
    ensures var after := Step(BLIND, s, Bundle("device", NEWER, []));
            after.net == s.net.(log := s.net.log + [Send("device", Some(NEWER))])
  {
    var k := s.(memo := Keep(s.memo, "device", []));
    assert ["entity"][..0] == [];
    assert SupersedeAll(BLIND, k, None, ["entity"][..0]) == (k, true);
    assert SupersedeAll(BLIND, k, None, ["entity"]) == (k, true);
  }

  lemma BothAgain(n: Net)
    requires n.base == map[]
    requires n.log == [Send("entity", None), Send("device", Some(DOC)), Send("device", None), Send("entity", Some(CONFIG))]
                      + [Send("device", Some(NEWER))]
    ensures "entity" in Holds(n) && "device" in Holds(n) && !OneForm(Holds(n))
  {
    var sends := [Send("entity", None), Send("device", Some(DOC)), Send("device", None), Send("entity", Some(CONFIG))];
    RetainedSnoc(map[], sends, Send("device", Some(NEWER)));
    RetainedSnoc(map[], sends[..3], Send("entity", Some(CONFIG)));
    assert sends == sends[..3] + [Send("entity", Some(CONFIG))];
    assert Holds(n)["device"] == NEWER && "entity" in NEWER.clears;
  }

  lemma FirstDocument(base: map<string, Payload>)
    ensures var s1 := Step(BLIND, Start(base, [], []), Bundle("device", DOC, []));
            && s1.memo.genSeen && s1.memo.gen == 0 && s1.memo.superseded == {"entity"}
            && s1.memo.declared == map["device" := Cached(DOC, true)] && s1.memo.kept == map[] && s1.memo.keptCount == map[]
            && s1.net == Start(base, [], []).net.(log := [Send("entity", None), Send("device", Some(DOC))])
  {
    var s := Start(base, [], []);
    var k := s.(memo := Keep(CheckGeneration(s.memo, 0), "device", []));
    assert ["entity"][..0] == [];
    assert SupersedeAll(BLIND, k, None, ["entity"][..0]) == (k, true);
    assert SupersedeAll(BLIND, k, None, ["entity"]) == SupersedeOne(BLIND, k, None, "entity");
  }

  lemma BackToEntity(s1: State, s2: State)
    requires s1.memo.genSeen && s1.memo.gen == 0 && s1.memo.superseded == {"entity"}
    requires s1.memo.declared == map["device" := Cached(DOC, true)] && s1.memo.kept == map[] && s1.memo.keptCount == map[]
    requires s1.net == Start(map[], [], []).net.(log := [Send("entity", None), Send("device", Some(DOC))])
    requires s2 == Step(BLIND, s1, Component("entity", CONFIG, "device"))
    ensures s2.memo.genSeen && s2.memo.gen == 0 && s2.memo.superseded == {"entity", "device"}
    ensures s2.memo.declared == map["entity" := Cached(CONFIG, true)] && s2.memo.kept == map[] && s2.memo.keptCount == map[]
    ensures s2.net.conn == 0 && s2.net.base == map[] && s2.net.script == [] && s2.net.refused == {}
    ensures s2.net.log == [Send("entity", None), Send("device", Some(DOC)), Send("device", None), Send("entity", Some(CONFIG))]
  {
    assert ["device"][..0] == [];
    assert SupersedeAll(BLIND, s1, None, ["device"][..0]) == (s1, true);
    assert SupersedeAll(BLIND, s1, None, ["device"]) == SupersedeOne(BLIND, s1, None, "device");
  }

  /** A reconnect between the retraction and the document: the retraction is lost with the old
      connection, and the document goes out on the new one beside the config it supersedes. */
  lemma StraddlingKeepsBoth()
    ensures var s := Start(map["entity" := OLD], [Outcome(None, true, true), Outcome(Some(0), true, true)], []);
            var r := PublishBundle(BLIND, s, "device", DOC, []);
            r.1 == Wrote && !OneForm(Holds(r.0.net)) && r.0.memo.superseded == {"entity"}
  {
    var s := Start(map["entity" := OLD], [Outcome(None, true, true), Outcome(Some(0), true, true)], []);
    var k := s.(memo := Keep(CheckGeneration(s.memo, 0), "device", []));
    assert ["entity"][..0] == [];
    assert SupersedeAll(BLIND, k, None, ["entity"][..0]) == (k, true);
    assert SupersedeAll(BLIND, k, None, ["entity"]) == SupersedeOne(BLIND, k, None, "entity");
    var r := PublishBundle(BLIND, s, "device", DOC, []);
    assert r.0.net.base == map["entity" := OLD];
    assert r.0.net.log == [Send("device", Some(DOC))];
    BothForms(r.0.net);
  }

  /** A replay retracts nothing: after a reconnect that lost the retraction it leaves both forms. */
  lemma ReplayKeepsBoth()
    ensures var n := Run(BLIND, Start(map["entity" := OLD], [], []), [Bundle("device", DOC, []), Drop(0), Replay(["device"])]).net;
            !OneForm(Holds(n))
  {
    var s0 := Start(map["entity" := OLD], [], []);
    var a, b, c := Bundle("device", DOC, []), Drop(0), Replay(["device"]);
    assert [a, b, c][..2] == [a, b] && [a, b][..1] == [a] && [a][..0] == [];
    var s1 := Step(BLIND, s0, a);
    assert Run(BLIND, s0, [a]) == s1;
    FirstDocument(map["entity" := OLD]);
    var s2 := Step(BLIND, s1, b);
    assert Run(BLIND, s0, [a, b]) == s2;
    assert s1.net.log[..0] == [];
    assert s2.net.base == map["entity" := OLD];
    var s3 := Step(BLIND, s2, c);
    assert Run(BLIND, s0, [a, b, c]) == s3;
    ReplayedDocument(s2);
  }

  lemma ReplayedDocument(s: State)
    requires s.memo.declared.Keys == {"device"} && s.memo.declared["device"].payload == DOC
    requires s.net == Start(map["entity" := OLD], [], []).net.(conn := 1)
    ensures !OneForm(Holds(Republish(s, ["device"]).0.net))
  {
    var m := CheckGeneration(s.memo, 1);
    assert m.declared["device"].payload == DOC;
    ReplayOfOne(m.declared, s.net, "device");
    BothForms(Republish(s, ["device"]).0.net);
  }

  lemma ReplayOfOne(declared: map<string, Cached>, n: Net, t: string)
    requires t in declared && n.script == [] && n.log == [] && n.refused == {}
    ensures ReplayAll(declared, n, [t]).0 == n.(log := [Send(t, Some(declared[t].payload))])
  {
    assert [t][..0] == [];
    assert ReplayAll(declared, n, [t][..0]) == (n, 0);
  }

  lemma BothForms(n: Net)
    requires n.base == map["entity" := OLD] && n.log == [Send("device", Some(DOC))]
    ensures !OneForm(Holds(n))
  {
    RetainedSnoc(n.base, [], Send("device", Some(DOC)));
    assert [] + [Send("device", Some(DOC))] == [Send("device", Some(DOC))];
    assert Holds(n)["device"] == DOC && "entity" in DOC.clears && "entity" in Holds(n);
  }
}
