/** With failed publishes never applied, the runtime's memos describe what the broker holds. */
module RuntimeMirror {
  import opened Text
  import opened Wire
  import opened Runtime
  import opened RuntimeRuns
  import opened Sweep
  import ConfigTopics

  /** Nothing refused is applied, and a snapshot that succeeds is complete. */
  predicate FaithfulNet(n: Net) {
    && (forall o | o in n.script :: o.applied ==> o.ok)
    && (forall v | v in n.views :: v.missed.None? || v.missed.value == {})
  }

  /** The snapshot can see this topic, or the runtime never concludes from its absence. */
  predicate Visible(cfg: Settings, t: string) {
    ConfigTopics.Parse(cfg.prefix, t).Some? || !(ConfigTopics.TopicPrefix(cfg.prefix) <= t)
  }

  /** Every topic this call may supersede is visible to the snapshot that decides it. */
  predicate Seeable(cfg: Settings, call: Call) {
    cfg.supersedeObserved ==>
      match call
      case Bundle(_, doc, _) => forall u | u in doc.clears :: Visible(cfg, u)
      case Component(_, _, parent) => Visible(cfg, parent)
      case _ => true
  }

  /** Gated entries are on the broker; a superseded topic is gone unless this connection wrote it again. */
  predicate Reflects(cfg: Settings, m: Memo, held: map<string, Payload>) {
    && (forall t | t in m.declared && m.declared[t].gated :: t in held && held[t] == m.declared[t].payload)
    && (forall u | u in m.superseded && u in held :: u in m.declared)
    && (forall u | u in m.superseded && u in m.declared :: m.declared[u].gated)
    && (m.observed.Some? ==>
          forall t | t in held && ConfigTopics.Parse(cfg.prefix, t).Some? :: t in m.observed.value || t in m.declared)
  }

  predicate Mirror(cfg: Settings, s: State) {
    Truthful(s) && FaithfulNet(s.net) && (Current(s) ==> Reflects(cfg, s.memo, Holds(s.net)))
  }

  lemma CheckedMirrors(cfg: Settings, s: State)
    requires Mirror(cfg, s)
    ensures var c := s.(memo := CheckGeneration(s.memo, s.net.conn)); Mirror(cfg, c) && Current(c)
  {
  }

  /** On one faithful connection an acknowledged send is applied and a refused one is not. */
  lemma FaithfulTransmit(n: Net, send: Send)
    requires FaithfulNet(n)
    ensures var r := Transmit(n, send);
            && FaithfulNet(r.0)
            && (r.0.conn == n.conn ==> Holds(r.0) == if r.1 then After(Holds(n), send) else Holds(n))
  {
  }

  lemma PublishMirrors(cfg: Settings, s: State, topic: string, payload: Option<Payload>)
    requires Mirror(cfg, s)
    ensures Mirror(cfg, Publish(s, topic, payload).0)
  {
    if topic != "" {
      PublishIsTruthful(s, topic, payload);
      CheckedMirrors(cfg, s);
      FaithfulTransmit(s.net, Send(topic, payload));
    }
  }

  lemma LookMirrors(cfg: Settings, s: State, topics: seq<string>)
    requires Mirror(cfg, s) && s.memo.genSeen
    ensures var r := RetainedConfigs(cfg, s, topics);
            && Mirror(cfg, r.0) && r.0.memo.genSeen && r.0.memo.declared == s.memo.declared
            && (r.1.Some? ==> cfg.supersedeObserved && r.0.memo.observed == r.1)
  {
    LookIsTruthful(cfg, s, topics);
  }

  lemma SupersedeOneMirrors(cfg: Settings, s: State, held: Option<set<string>>, t: string)
    requires Mirror(cfg, s) && s.memo.genSeen
    requires held.Some? ==> s.memo.observed == held && Visible(cfg, t)
    ensures Mirror(cfg, SupersedeOne(cfg, s, held, t).0)
  {
    SupersedeOneIsTruthful(cfg, s, held, t);
    FaithfulTransmit(s.net, Send(t, None));
  }

  lemma {:induction false} SupersedeAllMirrors(cfg: Settings, s: State, held: Option<set<string>>, topics: seq<string>)
    requires Mirror(cfg, s) && s.memo.genSeen
    requires held.Some? ==> s.memo.observed == held && forall t | t in topics :: Visible(cfg, t)
    ensures Mirror(cfg, SupersedeAll(cfg, s, held, topics).0)
  {
    if topics != [] {
      var front := topics[..|topics| - 1];
      SupersedeAllMirrors(cfg, s, held, front);
      SupersedeAllIsTruthful(cfg, s, held, front);
      var r := SupersedeAll(cfg, s, held, front);
      if r.1 {
        SupersedeOneMirrors(cfg, r.0, held, topics[|topics| - 1]);
      }
    }
  }

  lemma SupersedeMirrors(cfg: Settings, s: State, topics: seq<string>)
    requires Mirror(cfg, s) && s.memo.genSeen
    requires cfg.supersedeObserved ==> forall t | t in topics :: Visible(cfg, t)
    ensures Mirror(cfg, Supersede(cfg, s, topics).0)
  {
    LookMirrors(cfg, s, topics);
    var r := RetainedConfigs(cfg, s, topics);
    SupersedeAllMirrors(cfg, r.0, r.1, topics);
  }

  lemma {:induction false} RetractMirrors(cfg: Settings, s: State, topics: seq<string>)
    requires Mirror(cfg, s)
    ensures Mirror(cfg, Retract(s, topics))
  {
    if topics != [] {
      var before := Retract(s, topics[..|topics| - 1]);
      RetractMirrors(cfg, s, topics[..|topics| - 1]);
      FaithfulTransmit(before.net, Send(topics[|topics| - 1], None));
    }
  }

  lemma {:induction false} ReplayMirrors(cfg: Settings, s: State, topics: seq<string>)
    requires Mirror(cfg, s)
    requires forall t | t in topics :: t in s.memo.declared
    ensures Mirror(cfg, s.(net := ReplayAll(s.memo.declared, s.net, topics).0))
  {
    if topics != [] {
      var front := topics[..|topics| - 1];
      ReplayMirrors(cfg, s, front);
      var before := s.(net := ReplayAll(s.memo.declared, s.net, front).0);
      var send := Send(topics[|topics| - 1], Some(s.memo.declared[topics[|topics| - 1]].payload));
      FaithfulTransmit(before.net, send);
    }
  }

  lemma {:induction false} SweepMirrors(cfg: Settings, s: State, topics: seq<string>)
    requires Mirror(cfg, s)
    ensures Mirror(cfg, SweepAll(s, topics).0)
  {
    if topics != [] {
      SweepMirrors(cfg, s, topics[..|topics| - 1]);
    }
  }

  lemma StepMirrors(cfg: Settings, s: State, call: Call)
    requires Mirror(cfg, s) && Seeable(cfg, call)
    ensures Mirror(cfg, Step(cfg, s, call))
  {
    var c := s.(memo := CheckGeneration(s.memo, s.net.conn));
    CheckedMirrors(cfg, s);
    match call
    case Bundle(t, doc, withheld) =>
      var k := c.(memo := Keep(c.memo, t, withheld));
      SupersedeMirrors(cfg, k, doc.clears);
      PublishMirrors(cfg, Supersede(cfg, k, doc.clears).0, t, Some(doc));
    case Component(t, config, parent) =>
      SupersedeMirrors(cfg, c, [parent]);
      PublishMirrors(cfg, Supersede(cfg, c, [parent]).0, t, Some(config));
    case Plain(t, payload) => PublishMirrors(cfg, s, t, payload);
    case Clear(topics) => RetractMirrors(cfg, s, topics);
    case Replay(topics) =>
      if forall t | t in topics :: t in s.memo.declared { ReplayMirrors(cfg, c, topics); }
    case Orphans(ts) => SweepMirrors(cfg, c, ts);
    case Forget =>
    case Drop(_) => StepIsTruthful(cfg, s, call);
  }

  lemma {:induction false} RunsMirror(cfg: Settings, s: State, calls: seq<Call>)
    requires Mirror(cfg, s)
    requires forall call | call in calls :: Seeable(cfg, call)
    ensures Mirror(cfg, Run(cfg, s, calls))
  {
    if calls != [] {
      RunsMirror(cfg, s, calls[..|calls| - 1]);
      StepMirrors(cfg, Run(cfg, s, calls[..|calls| - 1]), calls[|calls| - 1]);
    }
  }

  /** A gated write is one the broker would not have noticed: it holds those bytes already. */
  lemma SuppressedIsHeld(cfg: Settings, base: map<string, Payload>, script: seq<Outcome>, views: seq<View>,
                          calls: seq<Call>, topic: string, p: Payload)
    requires FaithfulNet(Start(base, script, views).net)
    requires forall call | call in calls :: Seeable(cfg, call)
    ensures var s := Run(cfg, Start(base, script, views), calls);
            Publish(s, topic, Some(p)).1 == Unchanged ==>
              topic in Holds(s.net) && Holds(s.net)[topic].bytes == p.bytes
  {
    RunsMirror(cfg, Start(base, script, views), calls);
    CheckedMirrors(cfg, Run(cfg, Start(base, script, views), calls));
  }

  /** After the broker came back empty, a fully successful replay of what is declared, on whichever
      connection, restores exactly that. */
  lemma {:induction false} ReplayRestores(declared: map<string, Cached>, n: Net, order: seq<string>)
    requires n.script == [] && n.base == map[] && n.log == []
    requires forall t | t in order :: t in declared && t !in n.refused
    ensures var r := ReplayAll(declared, n, order);
            && r.0.(log := []) == n && r.1 == |order|
            && Holds(r.0) == Payloads(declared, order)
  {
    if order != [] {
      var front, last := order[..|order| - 1], order[|order| - 1];
      ReplayRestores(declared, n, front);
      var before := ReplayAll(declared, n, front).0;
      RetainedSnoc(before.base, before.log, Send(last, Some(declared[last].payload)));
      PayloadsGrow(declared, front, last);
      assert order == front + [last];
    }
  }

  function Payloads(declared: map<string, Cached>, order: seq<string>): map<string, Payload> {
    map t | t in declared && t in order :: declared[t].payload
  }

  lemma PayloadsGrow(declared: map<string, Cached>, order: seq<string>, t: string)
    requires t in declared
    ensures Payloads(declared, order + [t]) == Payloads(declared, order)[t := declared[t].payload]
  {
  }

  // ------------------------------------------------- one form at a time

  /** No topic the document supersedes is retained. */
  predicate Alone(held: map<string, Payload>, doc: Payload) {
    forall u | u in doc.clears :: u !in held
  }

  /** The memo says "already retracted" of a topic this runtime has declared since. */
  predicate Republished(m: Memo, doc: Payload) {
    exists u | u in doc.clears :: u in m.superseded && u in m.declared
  }

  /** What a successful round leaves: topics it retracted are gone, those it skipped are as they were. */
  predicate RoundDone(s: State, after: State, topics: seq<string>) {
    && (forall u | u in topics && u !in s.memo.superseded :: u !in Holds(after.net))
    && (forall u | u in s.memo.superseded :: u in Holds(after.net) <==> u in Holds(s.net))
    && after.memo.superseded == s.memo.superseded + (set u | u in topics)
  }

  lemma SupersedeOneClears(cfg: Settings, s: State, held: Option<set<string>>, t: string)
    requires Mirror(cfg, s) && Current(s)
    requires held.Some? ==> s.memo.observed == held && Visible(cfg, t)
    ensures var r := SupersedeOne(cfg, s, held, t);
            r.1 && r.0.net.conn == s.net.conn ==>
              && Holds(r.0.net) == (if t in s.memo.superseded then Holds(s.net) else Holds(s.net) - {t})
              && r.0.memo.superseded == s.memo.superseded + {t}
  {
    if t in s.memo.superseded {
      assert s.memo.superseded + {t} == s.memo.superseded;
    } else if KnownEmpty(cfg, s.memo, held, t) {
      assert t !in Holds(s.net);
      assert Holds(s.net) - {t} == Holds(s.net);
    } else {
      FaithfulTransmit(s.net, Send(t, None));
    }
  }

  lemma {:induction false} SupersedeAllClears(cfg: Settings, s: State, held: Option<set<string>>, topics: seq<string>)
    requires Mirror(cfg, s) && Current(s)
    requires held.Some? ==> s.memo.observed == held && forall t | t in topics :: Visible(cfg, t)
    ensures var r := SupersedeAll(cfg, s, held, topics);
            r.1 && r.0.net.conn == s.net.conn ==> RoundDone(s, r.0, topics)
  {
    if topics != [] {
      var front, t := topics[..|topics| - 1], topics[|topics| - 1];
      SupersedeAllClears(cfg, s, held, front);
      SupersedeAllMirrors(cfg, s, held, front);
      SupersedeAllIsTruthful(cfg, s, held, front);
      SupersedeAllKeepsGeneration(cfg, s, held, front);
      assert front + [t] == topics;
      var r := SupersedeAll(cfg, s, held, front);
      if r.1 {
        RoundStep(cfg, s, r.0, held, front, t);
      }
    }
  }

  lemma RoundStep(cfg: Settings, s: State, mid: State, held: Option<set<string>>, front: seq<string>, t: string)
    requires Current(s) && s.net.conn <= mid.net.conn && Mirror(cfg, mid)
    requires mid.memo.genSeen && mid.memo.gen == s.memo.gen
    requires held.Some? ==> mid.memo.observed == held && Visible(cfg, t)
    requires mid.net.conn == s.net.conn ==> RoundDone(s, mid, front)
    ensures var last := SupersedeOne(cfg, mid, held, t);
            last.1 && last.0.net.conn == s.net.conn ==> RoundDone(s, last.0, front + [t])
  {
    SupersedeOneIsTruthful(cfg, mid, held, t);
    var last := SupersedeOne(cfg, mid, held, t);
    if last.1 && last.0.net.conn == s.net.conn {
      SupersedeOneClears(cfg, mid, held, t);
    }
  }

  /** On a steady connection a document that goes out is alone on the broker if and only if none of the
      topics it supersedes is both remembered as superseded and declared again since. */
  lemma AloneUnlessRepublished(cfg: Settings, base: map<string, Payload>, script: seq<Outcome>, views: seq<View>,
                               calls: seq<Call>, topic: string, doc: Payload, withheld: seq<string>)
    requires FaithfulNet(Start(base, script, views).net)
    requires forall call | call in calls + [Bundle(topic, doc, withheld)] :: Seeable(cfg, call)
    requires topic !in doc.clears
    ensures var s := Run(cfg, Start(base, script, views), calls);
            var r := PublishBundle(cfg, s, topic, doc, withheld);
            r.1 == Wrote && r.0.net.conn == s.net.conn ==>
              (Alone(Holds(r.0.net), doc) <==> !Republished(CheckGeneration(s.memo, s.net.conn), doc))
  {
    forall call | call in calls ensures Seeable(cfg, call) {
      assert call in calls + [Bundle(topic, doc, withheld)];
    }
    assert Seeable(cfg, Bundle(topic, doc, withheld)) by {
      assert Bundle(topic, doc, withheld) in calls + [Bundle(topic, doc, withheld)];
    }
    RunsMirror(cfg, Start(base, script, views), calls);
    var s := Run(cfg, Start(base, script, views), calls);
    CheckedMirrors(cfg, s);
    var c := s.(memo := CheckGeneration(s.memo, s.net.conn));
    var k := c.(memo := Keep(c.memo, topic, withheld));
    assert Mirror(cfg, k) && Current(k);
    BundleIsAlone(cfg, k, topic, doc);
  }

  lemma BundleIsAlone(cfg: Settings, k: State, topic: string, doc: Payload)
    requires Mirror(cfg, k) && Current(k)
    requires Seeable(cfg, Bundle(topic, doc, []))
    requires topic !in doc.clears
    ensures var sup := Supersede(cfg, k, doc.clears);
            var r := Publish(sup.0, topic, Some(doc));
            sup.1 && r.1 == Wrote && r.0.net.conn == k.net.conn ==>
              (Alone(Holds(r.0.net), doc) <==> !Republished(k.memo, doc))
  {
    LookMirrors(cfg, k, doc.clears);
    var look := RetainedConfigs(cfg, k, doc.clears);
    SupersedeAllMirrors(cfg, look.0, look.1, doc.clears);
    SupersedeAllIsTruthful(cfg, look.0, look.1, doc.clears);
    var sup := SupersedeAll(cfg, look.0, look.1, doc.clears);
    var r := Publish(sup.0, topic, Some(doc));
    if sup.1 && r.1 == Wrote && r.0.net.conn == k.net.conn {
      SupersedeAllClears(cfg, look.0, look.1, doc.clears);
      AloneAfterRound(look.0, sup.0, topic, doc);
    }
  }

  lemma AloneAfterRound(s: State, after: State, topic: string, doc: Payload)
    requires RoundDone(s, after, doc.clears) && topic !in doc.clears
    requires forall u | u in s.memo.superseded :: u in Holds(s.net) <==> u in s.memo.declared
    ensures Alone(Holds(after.net)[topic := doc], doc) <==> !Republished(s.memo, doc)
  {
    var held := Holds(after.net)[topic := doc];
    if Alone(held, doc) {
      forall u | u in doc.clears && u in s.memo.superseded ensures u !in s.memo.declared {
        assert u !in held;
      }
    } else {
      var u :| u in doc.clears && u in held;
      assert u in s.memo.superseded && u in s.memo.declared;
    }
  }
}
