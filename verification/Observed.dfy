/** Superseding by snapshot against superseding blindly. */
module Observed {
  import opened Text
  import opened Wire
  import opened Thinning
  import opened Runtime
  import opened RuntimeRuns
  import opened RuntimeMirror
  import opened Sweep
  import ConfigTopics

  function Looking(prefix: string): Settings {
    Settings(prefix, true)
  }

  function Blindly(prefix: string): Settings {
    Settings(prefix, false)
  }

  predicate Quiet(n: Net) {
    n.script == [] && n.views == []
  }

  /** The blind run's net and the observing run's: alike but for retractions of empty topics. */
  predicate SameNets(b: Net, o: Net) {
    && Quiet(b) && Quiet(o) && b.conn == o.conn && b.base == o.base && b.refused == o.refused
    && Thinned(Retractions, b.base, b.log, o.log)
  }

  /** They remember the same but for the snapshot, and claim only what they declare. */
  predicate SameMemos(b: Memo, o: Memo) {
    b == o.(observed := None) && o.announced <= o.declared.Keys
  }

  /** The blind run and the observing run, side by side. */
  predicate Coupled(prefix: string, b: State, o: State) {
    && SameNets(b.net, o.net)
    && SameMemos(b.memo, o.memo)
    && Mirror(Looking(prefix), o)
  }

  lemma SameHolds(b: Net, o: Net)
    requires SameNets(b, o)
    ensures Holds(b) == Holds(o)
  {
    ThinnedHoldsTheSame(Retractions, b.base, b.log, o.log);
  }

  lemma SendBoth(b: Net, o: Net, send: Send)
    requires SameNets(b, o)
    ensures var b1, o1 := Transmit(b, send), Transmit(o, send);
            SameNets(b1.0, o1.0) && b1.1 == o1.1 && b1.0.conn == b.conn && b1.0.refused == b.refused
  {
    ThinnedBoth(Retractions, b.base, b.log, o.log, send);
  }

  lemma SendOne(b: Net, o: Net, t: string)
    requires SameNets(b, o) && t !in Holds(b) && t !in b.refused
    ensures var b1 := Transmit(b, Send(t, None)); b1.1 && SameNets(b1.0, o) && b1.0.conn == b.conn
  {
    ThinnedOne(Retractions, b.base, b.log, o.log, Send(t, None));
  }

  lemma CheckedCoupled(prefix: string, b: State, o: State)
    requires Coupled(prefix, b, o)
    ensures var cb, co := b.(memo := CheckGeneration(b.memo, b.net.conn)), o.(memo := CheckGeneration(o.memo, o.net.conn));
            Coupled(prefix, cb, co) && Current(co)
  {
    CheckedMirrors(Looking(prefix), o);
  }

  lemma SendOutCoupled(b: State, o: State, topic: string, payload: Option<Payload>)
    requires SameNets(b.net, o.net) && SameMemos(b.memo, o.memo)
    ensures var b1, o1 := SendOut(b, topic, payload).0, SendOut(o, topic, payload).0;
            SameNets(b1.net, o1.net) && SameMemos(b1.memo, o1.memo)
  {
    SendBoth(b.net, o.net, Send(topic, payload));
  }

  lemma PublishCoupled(prefix: string, b: State, o: State, topic: string, payload: Option<Payload>)
    requires Coupled(prefix, b, o)
    ensures Coupled(prefix, Publish(b, topic, payload).0, Publish(o, topic, payload).0)
  {
    PublishMirrors(Looking(prefix), o, topic, payload);
    if topic != "" {
      CheckedCoupled(prefix, b, o);
      SendOutCoupled(b.(memo := CheckGeneration(b.memo, b.net.conn)), o.(memo := CheckGeneration(o.memo, o.net.conn)),
                     topic, payload);
    }
  }

  // ------------------------------------------------------------- superseding

  /** The broker refuses no retraction of a topic it holds nothing at. */
  predicate RefusesHeld(n: Net, topics: seq<string>) {
    forall t | t in topics && t in n.refused :: t in Holds(n)
  }

  lemma SupersedeOneCoupled(prefix: string, b: State, o: State, held: Option<set<string>>, t: string)
    requires Coupled(prefix, b, o) && Current(o)
    requires held.Some? ==> o.memo.observed == held
    requires Visible(Looking(prefix), t) && RefusesHeld(o.net, [t])
    ensures var rb, ro := SupersedeOne(Blindly(prefix), b, None, t), SupersedeOne(Looking(prefix), o, held, t);
            Coupled(prefix, rb.0, ro.0) && rb.1 == ro.1 && Current(ro.0)
  {
    var cfg := Looking(prefix);
    SupersedeOneMirrors(cfg, o, held, t);
    if t !in o.memo.superseded {
      if KnownEmpty(cfg, o.memo, held, t) {
        EmptyIsNotHeld(prefix, b, o, held, t);
        SettledBoth(b, o, t);
      } else {
        SentBoth(b, o, t);
      }
    }
  }

  lemma EmptyIsNotHeld(prefix: string, b: State, o: State, held: Option<set<string>>, t: string)
    requires Coupled(prefix, b, o) && Current(o)
    requires held.Some? ==> o.memo.observed == held
    requires Visible(Looking(prefix), t) && RefusesHeld(o.net, [t]) && KnownEmpty(Looking(prefix), o.memo, held, t)
    ensures t !in Holds(b.net) && t !in b.net.refused
  {
    SameHolds(b.net, o.net);
    assert t in [t];
  }

  /** One run retracts what the other sees empty. */
  lemma SettledBoth(b: State, o: State, t: string)
    requires SameNets(b.net, o.net) && SameMemos(b.memo, o.memo)
    requires t !in Holds(b.net) && t !in b.net.refused && t !in o.memo.declared
    ensures var r := Transmit(b.net, Send(t, None));
            && r.1 && SameNets(r.0, o.net)
            && SameMemos(Forgotten(b.memo, t).(superseded := b.memo.superseded + {t}), o.memo.(superseded := o.memo.superseded + {t}))
  {
    SendOne(b.net, o.net, t);
    NothingForgotten(o.memo, t);
  }

  lemma SentBoth(b: State, o: State, t: string)
    requires SameNets(b.net, o.net) && SameMemos(b.memo, o.memo)
    ensures var rb, ro := Transmit(b.net, Send(t, None)), Transmit(o.net, Send(t, None));
            && rb.1 == ro.1 && SameNets(rb.0, ro.0) && ro.0.conn == o.net.conn
            && SameMemos(Forgotten(b.memo, t).(superseded := b.memo.superseded + {t}),
                         Forgotten(o.memo, t).(superseded := o.memo.superseded + {t}))
  {
    SendBoth(b.net, o.net, Send(t, None));
  }

  /** Forgetting a topic that is neither declared nor claimed changes nothing. */
  lemma NothingForgotten(m: Memo, t: string)
    requires t !in m.declared && m.announced <= m.declared.Keys
    ensures m.declared - {t} == m.declared && m.announced - {t} == m.announced
  {
  }

  /** Refused topics keep what they hold. */
  lemma SupersedeOneSpares(cfg: Settings, s: State, held: Option<set<string>>, t: string, topics: seq<string>)
    requires Quiet(s.net) && RefusesHeld(s.net, topics)
    ensures RefusesHeld(SupersedeOne(cfg, s, held, t).0.net, topics)
  {
    RetainedSnoc(s.net.base, s.net.log, Send(t, None));
  }

  lemma {:induction false} SupersedeAllCoupled(prefix: string, b: State, o: State, held: Option<set<string>>,
                                              topics: seq<string>, n: nat)
    requires n <= |topics|
    requires Coupled(prefix, b, o) && Current(o)
    requires held.Some? ==> o.memo.observed == held
    requires (forall t | t in topics :: Visible(Looking(prefix), t)) && RefusesHeld(o.net, topics)
    ensures var rb, ro := SupersedeAll(Blindly(prefix), b, None, topics[..n]), SupersedeAll(Looking(prefix), o, held, topics[..n]);
            Coupled(prefix, rb.0, ro.0) && rb.1 == ro.1 && Current(ro.0) && RefusesHeld(ro.0.net, topics)
  {
    if n > 0 {
      SupersedeAllCoupled(prefix, b, o, held, topics, n - 1);
      assert topics[..n][..n - 1] == topics[..n - 1];
      var rb, ro := SupersedeAll(Blindly(prefix), b, None, topics[..n - 1]), SupersedeAll(Looking(prefix), o, held, topics[..n - 1]);
      SupersedeAllIsTruthful(Looking(prefix), o, held, topics[..n - 1]);
      if ro.1 {
        SupersedeOneCoupled(prefix, rb.0, ro.0, held, topics[n - 1]);
        SupersedeOneSpares(Looking(prefix), ro.0, held, topics[n - 1], topics);
      }
    }
  }

  lemma SupersedeCoupled(prefix: string, b: State, o: State, topics: seq<string>)
    requires Coupled(prefix, b, o) && Current(o)
    requires (forall t | t in topics :: Visible(Looking(prefix), t)) && RefusesHeld(o.net, topics)
    ensures var rb, ro := Supersede(Blindly(prefix), b, topics), Supersede(Looking(prefix), o, topics);
            Coupled(prefix, rb.0, ro.0) && rb.1 == ro.1
  {
    LookMirrors(Looking(prefix), o, topics);
    var r := RetainedConfigs(Looking(prefix), o, topics);
    SupersedeAllCoupled(prefix, b, r.0, r.1, topics, |topics|);
    assert topics[..|topics|] == topics;
  }

  // ------------------------------------------------------------- other calls

  lemma {:induction false} RetractCoupled(prefix: string, b: State, o: State, topics: seq<string>)
    requires Coupled(prefix, b, o)
    ensures Coupled(prefix, Retract(b, topics), Retract(o, topics))
  {
    RetractMirrors(Looking(prefix), o, topics);
    if topics != [] {
      var front := topics[..|topics| - 1];
      RetractCoupled(prefix, b, o, front);
      SendBoth(Retract(b, front).net, Retract(o, front).net, Send(topics[|topics| - 1], None));
    }
  }

  lemma {:induction false} ReplayCoupled(prefix: string, b: State, o: State, topics: seq<string>)
    requires Coupled(prefix, b, o)
    requires forall t | t in topics :: t in o.memo.declared
    ensures Coupled(prefix, b.(net := ReplayAll(b.memo.declared, b.net, topics).0),
                    o.(net := ReplayAll(o.memo.declared, o.net, topics).0))
  {
    ReplayMirrors(Looking(prefix), o, topics);
    if topics != [] {
      var front := topics[..|topics| - 1];
      ReplayCoupled(prefix, b, o, front);
      SendBoth(ReplayAll(b.memo.declared, b.net, front).0, ReplayAll(o.memo.declared, o.net, front).0,
               Send(topics[|topics| - 1], Some(o.memo.declared[topics[|topics| - 1]].payload)));
    }
  }

  lemma {:induction false} SweepCoupled(prefix: string, b: State, o: State, topics: seq<string>)
    requires Coupled(prefix, b, o)
    ensures Coupled(prefix, SweepAll(b, topics).0, SweepAll(o, topics).0)
  {
    SweepMirrors(Looking(prefix), o, topics);
    if topics != [] {
      var front, t := topics[..|topics| - 1], topics[|topics| - 1];
      SweepCoupled(prefix, b, o, front);
      SendBoth(SweepAll(b, front).0.net, SweepAll(o, front).0.net, Send(t, None));
    }
  }

  /** Every call but a reconnect keeps the two runs together. */
  lemma StepCoupled(prefix: string, b: State, o: State, call: Call)
    requires Coupled(prefix, b, o) && Seeable(Looking(prefix), call) && !call.Drop?
    requires RefusesHeld(o.net, Supersedes(call))
    ensures Coupled(prefix, Step(Blindly(prefix), b, call), Step(Looking(prefix), o, call))
  {
    match call
    case Bundle(t, doc, withheld) => BundleCoupled(prefix, b, o, t, doc, withheld);
    case Component(t, config, parent) => ComponentCoupled(prefix, b, o, t, config, parent);
    case Plain(t, payload) => PublishCoupled(prefix, b, o, t, payload);
    case Clear(topics) => RetractCoupled(prefix, b, o, topics);
    case Replay(topics) =>
      CheckedCoupled(prefix, b, o);
      if forall t | t in topics :: t in o.memo.declared {
        ReplayCoupled(prefix, b.(memo := CheckGeneration(b.memo, b.net.conn)),
                      o.(memo := CheckGeneration(o.memo, o.net.conn)), topics);
      }
    case Orphans(ts) =>
      CheckedCoupled(prefix, b, o);
      SweepCoupled(prefix, b.(memo := CheckGeneration(b.memo, b.net.conn)),
                   o.(memo := CheckGeneration(o.memo, o.net.conn)), ts);
    case Forget =>
  }

  lemma BundleCoupled(prefix: string, b: State, o: State, t: string, doc: Payload, withheld: seq<string>)
    requires Coupled(prefix, b, o) && Seeable(Looking(prefix), Bundle(t, doc, withheld))
    requires RefusesHeld(o.net, doc.clears)
    ensures Coupled(prefix, PublishBundle(Blindly(prefix), b, t, doc, withheld).0,
                    PublishBundle(Looking(prefix), o, t, doc, withheld).0)
  {
    CheckedCoupled(prefix, b, o);
    var kb := b.(memo := Keep(CheckGeneration(b.memo, b.net.conn), t, withheld));
    var ko := o.(memo := Keep(CheckGeneration(o.memo, o.net.conn), t, withheld));
    if !Gated(ko.memo, t, Some(doc)) {
      SupersedeThenPublishCoupled(prefix, kb, ko, doc.clears, t, doc);
    }
  }

  lemma SupersedeThenPublishCoupled(prefix: string, b: State, o: State, topics: seq<string>, t: string, p: Payload)
    requires Coupled(prefix, b, o) && Current(o)
    requires (forall u | u in topics :: Visible(Looking(prefix), u)) && RefusesHeld(o.net, topics)
    ensures var rb, ro := Supersede(Blindly(prefix), b, topics), Supersede(Looking(prefix), o, topics);
            && rb.1 == ro.1 && Coupled(prefix, rb.0, ro.0)
            && Coupled(prefix, Publish(rb.0, t, Some(p)).0, Publish(ro.0, t, Some(p)).0)
  {
    SupersedeCoupled(prefix, b, o, topics);
    PublishCoupled(prefix, Supersede(Blindly(prefix), b, topics).0, Supersede(Looking(prefix), o, topics).0, t, Some(p));
  }

  lemma ComponentCoupled(prefix: string, b: State, o: State, t: string, config: Payload, parent: string)
    requires Coupled(prefix, b, o) && Seeable(Looking(prefix), Component(t, config, parent))
    requires RefusesHeld(o.net, [parent])
    ensures Coupled(prefix, PublishComponent(Blindly(prefix), b, t, config, parent).0,
                    PublishComponent(Looking(prefix), o, t, config, parent).0)
  {
    CheckedCoupled(prefix, b, o);
    var cb := b.(memo := CheckGeneration(b.memo, b.net.conn));
    var co := o.(memo := CheckGeneration(o.memo, o.net.conn));
    if !Gated(co.memo, t, Some(config)) {
      SupersedeThenPublishCoupled(prefix, cb, co, [parent], t, config);
    }
  }

  /** Whatever tail the observing run's reconnect loses, some tail of the blind run's leaves the broker
      as it does. */
  lemma DropCoupled(prefix: string, b: State, o: State, k: nat) returns (j: nat)
    requires Coupled(prefix, b, o)
    ensures Coupled(prefix, b.(net := Reconnected(b.net, j)), o.(net := Reconnected(o.net, k)))
  {
    j := SameReconnect(Retractions, b.net, o.net, k);
    StepMirrors(Looking(prefix), o, Drop(k));
  }

  lemma AttemptCoupled(prefix: string, b: State, o: State, trial: Trial) returns (blind: Trial)
    requires Coupled(prefix, b, o) && Seeable(Looking(prefix), trial.call)
    requires RefusesHeld(o.net.(refused := trial.refused), Supersedes(trial.call))
    ensures SameButTails([blind], [trial])
    ensures Coupled(prefix, Attempt(Blindly(prefix), b, blind), Attempt(Looking(prefix), o, trial))
  {
    var b1, o1 := b.(net := b.net.(refused := trial.refused)), o.(net := o.net.(refused := trial.refused));
    assert Coupled(prefix, b1, o1);
    blind := trial;
    if trial.call.Drop? {
      var j := DropCoupled(prefix, b1, o1, trial.call.applied);
      blind := Trial(Drop(j), trial.refused);
    } else {
      StepCoupled(prefix, b1, o1, trial.call);
    }
  }

  /** No trial's broker refuses a retraction of an empty topic. */
  predicate RefusesHeldThroughout(prefix: string, s: State, trials: seq<Trial>) {
    trials != [] ==>
      && RefusesHeldThroughout(prefix, s, trials[..|trials| - 1])
      && var last := trials[|trials| - 1];
         RefusesHeld(Attempts(Looking(prefix), s, trials[..|trials| - 1]).net.(refused := last.refused), Supersedes(last.call))
  }

  lemma {:induction false} RunsCouple(prefix: string, s: State, trials: seq<Trial>) returns (blind: seq<Trial>)
    requires Coupled(prefix, s, s)
    requires forall trial | trial in trials :: Seeable(Looking(prefix), trial.call)
    requires RefusesHeldThroughout(prefix, s, trials)
    ensures SameButTails(blind, trials)
    ensures Coupled(prefix, Attempts(Blindly(prefix), s, blind), Attempts(Looking(prefix), s, trials))
  {
    blind := [];
    if trials != [] {
      var front, last := trials[..|trials| - 1], trials[|trials| - 1];
      FrontAndLast(trials);
      RefusalsOfLast(prefix, s, trials);
      var before := RunsCouple(prefix, s, front);
      blind := OneMoreCouples(prefix, s, before, front, last);
    }
  }

  lemma FrontAndLast(trials: seq<Trial>)
    requires trials != []
    ensures trials[..|trials| - 1] + [trials[|trials| - 1]] == trials && trials[|trials| - 1] in trials
    ensures forall t | t in trials[..|trials| - 1] :: t in trials
  {
  }

  lemma RefusalsOfLast(prefix: string, s: State, trials: seq<Trial>)
    requires trials != [] && RefusesHeldThroughout(prefix, s, trials)
    ensures var front, last := trials[..|trials| - 1], trials[|trials| - 1];
            && RefusesHeldThroughout(prefix, s, front)
            && RefusesHeld(Attempts(Looking(prefix), s, front).net.(refused := last.refused), Supersedes(last.call))
  {
  }

  lemma OneMoreCouples(prefix: string, s: State, blind: seq<Trial>, front: seq<Trial>, last: Trial) returns (longer: seq<Trial>)
    requires SameButTails(blind, front) && Seeable(Looking(prefix), last.call)
    requires Coupled(prefix, Attempts(Blindly(prefix), s, blind), Attempts(Looking(prefix), s, front))
    requires RefusesHeld(Attempts(Looking(prefix), s, front).net.(refused := last.refused), Supersedes(last.call))
    ensures SameButTails(longer, front + [last])
    ensures Coupled(prefix, Attempts(Blindly(prefix), s, longer), Attempts(Looking(prefix), s, front + [last]))
  {
    var t := AttemptCoupled(prefix, Attempts(Blindly(prefix), s, blind), Attempts(Looking(prefix), s, front), last);
    longer := blind + [t];
    assert longer[..|blind|] == blind && (front + [last])[..|front|] == front;
  }

  /** Observing changes nothing the broker ends up with, and only drops retractions of empty topics: for
      every observing run, refusals and lost tails included, the blind run of the same calls under the same
      refusals, losing tails that leave the broker alike, ends with the same broker and the same memory. */
  lemma ObservedRefinesBlind(prefix: string, base: map<string, Payload>, trials: seq<Trial>) returns (blind: seq<Trial>)
    requires forall trial | trial in trials :: Seeable(Looking(prefix), trial.call)
    requires RefusesHeldThroughout(prefix, Start(base, [], []), trials)
    ensures SameButTails(blind, trials)
    ensures var b, o := Attempts(Blindly(prefix), Start(base, [], []), blind), Attempts(Looking(prefix), Start(base, [], []), trials);
            && Holds(o.net) == Holds(b.net) && b.memo == o.memo.(observed := None)
            && b.net.base == o.net.base && Thinned(Retractions, b.net.base, b.net.log, o.net.log)
  {
    blind := RunsCouple(prefix, Start(base, [], []), trials);
    SameHolds(Attempts(Blindly(prefix), Start(base, [], []), blind).net, Attempts(Looking(prefix), Start(base, [], []), trials).net);
  }

  // ------------------------------------ exactly when the snapshot decides rightly

  /** A fresh runtime's first document: the two ways agree if and only if every topic it supersedes that
      the broker retains is one the snapshot can see. */
  lemma FirstDocumentAgreesIff(prefix: string, base: map<string, Payload>, topic: string, doc: Payload)
    requires topic != "" && topic !in doc.clears
    ensures var b, o := Step(Blindly(prefix), Start(base, [], []), Bundle(topic, doc, [])),
                        Step(Looking(prefix), Start(base, [], []), Bundle(topic, doc, []));
            Holds(b.net) == Holds(o.net) <==> forall u | u in doc.clears && u in base :: Visible(Looking(prefix), u)
  {
    FirstDocument(Blindly(prefix), base, topic, doc);
    FirstDocument(Looking(prefix), base, topic, doc);
    var hb := Holds(Step(Blindly(prefix), Start(base, [], []), Bundle(topic, doc, [])).net);
    var ho := Holds(Step(Looking(prefix), Start(base, [], []), Bundle(topic, doc, [])).net);
    if u :| u in doc.clears && u in base && !Visible(Looking(prefix), u) {
      assert u in ho && u !in hb;
    }
  }

  lemma FirstDocument(cfg: Settings, base: map<string, Payload>, topic: string, doc: Payload)
    requires topic != ""
    ensures var after := Step(cfg, Start(base, [], []), Bundle(topic, doc, []));
            Holds(after.net) ==
              (map t | t in base && (t in doc.clears ==> cfg.supersedeObserved && !Visible(cfg, t)) :: base[t])[topic := doc]
  {
    var k := Start(base, [], []).(memo := Keep(CheckGeneration(BLANK, 0), topic, []));
    FirstSupersede(cfg, k, doc.clears);
    FirstWrite(Supersede(cfg, k, doc.clears).0, topic, doc);
  }

  lemma FirstWrite(s: State, topic: string, doc: Payload)
    requires topic != "" && Willing(s.net) && Current(s) && s.memo.declared == map[]
    ensures Holds(Publish(s, topic, Some(doc)).0.net) == Holds(s.net)[topic := doc]
  {
    RetainedSnoc(s.net.base, s.net.log, Send(topic, Some(doc)));
  }

  lemma FirstSupersede(cfg: Settings, k: State, topics: seq<string>)
    requires Willing(k.net) && Current(k) && k.net.log == []
    requires k.memo.superseded == {} && k.memo.declared == map[] && k.memo.observed.None?
    ensures var r := Supersede(cfg, k, topics);
            && r.1 && Willing(r.0.net) && Current(r.0) && r.0.memo.declared == map[]
            && Holds(r.0.net) ==
               map t | t in k.net.base && (t in topics ==> cfg.supersedeObserved && !Visible(cfg, t)) :: k.net.base[t]
  {
    var look := RetainedConfigs(cfg, k, topics);
    FirstRound(cfg, look.0, look.1, topics);
    forall t | t in k.net.base && t in topics
      ensures KnownEmpty(cfg, look.0.memo, look.1, t) <==> cfg.supersedeObserved && !Visible(cfg, t) {
      assert t !in k.memo.superseded;
    }
  }

  /** Nothing is refused either. */
  predicate Willing(n: Net) {
    Quiet(n) && n.refused == {}
  }

  /** What one round has done to a broker that no memo described: every topic settled, the others spared. */
  ghost predicate Settled(cfg: Settings, s: State, held: Option<set<string>>, topics: seq<string>, after: State) {
    && Willing(after.net) && after.net.base == s.net.base && Current(after) && after.memo.declared == map[]
    && (forall t :: t in after.memo.superseded <==> t in topics)
    && Holds(after.net) == Spared(cfg, s.memo, held, topics, s.net.base)
  }

  lemma {:induction false} FirstRound(cfg: Settings, s: State, held: Option<set<string>>, topics: seq<string>)
    requires Willing(s.net) && Current(s) && s.net.log == [] && s.memo.superseded == {} && s.memo.declared == map[]
    ensures var r := SupersedeAll(cfg, s, held, topics); r.1 && Settled(cfg, s, held, topics, r.0)
  {
    if topics == [] {
      assert Spared(cfg, s.memo, held, [], s.net.base) == s.net.base;
    } else {
      var front, t := topics[..|topics| - 1], topics[|topics| - 1];
      assert topics == front + [t];
      FirstRound(cfg, s, held, front);
      SettleOne(cfg, s, held, front, SupersedeAll(cfg, s, held, front).0, t);
    }
  }

  lemma SettleOne(cfg: Settings, s: State, held: Option<set<string>>, front: seq<string>, mid: State, t: string)
    requires Settled(cfg, s, held, front, mid) && s.memo.declared == map[]
    ensures var r := SupersedeOne(cfg, mid, held, t); r.1 && Settled(cfg, s, held, front + [t], r.0)
  {
    RetainedSnoc(mid.net.base, mid.net.log, Send(t, None));
    FirstRoundStep(cfg, s, held, front, t, s.net.base);
    assert KnownEmpty(cfg, mid.memo, held, t) == KnownEmpty(cfg, s.memo, held, t);
  }

  /** What the topics so far leave of the broker. */
  function Spared(cfg: Settings, m: Memo, held: Option<set<string>>, topics: seq<string>, base: map<string, Payload>): map<string, Payload> {
    map t | t in base && (t in topics ==> KnownEmpty(cfg, m, held, t)) :: base[t]
  }

  lemma FirstRoundStep(cfg: Settings, s: State, held: Option<set<string>>, front: seq<string>, t: string, base: map<string, Payload>)
    ensures Spared(cfg, s.memo, held, front + [t], base) ==
              if t in front || KnownEmpty(cfg, s.memo, held, t) then Spared(cfg, s.memo, held, front, base)
              else Spared(cfg, s.memo, held, front, base) - {t}
  {
  }

  // ------------------------------------------------- a refused retraction of nothing

  /** The snapshot shows nothing at this topic, or cannot see what is there. */
  predicate LooksEmpty(prefix: string, base: map<string, Payload>, u: string) {
    ConfigTopics.TopicPrefix(prefix) <= u && !(u in base && ConfigTopics.Parse(prefix, u).Some?)
  }

  /** A broker that refuses the one retraction: the blind way gives the document up, the observing way never
      asks where it sees nothing. They agree if and only if it does see something, or the document would
      change nothing either. */
  lemma RefusedRetractionAgreesIff(prefix: string, base: map<string, Payload>, topic: string, doc: Payload, u: string,
                                   refused: set<string>)
    requires topic != "" && doc.clears == [u] && u in refused
    ensures var trial := Trial(Bundle(topic, doc, []), refused);
            var b, o := Attempt(Blindly(prefix), Start(base, [], []), trial), Attempt(Looking(prefix), Start(base, [], []), trial);
            Holds(b.net) == Holds(o.net) <==>
              !LooksEmpty(prefix, base, u) || topic in refused || (topic in base && base[topic] == doc)
  {
    RefusedRound(Blindly(prefix), base, topic, doc, u, refused);
    RefusedRound(Looking(prefix), base, topic, doc, u, refused);
    assert base[topic := doc][topic] == doc;
    if topic in base && base[topic] == doc {
      assert base[topic := doc] == base;
    }
  }

  lemma RefusedRound(cfg: Settings, base: map<string, Payload>, topic: string, doc: Payload, u: string, refused: set<string>)
    requires topic != "" && doc.clears == [u] && u in refused
    ensures var after := Attempt(cfg, Start(base, [], []), Trial(Bundle(topic, doc, []), refused));
            Holds(after.net) ==
              if cfg.supersedeObserved && LooksEmpty(cfg.prefix, base, u) && topic !in refused then base[topic := doc] else base
  {
    var s := Start(base, [], []);
    var k := State(Keep(CheckGeneration(BLANK, 0), topic, []), s.net.(refused := refused));
    var look := RetainedConfigs(cfg, k, [u]);
    assert u in [u] && AnyPending(k.memo, [u]);
    assert [u][..0] == [];
    assert SupersedeAll(cfg, look.0, look.1, [u][..0]) == (look.0, true);
    assert SupersedeAll(cfg, look.0, look.1, [u]) == SupersedeOne(cfg, look.0, look.1, u);
    assert KnownEmpty(cfg, look.0.memo, look.1, u) <==> cfg.supersedeObserved && LooksEmpty(cfg.prefix, base, u);
    RefusedWrite(look.0.(memo := look.0.memo.(superseded := look.0.memo.superseded + {u})), topic, doc);
  }

  lemma RefusedWrite(s: State, topic: string, doc: Payload)
    requires topic != "" && Quiet(s.net) && Current(s) && s.memo.declared == map[] && s.net.log == []
    ensures Holds(Publish(s, topic, Some(doc)).0.net) == if topic in s.net.refused then s.net.base else s.net.base[topic := doc]
  {
    RetainedSnoc(s.net.base, [], Send(topic, Some(doc)));
  }
}
