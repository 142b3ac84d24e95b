/** Runs of the discovery runtime, and what its memos may claim about the broker. */
module RuntimeRuns {
  import opened Text
  import opened Wire
  import opened Runtime
  import opened Sweep

  /** One serialised call, or a reconnect that fell between two calls. */
  datatype Call =
    | Bundle(topic: string, doc: Payload, withheld: seq<string>)
    | Component(topic: string, config: Payload, bundleTopic: string)
    | Plain(topic: string, payload: Option<Payload>)
    | Clear(topics: seq<string>)
    | Replay(topics: seq<string>)
    | Orphans(candidates: seq<string>)
    | Forget
    | Drop(applied: nat)

  function Step(cfg: Settings, s: State, call: Call): State {
    match call
    case Bundle(t, doc, withheld) => PublishBundle(cfg, s, t, doc, withheld).0
    case Component(t, config, parent) => PublishComponent(cfg, s, t, config, parent).0
    case Plain(t, payload) => Publish(s, t, payload).0
    case Clear(topics) => Retract(s, topics)
    case Replay(topics) => if forall t | t in topics :: t in s.memo.declared then Republish(s, topics).0 else s
    case Orphans(ts) => SweepAll(s.(memo := CheckGeneration(s.memo, s.net.conn)), ts).0
    case Forget => s.(memo := Reset(s.memo))
    case Drop(k) => s.(net := Reconnected(s.net, k))
  }

  function Run(cfg: Settings, s: State, calls: seq<Call>): State {
    if calls == [] then s else Step(cfg, Run(cfg, s, calls[..|calls| - 1]), calls[|calls| - 1])
  }

  /** The topics a call may retract as the other discovery form. */
  function Supersedes(call: Call): seq<string> {
    match call
    case Bundle(_, doc, _) => doc.clears
    case Component(_, _, parent) => [parent]
    case _ => []
  }

  /** One call, and the topics the broker refuses writes to while it lasts. */
  datatype Trial = Trial(call: Call, refused: set<string>)

  function Attempt(cfg: Settings, s: State, trial: Trial): State {
    Step(cfg, s.(net := s.net.(refused := trial.refused)), trial.call)
  }

  function Attempts(cfg: Settings, s: State, trials: seq<Trial>): State {
    if trials == [] then s else Attempt(cfg, Attempts(cfg, s, trials[..|trials| - 1]), trials[|trials| - 1])
  }

  /** The same calls under the same refusals, but each reconnect may lose another tail. */
  predicate SameButTails(a: seq<Trial>, b: seq<Trial>) {
    && |a| == |b|
    && forall i | 0 <= i < |a| ::
         a[i].refused == b[i].refused && if a[i].call.Drop? then b[i].call.Drop? else a[i].call == b[i].call
  }

  /** A new runtime on a new connection to a broker that already holds `base`. */
  function Start(base: map<string, Payload>, script: seq<Outcome>, views: seq<View>): State {
    State(BLANK, Net(0, base, [], None, script, views, {}))
  }

  /** The memos speak of the connection the transport is on. */
  predicate Current(s: State) {
    s.memo.genSeen && s.memo.gen == s.net.conn
  }

  /** Each per-connection memo is backed by something that happened on this connection. */
  predicate Backed(m: Memo, n: Net) {
    && (forall t | t in m.superseded :: Send(t, None) in n.log || (m.observed.Some? && t !in m.observed.value))
    && (forall t | t in m.declared && m.declared[t].gated :: Send(t, Some(m.declared[t].payload)) in n.log)
    && (m.observed.Some? ==> n.snapshot == m.observed)
  }

  predicate Truthful(s: State) {
    && (!s.memo.genSeen ==> s.memo.declared == map[] && s.memo.superseded == {} && s.memo.observed.None?)
    && (s.memo.genSeen ==> s.memo.gen <= s.net.conn)
    && (Current(s) ==> Backed(s.memo, s.net))
  }

  lemma PublishIsTruthful(s: State, topic: string, payload: Option<Payload>)
    requires Truthful(s)
    ensures Truthful(Publish(s, topic, payload).0)
  {
  }

  lemma LookIsTruthful(cfg: Settings, s: State, topics: seq<string>)
    requires Truthful(s) && s.memo.genSeen
    ensures var r := RetainedConfigs(cfg, s, topics);
            && Truthful(r.0) && r.0.memo.genSeen
            && (r.1.Some? ==> r.0.memo.observed == r.1)
  {
  }

  lemma SupersedeOneIsTruthful(cfg: Settings, s: State, held: Option<set<string>>, t: string)
    requires Truthful(s) && s.memo.genSeen
    requires held.Some? ==> s.memo.observed == held
    ensures var r := SupersedeOne(cfg, s, held, t);
            && Truthful(r.0) && r.0.memo.genSeen && r.0.memo.observed == s.memo.observed
            && s.memo.superseded <= r.0.memo.superseded && s.net.conn <= r.0.net.conn
            && (r.1 ==> t in r.0.memo.superseded)
  {
  }

  lemma {:induction false} SupersedeAllIsTruthful(cfg: Settings, s: State, held: Option<set<string>>, topics: seq<string>)
    requires Truthful(s) && s.memo.genSeen
    requires held.Some? ==> s.memo.observed == held
    ensures var r := SupersedeAll(cfg, s, held, topics);
            && Truthful(r.0) && r.0.memo.genSeen && r.0.memo.observed == s.memo.observed
            && s.memo.superseded <= r.0.memo.superseded && s.net.conn <= r.0.net.conn
            && (r.1 ==> forall t | t in topics :: t in r.0.memo.superseded)
  {
    if topics != [] {
      var front := topics[..|topics| - 1];
      SupersedeAllIsTruthful(cfg, s, held, front);
      var r := SupersedeAll(cfg, s, held, front);
      if r.1 {
        SupersedeOneIsTruthful(cfg, r.0, held, topics[|topics| - 1]);
        assert topics == front + [topics[|topics| - 1]];
      }
    }
  }

  lemma SupersedeIsTruthful(cfg: Settings, s: State, topics: seq<string>)
    requires Truthful(s) && s.memo.genSeen
    ensures var r := Supersede(cfg, s, topics);
            && Truthful(r.0) && r.0.memo.genSeen && s.net.conn <= r.0.net.conn
            && (r.1 ==> forall t | t in topics :: t in r.0.memo.superseded)
  {
    LookIsTruthful(cfg, s, topics);
    var r := RetainedConfigs(cfg, s, topics);
    SupersedeAllIsTruthful(cfg, r.0, r.1, topics);
  }

  lemma {:induction false} RetractIsTruthful(s: State, topics: seq<string>)
    requires Truthful(s)
    ensures Truthful(Retract(s, topics))
  {
    if topics != [] {
      RetractIsTruthful(s, topics[..|topics| - 1]);
    }
  }

  lemma {:induction false} ReplayIsTruthful(s: State, topics: seq<string>)
    requires Truthful(s)
    requires forall t | t in topics :: t in s.memo.declared
    ensures Truthful(s.(net := ReplayAll(s.memo.declared, s.net, topics).0))
  {
    if topics != [] {
      var front := topics[..|topics| - 1];
      ReplayIsTruthful(s, front);
      var t := topics[|topics| - 1];
    }
  }

  lemma {:induction false} SweepIsTruthful(s: State, topics: seq<string>)
    requires Truthful(s)
    ensures Truthful(SweepAll(s, topics).0)
  {
    if topics != [] {
      SweepIsTruthful(s, topics[..|topics| - 1]);
    }
  }

  lemma StepIsTruthful(cfg: Settings, s: State, call: Call)
    requires Truthful(s)
    ensures Truthful(Step(cfg, s, call))
  {
    var c := s.(memo := CheckGeneration(s.memo, s.net.conn));
    match call
    case Bundle(t, doc, withheld) =>
      var k := c.(memo := Keep(c.memo, t, withheld));
      SupersedeIsTruthful(cfg, k, doc.clears);
      PublishIsTruthful(Supersede(cfg, k, doc.clears).0, t, Some(doc));
    case Component(t, config, parent) =>
      SupersedeIsTruthful(cfg, c, [parent]);
      PublishIsTruthful(Supersede(cfg, c, [parent]).0, t, Some(config));
    case Plain(t, payload) => PublishIsTruthful(s, t, payload);
    case Clear(topics) => RetractIsTruthful(s, topics);
    case Replay(topics) =>
      if forall t | t in topics :: t in s.memo.declared { ReplayIsTruthful(c, topics); }
    case Orphans(ts) => SweepIsTruthful(c, ts);
    case Forget =>
    case Drop(_) =>
  }

  /** Memos speak only of the current connection, wherever reconnects strike. */
  lemma {:induction false} MemosAreOfThisConnection(cfg: Settings, base: map<string, Payload>, script: seq<Outcome>,
                                                   views: seq<View>, calls: seq<Call>)
    ensures Truthful(Run(cfg, Start(base, script, views), calls))
  {
    if calls != [] {
      MemosAreOfThisConnection(cfg, base, script, views, calls[..|calls| - 1]);
      StepIsTruthful(cfg, Run(cfg, Start(base, script, views), calls[..|calls| - 1]), calls[|calls| - 1]);
    }
  }

  /** Some payload with these bytes was sent to this topic on the connection that is up now. */
  ghost predicate SentHere(n: Net, topic: string, bytes: string) {
    exists p: Payload :: p.bytes == bytes && Send(topic, Some(p)) in n.log
  }

  /** No gate suppresses a write because of an older connection. */
  lemma SuppressedWasSentHere(cfg: Settings, base: map<string, Payload>, script: seq<Outcome>, views: seq<View>,
                              calls: seq<Call>, topic: string, p: Payload, withheld: seq<string>, parent: string)
    ensures var s := Run(cfg, Start(base, script, views), calls);
            && (Publish(s, topic, Some(p)).1 == Unchanged ==> SentHere(s.net, topic, p.bytes))
            && (PublishBundle(cfg, s, topic, p, withheld).1 == Unchanged ==> SentHere(s.net, topic, p.bytes))
            && (PublishComponent(cfg, s, topic, p, parent).1 == Unchanged ==> SentHere(s.net, topic, p.bytes))
  {
    MemosAreOfThisConnection(cfg, base, script, views, calls);
    var s := Run(cfg, Start(base, script, views), calls);
    var c := s.(memo := CheckGeneration(s.memo, s.net.conn));
    var k := c.(memo := Keep(c.memo, topic, withheld));
    if Gated(c.memo, topic, Some(p)) {
      assert Send(topic, Some(c.memo.declared[topic].payload)) in s.net.log;
    } else {
      SupersedeOpensNoGate(cfg, k, p.clears, topic, p);
      SupersedeOpensNoGate(cfg, c, [parent], topic, p);
    }
  }

  predicate Shut(m: Memo, topic: string, p: Payload) {
    !Gated(m, topic, Some(p))
  }

  /** Superseding never makes the gate match what it did not match before. */
  lemma SupersedeOpensNoGate(cfg: Settings, s: State, topics: seq<string>, topic: string, p: Payload)
    requires Shut(s.memo, topic, p)
    ensures Publish(Supersede(cfg, s, topics).0, topic, Some(p)).1 != Unchanged
  {
    var r := RetainedConfigs(cfg, s, topics);
    SupersedeAllOpensNoGate(cfg, r.0, r.1, topics, topic, p);
  }

  lemma {:induction false} SupersedeAllOpensNoGate(cfg: Settings, s: State, held: Option<set<string>>,
                                                  topics: seq<string>, topic: string, p: Payload)
    requires Shut(s.memo, topic, p)
    ensures Shut(SupersedeAll(cfg, s, held, topics).0.memo, topic, p)
  {
    if topics != [] {
      SupersedeAllOpensNoGate(cfg, s, held, topics[..|topics| - 1], topic, p);
    }
  }

  /** A document written without a reconnect in the call follows, on its own connection, a retraction of
      each topic it supersedes, or a snapshot that did not see that topic. */
  lemma RetractionsAreOfThisConnection(cfg: Settings, base: map<string, Payload>, script: seq<Outcome>,
                                       views: seq<View>, calls: seq<Call>, topic: string, doc: Payload,
                                       withheld: seq<string>, u: string)
    requires u in doc.clears
    ensures var s := Run(cfg, Start(base, script, views), calls);
            var r := PublishBundle(cfg, s, topic, doc, withheld);
            r.1 == Wrote && r.0.net.conn == s.net.conn ==>
              || Send(u, None) in r.0.net.log
              || (r.0.net.snapshot.Some? && u !in r.0.net.snapshot.value)
  {
    MemosAreOfThisConnection(cfg, base, script, views, calls);
    var s := Run(cfg, Start(base, script, views), calls);
    var c := s.(memo := CheckGeneration(s.memo, s.net.conn));
    var k := c.(memo := Keep(c.memo, topic, withheld));
    SupersedeIsTruthful(cfg, k, doc.clears);
    SupersedeKeepsGeneration(cfg, k, doc.clears);
  }

  lemma SupersedeKeepsGeneration(cfg: Settings, s: State, topics: seq<string>)
    ensures var r := Supersede(cfg, s, topics); r.0.memo.gen == s.memo.gen && r.0.memo.genSeen == s.memo.genSeen
  {
    var r := RetainedConfigs(cfg, s, topics);
    SupersedeAllKeepsGeneration(cfg, r.0, r.1, topics);
  }

  lemma {:induction false} SupersedeAllKeepsGeneration(cfg: Settings, s: State, held: Option<set<string>>, topics: seq<string>)
    ensures var r := SupersedeAll(cfg, s, held, topics); r.0.memo.gen == s.memo.gen && r.0.memo.genSeen == s.memo.genSeen
  {
    if topics != [] {
      SupersedeAllKeepsGeneration(cfg, s, held, topics[..|topics| - 1]);
    }
  }
}
