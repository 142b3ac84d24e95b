/** The discovery runtime against the same runtime without its dedup gates. */
module Ungated {
  import opened Text
  import opened Wire
  import opened Thinning
  import opened Runtime
  import opened RuntimeRuns
  import opened Sweep

  /** Publish with no look at what was last accepted. */
  function PublishAlways(s: State, topic: string, payload: Option<Payload>): (State, Report) {
    if topic == "" then (s, Failed)
    else
      var m := CheckGeneration(s.memo, s.net.conn);
      if payload.None? && topic !in m.declared then (s.(memo := m), Unchanged)
      else SendOut(s.(memo := m), topic, payload)
  }

  function BundleAlways(cfg: Settings, s: State, topic: string, doc: Payload, withheld: seq<string>): (State, Report) {
    var r := Supersede(cfg, s.(memo := Keep(CheckGeneration(s.memo, s.net.conn), topic, withheld)), doc.clears);
    if !r.1 then (r.0, Failed) else PublishAlways(r.0, topic, Some(doc))
  }

  function ComponentAlways(cfg: Settings, s: State, topic: string, config: Payload, bundleTopic: string): (State, Report) {
    var r := Supersede(cfg, s.(memo := CheckGeneration(s.memo, s.net.conn)), [bundleTopic]);
    if !r.1 then (r.0, Failed) else PublishAlways(r.0, topic, Some(config))
  }

  function StepAlways(cfg: Settings, s: State, call: Call): State {
    match call
    case Bundle(t, doc, withheld) => BundleAlways(cfg, s, t, doc, withheld).0
    case Component(t, config, parent) => ComponentAlways(cfg, s, t, config, parent).0
    case Plain(t, payload) => PublishAlways(s, t, payload).0
    case _ => Step(cfg, s, call)
  }

  function AttemptAlways(cfg: Settings, s: State, trial: Trial): State {
    StepAlways(cfg, s.(net := s.net.(refused := trial.refused)), trial.call)
  }

  function AttemptsAlways(cfg: Settings, s: State, trials: seq<Trial>): State {
    if trials == [] then s else AttemptAlways(cfg, AttemptsAlways(cfg, s, trials[..|trials| - 1]), trials[|trials| - 1])
  }

  // ------------------------------------------------ what a call says of its topic

  /** What a call writes when it writes. */
  function Written(call: Call): Option<(string, Payload)> {
    match call
    case Bundle(t, doc, _) => Some((t, doc))
    case Component(t, config, _) => Some((t, config))
    case Plain(t, Some(p)) => Some((t, p))
    case _ => None
  }

  /** Calls that write the same bytes to the same topic write the same payload and supersede the same topics. */
  predicate Agree(a: Call, b: Call) {
    var wa, wb := Written(a), Written(b);
    wa.Some? && wb.Some? && wa.value.0 == wb.value.0 && wa.value.1.bytes == wb.value.1.bytes ==>
      wa == wb && Supersedes(a) == Supersedes(b)
  }

  predicate AllAgree(trials: seq<Trial>) {
    forall a, b | a in trials && b in trials :: Agree(a.call, b.call)
  }

  /** No document and no rollback among the calls: everything goes through Publish alone. */
  predicate PublishesOnly(trials: seq<Trial>) {
    forall t | t in trials :: !t.call.Bundle? && !t.call.Component? && (t.call.Plain? && t.call.payload.Some? ==> t.call.payload.value.clears == [])
  }

  /** Such runs agree on everything. */
  lemma PublishesAgree(trials: seq<Trial>)
    requires PublishesOnly(trials)
    ensures AllAgree(trials)
  {
    forall a, b | a in trials && b in trials ensures Agree(a.call, b.call) {
      var wa, wb := Written(a.call), Written(b.call);
      if wa.Some? && wb.Some? && wa.value.1.bytes == wb.value.1.bytes {
        assert wa.value.1 == Payload(wa.value.1.bytes, []) && wb.value.1 == Payload(wb.value.1.bytes, []);
      }
    }
  }

  /** What stands for a topic and its bytes throughout a run. */
  datatype Plan = Plan(payload: (string, string) -> Payload, clears: (string, string) -> seq<string>)

  predicate Follows(plan: Plan, call: Call) {
    var w := Written(call);
    w.Some? ==>
      && w.value.1 == plan.payload(w.value.0, w.value.1.bytes)
      && Supersedes(call) == plan.clears(w.value.0, w.value.1.bytes)
  }

  ghost predicate Writes(trials: seq<Trial>, call: Call, topic: string, bytes: string) {
    && (exists t :: t in trials && t.call == call)
    && Written(call).Some? && Written(call).value.0 == topic && Written(call).value.1.bytes == bytes
  }

  ghost function TheCall(trials: seq<Trial>, topic: string, bytes: string): Call {
    if exists call :: Writes(trials, call, topic, bytes)
    then var call :| Writes(trials, call, topic, bytes); call
    else Plain(topic, Some(Payload(bytes, [])))
  }

  ghost function PlanOf(trials: seq<Trial>): Plan {
    Plan((t, bytes) => var w := Written(TheCall(trials, t, bytes)); if w.Some? then w.value.1 else Payload(bytes, []),
         (t, bytes) => Supersedes(TheCall(trials, t, bytes)))
  }

  lemma AgreeingFollows(trials: seq<Trial>, trial: Trial)
    requires AllAgree(trials) && trial in trials
    ensures Follows(PlanOf(trials), trial.call)
  {
    var w := Written(trial.call);
    if w.Some? {
      assert Writes(trials, trial.call, w.value.0, w.value.1.bytes);
      var other := TheCall(trials, w.value.0, w.value.1.bytes);
      assert Writes(trials, other, w.value.0, w.value.1.bytes);
      assert Agree(trial.call, other);
    }
  }

  // --------------------------------------------------------------- side by side

  /** Refusals apart, nothing fails; what is applied is acknowledged; no snapshot meets a reconnect. */
  predicate Steady(n: Net) {
    n.script == [] && forall v | v in n.views :: v.drop.None?
  }

  predicate SameNets(u: Net, g: Net) {
    && Steady(g) && u.(log := []) == g.(log := [])
    && Thinned(Thinning.Kind.Writes, g.base, u.log, g.log)
  }

  /** A refused write the gate would have spared gives up a claim that the declared topic upholds anyway. */
  predicate SameMemos(u: Memo, g: Memo) {
    && u.(announced := g.announced) == g
    && u.announced + u.declared.Keys == g.announced + g.declared.Keys
  }

  predicate Known(plan: Plan, m: Memo) {
    && (forall t | t in m.declared :: t in m.claimed && m.declared[t].payload == plan.payload(t, m.declared[t].payload.bytes))
    && (!m.genSeen ==> m.declared == map[])
  }

  /** What the gate acts on is held, and its supersede round is over. */
  predicate GatesHold(plan: Plan, m: Memo, held: map<string, Payload>) {
    forall t | t in m.declared && m.declared[t].gated ::
      && t in held && held[t] == m.declared[t].payload
      && forall c | c in plan.clears(t, m.declared[t].payload.bytes) :: c in m.superseded
  }

  predicate Sound(plan: Plan, g: State) {
    && Known(plan, g.memo) && (g.memo.genSeen ==> g.memo.gen <= g.net.conn)
    && (Current(g) ==> GatesHold(plan, g.memo, Holds(g.net)))
  }

  /** The ungated run and the gated one. */
  predicate Twins(plan: Plan, u: State, g: State) {
    SameNets(u.net, g.net) && SameMemos(u.memo, g.memo) && Sound(plan, g)
  }

  lemma SameHolds(u: Net, g: Net)
    requires SameNets(u, g)
    ensures Holds(u) == Holds(g)
  {
    ThinnedHoldsTheSame(Thinning.Kind.Writes, g.base, u.log, g.log);
  }

  lemma SendBoth(u: Net, g: Net, send: Send)
    requires SameNets(u, g)
    ensures var u1, g1 := Transmit(u, send), Transmit(g, send);
            && SameNets(u1.0, g1.0) && u1.1 == g1.1 && g1.0.conn == g.conn
            && Holds(g1.0) == if g1.1 then After(Holds(g), send) else Holds(g)
  {
    ThinnedBoth(Thinning.Kind.Writes, g.base, u.log, g.log, send);
    RetainedSnoc(g.base, g.log, send);
  }

  function Checked(s: State): State {
    s.(memo := CheckGeneration(s.memo, s.net.conn))
  }

  lemma CheckedTwins(plan: Plan, u: State, g: State)
    requires Twins(plan, u, g)
    ensures Twins(plan, Checked(u), Checked(g)) && Current(Checked(g))
  {
  }

  // ------------------------------------------------------------------ one write

  /** Everything this write supersedes has been settled on this connection. */
  predicate Ready(plan: Plan, m: Memo, topic: string, p: Payload) {
    p == plan.payload(topic, p.bytes) && forall c | c in plan.clears(topic, p.bytes) :: c in m.superseded
  }

  function MemoAfter(m: Memo, topic: string, payload: Option<Payload>, ok: bool): Memo {
    match payload
    case None => if ok then Forgotten(m, topic) else m
    case Some(p) => if ok then Recorded(Announced(m, topic), topic, p) else Withdrawn(Announced(m, topic), topic)
  }

  lemma MemosStaySame(u: Memo, g: Memo, topic: string, payload: Option<Payload>, ok: bool)
    requires SameMemos(u, g)
    ensures SameMemos(MemoAfter(u, topic, payload, ok), MemoAfter(g, topic, payload, ok))
  {
    var u1, g1 := MemoAfter(u, topic, payload, ok), MemoAfter(g, topic, payload, ok);
    forall t ensures t in u1.announced + u1.declared.Keys <==> t in g1.announced + g1.declared.Keys {
      assert t in u.announced + u.declared.Keys <==> t in g.announced + g.declared.Keys;
    }
  }

  /** What the broker holds moves with what the gates act on. */
  lemma GatesStay(plan: Plan, m: Memo, held: map<string, Payload>, topic: string, payload: Option<Payload>, ok: bool)
    requires Known(plan, m) && GatesHold(plan, m, held) && m.genSeen
    requires payload.Some? ==> Ready(plan, m, topic, payload.value)
    ensures var m1 := MemoAfter(m, topic, payload, ok);
            Known(plan, m1) && GatesHold(plan, m1, if ok then After(held, Send(topic, payload)) else held)
  {
  }

  /** Past the gate both send, and end alike. */
  lemma SendOutTwins(plan: Plan, u: State, g: State, topic: string, payload: Option<Payload>)
    requires Twins(plan, u, g) && Current(g)
    requires payload.Some? ==> Ready(plan, g.memo, topic, payload.value)
    ensures Twins(plan, SendOut(u, topic, payload).0, SendOut(g, topic, payload).0)
  {
    SendBoth(u.net, g.net, Send(topic, payload));
    var ok := Transmit(g.net, Send(topic, payload)).1;
    MemosStaySame(u.memo, g.memo, topic, payload, ok);
    GatesStay(plan, g.memo, Holds(g.net), topic, payload, ok);
  }

  /** The write the gate spares is one the broker and the memory would not have noticed. */
  lemma SparedTwins(plan: Plan, u: State, g: State, topic: string, p: Payload)
    requires Twins(plan, u, g) && Current(g) && Gated(g.memo, topic, Some(p))
    requires p == plan.payload(topic, p.bytes)
    ensures Twins(plan, SendOut(u, topic, Some(p)).0, g)
  {
    SameHolds(u.net, g.net);
    assert g.memo.declared[topic].payload == p;
    ThinnedOne(Thinning.Kind.Writes, g.net.base, u.net.log, g.net.log, Send(topic, Some(p)));
    var u1 := SendOut(u, topic, Some(p)).0;
    assert u.memo.declared[topic := Cached(p, true)] == u.memo.declared;
    assert u.memo.claimed + {topic} == u.memo.claimed;
    assert topic in u.memo.declared.Keys;
    assert u1.memo.announced + u1.memo.declared.Keys == u.memo.announced + u.memo.declared.Keys;
  }

  lemma PublishTwins(plan: Plan, u: State, g: State, topic: string, payload: Option<Payload>)
    requires Twins(plan, u, g)
    requires payload.Some? ==> Ready(plan, Checked(g).memo, topic, payload.value)
    ensures Twins(plan, PublishAlways(u, topic, payload).0, Publish(g, topic, payload).0)
  {
    if topic != "" {
      CheckedTwins(plan, u, g);
      if Gated(Checked(g).memo, topic, payload) {
        SparedTwins(plan, Checked(u), Checked(g), topic, payload.value);
      } else if !(payload.None? && topic !in Checked(g).memo.declared) {
        SendOutTwins(plan, Checked(u), Checked(g), topic, payload);
      }
    }
  }

  // ------------------------------------------------------------- superseding

  /** Where both runs are after some of a round. */
  predicate Rounding(plan: Plan, start: State, u: State, g: State) {
    && Twins(plan, u, g) && Current(g) && g.net.conn == start.net.conn
    && start.memo.superseded <= g.memo.superseded
  }

  lemma LookTwins(cfg: Settings, plan: Plan, u: State, g: State, topics: seq<string>)
    requires Twins(plan, u, g) && Current(g)
    ensures var ru, rg := RetainedConfigs(cfg, u, topics), RetainedConfigs(cfg, g, topics);
            Rounding(plan, g, ru.0, rg.0) && ru.1 == rg.1
  {
    SameHolds(u.net, g.net);
  }

  /** Marking a topic as settled bears on nothing else. */
  lemma MarkTwins(plan: Plan, start: State, u: State, g: State, t: string)
    requires Rounding(plan, start, u, g)
    ensures Rounding(plan, start, u.(memo := u.memo.(superseded := u.memo.superseded + {t})),
                     g.(memo := g.memo.(superseded := g.memo.superseded + {t})))
  {
  }

  lemma ClearTwins(plan: Plan, start: State, u: State, g: State, t: string)
    requires Rounding(plan, start, u, g)
    ensures var ru, rg := RetractOne(u, t), RetractOne(g, t);
            && Rounding(plan, start, ru.0, rg.0) && ru.1 == rg.1
            && rg.0.memo.superseded == g.memo.superseded && ru.0.memo.superseded == u.memo.superseded
  {
    SendOutTwins(plan, u, g, t, None);
    SendBoth(u.net, g.net, Send(t, None));
  }

  lemma SupersedeOneTwins(cfg: Settings, plan: Plan, start: State, u: State, g: State, held: Option<set<string>>, t: string)
    requires Rounding(plan, start, u, g)
    ensures var ru, rg := SupersedeOne(cfg, u, held, t), SupersedeOne(cfg, g, held, t);
            && Rounding(plan, start, ru.0, rg.0) && ru.1 == rg.1 && g.memo.superseded <= rg.0.memo.superseded
            && (rg.1 ==> t in rg.0.memo.superseded)
  {
    if t !in g.memo.superseded {
      if KnownEmpty(cfg, g.memo, held, t) {
        MarkTwins(plan, start, u, g, t);
      } else {
        ClearTwins(plan, start, u, g, t);
        MarkTwins(plan, start, RetractOne(u, t).0, RetractOne(g, t).0, t);
      }
    }
  }

  lemma {:induction false} SupersedeAllTwins(cfg: Settings, plan: Plan, start: State, u: State, g: State,
                                            held: Option<set<string>>, topics: seq<string>)
    requires Rounding(plan, start, u, g)
    ensures var ru, rg := SupersedeAll(cfg, u, held, topics), SupersedeAll(cfg, g, held, topics);
            && Rounding(plan, start, ru.0, rg.0) && ru.1 == rg.1
            && (rg.1 ==> forall t | t in topics :: t in rg.0.memo.superseded)
  {
    if topics != [] {
      var front, t := topics[..|topics| - 1], topics[|topics| - 1];
      SupersedeAllTwins(cfg, plan, start, u, g, held, front);
      var ru, rg := SupersedeAll(cfg, u, held, front), SupersedeAll(cfg, g, held, front);
      if rg.1 {
        SupersedeOneTwins(cfg, plan, start, ru.0, rg.0, held, t);
        assert topics == front + [t];
      }
    }
  }

  lemma SupersedeTwins(cfg: Settings, plan: Plan, u: State, g: State, topics: seq<string>)
    requires Twins(plan, u, g) && Current(g)
    ensures var ru, rg := Supersede(cfg, u, topics), Supersede(cfg, g, topics);
            && Twins(plan, ru.0, rg.0) && ru.1 == rg.1 && Current(rg.0)
            && (rg.1 ==> forall t | t in topics :: t in rg.0.memo.superseded)
  {
    LookTwins(cfg, plan, u, g, topics);
    var ru, rg := RetainedConfigs(cfg, u, topics), RetainedConfigs(cfg, g, topics);
    SupersedeAllTwins(cfg, plan, g, ru.0, rg.0, rg.1, topics);
  }

  /** A round over settled topics does nothing. */
  lemma {:induction false} SettledRound(cfg: Settings, s: State, held: Option<set<string>>, topics: seq<string>)
    requires forall t | t in topics :: t in s.memo.superseded
    ensures SupersedeAll(cfg, s, held, topics) == (s, true)
  {
    if topics != [] {
      SettledRound(cfg, s, held, topics[..|topics| - 1]);
      assert topics[|topics| - 1] in topics;
    }
  }

  /** The call past its bookkeeping: a gated write with its round against an ungated one. */
  lemma FormTwins(cfg: Settings, plan: Plan, u: State, g: State, topic: string, p: Payload, topics: seq<string>)
    requires Twins(plan, u, g) && Current(g)
    requires p == plan.payload(topic, p.bytes) && topics == plan.clears(topic, p.bytes)
    ensures var ru, rg := Supersede(cfg, u, topics), Supersede(cfg, g, topics);
            Twins(plan, if ru.1 then PublishAlways(ru.0, topic, Some(p)).0 else ru.0,
                  if Gated(g.memo, topic, Some(p)) then g else if rg.1 then Publish(rg.0, topic, Some(p)).0 else rg.0)
  {
    if Gated(g.memo, topic, Some(p)) {
      assert g.memo.declared[topic].payload == p;
      assert u.memo.superseded == g.memo.superseded;
      SettledRound(cfg, u, None, topics);
      PublishTwins(plan, u, g, topic, Some(p));
    } else {
      SupersedeTwins(cfg, plan, u, g, topics);
      var ru, rg := Supersede(cfg, u, topics), Supersede(cfg, g, topics);
      if rg.1 {
        PublishTwins(plan, ru.0, rg.0, topic, Some(p));
      }
    }
  }

  // ------------------------------------------------------------- other calls

  lemma RetractOneTwins(plan: Plan, u: State, g: State, t: string)
    requires Twins(plan, u, g)
    ensures Twins(plan, RetractOne(u, t).0, RetractOne(g, t).0)
  {
    SendBoth(u.net, g.net, Send(t, None));
    MemosStaySame(u.memo, g.memo, t, None, true);
  }

  lemma {:induction false} RetractTwins(plan: Plan, u: State, g: State, topics: seq<string>)
    requires Twins(plan, u, g)
    ensures Twins(plan, Retract(u, topics), Retract(g, topics))
  {
    if topics != [] {
      var front, t := topics[..|topics| - 1], topics[|topics| - 1];
      RetractTwins(plan, u, g, front);
      RetractOneTwins(plan, Retract(u, front), Retract(g, front), t);
    }
  }

  lemma {:induction false} ReplayTwins(plan: Plan, u: State, g: State, topics: seq<string>)
    requires Twins(plan, u, g)
    requires forall t | t in topics :: t in g.memo.declared
    ensures Twins(plan, u.(net := ReplayAll(u.memo.declared, u.net, topics).0),
                  g.(net := ReplayAll(g.memo.declared, g.net, topics).0))
  {
    if topics != [] {
      var front, t := topics[..|topics| - 1], topics[|topics| - 1];
      ReplayTwins(plan, u, g, front);
      SendBoth(ReplayAll(u.memo.declared, u.net, front).0, ReplayAll(g.memo.declared, g.net, front).0,
               Send(t, Some(g.memo.declared[t].payload)));
    }
  }

  lemma SameClaims(u: Memo, g: Memo, t: string)
    requires SameMemos(u, g)
    ensures Claims(u, t) == Claims(g, t)
  {
    assert t in u.announced + u.declared.Keys <==> t in g.announced + g.declared.Keys;
  }

  lemma SweepOneTwins(plan: Plan, u: State, g: State, t: string)
    requires Twins(plan, u, g)
    ensures Twins(plan, SweepOne(u, t).0, SweepOne(g, t).0)
  {
    SameClaims(u.memo, g.memo, t);
    if !Claims(g.memo, t) {
      SendBoth(u.net, g.net, Send(t, None));
      assert g.memo.(declared := g.memo.declared - {t}) == g.memo;
      assert u.memo.(declared := u.memo.declared - {t}) == u.memo;
    }
  }

  lemma {:induction false} SweepTwins(plan: Plan, u: State, g: State, topics: seq<string>)
    requires Twins(plan, u, g)
    ensures Twins(plan, SweepAll(u, topics).0, SweepAll(g, topics).0)
  {
    if topics != [] {
      SweepTwins(plan, u, g, topics[..|topics| - 1]);
      SweepOneTwins(plan, SweepAll(u, topics[..|topics| - 1]).0, SweepAll(g, topics[..|topics| - 1]).0, topics[|topics| - 1]);
    }
  }

  lemma BundleTwins(cfg: Settings, plan: Plan, u: State, g: State, t: string, doc: Payload, withheld: seq<string>)
    requires Twins(plan, u, g) && Follows(plan, Bundle(t, doc, withheld))
    ensures Twins(plan, BundleAlways(cfg, u, t, doc, withheld).0, PublishBundle(cfg, g, t, doc, withheld).0)
  {
    CheckedTwins(plan, u, g);
    var ku := u.(memo := Keep(Checked(u).memo, t, withheld));
    var kg := g.(memo := Keep(Checked(g).memo, t, withheld));
    FormTwins(cfg, plan, ku, kg, t, doc, doc.clears);
  }

  lemma ComponentTwins(cfg: Settings, plan: Plan, u: State, g: State, t: string, config: Payload, parent: string)
    requires Twins(plan, u, g) && Follows(plan, Component(t, config, parent))
    ensures Twins(plan, ComponentAlways(cfg, u, t, config, parent).0, PublishComponent(cfg, g, t, config, parent).0)
  {
    CheckedTwins(plan, u, g);
    FormTwins(cfg, plan, Checked(u), Checked(g), t, config, [parent]);
  }

  lemma StepTwins(cfg: Settings, plan: Plan, u: State, g: State, call: Call)
    requires Twins(plan, u, g) && Follows(plan, call) && !call.Drop?
    ensures Twins(plan, StepAlways(cfg, u, call), Step(cfg, g, call))
  {
    match call
    case Bundle(t, doc, withheld) => BundleTwins(cfg, plan, u, g, t, doc, withheld);
    case Component(t, config, parent) => ComponentTwins(cfg, plan, u, g, t, config, parent);
    case Plain(t, payload) => PublishTwins(plan, u, g, t, payload);
    case Clear(topics) => RetractTwins(plan, u, g, topics);
    case Replay(topics) =>
      CheckedTwins(plan, u, g);
      if forall t | t in topics :: t in g.memo.declared { ReplayTwins(plan, Checked(u), Checked(g), topics); }
    case Orphans(ts) =>
      CheckedTwins(plan, u, g);
      SweepTwins(plan, Checked(u), Checked(g), ts);
    case Forget =>
  }

  lemma AttemptTwins(cfg: Settings, plan: Plan, u: State, g: State, trial: Trial) returns (ungated: Trial)
    requires Twins(plan, u, g) && Follows(plan, trial.call)
    ensures SameButTails([ungated], [trial])
    ensures Twins(plan, AttemptAlways(cfg, u, ungated), Attempt(cfg, g, trial))
  {
    var u1, g1 := u.(net := u.net.(refused := trial.refused)), g.(net := g.net.(refused := trial.refused));
    ungated := trial;
    if trial.call.Drop? {
      var j := SameReconnect(Thinning.Kind.Writes, u1.net, g1.net, trial.call.applied);
      ungated := Trial(Drop(j), trial.refused);
    } else {
      StepTwins(cfg, plan, u1, g1, trial.call);
    }
  }

  lemma {:induction false} RunsAreTwins(cfg: Settings, plan: Plan, s: State, trials: seq<Trial>) returns (ungated: seq<Trial>)
    requires Twins(plan, s, s) && forall trial | trial in trials :: Follows(plan, trial.call)
    ensures SameButTails(ungated, trials)
    ensures Twins(plan, AttemptsAlways(cfg, s, ungated), Attempts(cfg, s, trials))
  {
    ungated := [];
    if trials != [] {
      var front := trials[..|trials| - 1];
      ungated := RunsAreTwins(cfg, plan, s, front);
      ungated := OneMoreTwin(cfg, plan, s, ungated, front, trials[|trials| - 1]);
      assert front + [trials[|trials| - 1]] == trials;
    }
  }

  lemma OneMoreTwin(cfg: Settings, plan: Plan, s: State, ungated: seq<Trial>, front: seq<Trial>, last: Trial)
    returns (longer: seq<Trial>)
    requires SameButTails(ungated, front) && Follows(plan, last.call)
    requires Twins(plan, AttemptsAlways(cfg, s, ungated), Attempts(cfg, s, front))
    ensures SameButTails(longer, front + [last])
    ensures Twins(plan, AttemptsAlways(cfg, s, longer), Attempts(cfg, s, front + [last]))
  {
    var t := AttemptTwins(cfg, plan, AttemptsAlways(cfg, s, ungated), Attempts(cfg, s, front), last);
    OneMoreAlways(cfg, s, ungated, t);
    assert (front + [last])[..|front|] == front;
    longer := ungated + [t];
  }

  lemma OneMoreAlways(cfg: Settings, s: State, front: seq<Trial>, last: Trial)
    ensures AttemptsAlways(cfg, s, front + [last]) == AttemptAlways(cfg, AttemptsAlways(cfg, s, front), last)
  {
    assert (front + [last])[..|front|] == front;
  }

  /** The gates change nothing. For every run of the runtime, refusals and lost tails included, the same
      calls under the same refusals without any gate, losing tails that leave the broker alike, end with
      the same broker and the same memory. */
  lemma GateIsTransparent(cfg: Settings, base: map<string, Payload>, views: seq<View>, trials: seq<Trial>)
    returns (ungated: seq<Trial>)
    requires (forall v | v in views :: v.drop.None?) && AllAgree(trials)
    ensures SameButTails(ungated, trials)
    ensures var u, g := AttemptsAlways(cfg, Start(base, [], views), ungated), Attempts(cfg, Start(base, [], views), trials);
            && Holds(u.net) == Holds(g.net) && SameMemos(u.memo, g.memo)
            && u.net.base == g.net.base && Thinned(Thinning.Kind.Writes, g.net.base, u.net.log, g.net.log)
  {
    var plan := PlanOf(trials);
    forall trial | trial in trials ensures Follows(plan, trial.call) {
      AgreeingFollows(trials, trial);
    }
    ungated := RunsAreTwins(cfg, plan, Start(base, [], views), trials);
    SameHolds(AttemptsAlways(cfg, Start(base, [], views), ungated).net, Attempts(cfg, Start(base, [], views), trials).net);
  }

  /** In particular over every run of Publish, Retract, Republish, sweeps and resets, with no condition on
      what is published. */
  lemma PublishGateIsTransparent(cfg: Settings, base: map<string, Payload>, views: seq<View>, trials: seq<Trial>)
    returns (ungated: seq<Trial>)
    requires (forall v | v in views :: v.drop.None?) && PublishesOnly(trials)
    ensures SameButTails(ungated, trials)
    ensures var u, g := AttemptsAlways(cfg, Start(base, [], views), ungated), Attempts(cfg, Start(base, [], views), trials);
            Holds(u.net) == Holds(g.net) && SameMemos(u.memo, g.memo)
  {
    PublishesAgree(trials);
    ungated := GateIsTransparent(cfg, base, views, trials);
  }

  // ----------------------------------------------- where the two part company

  /** Nothing the next sends meet fails. */
  predicate Accepting(n: Net) {
    n.script == [] && n.refused == {}
  }

  /** What a round leaves of the broker. */
  function Cleared(held: map<string, Payload>, topics: seq<string>, settled: set<string>): map<string, Payload> {
    map t | t in held && (t in topics ==> t in settled) :: held[t]
  }

  /** A round of retractions that cannot fail, from `s` to `after`. */
  ghost predicate RoundOver(s: State, after: State, topics: seq<string>) {
    && Accepting(after.net) && Current(after)
    && (forall t :: t in after.memo.superseded <==> t in s.memo.superseded || t in topics)
    && Holds(after.net) == Cleared(Holds(s.net), topics, s.memo.superseded)
  }

  lemma BlindOne(cfg: Settings, s: State, mid: State, front: seq<string>, t: string)
    requires RoundOver(s, mid, front)
    ensures var r := SupersedeOne(cfg, mid, None, t); r.1 && RoundOver(s, r.0, front + [t])
  {
    RetainedSnoc(mid.net.base, mid.net.log, Send(t, None));
    var held := Holds(s.net);
    assert Cleared(held, front + [t], s.memo.superseded)
        == if t in mid.memo.superseded then Cleared(held, front, s.memo.superseded)
           else Cleared(held, front, s.memo.superseded) - {t};
  }

  lemma {:induction false} BlindRound(cfg: Settings, s: State, topics: seq<string>)
    requires Accepting(s.net) && Current(s)
    ensures var r := SupersedeAll(cfg, s, None, topics); r.1 && RoundOver(s, r.0, topics)
  {
    if topics == [] {
      assert Cleared(Holds(s.net), [], s.memo.superseded) == Holds(s.net);
    } else {
      var front, t := topics[..|topics| - 1], topics[|topics| - 1];
      BlindRound(cfg, s, front);
      BlindOne(cfg, s, SupersedeAll(cfg, s, None, front).0, front, t);
      assert topics == front + [t];
    }
  }

  lemma WriteLands(s: State, topic: string, p: Payload)
    requires Accepting(s.net) && Current(s) && topic != ""
    ensures Holds(PublishAlways(s, topic, Some(p)).0.net) == Holds(s.net)[topic := p]
  {
    RetainedSnoc(s.net.base, s.net.log, Send(topic, Some(p)));
  }

  lemma DocumentAlways(prefix: string, s: State, topic: string, doc: Payload, withheld: seq<string>)
    requires Accepting(s.net) && topic != ""
    ensures Holds(BundleAlways(Settings(prefix, false), s, topic, doc, withheld).0.net)
            == Cleared(Holds(s.net), doc.clears, Checked(s).memo.superseded)[topic := doc]
  {
    var cfg := Settings(prefix, false);
    var k := s.(memo := Keep(Checked(s).memo, topic, withheld));
    BlindRound(cfg, k, doc.clears);
    var mid := SupersedeAll(cfg, k, None, doc.clears).0;
    assert RetainedConfigs(cfg, k, doc.clears) == (k, None);
    assert Supersede(cfg, k, doc.clears) == (mid, true);
    WriteLands(mid, topic, doc);
    assert BundleAlways(cfg, s, topic, doc, withheld) == PublishAlways(mid, topic, Some(doc));
    assert k.memo.superseded == Checked(s).memo.superseded;
  }

  /** A document the gate spares skips its supersede round as well. The two runtimes agree on it if and
      only if each topic it supersedes is settled on this connection or not retained. */
  lemma SparedDocumentAgreesIff(prefix: string, s: State, topic: string, doc: Payload, withheld: seq<string>)
    requires Accepting(s.net) && topic != "" && topic !in doc.clears
    requires Gated(Checked(s).memo, topic, Some(doc)) && topic in Holds(s.net) && Holds(s.net)[topic] == doc
    ensures var cfg := Settings(prefix, false);
            Holds(BundleAlways(cfg, s, topic, doc, withheld).0.net) == Holds(PublishBundle(cfg, s, topic, doc, withheld).0.net)
            <==> forall c | c in doc.clears && c in Holds(s.net) :: c in Checked(s).memo.superseded
  {
    DocumentAlways(prefix, s, topic, doc, withheld);
    var held := Holds(s.net);
    var left := Cleared(held, doc.clears, Checked(s).memo.superseded);
    if c :| c in doc.clears && c in held && c !in Checked(s).memo.superseded {
      assert c !in left[topic := doc];
    } else {
      assert left == held;
    }
  }

  const DOCUMENT := Payload("{}", ["entity"])

  /** Bytes published plainly and then as a document: the gate leaves the other form standing. */
  lemma GateSkipsARound(prefix: string, base: map<string, Payload>, withheld: seq<string>)
    requires "entity" in base
    ensures var cfg := Settings(prefix, false);
            var s := Step(cfg, Start(base, [], []), Plain("device", Some(DOCUMENT)));
            && "entity" in Holds(Step(cfg, s, Bundle("device", DOCUMENT, withheld)).net)
            && "entity" !in Holds(StepAlways(cfg, s, Bundle("device", DOCUMENT, withheld)).net)
  {
    var cfg := Settings(prefix, false);
    var s := Step(cfg, Start(base, [], []), Plain("device", Some(DOCUMENT)));
    RetainedSnoc(base, [], Send("device", Some(DOCUMENT)));
    DocumentAlways(prefix, s, "device", DOCUMENT, withheld);
    assert "entity" in DOCUMENT.clears;
  }

  lemma AckIsLost(s: State, topic: string, p: Payload)
    requires topic != "" && Current(s) && !Gated(s.memo, topic, Some(p))
    requires s.net.script == [Outcome(None, true, false)] && s.net.refused == {}
    ensures var r := Publish(s, topic, Some(p)).0;
            && r.memo == Withdrawn(Announced(s.memo, topic), topic) && Current(r) && Accepting(r.net)
            && Holds(r.net) == Holds(s.net)[topic := p]
  {
    RetainedSnoc(s.net.base, s.net.log, Send(topic, Some(p)));
  }

  /** A write the broker took without acknowledging it: the gate still acts on the bytes before it, so the
      next write lands if and only if it is not those bytes. Without the gate it always does. */
  lemma GateTrustsALostAck(cfg: Settings, s: State, topic: string, a: Payload, b: Payload, p: Payload)
    requires topic != "" && a.bytes != b.bytes
    requires Current(s) && topic in s.memo.declared && s.memo.declared[topic] == Cached(a, true)
    requires s.net.script == [Outcome(None, true, false)] && s.net.refused == {}
    ensures var mid := Step(cfg, s, Plain(topic, Some(b)));
            var gated, ungated := Holds(Step(cfg, mid, Plain(topic, Some(p))).net), Holds(StepAlways(cfg, mid, Plain(topic, Some(p))).net);
            && ungated == Holds(s.net)[topic := p]
            && gated == Holds(s.net)[topic := if p.bytes == a.bytes then b else p]
            && (gated == ungated <==> p.bytes != a.bytes)
  {
    AckIsLost(s, topic, b);
    var mid := Publish(s, topic, Some(b)).0;
    assert Gated(mid.memo, topic, Some(p)) <==> p.bytes == a.bytes;
    WriteLands(mid, topic, p);
    assert Holds(s.net)[topic := b][topic := p] == Holds(s.net)[topic := p];
    assert Publish(mid, topic, Some(p)).0.net == if p.bytes == a.bytes then mid.net else PublishAlways(mid, topic, Some(p)).0.net;
    var held := Holds(s.net);
    assert held[topic := b][topic] == b && held[topic := p][topic] == p;
  }
}
