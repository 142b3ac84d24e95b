/** The discovery runtime: what it remembers about the broker and how each call changes that. */
module Runtime {
  import opened Text
  import opened Wire
  import ConfigTopics

  /** A payload the broker accepted, and whether the dedup gate may act on it. */
  datatype Cached = Cached(payload: Payload, gated: bool)

  /** Everything a Runtime remembers. `observed` is this connection's snapshot, once taken. */
  datatype Memo = Memo(declared: map<string, Cached>, announced: set<string>, superseded: set<string>,
                       observed: Option<set<string>>, epoch: nat, claimed: set<string>,
                       kept: map<string, seq<string>>, keptCount: map<string, nat>, gen: nat, genSeen: bool)

  const BLANK := Memo(map[], {}, {}, None, 0, {}, map[], map[], 0, false)

  datatype Settings = Settings(prefix: string, supersedeObserved: bool)

  /** What a call reports: whether it wrote, and whether it failed. */
  datatype Report = Wrote | Unchanged | Failed

  datatype State = State(memo: Memo, net: Net)

  function Ungate(declared: map<string, Cached>): map<string, Cached> {
    map t | t in declared :: declared[t].(gated := false)
  }

  /** resetLocked: forget what described the old connection, keep what a replay needs. */
  function Reset(m: Memo): Memo {
    m.(declared := Ungate(m.declared), superseded := {}, observed := None, epoch := m.epoch + 1)
  }

  /** checkGeneration. */
  function CheckGeneration(m: Memo, conn: nat): Memo {
    if !m.genSeen then m.(gen := conn, genSeen := true)
    else if m.gen == conn then m
    else Reset(m).(gen := conn)
  }

  /** The dedup gate: the broker is believed to hold exactly these bytes. */
  predicate Gated(m: Memo, topic: string, payload: Option<Payload>) {
    && topic in m.declared
    && m.declared[topic].gated
    && payload.Some?
    && m.declared[topic].payload.bytes == payload.value.bytes
  }

  /** Publish. */
  function Publish(s: State, topic: string, payload: Option<Payload>): (State, Report) {
    if topic == "" then (s, Failed)
    else
      var m := CheckGeneration(s.memo, s.net.conn);
      if Gated(m, topic, payload) || (payload.None? && topic !in m.declared) then (s.(memo := m), Unchanged)
      else SendOut(s.(memo := m), topic, payload)
  }

  /** The rest of Publish, once nothing stands in its way. */
  function SendOut(s: State, topic: string, payload: Option<Payload>): (State, Report) {
    var r := Transmit(s.net, Send(topic, payload));
    match payload
    case None => (State(if r.1 then Forgotten(s.memo, topic) else s.memo, r.0), if r.1 then Wrote else Failed)
    case Some(p) =>
      var mid := Announced(s.memo, topic);
      (State(if r.1 then Recorded(mid, topic, p) else Withdrawn(mid, topic), r.0), if r.1 then Wrote else Failed)
  }

  /** A publish claims its topic before it is sent. */
  function Announced(m: Memo, topic: string): Memo {
    m.(announced := m.announced + {topic})
  }

  /** An acknowledged publish: what the broker accepted. */
  function Recorded(m: Memo, topic: string, payload: Payload): Memo {
    m.(declared := m.declared[topic := Cached(payload, true)], claimed := m.claimed + {topic})
  }

  /** A refused publish gives its claim up again. */
  function Withdrawn(m: Memo, topic: string): Memo {
    m.(announced := m.announced - {topic})
  }

  /** What an acknowledged retraction leaves behind. */
  function Forgotten(m: Memo, topic: string): Memo {
    m.(declared := m.declared - {topic}, announced := m.announced - {topic})
  }

  /** The config topics of the tree a complete snapshot sees. */
  function ConfigTopicsHeld(prefix: string, held: map<string, Payload>): set<string> {
    set t | t in held && ConfigTopics.Parse(prefix, t).Some?
  }

  predicate AnyPending(m: Memo, topics: seq<string>) {
    exists t | t in topics :: t !in m.superseded
  }

  /** retainedConfigs: None stands for "unknown, retract everything". */
  function RetainedConfigs(cfg: Settings, s: State, topics: seq<string>): (State, Option<set<string>>) {
    if !cfg.supersedeObserved || !AnyPending(s.memo, topics) then (s, None)
    else if s.memo.observed.Some? then (s, s.memo.observed)
    else
      var r := Look(s.net, ConfigTopicsHeld(cfg.prefix, Holds(s.net)));
      (State(if r.1.Some? then s.memo.(observed := r.1) else s.memo, r.0), r.1)
  }

  /** A topic the snapshot shows empty is settled without a message. */
  predicate KnownEmpty(cfg: Settings, m: Memo, held: Option<set<string>>, topic: string) {
    && held.Some?
    && topic !in held.value
    && topic !in m.declared
    && ConfigTopics.TopicPrefix(cfg.prefix) <= topic
  }

  function SupersedeOne(cfg: Settings, s: State, held: Option<set<string>>, topic: string): (State, bool) {
    if topic in s.memo.superseded then (s, true)
    else if KnownEmpty(cfg, s.memo, held, topic) then
      (s.(memo := s.memo.(superseded := s.memo.superseded + {topic})), true)
    else
      var r := Transmit(s.net, Send(topic, None));
      if !r.1 then (s.(net := r.0), false)
      else (State(Forgotten(s.memo, topic).(superseded := s.memo.superseded + {topic}), r.0), true)
  }

  /** supersede's loop, from the first topic to the first failure. */
  function SupersedeAll(cfg: Settings, s: State, held: Option<set<string>>, topics: seq<string>): (State, bool) {
    if topics == [] then (s, true)
    else
      var front := SupersedeAll(cfg, s, held, topics[..|topics| - 1]);
      if !front.1 then front else SupersedeOne(cfg, front.0, held, topics[|topics| - 1])
  }

  /** supersede: clears the topics of the other discovery form, once each per connection. */
  function Supersede(cfg: Settings, s: State, topics: seq<string>): (State, bool) {
    var r := RetainedConfigs(cfg, s, topics);
    SupersedeAll(cfg, r.0, r.1, topics)
  }

  // ------------------------------------------------------------ keep counts

  function Count(counts: map<string, nat>, t: string): nat {
    if t in counts then counts[t] else 0
  }

  function Decrement(counts: map<string, nat>, t: string): map<string, nat> {
    if Count(counts, t) <= 1 then counts - {t} else counts[t := counts[t] - 1]
  }

  function DecrementAll(counts: map<string, nat>, ts: seq<string>): map<string, nat> {
    if ts == [] then counts else Decrement(DecrementAll(counts, ts[..|ts| - 1]), ts[|ts| - 1])
  }

  function IncrementAll(counts: map<string, nat>, ts: seq<string>): map<string, nat> {
    if ts == [] then counts
    else
      var before := IncrementAll(counts, ts[..|ts| - 1]);
      before[ts[|ts| - 1] := Count(before, ts[|ts| - 1]) + 1]
  }

  /** keep: replaces what the previous publish of this document kept. */
  function Keep(m: Memo, bundleTopic: string, topics: seq<string>): Memo {
    var dropped := DecrementAll(m.keptCount, if bundleTopic in m.kept then m.kept[bundleTopic] else []);
    if topics == [] then m.(kept := m.kept - {bundleTopic}, keptCount := dropped)
    else m.(kept := m.kept[bundleTopic := topics], keptCount := IncrementAll(dropped, topics))
  }

  // ------------------------------------------------------------------ calls

  /** PublishBundle, once the document is rendered; `withheld` are the topics it keeps. */
  function PublishBundle(cfg: Settings, s: State, topic: string, doc: Payload, withheld: seq<string>): (State, Report) {
    var m := Keep(CheckGeneration(s.memo, s.net.conn), topic, withheld);
    if Gated(m, topic, Some(doc)) then (s.(memo := m), Unchanged)
    else
      var r := Supersede(cfg, s.(memo := m), doc.clears);
      if !r.1 then (r.0, Failed) else Publish(r.0, topic, Some(doc))
  }

  /** PublishComponent: the same in the other direction. */
  function PublishComponent(cfg: Settings, s: State, topic: string, config: Payload, bundleTopic: string): (State, Report) {
    var m := CheckGeneration(s.memo, s.net.conn);
    if Gated(m, topic, Some(config)) then (s.(memo := m), Unchanged)
    else
      var r := Supersede(cfg, s.(memo := m), [bundleTopic]);
      if !r.1 then (r.0, Failed) else Publish(r.0, topic, Some(config))
  }

  /** Retract: best-effort over the list. */
  function Retract(s: State, topics: seq<string>): State {
    if topics == [] then s
    else
      RetractOne(Retract(s, topics[..|topics| - 1]), topics[|topics| - 1]).0
  }

  function RetractOne(s: State, t: string): (State, bool) {
    var r := Transmit(s.net, Send(t, None));
    (State(if r.1 then Forgotten(s.memo, t) else s.memo, r.0), r.1)
  }

  /** Republish's loop over the declared topics. */
  function ReplayAll(declared: map<string, Cached>, n: Net, topics: seq<string>): (Net, nat)
    requires forall t | t in topics :: t in declared
  {
    if topics == [] then (n, 0)
    else
      ReplayOne(ReplayAll(declared, n, topics[..|topics| - 1]), topics[|topics| - 1], declared[topics[|topics| - 1]].payload)
  }

  /** One more cached payload, counted if it is acknowledged. */
  function ReplayOne(before: (Net, nat), t: string, payload: Payload): (Net, nat) {
    var r := Transmit(before.0, Send(t, Some(payload)));
    (r.0, if r.1 then before.1 + 1 else before.1)
  }

  /** Republish. */
  function Republish(s: State, topics: seq<string>): (State, nat)
    requires forall t | t in topics :: t in s.memo.declared
  {
    var m := CheckGeneration(s.memo, s.net.conn);
    var r := ReplayAll(m.declared, s.net, topics);
    (State(m, r.0), r.1)
  }

  /** Nothing would go out: on this connection the topic last took these very bytes, or there is nothing
      declared to retract. */
  predicate Spared(s: State, topic: string, payload: Option<Payload>) {
    match payload
    case None => topic !in s.memo.declared
    case Some(p) =>
      && topic in s.memo.declared && s.memo.declared[topic].gated && s.memo.declared[topic].payload.bytes == p.bytes
      && (s.memo.genSeen ==> s.memo.gen == s.net.conn)
  }

  /** What superseding does to the memos: it settles topics, and of what is declared drops at most those. */
  ghost predicate OnlySettles(s: State, after: State, topics: seq<string>, ok: bool) {
    && (forall t | t in s.memo.superseded :: t in after.memo.superseded)
    && (forall t | t in after.memo.superseded :: t in s.memo.superseded || t in topics)
    && (ok ==> forall t | t in topics :: t in after.memo.superseded)
    && (forall t | t in after.memo.declared :: t in s.memo.declared && after.memo.declared[t] == s.memo.declared[t])
    && (forall t | t in s.memo.declared && t !in after.memo.declared :: t in topics && t !in s.memo.superseded)
    && after.memo.claimed == s.memo.claimed && after.memo.kept == s.memo.kept && after.memo.keptCount == s.memo.keptCount
    && after.memo.gen == s.memo.gen && after.memo.genSeen == s.memo.genSeen
  }

  lemma {:induction false} SupersedeAllEffects(cfg: Settings, s: State, held: Option<set<string>>, topics: seq<string>)
    ensures var r := SupersedeAll(cfg, s, held, topics);
            && OnlySettles(s, r.0, topics, r.1)
            && ((forall t | t in topics :: t in s.memo.superseded) ==> r == (s, true))
  {
    if topics != [] {
      var front, last := topics[..|topics| - 1], topics[|topics| - 1];
      assert topics == front + [last];
      SupersedeAllEffects(cfg, s, held, front);
      var mid := SupersedeAll(cfg, s, held, front);
      if mid.1 {
        SupersedeOneEffects(cfg, mid.0, held, last);
        SettlesThen(s, mid.0, SupersedeOne(cfg, mid.0, held, last).0, front, last, SupersedeOne(cfg, mid.0, held, last).1);
      }
    }
  }

  lemma SupersedeOneEffects(cfg: Settings, s: State, held: Option<set<string>>, t: string)
    ensures var r := SupersedeOne(cfg, s, held, t);
            OnlySettles(s, r.0, [t], r.1) && (t in s.memo.superseded ==> r == (s, true))
  {
  }

  lemma SettlesThen(s: State, mid: State, after: State, front: seq<string>, last: string, ok: bool)
    requires OnlySettles(s, mid, front, true) && OnlySettles(mid, after, [last], ok)
    ensures OnlySettles(s, after, front + [last], ok)
  {
  }

  lemma SupersedeEffects(cfg: Settings, s: State, topics: seq<string>)
    ensures var r := Supersede(cfg, s, topics);
            && OnlySettles(s, r.0, topics, r.1)
            && ((forall t | t in topics :: t in s.memo.superseded) ==> r == (s, true))
  {
    var look := RetainedConfigs(cfg, s, topics);
    SupersedeAllEffects(cfg, look.0, look.1, topics);
  }

  /** What a write reports and records. */
  lemma PublishEffects(s: State, topic: string, p: Payload)
    ensures var r := Publish(s, topic, Some(p));
            && (r.1 == Unchanged <==> topic != "" && Spared(s, topic, Some(p)))
            && (r.1 == Unchanged ==> r.0.net == s.net)
            && (r.1 == Wrote ==>
                  && topic in r.0.memo.declared && r.0.memo.declared[topic] == Cached(p, true)
                  && topic in r.0.memo.announced && topic in r.0.memo.claimed)
            && r.0.memo.kept == s.memo.kept
  {
  }

  lemma DocumentEffects(cfg: Settings, s: State, topic: string, doc: Payload, withheld: seq<string>)
    ensures var r := PublishBundle(cfg, s, topic, doc, withheld);
            && (r.1 == Unchanged <==> Spared(s, topic, Some(doc)))
            && (r.1 == Unchanged ==> r.0.net == s.net)
            && (r.1 == Wrote ==>
                  && topic in r.0.memo.declared && r.0.memo.declared[topic] == Cached(doc, true)
                  && topic in r.0.memo.announced && topic in r.0.memo.claimed)
            && r.0.memo.kept == if withheld == [] then s.memo.kept - {topic} else s.memo.kept[topic := withheld]
  {
    var k := s.(memo := Keep(CheckGeneration(s.memo, s.net.conn), topic, withheld));
    KeptMemo(CheckGeneration(s.memo, s.net.conn), topic, withheld);
    RoundEffects(cfg, k, doc.clears, topic, doc);
  }

  lemma KeptMemo(m: Memo, topic: string, withheld: seq<string>)
    ensures var k := Keep(m, topic, withheld);
            && k == m.(kept := k.kept, keptCount := k.keptCount)
            && k.kept == if withheld == [] then m.kept - {topic} else m.kept[topic := withheld]
  {
  }

  /** A round and the write after it, of a topic the gate does not spare. */
  lemma RoundEffects(cfg: Settings, k: State, topics: seq<string>, topic: string, p: Payload)
    requires k.memo.genSeen && k.memo.gen == k.net.conn
    ensures var sup := Supersede(cfg, k, topics);
            var r := if sup.1 then Publish(sup.0, topic, Some(p)) else (sup.0, Failed);
            && (!Spared(k, topic, Some(p)) ==> r.1 != Unchanged)
            && (r.1 == Wrote ==>
                  && topic in r.0.memo.declared && r.0.memo.declared[topic] == Cached(p, true)
                  && topic in r.0.memo.announced && topic in r.0.memo.claimed)
            && r.0.memo.kept == k.memo.kept
  {
    SupersedeEffects(cfg, k, topics);
    PublishEffects(Supersede(cfg, k, topics).0, topic, p);
  }

  lemma EntityEffects(cfg: Settings, s: State, topic: string, config: Payload, bundleTopic: string)
    ensures var r := PublishComponent(cfg, s, topic, config, bundleTopic);
            && (r.1 == Unchanged <==> Spared(s, topic, Some(config)))
            && (r.1 == Unchanged ==> r.0.net == s.net)
            && (r.1 == Wrote ==>
                  && topic in r.0.memo.declared && r.0.memo.declared[topic] == Cached(config, true)
                  && topic in r.0.memo.announced && topic in r.0.memo.claimed)
            && r.0.memo.kept == s.memo.kept
  {
    RoundEffects(cfg, s.(memo := CheckGeneration(s.memo, s.net.conn)), [bundleTopic], topic, config);
  }

  class DiscoveryRuntime {
    const tr: Transport
    const cfg: Settings

    var declared: map<string, Cached>
    var announced: set<string>
    var superseded: set<string>
    var observed: Option<set<string>>
    var epoch: nat
    var claimed: set<string>
    var kept: map<string, seq<string>>
    var keptCount: map<string, nat>
    var gen: nat
    var genSeen: bool

    ghost function Memory(): Memo
      reads this
    {
      Memo(declared, announced, superseded, observed, epoch, claimed, kept, keptCount, gen, genSeen)
    }

    ghost function Now(): State
      reads this, tr
    {
      State(Memory(), tr.net)
    }

    constructor (tr: Transport, cfg: Settings)
      ensures this.tr == tr && this.cfg == cfg && Memory() == BLANK
    {
      this.tr, this.cfg := tr, cfg;
      declared, announced, superseded, observed, epoch := map[], {}, {}, None, 0;
      claimed, kept, keptCount, gen, genSeen := {}, map[], map[], 0, false;
    }

    method ResetMemos()
      modifies this
      ensures Memory() == Reset(old(Memory()))
      ensures declared.Keys == old(declared).Keys && superseded == {} && observed == None && epoch == old(epoch) + 1
      ensures forall t | t in declared :: declared[t] == Cached(old(declared)[t].payload, false)
      ensures announced == old(announced) && claimed == old(claimed) && kept == old(kept) && keptCount == old(keptCount)
    {
      declared := Ungate(declared);
      superseded := {};
      observed := None;
      epoch := epoch + 1;
    }

    method CheckConnection()
      modifies this
      ensures Memory() == CheckGeneration(old(Memory()), tr.net.conn)
      ensures genSeen && gen == tr.net.conn
      ensures !old(genSeen) || old(gen) == tr.net.conn ==>
                declared == old(declared) && superseded == old(superseded) && observed == old(observed)
      ensures old(genSeen) && old(gen) != tr.net.conn ==>
                && superseded == {} && observed == None && declared.Keys == old(declared).Keys
                && forall t | t in declared :: declared[t] == Cached(old(declared)[t].payload, false)
      ensures announced == old(announced) && claimed == old(claimed) && kept == old(kept) && keptCount == old(keptCount)
    {
      var current := tr.net.conn;
      if !genSeen {
        gen, genSeen := current, true;
        return;
      }
      if gen == current {
        return;
      }
      gen := current;
      ResetMemos();
    }

    predicate Spares(topic: string, payload: Option<Payload>)
      reads this, tr
    {
      Spared(State(Memo(declared, announced, superseded, observed, epoch, claimed, kept, keptCount, gen, genSeen), tr.net),
             topic, payload)
    }

    method PublishConfig(topic: string, payload: Option<Payload>) returns (report: Report)
      modifies this, tr
      ensures (Now(), report) == Publish(old(Now()), topic, payload)
      ensures report == Unchanged <==> topic != "" && old(Spares(topic, payload))
      ensures topic == "" || old(Spares(topic, payload)) ==> tr.net == old(tr.net)
      ensures topic != "" && !old(Spares(topic, payload)) ==>
                (tr.net, report) == (Transmit(old(tr.net), Send(topic, payload)).0,
                                     if Transmit(old(tr.net), Send(topic, payload)).1 then Wrote else Failed)
      ensures report == Wrote && payload.Some? ==>
                topic in declared && declared[topic] == Cached(payload.value, true) && topic in announced && topic in claimed
      ensures report == Wrote && payload.None? ==> topic !in declared && topic !in announced
      ensures topic != "" && report == Failed && payload.Some? ==>
                topic !in announced && (topic in declared <==> topic in old(declared))
      ensures forall t | t != topic ::
                && (t in declared <==> t in old(declared)) && (t in declared ==> declared[t].payload == old(declared)[t].payload)
                && (t in announced <==> t in old(announced)) && (t in claimed <==> t in old(claimed))
    {
      if topic == "" {
        return Failed;
      }
      CheckConnection();
      if topic in declared && declared[topic].gated && payload.Some?
         && declared[topic].payload.bytes == payload.value.bytes {
        return Unchanged;
      }
      if payload.None? && topic !in declared {
        return Unchanged;
      }
      if payload.Some? {
        announced := announced + {topic};
      }
      var ok := SendClaimed(topic, payload);
      if !ok {
        if payload.Some? {
          announced := announced - {topic};
          assert announced == old(announced) - {topic};
        }
        return Failed;
      }
      if payload.None? {
        declared := declared - {topic};
        announced := announced - {topic};
      } else {
        declared := declared[topic := Cached(payload.value, true)];
        claimed := claimed + {topic};
      }
      return Wrote;
    }

    /** Where a publish goes out: a config is claimed by then, so that a pass beside this call spares it. */
    method SendClaimed(topic: string, payload: Option<Payload>) returns (ok: bool)
      requires payload.Some? ==> topic in announced
      modifies tr
      ensures (tr.net, ok) == Transmit(old(tr.net), Send(topic, payload))
    {
      ok := tr.Publish(topic, payload);
    }

    method LookAtRetained(topics: seq<string>) returns (held: Option<set<string>>)
      modifies this, tr
      ensures (Now(), held) == RetainedConfigs(cfg, old(Now()), topics)
      ensures !cfg.supersedeObserved || (forall t | t in topics :: t in superseded) ==> held == None && Now() == old(Now())
      ensures cfg.supersedeObserved && (exists t | t in topics :: t !in superseded) && old(observed).Some? ==>
                held == old(observed) && Now() == old(Now())
      ensures cfg.supersedeObserved && (exists t | t in topics :: t !in superseded) && old(observed).None? ==>
                && (tr.net, held) == Look(old(tr.net), ConfigTopicsHeld(cfg.prefix, old(Holds(tr.net))))
                && observed == held && declared == old(declared) && superseded == old(superseded)
    {
      if !cfg.supersedeObserved {
        return None;
      }
      if forall t | t in topics :: t in superseded {
        return None;
      }
      if observed.Some? {
        return observed;
      }
      var before := epoch;
      held := tr.Snapshot(ConfigTopicsHeld(cfg.prefix, Holds(tr.net)));
      if held.Some? && epoch == before {
        observed := held;
      }
    }

    method SupersedeForm(topics: seq<string>) returns (ok: bool)
      modifies this, tr
      ensures (Now(), ok) == Supersede(cfg, old(Now()), topics)
      ensures forall t :: t in old(superseded) ==> t in superseded
      ensures forall t | t in superseded :: t in old(superseded) || t in topics
      ensures ok ==> forall t | t in topics :: t in superseded
      ensures (forall t | t in topics :: t in old(superseded)) ==> ok && tr.net == old(tr.net)
      ensures forall t | t in declared :: t in old(declared) && declared[t] == old(declared)[t]
      ensures forall t | t in old(declared) && t !in declared :: t in topics && t !in old(superseded)
      ensures claimed == old(claimed) && kept == old(kept) && keptCount == old(keptCount)
    {
      SupersedeEffects(cfg, Now(), topics);
      ok := SupersedeRound(topics);
    }

    method SupersedeRound(topics: seq<string>) returns (ok: bool)
      modifies this, tr
      ensures (Now(), ok) == Supersede(cfg, old(Now()), topics)
    {
      var held := LookAtRetained(topics);
      ghost var start := Now();
      for i := 0 to |topics|
        invariant (Now(), true) == SupersedeAll(cfg, start, held, topics[..i])
      {
        assert topics[..i + 1][..i] == topics[..i];
        ok := SettleOne(held, topics[i]);
        if !ok {
          SupersedeStops(cfg, start, held, topics, i + 1);
          return;
        }
      }
      assert topics[..|topics|] == topics;
      return true;
    }

    /** One turn of the loop: settled already, known to be empty, or retracted. */
    method SettleOne(held: Option<set<string>>, t: string) returns (ok: bool)
      modifies this, tr
      ensures (Now(), ok) == SupersedeOne(cfg, old(Now()), held, t)
    {
      if t in superseded {
        return true;
      }
      if held.Some? && t !in held.value && t !in declared && ConfigTopics.TopicPrefix(cfg.prefix) <= t {
        superseded := superseded + {t};
        return true;
      }
      ok := tr.Publish(t, None);
      if ok {
        superseded := superseded + {t};
        declared := declared - {t};
        announced := announced - {t};
      }
    }

    method KeepTopics(bundleTopic: string, topics: seq<string>)
      modifies this
      ensures Memory() == Keep(old(Memory()), bundleTopic, topics)
      ensures kept == if topics == [] then old(kept) - {bundleTopic} else old(kept)[bundleTopic := topics]
      ensures declared == old(declared) && announced == old(announced) && superseded == old(superseded) && claimed == old(claimed)
    {
      var previous := if bundleTopic in kept then kept[bundleTopic] else [];
      ghost var counts := keptCount;
      for i := 0 to |previous|
        invariant keptCount == DecrementAll(counts, previous[..i])
        invariant Memory() == old(Memory()).(keptCount := keptCount)
      {
        assert previous[..i + 1][..i] == previous[..i];
        keptCount := Decrement(keptCount, previous[i]);
      }
      assert previous[..|previous|] == previous;
      if topics == [] {
        kept := kept - {bundleTopic};
        return;
      }
      kept := kept[bundleTopic := topics];
      counts := keptCount;
      for i := 0 to |topics|
        invariant keptCount == IncrementAll(counts, topics[..i])
        invariant Memory() == old(Memory()).(kept := kept, keptCount := keptCount)
        invariant kept == old(kept)[bundleTopic := topics]
      {
        assert topics[..i + 1][..i] == topics[..i];
        keptCount := keptCount[topics[i] := Count(keptCount, topics[i]) + 1];
      }
      assert topics[..|topics|] == topics;
    }

    method PublishDocument(topic: string, doc: Payload, withheld: seq<string>) returns (report: Report)
      modifies this, tr
      ensures (Now(), report) == PublishBundle(cfg, old(Now()), topic, doc, withheld)
      ensures kept == if withheld == [] then old(kept) - {topic} else old(kept)[topic := withheld]
      ensures report == Unchanged <==> old(Spares(topic, Some(doc)))
      ensures report == Unchanged ==> tr.net == old(tr.net)
      ensures report == Wrote ==> topic in declared && declared[topic] == Cached(doc, true) && topic in announced && topic in claimed
    {
      DocumentEffects(cfg, Now(), topic, doc, withheld);
      CheckConnection();
      KeepTopics(topic, withheld);
      if topic in declared && declared[topic].gated && declared[topic].payload.bytes == doc.bytes {
        return Unchanged;
      }
      var ok := SupersedeForm(doc.clears);
      if !ok {
        return Failed;
      }
      report := PublishConfig(topic, Some(doc));
    }

    method PublishEntity(topic: string, config: Payload, bundleTopic: string) returns (report: Report)
      modifies this, tr
      ensures (Now(), report) == PublishComponent(cfg, old(Now()), topic, config, bundleTopic)
      ensures report == Unchanged <==> old(Spares(topic, Some(config)))
      ensures report == Unchanged ==> tr.net == old(tr.net)
      ensures report == Wrote ==> topic in declared && declared[topic] == Cached(config, true) && topic in announced && topic in claimed
    {
      EntityEffects(cfg, Now(), topic, config, bundleTopic);
      CheckConnection();
      if topic in declared && declared[topic].gated && declared[topic].payload.bytes == config.bytes {
        return Unchanged;
      }
      var ok := SupersedeForm([bundleTopic]);
      if !ok {
        return Failed;
      }
      report := PublishConfig(topic, Some(config));
    }

    /** `reached` is how far the walk got before its context ended. */
    method RetractConfigs(topics: seq<string>, reached: nat) returns (refused: seq<string>)
      requires reached <= |topics|
      modifies this, tr
      ensures Now() == Retract(old(Now()), topics[..reached])
      ensures forall t | t in topics[..reached] && t !in refused :: t !in declared && t !in announced
      ensures forall t | t in refused :: t in topics[..reached]
      ensures old(tr.net.script) == [] ==>
                forall t | t in topics[..reached] :: t in refused <==> t in old(tr.net.refused)
      ensures forall t | t !in topics[..reached] ::
                && (t in declared <==> t in old(declared)) && (t in declared ==> declared[t] == old(declared)[t])
                && (t in announced <==> t in old(announced))
    {
      ghost var start := Now();
      refused := [];
      for i := 0 to reached
        invariant Now() == Retract(start, topics[..i])
        invariant forall t | t in topics[..i] && t !in refused :: t !in declared && t !in announced
        invariant forall t | t in refused :: t in topics[..i]
        invariant old(tr.net.script) == [] ==>
                    && tr.net.script == [] && tr.net.refused == old(tr.net.refused)
                    && forall t | t in topics[..i] :: t in refused <==> t in old(tr.net.refused)
        invariant forall t | t !in topics[..i] ::
                    && (t in declared <==> t in old(declared)) && (t in declared ==> declared[t] == old(declared)[t])
                    && (t in announced <==> t in old(announced))
      {
        assert topics[..i + 1] == topics[..i] + [topics[i]];
        var ok := RetractConfig(topics[i]);
        if !ok {
          refused := refused + [topics[i]];
        }
      }
    }

    method RetractConfig(t: string) returns (ok: bool)
      modifies this, tr
      ensures (Now(), ok) == RetractOne(old(Now()), t)
      ensures (tr.net, ok) == Transmit(old(tr.net), Send(t, None))
      ensures declared == if ok then old(declared) - {t} else old(declared)
      ensures announced == if ok then old(announced) - {t} else old(announced)
      ensures superseded == old(superseded) && claimed == old(claimed) && kept == old(kept) && keptCount == old(keptCount)
    {
      ok := tr.Publish(t, None);
      if ok {
        declared := declared - {t};
        announced := announced - {t};
      }
    }

    /** `order` is the declared topics, sorted; the walk may be cut short after `reached`. */
    method RepublishConfigs(order: seq<string>, reached: nat) returns (sent: nat)
      requires reached <= |order|
      requires forall t | t in order :: t in declared
      modifies this, tr
      ensures (Now(), sent) == Republish(old(Now()), order[..reached])
      ensures declared.Keys == old(declared).Keys && forall t | t in declared :: declared[t].payload == old(declared)[t].payload
      ensures old(tr.net.script) == [] ==> sent == |Unrefused(order[..reached], old(tr.net.refused))|
    {
      CheckConnection();
      sent := Replay(order[..reached]);
      if old(tr.net.script) == [] {
        ReplayCounts(declared, old(tr.net), order[..reached]);
      }
    }

    method Replay(topics: seq<string>) returns (sent: nat)
      requires forall t | t in topics :: t in declared
      modifies tr
      ensures (tr.net, sent) == ReplayAll(declared, old(tr.net), topics)
    {
      ghost var start := tr.net;
      sent := 0;
      for i := 0 to |topics|
        invariant tr.net == ReplayAll(declared, start, topics[..i]).0
        invariant sent == ReplayAll(declared, start, topics[..i]).1
      {
        ReplayOneMore(declared, start, topics[..i], topics[i]);
        assert topics[..i] + [topics[i]] == topics[..i + 1];
        var ok := tr.Publish(topics[i], Some(declared[topics[i]].payload));
        if ok {
          sent := sent + 1;
        }
      }
      assert topics[..|topics|] == topics;
    }
  }

  lemma ReplayOneMore(declared: map<string, Cached>, n: Net, front: seq<string>, last: string)
    requires last in declared && forall t | t in front :: t in declared
    ensures ReplayAll(declared, n, front + [last]) == ReplayOne(ReplayAll(declared, n, front), last, declared[last].payload)
  {
    var all := front + [last];
    assert all[..|all| - 1] == front && all[|all| - 1] == last;
  }

  /** The topics of a list that the broker does not refuse. */
  function Unrefused(topics: seq<string>, refused: set<string>): seq<string> {
    if topics == [] then []
    else Unrefused(topics[..|topics| - 1], refused) + if topics[|topics| - 1] in refused then [] else [topics[|topics| - 1]]
  }

  lemma {:induction false} ReplayCounts(declared: map<string, Cached>, n: Net, topics: seq<string>)
    requires n.script == [] && forall t | t in topics :: t in declared
    ensures var r := ReplayAll(declared, n, topics);
            r.0.script == [] && r.0.refused == n.refused && r.1 == |Unrefused(topics, n.refused)|
  {
    if topics != [] {
      ReplayCounts(declared, n, topics[..|topics| - 1]);
    }
  }

  /** The first failure ends the loop: later topics change nothing. */
  lemma {:induction false} SupersedeStops(cfg: Settings, s: State, held: Option<set<string>>, topics: seq<string>, n: nat)
    requires n <= |topics| && !SupersedeAll(cfg, s, held, topics[..n]).1
    ensures SupersedeAll(cfg, s, held, topics) == SupersedeAll(cfg, s, held, topics[..n])
    decreases |topics|
  {
    if n == |topics| {
      assert topics[..n] == topics;
    } else {
      assert topics[..|topics| - 1][..n] == topics[..n];
      SupersedeStops(cfg, s, held, topics[..|topics| - 1], n);
    }
  }
}
