/** The counts behind the sweep's third claim: how many published documents keep a topic. */
module KeptTopics {
  import opened Text
  import opened Wire
  import opened Runtime
  import opened RuntimeRuns
  import opened Sweep

  predicate NoDuplicates(ts: seq<string>) {
    forall i, j | 0 <= i < j < |ts| :: ts[i] != ts[j]
  }

  /** The documents whose kept list holds this topic. */
  function Keepers(kept: map<string, seq<string>>, t: string): set<string> {
    set d | d in kept && t in kept[d]
  }

  /** Every count is the number of documents keeping that topic, and no count is zero. */
  ghost predicate Counted(kept: map<string, seq<string>>, counts: map<string, nat>) {
    && (forall d | d in kept :: NoDuplicates(kept[d]))
    && (forall t | t in counts :: counts[t] > 0)
    && forall t :: Count(counts, t) == |Keepers(kept, t)|
  }

  lemma {:induction false} DecrementCounts(counts: map<string, nat>, ts: seq<string>)
    requires NoDuplicates(ts)
    requires forall t | t in counts :: counts[t] > 0
    ensures var after := DecrementAll(counts, ts);
            && (forall t | t in after :: after[t] > 0)
            && forall t :: Count(after, t) == if t in ts && Count(counts, t) > 0 then Count(counts, t) - 1 else Count(counts, t)
  {
    if ts != [] {
      var front, last := ts[..|ts| - 1], ts[|ts| - 1];
      DecrementCounts(counts, front);
      assert ts == front + [last];
      assert last !in front;
    }
  }

  lemma {:induction false} IncrementCounts(counts: map<string, nat>, ts: seq<string>)
    requires NoDuplicates(ts)
    requires forall t | t in counts :: counts[t] > 0
    ensures var after := IncrementAll(counts, ts);
            && (forall t | t in after :: after[t] > 0)
            && forall t :: Count(after, t) == Count(counts, t) + if t in ts then 1 else 0
  {
    if ts != [] {
      var front, last := ts[..|ts| - 1], ts[|ts| - 1];
      IncrementCounts(counts, front);
      assert ts == front + [last];
      assert last !in front;
    }
  }

  lemma KeepersWithout(kept: map<string, seq<string>>, d: string, t: string)
    ensures |Keepers(kept - {d}, t)| == |Keepers(kept, t)| - if d in kept && t in kept[d] then 1 else 0
  {
    if d in kept && t in kept[d] {
      assert Keepers(kept, t) == Keepers(kept - {d}, t) + {d};
    } else {
      assert Keepers(kept, t) == Keepers(kept - {d}, t);
    }
  }

  lemma KeepersWith(kept: map<string, seq<string>>, d: string, ts: seq<string>, t: string)
    requires d !in kept
    ensures |Keepers(kept[d := ts], t)| == |Keepers(kept, t)| + if t in ts then 1 else 0
  {
    if t in ts {
      assert Keepers(kept[d := ts], t) == Keepers(kept, t) + {d};
    } else {
      assert Keepers(kept[d := ts], t) == Keepers(kept, t);
    }
  }

  /** Replacing one document's kept topics keeps every count right. */
  lemma KeepIsCounted(m: Memo, d: string, ts: seq<string>)
    requires Counted(m.kept, m.keptCount) && NoDuplicates(ts)
    ensures Counted(Keep(m, d, ts).kept, Keep(m, d, ts).keptCount)
  {
    var previous := if d in m.kept then m.kept[d] else [];
    var dropped := DecrementAll(m.keptCount, previous);
    DroppedIsCounted(m.kept, m.keptCount, d);
    if ts != [] {
      AddedIsCounted(m.kept - {d}, dropped, d, ts);
      assert (m.kept - {d})[d := ts] == m.kept[d := ts];
    }
  }

  lemma DroppedIsCounted(kept: map<string, seq<string>>, counts: map<string, nat>, d: string)
    requires Counted(kept, counts)
    ensures Counted(kept - {d}, DecrementAll(counts, if d in kept then kept[d] else []))
  {
    var previous := if d in kept then kept[d] else [];
    var after := DecrementAll(counts, previous);
    forall t ensures Count(after, t) == |Keepers(kept - {d}, t)| && (t in after ==> after[t] > 0) {
      DroppedAt(kept, counts, d, previous, t);
    }
  }

  lemma DroppedAt(kept: map<string, seq<string>>, counts: map<string, nat>, d: string, previous: seq<string>, t: string)
    requires Counted(kept, counts) && previous == if d in kept then kept[d] else []
    ensures var after := DecrementAll(counts, previous);
            Count(after, t) == |Keepers(kept - {d}, t)| && (t in after ==> after[t] > 0)
  {
    DecrementCounts(counts, previous);
    KeepersWithout(kept, d, t);
    if t in previous {
      assert d in Keepers(kept, t);
    }
  }

  lemma AddedIsCounted(kept: map<string, seq<string>>, counts: map<string, nat>, d: string, ts: seq<string>)
    requires Counted(kept, counts) && d !in kept && NoDuplicates(ts)
    ensures Counted(kept[d := ts], IncrementAll(counts, ts))
  {
    IncrementCounts(counts, ts);
    forall t ensures Count(IncrementAll(counts, ts), t) == |Keepers(kept[d := ts], t)| {
      KeepersWith(kept, d, ts, t);
    }
  }

  predicate SameKept(a: Memo, b: Memo) {
    a.kept == b.kept && a.keptCount == b.keptCount
  }

  lemma {:induction false} SupersedeAllKeeps(cfg: Settings, s: State, held: Option<set<string>>, topics: seq<string>)
    ensures SameKept(SupersedeAll(cfg, s, held, topics).0.memo, s.memo)
  {
    if topics != [] {
      SupersedeAllKeeps(cfg, s, held, topics[..|topics| - 1]);
    }
  }

  lemma SupersedeKeeps(cfg: Settings, s: State, topics: seq<string>)
    ensures SameKept(Supersede(cfg, s, topics).0.memo, s.memo)
  {
    var r := RetainedConfigs(cfg, s, topics);
    SupersedeAllKeeps(cfg, r.0, r.1, topics);
  }

  lemma PublishKeeps(s: State, topic: string, payload: Option<Payload>)
    ensures SameKept(Publish(s, topic, payload).0.memo, s.memo)
  {
  }

  lemma {:induction false} RetractKeeps(s: State, topics: seq<string>)
    ensures SameKept(Retract(s, topics).memo, s.memo)
  {
    if topics != [] {
      RetractKeeps(s, topics[..|topics| - 1]);
    }
  }

  lemma StepIsCounted(cfg: Settings, s: State, call: Call)
    requires Counted(s.memo.kept, s.memo.keptCount)
    requires call.Bundle? ==> NoDuplicates(call.withheld)
    ensures var m := Step(cfg, s, call).memo; Counted(m.kept, m.keptCount)
  {
    var c := s.(memo := CheckGeneration(s.memo, s.net.conn));
    match call
    case Bundle(t, doc, withheld) =>
      KeepIsCounted(c.memo, t, withheld);
      var k := c.(memo := Keep(c.memo, t, withheld));
      SupersedeKeeps(cfg, k, doc.clears);
      PublishKeeps(Supersede(cfg, k, doc.clears).0, t, Some(doc));
    case Component(t, config, parent) =>
      SupersedeKeeps(cfg, c, [parent]);
      PublishKeeps(Supersede(cfg, c, [parent]).0, t, Some(config));
    case Plain(t, payload) => PublishKeeps(s, t, payload);
    case Clear(topics) => RetractKeeps(s, topics);
    case Replay(_) =>
    case Orphans(ts) => SweepClearsOnlyUnclaimed(c, ts);
    case Forget =>
    case Drop(_) =>
  }

  /** In every run, whatever fails, a topic is counted once for each document that keeps it. */
  lemma {:induction false} CountsAreKeepers(cfg: Settings, base: map<string, Payload>, script: seq<Outcome>,
                                            views: seq<View>, calls: seq<Call>)
    requires forall call | call in calls :: call.Bundle? ==> NoDuplicates(call.withheld)
    ensures var m := Run(cfg, Start(base, script, views), calls).memo; Counted(m.kept, m.keptCount)
  {
    if calls != [] {
      var front := calls[..|calls| - 1];
      assert calls == front + [calls[|calls| - 1]];
      CountsAreKeepers(cfg, base, script, views, front);
      StepIsCounted(cfg, Run(cfg, Start(base, script, views), front), calls[|calls| - 1]);
    } else {
      forall t ensures |Keepers(map[], t)| == 0 {
        assert Keepers(map[], t) == {};
      }
    }
  }

  // ------------------------------------------------------ what the calls kept

  predicate KeptBy(m: Memo, d: string, t: string) {
    d in m.kept && t in m.kept[d]
  }

  /** The last document published at d withheld a component of this topic. */
  predicate LastWithheld(calls: seq<Call>, d: string, t: string) {
    exists i | 0 <= i < |calls| :: LastAt(calls, d, i) && t in calls[i].withheld
  }

  /** The i-th call is the last to publish this document. */
  predicate LastAt(calls: seq<Call>, d: string, i: nat)
    requires i < |calls|
  {
    && calls[i].Bundle? && calls[i].topic == d
    && forall j | i < j < |calls| :: !(calls[j].Bundle? && calls[j].topic == d)
  }

  /** A document's publish, whatever comes of it, puts its own list in the place of its last one; nothing else
      touches what is kept. */
  lemma StepKept(cfg: Settings, s: State, call: Call, d: string, t: string)
    ensures KeptBy(Step(cfg, s, call).memo, d, t) <==>
              if call.Bundle? && call.topic == d then t in call.withheld else KeptBy(s.memo, d, t)
  {
    var c := s.(memo := CheckGeneration(s.memo, s.net.conn));
    match call
    case Bundle(u, doc, withheld) => DocumentEffects(cfg, s, u, doc, withheld);
    case Component(u, config, parent) => EntityEffects(cfg, s, u, config, parent);
    case Plain(u, payload) => PublishKeeps(s, u, payload);
    case Clear(topics) => RetractKeeps(s, topics);
    case Replay(_) =>
    case Orphans(ts) => SweepClearsOnlyUnclaimed(c, ts);
    case Forget =>
    case Drop(_) =>
  }

  lemma LastWithheldGrows(calls: seq<Call>, call: Call, d: string, t: string)
    ensures LastWithheld(calls + [call], d, t) <==>
              if call.Bundle? && call.topic == d then t in call.withheld else LastWithheld(calls, d, t)
  {
    var all := calls + [call];
    assert all[|calls|] == call;
    if call.Bundle? && call.topic == d {
      assert LastAt(all, d, |calls|);
      forall i | 0 <= i < |all| && LastAt(all, d, i) ensures i == |calls| {
      }
    } else {
      forall i | 0 <= i < |calls| ensures LastAt(all, d, i) <==> LastAt(calls, d, i) {
        assert forall j | 0 <= j < |calls| :: all[j] == calls[j];
      }
      if i :| 0 <= i < |calls| && LastAt(calls, d, i) && t in calls[i].withheld {
        assert LastAt(all, d, i) && all[i] == calls[i];
      }
    }
  }

  lemma {:induction false} KeptIsLastWithheld(cfg: Settings, base: map<string, Payload>, script: seq<Outcome>,
                                              views: seq<View>, calls: seq<Call>, d: string, t: string)
    ensures KeptBy(Run(cfg, Start(base, script, views), calls).memo, d, t) <==> LastWithheld(calls, d, t)
  {
    if calls != [] {
      var front, last := calls[..|calls| - 1], calls[|calls| - 1];
      assert calls == front + [last];
      KeptIsLastWithheld(cfg, base, script, views, front, d, t);
      LastWithheldGrows(front, last, d, t);
      StepKept(cfg, Run(cfg, Start(base, script, views), front), last, d, t);
    }
  }

  /** In every run a topic has a keep count, and so is spared by the sweep, if and only if the last document
      published at some topic withheld it. */
  lemma CountedIffLastWithheld(cfg: Settings, base: map<string, Payload>, script: seq<Outcome>,
                               views: seq<View>, calls: seq<Call>, t: string)
    requires forall call | call in calls :: call.Bundle? ==> NoDuplicates(call.withheld)
    ensures Count(Run(cfg, Start(base, script, views), calls).memo.keptCount, t) > 0 <==> exists d :: LastWithheld(calls, d, t)
  {
    var m := Run(cfg, Start(base, script, views), calls).memo;
    CountsAreKeepers(cfg, base, script, views, calls);
    forall d ensures KeptBy(m, d, t) <==> LastWithheld(calls, d, t) {
      KeptIsLastWithheld(cfg, base, script, views, calls, d, t);
    }
    assert Count(m.keptCount, t) == |Keepers(m.kept, t)|;
    if d :| KeptBy(m, d, t) {
      assert d in Keepers(m.kept, t);
    } else {
      forall d ensures d !in Keepers(m.kept, t) {
        assert !KeptBy(m, d, t);
      }
      assert Keepers(m.kept, t) == {};
    }
  }

  // ------------------------------------------------------- and what a pass spares

  lemma {:induction false} IncrementedIsCounted(counts: map<string, nat>, ts: seq<string>, t: string)
    ensures Count(IncrementAll(counts, ts), t) >= Count(counts, t)
    ensures t in ts ==> Count(IncrementAll(counts, ts), t) > 0
  {
    if ts != [] {
      IncrementedIsCounted(counts, ts[..|ts| - 1], t);
      assert ts == ts[..|ts| - 1] + [ts[|ts| - 1]];
    }
  }

  /** Right after a document's publish, written or not, a topic it withheld is claimed: a pass neither collects
      it for clearing nor clears it, and leaves what the broker holds there. */
  lemma WithheldIsSpared(cfg: Settings, s: State, topic: string, doc: Payload, withheld: seq<string>,
                         req: Request, candidates: seq<string>, t: string)
    requires t in withheld
    ensures var after := Step(cfg, s, Bundle(topic, doc, withheld));
            && Claims(after.memo, t)
            && (forall w :: t in Collect(cfg, after.memo, req, w, t, false).candidate ==> t in w.candidate)
            && t !in SweepAll(after, candidates).1
            && (after.net.script == [] ==>
                  var left := Holds(SweepAll(after, candidates).0.net);
                  (t in left <==> t in Holds(after.net)) && (t in left ==> left[t] == Holds(after.net)[t]))
  {
    var after := Step(cfg, s, Bundle(topic, doc, withheld));
    PublishCounts(cfg, s, topic, doc, withheld, t);
    SweepClearsOnlyUnclaimed(after, candidates);
    if after.net.script == [] {
      SweepSpares(after, candidates, t);
    }
  }

  lemma PublishCounts(cfg: Settings, s: State, topic: string, doc: Payload, withheld: seq<string>, t: string)
    requires t in withheld
    ensures Count(PublishBundle(cfg, s, topic, doc, withheld).0.memo.keptCount, t) > 0
  {
    var c := s.(memo := CheckGeneration(s.memo, s.net.conn));
    var k := c.(memo := Keep(c.memo, topic, withheld));
    var dropped := DecrementAll(c.memo.keptCount, if topic in c.memo.kept then c.memo.kept[topic] else []);
    IncrementedIsCounted(dropped, withheld, t);
    SupersedeKeeps(cfg, k, doc.clears);
    PublishKeeps(Supersede(cfg, k, doc.clears).0, topic, Some(doc));
  }

  lemma {:induction false} SweepSpares(s: State, topics: seq<string>, t: string)
    requires s.net.script == [] && Claims(s.memo, t)
    ensures var after := SweepAll(s, topics).0;
            && after.net.script == [] && after.memo == s.memo
            && (t in Holds(after.net) <==> t in Holds(s.net)) && (t in Holds(s.net) ==> Holds(after.net)[t] == Holds(s.net)[t])
  {
    SweepClearsOnlyUnclaimed(s, topics);
    if topics != [] {
      var front, u := topics[..|topics| - 1], topics[|topics| - 1];
      SweepSpares(s, front, t);
      var mid := SweepAll(s, front).0;
      SweepClearsOnlyUnclaimed(s, front);
      RetainedSnoc(mid.net.base, mid.net.log, Send(u, None));
    }
  }
}
