/** The state and availability publishers as they run, against the dedup gate's specification. */
module StatePlane {
  import opened Text
  import opened DedupGate
  import opened StatusMemory
  import FilterSyntax

  /** A broker with one writer; a refused publish is not applied, and an empty topic is always refused. */
  class Broker {
    var held: map<string, string>

    method Publish(topic: string, payload: Option<string>, refused: set<string>) returns (ok: bool)
      modifies this
      ensures ok <==> topic != "" && topic !in refused
      ensures held == if !ok then old(held)
                      else if payload.Some? then old(held)[topic := payload.value] else old(held) - {topic}
    {
      if topic == "" || topic in refused {
        return false;
      }
      held := if payload.Some? then held[topic := payload.value] else held - {topic};
      return true;
    }
  }

  method Guard(filters: seq<string>, topic: string) returns (refused: bool)
    ensures refused <==> Guarded(filters, topic)
  {
    for i := 0 to |filters|
      invariant forall f | f in filters[..i] :: !FilterSyntax.MatchFilter(f, topic)
    {
      assert filters[..i + 1] == filters[..i] + [filters[i]];
      if FilterSyntax.MatchFilter(filters[i], topic) {
        return true;
      }
    }
    assert filters[..|filters|] == filters;
    return false;
  }

  /** A write to this topic goes through: it is named, matches no command filter, and is not refused. */
  predicate Open(filters: seq<string>, refused: set<string>, topic: string) {
    topic != "" && topic !in refused && forall f | f in filters :: !FilterSyntax.MatchFilter(f, topic)
  }

  /** The entries of a map but those of these topics that go through. */
  ghost predicate Evicted<V>(before: map<string, V>, after: map<string, V>, topics: set<string>, filters: seq<string>, refused: set<string>) {
    && (forall t :: t in after <==> t in before && !(t in topics && Open(filters, refused, t)))
    && (forall t | t in after :: after[t] == before[t])
  }

  function Sent(filters: seq<string>, refused: set<string>, topics: seq<string>): set<string> {
    set t | t in topics && Goes(filters, refused, t)
  }

  predicate Distinct(topics: seq<string>) {
    forall i, j | 0 <= i < j < |topics| :: topics[i] != topics[j]
  }

  lemma SentSnoc(filters: seq<string>, refused: set<string>, topics: seq<string>, i: nat)
    requires i < |topics|
    ensures Sent(filters, refused, topics[..i + 1]) ==
            Sent(filters, refused, topics[..i]) + if Goes(filters, refused, topics[i]) then {topics[i]} else {}
  {
    assert topics[..i + 1] == topics[..i] + [topics[i]];
  }

  /** Those of the first topics that are among `all`. */
  function Among(all: set<string>, topics: seq<string>): set<string> {
    set t | t in topics && t in all
  }

  lemma AmongSnoc(all: set<string>, topics: seq<string>, i: nat)
    requires i < |topics| && Distinct(topics)
    ensures topics[i] !in Among(all, topics[..i])
    ensures Among(all, topics[..i + 1]) == Among(all, topics[..i]) + if topics[i] in all then {topics[i]} else {}
  {
    assert topics[..i + 1] == topics[..i] + [topics[i]];
  }

  lemma DistinctCount(list: seq<string>, all: set<string>)
    requires Distinct(list) && forall t :: t in list <==> t in all
    ensures |list| == |all|
  {
    if list != [] {
      var last := list[|list| - 1];
      assert list == list[..|list| - 1] + [last];
      assert last !in list[..|list| - 1];
      DistinctCount(list[..|list| - 1], all - {last});
    }
  }

  class StatePublisher {
    const tr: Broker
    const filters: seq<string>
    const key: Option<string>
    var published: map<string, DedupGate.Cached>
    var status: map<string, Memo>

    ghost function Config(): Config {
      ConfigOf(filters, key)
    }

    ghost function Now(): State
      reads this, tr
    {
      State(Plane(published, tr.held), status)
    }

    constructor (tr: Broker, filters: seq<string>, key: Option<string>)
      ensures this.tr == tr && this.filters == filters && this.key == key
      ensures published == map[] && status == map[]
    {
      this.tr, this.filters, this.key := tr, filters, key;
      published, status := map[], map[];
    }

    method PublishState(topic: string, payload: string, refused: set<string>) returns (report: Report)
      modifies this, tr
      ensures Now() == StatusMemory.Step(Config(), old(Now()), Plain(Write(topic, payload, refused)))
      ensures report == WriteOne(filters, true, old(Now()).plane, topic, payload, refused).1
      ensures report == Unchanged <==>
                && payload != "" && Open(filters, {}, topic)
                && topic in old(published) && old(published)[topic] == DedupGate.Cached(payload, true)
      ensures report == Wrote <==> payload != "" && Open(filters, refused, topic) && report != Unchanged
      ensures report == Wrote ==>
                && tr.held == old(tr.held)[topic := payload] && status == old(status) - {topic}
                && published == old(published)[topic := DedupGate.Cached(payload, true)]
      ensures report != Wrote ==> tr.held == old(tr.held) && published == old(published) && status == old(status)
    {
      if topic == "" || payload == "" {
        return Failed;
      }
      var collides := Guard(filters, topic);
      if collides {
        return Failed;
      }
      if topic in published && published[topic].gated && published[topic].payload == payload {
        return Unchanged;
      }
      var ok := tr.Publish(topic, Some(payload), refused);
      if !ok {
        return Failed;
      }
      published := published[topic := DedupGate.Cached(payload, true)];
      status := status - {topic};
      return Wrote;
    }

    method PublishStatusObject(topic: string, obs: Observation, refused: set<string>)
      returns (report: Report, sent: Option<StatusObject>)
      modifies this, tr
      ensures (Now(), report, sent) == PublishStatus(Config(), old(Now()), topic, obs, refused)
      ensures report == Unchanged <==>
                && obs.val.Some? && Open(filters, {}, topic)
                && topic in old(published) && old(published)[topic].gated
                && topic in old(status) && old(status)[topic].val == obs.val.value
                && old(status)[topic].ext == (if key.Some? then obs.ext else None)
      ensures report == Wrote <==> obs.val.Some? && Open(filters, refused, topic) && report != Unchanged
      ensures report == Wrote <==> sent.Some?
      ensures sent.Some? ==>
                && sent.value.val == obs.val.value && sent.value.ts == obs.ts
                && sent.value.ext == (if key.Some? then obs.ext else None)
                && sent.value.lc == (if topic in old(status) && old(status)[topic].val == obs.val.value && old(status)[topic].lc <= obs.ts
                                     then old(status)[topic].lc else obs.ts)
                && tr.held == old(tr.held)[topic := JSON(key, sent.value)]
                && published == old(published)[topic := DedupGate.Cached(JSON(key, sent.value), true)]
                && status == old(status)[topic := Memo(sent.value.val, sent.value.ext, sent.value.lc)]
      ensures report != Wrote ==> tr.held == old(tr.held) && published == old(published) && status == old(status)
    {
      if topic == "" || obs.val.None? {
        return Failed, None;
      }
      var collides := Guard(filters, topic);
      if collides {
        return Failed, None;
      }
      var val := obs.val.value;
      var ext := if key.Some? then obs.ext else None;
      var sameVal := topic in status && status[topic].val == val;
      if topic in published && published[topic].gated && sameVal && status[topic].ext == ext {
        return Unchanged, None;
      }
      var lc := obs.ts;
      if sameVal && status[topic].lc <= obs.ts {
        lc := status[topic].lc;
      }
      var o := StatusObject(val, obs.ts, lc, ext);
      var payload := JSON(key, o);
      var ok := tr.Publish(topic, Some(payload), refused);
      if !ok {
        return Failed, None;
      }
      published := published[topic := DedupGate.Cached(payload, true)];
      status := status[topic := Memo(val, ext, lc)];
      return Wrote, Some(o);
    }

    /** Clears topics one by one; a refused one stays in the index. */
    method EvictTopics(topics: seq<string>, refused: set<string>) returns (cleared: seq<string>)
      modifies this, tr
      ensures Now() == StatusMemory.Step(Config(), old(Now()), Plain(Clear((set t | t in topics), refused)))
      ensures forall t :: t in cleared <==> t in Sent(filters, refused, topics)
      ensures forall t :: t in cleared <==> t in topics && Open(filters, refused, t)
      ensures Distinct(topics) ==> Distinct(cleared)
      ensures Evicted(old(published), published, (set t | t in topics), filters, refused)
      ensures Evicted(old(status), status, (set t | t in topics), filters, refused)
      ensures Evicted(old(tr.held), tr.held, (set t | t in topics), filters, refused)
    {
      cleared := [];
      for i := 0 to |topics|
        invariant published == old(published) - Sent(filters, refused, topics[..i])
        invariant status == old(status) - Sent(filters, refused, topics[..i])
        invariant tr.held == old(tr.held) - Sent(filters, refused, topics[..i])
        invariant forall t :: t in cleared <==> t in Sent(filters, refused, topics[..i])
        invariant Distinct(topics) ==> Distinct(cleared)
      {
        var t := topics[i];
        SentSnoc(filters, refused, topics, i);
        var gone := EvictTopic(t, refused);
        if gone {
          cleared := cleared + [t];
        }
      }
      assert topics[..|topics|] == topics;
      assert (set t | t in (set u | u in topics) && Goes(filters, refused, t)) == Sent(filters, refused, topics);
    }

    method EvictTopic(t: string, refused: set<string>) returns (gone: bool)
      modifies this, tr
      ensures gone <==> Goes(filters, refused, t)
      ensures published == (if gone then old(published) - {t} else old(published))
      ensures status == (if gone then old(status) - {t} else old(status))
      ensures tr.held == (if gone then old(tr.held) - {t} else old(tr.held))
    {
      if t == "" {
        return false;
      }
      var collides := Guard(filters, t);
      if collides {
        return false;
      }
      gone := tr.Publish(t, None, refused);
      if gone {
        published := published - {t};
        status := status - {t};
      }
    }

    /** `order` is the index, sorted. */
    method EvictPrefix(prefix: string, order: seq<string>, refused: set<string>) returns (cleared: nat)
      requires Distinct(order) && forall t :: t in order <==> t in published
      modifies this, tr
      ensures Now() == StatusMemory.Step(Config(), old(Now()), Plain(ClearUnder(prefix, refused)))
      ensures var below := set t | t in old(published) && prefix != "" && Under(prefix, t);
              && cleared == |set t | t in below && Open(filters, refused, t)|
              && Evicted(old(published), published, below, filters, refused)
              && Evicted(old(status), status, below, filters, refused)
              && Evicted(old(tr.held), tr.held, below, filters, refused)
    {
      var matched := Below(prefix, order);
      assert (set t | t in matched) == IndexUnder(Now().plane, prefix);
      ghost var below := set t | t in published && prefix != "" && Under(prefix, t);
      assert (set t | t in matched) == below;
      var out := EvictTopics(matched, refused);
      DistinctCount(out, set t | t in below && Open(filters, refused, t));
      cleared := |out|;
    }

    method Below(prefix: string, order: seq<string>) returns (matched: seq<string>)
      requires Distinct(order)
      ensures Distinct(matched) && forall t :: t in matched <==> t in order && prefix != "" && Under(prefix, t)
    {
      matched := [];
      if prefix == "" {
        return;
      }
      for i := 0 to |order|
        invariant Distinct(matched) && forall t :: t in matched <==> t in order[..i] && Under(prefix, t)
      {
        assert order[..i + 1] == order[..i] + [order[i]];
        if Under(prefix, order[i]) {
          matched := matched + [order[i]];
        }
      }
      assert order[..|order|] == order;
    }

    method ForgetTopics(topics: seq<string>)
      modifies this
      ensures Now() == StatusMemory.Step(Config(), old(Now()), Plain(Forget(set t | t in topics)))
      ensures forall t :: t in published <==> t in old(published) && t !in topics
      ensures forall t :: t in status <==> t in old(status) && t !in topics
    {
      for i := 0 to |topics|
        invariant published == old(published) - set t | t in topics[..i]
        invariant status == old(status) - set t | t in topics[..i]
      {
        assert topics[..i + 1] == topics[..i] + [topics[i]];
        published := published - {topics[i]};
        status := status - {topics[i]};
      }
      assert topics[..|topics|] == topics;
    }

    method ResetGate()
      modifies this
      ensures Now() == StatusMemory.Step(Config(), old(Now()), Plain(Reset))
      ensures published.Keys == old(published).Keys && status == old(status)
      ensures forall t | t in published :: published[t] == DedupGate.Cached(old(published)[t].payload, false)
    {
      published := Ungated(published);
      assert status - {} == status;
    }

    /** `order` is the index, sorted. */
    method Republish(order: seq<string>, refused: set<string>) returns (sent: nat)
      requires Distinct(order) && forall t :: t in order <==> t in published
      modifies tr
      ensures sent == |Sent(filters, refused, order)|
      ensures Now() == StatusMemory.Step(Config(), old(Now()), Plain(Replay(refused)))
      ensures forall t | t in published && Open(filters, refused, t) :: t in tr.held && tr.held[t] == published[t].payload
      ensures forall t | !(t in published && Open(filters, refused, t)) ::
                (t in tr.held <==> t in old(tr.held)) && (t in tr.held ==> tr.held[t] == old(tr.held)[t])
    {
      sent := ReplayIndex(tr, filters, published, order, refused);
      assert status - {} == status;
    }
  }

  /** The loop both planes replay their index with. */
  method ReplayIndex(tr: Broker, filters: seq<string>, index: map<string, DedupGate.Cached>, order: seq<string>, refused: set<string>)
    returns (sent: nat)
    requires Distinct(order) && forall t :: t in order <==> t in index
    modifies tr
    ensures sent == |Sent(filters, refused, order)|
    ensures tr.held == ReplayAll(filters, Plane(index, old(tr.held)), refused).held
  {
    ghost var all := Sent(filters, refused, order);
    sent := ReplayEach(tr, filters, index, order, refused, all);
  }

  method ReplayEach(tr: Broker, filters: seq<string>, index: map<string, DedupGate.Cached>, order: seq<string>,
                    refused: set<string>, ghost all: set<string>) returns (sent: nat)
    requires Distinct(order) && (forall t | t in order :: t in index)
    requires forall t | t in order :: t in all <==> Goes(filters, refused, t)
    requires all <= (set t | t in order)
    modifies tr
    ensures sent == |all|
    ensures tr.held == Replayed(old(tr.held), index, all)
  {
    sent := 0;
    ghost var done: set<string> := {};
    for i := 0 to |order|
      invariant done == Among(all, order[..i])
      invariant tr.held == Replayed(old(tr.held), index, done)
      invariant sent == |done|
    {
      var t := order[i];
      AmongSnoc(all, order, i);
      var ok := ReplayOne(tr, filters, t, index[t].payload, refused);
      if ok {
        ReplayedMore(old(tr.held), index, done, t);
        sent, done := sent + 1, done + {t};
      }
    }
    assert order[..|order|] == order;
    assert Among(all, order) == all;
  }

  method ReplayOne(tr: Broker, filters: seq<string>, topic: string, payload: string, refused: set<string>) returns (ok: bool)
    modifies tr
    ensures ok <==> Goes(filters, refused, topic)
    ensures tr.held == if ok then old(tr.held)[topic := payload] else old(tr.held)
  {
    var collides := Guard(filters, topic);
    if collides {
      return false;
    }
    ok := tr.Publish(topic, Some(payload), refused);
  }

  function Replayed(held: map<string, string>, index: map<string, DedupGate.Cached>, sent: set<string>): map<string, string> {
    held + map t | t in index && t in sent :: index[t].payload
  }

  lemma ReplayedMore(held: map<string, string>, index: map<string, DedupGate.Cached>, sent: set<string>, t: string)
    requires t in index
    ensures Replayed(held, index, sent + {t}) == Replayed(held, index, sent)[t := index[t].payload]
  {
  }

  class AvailabilityPublisher {
    const tr: Broker
    const filters: seq<string>
    var last: map<string, DedupGate.Cached>

    ghost function Now(): Plane
      reads this, tr
    {
      Plane(last, tr.held)
    }

    constructor (tr: Broker, filters: seq<string>)
      ensures this.tr == tr && this.filters == filters && last == map[]
    {
      this.tr, this.filters, last := tr, filters, map[];
    }

    /** The gated retained publish; availability payloads are never empty. */
    method WriteToken(t: string, payload: string, refused: set<string>) returns (report: Report)
      requires payload != ""
      modifies this, tr
      ensures (Now(), report) == WriteOne(filters, true, old(Now()), t, payload, refused)
      ensures report == Unchanged <==> Open(filters, {}, t) && t in old(last) && old(last)[t] == DedupGate.Cached(payload, true)
      ensures report == Wrote <==> Open(filters, refused, t) && report != Unchanged
      ensures report == Wrote ==> tr.held == old(tr.held)[t := payload] && last == old(last)[t := DedupGate.Cached(payload, true)]
      ensures report != Wrote ==> tr.held == old(tr.held) && last == old(last)
    {
      if t == "" {
        return Failed;
      }
      var collides := Guard(filters, t);
      if collides {
        return Failed;
      }
      if t in last && last[t].gated && last[t].payload == payload {
        return Unchanged;
      }
      var ok := tr.Publish(t, Some(payload), refused);
      if !ok {
        return Failed;
      }
      last := last[t := DedupGate.Cached(payload, true)];
      return Wrote;
    }

    method Retract(topics: seq<string>, refused: set<string>)
      modifies this, tr
      ensures Now() == ClearAll(filters, old(Now()), (set t | t in topics), refused)
      ensures Evicted(old(last), last, (set t | t in topics), filters, refused)
      ensures Evicted(old(tr.held), tr.held, (set t | t in topics), filters, refused)
    {
      for i := 0 to |topics|
        invariant last == old(last) - Sent(filters, refused, topics[..i])
        invariant tr.held == old(tr.held) - Sent(filters, refused, topics[..i])
      {
        SentSnoc(filters, refused, topics, i);
        var collides := Guard(filters, topics[i]);
        if !collides {
          var ok := tr.Publish(topics[i], None, refused);
          if ok {
            last := last - {topics[i]};
          }
        }
      }
      assert topics[..|topics|] == topics;
      assert (set t | t in (set u | u in topics) && Goes(filters, refused, t)) == Sent(filters, refused, topics);
    }

    method ForgetTopics(topics: seq<string>)
      modifies this
      ensures Now() == old(Now()).(index := old(last) - set t | t in topics)
    {
      for i := 0 to |topics|
        invariant last == old(last) - set t | t in topics[..i]
      {
        assert topics[..i + 1] == topics[..i] + [topics[i]];
        last := last - {topics[i]};
      }
      assert topics[..|topics|] == topics;
    }

    method ResetGate()
      modifies this
      ensures Now() == old(Now()).(index := Ungated(old(last)))
    {
      last := Ungated(last);
    }

    method Republish(order: seq<string>, refused: set<string>) returns (sent: nat)
      requires Distinct(order) && forall t :: t in order <==> t in last
      modifies tr
      ensures sent == |Sent(filters, refused, order)|
      ensures Now() == ReplayAll(filters, old(Now()), refused)
      ensures forall t | t in last && Open(filters, refused, t) :: t in tr.held && tr.held[t] == last[t].payload
      ensures forall t | !(t in last && Open(filters, refused, t)) ::
                (t in tr.held <==> t in old(tr.held)) && (t in tr.held ==> tr.held[t] == old(tr.held)[t])
    {
      sent := ReplayIndex(tr, filters, last, order, refused);
    }

    /** Sweep: retracts what `live` no longer claims; `order` is the index, sorted. */
    method Sweep(live: string -> bool, order: seq<string>, refused: set<string>) returns (cleared: seq<string>)
      requires forall t :: t in order <==> t in last
      modifies this, tr
      ensures Now() == ClearAll(filters, old(Now()), (set t | t in old(last) && !live(t)), refused)
      ensures forall t :: t in cleared <==> t in old(last) && t !in last
      ensures forall t :: t in cleared <==> t in old(last) && !live(t) && Open(filters, refused, t)
      ensures forall t :: t in tr.held <==> t in old(tr.held) && t !in cleared
      ensures forall t | t in old(last) && live(t) :: t in last && last[t] == old(last)[t]
    {
      var stale := NotLive(live, order);
      Retract(stale, refused);
      assert (set t | t in stale) == (set t | t in old(last) && !live(t));
      cleared := Gone(stale);
    }

    method NotLive(live: string -> bool, order: seq<string>) returns (stale: seq<string>)
      ensures forall t :: t in stale <==> t in order && !live(t)
    {
      stale := [];
      for i := 0 to |order|
        invariant forall t :: t in stale <==> t in order[..i] && !live(t)
      {
        assert order[..i + 1] == order[..i] + [order[i]];
        if !live(order[i]) {
          stale := stale + [order[i]];
        }
      }
      assert order[..|order|] == order;
    }

    /** What actually went, not what was attempted. */
    method Gone(stale: seq<string>) returns (cleared: seq<string>)
      ensures forall t :: t in cleared <==> t in stale && t !in last
    {
      cleared := [];
      for i := 0 to |stale|
        invariant forall t :: t in cleared <==> t in stale[..i] && t !in last
      {
        assert stale[..i + 1] == stale[..i] + [stale[i]];
        if stale[i] !in last {
          cleared := cleared + [stale[i]];
        }
      }
      assert stale[..|stale|] == stale;
    }
  }
}
