/** The orphan pass: what one snapshot window collects and what the retraction loop clears. */
module Sweep {
  import opened Text
  import opened Wire
  import opened Runtime
  import ConfigTopics

  datatype Request = Request(owns: Option<ConfigTopics.ConfigTopic -> bool>, selfClaimed: bool, reportOnly: bool)

  /** A pass that states no ownership rule is refused. */
  predicate Scoped(req: Request) {
    req.owns.Some? || req.selfClaimed
  }

  /** ownsForSweep on a parsed config topic: every stated rule has to agree. */
  predicate Owned(cfg: Settings, m: Memo, req: Request, t: string) {
    var parsed := ConfigTopics.Parse(cfg.prefix, t);
    && parsed.Some?
    && (req.selfClaimed ==> t in m.claimed)
    && (req.owns.Some? ==> req.owns.value(parsed.value))
  }

  /** What the caller asked for: a config topic of the tree, published by this process if the request says
      so, and one that the caller's own predicate is true of if there is one. */
  predicate Passes(prefix: string, published: set<string>, req: Request, t: string) {
    match ConfigTopics.Parse(prefix, t)
    case None => false
    case Some(c) =>
      match req.owns
      case None => req.selfClaimed ==> t in published
      case Some(rule) => rule(c) && (req.selfClaimed ==> t in published)
  }

  /** The pass goes by exactly that. */
  lemma OwnedPasses(cfg: Settings, m: Memo, req: Request, t: string)
    ensures Owned(cfg, m, req, t) <==> Passes(cfg.prefix, m.claimed, req, t)
  {
  }

  /** claims: declared, inside a publish, or kept for a withheld component. */
  predicate Claims(m: Memo, t: string) {
    t in m.declared || t in m.announced || Count(m.keptCount, t) > 0
  }

  datatype Window = Window(owned: seq<string>, candidate: seq<string>, open: bool)

  /** One delivery. `empty` is a retained message the broker is already clearing. */
  function Collect(cfg: Settings, m: Memo, req: Request, w: Window, t: string, empty: bool): Window {
    if !w.open || empty || !Owned(cfg, m, req, t) then w
    else if Claims(m, t) then w.(owned := w.owned + [t])
    else w.(owned := w.owned + [t], candidate := w.candidate + [t])
  }

  /** One turn of the retraction loop, with its own look at the claims. */
  function SweepOne(s: State, t: string): (State, bool) {
    if Claims(s.memo, t) then (s, false)
    else
      var r := Transmit(s.net, Send(t, None));
      (State(if r.1 then s.memo.(declared := s.memo.declared - {t}) else s.memo, r.0), r.1)
  }

  function SweepAll(s: State, topics: seq<string>): (State, seq<string>) {
    if topics == [] then (s, [])
    else
      var before := SweepAll(s, topics[..|topics| - 1]);
      var r := SweepOne(before.0, topics[|topics| - 1]);
      (r.0, if r.1 then before.1 + [topics[|topics| - 1]] else before.1)
  }

  /** `part` is `whole` with some elements left out. */
  predicate Selection(part: seq<string>, whole: seq<string>) {
    if whole == [] then part == []
    else
      var front, last := whole[..|whole| - 1], whole[|whole| - 1];
      Selection(part, front) || (part != [] && part[|part| - 1] == last && Selection(part[..|part| - 1], front))
  }

  lemma {:induction false} SelectionOf(part: seq<string>, whole: seq<string>)
    requires Selection(part, whole)
    ensures forall t | t in part :: t in whole
  {
    if whole != [] {
      var front := whole[..|whole| - 1];
      if Selection(part, front) {
        SelectionOf(part, front);
      } else {
        SelectionOf(part[..|part| - 1], front);
        assert part == part[..|part| - 1] + [part[|part| - 1]];
      }
    }
  }

  /** Without a publish in between, the loop clears candidates nobody claims and forgets nothing. */
  lemma {:induction false} SweepClearsOnlyUnclaimed(s: State, topics: seq<string>)
    ensures var r := SweepAll(s, topics);
            && r.0.memo == s.memo
            && Selection(r.1, topics)
            && forall t | t in r.1 :: !Claims(s.memo, t)
  {
    if topics != [] {
      var front, t := topics[..|topics| - 1], topics[|topics| - 1];
      SweepClearsOnlyUnclaimed(s, front);
      var before := SweepAll(s, front);
      var r := SweepOne(before.0, t);
      if t !in s.memo.declared {
        assert s.memo.declared - {t} == s.memo.declared;
      }
      if r.1 {
        assert (before.1 + [t])[..|before.1|] == before.1;
      }
    }
  }

  lemma LoopReaches(s: State, topics: seq<string>)
    ensures forall t | t in SweepAll(s, topics).1 :: t in topics
    ensures s.net.script == [] ==>
              forall t :: t in SweepAll(s, topics).1 <==> t in topics && !Claims(s.memo, t) && t !in s.net.refused
  {
    SweepClearsOnlyUnclaimed(s, topics);
    SelectionOf(SweepAll(s, topics).1, topics);
    if s.net.script == [] {
      SweepReaches(s, topics);
    }
  }

  class SweepPass {
    const rt: DiscoveryRuntime
    const req: Request

    var owned: seq<string>
    var candidate: seq<string>
    var closed: bool

    ghost function Now(): Window
      reads this
    {
      Window(owned, candidate, !closed)
    }

    constructor (rt: DiscoveryRuntime, req: Request)
      ensures this.rt == rt && this.req == req && Now() == Window([], [], true)
    {
      this.rt, this.req := rt, req;
      owned, candidate, closed := [], [], false;
    }

    /** The handler of the snapshot subscription. */
    method Deliver(topic: string, empty: bool)
      modifies this
      ensures Now() == Collect(rt.cfg, rt.Memory(), req, old(Now()), topic, empty)
      ensures owned == old(owned) + if !old(closed) && !empty && Passes(rt.cfg.prefix, rt.claimed, req, topic) then [topic] else []
      ensures candidate == old(candidate) +
                if !old(closed) && !empty && Passes(rt.cfg.prefix, rt.claimed, req, topic)
                   && topic !in rt.declared && topic !in rt.announced && Count(rt.keptCount, topic) == 0 then [topic] else []
      ensures closed == old(closed)
    {
      if closed || empty {
        return;
      }
      var parsed := ConfigTopics.Parse(rt.cfg.prefix, topic);
      if parsed.None? || (req.selfClaimed && topic !in rt.claimed)
         || (req.owns.Some? && !req.owns.value(parsed.value)) {
        return;
      }
      owned := owned + [topic];
      if topic in rt.declared || topic in rt.announced || Count(rt.keptCount, topic) > 0 {
        return;
      }
      candidate := candidate + [topic];
    }

    method Close()
      modifies this
      ensures Now() == old(Now()).(open := false)
      ensures closed && owned == old(owned) && candidate == old(candidate)
    {
      closed := true;
    }

    /** The retraction loop; it may be cut short after `reached` topics. */
    method ClearOrphans(reached: nat) returns (retracted: seq<string>)
      requires reached <= |candidate|
      modifies rt, rt.tr
      ensures req.reportOnly ==> retracted == [] && rt.Now() == old(rt.Now())
      ensures !req.reportOnly ==> (rt.Now(), retracted) == SweepAll(old(rt.Now()), candidate[..reached])
      ensures forall t | t in retracted :: t in candidate[..reached]
      ensures !req.reportOnly && old(rt.tr.net.script) == [] ==>
                forall t :: t in retracted <==>
                  t in candidate[..reached] && t !in old(rt.declared) && t !in old(rt.announced)
                  && Count(old(rt.keptCount), t) == 0 && t !in old(rt.tr.net.refused)
    {
      LoopReaches(rt.Now(), candidate[..reached]);
      retracted := [];
      if req.reportOnly {
        return;
      }
      ghost var start := rt.Now();
      for i := 0 to reached
        invariant (rt.Now(), retracted) == SweepAll(start, candidate[..i])
      {
        assert candidate[..i + 1][..i] == candidate[..i];
        var gone := ClearOne(candidate[i]);
        if gone {
          retracted := retracted + [candidate[i]];
        }
      }
    }

    /** One turn: whoever claims the topic by now keeps it. */
    method ClearOne(t: string) returns (gone: bool)
      modifies rt, rt.tr
      ensures (rt.Now(), gone) == SweepOne(old(rt.Now()), t)
      ensures t in old(rt.declared) || t in old(rt.announced) || Count(old(rt.keptCount), t) > 0 ==>
                !gone && rt.Now() == old(rt.Now())
      ensures t !in old(rt.declared) && t !in old(rt.announced) && Count(old(rt.keptCount), t) == 0 ==>
                && (rt.tr.net, gone) == Transmit(old(rt.tr.net), Send(t, None))
                && rt.declared == old(rt.declared) && rt.announced == old(rt.announced)
    {
      if t in rt.declared || t in rt.announced || Count(rt.keptCount, t) > 0 {
        return false;
      }
      gone := rt.tr.Publish(t, None);
      if gone {
        assert rt.declared - {t} == rt.declared;
        rt.declared := rt.declared - {t};
      }
    }
  }

  datatype SweepResult = SweepResult(owned: seq<string>, unclaimed: seq<string>, retracted: seq<string>)

  /** Sweep, with nothing beside it: refused without a rule; otherwise the window's deliveries, then, unless it
      only reports, the loop over what nobody claims, as far as it gets. */
  method Sweep(rt: DiscoveryRuntime, req: Request, heard: seq<string>, limit: nat) returns (result: Option<SweepResult>)
    modifies rt, rt.tr
    ensures result.None? <==> req.owns.None? && !req.selfClaimed
    ensures result.None? ==> rt.Now() == old(rt.Now())
    ensures result.Some? ==>
              forall t :: t in result.value.owned <==> t in heard && Passes(rt.cfg.prefix, old(rt.claimed), req, t)
    ensures result.Some? ==>
              forall t :: t in result.value.unclaimed <==>
                t in heard && Passes(rt.cfg.prefix, old(rt.claimed), req, t)
                && t !in old(rt.declared) && t !in old(rt.announced) && Count(old(rt.keptCount), t) == 0
    ensures result.Some? ==> forall t | t in result.value.retracted :: t in result.value.unclaimed
    ensures result.Some? && req.reportOnly ==> result.value.retracted == [] && rt.tr.net == old(rt.tr.net)
    ensures result.Some? && !req.reportOnly && old(rt.tr.net.script) == [] && limit >= |result.value.unclaimed| ==>
              forall t | t in result.value.unclaimed :: t in result.value.retracted <==> t !in old(rt.tr.net.refused)
  {
    if req.owns.None? && !req.selfClaimed {
      return None;
    }
    rt.CheckConnection();
    var pass := new SweepPass(rt, req);
    Hear(pass, heard);
    pass.Close();
    var reached := if limit < |pass.candidate| then limit else |pass.candidate|;
    var retracted := pass.ClearOrphans(reached);
    result := Some(SweepResult(pass.owned, pass.candidate, retracted));
  }

  method Hear(pass: SweepPass, heard: seq<string>)
    requires !pass.closed && pass.owned == [] && pass.candidate == []
    modifies pass
    ensures !pass.closed
    ensures forall t :: t in pass.owned <==> t in heard && Passes(pass.rt.cfg.prefix, pass.rt.claimed, pass.req, t)
    ensures forall t :: t in pass.candidate <==>
              t in heard && Passes(pass.rt.cfg.prefix, pass.rt.claimed, pass.req, t)
              && t !in pass.rt.declared && t !in pass.rt.announced && Count(pass.rt.keptCount, t) == 0
  {
    for i := 0 to |heard|
      invariant !pass.closed
      invariant forall t :: t in pass.owned <==> t in heard[..i] && Passes(pass.rt.cfg.prefix, pass.rt.claimed, pass.req, t)
      invariant forall t :: t in pass.candidate <==>
                  t in heard[..i] && Passes(pass.rt.cfg.prefix, pass.rt.claimed, pass.req, t)
                  && t !in pass.rt.declared && t !in pass.rt.announced && Count(pass.rt.keptCount, t) == 0
    {
      assert heard[..i + 1] == heard[..i] + [heard[i]];
      pass.Deliver(heard[i], false);
    }
    assert heard[..|heard|] == heard;
  }

  /** Without a lost connection the loop clears exactly what is unclaimed and not refused. */
  lemma {:induction false} SweepReaches(s: State, topics: seq<string>)
    requires s.net.script == []
    ensures var r := SweepAll(s, topics);
            && r.0.net.script == [] && r.0.net.refused == s.net.refused && r.0.memo == s.memo
            && forall t :: t in r.1 <==> t in topics && !Claims(s.memo, t) && t !in s.net.refused
  {
    SweepClearsOnlyUnclaimed(s, topics);
    if topics != [] {
      var front, last := topics[..|topics| - 1], topics[|topics| - 1];
      SweepReaches(s, front);
      SweepClearsOnlyUnclaimed(s, front);
      assert topics == front + [last];
    }
  }
}
