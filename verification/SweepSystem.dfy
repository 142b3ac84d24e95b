/** A sweep running beside publishes, retractions, other writers and lost connections. */
module SweepSystem {
  import opened Text
  import opened Wire
  import opened Runtime
  import opened Sweep
  import opened KeptTopics
  import ConfigTopics

  /** Where the value the broker retains came from. `Own` is a publish of this process that it neither
      retracted nor gave up; `Stale` is one it did. */
  datatype Origin = Own | Stale | Foreign

  /** A publish or retraction between its first and its last step. */
  datatype Flight = Putting(payload: Payload) | Clearing

  /** A pass: its window, how far the retraction loop got, and the topics it sent a retraction for. */
  datatype Pass = Pass(req: Request, window: Window, next: nat, sent: seq<string>)

  datatype Sys = Sys(memo: Memo, flight: map<string, Flight>, broker: map<string, Origin>, pass: Option<Pass>)

  /** `reaches` says whether the broker applied the send: an acknowledged one can still be lost with
      its connection, and a refused one can have arrived. */
  datatype Step =
    | BeginPut(topic: string, payload: Payload)
    | SendPut(topic: string, reaches: bool)
    | EndPut(topic: string, acked: bool)
    | BeginClear(topic: string)
    | SendClear(topic: string, reaches: bool)
    | EndClear(topic: string, acked: bool)
    | KeepFor(doc: string, topics: seq<string>)
    | OtherWriter(topic: string, present: bool)
    | Connected(conn: nat)
    | SweepStart(req: Request)
    | Deliver(topic: string, empty: bool)
    | WindowClose
    | SweepNext(reaches: bool, acked: bool)

  /** One call at a time on each topic. */
  predicate Possible(s: Sys, step: Step) {
    match step
    case BeginPut(t, _) => t != "" && t !in s.flight
    case SendPut(t, _) => t in s.flight && s.flight[t].Putting?
    case EndPut(t, _) => t in s.flight && s.flight[t].Putting?
    case BeginClear(t) => t !in s.flight
    case SendClear(t, _) => t in s.flight && s.flight[t].Clearing?
    case EndClear(t, _) => t in s.flight && s.flight[t].Clearing?
    case KeepFor(_, ts) => NoDuplicates(ts)
    case SweepStart(req) => Scoped(req)
    case SweepNext(_, _) => Due(s)
    case _ => true
  }

  /** The retraction loop has a turn to take. */
  predicate Due(s: Sys) {
    && s.pass.Some? && !s.pass.value.window.open && !s.pass.value.req.reportOnly
    && s.pass.value.next < |s.pass.value.window.candidate|
  }

  /** What this process gives up on is no longer its own. */
  function Disowned(broker: map<string, Origin>, t: string): map<string, Origin> {
    if t in broker && broker[t] == Own then broker[t := Stale] else broker
  }

  function Put(s: Sys, step: Step): Sys
    requires Possible(s, step)
  {
    match step
    case BeginPut(t, p) => s.(memo := Announced(s.memo, t), flight := s.flight[t := Putting(p)])
    case SendPut(t, reaches) => if reaches then s.(broker := s.broker[t := Own]) else s
    case EndPut(t, acked) =>
      var left := s.(flight := s.flight - {t});
      if acked then left.(memo := Recorded(s.memo, t, s.flight[t].payload))
      else left.(memo := Withdrawn(s.memo, t), broker := if t in s.memo.declared then s.broker else Disowned(s.broker, t))
    case _ => s
  }

  function Clear(s: Sys, step: Step): Sys
    requires Possible(s, step)
  {
    match step
    case BeginClear(t) => s.(flight := s.flight[t := Clearing])
    case SendClear(t, reaches) => if reaches then s.(broker := s.broker - {t}) else s
    case EndClear(t, acked) =>
      var left := s.(flight := s.flight - {t});
      if acked then left.(memo := Forgotten(s.memo, t), broker := Disowned(s.broker, t)) else left
    case _ => s
  }

  function Pick(cfg: Settings, s: Sys, step: Step): Sys
    requires Possible(s, step)
  {
    match step
    case SweepStart(req) => s.(pass := Some(Pass(req, Window([], [], true), 0, [])))
    case Deliver(t, empty) =>
      if s.pass.None? then s
      else
        var p := s.pass.value;
        s.(pass := Some(p.(window := Collect(cfg, s.memo, p.req, p.window, t, empty))))
    case WindowClose =>
      if s.pass.None? then s
      else s.(pass := Some(s.pass.value.(window := s.pass.value.window.(open := false))))
    case SweepNext(reaches, acked) =>
      var p := s.pass.value;
      var t := p.window.candidate[p.next];
      if Claims(s.memo, t) then s.(pass := Some(p.(next := p.next + 1)))
      else
        s.(pass := Some(p.(next := p.next + 1, sent := p.sent + [t])),
           broker := if reaches then s.broker - {t} else s.broker,
           memo := if acked then s.memo.(declared := s.memo.declared - {t}) else s.memo)
    case _ => s
  }

  function Apply(cfg: Settings, s: Sys, step: Step): Sys
    requires Possible(s, step)
  {
    match step
    case KeepFor(d, ts) => s.(memo := Keep(s.memo, d, ts))
    case OtherWriter(t, present) => s.(broker := if present then s.broker[t := Foreign] else s.broker - {t})
    case Connected(conn) => s.(memo := CheckGeneration(s.memo, conn))
    case BeginPut(_, _) => Put(s, step)
    case SendPut(_, _) => Put(s, step)
    case EndPut(_, _) => Put(s, step)
    case BeginClear(_) => Clear(s, step)
    case SendClear(_, _) => Clear(s, step)
    case EndClear(_, _) => Clear(s, step)
    case _ => Pick(cfg, s, step)
  }

  /** A new process; nothing on the broker is its own. */
  predicate Initial(s: Sys) {
    s.memo == BLANK && s.flight == map[] && s.pass.None? && forall t | t in s.broker :: s.broker[t] != Own
  }

  predicate IsRun(cfg: Settings, s: Sys, steps: seq<Step>)
    decreases |steps|, 0
  {
    steps != [] ==>
      IsRun(cfg, s, steps[..|steps| - 1]) && Possible(After(cfg, s, steps[..|steps| - 1]), steps[|steps| - 1])
  }

  function After(cfg: Settings, s: Sys, steps: seq<Step>): Sys
    requires IsRun(cfg, s, steps)
    decreases |steps|, 1
  {
    if steps == [] then s else Apply(cfg, After(cfg, s, steps[..|steps| - 1]), steps[|steps| - 1])
  }

  // ------------------------------------------------------------ invariants

  /** Its own live config is declared, or still inside the publish that wrote it. */
  predicate OwnClaimed(s: Sys) {
    && (forall t | t in s.broker && s.broker[t] == Own :: t in s.memo.declared || t in s.memo.announced)
    && (forall t | t in s.flight && s.flight[t].Putting? :: t in s.memo.announced)
    && (forall t | t in s.memo.announced :: t in s.memo.declared || (t in s.flight && s.flight[t].Putting?))
  }

  /** The pass holds only topics its rules gave it, and clears only what the window named. */
  predicate PassHonest(cfg: Settings, s: Sys) {
    s.pass.Some? ==>
      var p := s.pass.value;
      && Scoped(p.req)
      && (forall t | t in p.window.candidate :: Owned(cfg, s.memo, p.req, t))
      && (forall t | t in p.window.owned :: Owned(cfg, s.memo, p.req, t))
      && Selection(p.window.candidate, p.window.owned)
      && p.next <= |p.window.candidate|
      && Selection(p.sent, p.window.candidate[..p.next])
      && (p.window.open || p.req.reportOnly ==> p.next == 0)
  }

  ghost predicate Good(cfg: Settings, s: Sys) {
    OwnClaimed(s) && PassHonest(cfg, s) && Counted(s.memo.kept, s.memo.keptCount)
  }

  lemma ClearIsOwnClaimed(s: Sys, step: Step)
    requires OwnClaimed(s) && Possible(s, step)
    ensures OwnClaimed(Clear(s, step))
  {
  }

  lemma PickIsOwnClaimed(cfg: Settings, s: Sys, step: Step)
    requires OwnClaimed(s) && Possible(s, step)
    ensures OwnClaimed(Pick(cfg, s, step))
  {
    if step.SweepNext? {
      var t := s.pass.value.window.candidate[s.pass.value.next];
      if !Claims(s.memo, t) {
        assert s.memo.declared - {t} == s.memo.declared;
      }
    }
  }

  lemma PickIsHonest(cfg: Settings, s: Sys, step: Step)
    requires PassHonest(cfg, s) && Possible(s, step)
    ensures PassHonest(cfg, Pick(cfg, s, step))
  {
    if step.SweepNext? {
      NextIsHonest(cfg, s, step);
    }
  }

  lemma NextIsHonest(cfg: Settings, s: Sys, step: Step)
    requires PassHonest(cfg, s) && step.SweepNext? && Possible(s, step)
    ensures PassHonest(cfg, Pick(cfg, s, step))
  {
    var p := s.pass.value;
    var t := p.window.candidate[p.next];
    assert p.window.candidate[..p.next + 1] == p.window.candidate[..p.next] + [t];
    assert forall u :: Owned(cfg, Pick(cfg, s, step).memo, p.req, u) == Owned(cfg, s.memo, p.req, u);
  }

  /** The memos a pass reads only grow, so its verdicts on ownership stay right. */
  lemma ClaimsOnlyGrow(cfg: Settings, s: Sys, after: Sys)
    requires PassHonest(cfg, s) && after.pass == s.pass && s.memo.claimed <= after.memo.claimed
    ensures PassHonest(cfg, after)
  {
  }

  lemma StepIsGood(cfg: Settings, s: Sys, step: Step)
    requires Good(cfg, s) && Possible(s, step)
    ensures Good(cfg, Apply(cfg, s, step))
  {
    match step
    case KeepFor(d, ts) =>
      KeepIsCounted(s.memo, d, ts);
      ClaimsOnlyGrow(cfg, s, Apply(cfg, s, step));
    case OtherWriter(_, _) => ClaimsOnlyGrow(cfg, s, Apply(cfg, s, step));
    case Connected(_) => ClaimsOnlyGrow(cfg, s, Apply(cfg, s, step));
    case BeginPut(_, _) => PutIsGood(cfg, s, step);
    case SendPut(_, _) => PutIsGood(cfg, s, step);
    case EndPut(_, _) => PutIsGood(cfg, s, step);
    case BeginClear(_) => ClearIsGood(cfg, s, step);
    case SendClear(_, _) => ClearIsGood(cfg, s, step);
    case EndClear(_, _) => ClearIsGood(cfg, s, step);
    case _ =>
      PickIsOwnClaimed(cfg, s, step);
      PickIsHonest(cfg, s, step);
  }

  lemma PutIsGood(cfg: Settings, s: Sys, step: Step)
    requires Good(cfg, s) && Possible(s, step)
    ensures Good(cfg, Put(s, step))
  {
    ClaimsOnlyGrow(cfg, s, Put(s, step));
  }

  lemma ClearIsGood(cfg: Settings, s: Sys, step: Step)
    requires Good(cfg, s) && Possible(s, step)
    ensures Good(cfg, Clear(s, step))
  {
    ClearIsOwnClaimed(s, step);
    ClaimsOnlyGrow(cfg, s, Clear(s, step));
  }

  lemma {:induction false} RunsAreGood(cfg: Settings, s: Sys, steps: seq<Step>)
    requires Initial(s) && IsRun(cfg, s, steps)
    ensures Good(cfg, After(cfg, s, steps))
  {
    if steps == [] {
      forall t ensures |Keepers(map[], t)| == 0 {
        assert Keepers(map[], t) == {};
      }
    } else {
      RunsAreGood(cfg, s, steps[..|steps| - 1]);
      StepIsGood(cfg, After(cfg, s, steps[..|steps| - 1]), steps[|steps| - 1]);
    }
  }

  // ------------------------------------------------------------- results

  /** In every reachable state a topic whose retained value is this process's own, and neither retracted
      nor given up, is claimed. */
  lemma OwnIsAlwaysClaimed(cfg: Settings, s: Sys, steps: seq<Step>, t: string)
    requires Initial(s) && IsRun(cfg, s, steps)
    requires var now := After(cfg, s, steps); t in now.broker && now.broker[t] == Own
    ensures Claims(After(cfg, s, steps).memo, t)
  {
    RunsAreGood(cfg, s, steps);
  }

  /** Nobody is responsible for this topic: not a declaration, not a publish in flight, not a document
      keeping it for a withheld component. */
  predicate Orphaned(s: Sys, t: string) {
    && t !in s.memo.declared
    && !(t in s.flight && s.flight[t].Putting?)
    && (forall d | d in s.memo.kept :: t !in s.memo.kept[d])
    && (t in s.broker ==> s.broker[t] != Own)
  }

  /** Whatever interleaves, each retraction of the loop clears a topic that the pass's rules own, that the
      window named, and that nobody is responsible for at that moment. */
  lemma SweptWasOrphaned(cfg: Settings, s: Sys, steps: seq<Step>, reaches: bool, acked: bool)
    requires Initial(s) && IsRun(cfg, s, steps)
    requires Possible(After(cfg, s, steps), SweepNext(reaches, acked))
    ensures var now := After(cfg, s, steps);
            var after := Apply(cfg, now, SweepNext(reaches, acked));
            var t := now.pass.value.window.candidate[now.pass.value.next];
            && after.pass.value.sent == now.pass.value.sent + (if Claims(now.memo, t) then [] else [t])
            && (!Claims(now.memo, t) <==> Orphaned(now, t))
            && Passes(cfg.prefix, now.memo.claimed, now.pass.value.req, t)
            && (forall u | u in now.broker && now.broker[u] == Own :: u in after.broker && after.broker[u] == Own)
  {
    RunsAreGood(cfg, s, steps);
    var now := After(cfg, s, steps);
    var t := now.pass.value.window.candidate[now.pass.value.next];
    OwnedPasses(cfg, now.memo, now.pass.value.req, t);
    if Count(now.memo.keptCount, t) > 0 {
      assert Keepers(now.memo.kept, t) != {};
      var d :| d in Keepers(now.memo.kept, t);
      assert !Orphaned(now, t);
    } else {
      assert Keepers(now.memo.kept, t) == {};
      forall d | d in now.memo.kept ensures t !in now.memo.kept[d] {
        assert d !in Keepers(now.memo.kept, t);
      }
    }
  }

  /** The result lists nest, and a pass that only reports sends nothing. */
  lemma ResultListsNest(cfg: Settings, s: Sys, steps: seq<Step>)
    requires Initial(s) && IsRun(cfg, s, steps)
    requires After(cfg, s, steps).pass.Some?
    ensures var p := After(cfg, s, steps).pass.value;
            && (forall t | t in p.sent :: t in p.window.candidate)
            && (forall t | t in p.window.candidate :: t in p.window.owned)
            && (forall t | t in p.window.owned :: Passes(cfg.prefix, After(cfg, s, steps).memo.claimed, p.req, t))
            && (p.req.reportOnly ==> p.sent == [])
  {
    RunsAreGood(cfg, s, steps);
    var p := After(cfg, s, steps).pass.value;
    SelectionOf(p.window.candidate, p.window.owned);
    SelectionOf(p.sent, p.window.candidate[..p.next]);
    forall t | t in p.window.owned ensures Passes(cfg.prefix, After(cfg, s, steps).memo.claimed, p.req, t) {
      OwnedPasses(cfg, After(cfg, s, steps).memo, p.req, t);
    }
  }

  // ------------------------------------------------ a pass nothing cuts into

  /** The window, one delivery of a retained message after the other. */
  function Hear(cfg: Settings, s: Sys, ts: seq<string>): Sys {
    if ts == [] then s else Apply(cfg, Hear(cfg, s, ts[..|ts| - 1]), Deliver(ts[|ts| - 1], false))
  }

  /** n turns of the retraction loop, every retraction reaching the broker. */
  function Turns(cfg: Settings, s: Sys, n: nat): (s': Sys)
    requires s.pass.Some? && !s.pass.value.window.open && !s.pass.value.req.reportOnly
    requires s.pass.value.next + n <= |s.pass.value.window.candidate|
    ensures s'.pass.Some? && s'.pass.value == s.pass.value.(next := s.pass.value.next + n, sent := s'.pass.value.sent)
  {
    if n == 0 then s else Apply(cfg, Turns(cfg, s, n - 1), SweepNext(true, true))
  }

  function Began(s: Sys, req: Request): Sys {
    s.(pass := Some(Pass(req, Window([], [], true), 0, [])))
  }

  function QuietPass(cfg: Settings, s: Sys, req: Request, ts: seq<string>): Sys
    requires Scoped(req)
  {
    HearsInto(cfg, Began(s, req), ts);
    var heard := Apply(cfg, Hear(cfg, Apply(cfg, s, SweepStart(req)), ts), WindowClose);
    if req.reportOnly then heard else Turns(cfg, heard, |heard.pass.value.window.candidate|)
  }

  /** The window changes only the pass, and ends with the owned, unclaimed topics it heard. */
  lemma {:induction false} HearsInto(cfg: Settings, s: Sys, ts: seq<string>)
    requires s.pass.Some? && s.pass.value.window.open && s.pass.value.window.candidate == []
    ensures var h := Hear(cfg, s, ts);
            && h.(pass := s.pass) == s && h.pass.Some? && h.pass.value.(window := s.pass.value.window) == s.pass.value
            && h.pass.value.window.open
            && forall t :: t in h.pass.value.window.candidate <==>
                             t in ts && Owned(cfg, s.memo, s.pass.value.req, t) && !Claims(s.memo, t)
  {
    if ts != [] {
      HearsInto(cfg, s, ts[..|ts| - 1]);
      assert ts == ts[..|ts| - 1] + [ts[|ts| - 1]];
    }
  }

  function Among(ts: seq<string>): set<string> {
    set t | t in ts
  }

  lemma {:induction false} TurnsClear(cfg: Settings, s: Sys, n: nat)
    requires s.pass.Some? && !s.pass.value.window.open && !s.pass.value.req.reportOnly
    requires s.pass.value.next == 0 && n <= |s.pass.value.window.candidate|
    requires forall t | t in s.pass.value.window.candidate :: !Claims(s.memo, t)
    ensures var after := Turns(cfg, s, n);
            after.memo == s.memo && after.broker == s.broker - Among(s.pass.value.window.candidate[..n])
  {
    if n > 0 {
      var ts := s.pass.value.window.candidate;
      TurnsClear(cfg, s, n - 1);
      TurnClears(cfg, Turns(cfg, s, n - 1));
      assert ts[..n] == ts[..n - 1] + [ts[n - 1]];
      assert Among(ts[..n]) == Among(ts[..n - 1]) + {ts[n - 1]};
    }
  }

  /** One turn on a topic nobody claims. */
  lemma TurnClears(cfg: Settings, s: Sys)
    requires Due(s) && !Claims(s.memo, s.pass.value.window.candidate[s.pass.value.next])
    ensures var after := Apply(cfg, s, SweepNext(true, true));
            after.memo == s.memo && after.broker == s.broker - {s.pass.value.window.candidate[s.pass.value.next]}
  {
    var t := s.pass.value.window.candidate[s.pass.value.next];
    assert s.memo.declared - {t} == s.memo.declared;
  }

  /** A pass whose sends all arrive clears exactly the retained topics it heard that its rules own and
      nobody claims, whoever wrote them, and forgets nothing. */
  lemma QuietPassClearsExactly(cfg: Settings, s: Sys, req: Request, ts: seq<string>, t: string)
    requires Scoped(req)
    ensures var after := QuietPass(cfg, s, req, ts);
            && after.memo == s.memo
            && (t in after.broker <==>
                  t in s.broker && (t in ts && Passes(cfg.prefix, s.memo.claimed, req, t) && !Claims(s.memo, t) ==> req.reportOnly))
  {
    OwnedPasses(cfg, s.memo, req, t);
    HearsInto(cfg, Began(s, req), ts);
    var heard := Apply(cfg, Hear(cfg, Began(s, req), ts), WindowClose);
    if !req.reportOnly {
      var n := |heard.pass.value.window.candidate|;
      TurnsClear(cfg, heard, n);
      assert heard.pass.value.window.candidate[..n] == heard.pass.value.window.candidate;
    }
  }

  /** A first publish the broker took without acknowledging it leaves a value nobody claims. A later pass
      that hears it clears it, if it goes by an ownership rule that owns it; one that only goes by what this
      process has claimed leaves it, since nothing was ever claimed there. */
  lemma RefusedFirstPublish(cfg: Settings, s: Sys, t: string, req: Request, ts: seq<string>)
    requires Scoped(req) && !req.reportOnly && t in ts
    requires t in s.flight && s.flight[t].Putting? && t in s.broker
    requires t !in s.memo.declared && t !in s.memo.claimed && Count(s.memo.keptCount, t) == 0
    ensures var left := Apply(cfg, s, EndPut(t, false));
            && (s.broker[t] == Own ==> left.broker[t] == Stale) && !Claims(left.memo, t)
            && (t in QuietPass(cfg, left, req, ts).broker <==>
                  req.selfClaimed || ConfigTopics.Parse(cfg.prefix, t).None?
                  || (req.owns.Some? && !req.owns.value(ConfigTopics.Parse(cfg.prefix, t).value)))
  {
    QuietPassClearsExactly(cfg, Apply(cfg, s, EndPut(t, false)), req, ts, t);
  }

  /** Two rules narrow a pass: with both, a quiet pass clears exactly what it would clear with either alone. */
  lemma BothRulesNarrow(cfg: Settings, s: Sys, rule: ConfigTopics.ConfigTopic -> bool, ts: seq<string>, t: string)
    requires t in s.broker
    ensures t !in QuietPass(cfg, s, Request(Some(rule), true, false), ts).broker <==>
              && t !in QuietPass(cfg, s, Request(Some(rule), false, false), ts).broker
              && t !in QuietPass(cfg, s, Request(None, true, false), ts).broker
  {
    QuietPassClearsExactly(cfg, s, Request(Some(rule), true, false), ts, t);
    QuietPassClearsExactly(cfg, s, Request(Some(rule), false, false), ts, t);
    QuietPassClearsExactly(cfg, s, Request(None, true, false), ts, t);
  }

  /** What a self-claimed pass goes by: this process has had a publish of the topic acknowledged, whatever has
      become of it since. */
  lemma {:induction false} ClaimedIsPublished(cfg: Settings, s: Sys, steps: seq<Step>, t: string)
    requires Initial(s) && IsRun(cfg, s, steps)
    ensures t in After(cfg, s, steps).memo.claimed <==> EndPut(t, true) in steps
  {
    if steps != [] {
      var front, last := steps[..|steps| - 1], steps[|steps| - 1];
      assert steps == front + [last];
      ClaimedIsPublished(cfg, s, front, t);
      StepClaims(cfg, After(cfg, s, front), last, t);
    }
  }

  lemma StepClaims(cfg: Settings, s: Sys, step: Step, t: string)
    requires Possible(s, step)
    ensures t in Apply(cfg, s, step).memo.claimed <==> t in s.memo.claimed || step == EndPut(t, true)
  {
  }
}
