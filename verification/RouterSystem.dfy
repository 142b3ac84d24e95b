/** Every run of one command router against a broker: lifecycle loops, reconnects, publishes,
    copies in flight and their deliveries, interleaved in any way. */
module RouterSystem {
  import opened Text
  import opened Specificity
  import opened FilterSyntax
  import opened Routing
  import opened CommandRouting

  /** A router whose registration is over: its routes, the order they are subscribed in, its mode. */
  datatype Config = Config(routes: seq<Route>, order: seq<Route>, attributed: bool)

  /** What the proofs use of the order; ConfigOf establishes it for the order the router computes. */
  ghost predicate Configured(c: Config) {
    && Accepted(c.routes, c.attributed)
    && |c.order| == |c.routes|
    && (forall r :: r in c.order <==> r in c.routes)
    && DistinctFilters(c.order)
    && forall i, j | 0 <= i <= j < |c.order| :: !Outranks(c.order[j].parts, c.order[i].parts)
  }

  function ConfigOf(rs: seq<Route>, attributed: bool): Config {
    Config(rs, SubscribeOrder(rs), attributed)
  }

  lemma ConfigOfIsConfigured(rs: seq<Route>, attributed: bool)
    requires Accepted(rs, attributed)
    ensures Configured(ConfigOf(rs, attributed))
  {
    OrderHoldsRoutes(rs, attributed);
    forall i, j | 0 <= i <= j < |rs| ensures !Outranks(SubscribeOrder(rs)[j].parts, SubscribeOrder(rs)[i].parts) {
      SubscribeOrderIsMostSpecificFirst(rs, i, j);
    }
  }

  /** Where the router's life-cycle call stands; one runs at a time. */
  datatype Phase =
    | Idle
    | Starting(k: nat)
    | RollingBack(j: nat, k: nat, stuck: bool)
    | Resubscribing(k: nat, whole: bool)
    | Stopping(i: nat)

  /** A copy of a message on its way to the handler registered under `target`. */
  datatype Copy = Copy(id: nat, target: string, retained: bool)

  datatype HandlerRun = HandlerRun(id: nat, filter: string)

  /** A published message: whether its winner's subscription was sent a copy, and whether that
      copy was lost on the way or found the gate closed. */
  datatype Message = Message(topic: string, won: bool, lost: bool)

  /** `clean`: no subscribe has been refused, no subscription taken down and no reconnect has cut
      into a loop since the broker's set was last empty or last complete. */
  datatype Sys = Sys(phase: Phase, started: bool, stopped: bool, hasPool: bool, live: set<string>,
                     copies: multiset<Copy>, runs: multiset<HandlerRun>, sent: map<nat, Message>, clean: bool)

  datatype LifeStep =
    | StartOpen
    | SubscribeOk
    | SubscribeRefused
    | LoopDone
    | UnsubscribeOk
    | UnsubscribeRefused
    | RollbackDone
    | ResubscribeOpen
    | StopOpen
    | StopDone
    | Reconnect

  datatype Step =
    | Life(move: LifeStep)
    | Publish(id: nat, topic: string, forwarded: set<string>)
    | Replay(copy: Copy)
    | Deliver(copy: Copy)
    | Lose(copy: Copy)

  const INIT := Sys(Idle, false, false, false, {}, multiset{}, multiset{}, map[], true)

  /** The live subscriptions a topic matches: at most one copy is forwarded for each. */
  function Matching(rs: seq<Route>, live: set<string>, topic: string): set<string> {
    set r | r in rs && r.filter in live && Claims(r, topic) :: r.filter
  }

  predicate InLoop(phase: Phase) {
    phase.Starting? || phase.Resubscribing?
  }

  predicate Unwinding(c: Config, phase: Phase) {
    match phase
    case RollingBack(j, k, _) => j < k <= |c.order|
    case Stopping(i) => i < |c.routes|
    case _ => false
  }

  predicate Possible(c: Config, s: Sys, move: LifeStep) {
    match move
    case StartOpen => s.phase.Idle? && !s.started && !s.stopped
    case SubscribeOk => InLoop(s.phase) && s.phase.k < |c.order|
    case SubscribeRefused => InLoop(s.phase) && s.phase.k < |c.order|
    case LoopDone => InLoop(s.phase) && s.phase.k == |c.order|
    case UnsubscribeOk => Unwinding(c, s.phase)
    case UnsubscribeRefused => Unwinding(c, s.phase)
    case RollbackDone => s.phase.RollingBack? && s.phase.j == s.phase.k
    case ResubscribeOpen => s.phase.Idle? && s.started && !s.stopped
    case StopOpen => s.phase.Idle? && !s.stopped
    case StopDone => s.phase.Stopping? && s.phase.i == |c.routes|
    case Reconnect => true
  }

  predicate Enabled(c: Config, s: Sys, step: Step) {
    match step
    case Life(move) => Possible(c, s, move)
    case Publish(id, topic, forwarded) => id !in s.sent && forwarded <= Matching(c.routes, s.live, topic)
    case Replay(copy) => copy.retained
    case Deliver(copy) => copy in s.copies
    case Lose(copy) => copy in s.copies
  }

  /** How often the broker's forwarded copies of one message reach one handler's queue of copies.
      An attributing client hands a copy to its own subscription; any other re-matches every copy
      against every subscription it holds. */
  function Share(r: Route, live: set<string>, topic: string, forwarded: set<string>, attributed: bool): nat {
    if r.filter !in live || !Claims(r, topic) then 0
    else if attributed then (if r.filter in forwarded then 1 else 0)
    else |forwarded|
  }

  function FanOut(rs: seq<Route>, live: set<string>, id: nat, topic: string, forwarded: set<string>,
                  attributed: bool): multiset<Copy>
  {
    if rs == [] then multiset{}
    else
      var r := rs[|rs| - 1];
      FanOut(rs[..|rs| - 1], live, id, topic, forwarded, attributed)
      + multiset{}[Copy(id, r.filter, false) := Share(r, live, topic, forwarded, attributed)]
  }

  ghost function Winner(rs: seq<Route>, topic: string): (w: Option<Route>)
    ensures w.Some? ==> Wins(rs, topic, w.value)
    ensures w.None? ==> !exists r :: Wins(rs, topic, r)
  {
    if exists r :: Wins(rs, topic, r) then
      var r :| Wins(rs, topic, r);
      Some(r)
    else None
  }

  /** Later states remember every message; only `lost` may still change. */
  predicate Remembers(s: Sys, s': Sys) {
    forall id | id in s.sent ::
      id in s'.sent && s'.sent[id].topic == s.sent[id].topic && s'.sent[id].won == s.sent[id].won
  }

  ghost predicate IsWinnersCopy(c: Config, s: Sys, copy: Copy) {
    && !copy.retained
    && copy.id in s.sent
    && Winner(c.routes, s.sent[copy.id].topic).Some?
    && Winner(c.routes, s.sent[copy.id].topic).value.filter == copy.target
  }

  /** A copy that reaches no handler: remembered on its message when it was the winner's. */
  ghost function Discard(c: Config, s: Sys, copy: Copy): (s': Sys)
    ensures SameLife(s, s') && Remembers(s, s')
  {
    var rest := s.copies - multiset{copy};
    if IsWinnersCopy(c, s, copy) then
      s.(copies := rest, sent := s.sent[copy.id := s.sent[copy.id].(lost := true)])
    else s.(copies := rest)
  }

  /** The router's deliver, acting on one copy. Retained copies are dropped, the default. */
  ghost function Delivered(c: Config, s: Sys, copy: Copy): (s': Sys)
    ensures SameLife(s, s') && Remembers(s, s')
  {
    if s.stopped || !s.hasPool || copy.retained || copy.id !in s.sent then Discard(c, s, copy)
    else
      var winner := Winner(c.routes, s.sent[copy.id].topic);
      if winner.None? || (c.attributed && winner.value.filter != copy.target) then Discard(c, s, copy)
      else
        s.(copies := s.copies - multiset{copy},
           runs := s.runs + multiset{HandlerRun(copy.id, winner.value.filter)})
  }

  /** The life-cycle calls, one transport call or one locked section at a time. */
  function Moved(c: Config, s: Sys, move: LifeStep): (s': Sys)
    requires Possible(c, s, move)
    ensures s'.copies == s.copies && s'.runs == s.runs && s'.sent == s.sent
  {
    match move
    case StartOpen => s.(phase := Starting(0), started := true, hasPool := true)
    case SubscribeOk =>
      s.(live := s.live + {c.order[s.phase.k].filter},
         phase := if s.phase.Starting? then Starting(s.phase.k + 1) else Resubscribing(s.phase.k + 1, s.phase.whole))
    case SubscribeRefused =>
      s.(clean := false,
         phase := if s.phase.Starting? then RollingBack(0, s.phase.k, false) else Resubscribing(s.phase.k + 1, false))
    case LoopDone =>
      s.(phase := Idle, clean := s.clean || (s.phase.Resubscribing? && s.phase.whole))
    case UnsubscribeOk =>
      if s.phase.RollingBack? then
        s.(live := s.live - {c.order[s.phase.j].filter}, clean := false,
           phase := s.phase.(j := s.phase.j + 1))
      else s.(live := s.live - {c.routes[s.phase.i].filter}, clean := false, phase := Stopping(s.phase.i + 1))
    case UnsubscribeRefused =>
      if s.phase.RollingBack? then s.(phase := RollingBack(s.phase.j + 1, s.phase.k, true))
      else s.(phase := Stopping(s.phase.i + 1))
    case RollbackDone =>
      s.(phase := Idle, started := false, stopped := s.phase.stuck, hasPool := false, clean := !s.phase.stuck)
    case ResubscribeOpen => s.(phase := Resubscribing(0, true))
    case StopOpen =>
      s.(stopped := true, hasPool := false, phase := if s.started then Stopping(0) else Idle)
    case StopDone => s.(phase := Idle)
    case Reconnect =>
      s.(live := {}, clean := s.phase.Idle?,
         phase := if s.phase.Resubscribing? then Resubscribing(s.phase.k, false) else s.phase)
  }

  predicate SameLife(s: Sys, s': Sys) {
    && s'.phase == s.phase && s'.started == s.started && s'.stopped == s.stopped
    && s'.hasPool == s.hasPool && s'.live == s.live && s'.clean == s.clean
  }

  ghost function Published(c: Config, s: Sys, id: nat, topic: string, forwarded: set<string>): (s': Sys)
    ensures SameLife(s, s')
    ensures id !in s.sent ==> Remembers(s, s')
  {
    var winner := Winner(c.routes, topic);
    s.(copies := s.copies + FanOut(c.routes, s.live, id, topic, forwarded, c.attributed),
       sent := s.sent[id := Message(topic, winner.Some? && winner.value.filter in forwarded, false)])
  }

  ghost function Apply(c: Config, s: Sys, step: Step): (s': Sys)
    requires Enabled(c, s, step)
    ensures !step.Life? ==> SameLife(s, s')
    ensures Remembers(s, s')
  {
    match step
    case Life(move) => Moved(c, s, move)
    case Publish(id, topic, forwarded) => Published(c, s, id, topic, forwarded)
    case Replay(copy) => s.(copies := s.copies + multiset{copy})
    case Deliver(copy) => Delivered(c, s, copy)
    case Lose(copy) => Discard(c, s, copy)
  }

  ghost predicate IsRun(c: Config, s: Sys, steps: seq<Step>)
    decreases |steps|
  {
    steps == [] || (Enabled(c, s, steps[0]) && IsRun(c, Apply(c, s, steps[0]), steps[1..]))
  }

  ghost function Final(c: Config, s: Sys, steps: seq<Step>): Sys
    requires IsRun(c, s, steps)
    decreases |steps|
  {
    if steps == [] then s else Final(c, Apply(c, s, steps[0]), steps[1..])
  }

  // ------------------------------------------------------------- life cycle

  predicate HoldsFirst(order: seq<Route>, live: set<string>, k: nat)
    requires k <= |order|
  {
    forall i | 0 <= i < k :: order[i].filter in live
  }

  predicate WithinFirst(order: seq<Route>, live: set<string>, k: nat)
    requires k <= |order|
  {
    forall f | f in live :: exists i | 0 <= i < k :: order[i].filter == f
  }

  ghost predicate PhaseInv(c: Config, s: Sys) {
    match s.phase
    case Idle => !s.started && !s.stopped ==> s.live == {}
    case Starting(k) =>
      s.started && !s.stopped && k <= |c.order| && WithinFirst(c.order, s.live, k) && (s.clean ==> HoldsFirst(c.order, s.live, k))
    case RollingBack(j, k, stuck) =>
      && s.started && !s.stopped && j <= k <= |c.order| && WithinFirst(c.order, s.live, k)
      && (!stuck ==> forall i | 0 <= i < j :: c.order[i].filter !in s.live)
    case Resubscribing(k, whole) =>
      s.started && !s.stopped && k <= |c.order| && (s.clean || whole ==> HoldsFirst(c.order, s.live, k))
    case Stopping(i) => s.stopped && i <= |c.routes|
  }

  ghost predicate LifeInv(c: Config, s: Sys) {
    && s.live <= FilterSet(c.routes)
    && (s.hasPool <==> s.started && !s.stopped)
    && PhaseInv(c, s)
    && (s.clean ==> Closed(c.routes, s.live))
  }

  lemma SubscribeKeepsClosed(c: Config, live: set<string>, k: nat)
    requires Configured(c) && k < |c.order|
    requires Closed(c.routes, live) && HoldsFirst(c.order, live, k)
    ensures Closed(c.routes, live + {c.order[k].filter})
  {
    var added := c.order[k];
    assert added in c.routes;
    forall r, s | r in c.routes && s in c.routes && s.filter in live + {added.filter} && Outranks(r.parts, s.parts)
      ensures r.filter in live + {added.filter}
    {
      if s.filter !in live {
        if s != added {
          RoutesDiffer(c.routes, c.attributed, s, added);
        }
        assert r in c.order;
        var m :| 0 <= m < |c.order| && c.order[m] == r;
        assert m < k;
      }
    }
  }

  lemma WholeSetIsClosed(c: Config, live: set<string>)
    requires Configured(c) && HoldsFirst(c.order, live, |c.order|)
    ensures Closed(c.routes, live)
  {
    forall r | r in c.routes ensures r.filter in live {
      assert r in c.order;
    }
  }

  lemma WithinGrows(order: seq<Route>, live: set<string>, k: nat)
    requires k < |order| && WithinFirst(order, live, k)
    ensures WithinFirst(order, live + {order[k].filter}, k + 1)
  {
    forall f | f in live + {order[k].filter} ensures exists i | 0 <= i < k + 1 :: order[i].filter == f {
      if f in live {
        var i :| 0 <= i < k && order[i].filter == f;
      } else {
        assert order[k].filter == f;
      }
    }
  }

  lemma HoldsGrows(order: seq<Route>, live: set<string>, k: nat)
    requires k < |order| && HoldsFirst(order, live, k)
    ensures HoldsFirst(order, live + {order[k].filter}, k + 1)
  {
  }

  lemma SubscribeOkKeepsLife(c: Config, s: Sys)
    requires Configured(c) && LifeInv(c, s) && Possible(c, s, SubscribeOk)
    ensures LifeInv(c, Moved(c, s, SubscribeOk))
  {
    var k, live := s.phase.k, s.live;
    assert c.order[k] in c.routes;
    if s.phase.Starting? {
      WithinGrows(c.order, live, k);
    }
    if HoldsFirst(c.order, live, k) {
      HoldsGrows(c.order, live, k);
    }
    if s.clean {
      SubscribeKeepsClosed(c, live, k);
    }
  }

  lemma RollbackDoneKeepsLife(c: Config, s: Sys)
    requires Configured(c) && LifeInv(c, s) && Possible(c, s, RollbackDone)
    ensures LifeInv(c, Moved(c, s, RollbackDone))
  {
    if !s.phase.stuck {
      assert forall f :: f !in s.live;
      assert s.live == {};
    }
  }

  lemma LoopDoneKeepsLife(c: Config, s: Sys)
    requires Configured(c) && LifeInv(c, s) && Possible(c, s, LoopDone)
    ensures LifeInv(c, Moved(c, s, LoopDone))
  {
    if s.phase.Resubscribing? && s.phase.whole {
      WholeSetIsClosed(c, s.live);
    }
  }

  lemma MoveKeepsLife(c: Config, s: Sys, move: LifeStep)
    requires Configured(c) && LifeInv(c, s) && Possible(c, s, move)
    ensures LifeInv(c, Moved(c, s, move))
  {
    match move
    case SubscribeOk => SubscribeOkKeepsLife(c, s);
    case RollbackDone => RollbackDoneKeepsLife(c, s);
    case LoopDone => LoopDoneKeepsLife(c, s);
    case _ =>
  }

  lemma StepKeepsLife(c: Config, s: Sys, step: Step)
    requires Configured(c) && LifeInv(c, s) && Enabled(c, s, step)
    ensures LifeInv(c, Apply(c, s, step))
  {
    if step.Life? {
      MoveKeepsLife(c, s, step.move);
    }
  }

  // ------------------------------------------------------- message accounting

  lemma {:induction false} FanOutOnlyClaimants(rs: seq<Route>, live: set<string>, id: nat, topic: string,
                                               forwarded: set<string>, attributed: bool, copy: Copy)
    requires copy in FanOut(rs, live, id, topic, forwarded, attributed)
    ensures copy.id == id && !copy.retained
    ensures exists r :: r in rs && r.filter == copy.target && Claims(r, topic)
  {
    var n := |rs| - 1;
    if copy in FanOut(rs[..n], live, id, topic, forwarded, attributed) {
      FanOutOnlyClaimants(rs[..n], live, id, topic, forwarded, attributed, copy);
    } else {
      assert rs[n] in rs && rs[n].filter == copy.target;
    }
  }

  lemma {:induction false} FanOutCounts(rs: seq<Route>, live: set<string>, id: nat, topic: string,
                                        forwarded: set<string>, attributed: bool, r: Route)
    requires DistinctFilters(rs) && r in rs
    ensures FanOut(rs, live, id, topic, forwarded, attributed)[Copy(id, r.filter, false)]
            == Share(r, live, topic, forwarded, attributed)
  {
    var n := |rs| - 1;
    var front, copy := rs[..n], Copy(id, r.filter, false);
    if r == rs[n] {
      forall s | s in front ensures s.filter != r.filter {
        var i :| 0 <= i < n && rs[i] == s;
      }
      if copy in FanOut(front, live, id, topic, forwarded, attributed) {
        FanOutOnlyClaimants(front, live, id, topic, forwarded, attributed, copy);
      }
    } else {
      var i :| 0 <= i < |rs| && rs[i] == r;
      assert front[i] == r;
      FanOutCounts(front, live, id, topic, forwarded, attributed, r);
    }
  }

  /** Exactly the winner's copy counts, attributed or not. */
  lemma WinnersShare(c: Config, live: set<string>, id: nat, topic: string, forwarded: set<string>, w: Route)
    requires Configured(c) && Wins(c.routes, topic, w)
    requires forwarded <= Matching(c.routes, live, topic)
    ensures FanOut(c.routes, live, id, topic, forwarded, c.attributed)[Copy(id, w.filter, false)]
            == if w.filter in forwarded then 1 else 0
  {
    AcceptedIsDistinct(c.routes, c.attributed);
    FanOutCounts(c.routes, live, id, topic, forwarded, c.attributed, w);
    if w.filter in forwarded {
      var r :| r in c.routes && r.filter in live && Claims(r, topic) && r.filter == w.filter;
      assert w.filter in live;
    }
    if !c.attributed {
      forall f | f in forwarded ensures f == w.filter {
        var r :| r in c.routes && r.filter in live && Claims(r, topic) && r.filter == f;
        if r != w {
          ClaimantsAreOrdered(c.routes, c.attributed, topic, r, w);
        }
      }
      if w.filter in forwarded {
        assert forwarded == {w.filter};
      } else {
        assert forwarded == {};
      }
    }
  }

  ghost predicate Claimed(c: Config, target: string, topic: string) {
    exists r :: r in c.routes && r.filter == target && Claims(r, topic)
  }

  /** The books on one message: the winner's copy is in flight, has run, or was lost — once. */
  ghost predicate Balanced(c: Config, s: Sys, id: nat)
    requires id in s.sent
  {
    var m := s.sent[id];
    match Winner(c.routes, m.topic)
    case None => !m.won
    case Some(w) =>
      s.copies[Copy(id, w.filter, false)] + s.runs[HandlerRun(id, w.filter)] + (if m.lost then 1 else 0)
      == (if m.won then 1 else 0)
  }

  ghost predicate CopiesInv(c: Config, s: Sys) {
    forall copy | copy in s.copies && !copy.retained ::
      copy.id in s.sent && Claimed(c, copy.target, s.sent[copy.id].topic)
  }

  ghost predicate RunByWinner(c: Config, s: Sys, run: HandlerRun) {
    && run.id in s.sent
    && Winner(c.routes, s.sent[run.id].topic).Some?
    && Winner(c.routes, s.sent[run.id].topic).value.filter == run.filter
  }

  ghost predicate MessageInv(c: Config, s: Sys) {
    && CopiesInv(c, s)
    && (forall run | run in s.runs :: RunByWinner(c, s, run))
    && (forall id | id in s.sent :: Balanced(c, s, id))
  }

  /** In a router without attribution a copy can only be the winner's: no other route claims the topic. */
  lemma UnattributedCopyIsWinners(c: Config, target: string, topic: string)
    requires Configured(c) && !c.attributed && Claimed(c, target, topic)
    ensures Winner(c.routes, topic).Some? && Winner(c.routes, topic).value.filter == target
  {
    var r :| r in c.routes && r.filter == target && Claims(r, topic);
    WinnerExists(c.routes, c.attributed, topic, r);
    var w := Winner(c.routes, topic).value;
    if w != r {
      ClaimantsAreOrdered(c.routes, c.attributed, topic, w, r);
    }
  }

  lemma BalancedFrame(c: Config, s: Sys, s': Sys, id: nat)
    requires id in s.sent && id in s'.sent && s.sent[id] == s'.sent[id]
    requires forall t :: s.copies[Copy(id, t, false)] == s'.copies[Copy(id, t, false)]
    requires forall t :: s.runs[HandlerRun(id, t)] == s'.runs[HandlerRun(id, t)]
    ensures Balanced(c, s, id) <==> Balanced(c, s', id)
  {
  }

  lemma NewMessageBalanced(c: Config, s: Sys, id: nat, topic: string, forwarded: set<string>)
    requires Configured(c) && forwarded <= Matching(c.routes, s.live, topic)
    requires forall t :: Copy(id, t, false) !in s.copies
    requires forall t :: HandlerRun(id, t) !in s.runs
    ensures Balanced(c, Published(c, s, id, topic, forwarded), id)
  {
    if Winner(c.routes, topic).Some? {
      WinnersShare(c, s.live, id, topic, forwarded, Winner(c.routes, topic).value);
    }
  }

  lemma PublishKeepsCopies(c: Config, s: Sys, id: nat, topic: string, forwarded: set<string>)
    requires CopiesInv(c, s) && id !in s.sent
    ensures CopiesInv(c, Published(c, s, id, topic, forwarded))
    ensures forall copy | copy in FanOut(c.routes, s.live, id, topic, forwarded, c.attributed) :: copy.id == id
  {
    forall copy | copy in FanOut(c.routes, s.live, id, topic, forwarded, c.attributed)
      ensures copy.id == id && !copy.retained && Claimed(c, copy.target, topic)
    {
      FanOutOnlyClaimants(c.routes, s.live, id, topic, forwarded, c.attributed, copy);
    }
  }

  lemma OldMessageBalanced(c: Config, s: Sys, id: nat, topic: string, forwarded: set<string>, i: nat)
    requires CopiesInv(c, s) && id !in s.sent
    requires i in s.sent && Balanced(c, s, i)
    ensures Balanced(c, Published(c, s, id, topic, forwarded), i)
  {
    PublishKeepsCopies(c, s, id, topic, forwarded);
    assert forall t :: Copy(i, t, false) !in FanOut(c.routes, s.live, id, topic, forwarded, c.attributed);
    BalancedFrame(c, s, Published(c, s, id, topic, forwarded), i);
  }

  lemma PublishKeepsMessages(c: Config, s: Sys, id: nat, topic: string, forwarded: set<string>)
    requires Configured(c) && MessageInv(c, s) && Enabled(c, s, Publish(id, topic, forwarded))
    ensures MessageInv(c, Published(c, s, id, topic, forwarded))
  {
    var s' := Published(c, s, id, topic, forwarded);
    PublishKeepsCopies(c, s, id, topic, forwarded);
    NewMessageBalanced(c, s, id, topic, forwarded);
    forall i | i in s'.sent ensures Balanced(c, s', i) {
      if i != id {
        OldMessageBalanced(c, s, id, topic, forwarded, i);
      }
    }
    forall run | run in s'.runs ensures RunByWinner(c, s', run) {
      assert RunByWinner(c, s, run);
    }
  }

  lemma DiscardBalanced(c: Config, s: Sys, copy: Copy, id: nat)
    requires copy in s.copies && id in s.sent && Balanced(c, s, id)
    ensures Balanced(c, Discard(c, s, copy), id)
  {
    var s' := Discard(c, s, copy);
    if copy.id != id || copy.retained {
      BalancedFrame(c, s, s', id);
    } else if Winner(c.routes, s.sent[id].topic).Some? {
      var w := Winner(c.routes, s.sent[id].topic).value;
      if w.filter == copy.target {
        assert s'.copies[copy] == s.copies[copy] - 1;
      } else {
        assert s'.copies[Copy(id, w.filter, false)] == s.copies[Copy(id, w.filter, false)];
      }
    }
  }

  lemma DiscardKeepsCopies(c: Config, s: Sys, copy: Copy)
    requires copy in s.copies
    ensures Discard(c, s, copy).sent.Keys == s.sent.Keys
    ensures forall id | id in s.sent :: Discard(c, s, copy).sent[id].topic == s.sent[id].topic
    ensures Discard(c, s, copy).runs == s.runs
    ensures CopiesInv(c, s) ==> CopiesInv(c, Discard(c, s, copy))
  {
  }

  lemma DiscardKeepsMessages(c: Config, s: Sys, copy: Copy)
    requires MessageInv(c, s) && copy in s.copies
    ensures MessageInv(c, Discard(c, s, copy))
  {
    var s' := Discard(c, s, copy);
    DiscardKeepsCopies(c, s, copy);
    forall id | id in s'.sent ensures Balanced(c, s', id) {
      DiscardBalanced(c, s, copy, id);
    }
    forall run | run in s'.runs ensures RunByWinner(c, s', run) {
      assert RunByWinner(c, s, run);
    }
  }

  lemma HandledBalanced(c: Config, s: Sys, copy: Copy, id: nat)
    requires copy in s.copies && id in s.sent && Balanced(c, s, id)
    requires IsWinnersCopy(c, s, copy)
    ensures Balanced(c, s.(copies := s.copies - multiset{copy},
                           runs := s.runs + multiset{HandlerRun(copy.id, copy.target)}), id)
  {
    var s' := s.(copies := s.copies - multiset{copy},
                 runs := s.runs + multiset{HandlerRun(copy.id, copy.target)});
    if copy.id != id {
      BalancedFrame(c, s, s', id);
    } else {
      assert s'.copies[copy] == s.copies[copy] - 1;
      assert s'.runs[HandlerRun(id, copy.target)] == s.runs[HandlerRun(id, copy.target)] + 1;
    }
  }

  lemma DeliverKeepsMessages(c: Config, s: Sys, copy: Copy)
    requires Configured(c) && MessageInv(c, s) && copy in s.copies
    ensures MessageInv(c, Delivered(c, s, copy))
  {
    if Delivered(c, s, copy) == Discard(c, s, copy) {
      DiscardKeepsMessages(c, s, copy);
    } else {
      if !c.attributed {
        UnattributedCopyIsWinners(c, copy.target, s.sent[copy.id].topic);
      }
      HandledKeepsMessages(c, s, copy);
    }
  }

  lemma HandledKeepsMessages(c: Config, s: Sys, copy: Copy)
    requires MessageInv(c, s) && copy in s.copies && IsWinnersCopy(c, s, copy)
    ensures MessageInv(c, s.(copies := s.copies - multiset{copy},
                             runs := s.runs + multiset{HandlerRun(copy.id, copy.target)}))
  {
    var s' := s.(copies := s.copies - multiset{copy},
                 runs := s.runs + multiset{HandlerRun(copy.id, copy.target)});
    forall id | id in s.sent ensures Balanced(c, s', id) {
      HandledBalanced(c, s, copy, id);
    }
    forall run | run in s'.runs ensures RunByWinner(c, s', run) {
      assert run == HandlerRun(copy.id, copy.target) || RunByWinner(c, s, run);
    }
  }

  lemma MessagesFrame(c: Config, s: Sys, s': Sys)
    requires MessageInv(c, s)
    requires s'.sent == s.sent && s'.runs == s.runs
    requires forall copy: Copy | !copy.retained :: s'.copies[copy] == s.copies[copy]
    ensures MessageInv(c, s')
  {
    forall id | id in s.sent ensures Balanced(c, s', id) {
      assert Balanced(c, s, id);
      BalancedFrame(c, s, s', id);
    }
    forall run | run in s'.runs ensures RunByWinner(c, s', run) {
      assert RunByWinner(c, s, run);
    }
    forall copy | copy in s'.copies && !copy.retained
      ensures copy.id in s.sent && Claimed(c, copy.target, s.sent[copy.id].topic)
    {
      assert copy in s.copies;
    }
  }

  lemma StepKeepsMessages(c: Config, s: Sys, step: Step)
    requires Configured(c) && MessageInv(c, s) && Enabled(c, s, step)
    ensures MessageInv(c, Apply(c, s, step))
  {
    match step
    case Publish(id, topic, forwarded) => PublishKeepsMessages(c, s, id, topic, forwarded);
    case Deliver(copy) => DeliverKeepsMessages(c, s, copy);
    case Lose(copy) => DiscardKeepsMessages(c, s, copy);
    case Life(move) => MessagesFrame(c, s, Moved(c, s, move));
    case Replay(copy) => MessagesFrame(c, s, s.(copies := s.copies + multiset{copy}));
  }

  lemma {:induction false} RunKeepsInvariants(c: Config, s: Sys, steps: seq<Step>)
    requires Configured(c) && LifeInv(c, s) && MessageInv(c, s) && IsRun(c, s, steps)
    ensures LifeInv(c, Final(c, s, steps)) && MessageInv(c, Final(c, s, steps))
    decreases |steps|
  {
    if steps != [] {
      StepKeepsLife(c, s, steps[0]);
      StepKeepsMessages(c, s, steps[0]);
      RunKeepsInvariants(c, Apply(c, s, steps[0]), steps[1..]);
    }
  }

  ghost predicate Reachable(c: Config, s: Sys) {
    exists steps :: IsRun(c, INIT, steps) && Final(c, INIT, steps) == s
  }

  lemma ReachableInvariants(c: Config, s: Sys)
    requires Configured(c) && Reachable(c, s)
    ensures LifeInv(c, s) && MessageInv(c, s)
  {
    var steps :| IsRun(c, INIT, steps) && Final(c, INIT, steps) == s;
    RunKeepsInvariants(c, INIT, steps);
  }

  // ------------------------------------------------------------ main results

  /** In every reachable state, rollback and shutdown included, a message has caused at most one
      handler run, and it was the most specific route's. */
  lemma AtMostOneHandler(rs: seq<Route>, attributed: bool, s: Sys, id: nat, f: string, g: string)
    requires Accepted(rs, attributed) && Reachable(ConfigOf(rs, attributed), s)
    ensures s.runs[HandlerRun(id, f)] <= 1
    ensures s.runs[HandlerRun(id, f)] + s.runs[HandlerRun(id, g)] > 0 && f != g ==>
              s.runs[HandlerRun(id, f)] + s.runs[HandlerRun(id, g)] == 1
    ensures HandlerRun(id, f) in s.runs ==>
              id in s.sent && exists w :: Wins(rs, s.sent[id].topic, w) && w.filter == f
  {
    var c := ConfigOf(rs, attributed);
    ConfigOfIsConfigured(rs, attributed);
    ReachableInvariants(c, s);
    if id in s.sent {
      assert Balanced(c, s, id);
    }
  }

  /** Once none of a message's copies is in flight and its winner's copy was not lost to a closed
      gate or a dropped connection, one handler has run if and only if the winner's subscription
      was forwarded a copy; otherwise none has. */
  lemma ExactlyOneHandlerIff(rs: seq<Route>, attributed: bool, s: Sys, id: nat, w: Route)
    requires Accepted(rs, attributed) && Reachable(ConfigOf(rs, attributed), s)
    requires id in s.sent && !s.sent[id].lost && Wins(rs, s.sent[id].topic, w)
    requires forall t :: Copy(id, t, false) !in s.copies
    ensures s.runs[HandlerRun(id, w.filter)] == if s.sent[id].won then 1 else 0
  {
    var c := ConfigOf(rs, attributed);
    ConfigOfIsConfigured(rs, attributed);
    ReachableInvariants(c, s);
    assert Balanced(c, s, id);
    WinnerIsUnique(rs, s.sent[id].topic, w, Winner(rs, s.sent[id].topic).value);
    assert Copy(id, w.filter, false) !in s.copies;
  }

  /** And the winner is forwarded a copy whenever any live subscription matches, at every moment of a
      Start or Resubscribe loop none of whose subscribes was refused, and after it: most specific first. */
  lemma WinnerIsLiveDuringSubscribe(rs: seq<Route>, attributed: bool, s: Sys, id: nat, topic: string)
    requires Accepted(rs, attributed) && Reachable(ConfigOf(rs, attributed), s)
    requires s.clean && Matching(rs, s.live, topic) != {} && id !in s.sent
    ensures Published(ConfigOf(rs, attributed), s, id, topic, Matching(rs, s.live, topic)).sent[id].won
  {
    ConfigOfIsConfigured(rs, attributed);
    ReachableInvariants(ConfigOf(rs, attributed), s);
    ClosedHoldsWinner(rs, attributed, s.live, topic);
  }

  lemma ClosedHoldsWinner(rs: seq<Route>, attributed: bool, live: set<string>, topic: string)
    requires Accepted(rs, attributed) && Closed(rs, live)
    requires Matching(rs, live, topic) != {}
    ensures Winner(rs, topic).Some? && Winner(rs, topic).value.filter in Matching(rs, live, topic)
  {
    var f :| f in Matching(rs, live, topic);
    var r :| r in rs && r.filter in live && Claims(r, topic) && r.filter == f;
    WinnerExists(rs, attributed, topic, r);
    var w := Winner(rs, topic).value;
    assert r == w || Outranks(w.parts, r.parts);
  }

  /** The router object's own start, request by request: whenever some route that claims a topic is live, so
      is the topic's winner. */
  lemma StartHoldsWinners(rs: seq<Route>, attributed: bool, asked: seq<Request>, k: nat, topic: string)
    requires Accepted(rs, attributed) && WentUp(asked, rs) && k <= |asked|
    requires Matching(rs, LiveAfter({}, asked[..k]), topic) != {}
    ensures Winner(rs, topic).Some? && Winner(rs, topic).value.filter in LiveAfter({}, asked[..k])
  {
    assert Closed(rs, LiveAfter({}, asked[..k]));
    ClosedHoldsWinner(rs, attributed, LiveAfter({}, asked[..k]), topic);
  }

  lemma {:induction false} PublishedIsForGood(c: Config, s: Sys, steps: seq<Step>, id: nat)
    requires IsRun(c, s, steps) && id in s.sent
    ensures id in Final(c, s, steps).sent
    ensures Final(c, s, steps).sent[id].topic == s.sent[id].topic && Final(c, s, steps).sent[id].won == s.sent[id].won
    decreases |steps|
  {
    if steps != [] {
      PublishedIsForGood(c, Apply(c, s, steps[0]), steps[1..], id);
    }
  }

  /** Exactly one handler: a message that matches a live subscription, published at any moment of a run
      in which the subscriptions went out cleanly and forwarded once per matching subscription, has run
      exactly one handler — the most specific route's — as soon as its copies have been delivered. */
  lemma ExactlyOneHandler(rs: seq<Route>, attributed: bool, s: Sys, id: nat, topic: string, steps: seq<Step>)
    requires Accepted(rs, attributed) && Reachable(ConfigOf(rs, attributed), s)
    requires s.clean && Matching(rs, s.live, topic) != {} && id !in s.sent
    requires IsRun(ConfigOf(rs, attributed), Published(ConfigOf(rs, attributed), s, id, topic, Matching(rs, s.live, topic)), steps)
    ensures var end := Final(ConfigOf(rs, attributed),
                             Published(ConfigOf(rs, attributed), s, id, topic, Matching(rs, s.live, topic)), steps);
            id in end.sent && (!end.sent[id].lost && (forall t :: Copy(id, t, false) !in end.copies) ==>
              exists w :: Wins(rs, topic, w)
                          && forall f :: end.runs[HandlerRun(id, f)] == if f == w.filter then 1 else 0)
  {
    var c := ConfigOf(rs, attributed);
    var forwarded := Matching(rs, s.live, topic);
    var s1 := Published(c, s, id, topic, forwarded);
    ConfigOfIsConfigured(rs, attributed);
    ReachableInvariants(c, s);
    PublishKeepsMessages(c, s, id, topic, forwarded);
    RunKeepsInvariants(c, s1, steps);
    PublishedIsForGood(c, s1, steps, id);
    WinnerIsLiveDuringSubscribe(rs, attributed, s, id, topic);
    SettledRuns(c, Final(c, s1, steps), id);
  }

  lemma SettledRuns(c: Config, s: Sys, id: nat)
    requires MessageInv(c, s) && id in s.sent && s.sent[id].won
    ensures !s.sent[id].lost && (forall t :: Copy(id, t, false) !in s.copies) ==>
              exists w :: Wins(c.routes, s.sent[id].topic, w)
                          && forall f :: s.runs[HandlerRun(id, f)] == if f == w.filter then 1 else 0
  {
    assert Balanced(c, s, id);
    if !s.sent[id].lost && forall t :: Copy(id, t, false) !in s.copies {
      var w := Winner(c.routes, s.sent[id].topic).value;
      assert Copy(id, w.filter, false) !in s.copies;
      forall f | HandlerRun(id, f) in s.runs ensures f == w.filter {
        assert RunByWinner(c, s, HandlerRun(id, f));
      }
    }
  }

  /** Where a published message stands in any continuation of the run. */
  lemma Followed(rs: seq<Route>, attributed: bool, s: Sys, id: nat, topic: string, forwarded: set<string>, w: Route, steps: seq<Step>)
    requires Accepted(rs, attributed) && Reachable(ConfigOf(rs, attributed), s) && Wins(rs, topic, w)
    requires id !in s.sent && forwarded <= Matching(rs, s.live, topic)
    requires IsRun(ConfigOf(rs, attributed), Published(ConfigOf(rs, attributed), s, id, topic, forwarded), steps)
    ensures var c := ConfigOf(rs, attributed);
            var end := Final(c, Published(c, s, id, topic, forwarded), steps);
            && MessageInv(c, end) && id in end.sent && end.sent[id].topic == topic
            && Winner(rs, topic) == Some(w) && (end.sent[id].won <==> w.filter in forwarded)
  {
    var c := ConfigOf(rs, attributed);
    ConfigOfIsConfigured(rs, attributed);
    ReachableInvariants(c, s);
    PublishKeepsMessages(c, s, id, topic, forwarded);
    RunKeepsInvariants(c, Published(c, s, id, topic, forwarded), steps);
    PublishedIsForGood(c, Published(c, s, id, topic, forwarded), steps, id);
    WinnerIsUnique(rs, topic, w, Winner(rs, topic).value);
  }

  /** A message published while its winner is not subscribed is run by no handler, at no later moment,
      however many outranked subscriptions were sent a copy. */
  lemma OutrankedAloneIsLost(rs: seq<Route>, attributed: bool, s: Sys, id: nat, topic: string, forwarded: set<string>,
                             w: Route, steps: seq<Step>)
    requires Accepted(rs, attributed) && Reachable(ConfigOf(rs, attributed), s)
    requires id !in s.sent && forwarded <= Matching(rs, s.live, topic)
    requires Wins(rs, topic, w) && w.filter !in s.live
    requires IsRun(ConfigOf(rs, attributed), Published(ConfigOf(rs, attributed), s, id, topic, forwarded), steps)
    ensures var end := Final(ConfigOf(rs, attributed), Published(ConfigOf(rs, attributed), s, id, topic, forwarded), steps);
            forall f :: end.runs[HandlerRun(id, f)] == 0
  {
    var c := ConfigOf(rs, attributed);
    var end := Final(c, Published(c, s, id, topic, forwarded), steps);
    Followed(rs, attributed, s, id, topic, forwarded, w, steps);
    OnlyTheWinnerRuns(c, end, id, w);
    assert Balanced(c, end, id);
  }

  lemma OnlyTheWinnerRuns(c: Config, s: Sys, id: nat, w: Route)
    requires MessageInv(c, s) && id in s.sent && Winner(c.routes, s.sent[id].topic) == Some(w)
    ensures forall f | HandlerRun(id, f) in s.runs :: f == w.filter
  {
    forall f | HandlerRun(id, f) in s.runs ensures f == w.filter {
      assert RunByWinner(c, s, HandlerRun(id, f));
    }
  }

  /** What decides is the broker's set as the message arrives: fully forwarded, delivered and not lost, it
      has run its winner's handler if that subscription was live, and otherwise none. */
  lemma HandledIffWinnerIsLive(rs: seq<Route>, attributed: bool, s: Sys, id: nat, topic: string, w: Route, steps: seq<Step>)
    requires Accepted(rs, attributed) && Reachable(ConfigOf(rs, attributed), s)
    requires id !in s.sent && Wins(rs, topic, w)
    requires IsRun(ConfigOf(rs, attributed), Published(ConfigOf(rs, attributed), s, id, topic, Matching(rs, s.live, topic)), steps)
    ensures var end := Final(ConfigOf(rs, attributed),
                             Published(ConfigOf(rs, attributed), s, id, topic, Matching(rs, s.live, topic)), steps);
            id in end.sent && (!end.sent[id].lost && (forall t :: Copy(id, t, false) !in end.copies) ==>
              ((exists f :: HandlerRun(id, f) in end.runs) <==> w.filter in s.live)
              && forall f :: end.runs[HandlerRun(id, f)] == if f == w.filter && w.filter in s.live then 1 else 0)
  {
    var c := ConfigOf(rs, attributed);
    var forwarded := Matching(rs, s.live, topic);
    var end := Final(c, Published(c, s, id, topic, forwarded), steps);
    Followed(rs, attributed, s, id, topic, forwarded, w, steps);
    assert w.filter in s.live ==> w.filter in forwarded;
    if w.filter !in s.live {
      OutrankedAloneIsLost(rs, attributed, s, id, topic, forwarded, w, steps);
    } else {
      SettledRuns(c, end, id);
      if !end.sent[id].lost && forall t :: Copy(id, t, false) !in end.copies {
        var v :| Wins(rs, topic, v) && forall f :: end.runs[HandlerRun(id, f)] == if f == v.filter then 1 else 0;
        WinnerIsUnique(rs, topic, v, w);
        assert HandlerRun(id, w.filter) in end.runs;
      }
    }
  }

  lemma {:induction false} RunExtends(c: Config, s: Sys, steps: seq<Step>, step: Step)
    requires IsRun(c, s, steps) && Enabled(c, Final(c, s, steps), step)
    ensures IsRun(c, s, steps + [step]) && Final(c, s, steps + [step]) == Apply(c, Final(c, s, steps), step)
    decreases |steps|
  {
    if steps == [] {
      assert ([step] + [])[1..] == [];
    } else {
      RunExtends(c, Apply(c, s, steps[0]), steps[1..], step);
      assert (steps + [step])[1..] == steps[1..] + [step];
    }
  }

  lemma ReachableStep(c: Config, s: Sys, step: Step)
    requires Reachable(c, s) && Enabled(c, s, step)
    ensures Reachable(c, Apply(c, s, step))
  {
    var steps :| IsRun(c, INIT, steps) && Final(c, INIT, steps) == s;
    RunExtends(c, INIT, steps, step);
  }

  /** A start that has subscribed its first two routes. */
  lemma TwoSubscribed(c: Config) returns (s: Sys)
    requires |c.order| >= 2
    ensures Reachable(c, s) && s.phase == Starting(2) && s.sent == map[]
    ensures s.live == {c.order[0].filter, c.order[1].filter}
  {
    assert IsRun(c, INIT, []) && Final(c, INIT, []) == INIT;
    s := INIT;
    ReachableStep(c, s, Life(StartOpen));
    s := Moved(c, s, StartOpen);
    ReachableStep(c, s, Life(SubscribeOk));
    s := Moved(c, s, SubscribeOk);
    ReachableStep(c, s, Life(SubscribeOk));
    s := Moved(c, s, SubscribeOk);
  }

  /** Three routes, the third refused at start, and the rollback one unsubscribe in. */
  lemma RollbackPassesThrough(c: Config) returns (s: Sys)
    requires |c.order| == 3 && DistinctFilters(c.order)
    ensures Reachable(c, s) && s.phase == RollingBack(1, 2, false) && s.live == {c.order[1].filter} && s.sent == map[]
  {
    s := TwoSubscribed(c);
    ReachableStep(c, s, Life(SubscribeRefused));
    s := Moved(c, s, SubscribeRefused);
    ReachableStep(c, s, Life(UnsubscribeOk));
    s := Moved(c, s, UnsubscribeOk);
    assert c.order[0].filter != c.order[1].filter;
  }

  const EXACT := Route("a/b", ["a", "b"], 0)
  const BELOW := Route("a/#", ["a", "#"], 0)
  const EVERYTHING := Route("#", ["#"], 0)

  lemma ExampleSplits()
    ensures Split("a/b") == ["a", "b"] && Split("a/#") == ["a", "#"] && Split("#") == ["#"]
  {
    SplitFlat("b");
    SplitFlat("#");
    SplitCons("a", "b");
    SplitCons("a", "#");
    assert "a" + "/" + "b" == "a/b" && "a" + "/" + "#" == "a/#";
  }

  lemma ExampleRanks()
    ensures Outranks(EXACT.parts, BELOW.parts) && Outranks(BELOW.parts, EVERYTHING.parts) && Outranks(EXACT.parts, EVERYTHING.parts)
  {
    RestRanks(BELOW.parts, 1);
    RestRanks(EVERYTHING.parts, 0);
    assert LevelRank(EXACT.parts, 0) == RANK_LITERAL && LevelRank(EXACT.parts, 1) == RANK_LITERAL;
    assert LevelRank(BELOW.parts, 0) == RANK_LITERAL;
    BoundedDominance(EXACT.parts, BELOW.parts, 2);
    BoundedDominance(BELOW.parts, EXACT.parts, 2);
    BoundedDominance(BELOW.parts, EVERYTHING.parts, 2);
    BoundedDominance(EVERYTHING.parts, BELOW.parts, 2);
    OutranksIsStrictOrder(EXACT.parts, BELOW.parts, EVERYTHING.parts);
  }

  /** From a `#` on, every level ranks lowest. */
  lemma RestRanks(parts: seq<string>, k: nat)
    requires k < |parts| && parts[k] == "#"
    ensures forall i | i >= k :: LevelRank(parts, i) == RANK_REMAINDER
  {
  }

  lemma ExampleIsWellFormed()
    ensures RouteOk(EXACT) && RouteOk(BELOW) && RouteOk(EVERYTHING)
    ensures Claims(EXACT, "a/b") && Claims(BELOW, "a/b")
  {
    ExampleSplits();
    ExampleIsText();
  }

  lemma ExampleIsText()
    ensures ValidUtf8(EXACT.filter) && ValidUtf8(BELOW.filter) && ValidUtf8(EVERYTHING.filter)
  {
    AsciiIsUtf8(EXACT.filter);
    AsciiIsUtf8(BELOW.filter);
    AsciiIsUtf8(EVERYTHING.filter);
  }

  /** Three accepted filters, each outranking the next. */
  ghost predicate Nested(x: Route, y: Route, z: Route) {
    && RouteOk(x) && RouteOk(y) && RouteOk(z)
    && x.filter != y.filter && y.filter != z.filter && x.filter != z.filter
    && Outranks(x.parts, y.parts) && Outranks(y.parts, z.parts) && Outranks(x.parts, z.parts)
  }

  lemma ChainIsAccepted(x: Route, y: Route, z: Route, topic: string)
    requires Nested(x, y, z)
    ensures Accepted([x, y, z], true)
    ensures Claims(x, topic) ==> Wins([x, y, z], topic, x)
  {
    assert Compatible(x, y, true) && Compatible(x, z, true) && Compatible(y, z, true);
    var rs := [x, y, z];
    forall i, j | 0 <= i < j < |rs| ensures Compatible(rs[i], rs[j], true) {
    }
  }

  /** Such a moment is real, for any three nested routes: the widest refused at start, and the narrowest
      already taken down again. A message that matches it is then forwarded for the middle one alone. */
  lemma RollbackLeavesTheMiddle(rs: seq<Route>, topic: string) returns (s: Sys)
    requires |rs| == 3 && Nested(rs[0], rs[1], rs[2]) && Claims(rs[0], topic) && Claims(rs[1], topic)
    ensures Accepted(rs, true) && Wins(rs, topic, rs[0]) && Reachable(ConfigOf(rs, true), s)
    ensures s.phase == RollingBack(1, 2, false) && s.sent == map[] && s.live == {rs[1].filter}
    ensures Matching(rs, s.live, topic) == {rs[1].filter}
  {
    assert rs == [rs[0], rs[1], rs[2]];
    ChainIsAccepted(rs[0], rs[1], rs[2], topic);
    ConfigOfIsConfigured(rs, true);
    ChainOrder(ConfigOf(rs, true), rs[0], rs[1], rs[2]);
    s := RollbackPassesThrough(ConfigOf(rs, true));
    MiddleMatches(rs, s.live, topic);
  }

  /** And that message is never run. */
  lemma RollbackLosesAMessage(rs: seq<Route>, id: nat, topic: string) returns (s: Sys)
    requires |rs| == 3 && Nested(rs[0], rs[1], rs[2]) && Claims(rs[0], topic) && Claims(rs[1], topic)
    ensures Accepted(rs, true) && Reachable(ConfigOf(rs, true), s) && Enabled(ConfigOf(rs, true), s, Publish(id, topic, {rs[1].filter}))
    ensures var c := ConfigOf(rs, true);
            forall steps, f | IsRun(c, Published(c, s, id, topic, {rs[1].filter}), steps) ::
              Final(c, Published(c, s, id, topic, {rs[1].filter}), steps).runs[HandlerRun(id, f)] == 0
  {
    var c := ConfigOf(rs, true);
    s := RollbackLeavesTheMiddle(rs, topic);
    forall steps, f | IsRun(c, Published(c, s, id, topic, {rs[1].filter}), steps)
      ensures Final(c, Published(c, s, id, topic, {rs[1].filter}), steps).runs[HandlerRun(id, f)] == 0
    {
      OutrankedAloneIsLost(rs, true, s, id, topic, {rs[1].filter}, rs[0], steps);
    }
  }

  lemma MiddleMatches(rs: seq<Route>, live: set<string>, topic: string)
    requires |rs| >= 2 && Claims(rs[1], topic) && live == {rs[1].filter}
    ensures Matching(rs, live, topic) == {rs[1].filter}
  {
    assert rs[1] in rs;
  }

  /** `a/b`, `a/#` and `#` are such routes. */
  lemma NestedRoutesExist() returns (rs: seq<Route>, topic: string)
    ensures rs == [EXACT, BELOW, EVERYTHING] && topic == "a/b"
    ensures Nested(rs[0], rs[1], rs[2]) && Claims(rs[0], topic) && Claims(rs[1], topic)
  {
    rs, topic := [EXACT, BELOW, EVERYTHING], "a/b";
    ExampleIsWellFormed();
    ExampleRanks();
  }

  lemma ChainOrder(c: Config, x: Route, y: Route, z: Route)
    requires Configured(c) && c.routes == [x, y, z] && Nested(x, y, z)
    ensures c.order == [x, y, z]
  {
    var a, b, d := c.order[0], c.order[1], c.order[2];
    assert a in c.order && b in c.order && d in c.order;
    assert a in c.routes && b in c.routes && d in c.routes;
    assert a.filter != b.filter && b.filter != d.filter && a.filter != d.filter;
    assert !Outranks(b.parts, a.parts) && !Outranks(d.parts, b.parts) && !Outranks(d.parts, a.parts);
  }

  /** The life cycle, in every reachable state: workers exist exactly while the router accepts
      deliveries, and a router that can still be started has nothing live on the broker. */
  lemma LifeCycle(rs: seq<Route>, attributed: bool, s: Sys)
    requires Accepted(rs, attributed) && Reachable(ConfigOf(rs, attributed), s)
    ensures s.hasPool <==> s.started && !s.stopped
    ensures s.phase.Idle? && !s.started && !s.stopped ==> s.live == {}
    ensures s.live <= FilterSet(rs)
  {
    ConfigOfIsConfigured(rs, attributed);
    ReachableInvariants(ConfigOf(rs, attributed), s);
  }

  /** A router that was closed stays closed and deaf: Stop, and a rollback the broker refused. */
  lemma {:induction false} StoppedIsForGood(c: Config, s: Sys, steps: seq<Step>)
    requires Configured(c) && LifeInv(c, s) && s.stopped && IsRun(c, s, steps)
    ensures Final(c, s, steps).stopped && Final(c, s, steps).runs == s.runs
    decreases |steps|
  {
    if steps != [] {
      StepKeepsLife(c, s, steps[0]);
      StoppedIsForGood(c, Apply(c, s, steps[0]), steps[1..]);
    }
  }
}
