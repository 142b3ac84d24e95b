/** The router and its worker pools together: from a published message to a handler that has returned. */
module EndToEnd {
  import opened Routing
  import Router = CommandRouting
  import Pool = CommandPool
  import Sys = RouterSystem

  /** `pools` are all the pools the router has made, the one it holds now last. */
  datatype World = World(sys: Sys.Sys, pools: seq<Pool.World>)

  /** A step of the router, with the command it enqueues if it does, or one of a worker or a closing pool. */
  datatype Step =
    | Router(step: Sys.Step, cmd: Pool.Command)
    | Work(p: nat, task: Pool.Step)

  /** What the worker pools are made with. */
  datatype Setup = Setup(workers: nat, hash: string -> nat)

  function Handled(cmd: Pool.Command): Sys.HandlerRun {
    Sys.HandlerRun(cmd.id, cmd.filter)
  }

  /** The router step enqueues a command: a copy that passed the gate and the verdict. */
  ghost predicate Enqueues(c: Sys.Config, s: Sys.Sys, step: Sys.Step) {
    && step.Deliver? && s.hasPool && !s.stopped && !step.copy.retained && step.copy.id in s.sent
    && var winner := Sys.Winner(c.routes, s.sent[step.copy.id].topic);
       winner.Some? && (c.attributed ==> winner.value.filter == step.copy.target)
  }

  ghost predicate CommandFor(c: Sys.Config, s: Sys.Sys, copy: Sys.Copy, cmd: Pool.Command) {
    && copy.id in s.sent && cmd.id == copy.id && cmd.topic == s.sent[copy.id].topic
    && Sys.Winner(c.routes, cmd.topic).Some? && cmd.filter == Sys.Winner(c.routes, cmd.topic).value.filter
  }

  ghost predicate Enabled(c: Sys.Config, w: World, step: Step) {
    match step
    case Router(st, cmd) =>
      && Sys.Enabled(c, w.sys, st)
      && (Enqueues(c, w.sys, st) ==> CommandFor(c, w.sys, st.copy, cmd))
    case Work(p, st) =>
      p < |w.pools| && Pool.Possible(w.pools[p], st) && !st.Deliver? && !st.Detach?
  }

  function Slot(setup: Setup, pool: Pool.World, topic: string): nat {
    Pool.PoolIndex(topic, |pool.workers|, setup.hash)
  }

  /** What a router step does to the pool it holds. */
  ghost function OnPool(c: Sys.Config, setup: Setup, s: Sys.Sys, pool: Pool.World, step: Sys.Step, cmd: Pool.Command): Pool.World
    requires |pool.workers| >= 1
  {
    if Enqueues(c, s, step) then Pool.Apply(pool, Pool.Deliver(cmd, Slot(setup, pool, cmd.topic)))
    else if step == Sys.Life(Sys.RollbackDone) && pool.attached then Pool.Apply(pool, Pool.Detach(false))
    else if step == Sys.Life(Sys.StopOpen) && pool.attached then Pool.Apply(pool, Pool.Detach(true))
    else pool
  }

  ghost predicate Staffed(w: World) {
    (forall i | 0 <= i < |w.pools| :: |w.pools[i].workers| >= 1) && (w.sys.hasPool ==> w.pools != [])
  }

  ghost function Next(c: Sys.Config, setup: Setup, w: World, step: Step): World
    requires Staffed(w) && Enabled(c, w, step)
  {
    match step
    case Router(st, cmd) =>
      var s' := Sys.Apply(c, w.sys, st);
      if st == Sys.Life(Sys.StartOpen) then World(s', w.pools + [Pool.Fresh(setup.workers)])
      else if !w.sys.hasPool then World(s', w.pools)
      else
        var n := |w.pools| - 1;
        World(s', w.pools[n := OnPool(c, setup, w.sys, w.pools[n], st, cmd)])
    case Work(p, st) => w.(pools := w.pools[p := Pool.Apply(w.pools[p], st)])
  }

  // ---------------------------------------------------- the object takes that step

  /** The router object is where the model says: its routes, its mode, and its pool while it has one. */
  ghost predicate Stands(r: Router.CommandRouter, c: Sys.Config, s: Sys.Sys)
    reads r
  {
    && r.routes == c.routes && r.attributed == c.attributed
    && (r.pool != null <==> s.hasPool && !s.stopped)
  }

  /** Delivering one copy to the object is the model's step on that copy: it enqueues exactly when the model
      runs a handler, and a command for that very run. */
  method DeliverCopy(r: Router.CommandRouter, copy: Sys.Copy, topic: string, payload: string, ghost c: Sys.Config, ghost s: Sys.Sys)
      returns (outcome: Router.Outcome)
    requires r.Valid() && Stands(r, c, s)
    requires copy.id in s.sent && s.sent[copy.id].topic == topic
    requires copy.retained ==> !r.deliverRetained
    modifies if r.pool == null then [] else r.pool.queues
    ensures outcome.Enqueued? <==> Enqueues(c, s, Sys.Deliver(copy))
    ensures outcome.Enqueued? ==> CommandFor(c, s, copy, outcome.cmd)
    ensures Sys.Delivered(c, s, copy).runs == s.runs + if outcome.Enqueued? then multiset{Handled(outcome.cmd)} else multiset{}
    ensures r.pool != null ==>
              forall i | 0 <= i < |r.pool.queues| ::
                r.pool.queues[i].jobs == old(r.pool.queues[i].jobs)
                  + (if outcome.Enqueued? && i == Pool.PoolIndex(topic, |r.pool.queues|, r.hash) then [outcome.cmd] else [])
  {
    outcome := r.Deliver(copy.target, topic, payload, copy.retained, copy.id);
    DeliveredIsTheStep(r.routes, c, s, copy, topic, outcome, r.pool != null);
  }

  /** What the object answers about one copy. */
  ghost predicate Answers(rs: seq<Route>, c: Sys.Config, copy: Sys.Copy, topic: string, outcome: Router.Outcome, open: bool) {
    && (outcome.Enqueued? <==>
          open && !copy.retained && exists w :: Wins(rs, topic, w) && (c.attributed ==> w.filter == copy.target))
    && (outcome.Enqueued? ==>
          outcome.cmd.id == copy.id && outcome.cmd.topic == topic
          && exists w :: Wins(rs, topic, w) && w.filter == outcome.cmd.filter)
  }

  lemma DeliveredIsTheStep(rs: seq<Route>, c: Sys.Config, s: Sys.Sys, copy: Sys.Copy, topic: string,
                           outcome: Router.Outcome, open: bool)
    requires rs == c.routes && (open <==> s.hasPool && !s.stopped)
    requires copy.id in s.sent && s.sent[copy.id].topic == topic
    requires Answers(rs, c, copy, topic, outcome, open)
    ensures outcome.Enqueued? <==> Enqueues(c, s, Sys.Deliver(copy))
    ensures outcome.Enqueued? ==> CommandFor(c, s, copy, outcome.cmd)
    ensures Sys.Delivered(c, s, copy).runs == s.runs + if outcome.Enqueued? then multiset{Handled(outcome.cmd)} else multiset{}
  {
    var winner := Sys.Winner(rs, topic);
    if winner.Some? {
      OnlyWinner(rs, topic, winner.value);
    }
  }

  // ------------------------------------------------------------------ books

  /** How many of these commands are this run of a handler. */
  function Runs(cmds: seq<Pool.Command>, run: Sys.HandlerRun): nat {
    if cmds == [] then 0
    else Runs(cmds[..|cmds| - 1], run) + if Handled(cmds[|cmds| - 1]) == run then 1 else 0
  }

  /** What all pools have accepted, and what their workers have finished. */
  function Accepted(pools: seq<Pool.World>, run: Sys.HandlerRun): nat {
    if pools == [] then 0 else Accepted(pools[..|pools| - 1], run) + Runs(pools[|pools| - 1].accepted, run)
  }

  function Executed(pools: seq<Pool.World>, run: Sys.HandlerRun): nat {
    if pools == [] then 0 else Executed(pools[..|pools| - 1], run) + Runs(pools[|pools| - 1].done, run)
  }

  /** One pool's books: nothing accepted is lost or reordered. */
  ghost predicate PoolInv(setup: Setup, pool: Pool.World) {
    && Pool.Sharded(pool, setup.hash)
    && forall topic :: InOrder(setup, pool, topic)
  }

  predicate InOrder(setup: Setup, pool: Pool.World, topic: string) {
    |pool.workers| >= 1 && Pool.InOrder(pool, topic, Slot(setup, pool, topic))
  }

  ghost predicate PoolsInv(setup: Setup, pools: seq<Pool.World>) {
    forall i | 0 <= i < |pools| :: PoolInv(setup, pools[i])
  }

  /** The router's account of handler runs is the pools' account of what they accepted. */
  ghost predicate SameBooks(pools: seq<Pool.World>, runs: multiset<Sys.HandlerRun>) {
    forall run :: Accepted(pools, run) == runs[run]
  }

  /** The router holds its last pool, and lets nothing else enqueue. */
  predicate Holds(pools: seq<Pool.World>) {
    pools != [] && pools[|pools| - 1].attached
  }

  ghost predicate Inv(c: Sys.Config, setup: Setup, w: World) {
    && Sys.Reachable(c, w.sys) && PoolsInv(setup, w.pools)
    && (w.sys.hasPool ==> Holds(w.pools)) && SameBooks(w.pools, w.sys.runs)
  }

  lemma FreshPool(setup: Setup)
    requires setup.workers >= 1
    ensures PoolInv(setup, Pool.Fresh(setup.workers))
  {
    var pool := Pool.Fresh(setup.workers);
    assert forall i | 0 <= i < setup.workers :: Pool.Pending(pool.workers[i]) == [];
  }

  lemma PoolStep(setup: Setup, pool: Pool.World, step: Pool.Step)
    requires PoolInv(setup, pool) && Pool.Enabled(pool, step, setup.hash)
    ensures PoolInv(setup, Pool.Apply(pool, step))
  {
    Pool.StepKeepsSharded(pool, step, setup.hash);
    forall topic ensures InOrder(setup, Pool.Apply(pool, step), topic) {
      assert InOrder(setup, pool, topic);
      Pool.StepKeepsOrder(pool, step, topic, setup.hash);
    }
  }

  lemma {:induction false} AcceptedSame(pools: seq<Pool.World>, p: nat, pool: Pool.World, run: Sys.HandlerRun)
    requires p < |pools| && pool.accepted == pools[p].accepted
    ensures Accepted(pools[p := pool], run) == Accepted(pools, run)
  {
    var n := |pools| - 1;
    if p < n {
      AcceptedSame(pools[..n], p, pool, run);
      assert pools[p := pool][..n] == pools[..n][p := pool];
    } else {
      assert pools[p := pool][..n] == pools[..n];
    }
  }

  lemma AcceptedOne(pools: seq<Pool.World>, pool: Pool.World, cmd: Pool.Command, run: Sys.HandlerRun)
    requires pools != [] && pool.accepted == pools[|pools| - 1].accepted + [cmd]
    ensures Accepted(pools[|pools| - 1 := pool], run) == Accepted(pools, run) + if Handled(cmd) == run then 1 else 0
  {
    var n := |pools| - 1;
    assert pools[n := pool][..n] == pools[..n];
    assert pool.accepted[..|pool.accepted| - 1] == pools[n].accepted;
  }

  lemma PoolsSet(setup: Setup, pools: seq<Pool.World>, p: nat, pool: Pool.World)
    requires PoolsInv(setup, pools) && p < |pools| && PoolInv(setup, pool)
    ensures PoolsInv(setup, pools[p := pool])
  {
  }

  lemma BooksKept(pools: seq<Pool.World>, p: nat, pool: Pool.World, runs: multiset<Sys.HandlerRun>)
    requires SameBooks(pools, runs) && p < |pools| && pool.accepted == pools[p].accepted
    ensures SameBooks(pools[p := pool], runs)
  {
    forall run ensures Accepted(pools[p := pool], run) == runs[run] {
      AcceptedSame(pools, p, pool, run);
    }
  }

  lemma BooksGrow(pools: seq<Pool.World>, pool: Pool.World, runs: multiset<Sys.HandlerRun>, cmd: Pool.Command)
    requires SameBooks(pools, runs) && pools != [] && pool.accepted == pools[|pools| - 1].accepted + [cmd]
    ensures SameBooks(pools[|pools| - 1 := pool], runs + multiset{Handled(cmd)})
  {
    forall run ensures Accepted(pools[|pools| - 1 := pool], run) == (runs + multiset{Handled(cmd)})[run] {
      AcceptedOne(pools, pool, cmd, run);
    }
  }

  lemma WorkKeeps(c: Sys.Config, setup: Setup, w: World, p: nat, st: Pool.Step)
    requires Inv(c, setup, w) && Enabled(c, w, Work(p, st))
    ensures Inv(c, setup, Next(c, setup, w, Work(p, st)))
  {
    PoolStep(setup, w.pools[p], st);
    PoolsSet(setup, w.pools, p, Pool.Apply(w.pools[p], st));
    BooksKept(w.pools, p, Pool.Apply(w.pools[p], st), w.sys.runs);
  }

  /** A router step changes `runs` exactly when it enqueues. */
  lemma RouterRuns(c: Sys.Config, s: Sys.Sys, st: Sys.Step, cmd: Pool.Command)
    requires Sys.Enabled(c, s, st)
    requires Enqueues(c, s, st) ==> CommandFor(c, s, st.copy, cmd)
    ensures Sys.Apply(c, s, st).runs == s.runs + if Enqueues(c, s, st) then multiset{Handled(cmd)} else multiset{}
  {
  }

  lemma HeldPoolKeeps(c: Sys.Config, setup: Setup, w: World, st: Sys.Step, cmd: Pool.Command)
    requires Inv(c, setup, w) && w.sys.hasPool && Enabled(c, w, Router(st, cmd))
    ensures var pool := w.pools[|w.pools| - 1];
            var after := OnPool(c, setup, w.sys, pool, st, cmd);
            && PoolInv(setup, after)
            && after.accepted == pool.accepted + (if Enqueues(c, w.sys, st) then [cmd] else [])
            && (Sys.Apply(c, w.sys, st).hasPool ==> after.attached)
  {
    var pool := w.pools[|w.pools| - 1];
    assert PoolInv(setup, pool);
    if Enqueues(c, w.sys, st) {
      var step := Pool.Deliver(cmd, Slot(setup, pool, cmd.topic));
      PoolStep(setup, pool, step);
      assert pool.attached && !pool.stopped;
    } else if st == Sys.Life(Sys.RollbackDone) {
      PoolStep(setup, pool, Pool.Detach(false));
    } else if st == Sys.Life(Sys.StopOpen) {
      PoolStep(setup, pool, Pool.Detach(true));
    }
  }

  lemma StartKeeps(c: Sys.Config, setup: Setup, w: World, cmd: Pool.Command)
    requires Sys.Configured(c) && setup.workers >= 1
    requires Inv(c, setup, w) && Enabled(c, w, Router(Sys.Life(Sys.StartOpen), cmd))
    ensures Inv(c, setup, Next(c, setup, w, Router(Sys.Life(Sys.StartOpen), cmd)))
  {
    Sys.ReachableStep(c, w.sys, Sys.Life(Sys.StartOpen));
    FreshPool(setup);
    FreshAccepts(w.pools, setup.workers);
  }

  lemma HeldBooks(c: Sys.Config, w: World, st: Sys.Step, cmd: Pool.Command, after: Pool.World)
    requires w.pools != [] && SameBooks(w.pools, w.sys.runs)
    requires Sys.Enabled(c, w.sys, st) && (Enqueues(c, w.sys, st) ==> CommandFor(c, w.sys, st.copy, cmd))
    requires after.accepted == w.pools[|w.pools| - 1].accepted + (if Enqueues(c, w.sys, st) then [cmd] else [])
    ensures SameBooks(w.pools[|w.pools| - 1 := after], Sys.Apply(c, w.sys, st).runs)
  {
    RouterRuns(c, w.sys, st, cmd);
    if Enqueues(c, w.sys, st) {
      BooksGrow(w.pools, after, w.sys.runs, cmd);
    } else {
      BooksKept(w.pools, |w.pools| - 1, after, w.sys.runs);
    }
  }

  lemma HeldKeeps(c: Sys.Config, setup: Setup, w: World, st: Sys.Step, cmd: Pool.Command)
    requires Inv(c, setup, w) && Enabled(c, w, Router(st, cmd))
    requires w.sys.hasPool && st != Sys.Life(Sys.StartOpen)
    ensures Inv(c, setup, Next(c, setup, w, Router(st, cmd)))
  {
    var n := |w.pools| - 1;
    var after := OnPool(c, setup, w.sys, w.pools[n], st, cmd);
    Sys.ReachableStep(c, w.sys, st);
    HeldPoolKeeps(c, setup, w, st, cmd);
    PoolsSet(setup, w.pools, n, after);
    HeldBooks(c, w, st, cmd, after);
  }

  lemma RouteKeeps(c: Sys.Config, setup: Setup, w: World, st: Sys.Step, cmd: Pool.Command)
    requires Sys.Configured(c) && setup.workers >= 1
    requires Inv(c, setup, w) && Enabled(c, w, Router(st, cmd))
    ensures Inv(c, setup, Next(c, setup, w, Router(st, cmd)))
  {
    if st == Sys.Life(Sys.StartOpen) {
      StartKeeps(c, setup, w, cmd);
    } else if w.sys.hasPool {
      HeldKeeps(c, setup, w, st, cmd);
    } else {
      Sys.ReachableStep(c, w.sys, st);
      RouterRuns(c, w.sys, st, cmd);
    }
  }

  lemma FreshAccepts(pools: seq<Pool.World>, n: nat)
    ensures forall runs | SameBooks(pools, runs) :: SameBooks(pools + [Pool.Fresh(n)], runs)
  {
    assert (pools + [Pool.Fresh(n)])[..|pools|] == pools;
  }

  lemma StepKeeps(c: Sys.Config, setup: Setup, w: World, step: Step)
    requires Sys.Configured(c) && setup.workers >= 1 && Inv(c, setup, w) && Enabled(c, w, step)
    ensures Staffed(w) && Inv(c, setup, Next(c, setup, w, step))
  {
    forall i | 0 <= i < |w.pools| ensures |w.pools[i].workers| >= 1 {
      assert PoolInv(setup, w.pools[i]);
    }
    if step.Router? {
      RouteKeeps(c, setup, w, step.step, step.cmd);
    } else {
      WorkKeeps(c, setup, w, step.p, step.task);
    }
  }

  ghost predicate IsRun(c: Sys.Config, setup: Setup, w: World, steps: seq<Step>)
    decreases |steps|
  {
    steps == [] || (Staffed(w) && Enabled(c, w, steps[0]) && IsRun(c, setup, Next(c, setup, w, steps[0]), steps[1..]))
  }

  ghost function Final(c: Sys.Config, setup: Setup, w: World, steps: seq<Step>): World
    requires IsRun(c, setup, w, steps)
    decreases |steps|
  {
    if steps == [] then w else Final(c, setup, Next(c, setup, w, steps[0]), steps[1..])
  }

  lemma {:induction false} RunKeeps(c: Sys.Config, setup: Setup, w: World, steps: seq<Step>)
    requires Sys.Configured(c) && setup.workers >= 1 && Inv(c, setup, w) && IsRun(c, setup, w, steps)
    ensures Inv(c, setup, Final(c, setup, w, steps))
    decreases |steps|
  {
    if steps != [] {
      StepKeeps(c, setup, w, steps[0]);
      RunKeeps(c, setup, Next(c, setup, w, steps[0]), steps[1..]);
    }
  }

  // ------------------------------------------------------------ main results

  lemma {:induction false} RunsConcat(a: seq<Pool.Command>, b: seq<Pool.Command>, run: Sys.HandlerRun)
    ensures Runs(a + b, run) == Runs(a, run) + Runs(b, run)
    decreases |b|
  {
    if b == [] {
      assert a + b == a;
    } else {
      RunsConcat(a, b[..|b| - 1], run);
      assert (a + b)[..|a + b| - 1] == a + b[..|b| - 1];
    }
  }

  lemma {:induction false} RunsOf(a: seq<Pool.Command>, b: seq<Pool.Command>, run: Sys.HandlerRun)
    requires multiset(a) <= multiset(b)
    ensures Runs(a, run) <= Runs(b, run)
  {
    if a != [] {
      var front, last := a[..|a| - 1], a[|a| - 1];
      assert a == front + [last];
      assert multiset(b)[last] >= multiset(a)[last] >= 1;
      var k :| 0 <= k < |b| && b[k] == last;
      WithoutOne(front, b, k);
      RunsOf(front, b[..k] + b[k + 1..], run);
      RunsWithout(b, k, run);
    }
  }

  lemma WithoutOne(front: seq<Pool.Command>, b: seq<Pool.Command>, k: nat)
    requires k < |b| && multiset(front + [b[k]]) <= multiset(b)
    ensures multiset(front) <= multiset(b[..k] + b[k + 1..])
  {
    assert b == b[..k] + [b[k]] + b[k + 1..];
    forall y | y in multiset(front) ensures multiset(front)[y] <= multiset(b[..k] + b[k + 1..])[y] {
      assert multiset(front + [b[k]])[y] <= multiset(b)[y];
    }
  }

  lemma RunsWithout(b: seq<Pool.Command>, k: nat, run: Sys.HandlerRun)
    requires k < |b|
    ensures Runs(b, run) == Runs(b[..k] + b[k + 1..], run) + if Handled(b[k]) == run then 1 else 0
  {
    RunsConcat(b[..k], b[k + 1..], run);
    RunsConcat(b[..k + 1], b[k + 1..], run);
    assert b == b[..k + 1] + b[k + 1..];
    assert b[..k + 1][..k] == b[..k];
  }

  /** A pool has finished part of what it accepted, and all of it once nothing is queued or running. */
  lemma PoolExecutes(setup: Setup, pool: Pool.World, run: Sys.HandlerRun)
    requires PoolInv(setup, pool)
    ensures Runs(pool.done, run) <= Runs(pool.accepted, run)
    ensures Drained(pool) ==> Runs(pool.done, run) == Runs(pool.accepted, run)
  {
    forall cmd ensures multiset(pool.done)[cmd] <= multiset(pool.accepted)[cmd]
      ensures Drained(pool) ==> multiset(pool.done)[cmd] == multiset(pool.accepted)[cmd]
    {
      CommandBooks(setup, pool, cmd);
    }
    RunsOf(pool.done, pool.accepted, run);
    if Drained(pool) {
      RunsOf(pool.accepted, pool.done, run);
    }
  }

  predicate Drained(pool: Pool.World) {
    forall i | 0 <= i < |pool.workers| :: Pool.Pending(pool.workers[i]) == []
  }

  lemma CommandBooks(setup: Setup, pool: Pool.World, cmd: Pool.Command)
    requires PoolInv(setup, pool)
    ensures multiset(pool.done)[cmd] <= multiset(pool.accepted)[cmd]
    ensures Drained(pool) ==> multiset(pool.done)[cmd] == multiset(pool.accepted)[cmd]
  {
    assert InOrder(setup, pool, cmd.topic);
    var pending := Pool.OnTopic(Pool.Pending(pool.workers[Slot(setup, pool, cmd.topic)]), cmd.topic);
    Pool.CountOnTopic(pool.done, cmd);
    Pool.CountOnTopic(pool.accepted, cmd);
    assert multiset(Pool.OnTopic(pool.done, cmd.topic) + pending)[cmd]
        == multiset(Pool.OnTopic(pool.done, cmd.topic))[cmd] + multiset(pending)[cmd];
  }

  lemma {:induction false} PoolsExecute(setup: Setup, pools: seq<Pool.World>, run: Sys.HandlerRun)
    requires PoolsInv(setup, pools)
    ensures Executed(pools, run) <= Accepted(pools, run)
    ensures (forall i | 0 <= i < |pools| :: Drained(pools[i])) ==> Executed(pools, run) == Accepted(pools, run)
  {
    if pools != [] {
      PoolsExecute(setup, pools[..|pools| - 1], run);
      PoolExecutes(setup, pools[|pools| - 1], run);
    }
  }

  lemma StartsInv(c: Sys.Config, setup: Setup)
    ensures Inv(c, setup, World(Sys.INIT, []))
  {
    assert Sys.IsRun(c, Sys.INIT, []) && Sys.Final(c, Sys.INIT, []) == Sys.INIT;
  }

  /** At every moment of every run, restarts included, no message has been executed twice, and none by
      another handler than its winner's. */
  lemma ExecutedAtMostOnce(rs: seq<Route>, attributed: bool, setup: Setup, steps: seq<Step>, id: nat, f: string)
    requires Routing.Accepted(rs, attributed) && setup.workers >= 1
    requires IsRun(Sys.ConfigOf(rs, attributed), setup, World(Sys.INIT, []), steps)
    ensures var w := Final(Sys.ConfigOf(rs, attributed), setup, World(Sys.INIT, []), steps);
            && Executed(w.pools, Sys.HandlerRun(id, f)) <= 1
            && (Executed(w.pools, Sys.HandlerRun(id, f)) > 0 ==>
                  id in w.sys.sent && exists r :: Wins(rs, w.sys.sent[id].topic, r) && r.filter == f)
  {
    var c := Sys.ConfigOf(rs, attributed);
    Sys.ConfigOfIsConfigured(rs, attributed);
    StartsInv(c, setup);
    RunKeeps(c, setup, World(Sys.INIT, []), steps);
    var w := Final(c, setup, World(Sys.INIT, []), steps);
    PoolsExecute(setup, w.pools, Sys.HandlerRun(id, f));
    Sys.AtMostOneHandler(rs, attributed, w.sys, id, f, f);
  }

  /** Executed exactly once: with no copy in flight, nothing queued and nothing running, a message whose
      winner's subscription was forwarded a copy that was not lost has been executed once. */
  lemma ExecutedExactlyOnce(rs: seq<Route>, attributed: bool, setup: Setup, steps: seq<Step>, id: nat, r: Route)
    requires Routing.Accepted(rs, attributed) && setup.workers >= 1
    requires IsRun(Sys.ConfigOf(rs, attributed), setup, World(Sys.INIT, []), steps)
    ensures var w := Final(Sys.ConfigOf(rs, attributed), setup, World(Sys.INIT, []), steps);
            && id in w.sys.sent && !w.sys.sent[id].lost && Wins(rs, w.sys.sent[id].topic, r)
            && (forall t :: Sys.Copy(id, t, false) !in w.sys.copies)
            && (forall i | 0 <= i < |w.pools| :: Drained(w.pools[i]))
            ==> Executed(w.pools, Sys.HandlerRun(id, r.filter)) == if w.sys.sent[id].won then 1 else 0
  {
    var c := Sys.ConfigOf(rs, attributed);
    Sys.ConfigOfIsConfigured(rs, attributed);
    StartsInv(c, setup);
    RunKeeps(c, setup, World(Sys.INIT, []), steps);
    var w := Final(c, setup, World(Sys.INIT, []), steps);
    PoolsExecute(setup, w.pools, Sys.HandlerRun(id, r.filter));
    if id in w.sys.sent && !w.sys.sent[id].lost && Wins(rs, w.sys.sent[id].topic, r)
       && forall t :: Sys.Copy(id, t, false) !in w.sys.copies {
      Sys.ExactlyOneHandlerIff(rs, attributed, w.sys, id, r);
    }
  }

  /** In particular once every pool's close has returned: a worker only returns with nothing left to run. */
  lemma ReturnedIsDrained(rs: seq<Route>, attributed: bool, setup: Setup, steps: seq<Step>, p: nat)
    requires Routing.Accepted(rs, attributed) && setup.workers >= 1
    requires IsRun(Sys.ConfigOf(rs, attributed), setup, World(Sys.INIT, []), steps)
    ensures var w := Final(Sys.ConfigOf(rs, attributed), setup, World(Sys.INIT, []), steps);
            p < |w.pools| && (forall i | 0 <= i < |w.pools[p].workers| :: w.pools[p].workers[i].exited) ==> Drained(w.pools[p])
  {
    var c := Sys.ConfigOf(rs, attributed);
    Sys.ConfigOfIsConfigured(rs, attributed);
    StartsInv(c, setup);
    RunKeeps(c, setup, World(Sys.INIT, []), steps);
    var w := Final(c, setup, World(Sys.INIT, []), steps);
    if p < |w.pools| {
      assert PoolInv(setup, w.pools[p]);
    }
  }
}
