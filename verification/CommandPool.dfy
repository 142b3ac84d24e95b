/** The worker pool behind the command router: FIFO queues, sharded by a hash of the topic. */
module CommandPool {
  import opened Text

  /** One inbound message as a handler receives it. `id` tells two equal messages apart. */
  datatype Command = Command(id: nat, topic: string, filter: string, wildcards: seq<string>,
                             remainder: string, payload: string, retained: bool)

  /** poolIndex: the worker slot of a key, for whatever hash is in use. */
  function PoolIndex(key: string, n: nat, hash: string -> nat): (i: nat)
    ensures n >= 1 ==> i < n && i == hash(key) % n
  {
    if n <= 1 then 0 else hash(key) % n
  }

  class CommandQueue {
    var jobs: seq<Command>
    var closed: bool

    constructor ()
      ensures jobs == [] && !closed
    {
      jobs, closed := [], false;
    }

    method Push(job: Command) returns (depth: nat, accepted: bool)
      modifies this
      ensures closed == old(closed)
      ensures accepted == !old(closed)
      ensures accepted ==> jobs == old(jobs) + [job] && depth == |jobs|
      ensures !accepted ==> jobs == old(jobs) && depth == 0
    {
      if closed {
        return 0, false;
      }
      jobs := jobs + [job];
      return |jobs|, true;
    }

    /** The wait for `jobs` or `closed` has ended when this runs. */
    method Pop() returns (job: Option<Command>)
      requires jobs != [] || closed
      modifies this
      ensures closed == old(closed)
      ensures job.Some? <==> old(jobs) != []
      ensures job.Some? ==> old(jobs) == [job.value] + jobs
      ensures job.None? ==> jobs == []
    {
      if jobs == [] {
        return None;
      }
      job := Some(jobs[0]);
      jobs := jobs[1..];
    }

    method Close()
      modifies this
      ensures closed && jobs == old(jobs)
    {
      closed := true;
    }
  }

  class WorkerPool {
    const queues: seq<CommandQueue>
    const softDepth: nat
    const hash: string -> nat

    ghost predicate Valid() {
      && |queues| >= 1
      && softDepth >= 1
      && forall i, j | 0 <= i < j < |queues| :: queues[i] != queues[j]
    }

    /** Both counts are clamped to at least one. */
    constructor (workers: int, softDepth: int, hash: string -> nat)
      ensures Valid() && this.hash == hash
      ensures |queues| == (if workers < 1 then 1 else workers)
      ensures forall i | 0 <= i < |queues| :: fresh(queues[i]) && queues[i].jobs == [] && !queues[i].closed
    {
      var n := if workers < 1 then 1 else workers;
      var qs: seq<CommandQueue> := [];
      while |qs| < n
        invariant |qs| <= n
        invariant forall i | 0 <= i < |qs| :: fresh(qs[i]) && qs[i].jobs == [] && !qs[i].closed
        invariant forall i, j | 0 <= i < j < |qs| :: qs[i] != qs[j]
      {
        var q := new CommandQueue();
        qs := qs + [q];
      }
      this.queues := qs;
      this.softDepth := if softDepth < 1 then 1 else softDepth;
      this.hash := hash;
    }

    /** enqueue: hands the job to the key's worker, never blocking; reports a backlog, refuses after close. */
    method Enqueue(job: Command) returns (accepted: bool, backlog: bool)
      requires Valid()
      modifies queues
      ensures var q := queues[PoolIndex(job.topic, |queues|, hash)];
              && accepted == !old(q.closed)
              && q.jobs == (if accepted then old(q.jobs) + [job] else old(q.jobs))
              && q.closed == old(q.closed)
              && (backlog <==> accepted && |q.jobs| > softDepth)
      ensures forall i | 0 <= i < |queues| && i != PoolIndex(job.topic, |queues|, hash) ::
                queues[i].jobs == old(queues[i].jobs) && queues[i].closed == old(queues[i].closed)
    {
      var q := queues[PoolIndex(job.topic, |queues|, hash)];
      var depth;
      depth, accepted := q.Push(job);
      backlog := accepted && depth > softDepth;
    }

    /** The part of close that refuses further jobs; the wait for the workers is World's business. */
    method CloseQueues()
      requires Valid()
      modifies queues
      ensures forall i | 0 <= i < |queues| :: queues[i].closed && queues[i].jobs == old(queues[i].jobs)
    {
      for i := 0 to |queues|
        invariant forall k | 0 <= k < i :: queues[k].closed
        invariant forall k | 0 <= k < |queues| :: queues[k].jobs == old(queues[k].jobs)
      {
        queues[i].Close();
      }
    }
  }

  // --------------------------------------------- deliveries, workers and Stop

  /** A worker: its queue, the command it is running, whether its goroutine has returned. */
  datatype Worker = Worker(jobs: seq<Command>, closed: bool, running: Option<Command>, exited: bool)

  /** `attached` says whether the router still holds its pool; `dropped` is what a closed queue refused. */
  datatype World = World(workers: seq<Worker>, attached: bool, stopped: bool,
                         accepted: seq<Command>, done: seq<Command>, dropped: seq<Command>)

  /** Every atomic step any goroutine can take. Deliver is the locked gate check plus enqueue. */
  datatype Step =
    | Deliver(cmd: Command, slot: nat)
    | Detach(stopping: bool)
    | CloseQueue(i: nat)
    | Pop(i: nat)
    | Finish(i: nat)
    | Exit(i: nat)

  predicate Possible(w: World, step: Step) {
    match step
    case Deliver(_, slot) => slot < |w.workers|
    case Detach(_) => w.attached
    case CloseQueue(i) => i < |w.workers| && !w.attached
    case Pop(i) => i < |w.workers| && !w.workers[i].exited && w.workers[i].running.None? && w.workers[i].jobs != []
    case Finish(i) => i < |w.workers| && w.workers[i].running.Some?
    case Exit(i) => i < |w.workers| && w.workers[i].running.None? && w.workers[i].jobs == [] && w.workers[i].closed
  }

  /** What a step does; the locked part of deliver enqueues on `slot`, the topic's own worker. */
  function Apply(w: World, step: Step): (w': World)
    requires Possible(w, step)
    ensures |w'.workers| == |w.workers|
  {
    match step
    case Deliver(cmd, slot) =>
      if w.stopped || !w.attached then w
      else
        var q := w.workers[slot];
        if q.closed then w.(accepted := w.accepted + [cmd], dropped := w.dropped + [cmd])
        else w.(accepted := w.accepted + [cmd], workers := w.workers[slot := q.(jobs := q.jobs + [cmd])])
    case Detach(stopping) => w.(attached := false, stopped := w.stopped || stopping)
    case CloseQueue(i) => w.(workers := w.workers[i := w.workers[i].(closed := true)])
    case Pop(i) =>
      var q := w.workers[i];
      w.(workers := w.workers[i := q.(jobs := q.jobs[1..], running := Some(q.jobs[0]))])
    case Finish(i) =>
      var q := w.workers[i];
      w.(workers := w.workers[i := q.(running := None)], done := w.done + [q.running.value])
    case Exit(i) => w.(workers := w.workers[i := w.workers[i].(exited := true)])
  }

  /** The same with the topic's slot computed by poolIndex. */
  predicate Enabled(w: World, step: Step, hash: string -> nat) {
    && Possible(w, step)
    && (step.Deliver? ==> step.slot == PoolIndex(step.cmd.topic, |w.workers|, hash))
  }

  ghost predicate IsRun(w: World, steps: seq<Step>, hash: string -> nat)
    decreases |steps|
  {
    steps == [] || (Enabled(w, steps[0], hash) && IsRun(Apply(w, steps[0]), steps[1..], hash))
  }

  ghost function Final(w: World, steps: seq<Step>, hash: string -> nat): (w': World)
    requires IsRun(w, steps, hash)
    ensures |w'.workers| == |w.workers|
    decreases |steps|
  {
    if steps == [] then w else Final(Apply(w, steps[0]), steps[1..], hash)
  }

  function Fresh(n: nat): World {
    World(seq(n, _ => Worker([], false, None, false)), true, false, [], [], [])
  }

  /** The commands for one topic, in order. */
  function OnTopic(cs: seq<Command>, topic: string): seq<Command> {
    if cs == [] then []
    else OnTopic(cs[..|cs| - 1], topic) + (if cs[|cs| - 1].topic == topic then [cs[|cs| - 1]] else [])
  }

  lemma {:induction false} OnTopicAppend(a: seq<Command>, b: seq<Command>, topic: string)
    ensures OnTopic(a + b, topic) == OnTopic(a, topic) + OnTopic(b, topic)
    decreases |b|
  {
    if b == [] {
      assert a + b == a;
    } else {
      assert (a + b)[..|a + b| - 1] == a + b[..|b| - 1];
      OnTopicAppend(a, b[..|b| - 1], topic);
    }
  }

  /** A worker's part of a topic's history still to come: what it runs, then what it queues. */
  function Pending(q: Worker): seq<Command> {
    (if q.running.Some? then [q.running.value] else []) + q.jobs
  }

  ghost predicate Sharded(w: World, hash: string -> nat) {
    && |w.workers| >= 1
    && (forall i, c | 0 <= i < |w.workers| && c in Pending(w.workers[i]) ::
          PoolIndex(c.topic, |w.workers|, hash) == i)
    && (w.attached ==> !w.stopped && forall i | 0 <= i < |w.workers| :: !w.workers[i].closed)
    && (forall i | 0 <= i < |w.workers| && w.workers[i].exited ::
          w.workers[i].closed && Pending(w.workers[i]) == [])
    && w.dropped == []
  }

  /** Executed, running and queued commands of the topic, in that order, are the accepted ones. */
  predicate InOrder(w: World, topic: string, k: nat)
    requires k < |w.workers|
  {
    OnTopic(w.done, topic) + OnTopic(Pending(w.workers[k]), topic) == OnTopic(w.accepted, topic)
  }

  lemma StepKeepsSharded(w: World, step: Step, hash: string -> nat)
    requires Sharded(w, hash) && Enabled(w, step, hash)
    ensures Sharded(Apply(w, step), hash)
  {
    var w' := Apply(w, step);
    forall i, c | 0 <= i < |w'.workers| && c in Pending(w'.workers[i])
      ensures PoolIndex(c.topic, |w'.workers|, hash) == i
    {
      if c !in Pending(w.workers[i]) {
        assert step.Deliver? && c == step.cmd;
      }
    }
  }

  lemma OnTopicCons(c: Command, cs: seq<Command>, topic: string)
    ensures OnTopic([c] + cs, topic) == (if c.topic == topic then [c] else []) + OnTopic(cs, topic)
  {
    OnTopicAppend([c], cs, topic);
  }

  lemma DeliverKeepsOrder(w: World, cmd: Command, slot: nat, topic: string, k: nat)
    requires k < |w.workers| && InOrder(w, topic, k)
    requires slot < |w.workers| && w.attached && !w.stopped && !w.workers[slot].closed
    requires cmd.topic == topic ==> slot == k
    ensures InOrder(Apply(w, Deliver(cmd, slot)), topic, k)
  {
    DeliveredPending(w, cmd, slot, k);
    if slot == k {
      QueuedNext(w.done, Pending(w.workers[k]), cmd, topic);
    }
    OnTopicSnoc(w.accepted, cmd, topic);
  }

  lemma DeliveredPending(w: World, cmd: Command, slot: nat, k: nat)
    requires slot < |w.workers| && w.attached && !w.stopped && !w.workers[slot].closed && k < |w.workers|
    ensures Pending(Apply(w, Deliver(cmd, slot)).workers[k]) == Pending(w.workers[k]) + if slot == k then [cmd] else []
  {
  }

  lemma QueuedNext(done: seq<Command>, pending: seq<Command>, c: Command, topic: string)
    ensures OnTopic(done, topic) + OnTopic(pending + [c], topic)
            == OnTopic(done, topic) + OnTopic(pending, topic) + if c.topic == topic then [c] else []
  {
    OnTopicSnoc(pending, c, topic);
    Regrouped(OnTopic(done, topic), OnTopic(pending, topic), if c.topic == topic then [c] else []);
  }

  lemma FinishKeepsOrder(w: World, i: nat, topic: string, k: nat)
    requires k < |w.workers| && InOrder(w, topic, k) && Possible(w, Finish(i))
    requires w.workers[i].running.value.topic == topic ==> i == k
    ensures InOrder(Apply(w, Finish(i)), topic, k)
  {
    var c := w.workers[i].running.value;
    if i == k {
      DoneNext(w.done, c, w.workers[i].jobs, topic);
    } else {
      OnTopicSnoc(w.done, c, topic);
    }
    FinishedPending(w, i, k);
  }

  lemma FinishedPending(w: World, i: nat, k: nat)
    requires k < |w.workers| && Possible(w, Finish(i))
    ensures Pending(w.workers[i]) == [w.workers[i].running.value] + w.workers[i].jobs
    ensures Pending(Apply(w, Finish(i)).workers[k]) == if i == k then w.workers[i].jobs else Pending(w.workers[k])
  {
  }

  /** What has been running is done next. */
  lemma DoneNext(done: seq<Command>, c: Command, jobs: seq<Command>, topic: string)
    ensures OnTopic(done + [c], topic) + OnTopic(jobs, topic) == OnTopic(done, topic) + OnTopic([c] + jobs, topic)
  {
    OnTopicSnoc(done, c, topic);
    OnTopicCons(c, jobs, topic);
    Regrouped(OnTopic(done, topic), if c.topic == topic then [c] else [], OnTopic(jobs, topic));
  }

  lemma Regrouped(a: seq<Command>, b: seq<Command>, c: seq<Command>)
    ensures (a + b) + c == a + (b + c)
  {
  }

  lemma OnTopicSnoc(cs: seq<Command>, c: Command, topic: string)
    ensures OnTopic(cs + [c], topic) == OnTopic(cs, topic) + if c.topic == topic then [c] else []
  {
    assert (cs + [c])[..|cs|] == cs;
  }

  lemma StepKeepsOrder(w: World, step: Step, topic: string, hash: string -> nat)
    requires Sharded(w, hash) && Enabled(w, step, hash)
    requires InOrder(w, topic, PoolIndex(topic, |w.workers|, hash))
    ensures InOrder(Apply(w, step), topic, PoolIndex(topic, |w.workers|, hash))
  {
    var k := PoolIndex(topic, |w.workers|, hash);
    match step
    case Deliver(cmd, slot) => if w.attached { DeliverKeepsOrder(w, cmd, slot, topic, k); }
    case Finish(i) =>
      assert w.workers[i].running.value in Pending(w.workers[i]);
      FinishKeepsOrder(w, i, topic, k);
    case Pop(i) => PopKeepsOrder(w, i, topic, k);
    case _ =>
  }

  lemma PopKeepsOrder(w: World, i: nat, topic: string, k: nat)
    requires k < |w.workers| && InOrder(w, topic, k) && Possible(w, Pop(i))
    ensures InOrder(Apply(w, Pop(i)), topic, k)
  {
    assert Pending(Apply(w, Pop(i)).workers[i]) == Pending(w.workers[i]);
  }

  lemma {:induction false} RunKeepsOrder(w: World, steps: seq<Step>, topic: string, hash: string -> nat)
    requires Sharded(w, hash) && IsRun(w, steps, hash)
    requires InOrder(w, topic, PoolIndex(topic, |w.workers|, hash))
    ensures Sharded(Final(w, steps, hash), hash)
    ensures InOrder(Final(w, steps, hash), topic, PoolIndex(topic, |w.workers|, hash))
    decreases |steps|
  {
    if steps != [] {
      StepKeepsSharded(w, steps[0], hash);
      StepKeepsOrder(w, steps[0], topic, hash);
      RunKeepsOrder(Apply(w, steps[0]), steps[1..], topic, hash);
    }
  }

  /** No command lost, none reordered: over every interleaving, for every topic. */
  lemma NothingLostNothingReordered(n: nat, steps: seq<Step>, topic: string, hash: string -> nat)
    requires n >= 1 && IsRun(Fresh(n), steps, hash)
    ensures InOrder(Final(Fresh(n), steps, hash), topic, PoolIndex(topic, n, hash))
    ensures Final(Fresh(n), steps, hash).dropped == []
  {
    assert forall i | 0 <= i < n :: Pending(Fresh(n).workers[i]) == [];
    RunKeepsOrder(Fresh(n), steps, topic, hash);
  }

  lemma {:induction false} CountOnTopic(cs: seq<Command>, c: Command)
    ensures multiset(OnTopic(cs, c.topic))[c] == multiset(cs)[c]
  {
    if cs != [] {
      var front, last := cs[..|cs| - 1], cs[|cs| - 1];
      CountOnTopic(front, c);
      assert cs == front + [last];
    }
  }

  /** When close returns, every worker has exited, and every accepted command has run exactly once. */
  lemma CloseDrains(n: nat, steps: seq<Step>, c: Command, hash: string -> nat)
    requires n >= 1 && IsRun(Fresh(n), steps, hash)
    requires forall i | 0 <= i < n :: Final(Fresh(n), steps, hash).workers[i].exited
    ensures var w := Final(Fresh(n), steps, hash);
            && OnTopic(w.done, c.topic) == OnTopic(w.accepted, c.topic)
            && multiset(w.done)[c] == multiset(w.accepted)[c]
  {
    var w := Final(Fresh(n), steps, hash);
    assert forall i | 0 <= i < n :: Pending(Fresh(n).workers[i]) == [];
    RunKeepsOrder(Fresh(n), steps, c.topic, hash);
    assert OnTopic([], c.topic) == [];
    CountOnTopic(w.done, c);
    CountOnTopic(w.accepted, c);
  }

  /** Nothing is accepted once the gate is down, whatever happens afterwards. */
  lemma {:induction false} NothingAcceptedAfterStop(w: World, steps: seq<Step>, hash: string -> nat)
    requires (w.stopped || !w.attached) && IsRun(w, steps, hash)
    ensures Final(w, steps, hash).accepted == w.accepted
    decreases |steps|
  {
    if steps != [] {
      NothingAcceptedAfterStop(Apply(w, steps[0]), steps[1..], hash);
    }
  }
}
