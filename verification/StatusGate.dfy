/** The state publisher with its gate against one without, over runs that also send status objects. */
module StatusGate {
  import opened DedupGate
  import opened StatusMemory

  /** PublishStatus with no look at what was last accepted. */
  function ObserveAlways(cfg: Config, s: State, topic: string, obs: Observation, refused: set<string>): State {
    if topic == "" || obs.val.None? || Guarded(cfg.filters, topic) || topic in refused then s
    else
      var o := StatusObject(obs.val.value, obs.ts, LastChange(s, topic, obs.val.value, obs.ts), ExtOf(cfg, obs));
      State(Accepted(s.plane, topic, cfg.render(o)), s.status[topic := Memo(o.val, o.ext, o.lc)])
  }

  function DropsAlways(cfg: Config, s: State, op: Op): set<string> {
    match op
    case Write(t, p, refused) => if WriteOne(cfg.filters, false, s.plane, t, p, refused).1 == Wrote then {t} else {}
    case _ => Drops(cfg, s, op)
  }

  function StepAlways(cfg: Config, s: State, call: Call): State {
    match call
    case Plain(op) => State(DedupGate.Step(cfg.filters, false, s.plane, op), s.status - DropsAlways(cfg, s, op))
    case Observe(t, obs, refused) => ObserveAlways(cfg, s, t, obs, refused)
  }

  function RunAlways(cfg: Config, s: State, calls: seq<Call>): State {
    if calls == [] then s else StepAlways(cfg, RunAlways(cfg, s, calls[..|calls| - 1]), calls[|calls| - 1])
  }

  // --------------------------------------------------------------- side by side

  /** The payload is an object of this value, change time and extension, at some time. */
  ghost predicate Says(cfg: Config, payload: string, m: Memo) {
    exists ts: int :: payload == cfg.render(StatusObject(m.val, ts, m.lc, m.ext))
  }

  /** The same bytes, or two objects that differ in their time alone. */
  ghost predicate SameSaid(cfg: Config, x: string, y: string) {
    x == y || exists m :: Says(cfg, x, m) && Says(cfg, y, m)
  }

  /** What is remembered of a topic is what is indexed there; a raw payload is indexed alike in both. */
  ghost predicate IndexedAlike(cfg: Config, g: State, u: State, t: string)
    requires t in g.plane.index && t in u.plane.index
  {
    && g.plane.index[t].gated == u.plane.index[t].gated
    && if t in g.status then Says(cfg, g.plane.index[t].payload, g.status[t]) && Says(cfg, u.plane.index[t].payload, g.status[t])
       else g.plane.index[t].payload == u.plane.index[t].payload
  }

  ghost predicate HeldAlike(cfg: Config, g: map<string, string>, u: map<string, string>) {
    g.Keys == u.Keys && forall t | t in g :: SameSaid(cfg, g[t], u[t])
  }

  ghost predicate Alike(cfg: Config, g: State, u: State) {
    && g.status == u.status && g.status.Keys <= g.plane.index.Keys == u.plane.index.Keys
    && (forall t | t in g.plane.index :: IndexedAlike(cfg, g, u, t))
    && HeldAlike(cfg, g.plane.held, u.plane.held)
    && Mirrors(cfg.filters, g.plane) && Mirrors(cfg.filters, u.plane)
  }

  /** A raw write that does not pass for a status object. */
  ghost predicate Raw(cfg: Config, call: Call) {
    call.Plain? && call.op.Write? ==> forall o :: call.op.payload != cfg.render(o)
  }

  lemma BothAccept(cfg: Config, g: State, u: State, t: string, o: StatusObject)
    requires Alike(cfg, g, u) && t != "" && !Guarded(cfg.filters, t)
    ensures var m, p := Memo(o.val, o.ext, o.lc), cfg.render(o);
            Alike(cfg, State(Accepted(g.plane, t, p), g.status[t := m]), State(Accepted(u.plane, t, p), u.status[t := m]))
  {
    var m, p := Memo(o.val, o.ext, o.lc), cfg.render(o);
    assert o == StatusObject(m.val, o.ts, m.lc, m.ext);
    assert Says(cfg, p, m);
    var g1, u1 := State(Accepted(g.plane, t, p), g.status[t := m]), State(Accepted(u.plane, t, p), u.status[t := m]);
    forall v | v in g1.plane.index ensures IndexedAlike(cfg, g1, u1, v) {
      assert v != t ==> IndexedAlike(cfg, g, u, v);
    }
  }

  /** The observation the gate spares renews the time and nothing else. */
  lemma SparedAlike(cfg: Config, g: State, u: State, t: string, o: StatusObject)
    requires Alike(cfg, g, u) && t != "" && !Guarded(cfg.filters, t)
    requires t in g.plane.index && g.plane.index[t].gated && t in g.status && g.status[t] == Memo(o.val, o.ext, o.lc)
    ensures Alike(cfg, g, State(Accepted(u.plane, t, cfg.render(o)), u.status[t := g.status[t]]))
  {
    var m, p := g.status[t], cfg.render(o);
    assert o == StatusObject(m.val, o.ts, m.lc, m.ext);
    assert Says(cfg, p, m);
    assert IndexedAlike(cfg, g, u, t);
    assert u.status[t := m] == u.status;
    var u1 := State(Accepted(u.plane, t, p), u.status[t := m]);
    forall v | v in g.plane.index ensures IndexedAlike(cfg, g, u1, v) {
      assert v != t ==> IndexedAlike(cfg, g, u, v);
    }
    assert g.plane.held[t] == g.plane.index[t].payload;
    assert SameSaid(cfg, g.plane.held[t], p);
  }

  lemma ObserveAlike(cfg: Config, g: State, u: State, t: string, obs: Observation, refused: set<string>)
    requires Alike(cfg, g, u) && (t in g.status ==> g.status[t].lc <= obs.ts)
    ensures Alike(cfg, PublishStatus(cfg, g, t, obs, refused).0, ObserveAlways(cfg, u, t, obs, refused))
  {
    if !(t == "" || obs.val.None? || Guarded(cfg.filters, t) || t in refused) {
      var o := StatusObject(obs.val.value, obs.ts, LastChange(g, t, obs.val.value, obs.ts), ExtOf(cfg, obs));
      if PublishStatus(cfg, g, t, obs, refused).1 == Unchanged {
        SparedAlike(cfg, g, u, t, o);
      } else {
        BothAccept(cfg, g, u, t, o);
      }
    }
  }

  /** A topic with these raw bytes remembers no object. */
  lemma RawIsNoObject(cfg: Config, g: State, u: State, t: string)
    requires Alike(cfg, g, u) && t in g.plane.index
    requires forall o :: g.plane.index[t].payload != cfg.render(o)
    ensures t !in g.status && u.plane.index[t] == g.plane.index[t]
  {
    assert IndexedAlike(cfg, g, u, t);
  }

  lemma WriteAlike(cfg: Config, g: State, u: State, t: string, p: string, refused: set<string>)
    requires Alike(cfg, g, u) && forall o :: p != cfg.render(o)
    ensures Alike(cfg, StatusMemory.Step(cfg, g, Plain(Write(t, p, refused))), StepAlways(cfg, u, Plain(Write(t, p, refused))))
  {
    if t != "" && p != "" && !Guarded(cfg.filters, t) && t !in refused {
      if Suppressed(g.plane, t, p) {
        RawIsNoObject(cfg, g, u, t);
        SuppressedChangesNothing(cfg.filters, u.plane, t, p, refused);
        assert u.status - {t} == u.status && g.status - {} == g.status;
      } else {
        BothWrite(cfg, g, u, t, p);
      }
    } else {
      assert u.status - {} == u.status && g.status - {} == g.status;
    }
  }

  lemma BothWrite(cfg: Config, g: State, u: State, t: string, p: string)
    requires Alike(cfg, g, u) && t != "" && !Guarded(cfg.filters, t)
    ensures Alike(cfg, State(Accepted(g.plane, t, p), g.status - {t}), State(Accepted(u.plane, t, p), u.status - {t}))
  {
    var g1, u1 := State(Accepted(g.plane, t, p), g.status - {t}), State(Accepted(u.plane, t, p), u.status - {t});
    forall v | v in g1.plane.index ensures IndexedAlike(cfg, g1, u1, v) {
      assert v != t ==> IndexedAlike(cfg, g, u, v);
    }
  }

  /** Clearing and forgetting take the same topics from both. */
  lemma WithoutAlike(cfg: Config, g: State, u: State, ts: set<string>, held: bool)
    requires Alike(cfg, g, u)
    ensures var g1 := State(Plane(g.plane.index - ts, if held then g.plane.held - ts else g.plane.held), g.status - ts);
            var u1 := State(Plane(u.plane.index - ts, if held then u.plane.held - ts else u.plane.held), u.status - ts);
            Alike(cfg, g1, u1)
  {
    var g1 := State(Plane(g.plane.index - ts, if held then g.plane.held - ts else g.plane.held), g.status - ts);
    var u1 := State(Plane(u.plane.index - ts, if held then u.plane.held - ts else u.plane.held), u.status - ts);
    forall v | v in g1.plane.index ensures IndexedAlike(cfg, g1, u1, v) {
      assert IndexedAlike(cfg, g, u, v);
    }
  }

  lemma ResetAlike(cfg: Config, g: State, u: State)
    requires Alike(cfg, g, u)
    ensures Alike(cfg, g.(plane := g.plane.(index := Ungated(g.plane.index))), u.(plane := u.plane.(index := Ungated(u.plane.index))))
  {
    var g1, u1 := g.(plane := g.plane.(index := Ungated(g.plane.index))), u.(plane := u.plane.(index := Ungated(u.plane.index)));
    forall v | v in g1.plane.index ensures IndexedAlike(cfg, g1, u1, v) {
      assert IndexedAlike(cfg, g, u, v);
    }
  }

  lemma ReplayAlike(cfg: Config, g: State, u: State, refused: set<string>)
    requires Alike(cfg, g, u)
    ensures Alike(cfg, g.(plane := ReplayAll(cfg.filters, g.plane, refused)), u.(plane := ReplayAll(cfg.filters, u.plane, refused)))
  {
    var g1, u1 := g.(plane := ReplayAll(cfg.filters, g.plane, refused)), u.(plane := ReplayAll(cfg.filters, u.plane, refused));
    forall v | v in g1.plane.held ensures v in u1.plane.held && SameSaid(cfg, g1.plane.held[v], u1.plane.held[v]) {
      if v in g.plane.index && Goes(cfg.filters, refused, v) {
        assert IndexedAlike(cfg, g, u, v);
      } else {
        assert SameSaid(cfg, g.plane.held[v], u.plane.held[v]);
      }
    }
    assert g1.plane.held.Keys == u1.plane.held.Keys;
    forall v | v in g1.plane.index ensures IndexedAlike(cfg, g1, u1, v) {
      assert IndexedAlike(cfg, g, u, v);
    }
  }

  lemma StepAlike(cfg: Config, g: State, u: State, call: Call)
    requires Alike(cfg, g, u) && Raw(cfg, call)
    requires call.Observe? && call.topic in g.status ==> g.status[call.topic].lc <= call.obs.ts
    ensures Alike(cfg, StatusMemory.Step(cfg, g, call), StepAlways(cfg, u, call))
  {
    match call
    case Observe(t, obs, refused) => ObserveAlike(cfg, g, u, t, obs, refused);
    case Plain(op) =>
      assert g.status - {} == g.status && u.status - {} == u.status;
      match op
      case Write(t, p, refused) => WriteAlike(cfg, g, u, t, p, refused);
      case Clear(ts, refused) => WithoutAlike(cfg, g, u, set t | t in ts && Goes(cfg.filters, refused, t), true);
      case ClearUnder(prefix, refused) =>
        assert IndexUnder(g.plane, prefix) == IndexUnder(u.plane, prefix);
        WithoutAlike(cfg, g, u, set t | t in IndexUnder(g.plane, prefix) && Goes(cfg.filters, refused, t), true);
      case Forget(ts) => WithoutAlike(cfg, g, u, ts, false);
      case Reset => ResetAlike(cfg, g, u);
      case Replay(refused) => ReplayAlike(cfg, g, u, refused);
  }

  // --------------------------------------------------------------- over runs

  /** No observation so far is later than this. */
  predicate NotBefore(calls: seq<Call>, ts: int) {
    forall i | 0 <= i < |calls| && calls[i].Observe? :: calls[i].obs.ts <= ts
  }

  lemma {:induction false} ChangesAreNotLater(cfg: Config, held: map<string, string>, calls: seq<Call>, ts: int, t: string)
    requires NotBefore(calls, ts) && t in StatusMemory.Run(cfg, StatusMemory.Start(held), calls).status
    ensures StatusMemory.Run(cfg, StatusMemory.Start(held), calls).status[t].lc <= ts
  {
    var front, last := calls[..|calls| - 1], calls[|calls| - 1];
    var s := StatusMemory.Run(cfg, StatusMemory.Start(held), front);
    if t in s.status {
      assert forall i | 0 <= i < |front| :: front[i] == calls[i];
      ChangesAreNotLater(cfg, held, front, ts, t);
    }
    ChangeIsNotLater(cfg, s, last, ts, t);
  }

  lemma ChangeIsNotLater(cfg: Config, s: State, call: Call, ts: int, t: string)
    requires t in s.status ==> s.status[t].lc <= ts
    requires call.Observe? ==> call.obs.ts <= ts
    ensures t in StatusMemory.Step(cfg, s, call).status ==> StatusMemory.Step(cfg, s, call).status[t].lc <= ts
  {
  }

  lemma {:induction false} RunsAlike(cfg: Config, held: map<string, string>, calls: seq<Call>)
    requires Ordered(calls) && forall call | call in calls :: Raw(cfg, call)
    ensures Alike(cfg, StatusMemory.Run(cfg, StatusMemory.Start(held), calls), RunAlways(cfg, StatusMemory.Start(held), calls))
  {
    if calls != [] {
      var front, last := calls[..|calls| - 1], calls[|calls| - 1];
      assert forall i | 0 <= i < |front| :: front[i] == calls[i];
      RunsAlike(cfg, held, front);
      if last.Observe? && last.topic in StatusMemory.Run(cfg, StatusMemory.Start(held), front).status {
        ChangesAreNotLater(cfg, held, front, last.obs.ts, last.topic);
      }
      StepAlike(cfg, StatusMemory.Run(cfg, StatusMemory.Start(held), front), RunAlways(cfg, StatusMemory.Start(held), front), last);
    }
  }

  /** Both brokers hold the object that is remembered. */
  ghost predicate BothSay(cfg: Config, g: State, u: State, t: string)
    requires t in g.status
  {
    && t in g.plane.held && t in u.plane.held
    && Says(cfg, g.plane.held[t], g.status[t]) && Says(cfg, u.plane.held[t], g.status[t])
  }

  /** With observation times that never go back, the gated publisher and the one without a gate remember the
      same value, extension and change time of every topic, index the same topics, and leave on every topic
      of the broker the same bytes or objects that differ in their time alone. */
  lemma StatusGateIsTransparent(cfg: Config, held: map<string, string>, calls: seq<Call>)
    requires Ordered(calls) && forall call | call in calls :: Raw(cfg, call)
    ensures var g, u := StatusMemory.Run(cfg, StatusMemory.Start(held), calls), RunAlways(cfg, StatusMemory.Start(held), calls);
            && g.status == u.status && g.plane.index.Keys == u.plane.index.Keys && g.plane.held.Keys == u.plane.held.Keys
            && (forall t | t in g.plane.held :: SameSaid(cfg, g.plane.held[t], u.plane.held[t]))
            && (forall t | t in g.status :: t in g.plane.index && (g.plane.index[t].gated ==> BothSay(cfg, g, u, t)))
  {
    RunsAlike(cfg, held, calls);
    var g, u := StatusMemory.Run(cfg, StatusMemory.Start(held), calls), RunAlways(cfg, StatusMemory.Start(held), calls);
    forall t | t in g.status && g.plane.index[t].gated ensures BothSay(cfg, g, u, t) {
      assert IndexedAlike(cfg, g, u, t);
    }
  }

  /** Where a time goes back: an observation the gate spares would have moved the change time back too. */
  lemma SparedAgreesIff(cfg: Config, s: State, t: string, obs: Observation, refused: set<string>)
    requires PublishStatus(cfg, s, t, obs, refused).1 == Unchanged && t !in refused
    ensures ObserveAlways(cfg, s, t, obs, refused).status == PublishStatus(cfg, s, t, obs, refused).0.status
            <==> s.status[t].lc <= obs.ts
  {
    var val, ext := obs.val.value, ExtOf(cfg, obs);
    var lc := LastChange(s, t, val, obs.ts);
    assert s.status[t := Memo(val, ext, lc)][t].lc == lc;
    if lc == s.status[t].lc {
      assert s.status[t := Memo(val, ext, lc)] == s.status;
    }
  }

  /** And where a raw write repeats the very object indexed: spared, it leaves the memory of that object. */
  lemma RawWriteAgreesIff(cfg: Config, s: State, t: string, p: string, refused: set<string>)
    requires Mirrors(cfg.filters, s.plane)
    ensures StepAlways(cfg, s, Plain(Write(t, p, refused))).status == StatusMemory.Step(cfg, s, Plain(Write(t, p, refused))).status
            <==> !(Suppressed(s.plane, t, p) && p != "" && t in s.status && t !in refused)
  {
    if t in s.status {
      assert t !in s.status - {t};
    }
    assert s.status - {} == s.status;
  }

  // ----------------------------------------------------------------- replay

  lemma {:induction false} PlanesMirror(cfg: Config, held: map<string, string>, calls: seq<Call>)
    ensures Mirrors(cfg.filters, StatusMemory.Run(cfg, StatusMemory.Start(held), calls).plane)
  {
    if calls != [] {
      PlanesMirror(cfg, held, calls[..|calls| - 1]);
      StepMirrors(cfg, StatusMemory.Run(cfg, StatusMemory.Start(held), calls[..|calls| - 1]), calls[|calls| - 1]);
    }
  }

  lemma StepMirrors(cfg: Config, s: State, call: Call)
    requires Mirrors(cfg.filters, s.plane)
    ensures Mirrors(cfg.filters, StatusMemory.Step(cfg, s, call).plane)
  {
    if call.Plain? {
      OpMirrors(cfg.filters, s.plane, call.op);
    }
  }

  lemma OpMirrors(filters: seq<string>, s: Plane, op: Op)
    requires Mirrors(filters, s)
    ensures Mirrors(filters, DedupGate.Step(filters, true, s, op))
  {
  }

  /** After a wiped broker a replay restores exactly the index, status objects included, before or after a
      reset, and drops nothing from the memory. */
  lemma StatusReplayRestores(cfg: Config, held: map<string, string>, calls: seq<Call>)
    ensures var before := StatusMemory.Run(cfg, StatusMemory.Start(held), calls);
            var s := before.(plane := Wiped(before.plane));
            var once := StatusMemory.Run(cfg, s, [Plain(Replay({}))]);
            var reset := StatusMemory.Run(cfg, s, [Plain(Reset), Plain(Replay({}))]);
            && once.plane.held == (map t | t in s.plane.index :: s.plane.index[t].payload)
            && reset.plane.held == once.plane.held && once.status == reset.status == before.status
            && reset == StatusMemory.Run(cfg, s, [Plain(Replay({})), Plain(Reset)])
  {
    PlanesMirror(cfg, held, calls);
    var before := StatusMemory.Run(cfg, StatusMemory.Start(held), calls);
    var s := before.(plane := Wiped(before.plane));
    ReplayRestoresFrom(cfg.filters, s.plane);
    OneOp(cfg, s, Replay({}));
    TwoOps(cfg, s, Reset, Replay({}));
    TwoOps(cfg, s, Replay({}), Reset);
  }

  /** Calls that drop no memory are operations on the plane. */
  lemma OneOp(cfg: Config, s: State, a: Op)
    requires a.Reset? || a.Replay?
    ensures StatusMemory.Run(cfg, s, [Plain(a)]) == s.(plane := DedupGate.Run(cfg.filters, true, s.plane, [a]))
  {
    assert [Plain(a)][..0] == [] && [a][..0] == [];
    assert s.status - {} == s.status;
  }

  lemma TwoOps(cfg: Config, s: State, a: Op, b: Op)
    requires (a.Reset? || a.Replay?) && (b.Reset? || b.Replay?)
    ensures StatusMemory.Run(cfg, s, [Plain(a), Plain(b)]) == s.(plane := DedupGate.Run(cfg.filters, true, s.plane, [a, b]))
  {
    assert [Plain(a), Plain(b)][..1] == [Plain(a)] && [a, b][..1] == [a];
    OneOp(cfg, s, a);
    assert s.status - {} == s.status;
  }
}
