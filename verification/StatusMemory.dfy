/** Status objects: the value memory behind their gate, and what it remembers of a topic's history. */
module StatusMemory {
  import opened Text
  import opened DedupGate

  /** What the gate remembers of one topic: the rendered value and extension, and when the value last changed. */
  datatype Memo = Memo(val: string, ext: Option<string>, lc: int)

  /** One reading, its halves already rendered; a nil value is None. */
  datatype Observation = Observation(val: Option<string>, ext: Option<string>, ts: int)

  datatype StatusObject = StatusObject(val: string, ts: int, lc: int, ext: Option<string>)

  datatype State = State(plane: Plane, status: map<string, Memo>)

  function IntText(n: int): string {
    if n < 0 then "-" + Digits(-n) else Digits(n)
  }

  /** The object's bytes; `key` is the extension key as a JSON string. */
  function JSON(key: Option<string>, o: StatusObject): string {
    "{\"val\":" + o.val + ",\"ts\":" + IntText(o.ts) + ",\"lc\":" + IntText(o.lc)
    + (if key.Some? && o.ext.Some? then "," + key.value + ":" + o.ext.value else "") + "}"
  }

  /** How a publisher is set up: its command filters, whether it has an extension key, its rendering. */
  datatype Config = Config(filters: seq<string>, extended: bool, render: StatusObject -> string)

  function ConfigOf(filters: seq<string>, key: Option<string>): Config {
    Config(filters, key.Some?, (o: StatusObject) => JSON(key, o))
  }

  function ExtOf(cfg: Config, obs: Observation): Option<string> {
    if cfg.extended then obs.ext else None
  }

  predicate SameValue(s: State, topic: string, val: string) {
    topic in s.status && s.status[topic].val == val
  }

  /** `lc` is carried on while the value stands, unless it would lie after `ts`. */
  function LastChange(s: State, topic: string, val: string, ts: int): (lc: int)
    ensures lc <= ts
  {
    if SameValue(s, topic, val) && s.status[topic].lc <= ts then s.status[topic].lc else ts
  }

  /** PublishStatus: the new state, the report, and the object that was sent and accepted. */
  function PublishStatus(cfg: Config, s: State, topic: string, obs: Observation,
                         refused: set<string>): (r: (State, Report, Option<StatusObject>))
    ensures r.2.Some? ==> r.2.value.lc <= r.2.value.ts == obs.ts
  {
    if topic == "" || obs.val.None? || Guarded(cfg.filters, topic) then (s, Failed, None)
    else
      var val, ext := obs.val.value, ExtOf(cfg, obs);
      if topic in s.plane.index && s.plane.index[topic].gated && SameValue(s, topic, val) && s.status[topic].ext == ext then
        (s, Unchanged, None)
      else if topic in refused then (s, Failed, None)
      else
        var o := StatusObject(val, obs.ts, LastChange(s, topic, val, obs.ts), ext);
        (State(Accepted(s.plane, topic, cfg.render(o)), s.status[topic := Memo(val, ext, o.lc)]), Wrote, Some(o))
  }

  datatype Call = Plain(op: Op) | Observe(topic: string, obs: Observation, refused: set<string>)

  /** The topics whose value memory a plain call drops. */
  function Drops(cfg: Config, s: State, op: Op): set<string> {
    match op
    case Write(t, p, refused) => if WriteOne(cfg.filters, true, s.plane, t, p, refused).1 == Wrote then {t} else {}
    case Clear(ts, refused) => set t | t in ts && Goes(cfg.filters, refused, t)
    case ClearUnder(prefix, refused) => set t | t in IndexUnder(s.plane, prefix) && Goes(cfg.filters, refused, t)
    case Forget(ts) => ts
    case _ => {}
  }

  function Step(cfg: Config, s: State, call: Call): State {
    match call
    case Plain(op) => State(DedupGate.Step(cfg.filters, true, s.plane, op), s.status - Drops(cfg, s, op))
    case Observe(t, obs, refused) => PublishStatus(cfg, s, t, obs, refused).0
  }

  function Run(cfg: Config, s: State, calls: seq<Call>): State {
    if calls == [] then s else Step(cfg, Run(cfg, s, calls[..|calls| - 1]), calls[|calls| - 1])
  }

  function Start(held: map<string, string>): State {
    State(Plane(map[], held), map[])
  }

  // ------------------------------------------------------------- history

  datatype Seen = Seen(val: string, ts: int)

  /** The observations of each topic that were sent and accepted since its memory was last dropped. */
  function History(cfg: Config, held: map<string, string>, calls: seq<Call>): map<string, seq<Seen>> {
    if calls == [] then map[]
    else
      var before := History(cfg, held, calls[..|calls| - 1]);
      var s := Run(cfg, Start(held), calls[..|calls| - 1]);
      match calls[|calls| - 1]
      case Plain(op) => before - Drops(cfg, s, op)
      case Observe(t, obs, refused) =>
        Extended(before, t, PublishStatus(cfg, s, t, obs, refused).2)
  }

  function Extended(hist: map<string, seq<Seen>>, t: string, sent: Option<StatusObject>): map<string, seq<Seen>> {
    if sent.None? then hist
    else hist[t := (if t in hist then hist[t] else []) + [Seen(sent.value.val, sent.value.ts)]]
  }

  /** Observation times never go back. */
  predicate Ordered(calls: seq<Call>) {
    forall i, j | 0 <= i < j < |calls| && calls[i].Observe? && calls[j].Observe? :: calls[i].obs.ts <= calls[j].obs.ts
  }

  /** The i-th entry starts the current run of equal values. */
  predicate StartsRun(h: seq<Seen>, i: nat) {
    && i < |h|
    && (forall j | i <= j < |h| :: h[j].val == h[i].val)
    && (i > 0 ==> h[i - 1].val != h[i].val)
  }

  predicate LatestKnown(cfg: Config, s: State, hist: map<string, seq<Seen>>, t: string)
    requires t in s.status
  {
    && t in hist && hist[t] != [] && t in s.plane.index
    && var last := hist[t][|hist[t]| - 1];
       && s.status[t].val == last.val && s.status[t].lc <= last.ts
       && s.plane.index[t].payload == cfg.render(StatusObject(last.val, last.ts, s.status[t].lc, s.status[t].ext))
  }

  predicate Remembered(cfg: Config, s: State, hist: map<string, seq<Seen>>) {
    hist.Keys == s.status.Keys && forall t | t in s.status :: LatestKnown(cfg, s, hist, t)
  }

  /** In every run, whatever fails: the memory knows no topic the index lacks, and what is indexed is the
      object of the latest accepted observation, its `lc` not after its `ts`. */
  lemma {:induction false} MemoryIsOfTheLatest(cfg: Config, held: map<string, string>, calls: seq<Call>)
    ensures Remembered(cfg, Run(cfg, Start(held), calls), History(cfg, held, calls))
  {
    if calls != [] {
      var front, last := calls[..|calls| - 1], calls[|calls| - 1];
      MemoryIsOfTheLatest(cfg, held, front);
      var s, hist := Run(cfg, Start(held), front), History(cfg, held, front);
      match last
      case Plain(op) => PlainKeeps(cfg, s, hist, op);
      case Observe(t, obs, refused) => ObserveKeeps(cfg, s, hist, t, obs, refused);
    }
  }

  lemma PlainKeeps(cfg: Config, s: State, hist: map<string, seq<Seen>>, op: Op)
    requires Remembered(cfg, s, hist)
    ensures Remembered(cfg, Step(cfg, s, Plain(op)), hist - Drops(cfg, s, op))
  {
    var after := Step(cfg, s, Plain(op));
    forall t | t in after.status ensures LatestKnown(cfg, after, hist - Drops(cfg, s, op), t) {
      assert LatestKnown(cfg, s, hist, t);
      PlainLeaves(cfg, s, op, t);
    }
  }

  /** A topic whose memory a plain call leaves keeps its bytes in the index. */
  lemma PlainLeaves(cfg: Config, s: State, op: Op, t: string)
    requires t in s.status && t in s.plane.index && t !in Drops(cfg, s, op)
    ensures var after := Step(cfg, s, Plain(op));
            t in after.plane.index && after.plane.index[t].payload == s.plane.index[t].payload
  {
  }

  lemma ObserveKeeps(cfg: Config, s: State, hist: map<string, seq<Seen>>, t: string,
                     obs: Observation, refused: set<string>)
    requires Remembered(cfg, s, hist)
    ensures var r := PublishStatus(cfg, s, t, obs, refused);
            Remembered(cfg, r.0, Extended(hist, t, r.2))
  {
    var r := PublishStatus(cfg, s, t, obs, refused);
    forall u | u in r.0.status ensures LatestKnown(cfg, r.0, Extended(hist, t, r.2), u) {
      if u != t {
        assert LatestKnown(cfg, s, hist, u);
      }
    }
  }

  /** Every time in the history is the time of some observation so far. */
  lemma {:induction false} HistoryTimes(cfg: Config, held: map<string, string>, calls: seq<Call>,
                                       t: string, i: nat) returns (j: nat)
    requires var h := History(cfg, held, calls); t in h && i < |h[t]|
    ensures j < |calls| && calls[j].Observe? && calls[j].obs.ts == History(cfg, held, calls)[t][i].ts
  {
    var front := calls[..|calls| - 1];
    var before := History(cfg, held, front);
    if t in before && i < |before[t]| {
      j := HistoryTimes(cfg, held, front, t, i);
    } else {
      j := |calls| - 1;
    }
  }

  /** With times that never go back, `lc` is the time of the first accepted observation of the current run
      of equal values since the topic's memory was last dropped. */
  lemma {:induction false} LastChangeStartsTheRun(cfg: Config, held: map<string, string>,
                                                 calls: seq<Call>, t: string) returns (i: nat)
    requires Ordered(calls) && t in Run(cfg, Start(held), calls).status
    ensures var h := History(cfg, held, calls);
            && t in h && StartsRun(h[t], i) && Run(cfg, Start(held), calls).status[t].lc == h[t][i].ts
  {
    var front, last := calls[..|calls| - 1], calls[|calls| - 1];
    MemoryIsOfTheLatest(cfg, held, front);
    var s := Run(cfg, Start(held), front);
    i := 0;
    if t in s.status {
      i := LastChangeStartsTheRun(cfg, held, front, t);
      if last.Observe? && last.topic == t {
        EarlierTime(cfg, held, calls, t, i);
      }
    }
    if last.Observe? && last.topic == t {
      i := ObservedStartsRun(cfg, s, History(cfg, held, front), t, last.obs, last.refused, i);
    }
  }

  lemma EarlierTime(cfg: Config, held: map<string, string>, calls: seq<Call>, t: string, i: nat)
    requires calls != [] && Ordered(calls) && calls[|calls| - 1].Observe?
    requires var h := History(cfg, held, calls[..|calls| - 1]); t in h && i < |h[t]|
    ensures History(cfg, held, calls[..|calls| - 1])[t][i].ts <= calls[|calls| - 1].obs.ts
  {
    var j := HistoryTimes(cfg, held, calls[..|calls| - 1], t, i);
    assert calls[..|calls| - 1][j] == calls[j];
  }

  lemma ObservedStartsRun(cfg: Config, s: State, hist: map<string, seq<Seen>>, t: string, obs: Observation,
                          refused: set<string>, i: nat) returns (j: nat)
    requires Remembered(cfg, s, hist)
    requires t in s.status ==>
               t in hist && StartsRun(hist[t], i) && s.status[t].lc == hist[t][i].ts && hist[t][i].ts <= obs.ts
    requires t in PublishStatus(cfg, s, t, obs, refused).0.status
    ensures var r := PublishStatus(cfg, s, t, obs, refused);
            var h := Extended(hist, t, r.2);
            t in h && StartsRun(h[t], j) && r.0.status[t].lc == h[t][j].ts
  {
    var r := PublishStatus(cfg, s, t, obs, refused);
    j := i;
    if r.2.Some? {
      if t in s.status {
        assert LatestKnown(cfg, s, hist, t);
        StartsRunSnoc(hist[t], i, Seen(obs.val.value, obs.ts));
        j := if s.status[t].val == obs.val.value then i else |hist[t]|;
      } else {
        j := 0;
      }
    }
  }

  lemma StartsRunSnoc(h: seq<Seen>, i: nat, x: Seen)
    requires StartsRun(h, i)
    ensures StartsRun(h + [x], if h[|h| - 1].val == x.val then i else |h|)
  {
  }

  /** An observation the gate suppresses says what the index already says, save its time. */
  lemma SuppressedSaysTheSame(cfg: Config, held: map<string, string>, calls: seq<Call>,
                              t: string, obs: Observation, refused: set<string>)
    requires PublishStatus(cfg, Run(cfg, Start(held), calls), t, obs, refused).1 == Unchanged
    ensures var s := Run(cfg, Start(held), calls);
            && t in s.status && t in s.plane.index
            && exists ts :: s.plane.index[t].payload == cfg.render(StatusObject(obs.val.value, ts, s.status[t].lc, ExtOf(cfg, obs)))
  {
    MemoryIsOfTheLatest(cfg, held, calls);
    assert LatestKnown(cfg, Run(cfg, Start(held), calls), History(cfg, held, calls), t);
  }

  /** The object as it looks on the wire, plain and with an extension. */
  lemma ObjectSpelled()
    ensures JSON(None, StatusObject("1", 25, -3, None)) == "{\"val\":1,\"ts\":25,\"lc\":-3}"
  {
    assert IntText(25) == "25" && IntText(-3) == "-3";
  }

  lemma ExtensionSpelled()
    ensures JSON(Some("\"x\""), StatusObject("1", 2, 2, Some("{}"))) == "{\"val\":1,\"ts\":2,\"lc\":2,\"x\":{}}"
  {
    assert IntText(2) == "2";
  }
}
