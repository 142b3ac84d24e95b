/** Exactly when both discovery forms are left retained: by a replay, by a plain publish, and by a document
    that a reconnect cuts into. */
module FormsLeft {
  import opened Text
  import opened Wire
  import opened Runtime
  import opened RuntimeRuns
  import opened RuntimeMirror
  import opened RetractFirst

  // ------------------------------------------------------------------ replay

  /** The declared payloads a replay gets through to the broker. */
  function Replayed(declared: map<string, Cached>, order: seq<string>, refused: set<string>): map<string, Payload> {
    map t | t in declared && t in order && t !in refused :: declared[t].payload
  }

  /** What a replay leaves: everything retained before, under what it sent. */
  lemma {:induction false} ReplayLeaves(declared: map<string, Cached>, n: Net, order: seq<string>)
    requires n.script == [] && forall t | t in order :: t in declared
    ensures var r := ReplayAll(declared, n, order).0;
            && r.script == [] && r.refused == n.refused
            && Holds(r) == Holds(n) + Replayed(declared, order, n.refused)
  {
    if order == [] {
      assert Replayed(declared, [], n.refused) == map[];
    } else {
      var front, last := order[..|order| - 1], order[|order| - 1];
      assert order == front + [last];
      ReplayLeaves(declared, n, front);
      SendLeaves(ReplayAll(declared, n, front).0, last, declared[last].payload);
      ReplayedGrows(declared, Holds(n), front, last, n.refused);
    }
  }

  lemma SendLeaves(n: Net, t: string, p: Payload)
    requires n.script == []
    ensures var r := Transmit(n, Send(t, Some(p))).0;
            r.script == [] && r.refused == n.refused && Holds(r) == if t in n.refused then Holds(n) else Holds(n)[t := p]
  {
    RetainedSnoc(n.base, n.log, Send(t, Some(p)));
  }

  lemma ReplayedGrows(declared: map<string, Cached>, held: map<string, Payload>, order: seq<string>, t: string, refused: set<string>)
    requires t in declared
    ensures held + Replayed(declared, order + [t], refused) ==
              if t in refused then held + Replayed(declared, order, refused)
              else (held + Replayed(declared, order, refused))[t := declared[t].payload]
  {
    var before, after := Replayed(declared, order, refused), Replayed(declared, order + [t], refused);
    assert after == if t in refused then before else before[t := declared[t].payload];
  }

  lemma RepublishLeaves(s: State, order: seq<string>)
    requires s.net.script == [] && forall t | t in order :: t in s.memo.declared
    ensures Holds(Republish(s, order).0.net) == Holds(s.net) + Replayed(s.memo.declared, order, s.net.refused)
  {
    var m := CheckGeneration(s.memo, s.net.conn);
    ReplayLeaves(m.declared, s.net, order);
    assert Replayed(m.declared, order, s.net.refused) == Replayed(s.memo.declared, order, s.net.refused);
  }

  /** A document is alone after a replay if and only if nothing it supersedes was retained before, nor went
      out again with it. */
  lemma ReplayLeavesAloneIff(s: State, order: seq<string>, doc: Payload)
    requires s.net.script == [] && forall t | t in order :: t in s.memo.declared
    ensures Alone(Holds(Republish(s, order).0.net), doc) <==>
              forall u | u in doc.clears :: u !in Holds(s.net) && (u in order ==> u in s.net.refused)
  {
    RepublishLeaves(s, order);
    var sent := Replayed(s.memo.declared, order, s.net.refused);
    forall u ensures u in Holds(s.net) + sent <==> u in Holds(s.net) || (u in order && u !in s.net.refused) {
    }
  }

  /** No document that goes out stands beside a topic retained or sent, and no document that stays beside a
      topic that goes out. */
  predicate Compatible(held: map<string, Payload>, sent: map<string, Payload>) {
    && (forall t | t in sent :: forall u | u in sent[t].clears :: u !in held && u !in sent)
    && (forall t | t in held && t !in sent :: forall u | u in held[t].clears :: u !in sent)
  }

  /** From one form at a time, a replay leaves one form at a time if and only if what it sends is compatible
      with what is retained. */
  lemma ReplayKeepsOneFormIff(s: State, order: seq<string>)
    requires s.net.script == [] && OneForm(Holds(s.net)) && forall t | t in order :: t in s.memo.declared
    ensures OneForm(Holds(Republish(s, order).0.net))
            <==> Compatible(Holds(s.net), Replayed(s.memo.declared, order, s.net.refused))
  {
    RepublishLeaves(s, order);
    OverlaidIff(Holds(s.net), Replayed(s.memo.declared, order, s.net.refused));
  }

  lemma OverlaidIff(held: map<string, Payload>, sent: map<string, Payload>)
    requires OneForm(held)
    ensures OneForm(held + sent) <==> Compatible(held, sent)
  {
    var all := held + sent;
    assert forall t :: t in all <==> t in held || t in sent;
    if OneForm(all) {
      forall t | t in sent ensures forall u | u in sent[t].clears :: u !in held && u !in sent {
        assert all[t] == sent[t];
      }
      forall t | t in held && t !in sent ensures forall u | u in held[t].clears :: u !in sent {
        assert all[t] == held[t];
      }
    }
  }

  // ------------------------------------------- what a caller can go by beforehand

  /** A broker content the memo allows: one form at a time, and nothing at the topics it has superseded. */
  predicate Believable(home: string -> string, m: Memo, held: map<string, Payload>) {
    Sound(home, held) && forall u | u in m.superseded :: u !in held
  }

  /** What the memo says of its own topics, in every orderly run. */
  ghost predicate Consistent(home: string -> string, m: Memo) {
    && (forall t :: home(home(t)) == home(t))
    && (forall t | t in m.declared :: AtHome(home, t, m.declared[t].payload) && t !in m.superseded)
  }

  /** The replay is safe whatever the broker retains and whatever it refuses. */
  ghost predicate AlwaysSafe(home: string -> string, m: Memo, order: seq<string>) {
    forall held, refused :: Believable(home, m, held) ==> OneForm(held + Replayed(m.declared, order, refused))
  }

  /** The condition on a replay in an orderly run is exact: it holds if and only if no broker content that
      the memo allows, and no refusals, end with both forms. */
  lemma ReplayClauseIsExact(home: string -> string, m: Memo, order: seq<string>)
    requires Consistent(home, m) && forall t | t in order :: t in m.declared
    ensures Orderly(home, m, Replay(order)) <==> AlwaysSafe(home, m, order)
  {
    if Orderly(home, m, Replay(order)) {
      forall held, refused | Believable(home, m, held) ensures OneForm(held + Replayed(m.declared, order, refused)) {
        OrderlyReplayFits(home, m, order, held, refused);
      }
    } else {
      var t :| t in order && t in m.declared && !Covered(home, m, t);
      assert !Covered(home, m, t);
      if home(t) != t && home(t) !in m.superseded {
        UncoveredDocument(home, m, order, t);
      } else {
        var u :| u in m.declared[t].payload.clears && u !in m.superseded;
        UncoveredConfig(home, m, order, t, u);
      }
    }
  }

  /** This connection has superseded whatever the declared topic could stand beside. */
  predicate Covered(home: string -> string, m: Memo, t: string)
    requires t in m.declared
  {
    && (home(t) == t || home(t) in m.superseded)
    && forall u | u in m.declared[t].payload.clears :: u in m.superseded
  }

  lemma OrderlyReplayFits(home: string -> string, m: Memo, order: seq<string>, held: map<string, Payload>, refused: set<string>)
    requires Consistent(home, m) && Orderly(home, m, Replay(order)) && Believable(home, m, held)
    ensures OneForm(held + Replayed(m.declared, order, refused))
  {
    var sent := Replayed(m.declared, order, refused);
    forall t | t in held && t !in sent ensures forall u | u in held[t].clears :: u !in sent {
      forall u | u in held[t].clears ensures u !in sent {
        assert AtHome(home, t, held[t]);
      }
    }
    OverlaidIff(held, sent);
  }

  const LEFTOVER := Payload("old", [])

  /** A per-entity config left over at a topic the document supersedes. */
  lemma UncoveredConfig(home: string -> string, m: Memo, order: seq<string>, t: string, u: string)
    requires Consistent(home, m) && t in order && t in m.declared
    requires u in m.declared[t].payload.clears && u !in m.superseded
    ensures !AlwaysSafe(home, m, order)
  {
    var held := map[u := LEFTOVER];
    assert Believable(home, m, held);
    var after := held + Replayed(m.declared, order, {});
    assert t in after && after[t] == m.declared[t].payload && u in after;
  }

  /** A document left over that supersedes the replayed config. */
  lemma UncoveredDocument(home: string -> string, m: Memo, order: seq<string>, t: string)
    requires Consistent(home, m) && t in order && t in m.declared
    requires home(t) != t && home(t) !in m.superseded
    ensures !AlwaysSafe(home, m, order)
  {
    var d := home(t);
    var held := map[d := Payload("old", [t])];
    assert Believable(home, m, held);
    var after := held + Replayed(m.declared, order, {d});
    assert d in after && after[d] == held[d] && t in after;
  }

  /** The write is safe whatever the broker retains. */
  ghost predicate AlwaysSafeWrite(home: string -> string, m: Memo, t: string, p: Payload) {
    forall held :: Believable(home, m, held) ==> OneForm(held[t := p])
  }

  /** So is the condition on a plain publish of a per-entity config. */
  lemma PlainClauseIsExact(home: string -> string, m: Memo, t: string, p: Payload)
    requires Consistent(home, m) && p.clears == [] && t !in m.superseded
    ensures Orderly(home, m, Plain(t, Some(p))) <==> AlwaysSafeWrite(home, m, t, p)
  {
    if Orderly(home, m, Plain(t, Some(p))) {
      forall held | Believable(home, m, held) ensures OneForm(held[t := p]) {
        WriteIsSound(home, held, t, p);
      }
    } else {
      var d := home(t);
      var held := map[d := Payload("old", [t])];
      assert Believable(home, m, held);
      assert d in held[t := p] && held[t := p][d] == held[d] && t in held[t := p];
    }
  }

  // ----------------------------------------------------- a reconnect in a call

  /** Sends in order, up to the first that is not acknowledged. */
  function SendAll(n: Net, sends: seq<Send>): (Net, bool) {
    if sends == [] then (n, true)
    else
      var front := SendAll(n, sends[..|sends| - 1]);
      if !front.1 then front else Transmit(front.0, sends[|sends| - 1])
  }

  lemma SendOneMore(n: Net, sends: seq<Send>, send: Send)
    ensures var front := SendAll(n, sends);
            SendAll(n, sends + [send]) == if front.1 then Transmit(front.0, send) else front
  {
    assert (sends + [send])[..|sends|] == sends;
  }

  lemma {:induction false} SendInParts(n: Net, a: seq<Send>, b: seq<Send>)
    ensures var front := SendAll(n, a);
            SendAll(n, a + b) == if front.1 then SendAll(front.0, b) else front
    decreases |b|
  {
    if b == [] {
      assert a + b == a;
    } else {
      var most, last := b[..|b| - 1], b[|b| - 1];
      SendInParts(n, a, most);
      SendOneMore(n, a + most, last);
      assert a + most + [last] == a + b;
    }
  }

  /** With no reconnect, acknowledged sends are the log's. */
  lemma {:induction false} SendsAreLogged(n: Net, sends: seq<Send>)
    ensures var r := SendAll(n, sends);
            && n.conn <= r.0.conn
            && (r.1 && r.0.conn == n.conn ==> r.0.base == n.base && r.0.log == n.log + sends)
  {
    if sends == [] {
      assert n.log + [] == n.log;
    } else {
      SendsAreLogged(n, sends[..|sends| - 1]);
      assert sends[..|sends| - 1] + [sends[|sends| - 1]] == sends;
    }
  }

  /** All these sends are acknowledged, and the one reconnect among them falls between the two parts, with
      the first k sends of the old connection applied. */
  predicate Straddles(n: Net, a: seq<Send>, b: seq<Send>, k: nat) {
    var before, after := SendAll(n, a), SendAll(n, a + b);
    && before.1 && before.0.conn == n.conn
    && before.0.script != [] && before.0.script[0].drop == Some(k)
    && after.1 && after.0.conn == n.conn + 1
  }

  function Prefixed(base: map<string, Payload>, log: seq<Send>, k: nat): map<string, Payload> {
    Retained(base, log[..if k <= |log| then k else |log|])
  }

  /** What a broker retains that applied the first k sends of the old connection. */
  function Kept(n: Net, sends: seq<Send>, k: nat): map<string, Payload> {
    Prefixed(n.base, n.log + sends, k)
  }

  lemma StraddledSends(n: Net, a: seq<Send>, b: seq<Send>, k: nat)
    requires b != [] && Straddles(n, a, b, k)
    ensures var after := SendAll(n, a + b).0; after.base == Kept(n, a, k) && after.log == b
  {
    var x, rest := b[0], b[1..];
    assert b == [x] + rest;
    Regrouped(a, [x], rest);
    SendsAreLogged(n, a);
    Crossing(n, a, x, rest);
    Crossed(SendAll(n, a).0, x, k);
    SendsAreLogged(Transmit(SendAll(n, a).0, x).0, rest);
  }

  lemma Regrouped(a: seq<Send>, b: seq<Send>, c: seq<Send>)
    ensures a + (b + c) == a + b + c
  {
  }

  lemma Crossed(n: Net, x: Send, k: nat)
    requires n.script != [] && n.script[0].drop == Some(k) && Transmit(n, x).1
    ensures var r := Transmit(n, x).0;
            r.conn == n.conn + 1 && r.base == Prefixed(n.base, n.log, k) && r.log == [x]
  {
  }

  /** The sends before one, that one, and those after it. */
  lemma Crossing(n: Net, a: seq<Send>, x: Send, b: seq<Send>)
    requires SendAll(n, a).1 && SendAll(n, a + [x] + b).1
    ensures var crossed := Transmit(SendAll(n, a).0, x);
            crossed.1 && SendAll(n, a + [x] + b) == SendAll(crossed.0, b)
  {
    SendOneMore(n, a, x);
    SendInParts(n, a + [x], b);
  }

  // ------------------------------------------------------ one document's sends

  /** The retractions a round owes: once for each topic that is neither settled nor known to be empty. */
  function Retractions(cfg: Settings, m: Memo, held: Option<set<string>>, topics: seq<string>): seq<Send> {
    if topics == [] then []
    else
      var front, t := topics[..|topics| - 1], topics[|topics| - 1];
      Retractions(cfg, m, held, front)
      + if t in m.superseded || t in front || KnownEmpty(cfg, m, held, t) then [] else [Send(t, None)]
  }

  /** What a round has done to the memo so far. */
  ghost predicate Rounded(m: Memo, after: Memo, topics: seq<string>) {
    && (forall u :: u in after.superseded <==> u in m.superseded || u in topics)
    && (forall u | u !in topics :: u in after.declared <==> u in m.declared)
  }

  lemma SupersedeOneSends(cfg: Settings, s: State, mid: State, held: Option<set<string>>, front: seq<string>, t: string)
    requires Rounded(s.memo, mid.memo, front)
    ensures var r := SupersedeOne(cfg, mid, held, t);
            && (if t in s.memo.superseded || t in front || KnownEmpty(cfg, s.memo, held, t) then r.1 && r.0.net == mid.net
                else (r.0.net, r.1) == Transmit(mid.net, Send(t, None)))
            && (r.1 ==> Rounded(s.memo, r.0.memo, front + [t]))
  {
    assert t !in front ==> KnownEmpty(cfg, mid.memo, held, t) == KnownEmpty(cfg, s.memo, held, t);
  }

  /** A round sends exactly those, wherever the connection drops. */
  lemma {:induction false} RoundSends(cfg: Settings, s: State, held: Option<set<string>>, topics: seq<string>)
    ensures var r := SupersedeAll(cfg, s, held, topics);
            && (r.0.net, r.1) == SendAll(s.net, Retractions(cfg, s.memo, held, topics))
            && (r.1 ==> Rounded(s.memo, r.0.memo, topics))
  {
    if topics != [] {
      var front, t := topics[..|topics| - 1], topics[|topics| - 1];
      assert topics == front + [t];
      RoundSends(cfg, s, held, front);
      var r := SupersedeAll(cfg, s, held, front);
      if r.1 {
        SupersedeOneSends(cfg, s, r.0, held, front, t);
      }
      var owed := Retractions(cfg, s.memo, held, front);
      assert owed + [] == owed;
      SendOneMore(s.net, owed, Send(t, None));
    }
  }

  lemma {:induction false} OnlyRetractions(cfg: Settings, m: Memo, held: Option<set<string>>, topics: seq<string>)
    ensures forall send | send in Retractions(cfg, m, held, topics) :: send.payload.None?
  {
    if topics != [] {
      OnlyRetractions(cfg, m, held, topics[..|topics| - 1]);
    }
  }

  lemma {:induction false} RetractedOf(base: map<string, Payload>, sends: seq<Send>, u: string)
    requires forall send | send in sends :: send.payload.None?
    ensures u in Retained(base, sends) <==> u in base && Send(u, None) !in sends
  {
    if sends != [] {
      var front, last := sends[..|sends| - 1], sends[|sends| - 1];
      assert sends == front + [last];
      RetractedOf(base, front, u);
      assert last == Send(last.topic, None);
    }
  }

  /** Where a document's call stands once it has looked at the broker. */
  function Looked(cfg: Settings, s: State, topic: string, doc: Payload, withheld: seq<string>): (State, Option<set<string>>) {
    RetainedConfigs(cfg, s.(memo := Keep(CheckGeneration(s.memo, s.net.conn), topic, withheld)), doc.clears)
  }

  function Owed(cfg: Settings, s: State, topic: string, doc: Payload, withheld: seq<string>): seq<Send> {
    var look := Looked(cfg, s, topic, doc, withheld);
    Retractions(cfg, look.0.memo, look.1, doc.clears)
  }

  /** A document the gate does not spare sends its retractions, then itself. */
  lemma DocumentSends(cfg: Settings, s: State, topic: string, doc: Payload, withheld: seq<string>)
    requires topic != "" && !Gated(CheckGeneration(s.memo, s.net.conn), topic, Some(doc))
    ensures var r := PublishBundle(cfg, s, topic, doc, withheld);
            var sent := SendAll(Looked(cfg, s, topic, doc, withheld).0.net, Owed(cfg, s, topic, doc, withheld) + [Send(topic, Some(doc))]);
            r.0.net == sent.0 && (r.1 == Wrote <==> sent.1)
  {
    var k := s.(memo := Keep(CheckGeneration(s.memo, s.net.conn), topic, withheld));
    var look := RetainedConfigs(cfg, k, doc.clears);
    RoundSends(cfg, look.0, look.1, doc.clears);
    SupersedeOpensNoGate(cfg, k, doc.clears, topic, doc);
    SendOneMore(look.0.net, Retractions(cfg, look.0.memo, look.1, doc.clears), Send(topic, Some(doc)));
  }

  /** A document with one reconnect among its sends ends alone if and only if each topic it supersedes that
      the lost tail has left retained is retracted again on the new connection. */
  lemma StraddledDocumentIsAloneIff(cfg: Settings, s: State, topic: string, doc: Payload, withheld: seq<string>, i: nat, k: nat)
    requires topic != "" && topic !in doc.clears && !Gated(CheckGeneration(s.memo, s.net.conn), topic, Some(doc))
    requires var n, owed := Looked(cfg, s, topic, doc, withheld).0.net, Owed(cfg, s, topic, doc, withheld);
             n.conn == s.net.conn && i <= |owed| && Straddles(n, owed[..i], owed[i..] + [Send(topic, Some(doc))], k)
    ensures var owed := Owed(cfg, s, topic, doc, withheld);
            var r := PublishBundle(cfg, s, topic, doc, withheld);
            && r.1 == Wrote
            && (Alone(Holds(r.0.net), doc) <==>
                  forall u | u in doc.clears && u in Kept(s.net, owed[..i], k) :: Send(u, None) in owed[i..])
  {
    DocumentSends(cfg, s, topic, doc, withheld);
    StraddledNet(cfg, s, topic, doc, withheld, i, k);
    AloneAfterTail(cfg, s, topic, doc, withheld, i, Kept(s.net, Owed(cfg, s, topic, doc, withheld)[..i], k));
  }

  lemma StraddledNet(cfg: Settings, s: State, topic: string, doc: Payload, withheld: seq<string>, i: nat, k: nat)
    requires var n, owed := Looked(cfg, s, topic, doc, withheld).0.net, Owed(cfg, s, topic, doc, withheld);
             n.conn == s.net.conn && i <= |owed| && Straddles(n, owed[..i], owed[i..] + [Send(topic, Some(doc))], k)
    ensures var owed := Owed(cfg, s, topic, doc, withheld);
            var after := SendAll(Looked(cfg, s, topic, doc, withheld).0.net, owed + [Send(topic, Some(doc))]);
            after.1 && after.0.base == Kept(s.net, owed[..i], k) && after.0.log == owed[i..] + [Send(topic, Some(doc))]
  {
    SameUntilSent(cfg, s, topic, doc, withheld);
    var owed := Owed(cfg, s, topic, doc, withheld);
    assert owed[..i] + owed[i..] == owed;
    StraddledTail(Looked(cfg, s, topic, doc, withheld).0.net, owed[..i], owed[i..], Send(topic, Some(doc)), k);
  }

  lemma StraddledTail(n: Net, a: seq<Send>, b: seq<Send>, x: Send, k: nat)
    requires Straddles(n, a, b + [x], k)
    ensures var after := SendAll(n, a + b + [x]);
            after.1 && after.0.base == Kept(n, a, k) && after.0.log == b + [x]
  {
    StraddledSends(n, a, b + [x], k);
    Regrouped(a, b, [x]);
  }

  /** Looking at the broker without a reconnect sends nothing. */
  lemma SameUntilSent(cfg: Settings, s: State, topic: string, doc: Payload, withheld: seq<string>)
    ensures var n := Looked(cfg, s, topic, doc, withheld).0.net;
            n.conn == s.net.conn ==> n.base == s.net.base && n.log == s.net.log
  {
  }

  lemma AloneAfterTail(cfg: Settings, s: State, topic: string, doc: Payload, withheld: seq<string>, i: nat, base: map<string, Payload>)
    requires topic !in doc.clears && i <= |Owed(cfg, s, topic, doc, withheld)|
    ensures var tail := Owed(cfg, s, topic, doc, withheld)[i..];
            Alone(Retained(base, tail + [Send(topic, Some(doc))]), doc) <==>
              forall u | u in doc.clears && u in base :: Send(u, None) in tail
  {
    var look := Looked(cfg, s, topic, doc, withheld);
    var tail := Owed(cfg, s, topic, doc, withheld)[i..];
    OnlyRetractions(cfg, look.0.memo, look.1, doc.clears);
    RetainedSnoc(base, tail, Send(topic, Some(doc)));
    forall u | u in doc.clears
      ensures u in Retained(base, tail + [Send(topic, Some(doc))]) <==> u in base && Send(u, None) !in tail {
      RetractedOf(base, tail, u);
    }
  }

  /** In particular when the connection drops between the round and the document, nothing is retracted again:
      it ends alone if and only if the lost tail left none of those topics. */
  lemma CutOffDocumentIsAloneIff(cfg: Settings, s: State, topic: string, doc: Payload, withheld: seq<string>, k: nat)
    requires topic != "" && topic !in doc.clears && !Gated(CheckGeneration(s.memo, s.net.conn), topic, Some(doc))
    requires var n, owed := Looked(cfg, s, topic, doc, withheld).0.net, Owed(cfg, s, topic, doc, withheld);
             n.conn == s.net.conn && Straddles(n, owed, [Send(topic, Some(doc))], k)
    ensures var r := PublishBundle(cfg, s, topic, doc, withheld);
            && r.1 == Wrote
            && (Alone(Holds(r.0.net), doc) <==> Alone(Kept(s.net, Owed(cfg, s, topic, doc, withheld), k), doc))
  {
    var owed := Owed(cfg, s, topic, doc, withheld);
    assert owed[..|owed|] == owed && owed[|owed|..] == [];
    assert [] + [Send(topic, Some(doc))] == [Send(topic, Some(doc))];
    StraddledDocumentIsAloneIff(cfg, s, topic, doc, withheld, |owed|, k);
  }
}
