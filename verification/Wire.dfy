/** The broker as one writer sees it: what each connection was sent, and which prefix was applied. */
module Wire {
  import opened Text

  /** A retained message. `clears` is empty unless this is a device document sent by this run: then
      it lists the per-entity config topics the document supersedes. */
  datatype Payload = Payload(bytes: string, clears: seq<string>)

  /** One publish with the retain flag; None is the empty payload, a retraction. */
  datatype Send = Send(topic: string, payload: Option<Payload>)

  function After(held: map<string, Payload>, send: Send): map<string, Payload> {
    match send.payload
    case Some(p) => held[send.topic := p]
    case None => held - {send.topic}
  }

  /** What a broker retains once it has applied a log. */
  function Retained(base: map<string, Payload>, log: seq<Send>): map<string, Payload> {
    if log == [] then base else After(Retained(base, log[..|log| - 1]), log[|log| - 1])
  }

  lemma RetainedSnoc(base: map<string, Payload>, log: seq<Send>, send: Send)
    ensures Retained(base, log + [send]) == After(Retained(base, log), send)
  {
    assert (log + [send])[..|log|] == log;
  }

  /** What one transport call meets: the connection may have dropped just before it, with only the
      first `drop` sends applied; the send may reach the broker whether or not it is acknowledged. */
  datatype Outcome = Outcome(drop: Option<nat>, applied: bool, ok: bool)

  /** What one snapshot window meets: a drop inside it, and the topics it missed, or that it failed. */
  datatype View = View(drop: Option<nat>, missed: Option<set<string>>)

  /** One connection of a transport, the broker behind it, and the adversary's remaining moves.
      A send to a `refused` topic fails and is not applied. When `script` runs out every other send
      succeeds; when `views` runs out every snapshot is complete. */
  datatype Net = Net(conn: nat, base: map<string, Payload>, log: seq<Send>, snapshot: Option<set<string>>,
                     script: seq<Outcome>, views: seq<View>, refused: set<string>)

  function Holds(n: Net): map<string, Payload> {
    Retained(n.base, n.log)
  }

  /** A new connection, the old one's sends beyond the k-th having been lost. */
  function Reconnected(n: Net, k: nat): Net {
    var cut := if k <= |n.log| then k else |n.log|;
    n.(conn := n.conn + 1, base := Retained(n.base, n.log[..cut]), log := [], snapshot := None)
  }

  function Dropped(n: Net, drop: Option<nat>): Net {
    match drop
    case Some(k) => Reconnected(n, k)
    case None => n
  }

  /** One publish, and whether it was acknowledged. */
  function Transmit(n: Net, send: Send): (r: (Net, bool))
    ensures r.1 ==> |r.0.log| > 0 && r.0.log[|r.0.log| - 1] == send
    ensures r.0.conn >= n.conn
    ensures r.0.conn == n.conn ==>
              r.0.base == n.base && r.0.snapshot == n.snapshot && (r.0.log == n.log || r.0.log == n.log + [send])
    ensures r.1 && r.0.conn == n.conn ==> r.0.log == n.log + [send]
    ensures r.0.conn > n.conn ==> r.0.log == [] || r.0.log == [send]
  {
    if send.topic in n.refused then (n, false)
    else
      var o := if n.script == [] then Outcome(None, true, true) else n.script[0];
      var n1 := Dropped(n.(script := if n.script == [] then [] else n.script[1..]), o.drop);
      if o.applied || o.ok then (n1.(log := n1.log + [send]), o.ok) else (n1, false)
  }

  /** One snapshot window over the discovery tree. */
  function Look(n: Net, complete: set<string>): (r: (Net, Option<set<string>>))
    ensures r.0.conn >= n.conn
    ensures r.0.conn == n.conn ==> r.0.base == n.base && r.0.log == n.log
    ensures r.1.Some? ==> r.0.snapshot == r.1
    ensures r.1.None? ==> r.0.snapshot == None || r.0.snapshot == n.snapshot
  {
    var v := if n.views == [] then View(None, Some({})) else n.views[0];
    var n1 := Dropped(n.(views := if n.views == [] then [] else n.views[1..]), v.drop);
    match v.missed
    case Some(gap) => (n1.(snapshot := Some(complete - gap)), Some(complete - gap))
    case None => (n1, None)
  }

  /** The publishing half of a transport. */
  class Transport {
    var net: Net

    method Publish(topic: string, payload: Option<Payload>) returns (ok: bool)
      modifies this
      ensures (net, ok) == Transmit(old(net), Send(topic, payload))
    {
      var r := Transmit(net, Send(topic, payload));
      net := r.0;
      return r.1;
    }

    method Snapshot(complete: set<string>) returns (seen: Option<set<string>>)
      modifies this
      ensures (net, seen) == Look(old(net), complete)
    {
      var r := Look(net, complete);
      net := r.0;
      return r.1;
    }
  }
}
