/** Every router of a process draws on one counter: what that keeps apart. */
module Identifiers {
  import opened Routing
  import opened CommandRouting

  /** The routes of every router there has been, and the counter they share. */
  datatype Fleet = Fleet(routers: seq<seq<Route>>, last: nat)

  /** One atomic event; the allocations of several starting routers may interleave. */
  datatype Event =
    | NewRouter
    | Register(k: nat, filter: string, parts: seq<string>)
    | Take(k: nat, i: nat)

  function Next(f: Fleet, e: Event): Fleet {
    match e
    case NewRouter => f.(routers := f.routers + [[]])
    case Register(k, filter, parts) =>
      if k < |f.routers| then f.(routers := f.routers[k := f.routers[k] + [Route(filter, parts, 0)]]) else f
    case Take(k, i) =>
      if k < |f.routers| && i < |f.routers[k]| then
        var r := TakeId(f.routers[k], i, f.last);
        Fleet(f.routers[k := r.0], r.1)
      else f
  }

  function After(f: Fleet, events: seq<Event>): Fleet {
    if events == [] then f else Next(After(f, events[..|events| - 1]), events[|events| - 1])
  }

  predicate Here(f: Fleet, k: nat, i: nat) {
    k < |f.routers| && i < |f.routers[k]|
  }

  function IdOf(f: Fleet, k: nat, i: nat): nat
    requires Here(f, k, i)
  {
    f.routers[k][i].subID
  }

  /** No two routes of any routers share an identifier, and none is beyond the counter. */
  ghost predicate Apart(f: Fleet) {
    && f.last <= MAX_SUBSCRIPTION_ID
    && (forall k, i | Here(f, k, i) :: IdOf(f, k, i) <= f.last)
    && forall k, i, m, j | Here(f, k, i) && Here(f, m, j) && IdOf(f, k, i) != 0 && IdOf(f, k, i) == IdOf(f, m, j) ::
         k == m && i == j
  }

  /** What has an identifier keeps it, and the counter never turns back. */
  ghost predicate Kept(f: Fleet, g: Fleet) {
    && f.last <= g.last
    && forall k, i | Here(f, k, i) :: Here(g, k, i) && (IdOf(f, k, i) != 0 ==> IdOf(g, k, i) == IdOf(f, k, i))
  }

  /** A route that was there before the event had its identifier already, or takes the next one now. */
  lemma EventTouches(f: Fleet, e: Event, k: nat, i: nat)
    requires Here(Next(f, e), k, i)
    ensures var g := Next(f, e);
            || (Here(f, k, i) && IdOf(g, k, i) == IdOf(f, k, i))
            || IdOf(g, k, i) == 0
            || (e == Take(k, i) && IdOf(g, k, i) == g.last == f.last + 1 <= MAX_SUBSCRIPTION_ID)
  {
  }

  lemma EventKeeps(f: Fleet, e: Event)
    ensures Kept(f, Next(f, e))
  {
  }

  lemma EventKeepsApart(f: Fleet, e: Event)
    requires Apart(f)
    ensures Apart(Next(f, e))
  {
    var g := Next(f, e);
    forall k, i | Here(g, k, i) ensures IdOf(g, k, i) <= g.last {
      EventTouches(f, e, k, i);
    }
    forall k, i, m, j | Here(g, k, i) && Here(g, m, j) && IdOf(g, k, i) != 0 && IdOf(g, k, i) == IdOf(g, m, j)
      ensures k == m && i == j {
      EventTouches(f, e, k, i);
      EventTouches(f, e, m, j);
    }
  }

  lemma {:induction false} RunKeepsApart(f: Fleet, events: seq<Event>)
    requires Apart(f)
    ensures Apart(After(f, events)) && Kept(f, After(f, events))
  {
    if events != [] {
      RunKeepsApart(f, events[..|events| - 1]);
      EventKeeps(After(f, events[..|events| - 1]), events[|events| - 1]);
      EventKeepsApart(After(f, events[..|events| - 1]), events[|events| - 1]);
    }
  }

  lemma {:induction false} AfterConcat(f: Fleet, a: seq<Event>, b: seq<Event>)
    ensures After(f, a + b) == After(After(f, a), b)
    decreases |b|
  {
    if b == [] {
      assert a + b == a;
    } else {
      assert (a + b)[..|a + b| - 1] == a + b[..|b| - 1];
      AfterConcat(f, a, b[..|b| - 1]);
    }
  }

  /** Over any run of a process an identifier a route has is never given to another, of its own router or of
      any other, and stays its own. */
  lemma NeverReused(events: seq<Event>, more: seq<Event>, k: nat, i: nat, m: nat, j: nat)
    ensures var f, g := After(Fleet([], 0), events), After(Fleet([], 0), events + more);
            Here(f, k, i) && IdOf(f, k, i) != 0 ==>
              && Here(g, k, i) && IdOf(g, k, i) == IdOf(f, k, i) <= MAX_SUBSCRIPTION_ID
              && (Here(g, m, j) && (k != m || i != j) ==> IdOf(g, m, j) != IdOf(f, k, i))
  {
    AfterConcat(Fleet([], 0), events, more);
    RunKeepsApart(Fleet([], 0), events);
    RunKeepsApart(After(Fleet([], 0), events), more);
  }

  /** The allocations one starting router makes, in order. */
  function Draw(k: nat, n: nat): seq<Event> {
    if n == 0 then [] else Draw(k, n - 1) + [Take(k, n - 1)]
  }

  /** A router's start is such a run of events. */
  lemma {:induction false} StartDraws(f: Fleet, k: nat, n: nat)
    requires k < |f.routers| && n <= |f.routers[k]|
    ensures var r := TakeIds(f.routers[k], n, f.last); After(f, Draw(k, n)) == Fleet(f.routers[k := r.0], r.1)
  {
    if n == 0 {
      assert f.routers[k := f.routers[k]] == f.routers;
    } else {
      StartDraws(f, k, n - 1);
      AfterConcat(f, Draw(k, n - 1), [Take(k, n - 1)]);
      OneEvent(After(f, Draw(k, n - 1)), Take(k, n - 1));
    }
  }

  lemma OneEvent(f: Fleet, e: Event)
    ensures After(f, [e]) == Next(f, e)
  {
    assert [e][..0] == [];
  }
}
