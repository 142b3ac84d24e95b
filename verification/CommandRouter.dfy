/** The command router object: registration, the subscribe/rollback/unsubscribe loops, delivery. */
module CommandRouting {
  import opened Text
  import opened Filters
  import opened Specificity
  import opened FilterSyntax
  import opened Routing
  import opened CommandPool

  const MAX_SUBSCRIPTION_ID: nat := 268435455

  /** The process-wide source of Subscription Identifiers. */
  class Counter {
    var last: nat

    constructor ()
      ensures last == 0
    {
      last := 0;
    }

    /** allocateSubscriptionID: the next identifier, or none for good once the space is used up. */
    method Allocate() returns (id: Option<nat>)
      modifies this
      ensures id.None? <==> old(last) >= MAX_SUBSCRIPTION_ID
      ensures id.None? ==> last == old(last)
      ensures id.Some? ==> id.value == last == old(last) + 1 && 1 <= last <= MAX_SUBSCRIPTION_ID
    {
      if last >= MAX_SUBSCRIPTION_ID {
        return None;
      }
      last := last + 1;
      return Some(last);
    }
  }

  /** One request to the broker, and whether it was granted. */
  datatype Request = Request(filter: string, on: bool, id: nat, ok: bool)

  /** The subscription half of a transport: what the broker holds, under which identifier, and what it has
      been asked. Any request may be refused; a refused one changes nothing. */
  class Subscriptions {
    var live: map<string, nat>
    var log: seq<Request>

    method Subscribe(filter: string, id: nat) returns (ok: bool)
      modifies this
      ensures live == if ok then old(live)[filter := id] else old(live)
      ensures log == old(log) + [Request(filter, true, id, ok)]
    {
      ok := *;
      log := log + [Request(filter, true, id, ok)];
      if ok {
        live := live[filter := id];
      }
    }

    method Unsubscribe(filter: string) returns (ok: bool)
      modifies this
      ensures live == if ok then old(live) - {filter} else old(live)
      ensures log == old(log) + [Request(filter, false, 0, ok)]
    {
      ok := *;
      log := log + [Request(filter, false, 0, ok)];
      if ok {
        live := live - {filter};
      }
    }
  }

  datatype HandleError = NilHandler | Invalid(why: FilterError) | RouterStarted | Duplicate | Unattributable(with: string) | Ambiguous(with: string)

  datatype StartResult =
    | Started
    | RouterClosed
    | AlreadyStarted
    | NoIdentifiers
    | Failed(filter: string, stuck: seq<string>)

  datatype Outcome =
    | AfterStop
    | Superseded(winner: string)
    | Unroutable
    | RetainedDrop
    | Enqueued(cmd: Command)

  function FilterSet(rs: seq<Route>): set<string> {
    set r | r in rs :: r.filter
  }

  /** Whatever is live, everything that outranks it is live too. */
  ghost predicate Closed(rs: seq<Route>, live: set<string>) {
    forall r, s | r in rs && s in rs && s.filter in live && Outranks(r.parts, s.parts) :: r.filter in live
  }

  /** The first n routes were asked for, in this order and under their identifiers, and all but a last one
      that may have been refused were granted. */
  predicate AskedInTurn(asked: seq<Request>, order: seq<Route>, n: nat, refused: bool) {
    && |asked| == n <= |order|
    && forall i | 0 <= i < n ::
         asked[i].on && asked[i].filter == order[i].filter && asked[i].id == order[i].subID
         && (asked[i].ok <==> !(refused && i == n - 1))
  }

  /** A subscribe that was refused after k granted ones, and then those k taken down again, or kept. */
  predicate RolledBack(asked: seq<Request>, order: seq<Route>, failed: string, stuck: seq<string>) {
    RolledBackAt(asked, order, failed, stuck, |asked| / 2)
  }

  predicate RolledBackAt(asked: seq<Request>, order: seq<Route>, failed: string, stuck: seq<string>, k: nat) {
    && k < |order| && |asked| == 2 * k + 1
    && AskedInTurn(asked[..k + 1], order, k + 1, true) && order[k].filter == failed
    && TakenDown(asked[k + 1..], order, k, stuck)
  }

  /** The first k routes were taken down in turn, except for those reported. */
  predicate TakenDown(asked: seq<Request>, order: seq<Route>, k: nat, stuck: seq<string>) {
    && |asked| == k <= |order|
    && (forall i | 0 <= i < k :: !asked[i].on && asked[i].filter == order[i].filter)
    && forall i | 0 <= i < k :: asked[i].ok <==> order[i].filter !in stuck
  }

  /** Every route was asked for in turn; the refused ones are reported. */
  predicate AskedAgain(asked: seq<Request>, order: seq<Route>, refused: seq<string>) {
    && |asked| == |order|
    && forall i | 0 <= i < |asked| ::
         asked[i].on && asked[i].filter == order[i].filter && asked[i].id == order[i].subID
         && (asked[i].ok <==> order[i].filter !in refused)
  }

  /** The requests since the log was this long. */
  function Since(log: seq<Request>, n: nat): seq<Request> {
    if n <= |log| then log[n..] else []
  }

  /** No subscribe goes out before one for a filter that outranks it. */
  ghost predicate MostSpecificFirst(asked: seq<Request>) {
    forall i, j | 0 <= i < j < |asked| && asked[i].on && asked[j].on ::
      !Outranks(FilterParts(asked[j].filter), FilterParts(asked[i].filter))
  }

  /** What requests leave live, whatever the identifiers. */
  function LiveAfter(live: set<string>, asked: seq<Request>): set<string> {
    if asked == [] then live
    else
      var before, last := LiveAfter(live, asked[..|asked| - 1]), asked[|asked| - 1];
      if !last.ok then before else if last.on then before + {last.filter} else before - {last.filter}
  }

  /** At each moment of the subscribe loop, whatever is live has all that outranks it live. */
  ghost predicate ClosedThroughout(rs: seq<Route>, asked: seq<Request>) {
    forall k | 0 <= k <= |asked| && (forall i | 0 <= i < k :: asked[i].on) :: Closed(rs, LiveAfter({}, asked[..k]))
  }

  /** A start's requests: every route in the computed order, so most specific first, and at no moment is a
      route live without all that outranks it. */
  ghost predicate WentUp(asked: seq<Request>, rs: seq<Route>) {
    && AskedInTurn(asked, SubscribeOrder(rs), |rs|, false)
    && MostSpecificFirst(asked) && ClosedThroughout(rs, asked)
  }

  /** The same up to the first refusal, then the rollback. */
  ghost predicate WentDown(asked: seq<Request>, rs: seq<Route>, failed: string, stuck: seq<string>) {
    && RolledBack(asked, SubscribeOrder(rs), failed, stuck)
    && MostSpecificFirst(asked) && ClosedThroughout(rs, asked)
  }

  /** Every route is subscribed under its identifier, and nothing else changed. */
  predicate AllLive(rs: seq<Route>, before: map<string, nat>, after: map<string, nat>) {
    && (forall f | f in before && f !in FilterSet(rs) :: f in after && after[f] == before[f])
    && (forall f | f in after && f !in FilterSet(rs) :: f in before)
    && (forall r | r in rs :: r.filter in after && after[r.filter] == r.subID)
  }

  /** Nothing is subscribed that was not before, except what the broker would not take down. */
  predicate OnlyStuckLeft(rs: seq<Route>, before: map<string, nat>, after: map<string, nat>, stuck: seq<string>) {
    && (forall f | f in stuck :: f in after && f in FilterSet(rs))
    && (forall f | f in after :: f in before || f in stuck)
  }

  /** Of these filters only the refused ones may still be live; no other subscription changed. */
  ghost predicate Unsubscribed(filters: set<string>, before: map<string, nat>, after: map<string, nat>, refused: seq<string>) {
    && (forall f :: f in after <==> f in before && (f in filters ==> f in refused))
    && (forall f | f in refused :: f in filters)
  }

  lemma OneMoreUnsubscribed(filters: set<string>, before: map<string, nat>, mid: map<string, nat>, refused: seq<string>, f: string)
    requires Unsubscribed(filters, before, mid, refused) && f !in filters
    ensures Unsubscribed(filters + {f}, before, mid - {f}, refused)
    ensures Unsubscribed(filters + {f}, before, mid, refused + [f])
  {
  }

  lemma LiveInAnyOrder(rs: seq<Route>, ss: seq<Route>, before: map<string, nat>, after: map<string, nat>, stuck: seq<string>)
    requires forall r :: r in rs <==> r in ss
    ensures AllLive(rs, before, after) ==> AllLive(ss, before, after)
    ensures OnlyStuckLeft(rs, before, after, stuck) ==> OnlyStuckLeft(ss, before, after, stuck)
  {
    assert FilterSet(rs) == FilterSet(ss);
  }

  /** Everything but the identifiers. */
  predicate SameShape(rs: seq<Route>, ss: seq<Route>) {
    && |rs| == |ss|
    && forall i | 0 <= i < |rs| :: rs[i].filter == ss[i].filter && rs[i].parts == ss[i].parts
  }

  /** One route takes the next identifier, unless it has one or none is left. */
  function TakeId(rs: seq<Route>, i: nat, last: nat): (r: (seq<Route>, nat))
    requires i < |rs|
    ensures |r.0| == |rs|
  {
    if rs[i].subID == 0 && last < MAX_SUBSCRIPTION_ID then (rs[i := rs[i].(subID := last + 1)], last + 1) else (rs, last)
  }

  /** The first n routes in turn. */
  function TakeIds(rs: seq<Route>, n: nat, last: nat): (r: (seq<Route>, nat))
    requires n <= |rs|
    ensures |r.0| == |rs|
  {
    if n == 0 then (rs, last)
    else
      var before := TakeIds(rs, n - 1, last);
      TakeId(before.0, n - 1, before.1)
  }

  /** Identifiers once given are kept; new ones are all beyond `floor`. */
  predicate IdsKept(before: seq<Route>, after: seq<Route>, floor: nat) {
    && SameShape(before, after)
    && forall i | 0 <= i < |before| ::
         if before[i].subID != 0 then after[i].subID == before[i].subID
         else after[i].subID == 0 || after[i].subID > floor
  }

  lemma {:induction false} TakeIdsKeeps(rs: seq<Route>, n: nat, last: nat)
    requires n <= |rs| && IdsDistinct(rs, last)
    ensures var r := TakeIds(rs, n, last); IdsKept(rs, r.0, last) && IdsDistinct(r.0, r.1) && r.1 >= last
  {
    if n > 0 {
      TakeIdsKeeps(rs, n - 1, last);
    }
  }

  predicate IdsDistinct(rs: seq<Route>, last: nat) {
    && (forall i | 0 <= i < |rs| :: rs[i].subID <= last)
    && forall i, j | 0 <= i < j < |rs| && rs[i].subID != 0 :: rs[i].subID != rs[j].subID
  }

  lemma NewRouteKeepsIds(rs: seq<Route>, last: nat, r: Route)
    requires IdsDistinct(rs, last) && r.subID == 0
    ensures IdsDistinct(rs + [r], last)
  {
  }

  lemma AcceptedIgnoresIds(rs: seq<Route>, ss: seq<Route>, attributed: bool)
    requires Accepted(rs, attributed) && SameShape(rs, ss)
    ensures Accepted(ss, attributed)
  {
    forall i, j | 0 <= i < j < |ss| ensures Compatible(ss[i], ss[j], attributed) {
      assert Compatible(rs[i], rs[j], attributed);
    }
  }

  /** What registration demands of a new filter against one route already there. */
  ghost predicate Admits(r: Route, filter: string, canAttribute: bool) {
    && r.filter != filter
    && (Overlap(r.parts, FilterParts(filter)) ==>
          && canAttribute
          && (Outranks(r.parts, FilterParts(filter)) || Outranks(FilterParts(filter), r.parts)))
  }

  /** The offence is one there is: the filter again, an overlap nothing tells apart, or one neither side wins. */
  ghost predicate Offends(rs: seq<Route>, filter: string, canAttribute: bool, err: HandleError) {
    match err
    case Duplicate => exists r :: r in rs && r.filter == filter
    case Unattributable(f) =>
      !canAttribute && exists r :: r in rs && r.filter == f && r.filter != filter && Overlap(r.parts, FilterParts(filter))
    case Ambiguous(f) =>
      canAttribute && exists r :: r in rs && r.filter == f && r.filter != filter && Overlap(r.parts, FilterParts(filter))
                                  && !Outranks(r.parts, FilterParts(filter)) && !Outranks(FilterParts(filter), r.parts)
    case _ => false
  }

  /** The checks Handle runs over the routes in place: the first offence, or whether any overlap was accepted. */
  method CheckAgainst(rs: seq<Route>, filter: string, canAttribute: bool)
      returns (err: Option<HandleError>, overlaps: bool)
    ensures err.None? <==> forall r | r in rs :: Admits(r, filter, canAttribute)
    ensures err.None? ==> overlaps == exists r | r in rs :: Overlap(r.parts, FilterParts(filter))
    ensures err.Some? ==> Offends(rs, filter, canAttribute, err.value)
  {
    var parts := FilterParts(filter);
    overlaps := false;
    for i := 0 to |rs|
      invariant forall r | r in rs[..i] :: Admits(r, filter, canAttribute)
      invariant overlaps == exists r | r in rs[..i] :: Overlap(r.parts, parts)
    {
      assert rs[..i + 1] == rs[..i] + [rs[i]];
      assert rs[i] in rs;
      if rs[i].filter == filter {
        return Some(Duplicate), false;
      }
      var shared := FiltersOverlap(rs[i].parts, parts);
      if shared {
        if !canAttribute {
          return Some(Unattributable(rs[i].filter)), false;
        }
        var cmp, ok := CompareSpecificity(rs[i].parts, parts);
        if !ok || cmp == 0 {
          return Some(Ambiguous(rs[i].filter)), false;
        }
        overlaps := true;
      }
    }
    assert rs[..|rs|] == rs;
    return None, overlaps;
  }

  lemma RegistrationKeepsAccepted(rs: seq<Route>, before: bool, filter: string, canAttribute: bool, after: bool)
    requires Accepted(rs, before) && WellFormed(filter)
    requires forall r | r in rs :: Admits(r, filter, canAttribute)
    requires after == (before || exists r | r in rs :: Overlap(r.parts, FilterParts(filter)))
    ensures Accepted(rs + [Route(filter, FilterParts(filter), 0)], after)
  {
    var added := Route(filter, FilterParts(filter), 0);
    forall i | 0 <= i < |rs| ensures Compatible(rs[i], added, after) {
      assert rs[i] in rs && Admits(rs[i], filter, canAttribute);
    }
    assert RouteOk(added);
    OneMoreAccepted(rs, before, added, after);
  }

  lemma OneMoreAccepted(rs: seq<Route>, before: bool, added: Route, after: bool)
    requires Accepted(rs, before) && (before ==> after) && RouteOk(added)
    requires forall i | 0 <= i < |rs| :: Compatible(rs[i], added, after)
    ensures Accepted(rs + [added], after)
  {
    var all := rs + [added];
    forall i, j | 0 <= i < j < |all| ensures Compatible(all[i], all[j], after) {
      if j < |rs| {
        assert Compatible(rs[i], rs[j], before);
      }
    }
  }

  predicate DistinctFilters(rs: seq<Route>) {
    forall i, j | 0 <= i < j < |rs| :: rs[i].filter != rs[j].filter
  }

  lemma RoutesDiffer(rs: seq<Route>, attributed: bool, r: Route, s: Route)
    requires Accepted(rs, attributed) && r in rs && s in rs && r != s
    ensures r.filter != s.filter
  {
    var i :| 0 <= i < |rs| && rs[i] == r;
    var j :| 0 <= j < |rs| && rs[j] == s;
    if i < j {
      assert Compatible(rs[i], rs[j], attributed);
    } else {
      assert Compatible(rs[j], rs[i], attributed);
    }
  }

  lemma DistinctInAnyOrder(rs: seq<Route>, attributed: bool, out: seq<Route>, i: nat, j: nat)
    requires Accepted(rs, attributed) && multiset(out) == multiset(rs)
    requires i < j < |out|
    ensures out[i].filter != out[j].filter
  {
    assert out[i] in multiset(rs) && out[j] in multiset(rs);
    if out[i] == out[j] {
      RepeatedTwice(out, i, j);
      var a :| 0 <= a < |rs| && rs[a] == out[i];
      OnceEach(rs, attributed, a);
    } else {
      RoutesDiffer(rs, attributed, out[i], out[j]);
    }
  }

  /** The subscription order is the route set, each filter once. */
  lemma OrderHoldsRoutes(rs: seq<Route>, attributed: bool)
    requires Accepted(rs, attributed)
    ensures forall r :: r in SubscribeOrder(rs) <==> r in rs
    ensures DistinctFilters(SubscribeOrder(rs))
  {
    var out := SubscribeOrder(rs);
    forall r: Route ensures r in out <==> r in rs {
      assert r in out <==> r in multiset(out);
      assert r in rs <==> r in multiset(rs);
    }
    forall i, j | 0 <= i < j < |out| ensures out[i].filter != out[j].filter {
      DistinctInAnyOrder(rs, attributed, out, i, j);
    }
  }

  lemma RepeatedTwice(rs: seq<Route>, i: nat, j: nat)
    requires i < j < |rs| && rs[i] == rs[j]
    ensures multiset(rs)[rs[i]] >= 2
  {
    assert rs == rs[..j] + rs[j..];
    assert rs[i] in rs[..j] && rs[j] in rs[j..];
  }

  lemma OnceEach(rs: seq<Route>, attributed: bool, a: nat)
    requires Accepted(rs, attributed) && a < |rs|
    ensures multiset(rs)[rs[a]] == 1
  {
    forall i | 0 <= i < |rs| && i != a ensures rs[i] != rs[a] {
      if i < a {
        assert Compatible(rs[i], rs[a], attributed);
      } else {
        assert Compatible(rs[a], rs[i], attributed);
      }
    }
    OnlyOnce(rs, a);
  }

  lemma OnlyOnce(rs: seq<Route>, a: nat)
    requires a < |rs| && forall i | 0 <= i < |rs| && i != a :: rs[i] != rs[a]
    ensures multiset(rs)[rs[a]] == 1
  {
    assert rs == rs[..a] + [rs[a]] + rs[a + 1..];
  }

  lemma OrderDescends(rs: seq<Route>, attributed: bool, i: nat, j: nat)
    requires Accepted(rs, attributed) && i < j < |rs|
    ensures var order := SubscribeOrder(rs);
            && order[i] in rs && order[j] in rs && order[i].parts == FilterParts(order[i].filter)
            && order[j].parts == FilterParts(order[j].filter) && !Outranks(order[j].parts, order[i].parts)
  {
    OrderHoldsRoutes(rs, attributed);
    var order := SubscribeOrder(rs);
    assert order[i] in order && order[j] in order;
    SubscribeOrderIsMostSpecificFirst(rs, i, j);
  }

  /** Routes asked for in the computed order go out most specific first. */
  lemma InTurnIsMostSpecificFirst(rs: seq<Route>, attributed: bool, asked: seq<Request>, n: nat)
    requires Accepted(rs, attributed) && n <= |rs| && n <= |asked|
    requires forall i | 0 <= i < n :: asked[i].filter == SubscribeOrder(rs)[i].filter
    requires forall i | n <= i < |asked| :: !asked[i].on
    ensures MostSpecificFirst(asked)
  {
    forall i, j | 0 <= i < j < |asked| && asked[i].on && asked[j].on
      ensures !Outranks(FilterParts(asked[j].filter), FilterParts(asked[i].filter)) {
      OrderDescends(rs, attributed, i, j);
    }
  }

  /** What the first k routes of the order leave live has all that outranks it live. */
  lemma FirstRoutesAreClosed(rs: seq<Route>, attributed: bool, k: nat)
    requires Accepted(rs, attributed) && k <= |rs|
    ensures Closed(rs, FilterSet(SubscribeOrder(rs)[..k]))
  {
    var order := SubscribeOrder(rs);
    OrderHoldsRoutes(rs, attributed);
    forall r, s | r in rs && s in rs && s.filter in FilterSet(order[..k]) && Outranks(r.parts, s.parts)
      ensures r.filter in FilterSet(order[..k]) {
      var x :| x in order[..k] && x.filter == s.filter;
      var i :| 0 <= i < k && order[i] == x;
      assert order[i] in order && r in order;
      if x != s {
        RoutesDiffer(rs, attributed, x, s);
      }
      var m :| 0 <= m < |order| && order[m] == r;
      if m >= k {
        OrderDescends(rs, attributed, i, m);
      }
      assert order[m] in order[..k];
    }
  }

  lemma LiveAfterOne(live: set<string>, asked: seq<Request>, last: Request)
    ensures LiveAfter(live, asked + [last]) ==
              var before := LiveAfter(live, asked);
              if !last.ok then before else if last.on then before + {last.filter} else before - {last.filter}
  {
    assert (asked + [last])[..|asked|] == asked;
  }

  lemma {:induction false} GrantedAreLive(asked: seq<Request>, order: seq<Route>, k: nat)
    requires k <= |asked| && k <= |order|
    requires forall i | 0 <= i < k :: asked[i].on && asked[i].ok && asked[i].filter == order[i].filter
    ensures LiveAfter({}, asked[..k]) == FilterSet(order[..k])
  {
    if k == 0 {
      assert FilterSet(order[..0]) == {};
    } else {
      GrantedAreLive(asked, order, k - 1);
      LiveAfterOne({}, asked[..k - 1], asked[k - 1]);
      assert asked[..k - 1] + [asked[k - 1]] == asked[..k];
      assert order[..k - 1] + [order[k - 1]] == order[..k];
    }
  }

  lemma LiveInTurn(asked: seq<Request>, order: seq<Route>, n: nat, refused: bool, k: nat)
    requires AskedInTurn(asked, order, n, refused) && k <= n
    ensures LiveAfter({}, asked[..k]) == FilterSet(order[..if refused && k == n && n > 0 then n - 1 else k])
  {
    if refused && k == n && n > 0 {
      GrantedAreLive(asked, order, n - 1);
      LiveAfterOne({}, asked[..n - 1], asked[n - 1]);
      assert asked[..n - 1] + [asked[n - 1]] == asked[..n];
    } else {
      GrantedAreLive(asked, order, k);
    }
  }

  lemma InTurnIsClosed(rs: seq<Route>, attributed: bool, asked: seq<Request>, n: nat, refused: bool)
    requires Accepted(rs, attributed) && n <= |asked| && AskedInTurn(asked[..n], SubscribeOrder(rs), n, refused)
    requires n < |asked| ==> !asked[n].on
    ensures ClosedThroughout(rs, asked)
  {
    forall k | 0 <= k <= |asked| && (forall i | 0 <= i < k :: asked[i].on) ensures Closed(rs, LiveAfter({}, asked[..k])) {
      assert k <= n;
      assert asked[..n][..k] == asked[..k];
      LiveInTurn(asked[..n], SubscribeOrder(rs), n, refused, k);
      FirstRoutesAreClosed(rs, attributed, if refused && k == n && n > 0 then n - 1 else k);
    }
  }

  lemma RolledBackInTurn(rs: seq<Route>, attributed: bool, asked: seq<Request>, failed: string, stuck: seq<string>, k: nat)
    requires Accepted(rs, attributed) && RolledBackAt(asked, SubscribeOrder(rs), failed, stuck, k)
    ensures MostSpecificFirst(asked) && ClosedThroughout(rs, asked)
  {
    FirstThenDown(asked, SubscribeOrder(rs), failed, stuck, k);
    InTurnIsMostSpecificFirst(rs, attributed, asked, k + 1);
    InTurnIsClosed(rs, attributed, asked, k + 1, true);
  }

  lemma FirstThenDown(asked: seq<Request>, order: seq<Route>, failed: string, stuck: seq<string>, k: nat)
    requires RolledBackAt(asked, order, failed, stuck, k)
    ensures forall i | 0 <= i < k + 1 :: asked[i].filter == order[i].filter
    ensures forall i | k + 1 <= i < |asked| :: !asked[i].on
  {
    forall i | k + 1 <= i < |asked| ensures !asked[i].on {
      assert asked[k + 1..][i - k - 1] == asked[i];
    }
    forall i | 0 <= i < k + 1 ensures asked[i].filter == order[i].filter {
      assert asked[..k + 1][i] == asked[i];
    }
  }

  lemma SinceThen(before: seq<Request>, asked: seq<Request>)
    ensures Since(before + asked, |before|) == asked && before <= before + asked
  {
  }

  lemma Rejoined(before: seq<Request>, asked: seq<Request>, taken: seq<Request>)
    ensures before + asked + taken == before + (asked + taken)
  {
  }

  lemma ThenRolledBack(asked: seq<Request>, taken: seq<Request>, order: seq<Route>, stuck: seq<string>, k: nat)
    requires k < |order| && AskedInTurn(asked, order, k + 1, true) && TakenDown(taken, order, k, stuck)
    ensures RolledBack(asked + taken, order, order[k].filter, stuck)
  {
    assert (asked + taken)[..k + 1] == asked && (asked + taken)[k + 1..] == taken;
    assert RolledBackAt(asked + taken, order, order[k].filter, stuck, k);
  }

  lemma AcceptedIsDistinct(rs: seq<Route>, attributed: bool)
    requires Accepted(rs, attributed)
    ensures DistinctFilters(rs)
  {
    forall i, j | 0 <= i < j < |rs| ensures rs[i].filter != rs[j].filter {
      assert Compatible(rs[i], rs[j], attributed);
    }
  }

  lemma OneMoreFilter(rs: seq<Route>, i: nat)
    requires i < |rs| && DistinctFilters(rs)
    ensures FilterSet(rs[..i + 1]) == FilterSet(rs[..i]) + {rs[i].filter} && rs[i].filter !in FilterSet(rs[..i])
  {
    assert rs[..i + 1] == rs[..i] + [rs[i]];
  }

  lemma OneMoreTakenDown(asked: seq<Request>, rs: seq<Route>, i: nat, refused: seq<string>, ok: bool)
    requires DistinctFilters(rs) && i < |rs| && TakenDown(asked, rs, i, refused)
    requires forall f | f in refused :: f in FilterSet(rs[..i])
    ensures TakenDown(asked + [Request(rs[i].filter, false, 0, ok)], rs, i + 1, if ok then refused else refused + [rs[i].filter])
  {
    OneMoreFilter(rs, i);
  }

  /** So a start's requests, however it ended. */
  lemma WentUpOrDown(rs: seq<Route>, attributed: bool, asked: seq<Request>, result: StartResult)
    requires Accepted(rs, attributed)
    requires result.Started? ==> AskedInTurn(asked, SubscribeOrder(rs), |rs|, false)
    requires result.Failed? ==> RolledBack(asked, SubscribeOrder(rs), result.filter, result.stuck)
    ensures result.Started? ==> WentUp(asked, rs)
    ensures result.Failed? ==> WentDown(asked, rs, result.filter, result.stuck)
  {
    if result.Started? {
      assert asked[..|rs|] == asked;
      InTurnIsMostSpecificFirst(rs, attributed, asked, |rs|);
      InTurnIsClosed(rs, attributed, asked, |rs|, false);
    } else if result.Failed? {
      RolledBackInTurn(rs, attributed, asked, result.filter, result.stuck, |asked| / 2);
    }
  }

  class CommandRouter {
    const tr: Subscriptions
    const ids: Counter
    const canAttribute: bool
    const deliverRetained: bool
    const workers: int
    const queueDepth: int
    const hash: string -> nat

    var routes: seq<Route>
    var started: bool
    var stopped: bool
    var attributed: bool
    var pool: WorkerPool?

    ghost predicate Valid()
      reads this, ids, if pool == null then [] else pool.queues
    {
      && Accepted(routes, attributed)
      && (attributed ==> canAttribute)
      && IdsDistinct(routes, ids.last)
      && (pool != null <==> started && !stopped)
      && (pool != null ==>
            pool.Valid() && pool.hash == hash && forall i | 0 <= i < |pool.queues| :: !pool.queues[i].closed)
    }

    constructor (tr: Subscriptions, ids: Counter, canAttribute: bool, deliverRetained: bool,
                 workers: int, queueDepth: int, hash: string -> nat)
      ensures Valid() && routes == [] && !started && !stopped && pool == null
      ensures this.tr == tr && this.ids == ids && this.canAttribute == canAttribute
    {
      this.tr, this.ids, this.canAttribute, this.deliverRetained := tr, ids, canAttribute, deliverRetained;
      this.workers, this.queueDepth, this.hash := workers, queueDepth, hash;
      routes, started, stopped, attributed, pool := [], false, false, false, null;
    }

    /** Handle: registers a route, `handled` when it is given a handler, or says why the set would no longer be decidable with it. */
    method Handle(filter: string, handled: bool) returns (err: Option<HandleError>)
      requires Valid()
      modifies this`routes, this`attributed
      ensures Valid()
      ensures err.None? <==> handled && !started && WellFormed(filter)
                             && forall r | r in old(routes) ::
                                  r.filter != filter
                                  && (Overlap(r.parts, FilterParts(filter)) ==>
                                        canAttribute
                                        && (Outranks(r.parts, FilterParts(filter)) || Outranks(FilterParts(filter), r.parts)))
      ensures err == Some(NilHandler) <==> !handled
      ensures err.Some? && err.value.Invalid? <==> handled && !WellFormed(filter)
      ensures err == Some(RouterStarted) <==> handled && WellFormed(filter) && started
      ensures err.Some? && handled && WellFormed(filter) && !started ==> Offends(old(routes), filter, canAttribute, err.value)
      ensures err.Some? ==> routes == old(routes) && attributed == old(attributed)
      ensures err.None? ==>
                && routes == old(routes) + [Route(filter, FilterParts(filter), 0)]
                && attributed == (old(attributed)
                                  || exists r | r in old(routes) :: Overlap(r.parts, FilterParts(filter)))
    {
      if !handled {
        return Some(NilHandler);
      }
      var invalid := ValidateFilter(filter);
      if invalid.Some? {
        return Some(Invalid(invalid.value));
      }
      if started {
        return Some(RouterStarted);
      }
      var refused, overlaps := CheckAgainst(routes, filter, canAttribute);
      if refused.Some? {
        return refused;
      }
      Register(filter, overlaps);
      return None;
    }

    method Register(filter: string, overlaps: bool)
      requires Valid() && !started && WellFormed(filter)
      requires forall r | r in routes :: Admits(r, filter, canAttribute)
      requires overlaps == exists r | r in routes :: Overlap(r.parts, FilterParts(filter))
      modifies this`routes, this`attributed
      ensures Valid()
      ensures routes == old(routes) + [Route(filter, FilterParts(filter), 0)]
      ensures attributed == (old(attributed) || overlaps)
    {
      RegistrationKeepsAccepted(routes, attributed, filter, canAttribute, attributed || overlaps);
      NewRouteKeepsIds(routes, ids.last, Route(filter, FilterParts(filter), 0));
      routes := routes + [Route(filter, FilterParts(filter), 0)];
      if overlaps {
        attributed := true;
      }
    }

    /** routeSubsLocked. */
    method RouteSubs() returns (out: seq<Route>)
      ensures out == SubscribeOrder(routes)
    {
      var width := 1;
      for i := 0 to |routes|
        invariant width == Width(routes[..i])
      {
        assert routes[..i + 1][..i] == routes[..i];
        if |routes[i].parts| >= width {
          width := |routes[i].parts| + 1;
        }
      }
      assert routes[..|routes|] == routes;
      var scored := ScoreRoutes(width);
      SortScoredIs(scored, width);
      return RoutesOf(SortScored(scored));
    }

    method ScoreRoutes(width: nat) returns (scored: seq<Scored>)
      ensures RoutesOf(scored) == routes && ScoredAt(scored, width)
    {
      scored := [];
      for i := 0 to |routes|
        invariant RoutesOf(scored) == routes[..i] && ScoredAt(scored, width)
      {
        var score := SpecificityScore(routes[i].parts, width);
        scored := scored + [Scored(routes[i], score)];
        assert routes[..i + 1] == routes[..i] + [routes[i]];
      }
    }

    /** assignSubscriptionIDsLocked, when the router is attributing. */
    method AssignIds() returns (ok: bool)
      requires Valid()
      modifies this`routes, ids
      ensures Valid()
      ensures (routes, ids.last) == TakeIds(old(routes), |old(routes)|, old(ids.last))
      ensures IdsKept(old(routes), routes, old(ids.last)) && ids.last >= old(ids.last)
      ensures ok ==> forall i | 0 <= i < |routes| :: routes[i].subID != 0
      ensures !ok ==> ids.last >= MAX_SUBSCRIPTION_ID
    {
      var rs: seq<Route>;
      TakeIdsKeeps(routes, |routes|, ids.last);
      rs, ok := AllocateEach(routes);
      AcceptedIgnoresIds(routes, rs, attributed);
      routes := rs;
    }

    method AllocateEach(before: seq<Route>) returns (rs: seq<Route>, ok: bool)
      modifies ids
      ensures (rs, ids.last) == TakeIds(before, |before|, old(ids.last))
      ensures ok ==> forall i | 0 <= i < |rs| :: rs[i].subID != 0
      ensures !ok ==> ids.last >= MAX_SUBSCRIPTION_ID
    {
      rs := before;
      ok := true;
      for i := 0 to |rs|
        invariant (rs, ids.last) == TakeIds(before, i, old(ids.last))
        invariant |rs| == |before| && ids.last >= old(ids.last)
        invariant ok ==> forall k | 0 <= k < i :: rs[k].subID != 0
        invariant forall k | i <= k < |rs| :: rs[k] == before[k]
        invariant !ok ==> ids.last >= MAX_SUBSCRIPTION_ID
      {
        if ok && rs[i].subID == 0 {
          var id := ids.Allocate();
          if id.None? {
            ok := false;
          } else {
            rs := rs[i := rs[i].(subID := id.value)];
          }
        }
      }
    }

    /** Start: subscribes every route, most specific first; one refusal takes everything down again. */
    method Start() returns (result: StartResult)
      requires Valid()
      modifies this`routes, this`started, this`stopped, this`pool, ids, tr
      ensures Valid()
      ensures old(tr.log) <= tr.log
      ensures !result.Started? && !result.Failed? ==> tr.log == old(tr.log)
      ensures result.Started? ==> WentUp(Since(tr.log, |old(tr.log)|), routes)
      ensures result.Failed? ==> WentDown(Since(tr.log, |old(tr.log)|), routes, result.filter, result.stuck)
      ensures result.RouterClosed? <==> old(stopped)
      ensures result.AlreadyStarted? <==> !old(stopped) && old(started)
      ensures result.RouterClosed? || result.AlreadyStarted? ==>
                routes == old(routes) && started == old(started) && stopped == old(stopped)
                && pool == old(pool) && tr.live == old(tr.live) && ids.last == old(ids.last)
      ensures IdsKept(old(routes), routes, old(ids.last)) && ids.last >= old(ids.last)
      ensures !attributed ==> routes == old(routes)
      ensures result.NoIdentifiers? ==> !started && !stopped && tr.live == old(tr.live)
      ensures result.Started? ==>
                && started && !stopped && fresh(pool)
                && (attributed ==> forall i | 0 <= i < |routes| :: routes[i].subID != 0)
                && AllLive(routes, old(tr.live), tr.live)
      ensures result.Failed? ==>
                && !started
                && stopped == (result.stuck != [])
                && OnlyStuckLeft(routes, old(tr.live), tr.live, result.stuck)
    {
      if stopped {
        return RouterClosed;
      }
      if started {
        return AlreadyStarted;
      }
      result := Begin();
      WentUpOrDown(routes, attributed, Since(tr.log, |old(tr.log)|), result);
    }

    /** Start, on a router that has not been started. */
    method Begin() returns (result: StartResult)
      requires Valid() && !started && !stopped
      modifies this`routes, this`started, this`stopped, this`pool, ids, tr
      ensures Valid()
      ensures old(tr.log) <= tr.log
      ensures result.Started? || result.Failed? || (result.NoIdentifiers? && tr.log == old(tr.log))
      ensures result.Started? ==> AskedInTurn(Since(tr.log, |old(tr.log)|), SubscribeOrder(routes), |routes|, false)
      ensures result.Failed? ==>
                RolledBack(Since(tr.log, |old(tr.log)|), SubscribeOrder(routes), result.filter, result.stuck)
      ensures IdsKept(old(routes), routes, old(ids.last)) && ids.last >= old(ids.last)
      ensures !attributed ==> routes == old(routes)
      ensures result.NoIdentifiers? ==> !started && !stopped && tr.live == old(tr.live)
      ensures result.Started? ==>
                && started && !stopped && fresh(pool)
                && (attributed ==> forall i | 0 <= i < |routes| :: routes[i].subID != 0)
                && AllLive(routes, old(tr.live), tr.live)
      ensures result.Failed? ==>
                && !started
                && stopped == (result.stuck != [])
                && OnlyStuckLeft(routes, old(tr.live), tr.live, result.stuck)
    {
      if attributed {
        var ok := AssignIds();
        if !ok {
          return NoIdentifiers;
        }
      }
      result := Launch();
    }

    /** Start, once every route has the identifier it needs. */
    method Launch() returns (result: StartResult)
      requires Valid() && !started && !stopped
      modifies this`started, this`stopped, this`pool, tr
      ensures Valid()
      ensures old(tr.log) <= tr.log
      ensures result.Started? ==> AskedInTurn(Since(tr.log, |old(tr.log)|), SubscribeOrder(routes), |routes|, false)
      ensures result.Failed? ==>
                RolledBack(Since(tr.log, |old(tr.log)|), SubscribeOrder(routes), result.filter, result.stuck)
      ensures result.Started? || result.Failed?
      ensures result.Started? ==> started && !stopped && fresh(pool) && AllLive(routes, old(tr.live), tr.live)
      ensures result.Failed? ==>
                !started && stopped == (result.stuck != []) && OnlyStuckLeft(routes, old(tr.live), tr.live, result.stuck)
    {
      Open();
      var failed, stuck := SubscribeRoutes();
      if failed.Some? {
        Abandon(stuck != []);
        return Failed(failed.value, stuck);
      }
      return Started;
    }

    /** The gate opens, onto empty queues. */
    method Open()
      requires Valid() && !started && !stopped
      modifies this`started, this`pool
      ensures Valid() && started && fresh(pool)
      ensures forall i | 0 <= i < |pool.queues| :: fresh(pool.queues[i]) && pool.queues[i].jobs == []
    {
      started := true;
      pool := new WorkerPool(workers, queueDepth, hash);
    }

    /** What a failed start leaves of the router; `forGood` when the broker kept a subscription. */
    method Abandon(forGood: bool)
      requires Valid() && pool != null
      modifies this`started, this`stopped, this`pool, pool.queues
      ensures Valid() && !started && stopped == forGood && pool == null
      ensures forall i | 0 <= i < |old(pool).queues| ::
                old(pool).queues[i].closed && old(pool).queues[i].jobs == old(pool.queues[i].jobs)
    {
      started := false;
      stopped := forGood;
      pool.CloseQueues();
      pool := null;
    }

    method SubscribeRoutes() returns (failed: Option<string>, stuck: seq<string>)
      requires Accepted(routes, attributed) && started && !stopped && pool != null
      modifies tr
      ensures old(tr.log) <= tr.log
      ensures failed.None? ==>
                && AllLive(routes, old(tr.live), tr.live)
                && AskedInTurn(Since(tr.log, |old(tr.log)|), SubscribeOrder(routes), |routes|, false)
      ensures failed.Some? ==>
                && OnlyStuckLeft(routes, old(tr.live), tr.live, stuck)
                && RolledBack(Since(tr.log, |old(tr.log)|), SubscribeOrder(routes), failed.value, stuck)
    {
      var subs := RouteSubs();
      OrderHoldsRoutes(routes, attributed);
      failed, stuck := SubscribeAll(subs);
      LiveInAnyOrder(subs, routes, old(tr.live), tr.live, stuck);
    }

    /** Start's loop over the subscriptions, the gate open so that a copy may arrive with the first of them;
        stops at the first refusal and rolls back, the gate still open. */
    method SubscribeAll(subs: seq<Route>) returns (failed: Option<string>, stuck: seq<string>)
      requires DistinctFilters(subs) && started && !stopped && pool != null
      modifies tr
      ensures old(tr.log) <= tr.log
      ensures failed.None? ==>
                && AllLive(subs, old(tr.live), tr.live)
                && AskedInTurn(Since(tr.log, |old(tr.log)|), subs, |subs|, false)
      ensures failed.Some? ==>
                && OnlyStuckLeft(subs, old(tr.live), tr.live, stuck)
                && RolledBack(Since(tr.log, |old(tr.log)|), subs, failed.value, stuck)
    {
      var k;
      ghost var asked;
      k, asked := SubscribeInTurn(subs);
      SinceThen(old(tr.log), asked);
      if k == |subs| {
        assert subs[..k] == subs;
        return None, [];
      }
      ghost var taken;
      stuck, taken := Rollback(subs, k);
      ThenRolledBack(asked, taken, subs, stuck, k);
      SinceThen(old(tr.log), asked + taken);
      Rejoined(old(tr.log), asked, taken);
      return Some(subs[k].filter), stuck;
    }

    /** The subscribes themselves: how many were granted before the first refusal. */
    method SubscribeInTurn(subs: seq<Route>) returns (k: nat, ghost asked: seq<Request>)
      requires DistinctFilters(subs) && started && !stopped && pool != null
      modifies tr
      ensures k <= |subs| && tr.log == old(tr.log) + asked
      ensures if k == |subs| then AskedInTurn(asked, subs, k, false) else AskedInTurn(asked, subs, k + 1, true)
      ensures forall f | f in tr.live :: f in old(tr.live) || f in FilterSet(subs[..k])
      ensures forall f | f !in FilterSet(subs) :: (f in tr.live <==> f in old(tr.live))
                                                  && (f in tr.live ==> tr.live[f] == old(tr.live)[f])
      ensures forall j | 0 <= j < k :: subs[j].filter in tr.live && tr.live[subs[j].filter] == subs[j].subID
    {
      k, asked := 0, [];
      while k < |subs|
        invariant k <= |subs| && tr.log == old(tr.log) + asked && AskedInTurn(asked, subs, k, false)
        invariant forall f | f in tr.live :: f in old(tr.live) || f in FilterSet(subs[..k])
        invariant forall f | f !in FilterSet(subs) :: (f in tr.live <==> f in old(tr.live))
                                                      && (f in tr.live ==> tr.live[f] == old(tr.live)[f])
        invariant forall j | 0 <= j < k :: subs[j].filter in tr.live && tr.live[subs[j].filter] == subs[j].subID
      {
        OneMoreFilter(subs, k);
        assert subs[k] in subs;
        var ok := tr.Subscribe(subs[k].filter, subs[k].subID);
        asked := asked + [Request(subs[k].filter, true, subs[k].subID, ok)];
        if !ok {
          return;
        }
        k := k + 1;
      }
    }

    /** rollback: takes down what a failed start had registered; reports what the broker kept. */
    method Rollback(subs: seq<Route>, k: nat) returns (stuck: seq<string>, ghost taken: seq<Request>)
      requires k <= |subs| && DistinctFilters(subs)
      requires forall r | r in subs[..k] :: r.filter in tr.live
      modifies tr
      ensures tr.log == old(tr.log) + taken && TakenDown(taken, subs, k, stuck)
      ensures forall f | f in stuck :: f in tr.live && f in FilterSet(subs[..k])
      ensures forall f | f !in FilterSet(subs[..k]) :: (f in tr.live <==> f in old(tr.live))
                                                       && (f in tr.live ==> tr.live[f] == old(tr.live)[f])
      ensures forall f | f in tr.live :: f in old(tr.live) && (f in FilterSet(subs[..k]) ==> f in stuck)
    {
      stuck, taken := [], [];
      for j := 0 to k
        invariant forall f | f in tr.live :: f in old(tr.live) && tr.live[f] == old(tr.live)[f]
        invariant forall i | 0 <= i < j && subs[i].filter in tr.live :: subs[i].filter in stuck
        invariant forall i | j <= i < k :: subs[i].filter in tr.live
        invariant forall f | f in stuck :: f in tr.live && f in FilterSet(subs[..j])
        invariant forall f | f in old(tr.live) && f !in tr.live :: f in FilterSet(subs[..j])
        invariant tr.log == old(tr.log) + taken && TakenDown(taken, subs, j, stuck)
      {
        assert subs[..j + 1] == subs[..j] + [subs[j]];
        var ok := tr.Unsubscribe(subs[j].filter);
        taken := taken + [Request(subs[j].filter, false, 0, ok)];
        if !ok {
          stuck := stuck + [subs[j].filter];
        } else {
          assert subs[j].filter !in FilterSet(subs[..j]);
        }
      }
    }

    /** Resubscribe: re-registers every route in the same order; a refusal is reported, not fatal. */
    method Resubscribe() returns (refused: seq<string>)
      requires Valid()
      modifies tr
      ensures Valid()
      ensures old(tr.log) <= tr.log && MostSpecificFirst(Since(tr.log, |old(tr.log)|))
      ensures if !started || stopped then tr.log == old(tr.log)
              else AskedAgain(Since(tr.log, |old(tr.log)|), SubscribeOrder(routes), refused)
      ensures !started || stopped ==> refused == [] && tr.live == old(tr.live)
      ensures forall f | f !in FilterSet(routes) :: (f in tr.live <==> f in old(tr.live))
                                                    && (f in tr.live ==> tr.live[f] == old(tr.live)[f])
      ensures started && !stopped ==>
                forall r | r in routes ::
                  if r.filter in refused
                  then (r.filter in tr.live <==> r.filter in old(tr.live))
                       && (r.filter in tr.live ==> tr.live[r.filter] == old(tr.live)[r.filter])
                  else r.filter in tr.live && tr.live[r.filter] == r.subID
    {
      if !started || stopped {
        return [];
      }
      var subs := RouteSubs();
      OrderHoldsRoutes(routes, attributed);
      refused := ResubscribeAll(subs);
      InTurnIsMostSpecificFirst(routes, attributed, Since(tr.log, |old(tr.log)|), |routes|);
    }

    method ResubscribeAll(subs: seq<Route>) returns (refused: seq<string>)
      requires DistinctFilters(subs)
      modifies tr
      ensures old(tr.log) <= tr.log && AskedAgain(Since(tr.log, |old(tr.log)|), subs, refused)
      ensures forall f | f !in FilterSet(subs) || f in refused ::
                (f in tr.live <==> f in old(tr.live)) && (f in tr.live ==> tr.live[f] == old(tr.live)[f])
      ensures forall r | r in subs && r.filter !in refused :: r.filter in tr.live && tr.live[r.filter] == r.subID
    {
      refused := [];
      ghost var asked: seq<Request> := [];
      for k := 0 to |subs|
        invariant tr.log == old(tr.log) + asked && AskedAgain(asked, subs[..k], refused)
        invariant forall f | f !in FilterSet(subs[..k]) || f in refused ::
                    (f in tr.live <==> f in old(tr.live)) && (f in tr.live ==> tr.live[f] == old(tr.live)[f])
        invariant forall f | f in refused :: f in FilterSet(subs[..k])
        invariant forall j | 0 <= j < k && subs[j].filter !in refused ::
                    subs[j].filter in tr.live && tr.live[subs[j].filter] == subs[j].subID
      {
        assert subs[..k + 1] == subs[..k] + [subs[k]];
        assert subs[k].filter !in FilterSet(subs[..k]);
        var ok := tr.Subscribe(subs[k].filter, subs[k].subID);
        asked := asked + [Request(subs[k].filter, true, subs[k].subID, ok)];
        if !ok {
          refused := refused + [subs[k].filter];
        }
      }
      assert subs[..|subs|] == subs;
      assert Since(tr.log, |old(tr.log)|) == asked;
    }

    /** Stop: closes the gate, then unsubscribes every route, then lets the pool drain. */
    method Stop() returns (refused: seq<string>)
      requires Valid()
      modifies this`stopped, this`pool, tr, if pool == null then [] else pool.queues
      ensures Valid() && stopped && pool == null
      ensures old(tr.log) <= tr.log
      ensures if old(stopped) || !started then tr.log == old(tr.log)
              else TakenDown(Since(tr.log, |old(tr.log)|), routes, |routes|, refused)
      ensures old(stopped) || !started ==> refused == [] && tr.live == old(tr.live)
      ensures !old(stopped) && started ==>
                forall f :: f in tr.live <==> f in old(tr.live) && (f in FilterSet(routes) ==> f in refused)
      ensures old(pool) != null ==>
                forall i | 0 <= i < |old(pool).queues| ::
                  old(pool).queues[i].closed && old(pool).queues[i].jobs == old(pool.queues[i].jobs)
    {
      refused := [];
      if stopped {
        return;
      }
      stopped := true;
      var taken := pool;
      pool := null;
      if started {
        refused := UnsubscribeAll();
      }
      if taken != null {
        taken.CloseQueues();
      }
    }

    method UnsubscribeAll() returns (refused: seq<string>)
      requires Accepted(routes, attributed) && stopped && pool == null
      modifies tr
      ensures old(tr.log) <= tr.log && TakenDown(Since(tr.log, |old(tr.log)|), routes, |routes|, refused)
      ensures Unsubscribed(FilterSet(routes), old(tr.live), tr.live, refused)
    {
      AcceptedIsDistinct(routes, attributed);
      refused := TakeDown(routes);
    }

    /** Stop's loop over the routes, the gate already shut. */
    method TakeDown(rs: seq<Route>) returns (refused: seq<string>)
      requires DistinctFilters(rs) && stopped && pool == null
      modifies tr
      ensures old(tr.log) <= tr.log && TakenDown(Since(tr.log, |old(tr.log)|), rs, |rs|, refused)
      ensures Unsubscribed(FilterSet(rs), old(tr.live), tr.live, refused)
    {
      refused := [];
      ghost var asked: seq<Request> := [];
      for i := 0 to |rs|
        invariant tr.log == old(tr.log) + asked && TakenDown(asked, rs, i, refused)
        invariant Unsubscribed(FilterSet(rs[..i]), old(tr.live), tr.live, refused)
      {
        ghost var mid := tr.live;
        var ok := tr.Unsubscribe(rs[i].filter);
        OneMoreFilter(rs, i);
        OneMoreUnsubscribed(FilterSet(rs[..i]), old(tr.live), mid, refused, rs[i].filter);
        OneMoreTakenDown(asked, rs, i, refused, ok);
        asked := asked + [Request(rs[i].filter, false, 0, ok)];
        if !ok {
          refused := refused + [rs[i].filter];
        }
      }
      assert rs[..|rs|] == rs;
      assert Since(tr.log, |old(tr.log)|) == asked;
    }

    /** deliver: the gate, the resolution, the verdict on an outranked copy, and the enqueue. */
    method Deliver(filter: string, topic: string, payload: string, retained: bool, id: nat)
        returns (outcome: Outcome)
      requires Valid()
      modifies if pool == null then [] else pool.queues
      ensures Valid()
      ensures outcome.AfterStop? <==> pool == null
      ensures outcome.Unroutable? <==> pool != null && forall r | r in routes :: !Claims(r, topic)
      ensures outcome.Superseded? <==> pool != null && attributed && exists w :: Wins(routes, topic, w) && w.filter != filter
      ensures outcome.RetainedDrop? <==>
                pool != null && retained && !deliverRetained
                && exists w :: Wins(routes, topic, w) && (attributed ==> w.filter == filter)
      ensures outcome.Enqueued? <==>
                pool != null && (retained ==> deliverRetained)
                && exists w :: Wins(routes, topic, w) && (attributed ==> w.filter == filter)
      ensures outcome.Superseded? ==> exists w :: Wins(routes, topic, w) && w.filter == outcome.winner
      ensures outcome.Enqueued? ==>
                && outcome.cmd.id == id && outcome.cmd.topic == topic && outcome.cmd.payload == payload && outcome.cmd.retained == retained
                && exists w :: Wins(routes, topic, w) && w.filter == outcome.cmd.filter
                               && Refills(w.parts, Split(topic), outcome.cmd.wildcards, outcome.cmd.remainder)
      ensures pool != null ==>
                forall i | 0 <= i < |pool.queues| ::
                  pool.queues[i].jobs == old(pool.queues[i].jobs)
                    + (if outcome.Enqueued? && i == PoolIndex(topic, |pool.queues|, hash) then [outcome.cmd] else [])
    {
      if stopped || pool == null {
        return AfterStop;
      }
      outcome := Judge(filter, topic, payload, retained, id);
      if outcome.Enqueued? {
        var accepted, backlog := pool.Enqueue(outcome.cmd);
      }
    }

    /** The resolution, and the verdict on an outranked copy. */
    method Judge(filter: string, topic: string, payload: string, retained: bool, id: nat) returns (outcome: Outcome)
      requires Accepted(routes, attributed)
      ensures !outcome.AfterStop?
      ensures outcome.Unroutable? <==> forall r | r in routes :: !Claims(r, topic)
      ensures outcome.Superseded? <==> attributed && exists w :: Wins(routes, topic, w) && w.filter != filter
      ensures outcome.RetainedDrop? <==>
                retained && !deliverRetained && exists w :: Wins(routes, topic, w) && (attributed ==> w.filter == filter)
      ensures outcome.Enqueued? <==>
                (retained ==> deliverRetained) && exists w :: Wins(routes, topic, w) && (attributed ==> w.filter == filter)
      ensures outcome.Superseded? ==> exists w :: Wins(routes, topic, w) && w.filter == outcome.winner
      ensures outcome.Enqueued? ==>
                && outcome.cmd.id == id && outcome.cmd.topic == topic && outcome.cmd.payload == payload && outcome.cmd.retained == retained
                && exists w :: Wins(routes, topic, w) && w.filter == outcome.cmd.filter
                               && Refills(w.parts, Split(topic), outcome.cmd.wildcards, outcome.cmd.remainder)
    {
      var best, wildcards, remainder := Resolve(routes, attributed, topic);
      if best >= 0 {
        OnlyWinner(routes, topic, routes[best]);
        CapturesRefill(routes[best].parts, Split(topic));
      }
      if best >= 0 && attributed && routes[best].filter != filter {
        return Superseded(routes[best].filter);
      }
      if best < 0 {
        return Unroutable;
      }
      if retained && !deliverRetained {
        return RetainedDrop;
      }
      return Enqueued(Command(id, topic, routes[best].filter, wildcards, remainder, payload, retained));
    }

    /** CheckDisjoint: every pair of a published topic and a route that would echo it back. */
    method CheckDisjoint(topics: seq<string>) returns (echoes: seq<(string, string)>)
      ensures forall t, f :: (t, f) in echoes <==>
                t in topics && t != "" && exists r :: r in routes && r.filter == f && Claims(r, t)
    {
      echoes := [];
      for i := 0 to |topics|
        invariant forall t, f :: (t, f) in echoes <==>
                    t in topics[..i] && t != "" && exists r :: r in routes && r.filter == f && Claims(r, t)
      {
        assert topics[..i + 1] == topics[..i] + [topics[i]];
        if topics[i] != "" {
          var found := EchoesOf(topics[i]);
          echoes := echoes + found;
        }
      }
      assert topics[..|topics|] == topics;
    }

    method EchoesOf(topic: string) returns (echoes: seq<(string, string)>)
      ensures forall t, f :: (t, f) in echoes <==>
                t == topic && exists r :: r in routes && r.filter == f && Claims(r, topic)
    {
      echoes := [];
      for i := 0 to |routes|
        invariant forall t, f :: (t, f) in echoes <==>
                    t == topic && exists r :: r in routes[..i] && r.filter == f && Claims(r, topic)
      {
        assert routes[..i + 1] == routes[..i] + [routes[i]];
        if Claims(routes[i], topic) {
          echoes := echoes + [(topic, routes[i].filter)];
        }
      }
      assert routes[..|routes|] == routes;
    }
  }
}
