/** The route set a command router accepts, who wins a topic, and the order subscriptions go out in. */
module Routing {
  import opened Text
  import opened Filters
  import opened Specificity
  import opened FilterSyntax

  /** One registered filter. The handler is named by the filter it was registered under. */
  datatype Route = Route(filter: string, parts: seq<string>, subID: nat)

  predicate RouteOk(r: Route) {
    WellFormed(r.filter) && r.parts == FilterParts(r.filter)
  }

  predicate Claims(r: Route, topic: string) {
    Matches(r.parts, Split(topic))
  }

  /** Two routes one router may hold together. */
  ghost predicate Compatible(a: Route, b: Route, attributed: bool) {
    && a.filter != b.filter
    && (Overlap(a.parts, b.parts) ==>
          attributed && (Outranks(a.parts, b.parts) || Outranks(b.parts, a.parts)))
  }

  /** The invariant registration keeps: every overlap is attributable and has a strict winner. */
  ghost predicate Accepted(rs: seq<Route>, attributed: bool) {
    && (forall i | 0 <= i < |rs| :: RouteOk(rs[i]))
    && forall i, j | 0 <= i < j < |rs| :: Compatible(rs[i], rs[j], attributed)
  }

  /** r is the most specific of the routes that claim topic. */
  ghost predicate Wins(rs: seq<Route>, topic: string, r: Route) {
    && r in rs
    && Claims(r, topic)
    && forall s | s in rs && Claims(s, topic) && s != r :: Outranks(r.parts, s.parts)
  }

  lemma ClaimantsAreOrdered(rs: seq<Route>, attributed: bool, topic: string, r: Route, s: Route)
    requires Accepted(rs, attributed)
    requires r in rs && s in rs && r != s && Claims(r, topic) && Claims(s, topic)
    ensures attributed && r.filter != s.filter
    ensures Outranks(r.parts, s.parts) || Outranks(s.parts, r.parts)
  {
    var i :| 0 <= i < |rs| && rs[i] == r;
    var j :| 0 <= j < |rs| && rs[j] == s;
    SharedTopicOverlaps(r.parts, s.parts, Split(topic));
    SharedTopicOverlaps(s.parts, r.parts, Split(topic));
    if i < j {
      assert Compatible(rs[i], rs[j], attributed);
    } else {
      assert Compatible(rs[j], rs[i], attributed);
    }
  }

  lemma WinnerIsUnique(rs: seq<Route>, topic: string, r: Route, s: Route)
    requires Wins(rs, topic, r) && Wins(rs, topic, s)
    ensures r == s
  {
    if r != s {
      OutranksIsStrictOrder(r.parts, s.parts, r.parts);
    }
  }

  lemma OnlyWinner(rs: seq<Route>, topic: string, w: Route)
    requires Wins(rs, topic, w)
    ensures forall r :: Wins(rs, topic, r) ==> r == w
  {
    forall r | Wins(rs, topic, r) ensures r == w {
      WinnerIsUnique(rs, topic, r, w);
    }
  }

  /** The winner depends on which routes are registered, not on the order they were registered in. */
  lemma WinnerIgnoresOrder(rs: seq<Route>, ss: seq<Route>, topic: string, r: Route)
    requires multiset(rs) == multiset(ss)
    ensures Wins(rs, topic, r) <==> Wins(ss, topic, r)
  {
    forall x: Route ensures x in rs <==> x in ss {
      assert x in rs <==> x in multiset(rs);
      assert x in ss <==> x in multiset(ss);
    }
  }

  /** What the wildcards of a route that claims the topic took of it. */
  predicate Took(r: Route, topic: string, wildcards: seq<string>, remainder: string) {
    && Claims(r, topic)
    && wildcards == Captured(r.parts, Split(topic), Plain(r.parts))
    && remainder == Join(Remaining(r.parts, Split(topic)))
  }

  /** This one of the first n routes beats the others that claim the topic; -1 when none of them does. */
  ghost predicate Leads(rs: seq<Route>, n: nat, topic: string, best: int)
    requires n <= |rs|
  {
    if best < 0 then best == -1 && forall k | 0 <= k < n :: !Claims(rs[k], topic)
    else
      && best < n && Claims(rs[best], topic)
      && forall k | 0 <= k < n && k != best && Claims(rs[k], topic) :: Outranks(rs[best].parts, rs[k].parts)
  }

  lemma OneMoreRoute(rs: seq<Route>, topic: string, best: int, i: nat, wins: bool)
    requires i < |rs| && Leads(rs, i, topic, best)
    requires wins ==> Claims(rs[i], topic)
    requires best < 0 ==> (wins <==> Claims(rs[i], topic))
    requires best >= 0 && Claims(rs[i], topic) ==>
               if wins then Outranks(rs[i].parts, rs[best].parts) else Outranks(rs[best].parts, rs[i].parts)
    ensures Leads(rs, i + 1, topic, if wins then i else best)
  {
    if wins && best >= 0 {
      forall k | 0 <= k < i && Claims(rs[k], topic) ensures Outranks(rs[i].parts, rs[k].parts) {
        OutranksIsStrictOrder(rs[i].parts, rs[best].parts, rs[k].parts);
      }
    }
  }

  lemma LeaderWins(rs: seq<Route>, topic: string, best: int)
    requires Leads(rs, |rs|, topic, best)
    ensures best < 0 <==> forall r | r in rs :: !Claims(r, topic)
    ensures best >= 0 ==> Wins(rs, topic, rs[best])
  {
  }

  /** resolveLocked: a tournament over the routes that match. */
  method Resolve(rs: seq<Route>, attributed: bool, topic: string)
      returns (best: int, wildcards: seq<string>, remainder: string)
    requires Accepted(rs, attributed)
    ensures -1 <= best < |rs|
    ensures best < 0 <==> forall r | r in rs :: !Claims(r, topic)
    ensures best >= 0 ==>
              && Wins(rs, topic, rs[best])
              && wildcards == Captured(rs[best].parts, Split(topic), Plain(rs[best].parts))
              && remainder == Join(Remaining(rs[best].parts, Split(topic)))
  {
    best, wildcards, remainder := -1, [], "";
    for i := 0 to |rs|
      invariant best < i && Leads(rs, i, topic, best)
      invariant best >= 0 ==> Took(rs[best], topic, wildcards, remainder)
    {
      var wild, rest, wins := Contend(rs, attributed, topic, best, i);
      OneMoreRoute(rs, topic, best, i, wins);
      if wins {
        best, wildcards, remainder := i, wild, rest;
      }
    }
    LeaderWins(rs, topic, best);
  }

  /** One round: whether the route matches and beats the best one so far. */
  method Contend(rs: seq<Route>, attributed: bool, topic: string, best: int, i: nat)
      returns (wildcards: seq<string>, remainder: string, wins: bool)
    requires Accepted(rs, attributed) && best < i < |rs| && (best >= 0 ==> Claims(rs[best], topic))
    ensures wins ==> Took(rs[i], topic, wildcards, remainder)
    ensures best < 0 ==> (wins <==> Claims(rs[i], topic))
    ensures best >= 0 && Claims(rs[i], topic) ==>
              rs[best] != rs[i]
              && if wins then Outranks(rs[i].parts, rs[best].parts) else Outranks(rs[best].parts, rs[i].parts)
  {
    wildcards, remainder, wins := CaptureFilter(rs[i].parts, topic);
    if wins && best >= 0 {
      Rivals(rs, attributed, topic, best, i);
      var cmp, ok := CompareSpecificity(rs[i].parts, rs[best].parts);
      wins := ok && cmp > 0;
    }
  }

  /** Two routes that claim a topic are ordered, one way. */
  lemma Rivals(rs: seq<Route>, attributed: bool, topic: string, i: nat, j: nat)
    requires Accepted(rs, attributed) && i < j < |rs| && Claims(rs[i], topic) && Claims(rs[j], topic)
    ensures rs[i] != rs[j]
    ensures Outranks(rs[i].parts, rs[j].parts) <==> !Outranks(rs[j].parts, rs[i].parts)
  {
    assert Compatible(rs[i], rs[j], attributed);
    ClaimantsAreOrdered(rs, attributed, topic, rs[i], rs[j]);
    OutranksIsStrictOrder(rs[i].parts, rs[j].parts, rs[i].parts);
  }

  /** Dominance is transitive, so beating the winner is beating everyone it beat. */
  lemma WinnerGrows(rs: seq<Route>, topic: string, champion: Route, newcomer: Route)
    requires Wins(rs, topic, champion) && Claims(newcomer, topic) && newcomer != champion
    ensures Outranks(newcomer.parts, champion.parts) ==> Wins(rs + [newcomer], topic, newcomer)
    ensures Outranks(champion.parts, newcomer.parts) ==> Wins(rs + [newcomer], topic, champion)
  {
    if Outranks(newcomer.parts, champion.parts) {
      forall s | s in rs + [newcomer] && Claims(s, topic) && s != newcomer
        ensures Outranks(newcomer.parts, s.parts)
      {
        OutranksIsStrictOrder(newcomer.parts, champion.parts, s.parts);
      }
    }
  }

  lemma WinnerSurvives(front: seq<Route>, last: Route, attributed: bool, topic: string, w: Route)
    requires Accepted(front + [last], attributed) && Wins(front, topic, w)
    ensures exists v :: Wins(front + [last], topic, v)
  {
    var rs := front + [last];
    if Claims(last, topic) {
      var i :| 0 <= i < |front| && front[i] == w;
      assert rs[i] == w && rs[|front|] == last;
      ClaimantsAreOrdered(rs, attributed, topic, w, last);
      WinnerGrows(front, topic, w, last);
    } else {
      assert Wins(rs, topic, w);
    }
  }

  lemma {:induction false} WinnerExists(rs: seq<Route>, attributed: bool, topic: string, r: Route)
    requires Accepted(rs, attributed) && r in rs && Claims(r, topic)
    ensures exists w :: Wins(rs, topic, w)
    decreases |rs|
  {
    var n := |rs| - 1;
    var front, last := rs[..n], rs[n];
    assert rs == front + [last];
    if s :| s in front && Claims(s, topic) {
      WinnerExists(front, attributed, topic, s);
      var w :| Wins(front, topic, w);
      WinnerSurvives(front, last, attributed, topic, w);
    } else {
      OnlyClaimant(front, last, topic, r);
    }
  }

  lemma OnlyClaimant(front: seq<Route>, last: Route, topic: string, r: Route)
    requires (forall s | s in front :: !Claims(s, topic)) && r in front + [last] && Claims(r, topic)
    ensures Wins(front + [last], topic, last)
  {
    assert r == last;
  }

  // ------------------------------------------------------ subscription order

  function Width(rs: seq<Route>): (w: nat)
    ensures w >= 1
    ensures forall i | 0 <= i < |rs| :: w > |rs[i].parts|
  {
    if |rs| == 0 then 1
    else
      var w := Width(rs[..|rs| - 1]);
      var n := |rs[|rs| - 1].parts|;
      if n >= w then n + 1 else w
  }

  function InsertByScore(r: Route, rs: seq<Route>, w: nat): (out: seq<Route>)
    ensures |out| == |rs| + 1
    ensures multiset(out) == multiset(rs) + multiset{r}
  {
    if |rs| > 0 && Score(rs[|rs| - 1].parts, w) < Score(r.parts, w) then
      assert rs == rs[..|rs| - 1] + [rs[|rs| - 1]];
      InsertByScore(r, rs[..|rs| - 1], w) + [rs[|rs| - 1]]
    else rs + [r]
  }

  function SortByScore(rs: seq<Route>, w: nat): (out: seq<Route>)
    ensures |out| == |rs|
    ensures multiset(out) == multiset(rs)
  {
    if rs == [] then []
    else
      assert rs == rs[..|rs| - 1] + [rs[|rs| - 1]];
      InsertByScore(rs[|rs| - 1], SortByScore(rs[..|rs| - 1], w), w)
  }

  /** The order routeSubsLocked registers subscriptions in. */
  function SubscribeOrder(rs: seq<Route>): (out: seq<Route>)
    ensures |out| == |rs| && multiset(out) == multiset(rs)
  {
    SortByScore(rs, Width(rs))
  }

  /** A route with its score, computed once. */
  datatype Scored = Scored(route: Route, score: nat)

  function InsertScored(x: Scored, xs: seq<Scored>): seq<Scored> {
    if |xs| > 0 && xs[|xs| - 1].score < x.score then InsertScored(x, xs[..|xs| - 1]) + [xs[|xs| - 1]] else xs + [x]
  }

  /** The stable sort on computed scores. */
  function SortScored(xs: seq<Scored>): seq<Scored> {
    if xs == [] then [] else InsertScored(xs[|xs| - 1], SortScored(xs[..|xs| - 1]))
  }

  function RoutesOf(xs: seq<Scored>): seq<Route> {
    seq(|xs|, i requires 0 <= i < |xs| => xs[i].route)
  }

  predicate ScoredAt(xs: seq<Scored>, w: nat) {
    forall i | 0 <= i < |xs| :: xs[i].score == Score(xs[i].route.parts, w)
  }

  lemma {:induction false} InsertScoredIs(x: Scored, xs: seq<Scored>, w: nat)
    requires ScoredAt(xs, w) && x.score == Score(x.route.parts, w)
    ensures ScoredAt(InsertScored(x, xs), w)
    ensures RoutesOf(InsertScored(x, xs)) == InsertByScore(x.route, RoutesOf(xs), w)
  {
    if |xs| > 0 && xs[|xs| - 1].score < x.score {
      InsertScoredIs(x, xs[..|xs| - 1], w);
      assert RoutesOf(xs[..|xs| - 1]) == RoutesOf(xs)[..|xs| - 1];
    } else {
      assert RoutesOf(xs + [x]) == RoutesOf(xs) + [x.route];
    }
  }

  /** Sorting by scores computed beforehand is sorting by the score. */
  lemma {:induction false} SortScoredIs(xs: seq<Scored>, w: nat)
    requires ScoredAt(xs, w)
    ensures ScoredAt(SortScored(xs), w) && RoutesOf(SortScored(xs)) == SortByScore(RoutesOf(xs), w)
  {
    if xs != [] {
      SortScoredIs(xs[..|xs| - 1], w);
      InsertScoredIs(xs[|xs| - 1], SortScored(xs[..|xs| - 1]), w);
      assert RoutesOf(xs[..|xs| - 1]) == RoutesOf(xs)[..|xs| - 1];
    }
  }

  ghost predicate Descending(rs: seq<Route>, w: nat) {
    forall i, j | 0 <= i < j < |rs| :: Score(rs[i].parts, w) >= Score(rs[j].parts, w)
  }

  lemma {:induction false} InsertKeepsDescending(r: Route, rs: seq<Route>, w: nat)
    requires Descending(rs, w)
    ensures Descending(InsertByScore(r, rs, w), w)
    ensures forall x | x in InsertByScore(r, rs, w) :: x == r || x in rs
    decreases |rs|
  {
    if |rs| > 0 && Score(rs[|rs| - 1].parts, w) < Score(r.parts, w) {
      var front, last := rs[..|rs| - 1], rs[|rs| - 1];
      InsertKeepsDescending(r, front, w);
      var moved := InsertByScore(r, front, w);
      forall i | 0 <= i < |moved| ensures Score(moved[i].parts, w) >= Score(last.parts, w) {
        assert moved[i] in moved;
        assert forall x | x in front :: exists k :: 0 <= k < |rs| - 1 && rs[k] == x;
      }
    }
  }

  lemma {:induction false} SortDescends(rs: seq<Route>, w: nat)
    ensures Descending(SortByScore(rs, w), w)
    decreases |rs|
  {
    if rs != [] {
      SortDescends(rs[..|rs| - 1], w);
      InsertKeepsDescending(rs[|rs| - 1], SortByScore(rs[..|rs| - 1], w), w);
    }
  }

  /** Most specific first: no subscription goes out before one that outranks it. */
  lemma SubscribeOrderIsMostSpecificFirst(rs: seq<Route>, i: nat, j: nat)
    requires i <= j < |rs|
    ensures !Outranks(SubscribeOrder(rs)[j].parts, SubscribeOrder(rs)[i].parts)
  {
    var w, out := Width(rs), SubscribeOrder(rs);
    SortDescends(rs, w);
    assert multiset(out)[out[i]] > 0 && multiset(out)[out[j]] > 0;
    assert out[i] in rs && out[j] in rs;
    if Outranks(out[j].parts, out[i].parts) {
      ScoreExtendsOrder(out[j].parts, out[i].parts, w);
    }
  }

  /** The routes with one given score, in order. */
  function Tied(rs: seq<Route>, w: nat, score: nat): seq<Route> {
    if rs == [] then []
    else Tied(rs[..|rs| - 1], w, score)
         + (if Score(rs[|rs| - 1].parts, w) == score then [rs[|rs| - 1]] else [])
  }

  lemma {:induction false} TiedAppend(rs: seq<Route>, r: Route, w: nat, score: nat)
    ensures Tied(rs + [r], w, score) == Tied(rs, w, score) + (if Score(r.parts, w) == score then [r] else [])
  {
    assert (rs + [r])[..|rs|] == rs;
  }

  lemma {:induction false} InsertKeepsTies(r: Route, rs: seq<Route>, w: nat, score: nat)
    requires Descending(rs, w)
    ensures Tied(InsertByScore(r, rs, w), w, score)
            == Tied(rs, w, score) + (if Score(r.parts, w) == score then [r] else [])
    decreases |rs|
  {
    if |rs| > 0 && Score(rs[|rs| - 1].parts, w) < Score(r.parts, w) {
      var front, last := rs[..|rs| - 1], rs[|rs| - 1];
      InsertKeepsTies(r, front, w, score);
      TiedAppend(InsertByScore(r, front, w), last, w, score);
    } else {
      TiedAppend(rs, r, w, score);
    }
  }

  /** Ties keep registration order. */
  lemma {:induction false} SortIsStable(rs: seq<Route>, w: nat, score: nat)
    ensures Tied(SortByScore(rs, w), w, score) == Tied(rs, w, score)
    decreases |rs|
  {
    if rs != [] {
      SortIsStable(rs[..|rs| - 1], w, score);
      SortDescends(rs[..|rs| - 1], w);
      InsertKeepsTies(rs[|rs| - 1], SortByScore(rs[..|rs| - 1], w), w, score);
    }
  }
}
