/** Rule overlays on entity descriptions: every matching rule, lowest priority first. */
module Overlays {
  import opened Text

  datatype FieldName =
    | Name | NameKey | DeviceClass | StateClass | Unit | Icon | Category | Enabled
    | Precision | Min | Max | Step | Options | Multiplier

  /** A value in the escape hatch: text, or a real boolean. */
  datatype Value = Words(text: string) | Flag(on: bool)

  /** A description: its fields, unset ones absent, and its escape hatch. */
  datatype Description = Description(fields: map<FieldName, string>, extra: map<string, Value>)

  /** What a rule sets; an absent field says nothing. */
  datatype Overlay = Overlay(fields: map<FieldName, string>, suppress: Option<bool>, extra: map<string, Value>)

  /** A rule. `matches` is the condition, on the entity with the description it has when asked. */
  datatype Rule = Rule(priority: int, matches: Description -> bool, overlay: Overlay)

  const SUPPRESS_KEY := "hamqtt:suppress"

  /** One place a rule can write to. */
  datatype Place = Field(name: FieldName) | Extra(key: string)

  function At(d: Description, p: Place): Option<Value> {
    match p
    case Field(n) => if n in d.fields then Some(Words(d.fields[n])) else None
    case Extra(k) => if k in d.extra then Some(d.extra[k]) else None
  }

  /** What an overlay writes there; the extra keys are written after the suppression mark. */
  function Given(o: Overlay, p: Place): Option<Value> {
    match p
    case Field(n) => if n in o.fields then Some(Words(o.fields[n])) else None
    case Extra(k) =>
      if k in o.extra then Some(o.extra[k])
      else if k == SUPPRESS_KEY && o.suppress.Some? then Some(Flag(o.suppress.value))
      else None
  }

  /** applyTo. */
  function ApplyTo(o: Overlay, d: Description): Description {
    var marked := if o.suppress.Some? then d.extra[SUPPRESS_KEY := Flag(o.suppress.value)] else d.extra;
    Description(d.fields + o.fields, marked + o.extra)
  }

  lemma ApplyWritesGiven(o: Overlay, d: Description, p: Place)
    ensures At(ApplyTo(o, d), p) == if Given(o, p).Some? then Given(o, p) else At(d, p)
  {
  }

  /** Two descriptions that agree everywhere are one. */
  lemma SameEverywhere(a: Description, b: Description)
    requires forall p :: At(a, p) == At(b, p)
    ensures a == b
  {
    forall n: FieldName ensures n in a.fields <==> n in b.fields
      ensures n in a.fields ==> a.fields[n] == b.fields[n] {
      assert At(a, Field(n)) == At(b, Field(n));
    }
    forall k: string ensures k in a.extra <==> k in b.extra
      ensures k in a.extra ==> a.extra[k] == b.extra[k] {
      assert At(a, Extra(k)) == At(b, Extra(k));
    }
    assert a.fields == b.fields && a.extra == b.extra;
  }

  // ----------------------------------------------------------- stable order

  /** Rule i is applied before rule j. */
  predicate Before(rules: seq<Rule>, i: nat, j: nat)
    requires i < |rules| && j < |rules|
  {
    rules[i].priority < rules[j].priority || (rules[i].priority == rules[j].priority && i < j)
  }

  predicate Indices(rules: seq<Rule>, s: seq<nat>) {
    forall k | 0 <= k < |s| :: s[k] < |rules|
  }

  predicate InOrder(rules: seq<Rule>, s: seq<nat>)
    requires Indices(rules, s)
  {
    forall a, b | 0 <= a < b < |s| :: Before(rules, s[a], s[b])
  }

  /** Stable insertion: behind every rule of the same or a lower priority. */
  function InsertRule(rules: seq<Rule>, s: seq<nat>, x: nat): (r: seq<nat>)
    requires Indices(rules, s) && x < |rules|
    ensures Indices(rules, r) && forall i :: i in r <==> i in s || i == x
  {
    if s == [] then [x]
    else
      var front, last := s[..|s| - 1], s[|s| - 1];
      assert s == front + [last];
      if rules[last].priority <= rules[x].priority then s + [x] else InsertRule(rules, front, x) + [last]
  }

  function SortStable(rules: seq<Rule>, s: seq<nat>): (r: seq<nat>)
    requires Indices(rules, s)
    ensures Indices(rules, r) && forall i :: i in r <==> i in s
  {
    if s == [] then []
    else
      assert s == s[..|s| - 1] + [s[|s| - 1]];
      InsertRule(rules, SortStable(rules, s[..|s| - 1]), s[|s| - 1])
  }

  lemma {:induction false} InsertKeepsOrder(rules: seq<Rule>, s: seq<nat>, x: nat)
    requires Indices(rules, s) && x < |rules| && InOrder(rules, s)
    requires forall i | i in s :: i < x
    ensures InOrder(rules, InsertRule(rules, s, x))
  {
    if s != [] {
      var front, last := s[..|s| - 1], s[|s| - 1];
      assert s == front + [last];
      assert forall a | 0 <= a < |front| :: Before(rules, front[a], last);
      assert forall i | i in front :: i in s;
      if rules[last].priority > rules[x].priority {
        InsertKeepsOrder(rules, front, x);
        var inner := InsertRule(rules, front, x);
        forall a | 0 <= a < |inner| ensures Before(rules, inner[a], last) {
          assert inner[a] in inner;
          if inner[a] != x {
            var b :| 0 <= b < |front| && front[b] == inner[a];
            assert s[b] == front[b] && s[|s| - 1] == last;
          }
        }
        assert InsertRule(rules, s, x) == inner + [last];
      } else {
        forall a | 0 <= a < |s| ensures Before(rules, s[a], x) {
          assert s[a] in s;
          assert a < |front| ==> s[a] == front[a];
        }
        assert InsertRule(rules, s, x) == s + [x];
      }
    }
  }

  lemma {:induction false} SortKeepsOrder(rules: seq<Rule>, s: seq<nat>)
    requires Indices(rules, s)
    requires forall a, b | 0 <= a < b < |s| :: s[a] < s[b]
    ensures InOrder(rules, SortStable(rules, s))
  {
    if s != [] {
      var front, last := s[..|s| - 1], s[|s| - 1];
      SortKeepsOrder(rules, front);
      assert forall i | i in front :: i < last;
      InsertKeepsOrder(rules, SortStable(rules, front), last);
    }
  }

  // ----------------------------------------------------------------- enrich

  /** The rules whose condition holds now, in slice order. */
  function Matching(rules: seq<Rule>, n: nat, d: Description): (s: seq<nat>)
    requires n <= |rules|
    ensures Indices(rules, s) && forall i :: i in s <==> 0 <= i < n && rules[i].matches(d)
    ensures forall a, b | 0 <= a < b < |s| :: s[a] < s[b]
  {
    if n == 0 then []
    else if rules[n - 1].matches(d) then
      var front := Matching(rules, n - 1, d);
      assert forall a | 0 <= a < |front| :: front[a] in front;
      front + [n - 1]
    else Matching(rules, n - 1, d)
  }

  function ApplyAll(rules: seq<Rule>, order: seq<nat>, d: Description): Description
    requires Indices(rules, order)
  {
    if order == [] then d
    else ApplyTo(rules[order[|order| - 1]].overlay, ApplyAll(rules, order[..|order| - 1], d))
  }

  /** Enrich. */
  function Enrich(rules: seq<Rule>, d: Description): Description {
    ApplyAll(rules, SortStable(rules, Matching(rules, |rules|, d)), d)
  }

  class Entity {
    var fields: map<FieldName, string>
    var extra: map<string, Value>

    ghost function Desc(): Description
      reads this
    {
      Description(fields, extra)
    }

    constructor (d: Description)
      ensures Desc() == d
    {
      fields, extra := d.fields, d.extra;
    }

    method Overlaid(o: Overlay)
      modifies this
      ensures Desc() == ApplyTo(o, old(Desc()))
    {
      fields := fields + o.fields;
      if o.suppress.Some? {
        extra := extra[SUPPRESS_KEY := Flag(o.suppress.value)];
      }
      extra := extra + o.extra;
    }

    method EnrichBy(rules: seq<Rule>)
      modifies this
      ensures Desc() == Enrich(rules, old(Desc()))
    {
      var before := Description(fields, extra);
      var matching: seq<nat> := [];
      for i := 0 to |rules|
        invariant matching == Matching(rules, i, before)
      {
        if rules[i].matches(before) {
          matching := matching + [i];
        }
      }
      OverlayAll(rules, SortStable(rules, matching));
    }

    method OverlayAll(rules: seq<Rule>, order: seq<nat>)
      requires Indices(rules, order)
      modifies this
      ensures Desc() == ApplyAll(rules, order, old(Desc()))
    {
      for k := 0 to |order|
        invariant Desc() == ApplyAll(rules, order[..k], old(Desc()))
      {
        assert order[..k + 1][..k] == order[..k];
        Overlaid(rules[order[k]].overlay);
      }
      assert order[..|order|] == order;
    }
  }

  // ---------------------------------------------------------------- meaning

  /** Rule i matched, writes to this place, and every other such rule comes before it. */
  ghost predicate Decides(rules: seq<Rule>, d: Description, p: Place, i: nat) {
    && i < |rules| && rules[i].matches(d) && Given(rules[i].overlay, p).Some?
    && forall j | 0 <= j < |rules| && j != i && rules[j].matches(d) && Given(rules[j].overlay, p).Some? :: Before(rules, j, i)
  }

  /** The last rule of the list that writes to this place. */
  function LastWriter(rules: seq<Rule>, order: seq<nat>, p: Place): (w: Option<nat>)
    requires Indices(rules, order)
    ensures w.Some? ==> w.value < |rules|
  {
    if order == [] then None
    else if Given(rules[order[|order| - 1]].overlay, p).Some? then Some(order[|order| - 1])
    else LastWriter(rules, order[..|order| - 1], p)
  }

  lemma {:induction false} LastWriterIs(rules: seq<Rule>, order: seq<nat>, p: Place)
    requires Indices(rules, order) && InOrder(rules, order)
    ensures var w := LastWriter(rules, order, p);
            if w.None? then forall j | j in order :: Given(rules[j].overlay, p).None?
            else w.value in order && Given(rules[w.value].overlay, p).Some?
                 && forall j | j in order && j != w.value && Given(rules[j].overlay, p).Some? :: Before(rules, j, w.value)
  {
    if order != [] {
      var front, last := order[..|order| - 1], order[|order| - 1];
      assert order == front + [last];
      LastWriterIs(rules, front, p);
      forall j | j in front ensures Before(rules, j, last) {
        var a :| 0 <= a < |front| && front[a] == j;
        assert order[a] == j && order[|order| - 1] == last;
      }
    }
  }

  /** Applying a list leaves each place as its last writer had it. */
  lemma {:induction false} LastWriterWins(rules: seq<Rule>, order: seq<nat>, d: Description, p: Place)
    requires Indices(rules, order)
    ensures var w := LastWriter(rules, order, p);
            At(ApplyAll(rules, order, d), p) == if w.None? then At(d, p) else Given(rules[w.value].overlay, p)
  {
    if order != [] {
      var front, last := order[..|order| - 1], order[|order| - 1];
      ApplyWritesGiven(rules[last].overlay, ApplyAll(rules, front, d), p);
      LastWriterWins(rules, front, d, p);
    }
  }

  /** Field by field: the value set by the matching rule greatest in (priority, slice index) that sets it,
      else the original. */
  lemma EnrichDecidesEachPlace(rules: seq<Rule>, d: Description, p: Place)
    ensures forall i: nat | Decides(rules, d, p, i) :: At(Enrich(rules, d), p) == Given(rules[i].overlay, p)
    ensures (forall i: nat :: !Decides(rules, d, p, i)) ==> At(Enrich(rules, d), p) == At(d, p)
  {
    var matching := Matching(rules, |rules|, d);
    var order := SortStable(rules, matching);
    SortKeepsOrder(rules, matching);
    LastWriterIs(rules, order, p);
    LastWriterWins(rules, order, d, p);
    var w := LastWriter(rules, order, p);
    if w.Some? {
      assert Decides(rules, d, p, w.value);
      forall i: nat | Decides(rules, d, p, i) ensures i == w.value {
      }
    } else {
      forall i: nat ensures !Decides(rules, d, p, i) {
      }
    }
  }

  // ------------------------------------------------------- first match wins

  /** Each rule decides the whole record: all of them write to the same places. */
  ghost predicate FullySpecified(rules: seq<Rule>) {
    forall i, j, p | 0 <= i < |rules| && 0 <= j < |rules| ::
      Given(rules[i].overlay, p).Some? == Given(rules[j].overlay, p).Some?
  }

  predicate Descending(rules: seq<Rule>) {
    forall i, j | 0 <= i < j < |rules| :: rules[i].priority > rules[j].priority
  }

  /** The machine that stops at the first rule that matches. */
  function FirstMatch(rules: seq<Rule>, d: Description): Description {
    if rules == [] then d
    else if rules[0].matches(d) then ApplyTo(rules[0].overlay, d)
    else FirstMatch(rules[1..], d)
  }

  lemma {:induction false} FirstMatchIs(rules: seq<Rule>, d: Description) returns (i: nat)
    ensures i <= |rules| && forall j | 0 <= j < i :: !rules[j].matches(d)
    ensures i == |rules| ==> FirstMatch(rules, d) == d
    ensures i < |rules| ==> rules[i].matches(d) && FirstMatch(rules, d) == ApplyTo(rules[i].overlay, d)
  {
    i := 0;
    if rules != [] && !rules[0].matches(d) {
      var k := FirstMatchIs(rules[1..], d);
      i := k + 1;
      forall j | 0 <= j < i ensures !rules[j].matches(d) {
        if j > 0 { assert rules[1..][j - 1] == rules[j]; }
      }
    }
  }

  /** A table of fully specified rules in strictly descending priority is a first-match-wins table. */
  lemma PortedTable(rules: seq<Rule>, d: Description)
    requires FullySpecified(rules) && Descending(rules)
    ensures Enrich(rules, d) == FirstMatch(rules, d)
  {
    var i := FirstMatchIs(rules, d);
    forall p ensures At(Enrich(rules, d), p) == At(FirstMatch(rules, d), p) {
      EnrichDecidesEachPlace(rules, d, p);
      if i < |rules| {
        ApplyWritesGiven(rules[i].overlay, d, p);
        if Given(rules[i].overlay, p).Some? {
          assert Decides(rules, d, p, i);
        }
      }
    }
    SameEverywhere(Enrich(rules, d), FirstMatch(rules, d));
  }

  // ------------------------------------------------- when a condition is read

  /** The other machine: each condition is asked when its rule's turn comes. */
  function Interleaved(rules: seq<Rule>, order: seq<nat>, d: Description): Description
    requires Indices(rules, order)
  {
    if order == [] then d
    else
      var before := Interleaved(rules, order[..|order| - 1], d);
      var rule := rules[order[|order| - 1]];
      if rule.matches(before) then ApplyTo(rule.overlay, before) else before
  }

  function AllIndices(n: nat): (s: seq<nat>)
    ensures |s| == n && forall k | 0 <= k < n :: s[k] == k
  {
    seq(n, k requires 0 <= k < n => k)
  }

  /** Every rule, in the order Enrich would apply it. */
  function Turns(rules: seq<Rule>): (order: seq<nat>)
    ensures Indices(rules, order)
  {
    SortStable(rules, AllIndices(|rules|))
  }

  lemma TurnsAreInOrder(rules: seq<Rule>)
    ensures InOrder(rules, Turns(rules)) && forall i :: i in Turns(rules) <==> 0 <= i < |rules|
  {
    SortKeepsOrder(rules, AllIndices(|rules|));
    forall i | 0 <= i < |rules| ensures i in AllIndices(|rules|) {
      assert AllIndices(|rules|)[i] == i;
    }
  }

  /** The rules of a list whose condition holds at the start. */
  function Chosen(rules: seq<Rule>, order: seq<nat>, d: Description): (s: seq<nat>)
    requires Indices(rules, order)
    ensures Indices(rules, s)
  {
    if order == [] then []
    else
      var front := Chosen(rules, order[..|order| - 1], d);
      if rules[order[|order| - 1]].matches(d) then front + [order[|order| - 1]] else front
  }

  /** The rules of a list whose condition holds when their turn comes. */
  function Ran(rules: seq<Rule>, order: seq<nat>, d: Description): (s: seq<nat>)
    requires Indices(rules, order)
    ensures Indices(rules, s) && |s| <= |order|
  {
    if order == [] then []
    else
      var front := order[..|order| - 1];
      if rules[order[|order| - 1]].matches(Interleaved(rules, front, d))
      then Ran(rules, front, d) + [order[|order| - 1]] else Ran(rules, front, d)
  }

  lemma {:induction false} InterleavedIsRan(rules: seq<Rule>, order: seq<nat>, d: Description)
    requires Indices(rules, order)
    ensures Interleaved(rules, order, d) == ApplyAll(rules, Ran(rules, order, d), d)
  {
    if order != [] {
      var front := order[..|order| - 1];
      InterleavedIsRan(rules, front, d);
      var ran := Ran(rules, front, d);
      assert (ran + [order[|order| - 1]])[..|ran|] == ran;
    }
  }

  /** A rule's verdict on what the overlays before it have left is its verdict on the original. */
  predicate StandsAt(rules: seq<Rule>, order: seq<nat>, d: Description, k: nat)
    requires Indices(rules, order) && k < |order|
  {
    rules[order[k]].matches(Interleaved(rules, order[..k], d)) == rules[order[k]].matches(d)
  }

  predicate VerdictsStand(rules: seq<Rule>, order: seq<nat>, d: Description)
    requires Indices(rules, order)
  {
    forall k | 0 <= k < |order| :: StandsAt(rules, order, d, k)
  }

  lemma VerdictsStandFront(rules: seq<Rule>, order: seq<nat>, d: Description)
    requires Indices(rules, order) && order != []
    ensures var front := order[..|order| - 1];
            VerdictsStand(rules, order, d) <==> VerdictsStand(rules, front, d) && StandsAt(rules, order, d, |order| - 1)
  {
    var front := order[..|order| - 1];
    forall k | 0 <= k < |front| ensures StandsAt(rules, front, d, k) <==> StandsAt(rules, order, d, k) {
      assert front[..k] == order[..k];
    }
  }

  /** Elements of a list in order are distinct: none of them is its last but the last. */
  lemma LastIsNew(rules: seq<Rule>, order: seq<nat>)
    requires Indices(rules, order) && InOrder(rules, order) && order != []
    ensures order[|order| - 1] !in order[..|order| - 1]
  {
  }

  lemma {:induction false} RanWithin(rules: seq<Rule>, order: seq<nat>, d: Description)
    requires Indices(rules, order)
    ensures forall i | i in Ran(rules, order, d) || i in Chosen(rules, order, d) :: i in order
  {
    if order != [] {
      RanWithin(rules, order[..|order| - 1], d);
      assert order == order[..|order| - 1] + [order[|order| - 1]];
    }
  }

  /** Asked early or late, the same rules run if and only if each rule's verdict at its turn is its verdict
      on the original. */
  lemma {:induction false} SameRulesRunIff(rules: seq<Rule>, order: seq<nat>, d: Description)
    requires Indices(rules, order) && InOrder(rules, order)
    ensures Ran(rules, order, d) == Chosen(rules, order, d) <==> VerdictsStand(rules, order, d)
  {
    if order != [] {
      var front, last := order[..|order| - 1], order[|order| - 1];
      SameRulesRunIff(rules, front, d);
      VerdictsStandFront(rules, order, d);
      RanWithin(rules, front, d);
      LastIsNew(rules, order);
      SameTail(Ran(rules, front, d), Chosen(rules, front, d), last);
    }
  }

  lemma SameTail(a: seq<nat>, b: seq<nat>, x: nat)
    requires x !in a && x !in b
    ensures a + [x] != b && a != b + [x] && (a + [x] == b + [x] <==> a == b)
  {
    assert (a + [x])[|a|] == x && (b + [x])[|b|] == x;
    if a + [x] == b + [x] {
      assert (a + [x])[..|a|] == a && (b + [x])[..|b|] == b;
    }
  }

  lemma {:induction false} ChosenKeepsOrder(rules: seq<Rule>, order: seq<nat>, d: Description)
    requires Indices(rules, order) && InOrder(rules, order)
    ensures InOrder(rules, Chosen(rules, order, d))
    ensures forall i :: i in Chosen(rules, order, d) <==> i in order && rules[i].matches(d)
  {
    if order != [] {
      var front, last := order[..|order| - 1], order[|order| - 1];
      ChosenKeepsOrder(rules, front, d);
      assert order == front + [last];
      forall i | i in front ensures Before(rules, i, last) {
        var a :| 0 <= a < |front| && front[a] == i;
        assert order[a] == i && order[|order| - 1] == last;
      }
    }
  }

  /** Enrich applies what of all the rules in order matches the original. */
  lemma EnrichIsChosen(rules: seq<Rule>, d: Description)
    ensures Enrich(rules, d) == ApplyAll(rules, Chosen(rules, Turns(rules), d), d)
  {
    var chosen := Chosen(rules, Turns(rules), d);
    TurnsAreInOrder(rules);
    ChosenKeepsOrder(rules, Turns(rules), d);
    forall p ensures At(Enrich(rules, d), p) == At(ApplyAll(rules, chosen, d), p) {
      EnrichDecidesEachPlace(rules, d, p);
      LastWriterIs(rules, chosen, p);
      LastWriterWins(rules, chosen, d, p);
      var w := LastWriter(rules, chosen, p);
      if w.Some? {
        assert Decides(rules, d, p, w.value);
      } else {
        forall i: nat ensures !Decides(rules, d, p, i) {
        }
      }
    }
    SameEverywhere(Enrich(rules, d), ApplyAll(rules, chosen, d));
  }

  /** Enrich reads every condition first; asking each rule at its turn gives the same description whenever
      no verdict has changed by then. */
  lemma InterleavedAgrees(rules: seq<Rule>, d: Description)
    requires VerdictsStand(rules, Turns(rules), d)
    ensures Enrich(rules, d) == Interleaved(rules, Turns(rules), d)
  {
    TurnsAreInOrder(rules);
    SameRulesRunIff(rules, Turns(rules), d);
    InterleavedIsRan(rules, Turns(rules), d);
    EnrichIsChosen(rules, d);
  }

  /** So for every table none of whose overlays changes a verdict, on any description. */
  lemma StableTablesAgree(rules: seq<Rule>, d: Description)
    requires forall i, j, x | 0 <= i < |rules| && 0 <= j < |rules| ::
               rules[i].matches(ApplyTo(rules[j].overlay, x)) == rules[i].matches(x)
    ensures VerdictsStand(rules, Turns(rules), d) && Enrich(rules, d) == Interleaved(rules, Turns(rules), d)
  {
    forall k | 0 <= k < |Turns(rules)| ensures StandsAt(rules, Turns(rules), d, k) {
      VerdictsSurvive(rules, Turns(rules)[..k], d);
    }
    InterleavedAgrees(rules, d);
  }

  lemma {:induction false} VerdictsSurvive(rules: seq<Rule>, order: seq<nat>, d: Description)
    requires Indices(rules, order)
    requires forall i, j, x | 0 <= i < |rules| && 0 <= j < |rules| ::
               rules[i].matches(ApplyTo(rules[j].overlay, x)) == rules[i].matches(x)
    ensures forall i | 0 <= i < |rules| :: rules[i].matches(Interleaved(rules, order, d)) == rules[i].matches(d)
  {
    if order != [] {
      VerdictsSurvive(rules, order[..|order| - 1], d);
    }
  }

  const WATTS := Rule(0, (d: Description) => true, Overlay(map[Unit := "W"], None, map[]))
  const POWER := Rule(1, (d: Description) => Unit in d.fields && d.fields[Unit] == "W",
                      Overlay(map[DeviceClass := "power"], None, map[]))

  /** They differ where a rule tests what an earlier one sets: a unit rule decides before any overlay, so
      it never sees the unit a lower-priority rule sets. */
  lemma ConditionsAreReadFirst()
    ensures var d := Description(map[], map[]);
            && Enrich([WATTS, POWER], d) == Description(map[Unit := "W"], map[])
            && Interleaved([WATTS, POWER], Turns([WATTS, POWER]), d) == Description(map[Unit := "W", DeviceClass := "power"], map[])
  {
    var rules, d := [WATTS, POWER], Description(map[], map[]);
    TwoTurns(rules);
    WattsThenPower(rules, d);
    WattsAlone(rules, d);
  }

  lemma TwoTurns(rules: seq<Rule>)
    requires |rules| == 2 && rules[0].priority < rules[1].priority
    ensures Turns(rules) == [0, 1]
  {
    assert AllIndices(2) == [0, 1] && [0, 1][..1] == [0] && [0][..0] == [];
    assert SortStable(rules, [0][..0]) == [];
    assert SortStable(rules, [0]) == [0];
    assert SortStable(rules, [0, 1]) == InsertRule(rules, [0], 1) == [0] + [1];
  }

  lemma WattsAlone(rules: seq<Rule>, d: Description)
    requires rules == [WATTS, POWER] && d == Description(map[], map[])
    ensures Enrich(rules, d) == Description(map[Unit := "W"], map[])
  {
    FirstOfTwo(rules, d);
  }

  lemma FirstOfTwo(rules: seq<Rule>, d: Description)
    requires |rules| == 2 && rules[0].matches(d) && !rules[1].matches(d)
    ensures Enrich(rules, d) == ApplyTo(rules[0].overlay, d)
  {
    assert Matching(rules, 1, d) == Matching(rules, 0, d) + [0] == [0];
    assert Matching(rules, 2, d) == Matching(rules, 1, d);
    OnlyRule(rules, 0, d);
  }

  lemma OnlyRule(rules: seq<Rule>, i: nat, d: Description)
    requires i < |rules|
    ensures ApplyAll(rules, SortStable(rules, [i]), d) == ApplyTo(rules[i].overlay, d)
  {
    assert [i][..0] == [];
    assert SortStable(rules, [i][..0]) == [];
    assert SortStable(rules, [i]) == [i];
    assert ApplyAll(rules, [i][..0], d) == d;
  }

  lemma WattsThenPower(rules: seq<Rule>, d: Description)
    requires rules == [WATTS, POWER] && d == Description(map[], map[])
    ensures Interleaved(rules, [0, 1], d) == Description(map[Unit := "W", DeviceClass := "power"], map[])
  {
    assert [0][..0] == [] && [0, 1][..1] == [0];
    assert Interleaved(rules, [0][..0], d) == d;
    assert Interleaved(rules, [0], d) == ApplyTo(WATTS.overlay, d);
    assert ApplyTo(WATTS.overlay, d) == Description(map[Unit := "W"], map[]);
    assert Interleaved(rules, [0, 1], d) == ApplyTo(POWER.overlay, Interleaved(rules, [0], d));
  }

  // --------------------------------------------------------------- suppressed

  /** A mark that is anything but a boolean is no mark. */
  lemma OnlyABooleanSuppresses(d: Description, text: string)
    ensures !Suppressed(d.(extra := d.extra[SUPPRESS_KEY := Words(text)]))
    ensures Survivors([d.(extra := d.extra[SUPPRESS_KEY := Words(text)])]) == [Unmarked(d)]
  {
    var marked := d.(extra := d.extra[SUPPRESS_KEY := Words(text)]);
    assert [marked][..0] == [];
    assert marked.extra - {SUPPRESS_KEY} == d.extra - {SUPPRESS_KEY};
  }

  predicate Suppressed(d: Description) {
    SUPPRESS_KEY in d.extra && d.extra[SUPPRESS_KEY] == Flag(true)
  }

  function Unmarked(d: Description): Description {
    d.(extra := d.extra - {SUPPRESS_KEY})
  }

  /** Filter, on descriptions: suppressed ones go, the others lose the mark and nothing else. */
  method Filter(ds: seq<Description>) returns (out: seq<Description>)
    ensures out == Survivors(ds)
  {
    out := [];
    for i := 0 to |ds|
      invariant out == Survivors(ds[..i])
    {
      assert ds[..i + 1][..i] == ds[..i];
      if !Suppressed(ds[i]) {
        out := out + [if SUPPRESS_KEY in ds[i].extra then ds[i].(extra := ds[i].extra - {SUPPRESS_KEY}) else ds[i]];
        assert SUPPRESS_KEY !in ds[i].extra ==> ds[i].extra - {SUPPRESS_KEY} == ds[i].extra;
      }
    }
    assert ds[..|ds|] == ds;
  }

  function Survivors(ds: seq<Description>): seq<Description> {
    if ds == [] then []
    else
      var last := ds[|ds| - 1];
      Survivors(ds[..|ds| - 1]) + if Suppressed(last) then [] else [Unmarked(last)]
  }

  /** The operator's opt-out, end to end: the deciding rule's word on suppression is what counts. */
  lemma SuppressionFollowsDecider(rules: seq<Rule>, d: Description, i: nat)
    requires Decides(rules, d, Extra(SUPPRESS_KEY), i)
    ensures Survivors([Enrich(rules, d)]) ==
              if Given(rules[i].overlay, Extra(SUPPRESS_KEY)) == Some(Flag(true)) then [] else [Unmarked(Enrich(rules, d))]
  {
    EnrichDecidesEachPlace(rules, d, Extra(SUPPRESS_KEY));
    assert [Enrich(rules, d)][..0] == [];
  }

  // ------------------------------------------------------------ in plain terms

  /** A field ends as the last of the matching rules that state it has it: the highest priority, and among
      equals the later rule. */
  lemma FieldIsDecided(rules: seq<Rule>, d: Description, n: FieldName, i: nat)
    requires i < |rules| && rules[i].matches(d) && n in rules[i].overlay.fields
    requires forall j | 0 <= j < |rules| && j != i && rules[j].matches(d) && n in rules[j].overlay.fields ::
               rules[j].priority < rules[i].priority || (rules[j].priority == rules[i].priority && j < i)
    ensures n in Enrich(rules, d).fields && Enrich(rules, d).fields[n] == rules[i].overlay.fields[n]
  {
    assert Decides(rules, d, Field(n), i);
    EnrichDecidesEachPlace(rules, d, Field(n));
  }

  /** And one that no matching rule states stays as it was. */
  lemma FieldIsLeft(rules: seq<Rule>, d: Description, n: FieldName)
    requires forall j | 0 <= j < |rules| && rules[j].matches(d) :: n !in rules[j].overlay.fields
    ensures n in Enrich(rules, d).fields <==> n in d.fields
    ensures n in d.fields ==> Enrich(rules, d).fields[n] == d.fields[n]
  {
    EnrichDecidesEachPlace(rules, d, Field(n));
    forall i: nat ensures !Decides(rules, d, Field(n), i) {
    }
  }

  /** So does an extra key; one spelled like the suppression mark goes before the mark of the same rule. */
  lemma ExtraIsDecided(rules: seq<Rule>, d: Description, k: string, i: nat)
    requires i < |rules| && rules[i].matches(d) && k in rules[i].overlay.extra
    requires forall j | 0 <= j < |rules| && j != i && rules[j].matches(d)
                        && (k in rules[j].overlay.extra || (k == "hamqtt:suppress" && rules[j].overlay.suppress.Some?)) ::
               rules[j].priority < rules[i].priority || (rules[j].priority == rules[i].priority && j < i)
    ensures k in Enrich(rules, d).extra && Enrich(rules, d).extra[k] == rules[i].overlay.extra[k]
  {
    assert Decides(rules, d, Extra(k), i);
    EnrichDecidesEachPlace(rules, d, Extra(k));
  }

  /** A rule that suppresses takes the entity out, one that says not to keeps it, if it is the last to say. */
  lemma SuppressionIsDecided(rules: seq<Rule>, d: Description, i: nat)
    requires i < |rules| && rules[i].matches(d) && rules[i].overlay.suppress.Some?
    requires forall j | 0 <= j < |rules| && rules[j].matches(d) :: SUPPRESS_KEY !in rules[j].overlay.extra
    requires forall j | 0 <= j < |rules| && j != i && rules[j].matches(d) && rules[j].overlay.suppress.Some? ::
               rules[j].priority < rules[i].priority || (rules[j].priority == rules[i].priority && j < i)
    ensures Survivors([Enrich(rules, d)]) == if rules[i].overlay.suppress.value then [] else [Unmarked(Enrich(rules, d))]
  {
    assert Decides(rules, d, Extra(SUPPRESS_KEY), i);
    SuppressionFollowsDecider(rules, d, i);
  }

  /** Filter goes entity by entity: */
  lemma {:induction false} SurvivorsTogether(a: seq<Description>, b: seq<Description>)
    ensures Survivors(a + b) == Survivors(a) + Survivors(b)
    decreases |b|
  {
    if b == [] {
      assert a + b == a;
    } else {
      assert (a + b)[..|a + b| - 1] == a + b[..|b| - 1];
      SurvivorsTogether(a, b[..|b| - 1]);
    }
  }

  /** one whose mark is the boolean true goes, any other stays, without its mark. */
  lemma SurvivorAlone(d: Description)
    ensures Survivors([d]) ==
              if "hamqtt:suppress" in d.extra && d.extra["hamqtt:suppress"] == Flag(true) then []
              else [d.(extra := d.extra - {"hamqtt:suppress"})]
  {
    assert [d][..0] == [];
  }
}
