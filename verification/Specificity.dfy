/** The specificity order on filters: level ranks, dominance, the bounded comparison the
    router runs, the score it sorts by, and what the order means for the topics claimed. */
module Specificity {
  import opened Filters

  const RANK_REMAINDER := 0
  const RANK_SINGLE := 1
  const RANK_LITERAL := 2
  const RANK_END := 3

  /** How strict a filter is at position i, counted past its own end as well. */
  function LevelRank(f: seq<string>, i: nat): (r: nat)
    ensures r <= RANK_END
  {
    if exists j | 0 <= j < |f| :: j <= i && f[j] == "#" then RANK_REMAINDER
    else if i >= |f| then RANK_END
    else if f[i] == "+" then RANK_SINGLE
    else RANK_LITERAL
  }

  /** At least as strict at every level there is. */
  ghost predicate Dominates(a: seq<string>, b: seq<string>) {
    forall i: nat :: LevelRank(a, i) >= LevelRank(b, i)
  }

  /** Strictly more specific: wins the topics both claim. */
  ghost predicate Outranks(a: seq<string>, b: seq<string>) {
    Dominates(a, b) && !Dominates(b, a)
  }

  /** Dominance over the levels either filter actually has. */
  ghost predicate DominatesUpTo(a: seq<string>, b: seq<string>, n: nat) {
    forall i | 0 <= i < n :: LevelRank(a, i) >= LevelRank(b, i)
  }

  /** Past both filters nothing new can happen: a bounded comparison decides the unbounded one. */
  lemma BoundedDominance(a: seq<string>, b: seq<string>, n: nat)
    requires n >= |a| && n >= |b|
    ensures DominatesUpTo(a, b, n) <==> Dominates(a, b)
  {
    if DominatesUpTo(a, b, n) {
      forall i: nat ensures LevelRank(a, i) >= LevelRank(b, i) {
        if i >= n && LevelRank(a, i) == RANK_REMAINDER {
          var j :| 0 <= j < |a| && j <= i && a[j] == "#";
          assert LevelRank(a, j) == RANK_REMAINDER;
          assert LevelRank(b, j) == RANK_REMAINDER;
        }
      }
    }
  }

  /** compareSpecificity: +1, -1 or 0, and whether either filter dominates at all. */
  method CompareSpecificity(a: seq<string>, b: seq<string>) returns (cmp: int, ok: bool)
    ensures ok <==> Dominates(a, b) || Dominates(b, a)
    ensures ok && cmp == 1 <==> Outranks(a, b)
    ensures ok && cmp == -1 <==> Outranks(b, a)
    ensures ok && cmp == 0 <==> Dominates(a, b) && Dominates(b, a)
    ensures !ok ==> cmp == 0
  {
    var n := if |b| > |a| then |b| else |a|;
    var aStricter, bStricter := false, false;
    for i := 0 to n
      invariant aStricter <==> !DominatesUpTo(b, a, i)
      invariant bStricter <==> !DominatesUpTo(a, b, i)
    {
      var ra, rb := LevelRank(a, i), LevelRank(b, i);
      if ra > rb {
        aStricter := true;
      } else if rb > ra {
        bStricter := true;
      }
    }
    BoundedDominance(a, b, n);
    BoundedDominance(b, a, n);
    if aStricter && bStricter {
      return 0, false;
    } else if aStricter {
      return 1, true;
    } else if bStricter {
      return -1, true;
    }
    return 0, true;
  }

  lemma OutranksIsStrictOrder(a: seq<string>, b: seq<string>, c: seq<string>)
    ensures !(Outranks(a, b) && Outranks(b, a))
    ensures Outranks(a, b) && Outranks(b, c) ==> Outranks(a, c)
  {
    if Outranks(a, b) && Outranks(b, c) {
      var i: nat :| LevelRank(b, i) < LevelRank(a, i);
      assert LevelRank(c, i) < LevelRank(a, i);
    }
  }

  // ------------------------------------------------------------------ score

  function Score(f: seq<string>, width: nat): nat {
    if width == 0 then 0 else Score(f, width - 1) + LevelRank(f, width - 1)
  }

  /** specificityScore: the sum of the ranks over `width` levels. */
  method SpecificityScore(parts: seq<string>, width: nat) returns (total: nat)
    ensures total == Score(parts, width)
  {
    total := 0;
    for i := 0 to width
      invariant total == Score(parts, i)
    {
      total := total + LevelRank(parts, i);
    }
  }

  lemma {:induction false} ScoreMonotone(a: seq<string>, b: seq<string>, width: nat)
    requires Dominates(a, b)
    ensures Score(a, width) >= Score(b, width)
    ensures (exists i | 0 <= i < width :: LevelRank(a, i) > LevelRank(b, i)) ==> Score(a, width) > Score(b, width)
  {
    if width > 0 {
      ScoreMonotone(a, b, width - 1);
      assert LevelRank(a, width - 1) >= LevelRank(b, width - 1);
    }
  }

  /** The score is a linear extension of the order: sorting by it never puts an
      outranked filter first. */
  lemma ScoreExtendsOrder(a: seq<string>, b: seq<string>, width: nat)
    requires Outranks(a, b) && width >= |a| && width >= |b|
    ensures Score(a, width) > Score(b, width)
  {
    BoundedDominance(b, a, width);
    ScoreMonotone(a, b, width);
  }

  // ------------------------------------------- what the order says of topics

  /** Every topic f matches, g matches too. */
  ghost predicate Narrower(f: seq<string>, g: seq<string>) {
    forall t | IsTopic(t) && Matches(f, t) :: Matches(g, t)
  }

  ghost predicate StrictlyNarrower(f: seq<string>, g: seq<string>) {
    Narrower(f, g) && !Narrower(g, f)
  }

  lemma RestRank(f: seq<string>, i: nat)
    requires NoEarlyRest(f)
    ensures LevelRank(f, i) == RANK_REMAINDER <==> EndsInRest(f) && i >= Plain(f)
    ensures LevelRank(f, i) == RANK_END <==> !EndsInRest(f) && i >= |f|
    ensures LevelRank(f, i) == RANK_SINGLE <==> i < Plain(f) && f[i] == "+"
    ensures LevelRank(f, i) == RANK_LITERAL <==> i < Plain(f) && f[i] != "+"
  {
    if EndsInRest(f) && i >= Plain(f) {
      assert f[|f| - 1] == "#";
    }
  }

  /** Dominating an overlapping filter means claiming only topics it claims. */
  lemma DominatesNarrows(f: seq<string>, g: seq<string>)
    requires ValidLevels(f) && ValidLevels(g)
    requires Overlap(f, g) && !DollarClash(f, g)
    requires Dominates(f, g)
    ensures Narrower(f, g)
  {
    var c := CommonTopic(f, g);
    CommonTopicMatches(f, g);
    forall t | IsTopic(t) && Matches(f, t) ensures Matches(g, t) {
      DominatesMatches(f, g, c, t);
    }
  }

  lemma DominatesMatches(f: seq<string>, g: seq<string>, c: seq<string>, t: seq<string>)
    requires ValidLevels(f) && ValidLevels(g)
    requires MatchLevels(f, c) && MatchLevels(g, c)
    requires Dominates(f, g)
    requires MatchLevels(f, t)
    ensures MatchLevels(g, t)
  {
    forall i | 0 <= i < Plain(g) ensures i < Plain(f) && LevelMatches(g[i], t[i]) {
      RestRank(f, i);
      RestRank(g, i);
      assert LevelRank(f, i) >= LevelRank(g, i);
      assert |c| > i;
    }
    if Plain(g) > 0 {
      assert Plain(g) - 1 < Plain(f);
    }
    if !EndsInRest(g) {
      RestRank(f, |g|);
      RestRank(g, |g|);
      assert LevelRank(f, |g|) >= LevelRank(g, |g|);
    }
  }

  /** The one pair the order tells apart although both claim exactly the same topics:
      a trailing `#` also matches zero levels, and every topic has a first level. */
  predicate SameTopicsPair(f: seq<string>, g: seq<string>) {
    f == ["+", "#"] && g == ["#"]
  }

  /** Where f is looser than g at some level, f claims a topic g does not. */
  lemma LooserClaimsMore(f: seq<string>, g: seq<string>, i: nat)
    requires ValidLevels(f) && ValidLevels(g)
    requires LevelRank(f, i) < LevelRank(g, i)
    requires !SameTopicsPair(g, f)
    ensures !Narrower(f, g)
  {
    RestRank(f, i);
    RestRank(g, i);
    var t := LooserWitness(f, g, i);
    assert IsTopic(t) && Matches(f, t) && !Matches(g, t);
  }

  lemma LooserWitness(f: seq<string>, g: seq<string>, i: nat) returns (t: seq<string>)
    requires ValidLevels(f) && ValidLevels(g)
    requires LevelRank(f, i) < LevelRank(g, i)
    requires !SameTopicsPair(g, f)
    ensures IsTopic(t) && Matches(f, t) && !Matches(g, t)
  {
    RestRank(f, i);
    RestRank(g, i);
    if LevelRank(g, i) == RANK_END {
      // g is too short: stretch the topic beyond it.
      var rest := seq(|g| + 1, _ => "x");
      SampleIsMatchedTopic(f, "x", rest);
      t := Sample(f, "x", rest);
    } else if LevelRank(f, i) == RANK_SINGLE {
      // g names the level: take another name there.
      var other := if g[i] == "x" then "y" else "x";
      SampleIsMatchedTopic(f, other, []);
      t := Sample(f, other, []);
      assert t[i] == other;
    } else if Plain(f) > 0 {
      // f gives up before g does: stop the topic there.
      SampleIsMatchedTopic(f, "x", []);
      t := Sample(f, "x", []);
    } else {
      t := BareRestWitness(f, g, i);
    }
  }

  /** The case f == ["#"], where a topic cannot stop before its first level. */
  lemma BareRestWitness(f: seq<string>, g: seq<string>, i: nat) returns (t: seq<string>)
    requires ValidLevels(f) && ValidLevels(g)
    requires Plain(f) == 0 && i < Plain(g) && !SameTopicsPair(g, f)
    ensures IsTopic(t) && Matches(f, t) && !Matches(g, t)
  {
    assert f == ["#"];
    if g[0] != "+" && Plain(g) == 1 {
      var other := if g[0] == "x" then "y" else "x";
      t := [other];
    } else if Plain(g) == 1 {
      if EndsInRest(g) {
        assert false;
      }
      t := ["x", "x"];
    } else {
      t := ["x"];
    }
  }

  lemma NarrowerDominates(f: seq<string>, g: seq<string>)
    requires ValidLevels(f) && ValidLevels(g)
    requires Narrower(f, g) && !SameTopicsPair(g, f)
    ensures Dominates(f, g)
  {
    forall i: nat ensures LevelRank(f, i) >= LevelRank(g, i) {
      if LevelRank(f, i) < LevelRank(g, i) {
        LooserClaimsMore(f, g, i);
      }
    }
  }

  lemma SameTopicsPairClaimsTheSame()
    ensures Narrower(["+", "#"], ["#"]) && Narrower(["#"], ["+", "#"])
    ensures Outranks(["+", "#"], ["#"])
  {
    var f, g := ["+", "#"], ["#"];
    forall t | IsTopic(t) ensures Matches(f, t) <==> Matches(g, t) {
    }
    forall i: nat ensures LevelRank(f, i) >= LevelRank(g, i) {
      RestRank(f, i);
      RestRank(g, i);
    }
    RestRank(f, 0);
    RestRank(g, 0);
    assert LevelRank(f, 0) > LevelRank(g, 0);
  }

  lemma NarrowerOverlaps(f: seq<string>, g: seq<string>)
    requires ValidLevels(f) && ValidLevels(g) && Narrower(f, g)
    ensures Overlap(f, g)
  {
    SampleIsMatchedTopic(f, "x", ["x"]);
    SharedTopicOverlaps(f, g, Sample(f, "x", ["x"]));
  }

  /** Dominance is containment: among filters that share topics, the more specific one is the
      one whose topics are a proper part of the other's, with a single exception. */
  lemma OutranksIsStrictlyNarrower(f: seq<string>, g: seq<string>)
    requires ValidLevels(f) && ValidLevels(g) && !DollarClash(f, g)
    ensures Overlap(f, g) && Outranks(f, g) <==> StrictlyNarrower(f, g) || SameTopicsPair(f, g)
  {
    if Overlap(f, g) && Outranks(f, g) {
      DominatesNarrows(f, g);
      if Narrower(g, f) && !SameTopicsPair(f, g) {
        NarrowerDominates(g, f);
      }
    }
    if StrictlyNarrower(f, g) {
      NarrowerOverlaps(f, g);
      if SameTopicsPair(g, f) {
        SameTopicsPairClaimsTheSame();
      }
      NarrowerDominates(f, g);
      if Dominates(g, f) {
        OverlapSymmetric(f, g);
        DominatesNarrows(g, f);
      }
    }
    if SameTopicsPair(f, g) {
      SameTopicsPairClaimsTheSame();
      NarrowerOverlaps(f, g);
    }
  }

  lemma {:induction false} OverlapSymmetric(a: seq<string>, b: seq<string>)
    ensures Overlap(a, b) == Overlap(b, a)
    decreases |a|
  {
    if |a| > 0 && |b| > 0 && a[0] != "#" && b[0] != "#" {
      OverlapSymmetric(a[1..], b[1..]);
    }
  }
}
