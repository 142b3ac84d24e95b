/** MQTT topic filters: matching, structural overlap, and the specificity order
    the command router resolves overlapping routes by. */
module Filters {
  import opened Text

  /** One wildcard of either kind. */
  predicate Wild(p: string) {
    p == "+" || p == "#"
  }

  predicate NoWildChars(p: string) {
    '+' !in p && '#' !in p
  }

  predicate Dollar(p: string) {
    |p| > 0 && p[0] == '$'
  }

  predicate EndsInRest(f: seq<string>) {
    |f| > 0 && f[|f| - 1] == "#"
  }

  /** How many levels of f stand for exactly one topic level each. */
  function Plain(f: seq<string>): nat {
    if EndsInRest(f) then |f| - 1 else |f|
  }

  predicate NoEarlyRest(f: seq<string>) {
    forall i | 0 <= i < |f| - 1 :: f[i] != "#"
  }

  /** The wildcard placement rules of section 4.7.1 of MQTT 5.0. */
  predicate ValidLevels(f: seq<string>) {
    && |f| >= 1
    && AllFlat(f)
    && NoEarlyRest(f)
    && forall i | 0 <= i < |f| :: Wild(f[i]) || NoWildChars(f[i])
  }

  /** A topic, as levels: at least one, none carrying a separator or a wildcard. */
  predicate IsTopic(t: seq<string>) {
    && |t| >= 1
    && AllFlat(t)
    && forall i | 0 <= i < |t| :: NoWildChars(t[i])
  }

  predicate LevelMatches(p: string, x: string) {
    p == "+" || p == x
  }

  /** Matching without the `$` rule; the topic may have run out of levels. */
  predicate MatchLevels(f: seq<string>, t: seq<string>) {
    && NoEarlyRest(f)
    && (if EndsInRest(f) then |t| >= Plain(f) else |t| == Plain(f))
    && forall i | 0 <= i < Plain(f) :: LevelMatches(f[i], t[i])
  }

  /** Section 4.7.2: a leading wildcard does not reach a topic that starts with `$`. */
  predicate Matches(f: seq<string>, t: seq<string>) {
    && !(|t| > 0 && Dollar(t[0]) && |f| > 0 && Wild(f[0]))
    && MatchLevels(f, t)
  }

  // ---------------------------------------------------------------- capture

  /** What the `+` levels among the first n took. */
  function Captured(f: seq<string>, t: seq<string>, n: nat): seq<string>
    requires n <= |f| && n <= |t|
  {
    if n == 0 then []
    else Captured(f, t, n - 1) + (if f[n - 1] == "+" then [t[n - 1]] else [])
  }

  /** The levels a trailing `#` took. */
  function Remaining(f: seq<string>, t: seq<string>): seq<string>
    requires Plain(f) <= |t|
  {
    if EndsInRest(f) then t[Plain(f)..] else []
  }

  /** Puts captured values back into the filter's wildcards, last `+` first. */
  function Fill(f: seq<string>, n: nat, wild: seq<string>): (r: Option<seq<string>>)
    requires n <= |f|
  {
    if n == 0 then (if wild == [] then Some([]) else None)
    else if f[n - 1] == "+" then
      if wild == [] then None
      else
        var front := Fill(f, n - 1, wild[..|wild| - 1]);
        if front.None? then None else Some(front.value + [wild[|wild| - 1]])
    else
      var front := Fill(f, n - 1, wild);
      if front.None? then None else Some(front.value + [f[n - 1]])
  }

  /** Capturing loses nothing: the filter, its captures and its remainder rebuild the topic. */
  lemma CaptureRebuildsTopic(f: seq<string>, t: seq<string>)
    requires Matches(f, t)
    ensures Fill(f, Plain(f), Captured(f, t, Plain(f))) == Some(t[..Plain(f)])
    ensures t[..Plain(f)] + Remaining(f, t) == t
  {
    FillCaptured(f, t, Plain(f));
  }

  /** These captures, put back into the filter, give the topic's levels, and the remainder is the rest of them. */
  predicate Refills(f: seq<string>, t: seq<string>, wild: seq<string>, remainder: string) {
    && Plain(f) <= |t|
    && Fill(f, Plain(f), wild) == Some(t[..Plain(f)])
    && remainder == Join(t[Plain(f)..])
  }

  lemma CapturesRefill(f: seq<string>, t: seq<string>)
    requires Matches(f, t)
    ensures Refills(f, t, Captured(f, t, Plain(f)), Join(Remaining(f, t)))
  {
    CaptureRebuildsTopic(f, t);
    assert t[Plain(f)..] == Remaining(f, t);
  }

  /** And only what a matching topic gives can be put back so: a filter filled in is a topic it matches. */
  lemma {:induction false} FilledMatches(f: seq<string>, n: nat, wild: seq<string>)
    requires n <= |f| && Fill(f, n, wild).Some?
    ensures |Fill(f, n, wild).value| == n
    ensures forall i | 0 <= i < n :: LevelMatches(f[i], Fill(f, n, wild).value[i])
  {
    if n > 0 {
      FilledMatches(f, n - 1, if f[n - 1] == "+" then wild[..|wild| - 1] else wild);
    }
  }

  lemma {:induction false} FillCaptured(f: seq<string>, t: seq<string>, n: nat)
    requires n <= |f| && n <= |t|
    requires forall i | 0 <= i < n :: LevelMatches(f[i], t[i])
    ensures Fill(f, n, Captured(f, t, n)) == Some(t[..n])
  {
    if n > 0 {
      FillCaptured(f, t, n - 1);
      assert t[..n] == t[..n - 1] + [t[n - 1]];
      if f[n - 1] == "+" {
        var front := Captured(f, t, n - 1);
        assert (front + [t[n - 1]])[..|front|] == front;
      } else {
        assert Captured(f, t, n) == Captured(f, t, n - 1);
      }
    }
  }

  /** captureFilter: matches a topic against a pre-split filter and returns what the wildcards took. */
  method CaptureFilter(parts: seq<string>, topic: string)
      returns (wildcards: seq<string>, remainder: string, ok: bool)
    ensures ok <==> Matches(parts, Split(topic))
    ensures ok ==> wildcards == Captured(parts, Split(topic), Plain(parts))
    ensures ok ==> remainder == Join(Remaining(parts, Split(topic)))
  {
    var tp := Split(topic);
    wildcards, remainder := [], "";
    if Dollar(tp[0]) && |parts| > 0 && Wild(parts[0]) {
      return wildcards, remainder, false;
    }
    var i := 0;
    while i < |parts|
      invariant 0 <= i <= |parts| && i <= |tp|
      invariant forall k | 0 <= k < i :: parts[k] != "#" && LevelMatches(parts[k], tp[k])
      invariant wildcards == Captured(parts, tp, i)
    {
      if parts[i] == "#" {
        if i != |parts| - 1 {
          return [], "", false;
        }
        return wildcards, Join(tp[i..]), true;
      }
      if i >= |tp| {
        return [], "", false;
      }
      if parts[i] == "+" {
        wildcards := wildcards + [tp[i]];
      } else if parts[i] != tp[i] {
        return [], "", false;
      }
      i := i + 1;
    }
    if |parts| != |tp| {
      return [], "", false;
    }
    return wildcards, "", true;
  }

  // ---------------------------------------------------------------- overlap

  /** Two filters walked side by side: what filtersOverlap decides. */
  predicate Overlap(a: seq<string>, b: seq<string>) {
    if |a| == 0 || |b| == 0 then a == b || a == ["#"] || b == ["#"]
    else if a[0] == "#" || b[0] == "#" then true
    else (a[0] == "+" || b[0] == "+" || a[0] == b[0]) && Overlap(a[1..], b[1..])
  }

  /** filtersOverlap: walks both filters level by level. */
  method FiltersOverlap(first: seq<string>, second: seq<string>) returns (r: bool)
    ensures r == Overlap(first, second)
  {
    var a, b := first, second;
    while true
      invariant Overlap(first, second) == Overlap(a, b)
      decreases |a|
    {
      if |a| == 0 && |b| == 0 {
        return true;
      } else if |a| == 0 {
        return |b| == 1 && b[0] == "#";
      } else if |b| == 0 {
        return |a| == 1 && a[0] == "#";
      } else if a[0] == "#" || b[0] == "#" {
        return true;
      } else if a[0] != "+" && b[0] != "+" && a[0] != b[0] {
        return false;
      }
      a, b := a[1..], b[1..];
    }
  }

  /** One filter starts with a wildcard, the other with a literal in the broker's `$` tree. */
  predicate DollarClash(a: seq<string>, b: seq<string>) {
    && |a| > 0 && |b| > 0
    && ((Wild(a[0]) && Dollar(b[0])) || (Dollar(a[0]) && Wild(b[0])))
  }

  /** A topic level both filter levels accept. */
  function CommonLevel(p: string, q: string): string {
    if p != "+" then p else if q != "+" then q else "x"
  }

  /** A topic that f matches: wildcards take `fill`, a trailing `#` takes `rest`. */
  function Sample(f: seq<string>, fill: string, rest: seq<string>): (t: seq<string>)
    ensures |t| == Plain(f) + (if EndsInRest(f) then |rest| else 0)
    ensures forall i | 0 <= i < Plain(f) :: t[i] == if f[i] == "+" then fill else f[i]
    ensures EndsInRest(f) ==> t[Plain(f)..] == rest
  {
    var front := seq(Plain(f), i requires 0 <= i < Plain(f) => if f[i] == "+" then fill else f[i]);
    if EndsInRest(f) then front + rest else front
  }

  /** A topic matched by both filters, when they overlap. */
  function CommonTopic(a: seq<string>, b: seq<string>): seq<string>
    requires Overlap(a, b)
  {
    if |a| == 0 || |b| == 0 then []
    else if a[0] == "#" then Sample(b, "x", ["x"])
    else if b[0] == "#" then Sample(a, "x", ["x"])
    else [CommonLevel(a[0], b[0])] + CommonTopic(a[1..], b[1..])
  }

  /** Dropping the first level of a filter and of a topic it matches keeps the match. */
  lemma MatchTail(f: seq<string>, t: seq<string>)
    requires |f| > 0 && f[0] != "#"
    ensures MatchLevels(f, t) <==> |t| > 0 && LevelMatches(f[0], t[0]) && MatchLevels(f[1..], t[1..])
  {
    if |t| > 0 {
      var g, u := f[1..], t[1..];
      assert EndsInRest(f) == EndsInRest(g);
      assert Plain(f) == Plain(g) + 1;
      if MatchLevels(f, t) {
        assert forall i | 0 <= i < |g| - 1 :: g[i] == f[i + 1];
        assert forall i | 0 <= i < Plain(g) :: g[i] == f[i + 1] && u[i] == t[i + 1];
      }
      if LevelMatches(f[0], t[0]) && MatchLevels(g, u) {
        assert forall i | 1 <= i < |f| - 1 :: f[i] == g[i - 1];
        assert forall i | 1 <= i < Plain(f) :: f[i] == g[i - 1] && t[i] == u[i - 1];
      }
    }
  }

  lemma {:induction false} SharedTopicOverlaps(a: seq<string>, b: seq<string>, t: seq<string>)
    requires MatchLevels(a, t) && MatchLevels(b, t)
    ensures Overlap(a, b)
    decreases |a|
  {
    if |a| > 0 && |b| > 0 && a[0] != "#" && b[0] != "#" {
      MatchTail(a, t);
      MatchTail(b, t);
      SharedTopicOverlaps(a[1..], b[1..], t[1..]);
    } else if |a| == 0 && |b| > 0 {
      assert |b| == 1;
    } else if |b| == 0 && |a| > 0 {
      assert |a| == 1;
    }
  }

  /** A sample of a valid filter is a topic the filter really matches. */
  lemma SampleIsMatchedTopic(f: seq<string>, fill: string, rest: seq<string>)
    requires ValidLevels(f)
    requires Flat(fill) && NoWildChars(fill) && !Dollar(fill)
    requires AllFlat(rest) && forall i | 0 <= i < |rest| :: NoWildChars(rest[i]) && !Dollar(rest[i])
    requires Plain(f) + |rest| > 0
    ensures IsTopic(Sample(f, fill, rest)) && Matches(f, Sample(f, fill, rest))
  {
    var t := Sample(f, fill, rest);
    forall i | 0 <= i < |t| ensures Flat(t[i]) && NoWildChars(t[i]) {
    }
    assert AllFlat(t);
  }

  lemma {:induction false} CommonTopicMatches(a: seq<string>, b: seq<string>)
    requires NoEarlyRest(a) && NoEarlyRest(b)
    requires Overlap(a, b)
    ensures MatchLevels(a, CommonTopic(a, b)) && MatchLevels(b, CommonTopic(a, b))
    decreases |a|
  {
    if |a| == 0 || |b| == 0 {
    } else if a[0] == "#" {
      assert a == ["#"];
    } else if b[0] == "#" {
      assert b == ["#"];
    } else {
      CommonTopicMatches(a[1..], b[1..]);
      var t := CommonTopic(a, b);
      assert t[1..] == CommonTopic(a[1..], b[1..]);
      MatchTail(a, t);
      MatchTail(b, t);
    }
  }

  lemma {:induction false} CommonTopicIsTopic(a: seq<string>, b: seq<string>)
    requires Overlap(a, b)
    requires AllFlat(a) && AllFlat(b)
    requires NoEarlyRest(a) && NoEarlyRest(b)
    requires forall i | 0 <= i < |a| :: Wild(a[i]) || NoWildChars(a[i])
    requires forall i | 0 <= i < |b| :: Wild(b[i]) || NoWildChars(b[i])
    ensures var t := CommonTopic(a, b);
            AllFlat(t) && (forall i | 0 <= i < |t| :: NoWildChars(t[i])) && (|a| > 0 && |b| > 0 ==> |t| > 0)
    decreases |a|
  {
    if |a| == 0 || |b| == 0 {
    } else if a[0] == "#" {
      SampleIsMatchedTopic(b, "x", ["x"]);
    } else if b[0] == "#" {
      SampleIsMatchedTopic(a, "x", ["x"]);
    } else {
      assert a[0] in a && b[0] in b;
      assert AllFlat(a[1..]) && AllFlat(b[1..]);
      CommonTopicIsTopic(a[1..], b[1..]);
    }
  }

  /** Overlap is decided exactly: a shared topic exists if and only if filtersOverlap says so
      and the pair is not split by the `$` rule, which filtersOverlap ignores. */
  lemma OverlapIsExact(a: seq<string>, b: seq<string>)
    requires ValidLevels(a) && ValidLevels(b)
    ensures (exists t :: IsTopic(t) && Matches(a, t) && Matches(b, t))
            <==> Overlap(a, b) && !DollarClash(a, b)
  {
    if Overlap(a, b) && !DollarClash(a, b) {
      var t := CommonTopic(a, b);
      CommonTopicMatches(a, b);
      CommonTopicIsTopic(a, b);
      assert IsTopic(t) && Matches(a, t) && Matches(b, t);
    }
    forall t | IsTopic(t) && Matches(a, t) && Matches(b, t)
      ensures Overlap(a, b) && !DollarClash(a, b)
    {
      SharedTopicOverlaps(a, b, t);
    }
  }

  /** The concrete pair the `$` rule separates and filtersOverlap does not. */
  lemma OverlapIgnoresDollarRule()
    ensures Overlap(["+", "load"], ["$SYS", "load"])
    ensures forall t :: !(IsTopic(t) && Matches(["+", "load"], t) && Matches(["$SYS", "load"], t))
  {
    var a, b := ["+", "load"], ["$SYS", "load"];
    assert a[1..] == b[1..] == ["load"];
    assert a[1..][1..] == b[1..][1..] == [];
    OverlapIsExact(a, b);
  }
}
