/** Filters as registered: the shared-subscription prefix of section 4.8.2 of MQTT 5.0 and validation. */
module FilterSyntax {
  import opened Text
  import opened Filters

  const SHARED_PREFIX := "$share/"
  const MAX_LENGTH := 65535

  datatype FilterError = Empty | TooLong | NotUtf8 | HasNul | BadShare | RestNotLast | WildcardSharesLevel

  /** splitShared: the filter that takes part in matching, for a well-formed shared subscription. */
  function SplitShared(filter: string): (wrapped: Option<string>)
    ensures wrapped.Some? ==> |wrapped.value| < |filter| && wrapped.value != ""
  {
    if !(SHARED_PREFIX <= filter) then None
    else
      var (name, wrapped, found) := Cut(filter[|SHARED_PREFIX|..]);
      if !found || name == "" || wrapped == "" || !NoWildChars(name) then None
      else Some(wrapped)
  }

  /** filterParts: the levels that take part in matching. */
  function FilterParts(filter: string): (parts: seq<string>)
    ensures |parts| >= 1 && AllFlat(parts)
  {
    match SplitShared(filter)
    case Some(wrapped) => Split(wrapped)
    case None => Split(filter)
  }

  predicate MatchFilter(filter: string, topic: string) {
    Matches(FilterParts(filter), Split(topic))
  }

  // A Go string is its bytes: each character here stands for one.

  predicate Continues(c: char) {
    0x80 <= c as int <= 0xBF
  }

  /** The length of the UTF-8 sequence at the front, by the table in section 4 of RFC 3629; 0 for none. */
  function Utf8Length(s: string): (n: nat)
    ensures n <= 4 && n <= |s|
  {
    if s == "" then 0
    else
      var b := s[0] as int;
      if b < 0x80 then 1
      else if |s| < 2 || !Continues(s[1]) then 0
      else if 0xC2 <= b <= 0xDF then 2
      else if |s| < 3 || !Continues(s[2]) then 0
      else if (b == 0xE0 && s[1] as int < 0xA0) || (b == 0xED && s[1] as int > 0x9F) then 0
      else if 0xE0 <= b <= 0xEF then 3
      else if |s| < 4 || !Continues(s[3]) then 0
      else if (b == 0xF0 && s[1] as int < 0x90) || (b == 0xF4 && s[1] as int > 0x8F) then 0
      else if 0xF0 <= b <= 0xF4 then 4
      else 0
  }

  /** utf8.ValidString. */
  predicate ValidUtf8(s: string)
    decreases |s|
  {
    s == "" || (Utf8Length(s) > 0 && ValidUtf8(s[Utf8Length(s)..]))
  }

  /** No sequence starts with a stray continuation or an overlong two-byte form, or goes beyond the last plane;
      and none spells a surrogate or is overlong in three bytes. */
  lemma Utf8Leads(s: string)
    requires s != "" && ValidUtf8(s)
    ensures s[0] as int < 0x80 || 0xC2 <= s[0] as int <= 0xF4
    ensures s[0] as int >= 0x80 ==> |s| >= 2 && Continues(s[1])
    ensures s[0] as int >= 0xE0 ==> |s| >= 3 && Continues(s[2])
    ensures s[0] as int == 0xE0 ==> s[1] as int >= 0xA0
    ensures s[0] as int == 0xED ==> s[1] as int <= 0x9F
  {
  }

  predicate Ascii(s: string) {
    forall c | c in s :: c as int < 0x80
  }

  lemma {:induction false} AsciiIsUtf8(s: string)
    requires Ascii(s)
    ensures ValidUtf8(s)
    decreases |s|
  {
    if s != "" {
      assert s[0] in s && Utf8Length(s) == 1;
      assert forall c | c in s[1..] :: c in s;
      AsciiIsUtf8(s[1..]);
    }
  }

  predicate WellFormed(filter: string) {
    && filter != ""
    && |filter| <= MAX_LENGTH
    && ValidUtf8(filter)
    && '\0' !in filter
    && (SHARED_PREFIX <= filter ==> SplitShared(filter).Some?)
    && ValidLevels(FilterParts(filter))
  }

  /** validateFilterLevels: wildcard placement, first offence reported. */
  method ValidateFilterLevels(matchable: string) returns (err: Option<FilterError>)
    ensures err.None? <==> ValidLevels(Split(matchable))
    ensures err.Some? ==> err.value.RestNotLast? || err.value.WildcardSharesLevel?
    ensures err == Some(RestNotLast) ==> exists i :: 0 <= i < |Split(matchable)| - 1 && Split(matchable)[i] == "#"
    ensures err == Some(WildcardSharesLevel) ==>
              exists i :: 0 <= i < |Split(matchable)| && ('+' in Split(matchable)[i] || '#' in Split(matchable)[i]) && |Split(matchable)[i]| > 1
  {
    var parts := Split(matchable);
    for i := 0 to |parts|
      invariant forall k | 0 <= k < i :: Wild(parts[k]) || NoWildChars(parts[k])
      invariant forall k | 0 <= k < i && k < |parts| - 1 :: parts[k] != "#"
    {
      var p := parts[i];
      if p == "+" || p == "#" {
        if p == "#" && i != |parts| - 1 {
          return Some(RestNotLast);
        }
      } else if '+' in p || '#' in p {
        return Some(WildcardSharesLevel);
      }
    }
    return None;
  }

  /** ValidateFilter: accepts exactly the well-formed filters. */
  method ValidateFilter(filter: string) returns (err: Option<FilterError>)
    ensures err.None? <==> WellFormed(filter)
    ensures err == Some(Empty) <==> filter == ""
    ensures err == Some(TooLong) <==> |filter| > 65535
    ensures err == Some(NotUtf8) <==> |filter| <= 65535 && !ValidUtf8(filter)
    ensures err == Some(HasNul) <==> |filter| <= 65535 && ValidUtf8(filter) && '\0' in filter
    ensures err.None? && !("$share/" <= filter) ==>
              var p := Split(filter);
              && (forall i | 0 <= i < |p| - 1 :: '#' !in p[i])
              && (forall i | 0 <= i < |p| :: '#' in p[i] || '+' in p[i] ==> |p[i]| == 1)
  {
    if filter == "" {
      return Some(Empty);
    }
    if |filter| > MAX_LENGTH {
      return Some(TooLong);
    }
    if !ValidUtf8(filter) {
      return Some(NotUtf8);
    }
    if '\0' in filter {
      return Some(HasNul);
    }
    if SHARED_PREFIX <= filter {
      var (name, wrapped, found) := Cut(filter[|SHARED_PREFIX|..]);
      if !found || name == "" || '+' in name || '#' in name || wrapped == "" {
        return Some(BadShare);
      }
      err := ValidateFilterLevels(wrapped);
      return;
    }
    err := ValidateFilterLevels(filter);
  }

  /** A shared filter registers, matches and overlaps exactly as the filter it wraps does on its
      own — unless that filter is itself spelled as a shared subscription, which is then read literally. */
  lemma SharedActsAsWrapped(filter: string, wrapped: string)
    requires SplitShared(filter) == Some(wrapped)
    ensures FilterParts(filter) == FilterParts(wrapped) <==> SplitShared(wrapped).None?
  {
    if SplitShared(wrapped).Some? && FilterParts(filter) == FilterParts(wrapped) {
      SplitInjective(wrapped, SplitShared(wrapped).value);
    }
  }

  lemma SharedOf(group: string, wrapped: string)
    requires group != "" && Flat(group) && NoWildChars(group) && wrapped != ""
    ensures SplitShared(SHARED_PREFIX + group + "/" + wrapped) == Some(wrapped)
  {
    assert (SHARED_PREFIX + group + "/" + wrapped)[|SHARED_PREFIX|..] == group + "/" + wrapped;
    CutFlat(group, wrapped);
  }

  lemma SplitPrefixed(pre: string, p: string, h: string, x: string)
    requires pre == p + "/" && Flat(p) && Flat(h)
    ensures Split(pre + h + "/" + x) == [p, h] + Split(x)
  {
    SplitCons(h, x);
    SplitCons(p, h + "/" + x);
    assert pre + h + "/" + x == p + "/" + (h + "/" + x);
    assert [p] + ([h] + Split(x)) == [p, h] + Split(x);
  }

  function SharedAs(group: string, wrapped: string): string {
    SHARED_PREFIX + group + "/" + wrapped
  }

  lemma SharedTwiceParts(g: string, h: string, x: string, filter: string, inner: string) returns (share: string)
    requires g != "" && Flat(g) && NoWildChars(g) && h != "" && Flat(h) && NoWildChars(h) && x != ""
    requires inner == SharedAs(h, x) && filter == SharedAs(g, inner)
    ensures SplitShared(filter) == Some(inner) && SplitShared(inner) == Some(x)
    ensures Split(inner) == [share, h] + Split(x) && Flat(share) && NoWildChars(share) && filter != ""
  {
    share := "$share";
    SharedOf(h, x);
    SharedOf(g, inner);
    SplitPrefixed(SHARED_PREFIX, share, h, x);
  }

  /** A group within a group is accepted, its inner prefix read as two literal levels: the topic the
      wrapped filter is for is not matched. */
  lemma SharedTwiceIsReadLiterally(g: string, h: string, x: string, filter: string, inner: string)
    requires g != "" && Flat(g) && NoWildChars(g) && h != "" && Flat(h) && NoWildChars(h)
    requires x != "" && Flat(x) && NoWildChars(x) && x[0] != '$'
    requires inner == SharedAs(h, x) && filter == SharedAs(g, inner)
    requires |filter| <= MAX_LENGTH && ValidUtf8(filter) && '\0' !in filter
    ensures WellFormed(filter) && SplitShared(filter) == Some(inner)
    ensures MatchFilter(inner, x) && !MatchFilter(filter, x)
  {
    var share := SharedTwiceParts(g, h, x, filter, inner);
    ThreeLevels(share, h, x, filter, inner);
  }

  lemma ThreeLevels(share: string, h: string, x: string, filter: string, inner: string)
    requires SplitShared(filter) == Some(inner) && SplitShared(inner) == Some(x) && Split(inner) == [share, h] + Split(x)
    requires Flat(share) && NoWildChars(share) && Flat(h) && NoWildChars(h) && Flat(x) && NoWildChars(x) && !Dollar(x)
    requires filter != "" && |filter| <= MAX_LENGTH && ValidUtf8(filter) && '\0' !in filter
    ensures WellFormed(filter) && MatchFilter(inner, x) && !MatchFilter(filter, x)
  {
    SplitFlat(x);
    assert [share, h] + [x] == [share, h, x];
    LevelsOfThree(share, h, x);
    ReadAs(filter, inner, [share, h, x], x);
  }

  lemma ReadAs(filter: string, inner: string, parts: seq<string>, x: string)
    requires SplitShared(filter) == Some(inner) && SplitShared(inner) == Some(x)
    requires Split(inner) == parts && Split(x) == [x] && filter != ""
    requires ValidLevels(parts) && !Matches(parts, [x]) && Matches([x], [x])
    requires |filter| <= MAX_LENGTH && ValidUtf8(filter) && '\0' !in filter
    ensures WellFormed(filter) && MatchFilter(inner, x) && !MatchFilter(filter, x)
  {
  }

  lemma LevelsOfThree(p: string, h: string, x: string)
    requires Flat(p) && NoWildChars(p) && Flat(h) && NoWildChars(h) && Flat(x) && NoWildChars(x) && !Dollar(x)
    ensures ValidLevels([p, h, x]) && !Matches([p, h, x], [x]) && Matches([x], [x])
  {
  }

  /** With groups `g` and `h` and the filter `x`, for one. */
  lemma SharedTwiceExists() returns (filter: string, wrapped: string, topic: string)
    ensures wrapped == SharedAs("h", topic) && filter == SharedAs("g", wrapped) && topic == "x"
    ensures WellFormed(filter) && SplitShared(filter) == Some(wrapped)
    ensures MatchFilter(wrapped, topic) && !MatchFilter(filter, topic)
  {
    var g, h;
    g, h, topic := "g", "h", "x";
    wrapped := SharedAs(h, topic);
    filter := SharedAs(g, wrapped);
    AsciiIsUtf8(filter);
    SharedTwiceIsReadLiterally(g, h, topic, filter, wrapped);
  }

  /** The same for every topic: what the two spellings match is the same set. */
  lemma SharedMatchesAsWrapped(group: string, wrapped: string, topic: string)
    requires group != "" && Flat(group) && NoWildChars(group) && wrapped != ""
    requires !(SHARED_PREFIX <= wrapped)
    ensures MatchFilter(SHARED_PREFIX + group + "/" + wrapped, topic) <==> MatchFilter(wrapped, topic)
  {
    SharedOf(group, wrapped);
    SharedActsAsWrapped(SHARED_PREFIX + group + "/" + wrapped, wrapped);
  }

  lemma {:induction false} CutFlat(p: string, s: string)
    requires Flat(p)
    ensures Cut(p + "/" + s) == (p, s, true)
  {
    var whole := p + "/" + s;
    if p != "" {
      assert Flat(p[1..]);
      CutFlat(p[1..], s);
      assert whole[1..] == p[1..] + "/" + s;
      assert [p[0]] + p[1..] == p;
    } else {
      assert whole[1..] == s;
    }
  }
}
