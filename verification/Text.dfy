/** Topic strings: splitting at `/`, joining with `/`, and the two directions between them. */
module Text {

  datatype Option<+T> = None | Some(value: T)

  /** A level of a topic or filter: no separator inside. */
  predicate Flat(p: string) {
    '/' !in p
  }

  predicate AllFlat(parts: seq<string>) {
    forall p | p in parts :: Flat(p)
  }

  /** Go's strings.Split(s, "/"): never empty, one level per separator plus one. */
  function Split(s: string): (parts: seq<string>)
    ensures |parts| >= 1 && AllFlat(parts)
  {
    if s == "" then [""]
    else
      var rest := Split(s[1..]);
      assert Flat(rest[0]) && AllFlat(rest[1..]);
      if s[0] == '/' then [""] + rest else [[s[0]] + rest[0]] + rest[1..]
  }

  /** Go's strings.Join(parts, "/"). */
  function Join(parts: seq<string>): string {
    if |parts| == 0 then ""
    else if |parts| == 1 then parts[0]
    else parts[0] + "/" + Join(parts[1..])
  }

  lemma {:induction false} JoinSplit(s: string)
    ensures Join(Split(s)) == s
  {
    if s != "" {
      JoinSplit(s[1..]);
      var rest := Split(s[1..]);
      if s[0] == '/' {
        assert ([""] + rest)[1..] == rest;
      } else {
        var parts := [[s[0]] + rest[0]] + rest[1..];
        assert parts[1..] == rest[1..];
      }
    }
  }

  lemma {:induction false} SplitFlat(p: string)
    requires Flat(p)
    ensures Split(p) == [p]
  {
    if p != "" {
      assert p[0] != '/' && Flat(p[1..]);
      SplitFlat(p[1..]);
      assert [p[0]] + p[1..] == p;
    }
  }

  /** Splitting a level followed by a separator peels exactly that level off. */
  lemma {:induction false} SplitCons(p: string, s: string)
    requires Flat(p)
    ensures Split(p + "/" + s) == [p] + Split(s)
  {
    var whole := p + "/" + s;
    if p == "" {
      assert whole[1..] == s;
    } else {
      assert Flat(p[1..]);
      SplitCons(p[1..], s);
      assert whole[1..] == p[1..] + "/" + s;
      assert [p[0]] + p[1..] == p;
    }
  }

  lemma {:induction false} SplitJoin(parts: seq<string>)
    requires |parts| >= 1 && AllFlat(parts)
    ensures Split(Join(parts)) == parts
  {
    if |parts| == 1 {
      SplitFlat(parts[0]);
    } else {
      SplitJoin(parts[1..]);
      SplitCons(parts[0], Join(parts[1..]));
    }
  }

  /** One more character in front: a new empty level, or a longer first one. */
  function Prepend(c: char, parts: seq<string>): seq<string>
    requires |parts| >= 1
  {
    if c == '/' then [""] + parts else [[c] + parts[0]] + parts[1..]
  }

  lemma PrependConcat(c: char, front: seq<string>, back: seq<string>)
    requires |front| >= 1
    ensures Prepend(c, front + back) == Prepend(c, front) + back
  {
    assert (front + back)[1..] == front[1..] + back;
  }

  /** Splitting a concatenation at a separator splits both halves. */
  lemma {:induction false} SplitConcat(a: string, b: string)
    ensures Split(a + "/" + b) == Split(a) + Split(b)
    decreases |a|
  {
    if a != "" {
      SplitConcat(a[1..], b);
      assert a == [a[0]] + a[1..];
      assert a + "/" + b == [a[0]] + (a[1..] + "/" + b);
      PrependConcat(a[0], Split(a[1..]), Split(b));
    }
  }

  /** Two strings with the same levels are the same string. */
  lemma SplitInjective(s: string, t: string)
    requires Split(s) == Split(t)
    ensures s == t
  {
    JoinSplit(s);
    JoinSplit(t);
  }

  /** Go's strings.Cut(s, "/"). */
  function Cut(s: string): (r: (string, string, bool))
    ensures !r.2 <==> Flat(s)
    ensures r.2 ==> s == r.0 + "/" + r.1 && Flat(r.0)
    ensures !r.2 ==> r.0 == s
  {
    if s == "" then ("", "", false)
    else if s[0] == '/' then ("", s[1..], true)
    else
      var rest := Cut(s[1..]);
      ([s[0]] + rest.0, rest.1, rest.2)
  }

  predicate HasSuffix(s: string, suffix: string) {
    |suffix| <= |s| && s[|s| - |suffix|..] == suffix
  }

  // --------------------------------------------------------- decimal numbers

  function Digits(n: nat): string {
    if n < 10 then [('0' as int + n) as char] else Digits(n / 10) + [('0' as int + n % 10) as char]
  }

  predicate IsDigit(c: char) {
    '0' <= c <= '9'
  }

  /** The number a run of digits stands for. */
  function Number(s: string): Option<nat> {
    if s == "" || !IsDigit(s[|s| - 1]) then None
    else
      var unit := s[|s| - 1] as int - '0' as int;
      if |s| == 1 then Some(unit)
      else
        match Number(s[..|s| - 1])
        case None => None
        case Some(n) => Some(10 * n + unit)
  }

  lemma {:induction false} DigitsAreDigits(n: nat)
    ensures Digits(n) != "" && forall c | c in Digits(n) :: IsDigit(c)
  {
    if n >= 10 {
      DigitsAreDigits(n / 10);
    }
  }

  lemma {:induction false} NumberOfDigits(n: nat)
    ensures Number(Digits(n)) == Some(n)
  {
    if n >= 10 {
      NumberOfDigits(n / 10);
      DigitsAreDigits(n / 10);
      assert Digits(n)[..|Digits(n)| - 1] == Digits(n / 10);
    }
  }
}
