/** How a finding spells the keys it names, and how stripping reads them back. */
module KeySpelling {
  import opened Text
  import opened Inspection

  const ENTRY_PREFIX := "availability["

  /** A key of the body is spelled as it is; one of an availability entry as `availability[<i>].<key>`. */
  function Spell(k: Key): string {
    match k
    case Plain(name) => name
    case Entry(i, name) => ENTRY_PREFIX + (Digits(i) + ("]." + name))
  }

  /** Go's strings.Cut(s, "]."), None when there is no such separator. */
  function CutBracket(s: string): Option<(string, string)> {
    if |s| < 2 then None
    else if s[0] == ']' && s[1] == '.' then Some(("", s[2..]))
    else
      match CutBracket(s[1..])
      case None => None
      case Some(r) => Some(([s[0]] + r.0, r.1))
  }

  /** Go's strconv.Atoi, for any magnitude: an index no list can have names no entry. */
  function Atoi(s: string): Option<int> {
    if s == "" then None
    else if s[0] == '-' then Signed(-1, Number(s[1..]))
    else if s[0] == '+' then Signed(1, Number(s[1..]))
    else Signed(1, Number(s))
  }

  function Signed(sign: int, n: Option<nat>): Option<int> {
    if n.None? then None else Some(sign * n.value)
  }

  /** What stripKey makes of a spelling; None names nothing. */
  function ReadKey(s: string): Option<Key> {
    if !(ENTRY_PREFIX <= s) then Some(Plain(s))
    else
      match CutBracket(s[|ENTRY_PREFIX|..])
      case None => None
      case Some(r) =>
        var i := Atoi(r.0);
        if i.None? || i.value < 0 then None else Some(Entry(i.value, r.1))
  }

  /** A key of the body that looks like one of an availability entry. */
  predicate Respelled(name: string) {
    ENTRY_PREFIX <= name
  }

  /** What stripping these keys really strips. */
  function Reads(keys: set<Key>): set<Key> {
    set k | k in keys && ReadKey(Spell(k)).Some? :: ReadKey(Spell(k)).value
  }

  // -------------------------------------------------------------- round trips

  predicate NoBracket(s: string) {
    ']' !in s
  }

  lemma {:induction false} CutAfter(p: string, rest: string)
    requires NoBracket(p)
    ensures CutBracket(p + ("]." + rest)) == Some((p, rest))
  {
    var s := p + ("]." + rest);
    if p == "" {
      assert s[2..] == rest;
    } else {
      assert NoBracket(p[1..]);
      CutAfter(p[1..], rest);
      assert s[1..] == p[1..] + ("]." + rest);
      assert [p[0]] + p[1..] == p;
    }
  }

  lemma AtoiOfDigits(n: nat)
    ensures Atoi(Digits(n)) == Some(n) && NoBracket(Digits(n))
  {
    NumberOfDigits(n);
    DigitsAreDigits(n);
    Unsigned(Digits(n));
  }

  lemma Unsigned(s: string)
    requires s != "" && forall c | c in s :: IsDigit(c)
    ensures Atoi(s) == Signed(1, Number(s)) && NoBracket(s)
  {
    assert IsDigit(s[0]);
  }

  lemma Behind(pre: string, rest: string)
    ensures pre <= pre + rest && (pre + rest)[|pre|..] == rest
  {
  }

  /** A nested key is read back as it was meant. */
  lemma EntryReadsBack(i: nat, name: string)
    ensures ReadKey(Spell(Entry(i, name))) == Some(Entry(i, name))
  {
    var rest := Digits(i) + ("]." + name);
    Behind(ENTRY_PREFIX, rest);
    AtoiOfDigits(i);
    CutAfter(Digits(i), name);
  }

  /** A top-level key is read back as itself unless it looks like a nested one; then it stays where it is,
      and the nested key it looks like, if any, is read instead. */
  lemma PlainReadsBack(name: string)
    ensures ReadKey(Spell(Plain(name))) == Some(Plain(name)) <==> !Respelled(name)
    ensures Respelled(name) ==> ReadKey(name).None? || ReadKey(name).value.Entry?
  {
  }

  lemma ReadsExactly(keys: set<Key>)
    ensures forall name :: Plain(name) in Reads(keys) <==> Plain(name) in keys && !Respelled(name)
    ensures forall i, name :: Entry(i, name) in Reads(keys) <==>
              Entry(i, name) in keys || exists n :: Plain(n) in keys && Respelled(n) && ReadKey(n) == Some(Entry(i, name))
  {
    forall name ensures Plain(name) in Reads(keys) <==> Plain(name) in keys && !Respelled(name) {
      PlainReadsBack(name);
      if Plain(name) in Reads(keys) {
        var k :| k in keys && ReadKey(Spell(k)) == Some(Plain(name));
        ReadPlain(k, name);
      }
    }
    forall i, name
      ensures Entry(i, name) in Reads(keys) <==>
                Entry(i, name) in keys || exists n :: Plain(n) in keys && Respelled(n) && ReadKey(n) == Some(Entry(i, name)) {
      EntryRead(keys, i, name);
    }
  }

  lemma ReadPlain(k: Key, name: string)
    requires ReadKey(Spell(k)) == Some(Plain(name))
    ensures k == Plain(name)
  {
    if k.Entry? {
      EntryReadsBack(k.index, k.name);
    }
  }

  lemma EntryRead(keys: set<Key>, i: nat, name: string)
    ensures Entry(i, name) in Reads(keys) <==>
              Entry(i, name) in keys || exists n :: Plain(n) in keys && Respelled(n) && ReadKey(n) == Some(Entry(i, name))
  {
    EntryReadsBack(i, name);
    if Entry(i, name) in Reads(keys) && Entry(i, name) !in keys {
      var k :| k in keys && ReadKey(Spell(k)) == Some(Entry(i, name));
      if k.Entry? {
        EntryReadsBack(k.index, k.name);
      }
      assert Plain(k.name) in keys && Respelled(k.name) && ReadKey(k.name) == Some(Entry(i, name));
    }
  }

  lemma SpelledTopic()
    ensures Spell(Entry(0, "topic")) == "availability[0].topic"
  {
    assert Digits(0) == "0";
  }
}
