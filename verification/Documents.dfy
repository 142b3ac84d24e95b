/** Device documents as values: bodies, components, bundles, and the order their keys are read in. */
module Documents {
  /** A decoded JSON value. */
  datatype Value = Str(s: string) | Num(x: real) | Bool(b: bool) | Null
                 | List(items: seq<Value>) | Obj(fields: map<string, Value>)

  type Body = map<string, Value>

  /** What a component encodes to: an object, or nothing because of a value JSON cannot carry. */
  datatype Encoding = Encoded(body: Body) | NonFinite(names: seq<string>) | Unencodable

  datatype Component = Component(platform: string, uniqueID: string, encoding: Encoding)

  const PLATFORM := "platform"
  const UNIQUE_ID := "unique_id"
  const AVAILABILITY := "availability"

  /** The entry that deletes a component: a platform and nothing else. */
  function Tombstone(platform: string): Component {
    Component(platform, "", Encoded(map[PLATFORM := Str(platform)]))
  }

  predicate IsRemoval(body: Body) {
    forall name | name in body :: name == PLATFORM
  }

  /** An entry Home Assistant reads as "delete this entity". */
  predicate IsTombstone(c: Component) {
    c.encoding.Encoded? && IsRemoval(c.encoding.body)
  }

  function StrAt(body: Body, key: string): string {
    if key in body && body[key].Str? then body[key].s else ""
  }

  datatype Document = Document(nodeID: string, identifiers: seq<string>, connections: seq<(string, string)>,
                               originName: string, components: map<string, Component>,
                               tombstones: map<string, Component>, withheld: map<string, Component>)

  // ------------------------------------------------------------ key order

  predicate Less(a: string, b: string) {
    b != [] && (a == [] || a[0] < b[0] || (a[0] == b[0] && Less(a[1..], b[1..])))
  }

  /** Exactly one of: before, equal, after. */
  lemma LessIsTotal(a: string, b: string)
    ensures !(Less(a, b) && Less(b, a)) && !Less(a, a)
    ensures a != b ==> Less(a, b) || Less(b, a)
  {
    if a != [] && b != [] {
      LessIsTotal(a[1..], b[1..]);
      assert a == [a[0]] + a[1..] && b == [b[0]] + b[1..];
    }
    if a != [] {
      LessIsTotal(a[1..], a[1..]);
    }
  }

  lemma LessIsTransitive(a: string, b: string, c: string)
    requires Less(a, b) && Less(b, c)
    ensures Less(a, c)
  {
    if a != [] && a[0] == b[0] && b[0] == c[0] {
      LessIsTransitive(a[1..], b[1..], c[1..]);
    }
  }

  /** The order is that of the first difference, and what runs out first comes first. */
  lemma {:induction false} LessIsLexicographic(p: string, x: char, a: string, y: char, b: string)
    requires x < y
    ensures Less(p + ([x] + a), p + ([y] + b)) && Less(p, p + ([x] + a))
  {
    if p != "" {
      assert (p + ([x] + a))[1..] == p[1..] + ([x] + a);
      assert (p + ([y] + b))[1..] == p[1..] + ([y] + b);
      LessIsLexicographic(p[1..], x, a, y, b);
    }
  }

  predicate Ascending(s: seq<string>) {
    forall i, j | 0 <= i < j < |s| :: Less(s[i], s[j])
  }

  /** `order` lists these keys, each once, in order. */
  ghost predicate Lists(order: seq<string>, keys: set<string>) {
    Ascending(order) && forall k :: k in keys <==> k in order
  }

  function Insert(s: seq<string>, x: string): seq<string> {
    if s == [] then [x]
    else if s[0] == x then s
    else if Less(x, s[0]) then [x] + s
    else [s[0]] + Insert(s[1..], x)
  }

  lemma {:induction false} InsertLists(s: seq<string>, x: string)
    requires Ascending(s)
    ensures Ascending(Insert(s, x))
    ensures forall k :: k in Insert(s, x) <==> k in s || k == x
  {
    if s != [] && s[0] != x {
      LessIsTotal(x, s[0]);
      assert s == [s[0]] + s[1..];
      if Less(x, s[0]) {
        forall j | 0 <= j < |s| ensures Less(x, s[j]) {
          if j > 0 { LessIsTransitive(x, s[0], s[j]); }
        }
      } else {
        InsertLists(s[1..], x);
        assert forall k | k in s[1..] :: Less(s[0], k);
        assert forall k | k in Insert(s[1..], x) :: Less(s[0], k);
      }
    }
  }

  /** Keys: the sorted key list of a map. */
  method SortedKeys(keys: set<string>) returns (order: seq<string>)
    ensures Lists(order, keys)
  {
    order := [];
    var left := keys;
    while left != {}
      invariant left <= keys && Lists(order, keys - left)
    {
      var k :| k in left;
      InsertLists(order, k);
      order := Insert(order, k);
      left := left - {k};
    }
  }
}
