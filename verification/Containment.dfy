/** Containment: the document Home Assistant would accept, by withholding what it would refuse. */
module Containment {
  import opened Documents
  import opened Inspection
  import opened KeySpelling
  import opened Bundles

  datatype Options = Options(ignore: set<string>, stripWarnings: bool)

  function FailingComponents(fs: Findings): set<string> {
    set f | f in fs && f.error && f.component != "" :: f.component
  }

  /** Errors no component can be withheld to cure. */
  function DocumentErrors(fs: Findings): Findings {
    set f | f in fs && f.error && f.component == ""
  }

  /** Publishable. */
  predicate Publishable(fs: Findings, out: Document) {
    DocumentErrors(fs) == {} && (out.components != map[] || out.withheld == map[])
  }

  /** The keys that the strippable findings name in one component. */
  function StripKeys(fs: Findings, component: string): set<Key> {
    set f, k | f in fs && f.strippable && f.component == component && k in f.keys :: k
  }

  function StripFields(fields: map<string, Value>, keys: set<Key>, i: nat): map<string, Value> {
    map n | n in fields && Entry(i, n) !in keys :: fields[n]
  }

  function StripEntry(v: Value, keys: set<Key>, i: nat): Value {
    if v.Obj? then Obj(StripFields(v.fields, keys, i)) else v
  }

  function StripEntries(v: Value, keys: set<Key>): Value {
    match v
    case List(items) => List(seq(|items|, i requires 0 <= i < |items| => StripEntry(items[i], keys, i)))
    case Obj(_) => StripEntry(v, keys, 0)
    case _ => v
  }

  /** A body without these keys. */
  function StripBody(body: Body, keys: set<Key>): Body {
    map n | n in body && Plain(n) !in keys :: if n == AVAILABILITY then StripEntries(body[n], keys) else body[n]
  }

  /** stripComponent: the keys are taken as they are spelled. `rebuilds` says whether a stripped body can be encoded again as it is. */
  function StripComponent(c: Component, keys: set<Key>, rebuilds: Body -> bool): Component {
    if !c.encoding.Encoded? then c
    else
      var left := StripBody(c.encoding.body, Reads(keys));
      if left == c.encoding.body || !rebuilds(left) then c
      else Component(StrAt(left, PLATFORM), StrAt(left, UNIQUE_ID), Encoded(left))
  }

  function Kept(fs: Findings, strip: bool, rebuilds: Body -> bool, key: string, c: Component): Component {
    if strip && key != "" then StripComponent(c, StripKeys(fs, key), rebuilds) else c
  }

  /** Contain, given the findings of its input. */
  function Contained(fs: Findings, strip: bool, rebuilds: Body -> bool, b: Document): Document {
    b.(components := map k | k in b.components && k !in FailingComponents(fs) :: Kept(fs, strip, rebuilds, k, b.components[k]),
       withheld := b.withheld + map k | k in b.components && k in FailingComponents(fs) :: b.components[k])
  }

  /** Contain. */
  function Contain(judge: Judge, strip: bool, rebuilds: Body -> bool, b: Document): Document {
    Contained(Inspect(judge, b), strip, rebuilds, b)
  }

  // ------------------------------------------------- the steps, in place

  lemma StripMore(body: Body, keys: set<Key>, more: set<Key>)
    ensures StripBody(StripBody(body, keys), more) == StripBody(body, keys + more)
  {
    var once, both := StripBody(body, keys), StripBody(body, keys + more);
    assert StripBody(once, more).Keys == both.Keys;
    if AVAILABILITY in both {
      EntriesMore(body[AVAILABILITY], keys, more);
    }
  }

  lemma EntriesMore(v: Value, keys: set<Key>, more: set<Key>)
    ensures StripEntries(StripEntries(v, keys), more) == StripEntries(v, keys + more)
  {
    match v
    case List(items) =>
      forall i | 0 <= i < |items|
        ensures StripEntry(StripEntry(items[i], keys, i), more, i) == StripEntry(items[i], keys + more, i) {
      }
    case Obj(_) =>
    case _ =>
  }

  lemma StripNothing(body: Body)
    ensures StripBody(body, {}) == body
  {
    if AVAILABILITY in body {
      EntriesNothing(body[AVAILABILITY]);
    }
    assert StripBody(body, {}).Keys == body.Keys;
  }

  lemma EntriesNothing(v: Value)
    ensures StripEntries(v, {}) == v
  {
    if v.Obj? {
      assert StripFields(v.fields, {}, 0) == v.fields;
    }
    if v.List? {
      forall i | 0 <= i < |v.items| ensures StripEntry(v.items[i], {}, i) == v.items[i] {
        if v.items[i].Obj? {
          assert StripFields(v.items[i].fields, {}, i) == v.items[i].fields;
        }
      }
      assert StripEntries(v, {}).items == v.items;
    }
  }

  /** What one spelled key takes out of a body. */
  function StripSpelled(body: Body, spelled: string): Body {
    match ReadKey(spelled)
    case Some(k) => StripBody(body, {k})
    case None => body
  }

  /** stripKey: deletes the key of the body, or of one entry of its availability list, that this spells. */
  method StripKey(body: Body, spelled: string) returns (left: Body, present: bool)
    ensures left == StripSpelled(body, spelled)
    ensures present <==> left != body
  {
    var key := ReadKey(spelled);
    if key.None? {
      return body, false;
    }
    left, present := StripRead(body, key.value);
  }

  method StripRead(body: Body, key: Key) returns (left: Body, present: bool)
    ensures left == StripBody(body, {key})
    ensures present <==> left != body
  {
    match key
    case Plain(name) =>
      present := name in body;
      left := body - {name};
      if AVAILABILITY in body {
        PlainLeavesEntries(body[AVAILABILITY], name);
      }
      assert left == StripBody(body, {key});
      if !present {
        assert left == body;
      }
    case Entry(i, name) =>
      left, present := StripEntryKey(body, i, name);
  }

  method StripEntryKey(body: Body, i: nat, name: string) returns (left: Body, present: bool)
    ensures left == StripBody(body, {Entry(i, name)})
    ensures present <==> left != body
  {
    left, present := body, false;
    if AVAILABILITY in body {
      var v := body[AVAILABILITY];
      EntryStripped(v, i, name);
      match v
      case List(items) =>
        if i < |items| && items[i].Obj? && name in items[i].fields {
          var smaller := Obj(items[i].fields - {name});
          left, present := body[AVAILABILITY := List(items[i := smaller])], true;
          assert name in items[i].fields && name !in smaller.fields;
          assert left[AVAILABILITY].items[i] != items[i];
        } else if i < |items| && items[i].Obj? {
          assert items[i].fields - {name} == items[i].fields;
        }
      case Obj(fields) =>
        if i == 0 && name in fields {
          left, present := body[AVAILABILITY := Obj(fields - {name})], true;
          assert name !in (fields - {name});
        } else if i == 0 {
          assert fields - {name} == fields;
        }
      case _ =>
      assert left[AVAILABILITY] == StripEntries(v, {Entry(i, name)});
    }
    var spec := StripBody(body, {Entry(i, name)});
    assert left.Keys == body.Keys == spec.Keys;
    assert forall n | n in body && n != AVAILABILITY :: left[n] == body[n] == spec[n];
    if AVAILABILITY in body {
      assert Plain(AVAILABILITY) !in {Entry(i, name)};
      assert spec[AVAILABILITY] == StripEntries(body[AVAILABILITY], {Entry(i, name)});
      assert left[AVAILABILITY] == spec[AVAILABILITY];
    }
    assert left == spec;
  }

  lemma PlainLeavesEntries(v: Value, name: string)
    ensures StripEntries(v, {Plain(name)}) == v
  {
    if v.Obj? {
      assert StripFields(v.fields, {Plain(name)}, 0) == v.fields;
    }
    if v.List? {
      forall i | 0 <= i < |v.items| ensures StripEntry(v.items[i], {Plain(name)}, i) == v.items[i] {
        if v.items[i].Obj? {
          assert StripFields(v.items[i].fields, {Plain(name)}, i) == v.items[i].fields;
        }
      }
    }
  }

  lemma EntryStripped(v: Value, i: nat, name: string)
    ensures StripEntries(v, {Entry(i, name)}) ==
              match v
              case List(items) => if i < |items| then List(items[i := StripEntry(items[i], {Entry(i, name)}, i)]) else v
              case Obj(fields) => if i == 0 then Obj(fields - {name}) else v
              case _ => v
    ensures v.List? && i < |v.items| && v.items[i].Obj? ==>
              StripEntry(v.items[i], {Entry(i, name)}, i) == Obj(v.items[i].fields - {name})
  {
    match v
    case List(items) =>
      forall j | 0 <= j < |items| && j != i ensures StripEntry(items[j], {Entry(i, name)}, j) == items[j] {
        if items[j].Obj? {
          assert StripFields(items[j].fields, {Entry(i, name)}, j) == items[j].fields;
        }
      }
      if i < |items| && items[i].Obj? {
        assert StripFields(items[i].fields, {Entry(i, name)}, i) == items[i].fields - {name};
      }
      assert i >= |items| ==> StripEntries(v, {Entry(i, name)}).items == items;
    case Obj(fields) =>
      assert StripFields(fields, {Entry(i, name)}, 0) == if i == 0 then fields - {name} else fields;
    case _ =>
  }

  function KeySet(keys: seq<Key>): set<Key> {
    set k | k in keys
  }

  method StripAll(body: Body, keys: seq<Key>) returns (left: Body, removed: seq<Key>)
    ensures left == StripBody(body, Reads(KeySet(keys)))
    ensures removed == [] <==> left == body
    ensures forall k | k in removed :: k in keys
  {
    left, removed := body, [];
    StripNothing(body);
    assert Reads(KeySet(keys[..0])) == {};
    for i := 0 to |keys|
      invariant left == StripBody(body, Reads(KeySet(keys[..i])))
      invariant removed == [] <==> left == body
      invariant forall k | k in removed :: k in keys[..i]
    {
      assert keys[..i + 1] == keys[..i] + [keys[i]];
      OneMoreRead(body, keys[..i], keys[i]);
      var present: bool;
      left, present := StripKey(left, Spell(keys[i]));
      if present {
        removed := removed + [keys[i]];
      }
    }
    assert keys[..|keys|] == keys;
  }

  lemma OneMoreRead(body: Body, keys: seq<Key>, key: Key)
    ensures var before, after := StripBody(body, Reads(KeySet(keys))), StripBody(body, Reads(KeySet(keys + [key])));
            after == StripSpelled(before, Spell(key)) && (before != body ==> after != body)
  {
    var read := ReadKey(Spell(key));
    assert KeySet(keys + [key]) == KeySet(keys) + {key};
    if read.None? {
      assert Reads(KeySet(keys) + {key}) == Reads(KeySet(keys));
    } else {
      assert Reads(KeySet(keys) + {key}) == Reads(KeySet(keys)) + {read.value};
      StripMore(body, Reads(KeySet(keys)), {read.value});
      StripGoesOn(body, Reads(KeySet(keys)), read.value);
    }
  }

  /** What was stripped once does not come back. */
  lemma StripGoesOn(body: Body, keys: set<Key>, key: Key)
    ensures StripBody(body, keys) != body ==> StripBody(body, keys + {key}) != body
  {
    var once, both := StripBody(body, keys), StripBody(body, keys + {key});
    if both == body {
      assert once.Keys == body.Keys;
      forall n | n in body ensures once[n] == body[n] {
        if n == AVAILABILITY {
          EntriesGoOn(body[n], keys, key);
        }
      }
      assert once == body;
    }
  }

  lemma EntriesGoOn(v: Value, keys: set<Key>, key: Key)
    requires StripEntries(v, keys + {key}) == v
    ensures StripEntries(v, keys) == v
  {
    match v
    case List(items) =>
      forall i | 0 <= i < |items| ensures StripEntry(items[i], keys, i) == items[i] {
        assert StripEntries(v, keys + {key}).items[i] == items[i];
      }
    case Obj(_) =>
    case _ =>
  }

  /** Contain, as it runs, on a copy: a method without a modifies clause leaves its input as it was. */
  method ContainBundle(t: Tables, opts: Options, rebuilds: Body -> bool, b: Bundle) returns (out: Bundle, fs: Findings)
    ensures fresh(out)
    ensures fs == Inspect(JudgeOf(t, opts.ignore), b.Now())
    ensures out.Now() == Contain(JudgeOf(t, opts.ignore), opts.stripWarnings, rebuilds, b.Now())
  {
    var now := Document(b.nodeID, b.identifiers, b.connections, b.originName, b.components, b.tombstones, b.withheld);
    fs := InspectDocument(JudgeOf(t, opts.ignore), now);
    var kept, taken := Withhold(now.components, FailingComponents(fs));
    if opts.stripWarnings {
      kept := StripEach(fs, rebuilds, kept);
    }
    assert kept == Contained(fs, opts.stripWarnings, rebuilds, now).components;
    out := new Bundle(now.(components := kept, withheld := now.withheld + taken));
  }

  method Withhold(components: map<string, Component>, failing: set<string>)
    returns (kept: map<string, Component>, taken: map<string, Component>)
    ensures kept == map k | k in components && k !in failing :: components[k]
    ensures taken == map k | k in components && k in failing :: components[k]
  {
    kept, taken := components, map[];
    var left := failing;
    while left != {}
      invariant left <= failing
      invariant kept == map k | k in components && (k in failing ==> k in left) :: components[k]
      invariant taken == map k | k in components && k in failing && k !in left :: components[k]
    {
      var key :| key in left;
      if key in kept {
        taken := taken[key := kept[key]];
        kept := kept - {key};
      }
      left := left - {key};
    }
  }

  method StripEach(fs: Findings, rebuilds: Body -> bool, components: map<string, Component>)
    returns (out: map<string, Component>)
    ensures out == map k | k in components :: Kept(fs, true, rebuilds, k, components[k])
  {
    out := components;
    var left := components.Keys;
    while left != {}
      invariant left <= components.Keys
      invariant out == map k | k in components ::
        if k in left then components[k] else Kept(fs, true, rebuilds, k, components[k])
    {
      var key :| key in left;
      if key != "" {
        var stripped := StripOne(components[key], StripKeys(fs, key), rebuilds);
        out := out[key := stripped];
      }
      left := left - {key};
    }
  }

  method StripOne(c: Component, keys: set<Key>, rebuilds: Body -> bool) returns (out: Component)
    ensures out == StripComponent(c, keys, rebuilds)
  {
    if !c.encoding.Encoded? {
      return c;
    }
    var list: seq<Key> := [];
    var todo := keys;
    while todo != {}
      invariant todo <= keys && KeySet(list) == keys - todo
    {
      var k :| k in todo;
      assert KeySet(list + [k]) == KeySet(list) + {k};
      list, todo := list + [k], todo - {k};
    }
    assert KeySet(list) == keys;
    var left, removed := StripAll(c.encoding.body, list);
    if removed == [] || !rebuilds(left) {
      return c;
    }
    out := Component(StrAt(left, PLATFORM), StrAt(left, UNIQUE_ID), Encoded(left));
  }
}
