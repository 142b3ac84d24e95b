/** What containment achieves, whatever the document and whatever the catalogue says. */
module Acceptance {
  import opened Documents
  import opened Inspection
  import opened KeySpelling
  import opened Containment

  ghost predicate HasError(judge: Judge, components: map<string, Component>, key: string) {
    exists f :: f in FindingsAt(judge, components, key) && f.error
  }

  predicate ErrorFree(fs: Findings) {
    forall f | f in fs :: !f.error
  }

  lemma FailingExactly(judge: Judge, b: Document, key: string)
    requires Named(judge)
    requires key in b.components && key != ""
    ensures key in FailingComponents(Inspect(judge, b)) <==> HasError(judge, b.components, key)
  {
    var fs := Inspect(judge, b);
    if key in FailingComponents(fs) {
      var f :| f in fs && f.error && f.component == key;
      var k :| f in FindingsAt(judge, b.components, k);
      ComponentFindingsName(judge, k, b.components[k], Taken(judge, b.components, k), f);
    }
    if f :| f in FindingsAt(judge, b.components, key) && f.error {
      ComponentFindingsName(judge, key, b.components[key], Taken(judge, b.components, key), f);
      assert f in fs;
    }
  }

  lemma DocumentErrorsExactly(judge: Judge, b: Document)
    requires Named(judge)
    ensures DocumentErrors(Inspect(judge, b)) == {} <==>
              ErrorFree(FrameFindings(b)) && !HasError(judge, b.components, "")
  {
    var fs := Inspect(judge, b);
    if f :| f in FrameFindings(b) && f.error {
      assert f in DocumentErrors(fs);
    }
    if f :| f in FindingsAt(judge, b.components, "") && f.error {
      ComponentFindingsName(judge, "", b.components[""], Taken(judge, b.components, ""), f);
      assert f in fs;
      assert f in DocumentErrors(fs);
    }
    if f :| f in DocumentErrors(fs) && f !in FrameFindings(b) {
      var k :| f in FindingsAt(judge, b.components, k);
      ComponentFindingsName(judge, k, b.components[k], Taken(judge, b.components, k), f);
    }
  }

  lemma ErrorFreeExactly(judge: Judge, b: Document)
    ensures ErrorFree(Inspect(judge, b)) <==>
              ErrorFree(FrameFindings(b)) && forall k | k in b.components :: !HasError(judge, b.components, k)
  {
    var fs := Inspect(judge, b);
    if f :| f in fs && f.error && f !in FrameFindings(b) {
      var k :| f in FindingsAt(judge, b.components, k);
      assert HasError(judge, b.components, k);
    }
    if ErrorFree(fs) {
      forall k | k in b.components ensures !HasError(judge, b.components, k) {
        assert forall f | f in FindingsAt(judge, b.components, k) :: f in fs;
      }
      assert forall f | f in FrameFindings(b) :: f in fs;
    }
  }

  // ------------------------------------------------------ nothing is lost

  /** Every key of the input is published or newly withheld, never both; withheld entries are as rendered. */
  lemma KeysConserved(judge: Judge, strip: bool, rebuilds: Body -> bool, b: Document, key: string)
    ensures var out := Contain(judge, strip, rebuilds, b);
            && (key in b.components ==>
                 (key in out.components <==> !(key in out.withheld && key in FailingComponents(Inspect(judge, b)))))
            && (key in out.components ==> key in b.components)
            && (key in out.withheld <==> key in b.withheld || (key in b.components && key !in out.components))
            && (key in b.components && key !in out.components ==> out.withheld[key] == b.components[key])
            && out.tombstones == b.tombstones
  {
  }

  // -------------------------------------------------- one entity, one entry

  /** Identities agree wherever the smaller set of components still has the key. */
  predicate SameIdentities(judge: Judge, some: map<string, Component>, all: map<string, Component>) {
    forall k | k in some :: k in all && Identity(judge, some[k]) == Identity(judge, all[k])
  }

  lemma TakenShrinks(judge: Judge, some: map<string, Component>, all: map<string, Component>, key: string)
    requires SameIdentities(judge, some, all) && key in some
    ensures Taken(judge, some, key) ==> Taken(judge, all, key)
  {
  }

  /** Two entries that Home Assistant registers are never one entity. */
  predicate DistinctIdentities(judge: Judge, components: map<string, Component>) {
    forall j, k | j in components && k in components && j != k && Identity(judge, components[j]).Some? ::
      Identity(judge, components[j]) != Identity(judge, components[k])
  }

  lemma TakenIsError(judge: Judge, components: map<string, Component>, key: string)
    requires key in components && Taken(judge, components, key)
    ensures HasError(judge, components, key)
  {
    var f := CompError(KindUniqueIDDuplicate, key, [Plain(UNIQUE_ID)]);
    assert f in FindingsAt(judge, components, key) && f.error;
  }

  // ----------------------------------------------------- without stripping

  lemma UnstrippedFindings(judge: Judge, strip: bool, rebuilds: Body -> bool, b: Document, key: string)
    requires !strip
    requires key in Contain(judge, strip, rebuilds, b).components
    ensures var out := Contain(judge, strip, rebuilds, b);
            && out.components[key] == b.components[key]
            && FindingsAt(judge, out.components, key) <= FindingsAt(judge, b.components, key)
  {
    var out := Contain(judge, strip, rebuilds, b);
    assert SameIdentities(judge, out.components, b.components);
    TakenShrinks(judge, out.components, b.components, key);
    FewerWhenFree(judge, key, b.components[key]);
  }

  /** Being taken only adds a finding. */
  lemma FewerWhenFree(judge: Judge, key: string, c: Component)
    ensures ComponentFindings(judge, key, c, false) <= ComponentFindings(judge, key, c, true)
  {
  }

  /** The first key has nothing before it. */
  lemma FirstIsFree(judge: Judge, components: map<string, Component>)
    requires "" in components
    ensures !Taken(judge, components, "")
  {
  }

  /** With stripping off, the contained document has no error exactly when no error was the document's own. */
  lemma AcceptableUnstripped(judge: Judge, strip: bool, rebuilds: Body -> bool, b: Document)
    requires Named(judge)
    requires !strip
    ensures ErrorFree(Inspect(judge, Contain(judge, strip, rebuilds, b))) <==>
              DocumentErrors(Inspect(judge, b)) == {}
  {
    var out := Contain(judge, strip, rebuilds, b);
    ErrorFreeExactly(judge, out);
    DocumentErrorsExactly(judge, b);
    forall k | k in out.components && k != "" ensures !HasError(judge, out.components, k) {
      UnstrippedFindings(judge, strip, rebuilds, b, k);
      FailingExactly(judge, b, k);
    }
    if "" in out.components {
      UnstrippedFindings(judge, strip, rebuilds, b, "");
      FirstIsFree(judge, out.components);
      FirstIsFree(judge, b.components);
    }
    FrameErrorsKept(b, out);
  }

  /** The contained document keeps some component, unless there was none to keep. */
  predicate KeepsSome(out: Document) {
    out.components != map[] || out.withheld == map[]
  }

  /** Publishable, in Home Assistant's terms, with stripping off: the contained document has no error, and
      containment did not empty it. */
  lemma PublishableUnstripped(judge: Judge, strip: bool, rebuilds: Body -> bool, b: Document)
    requires Named(judge)
    requires !strip
    ensures var out := Contain(judge, strip, rebuilds, b);
            Publishable(Inspect(judge, b), out) <==> ErrorFree(Inspect(judge, out)) && KeepsSome(out)
  {
    AcceptableUnstripped(judge, strip, rebuilds, b);
  }

  lemma FrameErrorsKept(b: Document, out: Document)
    requires out == b.(components := out.components, withheld := out.withheld)
    ensures ErrorFree(FrameFindings(b)) <==> ErrorFree(FrameFindings(out))
  {
    forall f: Finding | f.error ensures f in FrameFindings(b) <==> f in FrameFindings(out) {
    }
  }

  lemma DistinctUnstripped(judge: Judge, strip: bool, rebuilds: Body -> bool, b: Document)
    requires Named(judge)
    requires !strip
    ensures DistinctIdentities(judge, Contain(judge, strip, rebuilds, b).components)
  {
    var out := Contain(judge, strip, rebuilds, b);
    forall k | k in out.components ensures out.components[k] == b.components[k] {
      UnstrippedFindings(judge, strip, rebuilds, b, k);
    }
    assert SameIdentities(judge, out.components, b.components);
    DistinctWhere(judge, strip, rebuilds, b);
  }

  lemma DistinctWhere(judge: Judge, strip: bool, rebuilds: Body -> bool, b: Document)
    requires Named(judge)
    requires SameIdentities(judge, Contain(judge, strip, rebuilds, b).components, b.components)
    ensures DistinctIdentities(judge, Contain(judge, strip, rebuilds, b).components)
  {
    var out := Contain(judge, strip, rebuilds, b);
    forall j, k | j in out.components && k in out.components && Less(j, k) && Identity(judge, out.components[j]).Some?
      ensures Identity(judge, out.components[j]) != Identity(judge, out.components[k]) {
      if Identity(judge, out.components[j]) == Identity(judge, out.components[k]) {
        assert Taken(judge, b.components, k);
        TakenIsError(judge, b.components, k);
        FailingExactly(judge, b, k);
      }
    }
    forall j, k | j in out.components && k in out.components && j != k && Identity(judge, out.components[j]).Some?
      ensures Identity(judge, out.components[j]) != Identity(judge, out.components[k]) {
      LessIsTotal(j, k);
    }
  }

  /** A second pass with stripping off changes nothing, whatever the first found. */
  lemma SecondPassUnstripped(judge: Judge, strip: bool, rebuilds: Body -> bool, b: Document)
    requires Named(judge)
    requires !strip
    ensures Contain(judge, strip, rebuilds, Contain(judge, strip, rebuilds, b)) == Contain(judge, strip, rebuilds, b)
  {
    var out := Contain(judge, strip, rebuilds, b);
    forall k | k in out.components ensures k !in FailingComponents(Inspect(judge, out)) {
      if k != "" {
        UnstrippedFindings(judge, strip, rebuilds, b, k);
        FailingExactly(judge, b, k);
        FailingExactly(judge, out, k);
      }
    }
    NothingFails(judge, strip, rebuilds, out);
  }

  lemma NothingFails(judge: Judge, strip: bool, rebuilds: Body -> bool, out: Document)
    requires forall k | k in out.components :: k !in FailingComponents(Inspect(judge, out))
    requires forall k | k in out.components ::
               Kept(Inspect(judge, out), strip, rebuilds, k, out.components[k]) == out.components[k]
    ensures Contain(judge, strip, rebuilds, out) == out
  {
    var again := Contain(judge, strip, rebuilds, out);
    assert again.components == out.components;
    assert again.withheld == out.withheld;
  }


  // -------------------------------------------------------- with stripping

  /** A judge, the keys its strippable findings name in a body, and the bodies that stripping gives an error. */
  datatype Rules = Rules(judge: Judge, strips: Body -> set<Key>, spoils: Body -> bool)

  function Left(r: Rules, body: Body): Body {
    StripBody(body, Reads(r.strips(body)))
  }

  /** A body that reaches the key checks. */
  predicate Checked(judge: Judge, body: Body) {
    Judged(judge, body) && (StrAt(body, UNIQUE_ID) != "" || StrAt(body, PLATFORM) in NON_ENTITY)
  }

  ghost predicate Offers(judge: Judge, key: string, body: Body, k: Key) {
    exists f :: f in judge.check(key, body) && f.strippable && f.component == key && f.keys == [k]
  }

  /** Strippable findings name one key each, and exactly the keys of `strips`. */
  ghost predicate NamesStrips(r: Rules) {
    && (forall key, body, f | f in r.judge.check(key, body) && f.strippable :: |f.keys| == 1 && f.keys[0] in r.strips(body))
    && (forall key, body, k | k in r.strips(body) :: Offers(r.judge, key, body, k))
  }

  /** Stripping keeps a body's platform and identity, and stripping again takes nothing more. */
  ghost predicate KeepsIdentity(r: Rules) {
    forall body | Checked(r.judge, body) ::
      && StrAt(Left(r, body), PLATFORM) == StrAt(body, PLATFORM)
      && StrAt(Left(r, body), UNIQUE_ID) == StrAt(body, UNIQUE_ID)
      && Left(r, Left(r, body)) == Left(r, body)
  }

  /** Stripping adds an error to exactly the bodies it spoils, and makes no removal marker of them. */
  ghost predicate Sober(r: Rules) {
    && (forall key, body | Checked(r.judge, body) :: r.spoils(body) <==> GainsError(r, key, body))
    && (forall body | Checked(r.judge, body) && r.spoils(body) :: !IsRemoval(Left(r, body)))
  }

  ghost predicate GainsError(r: Rules, key: string, body: Body) {
    exists f :: f in r.judge.check(key, Left(r, body)) && f.error && f !in r.judge.check(key, body)
  }

  ghost predicate Keeps(r: Rules) {
    Named(r.judge) && NamesStrips(r) && KeepsIdentity(r)
  }

  ghost predicate Lawful(r: Rules) {
    Keeps(r) && Sober(r)
  }

  function Strips(r: Rules, c: Component): set<Key> {
    if c.encoding.Encoded? && Checked(r.judge, c.encoding.body) then r.strips(c.encoding.body) else {}
  }

  /** The keys stripped from a component depend on that component alone. */
  lemma StripKeysExactly(r: Rules, b: Document, key: string)
    requires Named(r.judge) && NamesStrips(r)
    requires key in b.components && key != ""
    ensures StripKeys(Inspect(r.judge, b), key) == Strips(r, b.components[key])
  {
    forall k ensures k in StripKeys(Inspect(r.judge, b), key) <==> k in Strips(r, b.components[key]) {
      if k in StripKeys(Inspect(r.judge, b), key) {
        NamedIsStripped(r, b, key, k);
      }
      if k in Strips(r, b.components[key]) {
        StrippedIsNamed(r, b, key, k);
      }
    }
  }

  lemma NamedIsStripped(r: Rules, b: Document, key: string, k: Key)
    requires Named(r.judge) && NamesStrips(r)
    requires key in b.components && key != "" && k in StripKeys(Inspect(r.judge, b), key)
    ensures k in Strips(r, b.components[key])
  {
    var f :| f in Inspect(r.judge, b) && f.strippable && f.component == key && k in f.keys;
    FoundUnder(r.judge, b, key, f);
    FoundIsStripped(r, key, b.components[key], Taken(r.judge, b.components, key), f, k);
  }

  lemma FoundUnder(judge: Judge, b: Document, key: string, f: Finding)
    requires Named(judge) && f in Inspect(judge, b) && f.component == key && key != ""
    ensures f in FindingsAt(judge, b.components, key)
  {
    var at :| f in FindingsAt(judge, b.components, at);
    ComponentFindingsName(judge, at, b.components[at], Taken(judge, b.components, at), f);
  }

  lemma FoundIsStripped(r: Rules, key: string, c: Component, taken: bool, f: Finding, k: Key)
    requires NamesStrips(r) && f in ComponentFindings(r.judge, key, c, taken) && f.strippable && k in f.keys
    ensures k in Strips(r, c)
  {
    assert f in r.judge.check(key, c.encoding.body);
    assert f.keys == [f.keys[0]];
  }

  lemma StrippedIsNamed(r: Rules, b: Document, key: string, k: Key)
    requires NamesStrips(r) && key in b.components && k in Strips(r, b.components[key])
    ensures k in StripKeys(Inspect(r.judge, b), key)
  {
    var c := b.components[key];
    assert Offers(r.judge, key, c.encoding.body, k);
    var f :| f in r.judge.check(key, c.encoding.body) && f.strippable && f.component == key && f.keys == [k];
    assert f in FindingsAt(r.judge, b.components, key);
    assert f in Inspect(r.judge, b) && k in f.keys;
  }

  /** This component is published with keys taken out. */
  predicate Stripped(r: Rules, rebuilds: Body -> bool, c: Component) {
    && c.encoding.Encoded? && Checked(r.judge, c.encoding.body)
    && Left(r, c.encoding.body) != c.encoding.body && rebuilds(Left(r, c.encoding.body))
  }

  lemma KeptExactly(r: Rules, rebuilds: Body -> bool, b: Document, key: string)
    requires Named(r.judge) && NamesStrips(r) && key in b.components
    ensures var c := b.components[key];
            var kept := Kept(Inspect(r.judge, b), true, rebuilds, key, c);
            if key != "" && Stripped(r, rebuilds, c) then
              var left := Left(r, c.encoding.body);
              kept == Component(StrAt(left, PLATFORM), StrAt(left, UNIQUE_ID), Encoded(left))
            else kept == c
  {
    if key != "" {
      StripKeysExactly(r, b, key);
      KeptOne(r, rebuilds, b.components[key]);
    }
  }

  lemma KeptOne(r: Rules, rebuilds: Body -> bool, c: Component)
    ensures StripComponent(c, Strips(r, c), rebuilds) ==
              if Stripped(r, rebuilds, c) then
                var left := Left(r, c.encoding.body);
                Component(StrAt(left, PLATFORM), StrAt(left, UNIQUE_ID), Encoded(left))
              else c
  {
    if c.encoding.Encoded? && !Checked(r.judge, c.encoding.body) {
      assert Reads({}) == {};
      StripNothing(c.encoding.body);
    }
  }

  /** What has an identity still reaches the key checks once stripped. */
  lemma StrippedIsChecked(r: Rules, body: Body)
    requires KeepsIdentity(r) && Checked(r.judge, body) && StrAt(body, UNIQUE_ID) != ""
    ensures Checked(r.judge, Left(r, body))
  {
    assert UNIQUE_ID in Left(r, body) && UNIQUE_ID != PLATFORM;
  }

  lemma StrippedIdentity(r: Rules, rebuilds: Body -> bool, b: Document)
    requires Keeps(r)
    ensures SameIdentities(r.judge, Contain(r.judge, true, rebuilds, b).components, b.components)
  {
    var out := Contain(r.judge, true, rebuilds, b);
    forall k | k in out.components ensures Identity(r.judge, out.components[k]) == Identity(r.judge, b.components[k]) {
      KeptExactly(r, rebuilds, b, k);
      var c := b.components[k];
      if k != "" && Stripped(r, rebuilds, c) && StrAt(c.encoding.body, UNIQUE_ID) != "" {
        StrippedIsChecked(r, c.encoding.body);
      }
    }
  }

  /** Distinct entities stay distinct entries under both settings. */
  lemma Distinct(r: Rules, strip: bool, rebuilds: Body -> bool, b: Document)
    requires Keeps(r)
    ensures DistinctIdentities(r.judge, Contain(r.judge, strip, rebuilds, b).components)
  {
    if strip {
      StrippedIdentity(r, rebuilds, b);
      DistinctWhere(r.judge, strip, rebuilds, b);
    } else {
      DistinctUnstripped(r.judge, strip, rebuilds, b);
    }
  }

  /** A published entry is a removal marker exactly when it was rendered as one, or stripping took every key
      but its platform; and that happens only to an entry with no identity, on a platform that needs none. */
  lemma TombstonesExactly(r: Rules, strip: bool, rebuilds: Body -> bool, b: Document, key: string)
    requires Keeps(r)
    requires key in Contain(r.judge, strip, rebuilds, b).components
    ensures var c := b.components[key];
            var emptied := strip && key != "" && Stripped(r, rebuilds, c) && IsRemoval(Left(r, c.encoding.body));
            && (IsTombstone(Contain(r.judge, strip, rebuilds, b).components[key]) <==> IsTombstone(c) || emptied)
            && (emptied ==> StrAt(c.encoding.body, UNIQUE_ID) == "" && StrAt(c.encoding.body, PLATFORM) in NON_ENTITY)
  {
    var c := b.components[key];
    if strip {
      KeptExactly(r, rebuilds, b, key);
    }
    if strip && key != "" && Stripped(r, rebuilds, c) && IsRemoval(Left(r, c.encoding.body)) {
      EmptiedHadNoIdentity(r, c.encoding.body);
    }
  }

  lemma EmptiedHadNoIdentity(r: Rules, body: Body)
    requires KeepsIdentity(r) && Checked(r.judge, body) && IsRemoval(Left(r, body))
    ensures StrAt(body, UNIQUE_ID) == "" && StrAt(body, PLATFORM) in NON_ENTITY
  {
    assert UNIQUE_ID in Left(r, body) ==> UNIQUE_ID == PLATFORM;
    assert UNIQUE_ID != PLATFORM;
  }

  /** This component is published with an error that stripping gave it. */
  predicate Spoilt(r: Rules, rebuilds: Body -> bool, key: string, c: Component) {
    key != "" && Stripped(r, rebuilds, c) && r.spoils(c.encoding.body)
  }

  lemma SurvivorErrors(r: Rules, rebuilds: Body -> bool, b: Document, key: string, f: Finding)
    requires Lawful(r)
    requires key != "" && key in Contain(r.judge, true, rebuilds, b).components
    requires f in FindingsAt(r.judge, Contain(r.judge, true, rebuilds, b).components, key) && f.error
    ensures Spoilt(r, rebuilds, key, b.components[key])
  {
    var out, c := Contain(r.judge, true, rebuilds, b), b.components[key];
    FailingExactly(r.judge, b, key);
    StrippedIdentity(r, rebuilds, b);
    TakenShrinks(r.judge, out.components, b.components, key);
    if Taken(r.judge, b.components, key) {
      TakenIsError(r.judge, b.components, key);
    }
    KeptExactly(r, rebuilds, b, key);
    SurvivorIsStripped(r, rebuilds, key, c, out.components[key], f);
  }

  lemma SurvivorIsStripped(r: Rules, rebuilds: Body -> bool, key: string, c: Component, kept: Component, f: Finding)
    requires Lawful(r) && key != ""
    requires forall e | e in ComponentFindings(r.judge, key, c, false) :: !e.error
    requires f in ComponentFindings(r.judge, key, kept, false) && f.error
    requires if Stripped(r, rebuilds, c) then kept.encoding == Encoded(Left(r, c.encoding.body)) else kept == c
    ensures Spoilt(r, rebuilds, key, c)
  {
    var body := c.encoding.body;
    assert Stripped(r, rebuilds, c);
    assert Checked(r.judge, body);
    assert StrAt(Left(r, body), PLATFORM) == StrAt(body, PLATFORM) && StrAt(Left(r, body), UNIQUE_ID) == StrAt(body, UNIQUE_ID);
    assert f in r.judge.check(key, Left(r, body)) && f !in r.judge.check(key, body);
    assert GainsError(r, key, body);
  }

  lemma SpoiltHasError(r: Rules, rebuilds: Body -> bool, b: Document, key: string)
    requires Lawful(r)
    requires key in Contain(r.judge, true, rebuilds, b).components && Spoilt(r, rebuilds, key, b.components[key])
    ensures HasError(r.judge, Contain(r.judge, true, rebuilds, b).components, key)
  {
    var out, body := Contain(r.judge, true, rebuilds, b), b.components[key].encoding.body;
    KeptExactly(r, rebuilds, b, key);
    assert Checked(r.judge, Left(r, body));
    assert GainsError(r, key, body);
    var f :| f in r.judge.check(key, Left(r, body)) && f.error && f !in r.judge.check(key, body);
    assert f in FindingsAt(r.judge, out.components, key);
  }

  /** With stripping on, the contained document has no error exactly when no error was the document's own
      and stripping spoilt no published component. */
  lemma AcceptableStripped(r: Rules, rebuilds: Body -> bool, b: Document)
    requires Lawful(r)
    ensures var out := Contain(r.judge, true, rebuilds, b);
            ErrorFree(Inspect(r.judge, out)) <==>
              (DocumentErrors(Inspect(r.judge, b)) == {}
               && forall k | k in out.components :: !Spoilt(r, rebuilds, k, b.components[k]))
  {
    var out := Contain(r.judge, true, rebuilds, b);
    ErrorFreeExactly(r.judge, out);
    DocumentErrorsExactly(r.judge, b);
    FrameErrorsKept(b, out);
    forall k | k in out.components && k != ""
      ensures HasError(r.judge, out.components, k) <==> Spoilt(r, rebuilds, k, b.components[k]) {
      ErrorsExactly(r, rebuilds, b, k);
    }
    if "" in out.components {
      FirstKeyErrors(r, rebuilds, b);
    }
  }

  /** Publishable with stripping on: the contained document may still have errors, in exactly the components
      that stripping spoilt. */
  lemma PublishableStripped(r: Rules, rebuilds: Body -> bool, b: Document)
    requires Lawful(r)
    ensures var out := Contain(r.judge, true, rebuilds, b);
            && (Publishable(Inspect(r.judge, b), out) && (forall k | k in out.components :: !Spoilt(r, rebuilds, k, b.components[k]))
                <==> ErrorFree(Inspect(r.judge, out)) && KeepsSome(out))
            && (Publishable(Inspect(r.judge, b), out) ==>
                  forall k | k in out.components :: HasError(r.judge, out.components, k) <==> Spoilt(r, rebuilds, k, b.components[k]))
  {
    AcceptableStripped(r, rebuilds, b);
    var out := Contain(r.judge, true, rebuilds, b);
    DocumentErrorsExactly(r.judge, b);
    forall k | k in out.components && Publishable(Inspect(r.judge, b), out)
      ensures HasError(r.judge, out.components, k) <==> Spoilt(r, rebuilds, k, b.components[k]) {
      if k == "" {
        FirstKeyErrors(r, rebuilds, b);
      } else {
        ErrorsExactly(r, rebuilds, b, k);
      }
    }
  }

  lemma ErrorsExactly(r: Rules, rebuilds: Body -> bool, b: Document, k: string)
    requires Lawful(r) && k != "" && k in Contain(r.judge, true, rebuilds, b).components
    ensures HasError(r.judge, Contain(r.judge, true, rebuilds, b).components, k) <==> Spoilt(r, rebuilds, k, b.components[k])
  {
    var out := Contain(r.judge, true, rebuilds, b);
    if f :| f in FindingsAt(r.judge, out.components, k) && f.error {
      SurvivorErrors(r, rebuilds, b, k, f);
    }
    if Spoilt(r, rebuilds, k, b.components[k]) {
      SpoiltHasError(r, rebuilds, b, k);
    }
  }

  lemma FirstKeyErrors(r: Rules, rebuilds: Body -> bool, b: Document)
    requires Lawful(r) && "" in Contain(r.judge, true, rebuilds, b).components
    ensures var out := Contain(r.judge, true, rebuilds, b);
            HasError(r.judge, out.components, "") <==> HasError(r.judge, b.components, "")
  {
    KeptExactly(r, rebuilds, b, "");
    FirstIsFree(r.judge, Contain(r.judge, true, rebuilds, b).components);
    FirstIsFree(r.judge, b.components);
  }

  /** A second pass with stripping on changes nothing if and only if the first spoilt no component: what it
      spoilt the second withholds. */
  lemma SecondPassStripped(r: Rules, rebuilds: Body -> bool, b: Document)
    requires Lawful(r)
    ensures var out := Contain(r.judge, true, rebuilds, b);
            Contain(r.judge, true, rebuilds, out) == out <==>
              forall k | k in out.components :: !Spoilt(r, rebuilds, k, b.components[k])
  {
    var out := Contain(r.judge, true, rebuilds, b);
    if k :| k in out.components && Spoilt(r, rebuilds, k, b.components[k]) {
      SpoiltIsWithheld(r, rebuilds, b, k);
    } else {
      SecondPassSettled(r, rebuilds, b);
    }
  }

  lemma SpoiltIsWithheld(r: Rules, rebuilds: Body -> bool, b: Document, key: string)
    requires Lawful(r)
    requires key in Contain(r.judge, true, rebuilds, b).components && Spoilt(r, rebuilds, key, b.components[key])
    ensures var out := Contain(r.judge, true, rebuilds, b);
            var again := Contain(r.judge, true, rebuilds, out);
            key !in again.components && key in again.withheld && again.withheld[key] == out.components[key]
  {
    SpoiltHasError(r, rebuilds, b, key);
    FailingExactly(r.judge, Contain(r.judge, true, rebuilds, b), key);
  }

  lemma SecondPassSettled(r: Rules, rebuilds: Body -> bool, b: Document)
    requires Lawful(r)
    requires forall k | k in Contain(r.judge, true, rebuilds, b).components :: !Spoilt(r, rebuilds, k, b.components[k])
    ensures Contain(r.judge, true, rebuilds, Contain(r.judge, true, rebuilds, b)) == Contain(r.judge, true, rebuilds, b)
  {
    var out := Contain(r.judge, true, rebuilds, b);
    forall k | k in out.components
      ensures k !in FailingComponents(Inspect(r.judge, out))
      ensures Kept(Inspect(r.judge, out), true, rebuilds, k, out.components[k]) == out.components[k] {
      KeptExactly(r, rebuilds, b, k);
      KeptExactly(r, rebuilds, out, k);
      if k != "" {
        FailingExactly(r.judge, out, k);
        if f :| f in FindingsAt(r.judge, out.components, k) && f.error {
          SurvivorErrors(r, rebuilds, b, k, f);
        }
      }
    }
    NothingFails(r.judge, true, rebuilds, out);
  }
}
