/** Publish cycles: withholding a component never deletes it, and leaving the catalogue always does. */
module WithheldCycles {
  import opened Text
  import opened Documents
  import opened Inspection
  import opened Bundles
  import opened Containment
  import opened Acceptance
  import ConfigTopics

  /** One cycle: the document as rendered, the keys the caller's diff says are gone, and which of
      removing and containing it does first. */
  datatype Cycle = Cycle(doc: Document, gone: seq<string>, removeFirst: bool)

  function Ran(judge: Judge, strip: bool, rebuilds: Body -> bool, prev: map<string, Component>, c: Cycle): Document {
    if c.removeFirst then Contain(judge, strip, rebuilds, RemoveComponents(c.doc, prev, c.gone))
    else RemoveComponents(Contain(judge, strip, rebuilds, c.doc), prev, c.gone)
  }

  /** What the caller remembers after these cycles. */
  function Remembers(judge: Judge, strip: bool, rebuilds: Body -> bool, cycles: seq<Cycle>): map<string, Component>
    decreases |cycles|, 1
  {
    if cycles == [] then map[] else KeepSet(Published(judge, strip, rebuilds, cycles))
  }

  /** The document of the last cycle. */
  function Published(judge: Judge, strip: bool, rebuilds: Body -> bool, cycles: seq<Cycle>): Document
    requires cycles != []
    decreases |cycles|, 0
  {
    Ran(judge, strip, rebuilds, Remembers(judge, strip, rebuilds, cycles[..|cycles| - 1]), cycles[|cycles| - 1])
  }

  /** A new document, and a diff of what was remembered against it. A caller that contains first may
      diff against the contained document, where withheld keys are missing too. */
  predicate Proper(judge: Judge, strip: bool, rebuilds: Body -> bool, prev: map<string, Component>, c: Cycle) {
    && c.doc.tombstones == map[] && c.doc.withheld == map[]
    && (forall k | k in prev && k !in c.doc.components :: k in c.gone)
    && forall k | k in c.gone ::
         k !in if c.removeFirst then c.doc.components else Contain(judge, strip, rebuilds, c.doc).components
  }

  predicate ProperRun(judge: Judge, strip: bool, rebuilds: Body -> bool, cycles: seq<Cycle>) {
    cycles != [] ==>
      && ProperRun(judge, strip, rebuilds, cycles[..|cycles| - 1])
      && Proper(judge, strip, rebuilds, Remembers(judge, strip, rebuilds, cycles[..|cycles| - 1]), cycles[|cycles| - 1])
  }

  /** The typed fields say what the component encodes. */
  predicate Typed(c: Component) {
    c.encoding.Encoded? ==>
      StrAt(c.encoding.body, PLATFORM) == c.platform && StrAt(c.encoding.body, UNIQUE_ID) == c.uniqueID
  }

  // ------------------------------------------------- removal beside containment

  /** Removal leaves what the document renders alone, and entries for nothing it renders. */
  lemma RemovedBeside(doc: Document, was: map<string, Component>, gone: seq<string>)
    requires doc.withheld == map[]
    requires forall k | k in gone :: k !in doc.components
    ensures var after := RemoveComponents(doc, was, gone);
            && (forall k | k in doc.components :: k in after.components && after.components[k] == doc.components[k])
            && (forall k | k in after.components && k !in doc.components ::
                  k in gone && k in was && was[k].platform != "" && after.components[k] == Tombstone(was[k].platform))
            && after.withheld == map[]
  {
    var after := RemoveComponents(doc, was, gone);
    forall k
      ensures k in doc.components ==> k in after.components && after.components[k] == doc.components[k]
      ensures k in after.components && k !in doc.components ==>
                k in gone && k in was && was[k].platform != "" && after.components[k] == Tombstone(was[k].platform)
      ensures after.withheld == map[] {
      RemovalExactly(doc, was, gone, k);
    }
  }

  lemma TombstoneIsSilent(r: Rules, components: map<string, Component>, key: string, platform: string)
    requires key in components && components[key] == Tombstone(platform) && platform != ""
    ensures Identity(r.judge, components[key]).None? && Strips(r, components[key]) == {}
    ensures platform in r.judge.supported ==> FindingsAt(r.judge, components, key) == {}
  {
  }

  /** More components that register nothing change no finding about the others. */
  predicate AddsSilent(judge: Judge, few: map<string, Component>, many: map<string, Component>) {
    && (forall k | k in few :: k in many && many[k] == few[k])
    && (forall k | k in many && k !in few :: Identity(judge, many[k]).None?)
  }

  lemma SilentFailing(judge: Judge, few: Document, many: Document, key: string)
    requires Named(judge)
    requires AddsSilent(judge, few.components, many.components) && key in few.components
    ensures key in FailingComponents(Inspect(judge, many)) <==> key in FailingComponents(Inspect(judge, few))
  {
    if key != "" {
      FailingExactly(judge, few, key);
      FailingExactly(judge, many, key);
    }
  }

  lemma RemovedAddsSilent(judge: Judge, doc: Document, was: map<string, Component>, gone: seq<string>)
    requires doc.withheld == map[]
    requires forall k | k in gone :: k !in doc.components
    ensures AddsSilent(judge, doc.components, RemoveComponents(doc, was, gone).components)
  {
    RemovedBeside(doc, was, gone);
  }

  /** The same component is kept the same way in any document. */
  lemma KeptAlike(r: Rules, strip: bool, rebuilds: Body -> bool, a: Document, b: Document, key: string)
    requires Keeps(r)
    requires key in a.components && key in b.components && a.components[key] == b.components[key]
    ensures Kept(Inspect(r.judge, a), strip, rebuilds, key, a.components[key]) ==
            Kept(Inspect(r.judge, b), strip, rebuilds, key, b.components[key])
  {
    if strip {
      KeptExactly(r, rebuilds, a, key);
      KeptExactly(r, rebuilds, b, key);
    }
  }

  // ------------------------------------------------------------- one cycle

  /** A rendered key ends a cycle published as itself or withheld as rendered, whichever comes first. */
  lemma RenderedSurvives(r: Rules, strip: bool, rebuilds: Body -> bool, prev: map<string, Component>, c: Cycle, key: string)
    requires Keeps(r)
    requires Proper(r.judge, strip, rebuilds, prev, c) && key in c.doc.components
    ensures var out, alone := Ran(r.judge, strip, rebuilds, prev, c), Contain(r.judge, strip, rebuilds, c.doc);
            && (key in out.components <==> key in alone.components)
            && (key in alone.components ==> out.components[key] == alone.components[key])
            && (key in out.withheld <==> key !in out.components)
            && (key in out.withheld ==> out.withheld[key] == c.doc.components[key])
  {
    if c.removeFirst {
      var removed := RemoveComponents(c.doc, prev, c.gone);
      RemovedBeside(c.doc, prev, c.gone);
      RemovedAddsSilent(r.judge, c.doc, prev, c.gone);
      SilentFailing(r.judge, c.doc, removed, key);
      KeptAlike(r, strip, rebuilds, c.doc, removed, key);
    } else {
      RemovalExactly(Contain(r.judge, strip, rebuilds, c.doc), prev, c.gone, key);
    }
  }

  /** A key that leaves is a platform-only entry in that very cycle, its identity recorded beside it. */
  lemma LeavesAsTombstone(r: Rules, strip: bool, rebuilds: Body -> bool, prev: map<string, Component>, c: Cycle, key: string)
    requires Keeps(r)
    requires Proper(r.judge, strip, rebuilds, prev, c)
    requires key in prev && key !in c.doc.components && prev[key].platform != "" && prev[key].platform in r.judge.supported
    ensures var out := Ran(r.judge, strip, rebuilds, prev, c);
            && key in out.components && out.components[key] == Tombstone(prev[key].platform)
            && key in out.tombstones && out.tombstones[key] == prev[key]
            && key !in out.withheld
  {
    if c.removeFirst {
      RemovalExactly(c.doc, prev, c.gone, key);
      TombstoneStays(r, strip, rebuilds, RemoveComponents(c.doc, prev, c.gone), key, prev[key].platform);
    } else {
      RemovalExactly(Contain(r.judge, strip, rebuilds, c.doc), prev, c.gone, key);
    }
  }

  /** What the caller remembers of a rendered key is what was rendered, published or withheld. */
  lemma KeepSetRemembers(r: Rules, strip: bool, rebuilds: Body -> bool, prev: map<string, Component>, c: Cycle, key: string)
    requires Keeps(r)
    requires Proper(r.judge, strip, rebuilds, prev, c) && key in c.doc.components && Typed(c.doc.components[key])
    ensures var kept := KeepSet(Ran(r.judge, strip, rebuilds, prev, c));
            && key in kept
            && kept[key].platform == c.doc.components[key].platform
            && kept[key].uniqueID == c.doc.components[key].uniqueID
  {
    RenderedSurvives(r, strip, rebuilds, prev, c, key);
    if strip && key in Contain(r.judge, strip, rebuilds, c.doc).components {
      KeptExactly(r, rebuilds, c.doc, key);
      if key != "" && Stripped(r, rebuilds, c.doc.components[key]) {
        assert StrAt(Left(r, c.doc.components[key].encoding.body), UNIQUE_ID) == c.doc.components[key].uniqueID;
      }
    }
  }

  predicate AgreeAt(a: map<string, Component>, b: map<string, Component>, k: string) {
    (k in a <==> k in b) && (k in a ==> a[k] == b[k])
  }

  predicate DocumentsAgreeAt(a: Document, b: Document, k: string) {
    AgreeAt(a.components, b.components, k) && AgreeAt(a.withheld, b.withheld, k) && AgreeAt(a.tombstones, b.tombstones, k)
  }

  lemma AgreeEverywhere(a: map<string, Component>, b: map<string, Component>)
    requires forall k :: AgreeAt(a, b, k)
    ensures a == b
  {
    assert forall k :: k in a ==> AgreeAt(a, b, k);
    assert forall k :: k in b ==> AgreeAt(a, b, k);
  }

  /** With supported platforms the two orders publish the same document. */
  lemma OrdersAgree(r: Rules, strip: bool, rebuilds: Body -> bool, prev: map<string, Component>, doc: Document, gone: seq<string>)
    requires Keeps(r)
    requires doc.withheld == map[]
    requires forall k | k in gone :: k !in doc.components
    requires forall k | k in gone && k in prev && prev[k].platform != "" :: prev[k].platform in r.judge.supported
    ensures Ran(r.judge, strip, rebuilds, prev, Cycle(doc, gone, true)) == Ran(r.judge, strip, rebuilds, prev, Cycle(doc, gone, false))
  {
    var a := Ran(r.judge, strip, rebuilds, prev, Cycle(doc, gone, true));
    var b := Ran(r.judge, strip, rebuilds, prev, Cycle(doc, gone, false));
    forall k ensures DocumentsAgreeAt(a, b, k) {
      if k in doc.components {
        RenderedAgrees(r, strip, rebuilds, prev, doc, gone, k);
      } else {
        UnrenderedAgrees(r, strip, rebuilds, prev, doc, gone, k);
      }
    }
    assert forall k :: DocumentsAgreeAt(a, b, k) ==> AgreeAt(a.components, b.components, k);
    assert forall k :: DocumentsAgreeAt(a, b, k) ==> AgreeAt(a.withheld, b.withheld, k);
    assert forall k :: DocumentsAgreeAt(a, b, k) ==> AgreeAt(a.tombstones, b.tombstones, k);
    AgreeEverywhere(a.components, b.components);
    AgreeEverywhere(a.withheld, b.withheld);
    AgreeEverywhere(a.tombstones, b.tombstones);
    FramesAgree(r, strip, rebuilds, prev, doc, gone);
  }

  lemma FramesAgree(r: Rules, strip: bool, rebuilds: Body -> bool, prev: map<string, Component>, doc: Document, gone: seq<string>)
    requires Keeps(r)
    ensures var a := Contain(r.judge, strip, rebuilds, RemoveComponents(doc, prev, gone));
            a == doc.(components := a.components, withheld := a.withheld, tombstones := a.tombstones)
    ensures var b := RemoveComponents(Contain(r.judge, strip, rebuilds, doc), prev, gone);
            b == doc.(components := b.components, withheld := b.withheld, tombstones := b.tombstones)
  {
    RemovalExactly(doc, prev, gone, "");
    RemovalExactly(Contain(r.judge, strip, rebuilds, doc), prev, gone, "");
  }

  lemma RenderedAgrees(r: Rules, strip: bool, rebuilds: Body -> bool, prev: map<string, Component>, doc: Document,
                       gone: seq<string>, k: string)
    requires Keeps(r)
    requires doc.withheld == map[] && k in doc.components
    requires forall g | g in gone :: g !in doc.components
    ensures DocumentsAgreeAt(Contain(r.judge, strip, rebuilds, RemoveComponents(doc, prev, gone)),
                             RemoveComponents(Contain(r.judge, strip, rebuilds, doc), prev, gone), k)
  {
    var removed := RemoveComponents(doc, prev, gone);
    RemovedBeside(doc, prev, gone);
    RemovalExactly(doc, prev, gone, k);
    RemovalExactly(Contain(r.judge, strip, rebuilds, doc), prev, gone, k);
    RemovedAddsSilent(r.judge, doc, prev, gone);
    SilentFailing(r.judge, doc, removed, k);
    KeptAlike(r, strip, rebuilds, doc, removed, k);
  }

  lemma UnrenderedAgrees(r: Rules, strip: bool, rebuilds: Body -> bool, prev: map<string, Component>, doc: Document,
                         gone: seq<string>, k: string)
    requires Keeps(r)
    requires doc.withheld == map[] && k !in doc.components
    requires forall g | g in gone :: g !in doc.components
    requires forall g | g in gone && g in prev && prev[g].platform != "" :: prev[g].platform in r.judge.supported
    ensures DocumentsAgreeAt(Contain(r.judge, strip, rebuilds, RemoveComponents(doc, prev, gone)),
                             RemoveComponents(Contain(r.judge, strip, rebuilds, doc), prev, gone), k)
  {
    var removed := RemoveComponents(doc, prev, gone);
    RemovalExactly(doc, prev, gone, k);
    RemovalExactly(Contain(r.judge, strip, rebuilds, doc), prev, gone, k);
    if k in removed.components {
      TombstoneStays(r, strip, rebuilds, removed, k, prev[k].platform);
    }
  }

  /** Containment passes a removal entry of a supported platform untouched. */
  lemma TombstoneStays(r: Rules, strip: bool, rebuilds: Body -> bool, b: Document, k: string, platform: string)
    requires Keeps(r)
    requires k in b.components && b.components[k] == Tombstone(platform) && platform != "" && platform in r.judge.supported
    ensures var out := Contain(r.judge, strip, rebuilds, b);
            && k in out.components && out.components[k] == Tombstone(platform)
            && AgreeAt(out.withheld, b.withheld, k)
  {
    TombstoneIsSilent(r, b.components, k, platform);
    if k != "" {
      FailingExactly(r.judge, b, k);
    }
    if strip {
      KeptExactly(r, rebuilds, b, k);
    }
  }

  // -------------------------------------------------------------- all cycles

  /** Over any run of cycles a key rendered with an identity is never a platform-only entry: withholding
      does not become deletion. */
  lemma WithheldIsNeverRemoved(r: Rules, strip: bool, rebuilds: Body -> bool, cycles: seq<Cycle>, key: string)
    requires Keeps(r)
    requires cycles != [] && ProperRun(r.judge, strip, rebuilds, cycles)
    requires var doc := cycles[|cycles| - 1].doc;
             key in doc.components && doc.components[key].uniqueID != "" && Typed(doc.components[key])
    ensures var out := Published(r.judge, strip, rebuilds, cycles);
            if key in out.components then !IsTombstone(out.components[key])
            else key in out.withheld && out.withheld[key] == cycles[|cycles| - 1].doc.components[key]
  {
    var last := cycles[|cycles| - 1];
    RenderedSurvives(r, strip, rebuilds, Remembers(r.judge, strip, rebuilds, cycles[..|cycles| - 1]), last, key);
    if key in Contain(r.judge, strip, rebuilds, last.doc).components && IsTombstone(Contain(r.judge, strip, rebuilds, last.doc).components[key]) {
      TombstonesExactly(r, strip, rebuilds, last.doc, key);
      assert false;
    }
  }

  /** A key rendered in one cycle, published or withheld, and gone in the next is removed in that next
      cycle, and each of the three legacy forms still names its old topic. */
  lemma LeavingIsRemoved(r: Rules, strip: bool, rebuilds: Body -> bool, cycles: seq<Cycle>, key: string, prefix: string)
    requires Keeps(r)
    requires |cycles| >= 2 && ProperRun(r.judge, strip, rebuilds, cycles)
    requires var was := cycles[|cycles| - 2].doc;
             && key in was.components && Typed(was.components[key])
             && was.components[key].platform != "" && was.components[key].platform in r.judge.supported
    requires key !in cycles[|cycles| - 1].doc.components
    ensures var out := Published(r.judge, strip, rebuilds, cycles);
            var was := cycles[|cycles| - 2].doc.components[key];
            && key in out.components && out.components[key] == Tombstone(was.platform)
            && (key != "" && out.nodeID != "" ==>
                  Superseded(prefix, out, [], ConfigTopics.EntityConfigTopic(prefix, was.platform, out.nodeID, key)))
            && (was.uniqueID != "" ==>
                  Superseded(prefix, out, [Some(ByUniqueID)], ConfigTopics.FlatConfigTopic(prefix, was.platform, was.uniqueID)))
            && (key != "" ==>
                  Superseded(prefix, out, [Some(ByObjectID)], ConfigTopics.FlatConfigTopic(prefix, was.platform, key)))
  {
    var front, last := cycles[..|cycles| - 1], cycles[|cycles| - 1];
    assert front[|front| - 1] == cycles[|cycles| - 2];
    LastIsRemembered(r, strip, rebuilds, front, key);
    var prev := Remembers(r.judge, strip, rebuilds, front);
    LeavesAsTombstone(r, strip, rebuilds, prev, last, key);
    TombstoneNames(prefix, Ran(r.judge, strip, rebuilds, prev, last), key, prev[key]);
  }

  lemma LastIsRemembered(r: Rules, strip: bool, rebuilds: Body -> bool, cycles: seq<Cycle>, key: string)
    requires Keeps(r)
    requires cycles != [] && ProperRun(r.judge, strip, rebuilds, cycles)
    requires var doc := cycles[|cycles| - 1].doc; key in doc.components && Typed(doc.components[key])
    ensures var kept, was := Remembers(r.judge, strip, rebuilds, cycles), cycles[|cycles| - 1].doc.components[key];
            key in kept && kept[key].platform == was.platform && kept[key].uniqueID == was.uniqueID
  {
    KeepSetRemembers(r, strip, rebuilds, Remembers(r.judge, strip, rebuilds, cycles[..|cycles| - 1]), cycles[|cycles| - 1], key);
  }

  lemma TombstoneNames(prefix: string, out: Document, key: string, was: Component)
    requires key in out.components && out.components[key] == Tombstone(was.platform) && was.platform != ""
    requires key in out.tombstones && out.tombstones[key] == was
    ensures key != "" && out.nodeID != "" ==>
              Superseded(prefix, out, [], ConfigTopics.EntityConfigTopic(prefix, was.platform, out.nodeID, key))
    ensures was.uniqueID != "" ==>
              Superseded(prefix, out, [Some(ByUniqueID)], ConfigTopics.FlatConfigTopic(prefix, was.platform, was.uniqueID))
    ensures key != "" ==>
              Superseded(prefix, out, [Some(ByObjectID)], ConfigTopics.FlatConfigTopic(prefix, was.platform, key))
  {
    if key != "" && out.nodeID != "" {
      assert Names(prefix, out, Defaulted([])[0], key, ConfigTopics.EntityConfigTopic(prefix, was.platform, out.nodeID, key));
    }
    if was.uniqueID != "" {
      assert Names(prefix, out, Defaulted([Some(ByUniqueID)])[0], key, ConfigTopics.FlatConfigTopic(prefix, was.platform, was.uniqueID));
    }
    if key != "" {
      assert Names(prefix, out, Defaulted([Some(ByObjectID)])[0], key, ConfigTopics.FlatConfigTopic(prefix, was.platform, key));
    }
  }
}
