/** Device bundles: removing components for good, and remembering what they were. */
module Bundles {
  import opened Text
  import opened Documents
  import ConfigTopics

  /** rememberTombstone: an identity already captured is not overwritten by a blank one. */
  function Remembered(tombstones: map<string, Component>, key: string, was: Component): map<string, Component> {
    if key in tombstones && tombstones[key].uniqueID != "" && was.uniqueID == "" then tombstones
    else tombstones[key := was]
  }

  function Buried(b: Document, key: string, was: Component): Document {
    b.(components := b.components[key := Tombstone(was.platform)], tombstones := Remembered(b.tombstones, key, was))
  }

  /** Remove, one key: `platform` is empty for a key whose platform nobody knows. */
  function RemoveOne(b: Document, platform: string, key: string): Document {
    if platform == "" || key in b.withheld then b
    else Buried(b, key, (if key in b.components then b.components[key] else Tombstone(platform)).(platform := platform))
  }

  /** RemoveComponents, one key. */
  function RemoveComponent(b: Document, was: map<string, Component>, key: string): Document {
    if key !in was || was[key].platform == "" || key in b.withheld then b else Buried(b, key, was[key])
  }

  function RemoveComponents(b: Document, was: map<string, Component>, keys: seq<string>): Document {
    if keys == [] then b
    else RemoveComponent(RemoveComponents(b, was, keys[..|keys| - 1]), was, keys[|keys| - 1])
  }

  function Remove(b: Document, platformOf: map<string, string>, keys: seq<string>): Document {
    if keys == [] then b
    else
      var key := keys[|keys| - 1];
      RemoveOne(Remove(b, platformOf, keys[..|keys| - 1]), if key in platformOf then platformOf[key] else "", key)
  }

  /** KeepSet: published or withheld, it counts as declared. */
  function KeepSet(b: Document): map<string, Component> {
    b.withheld + b.components
  }

  class Bundle {
    const nodeID: string
    const identifiers: seq<string>
    const connections: seq<(string, string)>
    const originName: string
    var components: map<string, Component>
    var tombstones: map<string, Component>
    var withheld: map<string, Component>

    ghost function Now(): Document
      reads this
    {
      Document(nodeID, identifiers, connections, originName, components, tombstones, withheld)
    }

    constructor (d: Document)
      ensures Now() == d
    {
      nodeID, identifiers, connections, originName := d.nodeID, d.identifiers, d.connections, d.originName;
      components, tombstones, withheld := d.components, d.tombstones, d.withheld;
    }

    method RememberTombstone(key: string, was: Component)
      modifies this
      ensures Now() == old(Now()).(tombstones := Remembered(old(tombstones), key, was))
      ensures key in tombstones
      ensures tombstones[key] == if key in old(tombstones) && old(tombstones)[key].uniqueID != "" && was.uniqueID == ""
                                 then old(tombstones)[key] else was
      ensures forall k | k != key :: (k in tombstones <==> k in old(tombstones)) && (k in tombstones ==> tombstones[k] == old(tombstones)[k])
    {
      if key in tombstones && tombstones[key].uniqueID != "" && was.uniqueID == "" {
        return;
      }
      tombstones := tombstones[key := was];
    }

    method RemoveKeys(platformOf: map<string, string>, keys: seq<string>)
      modifies this
      ensures Now() == Remove(old(Now()), platformOf, keys)
      ensures forall k :: if k in keys && k in platformOf && platformOf[k] != "" && k !in withheld
                          then k in components && components[k] == Component(platformOf[k], "", Encoded(map["platform" := Str(platformOf[k])]))
                               && k in tombstones
                          else (k in components <==> k in old(components)) && (k in components ==> components[k] == old(components)[k])
      ensures withheld == old(withheld)
    {
      RemoveExactly(Document(nodeID, identifiers, connections, originName, components, tombstones, withheld), platformOf, keys);
      for i := 0 to |keys|
        invariant Now() == Remove(old(Now()), platformOf, keys[..i])
      {
        assert keys[..i + 1][..i] == keys[..i];
        var k := keys[i];
        if k in platformOf && platformOf[k] != "" && k !in withheld {
          var was := if k in components then components[k] else Tombstone(platformOf[k]);
          RememberTombstone(k, was.(platform := platformOf[k]));
          components := components[k := Tombstone(platformOf[k])];
        }
      }
      assert keys[..|keys|] == keys;
    }

    method RemoveDeclared(was: map<string, Component>, keys: seq<string>)
      modifies this
      ensures Now() == RemoveComponents(old(Now()), was, keys)
      ensures forall k :: if k in keys && k in was && was[k].platform != "" && k !in withheld
                          then k in components && components[k] == Component(was[k].platform, "", Encoded(map["platform" := Str(was[k].platform)]))
                               && k in tombstones
                          else (k in components <==> k in old(components)) && (k in components ==> components[k] == old(components)[k])
      ensures withheld == old(withheld)
    {
      RemovedExactly(Document(nodeID, identifiers, connections, originName, components, tombstones, withheld), was, keys);
      for i := 0 to |keys|
        invariant Now() == RemoveComponents(old(Now()), was, keys[..i])
      {
        assert keys[..i + 1][..i] == keys[..i];
        var k := keys[i];
        if k in was && was[k].platform != "" && k !in withheld {
          RememberTombstone(k, was[k]);
          components := components[k := Tombstone(was[k].platform)];
        }
      }
      assert keys[..|keys|] == keys;
    }

    method Declared() returns (out: map<string, Component>)
      ensures out == KeepSet(Now())
      ensures forall k :: k in out <==> k in components || k in withheld
      ensures forall k | k in out :: out[k] == if k in components then components[k] else withheld[k]
    {
      out := components;
      var left := withheld.Keys;
      while left != {}
        invariant left <= withheld.Keys
        invariant out == (map k | k in withheld && k !in left :: withheld[k]) + components
      {
        var k :| k in left;
        if k !in out {
          out := out[k := withheld[k]];
        }
        left := left - {k};
      }
    }
  }

  /** Removal, key by key: exactly the named, known, unwithheld keys become platform-only entries, and the
      identity they had is recorded unless a better one already was. */
  lemma {:induction false} RemovalExactly(b: Document, was: map<string, Component>, keys: seq<string>, key: string)
    ensures var after := RemoveComponents(b, was, keys);
            var buried := key in keys && key in was && was[key].platform != "" && key !in b.withheld;
            && after.(components := b.components, tombstones := b.tombstones) == b
            && (if buried then key in after.components && after.components[key] == Tombstone(was[key].platform)
                else (key in after.components <==> key in b.components)
                     && (key in b.components ==> after.components[key] == b.components[key]))
            && (if buried then after.tombstones == after.tombstones[key := Remembered(b.tombstones, key, was[key])[key]]
                else (key in after.tombstones <==> key in b.tombstones)
                     && (key in b.tombstones ==> after.tombstones[key] == b.tombstones[key]))
  {
    if keys != [] {
      RemovalExactly(b, was, keys[..|keys| - 1], key);
      assert keys == keys[..|keys| - 1] + [keys[|keys| - 1]];
    }
  }

  lemma RemovedExactly(b: Document, was: map<string, Component>, keys: seq<string>)
    ensures var after := RemoveComponents(b, was, keys);
            && after.withheld == b.withheld
            && forall k :: if k in keys && k in was && was[k].platform != "" && k !in b.withheld
                           then k in after.components && after.components[k] == Component(was[k].platform, "", Encoded(map["platform" := Str(was[k].platform)]))
                                && k in after.tombstones
                           else (k in after.components <==> k in b.components) && (k in b.components ==> after.components[k] == b.components[k])
  {
    forall k
      ensures var after := RemoveComponents(b, was, keys);
              && after.withheld == b.withheld
              && if k in keys && k in was && was[k].platform != "" && k !in b.withheld
                 then k in after.components && after.components[k] == Component(was[k].platform, "", Encoded(map["platform" := Str(was[k].platform)]))
                      && k in after.tombstones
                 else (k in after.components <==> k in b.components) && (k in b.components ==> after.components[k] == b.components[k]) {
      RemovalExactly(b, was, keys, k);
    }
  }

  /** Removal by platform: the named, known, unwithheld keys become removal markers of that platform. */
  lemma {:induction false} RemoveExactly(b: Document, platformOf: map<string, string>, keys: seq<string>)
    ensures var after := Remove(b, platformOf, keys);
            && after.withheld == b.withheld
            && forall k :: if k in keys && k in platformOf && platformOf[k] != "" && k !in b.withheld
                           then k in after.components && after.components[k] == Component(platformOf[k], "", Encoded(map["platform" := Str(platformOf[k])]))
                                && k in after.tombstones
                           else (k in after.components <==> k in b.components) && (k in b.components ==> after.components[k] == b.components[k])
  {
    if keys != [] {
      RemoveExactly(b, platformOf, keys[..|keys| - 1]);
      assert keys == keys[..|keys| - 1] + [keys[|keys| - 1]];
    }
  }

  /** The identity it records: the one the entry still had, else the one recorded before. */
  lemma {:induction false} RemoveRemembers(b: Document, platformOf: map<string, string>, keys: seq<string>, k: string)
    requires k in keys && k in platformOf && platformOf[k] != "" && k !in b.withheld
    ensures var after := Remove(b, platformOf, keys);
            && k in after.tombstones
            && after.tombstones[k].uniqueID ==
                 if k in b.components && b.components[k].uniqueID != "" then b.components[k].uniqueID
                 else if k in b.tombstones then b.tombstones[k].uniqueID else ""
  {
    var front, last := keys[..|keys| - 1], keys[|keys| - 1];
    assert keys == front + [last];
    RemoveExactly(b, platformOf, front);
    if k in front {
      RemoveRemembers(b, platformOf, front, k);
    } else {
      RemoveLeaves(b, platformOf, front, k);
    }
  }

  lemma {:induction false} RemoveLeaves(b: Document, platformOf: map<string, string>, keys: seq<string>, k: string)
    requires k !in keys
    ensures var after := Remove(b, platformOf, keys);
            (k in after.tombstones <==> k in b.tombstones) && (k in b.tombstones ==> after.tombstones[k] == b.tombstones[k])
  {
    if keys != [] {
      RemoveLeaves(b, platformOf, keys[..|keys| - 1], k);
      assert keys == keys[..|keys| - 1] + [keys[|keys| - 1]];
    }
  }

  // ------------------------------------------------------- legacy topics

  datatype LegacyEntity = LegacyEntity(prefix: string, platform: string, nodeID: string, objectID: string, uniqueID: string,
                                       component: Component)

  /** A per-entity form; None is the nil function. */
  type Form = Option<LegacyEntity -> string>

  function WithNodeID(e: LegacyEntity): string {
    if e.platform == "" || e.nodeID == "" || e.objectID == "" then ""
    else ConfigTopics.EntityConfigTopic(e.prefix, e.platform, e.nodeID, e.objectID)
  }

  function ByUniqueID(e: LegacyEntity): string {
    if e.platform == "" || e.uniqueID == "" then "" else ConfigTopics.FlatConfigTopic(e.prefix, e.platform, e.uniqueID)
  }

  function ByObjectID(e: LegacyEntity): string {
    if e.platform == "" || e.objectID == "" then "" else ConfigTopics.FlatConfigTopic(e.prefix, e.platform, e.objectID)
  }

  /** What a form is asked about a component; a removed one answers with the identity it had. */
  function EntityOf(prefix: string, b: Document, key: string): LegacyEntity
    requires key in b.components
  {
    var c := b.components[key];
    var uid := if key in b.tombstones && c.uniqueID == "" then b.tombstones[key].uniqueID else c.uniqueID;
    LegacyEntity(prefix, c.platform, b.nodeID, key, uid, c.(uniqueID := uid))
  }

  /** This form gives this component this topic. */
  predicate Names(prefix: string, b: Document, form: Form, key: string, topic: string) {
    && key in b.components
    && b.components[key].platform != ""
    && form.Some?
    && topic != ""
    && form.value(EntityOf(prefix, b, key)) == topic
  }

  function Defaulted(forms: seq<Form>): seq<Form> {
    if forms == [] then [Some(WithNodeID)] else forms
  }

  ghost predicate Superseded(prefix: string, b: Document, forms: seq<Form>, topic: string) {
    exists i, key :: 0 <= i < |Defaulted(forms)| && Names(prefix, b, Defaulted(forms)[i], key, topic)
  }

  /** SupersededTopics: in order, each once, exactly the topics some form gives some component. */
  method SupersededTopics(prefix: string, b: Document, forms: seq<Form>) returns (out: seq<string>)
    ensures Ascending(out)
    ensures forall t :: t in out <==> Superseded(prefix, b, forms, t)
  {
    var use := Defaulted(forms);
    var keys := SortedKeys(b.components.Keys);
    var found: set<string> := {};
    for n := 0 to |keys|
      invariant forall t :: t in found <==> exists i, j :: 0 <= i < |use| && 0 <= j < n && Names(prefix, b, use[i], keys[j], t)
    {
      var key := keys[n];
      if b.components[key].platform != "" {
        var e := EntityOf(prefix, b, key);
        ghost var before := found;
        for f := 0 to |use|
          invariant forall t :: t in found <==> t in before || exists i :: 0 <= i < f && Names(prefix, b, use[i], key, t)
        {
          if use[f].Some? {
            var topic := use[f].value(e);
            if topic != "" && topic !in found {
              found := found + {topic};
            }
          }
        }
      }
    }
    out := SortedKeys(found);
    forall t ensures t in found <==> Superseded(prefix, b, forms, t) {
      if i, key :| 0 <= i < |use| && Names(prefix, b, use[i], key, t) {
        var j :| 0 <= j < |keys| && keys[j] == key;
      }
    }
  }

  /** WithheldTopics: the same question about what containment took out. */
  method WithheldTopics(prefix: string, b: Document, forms: seq<Form>) returns (out: seq<string>)
    ensures Ascending(out)
    ensures forall t :: t in out <==> Superseded(prefix, b.(components := b.withheld, tombstones := map[]), forms, t)
  {
    out := SupersededTopics(prefix, b.(components := b.withheld, tombstones := map[]), forms);
  }

  // ------------------------------------------------- what the three forms name

  lemma SupersededByOne(prefix: string, b: Document, form: LegacyEntity -> string, topic: string)
    ensures Superseded(prefix, b, [Some(form)], topic) <==> exists key :: Names(prefix, b, Some(form), key, topic)
  {
    var forms := [Some(form)];
    assert Defaulted(forms) == forms && forms[0] == Some(form);
    if key :| Names(prefix, b, Some(form), key, topic) {
      assert Names(prefix, b, forms[0], key, topic);
    }
  }

  /** The identity a component goes by: its own, or for a removal marker the one recorded when it was removed. */
  function IdentityOf(b: Document, key: string): string
    requires key in b.components
  {
    if b.components[key].uniqueID != "" then b.components[key].uniqueID
    else if key in b.tombstones then b.tombstones[key].uniqueID
    else ""
  }

  /** By node id, the default: the platform, the document's node and the component's key. */
  lemma ByNodeNames(prefix: string, b: Document, topic: string)
    ensures Superseded(prefix, b, [], topic) <==>
              exists key :: key in b.components && b.components[key].platform != "" && b.nodeID != "" && key != ""
                            && topic == ConfigTopics.Render(prefix, ConfigTopics.ConfigTopic(b.components[key].platform, b.nodeID, key, false))
  {
    assert Defaulted([]) == [Some(WithNodeID)];
    SupersededByOne(prefix, b, WithNodeID, topic);
    forall key ensures Names(prefix, b, Some(WithNodeID), key, topic) <==>
                         key in b.components && b.components[key].platform != "" && b.nodeID != "" && key != ""
                         && topic == ConfigTopics.Render(prefix, ConfigTopics.ConfigTopic(b.components[key].platform, b.nodeID, key, false)) {
      if key in b.components && b.nodeID != "" {
        ConfigTopics.RenderNotEmpty(prefix, ConfigTopics.ConfigTopic(b.components[key].platform, b.nodeID, key, false));
      }
    }
  }

  /** By identity: the platform and the unique id. */
  lemma ByUniqueIDNames(prefix: string, b: Document, topic: string)
    ensures Superseded(prefix, b, [Some(ByUniqueID)], topic) <==>
              exists key :: key in b.components && b.components[key].platform != "" && IdentityOf(b, key) != ""
                            && topic == ConfigTopics.Render(prefix, ConfigTopics.ConfigTopic(b.components[key].platform, "", IdentityOf(b, key), false))
  {
    SupersededByOne(prefix, b, ByUniqueID, topic);
    forall key ensures Names(prefix, b, Some(ByUniqueID), key, topic) <==>
                         key in b.components && b.components[key].platform != "" && IdentityOf(b, key) != ""
                         && topic == ConfigTopics.Render(prefix, ConfigTopics.ConfigTopic(b.components[key].platform, "", IdentityOf(b, key), false)) {
      if key in b.components {
        ConfigTopics.RenderNotEmpty(prefix, ConfigTopics.ConfigTopic(b.components[key].platform, "", IdentityOf(b, key), false));
      }
    }
  }

  /** By object id: the platform and the component's key. */
  lemma ByObjectIDNames(prefix: string, b: Document, topic: string)
    ensures Superseded(prefix, b, [Some(ByObjectID)], topic) <==>
              exists key :: key in b.components && b.components[key].platform != "" && key != ""
                            && topic == ConfigTopics.Render(prefix, ConfigTopics.ConfigTopic(b.components[key].platform, "", key, false))
  {
    SupersededByOne(prefix, b, ByObjectID, topic);
    forall key ensures Names(prefix, b, Some(ByObjectID), key, topic) <==>
                         key in b.components && b.components[key].platform != "" && key != ""
                         && topic == ConfigTopics.Render(prefix, ConfigTopics.ConfigTopic(b.components[key].platform, "", key, false)) {
      if key in b.components {
        ConfigTopics.RenderNotEmpty(prefix, ConfigTopics.ConfigTopic(b.components[key].platform, "", key, false));
      }
    }
  }
}
