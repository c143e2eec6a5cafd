/** Small dictionaries that show how the depth-first collection of
    plover_hatchery_lib_rs/src/defs/view/mod.rs:77-128 treats cycles, repeats, missing
    entries and nested definitions. */
module DefViewExamples {
  import opened Wrappers
  import opened DefItems
  import opened Defs
  import opened DefView

  /** An entry that transcludes itself is a circular dependency. */
  lemma SelfTransclusionIsCircular(entries: map<string, EntitySeq>, t: Entity)
    requires t == TransclusionEntity(Transclusion("a", 0))
    requires entries == map["a" := EntitySeq([t])]
    ensures CollectSophemes(LookupDef(entries, "a").value, entries) == Err("circular dependency")
  {
    EntryCollects(entries, "a");
    assert CollectEntity(t, entries, {"a"}) == Err("circular dependency");
  }

  /** Two entries that transclude each other are a circular dependency. */
  lemma MutualTransclusionIsCircular(entries: map<string, EntitySeq>, ta: Entity, tb: Entity)
    requires ta == TransclusionEntity(Transclusion("a", 0)) && tb == TransclusionEntity(Transclusion("b", 0))
    requires entries == map["a" := EntitySeq([tb]), "b" := EntitySeq([ta])]
    ensures CollectSophemes(LookupDef(entries, "a").value, entries) == Err("circular dependency")
  {
    EntryCollects(entries, "a");
    assert CollectEntity(ta, entries, {"a", "b"}) == Err("circular dependency");
    assert CollectEntities([ta], entries, {"a", "b"}) == Err("circular dependency");
    assert {"a"} + {"b"} == {"a", "b"};
    assert CollectEntity(tb, entries, {"a"}) == Err("circular dependency");
  }

  /** A transclusion of a name that has no entry fails. */
  lemma MissingEntryIsUndefined(entries: map<string, EntitySeq>, t: Entity)
    requires t == TransclusionEntity(Transclusion("z", 0))
    requires entries == map["a" := EntitySeq([t])]
    ensures CollectSophemes(LookupDef(entries, "a").value, entries) == Err("entry is not defined")
  {
    EntryCollects(entries, "a");
    assert CollectEntity(t, entries, {"a"}) == Err("entry is not defined");
  }

  /** The same entry transcluded twice side by side is read twice: its name leaves
      `visited` when its first reading finishes. */
  lemma SiblingRepeatsAllowed(entries: map<string, EntitySeq>, s: Sopheme, t: Entity)
    requires t == TransclusionEntity(Transclusion("b", 0))
    requires entries == map["a" := EntitySeq([t, t]), "b" := EntitySeq([SophemeEntity(s)])]
    ensures CollectSophemes(LookupDef(entries, "a").value, entries) == Ok([s, s])
  {
    EntryCollects(entries, "a");
    assert {"a"} + {"b"} == {"a", "b"};
    CollectEntitiesOne(SophemeEntity(s), entries, {"a", "b"});
    assert CollectEntity(t, entries, {"a"}) == Ok([s]);
    CollectEntitiesOne(t, entries, {"a"});
    assert [t, t][1..] == [t];
    assert [s] + [s] == [s, s];
    assert CollectEntities([t, t], entries, {"a"}) == Ok([s, s]);
  }

  /** The root's own name is visited: a root that transcludes the entry of its name is
      circular. */
  lemma RootNameIsVisited(entries: map<string, EntitySeq>, s: Sopheme, t: Entity, root: RawDef)
    requires t == TransclusionEntity(Transclusion("a", 0))
    requires entries == map["a" := EntitySeq([SophemeEntity(s)])]
    requires root == RawDef([RawableEntity(t)], "a")
    ensures CollectSophemes(root, entries) == Err("circular dependency")
  {
    assert {} + {"a"} == {"a"};
    assert CollectEntity(t, entries, {"a"}) == Err("circular dependency");
    assert CollectOne(root.rawables[0], entries, {"a"}) == Err("circular dependency");
    assert CollectFrom(root, 0, entries, {"a"}) == Err("circular dependency");
    assert CollectOne(NestedDef(root), entries, {}) == Err("circular dependency");
  }

  /** A nested definition that carries the root's name removes that name from
      `visited` when it finishes, so a later transclusion of the root's entry is read
      instead of being reported as circular. */
  lemma NestedNameClearsVisited(entries: map<string, EntitySeq>, s: Sopheme, t: Entity, root: RawDef)
    requires t == TransclusionEntity(Transclusion("a", 0))
    requires entries == map["a" := EntitySeq([SophemeEntity(s)])]
    requires root == RawDef([NestedDef(RawDef([], "a")), RawableEntity(t)], "a")
    ensures CollectSophemes(root, entries) == Ok([s])
  {
    var inner := RawDef([], "a");
    assert {} + {"a"} == {"a"} && {"a"} + {"a"} == {"a"};
    assert CollectFrom(inner, 0, entries, {"a"}) == Ok(Collected([], {"a"}));
    assert {"a"} - {"a"} == {};
    assert CollectOne(root.rawables[0], entries, {"a"}) == Ok(Collected([], {}));
    CollectEntitiesOne(SophemeEntity(s), entries, {"a"});
    assert CollectEntity(t, entries, {}) == Ok([s]);
    assert CollectOne(root.rawables[1], entries, {}) == Ok(Collected([s], {}));
    assert CollectFrom(root, 2, entries, {}) == Ok(Collected([], {}));
    assert [s] + [] == [s];
    assert CollectFrom(root, 1, entries, {}) == Ok(Collected([s], {}));
    assert [] + [s] == [s];
    assert CollectFrom(root, 0, entries, {"a"}) == Ok(Collected([s], {}));
    var none: set<string> := {};
    assert none - {"a"} == none;
    assert CollectOne(NestedDef(root), entries, {}) == Ok(Collected([s], {}));
  }
}
