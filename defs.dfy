/** Definitions built from rawable entities, and the dictionary of named entries
    (plover_hatchery_lib_rs/src/defs/def.rs, def_items/rawable.rs, dict/mod.rs). */
module Defs {
  import opened Wrappers
  import opened DefItems

  /** An element of a definition: an entity, or a definition nested in place
      (`RawableEntity`, def_items/rawable.rs:13-16). */
  datatype Rawable = RawableEntity(entity: Entity) | NestedDef(def: RawDef)

  /** A named list of rawable entities (the `Def` of defs/def.rs:14-18; named `RawDef`
      here to keep it apart from the entity-only `Def` of def_items). */
  datatype RawDef = RawDef(rawables: seq<Rawable>, varname: string)

  /** Every rawable wrapped as an entity, in order. */
  function WrapEntities(es: seq<Entity>): (rs: seq<Rawable>)
    ensures |rs| == |es|
    ensures forall i :: 0 <= i < |es| ==> rs[i] == RawableEntity(es[i])
  {
    seq(|es|, i requires 0 <= i < |es| => RawableEntity(es[i]))
  }

  /** The entities of a list of rawables that holds no nested definition
      (`maybe_entity` on every element, def_items/rawable.rs:30-36). */
  function EntitiesOf(rs: seq<Rawable>): (r: Option<seq<Entity>>)
    ensures r.Some? <==> forall i :: 0 <= i < |rs| ==> rs[i].RawableEntity?
    ensures r.Some? ==> |r.value| == |rs| && forall i :: 0 <= i < |rs| ==> rs[i] == RawableEntity(r.value[i])
  {
    if rs == [] then Some([])
    else match (rs[0], EntitiesOf(rs[1..]))
      case (RawableEntity(e), Some(tail)) => Some([e] + tail)
      case _ => None
  }

  /** `Def::of` wraps every entity of the sequence, keeping their order and count, and
      the entities can be read back unchanged (defs/def.rs:21-28). */
  function DefFrom(es: EntitySeq, varname: string): (d: RawDef)
    ensures d.varname == varname
    ensures EntitiesOf(d.rawables) == Some(es.entities)
  {
    var rs := WrapEntities(es.entities);
    assert EntitiesOf(rs).Some?;
    assert EntitiesOf(rs).value == es.entities;
    RawDef(rs, varname)
  }

  /** `Def::get`: the rawable at `index`, present exactly when the index is in range
      (defs/def.rs:30-33). */
  function DefGet(d: RawDef, index: nat): (r: Option<Rawable>)
    ensures r.Some? <==> index < |d.rawables|
    ensures r.Some? ==> r.value == d.rawables[index]
  {
    if index < |d.rawables| then Some(d.rawables[index]) else None
  }

  /** `Def::empty`: a definition under `varname` with nothing to read
      (defs/def.rs:42-47). */
  function EmptyDef(varname: string): (d: RawDef)
    ensures d.varname == varname
    ensures forall i: nat :: DefGet(d, i).None?
  {
    RawDef([], varname)
  }

  /** The definition of an entity sequence reads back its entities by index. */
  lemma DefFromGet(es: EntitySeq, varname: string, i: nat)
    ensures DefGet(DefFrom(es, varname), i).Some? <==> i < |es.entities|
    ensures i < |es.entities| ==> DefGet(DefFrom(es, varname), i) == Some(RawableEntity(es.entities[i]))
  {
    var d := DefFrom(es, varname);
    assert |d.rawables| == |es.entities|;
  }

  /** `DefDict::get_def` on a map of entries: the entry's definition, named after it. */
  function LookupDef(entries: map<string, EntitySeq>, varname: string): (r: Option<RawDef>)
    ensures r.Some? <==> varname in entries
    ensures r.Some? ==> r.value.varname == varname && EntitiesOf(r.value.rawables) == Some(entries[varname].entities)
  {
    if varname in entries then Some(DefFrom(entries[varname], varname)) else None
  }

  /** The dictionary of named entries (`DefDict`, dict/mod.rs:9-12). */
  class DefDict {
    var entries: map<string, EntitySeq>

    /** A new dictionary has no entries (dict/mod.rs:15-19). */
    constructor ()
      ensures entries == map[]
    {
      entries := map[];
    }

    /** Inserts or overwrites one entry and leaves the others alone (dict/mod.rs:22-24). */
    method Add(varname: string, s: EntitySeq)
      modifies this
      ensures entries == old(entries)[varname := s]
      ensures forall v :: v != varname ==> GetEntry(v) == old(GetEntry(v))
      ensures GetEntry(varname) == Some(s)
    {
      entries := entries[varname := s];
    }

    /** `get_def`: present exactly for an added name, whose definition carries that name
        and reads back the last sequence added under it (dict/mod.rs:26-29). */
    function GetDef(varname: string): (r: Option<RawDef>)
      reads this
      ensures r.Some? <==> varname in entries
      ensures r.Some? ==> r.value.varname == varname && EntitiesOf(r.value.rawables) == Some(entries[varname].entities)
    {
      LookupDef(entries, varname)
    }

    /** `get`: the last sequence added under the name, if any (dict/mod.rs:31-33). */
    function GetEntry(varname: string): (r: Option<EntitySeq>)
      reads this
      ensures r.Some? <==> varname in entries
      ensures r.Some? ==> r.value == entries[varname]
    {
      if varname in entries then Some(entries[varname]) else None
    }
  }
}
