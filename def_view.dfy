/** A definition read against a dictionary of entries: children by index, paths of
    indexes, and the depth-first collection of sophemes
    (plover_hatchery_lib_rs/src/defs/view/mod.rs). */
module DefView {
  import opened Wrappers
  import opened Text
  import opened DefItems
  import opened Defs

  /** What a position in a definition tree refers to (`DefViewItemRef`,
      view/mod.rs:225-230). A transclusion's child is the entry it names. */
  datatype Item =
    | KeysymbolItem(keysymbol: Keysymbol)
    | SophemeItem(sopheme: Sopheme)
    | DefItem(def: RawDef)
    | EntitySeqItem(entitySeq: EntitySeq, varname: string)

  /** The item an entity stands for: a sopheme itself, or the sequence of the entry a
      transclusion names, which must exist. */
  function EntityItem(e: Entity, entries: map<string, EntitySeq>): (r: Result<Item>)
    ensures r.Err? <==> e.TransclusionEntity? && e.transclusion.targetVarname !in entries
    ensures r.Err? ==> r.msg == "entry not found"
  {
    match e
    case SophemeEntity(s) => Ok(SophemeItem(s))
    case TransclusionEntity(t) =>
      if t.targetVarname in entries then Ok(EntitySeqItem(entries[t.targetVarname], t.targetVarname))
      else Err("entry not found")
  }

  /** `n_children` (view/mod.rs:266-276). */
  function NChildren(item: Item): nat {
    match item
    case SophemeItem(s) => |s.keysymbols|
    case DefItem(d) => |d.rawables|
    case EntitySeqItem(es, _) => |es.entities|
    case KeysymbolItem(_) => 0
  }

  /** `get_child` of an item: present exactly for the indexes below `n_children`; a child that is a
      transclusion to a missing entry is the error "entry not found"
      (view/mod.rs:234-264, 266-276). */
  function ItemChild(item: Item, index: nat, entries: map<string, EntitySeq>): (r: Option<Result<Item>>)
    ensures r.Some? <==> index < NChildren(item)
    ensures r.Some? && r.value.Err? ==> r.value.msg == "entry not found"
    ensures (item.SophemeItem? && index < NChildren(item)) ==> r == Some(Ok(KeysymbolItem(item.sopheme.keysymbols[index])))
  {
    match item
    case SophemeItem(s) =>
      (match SophemeGet(s, index)
       case Some(k) => Some(Ok(KeysymbolItem(k)))
       case None => None)
    case DefItem(d) =>
      (match DefGet(d, index)
       case None => None
       case Some(RawableEntity(e)) => Some(EntityItem(e, entries))
       case Some(NestedDef(cd)) => Some(Ok(DefItem(cd))))
    case EntitySeqItem(es, _) =>
      if index < |es.entities| then Some(EntityItem(es.entities[index], entries)) else None
    case KeysymbolItem(_) => None
  }

  /** The item reached from `item` by following the child indexes of `path` in turn:
      None at the first missing child, the error at the first dangling transclusion. */
  function ReadPath(item: Item, path: seq<nat>, entries: map<string, EntitySeq>): (r: Option<Result<Item>>)
    ensures path == [] ==> r == Some(Ok(item))
    ensures r.Some? && r.value.Err? ==> r.value.msg == "entry not found"
    decreases |path|
  {
    if path == [] then Some(Ok(item))
    else match ItemChild(item, path[0], entries)
      case Some(Ok(child)) => ReadPath(child, path[1..], entries)
      case other => other
  }

  /** Reading a path is reading its first part and then the rest from where that led. */
  lemma {:induction false} ReadPathAppend(item: Item, p: seq<nat>, q: seq<nat>, entries: map<string, EntitySeq>)
    ensures ReadPath(item, p + q, entries) ==
              match ReadPath(item, p, entries)
              case Some(Ok(c)) => ReadPath(c, q, entries)
              case other => other
    decreases |p|
  {
    if p == [] {
      assert p + q == q;
    } else {
      assert (p + q)[0] == p[0];
      assert (p + q)[1..] == p[1..] + q;
      match ItemChild(item, p[0], entries)
      case Some(Ok(child)) =>
        ReadPathAppend(child, p[1..], q, entries);
      case _ =>
    }
  }

  /** `read`: follows the indexes from the root, stopping at the first missing child or
      dangling transclusion (view/mod.rs:141-153). */
  method Read(root: RawDef, indexes: seq<nat>, entries: map<string, EntitySeq>) returns (r: Option<Result<Item>>)
    ensures r == ReadPath(DefItem(root), indexes, entries)
  {
    var cur := DefItem(root);
    var i := 0;
    while i < |indexes|
      invariant 0 <= i <= |indexes|
      invariant ReadPath(DefItem(root), indexes, entries) == ReadPath(cur, indexes[i..], entries)
    {
      assert indexes[i..][1..] == indexes[i + 1..];
      var child := ItemChild(cur, indexes[i], entries);
      match child {
        case None =>
          return None;
        case Some(Err(msg)) =>
          return Some(Err(msg));
        case Some(Ok(c)) =>
          cur := c;
      }
      i := i + 1;
    }
    return Some(Ok(cur));
  }

  /** Combines the outcome of a first part with that of the rest: the first error wins,
      otherwise the sophemes are concatenated in order. */
  function Then(first: Result<seq<Sopheme>>, rest: Result<seq<Sopheme>>): (r: Result<seq<Sopheme>>)
    ensures r.Ok? <==> first.Ok? && rest.Ok?
    ensures r.Ok? ==> r.value == first.value + rest.value
    ensures first.Err? ==> r == first
  {
    match first
    case Err(m) => Err(m)
    case Ok(a) =>
      match rest
      case Err(m) => Err(m)
      case Ok(b) => Ok(a + b)
  }

  lemma ThenAssoc(x: Result<seq<Sopheme>>, y: Result<seq<Sopheme>>, z: Result<seq<Sopheme>>)
    ensures Then(Then(x, y), z) == Then(x, Then(y, z))
  {
    if x.Ok? && y.Ok? && z.Ok? {
      AppendAssoc(x.value, y.value, z.value);
    }
  }

  /** Marking one more defined, unvisited name leaves fewer names to visit. */
  lemma FewerUnvisited(keys: set<string>, visited: set<string>, name: string)
    requires name in keys && name !in visited
    ensures |keys - (visited + {name})| < |keys - visited|
  {
    assert keys - (visited + {name}) == (keys - visited) - {name};
  }

  /** True for the two messages the depth-first collection can fail with. */
  predicate IsCollectError(m: string) {
    m == "circular dependency" || m == "entry is not defined"
  }

  /** `dfs` on one entity of a dictionary entry: a sopheme is collected; a transclusion
      fails when its target is on the current path or undefined, and otherwise
      collects the target's entities with the target marked as visited
      (view/mod.rs:78-107). On success `visited` is as before, since `dfs_def` removes
      the name it added. */
  function CollectEntity(e: Entity, entries: map<string, EntitySeq>, visited: set<string>): (r: Result<seq<Sopheme>>)
    ensures r.Err? ==> IsCollectError(r.msg) && e.TransclusionEntity?
    ensures e.TransclusionEntity? && e.transclusion.targetVarname in visited ==> r == Err("circular dependency")
    decreases |entries.Keys - visited|, 0
  {
    match e
    case SophemeEntity(s) => Ok([s])
    case TransclusionEntity(t) =>
      if t.targetVarname in visited then Err("circular dependency")
      else if t.targetVarname !in entries then Err("entry is not defined")
      else
        FewerUnvisited(entries.Keys, visited, t.targetVarname);
        CollectEntities(entries[t.targetVarname].entities, entries, visited + {t.targetVarname})
  }

  /** The loop of `dfs_def` over the entities of a dictionary entry: each entity in
      turn, stopping at the first error (view/mod.rs:110-120). */
  function CollectEntities(es: seq<Entity>, entries: map<string, EntitySeq>, visited: set<string>): (r: Result<seq<Sopheme>>)
    ensures r.Err? ==> IsCollectError(r.msg)
    decreases |entries.Keys - visited|, |es| + 1
  {
    if es == [] then Ok([])
    else Then(CollectEntity(es[0], entries, visited), CollectEntities(es[1..], entries, visited))
  }

  /** Collection is in order: the entities of a concatenation give the collection of
      the first part followed by that of the second, or the first error. */
  lemma {:induction false} CollectEntitiesAppend(a: seq<Entity>, b: seq<Entity>, entries: map<string, EntitySeq>, visited: set<string>)
    ensures CollectEntities(a + b, entries, visited) ==
            Then(CollectEntities(a, entries, visited), CollectEntities(b, entries, visited))
    decreases |a|
  {
    if a == [] {
      assert a + b == b;
      var y := CollectEntities(b, entries, visited);
      if y.Ok? {
        assert [] + y.value == y.value;
      }
    } else {
      assert (a + b)[0] == a[0];
      assert (a + b)[1..] == a[1..] + b;
      CollectEntitiesAppend(a[1..], b, entries, visited);
      ThenAssoc(CollectEntity(a[0], entries, visited), CollectEntities(a[1..], entries, visited), CollectEntities(b, entries, visited));
    }
  }

  /** A single entity collects as that entity. */
  lemma CollectEntitiesOne(e: Entity, entries: map<string, EntitySeq>, visited: set<string>)
    ensures CollectEntities([e], entries, visited) == CollectEntity(e, entries, visited)
  {
    assert [e][1..] == [];
    var x := CollectEntity(e, entries, visited);
    if x.Ok? {
      assert x.value + [] == x.value;
    }
  }

  /** One more entity at the end adds its own collection at the end. */
  lemma CollectEntitiesSnoc(a: seq<Entity>, e: Entity, entries: map<string, EntitySeq>, visited: set<string>)
    ensures CollectEntities(a + [e], entries, visited) ==
            Then(CollectEntities(a, entries, visited), CollectEntity(e, entries, visited))
  {
    CollectEntitiesAppend(a, [e], entries, visited);
    assert CollectEntities([e], entries, visited) == Then(CollectEntity(e, entries, visited), Ok([]));
    var x := CollectEntity(e, entries, visited);
    if x.Ok? {
      assert x.value + [] == x.value;
    }
  }

  /** The sophemes of a list of sopheme entities. */
  function SophemesOf(es: seq<Entity>): (r: Option<seq<Sopheme>>)
    ensures r.Some? <==> forall i :: 0 <= i < |es| ==> es[i].SophemeEntity?
    ensures r.Some? ==> |r.value| == |es| && forall i :: 0 <= i < |es| ==> es[i] == SophemeEntity(r.value[i])
  {
    if es == [] then Some([])
    else match (es[0], SophemesOf(es[1..]))
      case (SophemeEntity(s), Some(tail)) => Some([s] + tail)
      case _ => None
  }

  /** Entities without transclusions collect to their own sophemes, in order, whatever
      the dictionary. */
  lemma {:induction false} CollectPlainEntities(es: seq<Entity>, entries: map<string, EntitySeq>, visited: set<string>)
    requires SophemesOf(es).Some?
    ensures CollectEntities(es, entries, visited) == Ok(SophemesOf(es).value)
    decreases |es|
  {
    if es != [] {
      CollectPlainEntities(es[1..], entries, visited);
    }
  }

  /** The outcome of collecting from a rawable list: the sophemes and the `visited` set
      as the Rust code leaves it. */
  datatype Collected = Collected(sophemes: seq<Sopheme>, visited: set<string>)

  /** The sophemes `xs` collected first, followed by the outcome `r` of the rest. */
  function Prepend(xs: seq<Sopheme>, r: Result<Collected>): (p: Result<Collected>)
    ensures p.Ok? <==> r.Ok?
    ensures p.Ok? ==> p.value.sophemes == xs + r.value.sophemes && p.value.visited == r.value.visited
    ensures p.Err? ==> p == r
  {
    match r
    case Err(m) => Err(m)
    case Ok(c) => Ok(Collected(xs + c.sophemes, c.visited))
  }

  lemma PrependPrepend(xs: seq<Sopheme>, ys: seq<Sopheme>, r: Result<Collected>)
    ensures Prepend(xs, Prepend(ys, r)) == Prepend(xs + ys, r)
  {
    if r.Ok? {
      AppendAssoc(xs, ys, r.value.sophemes);
    }
  }

  /** `dfs` on one rawable. An entity is collected as above and leaves `visited`
      alone. A nested definition is `dfs_def`: its name is inserted into `visited`,
      its rawables are collected, and its name is removed again, even when an
      enclosing definition carries the same name (view/mod.rs:78-120). */
  function CollectOne(r: Rawable, entries: map<string, EntitySeq>, visited: set<string>): (c: Result<Collected>)
    ensures c.Err? ==> IsCollectError(c.msg)
    ensures r.RawableEntity? && c.Ok? ==> c.value.visited == visited
    decreases r, 0
  {
    match r
    case RawableEntity(e) =>
      (match CollectEntity(e, entries, visited)
       case Err(m) => Err(m)
       case Ok(ss) => Ok(Collected(ss, visited)))
    case NestedDef(cd) =>
      (match CollectFrom(cd, 0, entries, visited + {cd.varname})
       case Err(m) => Err(m)
       case Ok(c) => Ok(Collected(c.sophemes, c.visited - {cd.varname})))
  }

  /** The loop of `dfs_def` from rawable `i` on: each rawable in turn, threading
      `visited` through, stopping at the first error (view/mod.rs:110-120). */
  function CollectFrom(d: RawDef, i: nat, entries: map<string, EntitySeq>, visited: set<string>): (r: Result<Collected>)
    requires i <= |d.rawables|
    ensures r.Err? ==> IsCollectError(r.msg)
    decreases d, |d.rawables| - i
  {
    if i == |d.rawables| then Ok(Collected([], visited))
    else
      match CollectOne(d.rawables[i], entries, visited)
      case Err(m) => Err(m)
      case Ok(h) => Prepend(h.sophemes, CollectFrom(d, i + 1, entries, h.visited))
  }

  /** `collect_sophemes`: `dfs_def` on the root definition with nothing visited yet
      (view/mod.rs:77-128). */
  function CollectSophemes(root: RawDef, entries: map<string, EntitySeq>): (r: Result<seq<Sopheme>>)
    ensures r.Err? ==> IsCollectError(r.msg)
  {
    match CollectOne(NestedDef(root), entries, {})
    case Err(m) => Err(m)
    case Ok(c) => Ok(c.sophemes)
  }

  /** A definition without nested definitions collects exactly as its entities do,
      and leaves `visited` as it found it. */
  lemma {:induction false} CollectFromEntities(d: RawDef, i: nat, entries: map<string, EntitySeq>, visited: set<string>)
    requires i <= |d.rawables|
    requires EntitiesOf(d.rawables).Some?
    ensures (match CollectFrom(d, i, entries, visited)
             case Err(m) => Err(m)
             case Ok(c) => Ok(c.sophemes)) == CollectEntities(EntitiesOf(d.rawables).value[i..], entries, visited)
    ensures CollectFrom(d, i, entries, visited).Ok? ==> CollectFrom(d, i, entries, visited).value.visited == visited
    decreases |d.rawables| - i
  {
    var es := EntitiesOf(d.rawables).value;
    if i < |d.rawables| {
      assert d.rawables[i] == RawableEntity(es[i]);
      CollectFromEntities(d, i + 1, entries, visited);
      assert es[i..][0] == es[i];
      assert es[i..][1..] == es[i + 1..];
    }
  }

  /** Collecting the definition of a dictionary entry is collecting its entities with
      its own name marked as visited. */
  lemma EntryCollects(entries: map<string, EntitySeq>, varname: string)
    requires varname in entries
    ensures CollectSophemes(LookupDef(entries, varname).value, entries) ==
            CollectEntities(entries[varname].entities, entries, {varname})
  {
    var d := LookupDef(entries, varname).value;
    assert {} + {varname} == {varname};
    CollectFromEntities(d, 0, entries, {varname});
    assert entries[varname].entities[0..] == entries[varname].entities;
  }

  /** One step of the loop over a dictionary entry's entities: an error of the next
      entity is the error of the whole entry, and otherwise its sophemes follow those
      of the prefix. */
  lemma EntryStep(es: seq<Entity>, i: nat, entries: map<string, EntitySeq>, visited: set<string>, acc: seq<Sopheme>)
    requires i < |es|
    requires CollectEntities(es[..i], entries, visited) == Ok(acc)
    ensures CollectEntity(es[i], entries, visited).Err? ==> CollectEntities(es, entries, visited) == CollectEntity(es[i], entries, visited)
    ensures CollectEntity(es[i], entries, visited).Ok? ==>
              CollectEntities(es[..i + 1], entries, visited) == Ok(acc + CollectEntity(es[i], entries, visited).value)
  {
    CollectEntitiesSnoc(es[..i], es[i], entries, visited);
    assert es[..i + 1] == es[..i] + [es[i]];
    CollectEntitiesAppend(es[..i + 1], es[i + 1..], entries, visited);
    assert es[..i + 1] + es[i + 1..] == es;
  }

  /** The buffers that `collect_sophemes` threads through its recursion by mutable
      reference: the sophemes pushed so far and the names on the current path
      (view/mod.rs:78, 110, 123-125). */
  class Collector {
    var sophemes: seq<Sopheme>
    var visited: set<string>

    constructor ()
      ensures sophemes == [] && visited == {}
    {
      sophemes := [];
      visited := {};
    }

    /** True when `err` and the pushed sophemes agree with the outcome `spec`. */
    static predicate Reports(spec: Result<seq<Sopheme>>, before: seq<Sopheme>, after: seq<Sopheme>, err: Option<string>) {
      match spec
      case Err(m) => err == Some(m)
      case Ok(ss) => err.None? && after == before + ss
    }

    /** `dfs` on an entity of a dictionary entry (view/mod.rs:80-98). */
    method VisitEntity(e: Entity, entries: map<string, EntitySeq>) returns (err: Option<string>)
      modifies this
      ensures Reports(CollectEntity(e, entries, old(visited)), old(sophemes), sophemes, err)
      ensures err.None? ==> visited == old(visited)
      decreases |entries.Keys - visited|, 0
    {
      match e {
        case SophemeEntity(s) =>
          sophemes := sophemes + [s];
          return None;
        case TransclusionEntity(t) =>
          if t.targetVarname in visited {
            return Some("circular dependency");
          }
          var inner := LookupDef(entries, t.targetVarname);
          if inner.None? {
            return Some("entry is not defined");
          }
          FewerUnvisited(entries.Keys, visited, t.targetVarname);
          err := VisitEntry(inner.value, entries);
      }
    }

    /** `dfs_def` on the definition of a dictionary entry, whose rawables are all
        entities (view/mod.rs:110-120). */
    method VisitEntry(d: RawDef, entries: map<string, EntitySeq>) returns (err: Option<string>)
      requires d.varname in entries && d.varname !in visited
      requires EntitiesOf(d.rawables) == Some(entries[d.varname].entities)
      modifies this
      ensures Reports(CollectEntities(entries[d.varname].entities, entries, old(visited) + {d.varname}), old(sophemes), sophemes, err)
      ensures err.None? ==> visited == old(visited)
      decreases |entries.Keys - (visited + {d.varname})|, 1
    {
      ghost var es := entries[d.varname].entities;
      visited := visited + {d.varname};
      ghost var v := visited;
      ghost var acc: seq<Sopheme> := [];
      assert sophemes == old(sophemes) + acc;
      var i := 0;
      while i < |d.rawables|
        invariant 0 <= i <= |d.rawables| == |es|
        invariant visited == v
        invariant CollectEntities(es[..i], entries, v) == Ok(acc)
        invariant sophemes == old(sophemes) + acc
      {
        assert d.rawables[i] == RawableEntity(es[i]);
        ghost var before := sophemes;
        err := VisitEntity(d.rawables[i].entity, entries);
        EntryStep(es, i, entries, v, acc);
        if err.Some? {
          return;
        }
        AppendAssoc(old(sophemes), acc, CollectEntity(es[i], entries, v).value);
        acc := acc + CollectEntity(es[i], entries, v).value;
        i := i + 1;
      }
      assert es[..i] == es;
      visited := visited - {d.varname};
      return None;
    }

    /** `dfs` on a rawable of the root or of a nested definition (view/mod.rs:78-107). */
    method Visit(r: Rawable, entries: map<string, EntitySeq>) returns (err: Option<string>)
      modifies this
      ensures var spec := CollectOne(r, entries, old(visited));
              (spec.Err? ==> err == Some(spec.msg)) &&
              (spec.Ok? ==> err.None? && sophemes == old(sophemes) + spec.value.sophemes && visited == spec.value.visited)
      decreases r, 0
    {
      match r {
        case RawableEntity(e) =>
          err := VisitEntity(e, entries);
        case NestedDef(cd) =>
          err := VisitDef(cd, entries);
      }
    }

    /** `dfs_def` on the root or a nested definition: insert its name, visit each
        rawable in turn, remove its name (view/mod.rs:110-120). */
    method VisitDef(d: RawDef, entries: map<string, EntitySeq>) returns (err: Option<string>)
      modifies this
      ensures var spec := CollectOne(NestedDef(d), entries, old(visited));
              (spec.Err? ==> err == Some(spec.msg)) &&
              (spec.Ok? ==> err.None? && sophemes == old(sophemes) + spec.value.sophemes && visited == spec.value.visited)
      decreases d, 1
    {
      visited := visited + {d.varname};
      ghost var v0 := visited;
      var c0 := CollectFrom(d, 0, entries, v0);
      if c0.Ok? {
        assert [] + c0.value.sophemes == c0.value.sophemes;
      }
      assert sophemes[|old(sophemes)|..] == [];
      var i := 0;
      while i < |d.rawables|
        invariant 0 <= i <= |d.rawables|
        invariant |old(sophemes)| <= |sophemes| && sophemes[..|old(sophemes)|] == old(sophemes)
        invariant CollectFrom(d, 0, entries, v0) == Prepend(sophemes[|old(sophemes)|..], CollectFrom(d, i, entries, visited))
      {
        ghost var acc := sophemes[|old(sophemes)|..];
        ghost var vi := visited;
        err := Visit(d.rawables[i], entries);
        if err.Some? {
          return;
        }
        ghost var h := CollectOne(d.rawables[i], entries, vi).value;
        PrependPrepend(acc, h.sophemes, CollectFrom(d, i + 1, entries, visited));
        assert sophemes[|old(sophemes)|..] == acc + h.sophemes;
        i := i + 1;
      }
      assert sophemes == old(sophemes) + sophemes[|old(sophemes)|..];
      visited := visited - {d.varname};
      return None;
    }
  }

  /** `collect_sophemes` run on the mutable buffers gives the collection defined
      above (view/mod.rs:77-128). */
  method CollectSophemesDfs(root: RawDef, entries: map<string, EntitySeq>) returns (r: Result<seq<Sopheme>>)
    ensures r == CollectSophemes(root, entries)
  {
    var c := new Collector();
    ghost var spec := CollectOne(NestedDef(root), entries, c.visited);
    var err := c.VisitDef(root, entries);
    assert spec.Ok? ==> c.sophemes == spec.value.sophemes;
    match err {
      case Some(m) => r := Err(m);
      case None => r := Ok(c.sophemes);
    }
  }

  /** All characters of the sophemes, in order. */
  function AllChars(ss: seq<Sopheme>): (r: string)
    decreases |ss|
  {
    if ss == [] then "" else ss[0].chars + AllChars(ss[1..])
  }

  /** The characters of each sopheme, in order. */
  function CharsList(ss: seq<Sopheme>): (r: seq<string>)
    ensures |r| == |ss| && forall i :: 0 <= i < |ss| ==> r[i] == ss[i].chars
  {
    seq(|ss|, i requires 0 <= i < |ss| => ss[i].chars)
  }

  /** Joining the characters with an empty separator concatenates them. */
  lemma {:induction false} AllCharsIsJoin(ss: seq<Sopheme>)
    ensures AllChars(ss) == Join(CharsList(ss), "")
    decreases |ss|
  {
    if |ss| > 1 {
      AllCharsIsJoin(ss[1..]);
      assert CharsList(ss) == [ss[0].chars] + CharsList(ss[1..]);
      JoinAppend([ss[0].chars], CharsList(ss[1..]), "");
    } else if |ss| == 1 {
      assert AllChars(ss[1..]) == "";
    }
  }

  /** `translation`: the characters of the collected sophemes joined with nothing
      between them, or the collection's error (view/mod.rs:130-138). */
  function Translation(root: RawDef, entries: map<string, EntitySeq>): (r: Result<string>)
    ensures r.Ok? <==> CollectSophemes(root, entries).Ok?
    ensures r.Ok? ==> r.value == AllChars(CollectSophemes(root, entries).value)
    ensures r.Err? ==> IsCollectError(r.msg)
  {
    match CollectSophemes(root, entries)
    case Err(m) => Err(m)
    case Ok(ss) =>
      AllCharsIsJoin(ss);
      Ok(Join(CharsList(ss), ""))
  }
}
