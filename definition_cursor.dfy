/** The older cursors over a definition tree (plover_hatchery_lib_rs/src/definition/iter.rs
    and definition/cursor/mod.rs): a stack cursor that steps in, over and out of items,
    and nested cursors that follow `inner` links down to a keysymbol. Items, children
    and entries are those of the newer view (module DefView). */
module DefinitionCursor {
  import opened Wrappers
  import opened DefItems
  import opened Defs
  import opened DefView

  /** One level of the stack cursor: the item and its index within its parent
      (`StackItem`, iter.rs:6-10). */
  datatype StackItem = StackItem(index: nat, item: Item)

  /** `StackItem::get`: the child at `index`; a dangling child counts as absent
      (iter.rs:21-25). */
  function ChildOf(s: StackItem, index: nat, entries: map<string, EntitySeq>): (r: Option<Item>)
    ensures r.Some? <==> ItemChild(s.item, index, entries).Some? && ItemChild(s.item, index, entries).value.Ok?
    ensures r.Some? ==> ItemChild(s.item, index, entries) == Some(Ok(r.value))
  {
    match ItemChild(s.item, index, entries)
    case Some(Ok(child)) => Some(child)
    case _ => None
  }

  /** The direction of a step (`StepDir`, iter.rs:34-39). */
  datatype StepDir = In | Over | Out

  /** What the next step will do (`StepData`, iter.rs:28-32). */
  datatype StepData = InTo(entered: StackItem) | OverTo(sibling: StackItem) | OutOf

  /** `next_step_data`: enter the tip's first child; else move to the tip's next
      sibling; else leave the tip. Nothing on an empty stack, nor when the root alone is
      left with no child (iter.rs:59-80). */
  function NextStepData(stack: seq<StackItem>, entries: map<string, EntitySeq>): (r: Option<StepData>)
    ensures r.None? <==> stack == [] || (|stack| == 1 && ChildOf(stack[0], 0, entries).None?)
    ensures r.Some? && r.value.InTo? <==> stack != [] && ChildOf(stack[|stack| - 1], 0, entries).Some?
    ensures r.Some? && r.value.InTo? ==> r.value.entered == StackItem(0, ChildOf(stack[|stack| - 1], 0, entries).value)
    ensures r.Some? && r.value.OverTo? <==>
              |stack| >= 2 && ChildOf(stack[|stack| - 1], 0, entries).None? &&
              ChildOf(stack[|stack| - 2], stack[|stack| - 1].index + 1, entries).Some?
    ensures r.Some? && r.value.OverTo? ==>
              r.value.sibling == StackItem(stack[|stack| - 1].index + 1, ChildOf(stack[|stack| - 2], stack[|stack| - 1].index + 1, entries).value)
  {
    if stack == [] then None
    else
      var tip := stack[|stack| - 1];
      match ChildOf(tip, 0, entries)
      case Some(inner) => Some(InTo(StackItem(0, inner)))
      case None =>
        if |stack| < 2 then None
        else
          match ChildOf(stack[|stack| - 2], tip.index + 1, entries)
          case Some(inner) => Some(OverTo(StackItem(tip.index + 1, inner)))
          case None => Some(OutOf)
  }

  /** The stack after a step: push the entered child, replace the tip by its sibling, or
      pop the tip (iter.rs:82-104). */
  function ApplyStep(stack: seq<StackItem>, data: StepData): (r: seq<StackItem>)
    requires stack != []
  {
    match data
    case InTo(x) => stack + [x]
    case OverTo(x) => stack[..|stack| - 1] + [x]
    case OutOf => stack[..|stack| - 1]
  }

  /** The direction reported for a step. */
  function DirOf(data: StepData): StepDir {
    match data
    case InTo(_) => In
    case OverTo(_) => Over
    case OutOf => Out
  }

  /** Every level above the bottom is the child of the level below it, at the index it
      records: the stack is a path down from its bottom item. */
  predicate IsPath(stack: seq<StackItem>, entries: map<string, EntitySeq>) {
    forall k :: 0 < k < |stack| ==> ChildOf(stack[k - 1], stack[k].index, entries) == Some(stack[k].item)
  }

  /** The child indexes that lead from the bottom item to the tip. */
  function IndexesOf(stack: seq<StackItem>): (r: seq<nat>)
    requires stack != []
    ensures |r| == |stack| - 1
    ensures forall k :: 0 <= k < |r| ==> r[k] == stack[k + 1].index
  {
    seq(|stack| - 1, k requires 0 <= k < |stack| - 1 => stack[k + 1].index)
  }

  /** A step keeps the stack a path from the same bottom item, and never empties it:
      the root is entered but never left. */
  lemma StepKeepsPath(stack: seq<StackItem>, entries: map<string, EntitySeq>)
    requires stack != [] && IsPath(stack, entries)
    requires NextStepData(stack, entries).Some?
    ensures var after := ApplyStep(stack, NextStepData(stack, entries).value);
            after != [] && after[0] == stack[0] && IsPath(after, entries)
  {
    var data := NextStepData(stack, entries).value;
    var after := ApplyStep(stack, data);
    var n := |stack|;
    match data
    case InTo(x) =>
      assert forall k :: 0 <= k < n ==> after[k] == stack[k];
    case OverTo(x) =>
      assert forall k :: 0 <= k < n - 1 ==> after[k] == stack[k];
      assert after[n - 1] == x;
    case OutOf =>
      assert forall k :: 0 <= k < n - 1 ==> after[k] == stack[k];
  }

  /** On a path, following the recorded indexes from the bottom item reaches the tip. */
  lemma {:induction false} PathReachesTip(stack: seq<StackItem>, entries: map<string, EntitySeq>)
    requires stack != [] && IsPath(stack, entries)
    ensures ReadPath(stack[0].item, IndexesOf(stack), entries) == Some(Ok(stack[|stack| - 1].item))
    decreases |stack|
  {
    var n := |stack|;
    if n > 1 {
      var init := stack[..n - 1];
      assert IsPath(init, entries) by {
        forall k | 0 < k < |init|
          ensures ChildOf(init[k - 1], init[k].index, entries) == Some(init[k].item)
        {
          assert init[k - 1] == stack[k - 1] && init[k] == stack[k];
        }
      }
      PathReachesTip(init, entries);
      assert IndexesOf(stack) == IndexesOf(init) + [stack[n - 1].index];
      ReadPathAppend(stack[0].item, IndexesOf(init), [stack[n - 1].index], entries);
      assert init[|init| - 1] == stack[n - 2];
      assert ItemChild(stack[n - 2].item, stack[n - 1].index, entries) == Some(Ok(stack[n - 1].item));
      assert [stack[n - 1].index][1..] == [];
    }
  }

  /** The stack cursor (`DefViewCursor`, iter.rs:41-105). */
  class StackCursor {
    var stack: seq<StackItem>

    /** `new`: the root alone, at index 0 (iter.rs:47-57). */
    constructor New(root: RawDef)
      ensures stack == [StackItem(0, DefItem(root))]
    {
      stack := [StackItem(0, DefItem(root))];
    }

    /** `step`: performs the next step and reports its direction; nothing moves when
        there is no next step (iter.rs:82-104). */
    method Step(entries: map<string, EntitySeq>) returns (r: Option<StepDir>)
      modifies this
      ensures r.None? <==> NextStepData(old(stack), entries).None?
      ensures r.None? ==> stack == old(stack)
      ensures r.Some? ==>
                old(stack) != [] &&
                r.value == DirOf(NextStepData(old(stack), entries).value) &&
                stack == ApplyStep(old(stack), NextStepData(old(stack), entries).value)
    {
      var data := NextStepData(stack, entries);
      if data.None? {
        return None;
      }
      match data.value {
        case InTo(x) =>
          stack := stack + [x];
          r := Some(In);
        case OverTo(x) =>
          stack := stack[..|stack| - 1] + [x];
          r := Some(Over);
        case OutOf =>
          stack := stack[..|stack| - 1];
          r := Some(Out);
      }
    }
  }

  /** A step from a path follows the tree: entering gives the tip's first child, moving
      over gives the next sibling under the same parent, and the index path still
      leads from the root to the new tip. */
  lemma StepFollowsTree(stack: seq<StackItem>, entries: map<string, EntitySeq>)
    requires stack != [] && IsPath(stack, entries)
    requires NextStepData(stack, entries).Some?
    ensures var after := ApplyStep(stack, NextStepData(stack, entries).value);
            ReadPath(stack[0].item, IndexesOf(after), entries) == Some(Ok(after[|after| - 1].item))
    ensures NextStepData(stack, entries).value.InTo? ==>
              ReadPath(stack[0].item, IndexesOf(stack) + [0], entries) ==
              Some(Ok(NextStepData(stack, entries).value.entered.item))
  {
    var data := NextStepData(stack, entries).value;
    var after := ApplyStep(stack, data);
    StepKeepsPath(stack, entries);
    PathReachesTip(after, entries);
    if data.InTo? {
      assert IndexesOf(after) == IndexesOf(stack) + [0];
    }
  }

  /** As written, a step out lands on the parent, whose first child is the level just
      left when that level was a first child; the next step enters it again, and the
      step after that leaves it again. So from the first such step out the cursor goes
      In and Out forever and never moves over to the parent's next sibling. */
  lemma OutReenters(stack: seq<StackItem>, entries: map<string, EntitySeq>)
    requires IsPath(stack, entries) && |stack| >= 2 && stack[|stack| - 1].index == 0
    requires NextStepData(stack, entries) == Some(OutOf)
    ensures var up := ApplyStep(stack, OutOf);
            && NextStepData(up, entries) == Some(InTo(stack[|stack| - 1]))
            && ApplyStep(up, InTo(stack[|stack| - 1])) == stack
  {
    var n := |stack|;
    var up := stack[..n - 1];
    assert up[|up| - 1] == stack[n - 2];
    assert ChildOf(stack[n - 2], 0, entries) == Some(stack[n - 1].item);
    assert up + [stack[n - 1]] == stack;
  }

  /** The step as evidently intended: a cursor that has just stepped out does not enter
      its tip again, but moves over to the tip's next sibling, or steps out further;
      otherwise it steps as written. */
  function NextStepDataFixed(stack: seq<StackItem>, leaving: bool, entries: map<string, EntitySeq>): (r: Option<StepData>)
    ensures !leaving ==> r == NextStepData(stack, entries)
    ensures leaving ==> r.None? || !r.value.InTo?
    ensures leaving ==> (r.None? <==> |stack| < 2)
    ensures leaving && r.Some? && r.value.OverTo? ==>
              |stack| >= 2 && r.value.sibling.index == stack[|stack| - 1].index + 1 &&
              ChildOf(stack[|stack| - 2], r.value.sibling.index, entries) == Some(r.value.sibling.item)
  {
    if !leaving then NextStepData(stack, entries)
    else if |stack| < 2 then None
    else
      var tip := stack[|stack| - 1];
      match ChildOf(stack[|stack| - 2], tip.index + 1, entries)
      case Some(inner) => Some(OverTo(StackItem(tip.index + 1, inner)))
      case None => Some(OutOf)
  }

  /** The entry "a.a": one sopheme spelt "a" with the one keysymbol "a". As written,
      the cursor steps In, In and Out, and is then back on the sopheme, which it enters
      and leaves again forever. As intended, it steps In, In, Out and Out, and then has
      no next step. */
  lemma SingleSophemeSteps(root: RawDef, s: Sopheme, k: Keysymbol, entries: map<string, EntitySeq>)
    requires k == Keysymbol("a", "a", 0, false) && s == Sopheme("a", [k])
    requires root == RawDef([RawableEntity(SophemeEntity(s))], "a")
    ensures var s0 := [StackItem(0, DefItem(root))];
            var s1 := s0 + [StackItem(0, SophemeItem(s))];
            var s2 := s1 + [StackItem(0, KeysymbolItem(k))];
            && NextStepData(s0, entries) == Some(InTo(StackItem(0, SophemeItem(s))))
            && NextStepData(s1, entries) == Some(InTo(StackItem(0, KeysymbolItem(k))))
            && NextStepData(s2, entries) == Some(OutOf) && ApplyStep(s2, OutOf) == s1
            && NextStepDataFixed(s2, false, entries) == Some(OutOf)
            && NextStepDataFixed(s1, true, entries) == Some(OutOf) && ApplyStep(s1, OutOf) == s0
            && NextStepDataFixed(s0, true, entries) == None
  {
    var s0 := [StackItem(0, DefItem(root))];
    var s1 := s0 + [StackItem(0, SophemeItem(s))];
    var s2 := s1 + [StackItem(0, KeysymbolItem(k))];
    assert ChildOf(StackItem(0, DefItem(root)), 0, entries) == Some(SophemeItem(s));
    assert ChildOf(StackItem(0, SophemeItem(s)), 0, entries) == Some(KeysymbolItem(k));
    assert ChildOf(StackItem(0, KeysymbolItem(k)), 0, entries).None?;
    assert ChildOf(StackItem(0, SophemeItem(s)), 1, entries).None?;
    assert ChildOf(StackItem(0, DefItem(root)), 1, entries).None?;
    assert s2[..|s2| - 1] == s1;
    assert s1[..|s1| - 1] == s0;
  }

  /** What a nested cursor points at: an element of a definition, or a keysymbol
      (`CursorItem`, cursor/mod.rs:3-6). */
  datatype CursorItem = EntityAt(rawable: Rawable) | KeysymbolAt(keysymbol: Keysymbol)

  /** A nested cursor (`Cursor`, cursor/mod.rs:9-14): over the elements of an owned
      definition (the entry a transclusion names) or of a nested definition, each with
      the cursor it has stepped into, if any; or over the keysymbols of a sopheme. */
  datatype Cursor =
    | OwnedDefCursor(def: RawDef, entityIndex: nat, inner: Option<Cursor>)
    | DefRefCursor(def: RawDef, entityIndex: nat, inner: Option<Cursor>)
    | SophemeCursor(sopheme: Sopheme, keysymbolIndex: nat)

  /** `Cursor::initial`: a sopheme gives a cursor on its first keysymbol, a transclusion
      a cursor on the first element of the entry it names, which must exist, and a
      nested definition a cursor on its first element (cursor/mod.rs:17-31). */
  function InitialCursor(r: Rawable, entries: map<string, EntitySeq>): (c: Result<Cursor>)
    ensures c.Err? <==> r.RawableEntity? && r.entity.TransclusionEntity? && r.entity.transclusion.targetVarname !in entries
    ensures c.Err? ==> c.msg == "could not find transcluded value"
    ensures c.Ok? ==> !c.value.SophemeCursor? ==> c.value.entityIndex == 0 && c.value.inner.None?
    ensures c.Ok? && c.value.SophemeCursor? ==> c.value.keysymbolIndex == 0 && r == RawableEntity(SophemeEntity(c.value.sopheme))
    ensures c.Ok? && c.value.OwnedDefCursor? ==>
              r.RawableEntity? && r.entity.TransclusionEntity? &&
              c.value.def.varname == r.entity.transclusion.targetVarname &&
              EntitiesOf(c.value.def.rawables) == Some(entries[r.entity.transclusion.targetVarname].entities)
    ensures c.Ok? && c.value.DefRefCursor? ==> r == NestedDef(c.value.def)
  {
    match r
    case RawableEntity(SophemeEntity(s)) => Ok(SophemeCursor(s, 0))
    case RawableEntity(TransclusionEntity(t)) =>
      (match LookupDef(entries, t.targetVarname)
       case Some(d) => Ok(OwnedDefCursor(d, 0, None))
       case None => Err("could not find transcluded value"))
    case NestedDef(d) => Ok(DefRefCursor(d, 0, None))
  }

  /** `get_item`: the element or keysymbol at the cursor's own index, if in range
      (cursor/mod.rs:43-49, 84-86, 109-111, 144-146). */
  function CursorItemOf(c: Cursor): (r: Option<CursorItem>)
    ensures c.SophemeCursor? ==> (r.Some? <==> c.keysymbolIndex < |c.sopheme.keysymbols|)
    ensures c.SophemeCursor? && r.Some? ==> r.value == KeysymbolAt(c.sopheme.keysymbols[c.keysymbolIndex])
    ensures !c.SophemeCursor? ==> (r.Some? <==> c.entityIndex < |c.def.rawables|)
    ensures !c.SophemeCursor? && r.Some? ==> r.value == EntityAt(c.def.rawables[c.entityIndex])
  {
    match c
    case SophemeCursor(s, i) =>
      (match SophemeGet(s, i)
       case Some(k) => Some(KeysymbolAt(k))
       case None => None)
    case OwnedDefCursor(d, i, _) =>
      (match DefGet(d, i)
       case Some(e) => Some(EntityAt(e))
       case None => None)
    case DefRefCursor(d, i, _) =>
      (match DefGet(d, i)
       case Some(e) => Some(EntityAt(e))
       case None => None)
  }

  /** `get_inner`: the cursor stepped into, if any; a sopheme cursor has none
      (cursor/mod.rs:51-57). */
  function InnerOf(c: Cursor): (r: Option<Cursor>)
    ensures c.SophemeCursor? ==> r.None?
    ensures !c.SophemeCursor? ==> r == c.inner
  {
    match c
    case SophemeCursor(_, _) => None
    case OwnedDefCursor(_, _, inner) => inner
    case DefRefCursor(_, _, inner) => inner
  }

  /** The number of `inner` links below a cursor. */
  function Depth(c: Cursor): nat {
    match c
    case SophemeCursor(_, _) => 0
    case OwnedDefCursor(_, _, inner) => if inner.Some? then 1 + Depth(inner.value) else 0
    case DefRefCursor(_, _, inner) => if inner.Some? then 1 + Depth(inner.value) else 0
  }

  /** The cursor at the end of the chain of `inner` links. */
  function Innermost(c: Cursor): (t: Cursor)
    ensures InnerOf(t).None?
    decreases Depth(c)
  {
    match InnerOf(c)
    case None => c
    case Some(inner) => Innermost(inner)
  }

  /** The innermost cursor is the cursor itself when it has no inner one, and otherwise
      the innermost cursor of the one it stepped into: stepping in moves the tip down. */
  lemma {:induction false} InnermostFollowsInner(c: Cursor)
    ensures InnerOf(c).None? ==> Innermost(c) == c
    ensures InnerOf(c).Some? ==> Innermost(c) == Innermost(InnerOf(c).value) && Depth(InnerOf(c).value) < Depth(c)
  {
  }

  /** `cur_tip_item`: follows `inner` links down to the innermost cursor and returns
      its item (cursor/mod.rs:33-41). */
  method CurTipItem(c: Cursor) returns (r: Option<CursorItem>)
    ensures r == CursorItemOf(Innermost(c))
    ensures r.Some? && r.value.KeysymbolAt? ==> Innermost(c).SophemeCursor?
  {
    var current := c;
    while InnerOf(current).Some?
      invariant Innermost(current) == Innermost(c)
      decreases Depth(current)
    {
      current := InnerOf(current).value;
    }
    r := CursorItemOf(current);
  }

  /** A cursor over the keysymbols of a sopheme (`SophemeCursor`,
      cursor/mod.rs:130-157). */
  class SophemeKeysymbolCursor {
    const sopheme: Sopheme
    var keysymbolIndex: nat

    /** `initial`: on the first keysymbol (cursor/mod.rs:137-142). */
    constructor Initial(sopheme: Sopheme)
      ensures this.sopheme == sopheme && keysymbolIndex == 0
    {
      this.sopheme := sopheme;
      keysymbolIndex := 0;
    }

    /** `cur_keysymbol`: `keysymbols.get(index)` (cursor/mod.rs:144-146). */
    function CurKeysymbol(): (r: Option<Keysymbol>)
      reads this
      ensures r == SophemeGet(sopheme, keysymbolIndex)
    {
      if keysymbolIndex < |sopheme.keysymbols| then Some(sopheme.keysymbols[keysymbolIndex]) else None
    }

    /** `next`: moves past the current keysymbol; past the end it fails with
        "already at end" and nothing changes (cursor/mod.rs:148-156). */
    method Next() returns (r: Result<()>)
      modifies this
      ensures old(keysymbolIndex) < |sopheme.keysymbols| ==> r == Ok(()) && keysymbolIndex == old(keysymbolIndex) + 1
      ensures old(keysymbolIndex) >= |sopheme.keysymbols| ==> r == Err("already at end") && keysymbolIndex == old(keysymbolIndex)
      ensures keysymbolIndex <= |sopheme.keysymbols| || keysymbolIndex == old(keysymbolIndex)
    {
      match CurKeysymbol() {
        case Some(_) =>
          keysymbolIndex := keysymbolIndex + 1;
          r := Ok(());
        case None =>
          r := Err("already at end");
      }
    }
  }

  /** A cursor over the elements of a nested definition that can step into the
      current element (`DefRefCursor`, cursor/mod.rs:91-128). */
  class DefRefStepCursor {
    const def: RawDef
    var entityIndex: nat
    var inner: Option<Cursor>

    /** `initial`: on the first element, not stepped in (cursor/mod.rs:101-107). */
    constructor Initial(def: RawDef)
      ensures this.def == def && entityIndex == 0 && inner.None?
    {
      this.def := def;
      entityIndex := 0;
      inner := None;
    }

    /** The cursor as a value. */
    function AsCursor(): (c: Cursor)
      reads this
      ensures c.DefRefCursor? && c.def == def && c.entityIndex == entityIndex && c.inner == inner
    {
      DefRefCursor(def, entityIndex, inner)
    }

    /** `cur_entity` (cursor/mod.rs:109-111). */
    function CurEntity(): (r: Option<Rawable>)
      reads this
      ensures r == DefGet(def, entityIndex)
    {
      if entityIndex < |def.rawables| then Some(def.rawables[entityIndex]) else None
    }

    /** `step_in`: refuses when already stepped in or when not on an element, passes on
        the error of a dangling transclusion, and otherwise steps into the current
        element (cursor/mod.rs:113-127). */
    method StepIn(entries: map<string, EntitySeq>) returns (r: Result<()>)
      modifies this
      ensures entityIndex == old(entityIndex)
      ensures old(inner).Some? ==> r == Err("already has an inner cursor") && inner == old(inner)
      ensures old(inner).None? && old(CurEntity()).None? ==> r == Err("not pointing to an entity") && inner.None?
      ensures old(inner).None? && old(CurEntity()).Some? ==>
                match InitialCursor(old(CurEntity()).value, entries)
                case Ok(c) => r == Ok(()) && inner == Some(c)
                case Err(m) => r == Err(m) && inner.None?
    {
      if inner.Some? {
        return Err("already has an inner cursor");
      }
      var current := CurEntity();
      if current.None? {
        return Err("not pointing to an entity");
      }
      var cursor := InitialCursor(current.value, entries);
      match cursor {
        case Err(m) =>
          return Err(m);
        case Ok(c) =>
          inner := Some(c);
          return Ok(());
      }
    }
  }

  /** After a successful step in on a nested definition's element, the tip of the
      cursor is the first item of that element: its first keysymbol for a sopheme, its
      first element for a nested definition. */
  lemma StepInMovesTip(def: RawDef, index: nat, r: Rawable, entries: map<string, EntitySeq>)
    requires InitialCursor(r, entries).Ok?
    ensures var c := InitialCursor(r, entries).value;
            Innermost(DefRefCursor(def, index, Some(c))) == c &&
            (r.NestedDef? ==> CursorItemOf(c) == (if r.def.rawables == [] then None else Some(EntityAt(r.def.rawables[0])))) &&
            (r.RawableEntity? && r.entity.SophemeEntity? ==>
               CursorItemOf(c) == (if r.entity.sopheme.keysymbols == [] then None else Some(KeysymbolAt(r.entity.sopheme.keysymbols[0]))))
  {
    var c := InitialCursor(r, entries).value;
    InnermostFollowsInner(DefRefCursor(def, index, Some(c)));
    InnermostFollowsInner(c);
  }
}
