/** Cursors over the children of an item, and the stack of such cursors that walks a
    definition tree depth first (plover_hatchery_lib_rs/src/defs/cursor/iter.rs and
    cursor/mod.rs), with the consonant searches built on it
    (plover_hatchery_lib_rs/src/defs/view/mod.rs:165-200). */
module DefCursor {
  import opened Wrappers
  import opened DefItems
  import opened Defs
  import opened DefView

  /** The index after `i`: the first child when none has been visited yet
      (`incr`, cursor/iter.rs:52-62). */
  function IncrIndex(i: Option<nat>): (r: Option<nat>)
    ensures r.Some?
    ensures r.value == if i.None? then 0 else i.value + 1
  {
    match i
    case None => Some(0)
    case Some(k) => Some(k + 1)
  }

  /** The index before `i`: before the first child there is none
      (`decr`, cursor/iter.rs:64-76). */
  function DecrIndex(i: Option<nat>): (r: Option<nat>)
    ensures i.None? ==> r.None?
    ensures i.Some? && i.value > 0 ==> r == Some(i.value - 1)
    ensures i == Some(0) ==> r.None?
  {
    match i
    case None => None
    case Some(k) => if k == 0 then None else Some(k - 1)
  }

  /** Stepping back undoes stepping forward, and stepping forward undoes stepping back
      from any started position. */
  lemma IncrDecrInverse(i: Option<nat>)
    ensures DecrIndex(IncrIndex(i)) == i
    ensures i.Some? ==> IncrIndex(DecrIndex(i)) == i
  {
  }

  /** The state of a children cursor: the item and the index of the current child, if
      any (`DefViewItemRefChildrenCursor`, cursor/iter.rs:3-6). */
  datatype ChildrenState = ChildrenState(item: Item, index: Option<nat>)

  /** `new_at_start`: before the first child (cursor/iter.rs:9-14). */
  function AtStart(item: Item): (c: ChildrenState)
    ensures c.item == item && c.index.None?
  {
    ChildrenState(item, None)
  }

  /** `new_at_end`: on the last child, or before any child when there is none
      (cursor/iter.rs:16-22). */
  function AtEnd(item: Item): (c: ChildrenState)
    ensures c.item == item
    ensures c.index.Some? <==> NChildren(item) > 0
    ensures c.index.Some? ==> c.index.value == NChildren(item) - 1
  {
    ChildrenState(item, if NChildren(item) > 0 then Some(NChildren(item) - 1) else None)
  }

  /** `peek`: the current child; nothing before the first child or past the last
      (cursor/iter.rs:38-40). */
  function PeekState(c: ChildrenState, entries: map<string, EntitySeq>): (r: Option<Result<Item>>)
    ensures r.Some? <==> c.index.Some? && c.index.value < NChildren(c.item)
    ensures c.index.Some? ==> r == ItemChild(c.item, c.index.value, entries)
  {
    match c.index
    case None => None
    case Some(k) => ItemChild(c.item, k, entries)
  }

  /** A cursor placed at the end shows the last child, and the step after it finds
      nothing. */
  lemma AtEndPeek(item: Item, entries: map<string, EntitySeq>)
    ensures PeekState(AtEnd(item), entries).Some? <==> NChildren(item) > 0
    ensures PeekState(ChildrenState(item, IncrIndex(AtEnd(item).index)), entries).None?
  {
  }

  /** `create_child_iter_at_start`: a cursor at the start of the current child, the
      error of a dangling child, or nothing when there is no current child
      (cursor/iter.rs:24-29). */
  function CreateChildAtStart(c: ChildrenState, entries: map<string, EntitySeq>): (r: Option<Result<ChildrenState>>)
    ensures r.Some? <==> PeekState(c, entries).Some?
    ensures r.Some? && r.value.Err? ==> PeekState(c, entries) == Some(Err(r.value.msg))
    ensures r.Some? && r.value.Ok? ==> PeekState(c, entries) == Some(Ok(r.value.value.item)) && r.value.value.index.None?
  {
    match PeekState(c, entries)
    case None => None
    case Some(Err(m)) => Some(Err(m))
    case Some(Ok(child)) => Some(Ok(AtStart(child)))
  }

  /** `create_child_iter_at_end`: as above, with the new cursor at the end of the
      current child (cursor/iter.rs:31-36). */
  function CreateChildAtEnd(c: ChildrenState, entries: map<string, EntitySeq>): (r: Option<Result<ChildrenState>>)
    ensures r.Some? <==> PeekState(c, entries).Some?
    ensures r.Some? && r.value.Err? ==> PeekState(c, entries) == Some(Err(r.value.msg))
    ensures r.Some? && r.value.Ok? ==> PeekState(c, entries) == Some(Ok(r.value.value.item)) && r.value.value == AtEnd(r.value.value.item)
  {
    match PeekState(c, entries)
    case None => None
    case Some(Err(m)) => Some(Err(m))
    case Some(Ok(child)) => Some(Ok(AtEnd(child)))
  }

  /** A cursor over the children of one item (`DefViewItemRefChildrenCursor`,
      cursor/iter.rs:3-89). */
  class ChildrenCursor {
    const item: Item
    var index: Option<nat>

    function State(): ChildrenState
      reads this
    {
      ChildrenState(item, index)
    }

    /** `new_at_start` (cursor/iter.rs:9-14). */
    constructor NewAtStart(item: Item)
      ensures State() == AtStart(item)
    {
      this.item := item;
      index := None;
    }

    /** `new_at_end` (cursor/iter.rs:16-22). */
    constructor NewAtEnd(item: Item)
      ensures State() == AtEnd(item)
    {
      this.item := item;
      index := if NChildren(item) > 0 then Some(NChildren(item) - 1) else None;
    }

    /** `peek` (cursor/iter.rs:38-40). */
    function Peek(entries: map<string, EntitySeq>): (r: Option<Result<Item>>)
      reads this
      ensures r == PeekState(State(), entries)
    {
      if index.None? then None else ItemChild(item, index.value, entries)
    }

    /** `incr` (cursor/iter.rs:52-62). */
    method Incr()
      modifies this
      ensures index == IncrIndex(old(index))
    {
      match index {
        case Some(k) => index := Some(k + 1);
        case None => index := Some(0);
      }
    }

    /** `decr` (cursor/iter.rs:64-76). */
    method Decr()
      modifies this
      ensures index == DecrIndex(old(index))
    {
      match index {
        case Some(k) =>
          if k == 0 {
            index := None;
          } else {
            index := Some(k - 1);
          }
        case None =>
      }
    }

    /** `next`: `incr`, then `peek` (cursor/iter.rs:42-45). */
    method Next(entries: map<string, EntitySeq>) returns (r: Option<Result<Item>>)
      modifies this
      ensures index == IncrIndex(old(index))
      ensures r == PeekState(State(), entries)
    {
      Incr();
      r := Peek(entries);
    }

    /** `prev`: `decr`, then `peek` (cursor/iter.rs:47-50). */
    method Prev(entries: map<string, EntitySeq>) returns (r: Option<Result<Item>>)
      modifies this
      ensures index == DecrIndex(old(index))
      ensures r == PeekState(State(), entries)
    {
      Decr();
      r := Peek(entries);
    }
  }

  /** The top cursor moved one child forward. */
  function Advance(c: ChildrenState): (a: ChildrenState)
    ensures a.item == c.item && a.index == IncrIndex(c.index)
  {
    ChildrenState(c.item, IncrIndex(c.index))
  }

  /** What a step reports, and the stack it leaves. */
  datatype StepOutcome = StepOutcome(item: Option<Result<Item>>, stack: seq<ChildrenState>)

  /** `step_over`: advance the top cursor; if it shows a child, report it, and
      otherwise drop that cursor and try the one below; nothing once the stack is
      empty (cursor/mod.rs:43-57). */
  function StepOverSpec(stack: seq<ChildrenState>, entries: map<string, EntitySeq>): (o: StepOutcome)
    ensures o.item.None? <==> o.stack == []
    decreases |stack|
  {
    if stack == [] then StepOutcome(None, [])
    else
      var top := Advance(stack[|stack| - 1]);
      match PeekState(top, entries)
      case Some(x) => StepOutcome(Some(x), stack[..|stack| - 1] + [top])
      case None => StepOverSpec(stack[..|stack| - 1], entries)
  }

  /** Stepping over only drops cursors from the top and advances the cursor it stops
      at, and the item it reports is the child that cursor now shows. */
  lemma {:induction false} StepOverShape(stack: seq<ChildrenState>, entries: map<string, EntitySeq>)
    ensures var o := StepOverSpec(stack, entries);
            && |o.stack| <= |stack|
            && (o.stack != [] ==> o.stack[..|o.stack| - 1] == stack[..|o.stack| - 1])
            && (o.stack != [] ==> o.stack[|o.stack| - 1] == Advance(stack[|o.stack| - 1]))
            && (o.item.Some? ==> o.item == PeekState(o.stack[|o.stack| - 1], entries))
    decreases |stack|
  {
    if stack != [] {
      var top := Advance(stack[|stack| - 1]);
      var init := stack[..|stack| - 1];
      if PeekState(top, entries).None? {
        StepOverShape(init, entries);
        var o := StepOverSpec(init, entries);
        if o.stack != [] {
          var n := |o.stack|;
          assert init[..n - 1] == stack[..n - 1];
          assert init[n - 1] == stack[n - 1];
        }
      } else {
        assert (init + [top])[..|stack| - 1] == init;
      }
    }
  }

  /** `step`: first enter the current child, if there is one, by pushing a cursor at
      its start; a dangling child is reported as the error and nothing moves. Then
      `step_over` (cursor/mod.rs:28-41). */
  function StepSpec(stack: seq<ChildrenState>, entries: map<string, EntitySeq>): (o: StepOutcome)
    ensures o.item.None? <==> o.stack == []
  {
    if stack == [] then StepOutcome(None, [])
    else
      match CreateChildAtStart(stack[|stack| - 1], entries)
      case Some(Err(m)) => StepOutcome(Some(Err(m)), stack)
      case Some(Ok(child)) => StepOverSpec(stack + [child], entries)
      case None => StepOverSpec(stack, entries)
  }

  /** Every cursor below the top is on a child, and the cursor above it is over that
      child: the stack is a path from its bottom item. */
  predicate WellFormed(stack: seq<ChildrenState>, entries: map<string, EntitySeq>) {
    forall k :: 0 <= k < |stack| - 1 ==>
      stack[k].index.Some? && ItemChild(stack[k].item, stack[k].index.value, entries) == Some(Ok(stack[k + 1].item))
  }

  /** Stepping over keeps the stack a path from the same bottom item. */
  lemma StepOverWellFormed(stack: seq<ChildrenState>, entries: map<string, EntitySeq>)
    requires WellFormed(stack, entries)
    ensures WellFormed(StepOverSpec(stack, entries).stack, entries)
    ensures StepOverSpec(stack, entries).stack != [] ==> StepOverSpec(stack, entries).stack[0].item == stack[0].item
  {
    var o := StepOverSpec(stack, entries);
    StepOverShape(stack, entries);
    if o.stack != [] {
      var n := |o.stack|;
      assert o.stack[..n - 1] == stack[..n - 1];
      forall k | 0 <= k < n - 1
        ensures o.stack[k] == stack[k]
      {
        assert o.stack[..n - 1][k] == stack[..n - 1][k];
      }
      if n >= 2 {
        assert o.stack[n - 1].item == stack[n - 1].item;
      }
    }
  }

  /** Stepping keeps the stack a path from the same bottom item. */
  lemma StepWellFormed(stack: seq<ChildrenState>, entries: map<string, EntitySeq>)
    requires WellFormed(stack, entries)
    ensures WellFormed(StepSpec(stack, entries).stack, entries)
    ensures StepSpec(stack, entries).stack != [] ==> StepSpec(stack, entries).stack[0].item == stack[0].item
  {
    if stack != [] {
      match CreateChildAtStart(stack[|stack| - 1], entries)
      case Some(Err(m)) =>
      case Some(Ok(child)) =>
        var pushed := stack + [child];
        assert WellFormed(pushed, entries) by {
          forall k | 0 <= k < |pushed| - 1
            ensures pushed[k].index.Some? && ItemChild(pushed[k].item, pushed[k].index.value, entries) == Some(Ok(pushed[k + 1].item))
          {
            if k < |stack| - 1 {
              assert pushed[k] == stack[k] && pushed[k + 1] == stack[k + 1];
            }
          }
        }
        StepOverWellFormed(pushed, entries);
      case None =>
        StepOverWellFormed(stack, entries);
    }
  }

  /** `index_stack`: each cursor's index, with an unstarted cursor reported as 0
      (cursor/mod.rs:59-63). */
  function IndexStackOf(stack: seq<ChildrenState>): (r: seq<nat>)
    ensures |r| == |stack|
    ensures forall k :: 0 <= k < |stack| ==> r[k] == if stack[k].index.Some? then stack[k].index.value else 0
  {
    seq(|stack|, k requires 0 <= k < |stack| => if stack[k].index.Some? then stack[k].index.value else 0)
  }

  /** On a stack that is a path, reading the index stack from the bottom item reaches
      the child the top cursor shows. */
  lemma {:induction false} ReadIndexStack(stack: seq<ChildrenState>, entries: map<string, EntitySeq>)
    requires stack != [] && WellFormed(stack, entries)
    requires stack[|stack| - 1].index.Some?
    ensures ReadPath(stack[0].item, IndexStackOf(stack), entries) == PeekState(stack[|stack| - 1], entries)
    decreases |stack|
  {
    var path := IndexStackOf(stack);
    if |stack| == 1 {
      assert path[1..] == [];
    } else {
      var rest := stack[1..];
      assert WellFormed(rest, entries) by {
        forall k | 0 <= k < |rest| - 1
          ensures rest[k].index.Some? && ItemChild(rest[k].item, rest[k].index.value, entries) == Some(Ok(rest[k + 1].item))
        {
          assert rest[k] == stack[k + 1] && rest[k + 1] == stack[k + 2];
        }
      }
      ReadIndexStack(rest, entries);
      assert path[1..] == IndexStackOf(rest);
      assert ItemChild(stack[0].item, path[0], entries) == Some(Ok(stack[1].item));
    }
  }

  /** After a step that reports an item, the index stack locates that item: reading it
      from the bottom item gives the item reported. */
  lemma StepLocatesItem(stack: seq<ChildrenState>, entries: map<string, EntitySeq>)
    requires stack != [] && WellFormed(stack, entries)
    ensures var o := StepSpec(stack, entries);
            o.item.Some? && o.item.value.Ok? ==>
              o.stack != [] && ReadPath(stack[0].item, IndexStackOf(o.stack), entries) == o.item
  {
    var o := StepSpec(stack, entries);
    StepWellFormed(stack, entries);
    if o.item.Some? && o.item.value.Ok? {
      assert o.stack != [];
      var c := CreateChildAtStart(stack[|stack| - 1], entries);
      assert c.None? || c.value.Ok?;
      if c.None? {
        StepOverShape(stack, entries);
      } else {
        StepOverShape(stack + [c.value.value], entries);
      }
      var top := o.stack[|o.stack| - 1];
      assert top.index.Some?;
      ReadIndexStack(o.stack, entries);
    }
  }

  /** The walker over a definition tree (`DefViewCursor`, cursor/mod.rs:12-15). */
  class DefViewCursor {
    var stack: seq<ChildrenState>

    /** `of_view`: one cursor, at the start of the root (cursor/mod.rs:18-26). */
    constructor OfView(root: RawDef)
      ensures stack == [AtStart(DefItem(root))]
    {
      stack := [AtStart(DefItem(root))];
    }

    /** `step_over` (cursor/mod.rs:43-57). */
    method StepOver(entries: map<string, EntitySeq>) returns (r: Option<Result<Item>>)
      modifies this
      ensures StepOutcome(r, stack) == StepOverSpec(old(stack), entries)
    {
      while true
        invariant StepOverSpec(old(stack), entries) == StepOverSpec(stack, entries)
        decreases |stack|
      {
        if stack == [] {
          return None;
        }
        var top := Advance(stack[|stack| - 1]);
        var peeked := PeekState(top, entries);
        if peeked.Some? {
          stack := stack[..|stack| - 1] + [top];
          return peeked;
        }
        stack := stack[..|stack| - 1];
      }
    }

    /** `step` (cursor/mod.rs:28-41). */
    method Step(entries: map<string, EntitySeq>) returns (r: Option<Result<Item>>)
      modifies this
      ensures StepOutcome(r, stack) == StepSpec(old(stack), entries)
    {
      if stack == [] {
        return None;
      }
      var child := CreateChildAtStart(stack[|stack| - 1], entries);
      match child {
        case Some(Err(m)) =>
          return Some(Err(m));
        case Some(Ok(c)) =>
          stack := stack + [c];
        case None =>
      }
      r := StepOver(entries);
    }

    /** `index_stack` (cursor/mod.rs:59-63). */
    function IndexStack(): (r: seq<nat>)
      reads this
      ensures r == IndexStackOf(stack)
    {
      seq(|stack|, k requires 0 <= k < |stack| reads this => if stack[k].index.Some? then stack[k].index.value else 0)
    }
  }

  /** What one step of the walk shows to the consonant searches. */
  datatype Seen = WalkEnded | WalkFailed(msg: string) | SawConsonant | SawOther

  function Classify(item: Option<Result<Item>>): Seen {
    match item
    case None => WalkEnded
    case Some(Err(m)) => WalkFailed(m)
    case Some(Ok(it)) => if it.KeysymbolItem? && IsConsonant(it.keysymbol) then SawConsonant else SawOther
  }

  /** `first_consonant_loc` from a stack, within `fuel` steps: the index stack at the
      first consonant keysymbol, nothing when the walk ends without one, or the first
      error. None when the fuel runs out (view/mod.rs:165-181). */
  function FirstConsonantFrom(stack: seq<ChildrenState>, entries: map<string, EntitySeq>, fuel: nat): (r: Option<Result<Option<seq<nat>>>>)
    decreases fuel
  {
    if fuel == 0 then None
    else
      var o := StepSpec(stack, entries);
      match Classify(o.item)
      case WalkEnded => Some(Ok(None))
      case WalkFailed(m) => Some(Err(m))
      case SawConsonant => Some(Ok(Some(IndexStackOf(o.stack))))
      case SawOther => FirstConsonantFrom(o.stack, entries, fuel - 1)
  }

  /** `last_consonant_loc` from a stack, within `fuel` steps, given the location
      `last` of the latest consonant so far (view/mod.rs:183-200). */
  function LastConsonantFrom(stack: seq<ChildrenState>, entries: map<string, EntitySeq>, fuel: nat, last: Option<seq<nat>>): (r: Option<Result<Option<seq<nat>>>>)
    decreases fuel
  {
    if fuel == 0 then None
    else
      var o := StepSpec(stack, entries);
      match Classify(o.item)
      case WalkEnded => Some(Ok(last))
      case WalkFailed(m) => Some(Err(m))
      case SawConsonant => LastConsonantFrom(o.stack, entries, fuel - 1, Some(IndexStackOf(o.stack)))
      case SawOther => LastConsonantFrom(o.stack, entries, fuel - 1, last)
  }

  /** A walk that finds no consonant leaves the last location as it was; a walk that
      finishes with no location found has no first consonant. */
  lemma {:induction false} FirstNoneLastNone(stack: seq<ChildrenState>, entries: map<string, EntitySeq>, fuel: nat, last: Option<seq<nat>>)
    ensures FirstConsonantFrom(stack, entries, fuel) == Some(Ok(None)) ==>
              LastConsonantFrom(stack, entries, fuel, last) == Some(Ok(last))
    ensures LastConsonantFrom(stack, entries, fuel, None) == Some(Ok(None)) ==>
              FirstConsonantFrom(stack, entries, fuel) == Some(Ok(None))
    decreases fuel
  {
    if fuel > 0 {
      var o := StepSpec(stack, entries);
      match Classify(o.item)
      case SawConsonant =>
        LastSomeStaysSome(o.stack, entries, fuel - 1, IndexStackOf(o.stack));
      case SawOther =>
        FirstNoneLastNone(o.stack, entries, fuel - 1, last);
        FirstNoneLastNone(o.stack, entries, fuel - 1, None);
      case _ =>
    }
  }

  /** Once a consonant has been seen, the last location is never reported as absent. */
  lemma {:induction false} LastSomeStaysSome(stack: seq<ChildrenState>, entries: map<string, EntitySeq>, fuel: nat, loc: seq<nat>)
    ensures LastConsonantFrom(stack, entries, fuel, Some(loc)) != Some(Ok(None))
    decreases fuel
  {
    if fuel > 0 {
      var o := StepSpec(stack, entries);
      match Classify(o.item)
      case SawConsonant =>
        LastSomeStaysSome(o.stack, entries, fuel - 1, IndexStackOf(o.stack));
      case SawOther =>
        LastSomeStaysSome(o.stack, entries, fuel - 1, loc);
      case _ =>
    }
  }

  /** The location `first_consonant_loc` reports holds a consonant: reading it from
      the bottom item of the walk gives a consonant keysymbol. */
  lemma {:induction false} FirstConsonantIsConsonant(stack: seq<ChildrenState>, entries: map<string, EntitySeq>, fuel: nat)
    requires stack != [] && WellFormed(stack, entries)
    ensures var r := FirstConsonantFrom(stack, entries, fuel);
            r.Some? && r.value.Ok? && r.value.value.Some? ==>
              exists k :: IsConsonant(k) && ReadPath(stack[0].item, r.value.value.value, entries) == Some(Ok(KeysymbolItem(k)))
    decreases fuel
  {
    if fuel > 0 {
      var o := StepSpec(stack, entries);
      StepWellFormed(stack, entries);
      StepLocatesItem(stack, entries);
      if o.item.Some? && o.item.value.Ok? {
        var item := o.item.value.value;
        if item.KeysymbolItem? && IsConsonant(item.keysymbol) {
          assert ReadPath(stack[0].item, IndexStackOf(o.stack), entries) == Some(Ok(KeysymbolItem(item.keysymbol)));
        } else {
          FirstConsonantIsConsonant(o.stack, entries, fuel - 1);
        }
      }
    }
  }

  /** `first_consonant_loc` on a view of `root`, within `fuel` steps of the cursor
      (view/mod.rs:165-181). */
  method FirstConsonantLoc(root: RawDef, entries: map<string, EntitySeq>, fuel: nat) returns (r: Option<Result<Option<seq<nat>>>>)
    ensures r == FirstConsonantFrom([AtStart(DefItem(root))], entries, fuel)
  {
    var cursor := new DefViewCursor.OfView(root);
    var n := fuel;
    while n > 0
      invariant FirstConsonantFrom([AtStart(DefItem(root))], entries, fuel) == FirstConsonantFrom(cursor.stack, entries, n)
      decreases n
    {
      var item := cursor.Step(entries);
      match item {
        case None =>
          return Some(Ok(None));
        case Some(Err(m)) =>
          return Some(Err(m));
        case Some(Ok(it)) =>
          if it.KeysymbolItem? && IsConsonant(it.keysymbol) {
            var loc := cursor.IndexStack();
            return Some(Ok(Some(loc)));
          }
      }
      n := n - 1;
    }
    return None;
  }

  /** `last_consonant_loc` on a view of `root`, within `fuel` steps of the cursor
      (view/mod.rs:183-200). */
  method LastConsonantLoc(root: RawDef, entries: map<string, EntitySeq>, fuel: nat) returns (r: Option<Result<Option<seq<nat>>>>)
    ensures r == LastConsonantFrom([AtStart(DefItem(root))], entries, fuel, None)
  {
    var cursor := new DefViewCursor.OfView(root);
    var last: Option<seq<nat>> := None;
    var n := fuel;
    while n > 0
      invariant LastConsonantFrom([AtStart(DefItem(root))], entries, fuel, None) == LastConsonantFrom(cursor.stack, entries, n, last)
      decreases n
    {
      var item := cursor.Step(entries);
      match item {
        case None =>
          return Some(Ok(last));
        case Some(Err(m)) =>
          return Some(Err(m));
        case Some(Ok(it)) =>
          if it.KeysymbolItem? && IsConsonant(it.keysymbol) {
            var loc := cursor.IndexStack();
            last := Some(loc);
          }
      }
      n := n - 1;
    }
    return None;
  }
}
