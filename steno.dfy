/** Steno strokes as sets of keys of the English steno layout, numbered in steno order
    `#STKPWHRAO*EUFRPBLGTSDZ`; `keys()` lists a stroke's keys in that order. */
module Steno {
  const NUM_KEYS: nat := 23

  /** A key, by its position in steno order. */
  type Key = k: nat | k < NUM_KEYS

  /** A stroke: the keys pressed together. `&`, `|` and `-` on strokes are set
      intersection, union and difference, and `len` is the number of keys. */
  type Stroke = set<Key>

  const KEY_A: Key := 8
  const KEY_O: Key := 9
  const KEY_ASTERISK: Key := 10
  const KEY_E: Key := 11
  const KEY_U: Key := 12

  /** `Stroke.from_steno("AOEU")`. */
  const VOWEL_KEYS: Stroke := {KEY_A, KEY_O, KEY_E, KEY_U}

  /** The keys of `s` from position `i` on, in steno order. */
  function KeysFrom(s: Stroke, i: nat): (r: seq<Key>)
    requires i <= NUM_KEYS
    ensures forall j :: 0 <= j < |r| ==> i <= r[j]
    decreases NUM_KEYS - i
  {
    if i == NUM_KEYS then []
    else if i in s then [i as Key] + KeysFrom(s, i + 1)
    else KeysFrom(s, i + 1)
  }

  /** `stroke.keys()`. */
  function Keys(s: Stroke): (r: seq<Key>)
  {
    KeysFrom(s, 0)
  }

  /** Strictly increasing. */
  predicate Increasing(ks: seq<Key>) {
    forall i, j :: 0 <= i < j < |ks| ==> ks[i] < ks[j]
  }

  lemma {:induction false} KeysFromExact(s: Stroke, i: nat)
    requires i <= NUM_KEYS
    ensures Increasing(KeysFrom(s, i))
    ensures forall k: Key :: k in KeysFrom(s, i) <==> k in s && i <= k
    decreases NUM_KEYS - i
  {
    if i < NUM_KEYS {
      KeysFromExact(s, i + 1);
    }
  }

  /** `keys()` lists exactly the stroke's keys, each once, in steno order. */
  lemma KeysExact(s: Stroke)
    ensures Increasing(Keys(s))
    ensures forall k: Key :: k in Keys(s) <==> k in s
    ensures Keys(s) == [] <==> s == {}
  {
    KeysFromExact(s, 0);
    assert Keys(s) != [] ==> Keys(s)[0] in Keys(s);
    if s != {} {
      var k :| k in s;
      assert k in Keys(s);
    }
  }

  /** The first key of `keys()` is the stroke's earliest key, and the last its latest. */
  lemma KeysEnds(s: Stroke)
    requires s != {}
    ensures Keys(s) != []
    ensures Keys(s)[0] in s && forall k :: k in s ==> Keys(s)[0] <= k
    ensures Keys(s)[|Keys(s)| - 1] in s && forall k :: k in s ==> k <= Keys(s)[|Keys(s)| - 1]
  {
    KeysExact(s);
    var ks := Keys(s);
    forall k | k in s
      ensures ks[0] <= k <= ks[|ks| - 1]
    {
      assert k in ks;
      var j :| 0 <= j < |ks| && ks[j] == k;
    }
  }

  /** The ordering test of `can_add_stroke_on`: with the `ignored` keys set aside, true
      if either stroke is empty, and otherwise whether the last key of `src` comes
      before the first key of `addon`; that is, every key of `src` comes before every
      key of `addon`. */
  function CanAddStrokeOnIgnoring(src: Stroke, addon: Stroke, ignored: Stroke): (r: bool)
    ensures r <==> (src - ignored == {} || addon - ignored == {} ||
                    forall x, y :: x in src - ignored && y in addon - ignored ==> x < y)
  {
    var s := src - ignored;
    var a := addon - ignored;
    if |s| == 0 || |a| == 0 then true
    else
      KeysEnds(s);
      KeysEnds(a);
      Keys(s)[|Keys(s)| - 1] < Keys(a)[0]
  }

  /** The ordering test holds exactly when every key of `src` outside `ignored` comes
      before every key of `addon` outside `ignored` (an empty side holds vacuously). */
  lemma CanAddStrokeOnIgnoringOrder(src: Stroke, addon: Stroke, ignored: Stroke)
    ensures CanAddStrokeOnIgnoring(src, addon, ignored) <==>
              forall x, y :: x in src && x !in ignored && y in addon && y !in ignored ==> x < y
  {
    var s, a := src - ignored, addon - ignored;
    assert forall x :: x in src && x !in ignored <==> x in s;
    assert forall y :: y in addon && y !in ignored <==> y in a;
  }
}
