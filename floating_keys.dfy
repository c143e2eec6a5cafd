/** Keys declared as floating: they take no part in stroke key order
    (plover_hatchery/lib/pipes/floating_keys.py). */
module FloatingKeys {
  import opened Steno

  datatype FloatingKeysApi = FloatingKeysApi(floaters: Stroke)

  /** `can_add_stroke_on`: the key-order test with the floaters set aside
      (floating_keys.py:15-20): every key of `src` that is not a floater comes before
      every key of `addon` that is not. */
  function CanAddStrokeOn(api: FloatingKeysApi, src: Stroke, addon: Stroke): (r: bool)
    ensures r <==> forall x, y :: x in src && x !in api.floaters && y in addon && y !in api.floaters ==> x < y
  {
    CanAddStrokeOnIgnoringOrder(src, addon, api.floaters);
    CanAddStrokeOnIgnoring(src, addon, api.floaters)
  }

  /** `without_floaters` (floating_keys.py:22-23). */
  function WithoutFloaters(api: FloatingKeysApi, stroke: Stroke): (r: Stroke)
    ensures forall k :: k in r <==> k in stroke && k !in api.floaters
  {
    stroke - api.floaters
  }

  /** `only_floaters` (floating_keys.py:25-26). */
  function OnlyFloaters(api: FloatingKeysApi, stroke: Stroke): (r: Stroke)
    ensures forall k :: k in r <==> k in stroke && k in api.floaters
  {
    stroke * api.floaters
  }

  /** `split`: the stroke without its floaters, and its floaters (floating_keys.py:28-29);
      the two parts are disjoint and make up the stroke. */
  function Split(api: FloatingKeysApi, stroke: Stroke): (r: (Stroke, Stroke))
    ensures r.0 + r.1 == stroke && r.0 * r.1 == {}
    ensures r.1 <= api.floaters && r.0 * api.floaters == {}
  {
    var without := WithoutFloaters(api, stroke);
    var only := OnlyFloaters(api, stroke);
    assert forall k :: k in without * only ==> k in api.floaters && k !in api.floaters;
    (without, only)
  }

  /** `stroke_keys_with_floating_last`: the stroke's keys once each, the non-floaters
      in steno order and then the floaters in steno order (floating_keys.py:31-32). */
  function StrokeKeysWithFloatingLast(api: FloatingKeysApi, stroke: Stroke): (r: seq<Key>)
    ensures forall k :: k in r <==> k in stroke
    ensures forall i, j :: 0 <= i < j < |r| ==> r[i] != r[j]
    ensures forall i, j :: 0 <= i < j < |r| && r[j] !in api.floaters ==> r[i] !in api.floaters && r[i] < r[j]
    ensures forall i, j :: 0 <= i < j < |r| && r[i] in api.floaters ==> r[j] in api.floaters && r[i] < r[j]
  {
    FloatingLastOrder(api, stroke);
    Keys(WithoutFloaters(api, stroke)) + Keys(OnlyFloaters(api, stroke))
  }

  lemma FloatingLastOrder(api: FloatingKeysApi, stroke: Stroke)
    ensures var r := Keys(WithoutFloaters(api, stroke)) + Keys(OnlyFloaters(api, stroke));
            && (forall k :: k in r <==> k in stroke)
            && (forall i, j :: 0 <= i < j < |r| ==> r[i] != r[j])
            && (forall i, j :: 0 <= i < j < |r| && r[j] !in api.floaters ==> r[i] !in api.floaters && r[i] < r[j])
            && (forall i, j :: 0 <= i < j < |r| && r[i] in api.floaters ==> r[j] in api.floaters && r[i] < r[j])
  {
    var without := Keys(WithoutFloaters(api, stroke));
    var only := Keys(OnlyFloaters(api, stroke));
    KeysExact(WithoutFloaters(api, stroke));
    KeysExact(OnlyFloaters(api, stroke));
    var r := without + only;
    forall i | 0 <= i < |r|
      ensures i < |without| ==> r[i] == without[i] && r[i] !in api.floaters
      ensures i >= |without| ==> r[i] == only[i - |without|] && r[i] in api.floaters
    {
      if i < |without| {
        assert without[i] in without;
      } else {
        assert only[i - |without|] in only;
      }
    }
    forall k | k in stroke
      ensures k in r
    {
      if k in api.floaters {
        assert k in only;
      } else {
        assert k in without;
      }
    }
  }
}
