/** The converter that turns parsed Unilex entries into Hatchery dictionary entries:
    the entry trackers that give every distinct morpheme, root, prefix and suffix an id
    per name, the full variable names and transclusion syntax built from those ids,
    and the filter that drops inflected entries while still registering their parts. */
module GenerateFromUnilex {
  import opened Wrappers
  import Text
  import PM = ParseMorphology
  import DefItems
  import KeysymbolPy

  // ---------------------------------------------------------------------------
  // The entry tracker, as a value

  /** The four dictionaries of an entry tracker: base key to normalised key, the item
      kept for each normalised key, the items kept under each name in registration
      order, and the id of each normalised key. `names` records the name each
      normalised key was registered under; the source keeps it only implicitly, as the
      list of `byName` that holds the item. */
  datatype Tracker<I, B(==), N(==)> = Tracker(
    normalizedKeys: map<B, N>,
    byNormalizedKey: map<N, I>,
    byName: map<string, seq<I>>,
    ids: map<N, nat>,
    names: map<N, string>)

  /** A tracker with nothing registered. */
  function EmptyTracker<I, B(==), N(==)>(): (t: Tracker<I, B, N>)
    ensures TrackerValid(t)
    ensures |t.normalizedKeys| == 0 && |t.ids| == 0 && |t.byName| == 0
  {
    Tracker(map[], map[], map[], map[], map[])
  }

  /** The items kept under `name`; `by_name` is a `defaultdict(list)`, so a name never
      registered reads as the empty list. */
  function ByName<I, B(==), N(==)>(t: Tracker<I, B, N>, name: string): seq<I> {
    if name in t.byName then t.byName[name] else []
  }

  /** The invariant `register` keeps: every base key leads to a normalised key with an
      id; the id of a normalised key is its 1-based position in the list of its name,
      where its item is kept; and no two normalised keys of one name share an id. */
  ghost predicate TrackerValid<I, B, N>(t: Tracker<I, B, N>) {
    KeysAgree(t) && BaseKeysResolve(t) && IdsPlaceItems(t) && IdsDistinctPerName(t)
  }

  ghost predicate KeysAgree<I, B, N>(t: Tracker<I, B, N>) {
    (forall nk :: nk in t.ids ==> nk in t.byNormalizedKey && nk in t.names)
    && (forall nk :: nk in t.byNormalizedKey ==> nk in t.ids)
    && (forall nk :: nk in t.names ==> nk in t.ids)
  }

  ghost predicate BaseKeysResolve<I, B, N>(t: Tracker<I, B, N>) {
    forall b :: b in t.normalizedKeys ==> t.normalizedKeys[b] in t.ids
  }

  ghost predicate IdsPlaceItems<I, B, N>(t: Tracker<I, B, N>)
    requires KeysAgree(t)
  {
    forall nk :: nk in t.ids ==>
      1 <= t.ids[nk] <= |ByName(t, t.names[nk])|
      && ByName(t, t.names[nk])[t.ids[nk] - 1] == t.byNormalizedKey[nk]
  }

  ghost predicate IdsDistinctPerName<I, B, N>(t: Tracker<I, B, N>)
    requires KeysAgree(t)
  {
    forall a, b :: a in t.ids && b in t.ids && t.names[a] == t.names[b] && t.ids[a] == t.ids[b] ==> a == b
  }

  /** `id_from_base_key`: the id of the base key's normalised key; the source raises
      `KeyError` for a base key never registered, modelled as `None`. */
  function IdOf<I, B(==), N(==)>(t: Tracker<I, B, N>, key: B): (r: Option<nat>)
    ensures TrackerValid(t) ==> (r.Some? <==> key in t.normalizedKeys)
    ensures r.Some? ==> key in t.normalizedKeys && t.normalizedKeys[key] in t.ids
                        && r.value == t.ids[t.normalizedKeys[key]]
  {
    if key in t.normalizedKeys && t.normalizedKeys[key] in t.ids
    then Some(t.ids[t.normalizedKeys[key]])
    else None
  }

  /** `register`: the base key always maps to the normalised key afterwards; a
      normalised key seen before keeps its first item and id; a new one is kept,
      appended to the list of its name and numbered one past that list's old length. */
  function Registered<I, B(==), N(==)>(t: Tracker<I, B, N>, item: I, name: string, key: B, nk: N): (r: Tracker<I, B, N>)
    ensures r.normalizedKeys == t.normalizedKeys[key := nk]
    ensures nk in t.byNormalizedKey ==>
              r.byNormalizedKey == t.byNormalizedKey && r.byName == t.byName && r.ids == t.ids && r.names == t.names
    ensures nk !in t.byNormalizedKey ==>
              r.byNormalizedKey == t.byNormalizedKey[nk := item]
              && ByName(r, name) == ByName(t, name) + [item]
              && (forall other :: other != name ==> ByName(r, other) == ByName(t, other))
              && r.ids == t.ids[nk := |ByName(t, name)| + 1]
  {
    var t1 := t.(normalizedKeys := t.normalizedKeys[key := nk]);
    if nk in t.byNormalizedKey then t1
    else t1.(byNormalizedKey := t.byNormalizedKey[nk := item],
             byName := t.byName[name := ByName(t, name) + [item]],
             ids := t.ids[nk := |ByName(t, name)| + 1],
             names := t.names[nk := name])
  }

  /** `register` keeps the tracker's invariant, and the base key it registers has an
      id afterwards. */
  lemma RegisteredValid<I, B, N>(t: Tracker<I, B, N>, item: I, name: string, key: B, nk: N)
    requires TrackerValid(t)
    ensures TrackerValid(Registered(t, item, name, key, nk))
    ensures IdOf(Registered(t, item, name, key, nk), key).Some?
  {
    var r := Registered(t, item, name, key, nk);
    if nk !in t.byNormalizedKey {
      assert KeysAgree(r);
      NewKeyIdsDistinct(t, item, name, key, nk);
      NewKeyPositions(t, item, name, key, nk);
    }
    BaseKeysStillResolve(t, item, name, key, nk);
  }

  /** Every base key still leads to a normalised key with an id. */
  lemma BaseKeysStillResolve<I, B, N>(t: Tracker<I, B, N>, item: I, name: string, key: B, nk: N)
    requires TrackerValid(t)
    ensures BaseKeysResolve(Registered(t, item, name, key, nk))
  {
    var r := Registered(t, item, name, key, nk);
    forall b | b in r.normalizedKeys ensures r.normalizedKeys[b] in r.ids {
      if b != key { assert r.normalizedKeys[b] == t.normalizedKeys[b]; }
    }
  }

  /** After registering a new normalised key, every id still points at its item. */
  lemma NewKeyPositions<I, B, N>(t: Tracker<I, B, N>, item: I, name: string, key: B, nk: N)
    requires KeysAgree(t) && IdsPlaceItems(t) && nk !in t.byNormalizedKey
    requires KeysAgree(Registered(t, item, name, key, nk))
    ensures IdsPlaceItems(Registered(t, item, name, key, nk))
  {
    var r := Registered(t, item, name, key, nk);
    forall a | a in r.ids
      ensures 1 <= r.ids[a] <= |ByName(r, r.names[a])|
      ensures ByName(r, r.names[a])[r.ids[a] - 1] == r.byNormalizedKey[a]
    {
      if a != nk {
        OldKeyPosition(t, item, name, key, nk, a);
      } else {
        NewKeyPosition(t, item, name, key, nk);
      }
    }
  }

  lemma NewKeyPosition<I, B, N>(t: Tracker<I, B, N>, item: I, name: string, key: B, nk: N)
    requires nk !in t.byNormalizedKey
    ensures var r := Registered(t, item, name, key, nk);
      nk in r.ids && nk in r.names && nk in r.byNormalizedKey
      && 1 <= r.ids[nk] <= |ByName(r, r.names[nk])| && ByName(r, r.names[nk])[r.ids[nk] - 1] == r.byNormalizedKey[nk]
  {
  }

  lemma OldKeyPosition<I, B, N>(t: Tracker<I, B, N>, item: I, name: string, key: B, nk: N, a: N)
    requires nk !in t.byNormalizedKey && a in t.ids && a != nk && a in t.names && a in t.byNormalizedKey
    requires 1 <= t.ids[a] <= |ByName(t, t.names[a])|
    requires ByName(t, t.names[a])[t.ids[a] - 1] == t.byNormalizedKey[a]
    ensures var r := Registered(t, item, name, key, nk);
      1 <= r.ids[a] <= |ByName(r, r.names[a])| && ByName(r, r.names[a])[r.ids[a] - 1] == r.byNormalizedKey[a]
  {
    var r := Registered(t, item, name, key, nk);
    if t.names[a] == name {
      assert ByName(r, name) == ByName(t, name) + [item];
    }
  }

  /** The new id is past every id already given under its name. */
  lemma NewKeyIdsDistinct<I, B, N>(t: Tracker<I, B, N>, item: I, name: string, key: B, nk: N)
    requires TrackerValid(t) && nk !in t.byNormalizedKey
    ensures KeysAgree(Registered(t, item, name, key, nk))
    ensures IdsDistinctPerName(Registered(t, item, name, key, nk))
  {
    var r := Registered(t, item, name, key, nk);
    forall a, b | a in r.ids && b in r.ids && a != b && r.names[a] == r.names[b]
      ensures r.ids[a] != r.ids[b]
    {
      if a == nk {
        assert t.names[b] == name && t.ids[b] <= |ByName(t, name)|;
      } else if b == nk {
        assert t.names[a] == name && t.ids[a] <= |ByName(t, name)|;
      }
    }
  }

  lemma RegisteredValidIf<I, B, N>(t: Tracker<I, B, N>, item: I, name: string, key: B, nk: N)
    ensures TrackerValid(t) ==> TrackerValid(Registered(t, item, name, key, nk))
  {
    if TrackerValid(t) { RegisteredValid(t, item, name, key, nk); }
  }

  /** Registers `regs` (item, base key, normalised key) under one name, in order. */
  function RegisterEach<I, B(==), N(==)>(t: Tracker<I, B, N>, name: string, regs: seq<(I, B, N)>): (r: Tracker<I, B, N>)
    ensures TrackerValid(t) ==> TrackerValid(r)
    decreases |regs|
  {
    if |regs| == 0 then t
    else
      var last := regs[|regs| - 1];
      RegisteredValidIf(RegisterEach(t, name, regs[..|regs| - 1]), last.0, name, last.1, last.2);
      Registered(RegisterEach(t, name, regs[..|regs| - 1]), last.0, name, last.1, last.2)
  }

  /** Ids are numbered per name from 1 in registration order: registering new
      normalised keys, under distinct base keys, for a name nothing was registered
      under gives the `j`-th of them id `j + 1` and lists their items in that order. */
  lemma {:induction false} NumberedInOrder<I, B, N>(t: Tracker<I, B, N>, name: string, regs: seq<(I, B, N)>)
    requires ByName(t, name) == []
    requires forall j :: 0 <= j < |regs| ==> regs[j].2 !in t.byNormalizedKey
    requires forall i, j :: 0 <= i < j < |regs| ==> regs[i].1 != regs[j].1 && regs[i].2 != regs[j].2
    ensures |ByName(RegisterEach(t, name, regs), name)| == |regs|
    ensures forall j :: 0 <= j < |regs| ==>
              IdOf(RegisterEach(t, name, regs), regs[j].1) == Some(j + 1)
              && RegisterEach(t, name, regs).normalizedKeys[regs[j].1] == regs[j].2
              && ByName(RegisterEach(t, name, regs), name)[j] == regs[j].0
    decreases |regs|
  {
    if |regs| > 0 {
      var init := regs[..|regs| - 1];
      var last := regs[|regs| - 1];
      NumberedInOrder(t, name, init);
      var mid := RegisterEach(t, name, init);
      NewKeysStayNew(t, name, init, last.2);
      var r := Registered(mid, last.0, name, last.1, last.2);
      assert RegisterEach(t, name, regs) == r;
      forall j | 0 <= j < |init|
        ensures IdOf(r, regs[j].1) == Some(j + 1) && r.normalizedKeys[regs[j].1] == regs[j].2
        ensures ByName(r, name)[j] == regs[j].0
      {
        assert regs[j] == init[j];
        EarlierRegistrationKept(mid, last.0, name, last.1, last.2, regs[j].1, regs[j].2, j);
      }
    }
  }

  /** Registering a new normalised key under `name` leaves an earlier base key's
      normalised key and id, and the earlier items of the name, as they were. */
  lemma EarlierRegistrationKept<I, B, N>(t: Tracker<I, B, N>, item: I, name: string, key: B, nk: N, k: B, nkk: N, j: nat)
    requires nk !in t.byNormalizedKey && k != key && nkk != nk
    requires IdOf(t, k) == Some(j + 1) && t.normalizedKeys[k] == nkk && j < |ByName(t, name)|
    ensures var r := Registered(t, item, name, key, nk);
      IdOf(r, k) == Some(j + 1) && r.normalizedKeys[k] == nkk && ByName(r, name)[j] == ByName(t, name)[j]
  {
  }

  /** A normalised key that neither the tracker nor `regs` holds stays unregistered. */
  lemma {:induction false} NewKeysStayNew<I, B, N>(t: Tracker<I, B, N>, name: string, regs: seq<(I, B, N)>, nk: N)
    requires nk !in t.byNormalizedKey
    requires forall j :: 0 <= j < |regs| ==> regs[j].2 != nk
    ensures nk !in RegisterEach(t, name, regs).byNormalizedKey
    decreases |regs|
  {
    if |regs| > 0 {
      NewKeysStayNew(t, name, regs[..|regs| - 1], nk);
    }
  }

  // ---------------------------------------------------------------------------
  // Full variable names and transclusion syntax

  /** The full variable name of a registered item (the root, affix and morpheme
      variants differ only in the tracker and the variable name they pass): the bare
      variable name when exactly one item is kept under its name, and otherwise the
      variable name, ":" and the id of its base key in decimal. Looking up the id of an
      unregistered base key raises `KeyError`, modelled as `None`. */
  function FullVarname<I, B(==), N(==)>(t: Tracker<I, B, N>, varname: string, name: string, key: B): (r: Option<string>)
    ensures |ByName(t, name)| == 1 ==> r == Some(varname)
    ensures |ByName(t, name)| != 1 ==> (r.Some? <==> IdOf(t, key).Some?)
    ensures r.Some? ==> |r.value| >= |varname| && r.value[..|varname|] == varname
    ensures |ByName(t, name)| != 1 && r.Some? ==>
              |r.value| > |varname| + 1 && r.value[..|varname| + 1] == varname + ":"
              && Text.AllDigits(r.value[|varname| + 1..])
              && Text.DigitsValue(r.value[|varname| + 1..]) == IdOf(t, key).value
  {
    if |ByName(t, name)| == 1 then Some(varname)
    else match IdOf(t, key)
      case None => None
      case Some(id) =>
        Text.DecimalRoundTrip(id);
        var full := varname + ":" + Text.DecimalString(id);
        assert full[..|varname| + 1] == varname + ":" && full[|varname| + 1..] == Text.DecimalString(id);
        Some(full)
  }

  /** Two different normalised keys registered under the same name get different full
      variable names, so the dictionary of definitions the converter writes, keyed by
      full variable name, loses none of them. */
  lemma FullVarnamesDistinct<I, B, N>(t: Tracker<I, B, N>, varname: string, name: string, k1: B, k2: B)
    requires TrackerValid(t) && k1 in t.normalizedKeys && k2 in t.normalizedKeys
    requires t.normalizedKeys[k1] != t.normalizedKeys[k2]
    requires t.names[t.normalizedKeys[k1]] == name && t.names[t.normalizedKeys[k2]] == name
    ensures FullVarname(t, varname, name, k1).Some? && FullVarname(t, varname, name, k2).Some?
    ensures FullVarname(t, varname, name, k1) != FullVarname(t, varname, name, k2)
  {
    var nk1, nk2 := t.normalizedKeys[k1], t.normalizedKeys[k2];
    assert t.ids[nk1] != t.ids[nk2];
    assert |ByName(t, name)| >= 2;
    var r1, r2 := FullVarname(t, varname, name, k1).value, FullVarname(t, varname, name, k2).value;
    assert r1[|varname| + 1..] != r2[|varname| + 1..];
  }

  /** A full variable name that carries an id names exactly that registered item: the
      id it ends in picks the item out of the list of its name. */
  lemma FullVarnameNamesItem<I, B, N>(t: Tracker<I, B, N>, varname: string, name: string, key: B)
    requires TrackerValid(t) && key in t.normalizedKeys && t.names[t.normalizedKeys[key]] == name
    requires |ByName(t, name)| != 1
    ensures var full := FullVarname(t, varname, name, key).value;
      FullVarname(t, varname, name, key).Some?
      && var id := Text.DigitsValue(full[|varname| + 1..]);
      1 <= id <= |ByName(t, name)| && ByName(t, name)[id - 1] == t.byNormalizedKey[t.normalizedKeys[key]]
  {
  }

  /** The relative stress a transclusion records: none when the transcluded item has no
      stress, otherwise its max stress counted from the parent's max stress, which
      counts as 1. */
  function RelativeStress(keyMaxStress: int, parentMaxStress: int): (r: nat)
    ensures r == 0 <==> keyMaxStress == 0 || keyMaxStress < parentMaxStress
    ensures r > 0 ==> r == keyMaxStress - parentMaxStress + 1
  {
    if keyMaxStress == 0 || keyMaxStress < parentMaxStress then 0 else keyMaxStress - parentMaxStress + 1
  }

  /** The transclusion stress marker: nothing when the item's max stress is 0, and
      otherwise "!" and the relative stress in decimal. */
  function TransclusionStressMarker(keyMaxStress: int, parentMaxStress: int): (r: string)
    ensures r == "" <==> RelativeStress(keyMaxStress, parentMaxStress) == 0
    ensures r != "" ==> r[0] == '!' && Text.AllDigits(r[1..])
                        && Text.DigitsValue(r[1..]) == RelativeStress(keyMaxStress, parentMaxStress)
  {
    if keyMaxStress == 0 then ""
    else
      var relative := keyMaxStress - parentMaxStress + 1;
      if relative <= 0 then ""
      else
        Text.DecimalRoundTrip(relative);
        assert ("!" + Text.DecimalString(relative))[1..] == Text.DecimalString(relative);
        "!" + Text.DecimalString(relative)
  }

  /** The marker is the one a definition keysymbol or transclusion of that stress
      prints. */
  lemma StressMarkerAgrees(keyMaxStress: int, parentMaxStress: int)
    ensures RelativeStress(keyMaxStress, parentMaxStress) < 256 ==>
              TransclusionStressMarker(keyMaxStress, parentMaxStress)
              == DefItems.StressMarker(RelativeStress(keyMaxStress, parentMaxStress))
  {
    var rel := RelativeStress(keyMaxStress, parentMaxStress);
    if 0 < rel < 256 {
      assert TransclusionStressMarker(keyMaxStress, parentMaxStress) == "!" + Text.DecimalString(rel);
    }
  }

  /** Within a chunk whose parent max stress is the max stress value of its morphemes,
      every stressed morpheme gets a marker, and the morphemes at the chunk's max
      stress get "!1". */
  lemma StressedMorphemesMarked(values: seq<int>, i: nat)
    requires i < |values| && values[i] != 0
    ensures TransclusionStressMarker(values[i], KeysymbolPy.MaxStressValue(values)) != ""
    ensures values[i] == KeysymbolPy.MaxStressValue(values) ==>
              TransclusionStressMarker(values[i], KeysymbolPy.MaxStressValue(values)) == "!1"
  {
    KeysymbolPy.MaxStressValueProps(values);
    if values[i] == KeysymbolPy.MaxStressValue(values) {
      assert Text.DecimalString(1) == "1";
    }
  }

  /** `{`, the full variable name, `}` and the transclusion stress marker of the item's
      normalised key; `None` for the `KeyError` of an unregistered base key. The max
      stress a normalised key holds is read with `maxStressOf`. */
  function TransclusionSyntax<I, B(==), N(==)>(t: Tracker<I, B, N>, varname: string, name: string, key: B,
                                              maxStressOf: N -> int, parentMaxStress: int): (r: Option<string>)
    ensures TrackerValid(t) ==> (r.Some? <==> key in t.normalizedKeys)
    ensures r.Some? ==> key in t.normalizedKeys && FullVarname(t, varname, name, key).Some?
    ensures r.Some? && RelativeStress(maxStressOf(t.normalizedKeys[key]), parentMaxStress) < 256 ==>
              r.value == DefItems.TransclusionString(DefItems.Transclusion(
                FullVarname(t, varname, name, key).value,
                RelativeStress(maxStressOf(t.normalizedKeys[key]), parentMaxStress)))
  {
    match FullVarname(t, varname, name, key)
    case None => None
    case Some(full) =>
      if key !in t.normalizedKeys then None
      else
        var keyMax := maxStressOf(t.normalizedKeys[key]);
        StressMarkerAgrees(keyMax, parentMaxStress);
        Some("{" + full + "}" + TransclusionStressMarker(keyMax, parentMaxStress))
  }

  /** `__morpheme_transclusion`: a morpheme's transclusion, relative to the max stress
      of the chunk that holds it. */
  function MorphemeTransclusion<N(==)>(t: Tracker<PM.Morpheme, PM.DictKey, N>, m: PM.Morpheme,
                                      maxStressOf: N -> int, parentMaxStress: int): (r: Option<string>)
    ensures TrackerValid(t) ==> (r.Some? <==> PM.MorphemeDictKey(m) in t.normalizedKeys)
    ensures r.Some? ==> |r.value| > 2 && r.value[0] == '{' && r.value[1] == '@'
  {
    var r := TransclusionSyntax(t, PM.MorphemeVarname(m), m.name, PM.MorphemeDictKey(m), maxStressOf, parentMaxStress);
    assert r.Some? ==> r.value[1] == FullVarname(t, PM.MorphemeVarname(m), m.name, PM.MorphemeDictKey(m)).value[0] == '@';
    r
  }

  // ---------------------------------------------------------------------------
  // The entry tracker, as an object

  /** `_EntryTracker`: the four dictionaries that `register` updates in place. */
  class EntryTracker<I, B(==), N(==)> {
    var normalizedKeys: map<B, N>
    var byNormalizedKey: map<N, I>
    var byName: map<string, seq<I>>
    var ids: map<N, nat>
    /** The name each normalised key was registered under. */
    ghost var names: map<N, string>

    ghost function State(): Tracker<I, B, N>
      reads this
    {
      Tracker(normalizedKeys, byNormalizedKey, byName, ids, names)
    }

    ghost predicate Valid()
      reads this
    {
      TrackerValid(State())
    }

    constructor()
      ensures Valid() && State() == EmptyTracker()
    {
      normalizedKeys, byNormalizedKey, byName, ids := map[], map[], map[], map[];
      names := map[];
    }

    /** `register`, which keeps the tracker's invariant. */
    method Register(item: I, name: string, key: B, nk: N)
      modifies this
      ensures old(Valid()) ==> Valid()
      ensures State() == Registered(old(State()), item, name, key, nk)
    {
      ghost var before := State();
      Update(item, name, key, nk);
      RegisteredValidIf(before, item, name, key, nk);
    }

    /** The dictionary updates of `register`. */
    method Update(item: I, name: string, key: B, nk: N)
      modifies this
      ensures State() == Registered(old(State()), item, name, key, nk)
    {
      if nk in byNormalizedKey {
        normalizedKeys := normalizedKeys[key := nk];
      } else {
        var list := if name in byName then byName[name] else [];
        normalizedKeys, byNormalizedKey, byName, ids, names :=
          normalizedKeys[key := nk], byNormalizedKey[nk := item], byName[name := list + [item]],
          ids[nk := |list| + 1], names[nk := name];
      }
    }

    /** `id_from_base_key`; `None` for the `KeyError` of an unregistered base key. */
    function IdFromBaseKey(key: B): (r: Option<nat>)
      reads this
      ensures r == IdOf(State(), key)
    {
      if key in normalizedKeys && normalizedKeys[key] in ids then Some(ids[normalizedKeys[key]]) else None
    }

    /** `base_keys`: every base key registered so far, each of which has an id. */
    function BaseKeys(): (r: set<B>)
      reads this
      ensures forall k :: k in normalizedKeys ==> k in r
      ensures Valid() ==> forall k :: k in r ==> IdFromBaseKey(k).Some?
    {
      normalizedKeys.Keys
    }
  }

  // ---------------------------------------------------------------------------
  // Registering an entry's morphemes and chunks, and the inflection filter

  /** The trackers of roots, prefixes and suffixes. */
  datatype ChunkTrackers<N(==)> = ChunkTrackers(
    roots: Tracker<PM.Chunk, PM.DictKey, N>,
    prefixes: Tracker<PM.Chunk, PM.DictKey, N>,
    suffixes: Tracker<PM.Chunk, PM.DictKey, N>)

  /** The tracker a chunk of the given kind registers in (`__affix_tracker_for` for
      affixes). */
  function TrackerFor<N(==)>(ts: ChunkTrackers<N>, kind: PM.ChunkKind): Tracker<PM.Chunk, PM.DictKey, N> {
    match kind
    case RootKind => ts.roots
    case AffixKind(isSuffix) => if isSuffix then ts.suffixes else ts.prefixes
  }

  ghost predicate ChunkTrackersValid<N>(ts: ChunkTrackers<N>) {
    TrackerValid(ts.roots) && TrackerValid(ts.prefixes) && TrackerValid(ts.suffixes)
  }

  /** Registers one chunk of an entry: formatting is skipped; a root or an affix is
      registered, under its name and dictionary key, in the tracker of its kind. */
  function RegisterChunk<N(==)>(ts: ChunkTrackers<N>, c: PM.Chunk, chunkKey: PM.Chunk -> N): ChunkTrackers<N> {
    match c
    case FormattingChunk(_) => ts
    case Bracketed(kind, ms) =>
      var r := Registered(TrackerFor(ts, kind), c, PM.SeqName(ms), PM.ChunkDictKey(kind, ms), chunkKey(c));
      match kind
      case RootKind => ts.(roots := r)
      case AffixKind(isSuffix) => if isSuffix then ts.(suffixes := r) else ts.(prefixes := r)
  }

  /** Registers the chunks of an entry in order; `chunkKey` gives a chunk's
      stress-normalised key. */
  function RegisterChunksSpec<N(==)>(ts: ChunkTrackers<N>, chunks: seq<PM.Chunk>, chunkKey: PM.Chunk -> N): ChunkTrackers<N>
    decreases |chunks|
  {
    if |chunks| == 0 then ts
    else RegisterChunk(RegisterChunksSpec(ts, chunks[..|chunks| - 1], chunkKey), chunks[|chunks| - 1], chunkKey)
  }

  /** Registering a chunk keeps every tracker valid, gives the chunk an id in the
      tracker of its kind, and keeps every id already given. */
  lemma RegisterChunkFacts<N>(ts: ChunkTrackers<N>, c: PM.Chunk, chunkKey: PM.Chunk -> N)
    requires ChunkTrackersValid(ts)
    ensures ChunkTrackersValid(RegisterChunk(ts, c, chunkKey))
    ensures c.Bracketed? ==>
              IdOf(TrackerFor(RegisterChunk(ts, c, chunkKey), c.kind), PM.ChunkDictKey(c.kind, c.morphemes)).Some?
    ensures forall kind, key :: IdOf(TrackerFor(ts, kind), key).Some? ==>
              IdOf(TrackerFor(RegisterChunk(ts, c, chunkKey), kind), key).Some?
  {
    match c
    case FormattingChunk(_) =>
    case Bracketed(kind, ms) =>
      var t := TrackerFor(ts, kind);
      var name, key, nk := PM.SeqName(ms), PM.ChunkDictKey(kind, ms), chunkKey(c);
      RegisteredKeepsIds(t, c, name, key, nk);
      var r := Registered(t, c, name, key, nk);
      var after := RegisterChunk(ts, c, chunkKey);
      forall kind', k | IdOf(TrackerFor(ts, kind'), k).Some?
        ensures IdOf(TrackerFor(after, kind'), k).Some?
      {
        SameSlotOrUntouched(ts, kind, r, kind');
      }
  }

  /** Registering a chunk replaces the tracker of its kind and leaves the trackers of
      the other kinds as they were. */
  lemma SameSlotOrUntouched<N>(ts: ChunkTrackers<N>, kind: PM.ChunkKind, r: Tracker<PM.Chunk, PM.DictKey, N>, other: PM.ChunkKind)
    ensures var after := match kind
                         case RootKind => ts.(roots := r)
                         case AffixKind(isSuffix) => if isSuffix then ts.(suffixes := r) else ts.(prefixes := r);
      (other == kind ==> TrackerFor(after, other) == r)
      && (other != kind ==> TrackerFor(after, other) == TrackerFor(ts, other))
  {
  }

  /** `register` keeps the invariant, gives its base key an id and keeps every id
      already given. */
  lemma RegisteredKeepsIds<I, B, N>(t: Tracker<I, B, N>, item: I, name: string, key: B, nk: N)
    requires TrackerValid(t)
    ensures TrackerValid(Registered(t, item, name, key, nk))
    ensures IdOf(Registered(t, item, name, key, nk), key).Some?
    ensures forall k :: IdOf(t, k).Some? ==> IdOf(Registered(t, item, name, key, nk), k).Some?
  {
    RegisteredValid(t, item, name, key, nk);
  }

  /** Every root and affix of an entry has an id after its chunks are registered, and
      every id given before is kept. */
  lemma {:induction false} ChunksRegistered<N>(ts: ChunkTrackers<N>, chunks: seq<PM.Chunk>, chunkKey: PM.Chunk -> N)
    requires ChunkTrackersValid(ts)
    ensures ChunkTrackersValid(RegisterChunksSpec(ts, chunks, chunkKey))
    ensures forall i :: 0 <= i < |chunks| && chunks[i].Bracketed? ==>
              IdOf(TrackerFor(RegisterChunksSpec(ts, chunks, chunkKey), chunks[i].kind),
                   PM.ChunkDictKey(chunks[i].kind, chunks[i].morphemes)).Some?
    ensures forall kind, key :: IdOf(TrackerFor(ts, kind), key).Some? ==>
              IdOf(TrackerFor(RegisterChunksSpec(ts, chunks, chunkKey), kind), key).Some?
    decreases |chunks|
  {
    if |chunks| > 0 {
      var init := chunks[..|chunks| - 1];
      ChunksRegistered(ts, init, chunkKey);
      var mid := RegisterChunksSpec(ts, init, chunkKey);
      RegisterChunkFacts(mid, chunks[|chunks| - 1], chunkKey);
      forall i | 0 <= i < |chunks| - 1 ensures chunks[i] == init[i] { }
    }
  }

  /** An inflectional suffix: a suffix chunk named "s", "ing", "ed" or "'s". */
  predicate IsInflectionalSuffix(c: PM.Chunk) {
    c.Bracketed? && c.kind == PM.AffixKind(true) && InflectionalName(PM.SeqName(c.morphemes))
  }

  predicate InflectionalName(name: string) {
    name == "s" || name == "ing" || name == "ed" || name == "'s"
  }

  /** The entry has an inflectional suffix among its chunks. */
  predicate Inflected(chunks: seq<PM.Chunk>) {
    exists i :: 0 <= i < |chunks| && IsInflectionalSuffix(chunks[i])
  }

  /** Registers the morphemes among an entry's parts in order; `morphemeKey` gives a
      morpheme's stress-normalised key. */
  function RegisterParts<N(==)>(t: Tracker<PM.Morpheme, PM.DictKey, N>, parts: seq<PM.Part>, morphemeKey: PM.Morpheme -> N): (r: Tracker<PM.Morpheme, PM.DictKey, N>)
    decreases |parts|
  {
    if |parts| == 0 then t
    else RegisterPart(RegisterParts(t, parts[..|parts| - 1], morphemeKey), parts[|parts| - 1], morphemeKey)
  }

  /** Registers one part of an entry: formatting is skipped; a morpheme is registered
      under its name and dictionary key. */
  function RegisterPart<N(==)>(t: Tracker<PM.Morpheme, PM.DictKey, N>, p: PM.Part, morphemeKey: PM.Morpheme -> N): Tracker<PM.Morpheme, PM.DictKey, N> {
    match p
    case Formatting(_, _) => t
    case MorphemePart(m) => Registered(t, m, m.name, PM.MorphemeDictKey(m), morphemeKey(m))
  }

  /** Registering a part keeps the tracker valid, gives a morpheme an id and keeps every
      id already given. */
  lemma RegisterPartFacts<N>(t: Tracker<PM.Morpheme, PM.DictKey, N>, p: PM.Part, morphemeKey: PM.Morpheme -> N)
    requires TrackerValid(t)
    ensures TrackerValid(RegisterPart(t, p, morphemeKey))
    ensures p.MorphemePart? ==> IdOf(RegisterPart(t, p, morphemeKey), PM.MorphemeDictKey(p.morpheme)).Some?
    ensures forall key :: IdOf(t, key).Some? ==> IdOf(RegisterPart(t, p, morphemeKey), key).Some?
  {
    match p
    case Formatting(_, _) =>
    case MorphemePart(m) => RegisteredKeepsIds(t, m, m.name, PM.MorphemeDictKey(m), morphemeKey(m));
  }

  /** Every morpheme of an entry has an id after its parts are registered, and every id
      given before is kept. */
  lemma {:induction false} PartsRegistered<N>(t: Tracker<PM.Morpheme, PM.DictKey, N>, parts: seq<PM.Part>, morphemeKey: PM.Morpheme -> N)
    requires TrackerValid(t)
    ensures TrackerValid(RegisterParts(t, parts, morphemeKey))
    ensures forall i :: 0 <= i < |parts| && parts[i].MorphemePart? ==>
              IdOf(RegisterParts(t, parts, morphemeKey), PM.MorphemeDictKey(parts[i].morpheme)).Some?
    ensures forall key :: IdOf(t, key).Some? ==> IdOf(RegisterParts(t, parts, morphemeKey), key).Some?
    decreases |parts|
  {
    if |parts| > 0 {
      var init := parts[..|parts| - 1];
      PartsRegistered(t, init, morphemeKey);
      RegisterPartFacts(RegisterParts(t, init, morphemeKey), parts[|parts| - 1], morphemeKey);
      forall i | 0 <= i < |parts| - 1 ensures parts[i] == init[i] { }
    }
  }

  /** An entry kept for output: its translation and its morphology. */
  datatype FinalEntry = FinalEntry(translation: string, morphology: PM.Morphology)

  /** The entries the converter keeps, in order: those without an inflectional
      suffix. */
  function KeptEntries(es: seq<FinalEntry>): (r: seq<FinalEntry>)
    ensures |r| <= |es|
    ensures forall e :: e in r <==> e in es && !Inflected(e.morphology.chunks)
    decreases |es|
  {
    if |es| == 0 then []
    else
      var last := es[|es| - 1];
      var init := KeptEntries(es[..|es| - 1]);
      assert forall e :: e in es <==> e in es[..|es| - 1] || e == last by {
        assert es == es[..|es| - 1] + [last];
      }
      if Inflected(last.morphology.chunks) then init else init + [last]
  }

  /** All four trackers of the converter. */
  datatype Trackers<MN(==), CN(==)> = Trackers(morphemes: Tracker<PM.Morpheme, PM.DictKey, MN>, chunks: ChunkTrackers<CN>)

  /** Registers an entry: its morphemes, then its chunks. */
  function RegisterEntry<MN(==), CN(==)>(ts: Trackers<MN, CN>, e: FinalEntry, morphemeKey: PM.Morpheme -> MN, chunkKey: PM.Chunk -> CN): Trackers<MN, CN> {
    Trackers(RegisterParts(ts.morphemes, e.morphology.parts, morphemeKey),
             RegisterChunksSpec(ts.chunks, e.morphology.chunks, chunkKey))
  }

  /** Registers entries in order. */
  function RegisterEntries<MN(==), CN(==)>(ts: Trackers<MN, CN>, es: seq<FinalEntry>, morphemeKey: PM.Morpheme -> MN, chunkKey: PM.Chunk -> CN): Trackers<MN, CN>
    decreases |es|
  {
    if |es| == 0 then ts
    else RegisterEntry(RegisterEntries(ts, es[..|es| - 1], morphemeKey, chunkKey), es[|es| - 1], morphemeKey, chunkKey)
  }

  ghost predicate TrackersValid<MN, CN>(ts: Trackers<MN, CN>) {
    TrackerValid(ts.morphemes) && ChunkTrackersValid(ts.chunks)
  }

  /** Every root and affix of every entry read, kept or dropped as inflected, has an id
      afterwards, so an entry that transcludes it can name it. */
  lemma {:induction false} EntriesRegistered<MN, CN>(ts: Trackers<MN, CN>, es: seq<FinalEntry>,
                                                     morphemeKey: PM.Morpheme -> MN, chunkKey: PM.Chunk -> CN)
    requires TrackersValid(ts)
    ensures TrackersValid(RegisterEntries(ts, es, morphemeKey, chunkKey))
    ensures forall j, i :: 0 <= j < |es| && 0 <= i < |es[j].morphology.chunks| && es[j].morphology.chunks[i].Bracketed? ==>
              var c := es[j].morphology.chunks[i];
              IdOf(TrackerFor(RegisterEntries(ts, es, morphemeKey, chunkKey).chunks, c.kind), PM.ChunkDictKey(c.kind, c.morphemes)).Some?
    decreases |es|
  {
    if |es| > 0 {
      var init := es[..|es| - 1];
      var last := es[|es| - 1];
      EntriesRegistered(ts, init, morphemeKey, chunkKey);
      var mid := RegisterEntries(ts, init, morphemeKey, chunkKey);
      PartsRegistered(mid.morphemes, last.morphology.parts, morphemeKey);
      ChunksRegistered(mid.chunks, last.morphology.chunks, chunkKey);
      forall j | 0 <= j < |es| - 1 ensures es[j] == init[j] { }
    }
  }

  // ---------------------------------------------------------------------------
  // The converter

  /** `_UnilexHatcheryConverter`: the trackers of morphemes, roots, prefixes and
      suffixes, and the entries kept for output. */
  class Converter<MN(==), CN(==)> {
    const morphemes: EntryTracker<PM.Morpheme, PM.DictKey, MN>
    const roots: EntryTracker<PM.Chunk, PM.DictKey, CN>
    const prefixes: EntryTracker<PM.Chunk, PM.DictKey, CN>
    const suffixes: EntryTracker<PM.Chunk, PM.DictKey, CN>
    var entries: seq<FinalEntry>

    ghost function ChunkState(): ChunkTrackers<CN>
      reads roots, prefixes, suffixes
    {
      ChunkTrackers(roots.State(), prefixes.State(), suffixes.State())
    }

    ghost function State(): Trackers<MN, CN>
      reads morphemes, roots, prefixes, suffixes
    {
      Trackers(morphemes.State(), ChunkState())
    }

    /** The three chunk trackers are different objects; the invariant of each tracker is
        carried by its state (`TrackersValid`, `EntriesRegistered`). */
    ghost predicate Valid() {
      roots != prefixes && roots != suffixes && prefixes != suffixes
    }

    constructor()
      ensures Valid() && entries == []
      ensures State() == Trackers(EmptyTracker(), ChunkTrackers(EmptyTracker(), EmptyTracker(), EmptyTracker()))
    {
      morphemes := new EntryTracker();
      roots := new EntryTracker();
      prefixes := new EntryTracker();
      suffixes := new EntryTracker();
      entries := [];
    }

    /** `__affix_tracker_for`: the suffix tracker for a suffix, the prefix tracker
        otherwise. */
    function AffixTrackerFor(isSuffix: bool): (r: EntryTracker<PM.Chunk, PM.DictKey, CN>)
      ensures r == if isSuffix then suffixes else prefixes
    {
      if isSuffix then suffixes else prefixes
    }

    /** Registers the morphemes among an entry's parts. */
    method RegisterMorphemes(parts: seq<PM.Part>, morphemeKey: PM.Morpheme -> MN)
      requires Valid()
      modifies morphemes
      ensures Valid()
      ensures morphemes.State() == RegisterParts(old(morphemes.State()), parts, morphemeKey)
    {
      for i := 0 to |parts|
        invariant morphemes.State() == RegisterParts(old(morphemes.State()), parts[..i], morphemeKey)
      {
        assert parts[..i + 1][..i] == parts[..i];
        match parts[i]
        case Formatting(_, _) =>
        case MorphemePart(m) =>
          morphemes.Register(m, m.name, PM.MorphemeDictKey(m), morphemeKey(m));
      }
      assert parts[..|parts|] == parts;
    }

    /** The loop over an entry's chunks: registers every root and affix, and reports
        whether a suffix is inflectional. */
    method RegisterChunks(chunks: seq<PM.Chunk>, chunkKey: PM.Chunk -> CN) returns (ignore: bool)
      requires Valid()
      modifies roots, prefixes, suffixes
      ensures Valid()
      ensures ChunkState() == RegisterChunksSpec(old(ChunkState()), chunks, chunkKey)
      ensures ignore <==> Inflected(chunks)
    {
      ignore := false;
      for i := 0 to |chunks|
        invariant Valid()
        invariant ChunkState() == RegisterChunksSpec(old(ChunkState()), chunks[..i], chunkKey)
        invariant ignore <==> Inflected(chunks[..i])
      {
        var chunk := chunks[i];
        assert chunks[..i + 1][..i] == chunks[..i] && chunks[..i + 1][i] == chunk;
        if chunk.FormattingChunk? {
          assert !IsInflectionalSuffix(chunk);
          continue;
        }
        var name, key, nk := PM.SeqName(chunk.morphemes), PM.ChunkDictKey(chunk.kind, chunk.morphemes), chunkKey(chunk);
        if chunk.kind.AffixKind? {
          var tracker := AffixTrackerFor(chunk.kind.isSuffix);
          tracker.Register(chunk, name, key, nk);
          if chunk.kind.isSuffix && InflectionalName(name) {
            ignore := true;
          }
          continue;
        }
        roots.Register(chunk, name, key, nk);
      }
      assert chunks[..|chunks|] == chunks;
    }

    /** The body of the loop over input lines, for a line that parsed: registers the
        entry's morphemes and chunks, then keeps the entry unless it is inflected. */
    method AddEntry(e: FinalEntry, morphemeKey: PM.Morpheme -> MN, chunkKey: PM.Chunk -> CN)
      requires Valid()
      modifies this, morphemes, roots, prefixes, suffixes
      ensures Valid()
      ensures State() == RegisterEntry(old(State()), e, morphemeKey, chunkKey)
      ensures entries == old(entries) + KeptEntries([e])
    {
      RegisterMorphemes(e.morphology.parts, morphemeKey);
      var ignore := RegisterChunks(e.morphology.chunks, chunkKey);
      assert [e][..0] == [];
      if ignore {
        return;
      }
      entries := entries + [e];
    }

    /** The loop over input lines, for lines that parsed: every entry is registered in
        order and exactly the uninflected ones are kept, in order. */
    method AddEntries(es: seq<FinalEntry>, morphemeKey: PM.Morpheme -> MN, chunkKey: PM.Chunk -> CN)
      requires Valid()
      modifies this, morphemes, roots, prefixes, suffixes
      ensures Valid()
      ensures State() == RegisterEntries(old(State()), es, morphemeKey, chunkKey)
      ensures entries == old(entries) + KeptEntries(es)
    {
      for i := 0 to |es|
        invariant Valid()
        invariant State() == RegisterEntries(old(State()), es[..i], morphemeKey, chunkKey)
        invariant entries == old(entries) + KeptEntries(es[..i])
      {
        AddEntryAt(es, i, morphemeKey, chunkKey, old(State()), old(entries));
      }
      assert es[..|es|] == es;
    }

    /** One turn of the loop over input lines: the entries before `i` have been added on
        top of `s0` and `kept0`, and entry `i` is added next. */
    method AddEntryAt(es: seq<FinalEntry>, i: nat, morphemeKey: PM.Morpheme -> MN, chunkKey: PM.Chunk -> CN,
                      ghost s0: Trackers<MN, CN>, ghost kept0: seq<FinalEntry>)
      requires Valid() && i < |es|
      requires State() == RegisterEntries(s0, es[..i], morphemeKey, chunkKey)
      requires entries == kept0 + KeptEntries(es[..i])
      modifies this, morphemes, roots, prefixes, suffixes
      ensures Valid()
      ensures State() == RegisterEntries(s0, es[..i + 1], morphemeKey, chunkKey)
      ensures entries == kept0 + KeptEntries(es[..i + 1])
    {
      assert es[..i + 1][..i] == es[..i];
      assert es[..i + 1] == es[..i] + [es[i]];
      KeptEntriesAppend(es[..i], es[i]);
      AddEntry(es[i], morphemeKey, chunkKey);
    }
  }

  /** Keeping entries one at a time keeps the same entries as keeping them all. */
  lemma KeptEntriesAppend(es: seq<FinalEntry>, e: FinalEntry)
    ensures KeptEntries(es + [e]) == KeptEntries(es) + KeptEntries([e])
  {
    assert (es + [e])[..|es|] == es;
    assert [e][..0] == [];
  }

  // ---------------------------------------------------------------------------
  // Final entry definitions

  /** `__formatting_syntax`: formatting is written as a sopheme with its characters and
      no keysymbols. */
  function FormattingSyntax(ortho: string): (r: string)
    ensures r == ortho + "."
  {
    DefItems.SophemeString(DefItems.Sopheme(ortho, []))
  }

  /** The syntax of one chunk of a final entry: formatting as a bare sopheme, a root or
      an affix as its transclusion with the stress marker relative to 1. A formatting
      chunk that holds a morpheme falls through to `__root_syntax`, which fails on it
      (`None`). */
  function ChunkSyntax<N(==)>(ts: ChunkTrackers<N>, c: PM.Chunk, maxStressOf: N -> int): (r: Option<string>)
    ensures c.FormattingChunk? ==> (r.Some? <==> c.formatting.Formatting?)
    ensures c.FormattingChunk? && r.Some? ==> r.value == c.formatting.ortho + "."
    ensures c.Bracketed? && ChunkTrackersValid(ts) ==>
              (r.Some? <==> PM.ChunkDictKey(c.kind, c.morphemes) in TrackerFor(ts, c.kind).normalizedKeys)
    ensures c.Bracketed? && r.Some? ==> |r.value| > 0 && r.value[0] == '{'
  {
    match c
    case FormattingChunk(f) =>
      if f.Formatting? then Some(FormattingSyntax(f.ortho)) else None
    case Bracketed(kind, ms) =>
      TransclusionSyntax(TrackerFor(ts, kind), PM.ChunkVarname(kind, ms), PM.SeqName(ms),
                         PM.ChunkDictKey(kind, ms), maxStressOf, 1)
  }

  /** The syntax of every chunk in order, or `None` when one of them fails. */
  function ChunkSyntaxes<N(==)>(ts: ChunkTrackers<N>, chunks: seq<PM.Chunk>, maxStressOf: N -> int): (r: Option<seq<string>>)
    ensures r.Some? ==> |r.value| == |chunks|
    ensures r.Some? ==> forall i :: 0 <= i < |chunks| ==> ChunkSyntax(ts, chunks[i], maxStressOf) == Some(r.value[i])
    ensures r.None? ==> exists i :: 0 <= i < |chunks| && ChunkSyntax(ts, chunks[i], maxStressOf).None?
    decreases |chunks|
  {
    if |chunks| == 0 then Some([])
    else
      var init := ChunkSyntaxes(ts, chunks[..|chunks| - 1], maxStressOf);
      var last := ChunkSyntax(ts, chunks[|chunks| - 1], maxStressOf);
      if init.None? then
        var i :| 0 <= i < |chunks| - 1 && ChunkSyntax(ts, chunks[..|chunks| - 1][i], maxStressOf).None?;
        assert chunks[..|chunks| - 1][i] == chunks[i];
        None
      else if last.None? then None
      else Some(init.value + [last.value])
  }

  /** `__final_entry_definition`: the syntax of the entry's chunks joined by spaces. */
  function FinalEntryDefinition<N(==)>(ts: ChunkTrackers<N>, e: FinalEntry, maxStressOf: N -> int): (r: Option<string>)
    ensures r.Some? <==> forall i :: 0 <= i < |e.morphology.chunks| ==>
              ChunkSyntax(ts, e.morphology.chunks[i], maxStressOf).Some?
    ensures r.Some? ==> r.value == Text.Join(ChunkSyntaxes(ts, e.morphology.chunks, maxStressOf).value, " ")
  {
    match ChunkSyntaxes(ts, e.morphology.chunks, maxStressOf)
    case None => None
    case Some(parts) => Some(Text.Join(parts, " "))
  }

  /** Every chunk that stands for formatting holds formatting. */
  predicate FormattingChunksWellFormed(chunks: seq<PM.Chunk>) {
    forall i :: 0 <= i < |chunks| && chunks[i].FormattingChunk? ==> chunks[i].formatting.Formatting?
  }

  /** Once all entries are registered, every one of them with well-formed formatting
      chunks has a definition: each root and affix it transcludes has an id. */
  lemma EntriesDefined<MN, CN>(ts: Trackers<MN, CN>, es: seq<FinalEntry>, morphemeKey: PM.Morpheme -> MN,
                               chunkKey: PM.Chunk -> CN, maxStressOf: CN -> int, j: nat)
    requires TrackersValid(ts)
    requires j < |es| && FormattingChunksWellFormed(es[j].morphology.chunks)
    ensures FinalEntryDefinition(RegisterEntries(ts, es, morphemeKey, chunkKey).chunks, es[j], maxStressOf).Some?
  {
    EntriesRegistered(ts, es, morphemeKey, chunkKey);
  }
}
