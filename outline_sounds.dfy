/** The sounds of an outline grouped into consonant-vowel groups followed by final
    consonants, and the index arithmetic that moves between them
    (plover_hatchery/lib/pipes/OutlineSounds.py; the older copy in
    plover_hatchery/lib/pipes/state.py:14-96 has the same layout and index steps). */
module OutlineSoundIndexes {
  import opened Wrappers

  /** Consonants followed by one vowel (`ConsonantVowelGroup`, OutlineSounds.py:9-11). */
  datatype ConsonantVowelGroup<S> = ConsonantVowelGroup(consonants: seq<S>, vowel: S)

  /** The groups, then the final consonants (`OutlineSounds`, OutlineSounds.py:13-16). */
  datatype OutlineSounds<S> = OutlineSounds(nonfinals: seq<ConsonantVowelGroup<S>>, finalConsonants: seq<S>)

  /** A (group index, sound index) pair; the group index equal to the number of groups
      stands for the final consonants. */
  datatype Index = Index(group: nat, sound: nat)

  /** Strictly earlier: by group, then by sound. */
  predicate Lt(a: Index, b: Index) {
    a.group < b.group || (a.group == b.group && a.sound < b.sound)
  }

  /** `is_last_group` (OutlineSounds.py:103-104). */
  predicate IsLastGroup<S>(o: OutlineSounds<S>, g: nat) {
    g == |o.nonfinals|
  }

  /** `get_consonants`: the final consonants for the last group, otherwise the group's
      consonants (OutlineSounds.py:18-21). */
  function Consonants<S>(o: OutlineSounds<S>, g: nat): (r: seq<S>)
    requires g <= |o.nonfinals|
  {
    if g == |o.nonfinals| then o.finalConsonants else o.nonfinals[g].consonants
  }

  /** `n_consonants_in_group` (OutlineSounds.py:97-98). */
  function NConsonantsInGroup<S>(o: OutlineSounds<S>, g: nat): (n: nat)
    requires g <= |o.nonfinals|
    ensures n == |Consonants(o, g)|
  {
    |Consonants(o, g)|
  }

  /** The index names a consonant: of a group, or a final consonant. */
  predicate IsConsonantIndex<S>(o: OutlineSounds<S>, x: Index) {
    x.group <= |o.nonfinals| && x.sound < |Consonants(o, x.group)|
  }

  /** The index names a sound: a consonant, or the vowel slot of a group, which sits
      just after its consonants. */
  predicate IsSoundIndex<S>(o: OutlineSounds<S>, x: Index) {
    if x.group == |o.nonfinals| then x.sound < |o.finalConsonants|
    else x.group < |o.nonfinals| && x.sound <= |o.nonfinals[x.group].consonants|
  }

  /** `is_vowel`: outside the last group, the slot just after the consonants
      (OutlineSounds.py:113-117). */
  predicate IsVowelIndex<S>(o: OutlineSounds<S>, x: Index) {
    !IsLastGroup(o, x.group) && x.group < |o.nonfinals| && x.sound == |o.nonfinals[x.group].consonants|
  }

  /** `self[(g, i)]`: a final consonant in the last group, otherwise the group's vowel
      at its vowel slot and its consonant before it (OutlineSounds.py:26-33). */
  function SoundAt<S>(o: OutlineSounds<S>, x: Index): (r: S)
    requires IsSoundIndex(o, x)
    ensures IsVowelIndex(o, x) ==> r == o.nonfinals[x.group].vowel
    ensures !IsVowelIndex(o, x) ==> IsConsonantIndex(o, x) && r == Consonants(o, x.group)[x.sound]
  {
    if IsLastGroup(o, x.group) then o.finalConsonants[x.sound]
    else if x.sound == |o.nonfinals[x.group].consonants| then o.nonfinals[x.group].vowel
    else o.nonfinals[x.group].consonants[x.sound]
  }

  /** `get_vowel_of_group` (OutlineSounds.py:100-101). */
  function VowelOfGroup<S>(o: OutlineSounds<S>, g: nat): (v: S)
    requires g < |o.nonfinals|
    ensures v == SoundAt(o, Index(g, |o.nonfinals[g].consonants|))
  {
    o.nonfinals[g].vowel
  }

  /** The sounds of a group in speaking order. */
  function GroupSounds<S>(grp: ConsonantVowelGroup<S>): seq<S> {
    grp.consonants + [grp.vowel]
  }

  /** The sounds of the first `g` groups in speaking order. */
  function SoundsBefore<S>(nf: seq<ConsonantVowelGroup<S>>, g: nat): (r: seq<S>)
    requires g <= |nf|
    ensures |r| == Offset(nf, g)
  {
    if g == 0 then [] else SoundsBefore(nf, g - 1) + GroupSounds(nf[g - 1])
  }

  /** Where group `g` starts in the whole list of sounds. */
  function Offset<S>(nf: seq<ConsonantVowelGroup<S>>, g: nat): nat
    requires g <= |nf|
  {
    if g == 0 then 0 else Offset(nf, g - 1) + |nf[g - 1].consonants| + 1
  }

  /** Every sound of the outline in speaking order: the groups, then the final
      consonants. */
  function AllSounds<S>(o: OutlineSounds<S>): seq<S> {
    SoundsBefore(o.nonfinals, |o.nonfinals|) + o.finalConsonants
  }

  /** The position of an index in the whole list of sounds. */
  function FlatIndex<S>(o: OutlineSounds<S>, x: Index): nat
    requires x.group <= |o.nonfinals|
  {
    Offset(o.nonfinals, x.group) + x.sound
  }

  /** The sounds of fewer groups are a prefix of the sounds of more. */
  lemma {:induction false} SoundsBeforePrefix<S>(nf: seq<ConsonantVowelGroup<S>>, a: nat, b: nat)
    requires a <= b <= |nf|
    ensures Offset(nf, a) <= Offset(nf, b)
    ensures SoundsBefore(nf, b)[..Offset(nf, a)] == SoundsBefore(nf, a)
    decreases b - a
  {
    if a < b {
      SoundsBeforePrefix(nf, a, b - 1);
      assert SoundsBefore(nf, b)[..Offset(nf, a)] == SoundsBefore(nf, b - 1)[..Offset(nf, a)];
    }
  }

  /** The sounds of the first `k` groups do not depend on the groups after them. */
  lemma {:induction false} SoundsBeforeIgnoresLater<S>(nf: seq<ConsonantVowelGroup<S>>, more: seq<ConsonantVowelGroup<S>>, k: nat)
    requires k <= |nf|
    ensures SoundsBefore(nf + more, k) == SoundsBefore(nf, k)
  {
    if k > 0 {
      SoundsBeforeIgnoresLater(nf, more, k - 1);
      assert (nf + more)[k - 1] == nf[k - 1];
    }
  }

  /** Closing one more group adds its consonants and vowel to the end of the sounds. */
  lemma {:induction false} SoundsBeforeSnoc<S>(nf: seq<ConsonantVowelGroup<S>>, grp: ConsonantVowelGroup<S>)
    ensures SoundsBefore(nf + [grp], |nf| + 1) == SoundsBefore(nf, |nf|) + grp.consonants + [grp.vowel]
  {
    var longer := nf + [grp];
    SoundsBeforeIgnoresLater(nf, [grp], |nf|);
    assert longer[|nf|] == grp;
    assert SoundsBefore(longer, |nf| + 1) == SoundsBefore(longer, |nf|) + GroupSounds(grp);
    assert SoundsBefore(nf, |nf|) + (grp.consonants + [grp.vowel]) == SoundsBefore(nf, |nf|) + grp.consonants + [grp.vowel];
  }

  /** Indexing the outline agrees with indexing the whole list of sounds at the
      index's flat position. */
  lemma SoundAtIsFlat<S>(o: OutlineSounds<S>, x: Index)
    requires IsSoundIndex(o, x)
    ensures FlatIndex(o, x) < |AllSounds(o)|
    ensures AllSounds(o)[FlatIndex(o, x)] == SoundAt(o, x)
  {
    var nf := o.nonfinals;
    var k := Offset(nf, x.group) + x.sound;
    if x.group < |nf| {
      SoundsBeforePrefix(nf, x.group + 1, |nf|);
      var before := SoundsBefore(nf, x.group + 1);
      assert before == SoundsBefore(nf, x.group) + GroupSounds(nf[x.group]);
      assert before[k] == GroupSounds(nf[x.group])[x.sound];
      assert SoundsBefore(nf, |nf|)[k] == before[k];
      assert AllSounds(o)[k] == SoundsBefore(nf, |nf|)[k];
    } else {
      assert AllSounds(o)[k] == o.finalConsonants[x.sound];
    }
  }

  /** Flat positions of sound indexes never collide: distinct indexes are distinct
      sounds of the list, and their order is reading order. */
  lemma {:induction false} FlatIndexOrder<S>(o: OutlineSounds<S>, x: Index, y: Index)
    requires IsSoundIndex(o, x) && IsSoundIndex(o, y)
    ensures Lt(x, y) <==> FlatIndex(o, x) < FlatIndex(o, y)
  {
    if x.group < y.group {
      OffsetGrows(o.nonfinals, x.group + 1, y.group);
    } else if y.group < x.group {
      OffsetGrows(o.nonfinals, y.group + 1, x.group);
    }
  }

  /** Later groups start later. */
  lemma {:induction false} OffsetGrows<S>(nf: seq<ConsonantVowelGroup<S>>, a: nat, b: nat)
    requires a <= b <= |nf|
    ensures Offset(nf, a) <= Offset(nf, b)
    decreases b - a
  {
    if a < b {
      OffsetGrows(nf, a, b - 1);
    }
  }

  /** `increment_index`: the next sound, stepping from a group's vowel to the start of
      the next group, and nothing after the last final consonant
      (OutlineSounds.py:65-81). */
  function IncrementIndex<S>(o: OutlineSounds<S>, x: Index): (r: Option<Index>)
    requires IsSoundIndex(o, x)
    ensures r.Some? ==> IsSoundIndex(o, r.value) && FlatIndex(o, r.value) == FlatIndex(o, x) + 1
    ensures r.None? ==> FlatIndex(o, x) + 1 == |AllSounds(o)|
  {
    var n := |o.nonfinals|;
    var i: nat := x.sound + 1;
    if x.group == n && i >= |Consonants(o, x.group)| then None
    else if x.group < n && i > |Consonants(o, x.group)| then
      (if x.group + 1 == n && 0 >= |Consonants(o, x.group + 1)| then None
       else Some(Index(x.group + 1, 0)))
    else Some(Index(x.group, i))
  }

  /** `next_sound`: the sound after the given index, if any (OutlineSounds.py:106-111). */
  function NextSound<S>(o: OutlineSounds<S>, x: Index): (r: Option<S>)
    requires IsSoundIndex(o, x)
    ensures r.Some? <==> FlatIndex(o, x) + 1 < |AllSounds(o)|
    ensures r.Some? ==> r.value == AllSounds(o)[FlatIndex(o, x) + 1]
  {
    match IncrementIndex(o, x)
    case None => None
    case Some(y) =>
      SoundAtIsFlat(o, y);
      Some(SoundAt(o, y))
  }

  /** `increment_consonant_index`: the nearest later consonant, skipping groups without
      consonants and the vowels between them, or nothing after the last final
      consonant (OutlineSounds.py:50-63; state.py:51-64). */
  method IncrementConsonantIndex<S>(o: OutlineSounds<S>, x: Index) returns (r: Option<Index>)
    requires IsConsonantIndex(o, x)
    ensures r.Some? ==> IsConsonantIndex(o, r.value) && Lt(x, r.value)
    ensures r.Some? ==> forall y :: IsConsonantIndex(o, y) && Lt(x, y) ==> !Lt(y, r.value)
    ensures r.None? ==> forall y :: IsConsonantIndex(o, y) ==> !Lt(x, y)
  {
    var g: nat := x.group;
    var i: nat := x.sound + 1;
    var current := Consonants(o, g);
    while i == |current|
      invariant g <= |o.nonfinals| && current == Consonants(o, g) && i <= |current|
      invariant Lt(x, Index(g, i))
      invariant forall y :: IsConsonantIndex(o, y) && Lt(x, y) ==> !Lt(y, Index(g, i))
      decreases |o.nonfinals| - g
    {
      if g == |o.nonfinals| {
        return None;
      }
      g := g + 1;
      i := 0;
      current := Consonants(o, g);
    }
    return Some(Index(g, i));
  }

  /** `decrement_consonant_index`: the nearest earlier consonant, or nothing before the
      first one (OutlineSounds.py:35-48; state.py:36-49). */
  method DecrementConsonantIndex<S>(o: OutlineSounds<S>, x: Index) returns (r: Option<Index>)
    requires IsConsonantIndex(o, x)
    ensures r.Some? ==> IsConsonantIndex(o, r.value) && Lt(r.value, x)
    ensures r.Some? ==> forall y :: IsConsonantIndex(o, y) && Lt(y, x) ==> !Lt(r.value, y)
    ensures r.None? ==> forall y :: IsConsonantIndex(o, y) ==> !Lt(y, x)
  {
    var g: nat := x.group;
    var i: int := x.sound - 1;
    while i == -1
      invariant g <= x.group && -1 <= i < |Consonants(o, g)|
      invariant g < x.group || i < x.sound
      invariant forall y :: IsConsonantIndex(o, y) && Lt(y, x) ==> y.group < g || (y.group == g && y.sound <= i)
      decreases g
    {
      if g == 0 {
        return None;
      }
      g := g - 1;
      i := |Consonants(o, g)| - 1;
    }
    return Some(Index(g, i));
  }

  /** `get_consonant_after`: the nearest later consonant sound, present exactly when
      `increment_consonant_index` finds one (OutlineSounds.py:83-88; state.py:84-89). */
  method ConsonantAfter<S>(o: OutlineSounds<S>, x: Index) returns (r: Option<S>)
    requires IsConsonantIndex(o, x)
    ensures r.None? <==> forall y :: IsConsonantIndex(o, y) ==> !Lt(x, y)
    ensures r.Some? ==> exists y :: IsConsonantIndex(o, y) && Lt(x, y) && r.value == Consonants(o, y.group)[y.sound] &&
                                    forall z :: IsConsonantIndex(o, z) && Lt(x, z) ==> !Lt(z, y)
  {
    var next := IncrementConsonantIndex(o, x);
    if next.None? {
      return None;
    }
    var y := next.value;
    return Some(Consonants(o, y.group)[y.sound]);
  }

  /** `get_consonant_before`: the nearest earlier consonant sound, present exactly when
      `decrement_consonant_index` finds one (OutlineSounds.py:90-95; state.py:91-96). */
  method ConsonantBefore<S>(o: OutlineSounds<S>, x: Index) returns (r: Option<S>)
    requires IsConsonantIndex(o, x)
    ensures r.None? <==> forall y :: IsConsonantIndex(o, y) ==> !Lt(y, x)
    ensures r.Some? ==> exists y :: IsConsonantIndex(o, y) && Lt(y, x) && r.value == Consonants(o, y.group)[y.sound] &&
                                    forall z :: IsConsonantIndex(o, z) && Lt(z, x) ==> !Lt(y, z)
  {
    var prev := DecrementConsonantIndex(o, x);
    if prev.None? {
      return None;
    }
    var y := prev.value;
    return Some(Consonants(o, y.group)[y.sound]);
  }
}
