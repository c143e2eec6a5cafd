/** Turning an outline's strokes, or a word's stenemes, into `OutlineSounds`
    (plover_hatchery/lib/lookup/get_sophemes.py). A sound here is a phoneme with the
    steneme it came from, if any, as `get_sophemes.py` builds it. */
module OutlineBuilder {
  import opened Wrappers
  import opened Steno
  import opened DeterministicTrie
  import opened OutlineSoundIndexes
  import opened TheoryService
  import opened Banks

  /** `Sound(phoneme, source)`. */
  datatype Sound<P, X> = Sound(phoneme: P, source: Option<X>)

  /** A steneme: its sophemes, its steno strokes, and its phoneme if it has one. */
  datatype Steneme<P, Y> = Steneme(sophemes: seq<Y>, steno: seq<Stroke>, phoneme: Option<P>)

  /** The builder's two lists: the closed consonant-vowel groups, and the consonants
      gathered since the last vowel. */
  datatype Building<S> = Building(groups: seq<ConsonantVowelGroup<S>>, current: seq<S>)

  /** `__last_sound_was_vowel` (get_sophemes.py:43-45). */
  predicate LastSoundWasVowel<S>(b: Building<S>) {
    |b.groups| > 0 && |b.current| == 0
  }

  /** `append_diphthong_transition` (get_sophemes.py:48-54): right after a vowel whose
      phoneme has a transition consonant, that consonant opens the next group. */
  function WithDiphthongTransition<P, X>(b: Building<Sound<P, X>>, transitions: map<P, P>): (r: Building<Sound<P, X>>)
    ensures r.groups == b.groups
    ensures r.current != b.current <==>
              LastSoundWasVowel(b) && b.groups[|b.groups| - 1].vowel.phoneme in transitions
    ensures r.current != b.current ==>
              r.current == [Sound(transitions[b.groups[|b.groups| - 1].vowel.phoneme], None)]
  {
    if !LastSoundWasVowel(b) then b
    else
      var prevVowel := b.groups[|b.groups| - 1].vowel;
      if prevVowel.phoneme !in transitions then b
      else Building(b.groups, b.current + [Sound(transitions[prevVowel.phoneme], None)])
  }

  /** `add_consonant`: the consonant joins the open group (get_sophemes.py:57-58). */
  function AddConsonantTo<S>(b: Building<S>, c: S): (r: Building<S>)
    ensures r.groups == b.groups && r.current == b.current + [c]
  {
    Building(b.groups, b.current + [c])
  }

  /** Several consonants joining the open group in order. */
  function AddConsonantsTo<S>(b: Building<S>, cs: seq<S>): (r: Building<S>)
    ensures r.groups == b.groups && r.current == b.current + cs
  {
    Building(b.groups, b.current + cs)
  }

  /** `add_vowel` (get_sophemes.py:61-65): after the diphthong transition, the open
      consonants and the vowel close a group, and the open list starts empty. */
  function AddVowelTo<P, X>(b: Building<Sound<P, X>>, v: Sound<P, X>, transitions: map<P, P>): (r: Building<Sound<P, X>>)
    ensures r.current == []
    ensures r.groups == b.groups + [ConsonantVowelGroup(WithDiphthongTransition(b, transitions).current, v)]
    ensures LastSoundWasVowel(r)
  {
    var t := WithDiphthongTransition(b, transitions);
    Building(t.groups + [ConsonantVowelGroup(t.current, v)], [])
  }

  /** `build_sounds`: the closed groups are the nonfinals and the open consonants the
      final consonants (get_sophemes.py:68-69). */
  function Build<S>(b: Building<S>): (o: OutlineSounds<S>)
    ensures o.nonfinals == b.groups && o.finalConsonants == b.current
  {
    OutlineSounds(b.groups, b.current)
  }

  /** Adding a consonant puts it after every sound built so far. */
  lemma AddConsonantAppendsSound<S>(b: Building<S>, c: S)
    ensures AllSounds(Build(AddConsonantTo(b, c))) == AllSounds(Build(b)) + [c]
  {
  }

  /** Adding a vowel puts the transition consonant, if any, and then the vowel after
      every sound built so far. */
  lemma {:induction false} AddVowelAppendsSound<P, X>(b: Building<Sound<P, X>>, v: Sound<P, X>, transitions: map<P, P>)
    ensures var t := WithDiphthongTransition(b, transitions);
            AllSounds(Build(AddVowelTo(b, v, transitions))) == AllSounds(Build(b)) + (t.current[|b.current|..]) + [v]
  {
    var t := WithDiphthongTransition(b, transitions);
    SoundsBeforeSnoc(b.groups, ConsonantVowelGroup(t.current, v));
    assert t.current == b.current + t.current[|b.current|..];
    var pre := SoundsBefore(b.groups, |b.groups|);
    calc {
      AllSounds(Build(AddVowelTo(b, v, transitions)));
      SoundsBefore(b.groups + [ConsonantVowelGroup(t.current, v)], |b.groups| + 1) + [];
      pre + t.current + [v];
      pre + b.current + t.current[|b.current|..] + [v];
    }
  }

  /** The builder of get_sophemes.py:37-69, holding its two lists. */
  class OutlineSoundsBuilder<P(==), X> {
    var groups: seq<ConsonantVowelGroup<Sound<P, X>>>
    var current: seq<Sound<P, X>>

    function State(): Building<Sound<P, X>>
      reads this
    {
      Building(groups, current)
    }

    constructor ()
      ensures State() == Building([], [])
    {
      groups := [];
      current := [];
    }

    method AppendDiphthongTransition(transitions: map<P, P>)
      modifies this
      ensures State() == WithDiphthongTransition(old(State()), transitions)
    {
      if !(|groups| > 0 && |current| == 0) {
        return;
      }
      var prevVowel := groups[|groups| - 1].vowel;
      if prevVowel.phoneme !in transitions {
        return;
      }
      current := current + [Sound(transitions[prevVowel.phoneme], None)];
    }

    method AddConsonant(c: Sound<P, X>)
      modifies this
      ensures State() == AddConsonantTo(old(State()), c)
    {
      current := current + [c];
    }

    method AddVowel(v: Sound<P, X>, transitions: map<P, P>)
      modifies this
      ensures State() == AddVowelTo(old(State()), v, transitions)
    {
      AppendDiphthongTransition(transitions);
      groups := groups + [ConsonantVowelGroup(current, v)];
      current := [];
    }

    method BuildSounds() returns (o: OutlineSounds<Sound<P, X>>)
      ensures o == Build(State())
    {
      o := OutlineSounds(groups, current);
    }
  }

  /** Phonemes without a source steneme. */
  function Unsourced<P, X>(ps: seq<P>): (r: seq<Sound<P, X>>)
    ensures |r| == |ps| && forall i :: 0 <= i < |ps| ==> r[i] == Sound(ps[i], None)
  {
    seq(|ps|, i requires 0 <= i < |ps| => Sound(ps[i], None))
  }

  /** Phonemes that all came from steneme `s`. */
  function Sourced<P, X>(ps: seq<P>, s: X): (r: seq<Sound<P, X>>)
    ensures |r| == |ps| && forall i :: 0 <= i < |ps| ==> r[i] == Sound(ps[i], Some(s))
  {
    seq(|ps|, i requires 0 <= i < |ps| => Sound(ps[i], Some(s)))
  }

  const MISSING_VOWEL_CHORD := "vowel chord has no phoneme"

  /** One stroke of `get_outline_phonemes` (get_sophemes.py:16-32): nothing when it has
      an asterisk part; otherwise its left consonants, its vowel if any, and its right
      consonants, in that order. */
  function OutlineStrokeStep<P, X>(svc: Service<P>, transitions: map<P, P>, b: Building<Sound<P, X>>, stroke: Stroke):
    (r: Result<Option<Building<Sound<P, X>>>>)
    ensures r == Ok(None) <==> SplitStrokeParts(svc.spec.banks, stroke).asterisk != {}
    ensures r.Err? <==> var parts := SplitStrokeParts(svc.spec.banks, stroke);
              parts.asterisk == {} && parts.vowels != {} && parts.vowels !in svc.chordsToPhonemesVowels
    ensures r.Ok? && r.value.Some? ==>
              b.groups <= r.value.value.groups &&
              (|r.value.value.groups| == |b.groups| + 1 <==> SplitStrokeParts(svc.spec.banks, stroke).vowels != {}) &&
              (|r.value.value.groups| == |b.groups| ==> b.current <= r.value.value.current)
  {
    var parts := SplitStrokeParts(svc.spec.banks, stroke);
    if |parts.asterisk| > 0 then Ok(None)
    else
      var b1 := AddConsonantsTo(b, Unsourced(SplitFrom(svc.consonantsTrie, Keys(parts.leftConsonants), 0)));
      if |parts.vowels| > 0 && parts.vowels !in svc.chordsToPhonemesVowels then Err(MISSING_VOWEL_CHORD)
      else
        var b2 := if |parts.vowels| > 0
                  then AddVowelTo(b1, Sound(svc.chordsToPhonemesVowels[parts.vowels], None), transitions)
                  else b1;
        Ok(Some(AddConsonantsTo(b2, Unsourced(SplitFrom(svc.consonantsTrie, Keys(parts.rightConsonants), 0)))))
  }

  /** `get_outline_phonemes` from a partly built outline on. */
  function OutlineFrom<P, X>(svc: Service<P>, transitions: map<P, P>, outline: seq<Stroke>, b: Building<Sound<P, X>>):
    (r: Result<Option<OutlineSounds<Sound<P, X>>>>)
    decreases |outline|
  {
    if outline == [] then Ok(Some(Build(b)))
    else match OutlineStrokeStep(svc, transitions, b, outline[0])
      case Err(m) => Err(m)
      case Ok(None) => Ok(None)
      case Ok(Some(b1)) => OutlineFrom(svc, transitions, outline[1..], b1)
  }

  /** Every vowel part of the outline's strokes has a phoneme. */
  predicate VowelChordsKnown<P>(svc: Service<P>, outline: seq<Stroke>) {
    forall i :: 0 <= i < |outline| ==>
      var v := SplitStrokeParts(svc.spec.banks, outline[i]).vowels;
      v == {} || v in svc.chordsToPhonemesVowels
  }

  /** With every vowel chord known, the outline has no sounds exactly when one of its
      strokes has an asterisk part. */
  lemma {:induction false} OutlineNoneIffAsterisk<P, X>(svc: Service<P>, transitions: map<P, P>, outline: seq<Stroke>, b: Building<Sound<P, X>>)
    requires VowelChordsKnown(svc, outline)
    ensures OutlineFrom(svc, transitions, outline, b).Ok?
    ensures OutlineFrom(svc, transitions, outline, b) == Ok(None) <==>
              exists i :: 0 <= i < |outline| && SplitStrokeParts(svc.spec.banks, outline[i]).asterisk != {}
    decreases |outline|
  {
    if outline != [] {
      var step := OutlineStrokeStep(svc, transitions, b, outline[0]);
      assert step.Ok?;
      if step.value.Some? {
        assert VowelChordsKnown(svc, outline[1..]) by {
          forall i | 0 <= i < |outline[1..]|
            ensures var v := SplitStrokeParts(svc.spec.banks, outline[1..][i]).vowels;
                    v == {} || v in svc.chordsToPhonemesVowels
          {
            assert outline[1..][i] == outline[i + 1];
          }
        }
        OutlineNoneIffAsterisk(svc, transitions, outline[1..], step.value.value);
        assert forall i :: 1 <= i < |outline| ==> outline[i] == outline[1..][i - 1];
      }
    }
  }

  /** `get_outline_phonemes` (get_sophemes.py:11-34). */
  method GetOutlinePhonemes<P, X>(svc: Service<P>, transitions: map<P, P>, outline: seq<Stroke>)
    returns (r: Result<Option<OutlineSounds<Sound<P, X>>>>)
    ensures r == OutlineFrom(svc, transitions, outline, Building([], []))
  {
    var groups: seq<ConsonantVowelGroup<Sound<P, X>>> := [];
    var current: seq<Sound<P, X>> := [];
    for i := 0 to |outline|
      invariant OutlineFrom(svc, transitions, outline, Building([], [])) ==
                OutlineFrom(svc, transitions, outline[i..], Building(groups, current))
    {
      assert outline[i..][0] == outline[i] && outline[i..][1..] == outline[i + 1..];
      var b0 := Building(groups, current);
      var parts := SplitStrokeParts(svc.spec.banks, outline[i]);
      if |parts.asterisk| > 0 {
        return Ok(None);
      }
      var left := SplitConsonantPhonemes(svc.consonantsTrie, parts.leftConsonants);
      current := current + Unsourced(left);
      if |parts.vowels| > 0 {
        var isDiphthongTransition := |groups| > 0 && |current| == 0;
        if isDiphthongTransition && groups[|groups| - 1].vowel.phoneme in transitions {
          current := current + [Sound(transitions[groups[|groups| - 1].vowel.phoneme], None)];
        }
        if parts.vowels !in svc.chordsToPhonemesVowels {
          return Err(MISSING_VOWEL_CHORD);
        }
        groups := groups + [ConsonantVowelGroup(current, Sound(svc.chordsToPhonemesVowels[parts.vowels], None))];
        current := [];
      }
      var right := SplitConsonantPhonemes(svc.consonantsTrie, parts.rightConsonants);
      current := current + Unsourced(right);
      assert OutlineStrokeStep(svc, transitions, b0, outline[i]) == Ok(Some(Building(groups, current)));
    }
    assert outline[|outline|..] == [];
    return Ok(Some(OutlineSounds(groups, current)));
  }

  /** Some stroke has a vowel key. */
  predicate HasVowelKey(steno: seq<Stroke>) {
    exists i :: 0 <= i < |steno| && steno[i] * VOWEL_KEYS != {}
  }

  /** The vowel keys of the first stroke that has any (get_sophemes.py:86-89). */
  function FirstVowelSubstroke(steno: seq<Stroke>): (r: Stroke)
    requires HasVowelKey(steno)
    ensures r != {} && exists i :: 0 <= i < |steno| && r == steno[i] * VOWEL_KEYS &&
                                   forall j :: 0 <= j < i ==> steno[j] * VOWEL_KEYS == {}
  {
    if steno[0] * VOWEL_KEYS != {} then steno[0] * VOWEL_KEYS
    else
      assert HasVowelKey(steno[1..]) by {
        var i :| 0 <= i < |steno| && steno[i] * VOWEL_KEYS != {};
        assert steno[1..][i - 1] == steno[i];
      }
      var r := FirstVowelSubstroke(steno[1..]);
      assert forall i :: 0 <= i < |steno[1..]| ==> steno[1..][i] == steno[i + 1];
      r
  }

  /** The consonant phonemes of every stroke in turn. */
  function SplitStrokes<P>(t: ReadonlyData<Key, seq<P>>, steno: seq<Stroke>): seq<P>
    decreases |steno|
  {
    if steno == [] then []
    else SplitStrokes(t, steno[..|steno| - 1]) + SplitFrom(t, Keys(steno[|steno| - 1]), 0)
  }

  /** A steneme with neither a phoneme nor any steno. */
  predicate Blank<P, Y>(s: Steneme<P, Y>) {
    s.phoneme.None? && |s.steno| == 0
  }

  /** One steneme of `get_sopheme_phonemes` (get_sophemes.py:75-100): blank ones are
      skipped; a vowel phoneme, or else steno with a vowel key, adds a vowel; otherwise
      the phoneme, or else the consonants split from each stroke, are added. */
  function SophemeStep<P, Y>(svc: Service<P>, transitions: map<P, P>, vowelPhonemes: set<P>,
                             b: Building<Sound<P, Steneme<P, Y>>>, s: Steneme<P, Y>):
    (r: Result<Building<Sound<P, Steneme<P, Y>>>>)
    ensures Blank(s) ==> r == Ok(b)
    ensures r.Err? ==> !(s.phoneme.Some? && s.phoneme.value in vowelPhonemes) && HasVowelKey(s.steno)
    ensures r.Ok? ==> b.groups <= r.value.groups
    ensures r.Ok? && !Blank(s) ==>
              (|r.value.groups| == |b.groups| + 1 <==> (s.phoneme.Some? && s.phoneme.value in vowelPhonemes) || HasVowelKey(s.steno))
    ensures r.Ok? && |r.value.groups| == |b.groups| ==> b.current <= r.value.current
  {
    if Blank(s) then Ok(b)
    else if s.phoneme.Some? && s.phoneme.value in vowelPhonemes then
      Ok(AddVowelTo(b, Sound(s.phoneme.value, Some(s)), transitions))
    else if HasVowelKey(s.steno) then
      var sub := FirstVowelSubstroke(s.steno);
      if sub !in svc.chordsToPhonemesVowels then Err(MISSING_VOWEL_CHORD)
      else Ok(AddVowelTo(b, Sound(svc.chordsToPhonemesVowels[sub], Some(s)), transitions))
    else if s.phoneme.Some? then Ok(AddConsonantTo(b, Sound(s.phoneme.value, Some(s))))
    else Ok(AddConsonantsTo(b, Sourced(SplitStrokes(svc.consonantsTrie, s.steno), s)))
  }

  /** `get_sopheme_phonemes` from a partly built outline on. */
  function SophemesFrom<P, Y>(svc: Service<P>, transitions: map<P, P>, vowelPhonemes: set<P>,
                              ss: seq<Steneme<P, Y>>, b: Building<Sound<P, Steneme<P, Y>>>):
    Result<OutlineSounds<Sound<P, Steneme<P, Y>>>>
    decreases |ss|
  {
    if ss == [] then Ok(Build(b))
    else match SophemeStep(svc, transitions, vowelPhonemes, b, ss[0])
      case Err(m) => Err(m)
      case Ok(b1) => SophemesFrom(svc, transitions, vowelPhonemes, ss[1..], b1)
  }

  /** The stenemes that are not blank, in order. */
  function WithoutBlanks<P, Y>(ss: seq<Steneme<P, Y>>): (r: seq<Steneme<P, Y>>)
    ensures forall i :: 0 <= i < |r| ==> !Blank(r[i])
    ensures |r| <= |ss|
  {
    if ss == [] then []
    else if Blank(ss[0]) then WithoutBlanks(ss[1..])
    else [ss[0]] + WithoutBlanks(ss[1..])
  }

  /** Blank stenemes make no difference wherever they stand. */
  lemma {:induction false} BlanksIgnored<P, Y>(svc: Service<P>, transitions: map<P, P>, vowelPhonemes: set<P>,
                                               ss: seq<Steneme<P, Y>>, b: Building<Sound<P, Steneme<P, Y>>>)
    ensures SophemesFrom(svc, transitions, vowelPhonemes, ss, b) ==
            SophemesFrom(svc, transitions, vowelPhonemes, WithoutBlanks(ss), b)
    decreases |ss|
  {
    if ss != [] {
      var rest := WithoutBlanks(ss[1..]);
      if Blank(ss[0]) {
        BlanksIgnored(svc, transitions, vowelPhonemes, ss[1..], b);
      } else {
        assert ([ss[0]] + rest)[0] == ss[0] && ([ss[0]] + rest)[1..] == rest;
        match SophemeStep(svc, transitions, vowelPhonemes, b, ss[0])
        case Err(m) =>
        case Ok(b1) => BlanksIgnored(svc, transitions, vowelPhonemes, ss[1..], b1);
      }
    }
  }

  /** The consonants of steneme `s` split from its strokes, added through the builder
      one at a time (get_sophemes.py:98-100). */
  method AddSplitConsonants<P(==), Y>(builder: OutlineSoundsBuilder<P, Steneme<P, Y>>, t: ReadonlyData<Key, seq<P>>, s: Steneme<P, Y>)
    modifies builder
    ensures builder.State() == AddConsonantsTo(old(builder.State()), Sourced(SplitStrokes(t, s.steno), s))
  {
    var b0 := builder.State();
    for j := 0 to |s.steno|
      invariant builder.State() == AddConsonantsTo(b0, Sourced(SplitStrokes(t, s.steno[..j]), s))
    {
      var ps := SplitConsonantPhonemes(t, s.steno[j]);
      assert s.steno[..j + 1][..j] == s.steno[..j] && s.steno[..j + 1][j] == s.steno[j];
      ghost var before := SplitStrokes(t, s.steno[..j]);
      for k := 0 to |ps|
        invariant builder.State() == AddConsonantsTo(b0, Sourced(before + ps[..k], s))
      {
        assert (before + ps[..k + 1]) == (before + ps[..k]) + [ps[k]];
        builder.AddConsonant(Sound(ps[k], Some(s)));
      }
      assert ps[..|ps|] == ps;
    }
    assert s.steno[..|s.steno|] == s.steno;
  }

  /** `get_sopheme_phonemes` (get_sophemes.py:72-103). */
  method GetSophemePhonemes<P(==), Y>(svc: Service<P>, transitions: map<P, P>, vowelPhonemes: set<P>, ss: seq<Steneme<P, Y>>)
    returns (r: Result<OutlineSounds<Sound<P, Steneme<P, Y>>>>)
    ensures r == SophemesFrom(svc, transitions, vowelPhonemes, ss, Building([], []))
  {
    var builder := new OutlineSoundsBuilder<P, Steneme<P, Y>>();
    for i := 0 to |ss|
      invariant SophemesFrom(svc, transitions, vowelPhonemes, ss, Building([], [])) ==
                SophemesFrom(svc, transitions, vowelPhonemes, ss[i..], builder.State())
    {
      assert ss[i..][0] == ss[i] && ss[i..][1..] == ss[i + 1..];
      var s := ss[i];
      ghost var b0 := builder.State();
      if Blank(s) {
        continue;
      } else if s.phoneme.Some? && s.phoneme.value in vowelPhonemes {
        builder.AddVowel(Sound(s.phoneme.value, Some(s)), transitions);
      } else if HasVowelKey(s.steno) {
        var sub := FirstVowelSubstroke(s.steno);
        if sub !in svc.chordsToPhonemesVowels {
          return Err(MISSING_VOWEL_CHORD);
        }
        builder.AddVowel(Sound(svc.chordsToPhonemesVowels[sub], Some(s)), transitions);
      } else if s.phoneme.Some? {
        builder.AddConsonant(Sound(s.phoneme.value, Some(s)));
      } else {
        AddSplitConsonants(builder, svc.consonantsTrie, s);
      }
      assert SophemeStep(svc, transitions, vowelPhonemes, b0, s) == Ok(builder.State());
    }
    assert ss[|ss|..] == [];
    var sounds := builder.BuildSounds();
    return Ok(sounds);
  }
}
