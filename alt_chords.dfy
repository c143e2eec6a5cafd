/** The alternate-chords plugin: a lookup result may use an alternate chord for some
    sounds only where none of the main chords for those sounds could have been
    written in its place, between the chord before it and the chord after it in the
    same stroke. */
module AltChords {
  import opened Steno
  import FloatingKeys

  /** A run of sounds, by their names. */
  type Sophs = seq<string>

  /** One step of a lookup path: the sounds written, the chord that wrote them, and
      whether the chord opened a new stroke (the phonemes and trie transitions the
      step also carries play no part here). */
  datatype Association = Association(sophs: Sophs, chord: Stroke, startsNewStroke: bool)

  /** The plugin's settings: the alternate chords and the main chords declared for each
      run of sounds, and the floating keys that key order ignores. */
  datatype AltChordsConfig = AltChordsConfig(
    alternates: map<Sophs, seq<Stroke>>,
    mains: map<Sophs, set<Stroke>>,
    floating: FloatingKeys.FloatingKeysApi)

  /** The association writes its sounds with one of their declared alternate chords. */
  predicate UsesAltChord(config: AltChordsConfig, a: Association) {
    a.sophs in config.alternates && a.chord in config.alternates[a.sophs]
  }

  /** The chord before association `i` in the same stroke, or the empty stroke when `i`
      opens a stroke. */
  function PrecedingChord(used: seq<Association>, i: nat): (r: Stroke)
    requires i < |used|
    ensures (i == 0 || used[i].startsNewStroke) ==> r == {}
    ensures (i > 0 && !used[i].startsNewStroke) ==> r == used[i - 1].chord
  {
    if i == 0 || used[i].startsNewStroke then {} else used[i - 1].chord
  }

  /** The chord after association `i` in the same stroke, or the empty stroke when `i`
      is last or the next association opens a stroke. */
  function FollowingChord(used: seq<Association>, i: nat): (r: Stroke)
    requires i < |used|
    ensures (i == |used| - 1 || used[i + 1].startsNewStroke) ==> r == {}
    ensures (i < |used| - 1 && !used[i + 1].startsNewStroke) ==> r == used[i + 1].chord
  {
    if i == |used| - 1 || used[i + 1].startsNewStroke then {} else used[i + 1].chord
  }

  /** The main chords declared for a run of sounds (none when it has no entry). */
  function MainChords(config: AltChordsConfig, sophs: Sophs): (r: set<Stroke>)
    ensures sophs !in config.mains ==> r == {}
    ensures sophs in config.mains ==> r == config.mains[sophs]
  {
    if sophs in config.mains then config.mains[sophs] else {}
  }

  /** `main` fits between the chords around association `i`: it can follow the
      preceding chord and be followed by the following one. */
  predicate Fits(config: AltChordsConfig, used: seq<Association>, i: nat, main: Stroke)
    requires i < |used|
  {
    FloatingKeys.CanAddStrokeOn(config.floating, PrecedingChord(used, i), main) &&
    FloatingKeys.CanAddStrokeOn(config.floating, main, FollowingChord(used, i))
  }

  /** Association `i` is acceptable: it uses no alternate chord, or none of the main
      chords for its sounds fits where it stands. */
  predicate Justified(config: AltChordsConfig, used: seq<Association>, i: nat)
    requires i < |used|
  {
    UsesAltChord(config, used[i]) ==>
      forall main :: main in MainChords(config, used[i].sophs) ==> !Fits(config, used, i, main)
  }

  /** `validate_lookup_result` from association `i` on: skips associations without an
      alternate chord and rejects at the first alternate chord whose sounds have a
      main chord that fits. */
  function ValidateFrom(config: AltChordsConfig, used: seq<Association>, i: nat): (r: bool)
    requires i <= |used|
    decreases |used| - i
  {
    if i == |used| then true
    else if !UsesAltChord(config, used[i]) then ValidateFrom(config, used, i + 1)
    else if exists main :: main in MainChords(config, used[i].sophs) && Fits(config, used, i, main) then false
    else ValidateFrom(config, used, i + 1)
  }

  /** Whether a lookup result with the given associations is kept. */
  function ValidateLookupResult(config: AltChordsConfig, used: seq<Association>): (r: bool)
  {
    ValidateFrom(config, used, 0)
  }

  /** A result is kept exactly when every alternate chord it uses is justified. */
  lemma {:induction false} ValidateFromIff(config: AltChordsConfig, used: seq<Association>, i: nat)
    requires i <= |used|
    ensures ValidateFrom(config, used, i) <==> forall j :: i <= j < |used| ==> Justified(config, used, j)
    decreases |used| - i
  {
    if i < |used| {
      ValidateFromIff(config, used, i + 1);
      if UsesAltChord(config, used[i]) &&
         exists main :: main in MainChords(config, used[i].sophs) && Fits(config, used, i, main) {
        assert !Justified(config, used, i);
      } else {
        assert Justified(config, used, i);
      }
    }
  }

  /** A result is kept exactly when every alternate chord it uses is justified. */
  lemma ValidateLookupResultIff(config: AltChordsConfig, used: seq<Association>)
    ensures ValidateLookupResult(config, used) <==>
      forall j :: 0 <= j < |used| ==> Justified(config, used, j)
  {
    ValidateFromIff(config, used, 0);
  }

  /** A result that uses no alternate chord is always kept. */
  lemma NoAltChordKept(config: AltChordsConfig, used: seq<Association>)
    requires forall j :: 0 <= j < |used| ==> !UsesAltChord(config, used[j])
    ensures ValidateLookupResult(config, used)
  {
    ValidateLookupResultIff(config, used);
  }

  // ---------------------------------------------------------------------------
  // The example of the plugin's documentation: `KOFT` for "cost", where `-F` is an
  // alternate chord for the S sound because the main chord `-S` cannot follow `-T`.

  const KEY_K: Key := 3
  const KEY_RIGHT_F: Key := 13
  const KEY_RIGHT_T: Key := 19
  const KEY_RIGHT_S: Key := 20

  const COST_CONFIG := AltChordsConfig(
    map[["s"] := [{KEY_RIGHT_F}]],
    map[["s"] := {{KEY_RIGHT_S}}],
    FloatingKeys.FloatingKeysApi({}))

  /** `KOFT`: K, O, -F for the S sound, then -T. */
  const KOFT := [
    Association(["k"], {KEY_K}, true),
    Association(["o"], {KEY_O}, false),
    Association(["s"], {KEY_RIGHT_F}, false),
    Association(["t"], {KEY_RIGHT_T}, false)]

  /** `KOF` for "coss": nothing follows `-F`, so `-S` could have been used. */
  const KOF := KOFT[..3]

  /** `-S` cannot be written before `-T`, so `KOFT` is kept. */
  lemma CostKept()
    ensures ValidateLookupResult(COST_CONFIG, KOFT)
  {
    ValidateLookupResultIff(COST_CONFIG, KOFT);
    var api := COST_CONFIG.floating;
    assert KEY_RIGHT_S in {KEY_RIGHT_S} - api.floaters && KEY_RIGHT_T in {KEY_RIGHT_T} - api.floaters;
    assert !FloatingKeys.CanAddStrokeOn(api, {KEY_RIGHT_S}, {KEY_RIGHT_T});
    assert MainChords(COST_CONFIG, ["s"]) == {{KEY_RIGHT_S}};
    assert FollowingChord(KOFT, 2) == {KEY_RIGHT_T};
    assert Justified(COST_CONFIG, KOFT, 2);
    assert !UsesAltChord(COST_CONFIG, KOFT[0]) && !UsesAltChord(COST_CONFIG, KOFT[1]);
    assert !UsesAltChord(COST_CONFIG, KOFT[3]);
  }

  /** With nothing after it `-S` fits after `O`, so `KOF` is rejected. */
  lemma CossRejected()
    ensures !ValidateLookupResult(COST_CONFIG, KOF)
  {
    ValidateLookupResultIff(COST_CONFIG, KOF);
    var api := COST_CONFIG.floating;
    assert FloatingKeys.CanAddStrokeOn(api, {KEY_O}, {KEY_RIGHT_S});
    assert FloatingKeys.CanAddStrokeOn(api, {KEY_RIGHT_S}, {});
    assert PrecedingChord(KOF, 2) == {KEY_O} && FollowingChord(KOF, 2) == {};
    assert Fits(COST_CONFIG, KOF, 2, {KEY_RIGHT_S});
    assert !Justified(COST_CONFIG, KOF, 2);
  }
}
