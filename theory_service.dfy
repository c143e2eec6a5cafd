/** The theory service: splitting a stroke into its banks, splitting a consonant chord
    into phonemes by greedy longest match over a trie of chords, the stroke-joining
    test, and the vowel-chord table (plover_hatchery/lib/theory_factory/service.py). */
module TheoryService {
  import opened Wrappers
  import opened Steno
  import opened DeterministicTrie
  import opened Banks

  /** The parts of a theory the service reads: the four bank substrokes (whose
      `split_stroke_parts` and `can_add_stroke_on`, service.py:111-124, are those of
      `Banks`), the linker chord, and the vowel chord of each vowel phoneme in table
      order. */
  datatype TheorySpec<P> = TheorySpec(banks: BankStrokes, linkerChord: Stroke, phonemesToChordsVowels: seq<(P, Stroke)>)

  /** A theory service: its spec, the frozen trie of consonant chords keyed by key,
      and the vowel phoneme of each vowel chord. */
  datatype Service<P> = Service(spec: TheorySpec<P>, consonantsTrie: ReadonlyData<Key, seq<P>>,
                                chordsToPhonemesVowels: map<Stroke, P>)

  /** `__build_chords_to_phonemes_vowels`: the table inverted; where two phonemes share
      a chord the later one wins, as in a dict comprehension (service.py:82-86). */
  function InvertVowelChords<P>(pairs: seq<(P, Stroke)>): (m: map<Stroke, P>)
    ensures forall s :: s in m <==> exists i :: 0 <= i < |pairs| && pairs[i].1 == s
    ensures forall s :: s in m ==> exists i :: 0 <= i < |pairs| && pairs[i] == (m[s], s) &&
                                             forall j :: i < j < |pairs| ==> pairs[j].1 != s
  {
    if pairs == [] then map[]
    else
      var init := InvertVowelChords(pairs[..|pairs| - 1]);
      InvertVowelChordsStep(pairs, init);
      init[pairs[|pairs| - 1].1 := pairs[|pairs| - 1].0]
  }

  /** The chords of `pairs` are the keys of `m`, each mapped to the phoneme of the last
      pair with that chord. */
  ghost predicate Inverts<P>(pairs: seq<(P, Stroke)>, m: map<Stroke, P>) {
    (forall s :: s in m <==> exists i :: 0 <= i < |pairs| && pairs[i].1 == s) &&
    (forall s :: s in m ==> exists i :: 0 <= i < |pairs| && pairs[i] == (m[s], s) &&
                                      forall j :: i < j < |pairs| ==> pairs[j].1 != s)
  }

  /** Adding the last pair to the inversion of the others inverts them all. */
  lemma InvertVowelChordsStep<P>(pairs: seq<(P, Stroke)>, init: map<Stroke, P>)
    requires |pairs| > 0 && Inverts(pairs[..|pairs| - 1], init)
    ensures Inverts(pairs, init[pairs[|pairs| - 1].1 := pairs[|pairs| - 1].0])
  {
    var n := |pairs| - 1;
    var front, last := pairs[..n], pairs[n];
    var m := init[last.1 := last.0];
    assert forall i :: 0 <= i < n ==> front[i] == pairs[i];
    forall s | s in m
      ensures exists i :: 0 <= i < |pairs| && pairs[i] == (m[s], s) && forall j :: i < j < |pairs| ==> pairs[j].1 != s
    {
      if s == last.1 {
        assert pairs[n] == (m[s], s);
      } else {
        var i :| 0 <= i < n && front[i] == (init[s], s) && forall j :: i < j < n ==> front[j].1 != s;
        assert pairs[i] == (m[s], s);
      }
    }
    forall s ensures s in m <==> exists i :: 0 <= i < |pairs| && pairs[i].1 == s {
      if s in m && s != last.1 {
        var i :| 0 <= i < n && front[i].1 == s;
        assert pairs[i].1 == s;
      }
      if s !in m {
        forall i | 0 <= i < |pairs| ensures pairs[i].1 != s {
          if i < n { assert front[i].1 != s; }
        }
      }
    }
  }

  /** `TheoryService.theory`: refuses a spec whose linker chord has a key outside the
      left bank (service.py:16-20). */
  function Theory<P>(spec: TheorySpec<P>, consonantsTrie: ReadonlyData<Key, seq<P>>): (r: Result<Service<P>>)
    ensures r.Ok? <==> spec.linkerChord <= spec.banks.left
    ensures r.Ok? ==> r.value.spec == spec && r.value.consonantsTrie == consonantsTrie
    ensures r.Ok? ==> r.value.chordsToPhonemesVowels == InvertVowelChords(spec.phonemesToChordsVowels)
  {
    assert spec.linkerChord - spec.banks.left != {} ==> exists k :: k in spec.linkerChord && k !in spec.banks.left;
    assert spec.linkerChord - spec.banks.left == {} ==> forall k :: k in spec.linkerChord ==> k in spec.linkerChord - spec.banks.left || k in spec.banks.left;
    if spec.linkerChord - spec.banks.left != {} then Err("Linker chord must only consist of starter keys")
    else Ok(Service(spec, consonantsTrie, InvertVowelChords(spec.phonemesToChordsVowels)))
  }

  /** The phonemes of the chord spelt by `w`, if the trie holds one. */
  function ChordAt<P>(t: ReadonlyData<Key, seq<P>>, w: seq<Key>): Option<seq<P>> {
    match ReadonlyGetDstChain(t, ROOT, w)
    case None => None
    case Some(n) => if n in t.translations then Some(t.translations[n]) else None
  }

  /** Following `w + v` is following `w`, then `v`. */
  lemma {:induction false} ChainAppend<P>(t: ReadonlyData<Key, seq<P>>, src: nat, w: seq<Key>, v: seq<Key>)
    ensures ReadonlyGetDstChain(t, src, w + v) ==
            match ReadonlyGetDstChain(t, src, w)
            case None => None
            case Some(n) => ReadonlyGetDstChain(t, n, v)
    decreases |w|
  {
    if |w| > 0 {
      assert (w + v)[0] == w[0] && (w + v)[1..] == w[1..] + v;
      match ReadonlyGetDst(t, src, w[0])
      case None =>
      case Some(n) => ChainAppend(t, n, w[1..], v);
    } else {
      assert w + v == v;
    }
  }

  /** The phonemes of the chord made of `keys[start..e]`, both ends included. */
  function ChordEndingAt<P>(t: ReadonlyData<Key, seq<P>>, keys: seq<Key>, start: nat, e: nat): Option<seq<P>>
    requires start <= e < |keys|
  {
    ChordAt(t, keys[start..e + 1])
  }

  /** The end of the longest chord starting at `start` and ending before `hi`. */
  function LongestChordEnd<P>(t: ReadonlyData<Key, seq<P>>, keys: seq<Key>, start: nat, hi: nat): (r: Option<nat>)
    requires start <= hi <= |keys|
    ensures r.Some? ==> start <= r.value < hi && ChordEndingAt(t, keys, start, r.value).Some?
    ensures r.Some? ==> forall e :: r.value < e < hi ==> ChordEndingAt(t, keys, start, e).None?
    ensures r.None? ==> forall e :: start <= e < hi ==> ChordEndingAt(t, keys, start, e).None?
    decreases hi
  {
    if hi == start then None
    else if ChordEndingAt(t, keys, start, hi - 1).Some? then Some(hi - 1)
    else LongestChordEnd(t, keys, start, hi - 1)
  }

  /** When no chord ends in `[seek, hi)`, the longest chord ends before `seek`. */
  lemma {:induction false} LongestChordEndBefore<P>(t: ReadonlyData<Key, seq<P>>, keys: seq<Key>, start: nat, seek: nat, hi: nat)
    requires start <= seek <= hi <= |keys|
    requires forall e :: seek <= e < hi ==> ChordEndingAt(t, keys, start, e).None?
    ensures LongestChordEnd(t, keys, start, hi) == LongestChordEnd(t, keys, start, seek)
    decreases hi
  {
    if seek < hi {
      LongestChordEndBefore(t, keys, start, seek, hi - 1);
    }
  }

  /** What `split_consonant_phonemes` yields for the keys from `start` on: the phonemes
      of the longest chord starting there, then the rest after that chord; a key that
      starts no chord yields nothing and is skipped. */
  function SplitFrom<P>(t: ReadonlyData<Key, seq<P>>, keys: seq<Key>, start: nat): seq<P>
    requires start <= |keys|
    decreases |keys| - start
  {
    if start == |keys| then []
    else match LongestChordEnd(t, keys, start, |keys|)
      case None => SplitFrom(t, keys, start + 1)
      case Some(e) => ChordEndingAt(t, keys, start, e).value + SplitFrom(t, keys, e + 1)
  }

  /** Greedy longest match: when `keys[start..end)` is a chord and no longer run from
      `start` is one, the phonemes are that chord's followed by those from `end` on,
      whatever shorter chords the run contains. */
  lemma LongestMatchFirst<P>(t: ReadonlyData<Key, seq<P>>, keys: seq<Key>, start: nat, end: nat)
    requires start < end <= |keys| && ChordEndingAt(t, keys, start, end - 1).Some?
    requires forall e :: end <= e < |keys| ==> ChordEndingAt(t, keys, start, e).None?
    ensures SplitFrom(t, keys, start) == ChordAt(t, keys[start..end]).value + SplitFrom(t, keys, end)
  {
    LongestChordEndBefore(t, keys, start, end, |keys|);
  }

  /** A key that begins no chord contributes nothing and the split resumes after it. */
  lemma UnchordedStartSkipped<P>(t: ReadonlyData<Key, seq<P>>, keys: seq<Key>, start: nat)
    requires start < |keys|
    requires forall e :: start <= e < |keys| ==> ChordEndingAt(t, keys, start, e).None?
    ensures SplitFrom(t, keys, start) == SplitFrom(t, keys, start + 1)
  {
    LongestChordEndBefore(t, keys, start, start, |keys|);
  }

  /** The walk of one outer iteration of `split_consonant_phonemes` (service.py:56-74):
      follow the keys from `start` through the chord trie until a key has no edge,
      remembering the last node with phonemes. */
  method LongestChordFrom<P>(t: ReadonlyData<Key, seq<P>>, keys: seq<Key>, start: nat) returns (longest: nat, entry: seq<P>)
    requires start < |keys|
    ensures LongestChordEnd(t, keys, start, |keys|).None? ==> longest == start && entry == []
    ensures LongestChordEnd(t, keys, start, |keys|).Some? ==>
              longest == LongestChordEnd(t, keys, start, |keys|).value &&
              entry == ChordEndingAt(t, keys, start, longest).value
  {
    var current: nat := ROOT;
    longest := start;
    entry := [];
    var seek := start;
    assert keys[start..start] == [];
    while seek < |keys|
      invariant start <= seek <= |keys|
      invariant ReadonlyGetDstChain(t, ROOT, keys[start..seek]) == Some(current)
      invariant LongestChordEnd(t, keys, start, seek).None? ==> longest == start && entry == []
      invariant LongestChordEnd(t, keys, start, seek).Some? ==>
                  longest == LongestChordEnd(t, keys, start, seek).value &&
                  entry == ChordEndingAt(t, keys, start, longest).value
      decreases |keys| - seek
    {
      assert keys[start..seek + 1] == keys[start..seek] + [keys[seek]];
      ChainAppend(t, ROOT, keys[start..seek], [keys[seek]]);
      var next := ReadonlyGetDst(t, current, keys[seek]);
      if next.None? {
        forall e | seek <= e < |keys|
          ensures ChordEndingAt(t, keys, start, e).None?
        {
          assert keys[start..e + 1] == keys[start..seek + 1] + keys[seek + 1..e + 1];
          ChainAppend(t, ROOT, keys[start..seek + 1], keys[seek + 1..e + 1]);
        }
        LongestChordEndBefore(t, keys, start, seek, |keys|);
        return;
      }
      current := next.value;
      if current in t.translations {
        entry := t.translations[current];
        longest := seek;
      }
      seek := seek + 1;
    }
  }

  /** The loop of `split_consonant_phonemes` over the keys of the stroke
      (service.py:52-78): from each start, emit the phonemes of the longest chord found
      there and resume after it, or after the start key when none was found. */
  method SplitKeys<P>(t: ReadonlyData<Key, seq<P>>, keys: seq<Key>) returns (r: seq<P>)
    ensures r == SplitFrom(t, keys, 0)
  {
    var start := 0;
    r := [];
    while start < |keys|
      invariant start <= |keys|
      invariant r + SplitFrom(t, keys, start) == SplitFrom(t, keys, 0)
      decreases |keys| - start
    {
      var longest, entry := LongestChordFrom(t, keys, start);
      SplitFromStep(t, keys, start, longest, entry);
      assert (r + entry) + SplitFrom(t, keys, longest + 1) == r + (entry + SplitFrom(t, keys, longest + 1));
      r := r + entry;
      start := longest + 1;
    }
  }

  /** One turn of the loop: the phonemes from `start` are the longest chord's entry
      followed by the phonemes after it. */
  lemma SplitFromStep<P>(t: ReadonlyData<Key, seq<P>>, keys: seq<Key>, start: nat, longest: nat, entry: seq<P>)
    requires start < |keys|
    requires LongestChordEnd(t, keys, start, |keys|).None? ==> longest == start && entry == []
    requires LongestChordEnd(t, keys, start, |keys|).Some? ==>
               longest == LongestChordEnd(t, keys, start, |keys|).value &&
               entry == ChordEndingAt(t, keys, start, longest).value
    ensures longest < |keys|
    ensures SplitFrom(t, keys, start) == entry + SplitFrom(t, keys, longest + 1)
  {
    if LongestChordEnd(t, keys, start, |keys|).None? {
      assert [] + SplitFrom(t, keys, start + 1) == SplitFrom(t, keys, start + 1);
    }
  }

  /** `split_consonant_phonemes` (service.py:51-78), on the stroke's keys in steno order. */
  method SplitConsonantPhonemes<P>(t: ReadonlyData<Key, seq<P>>, stroke: Stroke) returns (r: seq<P>)
    ensures r == SplitFrom(t, Keys(stroke), 0)
  {
    r := SplitKeys(t, Keys(stroke));
  }
}
