/** The mutable state threaded through building the trie entries of one outline
    (`Elider`, plover_hatchery/lib/pipes/Elider.py; `EntryBuilderState`,
    plover_hatchery/lib/pipes/state.py:98-172). */
module EntryState {
  import opened Wrappers
  import opened OutlineSoundIndexes

  /** Remembers the trie nodes from which a vowel may be elided (Elider.py:5-30). */
  class Elider {
    var srcNodes: seq<nat>

    /** A fresh elider remembers no nodes (Elider.py:6-7). */
    constructor ()
      ensures srcNodes == []
    {
      srcNodes := [];
    }

    /** `set_src_nodes` (Elider.py:9-10). */
    method SetSrcNodes(nodes: seq<nat>)
      modifies this
      ensures srcNodes == nodes
    {
      srcNodes := nodes;
    }

    /** `clone`: a new elider with the same nodes (Elider.py:27-30). */
    method Clone() returns (c: Elider)
      ensures fresh(c) && c.srcNodes == srcNodes
    {
      c := new Elider();
      c.srcNodes := srcNodes;
    }
  }

  /** The per-entry state; `trie` is a handle shared by every state of a build and is
      not part of this model. */
  class EntryBuilderState<S(==)> {
    var phonemes: OutlineSounds<S>
    var translation: string
    var leftConsonantSrcNodes: seq<nat>
    var rightConsonantSrcNodes: seq<nat>
    var lastLeftAltConsonantNodes: seq<nat>
    var lastRightAltConsonantNodes: seq<nat>
    var newestLeftConsonantNode: nat
    var prevLeftConsonantNodes: seq<nat>
    var leftSquishElision: Elider
    var rightSquishElision: Elider
    var boundaryElision: Elider
    var groupIndex: int
    var phonemeIndex: int

    /** Three elider objects, none shared with another. */
    predicate SeparateEliders()
      reads this
    {
      leftSquishElision != rightSquishElision && leftSquishElision != boundaryElision &&
      rightSquishElision != boundaryElision
    }

    /** The field defaults (state.py:109-135, 143-144): no nodes, three fresh eliders,
        and both indices at -1. */
    constructor (phonemes: OutlineSounds<S>, translation: string)
      ensures this.phonemes == phonemes && this.translation == translation
      ensures leftConsonantSrcNodes == [] && rightConsonantSrcNodes == []
      ensures lastLeftAltConsonantNodes == [] && lastRightAltConsonantNodes == []
      ensures newestLeftConsonantNode == 0 && prevLeftConsonantNodes == []
      ensures fresh(leftSquishElision) && fresh(rightSquishElision) && fresh(boundaryElision)
      ensures SeparateEliders()
      ensures leftSquishElision.srcNodes == [] && rightSquishElision.srcNodes == [] && boundaryElision.srcNodes == []
      ensures groupIndex == -1 && phonemeIndex == -1
    {
      this.phonemes := phonemes;
      this.translation := translation;
      leftConsonantSrcNodes := [];
      rightConsonantSrcNodes := [];
      lastLeftAltConsonantNodes := [];
      lastRightAltConsonantNodes := [];
      newestLeftConsonantNode := 0;
      prevLeftConsonantNodes := [];
      leftSquishElision := new Elider();
      rightSquishElision := new Elider();
      boundaryElision := new Elider();
      groupIndex := -1;
      phonemeIndex := -1;
    }

    /** The plain fields of `c` equal those of this state. */
    predicate SamePlainFields(c: EntryBuilderState<S>)
      reads this, c
    {
      c.phonemes == phonemes && c.translation == translation &&
      c.leftConsonantSrcNodes == leftConsonantSrcNodes && c.rightConsonantSrcNodes == rightConsonantSrcNodes &&
      c.lastLeftAltConsonantNodes == lastLeftAltConsonantNodes &&
      c.lastRightAltConsonantNodes == lastRightAltConsonantNodes &&
      c.newestLeftConsonantNode == newestLeftConsonantNode && c.prevLeftConsonantNodes == prevLeftConsonantNodes &&
      c.groupIndex == groupIndex && c.phonemeIndex == phonemeIndex
    }

    /** A copy of `src`'s plain fields holding the given eliders. */
    constructor CopyOf(src: EntryBuilderState<S>, leftSquish: Elider, rightSquish: Elider, boundary: Elider)
      ensures src.SamePlainFields(this)
      ensures leftSquishElision == leftSquish && rightSquishElision == rightSquish && boundaryElision == boundary
    {
      phonemes := src.phonemes;
      translation := src.translation;
      leftConsonantSrcNodes := src.leftConsonantSrcNodes;
      rightConsonantSrcNodes := src.rightConsonantSrcNodes;
      lastLeftAltConsonantNodes := src.lastLeftAltConsonantNodes;
      lastRightAltConsonantNodes := src.lastRightAltConsonantNodes;
      newestLeftConsonantNode := src.newestLeftConsonantNode;
      prevLeftConsonantNodes := src.prevLeftConsonantNodes;
      groupIndex := src.groupIndex;
      phonemeIndex := src.phonemeIndex;
      leftSquishElision := leftSquish;
      rightSquishElision := rightSquish;
      boundaryElision := boundary;
    }

    /** `clone` as written (state.py:136-140): a shallow copy whose left-squish and
        boundary eliders are copied, while the right-squish elider stays the very
        object this state holds. */
    method CloneAsWritten() returns (c: EntryBuilderState<S>)
      ensures fresh(c) && SamePlainFields(c)
      ensures fresh(c.leftSquishElision) && c.leftSquishElision.srcNodes == leftSquishElision.srcNodes
      ensures fresh(c.boundaryElision) && c.boundaryElision.srcNodes == boundaryElision.srcNodes
      ensures c.leftSquishElision != c.boundaryElision
      ensures c.rightSquishElision == rightSquishElision
    {
      var leftSquish := leftSquishElision.Clone();
      var boundary := boundaryElision.Clone();
      c := new EntryBuilderState.CopyOf(this, leftSquish, rightSquishElision, boundary);
    }

    /** `clone` with all three eliders copied, so that no later `set_src_nodes` on the
        copy reaches this state. */
    method Clone() returns (c: EntryBuilderState<S>)
      ensures fresh(c) && SamePlainFields(c)
      ensures fresh(c.leftSquishElision) && c.leftSquishElision.srcNodes == leftSquishElision.srcNodes
      ensures fresh(c.rightSquishElision) && c.rightSquishElision.srcNodes == rightSquishElision.srcNodes
      ensures fresh(c.boundaryElision) && c.boundaryElision.srcNodes == boundaryElision.srcNodes
      ensures c.SeparateEliders()
    {
      var leftSquish := leftSquishElision.Clone();
      var rightSquish := rightSquishElision.Clone();
      var boundary := boundaryElision.Clone();
      c := new EntryBuilderState.CopyOf(this, leftSquish, rightSquish, boundary);
    }

    /** `is_first_consonant_set` (state.py:146-148). */
    predicate IsFirstConsonantSet()
      reads this
    {
      groupIndex == 0
    }

    /** `is_first_consonant` (state.py:150-152). */
    predicate IsFirstConsonant()
      reads this
    {
      phonemeIndex == 0
    }

    /** The current indices name a consonant of the outline. */
    predicate AtConsonant()
      reads this
    {
      groupIndex >= 0 && phonemeIndex >= 0 && IsConsonantIndex(phonemes, Index(groupIndex, phonemeIndex))
    }

    /** `consonant`: the consonant at the current indices (state.py:154-156). */
    function Consonant(): (r: S)
      reads this
      requires AtConsonant()
      ensures IsConsonantIndex(phonemes, Index(groupIndex, phonemeIndex))
      ensures r == SoundAt(phonemes, Index(groupIndex, phonemeIndex))
    {
      Consonants(phonemes, groupIndex)[phonemeIndex]
    }

    /** `next_consonant`: the nearest later consonant, if any (state.py:158-160). */
    method NextConsonant() returns (r: Option<S>)
      requires AtConsonant()
      ensures r.None? <==> forall y :: IsConsonantIndex(phonemes, y) ==> !Lt(Index(groupIndex, phonemeIndex), y)
      ensures r.Some? ==> exists y :: IsConsonantIndex(phonemes, y) && Lt(Index(groupIndex, phonemeIndex), y) &&
                                r.value == Consonants(phonemes, y.group)[y.sound] &&
                                forall z :: IsConsonantIndex(phonemes, z) && Lt(Index(groupIndex, phonemeIndex), z) ==> !Lt(z, y)
    {
      r := ConsonantAfter(phonemes, Index(groupIndex, phonemeIndex));
    }

    /** `last_consonant`: the nearest earlier consonant, if any (state.py:162-164). */
    method LastConsonant() returns (r: Option<S>)
      requires AtConsonant()
      ensures r.None? <==> forall y :: IsConsonantIndex(phonemes, y) ==> !Lt(y, Index(groupIndex, phonemeIndex))
      ensures r.Some? ==> exists y :: IsConsonantIndex(phonemes, y) && Lt(y, Index(groupIndex, phonemeIndex)) &&
                                r.value == Consonants(phonemes, y.group)[y.sound] &&
                                forall z :: IsConsonantIndex(phonemes, z) && Lt(z, Index(groupIndex, phonemeIndex)) ==> !Lt(y, z)
    {
      r := ConsonantBefore(phonemes, Index(groupIndex, phonemeIndex));
    }

    /** `n_previous_syllable_consonants`: the consonants of the group before the
        current one, or 0 in the first group and before any group (state.py:166-168). */
    function NPreviousSyllableConsonants(): (n: nat)
      reads this
      requires groupIndex <= |phonemes.nonfinals| + 1
      ensures groupIndex <= 0 ==> n == 0
      ensures groupIndex > 0 ==> n == |Consonants(phonemes, groupIndex - 1)|
    {
      if groupIndex > 0 then NConsonantsInGroup(phonemes, groupIndex - 1) else 0
    }

    /** `can_elide_prev_vowel_left`: the current consonant opens a group after the
        first, and the group before it ends in a consonant, so the vowel between them
        may be dropped (state.py:170-172). */
    predicate CanElidePrevVowelLeft()
      reads this
      requires groupIndex <= |phonemes.nonfinals| + 1
      ensures CanElidePrevVowelLeft() <==>
                0 < groupIndex && phonemeIndex == 0 && Consonants(phonemes, groupIndex - 1) != []
    {
      !IsFirstConsonantSet() && IsFirstConsonant() && NPreviousSyllableConsonants() > 0
    }
  }

  /** A copy made with `clone` as written shares its right-squish elider: setting that
      elider's nodes through the copy changes them in the original state too. */
  method CloneAsWrittenLeaksRightSquish<S(==)>(st: EntryBuilderState<S>, nodes: seq<nat>) returns (c: EntryBuilderState<S>)
    requires st.rightSquishElision.srcNodes != nodes
    modifies st.rightSquishElision
    ensures st.rightSquishElision.srcNodes == nodes
    ensures st.rightSquishElision.srcNodes != old(st.rightSquishElision.srcNodes)
  {
    c := st.CloneAsWritten();
    c.rightSquishElision.SetSrcNodes(nodes);
  }

  /** A copy made with the corrected `clone` is independent: setting any of its
      eliders' nodes leaves the original state as it was. */
  method CloneIsIndependent<S(==)>(st: EntryBuilderState<S>, nodes: seq<nat>) returns (c: EntryBuilderState<S>)
    ensures c.rightSquishElision.srcNodes == nodes && c.leftSquishElision.srcNodes == nodes
    ensures c.boundaryElision.srcNodes == nodes
    ensures unchanged(st, st.leftSquishElision, st.rightSquishElision, st.boundaryElision)
  {
    c := st.Clone();
    c.rightSquishElision.SetSrcNodes(nodes);
    c.leftSquishElision.SetSrcNodes(nodes);
    c.boundaryElision.SetSrcNodes(nodes);
  }
}
