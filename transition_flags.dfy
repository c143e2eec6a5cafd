/** Labelled flags attached to (transition, translation) pairs
    (plover_hatchery_lib_rs/src/trie/transition_flag_manager.rs). */
module TransitionFlags {
  import opened Wrappers
  import opened Transition

  /** The flags recorded for `ck`, in the order they were attached; none when the pair
      was never flagged (transition_flag_manager.rs:48-52). */
  function FlagsOf(mappings: map<TransitionCostKey, seq<nat>>, ck: TransitionCostKey): seq<nat> {
    if ck in mappings then mappings[ck] else []
  }

  /** The table after attaching flag `flag` to `ck` (transition_flag_manager.rs:16-21). */
  function Flagged(mappings: map<TransitionCostKey, seq<nat>>, ck: TransitionCostKey, flag: nat): (r: map<TransitionCostKey, seq<nat>>)
    ensures r.Keys == mappings.Keys + {ck}
  {
    mappings[ck := FlagsOf(mappings, ck) + [flag]]
  }

  /** Reading back after flagging: the flagged pair has the new flag appended and every
      other pair reads as before. */
  lemma FlagThenGet(mappings: map<TransitionCostKey, seq<nat>>, ck: TransitionCostKey, flag: nat, other: TransitionCostKey)
    ensures FlagsOf(Flagged(mappings, ck, flag), other) == FlagsOf(mappings, other) + (if other == ck then [flag] else [])
  {
    if other != ck {
      assert FlagsOf(mappings, other) + [] == FlagsOf(mappings, other);
    }
  }

  /** Attaching flags one after another to one pair lists them in that order. */
  function FlagAll(mappings: map<TransitionCostKey, seq<nat>>, ck: TransitionCostKey, flags: seq<nat>): map<TransitionCostKey, seq<nat>>
    decreases |flags|
  {
    if |flags| == 0 then mappings else FlagAll(Flagged(mappings, ck, flags[0]), ck, flags[1..])
  }

  lemma {:induction false} FlagAllThenGet(mappings: map<TransitionCostKey, seq<nat>>, ck: TransitionCostKey, flags: seq<nat>)
    ensures FlagsOf(FlagAll(mappings, ck, flags), ck) == FlagsOf(mappings, ck) + flags
    decreases |flags|
  {
    if |flags| > 0 {
      FlagAllThenGet(Flagged(mappings, ck, flags[0]), ck, flags[1..]);
      FlagThenGet(mappings, ck, flags[0], ck);
      assert [flags[0]] + flags[1..] == flags;
      AppendAssoc(FlagsOf(mappings, ck), [flags[0]], flags[1..]);
    }
  }

  class TransitionFlagManager {
    /** The flag indices attached to each (transition, translation) pair. */
    var mappings: map<TransitionCostKey, seq<nat>>
    /** The label of each flag, by flag index. */
    var flagTypes: seq<string>

    /** No flags and no flagged pairs (transition_flag_manager.rs:25-31). */
    constructor ()
      ensures mappings == map[] && flagTypes == []
    {
      mappings := map[];
      flagTypes := [];
    }

    /** Declare a flag with `flagLabel`; its index is the number of flags declared before
        (transition_flag_manager.rs:33-37). */
    method NewFlag(flagLabel: string) returns (index: nat)
      modifies this
      ensures flagTypes == old(flagTypes) + [flagLabel] && mappings == old(mappings)
      ensures index == |old(flagTypes)| && flagTypes[index] == flagLabel
      ensures GetLabel(index) == flagLabel
      ensures forall j :: 0 <= j < |old(flagTypes)| ==> GetLabel(j) == old(GetLabel(j))
    {
      flagTypes := flagTypes + [flagLabel];
      index := |flagTypes| - 1;
    }

    /** Attach flag `flag` to `ck` (transition_flag_manager.rs:16-21). */
    method FlagTransition(ck: TransitionCostKey, flag: nat)
      modifies this
      ensures mappings == Flagged(old(mappings), ck, flag) && flagTypes == old(flagTypes)
      ensures GetFlags(ck) == old(GetFlags(ck)) + [flag]
      ensures forall other :: other != ck ==> GetFlags(other) == old(GetFlags(other))
    {
      if ck in mappings {
        mappings := mappings[ck := mappings[ck] + [flag]];
      } else {
        assert FlagsOf(mappings, ck) + [flag] == [flag];
        mappings := mappings[ck := [flag]];
      }
      forall other | other != ck
        ensures GetFlags(other) == old(GetFlags(other))
      {
        FlagThenGet(old(mappings), ck, flag, other);
      }
    }

    /** The label of flag `index`; an undeclared index panics in the source
        (transition_flag_manager.rs:44-46). */
    function GetLabel(index: nat): (l: string)
      reads this
      requires index < |flagTypes|
      ensures l == flagTypes[index] && l in flagTypes
    {
      flagTypes[index]
    }

    /** The flags attached to `ck`, empty when none (transition_flag_manager.rs:48-52). */
    function GetFlags(ck: TransitionCostKey): (flags: seq<nat>)
      reads this
      ensures ck !in mappings ==> flags == []
      ensures ck in mappings ==> flags == mappings[ck]
    {
      FlagsOf(mappings, ck)
    }
  }
}
