/** Identifiers of trie transitions and of per-translation transition costs
    (plover_hatchery_lib_rs/src/trie/transition.rs). */
module Transition {
  import opened Wrappers

  /** A transition is identified by its source node, its key id (`None` for an
      epsilon edge) and its position in the source node's destination list for that key. */
  datatype TransitionKey = TransitionKey(src: nat, keyId: Option<nat>, index: nat)

  /** A transition taken on behalf of one translation: the key of the cost table. */
  datatype TransitionCostKey = TransitionCostKey(transition: TransitionKey, translationId: nat)

  /** The cost to record for a transition and the translation it is recorded for.
      Costs are integers in this model (the source uses 64-bit floats). */
  datatype TransitionCostInfo = TransitionCostInfo(cost: int, translationId: nat)
}
