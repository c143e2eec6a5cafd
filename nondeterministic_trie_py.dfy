/** The Python nondeterministic trie (plover_hatchery/lib/trie/NondeterministicTrie.py).
    It keeps the same transition lists, translations, costs and used-node sets as the
    Rust trie, plus its own key interning table and a list of veto handlers consulted
    during traversal.  Its build operations take keys rather than key ids, interning
    each key as it goes; `link` does not mark the destination as used, and an empty key
    chain passed to `link_chain` is an IndexError.  The functions below state each
    operation on values; the class at the end is proved to follow them. */
module NondeterministicTriePy {
  import opened Wrappers
  import opened Transition
  import opened TrieSpec
  import opened TrieLookup
  import opened KeyIds
  import Rs = NondeterministicTrieRs

  /** A source node of a join and the cost of the transitions leaving it
      (NondeterministicTrie.py:30-34). */
  datatype NodeSrc = NodeSrc(node: nat, cost: int)

  /** Copies of the sources with `change` added to each cost
      (NondeterministicTrie.py:36-39). */
  function IncrementSrcCosts(srcs: seq<NodeSrc>, change: int): (r: seq<NodeSrc>)
    ensures |r| == |srcs|
    ensures forall i :: 0 <= i < |r| ==> r[i].node == srcs[i].node && r[i].cost == srcs[i].cost + change
  {
    seq(|srcs|, i requires 0 <= i < |srcs| => srcs[i].(cost := srcs[i].cost + change))
  }

  /** Cost increments compose by addition, and 0 changes nothing. */
  lemma IncrementSrcCostsCompose(srcs: seq<NodeSrc>, a: int, b: int)
    ensures IncrementSrcCosts(IncrementSrcCosts(srcs, a), b) == IncrementSrcCosts(srcs, a + b)
    ensures IncrementSrcCosts(srcs, 0) == srcs
  {
  }

  /** The trie fields together with the key interning table. */
  datatype KeyedState<K> = KeyedState(trie: TrieState, table: KeyTable<K>)

  ghost predicate KeyedOk<K>(ps: KeyedState<K>) {
    TrieSpec.Valid(ps.trie) && Interned(ps.table)
  }

  /** A fresh trie: the root alone, no keys. */
  function KeyedEmpty<K>(): (ps: KeyedState<K>)
    ensures KeyedOk(ps) && |ps.trie.transitions| == 1 && |ps.table.keys| == 0
  {
    KeyedState(TrieSpec.Empty(), EmptyTable())
  }

  /** Intern `key`, then follow its id as the Rust trie does: reuse the first
      destination the translation has not used, or append a node
      (NondeterministicTrie.py:63-96). */
  function KeyedFollow<K(==)>(ps: KeyedState<K>, src: nat, key: Option<K>, info: TransitionCostInfo): (r: (KeyedState<K>, TriePath))
    requires KeyedOk(ps) && src < |ps.trie.transitions|
    ensures KeyedOk(r.0) && |ps.trie.transitions| <= |r.0.trie.transitions| && r.1.dst < |r.0.trie.transitions|
  {
    var k := Intern(ps.table, key);
    var f := Follow(ps.trie, src, k.1, info);
    (KeyedState(f.0, k.0), f.1)
  }

  /** Follow a chain of keys; the last transition gets the caller's cost, the earlier
      ones cost 0 (NondeterministicTrie.py:99-118). */
  function KeyedFollowChain<K(==)>(ps: KeyedState<K>, src: nat, keys: seq<Option<K>>, info: TransitionCostInfo): (r: (KeyedState<K>, TriePath))
    requires KeyedOk(ps) && src < |ps.trie.transitions|
    ensures KeyedOk(r.0) && |ps.trie.transitions| <= |r.0.trie.transitions| && r.1.dst < |r.0.trie.transitions|
    decreases |keys|
  {
    if |keys| == 0 then (ps, TriePath(src, []))
    else
      var first := if |keys| == 1 then info else TransitionCostInfo(0, info.translationId);
      var r1 := KeyedFollow(ps, src, keys[0], first);
      var r2 := KeyedFollowChain(r1.0, r1.1.dst, keys[1..], info);
      (r2.0, TriePath(r2.1.dst, r1.1.transitions + r2.1.transitions))
  }

  /** Interning key by key while following is the same as interning the whole chain
      first and then following the ids: same trie, same table, same path. */
  lemma {:induction false} KeyedFollowChainById<K>(ps: KeyedState<K>, src: nat, keys: seq<Option<K>>, info: TransitionCostInfo)
    requires KeyedOk(ps) && src < |ps.trie.transitions|
    ensures var ids := InternAll(ps.table, keys);
            var f := FollowChain(ps.trie, src, ids.1, info);
            KeyedFollowChain(ps, src, keys, info) == (KeyedState(f.0, ids.0), f.1)
    decreases |keys|
  {
    if |keys| > 0 {
      var first := if |keys| == 1 then info else TransitionCostInfo(0, info.translationId);
      var k := Intern(ps.table, keys[0]);
      var r1 := KeyedFollow(ps, src, keys[0], first);
      KeyedFollowChainById(r1.0, r1.1.dst, keys[1..], info);
      var ids := InternAll(ps.table, keys);
      assert ids.1[0] == k.1 && ids.1[1..] == InternAll(k.0, keys[1..]).1;
    }
  }

  /** The path of a followed chain has one transition per key, each labelled with that
      key's id in the final table, and walks from `src` to its end; all but the last
      transition cost 0 for the translation; the trie only grows, stored costs only
      drop, and no key changes its id. */
  lemma KeyedFollowChainProps<K>(ps: KeyedState<K>, src: nat, keys: seq<Option<K>>, info: TransitionCostInfo)
    requires KeyedOk(ps) && src < |ps.trie.transitions|
    ensures var r := KeyedFollowChain(ps, src, keys, info);
      Extends(ps.trie.transitions, r.0.trie.transitions) && Keeps(ps.table, r.0.table)
      && r.0.trie.nodeTranslations == ps.trie.nodeTranslations && CostsMonotone(ps.trie.costs, r.0.trie.costs)
      && |r.1.transitions| == |keys|
      && (forall i :: 0 <= i < |keys| ==> IdOf(r.0.table, keys[i], r.1.transitions[i].keyId))
      && Walk(r.0.trie.transitions, src, r.1.transitions) == Some(r.1.dst)
      && ChainCostsAtMost(r.0.trie.costs, r.1.transitions, info.translationId, info.cost)
      && (|keys| == 0 ==> r.0 == ps && r.1.dst == src)
  {
    var ids := InternAll(ps.table, keys);
    KeyedFollowChainById(ps, src, keys, info);
    FollowChainProps(ps.trie, src, ids.1, info);
    InternAllProps(ps.table, keys);
  }

  /** Link without touching the used-node sets: the Rust link with the used sets put
      back (NondeterministicTrie.py:264-287). */
  function KeyedLink<K(==)>(ps: KeyedState<K>, src: nat, dst: nat, key: Option<K>, info: TransitionCostInfo): (r: (KeyedState<K>, TransitionKey))
    requires KeyedOk(ps) && src < |ps.trie.transitions| && dst < |ps.trie.transitions|
    ensures KeyedOk(r.0) && |r.0.trie.transitions| == |ps.trie.transitions|
  {
    var k := Intern(ps.table, key);
    var l := Link(ps.trie, src, dst, k.1, info);
    (KeyedState(l.0.(used := ps.trie.used), k.0), l.1)
  }

  /** What one link does: the transition from `src` under the key's id leads to `dst`,
      an existing one reused (the trie unchanged) and otherwise one appended at the end
      of the list; the cost is recorded there; the used-node sets stay as they were. */
  lemma KeyedLinkProps<K>(ps: KeyedState<K>, src: nat, dst: nat, key: Option<K>, info: TransitionCostInfo)
    requires KeyedOk(ps) && src < |ps.trie.transitions| && dst < |ps.trie.transitions|
    ensures var r := KeyedLink(ps, src, dst, key, info);
      var id := Intern(ps.table, key).1;
      Extends(ps.trie.transitions, r.0.trie.transitions) && Keeps(ps.table, r.0.table)
      && r.0.trie.nodeTranslations == ps.trie.nodeTranslations && r.0.trie.used == ps.trie.used
      && IdOf(r.0.table, key, r.1.keyId) && r.1.src == src
      && HasTransition(r.0.trie.transitions, r.1) && Dst(r.0.trie.transitions, r.1) == dst
      && r.0.trie.costs == RecordCost(ps.trie.costs, TransitionCostKey(r.1, info.translationId), info.cost)
      && (dst in Targets(ps.trie.transitions, src, id) ==> r.0.trie.transitions == ps.trie.transitions)
      && (dst !in Targets(ps.trie.transitions, src, id) ==>
            r.1.index == |Targets(ps.trie.transitions, src, id)|
            && Targets(r.0.trie.transitions, src, id) == Targets(ps.trie.transitions, src, id) + [dst])
  {
  }

  /** Linking twice is linking once. */
  lemma KeyedLinkIdempotent<K>(ps: KeyedState<K>, src: nat, dst: nat, key: Option<K>, info: TransitionCostInfo)
    requires KeyedOk(ps) && src < |ps.trie.transitions| && dst < |ps.trie.transitions|
    ensures var r1 := KeyedLink(ps, src, dst, key, info);
            KeyedLink(r1.0, src, dst, key, info) == r1
  {
    var k := Intern(ps.table, key);
    var r1 := KeyedLink(ps, src, dst, key, info);
    var l1 := Link(ps.trie, src, dst, k.1, info);
    var l2 := Link(r1.0.trie, src, dst, k.1, info);
    InternIdempotent(ps.table, key);
    assert dst in Targets(r1.0.trie.transitions, src, k.1);
    SameTargetSameIndex(l2.0, l1.1, l2.1);
    RecordCostIdempotent(r1.0.trie.costs, TransitionCostKey(l1.1, info.translationId), info.cost);
  }

  /** Follow all keys but the last, then link the last one to `dst`; with no keys the
      last key does not exist and the call fails, changing nothing
      (NondeterministicTrie.py:290-299). */
  function KeyedLinkChain<K(==)>(ps: KeyedState<K>, src: nat, dst: nat, keys: seq<Option<K>>, info: TransitionCostInfo): (r: (KeyedState<K>, Result<seq<TransitionKey>>))
    requires KeyedOk(ps) && src < |ps.trie.transitions| && dst < |ps.trie.transitions|
    ensures KeyedOk(r.0) && |ps.trie.transitions| <= |r.0.trie.transitions|
  {
    if |keys| == 0 then (ps, Err("IndexError: tuple index out of range"))
    else
      var r1 := KeyedFollowChain(ps, src, keys[..|keys| - 1], TransitionCostInfo(0, info.translationId));
      var r2 := KeyedLink(r1.0, r1.1.dst, dst, keys[|keys| - 1], info);
      (r2.0, Ok(r1.1.transitions + [r2.1]))
  }

  /** The key id each transition of `ts` carries. */
  function KeyIdsOf(ts: seq<TransitionKey>): (r: seq<Option<nat>>)
    ensures |r| == |ts| && forall i :: 0 <= i < |ts| ==> r[i] == ts[i].keyId
  {
    seq(|ts|, i requires 0 <= i < |ts| => ts[i].keyId)
  }

  /** A linked chain fails exactly when it has no keys, and then changes nothing;
      otherwise it has one transition per key, labelled with that key's id, walking from
      `src` to `dst`, with cost 0 on all but the last transition. */
  lemma KeyedLinkChainProps<K>(ps: KeyedState<K>, src: nat, dst: nat, keys: seq<Option<K>>, info: TransitionCostInfo)
    requires KeyedOk(ps) && src < |ps.trie.transitions| && dst < |ps.trie.transitions|
    ensures var r := KeyedLinkChain(ps, src, dst, keys, info);
      (r.1.Err? <==> |keys| == 0) && (|keys| == 0 ==> r.0 == ps)
      && Extends(ps.trie.transitions, r.0.trie.transitions) && Keeps(ps.table, r.0.table)
      && r.0.trie.nodeTranslations == ps.trie.nodeTranslations && CostsMonotone(ps.trie.costs, r.0.trie.costs)
      && (r.1.Ok? ==>
            |r.1.value| == |keys|
            && (forall i :: 0 <= i < |keys| ==> IdOf(r.0.table, keys[i], r.1.value[i].keyId))
            && Walk(r.0.trie.transitions, src, r.1.value) == Some(dst)
            && ChainCostsAtMost(r.0.trie.costs, r.1.value, info.translationId, info.cost))
  {
    if |keys| > 0 {
      var n := |keys|;
      var zero := TransitionCostInfo(0, info.translationId);
      var r1 := KeyedFollowChain(ps, src, keys[..n - 1], zero);
      KeyedFollowChainProps(ps, src, keys[..n - 1], zero);
      var r2 := KeyedLink(r1.0, r1.1.dst, dst, keys[n - 1], info);
      KeyedLinkProps(r1.0, r1.1.dst, dst, keys[n - 1], info);
      KeyedLinkChainStep(ps, src, dst, keys, info, r1, r2);
    }
  }

  /** The facts that combine the followed prefix of a chain with its final link. */
  lemma KeyedLinkChainStep<K>(ps: KeyedState<K>, src: nat, dst: nat, keys: seq<Option<K>>, info: TransitionCostInfo,
                              r1: (KeyedState<K>, TriePath), r2: (KeyedState<K>, TransitionKey))
    requires KeyedOk(ps) && src < |ps.trie.transitions| && |keys| > 0
    requires KeyedOk(r1.0) && Extends(ps.trie.transitions, r1.0.trie.transitions) && Keeps(ps.table, r1.0.table)
    requires CostsMonotone(ps.trie.costs, r1.0.trie.costs)
    requires |r1.1.transitions| == |keys| - 1
    requires forall i :: 0 <= i < |keys| - 1 ==> IdOf(r1.0.table, keys[..|keys| - 1][i], r1.1.transitions[i].keyId)
    requires Walk(r1.0.trie.transitions, src, r1.1.transitions) == Some(r1.1.dst)
    requires ChainCostsAtMost(r1.0.trie.costs, r1.1.transitions, info.translationId, 0)
    requires Extends(r1.0.trie.transitions, r2.0.trie.transitions) && Keeps(r1.0.table, r2.0.table)
    requires IdOf(r2.0.table, keys[|keys| - 1], r2.1.keyId) && r2.1.src == r1.1.dst
    requires HasTransition(r2.0.trie.transitions, r2.1) && Dst(r2.0.trie.transitions, r2.1) == dst
    requires r2.0.trie.costs == RecordCost(r1.0.trie.costs, TransitionCostKey(r2.1, info.translationId), info.cost)
    ensures Extends(ps.trie.transitions, r2.0.trie.transitions) && Keeps(ps.table, r2.0.table)
    ensures CostsMonotone(ps.trie.costs, r2.0.trie.costs)
    ensures var ts := r1.1.transitions + [r2.1];
            (forall i :: 0 <= i < |keys| ==> IdOf(r2.0.table, keys[i], ts[i].keyId))
            && Walk(r2.0.trie.transitions, src, ts) == Some(dst)
            && ChainCostsAtMost(r2.0.trie.costs, ts, info.translationId, info.cost)
  {
    var n := |keys|;
    var ts := r1.1.transitions + [r2.1];
    var ids := KeyIdsOf(ts);
    forall i | 0 <= i < n - 1
      ensures r1.1.transitions[i].keyId == ids[..n - 1][i]
    {
      assert ts[i] == r1.1.transitions[i];
    }
    LinkChainStep(ps.trie, src, dst, ids, info, (r1.0.trie, r1.1), (r2.0.trie, r2.1));
    KeepsTrans(ps.table, r1.0.table, r2.0.table);
    forall i | 0 <= i < n
      ensures IdOf(r2.0.table, keys[i], ts[i].keyId)
    {
      if i < n - 1 {
        assert ts[i] == r1.1.transitions[i] && keys[i] == keys[..n - 1][i];
        IdOfKeeps(r1.0.table, r2.0.table, keys[i], ts[i].keyId);
      }
    }
  }

  lemma KeepsTrans<K>(t1: KeyTable<K>, t2: KeyTable<K>, t3: KeyTable<K>)
    requires Keeps(t1, t2) && Keeps(t2, t3)
    ensures Keeps(t1, t3)
  {
  }

  lemma IdOfKeeps<K>(t1: KeyTable<K>, t2: KeyTable<K>, key: Option<K>, id: Option<nat>)
    requires IdOf(t1, key, id) && Keeps(t1, t2)
    ensures IdOf(t2, key, id)
  {
  }

  /** The sequences of `r` with `front` put before them; an error stays an error. */
  function Prepend<T>(front: seq<T>, r: Result<seq<T>>): (p: Result<seq<T>>)
    ensures p.Err? <==> r.Err?
    ensures r.Ok? ==> p.value == front + r.value
  {
    match r
    case Ok(v) => Ok(front + v)
    case Err(e) => Err(e)
  }

  lemma PrependNothing<T>(r: Result<seq<T>>)
    ensures Prepend([], r) == r
  {
    if r.Ok? {
      assert [] + r.value == r.value;
    }
  }

  lemma PrependPrepend<T>(a: seq<T>, b: seq<T>, r: Result<seq<T>>)
    ensures Prepend(a, Prepend(b, r)) == Prepend(a + b, r)
  {
    if r.Ok? {
      AppendAssoc(a, b, r.value);
    }
  }

  /** Link every (source, key chain) pair to `dst` in order, one transition sequence
      per pair; the first failing chain ends the loop, keeping what was built before it
      (the loops of NondeterministicTrie.py:151-153 and 186-188). */
  function KeyedLinkAll<K(==)>(ps: KeyedState<K>, pairs: seq<(NodeSrc, seq<Option<K>>)>, dst: nat, tid: nat): (r: (KeyedState<K>, Result<seq<seq<TransitionKey>>>))
    requires KeyedOk(ps) && dst < |ps.trie.transitions|
    requires forall k :: 0 <= k < |pairs| ==> pairs[k].0.node < |ps.trie.transitions|
    ensures KeyedOk(r.0) && |ps.trie.transitions| <= |r.0.trie.transitions|
    decreases |pairs|
  {
    if |pairs| == 0 then (ps, Ok([]))
    else
      var r1 := KeyedLinkChain(ps, pairs[0].0.node, dst, pairs[0].1, TransitionCostInfo(pairs[0].0.cost, tid));
      match r1.1
      case Err(e) => (r1.0, Err(e))
      case Ok(ts) =>
        var r2 := KeyedLinkAll(r1.0, pairs[1..], dst, tid);
        (r2.0, Prepend([ts], r2.1))
  }

  /** One transition sequence per pair, as long as the pair's key chain and walking from
      the pair's source node to `dst`. */
  predicate AllReach<K>(t: seq<Edges>, pairs: seq<(NodeSrc, seq<Option<K>>)>, seqs: seq<seq<TransitionKey>>, dst: nat) {
    |seqs| == |pairs|
    && forall k :: 0 <= k < |pairs| ==> |seqs[k]| == |pairs[k].1| && Walk(t, pairs[k].0.node, seqs[k]) == Some(dst)
  }

  /** Some pair from position `from` on has an empty key chain. */
  predicate SomeEmptyChain<K>(pairs: seq<(NodeSrc, seq<Option<K>>)>, from: nat) {
    exists k :: from <= k < |pairs| && |pairs[k].1| == 0
  }

  /** Linking all pairs fails exactly when some pair has no keys; when it succeeds every
      pair's sequence walks from its source to `dst`.  Either way the trie only grew,
      costs only dropped and no key changed its id. */
  lemma {:induction false} KeyedLinkAllProps<K>(ps: KeyedState<K>, pairs: seq<(NodeSrc, seq<Option<K>>)>, dst: nat, tid: nat)
    requires KeyedOk(ps) && dst < |ps.trie.transitions|
    requires forall k :: 0 <= k < |pairs| ==> pairs[k].0.node < |ps.trie.transitions|
    ensures var r := KeyedLinkAll(ps, pairs, dst, tid);
      (r.1.Err? <==> SomeEmptyChain(pairs, 0))
      && Extends(ps.trie.transitions, r.0.trie.transitions) && Keeps(ps.table, r.0.table)
      && r.0.trie.nodeTranslations == ps.trie.nodeTranslations && CostsMonotone(ps.trie.costs, r.0.trie.costs)
      && (r.1.Ok? ==> AllReach(r.0.trie.transitions, pairs, r.1.value, dst))
    decreases |pairs|
  {
    if |pairs| > 0 {
      var info := TransitionCostInfo(pairs[0].0.cost, tid);
      var r1 := KeyedLinkChain(ps, pairs[0].0.node, dst, pairs[0].1, info);
      if r1.1.Ok? {
        assert |pairs[0].1| > 0 && Extends(ps.trie.transitions, r1.0.trie.transitions) && Keeps(ps.table, r1.0.table)
          && r1.0.trie.nodeTranslations == ps.trie.nodeTranslations && CostsMonotone(ps.trie.costs, r1.0.trie.costs)
          && |r1.1.value| == |pairs[0].1| && Walk(r1.0.trie.transitions, pairs[0].0.node, r1.1.value) == Some(dst) by {
          KeyedLinkChainProps(ps, pairs[0].0.node, dst, pairs[0].1, info);
        }
        var rest := pairs[1..];
        forall k | 0 <= k < |rest|
          ensures rest[k].0.node < |r1.0.trie.transitions|
        {
          assert rest[k] == pairs[k + 1];
        }
        var r2 := KeyedLinkAll(r1.0, rest, dst, tid);
        assert (r2.1.Err? <==> SomeEmptyChain(rest, 0))
          && Extends(r1.0.trie.transitions, r2.0.trie.transitions) && Keeps(r1.0.table, r2.0.table)
          && r2.0.trie.nodeTranslations == r1.0.trie.nodeTranslations && CostsMonotone(r1.0.trie.costs, r2.0.trie.costs)
          && (r2.1.Ok? ==> AllReach(r2.0.trie.transitions, rest, r2.1.value, dst)) by {
          KeyedLinkAllProps(r1.0, rest, dst, tid);
        }
        KeyedLinkAllOk(ps, pairs, dst, tid, r1, r2);
      } else {
        KeyedLinkAllErr(ps, pairs, dst, tid);
      }
    }
  }

  /** Linking all pairs stops at a first pair without keys. */
  lemma KeyedLinkAllErr<K>(ps: KeyedState<K>, pairs: seq<(NodeSrc, seq<Option<K>>)>, dst: nat, tid: nat)
    requires KeyedOk(ps) && dst < |ps.trie.transitions| && |pairs| > 0
    requires forall k :: 0 <= k < |pairs| ==> pairs[k].0.node < |ps.trie.transitions|
    requires KeyedLinkChain(ps, pairs[0].0.node, dst, pairs[0].1, TransitionCostInfo(pairs[0].0.cost, tid)).1.Err?
    ensures var r := KeyedLinkAll(ps, pairs, dst, tid);
      r.1.Err? && SomeEmptyChain(pairs, 0)
      && Extends(ps.trie.transitions, r.0.trie.transitions) && Keeps(ps.table, r.0.table)
      && r.0.trie.nodeTranslations == ps.trie.nodeTranslations && CostsMonotone(ps.trie.costs, r.0.trie.costs)
  {
    var info := TransitionCostInfo(pairs[0].0.cost, tid);
    var r1 := KeyedLinkChain(ps, pairs[0].0.node, dst, pairs[0].1, info);
    KeyedLinkChainProps(ps, pairs[0].0.node, dst, pairs[0].1, info);
    assert KeyedLinkAll(ps, pairs, dst, tid) == (r1.0, Err(r1.1.msg));
    assert |pairs[0].1| == 0;
  }

  /** Linking all pairs after the first pair's chain linked: the facts about the rest
      carry over to all of them. */
  lemma KeyedLinkAllOk<K>(ps: KeyedState<K>, pairs: seq<(NodeSrc, seq<Option<K>>)>, dst: nat, tid: nat,
                          r1: (KeyedState<K>, Result<seq<TransitionKey>>), r2: (KeyedState<K>, Result<seq<seq<TransitionKey>>>))
    requires KeyedOk(ps) && dst < |ps.trie.transitions| && |pairs| > 0
    requires forall k :: 0 <= k < |pairs| ==> pairs[k].0.node < |ps.trie.transitions|
    requires r1 == KeyedLinkChain(ps, pairs[0].0.node, dst, pairs[0].1, TransitionCostInfo(pairs[0].0.cost, tid))
    requires r1.1.Ok? && |pairs[0].1| > 0
    requires Extends(ps.trie.transitions, r1.0.trie.transitions) && Keeps(ps.table, r1.0.table)
    requires r1.0.trie.nodeTranslations == ps.trie.nodeTranslations && CostsMonotone(ps.trie.costs, r1.0.trie.costs)
    requires |r1.1.value| == |pairs[0].1| && Walk(r1.0.trie.transitions, pairs[0].0.node, r1.1.value) == Some(dst)
    requires forall k :: 0 <= k < |pairs[1..]| ==> pairs[1..][k].0.node < |r1.0.trie.transitions|
    requires r2 == KeyedLinkAll(r1.0, pairs[1..], dst, tid)
    requires (r2.1.Err? <==> SomeEmptyChain(pairs[1..], 0))
      && Extends(r1.0.trie.transitions, r2.0.trie.transitions) && Keeps(r1.0.table, r2.0.table)
      && r2.0.trie.nodeTranslations == r1.0.trie.nodeTranslations && CostsMonotone(r1.0.trie.costs, r2.0.trie.costs)
      && (r2.1.Ok? ==> AllReach(r2.0.trie.transitions, pairs[1..], r2.1.value, dst))
    ensures var r := KeyedLinkAll(ps, pairs, dst, tid);
      (r.1.Err? <==> SomeEmptyChain(pairs, 0))
      && Extends(ps.trie.transitions, r.0.trie.transitions) && Keeps(ps.table, r.0.table)
      && r.0.trie.nodeTranslations == ps.trie.nodeTranslations && CostsMonotone(ps.trie.costs, r.0.trie.costs)
      && (r.1.Ok? ==> AllReach(r.0.trie.transitions, pairs, r.1.value, dst))
  {
    assert KeyedLinkAll(ps, pairs, dst, tid) == (r2.0, Prepend([r1.1.value], r2.1));
    KeyedLinkAllStep(ps, pairs, dst, r1.0, r1.1.value, r2);
  }

  /** The facts that combine the first linked chain with the rest. */
  lemma KeyedLinkAllStep<K>(ps: KeyedState<K>, pairs: seq<(NodeSrc, seq<Option<K>>)>, dst: nat,
                            s1: KeyedState<K>, ts: seq<TransitionKey>, r2: (KeyedState<K>, Result<seq<seq<TransitionKey>>>))
    requires |pairs| > 0 && |pairs[0].1| > 0
    requires Extends(ps.trie.transitions, s1.trie.transitions) && Keeps(ps.table, s1.table)
    requires CostsMonotone(ps.trie.costs, s1.trie.costs)
    requires |ts| == |pairs[0].1| && Walk(s1.trie.transitions, pairs[0].0.node, ts) == Some(dst)
    requires r2.1.Err? <==> SomeEmptyChain(pairs[1..], 0)
    requires Extends(s1.trie.transitions, r2.0.trie.transitions) && Keeps(s1.table, r2.0.table)
    requires CostsMonotone(s1.trie.costs, r2.0.trie.costs)
    requires r2.1.Ok? ==> AllReach(r2.0.trie.transitions, pairs[1..], r2.1.value, dst)
    ensures Prepend([ts], r2.1).Err? <==> SomeEmptyChain(pairs, 0)
    ensures Extends(ps.trie.transitions, r2.0.trie.transitions) && Keeps(ps.table, r2.0.table)
    ensures CostsMonotone(ps.trie.costs, r2.0.trie.costs)
    ensures r2.1.Ok? ==> AllReach(r2.0.trie.transitions, pairs, Prepend([ts], r2.1).value, dst)
  {
    ExtendsTransitive(ps.trie.transitions, s1.trie.transitions, r2.0.trie.transitions);
    WalkExtends(s1.trie.transitions, r2.0.trie.transitions, pairs[0].0.node, ts);
    SomeEmptyChainShift(pairs);
    if r2.1.Ok? {
      AllReachCons(r2.0.trie.transitions, pairs, ts, r2.1.value, dst);
    }
  }

  /** An empty chain after the first pair is an empty chain in the tail. */
  lemma SomeEmptyChainShift<K>(pairs: seq<(NodeSrc, seq<Option<K>>)>)
    requires |pairs| > 0
    ensures SomeEmptyChain(pairs[1..], 0) <==> SomeEmptyChain(pairs, 1)
    ensures SomeEmptyChain(pairs, 0) <==> |pairs[0].1| == 0 || SomeEmptyChain(pairs, 1)
  {
    if SomeEmptyChain(pairs, 1) {
      var k :| 1 <= k < |pairs| && |pairs[k].1| == 0;
      assert pairs[1..][k - 1] == pairs[k];
    }
    if SomeEmptyChain(pairs[1..], 0) {
      var k :| 0 <= k < |pairs[1..]| && |pairs[1..][k].1| == 0;
      assert pairs[1..][k] == pairs[k + 1];
    }
  }

  /** The sequence of the first pair in front of those of the rest. */
  lemma AllReachCons<K>(t: seq<Edges>, pairs: seq<(NodeSrc, seq<Option<K>>)>, ts: seq<TransitionKey>,
                        rest: seq<seq<TransitionKey>>, dst: nat)
    requires |pairs| > 0 && |ts| == |pairs[0].1| && Walk(t, pairs[0].0.node, ts) == Some(dst)
    requires AllReach(t, pairs[1..], rest, dst)
    ensures AllReach(t, pairs, [ts] + rest, dst)
  {
    var seqs := [ts] + rest;
    forall k | 0 < k < |pairs|
      ensures |seqs[k]| == |pairs[k].1| && Walk(t, pairs[k].0.node, seqs[k]) == Some(dst)
    {
      assert seqs[k] == rest[k - 1] && pairs[k] == pairs[1..][k - 1];
    }
  }

  /** Join the sources through every key chain to one new common destination: the
      node the first (source, chain) pair leads to when followed, with every other pair
      linked to it; no pairs, no destination (NondeterministicTrie.py:130-155). */
  function KeyedJoinChain<K(==)>(ps: KeyedState<K>, srcs: seq<NodeSrc>, chains: seq<seq<Option<K>>>, tid: nat): (r: (KeyedState<K>, Result<JoinedTriePaths>))
    requires KeyedOk(ps)
    requires forall i :: 0 <= i < |srcs| ==> srcs[i].node < |ps.trie.transitions|
    ensures KeyedOk(r.0) && |ps.trie.transitions| <= |r.0.trie.transitions|
  {
    var pairs := Pairs(srcs, chains);
    if |pairs| == 0 then (ps, Ok(JoinedTriePaths(None, [])))
    else
      SourcesInRange(ps.trie, srcs, chains);
      var first := KeyedFollowChain(ps, pairs[0].0.node, pairs[0].1, TransitionCostInfo(pairs[0].0.cost, tid));
      TailInRange(pairs, |first.0.trie.transitions|);
      var rest := KeyedLinkAll(first.0, pairs[1..], first.1.dst, tid);
      match Prepend([first.1.transitions], rest.1)
      case Ok(seqs) => (rest.0, Ok(JoinedTriePaths(Some(first.1.dst), seqs)))
      case Err(e) => (rest.0, Err(e))
  }

  /** The pairs after the first stay in range. */
  lemma TailInRange<C>(pairs: seq<(NodeSrc, C)>, n: nat)
    requires |pairs| > 0 && forall k :: 0 <= k < |pairs| ==> pairs[k].0.node < n
    ensures forall k :: 0 <= k < |pairs[1..]| ==> pairs[1..][k].0.node < n
  {
    forall k | 0 <= k < |pairs[1..]|
      ensures pairs[1..][k].0.node < n
    {
      assert pairs[1..][k] == pairs[k + 1];
    }
  }

  lemma SourcesInRange<C>(s: TrieState, srcs: seq<NodeSrc>, chains: seq<C>)
    requires forall i :: 0 <= i < |srcs| ==> srcs[i].node < |s.transitions|
    ensures forall k :: 0 <= k < |Pairs(srcs, chains)| ==> Pairs(srcs, chains)[k].0.node < |s.transitions|
  {
    var pairs := Pairs(srcs, chains);
    forall k | 0 <= k < |pairs| ensures pairs[k].0.node < |s.transitions| {
      assert pairs[k].0 in srcs;
      var i :| 0 <= i < |srcs| && srcs[i] == pairs[k].0;
    }
  }

  /** Join sources to `dst` when it is given, otherwise to a new common destination
      as `KeyedJoinChain` does (NondeterministicTrie.py:168-190). */
  function KeyedLinkJoinChain<K(==)>(ps: KeyedState<K>, srcs: seq<NodeSrc>, dst: Option<nat>, chains: seq<seq<Option<K>>>, tid: nat): (r: (KeyedState<K>, Result<JoinedTriePaths>))
    requires KeyedOk(ps)
    requires forall i :: 0 <= i < |srcs| ==> srcs[i].node < |ps.trie.transitions|
    requires dst.Some? ==> dst.value < |ps.trie.transitions|
    ensures KeyedOk(r.0) && |ps.trie.transitions| <= |r.0.trie.transitions|
  {
    if dst.None? then KeyedJoinChain(ps, srcs, chains, tid)
    else
      SourcesInRange(ps.trie, srcs, chains);
      var r1 := KeyedLinkAll(ps, Pairs(srcs, chains), dst.value, tid);
      match r1.1
      case Ok(seqs) => (r1.0, Ok(JoinedTriePaths(dst, seqs)))
      case Err(e) => (r1.0, Err(e))
  }

  /** A join fails exactly when a pair after the first has no keys (the first pair is
      followed, and following no keys stays at its source).  When it succeeds with a
      destination, every pair's sequence walks from its source to that destination;
      with no pairs, nothing changes and there is no destination. */
  lemma KeyedJoinChainProps<K>(ps: KeyedState<K>, srcs: seq<NodeSrc>, chains: seq<seq<Option<K>>>, tid: nat)
    requires KeyedOk(ps)
    requires forall i :: 0 <= i < |srcs| ==> srcs[i].node < |ps.trie.transitions|
    ensures var r := KeyedJoinChain(ps, srcs, chains, tid);
      var pairs := Pairs(srcs, chains);
      (r.1.Err? <==> SomeEmptyChain(pairs, 1))
      && Extends(ps.trie.transitions, r.0.trie.transitions) && Keeps(ps.table, r.0.table)
      && r.0.trie.nodeTranslations == ps.trie.nodeTranslations && CostsMonotone(ps.trie.costs, r.0.trie.costs)
      && (|srcs| == 0 || |chains| == 0 ==> r == (ps, Ok(JoinedTriePaths(None, []))))
      && (r.1.Ok? && |pairs| > 0 ==>
            r.1.value.dst.Some? && AllReach(r.0.trie.transitions, pairs, r.1.value.seqs, r.1.value.dst.value))
  {
    var pairs := Pairs(srcs, chains);
    if |pairs| > 0 {
      SourcesInRange(ps.trie, srcs, chains);
      var info := TransitionCostInfo(pairs[0].0.cost, tid);
      var first := KeyedFollowChain(ps, pairs[0].0.node, pairs[0].1, info);
      KeyedFollowChainProps(ps, pairs[0].0.node, pairs[0].1, info);
      var rest := pairs[1..];
      TailInRange(pairs, |first.0.trie.transitions|);
      KeyedLinkAllProps(first.0, rest, first.1.dst, tid);
      var r2 := KeyedLinkAll(first.0, rest, first.1.dst, tid);
      KeyedJoinStep(ps, pairs, first, r2);
      var r := KeyedJoinChain(ps, srcs, chains, tid);
      assert r.0 == r2.0;
      assert r.1.Err? <==> Prepend([first.1.transitions], r2.1).Err?;
      assert r.1.Ok? ==> r.1.value == JoinedTriePaths(Some(first.1.dst), Prepend([first.1.transitions], r2.1).value);
    } else {
      assert !SomeEmptyChain(pairs, 1);
    }
    if |srcs| == 0 || |chains| == 0 {
      assert |pairs| == 0;
    }
  }

  /** The facts that combine the followed first pair of a join with the linked rest. */
  lemma KeyedJoinStep<K>(ps: KeyedState<K>, pairs: seq<(NodeSrc, seq<Option<K>>)>,
                         first: (KeyedState<K>, TriePath), r2: (KeyedState<K>, Result<seq<seq<TransitionKey>>>))
    requires |pairs| > 0
    requires Extends(ps.trie.transitions, first.0.trie.transitions) && Keeps(ps.table, first.0.table)
    requires CostsMonotone(ps.trie.costs, first.0.trie.costs)
    requires |first.1.transitions| == |pairs[0].1|
    requires Walk(first.0.trie.transitions, pairs[0].0.node, first.1.transitions) == Some(first.1.dst)
    requires r2.1.Err? <==> SomeEmptyChain(pairs[1..], 0)
    requires Extends(first.0.trie.transitions, r2.0.trie.transitions) && Keeps(first.0.table, r2.0.table)
    requires CostsMonotone(first.0.trie.costs, r2.0.trie.costs)
    requires r2.1.Ok? ==> AllReach(r2.0.trie.transitions, pairs[1..], r2.1.value, first.1.dst)
    ensures Prepend([first.1.transitions], r2.1).Err? <==> SomeEmptyChain(pairs, 1)
    ensures Extends(ps.trie.transitions, r2.0.trie.transitions) && Keeps(ps.table, r2.0.table)
    ensures CostsMonotone(ps.trie.costs, r2.0.trie.costs)
    ensures r2.1.Ok? ==> AllReach(r2.0.trie.transitions, pairs, Prepend([first.1.transitions], r2.1).value, first.1.dst)
  {
    ExtendsTransitive(ps.trie.transitions, first.0.trie.transitions, r2.0.trie.transitions);
    WalkExtends(first.0.trie.transitions, r2.0.trie.transitions, pairs[0].0.node, first.1.transitions);
    SomeEmptyChainShift(pairs);
    if r2.1.Ok? {
      AllReachCons(r2.0.trie.transitions, pairs, first.1.transitions, r2.1.value, first.1.dst);
    }
  }

  /** Linking to a given destination fails exactly when some pair has no keys; when it
      succeeds the result names that destination, even with no pairs at all, and every
      pair's sequence walks from its source to it. */
  lemma KeyedLinkJoinChainProps<K>(ps: KeyedState<K>, srcs: seq<NodeSrc>, dst: nat, chains: seq<seq<Option<K>>>, tid: nat)
    requires KeyedOk(ps)
    requires forall i :: 0 <= i < |srcs| ==> srcs[i].node < |ps.trie.transitions|
    requires dst < |ps.trie.transitions|
    ensures var r := KeyedLinkJoinChain(ps, srcs, Some(dst), chains, tid);
      var pairs := Pairs(srcs, chains);
      (r.1.Err? <==> SomeEmptyChain(pairs, 0))
      && Extends(ps.trie.transitions, r.0.trie.transitions) && Keeps(ps.table, r.0.table)
      && r.0.trie.nodeTranslations == ps.trie.nodeTranslations && CostsMonotone(ps.trie.costs, r.0.trie.costs)
      && (r.1.Ok? ==> r.1.value.dst == Some(dst) && AllReach(r.0.trie.transitions, pairs, r.1.value.seqs, dst))
  {
    SourcesInRange(ps.trie, srcs, chains);
    KeyedLinkAllProps(ps, Pairs(srcs, chains), dst, tid);
  }

  /** Each key as a chain of its own (the generator of NondeterministicTrie.py:127
      and 165). */
  function KeySingletons<K>(keys: seq<K>): (r: seq<seq<Option<K>>>)
    ensures |r| == |keys| && forall i :: 0 <= i < |keys| ==> r[i] == [Some(keys[i])]
  {
    seq(|keys|, i requires 0 <= i < |keys| => [Some(keys[i])])
  }

  /** With one key per chain no chain is empty, so `join` and `link_join` never fail. */
  lemma SingletonJoinsSucceed<K>(ps: KeyedState<K>, srcs: seq<NodeSrc>, dst: Option<nat>, keys: seq<K>, tid: nat)
    requires KeyedOk(ps)
    requires forall i :: 0 <= i < |srcs| ==> srcs[i].node < |ps.trie.transitions|
    requires dst.Some? ==> dst.value < |ps.trie.transitions|
    ensures KeyedLinkJoinChain(ps, srcs, dst, KeySingletons(keys), tid).1.Ok?
  {
    var pairs := Pairs(srcs, KeySingletons(keys));
    assert !SomeEmptyChain(pairs, 0) by {
      forall k | 0 <= k < |pairs| ensures |pairs[k].1| > 0 {
        assert pairs[k].1 in KeySingletons(keys);
      }
    }
    if dst.None? {
      KeyedJoinChainProps(ps, srcs, KeySingletons(keys), tid);
    } else {
      KeyedLinkJoinChainProps(ps, srcs, dst.value, KeySingletons(keys), tid);
    }
  }

  /** Whether every registered handler lets `tk` be taken from `p`; with no handlers
      nothing is vetoed (NondeterministicTrie.py:193-194). */
  function AllowedByAll(handlers: seq<Veto>, p: TriePath, tk: TransitionKey): (r: bool)
    ensures r <==> forall i :: 0 <= i < |handlers| ==> handlers[i](p, tk)
    decreases |handlers|
  {
    if |handlers| == 0 then true
    else handlers[0](p, tk) && AllowedByAll(handlers[1..], p, tk)
  }

  /** The registered handlers as one veto. */
  function HandlerVeto(handlers: seq<Veto>): Veto {
    (p: TriePath, tk: TransitionKey) => AllowedByAll(handlers, p, tk)
  }

  /** Traverse `key` from every path; a key that was never interned labels no
      transition, so nothing is reached (NondeterministicTrie.py:201-226, with the
      epsilon closure of 244-261). */
  function KeyedTraverse<K(==)>(t: seq<Edges>, ids: map<K, nat>, allow: Veto, paths: seq<TriePath>, key: K): (r: seq<TriePath>)
    requires AllEdgesOk(t) && PathsInRange(t, paths)
    ensures PathsInRange(t, r)
  {
    if key !in ids then [] else Traverse(t, allow, paths, Some(ids[key]))
  }

  /** Traverse one key after another (NondeterministicTrie.py:229-241). */
  function KeyedTraverseChain<K(==)>(t: seq<Edges>, ids: map<K, nat>, allow: Veto, paths: seq<TriePath>, keys: seq<K>): (r: seq<TriePath>)
    requires AllEdgesOk(t) && PathsInRange(t, paths)
    ensures PathsInRange(t, r)
    decreases |keys|
  {
    if |keys| == 0 then paths
    else KeyedTraverseChain(t, ids, allow, KeyedTraverse(t, ids, allow, paths, keys[0]), keys[1..])
  }

  /** The ids of keys that are all interned. */
  function IdsOf<K(==)>(ids: map<K, nat>, keys: seq<K>): (r: seq<Option<nat>>)
    requires forall i :: 0 <= i < |keys| ==> keys[i] in ids
    ensures |r| == |keys| && forall i :: 0 <= i < |keys| ==> r[i] == Some(ids[keys[i]])
  {
    seq(|keys|, i requires 0 <= i < |keys| && keys[i] in ids => Some(ids[keys[i]]))
  }

  /** A chain traversal reaches nothing when one of its keys was never interned, and
      is otherwise the traversal of the keys' ids. */
  lemma {:induction false} KeyedTraverseChainById<K>(t: seq<Edges>, ids: map<K, nat>, allow: Veto, paths: seq<TriePath>, keys: seq<K>)
    requires AllEdgesOk(t) && PathsInRange(t, paths)
    ensures (exists i :: 0 <= i < |keys| && keys[i] !in ids) ==> KeyedTraverseChain(t, ids, allow, paths, keys) == []
    ensures (forall i :: 0 <= i < |keys| ==> keys[i] in ids) ==>
              KeyedTraverseChain(t, ids, allow, paths, keys) == TraverseChain(t, allow, paths, IdsOf(ids, keys))
    decreases |keys|
  {
    if |keys| > 0 {
      var mid := KeyedTraverse(t, ids, allow, paths, keys[0]);
      KeyedTraverseChainById(t, ids, allow, mid, keys[1..]);
      if keys[0] !in ids {
        KeyedTraverseChainFromNothing(t, ids, allow, keys[1..]);
      } else {
        if exists i :: 0 <= i < |keys| && keys[i] !in ids {
          var i :| 0 <= i < |keys| && keys[i] !in ids;
          assert keys[1..][i - 1] == keys[i];
        }
        if forall i :: 0 <= i < |keys| ==> keys[i] in ids {
          assert IdsOf(ids, keys)[1..] == IdsOf(ids, keys[1..]);
        }
      }
    }
  }

  lemma {:induction false} KeyedTraverseChainFromNothing<K>(t: seq<Edges>, ids: map<K, nat>, allow: Veto, keys: seq<K>)
    requires AllEdgesOk(t)
    ensures KeyedTraverseChain(t, ids, allow, [], keys) == []
    decreases |keys|
  {
    if |keys| > 0 {
      assert KeyedTraverse(t, ids, allow, [], keys[0]) == [];
      KeyedTraverseChainFromNothing(t, ids, allow, keys[1..]);
    }
  }

  /** How the source prints the epsilon key: the two UTF-8 bytes of the Greek letter
      epsilon, each read as a Latin-1 character, in parentheses
      (NondeterministicTrie.py:590-594). */
  const EPSILON_LABEL_AS_WRITTEN: string := "(\U{00CE}\U{00B5})"

  /** The two-byte UTF-8 encoding of a code point in [0x80, 0x800). */
  function Utf8TwoBytes(cp: nat): (b: seq<nat>)
    requires 0x80 <= cp < 0x800
    ensures |b| == 2 && 0xC0 <= b[0] < 0xE0 && 0x80 <= b[1] < 0xC0
    ensures (b[0] - 0xC0) * 64 + (b[1] - 0x80) == cp
  {
    [0xC0 + cp / 64, 0x80 + cp % 64]
  }

  /** The printed epsilon is not the one the key manager prints: it has four
      characters instead of three, and its middle two are the UTF-8 bytes of epsilon. */
  lemma EpsilonLabelMisencoded()
    ensures EPSILON_LABEL_AS_WRITTEN != EPSILON_LABEL
    ensures |EPSILON_LABEL_AS_WRITTEN| == 4 && |EPSILON_LABEL| == 3
    ensures var b := Utf8TwoBytes(EPSILON_LABEL[1] as nat);
            EPSILON_LABEL_AS_WRITTEN == [EPSILON_LABEL[0], b[0] as char, b[1] as char, EPSILON_LABEL[2]]
  {
    assert EPSILON_LABEL[1] as nat == 0x3B5;
    assert Utf8TwoBytes(0x3B5) == [0xCE, 0xB5];
  }

  /** The Python nondeterministic trie (NondeterministicTrie.py:41-594). */
  class NondeterministicTrie<K(==)> {
    /** For each node, its destination lists by key id. */
    var transitions: seq<Edges>
    /** The translation ids stored at each node. */
    var nodeTranslations: map<nat, seq<nat>>
    /** The id of each key seen so far. */
    var keys: map<K, nat>
    /** The cost of each (transition, translation) pair. */
    var transitionCosts: map<TransitionCostKey, int>
    /** The keys in id order. */
    var keysList: seq<K>
    /** The nodes each translation has passed through while it was added. */
    var usedNodesByTranslation: map<nat, set<nat>>
    /** The registered traversal handlers, in registration order. */
    var onTryTraverse: seq<Veto>

    /** The fields other than the handlers, as one value. */
    function State(): KeyedState<K>
      reads this
    {
      KeyedState(TrieState(transitions, nodeTranslations, transitionCosts, usedNodesByTranslation), KeyTable(keys, keysList))
    }

    ghost predicate Valid()
      reads this
    {
      KeyedOk(State())
    }

    /** The root alone, no keys, no handlers (NondeterministicTrie.py:47-60). */
    constructor ()
      ensures State() == KeyedEmpty() && onTryTraverse == [] && Valid()
    {
      transitions := [map[]];
      nodeTranslations := map[];
      keys := map[];
      transitionCosts := map[];
      keysList := [];
      usedNodesByTranslation := map[];
      onTryTraverse := [];
    }

    /** The id of `key`, the next free one for a new key (NondeterministicTrie.py:420-430). */
    method GetKeyIdElseCreate(key: Option<K>) returns (id: Option<nat>)
      requires Valid()
      modifies this
      ensures State().table == Intern(old(State()).table, key).0 && id == Intern(old(State()).table, key).1
      ensures State().trie == old(State()).trie && onTryTraverse == old(onTryTraverse)
      ensures Valid()
    {
      if key.None? {
        return None;
      }
      var k := key.value;
      if k in keys {
        return Some(keys[k]);
      }
      var newId := |keys|;
      keys := keys[k := newId];
      keysList := keysList + [k];
      id := Some(newId);
    }

    /** Append a node without edges (NondeterministicTrie.py:432-435). */
    method CreateNewNode() returns (id: nat)
      modifies this
      ensures id == |old(transitions)| && transitions == old(transitions) + [map[]]
      ensures nodeTranslations == old(nodeTranslations) && transitionCosts == old(transitionCosts)
      ensures usedNodesByTranslation == old(usedNodesByTranslation)
      ensures keys == old(keys) && keysList == old(keysList) && onTryTraverse == old(onTryTraverse)
    {
      id := |transitions|;
      transitions := transitions + [map[]];
    }

    /** Keep the smaller of the given and the stored cost, a missing cost counting as
        infinite; no cost information, no change (NondeterministicTrie.py:437-443). */
    method AssignTransitionCost(tk: TransitionKey, info: Option<TransitionCostInfo>)
      modifies this
      ensures info.None? ==> transitionCosts == old(transitionCosts)
      ensures info.Some? ==>
                transitionCosts == RecordCost(old(transitionCosts), TransitionCostKey(tk, info.value.translationId), info.value.cost)
      ensures transitions == old(transitions) && nodeTranslations == old(nodeTranslations)
      ensures usedNodesByTranslation == old(usedNodesByTranslation)
      ensures keys == old(keys) && keysList == old(keysList) && onTryTraverse == old(onTryTraverse)
    {
      if info.None? {
        return;
      }
      var ck := TransitionCostKey(tk, info.value.translationId);
      var cost := if ck in transitionCosts && transitionCosts[ck] < info.value.cost then transitionCosts[ck] else info.value.cost;
      transitionCosts := transitionCosts[ck := cost];
    }

    /** Whether a cost is stored for the transition and translation
        (NondeterministicTrie.py:445-450). */
    function TransitionHasCostForTranslation(src: nat, key: Option<nat>, index: nat, tid: nat): (r: bool)
      reads this
      ensures r <==> GetTransitionCost(TransitionKey(src, key, index), tid).Ok?
    {
      TransitionCostKey(TransitionKey(src, key, index), tid) in transitionCosts
    }

    /** Follow `key` from `src` (NondeterministicTrie.py:63-96). */
    method Follow(src: nat, key: Option<K>, info: TransitionCostInfo) returns (path: TriePath)
      requires Valid() && src < |transitions|
      modifies this
      ensures State() == KeyedFollow(old(State()), src, key, info).0
      ensures path == KeyedFollow(old(State()), src, key, info).1
      ensures onTryTraverse == old(onTryTraverse) && Valid()
    {
      var keyId := GetKeyIdElseCreate(key);
      var tid := info.translationId;
      var used := if tid in usedNodesByTranslation then usedNodesByTranslation[tid] else {};
      var dsts := if keyId in transitions[src] then transitions[src][keyId] else [];
      var found := Rs.FindUnused(dsts, used);
      if found.Some? {
        var tk := TransitionKey(src, keyId, found.value);
        usedNodesByTranslation := usedNodesByTranslation[tid := used + {dsts[found.value]}];
        AssignTransitionCost(tk, Some(info));
        path := TriePath(dsts[found.value], [tk]);
      } else {
        var newId := CreateNewNode();
        usedNodesByTranslation := usedNodesByTranslation[tid := used + {newId}];
        transitions := transitions[src := transitions[src][keyId := dsts + [newId]]];
        var tk := TransitionKey(src, keyId, |dsts|);
        AssignTransitionCost(tk, Some(info));
        path := TriePath(newId, [tk]);
      }
    }

    /** Follow a chain of keys (NondeterministicTrie.py:99-118). */
    method FollowChain(src: nat, chain: seq<Option<K>>, info: TransitionCostInfo) returns (path: TriePath)
      requires Valid() && src < |transitions|
      modifies this
      ensures State() == KeyedFollowChain(old(State()), src, chain, info).0
      ensures path == KeyedFollowChain(old(State()), src, chain, info).1
      ensures onTryTraverse == old(onTryTraverse) && Valid()
    {
      ghost var goal := KeyedFollowChain(State(), src, chain, info);
      var current: nat := src;
      var all: seq<TransitionKey> := [];
      for i := 0 to |chain|
        invariant Valid() && current < |transitions| && onTryTraverse == old(onTryTraverse)
        invariant goal.0 == KeyedFollowChain(State(), current, chain[i..], info).0
        invariant goal.1.dst == KeyedFollowChain(State(), current, chain[i..], info).1.dst
        invariant goal.1.transitions == all + KeyedFollowChain(State(), current, chain[i..], info).1.transitions
      {
        ghost var s := State();
        var cost := if i == |chain| - 1 then info else TransitionCostInfo(0, info.translationId);
        var step := Follow(current, chain[i], cost);
        assert chain[i..][1..] == chain[i + 1..] && chain[i..][0] == chain[i];
        KeyedFollowChainUnfold(s, current, chain[i..], info, State(), step);
        ghost var rest := KeyedFollowChain(State(), step.dst, chain[i + 1..], info).1.transitions;
        AppendAssoc(all, step.transitions, rest);
        current := step.dst;
        all := all + step.transitions;
      }
      path := TriePath(current, all);
      assert chain[|chain|..] == [];
      assert all + [] == all;
    }

    /** Link `src` to the existing node `dst` under `key`, reusing an equal transition;
        the used-node sets are left alone (NondeterministicTrie.py:264-287). */
    method Link(src: nat, dst: nat, key: Option<K>, info: TransitionCostInfo) returns (tk: TransitionKey)
      requires Valid() && src < |transitions| && dst < |transitions|
      modifies this
      ensures State() == KeyedLink(old(State()), src, dst, key, info).0
      ensures tk == KeyedLink(old(State()), src, dst, key, info).1
      ensures onTryTraverse == old(onTryTraverse) && Valid()
    {
      var keyId := GetKeyIdElseCreate(key);
      ghost var s := State().trie;
      var index: nat;
      if keyId in transitions[src] {
        var dsts := transitions[src][keyId];
        var found := IndexOf(dsts, dst);
        assert dsts == Targets(s.transitions, src, keyId);
        if found.Some? {
          index := found.value;
        } else {
          index := |dsts|;
          transitions := transitions[src := transitions[src][keyId := dsts + [dst]]];
        }
      } else {
        index := 0;
        transitions := transitions[src := transitions[src][keyId := [dst]]];
        assert Targets(s.transitions, src, keyId) == [] && [] + [dst] == [dst];
      }
      tk := TransitionKey(src, keyId, index);
      AssignTransitionCost(tk, Some(info));
      ghost var expected := TrieSpec.Link(s, src, dst, keyId, info);
      assert Targets(s.transitions, src, keyId) == [] ==> IndexOf(Targets(s.transitions, src, keyId), dst).None?;
      assert transitions == expected.0.transitions;
      assert transitionCosts == expected.0.costs;
      assert tk == expected.1;
    }

    /** Follow all keys but the last, then link the last one to `dst`; no keys is an
        IndexError, raised before anything changes (NondeterministicTrie.py:290-299). */
    method LinkChain(src: nat, dst: nat, chain: seq<Option<K>>, info: TransitionCostInfo) returns (r: Result<seq<TransitionKey>>)
      requires Valid() && src < |transitions| && dst < |transitions|
      modifies this
      ensures State() == KeyedLinkChain(old(State()), src, dst, chain, info).0
      ensures r == KeyedLinkChain(old(State()), src, dst, chain, info).1
      ensures onTryTraverse == old(onTryTraverse) && Valid()
    {
      if |chain| == 0 {
        return Err("IndexError: tuple index out of range");
      }
      var path := FollowChain(src, chain[..|chain| - 1], TransitionCostInfo(0, info.translationId));
      var last := Link(path.dst, dst, chain[|chain| - 1], info);
      r := Ok(path.transitions + [last]);
    }

    /** Link every pair to `dst` in order, stopping at the first failure (the loops
        of NondeterministicTrie.py:151-153 and 186-188). */
    method LinkAll(pairs: seq<(NodeSrc, seq<Option<K>>)>, dst: nat, tid: nat) returns (r: Result<seq<seq<TransitionKey>>>)
      requires Valid() && dst < |transitions|
      requires forall k :: 0 <= k < |pairs| ==> pairs[k].0.node < |transitions|
      modifies this
      ensures State() == KeyedLinkAll(old(State()), pairs, dst, tid).0
      ensures r == KeyedLinkAll(old(State()), pairs, dst, tid).1
      ensures onTryTraverse == old(onTryTraverse) && Valid()
    {
      ghost var goal := KeyedLinkAll(State(), pairs, dst, tid);
      var seqs: seq<seq<TransitionKey>> := [];
      assert pairs[0..] == pairs;
      PrependNothing(goal.1);
      for k := 0 to |pairs|
        invariant Valid() && dst < |transitions| && onTryTraverse == old(onTryTraverse)
        invariant forall j :: 0 <= j < |pairs[k..]| ==> pairs[k..][j].0.node < |transitions|
        invariant goal.0 == KeyedLinkAll(State(), pairs[k..], dst, tid).0
        invariant goal.1 == Prepend(seqs, KeyedLinkAll(State(), pairs[k..], dst, tid).1)
      {
        ghost var before := State();
        assert pairs[k..][0] == pairs[k] && pairs[k..][1..] == pairs[k + 1..];
        var ts := LinkChain(pairs[k].0.node, dst, pairs[k].1, TransitionCostInfo(pairs[k].0.cost, tid));
        KeyedLinkAllUnfold(before, pairs[k..], dst, tid, State(), ts);
        if ts.Err? {
          return Err(ts.msg);
        }
        ghost var rest := KeyedLinkAll(State(), pairs[k + 1..], dst, tid);
        assert goal.0 == rest.0;
        assert goal.1 == Prepend(seqs, Prepend([ts.value], rest.1));
        PrependPrepend(seqs, [ts.value], rest.1);
        seqs := seqs + [ts.value];
      }
      assert pairs[|pairs|..] == [];
      assert seqs + [] == seqs;
      r := Ok(seqs);
    }

    /** Join the sources through every key chain to one new common destination
        (NondeterministicTrie.py:130-155). */
    method JoinChain(srcs: seq<NodeSrc>, chains: seq<seq<Option<K>>>, tid: nat) returns (r: Result<JoinedTriePaths>)
      requires Valid()
      requires forall i :: 0 <= i < |srcs| ==> srcs[i].node < |transitions|
      modifies this
      ensures State() == KeyedJoinChain(old(State()), srcs, chains, tid).0
      ensures r == KeyedJoinChain(old(State()), srcs, chains, tid).1
      ensures onTryTraverse == old(onTryTraverse) && Valid()
    {
      var pairs := Rs.BuildPairs(srcs, chains);
      if |pairs| == 0 {
        return Ok(JoinedTriePaths(None, []));
      }
      SourcesInRange(State().trie, srcs, chains);
      var first := FollowChain(pairs[0].0.node, pairs[0].1, TransitionCostInfo(pairs[0].0.cost, tid));
      TailInRange(pairs, |transitions|);
      var rest := LinkAll(pairs[1..], first.dst, tid);
      if rest.Err? {
        return Err(rest.msg);
      }
      r := Ok(JoinedTriePaths(Some(first.dst), [first.transitions] + rest.value));
    }

    /** Join with one key per chain (NondeterministicTrie.py:121-127). */
    method Join(srcs: seq<NodeSrc>, keysIter: seq<K>, tid: nat) returns (joined: JoinedTriePaths)
      requires Valid()
      requires forall i :: 0 <= i < |srcs| ==> srcs[i].node < |transitions|
      modifies this
      ensures State() == KeyedJoinChain(old(State()), srcs, KeySingletons(keysIter), tid).0
      ensures Ok(joined) == KeyedJoinChain(old(State()), srcs, KeySingletons(keysIter), tid).1
      ensures onTryTraverse == old(onTryTraverse) && Valid()
    {
      SingletonJoinsSucceed(State(), srcs, None, keysIter, tid);
      var r := JoinChain(srcs, KeySingletons(keysIter), tid);
      joined := r.value;
    }

    /** Join the sources to `dst` when it is given, otherwise to a new common
        destination (NondeterministicTrie.py:168-190). */
    method LinkJoinChain(srcs: seq<NodeSrc>, dst: Option<nat>, chains: seq<seq<Option<K>>>, tid: nat) returns (r: Result<JoinedTriePaths>)
      requires Valid()
      requires forall i :: 0 <= i < |srcs| ==> srcs[i].node < |transitions|
      requires dst.Some? ==> dst.value < |transitions|
      modifies this
      ensures State() == KeyedLinkJoinChain(old(State()), srcs, dst, chains, tid).0
      ensures r == KeyedLinkJoinChain(old(State()), srcs, dst, chains, tid).1
      ensures onTryTraverse == old(onTryTraverse) && Valid()
    {
      if dst.None? {
        r := JoinChain(srcs, chains, tid);
        return;
      }
      var pairs := Rs.BuildPairs(srcs, chains);
      SourcesInRange(State().trie, srcs, chains);
      var seqs := LinkAll(pairs, dst.value, tid);
      if seqs.Err? {
        return Err(seqs.msg);
      }
      r := Ok(JoinedTriePaths(dst, seqs.value));
    }

    /** Link-join with one key per chain (NondeterministicTrie.py:158-165). */
    method LinkJoin(srcs: seq<NodeSrc>, dst: Option<nat>, keysIter: seq<K>, tid: nat) returns (joined: JoinedTriePaths)
      requires Valid()
      requires forall i :: 0 <= i < |srcs| ==> srcs[i].node < |transitions|
      requires dst.Some? ==> dst.value < |transitions|
      modifies this
      ensures State() == KeyedLinkJoinChain(old(State()), srcs, dst, KeySingletons(keysIter), tid).0
      ensures Ok(joined) == KeyedLinkJoinChain(old(State()), srcs, dst, KeySingletons(keysIter), tid).1
      ensures onTryTraverse == old(onTryTraverse) && Valid()
    {
      SingletonJoinsSucceed(State(), srcs, dst, keysIter, tid);
      var r := LinkJoinChain(srcs, dst, KeySingletons(keysIter), tid);
      joined := r.value;
    }

    /** Register a traversal handler after those already registered
        (NondeterministicTrie.py:197-198). */
    method OnCheckTraverse(handler: Veto)
      modifies this
      ensures onTryTraverse == old(onTryTraverse) + [handler] && State() == old(State())
    {
      onTryTraverse := onTryTraverse + [handler];
    }

    /** Add `tid` to the translations of `node` (NondeterministicTrie.py:302-306). */
    method SetTranslation(node: nat, tid: nat)
      requires Valid()
      modifies this
      ensures State() == KeyedState(TrieSpec.SetTranslation(old(State()).trie, node, tid), old(State()).table)
      ensures onTryTraverse == old(onTryTraverse) && Valid()
    {
      if node in nodeTranslations {
        nodeTranslations := nodeTranslations[node := nodeTranslations[node] + [tid]];
      } else {
        nodeTranslations := nodeTranslations[node := [tid]];
        assert TranslationsAt(old(State()).trie, node) + [tid] == [tid];
      }
    }

    /** The paths reached by `key` from `paths`, under the registered handlers
        (NondeterministicTrie.py:201-226). */
    function Traverse(paths: seq<TriePath>, key: K): (r: seq<TriePath>)
      reads this
      requires Valid() && PathsInRange(transitions, paths)
      ensures key !in keys ==> r == []
      ensures key in keys ==> r == TrieLookup.Traverse(transitions, HandlerVeto(onTryTraverse), paths, Some(keys[key]))
    {
      KeyedTraverse(transitions, keys, HandlerVeto(onTryTraverse), paths, key)
    }

    /** The paths reached by the keys one after another (NondeterministicTrie.py:229-241). */
    function TraverseChain(paths: seq<TriePath>, chain: seq<K>): (r: seq<TriePath>)
      reads this
      requires Valid() && PathsInRange(transitions, paths)
      ensures (exists i :: 0 <= i < |chain| && chain[i] !in keys) ==> r == []
      ensures (forall i :: 0 <= i < |chain| ==> chain[i] in keys) ==>
                r == TrieLookup.TraverseChain(transitions, HandlerVeto(onTryTraverse), paths, IdsOf(keys, chain))
    {
      KeyedTraverseChainById(transitions, keys, HandlerVeto(onTryTraverse), paths, chain);
      KeyedTraverseChain(transitions, keys, HandlerVeto(onTryTraverse), paths, chain)
    }

    /** Whether `tk` is labelled with `key`; a key that was never interned is a
        KeyError (NondeterministicTrie.py:347-351). */
    function TransitionHasKey(tk: TransitionKey, key: Option<K>): (r: Result<bool>)
      reads this
      ensures key.None? ==> r == Ok(tk.keyId.None?)
      ensures key.Some? ==> (r.Err? <==> key.value !in keys)
      ensures key.Some? && r.Ok? ==> (r.value <==> tk.keyId == Some(keys[key.value]))
    {
      match key
      case None => Ok(tk.keyId == None)
      case Some(k) => if k in keys then Ok(Some(keys[k]) == tk.keyId) else Err("KeyError")
    }

    /** The stored cost; a pair without one is a KeyError
        (NondeterministicTrie.py:570-578). */
    function GetTransitionCost(tk: TransitionKey, tid: nat): (r: Result<int>)
      reads this
      ensures r.Ok? <==> AllCosted(transitionCosts, [tk], tid)
      ensures r.Ok? ==> r.value == SumCosts(transitionCosts, [tk], tid)
    {
      var ck := TransitionCostKey(tk, tid);
      assert [tk][0] == tk;
      if ck in transitionCosts then Ok(transitionCosts[ck]) else Err("KeyError: transition has no cost for this translation")
    }

    /** The cost of each transition in turn; the first transition without a cost
        is a KeyError (NondeterministicTrie.py:581-583). */
    method GetTransitionCosts(ts: seq<TransitionKey>, tid: nat) returns (r: Result<seq<int>>)
      ensures r.Ok? <==> AllCosted(transitionCosts, ts, tid)
      ensures r.Ok? ==> |r.value| == |ts|
      ensures r.Ok? ==> forall i :: 0 <= i < |ts| ==> r.value[i] == transitionCosts[TransitionCostKey(ts[i], tid)]
    {
      var costs: seq<int> := [];
      for i := 0 to |ts|
        invariant |costs| == i && AllCosted(transitionCosts, ts[..i], tid)
        invariant forall j :: 0 <= j < i ==> costs[j] == transitionCosts[TransitionCostKey(ts[j], tid)]
      {
        var c := GetTransitionCost(ts[i], tid);
        if c.Err? {
          assert !AllCosted(transitionCosts, ts, tid) by {
            assert TransitionCostKey(ts[i], tid) !in transitionCosts;
          }
          return Err(c.msg);
        }
        assert ts[..i + 1][..i] == ts[..i];
        costs := costs + [c.value];
      }
      assert ts[..|ts|] == ts;
      r := Ok(costs);
    }

    /** The translations at `node` for which every transition of `ts` has a cost, each
        with its summed cost, in the order of the node's list
        (NondeterministicTrie.py:309-327). */
    method GetTranslationsAndCostsSingle(node: nat, ts: seq<TransitionKey>) returns (results: seq<(nat, int)>)
      ensures results == CostsSingle(State().trie, node, ts)
    {
      if node !in nodeTranslations {
        return [];
      }
      var tids := nodeTranslations[node];
      results := [];
      for k := 0 to |tids|
        invariant results == CostsFor(transitionCosts, tids[..k], ts)
      {
        var tid := tids[k];
        var valid := true;
        var sum := 0;
        var j := 0;
        while j < |ts|
          invariant 0 <= j <= |ts|
          invariant valid ==> PathCost(transitionCosts, ts[..j], tid) == Some(sum)
          invariant !valid ==> PathCost(transitionCosts, ts, tid).None?
          decreases |ts| - j, valid
        {
          var ck := TransitionCostKey(ts[j], tid);
          assert ts[..j + 1][..j] == ts[..j] && ts[..j + 1][j] == ts[j];
          if ck !in transitionCosts {
            assert !AllCosted(transitionCosts, ts, tid);
            valid := false;
            break;
          }
          sum := sum + transitionCosts[ck];
          j := j + 1;
        }
        assert valid ==> ts[..j] == ts;
        assert tids[..k + 1][..k] == tids[..k] && tids[..k + 1][k] == tid;
        if valid {
          results := results + [(tid, sum)];
        }
      }
      assert tids[..|tids|] == tids;
    }

    /** The lookup results of every path, path by path
        (NondeterministicTrie.py:330-333). */
    method GetTranslationsAndCosts(paths: seq<TriePath>) returns (results: seq<LookupResult>)
      ensures results == Costs(State().trie, paths)
    {
      results := [];
      for k := 0 to |paths|
        invariant results == Costs(State().trie, paths[..k])
      {
        var pairs := GetTranslationsAndCostsSingle(paths[k].dst, paths[k].transitions);
        assert paths[..k + 1][..k] == paths[..k] && paths[..k + 1][k] == paths[k];
        results := results + ToResults(pairs, paths[k].transitions);
      }
      assert paths[..|paths|] == paths;
    }

    /** Per translation, the first result with the strictly lowest cost: a result
        whose cost is not below the kept one is skipped
        (NondeterministicTrie.py:336-344). */
    method GetTranslationsAndMinCosts(paths: seq<TriePath>) returns (best: map<nat, LookupResult>)
      ensures best == MinCosts(State().trie, paths)
    {
      best := map[];
      for k := 0 to |paths|
        invariant best == FoldMin(map[], Costs(State().trie, paths[..k]))
      {
        var ts := paths[k].transitions;
        var pairs := GetTranslationsAndCostsSingle(paths[k].dst, ts);
        FoldMinAppend(map[], Costs(State().trie, paths[..k]), ToResults(pairs, ts));
        best := Rs.InsertAllMin(best, ToResults(pairs, ts));
        assert paths[..k + 1][..k] == paths[..k] && paths[..k + 1][k] == paths[k];
      }
      assert paths[..|paths|] == paths;
    }

    /** The key with id `id`; an id never handed out is an IndexError
        (NondeterministicTrie.py:586-587). */
    function GetKey(id: nat): (r: Result<K>)
      reads this
      requires Valid()
      ensures r.Ok? <==> id < |keysList|
      ensures r.Ok? ==> r.value in keys && keys[r.value] == id
    {
      if id < |keysList| then Ok(keysList[id]) else Err("IndexError: list index out of range")
    }

    /** A printable form of a key id as the source writes it: the mis-encoded epsilon
        label for the epsilon key, otherwise the key as `show` prints it
        (NondeterministicTrie.py:590-594). */
    function GetKeyStrAsWritten(id: Option<nat>, show: K -> string): (r: Result<string>)
      reads this
      requires Valid()
      ensures id.None? ==> r == Ok(EPSILON_LABEL_AS_WRITTEN) && r != Ok(EPSILON_LABEL)
      ensures id.Some? ==> (r.Ok? <==> id.value < |keysList|)
      ensures id.Some? && r.Ok? ==> exists k :: k in keys && keys[k] == id.value && r.value == show(k)
    {
      EpsilonLabelMisencoded();
      match id
      case None => Ok(EPSILON_LABEL_AS_WRITTEN)
      case Some(i) => KeyStr(i, show)
    }

    /** A printable form of a key id with the epsilon label the key manager uses. */
    function GetKeyStr(id: Option<nat>, show: K -> string): (r: Result<string>)
      reads this
      requires Valid()
      ensures id.None? ==> r == Ok(EPSILON_LABEL) && |r.value| == 3 && r.value[1] == '\U{03B5}'
      ensures id.Some? ==> (r.Ok? <==> id.value < |keysList|)
      ensures id.Some? && r.Ok? ==> exists k :: k in keys && keys[k] == id.value && r.value == show(k)
    {
      match id
      case None => Ok(EPSILON_LABEL)
      case Some(i) => KeyStr(i, show)
    }

    /** The key with id `i` as `show` prints it; an id never handed out is an
        IndexError. */
    function KeyStr(i: nat, show: K -> string): (r: Result<string>)
      reads this
      requires Valid()
      ensures r.Ok? <==> i < |keysList|
      ensures r.Ok? ==> exists k :: k in keys && keys[k] == i && r.value == show(k)
    {
      if i < |keysList| then
        assert keysList[i] in keys;
        Ok(show(keysList[i]))
      else Err("IndexError: list index out of range")
    }
  }

  /** One step of a followed chain. */
  lemma KeyedFollowChainUnfold<K>(ps: KeyedState<K>, src: nat, chain: seq<Option<K>>, info: TransitionCostInfo,
                                  s1: KeyedState<K>, p1: TriePath)
    requires KeyedOk(ps) && src < |ps.trie.transitions| && |chain| > 0
    requires s1 == KeyedFollow(ps, src, chain[0], if |chain| == 1 then info else TransitionCostInfo(0, info.translationId)).0
    requires p1 == KeyedFollow(ps, src, chain[0], if |chain| == 1 then info else TransitionCostInfo(0, info.translationId)).1
    ensures KeyedOk(s1) && p1.dst < |s1.trie.transitions|
    ensures KeyedFollowChain(ps, src, chain, info).0 == KeyedFollowChain(s1, p1.dst, chain[1..], info).0
    ensures KeyedFollowChain(ps, src, chain, info).1.dst == KeyedFollowChain(s1, p1.dst, chain[1..], info).1.dst
    ensures KeyedFollowChain(ps, src, chain, info).1.transitions
            == p1.transitions + KeyedFollowChain(s1, p1.dst, chain[1..], info).1.transitions
  {
  }

  /** One step of linking all pairs: the first pair's chain, then the rest unless it
      failed. */
  lemma KeyedLinkAllUnfold<K>(ps: KeyedState<K>, pairs: seq<(NodeSrc, seq<Option<K>>)>, dst: nat, tid: nat,
                              s1: KeyedState<K>, ts: Result<seq<TransitionKey>>)
    requires KeyedOk(ps) && dst < |ps.trie.transitions| && |pairs| > 0
    requires forall k :: 0 <= k < |pairs| ==> pairs[k].0.node < |ps.trie.transitions|
    requires s1 == KeyedLinkChain(ps, pairs[0].0.node, dst, pairs[0].1, TransitionCostInfo(pairs[0].0.cost, tid)).0
    requires ts == KeyedLinkChain(ps, pairs[0].0.node, dst, pairs[0].1, TransitionCostInfo(pairs[0].0.cost, tid)).1
    ensures KeyedOk(s1) && dst < |s1.trie.transitions|
    ensures forall k :: 0 <= k < |pairs[1..]| ==> pairs[1..][k].0.node < |s1.trie.transitions|
    ensures ts.Err? ==> KeyedLinkAll(ps, pairs, dst, tid) == (s1, Err(ts.msg))
    ensures ts.Ok? ==> KeyedLinkAll(ps, pairs, dst, tid).0 == KeyedLinkAll(s1, pairs[1..], dst, tid).0
    ensures ts.Ok? ==> KeyedLinkAll(ps, pairs, dst, tid).1 == Prepend([ts.value], KeyedLinkAll(s1, pairs[1..], dst, tid).1)
  {
    assert |ps.trie.transitions| <= |s1.trie.transitions|;
    forall k | 0 <= k < |pairs[1..]|
      ensures pairs[1..][k].0.node < |s1.trie.transitions|
    {
      assert pairs[1..][k] == pairs[k + 1];
    }
    if ts.Ok? {
      var r2 := KeyedLinkAll(s1, pairs[1..], dst, tid);
      assert KeyedLinkAll(ps, pairs, dst, tid) == (r2.0, Prepend([ts.value], r2.1));
    }
  }
}
