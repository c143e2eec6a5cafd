/** The Rust nondeterministic trie as an object whose fields its methods update in
    place (plover_hatchery_lib_rs/src/trie/nondeterministic_trie.rs:163-892).  Each
    building method is proved to leave the fields as the matching function of
    TrieSpec says; each query is proved to return what the matching function of
    TrieLookup says. */
module NondeterministicTrieRs {
  import opened Wrappers
  import opened Transition
  import opened TrieSpec
  import opened TrieLookup

  /** One transition of a subtrie: between two nodes, the (key, index, cost) of every
      transition between them that carries the translation. */
  datatype SubtrieTransition = SubtrieTransition(src: nat, dst: nat, keyInfos: seq<(Option<nat>, nat, int)>)

  /** The part of the trie that leads to a translation: its nodes in the order the
      search finished them, its transitions, and the nodes carrying the translation. */
  datatype SubtrieData = SubtrieData(nodes: seq<nat>, transitions: seq<SubtrieTransition>, translationNodes: seq<nat>)

  /** Every translation id stored anywhere. */
  function AllTranslationIds(nodeTranslations: map<nat, seq<nat>>): set<nat> {
    set node, tid | node in nodeTranslations && tid in nodeTranslations[node] :: tid
  }

  /** All node ids below `n`. */
  function NodesBelow(n: nat): (r: set<nat>)
    ensures forall v: nat :: v in r <==> v < n
    ensures |r| == n
  {
    if n == 0 then {} else NodesBelow(n - 1) + {n - 1}
  }

  /** The transitions recorded by the subtrie search lead from their source to their
      destination and carry a cost for `tid`. */
  predicate RecordedSound(t: seq<Edges>, costs: map<TransitionCostKey, int>, tid: nat,
                          vt: map<(nat, nat), seq<(Option<nat>, nat)>>) {
    forall sd, i :: sd in vt && 0 <= i < |vt[sd]| ==>
      var tk := TransitionKey(sd.0, vt[sd][i].0, vt[sd][i].1);
      HasTransition(t, tk) && Dst(t, tk) == sd.1 && TransitionCostKey(tk, tid) in costs
  }

  /** The position of the first destination not in `used`, scanning the list in
      order (nondeterministic_trie.rs:237-251). */
  method FindUnused(dsts: seq<nat>, used: set<nat>) returns (r: Option<nat>)
    ensures r == FirstUnused(dsts, used)
  {
    var i := 0;
    while i < |dsts|
      invariant 0 <= i <= |dsts|
      invariant forall j :: 0 <= j < i ==> dsts[j] in used
    {
      if dsts[i] !in used {
        return Some(i);
      }
      i := i + 1;
    }
    return None;
  }

  /** `r` is a result for `tid` along a walk from the root to `end`, fully costed for
      `tid`, with the summed cost. */
  predicate ReverseResultSound(s: TrieState, tid: nat, end: nat, r: LookupResult) {
    r.translationId == tid && Walk(s.transitions, ROOT, r.transitions) == Some(end)
    && AllCosted(s.costs, r.transitions, tid) && r.cost == SumCosts(s.costs, r.transitions, tid)
  }

  /** Taking one more transition backwards, from `e.0` into `node`, keeps the
      search's path a costed walk to `start` with the accumulated cost. */
  lemma ReverseStep(s: TrieState, rev: ReverseNodes, node: nat, key: Option<nat>, e: (nat, nat),
                    reversed: seq<TransitionKey>, tid: nat, start: nat, cost: int)
    requires ReverseOf(s.transitions, rev) && e in RevAt(rev, node, key)
    requires Walk(s.transitions, node, Reverse(reversed)) == Some(start)
    requires AllCosted(s.costs, Reverse(reversed), tid) && cost == SumCosts(s.costs, Reverse(reversed), tid)
    requires TransitionCostKey(TransitionKey(e.0, key, e.1), tid) in s.costs
    ensures e.0 < |s.transitions|
    ensures var tk := TransitionKey(e.0, key, e.1);
      Walk(s.transitions, e.0, Reverse(reversed + [tk])) == Some(start)
      && AllCosted(s.costs, Reverse(reversed + [tk]), tid)
      && cost + s.costs[TransitionCostKey(tk, tid)] == SumCosts(s.costs, Reverse(reversed + [tk]), tid)
  {
    var tk := TransitionKey(e.0, key, e.1);
    ReverseOfSound(s.transitions, rev, node, key, e);
    var acc := Reverse(reversed);
    ReverseSnoc(reversed, tk);
    assert ([tk] + acc)[0] == tk && ([tk] + acc)[1..] == acc;
    assert forall i :: 0 < i < |[tk] + acc| ==> ([tk] + acc)[i] == acc[i - 1];
  }

  /** Marking one more node below `n` as visited leaves fewer unvisited ones. */
  lemma NodesBelowShrink(n: nat, visited: set<nat>, x: nat)
    requires x < n && x !in visited
    ensures |NodesBelow(n) - (visited + {x})| < |NodesBelow(n) - visited|
  {
    assert NodesBelow(n) - (visited + {x}) == (NodesBelow(n) - visited) - {x};
  }

  /** Add (`key`, `index`) to the list of transitions from `src` to `dst`. */
  function Record(recorded: map<(nat, nat), seq<(Option<nat>, nat)>>, src: nat, dst: nat, key: Option<nat>, index: nat)
    : (r: map<(nat, nat), seq<(Option<nat>, nat)>>)
    ensures forall t: seq<Edges>, costs, tid ::
              RecordedSound(t, costs, tid, recorded) && HasTransition(t, TransitionKey(src, key, index))
              && Dst(t, TransitionKey(src, key, index)) == dst
              && TransitionCostKey(TransitionKey(src, key, index), tid) in costs
              ==> RecordedSound(t, costs, tid, r)
  {
    recorded[(src, dst) := (if (src, dst) in recorded then recorded[(src, dst)] else []) + [(key, index)]]
  }

  /** The source of a reverse entry is a node, and so is its destination. */
  lemma ReverseEntryInRange(s: TrieState, rev: ReverseNodes, node: nat, key: Option<nat>, e: (nat, nat))
    requires Valid(s) && ReverseOf(s.transitions, rev) && e in RevAt(rev, node, key)
    ensures e.0 < |s.transitions| && node < |s.transitions|
    ensures HasTransition(s.transitions, TransitionKey(e.0, key, e.1)) && Dst(s.transitions, TransitionKey(e.0, key, e.1)) == node
  {
    var tk := TransitionKey(e.0, key, e.1);
    ReverseOfSound(s.transitions, rev, node, key, e);
    assert EdgesOk(s.transitions[e.0], |s.transitions|);
    assert Targets(s.transitions, e.0, key)[e.1] in Targets(s.transitions, e.0, key);
  }

  /** The bookkeeping of the subtrie search since `base` was the visited set and
      `orderBase` the finished list: the list only grows and never repeats a node, it
      lists visited nodes only, what it gained was not in `base`, and every node
      visited since then is finished. */
  predicate SearchState(visited: set<nat>, order: seq<nat>, base: set<nat>, orderBase: seq<nat>) {
    orderBase <= order && NoDup(order)
    && (forall v :: v in order ==> v in visited)
    && (forall i :: |orderBase| <= i < |order| ==> order[i] !in base)
    && (forall v :: v in visited && v !in base ==> v in order)
  }

  /** A nested search that started from a later state keeps the outer bookkeeping. */
  lemma SearchStateTrans(v1: set<nat>, o1: seq<nat>, v2: set<nat>, o2: seq<nat>, base: set<nat>, orderBase: seq<nat>)
    requires SearchState(v1, o1, base, orderBase) && base <= v1 && v1 <= v2
    requires SearchState(v2, o2, v1, o1)
    ensures SearchState(v2, o2, base, orderBase)
  {
    forall i | |orderBase| <= i < |o2| ensures o2[i] !in base {
      if i < |o1| {
        assert o2[i] == o1[i];
      }
    }
  }

  /** Every key info of `st` names a transition from `st.src` to `st.dst` with a cost
      for `tid`, and carries that cost. */
  predicate SubtrieTransitionSound(s: TrieState, tid: nat, st: SubtrieTransition) {
    forall j :: 0 <= j < |st.keyInfos| ==>
      var tk := TransitionKey(st.src, st.keyInfos[j].0, st.keyInfos[j].1);
      HasTransition(s.transitions, tk) && Dst(s.transitions, tk) == st.dst
      && TransitionCostKey(tk, tid) in s.costs && st.keyInfos[j].2 == s.costs[TransitionCostKey(tk, tid)]
  }

  /** A subset has no more elements. */
  lemma {:induction false} SubsetCard<T>(x: set<T>, y: set<T>)
    requires x <= y
    ensures |x| <= |y|
    decreases x
  {
    if x != {} {
      var e :| e in x;
      SubsetCard(x - {e}, y - {e});
    }
  }

  /** Once `node` (a node below `n`, unvisited at first) is visited, fewer nodes below
      `n` remain unvisited than at first. */
  lemma VisitedMeasure(n: nat, visited0: set<nat>, visited: set<nat>, node: nat)
    requires node < n && node !in visited0 && visited0 + {node} <= visited
    ensures |NodesBelow(n) - visited| < |NodesBelow(n) - visited0|
  {
    NodesBelowShrink(n, visited0, node);
    SubsetCard(NodesBelow(n) - visited, NodesBelow(n) - (visited0 + {node}));
  }

  class NondeterministicTrie {
    /** For each node, its destination lists by key id. */
    var transitions: seq<Edges>
    /** The translation ids stored at each node. */
    var nodeTranslations: map<nat, seq<nat>>
    /** The cost of each (transition, translation) pair. */
    var transitionCosts: map<TransitionCostKey, int>
    /** The nodes each translation has passed through while it was added. */
    var usedNodesByTranslation: map<nat, set<nat>>

    /** The fields as one value. */
    function State(): TrieState
      reads this
    {
      TrieState(transitions, nodeTranslations, transitionCosts, usedNodesByTranslation)
    }

    ghost predicate Valid()
      reads this
    {
      TrieSpec.Valid(State())
    }

    /** A trie holding only the root (nondeterministic_trie.rs:193-200). */
    constructor ()
      ensures State() == Empty() && Valid()
    {
      transitions := [map[]];
      nodeTranslations := map[];
      transitionCosts := map[];
      usedNodesByTranslation := map[];
    }

    /** Append a node without edges and return its id (nondeterministic_trie.rs:203-207). */
    method CreateNewNode() returns (id: nat)
      modifies this
      ensures id == |old(transitions)| && transitions == old(transitions) + [map[]]
      ensures nodeTranslations == old(nodeTranslations) && transitionCosts == old(transitionCosts)
      ensures usedNodesByTranslation == old(usedNodesByTranslation)
    {
      id := |transitions|;
      transitions := transitions + [map[]];
    }

    /** Store the smaller of the given and the stored cost; a missing cost counts as
        infinite (nondeterministic_trie.rs:210-223). */
    method AssignTransitionCost(tk: TransitionKey, info: TransitionCostInfo)
      modifies this
      ensures transitionCosts == RecordCost(old(transitionCosts), TransitionCostKey(tk, info.translationId), info.cost)
      ensures transitions == old(transitions) && nodeTranslations == old(nodeTranslations)
      ensures usedNodesByTranslation == old(usedNodesByTranslation)
    {
      var ck := TransitionCostKey(tk, info.translationId);
      var existing: Option<int> := if ck in transitionCosts then Some(transitionCosts[ck]) else None;
      var cost := if existing.Some? && existing.value < info.cost then existing.value else info.cost;
      transitionCosts := transitionCosts[ck := cost];
    }

    /** Follow `key` from `src`, reusing the first destination the translation has not
        used yet or creating a node (nondeterministic_trie.rs:226-279). */
    method Follow(src: nat, key: Option<nat>, info: TransitionCostInfo) returns (path: TriePath)
      requires Valid() && src < |transitions|
      modifies this
      ensures State() == TrieSpec.Follow(old(State()), src, key, info).0
      ensures path == TrieSpec.Follow(old(State()), src, key, info).1
      ensures Valid()
    {
      var tid := info.translationId;
      var used := if tid in usedNodesByTranslation then usedNodesByTranslation[tid] else {};
      var dsts := if key in transitions[src] then transitions[src][key] else [];
      var found := FindUnused(dsts, used);
      if found.Some? {
        var tk := TransitionKey(src, key, found.value);
        usedNodesByTranslation := usedNodesByTranslation[tid := used + {dsts[found.value]}];
        AssignTransitionCost(tk, info);
        path := TriePath(dsts[found.value], [tk]);
      } else {
        var newId := CreateNewNode();
        transitions := transitions[src := transitions[src][key := dsts + [newId]]];
        usedNodesByTranslation := usedNodesByTranslation[tid := used + {newId}];
        var tk := TransitionKey(src, key, |dsts|);
        AssignTransitionCost(tk, info);
        path := TriePath(newId, [tk]);
      }
    }

    /** Follow a chain of keys; only the last transition gets the caller's cost, the
        others cost 0 (nondeterministic_trie.rs:282-309). */
    method FollowChain(src: nat, keys: seq<Option<nat>>, info: TransitionCostInfo) returns (path: TriePath)
      requires Valid() && src < |transitions|
      modifies this
      ensures State() == TrieSpec.FollowChain(old(State()), src, keys, info).0
      ensures path == TrieSpec.FollowChain(old(State()), src, keys, info).1
      ensures Valid()
    {
      ghost var goal := TrieSpec.FollowChain(State(), src, keys, info);
      var current: nat := src;
      var all: seq<TransitionKey> := [];
      var i := 0;
      while i < |keys|
        invariant 0 <= i <= |keys|
        invariant ChainRemains(goal, State(), current, keys[i..], info, all)
      {
        ghost var s := State();
        var cost := if i == |keys| - 1 then info else TransitionCostInfo(0, info.translationId);
        var step := Follow(current, keys[i], cost);
        assert keys[i..][1..] == keys[i + 1..] && keys[i..][0] == keys[i];
        ChainRemainsStep(goal, s, current, keys[i..], info, all, State(), step);
        current := step.dst;
        all := all + step.transitions;
        i := i + 1;
      }
      path := TriePath(current, all);
      ChainRemainsDone(goal, State(), current, keys[i..], info, all);
    }

    /** Link `src` to the existing node `dst` under `key`, reusing an equal transition
        (nondeterministic_trie.rs:312-344). */
    method Link(src: nat, dst: nat, key: Option<nat>, info: TransitionCostInfo) returns (tk: TransitionKey)
      requires Valid() && src < |transitions| && dst < |transitions|
      modifies this
      ensures State() == TrieSpec.Link(old(State()), src, dst, key, info).0
      ensures tk == TrieSpec.Link(old(State()), src, dst, key, info).1
      ensures Valid()
    {
      ghost var s := State();
      var index: nat;
      if key in transitions[src] {
        var dsts := transitions[src][key];
        var found := IndexOf(dsts, dst);
        assert dsts == Targets(s.transitions, src, key);
        if found.Some? {
          index := found.value;
        } else {
          index := |dsts|;
          transitions := transitions[src := transitions[src][key := dsts + [dst]]];
        }
      } else {
        transitions := transitions[src := transitions[src][key := [dst]]];
        index := 0;
        assert Targets(s.transitions, src, key) == [] && [] + [dst] == [dst];
      }
      tk := TransitionKey(src, key, index);
      AssignTransitionCost(tk, info);
      var tid := info.translationId;
      var used := if tid in usedNodesByTranslation then usedNodesByTranslation[tid] else {};
      usedNodesByTranslation := usedNodesByTranslation[tid := used + {dst}];
      LinkShape(s, src, dst, key, info);
    }

    /** Follow all keys but the last, then link the last one to `dst`
        (nondeterministic_trie.rs:346-373). */
    method LinkChain(src: nat, dst: nat, keys: seq<Option<nat>>, info: TransitionCostInfo) returns (ts: seq<TransitionKey>)
      requires Valid() && src < |transitions| && dst < |transitions|
      modifies this
      ensures State() == TrieSpec.LinkChain(old(State()), src, dst, keys, info).0
      ensures ts == TrieSpec.LinkChain(old(State()), src, dst, keys, info).1
      ensures Valid()
    {
      if |keys| == 0 {
        return [];
      }
      var path := FollowChain(src, keys[..|keys| - 1], TransitionCostInfo(0, info.translationId));
      var last := Link(path.dst, dst, keys[|keys| - 1], info);
      ts := path.transitions + [last];
    }

    /** Link every pair to `target` in order, one transition sequence per pair
        (the two loops of nondeterministic_trie.rs:438-445 and 451-455). */
    method LinkAll(pairs: seq<(TransitionSourceNode, seq<Option<nat>>)>, target: nat, tid: nat)
      returns (seqs: seq<seq<TransitionKey>>)
      requires Valid() && target < |transitions|
      requires forall k :: 0 <= k < |pairs| ==> pairs[k].0.src < |transitions|
      modifies this
      ensures State() == TrieSpec.LinkAll(old(State()), pairs, target, tid).0
      ensures seqs == TrieSpec.LinkAll(old(State()), pairs, target, tid).1
      ensures Valid()
    {
      ghost var goal := TrieSpec.LinkAll(State(), pairs, target, tid);
      seqs := [];
      var k := 0;
      while k < |pairs|
        invariant 0 <= k <= |pairs|
        invariant LinksRemain(goal, State(), pairs[k..], target, tid, seqs)
      {
        ghost var before := State();
        assert pairs[k..][0] == pairs[k] && pairs[k..][1..] == pairs[k + 1..];
        var ts := LinkChain(pairs[k].0.src, target, pairs[k].1, TransitionCostInfo(pairs[k].0.outgoingCost, tid));
        LinksRemainStep(goal, before, pairs[k..], target, tid, seqs, State(), ts);
        seqs := seqs + [ts];
        k := k + 1;
      }
      LinksRemainDone(goal, State(), pairs[k..], target, tid, seqs);
    }

    /** Join every source to one destination through every key chain: to `dst` when
        given, otherwise to where the first (source, chain) pair leads
        (nondeterministic_trie.rs:397-461). */
    method LinkJoinChain(srcs: seq<TransitionSourceNode>, dst: Option<nat>, chains: seq<seq<Option<nat>>>, tid: nat)
      returns (joined: JoinedTriePaths)
      requires Valid()
      requires forall i :: 0 <= i < |srcs| ==> srcs[i].src < |transitions|
      requires dst.Some? ==> dst.value < |transitions|
      modifies this
      ensures State() == TrieSpec.LinkJoinChain(old(State()), srcs, dst, chains, tid).0
      ensures joined == TrieSpec.LinkJoinChain(old(State()), srcs, dst, chains, tid).1
      ensures Valid()
    {
      if |srcs| == 0 || |chains| == 0 {
        return JoinedTriePaths(None, []);
      }
      var pairs := BuildPairs(srcs, chains);
      PairsInRange(State(), srcs, chains);
      if dst.Some? {
        var seqs := LinkAll(pairs, dst.value, tid);
        joined := JoinedTriePaths(dst, seqs);
      } else {
        var first := FollowChain(pairs[0].0.src, pairs[0].1, TransitionCostInfo(pairs[0].0.outgoingCost, tid));
        assert forall k :: 0 <= k < |pairs[1..]| ==> pairs[1..][k] == pairs[k + 1];
        var seqs := LinkAll(pairs[1..], first.dst, tid);
        joined := JoinedTriePaths(Some(first.dst), [first.transitions] + seqs);
      }
    }

    /** Join with one key per source (nondeterministic_trie.rs:379-392). */
    method LinkJoin(srcs: seq<TransitionSourceNode>, dst: Option<nat>, keys: seq<Option<nat>>, tid: nat)
      returns (joined: JoinedTriePaths)
      requires Valid()
      requires forall i :: 0 <= i < |srcs| ==> srcs[i].src < |transitions|
      requires dst.Some? ==> dst.value < |transitions|
      modifies this
      ensures State() == TrieSpec.LinkJoinChain(old(State()), srcs, dst, Singletons(keys), tid).0
      ensures joined == TrieSpec.LinkJoinChain(old(State()), srcs, dst, Singletons(keys), tid).1
      ensures Valid()
    {
      joined := LinkJoinChain(srcs, dst, Singletons(keys), tid);
    }

    /** Add `tid` to the translations of `node` (nondeterministic_trie.rs:464-469). */
    method SetTranslation(node: nat, tid: nat)
      requires Valid()
      modifies this
      ensures State() == TrieSpec.SetTranslation(old(State()), node, tid)
      ensures Valid()
    {
      if node in nodeTranslations {
        nodeTranslations := nodeTranslations[node := nodeTranslations[node] + [tid]];
      } else {
        nodeTranslations := nodeTranslations[node := [tid]];
        assert TranslationsAt(old(State()), node) + [tid] == [tid];
      }
    }

    /** The summed cost of `ts` for `tid`, or None at the first transition without a
        cost for it (the inner loop of nondeterministic_trie.rs:558-569). */
    method PathCostOf(ts: seq<TransitionKey>, tid: nat) returns (cost: Option<int>)
      ensures cost == PathCost(transitionCosts, ts, tid)
      ensures cost.Some? <==> AllCosted(transitionCosts, ts, tid)
      ensures cost.Some? ==> cost.value == SumCosts(transitionCosts, ts, tid)
    {
      var sum := 0;
      var j := 0;
      while j < |ts|
        invariant 0 <= j <= |ts|
        invariant PathCost(transitionCosts, ts[..j], tid) == Some(sum)
      {
        var ck := TransitionCostKey(ts[j], tid);
        assert ts[..j + 1][..j] == ts[..j] && ts[..j + 1][j] == ts[j];
        if ck !in transitionCosts {
          assert !AllCosted(transitionCosts, ts, tid);
          return None;
        }
        sum := sum + transitionCosts[ck];
        j := j + 1;
      }
      assert ts[..j] == ts;
      PathCostIsSum(transitionCosts, ts, tid);
      return Some(sum);
    }

    /** The translations at `node` for which every transition of `ts` has a cost, each
        with its summed cost (nondeterministic_trie.rs:545-576). */
    method GetTranslationsAndCostsSingle(node: nat, ts: seq<TransitionKey>) returns (results: seq<(nat, int)>)
      ensures results == CostsSingle(State(), node, ts)
    {
      if node !in nodeTranslations {
        return [];
      }
      var tids := nodeTranslations[node];
      results := [];
      for k := 0 to |tids|
        invariant results == CostsFor(transitionCosts, tids[..k], ts)
      {
        var cost := PathCostOf(ts, tids[k]);
        assert tids[..k + 1][..k] == tids[..k] && tids[..k + 1][k] == tids[k];
        if cost.Some? {
          results := results + [(tids[k], cost.value)];
        }
      }
      assert tids[..|tids|] == tids;
    }

    /** The lookup results of every path, path by path (nondeterministic_trie.rs:579-590). */
    method GetTranslationsAndCosts(paths: seq<TriePath>) returns (results: seq<LookupResult>)
      ensures results == Costs(State(), paths)
    {
      results := [];
      for k := 0 to |paths|
        invariant results == Costs(State(), paths[..k])
      {
        var pairs := GetTranslationsAndCostsSingle(paths[k].dst, paths[k].transitions);
        assert paths[..k + 1][..k] == paths[..k] && paths[..k + 1][k] == paths[k];
        results := results + ToResults(pairs, paths[k].transitions);
      }
      assert paths[..|paths|] == paths;
    }

    /** Per translation, the first result with the strictly lowest cost
        (nondeterministic_trie.rs:608-633). */
    method GetTranslationsAndMinCosts(paths: seq<TriePath>) returns (best: map<nat, LookupResult>)
      ensures best == MinCosts(State(), paths)
    {
      best := map[];
      for k := 0 to |paths|
        invariant best == FoldMin(map[], Costs(State(), paths[..k]))
      {
        var ts := paths[k].transitions;
        var pairs := GetTranslationsAndCostsSingle(paths[k].dst, ts);
        FoldMinAppend(map[], Costs(State(), paths[..k]), ToResults(pairs, ts));
        best := InsertAllMin(best, ToResults(pairs, ts));
        assert paths[..k + 1][..k] == paths[..k] && paths[..k + 1][k] == paths[k];
      }
      assert paths[..|paths|] == paths;
    }

    /** The number of nodes (nondeterministic_trie.rs:641-644). */
    function NNodes(): (n: nat)
      reads this
      ensures Valid() ==> n >= 1
    {
      |transitions|
    }

    /** Whether a cost is stored for the transition and translation
        (nondeterministic_trie.rs:866-878). */
    function TransitionHasCostForTranslation(src: nat, key: Option<nat>, index: nat, tid: nat): bool
      reads this
    {
      TransitionCostKey(TransitionKey(src, key, index), tid) in transitionCosts
    }

    /** The stored cost, if any (nondeterministic_trie.rs:593-600). */
    function GetTransitionCost(tk: TransitionKey, tid: nat): (r: Option<int>)
      reads this
      ensures r.Some? <==> TransitionHasCostForTranslation(tk.src, tk.keyId, tk.index, tid)
      ensures r.Some? ==> AllCosted(transitionCosts, [tk], tid) && r.value == SumCosts(transitionCosts, [tk], tid)
    {
      var ck := TransitionCostKey(tk, tid);
      if ck in transitionCosts then Some(transitionCosts[ck]) else None
    }

    /** Every translation id stored at some node (nondeterministic_trie.rs:647-656);
        the Rust version returns them in hash order. */
    method GetAllTranslationIds() returns (ids: set<nat>)
      ensures forall tid :: tid in ids <==> exists node :: node in nodeTranslations && tid in nodeTranslations[node]
    {
      ids := {};
      var nodes := nodeTranslations.Keys;
      while nodes != {}
        invariant nodes <= nodeTranslations.Keys
        invariant forall tid :: tid in ids <==>
                    exists node :: node in nodeTranslations && node !in nodes && tid in nodeTranslations[node]
        decreases nodes
      {
        var node :| node in nodes;
        var tids := nodeTranslations[node];
        for j := 0 to |tids|
          invariant forall tid :: tid in ids <==>
                      (exists n :: n in nodeTranslations && n !in nodes && tid in nodeTranslations[n])
                      || tid in tids[..j]
        {
          assert tids[..j + 1] == tids[..j] + [tids[j]];
          ids := ids + {tids[j]};
        }
        assert tids[..|tids|] == tids;
        nodes := nodes - {node};
      }
    }

    /** For every destination and key, the (source, index) pairs of the transitions
        into it, collected node by node (nondeterministic_trie.rs:659-677). */
    method ReversedNodes() returns (rev: ReverseNodes)
      ensures ReverseOf(transitions, rev)
    {
      var t := transitions;
      rev := map[];
      for v := 0 to |t|
        invariant NoEmptyRev(rev)
        invariant forall d, k :: RevAt(rev, d, k) == Entries(t, k, d, v)
      {
        rev := AddNodeEdges(t, v, rev);
      }
    }

    /** Search backwards from `node` along transitions that carry a cost for `tid`,
        never revisiting a node of the current path, and report every path that
        reaches the root with its summed cost (nondeterministic_trie.rs:722-776).
        `reversed` holds the transitions taken so far, last first, as in the source. */
    method DfsReverseLookup(node: nat, tid: nat, reversed: seq<TransitionKey>, cost: int, visited: set<nat>,
                            rev: ReverseNodes, results0: seq<LookupResult>, ghost start: nat)
      returns (results: seq<LookupResult>)
      requires ReverseOf(transitions, rev) && node in visited
      requires Walk(transitions, node, Reverse(reversed)) == Some(start)
      requires AllCosted(transitionCosts, Reverse(reversed), tid)
      requires cost == SumCosts(transitionCosts, Reverse(reversed), tid)
      ensures results0 <= results
      ensures forall i :: |results0| <= i < |results| ==> ReverseResultSound(State(), tid, start, results[i])
      decreases |NodesBelow(|transitions|) - visited|
    {
      if node == ROOT {
        return results0 + [LookupResult(tid, cost, Reverse(reversed))];
      }
      results := results0;
      if node !in rev {
        return;
      }
      var byKey := rev[node];
      var keys := byKey.Keys;
      while keys != {}
        invariant keys <= byKey.Keys
        invariant results0 <= results
        invariant forall i :: |results0| <= i < |results| ==> ReverseResultSound(State(), tid, start, results[i])
        decreases keys
      {
        var key :| key in keys;
        keys := keys - {key};
        var srcs := byKey[key];
        for j := 0 to |srcs|
          invariant results0 <= results
          invariant forall i :: |results0| <= i < |results| ==> ReverseResultSound(State(), tid, start, results[i])
        {
          var src := srcs[j].0;
          var index := srcs[j].1;
          if src !in visited && TransitionHasCostForTranslation(src, key, index, tid) {
            var tk := TransitionKey(src, key, index);
            var ck := TransitionCostKey(tk, tid);
            var transitionCost := if ck in transitionCosts then transitionCosts[ck] else 0;
            assert srcs[j] in RevAt(rev, node, key);
            ReverseStep(State(), rev, node, key, srcs[j], reversed, tid, start, cost);
            NodesBelowShrink(|transitions|, visited, src);
            results := DfsReverseLookup(src, tid, reversed + [tk], cost + transitionCost, visited + {src},
                                        rev, results, start);
          }
        }
      }
    }

    /** Every path from the root to a node carrying `tid` whose transitions all carry a
        cost for it, found by searching backwards from each such node
        (nondeterministic_trie.rs:696-720). */
    method GetReverseLookupResults(rev: ReverseNodes, revTranslations: ReverseTranslations, tid: nat)
      returns (results: seq<LookupResult>)
      requires ReverseOf(transitions, rev) && ReverseTranslationsOf(nodeTranslations, revTranslations)
      ensures forall i :: 0 <= i < |results| ==>
                results[i].translationId == tid && Walk(transitions, ROOT, results[i].transitions).Some?
                && (tid, results[i].cost) in CostsSingle(State(), Walk(transitions, ROOT, results[i].transitions).value, results[i].transitions)
    {
      results := [];
      var nodes := RevTranslationsAt(revTranslations, tid);
      ghost var owners: seq<nat> := [];
      for k := 0 to |nodes|
        invariant |owners| == |results|
        invariant forall i :: 0 <= i < |results| ==> owners[i] in nodes && ReverseResultSound(State(), tid, owners[i], results[i])
      {
        var node := nodes[k];
        assert Reverse<TransitionKey>([]) == [];
        ghost var before := results;
        results := DfsReverseLookup(node, tid, [], 0, {node}, rev, results, node);
        owners := owners + seq(|results| - |before|, _ => node);
      }
      forall i | 0 <= i < |results|
        ensures results[i].translationId == tid && Walk(transitions, ROOT, results[i].transitions).Some?
        ensures (tid, results[i].cost) in CostsSingle(State(), Walk(transitions, ROOT, results[i].transitions).value, results[i].transitions)
      {
        var n := owners[i];
        ReverseTranslationsMembers(nodeTranslations, revTranslations, tid, n);
        CostsSingleMembers(State(), n, results[i].transitions, tid, results[i].cost);
      }
    }

    /** Search backwards from `node` along transitions that carry a cost for `tid`,
        visiting each node once: every such transition is recorded under its (source,
        destination) pair and each node is appended to `order` after its search
        finishes (nondeterministic_trie.rs:821-863). */
    method DfsSubtrie(node: nat, tid: nat, visited0: set<nat>, rev: ReverseNodes,
                      recorded0: map<(nat, nat), seq<(Option<nat>, nat)>>, order0: seq<nat>)
      returns (visited: set<nat>, recorded: map<(nat, nat), seq<(Option<nat>, nat)>>, order: seq<nat>)
      requires Valid() && ReverseOf(transitions, rev)
      requires RecordedSound(transitions, transitionCosts, tid, recorded0)
      requires NoDup(order0) && forall v :: v in order0 ==> v in visited0
      ensures visited0 <= visited && node in visited
      ensures SearchState(visited, order, visited0, order0)
      ensures RecordedSound(transitions, transitionCosts, tid, recorded)
      decreases |NodesBelow(|transitions|) - visited0|, if node in visited0 then 0 else 2
    {
      visited, recorded, order := visited0, recorded0, order0;
      if node in visited {
        return;
      }
      visited := visited + {node};
      if node in rev {
        var byKey := rev[node];
        var keys := byKey.Keys;
        while keys != {}
          invariant keys <= byKey.Keys
          invariant visited0 + {node} <= visited
          invariant SearchState(visited, order, visited0 + {node}, order0)
          invariant RecordedSound(transitions, transitionCosts, tid, recorded)
          decreases keys
        {
          var key :| key in keys;
          keys := keys - {key};
          visited, recorded, order := DfsSubtrieSources(node, key, byKey[key], tid, visited, rev, recorded, order,
                                                        visited0, order0);
        }
      }
      order := order + [node];
      assert forall i :: 0 <= i < |order| - 1 ==> order[i] != node;
    }

    /** The loop over the (source, index) pairs of one key in `DfsSubtrie`. */
    method DfsSubtrieSources(node: nat, key: Option<nat>, srcs: seq<(nat, nat)>, tid: nat, visited1: set<nat>,
                             rev: ReverseNodes, recorded1: map<(nat, nat), seq<(Option<nat>, nat)>>, order1: seq<nat>,
                             ghost visited0: set<nat>, ghost order0: seq<nat>)
      returns (visited: set<nat>, recorded: map<(nat, nat), seq<(Option<nat>, nat)>>, order: seq<nat>)
      requires Valid() && ReverseOf(transitions, rev)
      requires node in rev && key in rev[node] && srcs == rev[node][key] && node !in visited0
      requires visited0 + {node} <= visited1 && SearchState(visited1, order1, visited0 + {node}, order0)
      requires RecordedSound(transitions, transitionCosts, tid, recorded1)
      ensures visited1 <= visited && SearchState(visited, order, visited0 + {node}, order0)
      ensures RecordedSound(transitions, transitionCosts, tid, recorded)
      decreases |NodesBelow(|transitions|) - visited0|, 1
    {
      visited, recorded, order := visited1, recorded1, order1;
      for j := 0 to |srcs|
        invariant visited1 <= visited && SearchState(visited, order, visited0 + {node}, order0)
        invariant RecordedSound(transitions, transitionCosts, tid, recorded)
      {
        var src := srcs[j].0;
        var index := srcs[j].1;
        if TransitionHasCostForTranslation(src, key, index, tid) {
          assert srcs[j] in RevAt(rev, node, key);
          ReverseEntryInRange(State(), rev, node, key, srcs[j]);
          VisitedMeasure(|transitions|, visited0, visited, node);
          ghost var mid, midOrder := visited, order;
          visited, recorded, order := DfsSubtrie(src, tid, visited, rev, recorded, order);
          SearchStateTrans(mid, midOrder, visited, order, visited0 + {node}, order0);
          recorded := Record(recorded, src, node, key, index);
        }
      }
    }

    /** The part of the trie that leads to the nodes carrying `tid`: the nodes found
        by the backward search in the order it finished them, the transitions it
        recorded with their costs, and the nodes carrying the translation; None when
        no node carries it (nondeterministic_trie.rs:778-819). */
    method GetSubtrieData(rev: ReverseNodes, revTranslations: ReverseTranslations, tid: nat)
      returns (data: Option<SubtrieData>)
      requires Valid() && ReverseOf(transitions, rev)
      ensures data.None? <==> tid !in revTranslations
      ensures data.Some? ==> data.value.translationNodes == revTranslations[tid]
      ensures data.Some? ==> NoDup(data.value.nodes) && forall n :: n in revTranslations[tid] ==> n in data.value.nodes
      ensures data.Some? ==> forall i :: 0 <= i < |data.value.transitions| ==>
                               SubtrieTransitionSound(State(), tid, data.value.transitions[i])
    {
      if tid !in revTranslations {
        return None;
      }
      var visited: set<nat> := {};
      var recorded: map<(nat, nat), seq<(Option<nat>, nat)>> := map[];
      var order: seq<nat> := [];
      var nodes := revTranslations[tid];
      for k := 0 to |nodes|
        invariant SearchState(visited, order, {}, [])
        invariant forall j :: 0 <= j < k ==> nodes[j] in visited
        invariant RecordedSound(transitions, transitionCosts, tid, recorded)
      {
        ghost var mid, midOrder := visited, order;
        visited, recorded, order := DfsSubtrie(nodes[k], tid, visited, rev, recorded, order);
        SearchStateTrans(mid, midOrder, visited, order, {}, []);
      }
      var subtrieTransitions := SubtrieTransitions(recorded, tid);
      return Some(SubtrieData(order, subtrieTransitions, nodes));
    }

    /** One subtrie transition per recorded (source, destination) pair, in hash order,
        each key info with its stored cost (nondeterministic_trie.rs:800-813). */
    method SubtrieTransitions(recorded: map<(nat, nat), seq<(Option<nat>, nat)>>, tid: nat)
      returns (result: seq<SubtrieTransition>)
      requires RecordedSound(transitions, transitionCosts, tid, recorded)
      ensures forall sd :: sd in recorded <==> exists i :: 0 <= i < |result| && (result[i].src, result[i].dst) == sd
      ensures forall i :: 0 <= i < |result| ==> SubtrieTransitionSound(State(), tid, result[i])
    {
      result := [];
      var pairs := recorded.Keys;
      while pairs != {}
        invariant pairs <= recorded.Keys
        invariant forall sd :: sd in recorded && sd !in pairs <==>
                    exists i :: 0 <= i < |result| && (result[i].src, result[i].dst) == sd
        invariant forall i :: 0 <= i < |result| ==> SubtrieTransitionSound(State(), tid, result[i])
        decreases pairs
      {
        var sd :| sd in pairs;
        var list := recorded[sd];
        var infos: seq<(Option<nat>, nat, int)> := [];
        for j := 0 to |list|
          invariant |infos| == j
          invariant forall i :: 0 <= i < j ==>
                      var tk := TransitionKey(sd.0, list[i].0, list[i].1);
                      infos[i] == (list[i].0, list[i].1, transitionCosts[TransitionCostKey(tk, tid)])
        {
          var ck := TransitionCostKey(TransitionKey(sd.0, list[j].0, list[j].1), tid);
          var cost := if ck in transitionCosts then transitionCosts[ck] else 0;
          infos := infos + [(list[j].0, list[j].1, cost)];
        }
        ghost var before := result;
        result := result + [SubtrieTransition(sd.0, sd.1, infos)];
        pairs := pairs - {sd};
        forall x | x in recorded && x !in pairs
          ensures exists i :: 0 <= i < |result| && (result[i].src, result[i].dst) == x
        {
          if x == sd {
            assert (result[|before|].src, result[|before|].dst) == x;
          } else {
            var i :| 0 <= i < |before| && (before[i].src, before[i].dst) == x;
            assert result[i] == before[i];
          }
        }
      }
    }

    /** For every translation, the nodes carrying it (nondeterministic_trie.rs:680-694). */
    method ReversedTranslations() returns (rev: ReverseTranslations)
      ensures ReverseTranslationsOf(nodeTranslations, rev)
    {
      rev := map[];
      var nodes := nodeTranslations.Keys;
      while nodes != {}
        invariant nodes <= nodeTranslations.Keys
        invariant forall tid :: tid in rev ==> rev[tid] != []
        invariant forall tid, node :: multiset(RevTranslationsAt(rev, tid))[node]
                    == (if node in nodeTranslations && node !in nodes then multiset(nodeTranslations[node])[tid] else 0)
        decreases nodes
      {
        var node :| node in nodes;
        rev := AddNode(rev, node, nodeTranslations[node]);
        nodes := nodes - {node};
      }
    }
  }

  /** Every (source, key chain) pair, sources outermost, built by two nested loops
      (nondeterministic_trie.rs:413-418). */
  method BuildPairs<X(==), C(==)>(srcs: seq<X>, chains: seq<C>) returns (pairs: seq<(X, C)>)
    ensures pairs == Pairs(srcs, chains)
  {
    pairs := [];
    for a := 0 to |srcs|
      invariant pairs == Pairs(srcs[..a], chains)
    {
      pairs := AppendRow(pairs, srcs[a], chains);
      PairsSnoc(srcs[..a], srcs[a], chains);
      assert srcs[..a + 1] == srcs[..a] + [srcs[a]];
    }
    assert srcs[..|srcs|] == srcs;
  }

  /** The inner loop of the pair building: `x` with each chain in order. */
  method AppendRow<X, C>(front: seq<(X, C)>, x: X, chains: seq<C>) returns (pairs: seq<(X, C)>)
    ensures pairs == front + Row(x, chains)
  {
    pairs := front;
    for b := 0 to |chains|
      invariant pairs == front + Row(x, chains[..b])
    {
      RowSnoc(x, chains[..b], chains[b]);
      assert chains[..b + 1] == chains[..b] + [chains[b]];
      AppendAssoc(front, Row(x, chains[..b]), [(x, chains[b])]);
      pairs := pairs + [(x, chains[b])];
    }
    assert chains[..|chains|] == chains;
  }

  /** Insert each result in turn, keeping per translation the first with the strictly
      lowest cost (the body of the loop of nondeterministic_trie.rs:614-630). */
  method InsertAllMin(m: map<nat, LookupResult>, rs: seq<LookupResult>) returns (best: map<nat, LookupResult>)
    ensures best == FoldMin(m, rs)
  {
    best := m;
    for j := 0 to |rs|
      invariant best == FoldMin(m, rs[..j])
    {
      var r := rs[j];
      var update := r.translationId !in best || r.cost < best[r.translationId].cost;
      if update {
        best := best[r.translationId := r];
      }
      assert rs[..j + 1][..j] == rs[..j] && rs[..j + 1][j] == r;
    }
    assert rs[..|rs|] == rs;
  }

  /** Record the transitions under `key` out of `src`, index by index (the innermost
      loop of nondeterministic_trie.rs:664-673). */
  method AddHits(t: seq<Edges>, src: nat, key: Option<nat>, rev0: ReverseNodes) returns (rev: ReverseNodes)
    requires src < |t| && NoEmptyRev(rev0)
    ensures NoEmptyRev(rev)
    ensures forall d, k :: RevAt(rev, d, k) ==
              RevAt(rev0, d, k) + (if k == key then Hits(t, src, key, d, |Targets(t, src, key)|) else [])
  {
    var dsts := if key in t[src] then t[src][key] else [];
    assert dsts == Targets(t, src, key);
    rev := rev0;
    for idx := 0 to |dsts|
      invariant rev == PushedHits(t, src, key, rev0, idx)
    {
      rev := PushRev(rev, dsts[idx], key, (src, idx));
    }
    PushedHitsNoEmpty(t, src, key, rev0, |dsts|);
    forall d, k
      ensures RevAt(rev, d, k) == RevAt(rev0, d, k) + (if k == key then Hits(t, src, key, d, |dsts|) else [])
    {
      PushedHitsAt(t, src, key, rev0, |dsts|, d, k);
    }
  }

  /** The reverse map after recording the first `j` transitions under `key` out of `src`. */
  function PushedHits(t: seq<Edges>, src: nat, key: Option<nat>, rev0: ReverseNodes, j: nat): ReverseNodes
    requires src < |t| && j <= |Targets(t, src, key)|
    decreases j
  {
    if j == 0 then rev0
    else PushRev(PushedHits(t, src, key, rev0, j - 1), Targets(t, src, key)[j - 1], key, (src, j - 1))
  }

  /** Recording the first `j` transitions adds their hits under `key` and nothing else. */
  lemma {:induction false} PushedHitsAt(t: seq<Edges>, src: nat, key: Option<nat>, rev0: ReverseNodes, j: nat,
                                        d: nat, k: Option<nat>)
    requires src < |t| && j <= |Targets(t, src, key)|
    ensures RevAt(PushedHits(t, src, key, rev0, j), d, k) ==
              RevAt(rev0, d, k) + (if k == key then Hits(t, src, key, d, j) else [])
    decreases j
  {
    if j == 0 {
      assert RevAt(rev0, d, k) + [] == RevAt(rev0, d, k);
    } else {
      PushedHitsAt(t, src, key, rev0, j - 1, d, k);
      var prev := PushedHits(t, src, key, rev0, j - 1);
      var dst := Targets(t, src, key)[j - 1];
      PushRevAt(prev, dst, key, (src, j - 1), d, k);
      if k == key {
        AppendAssoc(RevAt(rev0, d, k), Hits(t, src, key, d, j - 1), if d == dst then [(src, j - 1)] else []);
      }
    }
  }

  /** Recording transitions stores no empty entry. */
  lemma {:induction false} PushedHitsNoEmpty(t: seq<Edges>, src: nat, key: Option<nat>, rev0: ReverseNodes, j: nat)
    requires src < |t| && j <= |Targets(t, src, key)| && NoEmptyRev(rev0)
    ensures NoEmptyRev(PushedHits(t, src, key, rev0, j))
    decreases j
  {
    if j > 0 {
      PushedHitsNoEmpty(t, src, key, rev0, j - 1);
    }
  }

  /** Record every transition out of `src`, key by key in hash order (the two inner
      loops of nondeterministic_trie.rs:663-674); each list only grows by the entries of
      its own key, so the order of the keys does not matter. */
  method AddNodeEdges(t: seq<Edges>, src: nat, rev0: ReverseNodes) returns (rev: ReverseNodes)
    requires src < |t| && NoEmptyRev(rev0)
    ensures NoEmptyRev(rev)
    ensures forall d, k :: RevAt(rev, d, k) == RevAt(rev0, d, k) + Hits(t, src, k, d, |Targets(t, src, k)|)
  {
    rev := rev0;
    var keys := t[src].Keys;
    ghost var done: set<Option<nat>> := {};
    while keys != {}
      invariant keys + done == t[src].Keys && keys !! done
      invariant NoEmptyRev(rev)
      invariant forall d, k :: RevAt(rev, d, k) ==
                  RevAt(rev0, d, k) + (if k in done then Hits(t, src, k, d, |Targets(t, src, k)|) else [])
      decreases keys
    {
      var key :| key in keys;
      rev := AddHits(t, src, key, rev);
      keys := keys - {key};
      done := done + {key};
    }
    forall d, k ensures RevAt(rev, d, k) == RevAt(rev0, d, k) + Hits(t, src, k, d, |Targets(t, src, k)|) {
      if k !in done {
        assert Targets(t, src, k) == [];
      }
    }
  }

  /** Record `node` under each of its translations (the inner loop of
      nondeterministic_trie.rs:683-690). */
  method AddNode(rev0: ReverseTranslations, node: nat, tids: seq<nat>) returns (rev: ReverseTranslations)
    requires forall tid :: tid in rev0 ==> rev0[tid] != []
    ensures forall tid :: tid in rev ==> rev[tid] != []
    ensures forall tid, n :: multiset(RevTranslationsAt(rev, tid))[n]
              == multiset(RevTranslationsAt(rev0, tid))[n] + (if n == node then multiset(tids)[tid] else 0)
  {
    rev := rev0;
    for j := 0 to |tids|
      invariant forall tid :: tid in rev ==> rev[tid] != []
      invariant forall tid, n :: multiset(RevTranslationsAt(rev, tid))[n]
                  == multiset(RevTranslationsAt(rev0, tid))[n] + (if n == node then multiset(tids[..j])[tid] else 0)
    {
      assert tids[..j + 1] == tids[..j] + [tids[j]];
      rev := rev[tids[j] := RevTranslationsAt(rev, tids[j]) + [node]];
    }
    assert tids[..|tids|] == tids;
  }

  /** Each key as a chain of its own. */
  function Singletons(keys: seq<Option<nat>>): (r: seq<seq<Option<nat>>>)
    ensures |r| == |keys| && forall i :: 0 <= i < |keys| ==> r[i] == [keys[i]]
  {
    seq(|keys|, i requires 0 <= i < |keys| => [keys[i]])
  }

  lemma {:induction false} PairsSnoc<X, C>(srcs: seq<X>, x: X, chains: seq<C>)
    ensures Pairs(srcs + [x], chains) == Pairs(srcs, chains) + Row(x, chains)
    decreases |srcs|
  {
    if |srcs| == 0 {
      assert Pairs([x], chains) == Row(x, chains) + Pairs([], chains);
    } else {
      assert (srcs + [x])[1..] == srcs[1..] + [x];
      PairsSnoc(srcs[1..], x, chains);
    }
  }
}
