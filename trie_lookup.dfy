/** The read-only queries of the nondeterministic trie: traversal with epsilon closure,
    path costs per translation, and the reverse (translation to paths) searches
    (plover_hatchery_lib_rs/src/trie/nondeterministic_trie.rs:472-892).  The Python trie
    (plover_hatchery/lib/trie/NondeterministicTrie.py) runs the same traversal with
    registered veto handlers; both are the functions below with a `Veto` argument. */
module TrieLookup {
  import opened Wrappers
  import opened Transition
  import opened TrieSpec

  /** Whether a transition may be taken from a path (all registered handlers agree). */
  type Veto = (TriePath, TransitionKey) -> bool

  /** The Rust trie has no handlers: every transition may be taken. */
  const AllowAll: Veto := (p: TriePath, tk: TransitionKey) => true

  /** All epsilon transitions of the trie. */
  function EpsilonKeys(t: seq<Edges>): set<TransitionKey> {
    set v, i | 0 <= v < |t| && 0 <= i < |Targets(t, v, None)| :: TransitionKey(v, None, i)
  }

  lemma EpsilonKeysShrink(t: seq<Edges>, visited: set<TransitionKey>, tk: TransitionKey)
    requires tk in EpsilonKeys(t) && tk !in visited
    ensures |EpsilonKeys(t) - (visited + {tk})| < |EpsilonKeys(t) - visited|
  {
    var a := EpsilonKeys(t) - visited;
    assert a == (EpsilonKeys(t) - (visited + {tk})) + {tk};
  }

  /** The epsilon closure of `p`: `p` itself, then for each epsilon transition out of its
      end in list order that is neither on the path already nor vetoed, the closure of
      the path extended by it
      (plover_hatchery_lib_rs/src/trie/nondeterministic_trie.rs:499-529,
      plover_hatchery/lib/trie/NondeterministicTrie.py:244-261). */
  function Closure(t: seq<Edges>, allow: Veto, p: TriePath, visited: set<TransitionKey>): (r: seq<TriePath>)
    requires AllEdgesOk(t) && p.dst < |t|
    ensures |r| >= 1 && r[0] == p
    decreases |EpsilonKeys(t) - visited|, 1
  {
    [p] + ClosureFrom(t, allow, p, visited, 0)
  }

  /** The closures reached through the epsilon transitions of `p.dst` from index `i` on. */
  function ClosureFrom(t: seq<Edges>, allow: Veto, p: TriePath, visited: set<TransitionKey>, i: nat): seq<TriePath>
    requires AllEdgesOk(t) && p.dst < |t| && i <= |Targets(t, p.dst, None)|
    decreases |EpsilonKeys(t) - visited|, 0, |Targets(t, p.dst, None)| - i
  {
    if i == |Targets(t, p.dst, None)| then []
    else
      var tk := TransitionKey(p.dst, None, i);
      var rest := ClosureFrom(t, allow, p, visited, i + 1);
      if tk in visited || !allow(p, tk) then rest
      else
        assert tk in EpsilonKeys(t);
        EpsilonKeysShrink(t, visited, tk);
        assert EdgesOk(t[p.dst], |t|) && Targets(t, p.dst, None)[i] in Targets(t, p.dst, None);
        Closure(t, allow, TriePath(Targets(t, p.dst, None)[i], p.transitions + [tk]), visited + {tk}) + rest
  }

  /** `q` extends `p` by epsilon transitions only: they form a walk from `p.dst` to
      `q.dst`, none of them is in `visited`, none is taken twice, and each was allowed
      from the path that precedes it. */
  predicate EpsilonExtension(t: seq<Edges>, allow: Veto, p: TriePath, q: TriePath, visited: set<TransitionKey>) {
    var n := |p.transitions|;
    n <= |q.transitions| && q.transitions[..n] == p.transitions
    && var ext := q.transitions[n..];
    Walk(t, p.dst, ext) == Some(q.dst)
    && NoDup(ext)
    && (forall i :: 0 <= i < |ext| ==> ext[i].keyId.None? && ext[i] !in visited)
    && (forall i :: 0 <= i < |ext| ==> allow(TriePath(ext[i].src, q.transitions[..n + i]), ext[i]))
  }

  /** Every path of the epsilon closure is an epsilon extension of the starting path. */
  lemma {:induction false} ClosureSound(t: seq<Edges>, allow: Veto, p: TriePath, visited: set<TransitionKey>, q: TriePath)
    requires AllEdgesOk(t) && p.dst < |t|
    requires q in Closure(t, allow, p, visited)
    ensures EpsilonExtension(t, allow, p, q, visited)
    decreases |EpsilonKeys(t) - visited|, 1
  {
    if q == p {
      assert q.transitions[|p.transitions|..] == [];
    } else {
      ClosureFromSound(t, allow, p, visited, 0, q);
    }
  }

  lemma {:induction false} ClosureFromSound(t: seq<Edges>, allow: Veto, p: TriePath, visited: set<TransitionKey>, i: nat, q: TriePath)
    requires AllEdgesOk(t) && p.dst < |t| && i <= |Targets(t, p.dst, None)|
    requires q in ClosureFrom(t, allow, p, visited, i)
    ensures EpsilonExtension(t, allow, p, q, visited)
    decreases |EpsilonKeys(t) - visited|, 0, |Targets(t, p.dst, None)| - i
  {
    var tk := TransitionKey(p.dst, None, i);
    var rest := ClosureFrom(t, allow, p, visited, i + 1);
    if tk in visited || !allow(p, tk) || q in rest {
      ClosureFromSound(t, allow, p, visited, i + 1, q);
    } else {
      assert tk in EpsilonKeys(t);
      EpsilonKeysShrink(t, visited, tk);
      assert EdgesOk(t[p.dst], |t|) && Targets(t, p.dst, None)[i] in Targets(t, p.dst, None);
      var p2 := TriePath(Targets(t, p.dst, None)[i], p.transitions + [tk]);
      ClosureSound(t, allow, p2, visited + {tk}, q);
      ExtendByOne(t, allow, p, tk, p2, q, visited);
    }
  }

  /** An epsilon extension of `p` extended by one more allowed, unvisited epsilon
      transition in front is an epsilon extension of `p`. */
  lemma ExtendByOne(t: seq<Edges>, allow: Veto, p: TriePath, tk: TransitionKey, p2: TriePath, q: TriePath, visited: set<TransitionKey>)
    requires tk.src == p.dst && tk.keyId.None? && HasTransition(t, tk) && tk !in visited && allow(p, tk)
    requires p2 == TriePath(Dst(t, tk), p.transitions + [tk])
    requires EpsilonExtension(t, allow, p2, q, visited + {tk})
    ensures EpsilonExtension(t, allow, p, q, visited)
  {
    var n := |p.transitions|;
    var ext2 := q.transitions[n + 1..];
    var ext := q.transitions[n..];
    assert q.transitions[..n + 1] == p.transitions + [tk];
    assert q.transitions[..n] == p.transitions by {
      assert q.transitions[..n] == q.transitions[..n + 1][..n];
    }
    assert ext == [tk] + ext2;
    assert Walk(t, p.dst, ext) == Walk(t, Dst(t, tk), ext2);
    forall a, b | 0 <= a < b < |ext|
      ensures ext[a] != ext[b]
    {
      if a == 0 {
        assert ext[b] == ext2[b - 1];
      } else {
        assert ext[a] == ext2[a - 1] && ext[b] == ext2[b - 1];
      }
    }
    forall k | 0 <= k < |ext|
      ensures ext[k].keyId.None? && ext[k] !in visited
      ensures allow(TriePath(ext[k].src, q.transitions[..n + k]), ext[k])
    {
      if k == 0 {
        assert q.transitions[..n] == p.transitions;
      } else {
        assert ext[k] == ext2[k - 1];
        assert n + k == (n + 1) + (k - 1);
      }
    }
  }

  /** The single-key step of a traversal from one path: for every destination under
      `key` in list order that is allowed, the epsilon closure of the extended path. */
  function StepFrom(t: seq<Edges>, allow: Veto, p: TriePath, key: Option<nat>, i: nat): seq<TriePath>
    requires AllEdgesOk(t) && p.dst < |t| && i <= |Targets(t, p.dst, key)|
    decreases |Targets(t, p.dst, key)| - i
  {
    if i == |Targets(t, p.dst, key)| then []
    else
      var tk := TransitionKey(p.dst, key, i);
      var rest := StepFrom(t, allow, p, key, i + 1);
      if !allow(p, tk) then rest
      else
        assert EdgesOk(t[p.dst], |t|) && Targets(t, p.dst, key)[i] in Targets(t, p.dst, key);
        Closure(t, allow, TriePath(Targets(t, p.dst, key)[i], p.transitions + [tk]), {}) + rest
  }

  /** Every path ends at a node. */
  predicate PathsInRange(t: seq<Edges>, paths: seq<TriePath>) {
    forall k :: 0 <= k < |paths| ==> paths[k].dst < |t|
  }

  /** Follow `key` from every path, then take the epsilon closure, source paths first
      (plover_hatchery_lib_rs/src/trie/nondeterministic_trie.rs:472-496). */
  function Traverse(t: seq<Edges>, allow: Veto, paths: seq<TriePath>, key: Option<nat>): (r: seq<TriePath>)
    requires AllEdgesOk(t) && PathsInRange(t, paths)
    ensures PathsInRange(t, r)
    decreases |paths|
  {
    if |paths| == 0 then []
    else
      var here := StepFrom(t, allow, paths[0], key, 0);
      TraverseInRange(t, allow, paths[0], key, 0);
      here + Traverse(t, allow, paths[1..], key)
  }

  lemma {:induction false} TraverseInRange(t: seq<Edges>, allow: Veto, p: TriePath, key: Option<nat>, i: nat)
    requires AllEdgesOk(t) && p.dst < |t| && i <= |Targets(t, p.dst, key)|
    ensures PathsInRange(t, StepFrom(t, allow, p, key, i))
    decreases |Targets(t, p.dst, key)| - i
  {
    if i < |Targets(t, p.dst, key)| {
      TraverseInRange(t, allow, p, key, i + 1);
      var tk := TransitionKey(p.dst, key, i);
      if allow(p, tk) {
        assert EdgesOk(t[p.dst], |t|) && Targets(t, p.dst, key)[i] in Targets(t, p.dst, key);
        var p2 := TriePath(Targets(t, p.dst, key)[i], p.transitions + [tk]);
        var c := Closure(t, allow, p2, {});
        forall q | q in c ensures q.dst < |t| {
          ClosureSound(t, allow, p2, {}, q);
          WalkEndsInRange(t, p2.dst, q.transitions[|p2.transitions|..]);
        }
      }
    }
  }

  lemma {:induction false} WalkEndsInRange(t: seq<Edges>, start: nat, ts: seq<TransitionKey>)
    requires AllEdgesOk(t) && start < |t| && Walk(t, start, ts).Some?
    ensures Walk(t, start, ts).value < |t|
    decreases |ts|
  {
    if |ts| > 0 {
      var tk := ts[0];
      assert EdgesOk(t[tk.src], |t|);
      assert Dst(t, tk) in Targets(t, tk.src, tk.keyId);
      WalkEndsInRange(t, Dst(t, tk), ts[1..]);
    }
  }

  /** `q` is `p` followed by one allowed transition under `key` and then an epsilon
      extension. */
  predicate KeyStep(t: seq<Edges>, allow: Veto, p: TriePath, key: Option<nat>, q: TriePath) {
    var n := |p.transitions|;
    n < |q.transitions| && q.transitions[..n] == p.transitions
    && var tk := q.transitions[n];
    tk.src == p.dst && tk.keyId == key && HasTransition(t, tk) && allow(p, tk)
    && EpsilonExtension(t, allow, TriePath(Dst(t, tk), p.transitions + [tk]), q, {})
  }

  /** Every path a traversal yields is one key step from one of the source paths. */
  lemma {:induction false} TraverseSound(t: seq<Edges>, allow: Veto, paths: seq<TriePath>, key: Option<nat>, q: TriePath)
    requires AllEdgesOk(t) && PathsInRange(t, paths)
    requires q in Traverse(t, allow, paths, key)
    ensures exists k :: 0 <= k < |paths| && KeyStep(t, allow, paths[k], key, q)
    decreases |paths|
  {
    var here := StepFrom(t, allow, paths[0], key, 0);
    if q in here {
      StepFromSound(t, allow, paths[0], key, 0, q);
      assert KeyStep(t, allow, paths[0], key, q);
    } else {
      TraverseSound(t, allow, paths[1..], key, q);
      var k :| 0 <= k < |paths[1..]| && KeyStep(t, allow, paths[1..][k], key, q);
      assert paths[1..][k] == paths[k + 1];
    }
  }

  lemma {:induction false} StepFromSound(t: seq<Edges>, allow: Veto, p: TriePath, key: Option<nat>, i: nat, q: TriePath)
    requires AllEdgesOk(t) && p.dst < |t| && i <= |Targets(t, p.dst, key)|
    requires q in StepFrom(t, allow, p, key, i)
    ensures KeyStep(t, allow, p, key, q)
    decreases |Targets(t, p.dst, key)| - i
  {
    var tk := TransitionKey(p.dst, key, i);
    var rest := StepFrom(t, allow, p, key, i + 1);
    if !allow(p, tk) || q in rest {
      StepFromSound(t, allow, p, key, i + 1, q);
    } else {
      assert EdgesOk(t[p.dst], |t|) && Targets(t, p.dst, key)[i] in Targets(t, p.dst, key);
      var p2 := TriePath(Targets(t, p.dst, key)[i], p.transitions + [tk]);
      ClosureSound(t, allow, p2, {}, q);
      var n := |p.transitions|;
      assert q.transitions[..n + 1] == p.transitions + [tk];
      assert q.transitions[..n] == q.transitions[..n + 1][..n];
      assert q.transitions[n] == q.transitions[..n + 1][n];
    }
  }

  /** Traverse one key after another
      (plover_hatchery_lib_rs/src/trie/nondeterministic_trie.rs:532-542). */
  function TraverseChain(t: seq<Edges>, allow: Veto, paths: seq<TriePath>, keys: seq<Option<nat>>): (r: seq<TriePath>)
    requires AllEdgesOk(t) && PathsInRange(t, paths)
    ensures PathsInRange(t, r)
    decreases |keys|
  {
    if |keys| == 0 then paths
    else TraverseChain(t, allow, Traverse(t, allow, paths, keys[0]), keys[1..])
  }

  /** `q` extends `p` by a walk that ends where `q` ends. */
  predicate WalkExtension(t: seq<Edges>, p: TriePath, q: TriePath) {
    |p.transitions| <= |q.transitions| && q.transitions[..|p.transitions|] == p.transitions
    && Walk(t, p.dst, q.transitions[|p.transitions|..]) == Some(q.dst)
  }

  /** Every path a chain traversal yields extends one of the source paths by a walk
      that takes at least one transition per key. */
  lemma {:induction false} TraverseChainSound(t: seq<Edges>, allow: Veto, paths: seq<TriePath>, keys: seq<Option<nat>>, q: TriePath)
    requires AllEdgesOk(t) && PathsInRange(t, paths)
    requires q in TraverseChain(t, allow, paths, keys)
    ensures exists k :: 0 <= k < |paths| && WalkExtension(t, paths[k], q)
              && |q.transitions| >= |paths[k].transitions| + |keys|
    decreases |keys|
  {
    if |keys| == 0 {
      var k :| 0 <= k < |paths| && paths[k] == q;
      assert q.transitions[|q.transitions|..] == [];
      assert WalkExtension(t, paths[k], q);
    } else {
      var mid := Traverse(t, allow, paths, keys[0]);
      TraverseChainSound(t, allow, mid, keys[1..], q);
      var j :| 0 <= j < |mid| && WalkExtension(t, mid[j], q) && |q.transitions| >= |mid[j].transitions| + |keys| - 1;
      TraverseSound(t, allow, paths, keys[0], mid[j]);
      var k :| 0 <= k < |paths| && KeyStep(t, allow, paths[k], keys[0], mid[j]);
      KeyStepWalks(t, allow, paths[k], keys[0], mid[j]);
      WalkExtensionTrans(t, paths[k], mid[j], q);
    }
  }

  /** A key step extends its source path by a walk of at least one transition. */
  lemma KeyStepWalks(t: seq<Edges>, allow: Veto, p: TriePath, key: Option<nat>, m: TriePath)
    requires KeyStep(t, allow, p, key, m)
    ensures |p.transitions| < |m.transitions| && m.transitions[..|p.transitions|] == p.transitions
    ensures Walk(t, p.dst, m.transitions[|p.transitions|..]) == Some(m.dst)
  {
    var n := |p.transitions|;
    var tk := m.transitions[n];
    var p2 := TriePath(Dst(t, tk), p.transitions + [tk]);
    assert m.transitions[n..][1..] == m.transitions[n + 1..];
    assert m.transitions[n + 1..] == m.transitions[|p2.transitions|..];
  }

  lemma WalkExtensionTrans(t: seq<Edges>, p: TriePath, m: TriePath, q: TriePath)
    requires |p.transitions| < |m.transitions| && m.transitions[..|p.transitions|] == p.transitions
    requires Walk(t, p.dst, m.transitions[|p.transitions|..]) == Some(m.dst)
    requires WalkExtension(t, m, q)
    ensures WalkExtension(t, p, q) && |q.transitions| >= |p.transitions| + 1
  {
    var n := |p.transitions|;
    var a := m.transitions[n..];
    var b := q.transitions[|m.transitions|..];
    assert q.transitions[..n] == q.transitions[..|m.transitions|][..n];
    assert q.transitions[n..] == a + b;
    WalkAppend(t, p.dst, a, m.dst, b);
  }

  /** A translation found along a path, with the summed cost of the path's transitions. */
  datatype LookupResult = LookupResult(translationId: nat, cost: int, transitions: seq<TransitionKey>)

  /** Every transition of `ts` has a cost for translation `tid`. */
  predicate AllCosted(costs: map<TransitionCostKey, int>, ts: seq<TransitionKey>, tid: nat) {
    forall i :: 0 <= i < |ts| ==> TransitionCostKey(ts[i], tid) in costs
  }

  /** The sum of the costs of `ts` for `tid`, front to back. */
  function SumCosts(costs: map<TransitionCostKey, int>, ts: seq<TransitionKey>, tid: nat): int
    requires AllCosted(costs, ts, tid)
  {
    if |ts| == 0 then 0
    else costs[TransitionCostKey(ts[0], tid)] + SumCosts(costs, ts[1..], tid)
  }

  /** The inner loop of the single-node lookup: add up the costs transition by
      transition and give up at the first one without a cost for `tid`
      (plover_hatchery_lib_rs/src/trie/nondeterministic_trie.rs:558-569). */
  function PathCost(costs: map<TransitionCostKey, int>, ts: seq<TransitionKey>, tid: nat): (r: Option<int>)
    ensures r.Some? <==> AllCosted(costs, ts, tid)
    decreases |ts|
  {
    if |ts| == 0 then Some(0)
    else
      var last := ts[|ts| - 1];
      var front := PathCost(costs, ts[..|ts| - 1], tid);
      var ck := TransitionCostKey(last, tid);
      if front.None? || ck !in costs then
        assert front.None? ==> !AllCosted(costs, ts[..|ts| - 1], tid);
        None
      else Some(front.value + costs[ck])
  }

  lemma {:induction false} SumCostsSnoc(costs: map<TransitionCostKey, int>, ts: seq<TransitionKey>, tk: TransitionKey, tid: nat)
    requires AllCosted(costs, ts + [tk], tid)
    ensures AllCosted(costs, ts, tid) && TransitionCostKey(tk, tid) in costs
    ensures SumCosts(costs, ts + [tk], tid) == SumCosts(costs, ts, tid) + costs[TransitionCostKey(tk, tid)]
    decreases |ts|
  {
    assert forall i :: 0 <= i < |ts| ==> (ts + [tk])[i] == ts[i];
    assert (ts + [tk])[|ts|] == tk;
    if |ts| > 0 {
      assert (ts + [tk])[1..] == ts[1..] + [tk];
      assert (ts + [tk])[0] == ts[0];
      SumCostsSnoc(costs, ts[1..], tk, tid);
    }
  }

  /** The accumulated cost is the sum of the path's transition costs. */
  lemma {:induction false} PathCostIsSum(costs: map<TransitionCostKey, int>, ts: seq<TransitionKey>, tid: nat)
    requires AllCosted(costs, ts, tid)
    ensures PathCost(costs, ts, tid) == Some(SumCosts(costs, ts, tid))
    decreases |ts|
  {
    if |ts| > 0 {
      var front := ts[..|ts| - 1];
      assert ts == front + [ts[|ts| - 1]];
      SumCostsSnoc(costs, front, ts[|ts| - 1], tid);
      PathCostIsSum(costs, front, tid);
    }
  }

  /** The translations of `node` for which the path `ts` is fully costed, each with its
      summed cost, in the order of the node's translation list
      (plover_hatchery_lib_rs/src/trie/nondeterministic_trie.rs:545-576). */
  function CostsSingle(s: TrieState, node: nat, ts: seq<TransitionKey>): seq<(nat, int)> {
    if node in s.nodeTranslations then CostsFor(s.costs, s.nodeTranslations[node], ts) else []
  }

  function CostsFor(costs: map<TransitionCostKey, int>, tids: seq<nat>, ts: seq<TransitionKey>): seq<(nat, int)>
    decreases |tids|
  {
    if |tids| == 0 then []
    else
      var front := CostsFor(costs, tids[..|tids| - 1], ts);
      var pc := PathCost(costs, ts, tids[|tids| - 1]);
      if pc.Some? then front + [(tids[|tids| - 1], pc.value)] else front
  }

  /** A pair is reported exactly when its translation is listed at the node and every
      transition of the path has a cost for it, and the reported cost is their sum. */
  lemma {:induction false} CostsForMembers(costs: map<TransitionCostKey, int>, tids: seq<nat>, ts: seq<TransitionKey>, tid: nat, c: int)
    ensures (tid, c) in CostsFor(costs, tids, ts) <==>
              tid in tids && AllCosted(costs, ts, tid) && c == SumCosts(costs, ts, tid)
    decreases |tids|
  {
    if |tids| > 0 {
      var front := tids[..|tids| - 1];
      assert tids == front + [tids[|tids| - 1]];
      CostsForMembers(costs, front, ts, tid, c);
      if AllCosted(costs, ts, tid) {
        PathCostIsSum(costs, ts, tid);
      }
      if AllCosted(costs, ts, tids[|tids| - 1]) {
        PathCostIsSum(costs, ts, tids[|tids| - 1]);
      }
    }
  }

  lemma CostsSingleMembers(s: TrieState, node: nat, ts: seq<TransitionKey>, tid: nat, c: int)
    ensures (tid, c) in CostsSingle(s, node, ts) <==>
              tid in TranslationsAt(s, node) && AllCosted(s.costs, ts, tid) && c == SumCosts(s.costs, ts, tid)
  {
    if node in s.nodeTranslations {
      CostsForMembers(s.costs, s.nodeTranslations[node], ts, tid, c);
    }
  }

  /** All lookup results of the paths, path by path
      (plover_hatchery_lib_rs/src/trie/nondeterministic_trie.rs:579-590). */
  function Costs(s: TrieState, paths: seq<TriePath>): seq<LookupResult>
    decreases |paths|
  {
    if |paths| == 0 then []
    else
      var p := paths[|paths| - 1];
      Costs(s, paths[..|paths| - 1]) + ToResults(CostsSingle(s, p.dst, p.transitions), p.transitions)
  }

  function ToResults(pairs: seq<(nat, int)>, ts: seq<TransitionKey>): (r: seq<LookupResult>)
    ensures |r| == |pairs|
    ensures forall i :: 0 <= i < |r| ==> r[i] == LookupResult(pairs[i].0, pairs[i].1, ts)
  {
    seq(|pairs|, i requires 0 <= i < |pairs| => LookupResult(pairs[i].0, pairs[i].1, ts))
  }

  /** A result is reported for a path exactly when its translation sits at the path's
      end and the path is fully costed for it, with the summed cost. */
  lemma {:induction false} CostsMembers(s: TrieState, paths: seq<TriePath>, r: LookupResult)
    ensures r in Costs(s, paths) <==>
              exists k :: 0 <= k < |paths| && r.transitions == paths[k].transitions
                && r.translationId in TranslationsAt(s, paths[k].dst)
                && AllCosted(s.costs, r.transitions, r.translationId)
                && r.cost == SumCosts(s.costs, r.transitions, r.translationId)
    decreases |paths|
  {
    if |paths| > 0 {
      var front := paths[..|paths| - 1];
      var p := paths[|paths| - 1];
      CostsMembers(s, front, r);
      CostsSingleMembers(s, p.dst, p.transitions, r.translationId, r.cost);
      var here := ToResults(CostsSingle(s, p.dst, p.transitions), p.transitions);
      assert r in here <==> r.transitions == p.transitions && (r.translationId, r.cost) in CostsSingle(s, p.dst, p.transitions) by {
        if r in here {
          var i :| 0 <= i < |here| && here[i] == r;
        }
        if r.transitions == p.transitions && (r.translationId, r.cost) in CostsSingle(s, p.dst, p.transitions) {
          var pairs := CostsSingle(s, p.dst, p.transitions);
          var i :| 0 <= i < |pairs| && pairs[i] == (r.translationId, r.cost);
          assert here[i] == r;
        }
      }
      forall k | 0 <= k < |front| ensures front[k] == paths[k] { }
      if r !in Costs(s, paths) {
        assert r !in here;
      }
    }
  }

  /** Keep, per translation, the first result with the strictly lowest cost
      (plover_hatchery_lib_rs/src/trie/nondeterministic_trie.rs:608-633). */
  function InsertMin(m: map<nat, LookupResult>, r: LookupResult): map<nat, LookupResult> {
    if r.translationId !in m || r.cost < m[r.translationId].cost then m[r.translationId := r] else m
  }

  function FoldMin(m: map<nat, LookupResult>, rs: seq<LookupResult>): map<nat, LookupResult>
    decreases |rs|
  {
    if |rs| == 0 then m else InsertMin(FoldMin(m, rs[..|rs| - 1]), rs[|rs| - 1])
  }

  /** Folding a concatenation folds the second part over the fold of the first. */
  lemma {:induction false} FoldMinAppend(m: map<nat, LookupResult>, a: seq<LookupResult>, b: seq<LookupResult>)
    ensures FoldMin(m, a + b) == FoldMin(FoldMin(m, a), b)
    decreases |b|
  {
    if |b| == 0 {
      assert a + b == a;
    } else {
      assert (a + b)[..|a + b| - 1] == a + b[..|b| - 1];
      assert (a + b)[|a + b| - 1] == b[|b| - 1];
      FoldMinAppend(m, a, b[..|b| - 1]);
    }
  }

  /** Some result is for `tid`. */
  ghost predicate Occurs(rs: seq<LookupResult>, tid: nat) {
    exists i :: 0 <= i < |rs| && rs[i].translationId == tid
  }

  /** `rs[i]` has the lowest cost among the results for its translation, and every
      earlier one for that translation costs strictly more. */
  predicate FirstMinAt(rs: seq<LookupResult>, i: int) {
    0 <= i < |rs|
    && (forall j :: 0 <= j < i && rs[j].translationId == rs[i].translationId ==> rs[j].cost > rs[i].cost)
    && (forall j :: i < j < |rs| && rs[j].translationId == rs[i].translationId ==> rs[j].cost >= rs[i].cost)
  }

  /** The fold keeps, for each translation that occurs, the first of its results with
      the lowest cost, and nothing for the others. */
  ghost predicate KeepsFirstMin(m: map<nat, LookupResult>, rs: seq<LookupResult>) {
    (forall tid :: tid in m <==> Occurs(rs, tid))
    && (forall tid :: tid in m ==> m[tid].translationId == tid && exists i :: FirstMinAt(rs, i) && rs[i] == m[tid])
  }

  lemma FirstMinExtend(front: seq<LookupResult>, last: LookupResult, i: nat)
    requires FirstMinAt(front, i)
    requires last.translationId != front[i].translationId || last.cost >= front[i].cost
    ensures FirstMinAt(front + [last], i) && (front + [last])[i] == front[i]
  {
    var rs := front + [last];
    forall j | 0 <= j < |front| ensures rs[j] == front[j] { }
  }

  lemma FirstMinLast(front: seq<LookupResult>, last: LookupResult)
    requires forall j :: 0 <= j < |front| && front[j].translationId == last.translationId ==> front[j].cost > last.cost
    ensures FirstMinAt(front + [last], |front|)
  {
    var rs := front + [last];
    forall j | 0 <= j < |front| ensures rs[j] == front[j] { }
  }

  lemma {:induction false} FoldMinStep(m0: map<nat, LookupResult>, front: seq<LookupResult>, last: LookupResult)
    requires KeepsFirstMin(m0, front)
    ensures KeepsFirstMin(InsertMin(m0, last), front + [last])
  {
    var rs := front + [last];
    var m := InsertMin(m0, last);
    var t := last.translationId;
    forall j | 0 <= j < |front| ensures rs[j] == front[j] { }
    forall tid ensures tid in m <==> Occurs(rs, tid) {
      if Occurs(rs, tid) && tid != t {
        var k :| 0 <= k < |rs| && rs[k].translationId == tid;
        assert front[k].translationId == tid;
      }
      if tid in m && tid != t {
        var k :| 0 <= k < |front| && front[k].translationId == tid;
        assert rs[k].translationId == tid;
      }
      if tid == t {
        assert rs[|front|].translationId == tid;
      }
    }
    forall tid | tid in m ensures m[tid].translationId == tid && exists i :: FirstMinAt(rs, i) && rs[i] == m[tid] {
      if tid == t && (t !in m0 || last.cost < m0[t].cost) {
        forall j | 0 <= j < |front| && front[j].translationId == t ensures front[j].cost > last.cost {
          assert Occurs(front, t);
          var i :| FirstMinAt(front, i) && front[i] == m0[t];
        }
        FirstMinLast(front, last);
        assert rs[|front|] == m[tid];
      } else {
        var i :| FirstMinAt(front, i) && front[i] == m0[tid];
        FirstMinExtend(front, last, i);
      }
    }
  }

  lemma {:induction false} FoldMinKeepsFirstMin(rs: seq<LookupResult>)
    ensures KeepsFirstMin(FoldMin(map[], rs), rs)
    decreases |rs|
  {
    if |rs| > 0 {
      var front := rs[..|rs| - 1];
      var last := rs[|rs| - 1];
      assert front + [last] == rs;
      assert FoldMin(map[], rs) == InsertMin(FoldMin(map[], front), last);
      FoldMinKeepsFirstMin(front);
      FoldMinStep(FoldMin(map[], front), front, last);
    }
  }

  /** The translations of the paths with their minimum costs
      (plover_hatchery_lib_rs/src/trie/nondeterministic_trie.rs:608-633); the Rust
      version returns the values of this map in hash order. */
  function MinCosts(s: TrieState, paths: seq<TriePath>): map<nat, LookupResult> {
    FoldMin(map[], Costs(s, paths))
  }

  /** For each destination node and key, the (source, index) pairs of the transitions
      that lead there (plover_hatchery_lib_rs/src/trie/nondeterministic_trie.rs:60). */
  type ReverseNodes = map<nat, map<Option<nat>, seq<(nat, nat)>>>

  /** For each translation, the nodes carrying it. */
  type ReverseTranslations = map<nat, seq<nat>>

  /** The (source, index) pairs under `dst` and `key`, empty when there is no entry. */
  function RevAt(rev: ReverseNodes, dst: nat, key: Option<nat>): seq<(nat, nat)> {
    if dst in rev && key in rev[dst] then rev[dst][key] else []
  }

  /** The transitions under `key` among the first `j` of node `src` that lead to `dst`,
      in index order. */
  function Hits(t: seq<Edges>, src: nat, key: Option<nat>, dst: nat, j: nat): seq<(nat, nat)>
    requires src < |t| && j <= |Targets(t, src, key)|
  {
    if j == 0 then []
    else Hits(t, src, key, dst, j - 1) + (if Targets(t, src, key)[j - 1] == dst then [(src, j - 1)] else [])
  }

  /** The transitions under `key` from the nodes below `v` that lead to `dst`, by source
      and then by index: the order in which the reverse map collects them. */
  function Entries(t: seq<Edges>, key: Option<nat>, dst: nat, v: nat): seq<(nat, nat)>
    requires v <= |t|
  {
    if v == 0 then []
    else Entries(t, key, dst, v - 1) + Hits(t, v - 1, key, dst, |Targets(t, v - 1, key)|)
  }

  lemma {:induction false} HitsMembers(t: seq<Edges>, src: nat, key: Option<nat>, dst: nat, j: nat, e: (nat, nat))
    requires src < |t| && j <= |Targets(t, src, key)|
    ensures e in Hits(t, src, key, dst, j) <==> e.0 == src && e.1 < j && Targets(t, src, key)[e.1] == dst
    decreases j
  {
    if j > 0 {
      HitsMembers(t, src, key, dst, j - 1, e);
    }
  }

  /** An entry is collected exactly when it names a transition from a node below `v`
      under `key` that leads to `dst`. */
  lemma {:induction false} EntriesMembers(t: seq<Edges>, key: Option<nat>, dst: nat, v: nat, e: (nat, nat))
    requires v <= |t|
    ensures e in Entries(t, key, dst, v) <==>
              e.0 < v && HasTransition(t, TransitionKey(e.0, key, e.1)) && Dst(t, TransitionKey(e.0, key, e.1)) == dst
    decreases v
  {
    if v > 0 {
      EntriesMembers(t, key, dst, v - 1, e);
      HitsMembers(t, v - 1, key, dst, |Targets(t, v - 1, key)|, e);
    }
  }

  /** `rev` is the reverse of the edges `t`: every list is exactly the collected
      entries, and no empty list or empty inner map is stored. */
  ghost predicate ReverseOf(t: seq<Edges>, rev: ReverseNodes) {
    (forall dst, key :: RevAt(rev, dst, key) == Entries(t, key, dst, |t|))
    && NoEmptyRev(rev)
  }

  /** No empty inner map and no empty list is stored. */
  predicate NoEmptyRev(rev: ReverseNodes) {
    forall dst :: dst in rev ==> |rev[dst]| > 0 && forall key :: key in rev[dst] ==> rev[dst][key] != []
  }

  /** Append `e` to the list under `dst` and `key`, creating the entries on the way. */
  function PushRev(rev: ReverseNodes, dst: nat, key: Option<nat>, e: (nat, nat)): (r: ReverseNodes)
    ensures NoEmptyRev(rev) ==> NoEmptyRev(r)
  {
    var inner := if dst in rev then rev[dst] else map[];
    rev[dst := inner[key := RevAt(rev, dst, key) + [e]]]
  }

  /** Pushing appends the entry to the list under its node and key and changes no other
      list. */
  lemma PushRevAt(rev: ReverseNodes, dst: nat, key: Option<nat>, e: (nat, nat), d: nat, k: Option<nat>)
    ensures RevAt(PushRev(rev, dst, key, e), d, k) == RevAt(rev, d, k) + (if d == dst && k == key then [e] else [])
  {
    if d != dst || k != key {
      assert RevAt(rev, d, k) + [] == RevAt(rev, d, k);
    }
  }

  /** Every entry of a reverse map names a transition into its node. */
  lemma ReverseOfSound(t: seq<Edges>, rev: ReverseNodes, dst: nat, key: Option<nat>, e: (nat, nat))
    requires ReverseOf(t, rev) && e in RevAt(rev, dst, key)
    ensures HasTransition(t, TransitionKey(e.0, key, e.1)) && Dst(t, TransitionKey(e.0, key, e.1)) == dst
  {
    EntriesMembers(t, key, dst, |t|, e);
  }

  /** Every transition appears in the reverse map under its destination. */
  lemma ReverseOfComplete(t: seq<Edges>, rev: ReverseNodes, tk: TransitionKey)
    requires ReverseOf(t, rev) && HasTransition(t, tk)
    ensures (tk.src, tk.index) in RevAt(rev, Dst(t, tk), tk.keyId)
  {
    EntriesMembers(t, tk.keyId, Dst(t, tk), |t|, (tk.src, tk.index));
  }

  /** The nodes listed for `tid`, empty when there is no entry. */
  function RevTranslationsAt(rev: ReverseTranslations, tid: nat): seq<nat> {
    if tid in rev then rev[tid] else []
  }

  /** `rev` lists each node once per occurrence of the translation at that node (in
      hash order, so only the counts are fixed), with no empty list stored. */
  ghost predicate ReverseTranslationsOf(nodeTranslations: map<nat, seq<nat>>, rev: ReverseTranslations) {
    (forall tid, node :: multiset(RevTranslationsAt(rev, tid))[node]
                         == (if node in nodeTranslations then multiset(nodeTranslations[node])[tid] else 0))
    && (forall tid :: tid in rev ==> rev[tid] != [])
  }

  /** A node is listed for a translation exactly when the node carries it. */
  lemma ReverseTranslationsMembers(nodeTranslations: map<nat, seq<nat>>, rev: ReverseTranslations, tid: nat, node: nat)
    requires ReverseTranslationsOf(nodeTranslations, rev)
    ensures node in RevTranslationsAt(rev, tid) <==> node in nodeTranslations && tid in nodeTranslations[node]
  {
    assert multiset(RevTranslationsAt(rev, tid))[node] > 0 <==> node in RevTranslationsAt(rev, tid);
    if node in nodeTranslations {
      assert multiset(nodeTranslations[node])[tid] > 0 <==> tid in nodeTranslations[node];
    }
  }
}
