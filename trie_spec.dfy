/** The state of the nondeterministic trie as a value, its invariant, and the build
    operations of plover_hatchery_lib_rs/src/trie/nondeterministic_trie.rs as functions
    from the old state to the new one.  The class in nondeterministic_trie.dfy is
    proved to follow these functions step by step. */
module TrieSpec {
  import opened Wrappers
  import opened Transition

  /** The outgoing edges of one node: for every key id (or `None`, an epsilon edge),
      the list of destination nodes. */
  type Edges = map<Option<nat>, seq<nat>>

  const ROOT: nat := 0

  /** A path through the trie: where it ends and the transitions it took. */
  datatype TriePath = TriePath(dst: nat, transitions: seq<TransitionKey>)

  /** A starting point of a join: its node, the cost of the transitions leaving it
      and the flags to put on them. */
  datatype TransitionSourceNode = TransitionSourceNode(src: nat, outgoingCost: int, outgoingFlags: seq<nat>)

  /** The common destination of a join and the transition sequence made for each
      (source, key chain) pair. */
  datatype JoinedTriePaths = JoinedTriePaths(dst: Option<nat>, seqs: seq<seq<TransitionKey>>)

  /** The fields of the trie: destinations per node, translation ids per node, the
      cost of each (transition, translation) pair, and the nodes each translation has
      already passed through while being added. */
  datatype TrieState = TrieState(
    transitions: seq<Edges>,
    nodeTranslations: map<nat, seq<nat>>,
    costs: map<TransitionCostKey, int>,
    used: map<nat, set<nat>>)

  /** The state of a new trie: the root and nothing else. */
  function Empty(): (s: TrieState)
    ensures Valid(s) && |s.transitions| == 1
  {
    TrieState([map[]], map[], map[], map[])
  }

  /** The destination list under `key` at `src` (empty when the key has none). */
  function Targets(t: seq<Edges>, src: nat, key: Option<nat>): seq<nat>
    requires src < |t|
  {
    if key in t[src] then t[src][key] else []
  }

  /** `tk` names an existing transition. */
  predicate HasTransition(t: seq<Edges>, tk: TransitionKey) {
    tk.src < |t| && tk.index < |Targets(t, tk.src, tk.keyId)|
  }

  /** Where an existing transition leads. */
  function Dst(t: seq<Edges>, tk: TransitionKey): nat
    requires HasTransition(t, tk)
  {
    Targets(t, tk.src, tk.keyId)[tk.index]
  }

  /** The node reached by taking `ts` one after another from `start`, or `None` when
      `ts` is not a walk from `start`. */
  function Walk(t: seq<Edges>, start: nat, ts: seq<TransitionKey>): Option<nat>
    decreases |ts|
  {
    if |ts| == 0 then Some(start)
    else if ts[0].src == start && HasTransition(t, ts[0]) then Walk(t, Dst(t, ts[0]), ts[1..])
    else None
  }

  /** Every destination of a node is a node, and no list names a node twice. */
  predicate EdgesOk(e: Edges, n: nat) {
    forall k :: k in e ==> NoDup(e[k]) && forall d :: d in e[k] ==> d < n
  }

  /** Every node's edges satisfy `EdgesOk`. */
  predicate AllEdgesOk(t: seq<Edges>) {
    forall v :: 0 <= v < |t| ==> EdgesOk(t[v], |t|)
  }

  /** The trie invariant: the root exists, destinations are in range and unique per
      list, every stored cost belongs to an existing transition, and used nodes exist. */
  ghost predicate Valid(s: TrieState) {
    |s.transitions| >= 1
    && AllEdgesOk(s.transitions)
    && (forall ck :: ck in s.costs ==> HasTransition(s.transitions, ck.transition))
    && (forall tid :: tid in s.used ==> forall u :: u in s.used[tid] ==> u < |s.transitions|)
  }

  /** `e2` keeps every list of `e1` as a prefix. */
  predicate EdgesExtend(e1: Edges, e2: Edges) {
    forall k :: k in e1 ==> k in e2 && e1[k] <= e2[k]
  }

  /** The trie only grew from `t1` to `t2`: nodes and transitions keep their ids. */
  predicate Extends(t1: seq<Edges>, t2: seq<Edges>) {
    |t1| <= |t2| && forall v :: 0 <= v < |t1| ==> EdgesExtend(t1[v], t2[v])
  }

  /** No stored cost disappeared or increased. */
  predicate CostsMonotone(c1: map<TransitionCostKey, int>, c2: map<TransitionCostKey, int>) {
    forall ck :: ck in c1 ==> ck in c2 && c2[ck] <= c1[ck]
  }

  /** The nodes translation `tid` has used so far. */
  function UsedBy(s: TrieState, tid: nat): set<nat> {
    if tid in s.used then s.used[tid] else {}
  }

  /** The cost table after recording `cost` for `ck`: the smaller of the new and the
      stored cost. */
  function RecordCost(costs: map<TransitionCostKey, int>, ck: TransitionCostKey, cost: int): (r: map<TransitionCostKey, int>)
    ensures ck in r && r[ck] <= cost && (ck in costs ==> r[ck] <= costs[ck])
    ensures r[ck] == cost || (ck in costs && r[ck] == costs[ck])
    ensures CostsMonotone(costs, r)
    ensures forall k :: k != ck ==> (k in r <==> k in costs) && (k in costs ==> r[k] == costs[k])
  {
    if ck in costs && costs[ck] < cost then costs else costs[ck := cost]
  }

  /** The position of the first destination not yet used, if there is one. */
  function FirstUnused(dsts: seq<nat>, used: set<nat>): (r: Option<nat>)
    ensures r.Some? ==> r.value < |dsts| && dsts[r.value] !in used
    ensures r.Some? ==> forall j :: 0 <= j < r.value ==> dsts[j] in used
    ensures r.None? ==> forall j :: 0 <= j < |dsts| ==> dsts[j] in used
    decreases |dsts|
  {
    if |dsts| == 0 then None
    else if dsts[0] !in used then Some(0)
    else match FirstUnused(dsts[1..], used)
      case None => None
      case Some(j) => Some(j + 1)
  }

  lemma {:induction false} WalkExtends(t1: seq<Edges>, t2: seq<Edges>, start: nat, ts: seq<TransitionKey>)
    requires Extends(t1, t2) && Walk(t1, start, ts).Some?
    ensures Walk(t2, start, ts) == Walk(t1, start, ts)
    decreases |ts|
  {
    if |ts| > 0 {
      var tk := ts[0];
      assert EdgesExtend(t1[tk.src], t2[tk.src]);
      assert Targets(t1, tk.src, tk.keyId) <= Targets(t2, tk.src, tk.keyId);
      WalkExtends(t1, t2, Dst(t1, tk), ts[1..]);
    }
  }

  lemma {:induction false} WalkAppend(t: seq<Edges>, a: nat, xs: seq<TransitionKey>, b: nat, ys: seq<TransitionKey>)
    requires Walk(t, a, xs) == Some(b)
    ensures Walk(t, a, xs + ys) == Walk(t, b, ys)
    decreases |xs|
  {
    if |xs| > 0 {
      assert (xs + ys)[0] == xs[0];
      assert (xs + ys)[1..] == xs[1..] + ys;
      assert Walk(t, a, xs + ys) == Walk(t, Dst(t, xs[0]), xs[1..] + ys);
      WalkAppend(t, Dst(t, xs[0]), xs[1..], b, ys);
    } else {
      assert xs + ys == ys;
    }
  }

  /** A walk that ends inside a valid trie ends at a node. */
  lemma {:induction false} WalkInRange(s: TrieState, start: nat, ts: seq<TransitionKey>)
    requires Valid(s) && start < |s.transitions| && Walk(s.transitions, start, ts).Some?
    ensures Walk(s.transitions, start, ts).value < |s.transitions|
    decreases |ts|
  {
    if |ts| > 0 {
      var tk := ts[0];
      assert EdgesOk(s.transitions[tk.src], |s.transitions|);
      assert Dst(s.transitions, tk) in Targets(s.transitions, tk.src, tk.keyId);
      WalkInRange(s, Dst(s.transitions, tk), ts[1..]);
    }
  }

  lemma ExtendsTransitive(t1: seq<Edges>, t2: seq<Edges>, t3: seq<Edges>)
    requires Extends(t1, t2) && Extends(t2, t3)
    ensures Extends(t1, t3)
  {
    forall v | 0 <= v < |t1|
      ensures EdgesExtend(t1[v], t3[v])
    {
      assert EdgesExtend(t1[v], t2[v]) && EdgesExtend(t2[v], t3[v]);
    }
  }

  /** Appending a fresh node and a list entry pointing at it keeps the edge invariant. */
  lemma AppendNodeValid(s: TrieState, src: nat, key: Option<nat>, t2: seq<Edges>)
    requires Valid(s) && src < |s.transitions|
    requires t2 == (s.transitions + [map[]])[src := s.transitions[src][key := Targets(s.transitions, src, key) + [|s.transitions|]]]
    ensures Extends(s.transitions, t2) && |t2| == |s.transitions| + 1
    ensures forall v :: 0 <= v < |t2| ==> EdgesOk(t2[v], |t2|)
  {
    var n := |s.transitions|;
    var dsts := Targets(s.transitions, src, key);
    forall v | 0 <= v < |t2|
      ensures EdgesOk(t2[v], |t2|)
    {
      if v < n {
        assert EdgesOk(s.transitions[v], n);
        if v == src {
          forall k | k in t2[v]
            ensures NoDup(t2[v][k]) && forall d :: d in t2[v][k] ==> d < |t2|
          {
            if k == key {
              assert t2[v][k] == dsts + [n];
              assert NoDup(dsts) && forall d :: d in dsts ==> d < n;
              assert n !in dsts;
            } else {
              assert t2[v][k] == s.transitions[v][k];
            }
          }
        }
      }
    }
    forall v | 0 <= v < n
      ensures EdgesExtend(s.transitions[v], t2[v])
    {
    }
  }

  /** Recording a cost on an existing transition and marking an existing node used
      keeps the invariant of a trie that has only grown. */
  lemma RecordKeepsValid(s: TrieState, t2: seq<Edges>, ck: TransitionCostKey, cost: int, node: nat)
    requires Valid(s) && Extends(s.transitions, t2)
    requires forall v :: 0 <= v < |t2| ==> EdgesOk(t2[v], |t2|)
    requires HasTransition(t2, ck.transition) && node < |t2|
    ensures Valid(TrieState(t2, s.nodeTranslations, RecordCost(s.costs, ck, cost),
                            s.used[ck.translationId := UsedBy(s, ck.translationId) + {node}]))
  {
    var c2 := RecordCost(s.costs, ck, cost);
    forall k | k in c2
      ensures HasTransition(t2, k.transition)
    {
      if k != ck {
        var c := k.transition;
        assert HasTransition(s.transitions, c);
        assert EdgesExtend(s.transitions[c.src], t2[c.src]);
        assert Targets(s.transitions, c.src, c.keyId) <= Targets(t2, c.src, c.keyId);
      }
    }
  }

  /** Follow `key` from `src` on behalf of `info.translationId`: reuse the first
      destination this translation has not used yet, or append a fresh node
      (plover_hatchery_lib_rs/src/trie/nondeterministic_trie.rs:226-279). */
  function Follow(s: TrieState, src: nat, key: Option<nat>, info: TransitionCostInfo): (r: (TrieState, TriePath))
    requires Valid(s) && src < |s.transitions|
    ensures Valid(r.0) && |s.transitions| <= |r.0.transitions| && r.1.dst < |r.0.transitions|
  {
    var tid := info.translationId;
    var used := UsedBy(s, tid);
    var dsts := Targets(s.transitions, src, key);
    match FirstUnused(dsts, used)
    case Some(i) =>
      var tk := TransitionKey(src, key, i);
      assert EdgesOk(s.transitions[src], |s.transitions|) && dsts[i] in dsts;
      RecordKeepsValid(s, s.transitions, TransitionCostKey(tk, tid), info.cost, dsts[i]);
      (TrieState(s.transitions, s.nodeTranslations, RecordCost(s.costs, TransitionCostKey(tk, tid), info.cost),
                 s.used[tid := used + {dsts[i]}]),
       TriePath(dsts[i], [tk]))
    case None =>
      var n := |s.transitions|;
      var t2 := (s.transitions + [map[]])[src := s.transitions[src][key := dsts + [n]]];
      var tk := TransitionKey(src, key, |dsts|);
      AppendNodeValid(s, src, key, t2);
      assert Targets(t2, src, key) == dsts + [n];
      RecordKeepsValid(s, t2, TransitionCostKey(tk, tid), info.cost, n);
      (TrieState(t2, s.nodeTranslations, RecordCost(s.costs, TransitionCostKey(tk, tid), info.cost),
                 s.used[tid := used + {n}]),
       TriePath(n, [tk]))
  }

  /** What one `Follow` does: it takes one transition labelled `key` from `src`, never
      to a node the translation already used, reusing the first unused destination or
      else appending a fresh node; the trie only grows, the translation records the
      node as used, and the cost table changes at the taken transition only. */
  lemma FollowProps(s: TrieState, src: nat, key: Option<nat>, info: TransitionCostInfo)
    requires Valid(s) && src < |s.transitions|
    ensures var r := Follow(s, src, key, info);
      Extends(s.transitions, r.0.transitions)
      && r.0.nodeTranslations == s.nodeTranslations
      && |r.1.transitions| == 1 && r.1.transitions[0].src == src && r.1.transitions[0].keyId == key
      && Walk(r.0.transitions, src, r.1.transitions) == Some(r.1.dst)
      // the cost table changes at this transition only, and keeps the minimum there
      && RecordCost(s.costs, TransitionCostKey(r.1.transitions[0], info.translationId), info.cost) == r.0.costs
      // a node the translation already used is never returned; the returned one becomes used
      && r.1.dst !in UsedBy(s, info.translationId)
      && r.0.used == s.used[info.translationId := UsedBy(s, info.translationId) + {r.1.dst}]
      // reuse the first unused destination, else a fresh node at the end of the list
      && match FirstUnused(Targets(s.transitions, src, key), UsedBy(s, info.translationId))
         case Some(i) => r.0.transitions == s.transitions && r.1.transitions[0].index == i
         case None =>
           |r.0.transitions| == |s.transitions| + 1 && r.1.dst == |s.transitions|
           && r.1.transitions[0].index == |Targets(s.transitions, src, key)|
  {
    var tid := info.translationId;
    var used := UsedBy(s, tid);
    var dsts := Targets(s.transitions, src, key);
    match FirstUnused(dsts, used)
    case Some(i) =>
      assert EdgesOk(s.transitions[src], |s.transitions|) && dsts[i] in dsts;
    case None =>
      var n := |s.transitions|;
      var t2 := (s.transitions + [map[]])[src := s.transitions[src][key := dsts + [n]]];
      AppendNodeValid(s, src, key, t2);
      assert Targets(t2, src, key) == dsts + [n];
  }

  /** Every transition of `ts` has a cost for `tid`: at most 0 before the last one,
      at most `last` on the last one. */
  predicate ChainCostsAtMost(costs: map<TransitionCostKey, int>, ts: seq<TransitionKey>, tid: nat, last: int) {
    forall i :: 0 <= i < |ts| ==>
      TransitionCostKey(ts[i], tid) in costs
      && costs[TransitionCostKey(ts[i], tid)] <= (if i == |ts| - 1 then last else 0)
  }

  lemma ChainCostsMonotone(c1: map<TransitionCostKey, int>, c2: map<TransitionCostKey, int>, ts: seq<TransitionKey>, tid: nat, last: int)
    requires ChainCostsAtMost(c1, ts, tid, last) && CostsMonotone(c1, c2)
    ensures ChainCostsAtMost(c2, ts, tid, last)
  {
    forall i | 0 <= i < |ts|
      ensures TransitionCostKey(ts[i], tid) in c2
      ensures c2[TransitionCostKey(ts[i], tid)] <= (if i == |ts| - 1 then last else 0)
    {
      assert TransitionCostKey(ts[i], tid) in c1;
    }
  }

  /** Follow a chain of keys from `src`: the last transition gets the caller's cost,
      the ones before it cost 0 for the same translation
      (plover_hatchery_lib_rs/src/trie/nondeterministic_trie.rs:282-309). */
  function FollowChain(s: TrieState, src: nat, keys: seq<Option<nat>>, info: TransitionCostInfo): (r: (TrieState, TriePath))
    requires Valid(s) && src < |s.transitions|
    ensures Valid(r.0) && |s.transitions| <= |r.0.transitions| && r.1.dst < |r.0.transitions|
    decreases |keys|
  {
    if |keys| == 0 then (s, TriePath(src, []))
    else
      var first := if |keys| == 1 then info else TransitionCostInfo(0, info.translationId);
      var r1 := Follow(s, src, keys[0], first);
      var r2 := FollowChain(r1.0, r1.1.dst, keys[1..], info);
      (r2.0, TriePath(r2.1.dst, r1.1.transitions + r2.1.transitions))
  }

  /** The path of a chain has one transition per key and walks from `src` to its end;
      every transition of it costs 0 for the translation except the last, which costs
      at most the caller's cost; the trie only grows and stored costs only drop. */
  lemma {:induction false} FollowChainProps(s: TrieState, src: nat, keys: seq<Option<nat>>, info: TransitionCostInfo)
    requires Valid(s) && src < |s.transitions|
    ensures var r := FollowChain(s, src, keys, info);
      Extends(s.transitions, r.0.transitions)
      && r.0.nodeTranslations == s.nodeTranslations && CostsMonotone(s.costs, r.0.costs)
      && |r.1.transitions| == |keys|
      && (forall i :: 0 <= i < |keys| ==> r.1.transitions[i].keyId == keys[i])
      && Walk(r.0.transitions, src, r.1.transitions) == Some(r.1.dst)
      && ChainCostsAtMost(r.0.costs, r.1.transitions, info.translationId, info.cost)
      && (|keys| == 0 ==> r.0 == s && r.1.dst == src)
    decreases |keys|
  {
    if |keys| > 0 {
      var first := if |keys| == 1 then info else TransitionCostInfo(0, info.translationId);
      var r1 := Follow(s, src, keys[0], first);
      var r2 := FollowChain(r1.0, r1.1.dst, keys[1..], info);
      FollowProps(s, src, keys[0], first);
      FollowChainProps(r1.0, r1.1.dst, keys[1..], info);
      FollowChainStep(s, src, keys, info, first, r1, r2);
    }
  }

  /** One step of a chain: follow the first key, then the rest from where it led. */
  lemma FollowChainUnfold(s: TrieState, src: nat, keys: seq<Option<nat>>, info: TransitionCostInfo,
                          s1: TrieState, p1: TriePath, rest: seq<Option<nat>>)
    requires Valid(s) && src < |s.transitions| && |keys| > 0 && rest == keys[1..]
    requires s1 == Follow(s, src, keys[0], if |keys| == 1 then info else TransitionCostInfo(0, info.translationId)).0
    requires p1 == Follow(s, src, keys[0], if |keys| == 1 then info else TransitionCostInfo(0, info.translationId)).1
    ensures Valid(s1) && p1.dst < |s1.transitions|
    ensures FollowChain(s, src, keys, info).0 == FollowChain(s1, p1.dst, rest, info).0
    ensures FollowChain(s, src, keys, info).1.dst == FollowChain(s1, p1.dst, rest, info).1.dst
    ensures FollowChain(s, src, keys, info).1.transitions
            == p1.transitions + FollowChain(s1, p1.dst, rest, info).1.transitions
  {
  }

  /** An empty chain follows nothing. */
  lemma FollowChainEmpty(s: TrieState, src: nat, keys: seq<Option<nat>>, info: TransitionCostInfo)
    requires Valid(s) && src < |s.transitions| && |keys| == 0
    ensures FollowChain(s, src, keys, info).0 == s
    ensures FollowChain(s, src, keys, info).1 == TriePath(src, [])
  {
  }

  /** Part way along a chain: from `cur` in `s`, following the keys still to go after
      the transitions `done` ends where following the whole chain does. */
  ghost predicate ChainRemains(goal: (TrieState, TriePath), s: TrieState, cur: nat, rest: seq<Option<nat>>,
                               info: TransitionCostInfo, done: seq<TransitionKey>)
  {
    Valid(s) && cur < |s.transitions|
    && goal.0 == FollowChain(s, cur, rest, info).0
    && goal.1.dst == FollowChain(s, cur, rest, info).1.dst
    && goal.1.transitions == done + FollowChain(s, cur, rest, info).1.transitions
  }

  /** Following the next key keeps the chain on course. */
  lemma ChainRemainsStep(goal: (TrieState, TriePath), s: TrieState, cur: nat, rest: seq<Option<nat>>,
                         info: TransitionCostInfo, done: seq<TransitionKey>, s1: TrieState, p1: TriePath)
    requires ChainRemains(goal, s, cur, rest, info, done) && |rest| > 0
    requires s1 == Follow(s, cur, rest[0], if |rest| == 1 then info else TransitionCostInfo(0, info.translationId)).0
    requires p1 == Follow(s, cur, rest[0], if |rest| == 1 then info else TransitionCostInfo(0, info.translationId)).1
    ensures ChainRemains(goal, s1, p1.dst, rest[1..], info, done + p1.transitions)
  {
    FollowChainUnfold(s, cur, rest, info, s1, p1, rest[1..]);
    AppendAssoc(done, p1.transitions, FollowChain(s1, p1.dst, rest[1..], info).1.transitions);
  }

  /** With no keys left the chain has arrived. */
  lemma ChainRemainsDone(goal: (TrieState, TriePath), s: TrieState, cur: nat, rest: seq<Option<nat>>,
                         info: TransitionCostInfo, done: seq<TransitionKey>)
    requires ChainRemains(goal, s, cur, rest, info, done) && |rest| == 0
    ensures goal == (s, TriePath(cur, done))
  {
    FollowChainEmpty(s, cur, rest, info);
    assert done + [] == done;
  }

  /** The facts that combine one `Follow` with the rest of a chain. */
  lemma FollowChainStep(s: TrieState, src: nat, keys: seq<Option<nat>>, info: TransitionCostInfo,
                        first: TransitionCostInfo, r1: (TrieState, TriePath), r2: (TrieState, TriePath))
    requires Valid(s) && src < |s.transitions| && |keys| > 0
    requires first == if |keys| == 1 then info else TransitionCostInfo(0, info.translationId)
    requires Valid(r1.0) && Extends(s.transitions, r1.0.transitions) && CostsMonotone(s.costs, r1.0.costs)
    requires |r1.1.transitions| == 1 && r1.1.transitions[0].keyId == keys[0]
    requires Walk(r1.0.transitions, src, r1.1.transitions) == Some(r1.1.dst)
    requires RecordCost(s.costs, TransitionCostKey(r1.1.transitions[0], info.translationId), first.cost) == r1.0.costs
    requires Valid(r2.0) && Extends(r1.0.transitions, r2.0.transitions) && CostsMonotone(r1.0.costs, r2.0.costs)
    requires |r2.1.transitions| == |keys| - 1
    requires forall i :: 0 <= i < |keys| - 1 ==> r2.1.transitions[i].keyId == keys[1..][i]
    requires Walk(r2.0.transitions, r1.1.dst, r2.1.transitions) == Some(r2.1.dst)
    requires ChainCostsAtMost(r2.0.costs, r2.1.transitions, info.translationId, info.cost)
    ensures Extends(s.transitions, r2.0.transitions) && CostsMonotone(s.costs, r2.0.costs)
    ensures var ts := r1.1.transitions + r2.1.transitions;
            (forall i :: 0 <= i < |keys| ==> ts[i].keyId == keys[i])
            && Walk(r2.0.transitions, src, ts) == Some(r2.1.dst)
            && ChainCostsAtMost(r2.0.costs, ts, info.translationId, info.cost)
  {
    var tid := info.translationId;
    var ts := r1.1.transitions + r2.1.transitions;
    ExtendsTransitive(s.transitions, r1.0.transitions, r2.0.transitions);
    WalkExtends(r1.0.transitions, r2.0.transitions, src, r1.1.transitions);
    WalkAppend(r2.0.transitions, src, r1.1.transitions, r1.1.dst, r2.1.transitions);
    var ck := TransitionCostKey(r1.1.transitions[0], tid);
    assert ck in r1.0.costs && r1.0.costs[ck] <= first.cost;
    assert ck in r2.0.costs && r2.0.costs[ck] <= first.cost;
    forall i | 0 <= i < |ts|
      ensures TransitionCostKey(ts[i], tid) in r2.0.costs
      ensures r2.0.costs[TransitionCostKey(ts[i], tid)] <= (if i == |ts| - 1 then info.cost else 0)
    {
      if i > 0 {
        assert ts[i] == r2.1.transitions[i - 1];
      }
    }
    forall i | 0 <= i < |keys|
      ensures ts[i].keyId == keys[i]
    {
      if i > 0 {
        assert ts[i] == r2.1.transitions[i - 1];
      }
    }
  }

  /** Link `src` to the existing node `dst` under `key`, reusing the transition when
      `dst` is already listed (plover_hatchery_lib_rs/src/trie/nondeterministic_trie.rs:312-344). */
  function Link(s: TrieState, src: nat, dst: nat, key: Option<nat>, info: TransitionCostInfo): (r: (TrieState, TransitionKey))
    requires Valid(s) && src < |s.transitions| && dst < |s.transitions|
    ensures Valid(r.0) && Extends(s.transitions, r.0.transitions) && |r.0.transitions| == |s.transitions|
    ensures r.0.nodeTranslations == s.nodeTranslations
    ensures r.1.src == src && r.1.keyId == key
    ensures HasTransition(r.0.transitions, r.1) && Dst(r.0.transitions, r.1) == dst
    ensures RecordCost(s.costs, TransitionCostKey(r.1, info.translationId), info.cost) == r.0.costs
    ensures r.0.used == s.used[info.translationId := UsedBy(s, info.translationId) + {dst}]
    // an existing edge is reused; otherwise exactly one entry is appended to this list
    ensures dst in Targets(s.transitions, src, key) ==> r.0.transitions == s.transitions
    ensures dst !in Targets(s.transitions, src, key) ==>
              r.1.index == |Targets(s.transitions, src, key)|
              && r.0.transitions == s.transitions[src := s.transitions[src][key := Targets(s.transitions, src, key) + [dst]]]
  {
    var tid := info.translationId;
    var dsts := Targets(s.transitions, src, key);
    match IndexOf(dsts, dst)
    case Some(i) =>
      var tk := TransitionKey(src, key, i);
      RecordKeepsValid(s, s.transitions, TransitionCostKey(tk, tid), info.cost, dst);
      (TrieState(s.transitions, s.nodeTranslations, RecordCost(s.costs, TransitionCostKey(tk, tid), info.cost),
                 s.used[tid := UsedBy(s, tid) + {dst}]),
       tk)
    case None =>
      var t2 := s.transitions[src := s.transitions[src][key := dsts + [dst]]];
      var tk := TransitionKey(src, key, |dsts|);
      LinkEdgesValid(s, src, dst, key, t2);
      assert Targets(t2, src, key) == dsts + [dst];
      RecordKeepsValid(s, t2, TransitionCostKey(tk, tid), info.cost, dst);
      (TrieState(t2, s.nodeTranslations, RecordCost(s.costs, TransitionCostKey(tk, tid), info.cost),
                 s.used[tid := UsedBy(s, tid) + {dst}]),
       tk)
  }

  /** The state and transition key `Link` gives, case by case. */
  lemma LinkShape(s: TrieState, src: nat, dst: nat, key: Option<nat>, info: TransitionCostInfo)
    requires Valid(s) && src < |s.transitions| && dst < |s.transitions|
    ensures var dsts := Targets(s.transitions, src, key);
      var tid := info.translationId;
      var index := if IndexOf(dsts, dst).Some? then IndexOf(dsts, dst).value else |dsts|;
      var t2 := if IndexOf(dsts, dst).Some? then s.transitions
                else s.transitions[src := s.transitions[src][key := dsts + [dst]]];
      Link(s, src, dst, key, info)
        == (TrieState(t2, s.nodeTranslations,
                      RecordCost(s.costs, TransitionCostKey(TransitionKey(src, key, index), tid), info.cost),
                      s.used[tid := UsedBy(s, tid) + {dst}]),
            TransitionKey(src, key, index))
  {
  }

  /** Appending a node not yet listed keeps the edge invariant. */
  lemma LinkEdgesValid(s: TrieState, src: nat, dst: nat, key: Option<nat>, t2: seq<Edges>)
    requires Valid(s) && src < |s.transitions| && dst < |s.transitions|
    requires dst !in Targets(s.transitions, src, key)
    requires t2 == s.transitions[src := s.transitions[src][key := Targets(s.transitions, src, key) + [dst]]]
    ensures Extends(s.transitions, t2)
    ensures forall v :: 0 <= v < |t2| ==> EdgesOk(t2[v], |t2|)
  {
    var n := |s.transitions|;
    var dsts := Targets(s.transitions, src, key);
    forall v | 0 <= v < |t2|
      ensures EdgesOk(t2[v], |t2|)
    {
      assert EdgesOk(s.transitions[v], n);
      if v == src {
        forall k | k in t2[v]
          ensures NoDup(t2[v][k]) && forall d :: d in t2[v][k] ==> d < |t2|
        {
          if k == key {
            assert t2[v][k] == dsts + [dst];
            assert NoDup(dsts) && forall d :: d in dsts ==> d < n;
          } else {
            assert t2[v][k] == s.transitions[v][k];
          }
        }
      }
    }
    forall v | 0 <= v < n
      ensures EdgesExtend(s.transitions[v], t2[v])
    {
    }
  }

  /** Linking twice is linking once: the second call finds the edge, returns the same
      transition and leaves the state as the first call left it. */
  lemma LinkIdempotent(s: TrieState, src: nat, dst: nat, key: Option<nat>, info: TransitionCostInfo)
    requires Valid(s) && src < |s.transitions| && dst < |s.transitions|
    ensures Link(Link(s, src, dst, key, info).0, src, dst, key, info) == Link(s, src, dst, key, info)
  {
    var r1 := Link(s, src, dst, key, info);
    var r2 := Link(r1.0, src, dst, key, info);
    var tid := info.translationId;
    assert dst in Targets(r1.0.transitions, src, key);
    assert r2.0.transitions == r1.0.transitions;
    SameTargetSameIndex(r1.0, r1.1, r2.1);
    RecordCostIdempotent(r1.0.costs, TransitionCostKey(r1.1, tid), info.cost);
    assert dst in UsedBy(r1.0, tid);
    assert r2.0.used == r1.0.used;
    assert r2.0 == r1.0;
  }

  /** Two transitions out of the same list that lead to the same node are the same
      transition, since no list names a node twice. */
  lemma SameTargetSameIndex(s: TrieState, a: TransitionKey, b: TransitionKey)
    requires Valid(s) && HasTransition(s.transitions, a) && HasTransition(s.transitions, b)
    requires a.src == b.src && a.keyId == b.keyId && Dst(s.transitions, a) == Dst(s.transitions, b)
    ensures a == b
  {
    assert EdgesOk(s.transitions[a.src], |s.transitions|);
    assert a.keyId in s.transitions[a.src];
    assert NoDup(s.transitions[a.src][a.keyId]);
  }

  /** Recording a cost no lower than the stored one changes nothing. */
  lemma RecordCostIdempotent(costs: map<TransitionCostKey, int>, ck: TransitionCostKey, cost: int)
    requires ck in costs && costs[ck] <= cost
    ensures RecordCost(costs, ck, cost) == costs
  {
    if costs[ck] == cost {
      assert costs[ck := cost] == costs;
    }
  }

  /** Follow all keys but the last, then link the last one to `dst`; no keys, no change
      (plover_hatchery_lib_rs/src/trie/nondeterministic_trie.rs:347-374). */
  function LinkChain(s: TrieState, src: nat, dst: nat, keys: seq<Option<nat>>, info: TransitionCostInfo): (r: (TrieState, seq<TransitionKey>))
    requires Valid(s) && src < |s.transitions| && dst < |s.transitions|
    ensures Valid(r.0) && |s.transitions| <= |r.0.transitions|
  {
    if |keys| == 0 then (s, [])
    else
      var r1 := FollowChain(s, src, keys[..|keys| - 1], TransitionCostInfo(0, info.translationId));
      var r2 := Link(r1.0, r1.1.dst, dst, keys[|keys| - 1], info);
      (r2.0, r1.1.transitions + [r2.1])
  }

  /** A linked chain has one transition per key and, when there are keys, walks from
      `src` to `dst`, with cost 0 on all but its last transition; no keys, no change. */
  lemma LinkChainProps(s: TrieState, src: nat, dst: nat, keys: seq<Option<nat>>, info: TransitionCostInfo)
    requires Valid(s) && src < |s.transitions| && dst < |s.transitions|
    ensures var r := LinkChain(s, src, dst, keys, info);
      Extends(s.transitions, r.0.transitions)
      && r.0.nodeTranslations == s.nodeTranslations && CostsMonotone(s.costs, r.0.costs)
      && |r.1| == |keys| && (forall i :: 0 <= i < |keys| ==> r.1[i].keyId == keys[i])
      && (|keys| > 0 ==> Walk(r.0.transitions, src, r.1) == Some(dst))
      && (|keys| > 0 ==> ChainCostsAtMost(r.0.costs, r.1, info.translationId, info.cost))
      && (|keys| == 0 ==> r.0 == s)
  {
    if |keys| > 0 {
      var zero := TransitionCostInfo(0, info.translationId);
      var r1 := FollowChain(s, src, keys[..|keys| - 1], zero);
      FollowChainProps(s, src, keys[..|keys| - 1], zero);
      var r2 := Link(r1.0, r1.1.dst, dst, keys[|keys| - 1], info);
      LinkChainStep(s, src, dst, keys, info, r1, r2);
    }
  }

  /** The facts that combine the followed prefix of a chain with its final link. */
  lemma LinkChainStep(s: TrieState, src: nat, dst: nat, keys: seq<Option<nat>>, info: TransitionCostInfo,
                      r1: (TrieState, TriePath), r2: (TrieState, TransitionKey))
    requires Valid(s) && src < |s.transitions| && |keys| > 0
    requires Valid(r1.0) && Extends(s.transitions, r1.0.transitions) && CostsMonotone(s.costs, r1.0.costs)
    requires |r1.1.transitions| == |keys| - 1
    requires forall i :: 0 <= i < |keys| - 1 ==> r1.1.transitions[i].keyId == keys[..|keys| - 1][i]
    requires Walk(r1.0.transitions, src, r1.1.transitions) == Some(r1.1.dst)
    requires ChainCostsAtMost(r1.0.costs, r1.1.transitions, info.translationId, 0)
    requires Extends(r1.0.transitions, r2.0.transitions)
    requires r2.1.src == r1.1.dst && r2.1.keyId == keys[|keys| - 1]
    requires HasTransition(r2.0.transitions, r2.1) && Dst(r2.0.transitions, r2.1) == dst
    requires RecordCost(r1.0.costs, TransitionCostKey(r2.1, info.translationId), info.cost) == r2.0.costs
    ensures Extends(s.transitions, r2.0.transitions) && CostsMonotone(s.costs, r2.0.costs)
    ensures var ts := r1.1.transitions + [r2.1];
            (forall i :: 0 <= i < |keys| ==> ts[i].keyId == keys[i])
            && Walk(r2.0.transitions, src, ts) == Some(dst)
            && ChainCostsAtMost(r2.0.costs, ts, info.translationId, info.cost)
  {
    var tid := info.translationId;
    var ts := r1.1.transitions + [r2.1];
    ExtendsTransitive(s.transitions, r1.0.transitions, r2.0.transitions);
    WalkExtends(r1.0.transitions, r2.0.transitions, src, r1.1.transitions);
    WalkAppend(r2.0.transitions, src, r1.1.transitions, r1.1.dst, [r2.1]);
    assert Walk(r2.0.transitions, r1.1.dst, [r2.1]) == Walk(r2.0.transitions, dst, []);
    ChainCostsMonotone(r1.0.costs, r2.0.costs, r1.1.transitions, tid, 0);
    forall i | 0 <= i < |ts|
      ensures TransitionCostKey(ts[i], tid) in r2.0.costs
      ensures r2.0.costs[TransitionCostKey(ts[i], tid)] <= (if i == |ts| - 1 then info.cost else 0)
      ensures ts[i].keyId == keys[i]
    {
      if i < |r1.1.transitions| {
        assert ts[i] == r1.1.transitions[i];
      }
    }
  }

  /** `x` paired with each chain in order. */
  function Row<X, C>(x: X, chains: seq<C>): (r: seq<(X, C)>)
    ensures |r| == |chains| && forall j :: 0 <= j < |chains| ==> r[j] == (x, chains[j])
  {
    seq(|chains|, j requires 0 <= j < |chains| => (x, chains[j]))
  }

  lemma RowSnoc<X, C>(x: X, chains: seq<C>, c: C)
    ensures Row(x, chains + [c]) == Row(x, chains) + [(x, c)]
  {
    assert Row(x, chains + [c])[|chains|] == (x, c);
  }

  /** Every (source, key chain) pair, sources outermost. */
  function Pairs<X(==), C(==)>(srcs: seq<X>, chains: seq<C>): (r: seq<(X, C)>)
    ensures |r| == |srcs| * |chains|
    ensures forall k :: 0 <= k < |r| ==> r[k].0 in srcs && r[k].1 in chains
    ensures |srcs| > 0 && |chains| > 0 ==> r[0] == (srcs[0], chains[0])
  {
    if |srcs| == 0 then []
    else
      var first := Row(srcs[0], chains);
      var rest := Pairs(srcs[1..], chains);
      PairsStep(srcs, chains, first, rest);
      first + rest
  }

  /** The row of the first source followed by the pairs of the others has the size and
      the members `Pairs` promises. */
  lemma PairsStep<X, C>(srcs: seq<X>, chains: seq<C>, first: seq<(X, C)>, rest: seq<(X, C)>)
    requires |srcs| > 0 && first == Row(srcs[0], chains)
    requires |rest| == (|srcs| - 1) * |chains|
    requires forall k :: 0 <= k < |rest| ==> rest[k].0 in srcs[1..] && rest[k].1 in chains
    ensures |first + rest| == |srcs| * |chains|
    ensures forall k :: 0 <= k < |first + rest| ==> (first + rest)[k].0 in srcs && (first + rest)[k].1 in chains
  {
    var n, c := |srcs|, |chains|;
    assert (n - 1) * c + c == n * c;
    forall k | 0 <= k < |first + rest|
      ensures (first + rest)[k].0 in srcs && (first + rest)[k].1 in chains
    {
      if k >= |first| {
        var r := rest[k - |first|];
        assert r.0 in srcs[1..];
      }
    }
  }

  /** Link every pair to `dst` in order. */
  function LinkAll(s: TrieState, pairs: seq<(TransitionSourceNode, seq<Option<nat>>)>, dst: nat, tid: nat): (r: (TrieState, seq<seq<TransitionKey>>))
    requires Valid(s) && dst < |s.transitions|
    requires forall k :: 0 <= k < |pairs| ==> pairs[k].0.src < |s.transitions|
    ensures Valid(r.0) && |s.transitions| <= |r.0.transitions|
    decreases |pairs|
  {
    if |pairs| == 0 then (s, [])
    else
      var r1 := LinkChain(s, pairs[0].0.src, dst, pairs[0].1, TransitionCostInfo(pairs[0].0.outgoingCost, tid));
      var r2 := LinkAll(r1.0, pairs[1..], dst, tid);
      (r2.0, [r1.1] + r2.1)
  }

  /** One step of linking all pairs: link the first pair, then the rest. */
  lemma LinkAllUnfold(s: TrieState, pairs: seq<(TransitionSourceNode, seq<Option<nat>>)>, dst: nat, tid: nat,
                      s1: TrieState, ts: seq<TransitionKey>)
    requires Valid(s) && dst < |s.transitions| && |pairs| > 0
    requires forall k :: 0 <= k < |pairs| ==> pairs[k].0.src < |s.transitions|
    requires s1 == LinkChain(s, pairs[0].0.src, dst, pairs[0].1, TransitionCostInfo(pairs[0].0.outgoingCost, tid)).0
    requires ts == LinkChain(s, pairs[0].0.src, dst, pairs[0].1, TransitionCostInfo(pairs[0].0.outgoingCost, tid)).1
    ensures Valid(s1) && dst < |s1.transitions|
    ensures forall k :: 0 <= k < |pairs[1..]| ==> pairs[1..][k].0.src < |s1.transitions|
    ensures LinkAll(s, pairs, dst, tid).0 == LinkAll(s1, pairs[1..], dst, tid).0
    ensures LinkAll(s, pairs, dst, tid).1 == [ts] + LinkAll(s1, pairs[1..], dst, tid).1
  {
    assert forall k :: 0 <= k < |pairs[1..]| ==> pairs[1..][k] == pairs[k + 1];
  }

  /** Linking no pairs changes nothing. */
  lemma LinkAllEmpty(s: TrieState, pairs: seq<(TransitionSourceNode, seq<Option<nat>>)>, dst: nat, tid: nat)
    requires Valid(s) && dst < |s.transitions| && |pairs| == 0
    ensures LinkAll(s, pairs, dst, tid).0 == s && LinkAll(s, pairs, dst, tid).1 == []
  {
  }

  /** Part way through the pairs: linking the pairs still to go from `s` after the
      sequences `done` gives what linking all of them does. */
  ghost predicate LinksRemain(goal: (TrieState, seq<seq<TransitionKey>>), s: TrieState,
                              pairs: seq<(TransitionSourceNode, seq<Option<nat>>)>, dst: nat, tid: nat,
                              done: seq<seq<TransitionKey>>)
  {
    Valid(s) && dst < |s.transitions|
    && (forall k :: 0 <= k < |pairs| ==> pairs[k].0.src < |s.transitions|)
    && goal.0 == LinkAll(s, pairs, dst, tid).0
    && goal.1 == done + LinkAll(s, pairs, dst, tid).1
  }

  /** Linking the next pair keeps the linking on course. */
  lemma LinksRemainStep(goal: (TrieState, seq<seq<TransitionKey>>), s: TrieState,
                        pairs: seq<(TransitionSourceNode, seq<Option<nat>>)>, dst: nat, tid: nat,
                        done: seq<seq<TransitionKey>>, s1: TrieState, ts: seq<TransitionKey>)
    requires LinksRemain(goal, s, pairs, dst, tid, done) && |pairs| > 0
    requires s1 == LinkChain(s, pairs[0].0.src, dst, pairs[0].1, TransitionCostInfo(pairs[0].0.outgoingCost, tid)).0
    requires ts == LinkChain(s, pairs[0].0.src, dst, pairs[0].1, TransitionCostInfo(pairs[0].0.outgoingCost, tid)).1
    ensures LinksRemain(goal, s1, pairs[1..], dst, tid, done + [ts])
  {
    LinkAllUnfold(s, pairs, dst, tid, s1, ts);
    AppendAssoc(done, [ts], LinkAll(s1, pairs[1..], dst, tid).1);
  }

  /** With no pairs left every pair is linked. */
  lemma LinksRemainDone(goal: (TrieState, seq<seq<TransitionKey>>), s: TrieState,
                        pairs: seq<(TransitionSourceNode, seq<Option<nat>>)>, dst: nat, tid: nat,
                        done: seq<seq<TransitionKey>>)
    requires LinksRemain(goal, s, pairs, dst, tid, done) && |pairs| == 0
    ensures goal == (s, done)
  {
    LinkAllEmpty(s, pairs, dst, tid);
    assert done + [] == done;
  }

  /** Linking every pair gives one sequence per pair, each reaching `dst`. */
  lemma {:induction false} LinkAllProps(s: TrieState, pairs: seq<(TransitionSourceNode, seq<Option<nat>>)>, dst: nat, tid: nat)
    requires Valid(s) && dst < |s.transitions|
    requires forall k :: 0 <= k < |pairs| ==> pairs[k].0.src < |s.transitions|
    ensures var r := LinkAll(s, pairs, dst, tid);
      Extends(s.transitions, r.0.transitions)
      && r.0.nodeTranslations == s.nodeTranslations && CostsMonotone(s.costs, r.0.costs)
      && JoinedTo(r.0.transitions, pairs, r.1, dst)
    decreases |pairs|
  {
    if |pairs| > 0 {
      var info := TransitionCostInfo(pairs[0].0.outgoingCost, tid);
      var r1 := LinkChain(s, pairs[0].0.src, dst, pairs[0].1, info);
      LinkChainProps(s, pairs[0].0.src, dst, pairs[0].1, info);
      var rest := pairs[1..];
      assert forall k :: 0 <= k < |rest| ==> rest[k].0.src < |r1.0.transitions| by {
        forall k | 0 <= k < |rest| ensures rest[k].0.src < |r1.0.transitions| {
          assert rest[k] == pairs[k + 1];
        }
      }
      LinkAllProps(r1.0, rest, dst, tid);
      var r2 := LinkAll(r1.0, rest, dst, tid);
      assert LinkAll(s, pairs, dst, tid) == (r2.0, [r1.1] + r2.1);
      LinkAllStep(s, pairs, dst, r1, r2);
    }
  }

  /** One transition sequence per pair, as long as the pair's key chain, and a walk from
      the pair's source to `dst` whenever the chain is not empty. */
  predicate JoinedTo(t: seq<Edges>, pairs: seq<(TransitionSourceNode, seq<Option<nat>>)>, seqs: seq<seq<TransitionKey>>, dst: nat) {
    |seqs| == |pairs|
    && forall k :: 0 <= k < |pairs| ==>
         |seqs[k]| == |pairs[k].1| && (|pairs[k].1| > 0 ==> Walk(t, pairs[k].0.src, seqs[k]) == Some(dst))
  }

  lemma LinkAllStep(s: TrieState, pairs: seq<(TransitionSourceNode, seq<Option<nat>>)>, dst: nat,
                    r1: (TrieState, seq<TransitionKey>), r2: (TrieState, seq<seq<TransitionKey>>))
    requires |pairs| > 0
    requires Valid(s) && Extends(s.transitions, r1.0.transitions) && CostsMonotone(s.costs, r1.0.costs)
    requires |r1.1| == |pairs[0].1| && (|pairs[0].1| > 0 ==> Walk(r1.0.transitions, pairs[0].0.src, r1.1) == Some(dst))
    requires Extends(r1.0.transitions, r2.0.transitions) && CostsMonotone(r1.0.costs, r2.0.costs)
    requires JoinedTo(r2.0.transitions, pairs[1..], r2.1, dst)
    ensures Extends(s.transitions, r2.0.transitions) && CostsMonotone(s.costs, r2.0.costs)
    ensures JoinedTo(r2.0.transitions, pairs, [r1.1] + r2.1, dst)
  {
    ExtendsTransitive(s.transitions, r1.0.transitions, r2.0.transitions);
    if |pairs[0].1| > 0 {
      WalkExtends(r1.0.transitions, r2.0.transitions, pairs[0].0.src, r1.1);
    }
    var seqs := [r1.1] + r2.1;
    forall k | 0 < k < |pairs|
      ensures |seqs[k]| == |pairs[k].1| && (|pairs[k].1| > 0 ==> Walk(r2.0.transitions, pairs[k].0.src, seqs[k]) == Some(dst))
    {
      assert seqs[k] == r2.1[k - 1] && pairs[k] == pairs[1..][k - 1];
    }
  }

  /** `LinkAllStep` when the first sequence walks to `dst` whatever its length. */
  lemma JoinStepWalked(s: TrieState, pairs: seq<(TransitionSourceNode, seq<Option<nat>>)>, dst: nat,
                       r1: (TrieState, seq<TransitionKey>), r2: (TrieState, seq<seq<TransitionKey>>))
    requires |pairs| > 0
    requires Valid(s) && Extends(s.transitions, r1.0.transitions) && CostsMonotone(s.costs, r1.0.costs)
    requires |r1.1| == |pairs[0].1| && Walk(r1.0.transitions, pairs[0].0.src, r1.1) == Some(dst)
    requires Extends(r1.0.transitions, r2.0.transitions) && CostsMonotone(r1.0.costs, r2.0.costs)
    requires JoinedTo(r2.0.transitions, pairs[1..], r2.1, dst)
    ensures Extends(s.transitions, r2.0.transitions) && CostsMonotone(s.costs, r2.0.costs)
    ensures JoinedTo(r2.0.transitions, pairs, [r1.1] + r2.1, dst)
  {
    LinkAllStep(s, pairs, dst, r1, r2);
  }

  /** Join several sources to one destination through key chains: to `dst` when given,
      otherwise to the node reached by following the first pair
      (plover_hatchery_lib_rs/src/trie/nondeterministic_trie.rs:397-461). */
  function LinkJoinChain(s: TrieState, srcs: seq<TransitionSourceNode>, dst: Option<nat>, chains: seq<seq<Option<nat>>>, tid: nat): (r: (TrieState, JoinedTriePaths))
    requires Valid(s)
    requires forall i :: 0 <= i < |srcs| ==> srcs[i].src < |s.transitions|
    requires dst.Some? ==> dst.value < |s.transitions|
    ensures Valid(r.0) && |s.transitions| <= |r.0.transitions|
    ensures r.1.dst.None? <==> |srcs| == 0 || |chains| == 0
    ensures r.1.dst.None? ==> r.0 == s && r.1.seqs == []
    ensures dst.Some? && r.1.dst.Some? ==> r.1.dst == dst
    ensures r.1.dst.Some? ==> r.1.dst.value < |r.0.transitions|
  {
    if |srcs| == 0 || |chains| == 0 then (s, JoinedTriePaths(None, []))
    else
      var pairs := Pairs(srcs, chains);
      PairsInRange(s, srcs, chains);
      if dst.Some? then
        var r1 := LinkAll(s, pairs, dst.value, tid);
        (r1.0, JoinedTriePaths(dst, r1.1))
      else
        var r1 := FollowChain(s, pairs[0].0.src, pairs[0].1, TransitionCostInfo(pairs[0].0.outgoingCost, tid));
        var r2 := LinkAll(r1.0, pairs[1..], r1.1.dst, tid);
        (r2.0, JoinedTriePaths(Some(r1.1.dst), [r1.1.transitions] + r2.1))
  }

  lemma PairsInRange(s: TrieState, srcs: seq<TransitionSourceNode>, chains: seq<seq<Option<nat>>>)
    requires forall i :: 0 <= i < |srcs| ==> srcs[i].src < |s.transitions|
    ensures forall k :: 0 <= k < |Pairs(srcs, chains)| ==> Pairs(srcs, chains)[k].0.src < |s.transitions|
  {
    var pairs := Pairs(srcs, chains);
    forall k | 0 <= k < |pairs| ensures pairs[k].0.src < |s.transitions| {
      assert pairs[k].0 in srcs;
      var i :| 0 <= i < |srcs| && srcs[i] == pairs[k].0;
    }
  }

  /** A join gives one transition sequence per (source, key chain) pair, sources
      outermost, each reaching the common destination when its chain is not empty. */
  lemma LinkJoinChainProps(s: TrieState, srcs: seq<TransitionSourceNode>, dst: Option<nat>, chains: seq<seq<Option<nat>>>, tid: nat)
    requires Valid(s)
    requires forall i :: 0 <= i < |srcs| ==> srcs[i].src < |s.transitions|
    requires dst.Some? ==> dst.value < |s.transitions|
    ensures var r := LinkJoinChain(s, srcs, dst, chains, tid);
      Extends(s.transitions, r.0.transitions)
      && r.0.nodeTranslations == s.nodeTranslations && CostsMonotone(s.costs, r.0.costs)
      && (r.1.dst.Some? ==> JoinedTo(r.0.transitions, Pairs(srcs, chains), r.1.seqs, r.1.dst.value))
  {
    if |srcs| > 0 && |chains| > 0 {
      var pairs := Pairs(srcs, chains);
      PairsInRange(s, srcs, chains);
      if dst.Some? {
        LinkAllProps(s, pairs, dst.value, tid);
      } else {
        JoinViaFirstProps(s, pairs, tid);
      }
    }
  }

  /** Following the first pair's chain and linking the other pairs to where it led
      joins every pair there. */
  lemma JoinViaFirstProps(s: TrieState, pairs: seq<(TransitionSourceNode, seq<Option<nat>>)>, tid: nat)
    requires Valid(s) && |pairs| > 0
    requires forall k :: 0 <= k < |pairs| ==> pairs[k].0.src < |s.transitions|
    ensures var r1 := FollowChain(s, pairs[0].0.src, pairs[0].1, TransitionCostInfo(pairs[0].0.outgoingCost, tid));
      var r2 := LinkAll(r1.0, pairs[1..], r1.1.dst, tid);
      Extends(s.transitions, r2.0.transitions)
      && r2.0.nodeTranslations == s.nodeTranslations && CostsMonotone(s.costs, r2.0.costs)
      && JoinedTo(r2.0.transitions, pairs, [r1.1.transitions] + r2.1, r1.1.dst)
  {
    var info := TransitionCostInfo(pairs[0].0.outgoingCost, tid);
    var r1 := FollowChain(s, pairs[0].0.src, pairs[0].1, info);
    assert Extends(s.transitions, r1.0.transitions) && CostsMonotone(s.costs, r1.0.costs)
      && r1.0.nodeTranslations == s.nodeTranslations && |r1.1.transitions| == |pairs[0].1|
      && Walk(r1.0.transitions, pairs[0].0.src, r1.1.transitions) == Some(r1.1.dst) by {
      FollowChainProps(s, pairs[0].0.src, pairs[0].1, info);
    }
    var r2 := LinkAll(r1.0, pairs[1..], r1.1.dst, tid);
    assert Extends(r1.0.transitions, r2.0.transitions) && CostsMonotone(r1.0.costs, r2.0.costs)
      && r2.0.nodeTranslations == r1.0.nodeTranslations
      && JoinedTo(r2.0.transitions, pairs[1..], r2.1, r1.1.dst) by {
      LinkAllProps(r1.0, pairs[1..], r1.1.dst, tid);
    }
    JoinStepWalked(s, pairs, r1.1.dst, (r1.0, r1.1.transitions), r2);
  }

  /** Record `tid` as a translation of `node`, after those already there
      (plover_hatchery_lib_rs/src/trie/nondeterministic_trie.rs:464-469). */
  function SetTranslation(s: TrieState, node: nat, tid: nat): (r: TrieState)
    requires Valid(s)
    ensures Valid(r)
    ensures r.transitions == s.transitions && r.costs == s.costs && r.used == s.used
    ensures TranslationsAt(r, node) == TranslationsAt(s, node) + [tid]
    ensures forall m :: m != node ==> TranslationsAt(r, m) == TranslationsAt(s, m)
  {
    s.(nodeTranslations := s.nodeTranslations[node := TranslationsAt(s, node) + [tid]])
  }

  /** The translation ids stored at a node (none when the node has no entry). */
  function TranslationsAt(s: TrieState, node: nat): seq<nat> {
    if node in s.nodeTranslations then s.nodeTranslations[node] else []
  }

  /** Copies of the sources with `delta` added to each outgoing cost
      (plover_hatchery_lib_rs/src/trie/nondeterministic_trie.rs:126-135). */
  function IncrementCosts(srcs: seq<TransitionSourceNode>, delta: int): (r: seq<TransitionSourceNode>)
    ensures |r| == |srcs|
    ensures forall i :: 0 <= i < |r| ==> r[i] == srcs[i].(outgoingCost := srcs[i].outgoingCost + delta)
  {
    seq(|srcs|, i requires 0 <= i < |srcs| => srcs[i].(outgoingCost := srcs[i].outgoingCost + delta))
  }

  /** Copies of the sources with `flags` appended to each flag list
      (plover_hatchery_lib_rs/src/trie/nondeterministic_trie.rs:138-150). */
  function AddFlags(srcs: seq<TransitionSourceNode>, flags: seq<nat>): (r: seq<TransitionSourceNode>)
    ensures |r| == |srcs|
    ensures forall i :: 0 <= i < |r| ==> r[i] == srcs[i].(outgoingFlags := srcs[i].outgoingFlags + flags)
  {
    seq(|srcs|, i requires 0 <= i < |srcs| => srcs[i].(outgoingFlags := srcs[i].outgoingFlags + flags))
  }

  /** Cost increments compose by addition, and 0 changes nothing. */
  lemma IncrementCostsCompose(srcs: seq<TransitionSourceNode>, a: int, b: int)
    ensures IncrementCosts(IncrementCosts(srcs, a), b) == IncrementCosts(srcs, a + b)
    ensures IncrementCosts(srcs, 0) == srcs
  {
  }

  /** Flag additions compose by concatenation. */
  lemma AddFlagsCompose(srcs: seq<TransitionSourceNode>, f: seq<nat>, g: seq<nat>)
    ensures AddFlags(AddFlags(srcs, f), g) == AddFlags(srcs, f + g)
  {
    var x := AddFlags(AddFlags(srcs, f), g);
    var y := AddFlags(srcs, f + g);
    forall i | 0 <= i < |srcs|
      ensures x[i] == y[i]
    {
      assert srcs[i].outgoingFlags + f + g == srcs[i].outgoingFlags + (f + g);
    }
  }
}
