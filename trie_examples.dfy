/** The scenarios of the unit tests of plover_hatchery_lib_rs/src/trie/nondeterministic_trie.rs,
    worked out on the model. */
module TrieExamples {
  import opened Wrappers
  import opened Transition
  import opened TrieSpec
  import opened TrieLookup

  /** A new trie has one node, and following a key from the root creates node 1 with
      a one-transition path (nondeterministic_trie.rs:905-918). */
  lemma FollowCreatesNode()
    ensures |Empty().transitions| == 1
    ensures var r := Follow(Empty(), ROOT, Some(1), TransitionCostInfo(1, 0));
      r.1.dst == 1 && |r.1.transitions| == 1 && |r.0.transitions| == 2
  {
    var s := Empty();
    assert Targets(s.transitions, ROOT, Some(1)) == [];
    assert FirstUnused([], UsedBy(s, 0)) == None;
  }

  /** The test at nondeterministic_trie.rs:920-930 as written: the transition is
      costed for translation 0, the node is given translation 42, and the lookup of
      the path reports nothing, since no transition carries a cost for 42. */
  lemma SetAndGetTranslationAsWritten()
    ensures var r := Follow(Empty(), ROOT, Some(1), TransitionCostInfo(1, 0));
      CostsSingle(SetTranslation(r.0, r.1.dst, 42), r.1.dst, r.1.transitions) == []
  {
    var s := Empty();
    var r := Follow(s, ROOT, Some(1), TransitionCostInfo(1, 0));
    assert Targets(s.transitions, ROOT, Some(1)) == [];
    assert FirstUnused([], UsedBy(s, 0)) == None;
    var tk := TransitionKey(ROOT, Some(1), 0);
    assert r.1.transitions == [tk];
    assert r.0.costs == map[TransitionCostKey(tk, 0) := 1];
    var s2 := SetTranslation(r.0, r.1.dst, 42);
    assert TranslationsAt(s2, r.1.dst) == [42];
    assert !AllCosted(s2.costs, r.1.transitions, 42) by {
      assert TransitionCostKey(r.1.transitions[0], 42) !in s2.costs;
    }
    CostsSingleMembers(s2, r.1.dst, r.1.transitions, 42, 1);
    var out := CostsSingle(s2, r.1.dst, r.1.transitions);
    assert s2.nodeTranslations[r.1.dst] == [42];
    assert out == CostsFor(s2.costs, [42], r.1.transitions);
    assert PathCost(s2.costs, r.1.transitions, 42).None?;
  }

  /** The same test with the transition costed for the translation that is stored:
      the lookup reports translation 42 with cost 1, as the test expects. */
  lemma SetAndGetTranslationIntended()
    ensures var r := Follow(Empty(), ROOT, Some(1), TransitionCostInfo(1, 42));
      CostsSingle(SetTranslation(r.0, r.1.dst, 42), r.1.dst, r.1.transitions) == [(42, 1)]
  {
    var s := Empty();
    var r := Follow(s, ROOT, Some(1), TransitionCostInfo(1, 42));
    assert Targets(s.transitions, ROOT, Some(1)) == [];
    assert FirstUnused([], UsedBy(s, 42)) == None;
    var tk := TransitionKey(ROOT, Some(1), 0);
    assert r.1.transitions == [tk];
    assert r.0.costs == map[TransitionCostKey(tk, 42) := 1];
    var s2 := SetTranslation(r.0, r.1.dst, 42);
    assert s2.nodeTranslations[r.1.dst] == [42];
    assert PathCost(s2.costs, r.1.transitions, 42) == Some(1) by {
      assert r.1.transitions[..0] == [];
      assert PathCost(s2.costs, [], 42) == Some(0);
    }
    assert CostsSingle(s2, r.1.dst, r.1.transitions) == CostsFor(s2.costs, [42], r.1.transitions);
    assert [42][..0] == [];
    assert CostsFor(s2.costs, [42], r.1.transitions) == CostsFor(s2.costs, [], r.1.transitions) + [(42, 1)];
  }
}
