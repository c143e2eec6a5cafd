/** The intrabank consonant-inversions plugin. Within one bank of a stroke (the left
    consonants, say) the consonant chords may be written in any order; a lookup
    result is kept only when, bank by bank, the consonants written are consecutive
    consonants of the entry in reading order (optional ones may be skipped), each
    bank continuing where the last one stopped, and nothing is left over at the end.
    While an entry is added, the plugin remembers the consonants of the current bank
    and maps the first transition of each chord it adds to the phoneme it writes. */
module IntrabankConsonantInversions {
  import opened Wrappers
  import opened Steno
  import opened DefItems
  import opened PhonemeNav
  import opened Transition
  import Banks
  import CI = ConsonantInversions
  import TriePy = NondeterministicTriePy

  // ---------------------------------------------------------------------------
  // Consonants of the entry

  /** The first consonant at or after `cur` (`next_consonant`'s inner loop). */
  function ConsonantFrom(ss: seq<Sopheme>, cur: Option<Pos>): (r: Option<Pos>)
    requires cur.Some? ==> ValidPos(ss, cur.value)
    ensures r.Some? ==> ValidPos(ss, r.value) && IsConsonant(KeysymbolAt(ss, r.value))
    decreases CI.SophemesLeft(ss, cur), CI.KeysymbolsLeft(ss, cur)
  {
    if cur.None? then None
    else if IsConsonant(KeysymbolAt(ss, cur.value)) then cur
    else ConsonantFrom(ss, NextPos(ss, cur.value))
  }

  /** `next_consonant`: the first consonant after `p`. */
  function NextConsonant(ss: seq<Sopheme>, p: Pos): (r: Option<Pos>)
    requires ValidPos(ss, p)
    ensures r.Some? ==> ValidPos(ss, r.value) && IsConsonant(KeysymbolAt(ss, r.value))
  {
    ConsonantFrom(ss, NextPos(ss, p))
  }

  /** The entry's first consonant. */
  function FirstConsonantPos(ss: seq<Sopheme>): (r: Option<Pos>)
    ensures r.Some? ==> ValidPos(ss, r.value) && IsConsonant(KeysymbolAt(ss, r.value))
  {
    ConsonantFrom(ss, FirstFrom(ss, 0))
  }

  /** `ConsonantFrom` finds the nearest consonant not before `c`, and nothing only when
      there is none. */
  lemma {:induction false} ConsonantFromIsNearest(ss: seq<Sopheme>, c: Pos)
    requires ValidPos(ss, c)
    ensures var r := ConsonantFrom(ss, Some(c));
      (r.Some? ==> (!Lt(r.value, c) &&
         forall q :: ValidPos(ss, q) && !Lt(q, c) && Lt(q, r.value) ==> !IsConsonant(KeysymbolAt(ss, q)))) &&
      (r.None? ==> forall q :: ValidPos(ss, q) && !Lt(q, c) ==> !IsConsonant(KeysymbolAt(ss, q)))
    decreases CI.SophemesLeft(ss, Some(c)), CI.KeysymbolsLeft(ss, Some(c))
  {
    if !IsConsonant(KeysymbolAt(ss, c)) {
      NextIsNearest(ss, c);
      var next := NextPos(ss, c);
      if next.Some? {
        ConsonantFromIsNearest(ss, next.value);
        forall q | ValidPos(ss, q) && !Lt(q, c) && q != c ensures !Lt(q, next.value) {
          LtIsStrictTotalOrder(q, c, c);
        }
      } else {
        forall q | ValidPos(ss, q) && !Lt(q, c) ensures q == c {
          LtIsStrictTotalOrder(q, c, c);
        }
      }
    }
  }

  /** `next_consonant` gives the nearest later consonant, and nothing only when no
      consonant follows (SophemeSeq.py:129-135). */
  lemma NextConsonantIsNearest(ss: seq<Sopheme>, p: Pos)
    requires ValidPos(ss, p)
    ensures var r := NextConsonant(ss, p);
      (r.Some? ==> (Lt(p, r.value) &&
         forall q :: ValidPos(ss, q) && Lt(p, q) && Lt(q, r.value) ==> !IsConsonant(KeysymbolAt(ss, q)))) &&
      (r.None? ==> forall q :: ValidPos(ss, q) && Lt(p, q) ==> !IsConsonant(KeysymbolAt(ss, q)))
  {
    NextIsNearest(ss, p);
    var n := NextPos(ss, p);
    if n.Some? {
      ConsonantFromIsNearest(ss, n.value);
    }
  }

  /** The first consonant comes before every other consonant, and there is none only
      when the entry has no consonant (Definition.py:30-36). */
  lemma FirstConsonantIsFirst(ss: seq<Sopheme>)
    ensures var r := FirstConsonantPos(ss);
      (r.Some? ==> forall q :: ValidPos(ss, q) && Lt(q, r.value) ==> !IsConsonant(KeysymbolAt(ss, q))) &&
      (r.None? ==> forall q :: ValidPos(ss, q) ==> !IsConsonant(KeysymbolAt(ss, q)))
  {
    FirstIsEarliest(ss);
    var f := FirstFrom(ss, 0);
    if f.Some? {
      ConsonantFromIsNearest(ss, f.value);
    }
  }

  /** Anything that is the nearest later consonant of `p` is `NextConsonant(ss, p)`. */
  lemma NextConsonantUnique(ss: seq<Sopheme>, p: Pos, r: Option<Pos>)
    requires ValidPos(ss, p)
    requires r.Some? ==> ValidPos(ss, r.value) && Lt(p, r.value) && IsConsonant(KeysymbolAt(ss, r.value))
    requires r.Some? ==> forall q :: ValidPos(ss, q) && Lt(p, q) && Lt(q, r.value) ==> !IsConsonant(KeysymbolAt(ss, q))
    requires r.None? ==> forall q :: ValidPos(ss, q) && Lt(p, q) ==> !IsConsonant(KeysymbolAt(ss, q))
    ensures r == NextConsonant(ss, p)
  {
    NextConsonantIsNearest(ss, p);
    var n := NextConsonant(ss, p);
    if r.Some? && n.Some? {
      LtIsStrictTotalOrder(r.value, n.value, r.value);
    }
  }

  /** Anything that is the earliest consonant of the entry is `FirstConsonantPos(ss)`. */
  lemma FirstConsonantUnique(ss: seq<Sopheme>, r: Option<Pos>)
    requires r.Some? ==> ValidPos(ss, r.value) && IsConsonant(KeysymbolAt(ss, r.value))
    requires r.Some? ==> forall q :: ValidPos(ss, q) && Lt(q, r.value) ==> !IsConsonant(KeysymbolAt(ss, q))
    requires r.None? ==> forall q :: ValidPos(ss, q) ==> !IsConsonant(KeysymbolAt(ss, q))
    ensures r == FirstConsonantPos(ss)
  {
    FirstConsonantIsFirst(ss);
    var f := FirstConsonantPos(ss);
    if r.Some? && f.Some? {
      LtIsStrictTotalOrder(r.value, f.value, r.value);
    }
  }

  // ---------------------------------------------------------------------------
  // The walk over the entry's consonants

  /** The loop of `validate_consecutivity`: from consonant `cur`, each phoneme of
      `order` must be the current consonant, possibly after skipping optional ones. */
  function ConsonantWalk(ss: seq<Sopheme>, cur: Option<Pos>, order: seq<Pos>): (r: CI.Walked)
    requires cur.Some? ==> ValidPos(ss, cur.value) && IsConsonant(KeysymbolAt(ss, cur.value))
    ensures r.Reached? && r.next.Some? ==> ValidPos(ss, r.next.value) && IsConsonant(KeysymbolAt(ss, r.next.value))
    decreases |order|, CI.SophemesLeft(ss, cur), CI.KeysymbolsLeft(ss, cur)
  {
    if |order| == 0 then CI.Reached(cur)
    else if cur.None? then CI.Mismatch
    else
      NextConsonantIsNearest(ss, cur.value);
      if cur.value == order[0] then ConsonantWalk(ss, NextConsonant(ss, cur.value), order[1..])
      else if KeysymbolAt(ss, cur.value).optional then ConsonantWalk(ss, NextConsonant(ss, cur.value), order)
      else CI.Mismatch
  }

  /** Every consonant from `from` (inclusive) up to `to` (exclusive) that `order` does
      not list is optional. */
  ghost predicate ConsonantGapsOptional(ss: seq<Sopheme>, from: Pos, to: Pos, order: seq<Pos>) {
    forall q :: ValidPos(ss, q) && IsConsonant(KeysymbolAt(ss, q)) && !Lt(q, from) && Lt(q, to) && q !in order ==>
      KeysymbolAt(ss, q).optional
  }

  /** What a successful walk from `c` over a non-empty `order` means: the phonemes of
      `order` are consonants of the entry in strictly increasing reading order, none
      before `c`, every consonant skipped between `c` and the last of them is optional,
      and the walk stops at the consonant after the last. */
  ghost predicate ConsecutiveConsonants(ss: seq<Sopheme>, c: Pos, order: seq<Pos>, n: Option<Pos>)
    requires |order| > 0
  {
    (forall j :: 0 <= j < |order| ==> ValidPos(ss, order[j]) && IsConsonant(KeysymbolAt(ss, order[j]))) &&
    StrictlySorted(order) && !Lt(order[0], c) &&
    ConsonantGapsOptional(ss, c, order[|order| - 1], order) &&
    ValidPos(ss, order[|order| - 1]) && n == NextConsonant(ss, order[|order| - 1])
  }

  /** The walk's matching step: `c` is the first phoneme of `order`. */
  lemma ConsonantsMatch(ss: seq<Sopheme>, c: Pos, order: seq<Pos>, n: Option<Pos>)
    requires ValidPos(ss, c) && IsConsonant(KeysymbolAt(ss, c)) && |order| > 1 && order[0] == c
    ensures NextConsonant(ss, c).None? ==> !ConsecutiveConsonants(ss, c, order, n)
    ensures NextConsonant(ss, c).Some? ==>
      (ConsecutiveConsonants(ss, c, order, n) <==> ConsecutiveConsonants(ss, NextConsonant(ss, c).value, order[1..], n))
  {
    NextConsonantIsNearest(ss, c);
    var rest := order[1..];
    var last := order[|order| - 1];
    assert rest[|rest| - 1] == last;
    if NextConsonant(ss, c).Some? {
      var c2 := NextConsonant(ss, c).value;
      if ConsecutiveConsonants(ss, c2, rest, n) {
        forall i, j | 0 <= i < j < |order| ensures Lt(order[i], order[j]) {
          if i == 0 {
            assert rest[j - 1] == order[j];
            if j > 1 { LtIsStrictTotalOrder(rest[0], rest[j - 1], rest[0]); }
            LtIsStrictTotalOrder(c, c2, order[j]);
            LtIsStrictTotalOrder(c, rest[0], order[j]);
          } else {
            assert order[i] == rest[i - 1] && order[j] == rest[j - 1];
          }
        }
        forall q | ValidPos(ss, q) && IsConsonant(KeysymbolAt(ss, q)) && !Lt(q, c) && Lt(q, last) && q !in order
          ensures KeysymbolAt(ss, q).optional
        {
          LtIsStrictTotalOrder(q, c, c2);
          assert q !in rest;
        }
        assert forall j :: 0 <= j < |order| ==> ValidPos(ss, order[j]) && IsConsonant(KeysymbolAt(ss, order[j])) by {
          forall j | 0 < j < |order| ensures ValidPos(ss, order[j]) && IsConsonant(KeysymbolAt(ss, order[j])) {
            assert order[j] == rest[j - 1];
          }
        }
      }
      if ConsecutiveConsonants(ss, c, order, n) {
        assert StrictlySorted(rest) by {
          forall i, j | 0 <= i < j < |rest| ensures Lt(rest[i], rest[j]) {
            assert rest[i] == order[i + 1] && rest[j] == order[j + 1];
          }
        }
        assert Lt(c, order[1]) && IsConsonant(KeysymbolAt(ss, order[1]));
        LtIsStrictTotalOrder(order[1], c2, c);
        forall q | ValidPos(ss, q) && IsConsonant(KeysymbolAt(ss, q)) && !Lt(q, c2) && Lt(q, last) && q !in rest
          ensures KeysymbolAt(ss, q).optional
        {
          LtIsStrictTotalOrder(q, c2, c);
          forall j | 0 <= j < |order| ensures order[j] != q {
            if j > 0 { assert rest[j - 1] == order[j]; }
          }
        }
        assert forall j :: 0 <= j < |rest| ==> ValidPos(ss, rest[j]) && IsConsonant(KeysymbolAt(ss, rest[j])) by {
          forall j | 0 <= j < |rest| ensures ValidPos(ss, rest[j]) && IsConsonant(KeysymbolAt(ss, rest[j])) {
            assert rest[j] == order[j + 1];
          }
        }
      }
    } else {
      assert ValidPos(ss, order[1]) && IsConsonant(KeysymbolAt(ss, order[1])) ==> !Lt(order[0], order[1]);
      assert StrictlySorted(order) ==> Lt(order[0], order[1]);
    }
  }

  /** The walk's skipping step: `c` is optional and not the first phoneme of `order`. */
  lemma ConsonantsSkip(ss: seq<Sopheme>, c: Pos, order: seq<Pos>, n: Option<Pos>)
    requires ValidPos(ss, c) && IsConsonant(KeysymbolAt(ss, c)) && |order| > 0 && order[0] != c
    requires KeysymbolAt(ss, c).optional
    ensures NextConsonant(ss, c).None? ==> !ConsecutiveConsonants(ss, c, order, n)
    ensures NextConsonant(ss, c).Some? ==>
      (ConsecutiveConsonants(ss, c, order, n) <==> ConsecutiveConsonants(ss, NextConsonant(ss, c).value, order, n))
  {
    NextConsonantIsNearest(ss, c);
    var last := order[|order| - 1];
    LtIsStrictTotalOrder(order[0], c, c);
    if NextConsonant(ss, c).Some? {
      var c2 := NextConsonant(ss, c).value;
      if ConsecutiveConsonants(ss, c2, order, n) {
        LtIsStrictTotalOrder(c, c2, order[0]);
        forall q | ValidPos(ss, q) && IsConsonant(KeysymbolAt(ss, q)) && !Lt(q, c) && Lt(q, last) && q !in order
          ensures KeysymbolAt(ss, q).optional
        {
          LtIsStrictTotalOrder(q, c, c2);
        }
      }
      if ConsecutiveConsonants(ss, c, order, n) {
        assert IsConsonant(KeysymbolAt(ss, order[0]));
        LtIsStrictTotalOrder(order[0], c2, c);
        forall q | ValidPos(ss, q) && IsConsonant(KeysymbolAt(ss, q)) && !Lt(q, c2) && Lt(q, last) && q !in order
          ensures KeysymbolAt(ss, q).optional
        {
          LtIsStrictTotalOrder(q, c2, c);
        }
      }
    } else {
      assert ValidPos(ss, order[0]) && IsConsonant(KeysymbolAt(ss, order[0])) ==> !Lt(c, order[0]);
    }
  }

  /** The walk's failing step: `c` is required and not the first phoneme of `order`. */
  lemma ConsonantsRequired(ss: seq<Sopheme>, c: Pos, order: seq<Pos>, n: Option<Pos>)
    requires ValidPos(ss, c) && IsConsonant(KeysymbolAt(ss, c)) && |order| > 0 && order[0] != c
    requires !KeysymbolAt(ss, c).optional
    ensures !ConsecutiveConsonants(ss, c, order, n)
  {
    var last := order[|order| - 1];
    if StrictlySorted(order) && !Lt(order[0], c) {
      LtIsStrictTotalOrder(order[0], c, c);
      forall j | 0 < j < |order| ensures Lt(c, order[j]) {
        LtIsStrictTotalOrder(c, order[0], order[j]);
      }
      assert Lt(c, last);
      assert c !in order;
      assert !ConsonantGapsOptional(ss, c, last, order);
    }
  }

  /** The walk from consonant `c` over non-empty `order` succeeds, stopping at `n`,
      exactly when the phonemes of `order` are consecutive consonants from `c`. */
  lemma {:induction false} ConsonantWalkIff(ss: seq<Sopheme>, c: Pos, order: seq<Pos>, n: Option<Pos>)
    requires ValidPos(ss, c) && IsConsonant(KeysymbolAt(ss, c)) && |order| > 0
    ensures ConsonantWalk(ss, Some(c), order) == CI.Reached(n) <==> ConsecutiveConsonants(ss, c, order, n)
    decreases |order|, CI.SophemesLeft(ss, Some(c)), CI.KeysymbolsLeft(ss, Some(c))
  {
    NextConsonantIsNearest(ss, c);
    var next := NextConsonant(ss, c);
    if c == order[0] {
      if |order| == 1 {
        assert ConsonantWalk(ss, next, order[1..]) == CI.Reached(next);
      } else {
        ConsonantsMatch(ss, c, order, n);
        if next.Some? {
          ConsonantWalkIff(ss, next.value, order[1..], n);
        } else {
          assert ConsonantWalk(ss, next, order[1..]) == CI.Mismatch;
        }
      }
    } else if KeysymbolAt(ss, c).optional {
      ConsonantsSkip(ss, c, order, n);
      if next.Some? {
        ConsonantWalkIff(ss, next.value, order, n);
      }
    } else {
      ConsonantsRequired(ss, c, order, n);
    }
  }

  // ---------------------------------------------------------------------------
  // The filter's state machine

  /** A key of the lookup trie: the stroke boundary or a steno key. */
  datatype TrieKey = StrokeBoundary | StenoKey(key: Key)

  /** What the filter reads besides the lookup result: the entry's sophemes, the
      theory's banks, the trie's keys by id, and the phoneme recorded for the first
      transition of each chord while the entry was added. */
  datatype Context = Context(
    ss: seq<Sopheme>,
    banks: Banks.BankStrokes,
    keys: seq<TrieKey>,
    phonemeOf: map<TransitionCostKey, Pos>)

  /** The `Filterer`'s fields: the keys of the current bank, the phonemes written in
      it, and the consonant the next bank must start from (nothing before the first
      bank and after the last consonant). */
  datatype BankState = BankState(stroke: Stroke, phonemes: seq<Pos>, next: Option<Pos>)

  const FRESH := BankState({}, [], None)

  /** The remembered phoneme is a consonant of the entry. */
  predicate NextValid(ss: seq<Sopheme>, st: BankState) {
    st.next.Some? ==> ValidPos(ss, st.next.value) && IsConsonant(KeysymbolAt(ss, st.next.value))
  }

  /** `add_to_stroke`: a stroke without vowel keys joins the bank's keys, one with a
      vowel key leaves them as they are; so the bank never holds a vowel key. */
  function AddToStrokeSpec(banks: Banks.BankStrokes, st: BankState, stroke: Stroke): (r: BankState)
    ensures r.phonemes == st.phonemes && r.next == st.next
    ensures stroke * banks.mid == {} ==> r.stroke == st.stroke + stroke
    ensures stroke * banks.mid != {} ==> r.stroke == st.stroke
    ensures st.stroke * banks.mid == {} ==> r.stroke * banks.mid == {}
  {
    if stroke * banks.mid == {} then st.(stroke := st.stroke + stroke) else st
  }

  /** `is_left_bank`: the bank holds a left-bank key. */
  predicate InLeftBank(banks: Banks.BankStrokes, st: BankState) {
    st.stroke * banks.left != {}
  }

  /** Where a bank's walk starts: the remembered consonant, else the entry's first. */
  function WalkStart(ss: seq<Sopheme>, st: BankState): (r: Option<Pos>)
    requires NextValid(ss, st)
    ensures r.Some? ==> ValidPos(ss, r.value) && IsConsonant(KeysymbolAt(ss, r.value))
  {
    if st.next.Some? then st.next else FirstConsonantPos(ss)
  }

  /** `validate_consecutivity`, starting a first bank at the entry's first consonant:
      whether the bank's phonemes continue the entry, and the state with the consonant
      reached remembered. */
  function Consecutivity(ss: seq<Sopheme>, st: BankState): (r: (bool, BankState))
    requires NextValid(ss, st)
    ensures NextValid(ss, r.1)
    ensures r.1.stroke == st.stroke && r.1.phonemes == st.phonemes
    ensures !r.0 ==> r.1 == st
  {
    if |st.phonemes| == 0 then (true, st)
    else
      var start := WalkStart(ss, st);
      if start.None? then (true, st)
      else match ConsonantWalk(ss, start, CI.SortByIndices(st.phonemes))
        case Mismatch => (false, st)
        case Reached(n) => (true, st.(next := n))
  }

  /** A bank with phonemes passes exactly when its phonemes, in reading order, are
      consecutive consonants from where the walk starts; the consonant after the last
      of them is remembered. */
  lemma ConsecutivityMeaning(ss: seq<Sopheme>, st: BankState)
    requires NextValid(ss, st) && |st.phonemes| > 0 && WalkStart(ss, st).Some?
    ensures Consecutivity(ss, st).0 <==>
      ConsecutiveConsonants(ss, WalkStart(ss, st).value, CI.SortByIndices(st.phonemes), Consecutivity(ss, st).1.next)
  {
    var order := CI.SortByIndices(st.phonemes);
    assert |order| > 0 by {
      assert st.phonemes[0] in multiset(order);
    }
    ConsonantWalkIff(ss, WalkStart(ss, st).value, order, Consecutivity(ss, st).1.next);
  }

  /** The outcome of a call that may raise. */
  datatype Checked = Returns(ok: bool, st: BankState) | RaisesAttributeError

  /** `validate_consecutivity` as written: with no remembered phoneme it asks the
      phoneme's sequence for `first_consonant`, which `SophemeSeq` does not define, so
      every non-empty bank validated before a consonant is remembered raises; otherwise
      it behaves as `Consecutivity`. */
  function ConsecutivityAsWritten(ss: seq<Sopheme>, st: BankState): (r: Checked)
    requires NextValid(ss, st)
    ensures r.RaisesAttributeError? <==> |st.phonemes| > 0 && st.next.None?
    ensures r.Returns? ==> (r.ok, r.st) == Consecutivity(ss, st)
  {
    if |st.phonemes| == 0 then Returns(true, st)
    else if st.next.None? then RaisesAttributeError
    else
      var c := Consecutivity(ss, st);
      Returns(c.0, c.1)
  }

  /** `validate_and_start_new_bank`: validate, then clear the bank. */
  function StartNewBank(ss: seq<Sopheme>, st: BankState): (r: (bool, BankState))
    requires NextValid(ss, st)
    ensures NextValid(ss, r.1)
    ensures r.0 == Consecutivity(ss, st).0
    ensures r.0 ==> r.1.stroke == {} && r.1.phonemes == [] && r.1.next == Consecutivity(ss, st).1.next
    ensures !r.0 ==> r.1 == st
  {
    var c := Consecutivity(ss, st);
    if !c.0 then c else (true, c.1.(stroke := {}, phonemes := []))
  }

  /** The trie knows the key of the transition. */
  predicate KeyKnown(keys: seq<TrieKey>, t: TransitionKey) {
    t.keyId.Some? ==> t.keyId.value < |keys|
  }

  /** The key that closes the current bank: the stroke boundary, or a key outside the
      left bank while the bank holds left-bank keys. */
  predicate ClosesBank(banks: Banks.BankStrokes, st: BankState, key: TrieKey) {
    key.StrokeBoundary? || (InLeftBank(banks, st) && {key.key} - banks.left != {})
  }

  /** `check_transition`. */
  function CheckTransitionSpec(cx: Context, st: BankState, ck: TransitionCostKey): (r: (bool, BankState))
    requires NextValid(cx.ss, st) && KeyKnown(cx.keys, ck.transition)
    ensures NextValid(cx.ss, r.1)
  {
    if ck.transition.keyId.None? then (true, st)
    else
      var key := cx.keys[ck.transition.keyId.value];
      if ClosesBank(cx.banks, st, key) then StartNewBank(cx.ss, st)
      else
        var recorded := if ck in cx.phonemeOf then st.(phonemes := st.phonemes + [cx.phonemeOf[ck]]) else st;
        (true, AddToStrokeSpec(cx.banks, recorded, {key.key}))
  }

  /** The three cases of `check_transition`: an epsilon transition passes and changes
      nothing; a key that closes the bank passes exactly when the bank validates, and
      then leaves an empty bank (its own phoneme is not recorded); any other key passes,
      records its phoneme, if it has one, and joins the bank's keys unless it is a
      vowel key. The bank never holds a vowel key. */
  lemma CheckTransitionCases(cx: Context, st: BankState, ck: TransitionCostKey)
    requires NextValid(cx.ss, st) && KeyKnown(cx.keys, ck.transition)
    ensures var r := CheckTransitionSpec(cx, st, ck);
      (ck.transition.keyId.None? ==> r == (true, st)) &&
      (ck.transition.keyId.Some? && ClosesBank(cx.banks, st, cx.keys[ck.transition.keyId.value]) ==>
         (r.0 <==> Consecutivity(cx.ss, st).0) && (r.0 ==> r.1.phonemes == [] && r.1.stroke == {})) &&
      (ck.transition.keyId.Some? && !ClosesBank(cx.banks, st, cx.keys[ck.transition.keyId.value]) ==>
         var k := cx.keys[ck.transition.keyId.value].key;
         r.0 && r.1.next == st.next &&
         r.1.phonemes == st.phonemes + (if ck in cx.phonemeOf then [cx.phonemeOf[ck]] else []) &&
         r.1.stroke == (if k in cx.banks.mid then st.stroke else st.stroke + {k})) &&
      (st.stroke * cx.banks.mid == {} ==> r.1.stroke * cx.banks.mid == {})
  {
    if ck.transition.keyId.Some? {
      var key := cx.keys[ck.transition.keyId.value];
      if !ClosesBank(cx.banks, st, key) {
        if key.key in cx.banks.mid {
          assert key.key in {key.key} * cx.banks.mid;
        } else {
          assert {key.key} * cx.banks.mid == {};
        }
        if ck !in cx.phonemeOf {
          assert st.phonemes + [] == st.phonemes;
        }
      }
    }
  }

  /** Every transition's key is known to the trie. */
  predicate AllKeysKnown(keys: seq<TrieKey>, ts: seq<TransitionCostKey>) {
    forall i :: 0 <= i < |ts| ==> KeyKnown(keys, ts[i].transition)
  }

  /** The checks of the handler's loop from state `st` on, stopping at the first that
      fails. */
  function RunFrom(cx: Context, st: BankState, ts: seq<TransitionCostKey>): (r: (bool, BankState))
    requires NextValid(cx.ss, st) && AllKeysKnown(cx.keys, ts)
    ensures NextValid(cx.ss, r.1)
    decreases |ts|
  {
    if |ts| == 0 then (true, st)
    else
      var r1 := CheckTransitionSpec(cx, st, ts[0]);
      if !r1.0 then r1 else RunFrom(cx, r1.1, ts[1..])
  }

  /** The state after applying every check, whether or not it passes. */
  function After(cx: Context, st: BankState, ts: seq<TransitionCostKey>): (r: BankState)
    requires NextValid(cx.ss, st) && AllKeysKnown(cx.keys, ts)
    ensures NextValid(cx.ss, r)
    decreases |ts|
  {
    if |ts| == 0 then st else After(cx, CheckTransitionSpec(cx, st, ts[0]).1, ts[1..])
  }

  /** The run passes exactly when every transition passes in the state the earlier
      ones leave, and then ends in the state they leave. */
  lemma {:induction false} RunFromIff(cx: Context, st: BankState, ts: seq<TransitionCostKey>)
    requires NextValid(cx.ss, st) && AllKeysKnown(cx.keys, ts)
    ensures RunFrom(cx, st, ts).0 <==>
      forall i :: 0 <= i < |ts| ==> CheckTransitionSpec(cx, After(cx, st, ts[..i]), ts[i]).0
    ensures RunFrom(cx, st, ts).0 ==> RunFrom(cx, st, ts).1 == After(cx, st, ts)
    decreases |ts|
  {
    if |ts| > 0 {
      var r1 := CheckTransitionSpec(cx, st, ts[0]);
      var rest := ts[1..];
      assert AllKeysKnown(cx.keys, rest) by {
        forall i | 0 <= i < |rest| ensures KeyKnown(cx.keys, rest[i].transition) { assert rest[i] == ts[i + 1]; }
      }
      assert After(cx, st, ts[..0]) == st by { assert ts[..0] == []; }
      forall i | 0 < i <= |rest|
        ensures After(cx, st, ts[..i]) == After(cx, r1.1, rest[..i - 1])
      {
        assert ts[..i][1..] == rest[..i - 1];
      }
      if r1.0 {
        RunFromIff(cx, r1.1, rest);
        if forall i :: 0 <= i < |rest| ==> CheckTransitionSpec(cx, After(cx, r1.1, rest[..i]), rest[i]).0 {
          forall i | 0 <= i < |ts| ensures CheckTransitionSpec(cx, After(cx, st, ts[..i]), ts[i]).0 {
            if i > 0 { assert ts[i] == rest[i - 1]; }
          }
        } else {
          var i :| 0 <= i < |rest| && !CheckTransitionSpec(cx, After(cx, r1.1, rest[..i]), rest[i]).0;
          assert ts[i + 1] == rest[i];
          assert !CheckTransitionSpec(cx, After(cx, st, ts[..i + 1]), ts[i + 1]).0;
        }
      } else {
        assert !CheckTransitionSpec(cx, After(cx, st, ts[..0]), ts[0]).0;
      }
    }
  }

  /** `final_validate`: the last bank passes and no consonant is left to write. */
  function FinalValidateSpec(ss: seq<Sopheme>, st: BankState): (r: bool)
    requires NextValid(ss, st)
    ensures r ==> Consecutivity(ss, st).0 && Consecutivity(ss, st).1.next.None?
    ensures Consecutivity(ss, st).0 && Consecutivity(ss, st).1.next.None? ==> r
  {
    var c := Consecutivity(ss, st);
    c.0 && c.1.next.None?
  }

  /** The lookup result's transitions as keys of the phoneme map. */
  function CostKeys(transitions: seq<TransitionKey>, translationId: nat): (r: seq<TransitionCostKey>)
    ensures |r| == |transitions|
    ensures forall i :: 0 <= i < |r| ==> r[i] == TransitionCostKey(transitions[i], translationId)
  {
    seq(|transitions|, i requires 0 <= i < |transitions| => TransitionCostKey(transitions[i], translationId))
  }

  /** The handler's verdict from state `st` on. */
  function AcceptedFrom(cx: Context, st: BankState, ts: seq<TransitionCostKey>): (r: bool)
    requires NextValid(cx.ss, st) && AllKeysKnown(cx.keys, ts)
  {
    var run := RunFrom(cx, st, ts);
    run.0 && FinalValidateSpec(cx.ss, run.1)
  }

  /** Whether the handler keeps a lookup result with these transitions. */
  function Accepted(cx: Context, transitions: seq<TransitionKey>, translationId: nat): (r: bool)
    requires forall i :: 0 <= i < |transitions| ==> KeyKnown(cx.keys, transitions[i])
  {
    AcceptedFrom(cx, FRESH, CostKeys(transitions, translationId))
  }

  /** A result is kept exactly when every transition passes its check and the final
      validation holds in the state they leave. */
  lemma AcceptedIff(cx: Context, transitions: seq<TransitionKey>, translationId: nat)
    requires forall i :: 0 <= i < |transitions| ==> KeyKnown(cx.keys, transitions[i])
    ensures var ts := CostKeys(transitions, translationId);
      Accepted(cx, transitions, translationId) <==>
        (forall i :: 0 <= i < |ts| ==> CheckTransitionSpec(cx, After(cx, FRESH, ts[..i]), ts[i]).0) &&
        FinalValidateSpec(cx.ss, After(cx, FRESH, ts))
  {
    RunFromIff(cx, FRESH, CostKeys(transitions, translationId));
  }

  // ---------------------------------------------------------------------------
  // Two consonants of one bank written in inverted order

  /** The entry's consonants are exactly `p1` then `p2`. */
  predicate TwoConsonants(ss: seq<Sopheme>, p1: Pos, p2: Pos) {
    FirstConsonantPos(ss) == Some(p1) && ValidPos(ss, p1) &&
    NextConsonant(ss, p1) == Some(p2) && ValidPos(ss, p2) && NextConsonant(ss, p2).None?
  }

  /** Two left-bank keys, neither a vowel key, whose transitions `ta` and `tb` write
      `pa` and `pb`. */
  predicate LeftKeyPair(cx: Context, tid: nat, ta: TransitionKey, tb: TransitionKey, pa: Pos, pb: Pos) {
    ta.keyId.Some? && ta.keyId.value < |cx.keys| && cx.keys[ta.keyId.value].StenoKey? &&
    tb.keyId.Some? && tb.keyId.value < |cx.keys| && cx.keys[tb.keyId.value].StenoKey? &&
    cx.keys[ta.keyId.value].key in cx.banks.left && cx.keys[ta.keyId.value].key !in cx.banks.mid &&
    cx.keys[tb.keyId.value].key in cx.banks.left && cx.keys[tb.keyId.value].key !in cx.banks.mid &&
    cx.phonemeOf.Keys >= {TransitionCostKey(ta, tid), TransitionCostKey(tb, tid)} &&
    cx.phonemeOf[TransitionCostKey(ta, tid)] == pa && cx.phonemeOf[TransitionCostKey(tb, tid)] == pb
  }

  /** Reading order puts the earlier consonant first. */
  lemma SortedInvertedPair(p1: Pos, p2: Pos)
    requires Lt(p1, p2)
    ensures CI.SortByIndices([p2, p1]) == [p1, p2]
  {
    assert [p2, p1][..1] == [p2];
    assert CI.SortByIndices([p2]) == [p2];
  }

  /** The left bank written in inverted order holds both consonants, second first. */
  lemma InvertedBankState(cx: Context, tid: nat, ta: TransitionKey, tb: TransitionKey, p1: Pos, p2: Pos)
    requires LeftKeyPair(cx, tid, ta, tb, p2, p1)
    ensures var ts := CostKeys([ta, tb], tid);
      AllKeysKnown(cx.keys, ts) && RunFrom(cx, FRESH, ts).0 &&
      RunFrom(cx, FRESH, ts).1.phonemes == [p2, p1] && RunFrom(cx, FRESH, ts).1.next.None?
  {
    var ts := CostKeys([ta, tb], tid);
    var ka := cx.keys[ta.keyId.value].key;
    var kb := cx.keys[tb.keyId.value].key;
    assert !ClosesBank(cx.banks, FRESH, cx.keys[ta.keyId.value]);
    CheckTransitionCases(cx, FRESH, ts[0]);
    var r1 := CheckTransitionSpec(cx, FRESH, ts[0]);
    assert r1.0 && r1.1.phonemes == [p2] && r1.1.next.None? && ka in r1.1.stroke;
    assert ka in r1.1.stroke * cx.banks.left;
    assert !ClosesBank(cx.banks, r1.1, cx.keys[tb.keyId.value]) by {
      assert {kb} - cx.banks.left == {};
    }
    CheckTransitionCases(cx, r1.1, ts[1]);
    var r2 := CheckTransitionSpec(cx, r1.1, ts[1]);
    assert r2.0 && r2.1.phonemes == [p2, p1] && r2.1.next.None?;
    assert ts[1..] == [ts[1]] && [ts[1]][1..] == [];
    assert RunFrom(cx, r2.1, []) == (true, r2.1);
    assert RunFrom(cx, r1.1, ts[1..]) == (true, r2.1);
    assert RunFrom(cx, FRESH, ts) == (true, r2.1);
  }

  /** Within one bank the consonants may be written in either order: the bank is
      checked in reading order. */
  lemma InversionWithinBankAccepted(cx: Context, tid: nat, ta: TransitionKey, tb: TransitionKey, p1: Pos, p2: Pos)
    requires TwoConsonants(cx.ss, p1, p2) && LeftKeyPair(cx, tid, ta, tb, p2, p1)
    ensures Accepted(cx, [ta, tb], tid)
  {
    var ts := CostKeys([ta, tb], tid);
    InvertedBankState(cx, tid, ta, tb, p1, p2);
    var st := RunFrom(cx, FRESH, ts).1;
    NextConsonantIsNearest(cx.ss, p1);
    SortedInvertedPair(p1, p2);
    assert WalkStart(cx.ss, st) == Some(p1);
    assert [p1, p2][1..] == [p2] && [p2][1..] == [];
    assert ConsonantWalk(cx.ss, None, []) == CI.Reached(None);
    assert ConsonantWalk(cx.ss, Some(p2), [p2]) == CI.Reached(None);
    assert ConsonantWalk(cx.ss, Some(p1), [p1, p2]) == CI.Reached(None);
  }

  /** As written, the final validation of that same result raises `AttributeError`. */
  lemma InversionWithinBankAsWrittenRaises(cx: Context, tid: nat, ta: TransitionKey, tb: TransitionKey, p1: Pos, p2: Pos)
    requires LeftKeyPair(cx, tid, ta, tb, p2, p1)
    ensures var ts := CostKeys([ta, tb], tid);
      AllKeysKnown(cx.keys, ts) && RunFrom(cx, FRESH, ts).0 &&
      ConsecutivityAsWritten(cx.ss, RunFrom(cx, FRESH, ts).1).RaisesAttributeError?
  {
    InvertedBankState(cx, tid, ta, tb, p1, p2);
  }

  // ---------------------------------------------------------------------------
  // The imperative filter

  /** The loop of `validate_consecutivity`: walks the entry's consonants from
      `start`, matching each phoneme of `order` in turn and skipping optional ones. */
  method WalkConsonants(ss: seq<Sopheme>, start: Option<Pos>, order: seq<Pos>) returns (r: CI.Walked)
    requires start.Some? ==> ValidPos(ss, start.value) && IsConsonant(KeysymbolAt(ss, start.value))
    ensures r == ConsonantWalk(ss, start, order)
  {
    var current := start;
    var i := 0;
    while i < |order|
      invariant 0 <= i <= |order|
      invariant current.Some? ==> ValidPos(ss, current.value) && IsConsonant(KeysymbolAt(ss, current.value))
      invariant ConsonantWalk(ss, current, order[i..]) == ConsonantWalk(ss, start, order)
      decreases |order| - i, CI.SophemesLeft(ss, current), CI.KeysymbolsLeft(ss, current)
    {
      if current.None? {
        return CI.Mismatch;
      }
      var c := current.value;
      NextConsonantIsNearest(ss, c);
      if c == order[i] {
        assert order[i..][1..] == order[i + 1..];
        i := i + 1;
        current := NextOfClass(ss, c, false);
        NextConsonantUnique(ss, c, current);
        continue;
      }
      if KeysymbolAt(ss, c).optional {
        current := NextOfClass(ss, c, false);
        NextConsonantUnique(ss, c, current);
        continue;
      }
      return CI.Mismatch;
    }
    return CI.Reached(current);
  }

  /** `Filterer`: the state of one lookup result's check. */
  class Filterer {
    const cx: Context
    var currentBankStroke: Stroke
    var currentBankPhonemes: seq<Pos>
    var nextPhonemeToValidate: Option<Pos>

    function State(): BankState
      reads this
    {
      BankState(currentBankStroke, currentBankPhonemes, nextPhonemeToValidate)
    }

    /** The remembered phoneme is a consonant of the entry and the bank holds no vowel
        key. */
    predicate Valid()
      reads this
    {
      NextValid(cx.ss, State()) && currentBankStroke * cx.banks.mid == {}
    }

    constructor(cx: Context)
      ensures this.cx == cx && State() == FRESH && Valid()
    {
      this.cx := cx;
      currentBankStroke := {};
      currentBankPhonemes := [];
      nextPhonemeToValidate := None;
    }

    /** `add_to_stroke`. */
    method AddToStroke(stroke: Stroke)
      requires Valid()
      modifies this
      ensures Valid() && State() == AddToStrokeSpec(cx.banks, old(State()), stroke)
    {
      if stroke * cx.banks.mid == {} {
        currentBankStroke := currentBankStroke + stroke;
      }
    }

    /** `is_left_bank`. */
    predicate IsLeftBank()
      reads this
    {
      InLeftBank(cx.banks, State())
    }

    /** `reset`. */
    method Reset()
      modifies this
      ensures State() == old(State()).(stroke := {}, phonemes := [])
    {
      currentBankStroke := {};
      currentBankPhonemes := [];
    }

    /** `validate_consecutivity`, starting a first bank at the entry's first
        consonant. */
    method ValidateConsecutivity() returns (ok: bool)
      requires Valid()
      modifies this
      ensures Valid() && (ok, State()) == Consecutivity(cx.ss, old(State()))
    {
      if |currentBankPhonemes| == 0 {
        return true;
      }
      var sortedPhonemes := CI.SortByIndices(currentBankPhonemes);
      var current: Option<Pos>;
      if nextPhonemeToValidate.Some? {
        current := nextPhonemeToValidate;
      } else {
        current := FirstConsonant(cx.ss);
        FirstConsonantUnique(cx.ss, current);
      }
      if current.None? {
        return true;
      }
      assert current == WalkStart(cx.ss, State());
      var walked := WalkConsonants(cx.ss, current, sortedPhonemes);
      if walked.Mismatch? {
        return false;
      }
      nextPhonemeToValidate := walked.next;
      return true;
    }

    /** `validate_and_start_new_bank`. */
    method ValidateAndStartNewBank() returns (ok: bool)
      requires Valid()
      modifies this
      ensures Valid() && (ok, State()) == StartNewBank(cx.ss, old(State()))
    {
      ok := ValidateConsecutivity();
      if !ok {
        return false;
      }
      Reset();
      return true;
    }

    /** `check_transition`. */
    method CheckTransition(ck: TransitionCostKey) returns (ok: bool)
      requires Valid() && KeyKnown(cx.keys, ck.transition)
      modifies this
      ensures Valid() && (ok, State()) == CheckTransitionSpec(cx, old(State()), ck)
    {
      if ck.transition.keyId.None? {
        return true;
      }
      var key := cx.keys[ck.transition.keyId.value];
      if key.StrokeBoundary? {
        ok := ValidateAndStartNewBank();
        return;
      }
      var keyStroke := {key.key};
      if IsLeftBank() && keyStroke - cx.banks.left != {} {
        ok := ValidateAndStartNewBank();
        return;
      }
      if ck in cx.phonemeOf {
        currentBankPhonemes := currentBankPhonemes + [cx.phonemeOf[ck]];
      }
      AddToStroke(keyStroke);
      return true;
    }

    /** `final_validate`. */
    method FinalValidate() returns (ok: bool)
      requires Valid()
      modifies this
      ensures ok == FinalValidateSpec(cx.ss, old(State()))
    {
      ok := ValidateConsecutivity();
      if !ok {
        return false;
      }
      return nextPhonemeToValidate.None?;
    }
  }

  /** The `check_should_keep` handler: a fresh filter checks each transition of the
      lookup result and then the last bank. */
  method CheckShouldKeep(cx: Context, transitions: seq<TransitionKey>, translationId: nat) returns (ok: bool)
    requires forall i :: 0 <= i < |transitions| ==> KeyKnown(cx.keys, transitions[i])
    ensures ok == Accepted(cx, transitions, translationId)
  {
    var ts := CostKeys(transitions, translationId);
    var filterer := new Filterer(cx);
    var i := 0;
    while i < |transitions|
      invariant 0 <= i <= |transitions| && filterer.Valid() && filterer.cx == cx
      invariant AllKeysKnown(cx.keys, ts[i..])
      invariant Accepted(cx, transitions, translationId) == AcceptedFrom(cx, filterer.State(), ts[i..])
      decreases |transitions| - i
    {
      assert ts[i..][1..] == ts[i + 1..];
      ok := filterer.CheckTransition(TransitionCostKey(transitions[i], translationId));
      if !ok {
        return false;
      }
      i := i + 1;
    }
    assert ts[i..] == [];
    ok := filterer.FinalValidate();
  }

  // ---------------------------------------------------------------------------
  // Consonants remembered while an entry is added

  /** The source node left by an inversion branch, if there is one. */
  function BranchSrc(node: Option<nat>): (r: seq<TriePy.NodeSrc>)
    ensures node.None? ==> r == []
    ensures node.Some? ==> r == [TriePy.NodeSrc(node.value, 0)]
  {
    if node.Some? then [TriePy.NodeSrc(node.value, 0)] else []
  }

  /** The per-entry state of the plugin: the nodes the inversion branches leave from,
      and the consonants completed since the last required vowel. */
  class InversionsState {
    const ss: seq<Sopheme>
    var inversionBranchLeftSrcNodes: seq<TriePy.NodeSrc>
    var inversionBranchRightSrcNodes: seq<TriePy.NodeSrc>
    var pastPhonemes: seq<Pos>

    /** Every remembered phoneme is a position of the entry. */
    predicate Valid()
      reads this
    {
      forall i :: 0 <= i < |pastPhonemes| ==> ValidPos(ss, pastPhonemes[i])
    }

    constructor(ss: seq<Sopheme>)
      ensures this.ss == ss && Valid()
      ensures inversionBranchLeftSrcNodes == [] && inversionBranchRightSrcNodes == [] && pastPhonemes == []
    {
      this.ss := ss;
      inversionBranchLeftSrcNodes := [];
      inversionBranchRightSrcNodes := [];
      pastPhonemes := [];
    }

    /** The bookkeeping of `before_complete_consonant`: with a current phoneme, it is
        remembered, and the bank's sources and the branch nodes just joined become
        sources of the next inversion branches. The trie edges it adds are not part of
        this model. */
    method BeforeCompleteConsonant(current: Option<Pos>, leftSrcs: seq<TriePy.NodeSrc>, rightSrcs: seq<TriePy.NodeSrc>,
                                   leftBranchNode: Option<nat>, rightBranchNode: Option<nat>)
      requires Valid() && (current.Some? ==> ValidPos(ss, current.value))
      modifies this
      ensures Valid()
      ensures current.None? ==> unchanged(this)
      ensures current.Some? ==>
        pastPhonemes == old(pastPhonemes) + [current.value] &&
        inversionBranchLeftSrcNodes == old(inversionBranchLeftSrcNodes) + leftSrcs + BranchSrc(leftBranchNode) &&
        inversionBranchRightSrcNodes == old(inversionBranchRightSrcNodes) + rightSrcs + BranchSrc(rightBranchNode)
    {
      if current.None? {
        return;
      }
      pastPhonemes := pastPhonemes + [current.value];
      inversionBranchLeftSrcNodes := inversionBranchLeftSrcNodes + leftSrcs;
      inversionBranchRightSrcNodes := inversionBranchRightSrcNodes + rightSrcs;
      if leftBranchNode.Some? {
        inversionBranchLeftSrcNodes := inversionBranchLeftSrcNodes + [TriePy.NodeSrc(leftBranchNode.value, 0)];
      }
      if rightBranchNode.Some? {
        inversionBranchRightSrcNodes := inversionBranchRightSrcNodes + [TriePy.NodeSrc(rightBranchNode.value, 0)];
      }
    }

    /** `before_complete_vowel`: the state is cleared unless the current phoneme is
        optional. */
    method BeforeCompleteVowel(current: Option<Pos>)
      requires Valid() && (current.Some? ==> ValidPos(ss, current.value))
      modifies this
      ensures Valid()
      ensures current.Some? && KeysymbolAt(ss, current.value).optional ==> unchanged(this)
      ensures !(current.Some? && KeysymbolAt(ss, current.value).optional) ==>
        inversionBranchLeftSrcNodes == [] && inversionBranchRightSrcNodes == [] && pastPhonemes == []
    {
      if current.Some? && KeysymbolAt(ss, current.value).optional {
        return;
      }
      inversionBranchLeftSrcNodes := [];
      inversionBranchRightSrcNodes := [];
      pastPhonemes := [];
    }
  }

  /** The phoneme map shared by the build and the filter. */
  class GlobalState {
    var transitionsToPhonemes: map<TransitionCostKey, Pos>

    /** `begin_build_lookup` starts from an empty map. */
    constructor()
      ensures transitionsToPhonemes == map[]
    {
      transitionsToPhonemes := map[];
    }

    /** Maps the first transition of each joined path, for the entry, to `phoneme`;
        the other keys keep their phonemes. */
    method RecordFirstTransitions(firsts: seq<TransitionKey>, entryId: nat, phoneme: Pos)
      modifies this
      ensures forall k :: k in transitionsToPhonemes <==>
        k in old(transitionsToPhonemes) || exists i :: 0 <= i < |firsts| && k == TransitionCostKey(firsts[i], entryId)
      ensures forall i :: 0 <= i < |firsts| ==> transitionsToPhonemes[TransitionCostKey(firsts[i], entryId)] == phoneme
      ensures forall k :: k in old(transitionsToPhonemes) && k.translationId != entryId ==>
        transitionsToPhonemes[k] == old(transitionsToPhonemes)[k]
      ensures forall k :: k in old(transitionsToPhonemes) && k.transition !in firsts ==>
        transitionsToPhonemes[k] == old(transitionsToPhonemes)[k]
    {
      for i := 0 to |firsts|
        invariant forall k :: k in transitionsToPhonemes <==>
          k in old(transitionsToPhonemes) || exists j :: 0 <= j < i && k == TransitionCostKey(firsts[j], entryId)
        invariant forall j :: 0 <= j < i ==> transitionsToPhonemes[TransitionCostKey(firsts[j], entryId)] == phoneme
        invariant forall k :: k in old(transitionsToPhonemes) && k.translationId != entryId ==>
          transitionsToPhonemes[k] == old(transitionsToPhonemes)[k]
        invariant forall k :: k in old(transitionsToPhonemes) && k.transition !in firsts[..i] ==>
          transitionsToPhonemes[k] == old(transitionsToPhonemes)[k]
      {
        transitionsToPhonemes := transitionsToPhonemes[TransitionCostKey(firsts[i], entryId) := phoneme];
      }
    }
  }
}
