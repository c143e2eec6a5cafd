/** The consonant-inversions plugin. Chords written within one inversion domain (a
    group of keys) may give their consonants in any order; a lookup result is kept
    only when, bank by bank, the consonants it wrote are consecutive phonemes of the
    entry (optional phonemes may be skipped), each bank continuing where the last one
    stopped. Within a domain the consonants are checked in reading order, elsewhere in
    the order written. Phonemes are positions in the entry's sopheme sequence. */
module ConsonantInversions {
  import opened Wrappers
  import opened Steno
  import opened DefItems
  import opened PhonemeNav

  // ---------------------------------------------------------------------------
  // Inversion domains

  /** The domains that share a key with `stroke`, in order. */
  function Overlapping(domains: seq<Stroke>, stroke: Stroke): (r: seq<Stroke>)
    ensures forall d :: d in r ==> d in domains && d * stroke != {}
    ensures forall j :: 0 <= j < |domains| && domains[j] * stroke != {} ==> domains[j] in r
    ensures (forall j :: 0 <= j < |domains| ==> domains[j] * stroke == {}) ==> r == []
    decreases |domains|
  {
    if |domains| == 0 then []
    else if domains[0] * stroke != {} then [domains[0]] + Overlapping(domains[1..], stroke)
    else Overlapping(domains[1..], stroke)
  }

  /** `get_inversion_domain_of_stroke`: the one domain the stroke touches, or nothing
      when it touches none or several. */
  function DomainOf(domains: seq<Stroke>, stroke: Stroke): (r: Option<Stroke>)
  {
    var ov := Overlapping(domains, stroke);
    if |ov| != 1 then None else Some(ov[0])
  }

  /** Index `j` is the only domain the stroke touches. */
  predicate OnlyOverlap(domains: seq<Stroke>, stroke: Stroke, j: nat) {
    j < |domains| && domains[j] * stroke != {} &&
    forall k :: 0 <= k < |domains| && k != j ==> domains[k] * stroke == {}
  }

  /** Only one overlapping domain is listed exactly when one index overlaps. */
  lemma {:induction false} OverlappingOne(domains: seq<Stroke>, stroke: Stroke)
    ensures |Overlapping(domains, stroke)| == 1 <==> exists j: nat :: OnlyOverlap(domains, stroke, j)
    ensures forall j: nat :: OnlyOverlap(domains, stroke, j) ==> Overlapping(domains, stroke) == [domains[j]]
    decreases |domains|
  {
    if |domains| > 0 {
      var rest := domains[1..];
      OverlappingOne(rest, stroke);
      if domains[0] * stroke != {} {
        if |Overlapping(rest, stroke)| == 0 {
          assert OnlyOverlap(domains, stroke, 0) by {
            forall k | 0 < k < |domains| ensures domains[k] * stroke == {} {
              assert domains[k] == rest[k - 1];
            }
          }
        }
        forall j: nat | OnlyOverlap(domains, stroke, j)
          ensures j == 0 && Overlapping(rest, stroke) == []
        {
          forall k | 0 <= k < |rest| ensures rest[k] * stroke == {} {
            assert rest[k] == domains[k + 1];
          }
        }
      } else {
        forall j: nat | OnlyOverlap(domains, stroke, j) ensures j > 0 && OnlyOverlap(rest, stroke, j - 1) {
          forall k | 0 <= k < |rest| && k != j - 1 ensures rest[k] * stroke == {} {
            assert rest[k] == domains[k + 1];
          }
        }
        forall j: nat | OnlyOverlap(rest, stroke, j) ensures OnlyOverlap(domains, stroke, j + 1) {
          forall k | 0 <= k < |domains| && k != j + 1 ensures domains[k] * stroke == {} {
            if k > 0 { assert domains[k] == rest[k - 1]; }
          }
        }
      }
    }
  }

  /** The domain found is one the stroke touches, and one is found exactly when the
      stroke touches a single domain of the list. */
  lemma DomainOfUnique(domains: seq<Stroke>, stroke: Stroke)
    ensures DomainOf(domains, stroke).Some? <==> exists j: nat :: OnlyOverlap(domains, stroke, j)
    ensures forall j: nat :: OnlyOverlap(domains, stroke, j) ==> DomainOf(domains, stroke) == Some(domains[j])
    ensures DomainOf(domains, stroke).Some? ==>
      DomainOf(domains, stroke).value in domains && DomainOf(domains, stroke).value * stroke != {}
  {
    OverlappingOne(domains, stroke);
    var ov := Overlapping(domains, stroke);
    if |ov| == 1 {
      assert ov[0] in ov;
    }
  }

  // ---------------------------------------------------------------------------
  // Sorting phonemes by their indices

  /** Ordered by reading order, equal neighbours allowed. */
  predicate Sorted(ps: seq<Pos>) {
    forall i, j :: 0 <= i < j < |ps| ==> !Lt(ps[j], ps[i])
  }

  /** A head no later than any element of a sorted tail keeps the list sorted. */
  lemma ConsSorted(h: Pos, tail: seq<Pos>)
    requires Sorted(tail) && forall y :: y in tail ==> !Lt(y, h)
    ensures Sorted([h] + tail)
  {
    forall i, j | 0 <= i < j < |[h] + tail| ensures !Lt(([h] + tail)[j], ([h] + tail)[i]) {
      assert ([h] + tail)[j] == tail[j - 1];
      if i > 0 { assert ([h] + tail)[i] == tail[i - 1]; }
    }
  }

  /** `x` inserted into a sorted list before the first element not earlier than it. */
  function InsertByIndices(x: Pos, ps: seq<Pos>): (r: seq<Pos>)
    requires Sorted(ps)
    ensures Sorted(r) && multiset(r) == multiset(ps) + multiset{x}
    ensures forall y :: y in r ==> y == x || y in ps
    decreases |ps|
  {
    if |ps| == 0 then [x]
    else if !Lt(ps[0], x) then
      assert forall y :: y in ps ==> !Lt(y, x) by {
        forall y | y in ps ensures !Lt(y, x) {
          var k :| 0 <= k < |ps| && ps[k] == y;
          LtIsStrictTotalOrder(y, ps[0], x);
        }
      }
      ConsSorted(x, ps);
      [x] + ps
    else
      var tail := InsertByIndices(x, ps[1..]);
      assert ps == [ps[0]] + ps[1..];
      assert forall y :: y in tail ==> !Lt(y, ps[0]) by {
        forall y | y in tail ensures !Lt(y, ps[0]) {
          if y != x {
            var k :| 0 <= k < |ps[1..]| && ps[1..][k] == y;
            assert ps[k + 1] == y;
          }
        }
      }
      ConsSorted(ps[0], tail);
      [ps[0]] + tail
  }

  /** `sorted(phonemes, key=indices)`: the phonemes in reading order. */
  function SortByIndices(ps: seq<Pos>): (r: seq<Pos>)
    ensures Sorted(r) && multiset(r) == multiset(ps)
    decreases |ps|
  {
    if |ps| == 0 then []
    else
      assert ps == ps[..|ps| - 1] + [ps[|ps| - 1]];
      InsertByIndices(ps[|ps| - 1], SortByIndices(ps[..|ps| - 1]))
  }

  // ---------------------------------------------------------------------------
  // The walk over the entry's phonemes

  /** The outcome of a walk: a phoneme that did not match, or success together with
      the phoneme the walk stopped at (nothing past the end). */
  datatype Walked = Mismatch | Reached(next: Option<Pos>)

  /** A measure of how far a position is from the end of the sequence. */
  function SophemesLeft(ss: seq<Sopheme>, cur: Option<Pos>): nat
    requires cur.Some? ==> ValidPos(ss, cur.value)
  {
    if cur.Some? then |ss| - cur.value.s else 0
  }

  /** The keysymbols left in the current sopheme. */
  function KeysymbolsLeft(ss: seq<Sopheme>, cur: Option<Pos>): nat
    requires cur.Some? ==> ValidPos(ss, cur.value)
  {
    if cur.Some? then |ss[cur.value.s].keysymbols| - cur.value.k else 0
  }

  /** The loop of `validate_consecutivity`: from `cur`, each phoneme of `order` must be
      the current phoneme, possibly after skipping optional ones. */
  function Walk(ss: seq<Sopheme>, cur: Option<Pos>, order: seq<Pos>): (r: Walked)
    requires cur.Some? ==> ValidPos(ss, cur.value)
    ensures r.Reached? && r.next.Some? ==> ValidPos(ss, r.next.value)
    decreases |order|, SophemesLeft(ss, cur), KeysymbolsLeft(ss, cur)
  {
    if |order| == 0 then Reached(cur)
    else if cur.None? then Mismatch
    else if cur.value == order[0] then Walk(ss, NextPos(ss, cur.value), order[1..])
    else if KeysymbolAt(ss, cur.value).optional then Walk(ss, NextPos(ss, cur.value), order)
    else Mismatch
  }

  /** Every position from `from` (inclusive) up to `to` (exclusive) that `order` does
      not list is optional. */
  ghost predicate GapsOptional(ss: seq<Sopheme>, from: Pos, to: Pos, order: seq<Pos>) {
    forall q :: ValidPos(ss, q) && !Lt(q, from) && Lt(q, to) && q !in order ==> KeysymbolAt(ss, q).optional
  }

  /** What a successful walk from `c` over a non-empty `order` means: the phonemes of
      `order` are positions of the entry in strictly increasing reading order, none
      before `c`, everything skipped between `c` and the last of them is optional, and
      the walk stops right after the last. */
  ghost predicate Consecutive(ss: seq<Sopheme>, c: Pos, order: seq<Pos>, n: Option<Pos>)
    requires |order| > 0
  {
    (forall j :: 0 <= j < |order| ==> ValidPos(ss, order[j])) &&
    StrictlySorted(order) && !Lt(order[0], c) &&
    GapsOptional(ss, c, order[|order| - 1], order) &&
    ValidPos(ss, order[|order| - 1]) && n == NextPos(ss, order[|order| - 1])
  }

  /** The walk's matching step: `c` is the first phoneme of `order`. */
  lemma ConsecutiveMatch(ss: seq<Sopheme>, c: Pos, order: seq<Pos>, n: Option<Pos>)
    requires ValidPos(ss, c) && |order| > 1 && order[0] == c
    ensures NextPos(ss, c).None? ==> !Consecutive(ss, c, order, n)
    ensures NextPos(ss, c).Some? ==>
      (Consecutive(ss, c, order, n) <==> Consecutive(ss, NextPos(ss, c).value, order[1..], n))
  {
    NextIsNearest(ss, c);
    var rest := order[1..];
    var last := order[|order| - 1];
    assert rest[|rest| - 1] == last;
    if NextPos(ss, c).Some? {
      var c2 := NextPos(ss, c).value;
      if Consecutive(ss, c2, rest, n) {
        forall i, j | 0 <= i < j < |order| ensures Lt(order[i], order[j]) {
          if i == 0 {
            assert rest[j - 1] == order[j];
            if j > 1 { LtIsStrictTotalOrder(rest[0], rest[j - 1], rest[0]); }
            LtIsStrictTotalOrder(c, c2, order[j]);
            LtIsStrictTotalOrder(c, rest[0], order[j]);
          } else {
            assert order[i] == rest[i - 1] && order[j] == rest[j - 1];
          }
        }
        forall q | ValidPos(ss, q) && !Lt(q, c) && Lt(q, last) && q !in order
          ensures KeysymbolAt(ss, q).optional
        {
          LtIsStrictTotalOrder(q, c, c2);
          assert q !in rest;
        }
        assert forall j :: 0 <= j < |order| ==> ValidPos(ss, order[j]) by {
          forall j | 0 < j < |order| ensures ValidPos(ss, order[j]) { assert order[j] == rest[j - 1]; }
        }
      }
      if Consecutive(ss, c, order, n) {
        assert StrictlySorted(rest) by {
          forall i, j | 0 <= i < j < |rest| ensures Lt(rest[i], rest[j]) {
            assert rest[i] == order[i + 1] && rest[j] == order[j + 1];
          }
        }
        assert Lt(c, order[1]);
        LtIsStrictTotalOrder(order[1], c2, c);
        forall q | ValidPos(ss, q) && !Lt(q, c2) && Lt(q, last) && q !in rest
          ensures KeysymbolAt(ss, q).optional
        {
          LtIsStrictTotalOrder(q, c2, c);
          forall j | 0 <= j < |order| ensures order[j] != q {
            if j > 0 { assert rest[j - 1] == order[j]; }
          }
        }
        assert forall j :: 0 <= j < |rest| ==> ValidPos(ss, rest[j]) by {
          forall j | 0 <= j < |rest| ensures ValidPos(ss, rest[j]) { assert rest[j] == order[j + 1]; }
        }
      }
    } else {
      assert ValidPos(ss, order[1]) ==> !Lt(order[0], order[1]);
      assert StrictlySorted(order) ==> Lt(order[0], order[1]);
    }
  }

  /** The walk's skipping step: `c` is optional and not the first phoneme of `order`. */
  lemma ConsecutiveSkip(ss: seq<Sopheme>, c: Pos, order: seq<Pos>, n: Option<Pos>)
    requires ValidPos(ss, c) && |order| > 0 && order[0] != c && KeysymbolAt(ss, c).optional
    ensures NextPos(ss, c).None? ==> !Consecutive(ss, c, order, n)
    ensures NextPos(ss, c).Some? ==>
      (Consecutive(ss, c, order, n) <==> Consecutive(ss, NextPos(ss, c).value, order, n))
  {
    NextIsNearest(ss, c);
    var last := order[|order| - 1];
    if NextPos(ss, c).Some? {
      var c2 := NextPos(ss, c).value;
      if Consecutive(ss, c2, order, n) {
        LtIsStrictTotalOrder(c, c2, order[0]);
        forall q | ValidPos(ss, q) && !Lt(q, c) && Lt(q, last) && q !in order
          ensures KeysymbolAt(ss, q).optional
        {
          LtIsStrictTotalOrder(q, c, c2);
        }
      }
      if Consecutive(ss, c, order, n) {
        LtIsStrictTotalOrder(order[0], c, c2);
        forall q | ValidPos(ss, q) && !Lt(q, c2) && Lt(q, last) && q !in order
          ensures KeysymbolAt(ss, q).optional
        {
          LtIsStrictTotalOrder(q, c2, c);
        }
      }
    } else {
      LtIsStrictTotalOrder(order[0], c, c);
      assert ValidPos(ss, order[0]) ==> !Lt(c, order[0]);
    }
  }

  /** The walk's failing step: `c` is required and not the first phoneme of `order`. */
  lemma ConsecutiveRequired(ss: seq<Sopheme>, c: Pos, order: seq<Pos>, n: Option<Pos>)
    requires ValidPos(ss, c) && |order| > 0 && order[0] != c && !KeysymbolAt(ss, c).optional
    ensures !Consecutive(ss, c, order, n)
  {
    var last := order[|order| - 1];
    if StrictlySorted(order) && !Lt(order[0], c) {
      LtIsStrictTotalOrder(order[0], c, c);
      forall j | 0 < j < |order| ensures Lt(c, order[j]) {
        LtIsStrictTotalOrder(c, order[0], order[j]);
      }
      assert Lt(c, last);
      assert c !in order;
      assert !GapsOptional(ss, c, last, order);
    }
  }

  /** The walk from `c` over non-empty `order` succeeds, stopping at `n`, exactly when
      the phonemes of `order` are consecutive from `c` in the sense of `Consecutive`. */
  lemma {:induction false} WalkIff(ss: seq<Sopheme>, c: Pos, order: seq<Pos>, n: Option<Pos>)
    requires ValidPos(ss, c) && |order| > 0
    ensures Walk(ss, Some(c), order) == Reached(n) <==> Consecutive(ss, c, order, n)
    decreases |order|, SophemesLeft(ss, Some(c)), KeysymbolsLeft(ss, Some(c))
  {
    NextIsNearest(ss, c);
    var next := NextPos(ss, c);
    if c == order[0] {
      if |order| == 1 {
        assert Walk(ss, next, order[1..]) == Reached(next);
      } else {
        ConsecutiveMatch(ss, c, order, n);
        if next.Some? {
          WalkIff(ss, next.value, order[1..], n);
        } else {
          assert Walk(ss, next, order[1..]) == Mismatch;
        }
      }
    } else if KeysymbolAt(ss, c).optional {
      ConsecutiveSkip(ss, c, order, n);
      if next.Some? {
        WalkIff(ss, next.value, order, n);
      }
    } else {
      ConsecutiveRequired(ss, c, order, n);
    }
  }

  // ---------------------------------------------------------------------------
  // The filter's state machine

  /** The `Filterer`'s fields: the current domain (nothing outside any domain), the
      phonemes written in the current bank, and the phoneme the next bank must start
      from (nothing before the first bank and after the last phoneme). */
  datatype FilterState = FilterState(domain: Option<Stroke>, phonemes: seq<Pos>, next: Option<Pos>)

  const FRESH := FilterState(None, [], None)

  /** One step of a lookup path: the chord written, whether it opened a new stroke, and
      the phonemes it wrote. */
  datatype Association = Association(chord: Stroke, startsNewStroke: bool, phonemes: seq<Pos>)

  /** The remembered phoneme is a position of the entry. */
  predicate NextValid(ss: seq<Sopheme>, st: FilterState) {
    st.next.Some? ==> ValidPos(ss, st.next.value)
  }

  /** The order in which a bank's phonemes are checked: reading order within a domain,
      the order written otherwise. */
  function OrderToCheck(st: FilterState): (r: seq<Pos>)
    ensures st.domain.Some? ==> Sorted(r) && multiset(r) == multiset(st.phonemes)
    ensures st.domain.None? ==> r == st.phonemes
  {
    if st.domain.Some? then SortByIndices(st.phonemes) else st.phonemes
  }

  /** Where a bank's walk starts: the remembered phoneme, else the entry's first. */
  function WalkStart(ss: seq<Sopheme>, st: FilterState): (r: Option<Pos>)
    requires NextValid(ss, st)
    ensures r.Some? ==> ValidPos(ss, r.value)
  {
    if st.next.Some? then st.next else FirstFrom(ss, 0)
  }

  /** `validate_consecutivity`: whether the bank's phonemes continue the entry, and the
      state with the position reached remembered. */
  function Consecutivity(ss: seq<Sopheme>, st: FilterState): (r: (bool, FilterState))
    requires NextValid(ss, st)
    ensures NextValid(ss, r.1)
    ensures r.1.domain == st.domain && r.1.phonemes == st.phonemes
    ensures !r.0 ==> r.1 == st
  {
    if |st.phonemes| == 0 then (true, st)
    else
      var start := WalkStart(ss, st);
      if start.None? then (true, st)
      else match Walk(ss, start, OrderToCheck(st))
        case Mismatch => (false, st)
        case Reached(n) => (true, st.(next := n))
  }

  /** A bank with phonemes passes exactly when its phonemes, in the order checked, are
      consecutive from where the walk starts; the walk then remembers the phoneme after
      the last of them. */
  lemma ConsecutivityMeaning(ss: seq<Sopheme>, st: FilterState)
    requires NextValid(ss, st) && |st.phonemes| > 0 && WalkStart(ss, st).Some?
    ensures Consecutivity(ss, st).0 <==>
      Consecutive(ss, WalkStart(ss, st).value, OrderToCheck(st), Consecutivity(ss, st).1.next)
  {
    var order := OrderToCheck(st);
    assert |order| > 0 by {
      if st.domain.Some? { assert st.phonemes[0] in multiset(order); }
    }
    WalkIff(ss, WalkStart(ss, st).value, order, Consecutivity(ss, st).1.next);
  }

  /** `validate_and_start_new_bank`: validate, then clear the bank. */
  function StartNewBank(ss: seq<Sopheme>, st: FilterState): (r: (bool, FilterState))
    requires NextValid(ss, st)
    ensures NextValid(ss, r.1)
    ensures r.0 ==> r.1.domain.None? && r.1.phonemes == []
  {
    var c := Consecutivity(ss, st);
    if !c.0 then c else (true, c.1.(domain := None, phonemes := []))
  }

  /** The association closes the current bank: it opens a stroke, it lies in no single
      domain, there is no current domain, or its domain differs. */
  predicate ChangesDomain(domains: seq<Stroke>, st: FilterState, a: Association) {
    var d := DomainOf(domains, a.chord);
    d.None? || st.domain.None? || d != st.domain
  }

  /** `check_association`. */
  function CheckAssociationSpec(ss: seq<Sopheme>, domains: seq<Stroke>, st: FilterState, a: Association): (r: (bool, FilterState))
    requires NextValid(ss, st)
    ensures NextValid(ss, r.1)
  {
    var r1 := if a.startsNewStroke then StartNewBank(ss, st) else (true, st);
    if !r1.0 then r1
    else
      var r2 := if ChangesDomain(domains, r1.1, a) then StartNewBank(ss, r1.1) else r1;
      if !r2.0 then r2
      else (true, r2.1.(domain := DomainOf(domains, a.chord), phonemes := r2.1.phonemes + a.phonemes))
  }

  /** An accepted association joins the current bank when it continues it in the same
      domain without opening a stroke; otherwise the bank was validated and a new one
      holds just its phonemes. Either way the domain becomes the association's. */
  lemma CheckAssociationBanks(ss: seq<Sopheme>, domains: seq<Stroke>, st: FilterState, a: Association)
    requires NextValid(ss, st)
    ensures var r := CheckAssociationSpec(ss, domains, st, a);
      r.0 ==> (r.1.domain == DomainOf(domains, a.chord) &&
        (!a.startsNewStroke && !ChangesDomain(domains, st, a) ==> r.1.phonemes == st.phonemes + a.phonemes && r.1.next == st.next) &&
        (a.startsNewStroke || ChangesDomain(domains, st, a) ==> r.1.phonemes == a.phonemes))
    ensures a.startsNewStroke || ChangesDomain(domains, st, a) ==>
      (Consecutivity(ss, st).0 <== CheckAssociationSpec(ss, domains, st, a).0)
  {
  }

  /** `final_validate`: the last bank passes and no phoneme is left to write. */
  function FinalValidateSpec(ss: seq<Sopheme>, st: FilterState): (r: bool)
    requires NextValid(ss, st)
    ensures r <==> Consecutivity(ss, st).0 && Consecutivity(ss, st).1.next.None?
  {
    var c := Consecutivity(ss, st);
    c.0 && c.1.next.None?
  }

  /** With phonemes in the last bank, the final check passes exactly when they are
      consecutive from where the walk starts and the last of them ends the entry. */
  lemma FinalValidateMeaning(ss: seq<Sopheme>, st: FilterState)
    requires NextValid(ss, st) && |st.phonemes| > 0 && WalkStart(ss, st).Some?
    ensures FinalValidateSpec(ss, st) <==> Consecutive(ss, WalkStart(ss, st).value, OrderToCheck(st), None)
  {
    ConsecutivityMeaning(ss, st);
    var order := OrderToCheck(st);
    assert |order| > 0 by {
      if st.domain.Some? { assert st.phonemes[0] in multiset(order); }
    }
    WalkIff(ss, WalkStart(ss, st).value, order, None);
  }

  /** The checks of the lookup-result handler from state `st` on. */
  function AcceptedFrom(ss: seq<Sopheme>, domains: seq<Stroke>, st: FilterState, used: seq<Association>): (r: bool)
    requires NextValid(ss, st)
    decreases |used|
  {
    if |used| == 0 then FinalValidateSpec(ss, st)
    else
      var r := CheckAssociationSpec(ss, domains, st, used[0]);
      r.0 && AcceptedFrom(ss, domains, r.1, used[1..])
  }

  /** Whether the handler keeps a lookup result with these associations. */
  function Accepted(ss: seq<Sopheme>, domains: seq<Stroke>, used: seq<Association>): (r: bool)
  {
    AcceptedFrom(ss, domains, FRESH, used)
  }

  // ---------------------------------------------------------------------------
  // Two consonants written in inverted order

  /** The entry's phonemes are exactly `p1` then `p2`. */
  predicate TwoPhonemes(ss: seq<Sopheme>, p1: Pos, p2: Pos) {
    FirstFrom(ss, 0) == Some(p1) && ValidPos(ss, p1) &&
    NextPos(ss, p1) == Some(p2) && ValidPos(ss, p2) && NextPos(ss, p2).None?
  }

  /** The second consonant written with the first chord of a stroke, the first
      consonant with the next chord. */
  function Inverted(c1: Stroke, c2: Stroke, p1: Pos, p2: Pos): seq<Association> {
    [Association(c1, true, [p2]), Association(c2, false, [p1])]
  }

  /** The first association of a result opens a bank holding just its phonemes. */
  lemma FirstAssociation(ss: seq<Sopheme>, domains: seq<Stroke>, a: Association)
    ensures CheckAssociationSpec(ss, domains, FRESH, a) ==
      (true, FilterState(DomainOf(domains, a.chord), a.phonemes, None))
  {
    assert Consecutivity(ss, FRESH) == (true, FRESH);
    assert StartNewBank(ss, FRESH) == (true, FRESH);
    assert ChangesDomain(domains, FRESH, a);
    assert [] + a.phonemes == a.phonemes;
  }

  /** A result of two associations is kept when both checks pass and the final one
      does. */
  lemma AcceptedPair(ss: seq<Sopheme>, domains: seq<Stroke>, a: Association, b: Association)
    ensures var r1 := CheckAssociationSpec(ss, domains, FRESH, a);
      var r2 := CheckAssociationSpec(ss, domains, r1.1, b);
      Accepted(ss, domains, [a, b]) == (r1.0 && r2.0 && FinalValidateSpec(ss, r2.1))
  {
    var r1 := CheckAssociationSpec(ss, domains, FRESH, a);
    var r2 := CheckAssociationSpec(ss, domains, r1.1, b);
    assert [a, b][1..] == [b] && [b][1..] == [];
    assert AcceptedFrom(ss, domains, r2.1, []) == FinalValidateSpec(ss, r2.1);
    assert AcceptedFrom(ss, domains, r1.1, [b]) == (r2.0 && FinalValidateSpec(ss, r2.1));
    assert AcceptedFrom(ss, domains, FRESH, [a, b]) == (r1.0 && AcceptedFrom(ss, domains, r1.1, [b]));
  }

  /** Within one inversion domain the two phonemes are checked in reading order. */
  lemma SortedPair(ss: seq<Sopheme>, p1: Pos, p2: Pos)
    requires TwoPhonemes(ss, p1, p2)
    ensures SortByIndices([p2, p1]) == [p1, p2]
  {
    NextIsNearest(ss, p1);
    assert [p2, p1][..1] == [p2];
    assert SortByIndices([p2]) == [p2];
  }

  /** A bank in a domain holding the two phonemes in inverted order passes the final
      check. */
  lemma InvertedBankFinal(ss: seq<Sopheme>, d: Stroke, p1: Pos, p2: Pos)
    requires TwoPhonemes(ss, p1, p2)
    ensures FinalValidateSpec(ss, FilterState(Some(d), [p2, p1], None))
  {
    var st := FilterState(Some(d), [p2, p1], None);
    SortedPair(ss, p1, p2);
    assert OrderToCheck(st) == [p1, p2];
    assert WalkStart(ss, st) == Some(p1);
    assert [p1, p2][1..] == [p2] && [p2][1..] == [];
    assert Walk(ss, None, []) == Reached(None);
    assert Walk(ss, Some(p2), [p2]) == Reached(None);
    assert Walk(ss, Some(p1), [p1, p2]) == Reached(None);
  }

  /** Within one inversion domain the consonants may be written in either order. */
  lemma InversionInDomainAccepted(ss: seq<Sopheme>, domains: seq<Stroke>, c1: Stroke, c2: Stroke, p1: Pos, p2: Pos)
    requires TwoPhonemes(ss, p1, p2)
    requires DomainOf(domains, c1).Some? && DomainOf(domains, c2) == DomainOf(domains, c1)
    ensures Accepted(ss, domains, Inverted(c1, c2, p1, p2))
  {
    var d := DomainOf(domains, c1);
    var a := Association(c1, true, [p2]);
    var b := Association(c2, false, [p1]);
    AcceptedPair(ss, domains, a, b);
    FirstAssociation(ss, domains, a);
    var st1 := FilterState(d, [p2], None);
    assert !ChangesDomain(domains, st1, b);
    var st2 := FilterState(d, [p2, p1], None);
    assert st1.(domain := DomainOf(domains, b.chord), phonemes := st1.phonemes + b.phonemes) == st2;
    assert CheckAssociationSpec(ss, domains, st1, b) == (true, st2);
    InvertedBankFinal(ss, d.value, p1, p2);
  }

  /** Outside any domain the consonants must be written in order: the inverted pair is
      rejected when the first phoneme is required. */
  lemma InversionOutsideDomainsRejected(ss: seq<Sopheme>, domains: seq<Stroke>, c1: Stroke, c2: Stroke, p1: Pos, p2: Pos)
    requires TwoPhonemes(ss, p1, p2) && !KeysymbolAt(ss, p1).optional
    requires DomainOf(domains, c1).None? && DomainOf(domains, c2).None?
    ensures !Accepted(ss, domains, Inverted(c1, c2, p1, p2))
  {
    var a := Association(c1, true, [p2]);
    var b := Association(c2, false, [p1]);
    AcceptedPair(ss, domains, a, b);
    FirstAssociation(ss, domains, a);
    var st1 := FilterState(None, [p2], None);
    assert p1 != p2 by { NextIsNearest(ss, p1); }
    assert Walk(ss, Some(p1), [p2]) == Mismatch;
    assert !Consecutivity(ss, st1).0;
    assert !CheckAssociationSpec(ss, domains, st1, b).0;
  }

  // ---------------------------------------------------------------------------
  // The imperative filter

  /** The loop of `validate_consecutivity`: walks the entry's phonemes from `current`,
      matching each phoneme of `order` in turn and skipping optional phonemes. */
  method WalkPhonemes(ss: seq<Sopheme>, start: Option<Pos>, order: seq<Pos>) returns (r: Walked)
    requires start.Some? ==> ValidPos(ss, start.value)
    ensures r == Walk(ss, start, order)
  {
    var current := start;
    var i := 0;
    while i < |order|
      invariant 0 <= i <= |order|
      invariant current.Some? ==> ValidPos(ss, current.value)
      invariant Walk(ss, current, order[i..]) == Walk(ss, start, order)
      decreases |order| - i, SophemesLeft(ss, current), KeysymbolsLeft(ss, current)
    {
      if current.None? {
        return Mismatch;
      }
      if current.value == order[i] {
        assert order[i..][1..] == order[i + 1..];
        i := i + 1;
        current := Next(ss, current.value);
        continue;
      }
      if KeysymbolAt(ss, current.value).optional {
        current := Next(ss, current.value);
        continue;
      }
      return Mismatch;
    }
    return Reached(current);
  }

  /** `Filterer`: the state of one lookup result's check. */
  class Filterer {
    const ss: seq<Sopheme>
    const domains: seq<Stroke>
    var currentDomain: Option<Stroke>
    var currentDomainPhonemes: seq<Pos>
    var nextPhonemeToValidate: Option<Pos>

    function State(): FilterState
      reads this
    {
      FilterState(currentDomain, currentDomainPhonemes, nextPhonemeToValidate)
    }

    predicate Valid()
      reads this
    {
      NextValid(ss, State())
    }

    constructor(ss: seq<Sopheme>, domains: seq<Stroke>)
      ensures this.ss == ss && this.domains == domains && State() == FRESH && Valid()
    {
      this.ss := ss;
      this.domains := domains;
      currentDomain := None;
      currentDomainPhonemes := [];
      nextPhonemeToValidate := None;
    }

    /** `reset`. */
    method Reset()
      modifies this
      ensures State() == old(State()).(domain := None, phonemes := [])
    {
      currentDomain := None;
      currentDomainPhonemes := [];
    }

    /** `validate_consecutivity`. */
    method ValidateConsecutivity() returns (ok: bool)
      requires Valid()
      modifies this
      ensures Valid() && (ok, State()) == Consecutivity(ss, old(State()))
    {
      if |currentDomainPhonemes| == 0 {
        return true;
      }
      var order: seq<Pos>;
      if currentDomain.Some? {
        order := SortByIndices(currentDomainPhonemes);
      } else {
        order := currentDomainPhonemes;
      }
      var current: Option<Pos>;
      if nextPhonemeToValidate.Some? {
        current := nextPhonemeToValidate;
      } else {
        current := FirstPhoneme(ss);
      }
      if current.None? {
        return true;
      }
      assert order == OrderToCheck(State()) && current == WalkStart(ss, State());
      var walked := WalkPhonemes(ss, current, order);
      if walked.Mismatch? {
        return false;
      }
      nextPhonemeToValidate := walked.next;
      return true;
    }

    /** `validate_and_start_new_bank`. */
    method ValidateAndStartNewBank() returns (ok: bool)
      requires Valid()
      modifies this
      ensures Valid() && (ok, State()) == StartNewBank(ss, old(State()))
    {
      ok := ValidateConsecutivity();
      if !ok {
        return false;
      }
      Reset();
      return true;
    }

    /** `check_association`. */
    method CheckAssociation(a: Association) returns (ok: bool)
      requires Valid()
      modifies this
      ensures Valid() && (ok, State()) == CheckAssociationSpec(ss, domains, old(State()), a)
    {
      if a.startsNewStroke {
        ok := ValidateAndStartNewBank();
        if !ok {
          return false;
        }
      }
      var newDomain := DomainOf(domains, a.chord);
      if newDomain.None? || currentDomain.None? || newDomain != currentDomain {
        ok := ValidateAndStartNewBank();
        if !ok {
          return false;
        }
      }
      currentDomainPhonemes := currentDomainPhonemes + a.phonemes;
      currentDomain := newDomain;
      return true;
    }

    /** `final_validate`. */
    method FinalValidate() returns (ok: bool)
      requires Valid()
      modifies this
      ensures ok == FinalValidateSpec(ss, old(State()))
    {
      ok := ValidateConsecutivity();
      if !ok {
        return false;
      }
      return nextPhonemeToValidate.None?;
    }
  }

  /** The `validate_lookup_result` handler: a fresh filter checks each association and
      then the last bank. */
  method ValidateLookupResult(ss: seq<Sopheme>, domains: seq<Stroke>, used: seq<Association>) returns (ok: bool)
    ensures ok == Accepted(ss, domains, used)
  {
    var filterer := new Filterer(ss, domains);
    var i := 0;
    while i < |used|
      invariant 0 <= i <= |used| && filterer.Valid() && filterer.ss == ss && filterer.domains == domains
      invariant Accepted(ss, domains, used) == AcceptedFrom(ss, domains, filterer.State(), used[i..])
      decreases |used| - i
    {
      assert used[i..][1..] == used[i + 1..];
      ok := filterer.CheckAssociation(used[i]);
      if !ok {
        return false;
      }
      i := i + 1;
    }
    ok := filterer.FinalValidate();
  }

  // ---------------------------------------------------------------------------
  // Consonants remembered while an entry is added

  /** A phoneme added to the trie, with the consonant sounds among its sounds and the
      trie nodes its transitions left from. */
  datatype PastConsonant = PastConsonant(nodeSrcs: seq<nat>, sophs: set<string>, phoneme: Pos)

  /** The per-entry state of the `add_soph_transition` handler. */
  class ConsonantInversionsState {
    const ss: seq<Sopheme>
    const consonantSophs: set<string>
    var pastConsonants: seq<PastConsonant>

    /** All positions are the entry's, and every remembered phoneme after the first is
        optional: the list holds the latest required phoneme and the optional ones
        after it. */
    predicate Valid()
      reads this
    {
      (forall i :: 0 <= i < |pastConsonants| ==> ValidPos(ss, pastConsonants[i].phoneme)) &&
      forall i :: 0 < i < |pastConsonants| ==> KeysymbolAt(ss, pastConsonants[i].phoneme).optional
    }

    constructor(ss: seq<Sopheme>, consonantSophs: set<string>)
      ensures this.ss == ss && this.consonantSophs == consonantSophs
      ensures pastConsonants == [] && Valid()
    {
      this.ss := ss;
      this.consonantSophs := consonantSophs;
      pastConsonants := [];
    }

    /** The bookkeeping of `add_soph_transition`: a required phoneme clears the list;
        then the phoneme is remembered with its consonant sounds. */
    method AddSophTransition(sophs: set<string>, phoneme: Pos, nodeSrcs: seq<nat>)
      requires Valid() && ValidPos(ss, phoneme)
      modifies this
      ensures Valid()
      ensures var entry := PastConsonant(nodeSrcs, sophs * consonantSophs, phoneme);
        pastConsonants == (if KeysymbolAt(ss, phoneme).optional then old(pastConsonants) else []) + [entry]
    {
      if !KeysymbolAt(ss, phoneme).optional {
        pastConsonants := [];
      }
      pastConsonants := pastConsonants + [PastConsonant(nodeSrcs, sophs * consonantSophs, phoneme)];
    }
  }
}
