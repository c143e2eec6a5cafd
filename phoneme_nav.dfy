/** Navigation over the phonemes of a sequence of sophemes: a position is a pair
    (sopheme index, keysymbol index), and moving skips sophemes that have no keysymbols
    (plover_hatchery/lib/sopheme/SophemeSeq.py and plover_hatchery/lib/sopheme/Definition.py,
    which implement the same scheme). */
module PhonemeNav {
  import opened Wrappers
  import opened DefItems

  /** A phoneme position (`SophemeSeqPhoneme` / `DefinitionCursor` without its
      back-reference to the sequence, SophemeSeq.py:61-78). */
  datatype Pos = Pos(s: nat, k: nat)

  /** The position names a keysymbol of the sequence. */
  predicate ValidPos(ss: seq<Sopheme>, p: Pos) {
    p.s < |ss| && p.k < |ss[p.s].keysymbols|
  }

  /** The keysymbol at a position (`keysymbol`, SophemeSeq.py:72-74). */
  function KeysymbolAt(ss: seq<Sopheme>, p: Pos): Keysymbol
    requires ValidPos(ss, p)
  {
    ss[p.s].keysymbols[p.k]
  }

  /** Strictly earlier in reading order: by sopheme, then by keysymbol. */
  predicate Lt(p: Pos, q: Pos) {
    p.s < q.s || (p.s == q.s && p.k < q.k)
  }

  /** Reading order is a strict total order on positions. */
  lemma LtIsStrictTotalOrder(p: Pos, q: Pos, r: Pos)
    ensures !Lt(p, p)
    ensures Lt(p, q) && Lt(q, r) ==> Lt(p, r)
    ensures p == q || Lt(p, q) || Lt(q, p)
    ensures !(Lt(p, q) && Lt(q, p))
  {
  }

  /** The first position of the first sopheme from `s` on that has keysymbols. */
  function FirstFrom(ss: seq<Sopheme>, s: nat): (r: Option<Pos>)
    ensures r.Some? ==> ValidPos(ss, r.value) && r.value.s >= s && r.value.k == 0
    ensures r.Some? ==> forall j :: s <= j < r.value.s ==> |ss[j].keysymbols| == 0
    ensures r.None? ==> forall j :: s <= j < |ss| ==> |ss[j].keysymbols| == 0
    decreases |ss| - s
  {
    if s >= |ss| then None
    else if |ss[s].keysymbols| > 0 then Some(Pos(s, 0))
    else FirstFrom(ss, s + 1)
  }

  /** The last position of the last sopheme up to `s` that has keysymbols. */
  function LastUpTo(ss: seq<Sopheme>, s: int): (r: Option<Pos>)
    requires s < |ss|
    ensures r.Some? ==> ValidPos(ss, r.value) && r.value.s <= s && r.value.k == |ss[r.value.s].keysymbols| - 1
    ensures r.Some? ==> forall j :: r.value.s < j <= s ==> |ss[j].keysymbols| == 0
    ensures r.None? ==> forall j :: 0 <= j <= s ==> |ss[j].keysymbols| == 0
    decreases s + 1
  {
    if s < 0 then None
    else if |ss[s].keysymbols| > 0 then Some(Pos(s, |ss[s].keysymbols| - 1))
    else LastUpTo(ss, s - 1)
  }

  /** The position after `p`: the next keysymbol of the same sopheme, or the first of
      the next sopheme that has any. */
  function NextPos(ss: seq<Sopheme>, p: Pos): Option<Pos>
    requires ValidPos(ss, p)
  {
    if p.k + 1 < |ss[p.s].keysymbols| then Some(Pos(p.s, p.k + 1)) else FirstFrom(ss, p.s + 1)
  }

  /** The position before `p`: the previous keysymbol of the same sopheme, or the last
      of the previous sopheme that has any. */
  function PrevPos(ss: seq<Sopheme>, p: Pos): Option<Pos>
    requires ValidPos(ss, p)
  {
    if p.k > 0 then Some(Pos(p.s, p.k - 1)) else LastUpTo(ss, p.s - 1)
  }

  /** `first_phoneme` is the earliest position of the sequence, and there is none only
      when no sopheme has a keysymbol (SophemeSeq.py:19-28). */
  lemma FirstIsEarliest(ss: seq<Sopheme>)
    ensures var r := FirstFrom(ss, 0);
            (r.Some? ==> ValidPos(ss, r.value) && forall q :: ValidPos(ss, q) ==> !Lt(q, r.value)) &&
            (r.None? ==> forall q :: !ValidPos(ss, q))
  {
  }

  /** `last_phoneme` is the latest position of the sequence, and there is none only when
      no sopheme has a keysymbol (SophemeSeq.py:31-40). */
  lemma LastIsLatest(ss: seq<Sopheme>)
    ensures var r := LastUpTo(ss, |ss| - 1);
            (r.Some? ==> ValidPos(ss, r.value) && forall q :: ValidPos(ss, q) ==> !Lt(r.value, q)) &&
            (r.None? ==> forall q :: !ValidPos(ss, q))
  {
  }

  /** `next` gives the nearest later position, skipping sophemes without keysymbols,
      and nothing past the last one (SophemeSeq.py:106-117). */
  lemma NextIsNearest(ss: seq<Sopheme>, p: Pos)
    requires ValidPos(ss, p)
    ensures var r := NextPos(ss, p);
            (r.Some? ==> ValidPos(ss, r.value) && Lt(p, r.value) &&
                         forall q :: ValidPos(ss, q) && Lt(p, q) ==> !Lt(q, r.value)) &&
            (r.None? ==> forall q :: ValidPos(ss, q) ==> !Lt(p, q))
  {
    var r := NextPos(ss, p);
    if p.k + 1 >= |ss[p.s].keysymbols| {
      forall q | ValidPos(ss, q) && Lt(p, q)
        ensures r.Some? && !Lt(q, r.value)
      {
        assert q.s > p.s;
        if r.None? || q.s < r.value.s {
          assert false;
        }
      }
    }
  }

  /** `prev` gives the nearest earlier position, skipping sophemes without keysymbols,
      and nothing before the first one (SophemeSeq.py:92-103). */
  lemma PrevIsNearest(ss: seq<Sopheme>, p: Pos)
    requires ValidPos(ss, p)
    ensures var r := PrevPos(ss, p);
            (r.Some? ==> ValidPos(ss, r.value) && Lt(r.value, p) &&
                         forall q :: ValidPos(ss, q) && Lt(q, p) ==> !Lt(r.value, q)) &&
            (r.None? ==> forall q :: ValidPos(ss, q) ==> !Lt(q, p))
  {
    var r := PrevPos(ss, p);
    if p.k == 0 {
      forall q | ValidPos(ss, q) && Lt(q, p)
        ensures r.Some? && !Lt(r.value, q)
      {
        assert q.s < p.s;
        if r.None? || r.value.s < q.s {
          assert false;
        }
      }
    }
  }

  /** Going back from the position after `p` returns to `p`, and going forward from the
      position before `p` returns to `p`. */
  lemma NextPrevInverse(ss: seq<Sopheme>, p: Pos)
    requires ValidPos(ss, p)
    ensures NextPos(ss, p).Some? ==> PrevPos(ss, NextPos(ss, p).value) == Some(p)
    ensures PrevPos(ss, p).Some? ==> NextPos(ss, PrevPos(ss, p).value) == Some(p)
  {
    NextIsNearest(ss, p);
    PrevIsNearest(ss, p);
    if NextPos(ss, p).Some? {
      var n := NextPos(ss, p).value;
      PrevIsNearest(ss, n);
      var b := PrevPos(ss, n);
      assert b.Some? && !Lt(b.value, p);
      assert !Lt(p, b.value);
    }
    if PrevPos(ss, p).Some? {
      var b := PrevPos(ss, p).value;
      NextIsNearest(ss, b);
      var n := NextPos(ss, b);
      assert n.Some? && !Lt(p, n.value);
      assert !Lt(n.value, p);
    }
  }

  /** `first_phoneme` (SophemeSeq.py:19-28; Definition.py:19-28). */
  method FirstPhoneme(ss: seq<Sopheme>) returns (r: Option<Pos>)
    ensures r == FirstFrom(ss, 0)
  {
    var i := 0;
    while i < |ss|
      invariant 0 <= i <= |ss|
      invariant FirstFrom(ss, 0) == FirstFrom(ss, i)
      decreases |ss| - i
    {
      if |ss[i].keysymbols| > 0 {
        return Some(Pos(i, 0));
      }
      i := i + 1;
    }
    return None;
  }

  /** `last_phoneme` (SophemeSeq.py:31-40; Definition.py:39-48). */
  method LastPhoneme(ss: seq<Sopheme>) returns (r: Option<Pos>)
    ensures r == LastUpTo(ss, |ss| - 1)
  {
    var i := |ss| - 1;
    while i >= 0
      invariant -1 <= i < |ss|
      invariant LastUpTo(ss, |ss| - 1) == LastUpTo(ss, i)
      decreases i + 1
    {
      if |ss[i].keysymbols| > 0 {
        return Some(Pos(i, |ss[i].keysymbols| - 1));
      }
      i := i - 1;
    }
    return None;
  }

  /** `next` (SophemeSeq.py:106-117; Definition.py:121-132). */
  method Next(ss: seq<Sopheme>, p: Pos) returns (r: Option<Pos>)
    requires ValidPos(ss, p)
    ensures r == NextPos(ss, p)
  {
    var s := p.s;
    var k: nat := p.k + 1;
    while k >= |ss[s].keysymbols|
      invariant s < |ss|
      invariant NextPos(ss, p) == if k < |ss[s].keysymbols| then Some(Pos(s, k)) else FirstFrom(ss, s + 1)
      decreases |ss| - s
    {
      s := s + 1;
      if s >= |ss| {
        return None;
      }
      k := 0;
    }
    return Some(Pos(s, k));
  }

  /** `prev` (SophemeSeq.py:92-103; Definition.py:107-118). */
  method Prev(ss: seq<Sopheme>, p: Pos) returns (r: Option<Pos>)
    requires ValidPos(ss, p)
    ensures r == PrevPos(ss, p)
  {
    var s: int := p.s;
    var k: int := p.k - 1;
    while k < 0
      invariant 0 <= s < |ss|
      invariant k < |ss[s].keysymbols|
      invariant PrevPos(ss, p) == if k >= 0 then Some(Pos(s, k)) else LastUpTo(ss, s - 1)
      decreases s
    {
      s := s - 1;
      if s < 0 {
        return None;
      }
      k := |ss[s].keysymbols| - 1;
    }
    return Some(Pos(s, k));
  }

  /** The strict sortedness of a list of positions in reading order. */
  predicate StrictlySorted(ps: seq<Pos>) {
    forall i, j :: 0 <= i < j < |ps| ==> Lt(ps[i], ps[j])
  }

  /** `phonemes()`: every keysymbol position exactly once, in reading order
      (SophemeSeq.py:43-48; Definition.py:51-56). */
  method Phonemes(ss: seq<Sopheme>) returns (ps: seq<Pos>)
    ensures forall i :: 0 <= i < |ps| ==> ValidPos(ss, ps[i])
    ensures StrictlySorted(ps)
    ensures forall q :: ValidPos(ss, q) ==> q in ps
  {
    ps := [];
    var cur := FirstPhoneme(ss);
    FirstIsEarliest(ss);
    while cur.Some?
      invariant cur.Some? ==> ValidPos(ss, cur.value)
      invariant forall i :: 0 <= i < |ps| ==> ValidPos(ss, ps[i])
      invariant StrictlySorted(ps)
      invariant cur.Some? ==> forall i :: 0 <= i < |ps| ==> Lt(ps[i], cur.value)
      invariant forall q :: ValidPos(ss, q) && (cur.None? || Lt(q, cur.value)) ==> q in ps
      decreases if cur.None? then 0 else 1,
                if cur.None? then 0 else |ss| - cur.value.s,
                if cur.None? then 0 else |ss[cur.value.s].keysymbols| - cur.value.k
    {
      var p := cur.value;
      NextIsNearest(ss, p);
      ps := ps + [p];
      cur := Next(ss, p);
    }
  }

  /** The class a search looks for: vowels, or consonants. */
  predicate HasClass(k: Keysymbol, vowel: bool) {
    IsVowel(k) == vowel
  }

  /** `next_vowel` / `next_consonant`: the nearest later position whose keysymbol has the
      class sought, or nothing (SophemeSeq.py:129-135, 146-152). */
  method NextOfClass(ss: seq<Sopheme>, p: Pos, vowel: bool) returns (r: Option<Pos>)
    requires ValidPos(ss, p)
    ensures r.Some? ==> ValidPos(ss, r.value) && Lt(p, r.value) && HasClass(KeysymbolAt(ss, r.value), vowel)
    ensures r.Some? ==> forall q :: ValidPos(ss, q) && Lt(p, q) && Lt(q, r.value) ==> !HasClass(KeysymbolAt(ss, q), vowel)
    ensures r.None? ==> forall q :: ValidPos(ss, q) && Lt(p, q) ==> !HasClass(KeysymbolAt(ss, q), vowel)
  {
    NextIsNearest(ss, p);
    r := Next(ss, p);
    while r.Some? && !HasClass(KeysymbolAt(ss, r.value), vowel)
      invariant r.Some? ==> ValidPos(ss, r.value) && Lt(p, r.value)
      invariant forall q :: ValidPos(ss, q) && Lt(p, q) && (r.None? || Lt(q, r.value)) ==> !HasClass(KeysymbolAt(ss, q), vowel)
      decreases if r.None? then 0 else 1,
                if r.None? then 0 else |ss| - r.value.s,
                if r.None? then 0 else |ss[r.value.s].keysymbols| - r.value.k
    {
      var c := r.value;
      NextIsNearest(ss, c);
      r := Next(ss, c);
    }
  }

  /** `prev_vowel` / `prev_consonant`: the nearest earlier position whose keysymbol has
      the class sought, or nothing (SophemeSeq.py:120-126, 137-143). */
  method PrevOfClass(ss: seq<Sopheme>, p: Pos, vowel: bool) returns (r: Option<Pos>)
    requires ValidPos(ss, p)
    ensures r.Some? ==> ValidPos(ss, r.value) && Lt(r.value, p) && HasClass(KeysymbolAt(ss, r.value), vowel)
    ensures r.Some? ==> forall q :: ValidPos(ss, q) && Lt(q, p) && Lt(r.value, q) ==> !HasClass(KeysymbolAt(ss, q), vowel)
    ensures r.None? ==> forall q :: ValidPos(ss, q) && Lt(q, p) ==> !HasClass(KeysymbolAt(ss, q), vowel)
  {
    PrevIsNearest(ss, p);
    r := Prev(ss, p);
    while r.Some? && !HasClass(KeysymbolAt(ss, r.value), vowel)
      invariant r.Some? ==> ValidPos(ss, r.value) && Lt(r.value, p)
      invariant forall q :: ValidPos(ss, q) && Lt(q, p) && (r.None? || Lt(r.value, q)) ==> !HasClass(KeysymbolAt(ss, q), vowel)
      decreases if r.None? then 0 else 1,
                if r.None? then 0 else r.value.s,
                if r.None? then 0 else r.value.k
    {
      var c := r.value;
      PrevIsNearest(ss, c);
      r := Prev(ss, c);
    }
  }

  /** `first_consonant`: the earliest consonant position, found by walking forward from
      the first phoneme (Definition.py:30-36). */
  method FirstConsonant(ss: seq<Sopheme>) returns (r: Option<Pos>)
    ensures r.Some? ==> ValidPos(ss, r.value) && IsConsonant(KeysymbolAt(ss, r.value))
    ensures r.Some? ==> forall q :: ValidPos(ss, q) && Lt(q, r.value) ==> !IsConsonant(KeysymbolAt(ss, q))
    ensures r.None? ==> forall q :: ValidPos(ss, q) ==> !IsConsonant(KeysymbolAt(ss, q))
  {
    FirstIsEarliest(ss);
    r := FirstPhoneme(ss);
    while r.Some? && !IsConsonant(KeysymbolAt(ss, r.value))
      invariant r.Some? ==> ValidPos(ss, r.value)
      invariant forall q :: ValidPos(ss, q) && (r.None? || Lt(q, r.value)) ==> !IsConsonant(KeysymbolAt(ss, q))
      decreases if r.None? then 0 else 1,
                if r.None? then 0 else |ss| - r.value.s,
                if r.None? then 0 else |ss[r.value.s].keysymbols| - r.value.k
    {
      var c := r.value;
      NextIsNearest(ss, c);
      r := Next(ss, c);
    }
  }

  /** The vowel positions of the sequence, in reading order, each once. */
  ghost predicate IsVowelList(ss: seq<Sopheme>, vs: seq<Pos>) {
    && (forall i :: 0 <= i < |vs| ==> ValidPos(ss, vs[i]) && IsVowel(KeysymbolAt(ss, vs[i])))
    && StrictlySorted(vs)
    && (forall q :: ValidPos(ss, q) && IsVowel(KeysymbolAt(ss, q)) ==> q in vs)
  }

  /** The `vowels` field: the phonemes whose keysymbol is a vowel, kept in order
      (SophemeSeq.py:8-16; Definition.py:8-16). */
  method Vowels(ss: seq<Sopheme>) returns (vs: seq<Pos>)
    ensures IsVowelList(ss, vs)
  {
    var ps := Phonemes(ss);
    vs := [];
    var i := 0;
    while i < |ps|
      invariant 0 <= i <= |ps|
      invariant forall j :: 0 <= j < |vs| ==> ValidPos(ss, vs[j]) && IsVowel(KeysymbolAt(ss, vs[j]))
      invariant StrictlySorted(vs)
      invariant i < |ps| ==> forall j :: 0 <= j < |vs| ==> Lt(vs[j], ps[i])
      invariant forall j :: 0 <= j < i && IsVowel(KeysymbolAt(ss, ps[j])) ==> ps[j] in vs
    {
      if IsVowel(KeysymbolAt(ss, ps[i])) {
        vs := vs + [ps[i]];
      }
      i := i + 1;
    }
  }

  /** `appears_before` as written: the sopheme index is smaller, or the keysymbol index
      is smaller, whatever the sopheme indexes (SophemeSeq.py:81-88). */
  predicate AppearsBeforeAsWritten(p: Pos, q: Pos) {
    p.s < q.s || p.k < q.k
  }

  /** The as-written test calls a position of a later sopheme "before" one of an
      earlier sopheme when its keysymbol index is smaller: (1, 0) "appears before"
      (0, 1) although (0, 1) comes first in reading order. */
  lemma AppearsBeforeAsWrittenMisorders()
    ensures AppearsBeforeAsWritten(Pos(1, 0), Pos(0, 1)) && Lt(Pos(0, 1), Pos(1, 0))
  {
  }

  /** In a definition whose first sopheme holds a consonant and a vowel and whose second
      holds a consonant, the as-written `appears_before_first_vowel` reports the second
      consonant, which follows the vowel, as before it. */
  lemma AppearsBeforeFirstVowelAsWrittenWrong(ss: seq<Sopheme>, vs: seq<Pos>)
    requires |ss| == 2 && |ss[0].keysymbols| == 2 && |ss[1].keysymbols| == 1
    requires IsConsonant(ss[0].keysymbols[0]) && IsVowel(ss[0].keysymbols[1]) && IsConsonant(ss[1].keysymbols[0])
    requires IsVowelList(ss, vs)
    ensures |vs| == 1 && vs[0] == Pos(0, 1)
    ensures AppearsBeforeAsWritten(Pos(1, 0), vs[0]) && Lt(vs[0], Pos(1, 0))
  {
    assert ValidPos(ss, Pos(0, 1)) && IsVowel(KeysymbolAt(ss, Pos(0, 1)));
    assert Pos(0, 1) in vs;
    forall i | 0 <= i < |vs|
      ensures vs[i] == Pos(0, 1)
    {
      var v := vs[i];
      assert ValidPos(ss, v) && IsVowel(KeysymbolAt(ss, v));
      assert v != Pos(0, 0) && v != Pos(1, 0);
    }
    assert |vs| > 1 ==> Lt(vs[0], vs[1]);
  }

  /** `appears_before` as evidently intended: strictly earlier in reading order, which
      is the order `phonemes()` lists positions in. */
  predicate AppearsBefore(p: Pos, q: Pos) {
    Lt(p, q)
  }

  /** The corrected test agrees with the order of `phonemes()`, and the as-written test
      holds whenever the corrected one does. */
  lemma AppearsBeforeFollowsPhonemeOrder(ps: seq<Pos>, i: nat, j: nat)
    requires StrictlySorted(ps) && i < |ps| && j < |ps|
    ensures AppearsBefore(ps[i], ps[j]) <==> i < j
    ensures AppearsBefore(ps[i], ps[j]) ==> AppearsBeforeAsWritten(ps[i], ps[j])
  {
    if j < i {
      assert Lt(ps[j], ps[i]);
    }
  }

  /** `appears_before_first_vowel`, with the corrected order: true without vowels,
      otherwise before the first of them (SophemeSeq.py:155-159). */
  function AppearsBeforeFirstVowel(vs: seq<Pos>, p: Pos): bool {
    |vs| == 0 || AppearsBefore(p, vs[0])
  }

  /** `appears_after_last_vowel`, with the corrected order (SophemeSeq.py:161-165). */
  function AppearsAfterLastVowel(vs: seq<Pos>, p: Pos): bool {
    |vs| == 0 || AppearsBefore(vs[|vs| - 1], p)
  }

  /** A position is before the first vowel exactly when it is before every vowel, and
      after the last vowel exactly when it is after every vowel. */
  lemma VowelBoundsMeaning(ss: seq<Sopheme>, vs: seq<Pos>, p: Pos)
    requires IsVowelList(ss, vs)
    ensures AppearsBeforeFirstVowel(vs, p) <==> forall q :: ValidPos(ss, q) && IsVowel(KeysymbolAt(ss, q)) ==> Lt(p, q)
    ensures AppearsAfterLastVowel(vs, p) <==> forall q :: ValidPos(ss, q) && IsVowel(KeysymbolAt(ss, q)) ==> Lt(q, p)
  {
    if |vs| > 0 {
      var first := vs[0];
      var last := vs[|vs| - 1];
      assert ValidPos(ss, first) && IsVowel(KeysymbolAt(ss, first));
      assert ValidPos(ss, last) && IsVowel(KeysymbolAt(ss, last));
      forall q | ValidPos(ss, q) && IsVowel(KeysymbolAt(ss, q))
        ensures (first == q || Lt(first, q)) && (last == q || Lt(q, last))
      {
        var i :| 0 <= i < |vs| && vs[i] == q;
        if i > 0 {
          assert Lt(vs[0], vs[i]);
        }
        if i < |vs| - 1 {
          assert Lt(vs[i], vs[|vs| - 1]);
        }
      }
    }
  }

  /** `is_first_phoneme`: the position is the first phoneme (SophemeSeq.py:168-169;
      Definition.py:183-184). */
  function IsFirstPhoneme(ss: seq<Sopheme>, p: Pos): (b: bool)
    ensures b <==> ValidPos(ss, p) && forall q :: ValidPos(ss, q) ==> !Lt(q, p)
  {
    FirstIsEarliest(ss);
    FirstFrom(ss, 0) == Some(p)
  }

  /** `is_last_phoneme`: the position is the last phoneme (SophemeSeq.py:171-172;
      Definition.py:186-187). */
  function IsLastPhoneme(ss: seq<Sopheme>, p: Pos): (b: bool)
    ensures b <==> ValidPos(ss, p) && forall q :: ValidPos(ss, q) ==> !Lt(p, q)
  {
    LastIsLatest(ss);
    LastUpTo(ss, |ss| - 1) == Some(p)
  }

  /** `is_lone_consonant`: a consonant whose nearest neighbours, where they exist, are
      not consonants (SophemeSeq.py:175-187). */
  function IsLoneConsonant(ss: seq<Sopheme>, p: Pos): (b: bool)
    requires ValidPos(ss, p)
    ensures b <==>
              IsConsonant(KeysymbolAt(ss, p)) &&
              (forall q :: ValidPos(ss, q) && Lt(q, p) && IsConsonant(KeysymbolAt(ss, q)) ==>
                 exists m :: ValidPos(ss, m) && Lt(q, m) && Lt(m, p)) &&
              (forall q :: ValidPos(ss, q) && Lt(p, q) && IsConsonant(KeysymbolAt(ss, q)) ==>
                 exists m :: ValidPos(ss, m) && Lt(p, m) && Lt(m, q))
  {
    PrevIsNearest(ss, p);
    NextIsNearest(ss, p);
    var before := PrevPos(ss, p);
    var after := NextPos(ss, p);
    if !IsConsonant(KeysymbolAt(ss, p)) then false
    else if before.Some? && IsConsonant(KeysymbolAt(ss, before.value)) then
      assert !exists m :: ValidPos(ss, m) && Lt(before.value, m) && Lt(m, p);
      false
    else if after.Some? && IsConsonant(KeysymbolAt(ss, after.value)) then
      assert !exists m :: ValidPos(ss, m) && Lt(p, m) && Lt(m, after.value);
      false
    else
      assert forall q :: ValidPos(ss, q) && Lt(q, p) && IsConsonant(KeysymbolAt(ss, q)) ==>
               before.Some? && before.value != q && ValidPos(ss, before.value) && Lt(q, before.value) && Lt(before.value, p);
      assert forall q :: ValidPos(ss, q) && Lt(p, q) && IsConsonant(KeysymbolAt(ss, q)) ==>
               after.Some? && after.value != q && ValidPos(ss, after.value) && Lt(p, after.value) && Lt(after.value, q);
      true
  }
}
