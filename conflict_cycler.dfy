/** The conflict-cycler plugin: a dedicated stroke typed after an outline picks the
    next of the translations that share that outline. Trailing copies of the cycler
    stroke are removed before lookup and counted; the count picks the translation. */
module ConflictCycler {
  import opened Wrappers
  import Steno

  /** The number of copies of `cycler` at the end of `outline`. */
  function TrailingCyclers(outline: seq<Steno.Stroke>, cycler: Steno.Stroke): (n: nat)
    ensures n <= |outline|
    decreases |outline|
  {
    if |outline| > 0 && outline[|outline| - 1] == cycler
    then 1 + TrailingCyclers(outline[..|outline| - 1], cycler)
    else 0
  }

  /** `TrailingCyclers` counts the longest suffix made only of the cycler stroke:
      every stroke it counts is the cycler, and the stroke before them is not. */
  lemma {:induction false} TrailingCyclersMaximal(outline: seq<Steno.Stroke>, cycler: Steno.Stroke)
    ensures var n := TrailingCyclers(outline, cycler);
      (forall i :: |outline| - n <= i < |outline| ==> outline[i] == cycler) &&
      (n < |outline| ==> outline[|outline| - n - 1] != cycler)
    decreases |outline|
  {
    if |outline| > 0 && outline[|outline| - 1] == cycler {
      var init := outline[..|outline| - 1];
      TrailingCyclersMaximal(init, cycler);
      var n := TrailingCyclers(outline, cycler);
      forall i | |outline| - n <= i < |outline| ensures outline[i] == cycler {
        if i < |outline| - 1 { assert outline[i] == init[i]; }
      }
      if n < |outline| {
        assert outline[|outline| - n - 1] == init[|init| - (n - 1) - 1];
      }
    }
  }

  /** `k` copies of `stroke`. */
  function Repeat(stroke: Steno.Stroke, k: nat): (r: seq<Steno.Stroke>)
    ensures |r| == k && forall i :: 0 <= i < k ==> r[i] == stroke
  {
    seq(k, _ => stroke)
  }

  /** Typing the cycler `k` times after an outline that does not end in it yields the
      count `k`, and stripping the counted strokes gives the outline back. */
  lemma {:induction false} CyclerCountRoundTrip(prefix: seq<Steno.Stroke>, cycler: Steno.Stroke, k: nat)
    requires prefix == [] || prefix[|prefix| - 1] != cycler
    ensures TrailingCyclers(prefix + Repeat(cycler, k), cycler) == k
    ensures (prefix + Repeat(cycler, k))[..|prefix + Repeat(cycler, k)| - k] == prefix
    decreases k
  {
    var outline := prefix + Repeat(cycler, k);
    if k == 0 {
      assert outline == prefix;
    } else {
      assert outline[..|outline| - 1] == prefix + Repeat(cycler, k - 1);
      CyclerCountRoundTrip(prefix, cycler, k - 1);
    }
    assert outline[..|outline| - k] == prefix;
  }

  /** The translation picked from `choices` (each naming an entry of `translations`)
      for a conflict index; Python's `%`, which agrees with Dafny's for a positive
      divisor, wraps the index around the choices. With no choices the source divides
      by zero, modelled as `None`. */
  function SelectTranslation(conflictIndex: int, choices: seq<nat>, translations: seq<string>): (r: Option<string>)
    requires forall i :: 0 <= i < |choices| ==> choices[i] < |translations|
    ensures r.None? <==> |choices| == 0
    ensures r.Some? ==> exists i :: 0 <= i < |choices| && r.value == translations[choices[i]]
  {
    if |choices| == 0 then None
    else Some(translations[choices[conflictIndex % |choices|]])
  }

  /** A positive multiple of a positive number is at least that number. */
  lemma MultipleAtLeast(d: int, m: int)
    requires m > 0 && d >= 1
    ensures d * m >= m
    decreases d
  {
    if d > 1 {
      MultipleAtLeast(d - 1, m);
      assert d * m == (d - 1) * m + m;
    }
  }

  /** Adding the divisor does not change the remainder. */
  lemma WrapAround(k: int, m: int)
    requires m > 0
    ensures (k + m) % m == k % m
  {
    var q, r := k / m, k % m;
    var q1, r1 := (k + m) / m, (k + m) % m;
    var d := q1 - q - 1;
    assert d * m == q1 * m - q * m - m;
    assert d * m == r - r1;
    if d >= 1 {
      MultipleAtLeast(d, m);
    } else if d <= -1 {
      MultipleAtLeast(-d, m);
    }
  }

  /** Without a cycler stroke the first choice is picked, each further cycler stroke
      moves one choice on, and after as many strokes as there are choices the cycle
      starts over. */
  lemma SelectionCycles(k: nat, choices: seq<nat>, translations: seq<string>)
    requires forall i :: 0 <= i < |choices| ==> choices[i] < |translations|
    requires |choices| > 0
    ensures SelectTranslation(0, choices, translations) == Some(translations[choices[0]])
    ensures k < |choices| ==> SelectTranslation(k, choices, translations) == Some(translations[choices[k]])
    ensures SelectTranslation(k + |choices|, choices, translations) == SelectTranslation(k, choices, translations)
  {
    WrapAround(k, |choices|);
  }

  /** Before any outline has been processed the conflict index is -1, which picks the
      last choice. */
  lemma FreshStatePicksLast(choices: seq<nat>, translations: seq<string>)
    requires forall i :: 0 <= i < |choices| ==> choices[i] < |translations|
    requires |choices| > 0
    ensures SelectTranslation(-1, choices, translations) == Some(translations[choices[|choices| - 1]])
  {
  }

  /** The per-lookup state of the plugin. */
  class CyclerState {
    const cycler: Steno.Stroke
    var conflictIndex: int

    /** A fresh lookup starts with no conflict index chosen yet (-1). */
    constructor(cycler: Steno.Stroke)
      ensures this.cycler == cycler && conflictIndex == -1
    {
      this.cycler := cycler;
      conflictIndex := -1;
    }

    /** Scans the outline from its end for the first stroke that is not the cycler,
        records how many cycler strokes follow it, and returns the outline without
        them. */
    method ProcessOutline(outline: seq<Steno.Stroke>) returns (r: seq<Steno.Stroke>)
      modifies this
      ensures conflictIndex == TrailingCyclers(outline, cycler)
      ensures r == outline[..|outline| - conflictIndex]
    {
      var first := 0;
      var i := |outline|;
      assert outline[..i] == outline;
      while i > 0
        invariant 0 <= i <= |outline| && first == 0
        invariant TrailingCyclers(outline[..i], cycler) + (|outline| - i) == TrailingCyclers(outline, cycler)
        decreases i
      {
        if outline[i - 1] == cycler {
          assert outline[..i][..i - 1] == outline[..i - 1];
          i := i - 1;
          continue;
        }
        first := i;
        break;
      }
      assert i > 0 ==> TrailingCyclers(outline[..i], cycler) == 0;
      assert i == 0 ==> outline[..i] == [];
      conflictIndex := |outline| - first;
      r := outline[..first];
    }
  }
}
