/** The two aligners of plover_hatchery/lib/alignment/match_sophemes.py: the keysymbols
    of a transcription against the letters of a translation, giving sophemes, and those
    sophemes against the keys of an outline, giving stenemes. Both are services of the
    generic aligner of `Alignment`, scored by the same three-part cost.

    Neither service defines `has_mapping` or `get_mapping_options`, so as written
    nothing is ever matched (`KeysymbolsToCharsAsWritten`, `SophemesToChordsAsWritten`);
    `KeysymbolsToChars` and `SophemesToChords` look runs up in their tables, as
    evidently intended. */
module MatchSophemes {
  import opened Wrappers
  import Text
  import opened KeysymbolPy
  import opened Alignment

  /** `_Cost` (match_sophemes.py:266-269): unmatched x items, unmatched y items, and
      chunks, compared as a tuple. */
  datatype Cost = Cost(unmatchedX: int, unmatchedY: int, chunks: int)

  /** Tuple order: the first component that differs decides. */
  predicate CostLess(a: Cost, b: Cost) {
    a.unmatchedX < b.unmatchedX ||
    (a.unmatchedX == b.unmatchedX && (a.unmatchedY < b.unmatchedY ||
                                      (a.unmatchedY == b.unmatchedY && a.chunks < b.chunks)))
  }

  /** The tuple order is a strict weak order; indeed it is total. */
  lemma CostOrder()
    ensures StrictWeakOrder(CostLess)
    ensures forall a, b :: CostLess(a, b) || CostLess(b, a) || a == b
  {
  }

  /** `initial_cost` of both services. */
  const INITIAL_COST: Cost := Cost(0, 0, 0)

  /** `mismatch_cost` of both services (match_sophemes.py:306-312, 353-359): one more
      unmatched item along each incremented axis, and one more chunk when the mismatch
      opens a new unmatched run after a match. */
  function MismatchCost<D>(parent: Cell<Cost, D>, incX: bool, incY: bool): (r: Cost)
    ensures r.unmatchedX - parent.cost.unmatchedX == (if incX then 1 else 0)
    ensures r.unmatchedY - parent.cost.unmatchedY == (if incY then 1 else 0)
    ensures r.chunks - parent.cost.chunks == (if parent.hasMatch then 1 else 0)
  {
    Cost(parent.cost.unmatchedX + (if incX then 1 else 0),
         parent.cost.unmatchedY + (if incY then 1 else 0),
         if parent.hasMatch then parent.cost.chunks + 1 else parent.cost.chunks)
  }

  /** `match_cost` of both services (match_sophemes.py:322-328, 395-401): the unmatched
      counts are kept and one chunk is added. */
  function MatchCost<D>(parent: Cell<Cost, D>): (r: Cost)
    ensures r.unmatchedX == parent.cost.unmatchedX && r.unmatchedY == parent.cost.unmatchedY
    ensures r.chunks == parent.cost.chunks + 1
  {
    Cost(parent.cost.unmatchedX, parent.cost.unmatchedY, parent.cost.chunks + 1)
  }

  /** A service scored by `_Cost` as both services of match_sophemes.py are. */
  ghost predicate SophemeCosts<D(!new), X, Y, O, MX, MY, M>(svc: AlignmentService<Cost, D, X, Y, O, MX, MY, M>) {
    svc.initialCost == INITIAL_COST &&
    (forall p: Cell<Cost, D>, incX: bool, incY: bool :: svc.mismatchCost(p, incX, incY) == MismatchCost(p, incX, incY)) &&
    (forall p: Cell<Cost, D> :: svc.matchCost(p) == MatchCost(p))
  }

  /** The cost of a cell at (i, j) counts at most i unmatched x items, at most j
      unmatched y items and at most i + j chunks, and only the initial cell costs
      nothing. */
  predicate CostBounded(c: Cost, i: nat, j: nat) {
    0 <= c.unmatchedX <= i && 0 <= c.unmatchedY <= j && 0 <= c.chunks <= i + j &&
    (0 < i + j ==> 0 < c.unmatchedX + c.unmatchedY + c.chunks)
  }

  /** Every stored cell of a service with these costs has a bounded cost. */
  lemma {:induction false} CostBounds<D(!new), X, Y, O, MX, MY, M>(svc: AlignmentService<Cost, D, X, Y, O, MX, MY, M>,
                                                                 sx: seq<X>, sy: seq<Y>, i: nat, j: nat)
    requires SophemeCosts(svc) && i <= |sx| && j <= |sy| && CellAt(svc, sx, sy, i, j).Some?
    ensures CostBounded(CellAt(svc, sx, sy, i, j).value.cost, i, j)
    decreases i + j
  {
    if 0 < i + j {
      var c := CellAt(svc, sx, sy, i, j).value;
      StoredCellMadeBy(svc, sx, sy, i, j);
      var incX: bool, incY: bool, t: nat :| MadeBy(svc, sx, sy, i, j, incX, incY, t, c);
      var p := FindMatchPlans(svc, sx, sy, i, j, incX, incY)[t];
      CostBounds(svc, sx, sy, p.px, p.py);
      CostStepBounded(svc, sx, sy, i, j, incX, incY, t, c);
    }
  }

  /** A candidate made from a parent with a bounded cost has a bounded cost. */
  lemma CostStepBounded<D(!new), X, Y, O, MX, MY, M>(svc: AlignmentService<Cost, D, X, Y, O, MX, MY, M>,
                                                   sx: seq<X>, sy: seq<Y>, i: nat, j: nat, incX: bool, incY: bool, t: nat, c: Cell<Cost, D>)
    requires SophemeCosts(svc) && i <= |sx| && j <= |sy| && MadeBy(svc, sx, sy, i, j, incX, incY, t, c)
    requires var p := FindMatchPlans(svc, sx, sy, i, j, incX, incY)[t];
             CostBounded(CellAt(svc, sx, sy, p.px, p.py).value.cost, p.px, p.py)
    ensures CostBounded(c.cost, i, j)
  {
    var plans := FindMatchPlans(svc, sx, sy, i, j, incX, incY);
    FindMatchPlansOk(svc, sx, sy, i, j, incX, incY);
    var p := plans[t];
    var parent := CellAt(svc, sx, sy, p.px, p.py).value;
    if t == 0 {
      assert c.cost == MismatchCost(parent, incX, incY);
    } else {
      assert MatchPlanOk(svc, sx, sy, i, j, incY, p);
      assert c.cost == MatchCost(parent);
    }
  }

  // ---------------------------------------------------------------------------
  // Keysymbols to letters

  /** A sopheme built by the first aligner: a run of letters of the translation and the
      keysymbols it spells. */
  datatype Sopheme = Sopheme(chars: string, keysymbols: seq<PyKeysymbol>)

  /** Python's `s[a:b]` for bounds that are not negative. */
  function PySlice<T>(s: seq<T>, a: nat, b: nat): (r: seq<T>)
    ensures a <= b <= |s| ==> r == s[a..b]
    ensures |r| <= |s|
  {
    if a >= b || a >= |s| then [] else if b > |s| then s[a..] else s[a..b]
  }

  /** Keys of the grapheme table: runs of base symbols. Values: the spellings. */
  type GraphemeTable = map<seq<string>, seq<string>>

  /** A table written as the source writes it: each keysymbol run as one string with
      its symbols separated by spaces, split into the key (`tuple(keysymbol.split(" "))`).
      A later entry with the same key replaces an earlier one, as in a dict
      comprehension. */
  function TableOf<V>(entries: seq<(string, V)>): (m: map<seq<string>, V>)
    ensures forall key :: key in m ==> |key| > 0
    ensures forall t :: 0 <= t < |entries| ==> Text.Split(entries[t].0, ' ') in m
    ensures forall key :: key in m <==> exists t :: 0 <= t < |entries| && Text.Split(entries[t].0, ' ') == key
  {
    if |entries| == 0 then map[]
    else
      var init := TableOf(entries[..|entries| - 1]);
      assert forall t :: 0 <= t < |entries| - 1 ==> entries[..|entries| - 1][t] == entries[t];
      init[Text.Split(entries[|entries| - 1].0, ' ') := entries[|entries| - 1].1]
  }

  /** `_KEYSYMBOL_TO_GRAPHEME_MAPPINGS` (match_sophemes.py:16-100). */
  const KEYSYMBOL_TO_GRAPHEME_ENTRIES: seq<(string, seq<string>)> := [
    ("p", ["p", "pp"]),
    ("t", ["t", "tt", "d", "dd"]),
    ("?", []),
    ("t^", ["r", "rr"]),
    ("k", ["k", "kk", "c", "ck", "cc", "q", "cq"]),
    ("x", ["k", "kk", "c", "ck", "cc", "q", "cq"]),
    ("b", ["b", "bb"]),
    ("d", ["d", "dd", "t", "tt"]),
    ("g", ["g", "gg"]),
    ("ch", ["ch", "t", "tt"]),
    ("jh", ["j", "g"]),
    ("s", ["s", "ss", "c", "sc", "z", "zz"]),
    ("z", ["z", "zz", "s", "ss", "x"]),
    ("sh", ["sh", "ti", "ci", "si", "ssi"]),
    ("zh", ["sh", "zh", "j", "g", "si", "ssi", "ti", "ci"]),
    ("f", ["f", "ph", "ff", "v", "vv"]),
    ("v", ["v", "vv", "f", "ff", "ph"]),
    ("th", ["th"]),
    ("dh", ["th"]),
    ("h", ["h"]),
    ("m", ["m", "mm"]),
    ("m!", ["m", "mm"]),
    ("n", ["n", "nn"]),
    ("n!", ["n", "nn"]),
    ("ng", ["n", "ng"]),
    ("l", ["l", "ll"]),
    ("ll", ["l", "ll"]),
    ("lw", ["l", "ll"]),
    ("l!", ["l", "ll"]),
    ("r", ["r", "rr"]),
    ("y", ["y"]),
    ("w", ["w"]),
    ("hw", ["w"]),
    ("e", ["e", "ea"]),
    ("ao", ["a"]),
    ("a", ["a", "aa"]),
    ("ah", ["a"]),
    ("oa", ["a"]),
    ("aa", ["a", "au", "aw"]),
    ("ar", ["a", "aa"]),
    ("eh", ["a"]),
    ("ou", ["o", "oe", "oa", "ou", "ow"]),
    ("ouw", ["o", "oe", "oa", "ou", "ow"]),
    ("oou", ["o", "oe", "oa", "ou", "ow"]),
    ("o", ["o", "a", "ou", "au", "ow", "aw"]),
    ("au", ["o", "a", "ou", "au", "ow", "aw"]),
    ("oo", ["o", "a", "ou", "au", "ow", "aw"]),
    ("or", ["o", "a", "ou", "au", "ow", "aw"]),
    ("our", ["o", "a", "ou", "au", "ow", "aw"]),
    ("ii", ["e", "i", "ee", "ea", "ie", "ei"]),
    ("iy", ["i", "y", "ey", "ei", "ie"]),
    ("i", ["i", "y"]),
    ("@r", ["a", "o", "e", "u", "i", "y", "au", "ou"]),
    ("@", ["a", "o", "e", "u", "i", "y", "au", "ou"]),
    ("uh", ["u"]),
    ("u", ["u", "o", "oo"]),
    ("uu", ["u", "uu", "oo", "ew", "eu"]),
    ("iu", ["u", "uu", "oo", "ew", "eu"]),
    ("ei", ["ai", "ei", "a", "e"]),
    ("ee", ["ai", "ei", "a", "e"]),
    ("ai", ["i", "ie", "y", "ye"]),
    ("ae", ["i", "ie", "y", "ye"]),
    ("aer", ["i", "ie", "y", "ye"]),
    ("aai", ["i", "ie", "y", "ye"]),
    ("oi", ["oi", "oy"]),
    ("oir", ["oi", "oy"]),
    ("ow", ["ou", "ow", "ao"]),
    ("owr", ["ou", "ow", "ao"]),
    ("oow", ["ou", "ow", "ao"]),
    ("ir", ["e", "ee", "ea", "ie", "ei", "i", "y", "ey"]),
    ("@@r", ["a", "e", "i", "o", "u", "y", "au", "ou"]),
    ("er", ["e"]),
    ("eir", ["ai", "ei", "a", "e"]),
    ("ur", ["u", "o", "oo"]),
    ("i@", ["ia", "ie", "io", "iu"]),
    ("t s", ["z"]),
    ("d z", ["z"]),
    ("k s", ["x"]),
    ("g z", ["x"])
  ]

  /** The grapheme table the aligner is meant to consult. */
  const KEYSYMBOL_TO_GRAPHEMES: GraphemeTable := TableOf(KEYSYMBOL_TO_GRAPHEME_ENTRIES)

  /** `match_keysymbols_to_chars.generate_candidate_x_key` (match_sophemes.py:314-316):
      the base symbol of each keysymbol of the run. */
  function KeysymbolKey(ks: seq<PyKeysymbol>): (r: seq<string>)
    ensures |r| == |ks| && forall t :: 0 <= t < |ks| ==> r[t] == BaseSymbol(ks[t])
  {
    seq(|ks|, t requires 0 <= t < |ks| => BaseSymbol(ks[t]))
  }

  /** The service `match_keysymbols_to_chars` (match_sophemes.py:279-338) with the given
      `has_mapping` and `get_mapping_options`: letters match a spelling when they are
      equal to it, and a sopheme holds the letters and keysymbols between the two cells
      of a span. */
  function KeysymbolsToCharsWith(hasMapping: seq<string> -> bool, options: seq<string> -> seq<string>):
    (svc: AlignmentService<Cost, (), PyKeysymbol, char, string, string, char, Sopheme>)
    ensures SophemeCosts(svc) && svc.less == CostLess
    ensures svc.hasMapping == hasMapping && svc.mappingOptions == options
  {
    AlignmentService(
      INITIAL_COST,
      CostLess,
      (p: Cell<Cost, ()>, incX: bool, incY: bool) => MismatchCost(p, incX, incY),
      KeysymbolKey,
      (o: string) => o,
      hasMapping,
      options,
      (o: string) => |o|,
      (actual: string, candidate: string) => actual == candidate,
      (p: Cell<Cost, ()>) => MatchCost(p),
      (xKey: seq<string>, yKey: string, xRun: seq<PyKeysymbol>, o: string) => (),
      (ks: seq<PyKeysymbol>, chars: string, s: Cell<Cost, ()>, e: Cell<Cost, ()>, d: Option<()>) =>
        Sopheme(PySlice(chars, s.y, e.y), PySlice(ks, s.x, e.x)))
  }

  /** The service as written: the class declares the table as `MAPPINGS` but defines
      neither `has_mapping` nor `get_mapping_options`, so the abstract `has_mapping` of
      `AlignmentService`, whose body is `...`, answers None and every run is skipped
      (match_sophemes.py:279-281, alignment.py:77-86, 158). */
  function KeysymbolsToCharsAsWritten(): (svc: AlignmentService<Cost, (), PyKeysymbol, char, string, string, char, Sopheme>)
    ensures SophemeCosts(svc) && forall key :: !svc.hasMapping(key)
  {
    KeysymbolsToCharsWith((key: seq<string>) => false, (key: seq<string>) => [])
  }

  /** The service as evidently intended: a run has a mapping when its key is in the
      table, and its options are the table's spellings. */
  function KeysymbolsToChars(table: GraphemeTable): (svc: AlignmentService<Cost, (), PyKeysymbol, char, string, string, char, Sopheme>)
    ensures SophemeCosts(svc) && svc.less == CostLess
    ensures forall key :: svc.hasMapping(key) <==> key in table
    ensures forall key :: key in table ==> svc.mappingOptions(key) == table[key]
  {
    KeysymbolsToCharsWith((key: seq<string>) => key in table, (key: seq<string>) => if key in table then table[key] else [])
  }

  /** `match_keysymbols_to_chars.process_input` (match_sophemes.py:283-300): the loop
      of `Keysymbol.parse_seq` over the transcription; the translation is kept. */
  method ProcessTranscription(transcription: string, translation: string) returns (keysymbols: seq<PyKeysymbol>, chars: string)
    ensures keysymbols == ParseSeq(transcription) && chars == translation
    ensures forall k :: 0 <= k < |keysymbols| ==> 0 <= keysymbols[k].stress <= 3
  {
    keysymbols := ParseSeqLoop(transcription);
    chars := translation;
    ParseItemsProps(Text.Split(transcription, ' '), 0);
  }

  /** `match_keysymbols_to_chars(transcription, translation)`: the sophemes of the
      cheapest alignment under the grapheme table. The table has no entry for the empty
      run, so every cell can be computed and the alignment always exists. */
  method MatchKeysymbolsToChars(transcription: string, translation: string) returns (r: seq<Sopheme>)
    ensures var svc := KeysymbolsToChars(KEYSYMBOL_TO_GRAPHEMES);
            var ks := ParseSeq(transcription);
            AlignedSpans(svc, ks, translation).Some? &&
            r == Construct(svc, ks, translation, AlignedSpans(svc, ks, translation).value)
  {
    var ks, chars := ProcessTranscription(transcription, translation);
    var svc := KeysymbolsToChars(KEYSYMBOL_TO_GRAPHEMES);
    forall i, j | 0 <= i <= |ks| && 0 <= j <= |chars|
      ensures CellAt(svc, ks, chars, i, j).Some?
    {
      assert KeysymbolKey([]) == [];
      AllCellsComputed(svc, ks, chars, i, j);
    }
    var aligned := Align(svc, ks, chars);
    r := aligned.value;
  }

  /** As written, no keysymbol is ever matched to letters: any non-empty input comes
      back as the one sopheme holding the whole translation and every keysymbol, and
      its cost counts every keysymbol and every letter as unmatched. */
  lemma AsWrittenOneSopheme(ks: seq<PyKeysymbol>, chars: string)
    requires 0 < |ks| + |chars|
    ensures var svc := KeysymbolsToCharsAsWritten();
            && AlignedSpans(svc, ks, chars).Some?
            && Construct(svc, ks, chars, AlignedSpans(svc, ks, chars).value) == [Sopheme(chars, ks)]
            && CellAt(svc, ks, chars, |ks|, |chars|).value.cost == Cost(|ks|, |chars|, 0)
  {
    var svc := KeysymbolsToCharsAsWritten();
    NoMappingsOneSpan(svc, ks, chars);
    CellAtShape(svc, ks, chars, |ks|, |chars|);
    AsWrittenAllUnmatched(ks, chars, |ks|, |chars|);
    var last := CellAt(svc, ks, chars, |ks|, |chars|).value;
    assert last.x == |ks| && last.y == |chars|;
    var span := Span(InitialCell(svc), last, None);
    assert svc.constructMatch(ks, chars, span.start, span.end, span.data) == Sopheme(chars, ks) by {
      assert PySlice(chars, 0, |chars|) == chars;
      assert PySlice(ks, 0, |ks|) == ks;
    }
    assert Construct(svc, ks, chars, [span]) == [Sopheme(chars, ks)];
  }

  /** As written, the cell at (i, j) leaves all i keysymbols and j letters unmatched. */
  lemma {:induction false} AsWrittenAllUnmatched(ks: seq<PyKeysymbol>, chars: string, i: nat, j: nat)
    requires i <= |ks| && j <= |chars|
    ensures CellAt(KeysymbolsToCharsAsWritten(), ks, chars, i, j).Some?
    ensures CellAt(KeysymbolsToCharsAsWritten(), ks, chars, i, j).value.cost == Cost(i, j, 0)
    decreases i + j
  {
    var svc := KeysymbolsToCharsAsWritten();
    NoMappingsMismatchOnly(svc, ks, chars, i, j);
    if 0 < i + j {
      forall incX: bool, incY: bool | (incX || incY) && (incX ==> i > 0) && (incY ==> j > 0)
        ensures FindMatchSpec(svc, ks, chars, i, j, incX, incY).Some?
        ensures FindMatchSpec(svc, ks, chars, i, j, incX, incY).value.cost == Cost(i, j, 0)
      {
        var px: nat := if incX then i - 1 else i;
        var py: nat := if incY then j - 1 else j;
        AsWrittenAllUnmatched(ks, chars, px, py);
        NoMappingsMismatchOnly(svc, ks, chars, px, py);
        NoMappingsFindMatch(svc, ks, chars, i, j, incX, incY);
      }
      if 0 < i && 0 < j {
        var a := FindMatchSpec(svc, ks, chars, i, j, true, false).value;
        var b := FindMatchSpec(svc, ks, chars, i, j, false, true).value;
        var c := FindMatchSpec(svc, ks, chars, i, j, true, true).value;
        assert CellAt(svc, ks, chars, i, j) == Some(MinCell(svc.less, [a, b, c]));
      }
    }
  }

  /** Piece t of a split: keysymbols `ks[xs[t]..xs[t + 1]]` spelt by letters
      `chars[ys[t]..ys[t + 1]]`, a spelling the table lists for their key. */
  ghost predicate PieceMapped(table: GraphemeTable, ks: seq<PyKeysymbol>, chars: string, xs: seq<nat>, ys: seq<nat>, t: nat)
    requires |xs| == |ys| && t + 1 < |xs|
  {
    xs[t] < xs[t + 1] <= |ks| && ys[t] < ys[t + 1] <= |chars| &&
    KeysymbolKey(ks[xs[t]..xs[t + 1]]) in table &&
    chars[ys[t]..ys[t + 1]] in table[KeysymbolKey(ks[xs[t]..xs[t + 1]])]
  }

  /** Cut points splitting a prefix of the keysymbols and of the letters into
      consecutive pieces, each a mapped spelling. */
  ghost predicate MappedPieces(table: GraphemeTable, ks: seq<PyKeysymbol>, chars: string, xs: seq<nat>, ys: seq<nat>) {
    |xs| == |ys| > 0 && xs[0] == 0 && ys[0] == 0 &&
    forall t: nat :: t + 1 < |xs| ==> PieceMapped(table, ks, chars, xs, ys, t)
  }

  /** As intended, whenever keysymbols and letters split into mapped pieces, the
      cheapest alignment up to the end of piece m leaves nothing unmatched and uses at
      most m chunks. */
  lemma {:induction false} CorrectedMatchesPieces(table: GraphemeTable, ks: seq<PyKeysymbol>, chars: string,
                                                  xs: seq<nat>, ys: seq<nat>, m: nat)
    requires [] !in table && MappedPieces(table, ks, chars, xs, ys) && m < |xs|
    ensures xs[m] <= |ks| && ys[m] <= |chars|
    ensures CellAt(KeysymbolsToChars(table), ks, chars, xs[m], ys[m]).Some?
    ensures var c := CellAt(KeysymbolsToChars(table), ks, chars, xs[m], ys[m]).value.cost;
            c.unmatchedX == 0 && c.unmatchedY == 0 && c.chunks <= m
    decreases m
  {
    var svc := KeysymbolsToChars(table);
    assert KeysymbolKey([]) == [];
    if m > 0 {
      assert PieceMapped(table, ks, chars, xs, ys, m - 1);
      CorrectedMatchesPieces(table, ks, chars, xs, ys, m - 1);
      var cand := PieceMatchCandidate(table, ks, chars, xs, ys, m);
      CheapestAsCheapAsMatch(svc, ks, chars, xs[m], ys[m], cand, m);
    }
  }

  /** An interior cell with a candidate that leaves nothing unmatched leaves nothing
      unmatched either, in no more chunks. */
  lemma CheapestAsCheapAsMatch<D(!new), X, Y, O, MX, MY, M>(svc: AlignmentService<Cost, D, X, Y, O, MX, MY, M>,
                                                          sx: seq<X>, sy: seq<Y>, i: nat, j: nat, cand: Cell<Cost, D>, m: nat)
    requires SophemeCosts(svc) && svc.less == CostLess && 0 < i <= |sx| && 0 < j <= |sy|
    requires CellAt(svc, sx, sy, i, j).Some? && IsCandidate(svc, sx, sy, i, j, cand)
    requires cand.cost.unmatchedX == 0 && cand.cost.unmatchedY == 0 && cand.cost.chunks <= m
    ensures var c := CellAt(svc, sx, sy, i, j).value.cost;
            c.unmatchedX == 0 && c.unmatchedY == 0 && c.chunks <= m
  {
    CostOrder();
    InteriorCellIsCheapest(svc, sx, sy, i, j);
    CostBounds(svc, sx, sy, i, j);
    var best := CellAt(svc, sx, sy, i, j).value;
    NoCheaperThanMatch(best.cost, cand.cost, i, j, m);
  }

  /** A bounded cost no cheaper than a cost with nothing unmatched has nothing
      unmatched either, and no more chunks. */
  lemma NoCheaperThanMatch(best: Cost, cand: Cost, i: nat, j: nat, m: nat)
    requires CostBounded(best, i, j) && !CostLess(cand, best)
    requires cand.unmatchedX == 0 && cand.unmatchedY == 0 && cand.chunks <= m
    ensures best.unmatchedX == 0 && best.unmatchedY == 0 && best.chunks <= m
  {
  }

  /** The match of mapped piece m - 1, made from the cell at the start of the piece,
      is a candidate of the cell at its end. */
  lemma PieceMatchCandidate(table: GraphemeTable, ks: seq<PyKeysymbol>, chars: string, xs: seq<nat>, ys: seq<nat>, m: nat)
    returns (cand: Cell<Cost, ()>)
    requires [] !in table && |xs| == |ys| && 0 < m < |xs| && PieceMapped(table, ks, chars, xs, ys, m - 1)
    ensures 0 < xs[m] <= |ks| && 0 < ys[m] <= |chars|
    ensures CellAt(KeysymbolsToChars(table), ks, chars, xs[m], ys[m]).Some?
    ensures IsCandidate(KeysymbolsToChars(table), ks, chars, xs[m], ys[m], cand)
    ensures CellAt(KeysymbolsToChars(table), ks, chars, xs[m - 1], ys[m - 1]).Some?
    ensures cand.cost == MatchCost(CellAt(KeysymbolsToChars(table), ks, chars, xs[m - 1], ys[m - 1]).value)
  {
    var svc := KeysymbolsToChars(table);
    var i, j := xs[m], ys[m];
    assert KeysymbolKey([]) == [];
    AllCellsComputed(svc, ks, chars, i, j);
    var u := PieceOffered(table, ks, chars, xs, ys, m - 1);
    var p := FindMatchPlans(svc, ks, chars, i, j, true, true)[u];
    MatchPlanIsCandidate(svc, ks, chars, i, j, true, true, u);
    cand := Realize(svc, p, CellAt(svc, ks, chars, p.px, p.py).value, i, j, true, true);
  }

  /** The match of mapped piece t is one of the plans of the xy-increment `find_match`
      call for the cell at the end of the piece, made from the cell at its start. */
  lemma PieceOffered(table: GraphemeTable, ks: seq<PyKeysymbol>, chars: string, xs: seq<nat>, ys: seq<nat>, t: nat)
    returns (u: nat)
    requires |xs| == |ys| && t + 1 < |xs| && PieceMapped(table, ks, chars, xs, ys, t)
    ensures var plans := FindMatchPlans(KeysymbolsToChars(table), ks, chars, xs[t + 1], ys[t + 1], true, true);
            0 < u < |plans| && plans[u].hasMatch && plans[u].px == xs[t] && plans[u].py == ys[t]
  {
    var svc := KeysymbolsToChars(table);
    var i, j := xs[t + 1], ys[t + 1];
    var o := chars[ys[t]..j];
    assert PyTail(chars[..j], j - |o|) == o;
    MatchOffered(svc, ks, chars, i, j, true, true, i - xs[t], o);
    u :| 0 < u < |FindMatchPlans(svc, ks, chars, i, j, true, true)| &&
         var p := FindMatchPlans(svc, ks, chars, i, j, true, true)[u];
         p.hasMatch && p.px == i - (i - xs[t]) && p.py == j - |PyTail(chars[..j], j - |svc.candidateYKey(o)|)|;
  }

  // ---------------------------------------------------------------------------
  // Sophemes to chords

  /** `AsteriskableKey`: an outline key, and whether it was struck with the asterisk. */
  datatype AsteriskableKey = AsteriskableKey(key: string, asterisk: bool)

  /** `_Mapping` (match_sophemes.py:144-147): a chord of keys, and the phoneme it
      writes, if it writes one. */
  datatype ChordMapping<P> = ChordMapping(phoneme: Option<P>, keys: seq<AsteriskableKey>)

  /** `Steneme`: sophemes, the keys of their chord with each key's asterisk flag, and
      the phoneme; grouping the keys into strokes (`AnnotatedChord.keys_to_strokes`)
      is not part of this model. */
  datatype Steneme<P> = Steneme(sophemes: seq<Sopheme>, keys: seq<string>, asterisks: seq<bool>, phoneme: Option<P>)

  /** Keys of the chord table: runs of base symbols. Values: the chords. */
  type ChordTable<P> = map<seq<string>, seq<ChordMapping<P>>>

  /** The base symbols of every keysymbol of the sophemes, in order. */
  function BaseSymbols(ss: seq<Sopheme>): (r: seq<string>)
    ensures |ss| == 0 ==> r == []
  {
    if |ss| == 0 then [] else KeysymbolKey(ss[0].keysymbols) + BaseSymbols(ss[1..])
  }

  /** `match_sophemes_to_chords.generate_candidate_x_key` (match_sophemes.py:361-375). */
  function SophemeKey(ss: seq<Sopheme>): (r: seq<string>)
  {
    (if |ss| > 0 && |ss[0].keysymbols| == 0 then [""] else []) +
    BaseSymbols(ss) +
    (if |ss| > 0 && |ss[|ss| - 1].keysymbols| == 0 then [""] else [])
  }

  /** The key of a run of sophemes is its base symbols, preceded by an "" sentinel when
      the first sopheme is silent and followed by one when the last is; the key of no
      sophemes is empty. */
  lemma SophemeKeySentinels(ss: seq<Sopheme>)
    ensures var r := SophemeKey(ss);
            var front := if |ss| > 0 && |ss[0].keysymbols| == 0 then 1 else 0;
            var back := if |ss| > 0 && |ss[|ss| - 1].keysymbols| == 0 then 1 else 0;
            && |r| == front + |BaseSymbols(ss)| + back
            && r[front..|r| - back] == BaseSymbols(ss)
            && (front == 1 ==> r[0] == "")
            && (back == 1 ==> r[|r| - 1] == "")
            && (|ss| == 0 ==> r == [])
  {
  }

  /** The names of the keys. */
  function KeyNames(keys: seq<AsteriskableKey>): (r: seq<string>)
    ensures |r| == |keys| && forall t :: 0 <= t < |keys| ==> r[t] == keys[t].key
  {
    seq(|keys|, t requires 0 <= t < |keys| => keys[t].key)
  }

  /** The asterisk flags of the keys. */
  function Asterisks(keys: seq<AsteriskableKey>): (r: seq<bool>)
    ensures |r| == |keys| && forall t :: 0 <= t < |keys| ==> r[t] == keys[t].asterisk
  {
    seq(|keys|, t requires 0 <= t < |keys| => keys[t].asterisk)
  }

  /** Over the pairs `zip` makes, each candidate asterisk is matched by an actual one. */
  function AsterisksCovered(actual: seq<AsteriskableKey>, candidate: seq<AsteriskableKey>): bool
  {
    if |actual| == 0 || |candidate| == 0 then true
    else (!candidate[0].asterisk || actual[0].asterisk) && AsterisksCovered(actual[1..], candidate[1..])
  }

  /** `match_sophemes_to_chords.is_match` (match_sophemes.py:385-393). */
  function ChordIsMatch(actual: seq<AsteriskableKey>, candidate: seq<AsteriskableKey>): bool
  {
    KeyNames(actual) == KeyNames(candidate) && AsterisksCovered(actual, candidate)
  }

  lemma {:induction false} AsterisksCoveredPointwise(actual: seq<AsteriskableKey>, candidate: seq<AsteriskableKey>)
    requires |actual| == |candidate|
    ensures AsterisksCovered(actual, candidate) <==>
            forall t :: 0 <= t < |actual| ==> (candidate[t].asterisk ==> actual[t].asterisk)
    decreases |actual|
  {
    if |actual| > 0 {
      AsterisksCoveredPointwise(actual[1..], candidate[1..]);
      assert forall t :: 1 <= t < |actual| ==> actual[1..][t - 1] == actual[t] && candidate[1..][t - 1] == candidate[t];
    }
  }

  /** A chord of the outline matches a candidate chord exactly when it has the same
      keys in the same order and is struck with the asterisk wherever the candidate is. */
  lemma ChordIsMatchPointwise(actual: seq<AsteriskableKey>, candidate: seq<AsteriskableKey>)
    ensures ChordIsMatch(actual, candidate) <==>
            |actual| == |candidate| &&
            forall t :: 0 <= t < |actual| ==> actual[t].key == candidate[t].key && (candidate[t].asterisk ==> actual[t].asterisk)
  {
    if |actual| == |candidate| {
      AsterisksCoveredPointwise(actual, candidate);
      if forall t :: 0 <= t < |actual| ==> actual[t].key == candidate[t].key {
        assert KeyNames(actual) == KeyNames(candidate);
      }
    } else {
      assert |KeyNames(actual)| != |KeyNames(candidate)|;
    }
  }

  /** Striking a matching chord with more asterisks still matches. */
  lemma ChordMatchWithMoreAsterisks(actual: seq<AsteriskableKey>, more: seq<AsteriskableKey>, candidate: seq<AsteriskableKey>)
    requires ChordIsMatch(actual, candidate) && |more| == |actual|
    requires forall t :: 0 <= t < |actual| ==> more[t].key == actual[t].key && (actual[t].asterisk ==> more[t].asterisk)
    ensures ChordIsMatch(more, candidate)
  {
    ChordIsMatchPointwise(actual, candidate);
    ChordIsMatchPointwise(more, candidate);
  }

  /** The steneme of a span (match_sophemes.py:410-416): the sophemes and keys between
      its two cells; a match carries the candidate's asterisk flags and phoneme, an
      unmatched run no asterisk and no phoneme. */
  function ConstructSteneme<P>(ss: seq<Sopheme>, keys: seq<AsteriskableKey>, s: Cell<Cost, (seq<bool>, Option<P>)>,
                               e: Cell<Cost, (seq<bool>, Option<P>)>, d: Option<(seq<bool>, Option<P>)>): (r: Steneme<P>)
    ensures s.x <= e.x <= |ss| && s.y <= e.y <= |keys| ==>
              r.sophemes == ss[s.x..e.x] && r.keys == KeyNames(keys[s.y..e.y])
    ensures d.None? ==> r.phoneme.None? && |r.asterisks| == (if s.y <= e.y then e.y - s.y else 0) &&
                        forall t :: 0 <= t < |r.asterisks| ==> !r.asterisks[t]
    ensures d.Some? ==> r.asterisks == d.value.0 && r.phoneme == d.value.1
  {
    Steneme(PySlice(ss, s.x, e.x), KeyNames(PySlice(keys, s.y, e.y)),
            if d.Some? then d.value.0 else seq(if s.y <= e.y then e.y - s.y else 0, _ => false),
            if d.Some? then d.value.1 else None)
  }

  /** The service `match_sophemes_to_chords` (match_sophemes.py:341-416) with the given
      `has_mapping` and `get_mapping_options`: a mapping's key is its chord, its length
      the number of keys, and its match data the chord's asterisk flags and phoneme. */
  function SophemesToChordsWith<P(!new)>(hasMapping: seq<string> -> bool, options: seq<string> -> seq<ChordMapping<P>>):
    (svc: AlignmentService<Cost, (seq<bool>, Option<P>), Sopheme, AsteriskableKey, ChordMapping<P>, string, AsteriskableKey, Steneme<P>>)
    ensures svc.less == CostLess && svc.hasMapping == hasMapping && svc.mappingOptions == options
    ensures forall o :: svc.ySeqLen(o) == |o.keys| && svc.candidateYKey(o) == o.keys
    ensures forall a, c :: svc.isMatch(a, c) == ChordIsMatch(a, c)
  {
    AlignmentService(
      INITIAL_COST,
      CostLess,
      (p: Cell<Cost, (seq<bool>, Option<P>)>, incX: bool, incY: bool) => MismatchCost(p, incX, incY),
      SophemeKey,
      (o: ChordMapping<P>) => o.keys,
      hasMapping,
      options,
      (o: ChordMapping<P>) => |o.keys|,
      ChordIsMatch,
      (p: Cell<Cost, (seq<bool>, Option<P>)>) => MatchCost(p),
      (xKey: seq<string>, yKey: seq<AsteriskableKey>, xRun: seq<Sopheme>, o: ChordMapping<P>) => (Asterisks(yKey), o.phoneme),
      ConstructSteneme)
  }

  /** The chord service as evidently intended: a run has a mapping when its key is in
      the table, and its options are the table's chords. */
  function SophemesToChords<P(!new)>(table: ChordTable<P>):
    (svc: AlignmentService<Cost, (seq<bool>, Option<P>), Sopheme, AsteriskableKey, ChordMapping<P>, string, AsteriskableKey, Steneme<P>>)
    ensures forall key :: svc.hasMapping(key) <==> key in table
    ensures forall key :: key in table ==> svc.mappingOptions(key) == table[key]
  {
    SophemesToChordsWith((key: seq<string>) => key in table, (key: seq<string>) => if key in table then table[key] else [])
  }

  /** The chord service as written: like the letters service, it declares its table as
      `MAPPINGS` but defines neither `has_mapping` nor `get_mapping_options`
      (match_sophemes.py:341-416), so the abstract `has_mapping` answers None and every
      run is skipped. */
  function SophemesToChordsAsWritten<P(!new)>():
    (svc: AlignmentService<Cost, (seq<bool>, Option<P>), Sopheme, AsteriskableKey, ChordMapping<P>, string, AsteriskableKey, Steneme<P>>)
    ensures forall key :: !svc.hasMapping(key)
  {
    SophemesToChordsWith((key: seq<string>) => false, (key: seq<string>) => [])
  }

  /** As written, no sopheme is ever matched to a chord: any non-empty input comes back
      as the one steneme holding every sopheme and every key, with no asterisk and no
      phoneme. */
  lemma ChordsAsWrittenOneSteneme<P(!new)>(ss: seq<Sopheme>, keys: seq<AsteriskableKey>)
    requires 0 < |ss| + |keys|
    ensures var svc := SophemesToChordsAsWritten<P>();
            && AlignedSpans(svc, ss, keys).Some?
            && var r := Construct(svc, ss, keys, AlignedSpans(svc, ss, keys).value);
            && |r| == 1 && r[0].sophemes == ss && r[0].keys == KeyNames(keys) && r[0].phoneme.None?
            && |r[0].asterisks| == |keys| && forall t :: 0 <= t < |keys| ==> !r[0].asterisks[t]
  {
    var svc := SophemesToChordsAsWritten<P>();
    NoMappingsOneSpan(svc, ss, keys);
    CellAtShape(svc, ss, keys, |ss|, |keys|);
    var last := CellAt(svc, ss, keys, |ss|, |keys|).value;
    assert last.x == |ss| && last.y == |keys|;
    var st := ConstructSteneme(ss, keys, InitialCell(svc), last, None);
    assert ss[0..|ss|] == ss && keys[0..|keys|] == keys;
    assert Construct(svc, ss, keys, [Span(InitialCell(svc), last, None)]) == [st];
  }

  /** `match_sophemes` as written: neither stage matches anything, so a non-empty
      transcription or translation comes back as one steneme that holds one sopheme,
      itself holding the whole translation and every keysymbol, and every key of the
      outline. */
  lemma MatchSophemesAsWrittenOneSteneme<P(!new)>(translation: string, transcription: string, keys: seq<AsteriskableKey>)
    requires 0 < |ParseSeq(transcription)| + |translation|
    ensures var ks := ParseSeq(transcription);
            var svc1 := KeysymbolsToCharsAsWritten();
            && AlignedSpans(svc1, ks, translation).Some?
            && var ss := Construct(svc1, ks, translation, AlignedSpans(svc1, ks, translation).value);
            && ss == [Sopheme(translation, ks)]
            && var svc2 := SophemesToChordsAsWritten<P>();
            && AlignedSpans(svc2, ss, keys).Some?
            && var r := Construct(svc2, ss, keys, AlignedSpans(svc2, ss, keys).value);
            && |r| == 1 && r[0].sophemes == ss && r[0].keys == KeyNames(keys) && r[0].phoneme.None?
  {
    AsWrittenOneSopheme(ParseSeq(transcription), translation);
    ChordsAsWrittenOneSteneme<P>([Sopheme(translation, ParseSeq(transcription))], keys);
  }

  /** `match_sophemes(translation, transcription, outline_steno)`
      (match_sophemes.py:418-420): align the keysymbols to the letters, then the
      resulting sophemes to the keys of the outline, which are taken already read. With
      a chord table that has no entry for the empty run the result always exists. */
  method MatchSophemesToChords<P(!new)>(chords: ChordTable<P>, translation: string, transcription: string,
                                        keys: seq<AsteriskableKey>)
    returns (r: Option<seq<Steneme<P>>>)
    ensures [] !in chords ==> r.Some?
    ensures var svc := KeysymbolsToChars(KEYSYMBOL_TO_GRAPHEMES);
            var ks := ParseSeq(transcription);
            AlignedSpans(svc, ks, translation).Some? &&
            var ss := Construct(svc, ks, translation, AlignedSpans(svc, ks, translation).value);
            (r.Some? ==> AlignedSpans(SophemesToChords(chords), ss, keys).Some? &&
                         r.value == Construct(SophemesToChords(chords), ss, keys, AlignedSpans(SophemesToChords(chords), ss, keys).value))
  {
    var sophemes := MatchKeysymbolsToChars(transcription, translation);
    var svc := SophemesToChords(chords);
    if [] !in chords {
      forall i, j | 0 <= i <= |sophemes| && 0 <= j <= |keys|
        ensures CellAt(svc, sophemes, keys, i, j).Some?
      {
        assert SophemeKey([]) == [];
        AllCellsComputed(svc, sophemes, keys, i, j);
      }
    }
    r := Align(svc, sophemes, keys);
  }

  /** The keysymbols of the transcription "p t". */
  lemma PtKeysymbols()
    ensures ParseSeq("p t") == [PyKeysymbol("p", 0, false), PyKeysymbol("t", 0, false)]
  {
    assert Text.Split("", ' ') == [""];
    assert "t"[1..] == "" && " t"[1..] == "t" && "p t"[1..] == " t";
    assert ['t'] + "" == "t" && ['p'] + "" == "p";
    assert Text.Split("t", ' ') == [['t'] + Text.Split("", ' ')[0]] + Text.Split("", ' ')[1..] == ["t"];
    assert Text.Split(" t", ' ') == [""] + ["t"];
    assert Text.Split("p t", ' ') == [['p'] + Text.Split(" t", ' ')[0]] + Text.Split(" t", ' ')[1..] == ["p", "t"];
    assert IsPhonetic("p") && StripBrackets("p") == "p" && !IsBracketed("p");
    assert IsPhonetic("t") && StripBrackets("t") == "t" && !IsBracketed("t");
    assert ParseItems(["t"], 0) == [PyKeysymbol("t", 0, false)] + ParseItems([], 0);
    assert ParseItems(["p", "t"], 0) == [PyKeysymbol("p", 0, false)] + ParseItems(["t"], 0);
  }

  /** "p t" spelt "pt", as written: one sopheme leaving both keysymbols and both
      letters unmatched. */
  lemma PtAsWritten()
    ensures var ks := ParseSeq("p t");
            && AlignedSpans(KeysymbolsToCharsAsWritten(), ks, "pt").Some?
            && Construct(KeysymbolsToCharsAsWritten(), ks, "pt", AlignedSpans(KeysymbolsToCharsAsWritten(), ks, "pt").value) ==
               [Sopheme("pt", ks)]
            && CellAt(KeysymbolsToCharsAsWritten(), ks, "pt", |ks|, 2).value.cost == Cost(2, 2, 0)
  {
    PtKeysymbols();
    AsWrittenOneSopheme(ParseSeq("p t"), "pt");
  }

  /** The entries of the grapheme table for "p" and "t". */
  const PT_GRAPHEMES: GraphemeTable := map[["p"] := ["p", "pp"], ["t"] := ["t", "tt", "d", "dd"]]

  /** "p t" spelt "pt", as intended, with the table's entries for "p" and "t": "p"
      matches "p" and "t" matches "t", leaving nothing unmatched. */
  lemma PtCorrected()
    ensures var ks := ParseSeq("p t");
            && CellAt(KeysymbolsToChars(PT_GRAPHEMES), ks, "pt", 2, 2).Some?
            && CellAt(KeysymbolsToChars(PT_GRAPHEMES), ks, "pt", 2, 2).value.cost.unmatchedX == 0
            && CellAt(KeysymbolsToChars(PT_GRAPHEMES), ks, "pt", 2, 2).value.cost.unmatchedY == 0
  {
    PtKeysymbols();
    var ks := ParseSeq("p t");
    var table := PT_GRAPHEMES;
    assert BaseSymbol(ks[0]) == "p" && BaseSymbol(ks[1]) == "t";
    assert KeysymbolKey(ks[0..1]) == ["p"] && KeysymbolKey(ks[1..2]) == ["t"];
    var xs: seq<nat>, ys: seq<nat> := [0, 1, 2], [0, 1, 2];
    assert "pt"[0..1] == "p" && "pt"[1..2] == "t";
    assert PieceMapped(table, ks, "pt", xs, ys, 0);
    assert PieceMapped(table, ks, "pt", xs, ys, 1);
    CorrectedMatchesPieces(table, ks, "pt", xs, ys, 2);
  }
}
