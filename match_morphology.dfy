/** The morphology matcher of plover_hatchery/lib/alignment/match_morphology.py: the
    parts of a split morphology are aligned with the letters of the translation by the
    generic aligner of `Alignment`, each part taking the letters it matched as its
    ortho, and the matched parts are then regrouped into fresh chunks.

    Two flaws of the code as written are modelled beside the evident intent, selected
    by `fixed`: `construct_match` builds a `Formatting` from three arguments although
    the class takes at most two (a TypeError), and `__finish_chunk` reads
    `morpheme_seq.parts`, which `MorphemeSeq` does not define (an AttributeError). */
module MatchMorphology {
  import opened Wrappers
  import opened Alignment
  import opened ParseMorphology
  import MatchSophemes

  /** The same `_Cost` triple as the sopheme matchers (match_morphology.py:21-24):
      unmatched parts, unmatched letters, chunks. */
  type Cost = MatchSophemes.Cost

  /** What a Python call does: return a value or raise. */
  datatype Raising<+T> = Returns(value: T) | RaisesTypeError | RaisesAttributeError

  // ---------------------------------------------------------------------------
  // Mapping options

  /** `_VOWELS` (match_morphology.py:10). */
  predicate IsVowel(c: char) {
    c == 'a' || c == 'e' || c == 'i' || c == 'o' || c == 'u'
  }

  /** `_MORPHEME_ALTERNATIVES` (match_morphology.py:12-19): the spellings of a
      morpheme name that are tried besides the name. */
  const ALTERNATIVES: map<string, seq<string>> :=
    map["ise" := ["ise", "ize"], "able" := ["able", "ible", "abil", "ibil"], "y" := ["i"]]

  /** The spellings tried for a morpheme (match_morphology.py:59-62): its alternatives,
      or else the name alone. Every spelling is as long as the name, so the loops of
      `get_mapping_options`, which count by the name's length, index each spelling
      within bounds. */
  function Spellings(name: string): (r: seq<string>)
    ensures |r| > 0
    ensures forall k :: 0 <= k < |r| ==> |r[k]| == |name|
    ensures name !in ALTERNATIVES ==> r == [name]
  {
    if name in ALTERNATIVES then ALTERNATIVES[name] else [name]
  }

  /** The inner loop of `get_mapping_options` (match_morphology.py:69-73) for one
      start: the slices of `o` from `start` to each stop from `stop` down to
      `start + 1`, ending at the first stop whose letter is not a vowel. */
  function EndTrims(o: string, start: nat, stop: nat): seq<string>
    requires stop <= |o|
    decreases stop
  {
    if stop <= start then []
    else if stop < |o| && !IsVowel(o[stop]) then []
    else [o[start..stop]] + EndTrims(o, start, stop - 1)
  }

  /** The start loop of `get_mapping_options` (match_morphology.py:65-73) from `start`
      on, ending at the first start whose preceding letter is not a vowel. */
  function StartTrims(o: string, start: nat): seq<string>
    decreases |o| - start
  {
    if start >= |o| then []
    else if start > 0 && !IsVowel(o[start - 1]) then []
    else EndTrims(o, start, |o|) + StartTrims(o, start + 1)
  }

  /** Every option one spelling yields, in the order yielded. */
  function Trims(o: string): seq<string> {
    StartTrims(o, 0)
  }

  /** The results of `f` on each of `xs`, one after the other. */
  function FlatMap(f: string -> seq<string>, xs: seq<string>): seq<string> {
    if |xs| == 0 then [] else FlatMap(f, xs[..|xs| - 1]) + f(xs[|xs| - 1])
  }

  /** The options of several spellings, spelling by spelling. */
  function TrimsOf(spellings: seq<string>): seq<string> {
    FlatMap(Trims, spellings)
  }

  /** `get_mapping_options` (match_morphology.py:48-73): a formatting part maps to its
      name, a morpheme to the trims of its spellings. The aligner asks only for keys of
      one part, so the empty key, which would raise, is never asked for. */
  function MappingOptions(key: seq<Part>): (r: seq<string>)
    ensures |key| > 0 && key[0].Formatting? ==> r == [key[0].name]
  {
    if |key| == 0 then []
    else match key[0]
      case Formatting(name, _) => [name]
      case MorphemePart(m) => TrimsOf(Spellings(m.name))
  }

  /** All letters of `o` before `start` are vowels. */
  ghost predicate VowelHead(o: string, start: nat) {
    forall k :: 0 <= k < start && k < |o| ==> IsVowel(o[k])
  }

  /** All letters of `o` from `stop` on are vowels. */
  ghost predicate VowelTail(o: string, stop: nat) {
    forall k :: stop <= k < |o| ==> IsVowel(o[k])
  }

  /** `o[start..stop]` is a non-empty part of `o` left by dropping only vowels from its
      two ends. */
  ghost predicate VowelTrim(o: string, start: nat, stop: nat) {
    start < stop <= |o| && VowelHead(o, start) && VowelTail(o, stop)
  }

  lemma {:induction false} EndTrimsExact(o: string, start: nat, stop: nat, x: string)
    requires stop <= |o| && VowelTail(o, stop + 1)
    ensures x in EndTrims(o, start, stop) <==>
            exists c: nat :: start < c <= stop && VowelTail(o, c) && x == o[start..c]
    decreases stop
  {
    if stop <= start {
    } else if stop < |o| && !IsVowel(o[stop]) {
      forall c: nat | start < c <= stop
        ensures !VowelTail(o, c)
      {
        assert !IsVowel(o[stop]);
      }
    } else {
      assert VowelTail(o, stop);
      EndTrimsExact(o, start, stop - 1, x);
      assert EndTrims(o, start, stop) == [o[start..stop]] + EndTrims(o, start, stop - 1);
    }
  }

  lemma {:induction false} StartTrimsExact(o: string, start: nat, x: string)
    requires start <= |o| && (start == 0 || VowelHead(o, start - 1))
    ensures x in StartTrims(o, start) <==>
            exists a: nat, c: nat :: start <= a && VowelTrim(o, a, c) && x == o[a..c]
    decreases |o| - start
  {
    if start >= |o| {
    } else if start > 0 && !IsVowel(o[start - 1]) {
      forall a: nat | start <= a
        ensures !VowelHead(o, a)
      {
        assert !IsVowel(o[start - 1]);
      }
    } else {
      assert VowelHead(o, start);
      EndTrimsExact(o, start, |o|, x);
      StartTrimsExact(o, start + 1, x);
      if x in EndTrims(o, start, |o|) {
        var c: nat :| start < c <= |o| && VowelTail(o, c) && x == o[start..c];
        assert VowelTrim(o, start, c);
      }
      if exists a: nat, c: nat :: start <= a && VowelTrim(o, a, c) && x == o[a..c] {
        var a: nat, c: nat :| start <= a && VowelTrim(o, a, c) && x == o[a..c];
        if a == start {
          assert x in EndTrims(o, start, |o|);
        }
      }
    }
  }

  /** The options of one spelling are exactly its non-empty slices that drop only
      vowels from either end (match_morphology.py:57-73). */
  lemma TrimsExact(o: string, x: string)
    ensures x in Trims(o) <==> exists a: nat, c: nat :: VowelTrim(o, a, c) && x == o[a..c]
  {
    StartTrimsExact(o, 0, x);
  }

  lemma {:induction false} FlatMapExact(f: string -> seq<string>, xs: seq<string>, x: string)
    ensures x in FlatMap(f, xs) <==> exists k :: 0 <= k < |xs| && x in f(xs[k])
    decreases |xs|
  {
    if |xs| > 0 {
      var init := xs[..|xs| - 1];
      FlatMapExact(f, init, x);
      if exists k :: 0 <= k < |xs| && x in f(xs[k]) {
        var k :| 0 <= k < |xs| && x in f(xs[k]);
        if k < |init| {
          assert init[k] == xs[k];
        }
      }
      if x in FlatMap(f, init) {
        var k :| 0 <= k < |init| && x in f(init[k]);
        assert xs[k] == init[k];
      }
    }
  }

  lemma TrimsOfExact(spellings: seq<string>, x: string)
    ensures x in TrimsOf(spellings) <==> exists k :: 0 <= k < |spellings| && x in Trims(spellings[k])
  {
    FlatMapExact(Trims, spellings, x);
  }

  /** A morpheme may be spelt by any of its spellings with vowels, and only vowels,
      dropped from either end; no option is empty (match_morphology.py:57-73). */
  lemma MorphemeOptionsExact(key: seq<Part>, x: string)
    requires |key| > 0 && key[0].MorphemePart?
    ensures x in MappingOptions(key) <==>
            exists o, a: nat, c: nat :: o in Spellings(key[0].morpheme.name) && VowelTrim(o, a, c) && x == o[a..c]
    ensures x in MappingOptions(key) ==> 0 < |x| <= |key[0].morpheme.name|
  {
    var sp := Spellings(key[0].morpheme.name);
    TrimsOfExact(sp, x);
    if x in MappingOptions(key) {
      var k :| 0 <= k < |sp| && x in Trims(sp[k]);
      TrimsExact(sp[k], x);
      var a: nat, c: nat :| VowelTrim(sp[k], a, c) && x == sp[k][a..c];
      assert sp[k] in sp;
    }
    if exists o, a: nat, c: nat :: o in sp && VowelTrim(o, a, c) && x == o[a..c] {
      var o, a: nat, c: nat :| o in sp && VowelTrim(o, a, c) && x == o[a..c];
      var k :| 0 <= k < |sp| && sp[k] == o;
      TrimsExact(o, x);
      assert x in Trims(sp[k]);
    }
  }

  /** A morpheme without alternatives can always be spelt by its whole name. */
  lemma WholeNameIsOption(key: seq<Part>)
    requires |key| > 0 && key[0].MorphemePart? && key[0].morpheme.name != ""
    requires key[0].morpheme.name !in ALTERNATIVES
    ensures key[0].morpheme.name in MappingOptions(key)
  {
    var name := key[0].morpheme.name;
    assert VowelTrim(name, 0, |name|);
    assert name[0..|name|] == name;
    MorphemeOptionsExact(key, name);
  }

  /** The options of a three-letter spelling whose middle letter alone is not a vowel:
      the whole, without the last letter, without the first, and the middle letter. */
  lemma VowelConsonantVowelTrims(o: string)
    requires |o| == 3 && IsVowel(o[0]) && !IsVowel(o[1]) && IsVowel(o[2])
    ensures Trims(o) == [o, o[..2], o[1..], o[1..2]]
  {
    assert EndTrims(o, 0, 1) == [];
    assert EndTrims(o, 0, 2) == [o[0..2]];
    assert EndTrims(o, 0, 3) == [o[0..3]] + EndTrims(o, 0, 2);
    assert EndTrims(o, 1, 2) == [o[1..2]];
    assert EndTrims(o, 1, 3) == [o[1..3]] + EndTrims(o, 1, 2);
    assert StartTrims(o, 2) == [];
    assert StartTrims(o, 1) == EndTrims(o, 1, 3) + StartTrims(o, 2);
    assert StartTrims(o, 0) == EndTrims(o, 0, 3) + StartTrims(o, 1);
    assert o[0..3] == o;
  }

  /** "ise" is tried as spelt "ise" and "ize", keeping or dropping the first "i" and the
      final "e" of each. */
  lemma IseOptions(m: Morpheme)
    requires m.name == "ise"
    ensures MappingOptions([MorphemePart(m)]) == ["ise", "is", "se", "s", "ize", "iz", "ze", "z"]
  {
    var sp := Spellings("ise");
    assert sp == ["ise", "ize"];
    VowelConsonantVowelTrims("ise");
    VowelConsonantVowelTrims("ize");
    assert "ise"[..2] == "is" && "ise"[1..] == "se" && "ise"[1..2] == "s";
    assert "ize"[..2] == "iz" && "ize"[1..] == "ze" && "ize"[1..2] == "z";
    assert sp[..1] == ["ise"];
    assert TrimsOf(sp[..1]) == TrimsOf([]) + Trims("ise");
    assert TrimsOf(sp) == TrimsOf(sp[..1]) + Trims("ize");
  }

  /** The stop loop of `get_mapping_options` (match_morphology.py:68-73) for one start. */
  method StopTrims(option: string, start: nat) returns (r: seq<string>)
    requires start <= |option|
    ensures r == EndTrims(option, start, |option|)
  {
    r := [];
    var stop := |option|;
    while stop > start
      invariant start <= stop <= |option|
      invariant r + EndTrims(option, start, stop) == EndTrims(option, start, |option|)
    {
      if stop < |option| && !IsVowel(option[stop]) {
        break;
      }
      r := r + [option[start..stop]];
      stop := stop - 1;
    }
  }

  /** The start loop of `get_mapping_options` (match_morphology.py:64-73) for one
      spelling. */
  method SpellingTrims(option: string) returns (r: seq<string>)
    ensures r == Trims(option)
  {
    r := [];
    var start := 0;
    while start < |option|
      invariant start <= |option|
      invariant r + StartTrims(option, start) == Trims(option)
    {
      if start > 0 && !IsVowel(option[start - 1]) {
        break;
      }
      var trims := StopTrims(option, start);
      r := r + trims;
      start := start + 1;
    }
  }

  /** `get_mapping_options` (match_morphology.py:48-73). */
  method GetMappingOptions(key: seq<Part>) returns (r: seq<string>)
    requires |key| > 0
    ensures r == MappingOptions(key)
  {
    var part := key[0];
    if part.Formatting? {
      return [part.name];
    }
    var name := part.morpheme.name;
    var spellings := Spellings(name);
    r := [];
    for i := 0 to |spellings|
      invariant r == TrimsOf(spellings[..i])
    {
      var trims := SpellingTrims(spellings[i]);
      assert spellings[..i + 1][..i] == spellings[..i];
      r := r + trims;
    }
    assert spellings[..|spellings|] == spellings;
  }

  // ---------------------------------------------------------------------------
  // The service

  /** A part's ortho. */
  function Ortho(p: Part): string {
    match p
    case Formatting(_, o) => o
    case MorphemePart(m) => m.ortho
  }

  /** `dataclasses.replace(part, ortho=...)`. */
  function WithOrtho(p: Part, ortho: string): (r: Part)
    ensures Ortho(r) == ortho && r.Formatting? == p.Formatting?
    ensures r.Formatting? ==> r.name == p.name
    ensures r.MorphemePart? ==> r.morpheme == p.morpheme.(ortho := ortho)
  {
    match p
    case Formatting(name, _) => Formatting(name, ortho)
    case MorphemePart(m) => MorphemePart(m.(ortho := ortho))
  }

  /** `construct_match` (match_morphology.py:91-99): the first part between the two
      cells, with the letters between them as its ortho. With no part between them the
      code as written calls `Formatting` with three arguments, a TypeError; as
      intended the letters become a formatting part of their own. */
  function ConstructMatch(fixed: bool, parts: seq<Part>, chars: string, s: Cell<Cost, ()>, e: Cell<Cost, ()>): (r: Raising<Part>)
    ensures r.Returns? <==> fixed || (s.x < e.x && s.x < |parts|)
    ensures r.Returns? ==> Ortho(r.value) == MatchSophemes.PySlice(chars, s.y, e.y)
    ensures s.x < e.x && s.x < |parts| ==> r == Returns(WithOrtho(parts[s.x], MatchSophemes.PySlice(chars, s.y, e.y)))
  {
    var matchParts := MatchSophemes.PySlice(parts, s.x, e.x);
    var matchChars := MatchSophemes.PySlice(chars, s.y, e.y);
    if |matchParts| == 0 then
      if fixed then Returns(Formatting(matchChars, matchChars)) else RaisesTypeError
    else
      Returns(WithOrtho(matchParts[0], matchChars))
  }

  /** The service `_match_morphology_to_chars` (match_morphology.py:26-99): parts
      against letters, a run of exactly one part having mappings, letters matching an
      option when equal to it, and the `_Cost` arithmetic of the sopheme matchers. */
  function MorphologyToChars(fixed: bool): (svc: AlignmentService<Cost, (), Part, char, string, Part, char, Raising<Part>>)
    ensures MatchSophemes.SophemeCosts(svc) && svc.less == MatchSophemes.CostLess
    ensures forall key :: svc.hasMapping(key) <==> |key| == 1
    ensures forall key :: svc.candidateXKey(key) == key
    ensures forall ps, cs, s, e, d :: svc.constructMatch(ps, cs, s, e, d) == ConstructMatch(fixed, ps, cs, s, e)
  {
    AlignmentService(
      MatchSophemes.INITIAL_COST,
      MatchSophemes.CostLess,
      (p: Cell<Cost, ()>, incX: bool, incY: bool) => MatchSophemes.MismatchCost(p, incX, incY),
      (key: seq<Part>) => key,
      (o: string) => o,
      (key: seq<Part>) => |key| == 1,
      MappingOptions,
      (o: string) => |o|,
      (actual: string, candidate: string) => actual == candidate,
      (p: Cell<Cost, ()>) => MatchSophemes.MatchCost(p),
      (key: seq<Part>, chars: string, run: seq<Part>, o: string) => (),
      (ps: seq<Part>, cs: string, s: Cell<Cost, ()>, e: Cell<Cost, ()>, d: Option<()>) => ConstructMatch(fixed, ps, cs, s, e))
  }

  /** The matches of the traceback gathered by `tuple(...)`: the first one that raises
      ends it. */
  function Collect(ms: seq<Raising<Part>>): (r: Raising<seq<Part>>)
    ensures r.Returns? <==> forall t :: 0 <= t < |ms| ==> ms[t].Returns?
    ensures r.Returns? ==> |r.value| == |ms| && forall t :: 0 <= t < |ms| ==> ms[t] == Returns(r.value[t])
    ensures (forall t :: 0 <= t < |ms| ==> !ms[t].RaisesAttributeError?) ==> !r.RaisesAttributeError?
  {
    if |ms| == 0 then Returns([])
    else
      match Collect(ms[..|ms| - 1])
      case Returns(ps) =>
        (match ms[|ms| - 1]
         case Returns(p) => Returns(ps + [p])
         case RaisesTypeError => RaisesTypeError
         case RaisesAttributeError => RaisesAttributeError)
      case RaisesTypeError => RaisesTypeError
      case RaisesAttributeError => RaisesAttributeError
  }

  /** The letters the spans cover, span by span. */
  function SpanChars<C, D>(sy: string, spans: seq<Span<C, D>>): string {
    if |spans| == 0 then ""
    else SpanChars(sy, spans[..|spans| - 1]) + MatchSophemes.PySlice(sy, spans[|spans| - 1].start.y, spans[|spans| - 1].end.y)
  }

  /** The traceback up to a stored cell covers the letters up to it, in order. */
  lemma {:induction false} TracebackCovers<C, D, X, O, MX, MY, M>(svc: AlignmentService<C, D, X, char, O, MX, MY, M>,
                                                                 sx: seq<X>, sy: string, c: Cell<C, D>)
    requires c.x <= |sx| && c.y <= |sy| && CellAt(svc, sx, sy, c.x, c.y) == Some(c)
    ensures SpanChars(sy, Traceback(svc, sx, sy, c)) == sy[..c.y]
    decreases c.x + c.y
  {
    if c.parent.Some? {
      var start := TraceStart(svc, sx, sy, c);
      TracebackCovers(svc, sx, sy, start);
      var span := Span(start, c, if c.hasMatch then c.matchData else None);
      assert Traceback(svc, sx, sy, c) == Traceback(svc, sx, sy, start) + [span];
      SpanCharsSnoc(sy, Traceback(svc, sx, sy, start), span);
    } else {
      CellAtShape(svc, sx, sy, c.x, c.y);
    }
  }

  lemma SpanCharsSnoc<C, D>(sy: string, init: seq<Span<C, D>>, span: Span<C, D>)
    requires span.start.y <= span.end.y <= |sy| && SpanChars(sy, init) == sy[..span.start.y]
    ensures SpanChars(sy, init + [span]) == sy[..span.end.y]
  {
    var spans := init + [span];
    assert spans[..|spans| - 1] == init;
    assert sy[..span.start.y] + sy[span.start.y..span.end.y] == sy[..span.end.y];
  }

  /** The orthos of the parts, in order. */
  function Orthos(ps: seq<Part>): string {
    if |ps| == 0 then "" else Orthos(ps[..|ps| - 1]) + Ortho(ps[|ps| - 1])
  }

  lemma {:induction false} OrthosOfSpans(sy: string, spans: seq<Span<Cost, ()>>, ps: seq<Part>)
    requires |ps| == |spans|
    requires forall t :: 0 <= t < |ps| ==> Ortho(ps[t]) == MatchSophemes.PySlice(sy, spans[t].start.y, spans[t].end.y)
    ensures Orthos(ps) == SpanChars(sy, spans)
    decreases |ps|
  {
    if |ps| > 0 {
      OrthosOfSpans(sy, spans[..|spans| - 1], ps[..|ps| - 1]);
    }
  }

  /** A part with its parent chunk forgotten. */
  function Detach(p: Part): Part {
    match p
    case Formatting(_, _) => p
    case MorphemePart(m) => MorphemePart(m.(parent := 0))
  }

  lemma {:induction false} OrthosDetached(a: seq<Part>, b: seq<Part>)
    requires |a| == |b| && forall k :: 0 <= k < |a| ==> Detach(a[k]) == Detach(b[k])
    ensures Orthos(a) == Orthos(b)
    decreases |a|
  {
    if |a| > 0 {
      OrthosDetached(a[..|a| - 1], b[..|b| - 1]);
      assert Ortho(a[|a| - 1]) == Ortho(Detach(a[|a| - 1]));
      assert Ortho(b[|b| - 1]) == Ortho(Detach(b[|b| - 1]));
    }
  }

  // ---------------------------------------------------------------------------
  // Regrouping the matched parts

  /** A morpheme's parent is a bracketed chunk of `chunks` (a Python `Morpheme` holds
      the `Root` or `Affix` object itself; here its index). */
  predicate KnownParent(chunks: seq<Chunk>, p: Part) {
    p.MorphemePart? ==> p.morpheme.parent < |chunks| && chunks[p.morpheme.parent].Bracketed?
  }

  predicate ParentsKnown(chunks: seq<Chunk>, ps: seq<Part>) {
    forall k :: 0 <= k < |ps| ==> KnownParent(chunks, ps[k])
  }

  /** The parts of one chunk. */
  function ChunkParts(c: Chunk): seq<Part> {
    match c
    case FormattingChunk(f) => [f]
    case Bracketed(_, ms) => AsParts(ms)
  }

  /** The parts of the chunks, chunk by chunk. */
  function Flatten(chunks: seq<Chunk>): seq<Part> {
    if |chunks| == 0 then [] else Flatten(chunks[..|chunks| - 1]) + ChunkParts(chunks[|chunks| - 1])
  }

  /** A bracketed chunk with one more morpheme. */
  function WithMorpheme(c: Chunk, m: Morpheme): (r: Chunk)
    ensures r.Bracketed? == c.Bracketed?
    ensures c.Bracketed? ==> r.kind == c.kind && r.morphemes == c.morphemes + [m]
  {
    match c
    case FormattingChunk(_) => c
    case Bracketed(kind, ms) => Bracketed(kind, ms + [m])
  }

  /** The reconstructor's fields (match_morphology.py:109-113): the old chunk being
      copied, the new chunk being filled, and the parts and chunks done so far. */
  datatype RState = RState(current: Option<nat>, chunk: Option<Chunk>, parts: seq<Part>, chunks: seq<Chunk>)

  const START: RState := RState(None, None, [], [])

  /** `__finish_chunk` (match_morphology.py:144-151); None is the AttributeError of
      the code as written. */
  function FinishSpec(fixed: bool, st: RState): Option<RState> {
    if st.current.None? || st.chunk.None? then Some(st)
    else if !fixed then None
    else Some(RState(None, None, st.parts + AsParts(if st.chunk.value.Bracketed? then st.chunk.value.morphemes else []),
                     st.chunks + [st.chunk.value]))
  }

  /** One pass of the loop of `reconstruct` (match_morphology.py:119-137). A fresh
      morpheme's parent is the index the new chunk will have once finished. */
  function StepSpec(fixed: bool, oldChunks: seq<Chunk>, st: RState, p: Part): Option<RState>
    requires KnownParent(oldChunks, p)
  {
    match p
    case Formatting(_, _) =>
      (match FinishSpec(fixed, st)
       case None => None
       case Some(s) => Some(s.(parts := s.parts + [p], chunks := s.chunks + [FormattingChunk(p)])))
    case MorphemePart(m) =>
      var entered :=
        if st.current == Some(m.parent) then Some(st)
        else match FinishSpec(fixed, st)
          case None => None
          case Some(s) => Some(s.(current := Some(m.parent), chunk := Some(Bracketed(oldChunks[m.parent].kind, []))));
      match entered
      case None => None
      case Some(s) =>
        if s.chunk.Some? then Some(s.(chunk := Some(WithMorpheme(s.chunk.value, m.(parent := |s.chunks|))))) else Some(s)
  }

  /** The loop of `reconstruct` over the remaining parts. */
  function RunSpec(fixed: bool, oldChunks: seq<Chunk>, st: RState, ps: seq<Part>): Option<RState>
    requires ParentsKnown(oldChunks, ps)
    decreases |ps|
  {
    if |ps| == 0 then Some(st)
    else
      match StepSpec(fixed, oldChunks, st, ps[0])
      case None => None
      case Some(s) => RunSpec(fixed, oldChunks, s, ps[1..])
  }

  /** `reconstruct` after the alignment (match_morphology.py:119-141). */
  function ReconstructSpec(fixed: bool, oldChunks: seq<Chunk>, ps: seq<Part>): Raising<Morphology>
    requires ParentsKnown(oldChunks, ps)
  {
    match RunSpec(fixed, oldChunks, START, ps)
    case None => RaisesAttributeError
    case Some(s) =>
      match FinishSpec(fixed, s)
      case None => RaisesAttributeError
      case Some(f) => Returns(Morphology(f.parts, f.chunks))
  }

  // ---------------------------------------------------------------------------
  // What regrouping gives, as intended

  /** The parent of the last part when that part is a morpheme. */
  function PrevParent(ps: seq<Part>): Option<nat> {
    if |ps| > 0 && ps[|ps| - 1].MorphemePart? then Some(ps[|ps| - 1].morpheme.parent) else None
  }

  /** The chunks after one more part: a formatting part is a chunk of its own, and a
      morpheme joins the last chunk when the part before it is a morpheme of the same
      old chunk, and otherwise opens a chunk of its old chunk's kind. */
  function AddPart(oldChunks: seq<Chunk>, g: seq<Chunk>, prev: Option<nat>, p: Part): seq<Chunk>
    requires KnownParent(oldChunks, p)
  {
    match p
    case Formatting(_, _) => g + [FormattingChunk(p)]
    case MorphemePart(m) =>
      if prev == Some(m.parent) && |g| > 0 then g[..|g| - 1] + [WithMorpheme(g[|g| - 1], m.(parent := |g| - 1))]
      else g + [Bracketed(oldChunks[m.parent].kind, [m.(parent := |g|)])]
  }

  /** The chunks of `ps` grouped into maximal runs of morphemes of one old chunk. */
  function Groups(oldChunks: seq<Chunk>, ps: seq<Part>): (g: seq<Chunk>)
    requires ParentsKnown(oldChunks, ps)
    ensures |ps| > 0 ==> |g| > 0
    decreases |ps|
  {
    if |ps| == 0 then []
    else
      var init := ps[..|ps| - 1];
      AddPart(oldChunks, Groups(oldChunks, init), PrevParent(init), ps[|ps| - 1])
  }

  /** The pending chunk and the finished ones. */
  function Full(st: RState): seq<Chunk> {
    st.chunks + (if st.chunk.Some? then [st.chunk.value] else [])
  }

  /** The parts done are those of the chunks done, and a chunk is pending, bracketed,
      exactly while an old chunk is being copied. */
  predicate Tidy(st: RState) {
    st.parts == Flatten(st.chunks) && (st.current.Some? <==> st.chunk.Some?) &&
    (st.chunk.Some? ==> st.chunk.value.Bracketed?)
  }

  /** The reconstructor's state after the first `i` parts, as intended. */
  ghost predicate RunInv(oldChunks: seq<Chunk>, ps: seq<Part>, i: nat, st: RState)
    requires ParentsKnown(oldChunks, ps) && i <= |ps|
  {
    Full(st) == Groups(oldChunks, ps[..i]) && st.current == PrevParent(ps[..i]) && Tidy(st)
  }

  lemma FlattenSnoc(cs: seq<Chunk>, c: Chunk)
    ensures Flatten(cs + [c]) == Flatten(cs) + ChunkParts(c)
  {
    assert (cs + [c])[..|cs|] == cs;
  }

  /** Finishing a chunk, as intended, moves it to the chunks done. */
  lemma FinishFull(st: RState)
    requires Tidy(st)
    ensures FinishSpec(true, st).Some?
    ensures FinishSpec(true, st).value.current.None? && FinishSpec(true, st).value.chunk.None?
    ensures Tidy(FinishSpec(true, st).value) && Full(FinishSpec(true, st).value) == Full(st)
  {
    if st.current.Some? {
      FlattenSnoc(st.chunks, st.chunk.value);
    }
  }

  /** One pass of the loop, as intended, from a tidy state: it returns, the state
      stays tidy, the chunks grow as `AddPart` adds the part, and the old chunk being
      copied is the part's when the part is a morpheme. */
  ghost predicate StepAdds(oldChunks: seq<Chunk>, st: RState, p: Part)
    requires KnownParent(oldChunks, p)
  {
    var r := StepSpec(true, oldChunks, st, p);
    r.Some? && Tidy(r.value) && Full(r.value) == AddPart(oldChunks, Full(st), st.current, p) &&
    r.value.current == (if p.MorphemePart? then Some(p.morpheme.parent) else None)
  }

  lemma FormattingStepAdds(oldChunks: seq<Chunk>, st: RState, p: Part)
    requires p.Formatting? && Tidy(st)
    ensures StepAdds(oldChunks, st, p)
  {
    FinishFull(st);
    var f := FinishSpec(true, st).value;
    FlattenSnoc(f.chunks, FormattingChunk(p));
  }

  lemma OpeningStepAdds(oldChunks: seq<Chunk>, st: RState, m: Morpheme)
    requires KnownParent(oldChunks, MorphemePart(m)) && Tidy(st) && st.current != Some(m.parent)
    ensures StepAdds(oldChunks, st, MorphemePart(m))
  {
    FinishFull(st);
    var f := FinishSpec(true, st).value;
    assert f.chunks == Full(st);
    var m' := m.(parent := |f.chunks|);
    var c := Bracketed(oldChunks[m.parent].kind, [m']);
    assert WithMorpheme(Bracketed(oldChunks[m.parent].kind, []), m') == c;
    var r := f.(current := Some(m.parent), chunk := Some(c));
    assert StepSpec(true, oldChunks, st, MorphemePart(m)) == Some(r);
    assert Full(r) == Full(st) + [c];
  }

  lemma JoiningStepAdds(oldChunks: seq<Chunk>, st: RState, m: Morpheme)
    requires KnownParent(oldChunks, MorphemePart(m)) && Tidy(st) && st.current == Some(m.parent)
    ensures StepAdds(oldChunks, st, MorphemePart(m))
  {
    var g := Full(st);
    assert g[..|g| - 1] == st.chunks;
  }

  /** One pass of the loop, as intended, adds the part as `AddPart` does. */
  lemma StepAddPart(oldChunks: seq<Chunk>, st: RState, p: Part)
    requires KnownParent(oldChunks, p) && Tidy(st)
    ensures StepAdds(oldChunks, st, p)
  {
    match p
    case Formatting(_, _) => FormattingStepAdds(oldChunks, st, p);
    case MorphemePart(m) =>
      if st.current != Some(m.parent) {
        OpeningStepAdds(oldChunks, st, m);
      } else {
        JoiningStepAdds(oldChunks, st, m);
      }
  }

  lemma StepGroups(oldChunks: seq<Chunk>, ps: seq<Part>, i: nat, st: RState)
    requires ParentsKnown(oldChunks, ps) && i < |ps| && RunInv(oldChunks, ps, i, st)
    ensures StepSpec(true, oldChunks, st, ps[i]).Some?
    ensures RunInv(oldChunks, ps, i + 1, StepSpec(true, oldChunks, st, ps[i]).value)
  {
    var pre := ps[..i + 1];
    assert pre[..i] == ps[..i];
    assert pre[i] == ps[i];
    StepAddPart(oldChunks, st, ps[i]);
  }

  lemma {:induction false} RunGroups(oldChunks: seq<Chunk>, ps: seq<Part>, i: nat, st: RState)
    requires ParentsKnown(oldChunks, ps) && i <= |ps| && RunInv(oldChunks, ps, i, st)
    ensures RunSpec(true, oldChunks, st, ps[i..]).Some?
    ensures RunInv(oldChunks, ps, |ps|, RunSpec(true, oldChunks, st, ps[i..]).value)
    decreases |ps| - i
  {
    if i < |ps| {
      StepGroups(oldChunks, ps, i, st);
      var s := StepSpec(true, oldChunks, st, ps[i]).value;
      RunGroups(oldChunks, ps, i + 1, s);
      assert ps[i..][0] == ps[i] && ps[i..][1..] == ps[i + 1..];
    }
  }

  /** As intended, regrouping yields the chunks of `Groups` and their parts. */
  lemma ReconstructGroups(oldChunks: seq<Chunk>, ps: seq<Part>)
    requires ParentsKnown(oldChunks, ps)
    ensures ReconstructSpec(true, oldChunks, ps) == Returns(Morphology(Flatten(Groups(oldChunks, ps)), Groups(oldChunks, ps)))
  {
    assert ps[..0] == [];
    assert RunInv(oldChunks, ps, 0, START);
    RunGroups(oldChunks, ps, 0, START);
    assert ps[0..] == ps && ps[..|ps|] == ps;
    var s := RunSpec(true, oldChunks, START, ps).value;
    FinishFull(s);
    var f := FinishSpec(true, s).value;
    assert Full(f) == f.chunks;
  }

  /** The same parts, in order, up to the parents of the morphemes. */
  ghost predicate SameParts(a: seq<Part>, b: seq<Part>) {
    |a| == |b| && forall k :: 0 <= k < |a| ==> Detach(a[k]) == Detach(b[k])
  }

  /** Chunk `q` is a formatting part of its own or a non-empty run of morphemes naming
      `q` as parent. */
  ghost predicate PointsTo(c: Chunk, q: nat) {
    (c.FormattingChunk? ==> c.formatting.Formatting?) &&
    (c.Bracketed? ==> |c.morphemes| > 0 && forall j :: 0 <= j < |c.morphemes| ==> c.morphemes[j].parent == q)
  }

  ghost predicate AllPointBack(g: seq<Chunk>) {
    forall q :: 0 <= q < |g| ==> PointsTo(g[q], q)
  }

  /** The parts of `ps` and the chunks of `g` are the same parts up to their parents;
      each chunk is a formatting part of its own or a non-empty run of morphemes naming
      it as parent; and the last chunk is pending exactly when the last part is a
      morpheme. */
  ghost predicate Regrouped(ps: seq<Part>, g: seq<Chunk>) {
    SameParts(Flatten(g), ps) && AllPointBack(g) &&
    (PrevParent(ps).Some? <==> |g| > 0 && g[|g| - 1].Bracketed?)
  }

  lemma SamePartsSnoc(a: seq<Part>, b: seq<Part>, p: Part, q: Part)
    requires SameParts(a, b) && Detach(p) == Detach(q)
    ensures SameParts(a + [p], b + [q])
  {
    assert forall k :: 0 <= k < |a| ==> (a + [p])[k] == a[k] && (b + [q])[k] == b[k];
  }

  lemma PointBackSnoc(g: seq<Chunk>, c: Chunk)
    requires AllPointBack(g) && PointsTo(c, |g|)
    ensures AllPointBack(g + [c])
  {
    assert forall q :: 0 <= q < |g| ==> (g + [c])[q] == g[q];
  }

  lemma FormattingRegrouped(oldChunks: seq<Chunk>, init: seq<Part>, g: seq<Chunk>, p: Part)
    requires Regrouped(init, g) && p.Formatting?
    ensures Regrouped(init + [p], AddPart(oldChunks, g, PrevParent(init), p))
  {
    FlattenSnoc(g, FormattingChunk(p));
    SamePartsSnoc(Flatten(g), init, p, p);
    PointBackSnoc(g, FormattingChunk(p));
    assert PrevParent(init + [p]) == None;
  }

  lemma NewChunkRegrouped(oldChunks: seq<Chunk>, init: seq<Part>, g: seq<Chunk>, m: Morpheme)
    requires Regrouped(init, g) && KnownParent(oldChunks, MorphemePart(m))
    requires !(PrevParent(init) == Some(m.parent) && |g| > 0)
    ensures Regrouped(init + [MorphemePart(m)], AddPart(oldChunks, g, PrevParent(init), MorphemePart(m)))
  {
    var m' := m.(parent := |g|);
    var c := Bracketed(oldChunks[m.parent].kind, [m']);
    assert AddPart(oldChunks, g, PrevParent(init), MorphemePart(m)) == g + [c];
    FlattenSnoc(g, c);
    assert ChunkParts(c) == [MorphemePart(m')];
    SamePartsSnoc(Flatten(g), init, MorphemePart(m'), MorphemePart(m));
    PointBackSnoc(g, c);
    assert PrevParent(init + [MorphemePart(m)]) == Some(m.parent);
  }

  /** Adding a morpheme to the last chunk adds it at the end of the flattened parts. */
  lemma FlattenLastChunkSnoc(g: seq<Chunk>, c: Chunk, m': Morpheme)
    requires |g| > 0 && g[|g| - 1].Bracketed? && c == WithMorpheme(g[|g| - 1], m')
    ensures Flatten(g[..|g| - 1] + [c]) == Flatten(g) + [MorphemePart(m')]
  {
    var n := |g| - 1;
    FlattenSnoc(g[..n], c);
    AsPartsSnoc(g[n].morphemes, m');
  }

  lemma AsPartsSnoc(ms: seq<Morpheme>, m: Morpheme)
    ensures AsParts(ms + [m]) == AsParts(ms) + [MorphemePart(m)]
  {
    var a, b := AsParts(ms + [m]), AsParts(ms) + [MorphemePart(m)];
    assert |a| == |b|;
    forall k | 0 <= k < |a| ensures a[k] == b[k] {
      if k < |ms| { assert (ms + [m])[k] == ms[k]; }
    }
  }

  /** Adding a morpheme naming the last chunk to that chunk keeps every chunk pointing
      back. */
  lemma PointBackLastChunk(g: seq<Chunk>, c: Chunk, m': Morpheme)
    requires AllPointBack(g) && |g| > 0 && g[|g| - 1].Bracketed?
    requires c == WithMorpheme(g[|g| - 1], m') && m'.parent == |g| - 1
    ensures AllPointBack(g[..|g| - 1] + [c])
  {
    var n := |g| - 1;
    var last := g[n];
    assert AllPointBack(g[..n]) by {
      assert forall q :: 0 <= q < n ==> g[..n][q] == g[q];
    }
    assert PointsTo(c, n) by {
      assert PointsTo(last, n);
      assert c.morphemes == last.morphemes + [m'];
      assert forall j :: 0 <= j < |last.morphemes| ==> c.morphemes[j] == last.morphemes[j];
    }
    PointBackSnoc(g[..n], c);
  }

  lemma SameChunkRegrouped(oldChunks: seq<Chunk>, init: seq<Part>, g: seq<Chunk>, m: Morpheme)
    requires Regrouped(init, g) && KnownParent(oldChunks, MorphemePart(m))
    requires PrevParent(init) == Some(m.parent) && |g| > 0
    ensures Regrouped(init + [MorphemePart(m)], AddPart(oldChunks, g, PrevParent(init), MorphemePart(m)))
  {
    var n := |g| - 1;
    var m' := m.(parent := n);
    var c := WithMorpheme(g[n], m');
    var g' := g[..n] + [c];
    assert AddPart(oldChunks, g, PrevParent(init), MorphemePart(m)) == g';
    FlattenLastChunkSnoc(g, c, m');
    SamePartsSnoc(Flatten(g), init, MorphemePart(m'), MorphemePart(m));
    PointBackLastChunk(g, c, m');
    assert PrevParent(init + [MorphemePart(m)]) == Some(m.parent);
  }

  /** Regrouping, as intended, keeps every part in order, changing only the parents of
      the morphemes, and each new chunk names its own index as its morphemes' parent. */
  lemma {:induction false} GroupsRegrouped(oldChunks: seq<Chunk>, ps: seq<Part>)
    requires ParentsKnown(oldChunks, ps)
    ensures Regrouped(ps, Groups(oldChunks, ps))
    decreases |ps|
  {
    if |ps| > 0 {
      var init := ps[..|ps| - 1];
      var p := ps[|ps| - 1];
      assert ps == init + [p];
      GroupsRegrouped(oldChunks, init);
      var g := Groups(oldChunks, init);
      match p
      case Formatting(_, _) => FormattingRegrouped(oldChunks, init, g, p);
      case MorphemePart(m) =>
        if PrevParent(init) == Some(m.parent) && |g| > 0 {
          SameChunkRegrouped(oldChunks, init, g, m);
        } else {
          NewChunkRegrouped(oldChunks, init, g, m);
        }
    }
  }

  /** A morpheme run is broken only by a formatting part or by a morpheme of another
      old chunk: two morphemes in a row of one old chunk land in one new chunk. */
  lemma SameParentJoins(oldChunks: seq<Chunk>, init: seq<Part>, m: Morpheme)
    requires ParentsKnown(oldChunks, init) && KnownParent(oldChunks, MorphemePart(m))
    requires PrevParent(init) == Some(m.parent)
    ensures |Groups(oldChunks, init + [MorphemePart(m)])| == |Groups(oldChunks, init)|
  {
    var ps := init + [MorphemePart(m)];
    assert ps[..|ps| - 1] == init;
  }

  /** A formatting part, or a morpheme whose predecessor is not a morpheme of the same
      old chunk, opens a new chunk. */
  lemma OtherPartOpens(oldChunks: seq<Chunk>, init: seq<Part>, p: Part)
    requires ParentsKnown(oldChunks, init) && KnownParent(oldChunks, p)
    requires p.Formatting? || PrevParent(init) != Some(p.morpheme.parent)
    ensures |Groups(oldChunks, init + [p])| == |Groups(oldChunks, init)| + 1
  {
    var ps := init + [p];
    assert ps[..|ps| - 1] == init;
  }

  // ---------------------------------------------------------------------------
  // The whole matcher

  /** Every cell of the matrix can be computed: the empty run of parts has no mapping. */
  lemma AlignedSome(fixed: bool, parts: seq<Part>, translation: string)
    ensures AlignedSpans(MorphologyToChars(fixed), parts, translation).Some?
  {
    AllCellsComputed(MorphologyToChars(fixed), parts, translation, |parts|, |translation|);
  }

  /** The spans of the cheapest alignment of the parts with the letters. */
  function MatchSpans(fixed: bool, parts: seq<Part>, translation: string): (r: seq<Span<Cost, ()>>)
    ensures AlignedSpans(MorphologyToChars(fixed), parts, translation) == Some(r)
  {
    AlignedSome(fixed, parts, translation);
    AlignedSpans(MorphologyToChars(fixed), parts, translation).value
  }

  /** `_match_morphology_to_chars(morphology, translation)`: the matches of the
      alignment, or the error the first failing `construct_match` raises. */
  function MatchedParts(fixed: bool, morphology: Morphology, translation: string): Raising<seq<Part>> {
    var parts := morphology.parts;
    Collect(Construct(MorphologyToChars(fixed), parts, translation, MatchSpans(fixed, parts, translation)))
  }

  /** Each matched part is a part of the morphology given the letters of its span as
      ortho, or a formatting part made of letters no part spells. */
  lemma MatchedPartsFromSpans(fixed: bool, morphology: Morphology, translation: string)
    ensures var r := MatchedParts(fixed, morphology, translation);
            var spans := MatchSpans(fixed, morphology.parts, translation);
            r.Returns? ==>
              |r.value| == |spans| &&
              forall k :: 0 <= k < |spans| ==>
                Ortho(r.value[k]) == MatchSophemes.PySlice(translation, spans[k].start.y, spans[k].end.y) &&
                (r.value[k].Formatting? || (spans[k].start.x < |morphology.parts| &&
                                            r.value[k] == WithOrtho(morphology.parts[spans[k].start.x], Ortho(r.value[k]))))
  {
    var svc := MorphologyToChars(fixed);
    var spans := MatchSpans(fixed, morphology.parts, translation);
    var ms := Construct(svc, morphology.parts, translation, spans);
    assert forall k :: 0 <= k < |spans| ==>
      ms[k] == ConstructMatch(fixed, morphology.parts, translation, spans[k].start, spans[k].end);
  }

  /** Every matched morpheme is a morpheme of the morphology, with only its ortho
      replaced; so its parent is still one of the morphology's chunks. */
  lemma MatchedMorphemesKnown(fixed: bool, morphology: Morphology, translation: string)
    requires ParentsKnown(morphology.chunks, morphology.parts)
    ensures var r := MatchedParts(fixed, morphology, translation);
            r.Returns? ==>
              ParentsKnown(morphology.chunks, r.value) &&
              forall k :: 0 <= k < |r.value| && r.value[k].MorphemePart? ==>
                exists q :: 0 <= q < |morphology.parts| && morphology.parts[q].MorphemePart? &&
                            r.value[k].morpheme == morphology.parts[q].morpheme.(ortho := r.value[k].morpheme.ortho)
  {
    MatchedPartsFromSpans(fixed, morphology, translation);
    var r := MatchedParts(fixed, morphology, translation);
    if r.Returns? {
      var spans := MatchSpans(fixed, morphology.parts, translation);
      forall k | 0 <= k < |r.value| && r.value[k].MorphemePart?
        ensures KnownParent(morphology.chunks, r.value[k])
        ensures exists q :: 0 <= q < |morphology.parts| && morphology.parts[q].MorphemePart? &&
                            r.value[k].morpheme == morphology.parts[q].morpheme.(ortho := r.value[k].morpheme.ortho)
      {
        var q := spans[k].start.x;
        assert KnownParent(morphology.chunks, morphology.parts[q]);
      }
    }
  }

  /** `match_morphology_to_chars` (match_morphology.py:116-141, 154-155): align, then
      regroup. The morphology's morphemes name its own chunks as parents. */
  function MatchMorphologySpec(fixed: bool, morphology: Morphology, translation: string): Raising<Morphology>
    requires ParentsKnown(morphology.chunks, morphology.parts)
  {
    MatchedMorphemesKnown(fixed, morphology, translation);
    match MatchedParts(fixed, morphology, translation)
    case Returns(ps) => ReconstructSpec(fixed, morphology.chunks, ps)
    case RaisesTypeError => RaisesTypeError
    case RaisesAttributeError => RaisesAttributeError
  }

  /** The letters of the matched parts, in order, are the translation. */
  lemma MatchedOrthos(fixed: bool, morphology: Morphology, translation: string)
    requires MatchedParts(fixed, morphology, translation).Returns?
    ensures Orthos(MatchedParts(fixed, morphology, translation).value) == translation
  {
    var svc := MorphologyToChars(fixed);
    var parts := morphology.parts;
    var spans := MatchSpans(fixed, parts, translation);
    MatchedPartsFromSpans(fixed, morphology, translation);
    OrthosOfSpans(translation, spans, MatchedParts(fixed, morphology, translation).value);
    var last := CellAt(svc, parts, translation, |parts|, |translation|).value;
    CellAtShape(svc, parts, translation, |parts|, |translation|);
    TracebackCovers(svc, parts, translation, last);
    assert translation[..|translation|] == translation;
  }

  /** As intended, every match can be constructed and the matched parts are
      regrouped as `Groups` groups them. */
  lemma CorrectedRegroups(morphology: Morphology, translation: string)
    requires ParentsKnown(morphology.chunks, morphology.parts)
    ensures MatchedParts(true, morphology, translation).Returns?
    ensures ParentsKnown(morphology.chunks, MatchedParts(true, morphology, translation).value)
    ensures var ps := MatchedParts(true, morphology, translation).value;
            var g := Groups(morphology.chunks, ps);
            MatchMorphologySpec(true, morphology, translation) == Returns(Morphology(Flatten(g), g))
  {
    var svc := MorphologyToChars(true);
    var spans := MatchSpans(true, morphology.parts, translation);
    var ms := Construct(svc, morphology.parts, translation, spans);
    assert forall k :: 0 <= k < |ms| ==> ms[k].Returns?;
    MatchedMorphemesKnown(true, morphology, translation);
    ReconstructGroups(morphology.chunks, MatchedParts(true, morphology, translation).value);
  }

  /** As intended, matching always succeeds: the result regroups the matched parts, its
      orthos spell the translation, its parts are its chunks' parts, and every chunk
      holds a formatting part or morphemes naming it as parent. */
  lemma MatchMorphologyCorrected(morphology: Morphology, translation: string)
    requires ParentsKnown(morphology.chunks, morphology.parts)
    ensures MatchedParts(true, morphology, translation).Returns?
    ensures ParentsKnown(morphology.chunks, MatchedParts(true, morphology, translation).value)
    ensures var ps := MatchedParts(true, morphology, translation).value;
            var g := Groups(morphology.chunks, ps);
            && MatchMorphologySpec(true, morphology, translation) == Returns(Morphology(Flatten(g), g))
            && Regrouped(ps, g)
            && Orthos(Flatten(g)) == translation
  {
    CorrectedRegroups(morphology, translation);
    MatchedMorphemesKnown(true, morphology, translation);
    var ps := MatchedParts(true, morphology, translation).value;
    GroupsRegrouped(morphology.chunks, ps);
    MatchedOrthos(true, morphology, translation);
    OrthosDetached(Flatten(Groups(morphology.chunks, ps)), ps);
  }

  // ---------------------------------------------------------------------------
  // The code as written

  /** Some part is a morpheme. */
  predicate HasMorpheme(ps: seq<Part>) {
    exists k :: 0 <= k < |ps| && ps[k].MorphemePart?
  }

  /** As written, a chunk once opened can never be finished: the loop either raises or
      ends with a chunk still pending, and a pending chunk stays pending. */
  lemma {:induction false} AsWrittenRun(oldChunks: seq<Chunk>, st: RState, ps: seq<Part>)
    requires ParentsKnown(oldChunks, ps) && (st.current.Some? <==> st.chunk.Some?)
    ensures var r := RunSpec(false, oldChunks, st, ps);
            r.Some? ==> (r.value.current.Some? <==> r.value.chunk.Some?) &&
                        (st.current.Some? || HasMorpheme(ps) ==> r.value.current.Some?)
    decreases |ps|
  {
    if |ps| > 0 {
      var p := ps[0];
      match StepSpec(false, oldChunks, st, p)
      case None =>
      case Some(s) =>
        assert s.current.Some? <==> s.chunk.Some?;
        assert p.MorphemePart? ==> s.current.Some?;
        assert st.current.Some? ==> s.current.Some?;
        AsWrittenRun(oldChunks, s, ps[1..]);
        if HasMorpheme(ps) && !p.MorphemePart? {
          var k :| 0 <= k < |ps| && ps[k].MorphemePart?;
          assert ps[1..][k - 1] == ps[k];
        }
    }
  }

  /** As written, regrouping raises AttributeError as soon as there is a morpheme: the
      chunk it opens must be finished, and finishing reads `morpheme_seq.parts`. */
  lemma AsWrittenReconstruct(oldChunks: seq<Chunk>, ps: seq<Part>)
    requires ParentsKnown(oldChunks, ps) && HasMorpheme(ps)
    ensures ReconstructSpec(false, oldChunks, ps) == RaisesAttributeError
  {
    AsWrittenRun(oldChunks, START, ps);
  }

  /** As intended, regrouping a sequence with a morpheme returns; so the as-written
      AttributeError is not in the design. */
  lemma CorrectedReconstructReturns(oldChunks: seq<Chunk>, ps: seq<Part>)
    requires ParentsKnown(oldChunks, ps)
    ensures ReconstructSpec(true, oldChunks, ps).Returns?
  {
    ReconstructGroups(oldChunks, ps);
  }

  /** From span `t` on, the first span that advances in x starts at x = 0. */
  lemma {:induction false} FirstXAdvance<C, D>(spans: seq<Span<C, D>>, t: nat)
    requires t < |spans| && spans[t].start.x == 0 && spans[|spans| - 1].end.x > 0
    requires forall u :: 0 <= u < |spans| - 1 ==> spans[u].end == spans[u + 1].start
    ensures exists u :: t <= u < |spans| && spans[u].start.x == 0 < spans[u].end.x
    decreases |spans| - t
  {
    if spans[t].end.x == 0 {
      FirstXAdvance(spans, t + 1);
    }
  }

  /** As written, a morphology whose first part is a morpheme is never matched: the
      span taking that morpheme gives a morpheme to regroup, and regrouping it raises
      AttributeError, unless some span of letters alone has raised TypeError first. */
  lemma AsWrittenFirstMorpheme(morphology: Morphology, translation: string)
    requires ParentsKnown(morphology.chunks, morphology.parts)
    requires |morphology.parts| > 0 && morphology.parts[0].MorphemePart?
    ensures !MatchMorphologySpec(false, morphology, translation).Returns?
  {
    var parts := morphology.parts;
    var svc := MorphologyToChars(false);
    var spans := MatchSpans(false, parts, translation);
    var last := CellAt(svc, parts, translation, |parts|, |translation|).value;
    CellAtShape(svc, parts, translation, |parts|, |translation|);
    TracebackTiles(svc, parts, translation, last);
    assert spans == Traceback(svc, parts, translation, last);
    FirstXAdvance(spans, 0);
    var u :| 0 <= u < |spans| && spans[u].start.x == 0 < spans[u].end.x;
    MatchedMorphemesKnown(false, morphology, translation);
    MatchedPartsFromSpans(false, morphology, translation);
    var r := MatchedParts(false, morphology, translation);
    if r.Returns? {
      var ms := Construct(svc, parts, translation, spans);
      assert ms[u] == ConstructMatch(false, parts, translation, spans[u].start, spans[u].end);
      assert r.value[u].MorphemePart?;
      AsWrittenReconstruct(morphology.chunks, r.value);
    }
  }

  /** As written, letters matched by no part raise TypeError: with no parts at all,
      any non-empty translation does. */
  lemma NoPartsAsWritten(morphology: Morphology, translation: string)
    requires morphology.parts == [] && |translation| > 0
    ensures MatchMorphologySpec(false, morphology, translation) == RaisesTypeError
  {
    var parts := morphology.parts;
    var spans := MatchSpans(false, parts, translation);
    SpansNonEmpty(false, parts, translation);
    var ms := Construct(MorphologyToChars(false), parts, translation, spans);
    assert forall k :: 0 <= k < |ms| ==> ms[k] == RaisesTypeError;
    assert !ms[0].Returns?;
  }

  /** Some span ends at the last letter: a non-empty translation has a span. */
  lemma SpansNonEmpty(fixed: bool, parts: seq<Part>, translation: string)
    requires |translation| > 0
    ensures |MatchSpans(fixed, parts, translation)| > 0
  {
    var svc := MorphologyToChars(fixed);
    AllCellsComputed(svc, parts, translation, |parts|, |translation|);
    var last := CellAt(svc, parts, translation, |parts|, |translation|).value;
    CellAtShape(svc, parts, translation, |parts|, |translation|);
    TracebackTiles(svc, parts, translation, last);
  }

  /** As intended, letters matched by no part become formatting parts of their own:
      with no parts, the translation is spelt by formatting chunks alone. */
  lemma NoPartsCorrected(morphology: Morphology, translation: string)
    requires morphology.parts == []
    ensures MatchMorphologySpec(true, morphology, translation).Returns?
    ensures var r := MatchMorphologySpec(true, morphology, translation).value;
            && Orthos(r.parts) == translation
            && |r.parts| == |r.chunks|
            && forall k :: 0 <= k < |r.chunks| ==> r.chunks[k] == FormattingChunk(r.parts[k]) && r.parts[k].Formatting?
  {
    CorrectedRegroups(morphology, translation);
    MatchedPartsFromSpans(true, morphology, translation);
    MatchedOrthos(true, morphology, translation);
    var ps := MatchedParts(true, morphology, translation).value;
    assert forall k :: 0 <= k < |ps| ==> ps[k].Formatting?;
    FormattingGroups(morphology.chunks, ps);
  }

  /** One formatting chunk per part. */
  function Singletons(ps: seq<Part>): (r: seq<Chunk>)
    ensures |r| == |ps| && forall k :: 0 <= k < |ps| ==> r[k] == FormattingChunk(ps[k])
  {
    seq(|ps|, k requires 0 <= k < |ps| => FormattingChunk(ps[k]))
  }

  /** Parts that are all formatting are grouped one chunk each. */
  lemma {:induction false} FormattingGroups(oldChunks: seq<Chunk>, ps: seq<Part>)
    requires forall k :: 0 <= k < |ps| ==> ps[k].Formatting?
    ensures ParentsKnown(oldChunks, ps)
    ensures Groups(oldChunks, ps) == Singletons(ps) && Flatten(Singletons(ps)) == ps
    decreases |ps|
  {
    if |ps| > 0 {
      var init := ps[..|ps| - 1];
      var p := ps[|ps| - 1];
      assert ps == init + [p];
      FormattingGroups(oldChunks, init);
      FormattingGroupsStep(oldChunks, init, p);
      assert Singletons(ps) == Singletons(init) + [FormattingChunk(p)];
      FlattenSnoc(Singletons(init), FormattingChunk(p));
    }
  }

  lemma FormattingGroupsStep(oldChunks: seq<Chunk>, init: seq<Part>, p: Part)
    requires ParentsKnown(oldChunks, init) && p.Formatting?
    ensures ParentsKnown(oldChunks, init + [p])
    ensures Groups(oldChunks, init + [p]) == Groups(oldChunks, init) + [FormattingChunk(p)]
  {
    var ps := init + [p];
    assert ps[..|ps| - 1] == init;
    assert forall k :: 0 <= k < |init| ==> ps[k] == init[k];
  }

  // ---------------------------------------------------------------------------
  // The reconstructor

  /** `_MorphologyReconstructor` (match_morphology.py:102-151): the morphology and
      translation it was made with, and the fields `reconstruct` updates part by part. */
  class Reconstructor {
    const fixed: bool
    const morphology: Morphology
    const translation: string
    var currentOldChunk: Option<nat>
    var newChunk: Option<Chunk>
    var newParts: seq<Part>
    var newChunks: seq<Chunk>

    /** The fields as a value. */
    function State(): RState
      reads this
    {
      RState(currentOldChunk, newChunk, newParts, newChunks)
    }

    /** `__init__` (match_morphology.py:104-113). */
    constructor(fixed: bool, morphology: Morphology, translation: string)
      ensures this.fixed == fixed && this.morphology == morphology && this.translation == translation
      ensures State() == START
    {
      this.fixed := fixed;
      this.morphology := morphology;
      this.translation := translation;
      currentOldChunk := None;
      newChunk := None;
      newParts := [];
      newChunks := [];
    }

    /** `__finish_chunk` (match_morphology.py:144-151): move the pending chunk and its
        morphemes to the chunks and parts done. False is the AttributeError of the code
        as written, raised before any field changes. */
    method FinishChunk() returns (ok: bool)
      modifies this
      ensures ok <==> FinishSpec(fixed, old(State())).Some?
      ensures State() == if ok then FinishSpec(fixed, old(State())).value else old(State())
    {
      if currentOldChunk.None? || newChunk.None? {
        return true;
      }
      if !fixed {
        return false;
      }
      var chunk := newChunk.value;
      newParts := newParts + AsParts(if chunk.Bracketed? then chunk.morphemes else []);
      newChunks := newChunks + [chunk];
      currentOldChunk := None;
      newChunk := None;
      return true;
    }

    /** One pass of the loop of `reconstruct` (match_morphology.py:120-137): a
        formatting part is a chunk of its own; a morpheme of another old chunk than the
        last opens a chunk of that old chunk's kind; the morpheme joins the pending
        chunk, naming it as parent. */
    method Step(part: Part) returns (ok: bool)
      requires KnownParent(morphology.chunks, part)
      modifies this
      ensures ok <==> StepSpec(fixed, morphology.chunks, old(State()), part).Some?
      ensures ok ==> State() == StepSpec(fixed, morphology.chunks, old(State()), part).value
    {
      if part.Formatting? {
        ok := FinishChunk();
        if !ok {
          return;
        }
        newParts := newParts + [part];
        newChunks := newChunks + [FormattingChunk(part)];
        return;
      }
      var m := part.morpheme;
      if currentOldChunk != Some(m.parent) {
        ok := FinishChunk();
        if !ok {
          return;
        }
        currentOldChunk := Some(m.parent);
        newChunk := Some(Bracketed(morphology.chunks[m.parent].kind, []));
      }
      if newChunk.Some? {
        newChunk := Some(WithMorpheme(newChunk.value, m.(parent := |newChunks|)));
      }
      ok := true;
    }

    /** The loop of `reconstruct` and its last `__finish_chunk`
        (match_morphology.py:119-141), over the matched parts. */
    method Regroup(ps: seq<Part>) returns (r: Raising<Morphology>)
      requires State() == START && ParentsKnown(morphology.chunks, ps)
      modifies this
      ensures r == ReconstructSpec(fixed, morphology.chunks, ps)
    {
      var oldChunks := morphology.chunks;
      var i := 0;
      assert ps[0..] == ps;
      while i < |ps|
        invariant i <= |ps|
        invariant RunSpec(fixed, oldChunks, State(), ps[i..]) == RunSpec(fixed, oldChunks, START, ps)
      {
        assert ps[i..][0] == ps[i] && ps[i..][1..] == ps[i + 1..];
        var ok := Step(ps[i]);
        if !ok {
          return RaisesAttributeError;
        }
        i := i + 1;
      }
      var ok := FinishChunk();
      if !ok {
        return RaisesAttributeError;
      }
      return Returns(Morphology(newParts, newChunks));
    }

    /** `reconstruct` (match_morphology.py:116-141): align the parts with the letters,
        then regroup the matched parts. */
    method Reconstruct() returns (r: Raising<Morphology>)
      requires State() == START && ParentsKnown(morphology.chunks, morphology.parts)
      modifies this
      ensures r == MatchMorphologySpec(fixed, morphology, translation)
    {
      var matched := MatchParts(fixed, morphology, translation);
      if !matched.Returns? {
        return if matched.RaisesTypeError? then RaisesTypeError else RaisesAttributeError;
      }
      MatchedMorphemesKnown(fixed, morphology, translation);
      r := Regroup(matched.value);
    }
  }

  /** `_match_morphology_to_chars(morphology, translation)` (match_morphology.py:117):
      the aligner run on the parts and the letters, its matches gathered in order. */
  method MatchParts(fixed: bool, morphology: Morphology, translation: string) returns (r: Raising<seq<Part>>)
    ensures r == MatchedParts(fixed, morphology, translation)
  {
    var svc := MorphologyToChars(fixed);
    var parts := morphology.parts;
    forall i, j | 0 <= i <= |parts| && 0 <= j <= |translation|
      ensures CellAt(svc, parts, translation, i, j).Some?
    {
      AllCellsComputed(svc, parts, translation, i, j);
    }
    var aligned := Align(svc, parts, translation);
    r := Collect(aligned.value);
  }

  /** `match_morphology_to_chars` (match_morphology.py:154-155). */
  method MatchMorphologyToChars(fixed: bool, morphology: Morphology, translation: string) returns (r: Raising<Morphology>)
    requires ParentsKnown(morphology.chunks, morphology.parts)
    ensures r == MatchMorphologySpec(fixed, morphology, translation)
  {
    var reconstructor := new Reconstructor(fixed, morphology, translation);
    r := reconstructor.Reconstruct();
  }
}
