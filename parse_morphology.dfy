/** Splitting a morphology string such as "{air}>worth==y>>est>" against its
    transcription into roots, prefixes, suffixes and their morphemes
    (plover_hatchery/lib/alignment/parse_morphology.py).

    The parser reads past the end of either string when a bracket is left open or a
    delimiter is missing, which Python reports as an `IndexError`; and a chunk whose
    morpheme reading stops making progress would append empty morphemes forever. Both
    outcomes are modelled. A morpheme's `parent` is a reference to its chunk object in
    the source; here it is the position of that chunk in the morphology's chunk list. */
module ParseMorphology {
  import opened Wrappers
  import Text

  /** How a run of the parser ends: with a value, by reading past the end of a string,
      or never (the same step repeats forever). */
  datatype Outcome<+T> = Done(value: T) | IndexError | Hang

  /** `Root()` and `Affix(is_suffix)` (parse_morphology.py:33-68). */
  datatype ChunkKind = RootKind | AffixKind(isSuffix: bool)

  /** `Morpheme` (parse_morphology.py:76-90); `parent` is the chunk's position. */
  datatype Morpheme = Morpheme(parent: nat, name: string, phono: string, ortho: string)

  /** `MorphologyPart`: a `Formatting` or a `Morpheme` (parse_morphology.py:92-99). */
  datatype Part = Formatting(name: string, ortho: string) | MorphemePart(morpheme: Morpheme)

  /** `MorphologyChunk`: a `Formatting`, or a root or affix with its morpheme sequence
      (parse_morphology.py:100). */
  datatype Chunk = FormattingChunk(formatting: Part) | Bracketed(kind: ChunkKind, morphemes: seq<Morpheme>)

  /** `Morphology` (parse_morphology.py:103-107). */
  datatype Morphology = Morphology(parts: seq<Part>, chunks: seq<Chunk>)

  // ---------------------------------------------------------------------------
  // Morpheme sequences, keys and varnames

  /** `MorphemeSeq.name`: the names joined with nothing (parse_morphology.py:13-15). */
  function SeqName(ms: seq<Morpheme>): string {
    if |ms| == 0 then "" else SeqName(ms[..|ms| - 1]) + ms[|ms| - 1].name
  }

  /** `MorphemeSeq.ortho` (parse_morphology.py:21-23). */
  function SeqOrtho(ms: seq<Morpheme>): string {
    if |ms| == 0 then "" else SeqOrtho(ms[..|ms| - 1]) + ms[|ms| - 1].ortho
  }

  /** `MorphemeSeq.phono`: the phonos joined with single spaces (parse_morphology.py:17-19). */
  function SeqPhono(ms: seq<Morpheme>): string {
    if |ms| == 0 then ""
    else if |ms| == 1 then ms[0].phono
    else SeqPhono(ms[..|ms| - 1]) + " " + ms[|ms| - 1].phono
  }

  /** The name of a sequence is those of its halves, put together. */
  lemma {:induction false} SeqNameAppend(a: seq<Morpheme>, b: seq<Morpheme>)
    ensures SeqName(a + b) == SeqName(a) + SeqName(b)
    decreases |b|
  {
    if |b| == 0 {
      assert a + b == a;
    } else {
      var ab, b' := a + b, b[..|b| - 1];
      assert ab[..|ab| - 1] == a + b';
      SeqNameAppend(a, b');
      assert SeqName(ab) == SeqName(a + b') + b[|b| - 1].name;
    }
  }

  /** The ortho of a sequence is those of its halves, put together. */
  lemma {:induction false} SeqOrthoAppend(a: seq<Morpheme>, b: seq<Morpheme>)
    ensures SeqOrtho(a + b) == SeqOrtho(a) + SeqOrtho(b)
    decreases |b|
  {
    if |b| == 0 {
      assert a + b == a;
    } else {
      var ab, b' := a + b, b[..|b| - 1];
      assert ab[..|ab| - 1] == a + b';
      SeqOrthoAppend(a, b');
      assert SeqOrtho(ab) == SeqOrtho(a + b') + b[|b| - 1].ortho;
    }
  }

  /** The phono of a sequence is those of its halves, with one space between when both
      have morphemes. */
  lemma {:induction false} SeqPhonoAppend(a: seq<Morpheme>, b: seq<Morpheme>)
    requires |a| > 0 && |b| > 0
    ensures SeqPhono(a + b) == SeqPhono(a) + " " + SeqPhono(b)
    decreases |b|
  {
    if |b| == 1 {
      assert (a + b)[..|a + b| - 1] == a;
    } else {
      assert (a + b)[..|a + b| - 1] == a + b[..|b| - 1];
      SeqPhonoAppend(a, b[..|b| - 1]);
    }
  }

  /** A sequence of one morpheme has that morpheme's name, phono and ortho. */
  lemma SingleMorphemeSeq(m: Morpheme)
    ensures SeqName([m]) == m.name && SeqPhono([m]) == m.phono && SeqOrtho([m]) == m.ortho
  {
    assert [m][..0] == [];
  }

  /** `dict_key` of an affix (`AffixKey`), a root (`RootKey`) and a morpheme
      (`MorphemeKey`), as the tuples they are (parse_morphology.py:26-31, 39-41, 51-55,
      62-64, 70-74, 84-86). */
  datatype DictKey = AffixKey(isSuffix: bool, name: string, phono: string, ortho: string)
                   | TripleKey(name: string, phono: string, ortho: string)

  function ChunkDictKey(kind: ChunkKind, ms: seq<Morpheme>): (r: DictKey)
    ensures kind.AffixKind? <==> r.AffixKey?
  {
    match kind
    case RootKind => TripleKey(SeqName(ms), SeqPhono(ms), SeqOrtho(ms))
    case AffixKind(isSuffix) => AffixKey(isSuffix, SeqName(ms), SeqPhono(ms), SeqOrtho(ms))
  }

  function MorphemeDictKey(m: Morpheme): (r: DictKey)
    ensures r.TripleKey?
  {
    TripleKey(m.name, m.phono, m.ortho)
  }

  /** `RootKey` and `MorphemeKey` are plain tuples of the same shape, so a root of one
      morpheme has the key of that morpheme. */
  lemma RootKeyOfOneMorpheme(m: Morpheme)
    ensures ChunkDictKey(RootKind, [m]) == MorphemeDictKey(m)
  {
    SingleMorphemeSeq(m);
  }

  /** `varname` of a chunk: "^name" for a suffix, "name^" for a prefix, "#name" for a
      root (parse_morphology.py:43-48, 66-68). */
  function ChunkVarname(kind: ChunkKind, ms: seq<Morpheme>): string {
    match kind
    case RootKind => "#" + SeqName(ms)
    case AffixKind(isSuffix) => if isSuffix then "^" + SeqName(ms) else SeqName(ms) + "^"
  }

  /** `varname` of a morpheme: "@name" (parse_morphology.py:88-90). */
  function MorphemeVarname(m: Morpheme): string {
    "@" + m.name
  }

  /** The sigils varnames use. */
  predicate NoSigil(s: string) {
    forall i :: 0 <= i < |s| ==> s[i] !in "^#@"
  }

  /** The first and last characters of a chunk's varname tell its kind, and the rest
      is its name. */
  lemma VarnameEnds(kind: ChunkKind, ms: seq<Morpheme>)
    requires NoSigil(SeqName(ms)) && |SeqName(ms)| > 0
    ensures var v, n := ChunkVarname(kind, ms), SeqName(ms);
            |v| == |n| + 1 && v[0] != '@' &&
            (v[0] == '#' <==> kind == RootKind) && (v[0] == '^' <==> kind == AffixKind(true)) &&
            (v[|v| - 1] == '^' <==> kind == AffixKind(false)) &&
            (if kind == AffixKind(false) then n == v[..|v| - 1] else n == v[1..])
  {
    var v, n := ChunkVarname(kind, ms), SeqName(ms);
    assert v[0] == (if kind == AffixKind(false) then n[0] else v[0]);
    assert v[|v| - 1] == (if kind == AffixKind(false) then '^' else n[|n| - 1]);
  }

  /** When names hold no sigil and are not empty, a varname tells whether it is a
      morpheme's or which kind of chunk's, and gives back the name. */
  lemma VarnameDetermines(kind1: ChunkKind, ms1: seq<Morpheme>, kind2: ChunkKind, ms2: seq<Morpheme>, m: Morpheme)
    requires NoSigil(SeqName(ms1)) && NoSigil(SeqName(ms2)) && NoSigil(m.name)
    requires |SeqName(ms1)| > 0 && |SeqName(ms2)| > 0
    ensures ChunkVarname(kind1, ms1) == ChunkVarname(kind2, ms2) <==> kind1 == kind2 && SeqName(ms1) == SeqName(ms2)
    ensures ChunkVarname(kind1, ms1) != MorphemeVarname(m)
  {
    VarnameEnds(kind1, ms1);
    VarnameEnds(kind2, ms2);
    assert MorphemeVarname(m)[0] == '@';
  }

  // ---------------------------------------------------------------------------
  // Whitespace

  /** The start of the run of whitespace in `s` that ends at `j`, going no further
      back than `i`. */
  function BackSpaces(s: string, i: nat, j: nat): (e: nat)
    requires i <= j <= |s|
    ensures i <= e <= j && (e > i ==> !Text.IsPySpace(s[e - 1]))
    ensures forall k :: e <= k < j ==> Text.IsPySpace(s[k])
    decreases j
  {
    if j > i && Text.IsPySpace(s[j - 1]) then BackSpaces(s, i, j - 1) else j
  }

  /** No whitespace at either end. */
  predicate Stripped(s: string) {
    |s| > 0 ==> !Text.IsPySpace(s[0]) && !Text.IsPySpace(s[|s| - 1])
  }

  /** `s.strip()`: `s` without its leading and trailing whitespace. */
  function Strip(s: string): (r: string)
    ensures |r| <= |s| && Stripped(r)
  {
    var a := Text.SkipSpaces(s, 0);
    s[a..BackSpaces(s, a, |s|)]
  }

  /** `s.strip()` is a slice of `s` with only whitespace around it. */
  lemma StripIsSlice(s: string)
    ensures var a := Text.SkipSpaces(s, 0);
            var b := BackSpaces(s, a, |s|);
            Strip(s) == s[a..b] &&
            (forall i :: 0 <= i < a ==> Text.IsPySpace(s[i])) && (forall i :: b <= i < |s| ==> Text.IsPySpace(s[i]))
  {
  }

  // ---------------------------------------------------------------------------
  // The parser, as functions of its indices

  /** The delimiters that end a morpheme's phono and name. */
  predicate IsDelimiter(c: char) {
    c == '}' || c == '<' || c == '>'
  }

  /** The characters that open a chunk: a root, a prefix and a suffix. */
  predicate IsOpener(c: char) {
    c == '{' || c == '<' || c == '>'
  }

  /** `__catch_up_transcription_index`: the first position from `ti` on whose character
      is one of `targets`, or None when the transcription runs out first
      (parse_morphology.py:166-168). */
  function CatchUpSpec(t: string, ti: nat, targets: string): (r: Option<nat>)
    ensures r.Some? ==> ti <= r.value < |t| && t[r.value] in targets
    ensures r.Some? ==> forall k :: ti <= k < r.value ==> t[k] !in targets
    ensures r.None? ==> forall k :: ti <= k < |t| ==> t[k] !in targets
    decreases |t| - ti
  {
    if ti >= |t| then None
    else if t[ti] in targets then Some(ti)
    else CatchUpSpec(t, ti + 1, targets)
  }

  /** The first loop of `__consume_morpheme` (parse_morphology.py:222-233): the phono
      characters read and the position after them. At "=" the reading stops and skips
      to just past the next space or "$"; at a delimiter it stops there. */
  function PhonoSpec(t: string, ti: nat): (r: Option<(string, nat)>)
    ensures r.Some? ==> ti <= r.value.1 <= |t|
    decreases |t| - ti
  {
    if ti >= |t| then None
    else if t[ti] == '=' then
      match CatchUpSpec(t, ti, " $")
      case None => None
      case Some(k) => Some(("", k + 1))
    else if IsDelimiter(t[ti]) then Some(("", ti))
    else
      match PhonoSpec(t, ti + 1)
      case None => None
      case Some(rest) => Some(([t[ti]] + rest.0, rest.1))
  }

  /** The second loop of `__consume_morpheme` (parse_morphology.py:235-245): the name
      characters read and the position after them. At "=" the reading stops and skips
      two characters; at a delimiter it stops there. */
  function NameSpec(m: string, mi: nat): (r: Option<(string, nat)>)
    ensures r.Some? ==> mi <= r.value.1 <= |m| + 1
    decreases |m| - mi
  {
    if mi >= |m| then None
    else if m[mi] == '=' then Some(("", mi + 2))
    else if IsDelimiter(m[mi]) then Some(("", mi))
    else
      match NameSpec(m, mi + 1)
      case None => None
      case Some(rest) => Some(([m[mi]] + rest.0, rest.1))
  }

  /** No character of `s` is "=" or a delimiter. */
  predicate Undelimited(s: string) {
    forall i :: 0 <= i < |s| ==> (s[i] != '=' && !IsDelimiter(s[i]))
  }

  /** Phono and name text stop before any "=" or delimiter. */
  lemma {:induction false} ReadUndelimited(s: string, i: nat)
    ensures PhonoSpec(s, i).Some? ==> Undelimited(PhonoSpec(s, i).value.0)
    ensures NameSpec(s, i).Some? ==> Undelimited(NameSpec(s, i).value.0)
    decreases |s| - i
  {
    if i < |s| && s[i] != '=' && !IsDelimiter(s[i]) {
      ReadUndelimited(s, i + 1);
    }
  }

  /** A morpheme's name and phono hold no "=" and no delimiter, and its phono has no
      whitespace at either end. */
  predicate CleanMorpheme(m: Morpheme) {
    Undelimited(m.name) && Undelimited(m.phono) &&
    Stripped(m.phono) &&
    m.ortho == ""
  }

  /** `__consume_morpheme` (parse_morphology.py:221-247): the morpheme and the new
      transcription and morphology positions. */
  function MorphemeSpec(t: string, m: string, ti: nat, mi: nat, parent: nat): (r: Option<(Morpheme, nat, nat)>)
    ensures r.Some? ==> ti <= r.value.1 <= |t| && mi <= r.value.2 <= |m| + 1
  {
    match PhonoSpec(t, ti)
    case None => None
    case Some(p) =>
      match NameSpec(m, mi)
      case None => None
      case Some(n) => Some((Morpheme(parent, n.0, Strip(p.0), ""), p.1, n.1))
  }

  /** A morpheme read names the given parent and is clean. */
  lemma MorphemeSpecClean(t: string, m: string, ti: nat, mi: nat, parent: nat)
    requires MorphemeSpec(t, m, ti, mi, parent).Some?
    ensures var r := MorphemeSpec(t, m, ti, mi, parent).value;
            r.0.parent == parent && CleanMorpheme(r.0)
  {
    ReadUndelimited(t, ti);
    ReadUndelimited(m, mi);
    var p := PhonoSpec(t, ti).value.0;
    var phono := Strip(p);
    var a := Text.SkipSpaces(p, 0);
    StripIsSlice(p);
    forall i | 0 <= i < |phono|
      ensures (phono[i] != '=' && !IsDelimiter(phono[i]))
    {
      assert phono[i] == p[a + i];
    }
    assert Undelimited(phono);
    assert MorphemeSpec(t, m, ti, mi, parent).value.0 == Morpheme(parent, NameSpec(m, mi).value.0, phono, "");
  }

  /** The character that closes a chunk of each kind. */
  function Closer(kind: ChunkKind): char {
    match kind
    case RootKind => '}'
    case AffixKind(isSuffix) => if isSuffix then '>' else '<'
  }

  /** The loop of `__consume_root`, `__consume_suffix` and `__consume_prefix`
      (parse_morphology.py:181-186, 196-201, 211-216): morphemes until the closer, then
      the position after it. When reading a morpheme moves neither position, every
      later round does the same, and the loop never ends. */
  function ChunkBodySpec(t: string, m: string, ti: nat, mi: nat, close: char, parent: nat): (r: Outcome<(seq<Morpheme>, nat, nat)>)
    requires ti <= |t| && mi <= |m| + 1
    ensures r.Done? ==> ti <= r.value.1 <= |t| && mi < r.value.2 <= |m|
    decreases |m| + 1 - mi, |t| - ti
  {
    if mi >= |m| then IndexError
    else if m[mi] == close then Done(([], ti, mi + 1))
    else
      match MorphemeSpec(t, m, ti, mi, parent)
      case None => IndexError
      case Some(step) =>
        if step.1 == ti && step.2 == mi then Hang
        else
          match ChunkBodySpec(t, m, step.1, step.2, close, parent)
          case Done(rest) => Done(([step.0] + rest.0, rest.1, rest.2))
          case IndexError => IndexError
          case Hang => Hang
  }

  /** A round of the chunk loop that reads a morpheme and moves on leaves the rest of
      the loop to finish the chunk. */
  lemma ChunkBodyStep(t: string, m: string, ti: nat, mi: nat, close: char, parent: nat)
    requires ti <= |t| && mi < |m| && m[mi] != close
    requires var s := MorphemeSpec(t, m, ti, mi, parent); s.Some? && (s.value.1, s.value.2) != (ti, mi)
    ensures var s := MorphemeSpec(t, m, ti, mi, parent).value;
            var r := ChunkBodySpec(t, m, ti, mi, close, parent);
            var rest := ChunkBodySpec(t, m, s.1, s.2, close, parent);
            (r.Done? <==> rest.Done?) && (r.IndexError? <==> rest.IndexError?) &&
            (r.Done? ==> r.value == ([s.0] + rest.value.0, rest.value.1, rest.value.2))
  {
  }

  /** The morphemes of a chunk name it as parent and are clean. */
  lemma {:induction false} ChunkBodyClean(t: string, m: string, ti: nat, mi: nat, close: char, parent: nat)
    requires ti <= |t| && mi <= |m| + 1
    ensures var r := ChunkBodySpec(t, m, ti, mi, close, parent);
            r.Done? ==> forall k :: 0 <= k < |r.value.0| ==> r.value.0[k].parent == parent && CleanMorpheme(r.value.0[k])
    decreases |m| + 1 - mi, |t| - ti
  {
    var r := ChunkBodySpec(t, m, ti, mi, close, parent);
    if r.Done? && mi < |m| && m[mi] != close {
      var step := MorphemeSpec(t, m, ti, mi, parent).value;
      MorphemeSpecClean(t, m, ti, mi, parent);
      assert (step.1, step.2) != (ti, mi);
      ChunkBodyStep(t, m, ti, mi, close, parent);
      var rest := ChunkBodySpec(t, m, step.1, step.2, close, parent);
      ChunkBodyClean(t, m, step.1, step.2, close, parent);
      var ms := r.value.0;
      assert rest.Done? && ms == [step.0] + rest.value.0;
      forall k | 0 <= k < |ms|
        ensures ms[k].parent == parent && CleanMorpheme(ms[k])
      {
        if k > 0 {
          assert ms[k] == rest.value.0[k - 1];
        }
      }
    }
  }

  /** One chunk: past the opening character in both strings, then the body
      (parse_morphology.py:176-218). */
  function ChunkSpec(t: string, m: string, ti: nat, mi: nat, kind: ChunkKind, parent: nat): (r: Outcome<(seq<Morpheme>, nat, nat)>)
    requires ti < |t| && mi < |m|
    ensures r.Done? ==> ti < r.value.1 <= |t| && mi + 1 < r.value.2 <= |m|
  {
    ChunkBodySpec(t, m, ti + 1, mi + 1, Closer(kind), parent)
  }

  lemma ChunkSpecUnfold(t: string, m: string, ti: nat, mi: nat, kind: ChunkKind, parent: nat)
    requires ti < |t| && mi < |m|
    ensures ChunkSpec(t, m, ti, mi, kind, parent) == ChunkBodySpec(t, m, ti + 1, mi + 1, Closer(kind), parent)
  {
  }

  /** The kind of chunk an opening character starts. */
  function Opened(c: char): ChunkKind
    requires IsOpener(c)
  {
    if c == '{' then RootKind else AffixKind(c == '>')
  }

  /** `__check_formatting` (parse_morphology.py:171-173): as written, it yields the text
      since the last chunk only when the last chunk ended after the current position,
      which never happens; `fixed` selects the evidently intended test, text between
      the last chunk and this one. */
  function FormattingSpec(m: string, last: nat, mi: nat, fixed: bool): (r: seq<Part>)
    ensures |r| <= 1
  {
    if (if fixed then last < mi else last > mi) then [Formatting(if last <= mi <= |m| then m[last..mi] else "", "")] else []
  }

  /** The morphemes of the parts, in order, formatting left out. */
  function PartMorphemes(parts: seq<Part>): (r: seq<Morpheme>)
    ensures |r| <= |parts|
  {
    if |parts| == 0 then []
    else PartMorphemes(parts[..|parts| - 1]) + (if parts[|parts| - 1].MorphemePart? then [parts[|parts| - 1].morpheme] else [])
  }

  /** The morphemes as parts. */
  function AsParts(ms: seq<Morpheme>): (r: seq<Part>)
    ensures |r| == |ms| && forall k :: 0 <= k < |ms| ==> r[k] == MorphemePart(ms[k])
  {
    seq(|ms|, k requires 0 <= k < |ms| => MorphemePart(ms[k]))
  }

  /** The morphemes of the bracketed chunks, chunk by chunk. */
  function ChunkMorphemes(chunks: seq<Chunk>): seq<Morpheme> {
    if |chunks| == 0 then []
    else ChunkMorphemes(chunks[..|chunks| - 1]) + (if chunks[|chunks| - 1].Bracketed? then chunks[|chunks| - 1].morphemes else [])
  }

  /** The loop of `split_morphology` (parse_morphology.py:136-163), from positions
      `ti`, `mi` and the end of the last chunk `last`, with the parts and chunks so far. */
  function SplitSpec(t: string, m: string, ti: nat, mi: nat, last: nat, fixed: bool, parts: seq<Part>, chunks: seq<Chunk>):
    (r: Outcome<Morphology>)
    requires ti <= |t| && mi <= |m|
    decreases |m| - mi
  {
    if mi >= |m| then Done(Morphology(parts, chunks))
    else if IsOpener(m[mi]) then
      var parts' := parts + FormattingSpec(m, last, mi, fixed);
      match CatchUpSpec(t, ti, [m[mi]])
      case None => IndexError
      case Some(k) =>
        match ChunkSpec(t, m, k, mi, Opened(m[mi]), |chunks|)
        case IndexError => IndexError
        case Hang => Hang
        case Done(c) =>
          SplitSpec(t, m, c.1, c.2, c.2, fixed, parts' + AsParts(c.0), chunks + [Bracketed(Opened(m[mi]), c.0)])
    else SplitSpec(t, m, ti, mi + 1, last, fixed, parts, chunks)
  }

  /** `split_morphology(transcription, morphology)` (parse_morphology.py:250-251). */
  function SplitMorphologySpec(t: string, m: string, fixed: bool): Outcome<Morphology> {
    SplitSpec(t, m, 0, 0, 0, fixed, [], [])
  }

  // ---------------------------------------------------------------------------
  // What a split gives

  /** The shape of parts and chunks at every step: the morphemes of the parts are those
      of the chunks, in order; every chunk is bracketed, and its morphemes name it as
      their parent and are clean; every formatting part is a slice of the morphology
      holding no opening character, and with the parser as written there is none. */
  ghost predicate WellSplit(m: string, fixed: bool, parts: seq<Part>, chunks: seq<Chunk>) {
    PartMorphemes(parts) == ChunkMorphemes(chunks) && ChunksPointBack(chunks) && FormattingClean(fixed, parts)
  }

  /** Every chunk is bracketed, and its morphemes are clean and name it as parent. */
  ghost predicate ChunksPointBack(chunks: seq<Chunk>) {
    forall k :: 0 <= k < |chunks| ==>
      chunks[k].Bracketed? &&
      forall j :: 0 <= j < |chunks[k].morphemes| ==>
        chunks[k].morphemes[j].parent == k && CleanMorpheme(chunks[k].morphemes[j])
  }

  /** Formatting parts appear only with the evidently intended test, have no ortho and
      hold no opening character. */
  ghost predicate FormattingClean(fixed: bool, parts: seq<Part>) {
    forall k :: 0 <= k < |parts| && parts[k].Formatting? ==>
      fixed && parts[k].ortho == "" && forall i :: 0 <= i < |parts[k].name| ==> !IsOpener(parts[k].name[i])
  }

  lemma PartMorphemesAppend(a: seq<Part>, b: seq<Part>)
    ensures PartMorphemes(a + b) == PartMorphemes(a) + PartMorphemes(b)
    decreases |b|
  {
    if |b| == 0 {
      assert a + b == a;
    } else {
      assert (a + b)[..|a + b| - 1] == a + b[..|b| - 1];
      PartMorphemesAppend(a, b[..|b| - 1]);
    }
  }

  lemma {:induction false} PartMorphemesOfMorphemes(ms: seq<Morpheme>)
    ensures PartMorphemes(AsParts(ms)) == ms
    decreases |ms|
  {
    if |ms| > 0 {
      assert AsParts(ms)[..|ms| - 1] == AsParts(ms[..|ms| - 1]);
      PartMorphemesOfMorphemes(ms[..|ms| - 1]);
      assert ms == ms[..|ms| - 1] + [ms[|ms| - 1]];
    }
  }

  /** Formatting from `last` up to `mi` holds no opening character when every position
      between was skipped over as one. */
  lemma FormattingSpecClean(m: string, last: nat, mi: nat, fixed: bool)
    requires last <= mi <= |m| && forall i :: last <= i < mi ==> !IsOpener(m[i])
    ensures FormattingClean(fixed, FormattingSpec(m, last, mi, fixed))
    ensures PartMorphemes(FormattingSpec(m, last, mi, fixed)) == []
  {
    var fs := FormattingSpec(m, last, mi, fixed);
    if |fs| == 1 {
      assert fs[..0] == [];
      assert forall i :: 0 <= i < |fs[0].name| ==> fs[0].name[i] == m[last + i];
    }
  }

  /** Adding formatting and then a chunk keeps the parts' morphemes those of the chunks. */
  lemma PartsStep(parts: seq<Part>, chunks: seq<Chunk>, fs: seq<Part>, ms: seq<Morpheme>, kind: ChunkKind)
    requires PartMorphemes(parts) == ChunkMorphemes(chunks) && PartMorphemes(fs) == []
    ensures PartMorphemes(parts + fs + AsParts(ms)) == ChunkMorphemes(chunks + [Bracketed(kind, ms)])
  {
    var chunks2 := chunks + [Bracketed(kind, ms)];
    PartMorphemesAppend(parts + fs, AsParts(ms));
    PartMorphemesAppend(parts, fs);
    PartMorphemesOfMorphemes(ms);
    assert chunks2[..|chunks2| - 1] == chunks;
    assert PartMorphemes(parts + fs) == PartMorphemes(parts);
  }

  /** A chunk whose morphemes name its position keeps the chunks pointing back. */
  lemma ChunksStep(chunks: seq<Chunk>, ms: seq<Morpheme>, kind: ChunkKind)
    requires ChunksPointBack(chunks)
    requires forall k :: 0 <= k < |ms| ==> ms[k].parent == |chunks| && CleanMorpheme(ms[k])
    ensures ChunksPointBack(chunks + [Bracketed(kind, ms)])
  {
    var chunks2 := chunks + [Bracketed(kind, ms)];
    forall k | 0 <= k < |chunks2|
      ensures chunks2[k].Bracketed? &&
              forall j :: 0 <= j < |chunks2[k].morphemes| ==>
                chunks2[k].morphemes[j].parent == k && CleanMorpheme(chunks2[k].morphemes[j])
    {
      if k < |chunks| {
        assert chunks2[k] == chunks[k];
      }
    }
  }

  /** Clean formatting and morpheme parts keep the formatting clean. */
  lemma FormattingStep(fixed: bool, parts: seq<Part>, fs: seq<Part>, ms: seq<Morpheme>)
    requires FormattingClean(fixed, parts) && FormattingClean(fixed, fs)
    ensures FormattingClean(fixed, parts + fs + AsParts(ms))
  {
    var parts2 := parts + fs + AsParts(ms);
    forall k | 0 <= k < |parts2| && parts2[k].Formatting?
      ensures fixed && parts2[k].ortho == "" && forall i :: 0 <= i < |parts2[k].name| ==> !IsOpener(parts2[k].name[i])
    {
      if k < |parts| {
        assert parts2[k] == parts[k];
      } else if k < |parts| + |fs| {
        assert parts2[k] == fs[k - |parts|];
      }
    }
  }

  /** The morphemes of a chunk read name it as parent and are clean. */
  lemma ChunkSpecClean(t: string, m: string, ti: nat, mi: nat, kind: ChunkKind, parent: nat)
    requires ti < |t| && mi < |m|
    ensures var r := ChunkSpec(t, m, ti, mi, kind, parent);
            r.Done? ==> forall k :: 0 <= k < |r.value.0| ==> r.value.0[k].parent == parent && CleanMorpheme(r.value.0[k])
  {
    ChunkSpecUnfold(t, m, ti, mi, kind, parent);
    ChunkBodyClean(t, m, ti + 1, mi + 1, Closer(kind), parent);
  }

  /** A chunk of clean morphemes naming it as parent, after the formatting before it,
      keeps the split well formed. */
  lemma ChunkKeepsWellSplit(m: string, mi: nat, last: nat, fixed: bool, parts: seq<Part>, chunks: seq<Chunk>,
                            ms: seq<Morpheme>, kind: ChunkKind)
    requires last <= mi <= |m| && WellSplit(m, fixed, parts, chunks)
    requires forall i :: last <= i < mi ==> !IsOpener(m[i])
    requires forall k :: 0 <= k < |ms| ==> ms[k].parent == |chunks| && CleanMorpheme(ms[k])
    ensures WellSplit(m, fixed, parts + FormattingSpec(m, last, mi, fixed) + AsParts(ms), chunks + [Bracketed(kind, ms)])
  {
    var fs := FormattingSpec(m, last, mi, fixed);
    FormattingSpecClean(m, last, mi, fixed);
    PartsStep(parts, chunks, fs, ms, kind);
    ChunksStep(chunks, ms, kind);
    FormattingStep(fixed, parts, fs, ms);
  }

  /** Every step of the loop keeps the split well formed, so the result is. */
  lemma {:induction false} SplitSpecWellSplit(t: string, m: string, ti: nat, mi: nat, last: nat, fixed: bool,
                                              parts: seq<Part>, chunks: seq<Chunk>)
    requires ti <= |t| && last <= mi <= |m| && WellSplit(m, fixed, parts, chunks)
    requires forall i :: last <= i < mi ==> !IsOpener(m[i])
    ensures var r := SplitSpec(t, m, ti, mi, last, fixed, parts, chunks);
            r.Done? ==> WellSplit(m, fixed, r.value.parts, r.value.chunks)
    decreases |m| - mi
  {
    if mi < |m| {
      if IsOpener(m[mi]) {
        match CatchUpSpec(t, ti, [m[mi]])
        case None =>
        case Some(k) =>
          match ChunkSpec(t, m, k, mi, Opened(m[mi]), |chunks|)
          case IndexError =>
          case Hang =>
          case Done(c) =>
            ChunkSpecClean(t, m, k, mi, Opened(m[mi]), |chunks|);
            ChunkKeepsWellSplit(m, mi, last, fixed, parts, chunks, c.0, Opened(m[mi]));
            SplitSpecWellSplit(t, m, c.1, c.2, c.2, fixed, parts + FormattingSpec(m, last, mi, fixed) + AsParts(c.0),
                               chunks + [Bracketed(Opened(m[mi]), c.0)]);
      } else {
        SplitSpecWellSplit(t, m, ti, mi + 1, last, fixed, parts, chunks);
      }
    }
  }

  /** A finished split lists, in its parts, the morphemes of its chunks in chunk order
      and nothing else but formatting; every chunk is a root or affix whose morphemes
      point back at it; names and phonos hold no delimiter and phonos are stripped. As
      written, no formatting part is ever produced. */
  lemma SplitMorphologyShape(t: string, m: string, fixed: bool)
    ensures var r := SplitMorphologySpec(t, m, fixed);
            r.Done? ==> WellSplit(m, fixed, r.value.parts, r.value.chunks)
    ensures var r := SplitMorphologySpec(t, m, fixed);
            r.Done? && !fixed ==> r.value.parts == AsParts(ChunkMorphemes(r.value.chunks))
  {
    SplitSpecWellSplit(t, m, 0, 0, 0, fixed, [], []);
    var r := SplitMorphologySpec(t, m, fixed);
    if r.Done? && !fixed {
      NoFormattingIsMorphemes(r.value.parts);
    }
  }

  /** Parts without formatting are exactly their morphemes. */
  lemma {:induction false} NoFormattingIsMorphemes(parts: seq<Part>)
    requires forall k :: 0 <= k < |parts| ==> parts[k].MorphemePart?
    ensures parts == AsParts(PartMorphemes(parts))
    decreases |parts|
  {
    if |parts| > 0 {
      NoFormattingIsMorphemes(parts[..|parts| - 1]);
      assert parts == parts[..|parts| - 1] + [parts[|parts| - 1]];
    }
  }

  /** One round of the split loop at an opening character whose chunk is read. */
  lemma SplitSpecChunk(t: string, m: string, ti: nat, mi: nat, last: nat, fixed: bool, parts: seq<Part>, chunks: seq<Chunk>,
                       k: nat, c: (seq<Morpheme>, nat, nat))
    requires ti <= |t| && mi < |m| && IsOpener(m[mi])
    requires CatchUpSpec(t, ti, [m[mi]]) == Some(k)
    requires ChunkSpec(t, m, k, mi, Opened(m[mi]), |chunks|) == Done(c)
    ensures SplitSpec(t, m, ti, mi, last, fixed, parts, chunks) ==
            SplitSpec(t, m, c.1, c.2, c.2, fixed, parts + FormattingSpec(m, last, mi, fixed) + AsParts(c.0),
                      chunks + [Bracketed(Opened(m[mi]), c.0)])
  {
  }

  /** The first root of the example below. */
  lemma FirstRootOfExample()
    ensures CatchUpSpec("{a}{b}", 0, "{") == Some(0)
    ensures ChunkSpec("{a}{b}", "{a}-{b}", 0, 0, RootKind, 0) == Done(([Morpheme(0, "a", "a", "")], 2, 3))
  {
    var t, m := "{a}{b}", "{a}-{b}";
    var a := Morpheme(0, "a", "a", "");
    assert t[1] == 'a' && t[2] == '}' && m[1] == 'a' && m[2] == '}';
    assert Strip("a") == "a" by {
      assert Text.SkipSpaces("a", 0) == 0 && BackSpaces("a", 0, 1) == 1;
    }
    assert PhonoSpec(t, 1) == Some(("a", 2)) by {
      assert PhonoSpec(t, 2) == Some(("", 2));
      assert ['a'] + "" == "a";
    }
    assert NameSpec(m, 1) == Some(("a", 2)) by {
      assert NameSpec(m, 2) == Some(("", 2));
      assert ['a'] + "" == "a";
    }
    assert MorphemeSpec(t, m, 1, 1, 0) == Some((a, 2, 2));
    assert ChunkBodySpec(t, m, 2, 2, '}', 0) == Done(([], 2, 3));
    ChunkBodyStep(t, m, 1, 1, '}', 0);
    assert [a] + [] == [a];
    ChunkSpecUnfold(t, m, 0, 0, RootKind, 0);
  }

  /** The second root of the example below. */
  lemma SecondRootOfExample()
    ensures CatchUpSpec("{a}{b}", 2, "{") == Some(3)
    ensures ChunkSpec("{a}{b}", "{a}-{b}", 3, 4, RootKind, 1) == Done(([Morpheme(1, "b", "b", "")], 5, 7))
  {
    var t, m := "{a}{b}", "{a}-{b}";
    var b := Morpheme(1, "b", "b", "");
    assert t[2] == '}' && t[3] == '{' && t[4] == 'b' && t[5] == '}';
    assert m[4] == '{' && m[5] == 'b' && m[6] == '}';
    assert CatchUpSpec(t, 3, "{") == Some(3);
    assert Strip("b") == "b" by {
      assert Text.SkipSpaces("b", 0) == 0 && BackSpaces("b", 0, 1) == 1;
    }
    assert PhonoSpec(t, 4) == Some(("b", 5)) by {
      assert PhonoSpec(t, 5) == Some(("", 5));
      assert ['b'] + "" == "b";
    }
    assert NameSpec(m, 5) == Some(("b", 6)) by {
      assert NameSpec(m, 6) == Some(("", 6));
      assert ['b'] + "" == "b";
    }
    assert MorphemeSpec(t, m, 4, 5, 1) == Some((b, 5, 6));
    assert ChunkBodySpec(t, m, 5, 6, '}', 1) == Done(([], 5, 7));
    ChunkBodyStep(t, m, 4, 5, '}', 1);
    assert [b] + [] == [b];
    ChunkSpecUnfold(t, m, 3, 4, RootKind, 1);
  }

  /** The two rounds of the split loop in the example below. */
  lemma HyphenExampleRounds(fixed: bool)
    ensures var a, b := Morpheme(0, "a", "a", ""), Morpheme(1, "b", "b", "");
            SplitMorphologySpec("{a}{b}", "{a}-{b}", fixed) ==
            SplitSpec("{a}{b}", "{a}-{b}", 5, 7, 7, fixed,
                      [MorphemePart(a)] + FormattingSpec("{a}-{b}", 3, 4, fixed) + AsParts([b]),
                      [Bracketed(RootKind, [a]), Bracketed(RootKind, [b])])
  {
    var t, m := "{a}{b}", "{a}-{b}";
    var a, b := Morpheme(0, "a", "a", ""), Morpheme(1, "b", "b", "");
    FirstRootOfExample();
    SecondRootOfExample();
    var chunks1 := [Bracketed(RootKind, [a])];
    assert FormattingSpec(m, 0, 0, fixed) == [];
    assert AsParts([a]) == [MorphemePart(a)];
    assert m[0] == '{' && m[3] == '-' && m[4] == '{' && [m[0]] == "{" && [m[4]] == "{";
    assert Opened(m[0]) == RootKind && Opened(m[4]) == RootKind;
    SplitSpecChunk(t, m, 0, 0, 0, fixed, [], [], 0, ([a], 2, 3));
    assert [] + FormattingSpec(m, 0, 0, fixed) + AsParts([a]) == [MorphemePart(a)];
    assert [] + [Bracketed(RootKind, [a])] == chunks1;
    assert SplitSpec(t, m, 2, 3, 3, fixed, [MorphemePart(a)], chunks1) ==
           SplitSpec(t, m, 2, 4, 3, fixed, [MorphemePart(a)], chunks1);
    SplitSpecChunk(t, m, 2, 4, 3, fixed, [MorphemePart(a)], chunks1, 3, ([b], 5, 7));
    assert chunks1 + [Bracketed(RootKind, [b])] == [Bracketed(RootKind, [a]), Bracketed(RootKind, [b])];
  }

  /** "{a}-{b}" against "{a}{b}": the evidently intended test keeps the hyphen between
      the two roots as a formatting part; the test as written drops it. */
  lemma HyphenBetweenRoots(fixed: bool)
    ensures var a, b := Morpheme(0, "a", "a", ""), Morpheme(1, "b", "b", "");
            var chunks := [Bracketed(RootKind, [a]), Bracketed(RootKind, [b])];
            SplitMorphologySpec("{a}{b}", "{a}-{b}", fixed) ==
              Done(Morphology(if fixed then [MorphemePart(a), Formatting("-", ""), MorphemePart(b)]
                              else [MorphemePart(a), MorphemePart(b)], chunks))
  {
    var t, m := "{a}{b}", "{a}-{b}";
    var a, b := Morpheme(0, "a", "a", ""), Morpheme(1, "b", "b", "");
    var chunks := [Bracketed(RootKind, [a]), Bracketed(RootKind, [b])];
    HyphenExampleRounds(fixed);
    assert m[3..4] == "-";
    var fs := FormattingSpec(m, 3, 4, fixed);
    assert fs == if fixed then [Formatting("-", "")] else [];
    assert AsParts([b]) == [MorphemePart(b)];
    var parts := [MorphemePart(a)] + fs + AsParts([b]);
    assert |m| == 7;
    assert SplitSpec(t, m, 5, 7, 7, fixed, parts, chunks) == Done(Morphology(parts, chunks));
    assert parts == if fixed then [MorphemePart(a), Formatting("-", ""), MorphemePart(b)] else [MorphemePart(a), MorphemePart(b)];
  }

  /** A root holding a stray ">" never ends: reading a morpheme there moves neither
      position, so the loop appends empty morphemes forever. */
  lemma StrayCloserHangs(fixed: bool)
    ensures SplitMorphologySpec("{}", "{>}", fixed) == Hang
  {
    var t, m := "{}", "{>}";
    assert PhonoSpec(t, 1) == Some(("", 1));
    assert NameSpec(m, 1) == Some(("", 1));
    assert MorphemeSpec(t, m, 1, 1, 0).Some?;
    assert ChunkBodySpec(t, m, 1, 1, '}', 0) == Hang;
    assert CatchUpSpec(t, 0, "{") == Some(0);
  }

  // ---------------------------------------------------------------------------
  // The parser object

  /** `_Parser` (parse_morphology.py:110-129): the two strings and the three positions
      it advances. */
  class Parser {
    const transcription: string
    const morphology: string
    var transcriptionIndex: nat
    var morphologyIndex: nat
    var morphologyIndexAtLastPart: nat

    constructor (transcription: string, morphology: string)
      ensures this.transcription == transcription && this.morphology == morphology
      ensures transcriptionIndex == 0 && morphologyIndex == 0 && morphologyIndexAtLastPart == 0
    {
      this.transcription := transcription;
      this.morphology := morphology;
      transcriptionIndex := 0;
      morphologyIndex := 0;
      morphologyIndexAtLastPart := 0;
    }

    /** `__catch_up_transcription_index` (parse_morphology.py:166-168); false when it
        reads past the end. */
    method CatchUp(targets: string) returns (ok: bool)
      modifies this
      ensures ok <==> CatchUpSpec(transcription, old(transcriptionIndex), targets).Some?
      ensures ok ==> transcriptionIndex == CatchUpSpec(transcription, old(transcriptionIndex), targets).value
      ensures morphologyIndex == old(morphologyIndex) && morphologyIndexAtLastPart == old(morphologyIndexAtLastPart)
    {
      while true
        invariant old(transcriptionIndex) <= transcriptionIndex
        invariant CatchUpSpec(transcription, transcriptionIndex, targets) == CatchUpSpec(transcription, old(transcriptionIndex), targets)
        invariant morphologyIndex == old(morphologyIndex) && morphologyIndexAtLastPart == old(morphologyIndexAtLastPart)
        decreases |transcription| - transcriptionIndex
      {
        if transcriptionIndex >= |transcription| {
          return false;
        }
        if transcription[transcriptionIndex] in targets {
          return true;
        }
        transcriptionIndex := transcriptionIndex + 1;
      }
    }

    /** The first loop of `__consume_morpheme`; false when it reads past the end. */
    method ReadPhono() returns (ok: bool, phono: string)
      modifies this
      ensures ok <==> PhonoSpec(transcription, old(transcriptionIndex)).Some?
      ensures ok ==> (phono, transcriptionIndex) == PhonoSpec(transcription, old(transcriptionIndex)).value
      ensures morphologyIndex == old(morphologyIndex) && morphologyIndexAtLastPart == old(morphologyIndexAtLastPart)
    {
      phono := "";
      if PhonoSpec(transcription, transcriptionIndex).Some? {
        assert phono + PhonoSpec(transcription, transcriptionIndex).value.0 == PhonoSpec(transcription, transcriptionIndex).value.0;
      }
      while true
        invariant old(transcriptionIndex) <= transcriptionIndex
        invariant var rest := PhonoSpec(transcription, transcriptionIndex);
                  var all := PhonoSpec(transcription, old(transcriptionIndex));
                  rest.Some? <==> all.Some?
        invariant PhonoSpec(transcription, transcriptionIndex).Some? ==>
                  (phono + PhonoSpec(transcription, transcriptionIndex).value.0, PhonoSpec(transcription, transcriptionIndex).value.1) ==
                  PhonoSpec(transcription, old(transcriptionIndex)).value
        invariant morphologyIndex == old(morphologyIndex) && morphologyIndexAtLastPart == old(morphologyIndexAtLastPart)
        decreases |transcription| - transcriptionIndex
      {
        if transcriptionIndex >= |transcription| {
          return false, phono;
        }
        if transcription[transcriptionIndex] == '=' {
          assert phono + "" == phono;
          ok := CatchUp(" $");
          if !ok {
            return;
          }
          transcriptionIndex := transcriptionIndex + 1;
          return;
        }
        if IsDelimiter(transcription[transcriptionIndex]) {
          assert phono + "" == phono;
          return true, phono;
        }
        if PhonoSpec(transcription, transcriptionIndex).Some? {
          assert phono + PhonoSpec(transcription, transcriptionIndex).value.0 ==
                 (phono + [transcription[transcriptionIndex]]) + PhonoSpec(transcription, transcriptionIndex + 1).value.0;
        }
        phono := phono + [transcription[transcriptionIndex]];
        transcriptionIndex := transcriptionIndex + 1;
      }
    }

    /** The second loop of `__consume_morpheme`; false when it reads past the end. */
    method ReadName() returns (ok: bool, name: string)
      modifies this
      ensures ok <==> NameSpec(morphology, old(morphologyIndex)).Some?
      ensures ok ==> (name, morphologyIndex) == NameSpec(morphology, old(morphologyIndex)).value
      ensures transcriptionIndex == old(transcriptionIndex) && morphologyIndexAtLastPart == old(morphologyIndexAtLastPart)
    {
      name := "";
      if NameSpec(morphology, morphologyIndex).Some? {
        assert name + NameSpec(morphology, morphologyIndex).value.0 == NameSpec(morphology, morphologyIndex).value.0;
      }
      while true
        invariant old(morphologyIndex) <= morphologyIndex
        invariant NameSpec(morphology, morphologyIndex).Some? <==> NameSpec(morphology, old(morphologyIndex)).Some?
        invariant NameSpec(morphology, morphologyIndex).Some? ==>
                  (name + NameSpec(morphology, morphologyIndex).value.0, NameSpec(morphology, morphologyIndex).value.1) ==
                  NameSpec(morphology, old(morphologyIndex)).value
        invariant transcriptionIndex == old(transcriptionIndex) && morphologyIndexAtLastPart == old(morphologyIndexAtLastPart)
        decreases |morphology| - morphologyIndex
      {
        if morphologyIndex >= |morphology| {
          return false, name;
        }
        if morphology[morphologyIndex] == '=' {
          assert name + "" == name;
          morphologyIndex := morphologyIndex + 2;
          return true, name;
        }
        if IsDelimiter(morphology[morphologyIndex]) {
          assert name + "" == name;
          return true, name;
        }
        if NameSpec(morphology, morphologyIndex).Some? {
          assert name + NameSpec(morphology, morphologyIndex).value.0 ==
                 (name + [morphology[morphologyIndex]]) + NameSpec(morphology, morphologyIndex + 1).value.0;
        }
        name := name + [morphology[morphologyIndex]];
        morphologyIndex := morphologyIndex + 1;
      }
    }

    /** `__consume_morpheme` (parse_morphology.py:221-247). */
    method ConsumeMorpheme(parent: nat) returns (r: Option<Morpheme>)
      modifies this
      ensures var spec := MorphemeSpec(transcription, morphology, old(transcriptionIndex), old(morphologyIndex), parent);
              (r.Some? <==> spec.Some?) &&
              (r.Some? ==> (r.value, transcriptionIndex, morphologyIndex) == spec.value)
      ensures morphologyIndexAtLastPart == old(morphologyIndexAtLastPart)
    {
      var ok, phono := ReadPhono();
      if !ok {
        return None;
      }
      var okName, name := ReadName();
      if !okName {
        return None;
      }
      r := Some(Morpheme(parent, name, Strip(phono), ""));
    }

    /** `__consume_root`, `__consume_suffix` and `__consume_prefix`
        (parse_morphology.py:176-218): one method, as the three differ only in the
        chunk they make and the character that closes it. */
    method ConsumeChunk(kind: ChunkKind, parent: nat) returns (r: Outcome<seq<Morpheme>>)
      requires transcriptionIndex < |transcription| && morphologyIndex < |morphology|
      modifies this
      ensures var spec := ChunkSpec(transcription, morphology, old(transcriptionIndex), old(morphologyIndex), kind, parent);
              (r.Done? <==> spec.Done?) && (r.IndexError? <==> spec.IndexError?) &&
              (r.Done? ==> r.value == spec.value.0 && transcriptionIndex == spec.value.1 && morphologyIndex == spec.value.2)
      ensures morphologyIndexAtLastPart == old(morphologyIndexAtLastPart)
    {
      ChunkSpecUnfold(transcription, morphology, transcriptionIndex, morphologyIndex, kind, parent);
      transcriptionIndex := transcriptionIndex + 1;
      morphologyIndex := morphologyIndex + 1;
      r := ConsumeMorphemes(Closer(kind), parent);
    }

    /** The loop shared by the three: morphemes until `close`. */
    method ConsumeMorphemes(close: char, parent: nat) returns (r: Outcome<seq<Morpheme>>)
      requires transcriptionIndex <= |transcription| && morphologyIndex <= |morphology|
      modifies this
      ensures var spec := ChunkBodySpec(transcription, morphology, old(transcriptionIndex), old(morphologyIndex), close, parent);
              (r.Done? <==> spec.Done?) && (r.IndexError? <==> spec.IndexError?) &&
              (r.Done? ==> r.value == spec.value.0 && transcriptionIndex == spec.value.1 && morphologyIndex == spec.value.2)
      ensures morphologyIndexAtLastPart == old(morphologyIndexAtLastPart)
    {
      var morphemes: seq<Morpheme> := [];
      ghost var goal := ChunkBodySpec(transcription, morphology, transcriptionIndex, morphologyIndex, close, parent);
      if goal.Done? {
        assert morphemes + goal.value.0 == goal.value.0;
      }
      while true
        invariant transcriptionIndex <= |transcription| && morphologyIndex <= |morphology| + 1
        invariant var rest := ChunkBodySpec(transcription, morphology, transcriptionIndex, morphologyIndex, close, parent);
                  (rest.Done? <==> goal.Done?) && (rest.IndexError? <==> goal.IndexError?) &&
                  (rest.Done? ==> morphemes + rest.value.0 == goal.value.0 && rest.value.1 == goal.value.1 && rest.value.2 == goal.value.2)
        invariant morphologyIndexAtLastPart == old(morphologyIndexAtLastPart)
        decreases |morphology| + 1 - morphologyIndex, |transcription| - transcriptionIndex
      {
        ghost var here := ChunkBodySpec(transcription, morphology, transcriptionIndex, morphologyIndex, close, parent);
        if morphologyIndex >= |morphology| {
          return IndexError;
        }
        if morphology[morphologyIndex] == close {
          assert here == Done(([], transcriptionIndex, morphologyIndex + 1));
          morphologyIndex := morphologyIndex + 1;
          assert morphemes + [] == morphemes;
          return Done(morphemes);
        }
        var before := (transcriptionIndex, morphologyIndex);
        var m := ConsumeMorpheme(parent);
        if m.None? {
          return IndexError;
        }
        if (transcriptionIndex, morphologyIndex) == before {
          assert here == Hang;
          return Hang;
        }
        ChunkBodyStep(transcription, morphology, before.0, before.1, close, parent);
        ghost var rest := ChunkBodySpec(transcription, morphology, transcriptionIndex, morphologyIndex, close, parent);
        if rest.Done? {
          assert (morphemes + [m.value]) + rest.value.0 == morphemes + here.value.0;
        }
        morphemes := morphemes + [m.value];
      }
    }

    /** `split_morphology` (parse_morphology.py:132-163), with the formatting test as
        written (`fixed == false`) or as evidently intended. */
    method SplitMorphology(fixed: bool) returns (r: Outcome<Morphology>)
      requires transcriptionIndex == 0 && morphologyIndex == 0 && morphologyIndexAtLastPart == 0
      modifies this
      ensures (r.Done? <==> SplitMorphologySpec(transcription, morphology, fixed).Done?)
      ensures (r.IndexError? <==> SplitMorphologySpec(transcription, morphology, fixed).IndexError?)
      ensures r.Done? ==> r == SplitMorphologySpec(transcription, morphology, fixed)
    {
      var parts: seq<Part> := [];
      var chunks: seq<Chunk> := [];
      ghost var goal := SplitMorphologySpec(transcription, morphology, fixed);
      while morphologyIndex < |morphology|
        invariant transcriptionIndex <= |transcription| && morphologyIndexAtLastPart <= morphologyIndex <= |morphology|
        invariant var rest := SplitSpec(transcription, morphology, transcriptionIndex, morphologyIndex,
                                        morphologyIndexAtLastPart, fixed, parts, chunks);
                  (rest.Done? <==> goal.Done?) && (rest.IndexError? <==> goal.IndexError?) && (rest.Done? ==> rest == goal)
        decreases |morphology| - morphologyIndex
      {
        var c := morphology[morphologyIndex];
        if IsOpener(c) {
          parts := parts + FormattingSpec(morphology, morphologyIndexAtLastPart, morphologyIndex, fixed);
          var ok := CatchUp([c]);
          if !ok {
            return IndexError;
          }
          var chunk := ConsumeChunk(Opened(c), |chunks|);
          if chunk.IndexError? {
            return IndexError;
          }
          if chunk.Hang? {
            return Hang;
          }
          parts := parts + AsParts(chunk.value);
          chunks := chunks + [Bracketed(Opened(c), chunk.value)];
          morphologyIndexAtLastPart := morphologyIndex;
          continue;
        }
        morphologyIndex := morphologyIndex + 1;
      }
      return Done(Morphology(parts, chunks));
    }
  }

  /** `split_morphology(transcription, morphology)` (parse_morphology.py:250-251). */
  method SplitMorphology(transcription: string, morphology: string, fixed: bool) returns (r: Outcome<Morphology>)
    ensures r.Done? <==> SplitMorphologySpec(transcription, morphology, fixed).Done?
    ensures r.Done? ==> r == SplitMorphologySpec(transcription, morphology, fixed)
    ensures r.Done? ==> WellSplit(morphology, fixed, r.value.parts, r.value.chunks)
  {
    var p := new Parser(transcription, morphology);
    r := p.SplitMorphology(fixed);
    SplitMorphologyShape(transcription, morphology, fixed);
  }
}
