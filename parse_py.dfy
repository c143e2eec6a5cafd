/** The Python recursive-descent parser of the entry-definition format
    (plover_hatchery/lib/sopheme/parse/parse_sopheme_sequence.py). It reads the same
    grammar as the Rust parser, with three differences: a stress is any decimal
    number, "!" followed by an identifier that is not a number gives stress 1 and leaves
    the identifier unread, and a line is a generator that yields the items read so far
    before raising at the first error. The token cursor, `_ParseResult` and the
    past-the-end whitespace token are those of the Rust parser.

    As written, `parse_entry_definition` and `parse_sopheme_seq` hand the lexer's
    generator to the cursor, whose first `done` check calls `len()` on it and raises
    `TypeError` on every line (`PyParseEntryDefinitionAsWritten`,
    `PyParseSophemeSeqAsWritten`). The other members describe the parser with the
    tokens listed first, as the line parsers' `tuple[Token, ...]` parameters say. */
module ParsePy {
  import opened Wrappers
  import opened Text
  import opened Lex
  import opened LexPy
  import opened KeysymbolPy
  import opened Parse

  datatype PySopheme = PySopheme(chars: string, keysymbols: seq<PyKeysymbol>)

  datatype PyEntity =
    | PySophemeEntity(sopheme: PySopheme)
    | PyTransclusionEntity(targetVarname: string, stress: nat)

  /** What a generator produces: the items yielded, then the message of the exception
      it raised, if any. */
  datatype Outcome<T> = Outcome(items: seq<T>, error: Option<string>)

  /** `str.isnumeric` on the ASCII range: a non-empty run of digits. */
  predicate IsNumeric(s: string) {
    |s| > 0 && AllDigits(s)
  }

  /** An optional stress: none gives 0; "!" gives 1, or the number of a numeric
      identifier right after it, which is then consumed (parse_sopheme_sequence.py:73-84). */
  function PyConsumeStress(ts: seq<Token>, i: nat): (r: Parsed<nat>)
    ensures !IsSymbolToken(At(ts, i), "!") ==> r == Parsed(0, i)
    ensures IsSymbolToken(At(ts, i), "!") && !(At(ts, i + 1).kind == Chars && IsNumeric(At(ts, i + 1).value)) ==> r == Parsed(1, i + 1)
    ensures IsSymbolToken(At(ts, i), "!") && At(ts, i + 1).kind == Chars && IsNumeric(At(ts, i + 1).value) ==>
              r == Parsed(DigitsValue(At(ts, i + 1).value), i + 2)
    ensures i <= r.end && (i <= |ts| ==> r.end <= |ts|)
  {
    if !IsSymbolToken(At(ts, i), "!") then Parsed(0, i)
    else
      var t := At(ts, i + 1);
      if t.kind == Chars && IsNumeric(t.value) then Parsed(DigitsValue(t.value), i + 2)
      else Parsed(1, i + 1)
  }

  /** "!" and the decimal form of a positive stress read back as that stress. */
  lemma StressRoundTrip(ts: seq<Token>, i: nat, n: nat)
    requires n > 0 && i + 1 < |ts|
    requires ts[i] == Token(Symbol, "!") && ts[i + 1] == Token(Chars, DecimalString(n))
    ensures PyConsumeStress(ts, i) == Parsed(n, i + 2)
  {
    DecimalRoundTrip(n);
  }

  /** A keysymbol: an identifier, an optional stress and an optional "?"
      (parse_sopheme_sequence.py:87-102). */
  function PyConsumeKeysymbol(ts: seq<Token>, i: nat): (r: Result<Parsed<PyKeysymbol>>)
    ensures r.Err? <==> At(ts, i).kind != Chars
    ensures r.Err? ==> r.msg == "Expected a keysymbol identifier here"
    ensures r.Ok? ==> i < r.value.end <= |ts| && r.value.value.symbol == ts[i].value
    ensures r.Ok? ==> (r.value.value.optional <==> IsSymbolToken(At(ts, r.value.end - 1), "?") && r.value.end - 1 > i)
  {
    if At(ts, i).kind != Chars then Err("Expected a keysymbol identifier here")
    else
      var st := PyConsumeStress(ts, i + 1);
      if !IsSymbolToken(At(ts, st.end), "?") then
        Ok(Parsed(PyKeysymbol(At(ts, i).value, st.value, false), st.end))
      else
        Ok(Parsed(PyKeysymbol(At(ts, i).value, st.value, true), st.end + 1))
  }

  /** The orthography: an identifier, or nothing when the cursor is on the dot, which is
      left for the next step (parse_sopheme_sequence.py:105-112). */
  function PyConsumeSophemeOrtho(ts: seq<Token>, i: nat): (r: Result<Parsed<string>>)
    ensures r.Err? <==> At(ts, i).kind != Chars && !IsSymbolToken(At(ts, i), ".")
    ensures r.Err? ==> r.msg == "Expected a sopheme orthography here"
    ensures r.Ok? && ts[i].kind == Chars ==> r.value == Parsed(ts[i].value, i + 1)
    ensures r.Ok? && ts[i].kind != Chars ==> r.value == Parsed("", i)
  {
    if At(ts, i).kind == Chars then Ok(Parsed(At(ts, i).value, i + 1))
    else if IsSymbolToken(At(ts, i), ".") then Ok(Parsed("", i))
    else Err("Expected a sopheme orthography here")
  }

  /** The mandatory dot (parse_sopheme_sequence.py:115-119). */
  function PyConsumeSophemeDot(ts: seq<Token>, i: nat): (r: Result<Parsed<()>>)
    ensures r.Ok? <==> i < |ts| && IsSymbolToken(ts[i], ".")
    ensures r.Ok? ==> r.value.end == i + 1
    ensures r.Err? ==> r.msg == "Expected a dot here"
  {
    if IsSymbolToken(At(ts, i), ".") then Ok(Parsed((), i + 1))
    else Err("Expected a dot here")
  }

  /** The loop of parse_sopheme_sequence.py:131-138: keysymbols, each optionally
      followed by one whitespace token, up to and including ")". */
  function PyConsumeGroup(ts: seq<Token>, i: nat): (r: Result<Parsed<seq<PyKeysymbol>>>)
    ensures r.Ok? ==> i < r.value.end <= |ts| && IsSymbolToken(ts[r.value.end - 1], ")")
    ensures r.Err? ==> r.msg == "Expected a keysymbol identifier here"
    decreases if i <= |ts| + 1 then |ts| + 2 - i else 0
  {
    if IsSymbolToken(At(ts, i), ")") then Ok(Parsed([], i + 1))
    else
      match PyConsumeKeysymbol(ts, i)
      case Err(m) => Err(m)
      case Ok(k) =>
        var next := if At(ts, k.end).kind == Whitespace then k.end + 1 else k.end;
        match PyConsumeGroup(ts, next)
        case Err(m) => Err(m)
        case Ok(rest) => Ok(Parsed([k.value] + rest.value, rest.end))
  }

  /** The phonology: one keysymbol, a parenthesised group, or nothing before whitespace
      (parse_sopheme_sequence.py:122-145). */
  function PyConsumeSophemePhono(ts: seq<Token>, i: nat): (r: Result<Parsed<seq<PyKeysymbol>>>)
    ensures At(ts, i).kind == Chars ==> r.Ok? && |r.value.value| == 1
    ensures At(ts, i).kind == Whitespace ==> r == Ok(Parsed([], i))
    ensures r.Err? ==> At(ts, i).kind != Chars && At(ts, i).kind != Whitespace
    ensures IsSymbolToken(At(ts, i), "(") && (forall k :: i < k < |ts| ==> !IsSymbolToken(ts[k], ")")) ==> r.Err?
    ensures r.Ok? && |r.value.value| > 1 ==> IsSymbolToken(At(ts, i), "(")
    ensures r.Ok? ==> i <= r.value.end && (i <= |ts| ==> r.value.end <= |ts|)
  {
    if At(ts, i).kind == Chars then
      match PyConsumeKeysymbol(ts, i)
      case Err(m) => Err(m)
      case Ok(k) => Ok(Parsed([k.value], k.end))
    else if IsSymbolToken(At(ts, i), "(") then PyConsumeGroup(ts, i + 1)
    else if At(ts, i).kind == Whitespace then Ok(Parsed([], i))
    else Err("Expected a sopheme phonology here")
  }

  /** The loop of parse_sopheme_sequence.py:127-140, with the cursor a local variable. */
  method PyConsumeGroupLoop(ts: seq<Token>, start: nat) returns (r: Result<Parsed<seq<PyKeysymbol>>>)
    ensures r == PyConsumeGroup(ts, start)
  {
    var cursor := start;
    var keysymbols: seq<PyKeysymbol> := [];
    assert PyConsumeGroup(ts, start).Ok? ==> keysymbols + PyConsumeGroup(ts, start).value.value == PyConsumeGroup(ts, start).value.value;
    while !IsSymbolToken(At(ts, cursor), ")")
      invariant PyConsumeGroup(ts, start).Ok? <==> PyConsumeGroup(ts, cursor).Ok?
      invariant PyConsumeGroup(ts, start).Err? ==> PyConsumeGroup(ts, start) == PyConsumeGroup(ts, cursor)
      invariant PyConsumeGroup(ts, start).Ok? ==>
                  PyConsumeGroup(ts, start).value == Parsed(keysymbols + PyConsumeGroup(ts, cursor).value.value, PyConsumeGroup(ts, cursor).value.end)
      decreases if cursor <= |ts| + 1 then |ts| + 2 - cursor else 0
    {
      var k := PyConsumeKeysymbol(ts, cursor);
      if k.Err? {
        return Err(k.msg);
      }
      keysymbols := keysymbols + [k.value.value];
      var next := k.value.end;
      if At(ts, next).kind == Whitespace {
        next := next + 1;
      }
      ghost var rest := PyConsumeGroup(ts, next);
      assert rest.Ok? ==> PyConsumeGroup(ts, cursor) == Ok(Parsed([k.value.value] + rest.value.value, rest.value.end));
      AppendAssoc(keysymbols[..|keysymbols| - 1], [k.value.value], if rest.Ok? then rest.value.value else []);
      assert keysymbols[..|keysymbols| - 1] + [k.value.value] == keysymbols;
      cursor := next;
    }
    r := Ok(Parsed(keysymbols, cursor + 1));
    assert keysymbols + [] == keysymbols;
  }

  /** Orthography, dot and phonology (parse_sopheme_sequence.py:147-152). */
  function PyConsumeSopheme(ts: seq<Token>, i: nat): (r: Result<Parsed<PySopheme>>)
    ensures r.Ok? ==> i < r.value.end <= |ts|
    ensures r.Ok? ==> exists d :: (d == i || d == i + 1) && d < |ts| && IsSymbolToken(ts[d], ".")
                                  && PyConsumeSophemePhono(ts, d + 1).Ok?
                                  && r.value.value.keysymbols == PyConsumeSophemePhono(ts, d + 1).value.value
  {
    match PyConsumeSophemeOrtho(ts, i)
    case Err(m) => Err(m)
    case Ok(ortho) =>
      match PyConsumeSophemeDot(ts, ortho.end)
      case Err(m) => Err(m)
      case Ok(dot) =>
        match PyConsumeSophemePhono(ts, dot.end)
        case Err(m) => Err(m)
        case Ok(phono) => Ok(Parsed(PySopheme(ortho.value, phono.value), phono.end))
  }

  /** "{", a variable name, "}" and an optional stress
      (parse_sopheme_sequence.py:155-174). */
  function PyConsumeTransclusion(ts: seq<Token>, i: nat): (r: Result<Parsed<PyEntity>>)
    ensures r.Ok? <==> i + 2 < |ts| && IsSymbolToken(ts[i], "{") && ts[i + 1].kind == Chars && IsSymbolToken(ts[i + 2], "}")
    ensures r.Ok? ==> r.value.value == PyTransclusionEntity(ts[i + 1].value, PyConsumeStress(ts, i + 3).value)
                      && r.value.end == PyConsumeStress(ts, i + 3).end && i < r.value.end <= |ts|
    ensures !IsSymbolToken(At(ts, i), "{") ==> r == Err("Expected a transclusion here")
  {
    if !IsSymbolToken(At(ts, i), "{") then Err("Expected a transclusion here")
    else if At(ts, i + 1).kind != Chars then Err("Expected a variable name here")
    else if !IsSymbolToken(At(ts, i + 2), "}") then Err("Expected a closing brace here")
    else
      var st := PyConsumeStress(ts, i + 3);
      Ok(Parsed(PyTransclusionEntity(At(ts, i + 1).value, st.value), st.end))
  }

  /** A transclusion if one can be read, else a sopheme (parse_sopheme_sequence.py:177-186). */
  function PyConsumeEntity(ts: seq<Token>, i: nat): (r: Result<Parsed<PyEntity>>)
    ensures r.Ok? <==> PyConsumeTransclusion(ts, i).Ok? || PyConsumeSopheme(ts, i).Ok?
    ensures PyConsumeTransclusion(ts, i).Ok? ==> r == PyConsumeTransclusion(ts, i)
    ensures r.Err? ==> r.msg == "Expected an entity here"
    ensures r.Ok? ==> i < r.value.end <= |ts|
  {
    match PyConsumeTransclusion(ts, i)
    case Ok(t) => Ok(t)
    case Err(_) =>
      match PyConsumeSopheme(ts, i)
      case Ok(s) => Ok(Parsed(PySophemeEntity(s.value), s.end))
      case Err(_) => Err("Expected an entity here")
  }

  lemma PyEntityAdvancing(ts: seq<Token>)
    ensures Advancing(ts, PyConsumeEntity)
  {
  }

  lemma PySophemeAdvancing(ts: seq<Token>)
    ensures Advancing(ts, PyConsumeSopheme)
  {
  }

  /** The generator loop of `parse_line` and `parse_sopheme_seq_line`: yield an item,
      stop at the end, step over one whitespace token or raise
      (parse_sopheme_sequence.py:195-205, 218-228). */
  function PyParseLineFrom<T>(ts: seq<Token>, i: nat, consume: (seq<Token>, nat) -> Result<Parsed<T>>): (r: Outcome<T>)
    requires Advancing(ts, consume) && i <= |ts|
    ensures r.error.None? ==> |r.items| >= 1
    decreases |ts| - i
  {
    match consume(ts, i)
    case Err(m) => Outcome([], Some(m))
    case Ok(item) =>
      if Done(ts, item.end) then Outcome([item.value], None)
      else if At(ts, item.end).kind == Whitespace then
        var rest := PyParseLineFrom(ts, item.end + 1, consume);
        Outcome([item.value] + rest.items, rest.error)
      else Outcome([item.value], Some("Expected whitespace here"))
  }

  /** No tokens yield nothing (parse_sopheme_sequence.py:189-193, 212-216). */
  function PyParseLine<T>(ts: seq<Token>, consume: (seq<Token>, nat) -> Result<Parsed<T>>): (r: Outcome<T>)
    requires Advancing(ts, consume)
    ensures |ts| == 0 ==> r == Outcome([], None)
    ensures |ts| > 0 ==> r.error.Some? || |r.items| >= 1
  {
    if Done(ts, 0) then Outcome([], None) else PyParseLineFrom(ts, 0, consume)
  }

  /** The generator finishes exactly when the Rust loop of the same reader succeeds,
      with the same items; when it raises, it raises the Rust error. */
  lemma {:induction false} PyLineAgreesWithRust<T>(ts: seq<Token>, i: nat, consume: (seq<Token>, nat) -> Result<Parsed<T>>)
    requires Advancing(ts, consume) && i <= |ts|
    ensures PyParseLineFrom(ts, i, consume).error.None? <==> ParseItemsFrom(ts, i, consume).Ok?
    ensures ParseItemsFrom(ts, i, consume).Ok? ==> ParseItemsFrom(ts, i, consume).value == PyParseLineFrom(ts, i, consume).items
    ensures ParseItemsFrom(ts, i, consume).Err? ==> PyParseLineFrom(ts, i, consume).error == Some(ParseItemsFrom(ts, i, consume).msg)
    decreases |ts| - i
  {
    match consume(ts, i)
    case Err(m) =>
    case Ok(item) =>
      if !Done(ts, item.end) && At(ts, item.end).kind == Whitespace {
        PyLineAgreesWithRust(ts, item.end + 1, consume);
        assert MovedBy(item.end, 1) == item.end + 1;
      }
  }

  /** Every item yielded is one `consume` reads somewhere in the tokens. */
  lemma {:induction false} PyLineItemsRead<T>(ts: seq<Token>, i: nat, consume: (seq<Token>, nat) -> Result<Parsed<T>>, k: nat)
    requires Advancing(ts, consume) && i <= |ts|
    requires k < |PyParseLineFrom(ts, i, consume).items|
    ensures exists j: nat :: i <= j < |ts| && consume(ts, j).Ok? && consume(ts, j).value.value == PyParseLineFrom(ts, i, consume).items[k]
    decreases |ts| - i
  {
    var item := consume(ts, i).value;
    if k > 0 {
      PyLineItemsRead(ts, item.end + 1, consume, k - 1);
    }
  }

  /** Where `_TokenCursor` takes its tokens from: a tuple, as `parse_line` and
      `parse_sopheme_seq_line` declare (`tuple[Token, ...]`), or the lexer's generator
      itself, which has no length. */
  datatype TokenSource = Listed(tokens: seq<Token>) | Generated(tokens: seq<Token>)

  /** Running a line generator to its end: what it yields and raises, or the
      `TypeError` of `len()` applied to a generator. */
  datatype PyRun<T> = Runs(outcome: Outcome<T>) | RaisesTypeError

  /** `_TokenCursor.done` at `index` (parse_sopheme_sequence.py:40-42): `len()` of the
      token source, which raises `TypeError` for a generator. */
  function CursorDone(src: TokenSource, index: nat): (r: Result<bool>)
    ensures r.Err? <==> src.Generated?
    ensures r.Ok? ==> (r.value <==> Done(src.tokens, index))
  {
    match src
    case Generated(_) => Err("TypeError")
    case Listed(ts) => Ok(index >= |ts|)
  }

  /** `parse_line` and `parse_sopheme_seq_line` on a token source: the first `done`
      check comes before anything is yielded (parse_sopheme_sequence.py:189-193,
      212-216). */
  function PyParseLineOn<T>(src: TokenSource, consume: (seq<Token>, nat) -> Result<Parsed<T>>): (r: PyRun<T>)
    requires Advancing(src.tokens, consume)
    ensures r.RaisesTypeError? <==> src.Generated?
    ensures src.Listed? ==> r == Runs(PyParseLine(src.tokens, consume))
  {
    match CursorDone(src, 0)
    case Err(_) => RaisesTypeError
    case Ok(done) => if done then Runs(Outcome([], None)) else Runs(PyParseLineFrom(src.tokens, 0, consume))
  }

  /** `parse_entry_definition` as written (parse_sopheme_sequence.py:208-209): the
      lexer's generator goes to the cursor as it is, so every line raises `TypeError`
      before an entity is read. */
  function PyParseEntryDefinitionAsWritten(s: string, mergeSymbols: bool): (r: PyRun<PyEntity>)
    ensures r == RaisesTypeError
  {
    var ts := PyLexSophemeSequence(s, mergeSymbols);
    PyEntityAdvancing(ts);
    PyParseLineOn(Generated(ts), PyConsumeEntity)
  }

  /** `parse_sopheme_seq` as written (parse_sopheme_sequence.py:231-232): as above,
      every line raises `TypeError`. */
  function PyParseSophemeSeqAsWritten(s: string, mergeSymbols: bool): (r: PyRun<PySopheme>)
    ensures r == RaisesTypeError
  {
    var ts := PyLexSophemeSequence(s, mergeSymbols);
    PySophemeAdvancing(ts);
    PyParseLineOn(Generated(ts), PyConsumeSopheme)
  }

  /** `parse_entry_definition` as evidently intended (parse_sopheme_sequence.py:208-209):
      the tokens of the lexer, with or without merged symbol runs, listed before the
      cursor reads them. */
  function PyParseEntryDefinition(s: string, mergeSymbols: bool): (r: Outcome<PyEntity>)
    ensures r.error.Some? || |r.items| >= 1
    ensures PyParseLineOn(Listed(PyLexSophemeSequence(s, mergeSymbols)), PyConsumeEntity) == Runs(r)
  {
    var ts := PyLexSophemeSequence(s, mergeSymbols);
    PyEntityAdvancing(ts);
    PyParseLine(ts, PyConsumeEntity)
  }

  /** `parse_sopheme_seq` as evidently intended (parse_sopheme_sequence.py:231-232): the
      tokens listed before the cursor reads them. */
  function PyParseSophemeSeq(s: string, mergeSymbols: bool): (r: Outcome<PySopheme>)
    ensures r.error.Some? || |r.items| >= 1
    ensures PyParseLineOn(Listed(PyLexSophemeSequence(s, mergeSymbols)), PyConsumeSopheme) == Runs(r)
  {
    var ts := PyLexSophemeSequence(s, mergeSymbols);
    PySophemeAdvancing(ts);
    PyParseLine(ts, PyConsumeSopheme)
  }

  /** The generator loop with the cursor a local variable. */
  method PyParseLineLoop<T>(ts: seq<Token>, consume: (seq<Token>, nat) -> Result<Parsed<T>>) returns (r: Outcome<T>)
    requires Advancing(ts, consume)
    ensures r == PyParseLine(ts, consume)
  {
    var cursor := 0;
    var items: seq<T> := [];
    if Done(ts, cursor) {
      return Outcome(items, None);
    }
    while true
      invariant cursor <= |ts|
      invariant PyParseLine(ts, consume) == Outcome(items + PyParseLineFrom(ts, cursor, consume).items, PyParseLineFrom(ts, cursor, consume).error)
      decreases |ts| - cursor
    {
      var item := consume(ts, cursor);
      if item.Err? {
        assert items + [] == items;
        return Outcome(items, Some(item.msg));
      }
      ghost var before := items;
      items := items + [item.value.value];
      cursor := item.value.end;
      if Done(ts, cursor) {
        return Outcome(items, None);
      }
      if At(ts, cursor).kind != Whitespace {
        return Outcome(items, Some("Expected whitespace here"));
      }
      AppendAssoc(before, [item.value.value], PyParseLineFrom(ts, cursor + 1, consume).items);
      cursor := cursor + 1;
    }
  }

  /** No two neighbouring tokens are both symbols. */
  predicate NoAdjacentSymbols(ts: seq<Token>) {
    forall k :: 0 <= k < |ts| - 1 ==> ts[k].kind == Symbol ==> ts[k + 1].kind != Symbol
  }

  /** With merged symbol runs no two neighbouring tokens are both symbols. */
  lemma MergedTokensNoAdjacentSymbols(s: string)
    ensures NoAdjacentSymbols(PyLexSophemeSequence(s, true))
  {
    PyLexShape(s, true);
  }

  /** When no two neighbouring tokens are symbols, the token after a sopheme's dot is
      never "(", so a sopheme has at most one keysymbol. */
  lemma SophemeAtMostOneKeysymbol(ts: seq<Token>, i: nat)
    requires NoAdjacentSymbols(ts)
    requires PyConsumeSopheme(ts, i).Ok?
    ensures |PyConsumeSopheme(ts, i).value.value.keysymbols| <= 1
  {
    var d :| (d == i || d == i + 1) && d < |ts| && IsSymbolToken(ts[d], ".")
             && PyConsumeSophemePhono(ts, d + 1).Ok?
             && PyConsumeSopheme(ts, i).value.value.keysymbols == PyConsumeSophemePhono(ts, d + 1).value.value;
    if d + 1 < |ts| {
      assert ts[d + 1].kind != Symbol;
    }
  }

  /** With the lexer as written, no sopheme yielded by `parse_sopheme_seq` has more than
      one keysymbol: the group branch of parse_sopheme_sequence.py:127-140 is
      unreachable, because "." and "(" lex as the one symbol token ".(". */
  lemma MergedLexerNoGroups(s: string, k: nat)
    requires k < |PyParseSophemeSeq(s, true).items|
    ensures |PyParseSophemeSeq(s, true).items[k].keysymbols| <= 1
  {
    var ts := PyLexSophemeSequence(s, true);
    MergedTokensNoAdjacentSymbols(s);
    PySophemeAdvancing(ts);
    PyLineItemsRead(ts, 0, PyConsumeSopheme, k);
    var j: nat :| 0 <= j < |ts| && PyConsumeSopheme(ts, j).Ok? && PyConsumeSopheme(ts, j).value.value == PyParseSophemeSeq(s, true).items[k];
    SophemeAtMostOneKeysymbol(ts, j);
  }
}
