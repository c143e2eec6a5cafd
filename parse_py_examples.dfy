/** Lines read by the Python parser, with the tokens listed before parsing, from the
    lexer as written (symbol runs merged) and from one with one token per symbol
    character; and the unit test's line, which the parser as written cannot read. */
module ParsePyExamples {
  import opened Wrappers
  import opened Text
  import opened Lex
  import opened LexPy
  import opened KeysymbolPy
  import opened Parse
  import opened ParsePy

  /** The tokens of "x.(g z)" when symbol runs merge: the dot and the parenthesis form
      the one token ".(". */
  lemma GroupTokensMerged(line: string, ts: seq<Token>)
    requires line == "x.(g z)"
    requires ts == [Token(Chars, "x"), Token(Symbol, ".("), Token(Chars, "g"), Token(Whitespace, " "), Token(Chars, "z"), Token(Symbol, ")")]
    ensures PyLexSophemeSequence(line, true) == ts
  {
    assert PyLexable(ts, true);
    assert Values(ts[..1]) == "x" by {
      assert ts[..1][..0] == [];
    }
    assert ts[..2][..1] == ts[..1];
    assert Values(ts[..2]) == "x.(";
    assert ts[..3][..2] == ts[..2];
    assert Values(ts[..3]) == "x.(g";
    assert ts[..4][..3] == ts[..3];
    assert Values(ts[..4]) == "x.(g ";
    assert ts[..5][..4] == ts[..4];
    assert Values(ts[..5]) == "x.(g z";
    assert ts[..5] == ts[..|ts| - 1];
    assert Values(ts) == line;
    PyLexOfValues(ts, true);
  }

  /** The tokens of "x.(g z)" with one token per symbol character. */
  lemma GroupTokensSplit(line: string, ts: seq<Token>)
    requires line == "x.(g z)"
    requires ts == [Token(Chars, "x"), Token(Symbol, "."), Token(Symbol, "("), Token(Chars, "g"), Token(Whitespace, " "), Token(Chars, "z"), Token(Symbol, ")")]
    ensures PyLexSophemeSequence(line, false) == ts
  {
    assert PyLexable(ts, false);
    assert Values(ts[..1]) == "x" by {
      assert ts[..1][..0] == [];
    }
    assert ts[..2][..1] == ts[..1];
    assert Values(ts[..2]) == "x.";
    assert ts[..3][..2] == ts[..2];
    assert Values(ts[..3]) == "x.(";
    assert ts[..4][..3] == ts[..3];
    assert Values(ts[..4]) == "x.(g";
    assert ts[..5][..4] == ts[..4];
    assert Values(ts[..5]) == "x.(g ";
    assert ts[..6][..5] == ts[..5];
    assert Values(ts[..6]) == "x.(g z";
    assert ts[..6] == ts[..|ts| - 1];
    assert Values(ts) == line;
    PyLexOfValues(ts, false);
  }

  /** With symbol runs merged, as the lexer is written, the group "x.(g z)" of the Rust
      parser's own test line is lost: the parser finds ".(" where it needs the dot. */
  lemma GroupRejectedWhenMerged(line: string)
    requires line == "x.(g z)"
    ensures PyParseSophemeSeq(line, true) == Outcome([], Some("Expected a dot here"))
    ensures PyParseEntryDefinition(line, true) == Outcome([], Some("Expected an entity here"))
  {
    var ts := [Token(Chars, "x"), Token(Symbol, ".("), Token(Chars, "g"), Token(Whitespace, " "), Token(Chars, "z"), Token(Symbol, ")")];
    GroupTokensMerged(line, ts);
    assert PyConsumeSopheme(ts, 0) == Err("Expected a dot here");
    assert PyConsumeTransclusion(ts, 0).Err?;
  }

  /** With one token per symbol, "x.(g z)" is one sopheme with the two keysymbols of
      the group. */
  lemma GroupReadWhenSplit(line: string, s: PySopheme)
    requires line == "x.(g z)"
    requires s == PySopheme("x", [PyKeysymbol("g", 0, false), PyKeysymbol("z", 0, false)])
    ensures PyParseSophemeSeq(line, false) == Outcome([s], None)
    ensures PyParseEntryDefinition(line, false) == Outcome([PySophemeEntity(s)], None)
  {
    var ts := [Token(Chars, "x"), Token(Symbol, "."), Token(Symbol, "("), Token(Chars, "g"), Token(Whitespace, " "), Token(Chars, "z"), Token(Symbol, ")")];
    GroupTokensSplit(line, ts);
    assert PyConsumeGroup(ts, 6) == Ok(Parsed([], 7));
    assert PyConsumeKeysymbol(ts, 5) == Ok(Parsed(PyKeysymbol("z", 0, false), 6));
    assert [PyKeysymbol("z", 0, false)] + [] == [PyKeysymbol("z", 0, false)];
    assert PyConsumeGroup(ts, 5) == Ok(Parsed([PyKeysymbol("z", 0, false)], 7));
    assert PyConsumeKeysymbol(ts, 3) == Ok(Parsed(PyKeysymbol("g", 0, false), 4));
    assert [PyKeysymbol("g", 0, false)] + [PyKeysymbol("z", 0, false)] == s.keysymbols;
    assert PyConsumeGroup(ts, 3) == Ok(Parsed(s.keysymbols, 7));
    assert PyConsumeSopheme(ts, 0) == Ok(Parsed(s, 7));
    assert PyConsumeTransclusion(ts, 0).Err?;
  }

  /** A transclusion with a stress, "{v}!2": with symbol runs merged "}!" is one token
      and no closing brace is found. */
  lemma TransclusionStressWhenMerged(line: string)
    requires line == "{v}!2"
    ensures PyParseEntryDefinition(line, true) == Outcome([], Some("Expected an entity here"))
  {
    var ts := [Token(Symbol, "{"), Token(Chars, "v"), Token(Symbol, "}!"), Token(Chars, "2")];
    assert PyLexable(ts, true);
    assert Values(ts[..1]) == "{" by {
      assert ts[..1][..0] == [];
    }
    assert ts[..2][..1] == ts[..1];
    assert Values(ts[..2]) == "{v";
    assert ts[..3][..2] == ts[..2];
    assert Values(ts[..3]) == "{v}!";
    assert ts[..3] == ts[..|ts| - 1];
    assert Values(ts) == line;
    PyLexOfValues(ts, true);
    assert PyConsumeTransclusion(ts, 0) == Err("Expected a closing brace here");
    assert PyConsumeSopheme(ts, 0).Err?;
  }

  /** The tokens of "{v}!2" with one token per symbol character. */
  lemma TransclusionTokensSplit(line: string, ts: seq<Token>)
    requires line == "{v}!2"
    requires ts == [Token(Symbol, "{"), Token(Chars, "v"), Token(Symbol, "}"), Token(Symbol, "!"), Token(Chars, "2")]
    ensures PyLexSophemeSequence(line, false) == ts
  {
    assert PyLexable(ts, false);
    assert Values(ts[..1]) == "{" by {
      assert ts[..1][..0] == [];
    }
    assert ts[..2][..1] == ts[..1];
    assert Values(ts[..2]) == "{v";
    assert ts[..3][..2] == ts[..2];
    assert Values(ts[..3]) == "{v}";
    assert ts[..4][..3] == ts[..3];
    assert Values(ts[..4]) == "{v}!";
    assert ts[..4] == ts[..|ts| - 1];
    assert Values(ts) == line;
    PyLexOfValues(ts, false);
  }

  /** With one token per symbol, "{v}!2" is the transclusion of v with stress 2. */
  lemma TransclusionStressWhenSplit(line: string)
    requires line == "{v}!2"
    ensures PyParseEntryDefinition(line, false) == Outcome([PyTransclusionEntity("v", 2)], None)
  {
    var ts := [Token(Symbol, "{"), Token(Chars, "v"), Token(Symbol, "}"), Token(Symbol, "!"), Token(Chars, "2")];
    TransclusionTokensSplit(line, ts);
    assert DigitsValue("2") == 2 by {
      assert "2"[..0] == "";
    }
    assert PyConsumeStress(ts, 3) == Parsed(2, 5);
    assert PyConsumeTransclusion(ts, 0) == Ok(Parsed(PyTransclusionEntity("v", 2), 5));
  }

  /** The unit test `single_sopheme` with the tokens listed: "a.@!2?" is the sopheme "a"
      with one optional keysymbol "@" of stress 2, with either lexer
      (parse_sopheme_sequence__test.py:1-15). */
  lemma SingleSopheme(line: string, s: PySopheme, mergeSymbols: bool)
    requires line == "a.@!2?"
    requires s == PySopheme("a", [PyKeysymbol("@", 2, true)])
    ensures PyParseSophemeSeq(line, mergeSymbols) == Outcome([s], None)
  {
    var ts := [Token(Chars, "a"), Token(Symbol, "."), Token(Chars, "@"), Token(Symbol, "!"), Token(Chars, "2"), Token(Symbol, "?")];
    assert PyLexable(ts, mergeSymbols);
    assert Values(ts[..1]) == "a" by {
      assert ts[..1][..0] == [];
    }
    assert ts[..2][..1] == ts[..1];
    assert Values(ts[..2]) == "a.";
    assert ts[..3][..2] == ts[..2];
    assert Values(ts[..3]) == "a.@";
    assert ts[..4][..3] == ts[..3];
    assert Values(ts[..4]) == "a.@!";
    assert ts[..5][..4] == ts[..4];
    assert Values(ts[..5]) == "a.@!2";
    assert ts[..5] == ts[..|ts| - 1];
    assert Values(ts) == line;
    PyLexOfValues(ts, mergeSymbols);
    assert DigitsValue("2") == 2 by {
      assert "2"[..0] == "";
    }
    assert PyConsumeStress(ts, 3) == Parsed(2, 5);
    assert PyConsumeKeysymbol(ts, 2) == Ok(Parsed(PyKeysymbol("@", 2, true), 6));
    assert PyConsumeSopheme(ts, 0) == Ok(Parsed(s, 6));
  }

  /** As written, the unit test `single_sopheme` cannot pass: running the parser on its
      line raises `TypeError` instead of yielding the sopheme the test expects. */
  lemma SingleSophemeAsWritten(line: string, s: PySopheme, mergeSymbols: bool)
    requires line == "a.@!2?"
    requires s == PySopheme("a", [PyKeysymbol("@", 2, true)])
    ensures PyParseSophemeSeqAsWritten(line, mergeSymbols) == RaisesTypeError
    ensures PyParseSophemeSeqAsWritten(line, mergeSymbols) != Runs(Outcome([s], None))
  {
  }
}
