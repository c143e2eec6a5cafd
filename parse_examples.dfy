/** The unit tests of plover_hatchery_lib_rs/src/defs/parse/parse.rs:400-441, which parse
    a line and print it back. */
module ParseExamples {
  import opened Wrappers
  import opened Text
  import opened Lex
  import opened DefItems
  import opened Parse
  import opened ParseRoundTrip

  /** `single_sopheme`: "a.@!2?" parses as one sopheme whose only keysymbol is an
      optional "@" with stress 2, and prints back as the same line
      (parse.rs:417-420). */
  lemma SingleSopheme(line: string, e: Entity)
    requires line == "a.@!2?"
    requires e == SophemeEntity(Sopheme("a", [NewKeysymbol("@", 2, true)]))
    ensures ParseEntryDefinition(line) == Ok([e])
    ensures Join(EntityStrings([e]), " ") == line
  {
    var k := NewKeysymbol("@", 2, true);
    assert BaseSymbolOf("@") == "@";
    assert DecimalString(2) == "2";
    assert KeysymbolString(k) == "@!2?";
    assert SophemeString(e.sopheme) == "a.@!2?";
    assert EntityStrings([e]) == [line];
    assert WellFormedEntity(e) by {
      assert IsIdentifier("@");
    }
    EntryDefinitionRoundTrip([e]);
  }

  /** `keysymbol_options` uses the "|" of a choice of keysymbols, which this parser does
      not read: after the keysymbol "ii" it expects whitespace and finds "|"
      (parse.rs:432-435). */
  lemma KeysymbolOptionsRejected(line: string)
    requires line == "e.ii|ee"
    ensures ParseEntryDefinition(line) == Err("Expected whitespace here")
  {
    var ts := [Token(Chars, "e"), Token(Symbol, "."), Token(Chars, "ii"), Token(Symbol, "|"), Token(Chars, "ee")];
    assert Lexable(ts);
    assert Values(ts[..1]) == "e" by {
      assert ts[..1][..0] == [];
    }
    assert ts[..2][..1] == ts[..1];
    assert Values(ts[..2]) == "e.";
    assert ts[..3][..2] == ts[..2];
    assert Values(ts[..3]) == "e.ii";
    assert ts[..4][..3] == ts[..3];
    assert Values(ts[..4]) == "e.ii|";
    assert ts[..4] == ts[..|ts| - 1];
    assert Values(ts) == line;
    LexOfValues(ts);
    assert ConsumeEntity(ts, 0) == Ok(Parsed(SophemeEntity(Sopheme("e", [NewKeysymbol("ii", 0, false)])), 3));
  }
}
