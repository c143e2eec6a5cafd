/** Lines read by the older state-machine parser, as written and corrected. */
module OrthoParseExamples {
  import opened Wrappers
  import opened Lex
  import opened LexPy
  import KeysymbolPy
  import opened OrthoParse

  /** The tokens of "a.b c.d". */
  lemma TwoSophemesTokens(line: string, ts: seq<Token>)
    requires line == "a.b c.d"
    requires ts == [Token(Chars, "a"), Token(Symbol, "."), Token(Chars, "b"), Token(Whitespace, " "),
                    Token(Chars, "c"), Token(Symbol, "."), Token(Chars, "d")]
    ensures LexSeq(line) == ts
  {
    assert PyLexable(ts, true);
    assert Values(ts[..1]) == "a" by {
      assert ts[..1][..0] == [];
    }
    assert ts[..2][..1] == ts[..1];
    assert Values(ts[..2]) == "a.";
    assert ts[..3][..2] == ts[..2];
    assert Values(ts[..3]) == "a.b";
    assert ts[..4][..3] == ts[..3];
    assert Values(ts[..4]) == "a.b ";
    assert ts[..5][..4] == ts[..4];
    assert Values(ts[..5]) == "a.b c";
    assert ts[..6][..5] == ts[..5];
    assert Values(ts[..6]) == "a.b c.";
    assert ts[..6] == ts[..|ts| - 1];
    assert Values(ts) == line;
    PyLexOfValues(ts, true);
  }

  /** One step of a run that does not raise. */
  lemma FeedCons(m: Machine, t: Token, rest: seq<Token>, fixed: bool)
    requires Next(m, t, fixed).Stepped?
    ensures Feed(m, [t] + rest, fixed) == Prepend(Next(m, t, fixed).yielded, Feed(Next(m, t, fixed).machine, rest, fixed))
  {
    assert ([t] + rest)[0] == t && ([t] + rest)[1..] == rest;
  }

  /** The parser after "a", "." and "b": the keysymbol "b" is active in the sopheme "a". */
  lemma ReadAB(rest: seq<Token>, fixed: bool, mc: Machine)
    requires mc == START.(state := DoneKeysymbolChars, sophemeChars := "a", hasActiveSopheme := true,
                          keysymbolChars := "b", hasActiveKeysymbol := true)
    ensures Feed(START, [Token(Chars, "a"), Token(Symbol, "."), Token(Chars, "b")] + rest, fixed) == Feed(mc, rest, fixed)
  {
    var ma := START.(state := DoneOrtho, sophemeChars := "a", hasActiveSopheme := true);
    var mb := ma.(state := DoneDot);
    assert Next(START, Token(Chars, "a"), fixed) == Stepped(ma, []);
    assert Next(ma, Token(Symbol, "."), fixed) == Stepped(mb, []);
    assert Next(mb, Token(Chars, "b"), fixed) == Stepped(mc, []);
    var r2 := [Token(Chars, "b")] + rest;
    var r1 := [Token(Symbol, ".")] + r2;
    assert [Token(Chars, "a"), Token(Symbol, "."), Token(Chars, "b")] + rest == [Token(Chars, "a")] + r1;
    FeedCons(START, Token(Chars, "a"), r1, fixed);
    FeedCons(ma, Token(Symbol, "."), r2, fixed);
    FeedCons(mb, Token(Chars, "b"), rest, fixed);
    assert [] + Feed(mc, rest, fixed).items == Feed(mc, rest, fixed).items;
  }

  /** Reading "c.d" from the start of a sopheme: the keysymbol "d" is active in the
      sopheme "c". */
  lemma ReadCD(m: Machine, fixed: bool, md: Machine)
    requires m.state == DoneSopheme && !m.hasActiveSopheme && !m.hasActiveKeysymbol
    requires md == m.(state := DoneKeysymbolChars, sophemeChars := "c", hasActiveSopheme := true,
                      keysymbolChars := "d", hasActiveKeysymbol := true)
    ensures Feed(m, [Token(Chars, "c"), Token(Symbol, "."), Token(Chars, "d")], fixed) == Run(md, [], None)
  {
    var ma := m.(state := DoneOrtho, sophemeChars := "c", hasActiveSopheme := true);
    var mb := ma.(state := DoneDot);
    assert Next(m, Token(Chars, "c"), fixed) == Stepped(ma, []);
    assert Next(ma, Token(Symbol, "."), fixed) == Stepped(mb, []);
    assert Next(mb, Token(Chars, "d"), fixed) == Stepped(md, []);
    var r2: seq<Token> := [Token(Chars, "d")];
    var r1 := [Token(Symbol, ".")] + r2;
    assert [Token(Chars, "c"), Token(Symbol, "."), Token(Chars, "d")] == [Token(Chars, "c")] + r1;
    FeedCons(m, Token(Chars, "c"), r1, fixed);
    FeedCons(ma, Token(Symbol, "."), r2, fixed);
    assert r2 == [Token(Chars, "d")] + [];
    FeedCons(mb, Token(Chars, "d"), [], fixed);
  }

  /** As written, whitespace after the keysymbol "b" leaves the parser in DONE_KEYSYMBOL,
      which ignores the rest of the line: only "a.b" is yielded and "c.d" is lost. */
  lemma TwoSophemesAsWritten(line: string, ab: Orthokeysymbol)
    requires line == "a.b c.d"
    requires ab == Orthokeysymbol([KeysymbolPy.PyKeysymbol("b", 0, false)], "a")
    ensures ParseSeq(line, false) == Outcome([ab], None)
  {
    var cd := [Token(Chars, "c"), Token(Symbol, "."), Token(Chars, "d")];
    var rest := [Token(Whitespace, " ")] + cd;
    var ts := [Token(Chars, "a"), Token(Symbol, "."), Token(Chars, "b")] + rest;
    TwoSophemesTokens(line, ts);
    var mc := START.(state := DoneKeysymbolChars, sophemeChars := "a", hasActiveSopheme := true,
                     keysymbolChars := "b", hasActiveKeysymbol := true);
    ReadAB(rest, false, mc);
    var m := mc.(state := DoneKeysymbol, sophemeKeysymbols := [KeysymbolPy.PyKeysymbol("b", 0, false)], hasActiveKeysymbol := false);
    assert Next(mc, Token(Whitespace, " "), false) == Stepped(m, []);
    FeedCons(mc, Token(Whitespace, " "), cd, false);
    AbsorbingAsWritten(m, cd);
    assert Feed(START, ts, false) == Run(m, [], None);
    assert AtEol(m) == Stepped(m.(hasActiveSopheme := false, sophemeChars := "", sophemeKeysymbols := []), [ab]);
  }

  /** Corrected, whitespace after a keysymbol outside parentheses ends the sopheme, and
      both sophemes are yielded. */
  lemma TwoSophemesCorrected(line: string, ab: Orthokeysymbol, cd: Orthokeysymbol)
    requires line == "a.b c.d"
    requires ab == Orthokeysymbol([KeysymbolPy.PyKeysymbol("b", 0, false)], "a")
    requires cd == Orthokeysymbol([KeysymbolPy.PyKeysymbol("d", 0, false)], "c")
    ensures ParseSeq(line, true) == Outcome([ab, cd], None)
  {
    var tcd := [Token(Chars, "c"), Token(Symbol, "."), Token(Chars, "d")];
    var rest := [Token(Whitespace, " ")] + tcd;
    var ts := [Token(Chars, "a"), Token(Symbol, "."), Token(Chars, "b")] + rest;
    TwoSophemesTokens(line, ts);
    var mc := START.(state := DoneKeysymbolChars, sophemeChars := "a", hasActiveSopheme := true,
                     keysymbolChars := "b", hasActiveKeysymbol := true);
    ReadAB(rest, true, mc);
    var m := mc.(state := DoneSopheme, sophemeChars := "", sophemeKeysymbols := [], hasActiveSopheme := false, hasActiveKeysymbol := false);
    assert [] + [KeysymbolPy.PyKeysymbol("b", 0, false)] == ab.keysymbols;
    assert Next(mc, Token(Whitespace, " "), true) == Stepped(m, [ab]);
    FeedCons(mc, Token(Whitespace, " "), tcd, true);
    var md := m.(state := DoneKeysymbolChars, sophemeChars := "c", hasActiveSopheme := true,
                 keysymbolChars := "d", hasActiveKeysymbol := true);
    ReadCD(m, true, md);
    assert Feed(START, ts, true) == Run(md, [ab], None);
    assert [] + [KeysymbolPy.PyKeysymbol("d", 0, false)] == cd.keysymbols;
    assert AtEol(md).yielded == [cd];
    assert [ab] + [cd] == [ab, cd];
  }

  /** The tokens of "a.b) c.d". */
  lemma ClosedPhonoTokens(line: string, ts: seq<Token>)
    requires line == "a.b) c.d"
    requires ts == [Token(Chars, "a"), Token(Symbol, "."), Token(Chars, "b"), Token(Symbol, ")"),
                    Token(Whitespace, " "), Token(Chars, "c"), Token(Symbol, "."), Token(Chars, "d")]
    ensures LexSeq(line) == ts
  {
    assert PyLexable(ts, true);
    assert Values(ts[..1]) == "a" by {
      assert ts[..1][..0] == [];
    }
    assert ts[..2][..1] == ts[..1];
    assert Values(ts[..2]) == "a.";
    assert ts[..3][..2] == ts[..2];
    assert Values(ts[..3]) == "a.b";
    assert ts[..4][..3] == ts[..3];
    assert Values(ts[..4]) == "a.b)";
    assert ts[..5][..4] == ts[..4];
    assert Values(ts[..5]) == "a.b) ";
    assert ts[..6][..5] == ts[..5];
    assert Values(ts[..6]) == "a.b) c";
    assert ts[..7][..6] == ts[..6];
    assert Values(ts[..7]) == "a.b) c.";
    assert ts[..7] == ts[..|ts| - 1];
    assert Values(ts) == line;
    PyLexOfValues(ts, true);
  }

  /** As written, ")" puts the parser in DONE_PHONO, whose handler is never run: the
      whitespace does not end "a.b" and "c.d" is lost. */
  lemma ClosedPhonoAsWritten(line: string, ab: Orthokeysymbol)
    requires line == "a.b) c.d"
    requires ab == Orthokeysymbol([KeysymbolPy.PyKeysymbol("b", 0, false)], "a")
    ensures ParseSeq(line, false) == Outcome([ab], None)
  {
    var cd := [Token(Chars, "c"), Token(Symbol, "."), Token(Chars, "d")];
    var afterClose := [Token(Whitespace, " ")] + cd;
    var rest := [Token(Symbol, ")")] + afterClose;
    var ts := [Token(Chars, "a"), Token(Symbol, "."), Token(Chars, "b")] + rest;
    ClosedPhonoTokens(line, ts);
    var mc := START.(state := DoneKeysymbolChars, sophemeChars := "a", hasActiveSopheme := true,
                     keysymbolChars := "b", hasActiveKeysymbol := true);
    ReadAB(rest, false, mc);
    var m := mc.(state := DonePhono, parenthesesLevel := -1,
                 sophemeKeysymbols := [KeysymbolPy.PyKeysymbol("b", 0, false)], hasActiveKeysymbol := false);
    assert Next(mc, Token(Symbol, ")"), false) == Stepped(m, []);
    FeedCons(mc, Token(Symbol, ")"), afterClose, false);
    AbsorbingAsWritten(m, afterClose);
    assert Feed(START, ts, false) == Run(m, [], None);
    assert AtEol(m) == Stepped(m.(hasActiveSopheme := false, sophemeChars := "", sophemeKeysymbols := []), [ab]);
  }

  /** Corrected, the DONE_PHONO handler runs: the whitespace yields "a.b" and "c.d"
      follows. */
  lemma ClosedPhonoCorrected(line: string, ab: Orthokeysymbol, cd: Orthokeysymbol)
    requires line == "a.b) c.d"
    requires ab == Orthokeysymbol([KeysymbolPy.PyKeysymbol("b", 0, false)], "a")
    requires cd == Orthokeysymbol([KeysymbolPy.PyKeysymbol("d", 0, false)], "c")
    ensures ParseSeq(line, true) == Outcome([ab, cd], None)
  {
    var tcd := [Token(Chars, "c"), Token(Symbol, "."), Token(Chars, "d")];
    var afterClose := [Token(Whitespace, " ")] + tcd;
    var rest := [Token(Symbol, ")")] + afterClose;
    var ts := [Token(Chars, "a"), Token(Symbol, "."), Token(Chars, "b")] + rest;
    ClosedPhonoTokens(line, ts);
    var mc := START.(state := DoneKeysymbolChars, sophemeChars := "a", hasActiveSopheme := true,
                     keysymbolChars := "b", hasActiveKeysymbol := true);
    ReadAB(rest, true, mc);
    var mp := mc.(state := DonePhono, parenthesesLevel := -1,
                  sophemeKeysymbols := [KeysymbolPy.PyKeysymbol("b", 0, false)], hasActiveKeysymbol := false);
    assert [] + [KeysymbolPy.PyKeysymbol("b", 0, false)] == ab.keysymbols;
    assert Next(mc, Token(Symbol, ")"), true) == Stepped(mp, []);
    FeedCons(mc, Token(Symbol, ")"), afterClose, true);
    var m := mp.(state := DoneSopheme, sophemeChars := "", sophemeKeysymbols := [], hasActiveSopheme := false);
    assert Next(mp, Token(Whitespace, " "), true) == Stepped(m, [ab]);
    FeedCons(mp, Token(Whitespace, " "), tcd, true);
    var md := m.(state := DoneKeysymbolChars, sophemeChars := "c", hasActiveSopheme := true,
                 keysymbolChars := "d", hasActiveKeysymbol := true);
    ReadCD(m, true, md);
    assert Feed(START, ts, true) == Run(md, [ab], None);
    assert [] + [KeysymbolPy.PyKeysymbol("d", 0, false)] == cd.keysymbols;
    assert AtEol(md).yielded == [cd];
    assert [ab] + [cd] == [ab, cd];
  }
}
