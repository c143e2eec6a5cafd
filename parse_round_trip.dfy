/** Printing and parsing the entry-definition format are inverse: a line printed from
    well-formed entities (the Display impls under plover_hatchery_lib_rs/src/defs/def_items/,
    with `fmt`) is lexed (lex.rs) and parsed (parse.rs) back into the same entities.

    The proof goes through the tokens a printed item is made of: the printed text is
    the concatenation of those tokens' values, those tokens are exactly what the lexer
    produces from it, and the parser reads each item back from them. */
module ParseRoundTrip {
  import opened Wrappers
  import opened Text
  import opened Lex
  import opened DefItems
  import opened Parse

  /** A non-empty run of identifier characters. */
  predicate IsIdentifier(s: string) {
    |s| > 0 && forall i :: 0 <= i < |s| ==> ClassOf(s[i]) == Chars
  }

  /** A keysymbol that can be written down: its symbol is an identifier and its base
      symbol is the one `Keysymbol::new` derives. */
  predicate WellFormedKeysymbol(k: Keysymbol) {
    IsIdentifier(k.symbol) && k.baseSymbol == BaseSymbolOf(k.symbol)
  }

  predicate WellFormedSopheme(s: Sopheme) {
    (s.chars == "" || IsIdentifier(s.chars))
    && forall i :: 0 <= i < |s.keysymbols| ==> WellFormedKeysymbol(s.keysymbols[i])
  }

  predicate WellFormedEntity(e: Entity) {
    match e
    case SophemeEntity(s) => WellFormedSopheme(s)
    case TransclusionEntity(t) => IsIdentifier(t.targetVarname)
  }

  const SPACE: Token := Token(Whitespace, " ")

  function StressTokens(stress: Byte): seq<Token> {
    if stress == 0 then [] else [Token(Symbol, "!"), Token(Chars, DecimalString(stress))]
  }

  function KeysymbolTokens(k: Keysymbol): seq<Token> {
    [Token(Chars, k.symbol)] + StressTokens(k.stress) + (if k.optional then [Token(Symbol, "?")] else [])
  }

  /** The parts with one space token between neighbours. */
  function SpaceSeparated(parts: seq<seq<Token>>): seq<Token>
    decreases |parts|
  {
    if |parts| == 0 then []
    else if |parts| == 1 then parts[0]
    else parts[0] + [SPACE] + SpaceSeparated(parts[1..])
  }

  function KeysymbolParts(ks: seq<Keysymbol>): (r: seq<seq<Token>>)
    ensures |r| == |ks| && forall i :: 0 <= i < |ks| ==> r[i] == KeysymbolTokens(ks[i])
  {
    seq(|ks|, i requires 0 <= i < |ks| => KeysymbolTokens(ks[i]))
  }

  function PhonoTokens(ks: seq<Keysymbol>): seq<Token> {
    if |ks| <= 1 then SpaceSeparated(KeysymbolParts(ks))
    else [Token(Symbol, "(")] + SpaceSeparated(KeysymbolParts(ks)) + [Token(Symbol, ")")]
  }

  function SophemeTokens(s: Sopheme): seq<Token> {
    (if s.chars == "" then [] else [Token(Chars, s.chars)]) + [Token(Symbol, ".")] + PhonoTokens(s.keysymbols)
  }

  function TransclusionTokens(t: Transclusion): seq<Token> {
    [Token(Symbol, "{"), Token(Chars, t.targetVarname), Token(Symbol, "}")] + StressTokens(t.stress)
  }

  function EntityTokens(e: Entity): seq<Token> {
    match e
    case SophemeEntity(s) => SophemeTokens(s)
    case TransclusionEntity(t) => TransclusionTokens(t)
  }

  function EntityParts(es: seq<Entity>): (r: seq<seq<Token>>)
    ensures |r| == |es| && forall i :: 0 <= i < |es| ==> r[i] == EntityTokens(es[i])
  {
    seq(|es|, i requires 0 <= i < |es| => EntityTokens(es[i]))
  }

  function PartValues(parts: seq<seq<Token>>): (r: seq<string>)
    ensures |r| == |parts| && forall i :: 0 <= i < |parts| ==> r[i] == Values(parts[i])
  {
    seq(|parts|, i requires 0 <= i < |parts| => Values(parts[i]))
  }

  // ---------------------------------------------------------------------------
  // The printed text is the concatenation of the token values.

  lemma ValuesSingle(t: Token)
    ensures Values([t]) == t.value
  {
    assert [t][..0] == [];
  }

  lemma ValuesStress(stress: Byte)
    ensures Values(StressTokens(stress)) == StressMarker(stress)
  {
    if stress > 0 {
      ValuesAppend([Token(Symbol, "!")], [Token(Chars, DecimalString(stress))]);
      ValuesSingle(Token(Symbol, "!"));
      ValuesSingle(Token(Chars, DecimalString(stress)));
      assert StressTokens(stress) == [Token(Symbol, "!")] + [Token(Chars, DecimalString(stress))];
    }
  }

  lemma ValuesKeysymbol(k: Keysymbol)
    ensures Values(KeysymbolTokens(k)) == KeysymbolString(k)
  {
    var opt: seq<Token> := if k.optional then [Token(Symbol, "?")] else [];
    ValuesAppend([Token(Chars, k.symbol)] + StressTokens(k.stress), opt);
    ValuesAppend([Token(Chars, k.symbol)], StressTokens(k.stress));
    ValuesSingle(Token(Chars, k.symbol));
    ValuesStress(k.stress);
    if k.optional {
      ValuesSingle(Token(Symbol, "?"));
    }
  }

  lemma {:induction false} ValuesSpaceSeparated(parts: seq<seq<Token>>)
    ensures Values(SpaceSeparated(parts)) == Join(PartValues(parts), " ")
    decreases |parts|
  {
    if |parts| > 1 {
      var rest := parts[1..];
      ValuesSpaceSeparated(rest);
      ValuesAppend(parts[0] + [SPACE], SpaceSeparated(rest));
      ValuesAppend(parts[0], [SPACE]);
      ValuesSingle(SPACE);
      assert PartValues(parts) == [Values(parts[0])] + PartValues(rest);
      JoinAppend([Values(parts[0])], PartValues(rest), " ");
    }
  }

  lemma ValuesKeysymbolSeq(ks: seq<Keysymbol>)
    ensures Values(SpaceSeparated(KeysymbolParts(ks))) == Join(KeysymbolStrings(ks), " ")
  {
    ValuesSpaceSeparated(KeysymbolParts(ks));
    forall i | 0 <= i < |ks|
      ensures PartValues(KeysymbolParts(ks))[i] == KeysymbolStrings(ks)[i]
    {
      ValuesKeysymbol(ks[i]);
    }
    assert PartValues(KeysymbolParts(ks)) == KeysymbolStrings(ks);
  }

  lemma ValuesSopheme(s: Sopheme)
    ensures Values(SophemeTokens(s)) == SophemeString(s)
  {
    var head: seq<Token> := if s.chars == "" then [] else [Token(Chars, s.chars)];
    var inner := SpaceSeparated(KeysymbolParts(s.keysymbols));
    ValuesKeysymbolSeq(s.keysymbols);
    ValuesAppend(head + [Token(Symbol, ".")], PhonoTokens(s.keysymbols));
    ValuesAppend(head, [Token(Symbol, ".")]);
    ValuesSingle(Token(Symbol, "."));
    if s.chars != "" {
      ValuesSingle(Token(Chars, s.chars));
    }
    if |s.keysymbols| > 1 {
      ValuesAppend([Token(Symbol, "(")] + inner, [Token(Symbol, ")")]);
      ValuesAppend([Token(Symbol, "(")], inner);
      ValuesSingle(Token(Symbol, "("));
      ValuesSingle(Token(Symbol, ")"));
    }
  }

  lemma ValuesTransclusion(t: Transclusion)
    ensures Values(TransclusionTokens(t)) == TransclusionString(t)
  {
    var braces := [Token(Symbol, "{"), Token(Chars, t.targetVarname), Token(Symbol, "}")];
    assert braces == [Token(Symbol, "{")] + [Token(Chars, t.targetVarname)] + [Token(Symbol, "}")];
    ValuesAppend(braces, StressTokens(t.stress));
    ValuesAppend([Token(Symbol, "{")] + [Token(Chars, t.targetVarname)], [Token(Symbol, "}")]);
    ValuesAppend([Token(Symbol, "{")], [Token(Chars, t.targetVarname)]);
    ValuesSingle(Token(Symbol, "{"));
    ValuesSingle(Token(Chars, t.targetVarname));
    ValuesSingle(Token(Symbol, "}"));
    ValuesStress(t.stress);
  }

  lemma ValuesLine(es: seq<Entity>)
    ensures Values(SpaceSeparated(EntityParts(es))) == Join(EntityStrings(es), " ")
  {
    ValuesSpaceSeparated(EntityParts(es));
    forall i | 0 <= i < |es|
      ensures PartValues(EntityParts(es))[i] == EntityStrings(es)[i]
    {
      match es[i]
      case SophemeEntity(s) => ValuesSopheme(s);
      case TransclusionEntity(t) => ValuesTransclusion(t);
    }
    assert PartValues(EntityParts(es)) == EntityStrings(es);
  }

  // ---------------------------------------------------------------------------
  // The tokens of a printed item are the tokens the lexer makes of its text.

  /** Tokens the lexer can produce that neither start nor end with whitespace. */
  predicate Solid(ts: seq<Token>) {
    |ts| > 0 && Lexable(ts) && ts[0].kind != Whitespace && ts[|ts| - 1].kind != Whitespace
  }

  lemma LexableAppend(a: seq<Token>, b: seq<Token>)
    requires Lexable(a) && Lexable(b)
    requires |a| > 0 && |b| > 0 ==> a[|a| - 1].kind == Symbol || a[|a| - 1].kind != b[0].kind
    ensures Lexable(a + b)
  {
    var ab := a + b;
    forall k | 0 <= k < |ab| - 1
      ensures ab[k].kind == Symbol || ab[k].kind != ab[k + 1].kind
    {
      if k < |a| - 1 {
        assert ab[k] == a[k] && ab[k + 1] == a[k + 1];
      } else if k >= |a| {
        assert ab[k] == b[k - |a|] && ab[k + 1] == b[k - |a| + 1];
      }
    }
  }

  lemma IdentifierToken(s: string)
    requires IsIdentifier(s)
    ensures Lexable([Token(Chars, s)])
  {
  }

  lemma DecimalIdentifier(n: nat)
    ensures IsIdentifier(DecimalString(n))
  {
    var d := DecimalString(n);
    forall i | 0 <= i < |d|
      ensures ClassOf(d[i]) == Chars
    {
      assert IsAsciiDigit(d[i]);
    }
  }

  lemma LexableStress(stress: Byte)
    ensures Lexable(StressTokens(stress))
    ensures stress > 0 ==> StressTokens(stress)[0].kind == Symbol && StressTokens(stress)[1].kind == Chars
  {
    if stress > 0 {
      DecimalIdentifier(stress);
      LexableAppend([Token(Symbol, "!")], [Token(Chars, DecimalString(stress))]);
      assert StressTokens(stress) == [Token(Symbol, "!")] + [Token(Chars, DecimalString(stress))];
    }
  }

  lemma SolidKeysymbol(k: Keysymbol)
    requires WellFormedKeysymbol(k)
    ensures Solid(KeysymbolTokens(k)) && KeysymbolTokens(k)[0].kind == Chars
  {
    var head := [Token(Chars, k.symbol)] + StressTokens(k.stress);
    LexableStress(k.stress);
    LexableAppend([Token(Chars, k.symbol)], StressTokens(k.stress));
    if k.optional {
      LexableAppend(head, [Token(Symbol, "?")]);
    } else {
      assert KeysymbolTokens(k) == head;
    }
  }

  lemma {:induction false} SolidSpaceSeparated(parts: seq<seq<Token>>)
    requires |parts| > 0 && forall i :: 0 <= i < |parts| ==> Solid(parts[i])
    ensures Solid(SpaceSeparated(parts))
    ensures SpaceSeparated(parts)[0] == parts[0][0]
    decreases |parts|
  {
    if |parts| > 1 {
      var rest := parts[1..];
      SolidSpaceSeparated(rest);
      assert Lexable([SPACE]);
      LexableAppend(parts[0], [SPACE]);
      LexableAppend(parts[0] + [SPACE], SpaceSeparated(rest));
    }
  }

  lemma SolidKeysymbolSeq(ks: seq<Keysymbol>)
    requires |ks| > 0 && forall i :: 0 <= i < |ks| ==> WellFormedKeysymbol(ks[i])
    ensures Solid(SpaceSeparated(KeysymbolParts(ks)))
    ensures SpaceSeparated(KeysymbolParts(ks))[0].kind == Chars
  {
    forall i | 0 <= i < |ks|
      ensures Solid(KeysymbolParts(ks)[i]) && KeysymbolParts(ks)[i][0].kind == Chars
    {
      SolidKeysymbol(ks[i]);
    }
    SolidSpaceSeparated(KeysymbolParts(ks));
  }

  lemma SolidPhono(ks: seq<Keysymbol>)
    requires |ks| > 0 && forall i :: 0 <= i < |ks| ==> WellFormedKeysymbol(ks[i])
    ensures Solid(PhonoTokens(ks))
  {
    var inner := SpaceSeparated(KeysymbolParts(ks));
    SolidKeysymbolSeq(ks);
    if |ks| > 1 {
      assert Lexable([Token(Symbol, "(")]) && Lexable([Token(Symbol, ")")]);
      LexableAppend([Token(Symbol, "(")], inner);
      LexableAppend([Token(Symbol, "(")] + inner, [Token(Symbol, ")")]);
    }
  }

  lemma SolidSopheme(s: Sopheme)
    requires WellFormedSopheme(s)
    ensures Solid(SophemeTokens(s))
  {
    var head: seq<Token> := if s.chars == "" then [] else [Token(Chars, s.chars)];
    var phono := PhonoTokens(s.keysymbols);
    assert Lexable([Token(Symbol, ".")]);
    LexableAppend(head, [Token(Symbol, ".")]);
    if |s.keysymbols| > 0 {
      SolidPhono(s.keysymbols);
      LexableAppend(head + [Token(Symbol, ".")], phono);
    } else {
      assert SophemeTokens(s) == head + [Token(Symbol, ".")];
    }
  }

  lemma SolidTransclusion(t: Transclusion)
    requires IsIdentifier(t.targetVarname)
    ensures Solid(TransclusionTokens(t))
  {
    var braces := [Token(Symbol, "{"), Token(Chars, t.targetVarname), Token(Symbol, "}")];
    assert Lexable(braces);
    LexableStress(t.stress);
    LexableAppend(braces, StressTokens(t.stress));
    if t.stress == 0 {
      assert TransclusionTokens(t) == braces;
    }
  }

  lemma SolidLine(es: seq<Entity>)
    requires |es| > 0 && forall i :: 0 <= i < |es| ==> WellFormedEntity(es[i])
    ensures Solid(SpaceSeparated(EntityParts(es)))
  {
    forall i | 0 <= i < |es|
      ensures Solid(EntityParts(es)[i])
    {
      match es[i]
      case SophemeEntity(s) => SolidSopheme(s);
      case TransclusionEntity(t) => SolidTransclusion(t);
    }
    SolidSpaceSeparated(EntityParts(es));
  }

  // ---------------------------------------------------------------------------
  // The parser reads every printed item back.

  /** The tokens from index `i` on begin with `part`. */
  predicate Follows(ts: seq<Token>, i: nat, part: seq<Token>) {
    i + |part| <= |ts| && ts[i..i + |part|] == part
  }

  lemma FollowsSplit(ts: seq<Token>, i: nat, a: seq<Token>, b: seq<Token>)
    requires Follows(ts, i, a + b)
    ensures Follows(ts, i, a) && Follows(ts, i + |a|, b)
  {
    assert ts[i..i + |a|] == ts[i..i + |a + b|][..|a|];
    assert ts[i + |a|..i + |a| + |b|] == ts[i..i + |a + b|][|a|..];
  }

  lemma FollowsAt(ts: seq<Token>, i: nat, part: seq<Token>, k: nat)
    requires Follows(ts, i, part) && k < |part|
    ensures At(ts, i + k) == part[k]
  {
    assert ts[i + k] == ts[i..i + |part|][k];
  }

  /** What may follow a keysymbol: whitespace (or the end), or a closing parenthesis. */
  predicate EndsKeysymbol(t: Token) {
    t.kind == Whitespace || IsSymbolToken(t, ")")
  }

  lemma ReadStress(ts: seq<Token>, i: nat, stress: Byte)
    requires Follows(ts, i, StressTokens(stress))
    requires stress == 0 ==> !IsSymbolToken(At(ts, i), "!")
    ensures ConsumeStress(ts, i) == Ok(Parsed(stress, i + |StressTokens(stress)|))
  {
    if stress > 0 {
      FollowsAt(ts, i, StressTokens(stress), 0);
      FollowsAt(ts, i, StressTokens(stress), 1);
      ParseU8Decimal(stress);
    }
  }

  lemma ReadKeysymbol(ts: seq<Token>, i: nat, k: Keysymbol)
    requires WellFormedKeysymbol(k)
    requires Follows(ts, i, KeysymbolTokens(k)) && EndsKeysymbol(At(ts, i + |KeysymbolTokens(k)|))
    ensures ConsumeKeysymbol(ts, i) == Ok(Parsed(k, i + |KeysymbolTokens(k)|))
  {
    var st := StressTokens(k.stress);
    var opt: seq<Token> := if k.optional then [Token(Symbol, "?")] else [];
    FollowsSplit(ts, i, [Token(Chars, k.symbol)] + st, opt);
    FollowsSplit(ts, i, [Token(Chars, k.symbol)], st);
    FollowsAt(ts, i, [Token(Chars, k.symbol)], 0);
    var j := i + 1 + |st|;
    if k.optional {
      FollowsAt(ts, j, opt, 0);
    }
    if k.stress == 0 {
      assert j == i + 1;
    }
    ReadStress(ts, i + 1, k.stress);
  }

  lemma KeysymbolPartsCons(ks: seq<Keysymbol>)
    requires |ks| > 1
    ensures SpaceSeparated(KeysymbolParts(ks)) == KeysymbolTokens(ks[0]) + [SPACE] + SpaceSeparated(KeysymbolParts(ks[1..]))
  {
    assert KeysymbolParts(ks)[1..] == KeysymbolParts(ks[1..]);
  }

  /** One keysymbol followed by the closing parenthesis. */
  lemma KeysymbolSeqLast(ts: seq<Token>, i: nat, k: Keysymbol, m: nat)
    requires ConsumeKeysymbol(ts, i) == Ok(Parsed(k, m)) && IsSymbolToken(At(ts, m), ")")
    ensures ConsumeKeysymbolSeq(ts, i) == Ok(Parsed([k], m))
  {
    assert ConsumeKeysymbolSeq(ts, m) == Ok(Parsed([], m));
    assert [k] + [] == [k];
  }

  /** One keysymbol, a space, and the rest of the sequence. */
  lemma KeysymbolSeqStep(ts: seq<Token>, i: nat, k: Keysymbol, m: nat, rest: seq<Keysymbol>, e: nat)
    requires ConsumeKeysymbol(ts, i) == Ok(Parsed(k, m)) && At(ts, m).kind == Whitespace
    requires ConsumeKeysymbolSeq(ts, m + 1) == Ok(Parsed(rest, e))
    ensures ConsumeKeysymbolSeq(ts, i) == Ok(Parsed([k] + rest, e))
  {
  }

  lemma {:induction false} ReadKeysymbolSeq(ts: seq<Token>, i: nat, ks: seq<Keysymbol>)
    requires forall n :: 0 <= n < |ks| ==> WellFormedKeysymbol(ks[n])
    requires Follows(ts, i, SpaceSeparated(KeysymbolParts(ks)))
    requires IsSymbolToken(At(ts, i + |SpaceSeparated(KeysymbolParts(ks))|), ")")
    ensures ConsumeKeysymbolSeq(ts, i) == Ok(Parsed(ks, i + |SpaceSeparated(KeysymbolParts(ks))|))
    decreases |ks|, 1
  {
    if |ks| == 1 {
      var first := KeysymbolTokens(ks[0]);
      assert SpaceSeparated(KeysymbolParts(ks)) == first;
      ReadKeysymbol(ts, i, ks[0]);
      KeysymbolSeqLast(ts, i, ks[0], i + |first|);
      assert [ks[0]] == ks;
    } else if |ks| > 1 {
      ReadKeysymbolSeqCons(ts, i, ks);
    }
  }

  lemma {:induction false} ReadKeysymbolSeqCons(ts: seq<Token>, i: nat, ks: seq<Keysymbol>)
    requires |ks| > 1 && forall n :: 0 <= n < |ks| ==> WellFormedKeysymbol(ks[n])
    requires Follows(ts, i, SpaceSeparated(KeysymbolParts(ks)))
    requires IsSymbolToken(At(ts, i + |SpaceSeparated(KeysymbolParts(ks))|), ")")
    ensures ConsumeKeysymbolSeq(ts, i) == Ok(Parsed(ks, i + |SpaceSeparated(KeysymbolParts(ks))|))
    decreases |ks|, 0
  {
    var m := i + |KeysymbolTokens(ks[0])|;
    var rest := ks[1..];
    var e := m + 1 + |SpaceSeparated(KeysymbolParts(rest))|;
    KeysymbolSeqConsSplit(ts, i, ks);
    ReadKeysymbol(ts, i, ks[0]);
    ReadKeysymbolSeq(ts, m + 1, rest);
    KeysymbolSeqStep(ts, i, ks[0], m, rest, e);
    assert [ks[0]] + rest == ks;
  }

  /** The tokens of two or more keysymbols: the first keysymbol's, a space, the rest's. */
  lemma KeysymbolSeqConsSplit(ts: seq<Token>, i: nat, ks: seq<Keysymbol>)
    requires |ks| > 1 && Follows(ts, i, SpaceSeparated(KeysymbolParts(ks)))
    ensures var m := i + |KeysymbolTokens(ks[0])|;
            && Follows(ts, i, KeysymbolTokens(ks[0])) && At(ts, m) == SPACE
            && Follows(ts, m + 1, SpaceSeparated(KeysymbolParts(ks[1..])))
            && |SpaceSeparated(KeysymbolParts(ks))| == |KeysymbolTokens(ks[0])| + 1 + |SpaceSeparated(KeysymbolParts(ks[1..]))|
  {
    var first := KeysymbolTokens(ks[0]);
    var tail := SpaceSeparated(KeysymbolParts(ks[1..]));
    KeysymbolPartsCons(ks);
    FollowsSplit(ts, i, first + [SPACE], tail);
    FollowsSplit(ts, i, first, [SPACE]);
    FollowsAt(ts, i + |first|, [SPACE], 0);
  }

  lemma ReadPhono(ts: seq<Token>, i: nat, ks: seq<Keysymbol>)
    requires forall n :: 0 <= n < |ks| ==> WellFormedKeysymbol(ks[n])
    requires Follows(ts, i, PhonoTokens(ks)) && At(ts, i + |PhonoTokens(ks)|).kind == Whitespace
    ensures ConsumeSophemePhono(ts, i) == Ok(Parsed(ks, i + |PhonoTokens(ks)|))
  {
    if |ks| == 1 {
      ReadPhonoSingle(ts, i, ks[0]);
      assert [ks[0]] == ks;
    } else if |ks| > 1 {
      ReadPhonoGroup(ts, i, ks);
    }
  }

  lemma ReadPhonoSingle(ts: seq<Token>, i: nat, k: Keysymbol)
    requires WellFormedKeysymbol(k)
    requires Follows(ts, i, KeysymbolTokens(k)) && At(ts, i + |KeysymbolTokens(k)|).kind == Whitespace
    ensures ConsumeSophemePhono(ts, i) == Ok(Parsed([k], i + |KeysymbolTokens(k)|))
  {
    FollowsAt(ts, i, KeysymbolTokens(k), 0);
    ReadKeysymbol(ts, i, k);
  }

  lemma ReadPhonoGroup(ts: seq<Token>, i: nat, ks: seq<Keysymbol>)
    requires |ks| > 1 && forall n :: 0 <= n < |ks| ==> WellFormedKeysymbol(ks[n])
    requires Follows(ts, i, PhonoTokens(ks))
    ensures ConsumeSophemePhono(ts, i) == Ok(Parsed(ks, i + |PhonoTokens(ks)|))
  {
    var inner := SpaceSeparated(KeysymbolParts(ks));
    assert PhonoTokens(ks) == [Token(Symbol, "(")] + inner + [Token(Symbol, ")")];
    FollowsSplit(ts, i, [Token(Symbol, "(")] + inner, [Token(Symbol, ")")]);
    FollowsSplit(ts, i, [Token(Symbol, "(")], inner);
    FollowsAt(ts, i, [Token(Symbol, "(")], 0);
    FollowsAt(ts, i + 1 + |inner|, [Token(Symbol, ")")], 0);
    ReadKeysymbolSeq(ts, i + 1, ks);
    PhonoGroupStep(ts, i, ks, i + 1 + |inner|);
  }

  /** A parenthesised keysymbol sequence read from just after "(". */
  lemma PhonoGroupStep(ts: seq<Token>, i: nat, ks: seq<Keysymbol>, e: nat)
    requires IsSymbolToken(At(ts, i), "(") && ConsumeKeysymbolSeq(ts, i + 1) == Ok(Parsed(ks, e))
    ensures ConsumeSophemePhono(ts, i) == Ok(Parsed(ks, e + 1))
  {
  }

  lemma ReadSopheme(ts: seq<Token>, i: nat, s: Sopheme)
    requires WellFormedSopheme(s)
    requires Follows(ts, i, SophemeTokens(s)) && At(ts, i + |SophemeTokens(s)|).kind == Whitespace
    ensures ConsumeSopheme(ts, i) == Ok(Parsed(s, i + |SophemeTokens(s)|))
  {
    var o := i + (if s.chars == "" then 0 else 1);
    var phono := PhonoTokens(s.keysymbols);
    var e := o + 1 + |phono|;
    SophemeTokensSplit(ts, i, s);
    assert e == i + |SophemeTokens(s)|;
    assert ConsumeSophemePhono(ts, o + 1) == Ok(Parsed(s.keysymbols, e)) by {
      ReadPhono(ts, o + 1, s.keysymbols);
    }
    ReadSophemeParts(ts, i, s, o, e);
  }

  /** The tokens of a sopheme: its orthography when non-empty, the dot, its phonology. */
  lemma SophemeTokensSplit(ts: seq<Token>, i: nat, s: Sopheme)
    requires Follows(ts, i, SophemeTokens(s))
    ensures var o := i + (if s.chars == "" then 0 else 1);
            ConsumeSophemeOrtho(ts, i) == Ok(Parsed(s.chars, o)) && ConsumeSophemeDot(ts, o).Ok? &&
            Follows(ts, o + 1, PhonoTokens(s.keysymbols)) &&
            |SophemeTokens(s)| == o - i + 1 + |PhonoTokens(s.keysymbols)|
  {
    var head: seq<Token> := if s.chars == "" then [] else [Token(Chars, s.chars)];
    var phono := PhonoTokens(s.keysymbols);
    assert SophemeTokens(s) == head + [Token(Symbol, ".")] + phono;
    FollowsSplit(ts, i, head + [Token(Symbol, ".")], phono);
    FollowsSplit(ts, i, head, [Token(Symbol, ".")]);
    FollowsAt(ts, i + |head|, [Token(Symbol, ".")], 0);
    if s.chars != "" {
      FollowsAt(ts, i, head, 0);
    }
  }

  /** A sopheme read as its orthography, its dot and its phonology in turn. */
  lemma ReadSophemeParts(ts: seq<Token>, i: nat, s: Sopheme, o: nat, e: nat)
    requires ConsumeSophemeOrtho(ts, i) == Ok(Parsed(s.chars, o)) && ConsumeSophemeDot(ts, o).Ok?
    requires ConsumeSophemePhono(ts, o + 1) == Ok(Parsed(s.keysymbols, e))
    ensures ConsumeSopheme(ts, i) == Ok(Parsed(s, e))
  {
  }

  lemma ReadTransclusion(ts: seq<Token>, i: nat, t: Transclusion)
    requires IsIdentifier(t.targetVarname)
    requires Follows(ts, i, TransclusionTokens(t)) && At(ts, i + |TransclusionTokens(t)|).kind == Whitespace
    ensures ConsumeTransclusion(ts, i) == Ok(Parsed(t, i + |TransclusionTokens(t)|))
  {
    var braces := [Token(Symbol, "{"), Token(Chars, t.targetVarname), Token(Symbol, "}")];
    FollowsSplit(ts, i, braces, StressTokens(t.stress));
    FollowsAt(ts, i, braces, 0);
    FollowsAt(ts, i, braces, 1);
    FollowsAt(ts, i, braces, 2);
    ReadStress(ts, i + 3, t.stress);
  }

  lemma ReadEntity(ts: seq<Token>, i: nat, e: Entity)
    requires WellFormedEntity(e)
    requires Follows(ts, i, EntityTokens(e)) && At(ts, i + |EntityTokens(e)|).kind == Whitespace
    ensures ConsumeEntity(ts, i) == Ok(Parsed(e, i + |EntityTokens(e)|))
  {
    match e
    case SophemeEntity(s) =>
      SolidSopheme(s);
      FollowsAt(ts, i, SophemeTokens(s), 0);
      if s.chars == "" {
        assert SophemeTokens(s)[0] == Token(Symbol, ".");
      } else {
        assert SophemeTokens(s)[0] == Token(Chars, s.chars);
      }
      ReadSopheme(ts, i, s);
    case TransclusionEntity(t) =>
      ReadTransclusion(ts, i, t);
  }

  /** Reading `parts[k]` from any position, with whitespace after it, gives
      `items[k]` and ends after the part. */
  ghost predicate ReadsEach<T>(ts: seq<Token>, consume: (seq<Token>, nat) -> Result<Parsed<T>>, parts: seq<seq<Token>>, items: seq<T>) {
    |parts| == |items|
    && forall k: nat, j: nat {:trigger Follows(ts, j, parts[k])} ::
         k < |items| && Follows(ts, j, parts[k]) && At(ts, j + |parts[k]|).kind == Whitespace ==>
           consume(ts, j) == Ok(Parsed(items[k], j + |parts[k]|))
  }

  lemma ReadsEachTail<T>(ts: seq<Token>, consume: (seq<Token>, nat) -> Result<Parsed<T>>, parts: seq<seq<Token>>, items: seq<T>)
    requires ReadsEach(ts, consume, parts, items) && |items| > 0
    ensures ReadsEach(ts, consume, parts[1..], items[1..])
  {
    forall k: nat, j: nat | k < |items| - 1 && Follows(ts, j, parts[1..][k]) && At(ts, j + |parts[1..][k]|).kind == Whitespace
      ensures consume(ts, j) == Ok(Parsed(items[1..][k], j + |parts[1..][k]|))
    {
      assert parts[1..][k] == parts[k + 1];
      assert Follows(ts, j, parts[k + 1]);
    }
  }

  lemma {:induction false} ReadItems<T>(ts: seq<Token>, i: nat, consume: (seq<Token>, nat) -> Result<Parsed<T>>, parts: seq<seq<Token>>, items: seq<T>)
    requires Advancing(ts, consume) && ReadsEach(ts, consume, parts, items) && |items| > 0
    requires Follows(ts, i, SpaceSeparated(parts)) && i + |SpaceSeparated(parts)| == |ts|
    ensures ParseItemsFrom(ts, i, consume) == Ok(items)
    decreases |items|
  {
    var first := parts[0];
    if |items| == 1 {
      assert SpaceSeparated(parts) == first;
      assert Follows(ts, i, parts[0]);
      assert At(ts, i + |first|).kind == Whitespace;
      assert consume(ts, i) == Ok(Parsed(items[0], i + |first|));
      assert [items[0]] == items;
    } else {
      var tail := SpaceSeparated(parts[1..]);
      assert SpaceSeparated(parts) == first + [SPACE] + tail;
      FollowsSplit(ts, i, first + [SPACE], tail);
      FollowsSplit(ts, i, first, [SPACE]);
      FollowsAt(ts, i + |first|, [SPACE], 0);
      assert consume(ts, i) == Ok(Parsed(items[0], i + |first|));
      ReadsEachTail(ts, consume, parts, items);
      ReadItems(ts, i + |first| + 1, consume, parts[1..], items[1..]);
      assert [items[0]] + items[1..] == items;
    }
  }

  lemma EntitiesReadBack(ts: seq<Token>, es: seq<Entity>)
    requires forall n :: 0 <= n < |es| ==> WellFormedEntity(es[n])
    ensures ReadsEach(ts, ConsumeEntity, EntityParts(es), es)
  {
    forall k: nat, j: nat | k < |es| && Follows(ts, j, EntityParts(es)[k]) && At(ts, j + |EntityParts(es)[k]|).kind == Whitespace
      ensures ConsumeEntity(ts, j) == Ok(Parsed(es[k], j + |EntityParts(es)[k]|))
    {
      ReadEntity(ts, j, es[k]);
    }
  }

  lemma KeysymbolsReadBack(ts: seq<Token>, ks: seq<Keysymbol>)
    requires forall n :: 0 <= n < |ks| ==> WellFormedKeysymbol(ks[n])
    ensures ReadsEach(ts, ConsumeKeysymbol, KeysymbolParts(ks), ks)
  {
    forall k: nat, j: nat | k < |ks| && Follows(ts, j, KeysymbolParts(ks)[k]) && At(ts, j + |KeysymbolParts(ks)[k]|).kind == Whitespace
      ensures ConsumeKeysymbol(ts, j) == Ok(Parsed(ks[k], j + |KeysymbolParts(ks)[k]|))
    {
      ReadKeysymbol(ts, j, ks[k]);
    }
  }

  /** Printing a non-empty list of well-formed entities, joined by spaces, and parsing
      the line gives the same entities back. */
  lemma EntryDefinitionRoundTrip(es: seq<Entity>)
    requires |es| > 0 && forall n :: 0 <= n < |es| ==> WellFormedEntity(es[n])
    ensures ParseEntryDefinition(Join(EntityStrings(es), " ")) == Ok(es)
  {
    var ts := SpaceSeparated(EntityParts(es));
    ValuesLine(es);
    SolidLine(es);
    LexOfValues(ts);
    EntityAdvancing(ts);
    EntitiesReadBack(ts, es);
    assert ts[0..|ts|] == ts;
    ReadItems(ts, 0, ConsumeEntity, EntityParts(es), es);
  }

  /** The same for a line of keysymbols. */
  lemma KeysymbolSeqRoundTrip(ks: seq<Keysymbol>)
    requires |ks| > 0 && forall n :: 0 <= n < |ks| ==> WellFormedKeysymbol(ks[n])
    ensures ParseKeysymbolSeq(Join(KeysymbolStrings(ks), " ")) == Ok(ks)
  {
    var ts := SpaceSeparated(KeysymbolParts(ks));
    ValuesKeysymbolSeq(ks);
    SolidKeysymbolSeq(ks);
    LexOfValues(ts);
    KeysymbolAdvancing(ts);
    KeysymbolsReadBack(ts, ks);
    assert ts[0..|ts|] == ts;
    ReadItems(ts, 0, ConsumeKeysymbol, KeysymbolParts(ks), ks);
  }

  /** An empty line is not an empty entry: the lexer still emits its pending token,
      which no entity can start with (lex.rs:53-55, parse.rs:282-297). */
  lemma EmptyLineRejected()
    ensures ParseEntryDefinition("") == Err("Expected an entity here")
  {
    assert LexSophemeSequence("") == [Token(Start, "")];
  }
}
