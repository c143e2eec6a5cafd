/** The recursive-descent parser of the entry-definition format
    (plover_hatchery_lib_rs/src/defs/parse/parse.rs). A line such as
    `a.a n.ng x.(g z) i.ae!1` is a space-separated list of entities: sophemes
    `chars.phonology` and transclusions `{name}!stress`; a phonology is one keysymbol
    `symbol!stress?`, a parenthesised list of them, or nothing.

    Every `consume_*` function takes a token cursor, represented here by the token
    sequence and an index, and returns the value read together with the index after
    it, or the parse error's message (the error's rendering of the cursor position is
    not modelled). */
module Parse {
  import opened Wrappers
  import opened Text
  import opened Lex
  import opened DefItems

  /** A value read and the index of the first token after it (parse.rs:98-114). */
  datatype Parsed<T> = Parsed(value: T, end: nat)

  /** The token at `index`; past the end it is an empty whitespace token
      (parse.rs:37-42). */
  function At(ts: seq<Token>, index: nat): (t: Token)
    ensures index < |ts| ==> t == ts[index]
    ensures index >= |ts| ==> t == Token(Whitespace, "")
  {
    if index < |ts| then ts[index] else Token(Whitespace, "")
  }

  /** The cursor moved by `increment`, never below the first token (parse.rs:50-53). */
  function MovedBy(index: nat, increment: int): (r: nat)
    ensures increment >= 0 ==> r == index + increment
    ensures increment < 0 ==> r <= index && (r == 0 || r == index + increment)
  {
    if index + increment < 0 then 0 else index + increment
  }

  /** The cursor is past the last token (parse.rs:64-66). */
  predicate Done(ts: seq<Token>, index: nat) {
    index >= |ts|
  }

  predicate IsSymbolToken(t: Token, v: string) {
    t.kind == Symbol && t.value == v
  }

  /** An optional stress: no "!" gives 0 and consumes nothing; "!" alone gives 1; "!"
      followed by an identifier token reads it as an 8-bit number, and a token that is
      not one is an error (parse.rs:116-139). */
  function ConsumeStress(ts: seq<Token>, i: nat): (r: Result<Parsed<Byte>>)
    ensures !IsSymbolToken(At(ts, i), "!") ==> r == Ok(Parsed(0, i))
    ensures IsSymbolToken(At(ts, i), "!") && At(ts, i + 1).kind != Chars ==> r == Ok(Parsed(1, i + 1))
    ensures IsSymbolToken(At(ts, i), "!") && At(ts, i + 1).kind == Chars ==>
              (r.Ok? <==> ParseU8(At(ts, i + 1).value).Some?)
              && (r.Ok? ==> r.value.value as nat == ParseU8(At(ts, i + 1).value).value && r.value.end == i + 2)
    ensures r.Ok? ==> i <= r.value.end && (i <= |ts| ==> r.value.end <= |ts|)
  {
    if !IsSymbolToken(At(ts, i), "!") then Ok(Parsed(0, i))
    else
      var j := MovedBy(i, 1);
      if At(ts, j).kind == Chars then
        match ParseU8(At(ts, j).value)
        case Some(v) => Ok(Parsed(v, MovedBy(j, 1)))
        case None => Err("Expected a number here")
      else Ok(Parsed(1, j))
  }

  /** A keysymbol: an identifier token, an optional stress and an optional "?" that
      makes it optional (parse.rs:141-167). */
  function ConsumeKeysymbol(ts: seq<Token>, i: nat): (r: Result<Parsed<Keysymbol>>)
    ensures At(ts, i).kind != Chars ==> r == Err("Expected a keysymbol identifier here")
    ensures r.Ok? ==> i < |ts| && ts[i].kind == Chars && r.value.value.symbol == ts[i].value
    ensures r.Ok? ==> i < r.value.end <= |ts|
    ensures r.Ok? ==> r.value.value.baseSymbol == BaseSymbolOf(r.value.value.symbol)
  {
    if At(ts, i).kind != Chars then Err("Expected a keysymbol identifier here")
    else
      var chars := At(ts, i).value;
      match ConsumeStress(ts, MovedBy(i, 1))
      case Err(m) => Err(m)
      case Ok(st) =>
        if !IsSymbolToken(At(ts, st.end), "?") then Ok(Parsed(NewKeysymbol(chars, st.value, false), st.end))
        else Ok(Parsed(NewKeysymbol(chars, st.value, true), MovedBy(st.end, 1)))
  }

  /** Keysymbols up to a closing ")", each optionally followed by one whitespace token;
      the closing parenthesis is not consumed (parse.rs:169-183). */
  function ConsumeKeysymbolSeq(ts: seq<Token>, i: nat): (r: Result<Parsed<seq<Keysymbol>>>)
    ensures r.Ok? ==> i <= r.value.end < |ts| && IsSymbolToken(ts[r.value.end], ")")
    decreases if i <= |ts| + 2 then |ts| + 2 - i else 0
  {
    if IsSymbolToken(At(ts, i), ")") then Ok(Parsed([], i))
    else
      match ConsumeKeysymbol(ts, i)
      case Err(m) => Err(m)
      case Ok(k) =>
        var j := if At(ts, k.end).kind == Whitespace then MovedBy(k.end, 1) else k.end;
        match ConsumeKeysymbolSeq(ts, j)
        case Err(m) => Err(m)
        case Ok(rest) => Ok(Parsed([k.value] + rest.value, rest.end))
  }

  /** The spelled characters of a sopheme: an identifier token, or nothing when the
      cursor is already on the dot (parse.rs:185-198). */
  function ConsumeSophemeOrtho(ts: seq<Token>, i: nat): (r: Result<Parsed<string>>)
    ensures r.Ok? ==> i < |ts| && (ts[i].kind == Chars || IsSymbolToken(ts[i], "."))
    ensures r.Ok? && ts[i].kind == Chars ==> r.value == Parsed(ts[i].value, i + 1)
    ensures r.Ok? && ts[i].kind != Chars ==> r.value == Parsed("", i)
    ensures r.Err? <==> At(ts, i).kind != Chars && !IsSymbolToken(At(ts, i), ".")
  {
    if At(ts, i).kind == Chars then Ok(Parsed(At(ts, i).value, MovedBy(i, 1)))
    else if IsSymbolToken(At(ts, i), ".") then Ok(Parsed("", i))
    else Err("Expected a sopheme orthography here")
  }

  /** The mandatory dot (parse.rs:200-209). */
  function ConsumeSophemeDot(ts: seq<Token>, i: nat): (r: Result<Parsed<()>>)
    ensures r.Ok? <==> i < |ts| && IsSymbolToken(ts[i], ".")
    ensures r.Ok? ==> r.value.end == i + 1
  {
    if IsSymbolToken(At(ts, i), ".") then Ok(Parsed((), MovedBy(i, 1)))
    else Err("Expected a dot here")
  }

  /** A phonology: one keysymbol, "(" keysymbols ")", or nothing when the cursor is on
      whitespace (or past the end); anything else is an error (parse.rs:211-238). */
  function ConsumeSophemePhono(ts: seq<Token>, i: nat): (r: Result<Parsed<seq<Keysymbol>>>)
    ensures At(ts, i).kind == Whitespace ==> r == Ok(Parsed([], i))
    ensures At(ts, i).kind == Chars ==> r.Ok? ==> |r.value.value| == 1
    ensures r.Ok? ==> i <= r.value.end && (i <= |ts| ==> r.value.end <= |ts|)
    ensures r.Ok? && r.value.end == i ==> r.value.value == []
    ensures r.Err? ==> At(ts, i).kind == Chars || IsSymbolToken(At(ts, i), "(") || r.msg == "Expected a sopheme phonology here"
  {
    if At(ts, i).kind == Chars then
      match ConsumeKeysymbol(ts, i)
      case Err(m) => Err(m)
      case Ok(k) => Ok(Parsed([k.value], k.end))
    else if IsSymbolToken(At(ts, i), "(") then
      match ConsumeKeysymbolSeq(ts, MovedBy(i, 1))
      case Err(m) => Err(m)
      case Ok(ks) => Ok(Parsed(ks.value, MovedBy(ks.end, 1)))
    else if At(ts, i).kind == Whitespace then Ok(Parsed([], i))
    else Err("Expected a sopheme phonology here")
  }

  /** Orthography, dot, phonology (parse.rs:240-246). */
  function ConsumeSopheme(ts: seq<Token>, i: nat): (r: Result<Parsed<Sopheme>>)
    ensures r.Ok? ==> i < r.value.end <= |ts|
  {
    match ConsumeSophemeOrtho(ts, i)
    case Err(m) => Err(m)
    case Ok(o) =>
      match ConsumeSophemeDot(ts, o.end)
      case Err(m) => Err(m)
      case Ok(d) =>
        match ConsumeSophemePhono(ts, d.end)
        case Err(m) => Err(m)
        case Ok(p) => Ok(Parsed(Sopheme(o.value, p.value), p.end))
  }

  /** "{", a name, "}", then an optional stress (parse.rs:248-280). */
  function ConsumeTransclusion(ts: seq<Token>, i: nat): (r: Result<Parsed<Transclusion>>)
    ensures r.Ok? <==> (i + 2 < |ts| && IsSymbolToken(ts[i], "{") && ts[i + 1].kind == Chars && IsSymbolToken(ts[i + 2], "}")
                        && ConsumeStress(ts, i + 3).Ok?)
    ensures r.Ok? ==> r.value.value.targetVarname == ts[i + 1].value && i + 3 <= r.value.end <= |ts|
  {
    if !IsSymbolToken(At(ts, i), "{") then Err("Expected a transclusion here")
    else
      var j := MovedBy(i, 1);
      if At(ts, j).kind != Chars then Err("Expected a variable name here")
      else
        var varname := At(ts, j).value;
        var k := MovedBy(j, 1);
        if !IsSymbolToken(At(ts, k), "}") then Err("Expected a closing brace here")
        else
          match ConsumeStress(ts, MovedBy(k, 1))
          case Err(m) => Err(m)
          case Ok(st) => Ok(Parsed(Transclusion(varname, st.value), st.end))
  }

  /** A transclusion if one can be read here, otherwise a sopheme; an error only when
      neither can (parse.rs:282-297). */
  function ConsumeEntity(ts: seq<Token>, i: nat): (r: Result<Parsed<Entity>>)
    ensures ConsumeTransclusion(ts, i).Ok? ==>
              r == Ok(Parsed(TransclusionEntity(ConsumeTransclusion(ts, i).value.value), ConsumeTransclusion(ts, i).value.end))
    ensures ConsumeTransclusion(ts, i).Err? && ConsumeSopheme(ts, i).Ok? ==>
              r == Ok(Parsed(SophemeEntity(ConsumeSopheme(ts, i).value.value), ConsumeSopheme(ts, i).value.end))
    ensures r.Err? <==> ConsumeTransclusion(ts, i).Err? && ConsumeSopheme(ts, i).Err?
    ensures r.Ok? ==> i < r.value.end <= |ts|
  {
    match ConsumeTransclusion(ts, i)
    case Ok(t) => Ok(Parsed(TransclusionEntity(t.value), t.end))
    case Err(_) =>
      match ConsumeSopheme(ts, i)
      case Ok(s) => Ok(Parsed(SophemeEntity(s.value), s.end))
      case Err(_) => Err("Expected an entity here")
  }

  /** A reader of one item that always moves forward and stays within the tokens. */
  ghost predicate Advancing<T>(ts: seq<Token>, consume: (seq<Token>, nat) -> Result<Parsed<T>>) {
    forall j: nat {:trigger consume(ts, j)} :: consume(ts, j).Ok? ==> j < consume(ts, j).value.end <= |ts|
  }

  /** Items read by `consume`, each followed by the end of the tokens or by exactly one
      whitespace token (the loops of parse.rs:299-327, 333-361 and 367-396). */
  function ParseItemsFrom<T>(ts: seq<Token>, i: nat, consume: (seq<Token>, nat) -> Result<Parsed<T>>): (r: Result<seq<T>>)
    requires Advancing(ts, consume) && i <= |ts|
    ensures r.Ok? ==> |r.value| >= 1
    decreases |ts| - i
  {
    match consume(ts, i)
    case Err(m) => Err(m)
    case Ok(item) =>
      if Done(ts, item.end) then Ok([item.value])
      else if At(ts, item.end).kind == Whitespace then
        match ParseItemsFrom(ts, MovedBy(item.end, 1), consume)
        case Err(m) => Err(m)
        case Ok(rest) => Ok([item.value] + rest)
      else Err("Expected whitespace here")
  }

  /** No tokens give no items; otherwise items are read from the first token. */
  function ParseItems<T>(ts: seq<Token>, consume: (seq<Token>, nat) -> Result<Parsed<T>>): (r: Result<seq<T>>)
    requires Advancing(ts, consume)
    ensures |ts| == 0 <==> r == Ok([])
  {
    if Done(ts, 0) then Ok([]) else ParseItemsFrom(ts, 0, consume)
  }

  lemma EntityAdvancing(ts: seq<Token>)
    ensures Advancing(ts, ConsumeEntity)
  {
  }

  lemma SophemeAdvancing(ts: seq<Token>)
    ensures Advancing(ts, ConsumeSopheme)
  {
  }

  lemma KeysymbolAdvancing(ts: seq<Token>)
    ensures Advancing(ts, ConsumeKeysymbol)
  {
  }

  /** `parse_line` (parse.rs:299-327). */
  function ParseLine(ts: seq<Token>): (r: Result<seq<Entity>>)
    ensures |ts| == 0 <==> r == Ok([])
  {
    EntityAdvancing(ts);
    ParseItems(ts, ConsumeEntity)
  }

  /** A line of entities (parse.rs:329-331). */
  function ParseEntryDefinition(s: string): (r: Result<seq<Entity>>)
    ensures r != Ok([])
  {
    ParseLine(LexSophemeSequence(s))
  }

  /** A line of sophemes only (parse.rs:333-365). */
  function ParseSophemeSeq(s: string): (r: Result<seq<Sopheme>>)
    ensures r != Ok([])
  {
    var ts := LexSophemeSequence(s);
    SophemeAdvancing(ts);
    ParseItems(ts, ConsumeSopheme)
  }

  /** A line of keysymbols only (parse.rs:367-396). */
  function ParseKeysymbolSeq(s: string): (r: Result<seq<Keysymbol>>)
    ensures r != Ok([])
  {
    var ts := LexSophemeSequence(s);
    KeysymbolAdvancing(ts);
    ParseItems(ts, ConsumeKeysymbol)
  }

  /** The loop of parse.rs:169-183, rebinding the cursor after every keysymbol. */
  method ConsumeKeysymbolSeqLoop(ts: seq<Token>, start: nat) returns (r: Result<Parsed<seq<Keysymbol>>>)
    ensures r == ConsumeKeysymbolSeq(ts, start)
  {
    var cursor := start;
    var keysymbols: seq<Keysymbol> := [];
    ghost var whole := ConsumeKeysymbolSeq(ts, start);
    assert whole.Ok? ==> keysymbols + whole.value.value == whole.value.value;
    while !IsSymbolToken(At(ts, cursor), ")")
      invariant ConsumeKeysymbolSeq(ts, start).Ok? <==> ConsumeKeysymbolSeq(ts, cursor).Ok?
      invariant ConsumeKeysymbolSeq(ts, start).Err? ==> ConsumeKeysymbolSeq(ts, start) == ConsumeKeysymbolSeq(ts, cursor)
      invariant ConsumeKeysymbolSeq(ts, start).Ok? ==>
                  ConsumeKeysymbolSeq(ts, start).value == Parsed(keysymbols + ConsumeKeysymbolSeq(ts, cursor).value.value, ConsumeKeysymbolSeq(ts, cursor).value.end)
      decreases if cursor <= |ts| + 2 then |ts| + 2 - cursor else 0
    {
      var k := ConsumeKeysymbol(ts, cursor);
      if k.Err? {
        return Err(k.msg);
      }
      keysymbols := keysymbols + [k.value.value];
      var next := k.value.end;
      if At(ts, next).kind == Whitespace {
        next := MovedBy(next, 1);
      }
      ghost var rest := ConsumeKeysymbolSeq(ts, next);
      assert rest.Ok? ==> ConsumeKeysymbolSeq(ts, cursor) == Ok(Parsed([k.value.value] + rest.value.value, rest.value.end));
      AppendAssoc(keysymbols[..|keysymbols| - 1], [k.value.value], if rest.Ok? then rest.value.value else []);
      assert keysymbols[..|keysymbols| - 1] + [k.value.value] == keysymbols;
      cursor := next;
    }
    r := Ok(Parsed(keysymbols, cursor));
    assert keysymbols + [] == keysymbols;
  }

  /** The loop of `parse_line` and its two twins (parse.rs:299-327), pushing each item
      read and stepping over one whitespace token. */
  method ParseItemsLoop<T>(ts: seq<Token>, consume: (seq<Token>, nat) -> Result<Parsed<T>>) returns (r: Result<seq<T>>)
    requires Advancing(ts, consume)
    ensures r == ParseItems(ts, consume)
  {
    var cursor := 0;
    var items: seq<T> := [];
    if Done(ts, cursor) {
      return Ok(items);
    }
    while true
      invariant cursor <= |ts|
      invariant ParseItems(ts, consume).Ok? <==> ParseItemsFrom(ts, cursor, consume).Ok?
      invariant ParseItems(ts, consume).Err? ==> ParseItems(ts, consume) == ParseItemsFrom(ts, cursor, consume)
      invariant ParseItems(ts, consume).Ok? ==> ParseItems(ts, consume).value == items + ParseItemsFrom(ts, cursor, consume).value
      decreases |ts| - cursor
    {
      var item := consume(ts, cursor);
      if item.Err? {
        return Err(item.msg);
      }
      items := items + [item.value.value];
      cursor := item.value.end;
      if Done(ts, cursor) {
        assert items[..|items| - 1] + [item.value.value] == items;
        return Ok(items);
      }
      if At(ts, cursor).kind == Whitespace {
        ghost var rest := ParseItemsFrom(ts, cursor + 1, consume);
        AppendAssoc(items[..|items| - 1], [item.value.value], if rest.Ok? then rest.value else []);
        assert items[..|items| - 1] + [item.value.value] == items;
        cursor := MovedBy(cursor, 1);
      } else {
        return Err("Expected whitespace here");
      }
    }
  }
}
