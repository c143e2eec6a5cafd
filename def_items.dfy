/** The items of an entry definition and their printed forms
    (plover_hatchery_lib_rs/src/defs/def_items/): keysymbols (a phoneme symbol with a
    stress level and an optional flag), sophemes (spelled characters together with the
    keysymbols they sound as), transclusions (a reference to another entry by name)
    and the sequences of them that make up a definition. */
module DefItems {
  import opened Wrappers
  import opened Text

  /** An unsigned 8-bit number (Rust `u8`), the type of stress levels. */
  type Byte = n: nat | n < 256

  datatype Keysymbol = Keysymbol(symbol: string, baseSymbol: string, stress: Byte, optional: bool)

  /** The characters the base symbol drops: square brackets and digits. */
  predicate IsBaseSymbolNoise(c: char) {
    c == '[' || c == ']' || IsAsciiDigit(c)
  }

  /** `symbol` with every bracket and digit removed, the rest kept in order
      (keysymbol.rs:47-51). */
  function BaseSymbolOf(symbol: string): (r: string)
    ensures |r| <= |symbol|
    ensures forall i :: 0 <= i < |r| ==> !IsBaseSymbolNoise(r[i])
    ensures forall c :: c in r <==> c in symbol && !IsBaseSymbolNoise(c)
    decreases |symbol|
  {
    if |symbol| == 0 then ""
    else
      var rest := BaseSymbolOf(symbol[1..]);
      assert forall c :: c in symbol <==> c == symbol[0] || c in symbol[1..];
      if IsBaseSymbolNoise(symbol[0]) then rest else [symbol[0]] + rest
  }

  /** The base symbol distributes over concatenation. */
  lemma {:induction false} BaseSymbolOfAppend(a: string, b: string)
    ensures BaseSymbolOf(a + b) == BaseSymbolOf(a) + BaseSymbolOf(b)
    decreases |a|
  {
    if |a| == 0 {
      assert a + b == b;
    } else {
      assert (a + b)[0] == a[0] && (a + b)[1..] == a[1..] + b;
      BaseSymbolOfAppend(a[1..], b);
      if !IsBaseSymbolNoise(a[0]) {
        AppendAssoc([a[0]], BaseSymbolOf(a[1..]), BaseSymbolOf(b));
      }
    }
  }

  /** A symbol without brackets and digits is its own base symbol, so taking the base
      symbol twice changes nothing more. */
  lemma {:induction false} BaseSymbolOfClean(symbol: string)
    requires forall i :: 0 <= i < |symbol| ==> !IsBaseSymbolNoise(symbol[i])
    ensures BaseSymbolOf(symbol) == symbol
    decreases |symbol|
  {
    if |symbol| > 0 {
      BaseSymbolOfClean(symbol[1..]);
    }
  }

  lemma BaseSymbolOfIdempotent(symbol: string)
    ensures BaseSymbolOf(BaseSymbolOf(symbol)) == BaseSymbolOf(symbol)
  {
    BaseSymbolOfClean(BaseSymbolOf(symbol));
  }

  /** `Keysymbol::new`: the base symbol is derived from the symbol (keysymbol.rs:46-56). */
  function NewKeysymbol(symbol: string, stress: Byte, optional: bool): (k: Keysymbol)
    ensures k.symbol == symbol && k.stress == stress && k.optional == optional
    ensures k.baseSymbol == BaseSymbolOf(symbol) && |k.baseSymbol| <= |symbol|
  {
    Keysymbol(symbol, BaseSymbolOf(symbol), stress, optional)
  }

  /** Nothing for stress 0, otherwise "!" and the stress in decimal (keysymbol.rs:20-26). */
  function StressMarker(stress: Byte): (r: string)
    ensures stress == 0 <==> r == ""
    ensures stress > 0 ==> r[0] == '!' && AllDigits(r[1..]) && ParseU8(r[1..]) == Some(stress as nat)
  {
    if stress <= 0 then ""
    else
      ParseU8Decimal(stress);
      "!" + DecimalString(stress)
  }

  /** The printed keysymbol: its symbol, its stress marker and "?" when it is optional
      (keysymbol.rs:30-40). */
  function KeysymbolString(k: Keysymbol): (r: string)
    ensures |r| >= |k.symbol| && r[..|k.symbol|] == k.symbol
    ensures k.optional <==> |r| > |k.symbol| && r[|r| - 1] == '?'
  {
    k.symbol + StressMarker(k.stress) + (if k.optional then "?" else "")
  }

  /** The unit tests of keysymbol.rs:215-237. */
  lemma KeysymbolStringExamples()
    ensures KeysymbolString(NewKeysymbol("a", 0, false)) == "a"
    ensures KeysymbolString(NewKeysymbol("ee", 1, false)) == "ee!1"
    ensures KeysymbolString(NewKeysymbol("@@r", 0, true)) == "@@r?"
    ensures KeysymbolString(NewKeysymbol("i", 3, true)) == "i!3?"
  {
    assert DecimalString(1) == "1";
    assert DecimalString(3) == "3";
  }

  /** The base symbols counted as vowels (keysymbol.rs:90-134). */
  const VOWELS: set<string> := {
    "e", "ao", "a", "ah", "oa", "aa", "ar", "eh", "ou", "ouw", "oou", "o", "au", "oo",
    "or", "our", "ii", "iy", "i", "@r", "@", "uh", "u", "uu", "iu", "ei", "ee", "ai",
    "ae", "aer", "aai", "oi", "oir", "ow", "owr", "oow", "ir", "@@r", "er", "eir", "ur",
    "i@"
  }

  /** A vowel is a keysymbol whose base symbol is listed (keysymbol.rs:88-139). */
  predicate IsVowel(k: Keysymbol) {
    k.baseSymbol in VOWELS
  }

  /** Every keysymbol that is not a vowel is a consonant (keysymbol.rs:141-144). */
  predicate IsConsonant(k: Keysymbol) {
    !IsVowel(k)
  }

  /** Bracketing a symbol or adding a digit to it leaves its base symbol, and so whether
      it is a vowel, unchanged. */
  lemma BaseSymbolIgnoresDecoration(symbol: string)
    ensures BaseSymbolOf("[" + symbol + "]") == BaseSymbolOf(symbol)
    ensures BaseSymbolOf(symbol + "1") == BaseSymbolOf(symbol)
  {
    BaseSymbolOfAppend("[" + symbol, "]");
    BaseSymbolOfAppend("[", symbol);
    BaseSymbolOfAppend(symbol, "1");
    assert BaseSymbolOf("[") == "" && BaseSymbolOf("]") == "" && BaseSymbolOf("1") == "";
  }

  /** Alternative keysymbol spellings: one keysymbol, a sequence of them, or a choice
      between alternatives (keysymbol.rs:167-173). */
  datatype KeysymbolOptions =
    | Leaf(keysymbol: Keysymbol)
    | Leaves(keysymbols: seq<Keysymbol>)
    | Options(options: seq<KeysymbolOptions>)

  /** Only sequences and choices of more than one element are parenthesised
      (keysymbol.rs:198-206). */
  predicate NeedsGrouping(o: KeysymbolOptions) {
    match o
    case Leaf(_) => false
    case Leaves(ks) => |ks| > 1
    case Options(os) => |os| > 1
  }

  function KeysymbolStrings(ks: seq<Keysymbol>): (r: seq<string>)
    ensures |r| == |ks| && forall i :: 0 <= i < |ks| ==> r[i] == KeysymbolString(ks[i])
  {
    seq(|ks|, i requires 0 <= i < |ks| => KeysymbolString(ks[i]))
  }

  /** Sequences are joined with " ", choices with " | ", and the result is parenthesised
      when it needs grouping (keysymbol.rs:176-196). */
  function OptionsString(o: KeysymbolOptions): (r: string)
    ensures NeedsGrouping(o) ==> |r| >= 2 && r[0] == '(' && r[|r| - 1] == ')'
    decreases o, 1
  {
    var out := match o
      case Leaf(k) => KeysymbolString(k)
      case Leaves(ks) => Join(KeysymbolStrings(ks), " ")
      case Options(os) => Join(OptionStrings(os), " | ");
    if NeedsGrouping(o) then "(" + out + ")" else out
  }

  function OptionStrings(os: seq<KeysymbolOptions>): (r: seq<string>)
    ensures |r| == |os|
    decreases os, 0
  {
    if |os| == 0 then [] else [OptionsString(os[0])] + OptionStrings(os[1..])
  }

  /** A sequence or choice of one element prints exactly as that element, and an empty
      one prints as nothing. */
  lemma OptionsSingletons(k: Keysymbol, o: KeysymbolOptions)
    ensures OptionsString(Leaves([k])) == OptionsString(Leaf(k))
    ensures OptionsString(Options([o])) == OptionsString(o)
    ensures OptionsString(Leaves([])) == "" && OptionsString(Options([])) == ""
  {
    assert OptionStrings([o]) == [OptionsString(o)];
  }

  /** Spelled characters together with the keysymbols they sound as
      (sopheme.rs:6-10). */
  datatype Sopheme = Sopheme(chars: string, keysymbols: seq<Keysymbol>)

  /** `all` over the keysymbols (sopheme.rs:24-28). */
  function AllOptional(ks: seq<Keysymbol>): (b: bool)
    ensures b <==> forall i :: 0 <= i < |ks| ==> ks[i].optional
    decreases |ks|
  {
    |ks| == 0 || (ks[0].optional && AllOptional(ks[1..]))
  }

  /** A sopheme can be silent when every keysymbol is optional; one with no keysymbols
      always can (sopheme.rs:24-28). */
  function CanBeSilent(s: Sopheme): (b: bool)
    ensures b <==> forall i :: 0 <= i < |s.keysymbols| ==> s.keysymbols[i].optional
    ensures |s.keysymbols| == 0 ==> b
  {
    AllOptional(s.keysymbols)
  }

  /** The printed sopheme: its characters, ".", then its keysymbols joined by spaces and
      parenthesised when there is more than one (sopheme.rs:30-41). */
  function SophemeString(s: Sopheme): (r: string)
    ensures |r| > |s.chars| && r[..|s.chars|] == s.chars && r[|s.chars|] == '.'
    ensures |s.keysymbols| > 1 ==> |r| >= |s.chars| + 3 && r[|s.chars| + 1] == '(' && r[|r| - 1] == ')'
    ensures |s.keysymbols| == 0 ==> r == s.chars + "."
  {
    var inner := Join(KeysymbolStrings(s.keysymbols), " ");
    var phono := if |s.keysymbols| > 1 then "(" + inner + ")" else inner;
    var r := s.chars + "." + phono;
    assert r[|s.chars| + 1..] == phono;
    r
  }

  /** The keysymbol at `index`, if there is one (sopheme.rs:49-53). */
  function SophemeGet(s: Sopheme, index: nat): (r: Option<Keysymbol>)
    ensures r.Some? <==> index < |s.keysymbols|
    ensures r.Some? ==> r.value == s.keysymbols[index] && r.value in s.keysymbols
  {
    if index < |s.keysymbols| then Some(s.keysymbols[index]) else None
  }

  /** A reference to another entry by name, with a stress level (transclusion.rs:4-8). */
  datatype Transclusion = Transclusion(targetVarname: string, stress: Byte)

  /** "{", the name, "}", then the stress marker (transclusion.rs:11-21). */
  function TransclusionString(t: Transclusion): (r: string)
    ensures |r| >= |t.targetVarname| + 2
    ensures r[0] == '{' && r[1..|t.targetVarname| + 1] == t.targetVarname && r[|t.targetVarname| + 1] == '}'
    ensures t.stress == 0 <==> |r| == |t.targetVarname| + 2
    ensures t.stress > 0 ==> r[|t.targetVarname| + 2..] == StressMarker(t.stress)
  {
    var out := "{" + t.targetVarname + "}";
    if t.stress > 0 then out + StressMarker(t.stress) else out
  }

  /** The test of def.rs:66-74 relies on this form. */
  lemma TransclusionStringExamples()
    ensures TransclusionString(Transclusion("amphi", 1)) == "{amphi}!1"
    ensures TransclusionString(Transclusion("vern", 0)) == "{vern}"
    ensures EntityString(TransclusionEntity(Transclusion("amphi", 1))) == "{amphi}!1"
    ensures EntityString(TransclusionEntity(Transclusion("vern", 2))) == "{vern}!2"
  {
    assert DecimalString(1) == "1" && DecimalString(2) == "2";
  }

  /** An item of a definition (entity.rs:10-15). */
  datatype Entity = SophemeEntity(sopheme: Sopheme) | TransclusionEntity(transclusion: Transclusion)

  /** Some exactly for a sopheme (entity.rs:19-25). */
  function MaybeSopheme(e: Entity): (r: Option<Sopheme>)
    ensures r.Some? <==> e.SophemeEntity?
    ensures r.Some? ==> e == SophemeEntity(r.value)
  {
    match e
    case SophemeEntity(s) => Some(s)
    case _ => None
  }

  /** Some exactly for a transclusion (entity.rs:27-33). */
  function MaybeTransclusion(e: Entity): (r: Option<Transclusion>)
    ensures r.Some? <==> e.TransclusionEntity?
    ensures r.Some? ==> e == TransclusionEntity(r.value)
  {
    match e
    case TransclusionEntity(t) => Some(t)
    case _ => None
  }

  /** The borrowing accessor of entity.rs:45-53, which agrees with `MaybeSopheme`. */
  function GetIfSopheme(e: Entity): (r: Option<Sopheme>)
    ensures r == MaybeSopheme(e)
    ensures r.None? <==> MaybeTransclusion(e).Some?
  {
    match e
    case SophemeEntity(s) => Some(s)
    case TransclusionEntity(_) => None
  }

  /** Each entity prints as the item it holds (entity.rs:55-61). */
  function EntityString(e: Entity): (r: string)
    ensures |r| > 0 && (e.TransclusionEntity? ==> r[0] == '{')
  {
    match e
    case SophemeEntity(s) => SophemeString(s)
    case TransclusionEntity(t) => TransclusionString(t)
  }

  function EntityStrings(es: seq<Entity>): (r: seq<string>)
    ensures |r| == |es| && forall i :: 0 <= i < |es| ==> r[i] == EntityString(es[i])
  {
    seq(|es|, i requires 0 <= i < |es| => EntityString(es[i]))
  }

  /** The entities of an entry (entity.rs:65-79). */
  datatype EntitySeq = EntitySeq(entities: seq<Entity>)

  /** A named list of entities (def_items/def.rs:10-14). */
  datatype Def = Def(entities: seq<Entity>, varname: string)

  /** `Def::of` and `Def::new` keep the entities in order under the name
      (def_items/def.rs:19-35). */
  function DefOf(entities: seq<Entity>, varname: string): (d: Def)
    ensures d.entities == entities && d.varname == varname
  {
    Def(entities, varname)
  }

  /** The entity at `index`, if there is one (def_items/def.rs:26-28). */
  function GetChild(d: Def, index: nat): (r: Option<Entity>)
    ensures r.Some? <==> index < |d.entities|
    ensures r.Some? ==> r.value == d.entities[index]
  {
    if index < |d.entities| then Some(d.entities[index]) else None
  }

  /** The name, " = ", then the entities joined by spaces (def_items/def.rs:37-47). */
  function DefString(d: Def): (r: string)
    ensures |r| >= |d.varname| + 3 && r[..|d.varname|] == d.varname && r[|d.varname|..|d.varname| + 3] == " = "
    ensures r[|d.varname| + 3..] == Join(EntityStrings(d.entities), " ")
  {
    var body := Join(EntityStrings(d.entities), " ");
    var r := d.varname + " = " + body;
    assert r[..|d.varname|] == d.varname;
    assert r[|d.varname|..|d.varname| + 3] == " = ";
    assert r[|d.varname| + 3..] == body;
    r
  }

  /** A definition of two entities prints both, separated by one space. */
  lemma DefStringPair(varname: string, e1: Entity, e2: Entity)
    ensures DefString(DefOf([e1, e2], varname)) == varname + " = " + EntityString(e1) + " " + EntityString(e2)
  {
    var s1, s2 := EntityString(e1), EntityString(e2);
    assert EntityStrings([e1, e2]) == [s1] + [s2];
    JoinSnoc([s1], " ", s2);
    assert Join(EntityStrings([e1, e2]), " ") == s1 + " " + s2;
  }

  /** The unit test of def_items/def.rs:66-74. */
  lemma DefStringExample(e1: Entity, e2: Entity)
    requires e1 == TransclusionEntity(Transclusion("amphi", 1)) && e2 == TransclusionEntity(Transclusion("vern", 2))
    ensures DefString(DefOf([e1, e2], "amphivern")) == "amphivern = {amphi}!1 {vern}!2"
  {
    DefStringPair("amphivern", e1, e2);
    TransclusionStringExamples();
  }
}
