/** The Python keysymbol (plover_hatchery/lib/sopheme/Keysymbol.py): a phoneme symbol
    with an integer stress and an optional flag, its printed form, its vowel class, the
    reader of space-separated Unilex transcriptions and stress normalisation. */
module KeysymbolPy {
  import opened Wrappers
  import opened Text
  import DefItems

  datatype PyKeysymbol = PyKeysymbol(symbol: string, stress: int, optional: bool)

  /** The symbol, then "!" and the stress when it is positive, then "?" when optional
      (Keysymbol.py:68-75). */
  function KeysymbolText(k: PyKeysymbol): (r: string)
    ensures |r| >= |k.symbol| && r[..|k.symbol|] == k.symbol
    ensures k.stress <= 0 ==> r == k.symbol + (if k.optional then "?" else "")
    ensures k.stress > 0 ==>
              |r| == |k.symbol| + 1 + |DecimalString(k.stress)| + (if k.optional then 1 else 0)
              && r[|k.symbol|] == '!' && r[|k.symbol| + 1..|r| - (if k.optional then 1 else 0)] == DecimalString(k.stress)
    ensures k.optional <==> |r| > |k.symbol| && r[|r| - 1] == '?'
  {
    var marker := if k.stress > 0 then "!" + DecimalString(k.stress) else "";
    var r := k.symbol + marker + (if k.optional then "?" else "");
    assert r[|k.symbol|..|k.symbol| + |marker|] == marker;
    r
  }

  /** The symbol lower-cased, without brackets and digits (Keysymbol.py:52, 87-90). */
  function BaseSymbol(k: PyKeysymbol): (r: string)
    ensures forall i :: 0 <= i < |r| ==> !DefItems.IsBaseSymbolNoise(r[i]) && !('A' <= r[i] <= 'Z')
  {
    var lowered := Lower(k.symbol);
    var r := DefItems.BaseSymbolOf(lowered);
    assert forall i :: 0 <= i < |r| ==> r[i] in lowered;
    r
  }

  /** On a symbol without capitals this is the Rust base symbol. */
  lemma BaseSymbolAgrees(k: PyKeysymbol)
    requires forall i :: 0 <= i < |k.symbol| ==> !('A' <= k.symbol[i] <= 'Z')
    ensures BaseSymbol(k) == DefItems.BaseSymbolOf(k.symbol)
  {
    assert Lower(k.symbol) == k.symbol;
  }

  /** A vowel has its base symbol in the vowel list, which is the same list as the
      Rust one (Keysymbol.py:7-50, 79-81). */
  predicate IsVowel(k: PyKeysymbol) {
    BaseSymbol(k) in DefItems.VOWELS
  }

  /** Keysymbol.py:83-85. */
  predicate IsConsonant(k: PyKeysymbol) {
    BaseSymbol(k) !in DefItems.VOWELS
  }

  lemma VowelConsonantComplement(k: PyKeysymbol)
    ensures IsConsonant(k) <==> !IsVowel(k)
  {
  }

  /** Characters that make a transcription item non-phonetic (Keysymbol.py:54). */
  const NONPHONETIC: string := "*~-.<>{}#=$"

  /** The stress markers and the stress each one gives (Keysymbol.py:55-59). */
  function MarkerStress(item: string): (r: Option<nat>)
    ensures r.Some? ==> 1 <= r.value <= 3 && |item| == 1 && item[0] in NONPHONETIC
  {
    if item == "*" then Some(1)
    else if item == "~" then Some(2)
    else if item == "-" then Some(3)
    else None
  }

  predicate IsPhonetic(item: string) {
    forall i :: 0 <= i < |item| ==> item[i] !in NONPHONETIC
  }

  /** An item kept as a keysymbol: non-empty and phonetic. */
  predicate Kept(item: string) {
    |item| > 0 && IsPhonetic(item)
  }

  /** "[...]" marks an optional keysymbol (Keysymbol.py:105). */
  predicate IsBracketed(item: string) {
    |item| > 0 && item[0] == '[' && item[|item| - 1] == ']'
  }

  /** The item with every bracket removed (Keysymbol.py:53, 106). */
  function StripBrackets(item: string): (r: string)
    ensures |r| <= |item|
    ensures forall i :: 0 <= i < |r| ==> r[i] != '[' && r[i] != ']'
    ensures (forall i :: 0 <= i < |item| ==> item[i] != '[' && item[i] != ']') ==> r == item
    decreases |item|
  {
    if |item| == 0 then ""
    else if item[0] == '[' || item[0] == ']' then StripBrackets(item[1..])
    else [item[0]] + StripBrackets(item[1..])
  }

  /** The keysymbols read from the remaining items, with `nextStress` the stress waiting
      for the next kept item (the loop of Keysymbol.py:97-108). */
  function ParseItems(items: seq<string>, nextStress: nat): (r: seq<PyKeysymbol>)
    decreases |items|
  {
    if |items| == 0 then []
    else
      var item := items[0];
      if |item| == 0 then ParseItems(items[1..], nextStress)
      else
        var stress := if MarkerStress(item).Some? then MarkerStress(item).value else nextStress;
        if !IsPhonetic(item) then ParseItems(items[1..], stress)
        else [PyKeysymbol(StripBrackets(item), stress, IsBracketed(item))] + ParseItems(items[1..], 0)
  }

  /** `Keysymbol.parse_seq` (Keysymbol.py:93-110). */
  function ParseSeq(transcription: string): (r: seq<PyKeysymbol>) {
    ParseItems(Split(transcription, ' '), 0)
  }

  /** The stress left waiting after a run of items none of which is kept: the last
      marker's, or the one before the run when there is no marker. */
  function PendingStress(dropped: seq<string>, before: nat): (r: nat)
    ensures r == before || exists i :: 0 <= i < |dropped| && MarkerStress(dropped[i]) == Some(r)
    decreases |dropped|
  {
    if |dropped| == 0 then before
    else
      var last := dropped[|dropped| - 1];
      if MarkerStress(last).Some? then MarkerStress(last).value
      else PendingStress(dropped[..|dropped| - 1], before)
  }

  /** A kept item becomes a keysymbol stressed by the last marker since the previous
      kept item, its brackets removed, optional when it was bracketed; the stress then
      resets to 0. */
  lemma {:induction false} ParseItemsKept(dropped: seq<string>, item: string, rest: seq<string>, before: nat)
    requires forall i :: 0 <= i < |dropped| ==> !Kept(dropped[i])
    requires Kept(item)
    ensures ParseItems(dropped + [item] + rest, before)
         == [PyKeysymbol(StripBrackets(item), PendingStress(dropped, before), IsBracketed(item))] + ParseItems(rest, 0)
    decreases |dropped|
  {
    if |dropped| == 0 {
      assert dropped + [item] + rest == [item] + rest;
      assert MarkerStress(item).None?;
    } else {
      var d := dropped[0];
      var next := if |d| == 0 then before else if MarkerStress(d).Some? then MarkerStress(d).value else before;
      assert (dropped + [item] + rest)[1..] == dropped[1..] + [item] + rest;
      ParseItemsKept(dropped[1..], item, rest, next);
      PendingStressFront(dropped, before);
    }
  }

  /** The pending stress seen from the front of the run. */
  lemma {:induction false} PendingStressFront(dropped: seq<string>, before: nat)
    requires |dropped| > 0
    ensures PendingStress(dropped, before)
         == PendingStress(dropped[1..], if |dropped[0]| > 0 && MarkerStress(dropped[0]).Some? then MarkerStress(dropped[0]).value else before)
    decreases |dropped|
  {
    if |dropped| > 1 {
      var last := dropped[|dropped| - 1];
      assert dropped[1..][..|dropped[1..]| - 1] == dropped[..|dropped| - 1][1..];
      if MarkerStress(last).None? {
        PendingStressFront(dropped[..|dropped| - 1], before);
      }
    }
  }

  /** The stresses read are 0 or a marker's value, and no keysymbol keeps a
      non-phonetic character or a bracket. */
  lemma {:induction false} ParseItemsProps(items: seq<string>, nextStress: nat)
    requires nextStress <= 3
    ensures forall k :: 0 <= k < |ParseItems(items, nextStress)| ==>
              var ks := ParseItems(items, nextStress)[k];
              0 <= ks.stress <= 3 && IsPhonetic(ks.symbol)
              && forall i :: 0 <= i < |ks.symbol| ==> ks.symbol[i] != '[' && ks.symbol[i] != ']'
    decreases |items|
  {
    if |items| > 0 {
      var item := items[0];
      var stress := if MarkerStress(item).Some? then MarkerStress(item).value else nextStress;
      ParseItemsProps(items[1..], if |item| == 0 then nextStress else if IsPhonetic(item) then 0 else stress);
      if |item| > 0 && IsPhonetic(item) {
        StripBracketsPhonetic(item);
      }
    }
  }

  lemma {:induction false} StripBracketsPhonetic(item: string)
    requires IsPhonetic(item)
    ensures IsPhonetic(StripBrackets(item))
    decreases |item|
  {
    if |item| > 0 {
      StripBracketsPhonetic(item[1..]);
    }
  }

  /** The loop of `parse_seq`, with `next_stress` a local variable. */
  method ParseSeqLoop(transcription: string) returns (keysymbols: seq<PyKeysymbol>)
    ensures keysymbols == ParseSeq(transcription)
  {
    var items := Split(transcription, ' ');
    keysymbols := [];
    var nextStress: nat := 0;
    for i := 0 to |items|
      invariant keysymbols + ParseItems(items[i..], nextStress) == ParseSeq(transcription)
    {
      var item := items[i];
      assert items[i..][1..] == items[i + 1..];
      if |item| == 0 {
        continue;
      }
      if MarkerStress(item).Some? {
        nextStress := MarkerStress(item).value;
      }
      if !IsPhonetic(item) {
        continue;
      }
      var optional := IsBracketed(item);
      AppendAssoc(keysymbols, [PyKeysymbol(StripBrackets(item), nextStress, optional)], ParseItems(items[i + 1..], 0));
      keysymbols := keysymbols + [PyKeysymbol(StripBrackets(item), nextStress, optional)];
      nextStress := 0;
    }
    assert items[|items|..] == [];
  }

  /** The smallest non-zero value seen, with `acc` the one found so far (0: none). */
  function MinNonzeroFrom(values: seq<int>, acc: int): (r: int)
    decreases |values|
  {
    if |values| == 0 then acc
    else
      var v := values[0];
      var next := if v == 0 then acc else if acc == 0 || v < acc then v else acc;
      MinNonzeroFrom(values[1..], next)
  }

  /** `max_stress_value`: the strongest stress, which is the smallest non-zero number,
      or 0 when every stress is 0 (Keysymbol.py:112-121). */
  function MaxStressValue(values: seq<int>): (r: int) {
    MinNonzeroFrom(values, 0)
  }

  lemma {:induction false} MinNonzeroFromProps(values: seq<int>, acc: int)
    ensures MinNonzeroFrom(values, acc) == 0 <==> acc == 0 && forall i :: 0 <= i < |values| ==> values[i] == 0
    ensures MinNonzeroFrom(values, acc) != 0 ==>
              (MinNonzeroFrom(values, acc) == acc || MinNonzeroFrom(values, acc) in values)
              && (acc != 0 ==> MinNonzeroFrom(values, acc) <= acc)
              && forall i :: 0 <= i < |values| && values[i] != 0 ==> MinNonzeroFrom(values, acc) <= values[i]
    decreases |values|
  {
    if |values| > 0 {
      var v := values[0];
      var next := if v == 0 then acc else if acc == 0 || v < acc then v else acc;
      MinNonzeroFromProps(values[1..], next);
      assert forall i :: 1 <= i < |values| ==> values[i] == values[1..][i - 1];
    }
  }

  /** The result is 0 exactly when every stress is 0; otherwise it is one of the
      stresses and no non-zero stress is smaller. */
  lemma MaxStressValueProps(values: seq<int>)
    ensures MaxStressValue(values) == 0 <==> forall i :: 0 <= i < |values| ==> values[i] == 0
    ensures MaxStressValue(values) != 0 ==>
              MaxStressValue(values) in values
              && forall i :: 0 <= i < |values| && values[i] != 0 ==> MaxStressValue(values) <= values[i]
  {
    MinNonzeroFromProps(values, 0);
  }

  /** The loop of `max_stress_value`. */
  method MaxStressValueLoop(values: seq<int>) returns (maxStress: int)
    ensures maxStress == MaxStressValue(values)
  {
    maxStress := 0;
    for i := 0 to |values|
      invariant MinNonzeroFrom(values[i..], maxStress) == MaxStressValue(values)
    {
      assert values[i..][1..] == values[i + 1..];
      var stress := values[i];
      if stress == 0 {
        continue;
      }
      if maxStress == 0 || stress < maxStress {
        maxStress := stress;
      }
    }
  }

  function Stresses(ks: seq<PyKeysymbol>): (r: seq<int>)
    ensures |r| == |ks| && forall i :: 0 <= i < |ks| ==> r[i] == ks[i].stress
  {
    seq(|ks|, i requires 0 <= i < |ks| => ks[i].stress)
  }

  /** A zero stress stays; any other stress s becomes s - m + 1 (Keysymbol.py:131-135). */
  function Shifted(k: PyKeysymbol, m: int): (r: PyKeysymbol)
    ensures r.symbol == k.symbol && r.optional == k.optional
    ensures k.stress == 0 ==> r.stress == 0
    ensures k.stress != 0 ==> r.stress - k.stress == 1 - m
  {
    if k.stress == 0 then k else k.(stress := k.stress - m + 1)
  }

  function ShiftedAll(ks: seq<PyKeysymbol>, m: int): (r: seq<PyKeysymbol>)
    ensures |r| == |ks| && forall i :: 0 <= i < |ks| ==> r[i] == Shifted(ks[i], m)
  {
    seq(|ks|, i requires 0 <= i < |ks| => Shifted(ks[i], m))
  }

  /** `normalize_stress`: shifts the stresses so that the strongest becomes 1, and
      returns the strongest stress found (Keysymbol.py:123-139). */
  function NormalizeStress(ks: seq<PyKeysymbol>): (r: (seq<PyKeysymbol>, int))
    ensures r.1 == MaxStressValue(Stresses(ks))
    ensures r.1 == 0 ==> r.0 == ks
  {
    var m := MaxStressValue(Stresses(ks));
    if m == 0 then (ks, 0) else (ShiftedAll(ks, m), m)
  }

  /** After normalising, the symbols, the flags and the unstressed keysymbols are as
      before, and the strongest stress is 1 (or 0 when nothing is stressed). */
  lemma NormalizeStressProps(ks: seq<PyKeysymbol>)
    ensures |NormalizeStress(ks).0| == |ks|
    ensures forall i :: 0 <= i < |ks| ==>
              NormalizeStress(ks).0[i].symbol == ks[i].symbol && NormalizeStress(ks).0[i].optional == ks[i].optional
              && (NormalizeStress(ks).0[i].stress == 0 <==> ks[i].stress == 0)
    ensures MaxStressValue(Stresses(NormalizeStress(ks).0)) == if NormalizeStress(ks).1 == 0 then 0 else 1
  {
    var m := MaxStressValue(Stresses(ks));
    MaxStressValueProps(Stresses(ks));
    if m != 0 {
      var out := ShiftedAll(ks, m);
      var j :| 0 <= j < |ks| && Stresses(ks)[j] == m;
      assert out[j].stress == 1;
      MaxStressValueProps(Stresses(out));
      forall i | 0 <= i < |ks|
        ensures out[i].stress == 0 <==> ks[i].stress == 0
        ensures out[i].stress != 0 ==> 1 <= out[i].stress
      {
        if ks[i].stress != 0 {
          assert Stresses(ks)[i] != 0;
        }
      }
      assert Stresses(out)[j] == 1;
    }
  }

  /** Normalising twice is normalising once. */
  lemma NormalizeStressIdempotent(ks: seq<PyKeysymbol>)
    ensures NormalizeStress(NormalizeStress(ks).0).0 == NormalizeStress(ks).0
  {
    NormalizeStressProps(ks);
    var once := NormalizeStress(ks).0;
    if NormalizeStress(ks).1 != 0 {
      assert ShiftedAll(once, 1) == once;
    }
  }

  /** The loops of `normalize_stress`. */
  method NormalizeStressLoop(ks: seq<PyKeysymbol>) returns (newKeysymbols: seq<PyKeysymbol>, maxStress: int)
    ensures (newKeysymbols, maxStress) == NormalizeStress(ks)
  {
    maxStress := MaxStressValueLoop(Stresses(ks));
    if maxStress == 0 {
      newKeysymbols := ks;
    } else {
      newKeysymbols := [];
      for i := 0 to |ks|
        invariant newKeysymbols == ShiftedAll(ks[..i], maxStress)
      {
        if ks[i].stress == 0 {
          newKeysymbols := newKeysymbols + [ks[i]];
        } else {
          newKeysymbols := newKeysymbols + [ks[i].(stress := ks[i].stress - maxStress + 1)];
        }
      }
      assert ks[..|ks|] == ks;
    }
  }
}
