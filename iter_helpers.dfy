/** Combinators that the pipeline's plugins use to build stroke generators: take the
    output of the first generator that yields anything, guard a generator by a
    predicate, emit a fixed chord, and combine predicates. A generator's output is
    modelled as the finite sequence of what it yields. */
module IterHelpers {
  import Text
  import Steno

  // ---------------------------------------------------------------------------
  // Generators

  /** The first non-empty sequence of `seqs`, or nothing when all are empty. */
  function TakeFirstNonempty<V>(seqs: seq<seq<V>>): (r: seq<V>)
    ensures r == [] || r in seqs
    decreases |seqs|
  {
    if |seqs| == 0 then []
    else if |seqs[0]| > 0 then seqs[0]
    else TakeFirstNonempty(seqs[1..])
  }

  /** `k` is the position of the first non-empty sequence of `seqs`. */
  predicate FirstNonempty<V>(seqs: seq<seq<V>>, k: nat) {
    k < |seqs| && seqs[k] != [] && forall j :: 0 <= j < k ==> seqs[j] == []
  }

  /** The output is the first non-empty input, and it is empty exactly when every
      input is. */
  lemma {:induction false} TakeFirstNonemptyIsFirst<V>(seqs: seq<seq<V>>)
    ensures TakeFirstNonempty(seqs) == [] <==> forall j :: 0 <= j < |seqs| ==> seqs[j] == []
    ensures forall k: nat :: FirstNonempty(seqs, k) ==> TakeFirstNonempty(seqs) == seqs[k]
    decreases |seqs|
  {
    if |seqs| > 0 && seqs[0] == [] {
      TakeFirstNonemptyIsFirst(seqs[1..]);
      forall k: nat | FirstNonempty(seqs, k)
        ensures TakeFirstNonempty(seqs) == seqs[k]
      {
        assert k > 0 && FirstNonempty(seqs[1..], k - 1);
      }
      if forall j :: 0 <= j < |seqs[1..]| ==> seqs[1..][j] == [] {
        forall j | 0 <= j < |seqs| ensures seqs[j] == [] {
          if j > 0 { assert seqs[j] == seqs[1..][j - 1]; }
        }
      }
    }
  }

  /** What each of `generators` yields for `key`, in order. */
  function Outputs<K, V>(generators: seq<K -> seq<V>>, key: K): (r: seq<seq<V>>)
    ensures |r| == |generators| && forall i :: 0 <= i < |r| ==> r[i] == generators[i](key)
  {
    seq(|generators|, i requires 0 <= i < |generators| => generators[i](key))
  }

  /** A generator that, for each key, yields what the first of `generators` with a
      non-empty output for that key yields. */
  function TakeFirstMatch<K(!new), V>(generators: seq<K -> seq<V>>): (r: K -> seq<V>)
    ensures forall key :: r(key) == TakeFirstNonempty(Outputs(generators, key))
  {
    key => TakeFirstNonempty(Outputs(generators, key))
  }

  /** For every key, `take_first_match` yields what the first generator with output
      yields, and nothing exactly when none of them yields anything. */
  lemma TakeFirstMatchIsFirst<K(!new), V>(generators: seq<K -> seq<V>>, key: K)
    ensures TakeFirstMatch(generators)(key) == [] <==>
      forall j :: 0 <= j < |generators| ==> generators[j](key) == []
    ensures forall k: nat ::
      (k < |generators| && generators[k](key) != [] &&
       forall j :: 0 <= j < k ==> generators[j](key) == []) ==>
      TakeFirstMatch(generators)(key) == generators[k](key)
  {
    var outs := Outputs(generators, key);
    TakeFirstNonemptyIsFirst(outs);
    forall k: nat | k < |generators| && generators[k](key) != [] &&
      (forall j :: 0 <= j < k ==> generators[j](key) == [])
      ensures TakeFirstMatch(generators)(key) == generators[k](key)
    {
      assert FirstNonempty(outs, k);
    }
  }

  /** A generator that yields what `values` yields for a key that `accepts` holds for,
      and nothing for any other key. */
  function YieldIf<K(!new), V>(accepts: K -> bool, values: K -> seq<V>): (r: K -> seq<V>)
    ensures forall key :: !accepts(key) ==> r(key) == []
    ensures forall key :: accepts(key) ==> r(key) == values(key)
  {
    key => if accepts(key) then values(key) else []
  }

  // ---------------------------------------------------------------------------
  // Whitespace-separated words (Python `str.split()` with no argument)

  /** A word: non-empty and free of whitespace. */
  predicate IsWord(w: string) {
    |w| > 0 && forall k :: 0 <= k < |w| ==> !Text.IsPySpace(w[k])
  }

  /** The length of the run of non-whitespace that starts `s`. */
  function WordLength(s: string): (n: nat)
    ensures n <= |s| && (n < |s| ==> Text.IsPySpace(s[n]))
    ensures forall k :: 0 <= k < n ==> !Text.IsPySpace(s[k])
  {
    if |s| == 0 || Text.IsPySpace(s[0]) then 0 else 1 + WordLength(s[1..])
  }

  /** The maximal runs of non-whitespace of `s`, in order. */
  function Words(s: string): (r: seq<string>)
    decreases |s|
  {
    if |s| == 0 then []
    else if Text.IsPySpace(s[0]) then Words(s[1..])
    else
      var n := WordLength(s);
      [s[..n]] + Words(s[n..])
  }

  /** Every piece `Words` returns is a word. */
  lemma {:induction false} WordsAreWords(s: string)
    ensures forall i :: 0 <= i < |Words(s)| ==> IsWord(Words(s)[i])
    decreases |s|
  {
    if |s| == 0 {
    } else if Text.IsPySpace(s[0]) {
      WordsAreWords(s[1..]);
    } else {
      var n := WordLength(s);
      WordsAreWords(s[n..]);
      assert IsWord(s[..n]);
    }
  }

  /** A word followed by whitespace and more text splits into the word and the
      words of the rest. */
  lemma WordsOfWordThenSpace(w: string, rest: string)
    requires IsWord(w)
    ensures Words(w + " " + rest) == [w] + Words(rest)
  {
    var s := w + " " + rest;
    var n := WordLength(s);
    assert s[|w|] == ' ';
    assert forall k :: 0 <= k < |w| ==> s[k] == w[k];
    assert n == |w|;
    assert s[..n] == w;
    assert s[n..][1..] == rest;
  }

  /** A single word splits into itself. */
  lemma WordsOfWord(w: string)
    requires IsWord(w)
    ensures Words(w) == [w]
  {
    assert WordLength(w) == |w|;
    assert w[..|w|] == w && w[|w|..] == [];
  }

  /** Words joined by single spaces split back into the same words. */
  lemma {:induction false} WordsOfJoin(ws: seq<string>)
    requires forall i :: 0 <= i < |ws| ==> IsWord(ws[i])
    ensures Words(Text.Join(ws, " ")) == ws
    decreases |ws|
  {
    if |ws| == 1 {
      WordsOfWord(ws[0]);
    } else if |ws| > 1 {
      Text.JoinAppend([ws[0]], ws[1..], " ");
      assert [ws[0]] + ws[1..] == ws;
      WordsOfJoin(ws[1..]);
      WordsOfWordThenSpace(ws[0], Text.Join(ws[1..], " "));
    }
  }

  // ---------------------------------------------------------------------------
  // Chords

  /** A generator that ignores its key and always yields the strokes written in
      `stenos`, separated by whitespace; `fromSteno` parses one stroke. */
  function Chords<K(!new)>(fromSteno: string -> Steno.Stroke, stenos: string): (r: K -> seq<Steno.Stroke>)
    ensures forall a: K, b: K :: r(a) == r(b)
    ensures forall key: K :: |r(key)| == |Words(stenos)|
    ensures forall key: K, i :: 0 <= i < |Words(stenos)| ==> r(key)[i] == fromSteno(Words(stenos)[i])
  {
    var ws := Words(stenos);
    var strokes := seq(|ws|, i requires 0 <= i < |ws| => fromSteno(ws[i]));
    _ => strokes
  }

  /** Writing the strokes of an outline with single spaces between them gives a
      chord generator that yields exactly that outline. */
  lemma ChordsOfJoin<K(!new)>(fromSteno: string -> Steno.Stroke, stenos: seq<string>, key: K)
    requires forall i :: 0 <= i < |stenos| ==> IsWord(stenos[i])
    ensures |Chords<K>(fromSteno, Text.Join(stenos, " "))(key)| == |stenos|
    ensures forall i :: 0 <= i < |stenos| ==>
      Chords<K>(fromSteno, Text.Join(stenos, " "))(key)[i] == fromSteno(stenos[i])
  {
    WordsOfJoin(stenos);
  }

  // ---------------------------------------------------------------------------
  // Predicates

  /** Holds for a key that every one of `predicates` accepts. */
  function IfAll<K(!new)>(predicates: seq<K -> bool>): (r: K -> bool)
    ensures forall key :: r(key) <==> forall i :: 0 <= i < |predicates| ==> predicates[i](key)
  {
    key => forall i :: 0 <= i < |predicates| ==> predicates[i](key)
  }

  /** Holds for a key that at least one of `predicates` accepts. */
  function IfAny<K(!new)>(predicates: seq<K -> bool>): (r: K -> bool)
    ensures forall key :: r(key) <==> exists i :: 0 <= i < |predicates| && predicates[i](key)
  {
    key => exists i :: 0 <= i < |predicates| && predicates[i](key)
  }

  /** Holds for exactly the keys `accepts` rejects. */
  function IfNot<K(!new)>(accepts: K -> bool): (r: K -> bool)
    ensures forall key :: r(key) <==> !accepts(key)
  {
    key => !accepts(key)
  }

  /** De Morgan: not all of the predicates hold exactly when one of their negations
      does; with no predicates `if_all` accepts every key and `if_any` none. */
  lemma IfAllIfAnyDual<K(!new)>(predicates: seq<K -> bool>, key: K)
    ensures !IfAll(predicates)(key) <==>
      IfAny(seq(|predicates|, i requires 0 <= i < |predicates| => IfNot(predicates[i])))(key)
    ensures |predicates| == 0 ==> IfAll(predicates)(key) && !IfAny(predicates)(key)
  {
    var negs := seq(|predicates|, i requires 0 <= i < |predicates| => IfNot(predicates[i]));
    if !IfAll(predicates)(key) {
      var i :| 0 <= i < |predicates| && !predicates[i](key);
      assert negs[i](key);
    }
  }

  /** Filtering on a predicate and on its negation splits a generator: exactly one of the
      two yields, and it yields what the generator yields. */
  lemma YieldIfComplement<K(!new), V>(accepts: K -> bool, values: K -> seq<V>, key: K)
    ensures YieldIf(accepts, values)(key) + YieldIf(IfNot(accepts), values)(key) == values(key)
    ensures YieldIf(accepts, values)(key) == [] || YieldIf(IfNot(accepts), values)(key) == []
  {
    if accepts(key) {
      assert YieldIf(IfNot(accepts), values)(key) == [];
      assert values(key) + [] == values(key);
    } else {
      assert YieldIf(accepts, values)(key) == [];
      assert [] + values(key) == values(key);
    }
  }
}
