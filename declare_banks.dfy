/** The four key banks a theory declares (plover_hatchery/lib/pipes/declare_banks.py),
    also read by the theory service. */
module Banks {
  import opened Steno

  /** The left consonants, the vowels, the right consonants and the positionless keys. */
  datatype BankStrokes = BankStrokes(left: Stroke, mid: Stroke, right: Stroke, positionless: Stroke)

  /** `all`: every key of some bank (declare_banks.py:16-18). */
  function All(b: BankStrokes): (r: Stroke)
    ensures forall k :: k in r <==> k in b.left || k in b.mid || k in b.right || k in b.positionless
  {
    b.left + b.mid + b.right + b.positionless
  }

  /** The four parts returned by `split_stroke_parts`. */
  datatype StrokeParts = StrokeParts(leftConsonants: Stroke, vowels: Stroke, rightConsonants: Stroke, asterisk: Stroke)

  /** `split_stroke_parts`: the stroke restricted to each bank, in bank order
      (declare_banks.py:21-27). */
  function SplitStrokeParts(b: BankStrokes, stroke: Stroke): (r: StrokeParts)
    ensures r.leftConsonants <= stroke && r.vowels <= stroke && r.rightConsonants <= stroke && r.asterisk <= stroke
    ensures r.leftConsonants <= b.left && r.vowels <= b.mid && r.rightConsonants <= b.right && r.asterisk <= b.positionless
  {
    StrokeParts(stroke * b.left, stroke * b.mid, stroke * b.right, stroke * b.positionless)
  }

  /** No key lies in two banks. */
  predicate Disjoint(b: BankStrokes) {
    b.left * b.mid == {} && b.left * b.right == {} && b.left * b.positionless == {} &&
    b.mid * b.right == {} && b.mid * b.positionless == {} && b.right * b.positionless == {}
  }

  /** For a stroke within the banks, and banks that do not overlap, the parts
      partition the stroke. */
  lemma SplitStrokePartsPartitions(b: BankStrokes, stroke: Stroke)
    requires Disjoint(b) && stroke <= All(b)
    ensures var r := SplitStrokeParts(b, stroke);
            && r.leftConsonants + r.vowels + r.rightConsonants + r.asterisk == stroke
            && r.leftConsonants * r.vowels == {} && r.leftConsonants * r.rightConsonants == {}
            && r.leftConsonants * r.asterisk == {} && r.vowels * r.rightConsonants == {}
            && r.vowels * r.asterisk == {} && r.rightConsonants * r.asterisk == {}
  {
    var r := SplitStrokeParts(b, stroke);
    forall k | k in stroke
      ensures k in r.leftConsonants + r.vowels + r.rightConsonants + r.asterisk
    {
      assert k in All(b);
    }
    assert b.left * b.mid == {};
    assert forall k :: k in r.leftConsonants * r.vowels ==> k in b.left * b.mid;
    assert forall k :: k in r.leftConsonants * r.rightConsonants ==> k in b.left * b.right;
    assert forall k :: k in r.leftConsonants * r.asterisk ==> k in b.left * b.positionless;
    assert forall k :: k in r.vowels * r.rightConsonants ==> k in b.mid * b.right;
    assert forall k :: k in r.vowels * r.asterisk ==> k in b.mid * b.positionless;
    assert forall k :: k in r.rightConsonants * r.asterisk ==> k in b.right * b.positionless;
  }

  /** `can_add_stroke_on`: the key-order test with positionless keys set aside
      (declare_banks.py:30-35): every key of `src` that is not positionless comes before
      every key of `addon` that is not. */
  function CanAddStrokeOn(b: BankStrokes, src: Stroke, addon: Stroke): (r: bool)
    ensures r <==> forall x, y :: x in src && x !in b.positionless && y in addon && y !in b.positionless ==> x < y
  {
    CanAddStrokeOnIgnoringOrder(src, addon, b.positionless);
    CanAddStrokeOnIgnoring(src, addon, b.positionless)
  }
}
