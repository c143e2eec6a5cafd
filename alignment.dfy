/** The Needleman–Wunsch style aligner shared by the sopheme and morphology matchers
    (plover_hatchery/lib/alignment/alignment.py). A service supplies the costs, the
    candidate mappings and the match test; the aligner fills a matrix of cells, each
    the cheapest alignment of a prefix of x with a prefix of y, and traces back the
    matches of the cheapest full alignment. */
module Alignment {
  import opened Wrappers

  /** A matrix cell (alignment.py:28-53): its cost, where its trailing unmatched run
      begins, the sub-alignment it extends, its position, and whether it ends in a
      match (with that match's data). */
  datatype Cell<C, D> = Cell(cost: C, ux: nat, uy: nat, parent: Option<Cell<C, D>>, x: nat, y: nat,
                             hasMatch: bool, matchData: Option<D>)

  /** The hooks of an `AlignmentService` (alignment.py:55-109), after `process_input`. */
  datatype AlignmentService<!C, !D, !X, !Y, !O, !MX, !MY, M> = AlignmentService(
    initialCost: C,
    less: (C, C) -> bool,
    mismatchCost: (Cell<C, D>, bool, bool) -> C,
    candidateXKey: seq<X> -> seq<MX>,
    candidateYKey: O -> seq<MY>,
    hasMapping: seq<MX> -> bool,
    mappingOptions: seq<MX> -> seq<O>,
    ySeqLen: O -> nat,
    isMatch: (seq<Y>, seq<MY>) -> bool,
    matchCost: Cell<C, D> -> C,
    matchData: (seq<MX>, seq<MY>, seq<X>, O) -> D,
    constructMatch: (seq<X>, seq<Y>, Cell<C, D>, Cell<C, D>, Option<D>) -> M)

  /** `less` orders costs as a strict weak order, as tuples of numbers are ordered. */
  ghost predicate StrictWeakOrder<C(!new)>(less: (C, C) -> bool) {
    (forall a :: !less(a, a)) &&
    (forall a, b, c :: less(a, b) && less(b, c) ==> less(a, c)) &&
    (forall a, b, c :: !less(a, b) && !less(b, c) ==> !less(a, c))
  }

  /** Python's `min`: the first cell that no later cell undercuts (alignment.py:192, 220). */
  function MinCell<C, D>(less: (C, C) -> bool, cells: seq<Cell<C, D>>): (r: Cell<C, D>)
    requires |cells| > 0
    ensures r in cells
  {
    if |cells| == 1 then cells[0]
    else
      var m := MinCell(less, cells[..|cells| - 1]);
      if less(cells[|cells| - 1].cost, m.cost) then cells[|cells| - 1] else m
  }

  /** Under a strict weak order, no cell costs less than the minimum. */
  lemma {:induction false} MinCellIsMinimal<C(!new), D>(less: (C, C) -> bool, cells: seq<Cell<C, D>>)
    requires |cells| > 0 && StrictWeakOrder(less)
    ensures forall c :: c in cells ==> !less(c.cost, MinCell(less, cells).cost)
  {
    if |cells| > 1 {
      var init := cells[..|cells| - 1];
      MinCellIsMinimal(less, init);
      assert cells == init + [cells[|cells| - 1]];
    }
  }

  /** Python's `s[start:]`, where a negative start counts from the end. */
  function PyTail<T>(s: seq<T>, start: int): (r: seq<T>)
    ensures |r| <= |s| && r == s[|s| - |r|..]
  {
    if start >= 0 then (if start >= |s| then [] else s[start..])
    else if start + |s| < 0 then s
    else s[start + |s|..]
  }

  /** How one candidate cell is made: the position of its parent, whether it is a
      match, the length of the x run and the y option and y run it matched, and the
      match data. */
  datatype Plan<O, Y, D> = Plan(px: nat, py: nat, hasMatch: bool, xLen: nat, yOption: Option<O>, yMatched: seq<Y>, data: Option<D>)

  /** The options kept when y is not incremented: the silent ones (alignment.py:165-167). */
  function SilentOnly<C, D, X, Y, O, MX, MY, M>(svc: AlignmentService<C, D, X, Y, O, MX, MY, M>, opts: seq<O>): (r: seq<O>)
    ensures forall o :: o in r ==> o in opts && svc.ySeqLen(o) == 0
    ensures forall o :: o in opts ==> (o in r <==> svc.ySeqLen(o) == 0)
  {
    if opts == [] then []
    else (if svc.ySeqLen(opts[0]) == 0 then [opts[0]] else []) + SilentOnly(svc, opts[1..])
  }

  /** The matches of the x run `sx[i - k..i]` against each option in turn
      (alignment.py:169-190). */
  function PlansForOptions<C, D, X, Y, O, MX, MY, M>(svc: AlignmentService<C, D, X, Y, O, MX, MY, M>, sx: seq<X>, sy: seq<Y>,
                                                 i: nat, j: nat, k: nat, opts: seq<O>): (r: seq<Plan<O, Y, D>>)
    requires k <= i <= |sx| && j <= |sy|
    ensures forall p :: p in r ==> p.px <= i && p.py <= j
  {
    if opts == [] then []
    else
      var opt := opts[0];
      var yKey := svc.candidateYKey(opt);
      var actual := PyTail(sy[..j], j - |yKey|);
      var xRun := sx[i - k..i];
      var here := if svc.isMatch(actual, yKey)
                  then [Plan(i - k, j - |actual|, true, k, Some(opt), actual, Some(svc.matchData(svc.candidateXKey(xRun), yKey, xRun, opt)))]
                  else [];
      here + PlansForOptions(svc, sx, sy, i, j, k, opts[1..])
  }

  /** The matches of every x run ending at `i` of length `k` to `maxK`
      (alignment.py:154-167). */
  function PlansForXRuns<C, D, X, Y, O, MX, MY, M>(svc: AlignmentService<C, D, X, Y, O, MX, MY, M>, sx: seq<X>, sy: seq<Y>,
                                               i: nat, j: nat, incY: bool, k: nat, maxK: nat): (r: seq<Plan<O, Y, D>>)
    requires k <= maxK + 1 && maxK <= i <= |sx| && j <= |sy|
    ensures forall p :: p in r ==> p.px <= i && p.py <= j
    decreases maxK + 1 - k
  {
    if k > maxK then []
    else
      var key := svc.candidateXKey(sx[i - k..i]);
      var here := if !svc.hasMapping(key) then []
                  else PlansForOptions(svc, sx, sy, i, j, k,
                                       if incY then svc.mappingOptions(key) else SilentOnly(svc, svc.mappingOptions(key)));
      here + PlansForXRuns(svc, sx, sy, i, j, incY, k + 1, maxK)
  }

  /** The candidates of `find_match` for cell (i, j), that is x = i - 1 and y = j - 1
      (alignment.py:140-192): the mismatch first, then the matches. */
  function FindMatchPlans<C, D, X, Y, O, MX, MY, M>(svc: AlignmentService<C, D, X, Y, O, MX, MY, M>, sx: seq<X>, sy: seq<Y>,
                                                i: nat, j: nat, incX: bool, incY: bool): (r: seq<Plan<O, Y, D>>)
    requires i <= |sx| && j <= |sy| && (incX ==> i > 0) && (incY ==> j > 0)
    ensures |r| > 0 && forall t :: 0 <= t < |r| ==> r[t].px <= i && r[t].py <= j
  {
    var matches := PlansForXRuns(svc, sx, sy, i, j, incY, 0, if incX then i else 0);
    var r := [Plan(if incX then i - 1 else i, if incY then j - 1 else j, false, 0, None, [], None)] + matches;
    assert forall t :: 1 <= t < |r| ==> r[t] == matches[t - 1] && r[t] in matches;
    r
  }

  /** A match candidate of cell (i, j): the x run `sx[px..i]` has a mapping, the y run
      `sy[py..j]` is the tail of `sy[..j]` as long as the option's key and matches that
      key, and when y is not incremented the option is silent. */
  ghost predicate MatchPlanOk<C, D, X, Y, O, MX, MY, M>(svc: AlignmentService<C, D, X, Y, O, MX, MY, M>, sx: seq<X>, sy: seq<Y>,
                                                    i: nat, j: nat, incY: bool, p: Plan<O, Y, D>)
    requires i <= |sx| && j <= |sy|
  {
    p.hasMatch && p.xLen <= i && p.px == i - p.xLen &&
    svc.hasMapping(svc.candidateXKey(sx[p.px..i])) && p.yOption.Some? &&
    p.yMatched == PyTail(sy[..j], j - |svc.candidateYKey(p.yOption.value)|) &&
    p.py == j - |p.yMatched| && sy[p.py..j] == p.yMatched &&
    svc.isMatch(p.yMatched, svc.candidateYKey(p.yOption.value)) &&
    (!incY ==> svc.ySeqLen(p.yOption.value) == 0)
  }

  lemma {:induction false} PlansForOptionsOk<C, D, X, Y, O, MX, MY, M>(svc: AlignmentService<C, D, X, Y, O, MX, MY, M>, sx: seq<X>, sy: seq<Y>,
                                                                    i: nat, j: nat, incY: bool, k: nat, opts: seq<O>)
    requires k <= i <= |sx| && j <= |sy| && svc.hasMapping(svc.candidateXKey(sx[i - k..i]))
    requires !incY ==> forall o :: o in opts ==> svc.ySeqLen(o) == 0
    ensures forall p :: p in PlansForOptions(svc, sx, sy, i, j, k, opts) ==> MatchPlanOk(svc, sx, sy, i, j, incY, p) && p.xLen == k
    decreases |opts|
  {
    if opts != [] {
      PlansForOptionsOk(svc, sx, sy, i, j, incY, k, opts[1..]);
    }
  }

  lemma {:induction false} PlansForXRunsOk<C, D, X, Y, O, MX, MY, M>(svc: AlignmentService<C, D, X, Y, O, MX, MY, M>, sx: seq<X>, sy: seq<Y>,
                                                                  i: nat, j: nat, incY: bool, k: nat, maxK: nat)
    requires k <= maxK + 1 && maxK <= i <= |sx| && j <= |sy|
    ensures forall p :: p in PlansForXRuns(svc, sx, sy, i, j, incY, k, maxK) ==>
              MatchPlanOk(svc, sx, sy, i, j, incY, p) && k <= p.xLen <= maxK
    decreases maxK + 1 - k
  {
    if k <= maxK {
      PlansForXRunsOk(svc, sx, sy, i, j, incY, k + 1, maxK);
      var key := svc.candidateXKey(sx[i - k..i]);
      if svc.hasMapping(key) {
        PlansForOptionsOk(svc, sx, sy, i, j, incY, k,
                          if incY then svc.mappingOptions(key) else SilentOnly(svc, svc.mappingOptions(key)));
      }
    }
  }

  /** The candidates of cell (i, j): first the mismatch, whose parent is one step back
      along each incremented axis; then only matches, of the empty x run alone when x
      is not incremented (alignment.py:126-192). */
  lemma FindMatchPlansOk<C, D, X, Y, O, MX, MY, M>(svc: AlignmentService<C, D, X, Y, O, MX, MY, M>, sx: seq<X>, sy: seq<Y>,
                                               i: nat, j: nat, incX: bool, incY: bool)
    requires i <= |sx| && j <= |sy| && (incX ==> i > 0) && (incY ==> j > 0)
    ensures var r := FindMatchPlans(svc, sx, sy, i, j, incX, incY);
            && r[0] == Plan(if incX then i - 1 else i, if incY then j - 1 else j, false, 0, None, [], None)
            && (forall t :: 1 <= t < |r| ==> MatchPlanOk(svc, sx, sy, i, j, incY, r[t]))
            && (!incX ==> forall t :: 1 <= t < |r| ==> r[t].xLen == 0)
  {
    var matches := PlansForXRuns(svc, sx, sy, i, j, incY, 0, if incX then i else 0);
    PlansForXRunsOk(svc, sx, sy, i, j, incY, 0, if incX then i else 0);
    var r := FindMatchPlans(svc, sx, sy, i, j, incX, incY);
    assert r == [Plan(if incX then i - 1 else i, if incY then j - 1 else j, false, 0, None, [], None)] + matches;
    forall t | 1 <= t < |r|
      ensures MatchPlanOk(svc, sx, sy, i, j, incY, r[t]) && (!incX ==> r[t].xLen == 0)
    {
      var p := matches[t - 1];
      assert p in matches;
      assert MatchPlanOk(svc, sx, sy, i, j, incY, p) && (!incX ==> p.xLen == 0);
      assert r[t] == p;
    }
  }

  /** The candidate cell a plan makes from its parent: a match starts a new unmatched
      run at its own position, a mismatch inherits its parent's (alignment.py:126-137,
      176-190). */
  function Realize<C, D, X, Y, O, MX, MY, M>(svc: AlignmentService<C, D, X, Y, O, MX, MY, M>, p: Plan<O, Y, D>, parent: Cell<C, D>,
                                         i: nat, j: nat, incX: bool, incY: bool): Cell<C, D>
  {
    if p.hasMatch then Cell(svc.matchCost(parent), i, j, Some(parent), i, j, true, p.data)
    else Cell(svc.mismatchCost(parent, incX, incY), parent.ux, parent.uy, Some(parent), i, j, false, None)
  }

  /** The cell at (0, 0): the initial cost and no parent (alignment.py:197). */
  function InitialCell<C, D, X, Y, O, MX, MY, M>(svc: AlignmentService<C, D, X, Y, O, MX, MY, M>): Cell<C, D> {
    Cell(svc.initialCost, 0, 0, None, 0, 0, false, None)
  }

  /** The cell the aligner stores at (i, j), or None when computing it looks up the
      cell itself, which is not yet in the matrix (an `IndexError`): a match whose x
      run and y run are both empty (alignment.py:195-220). */
  function CellAt<C, D, X, Y, O, MX, MY, M>(svc: AlignmentService<C, D, X, Y, O, MX, MY, M>, sx: seq<X>, sy: seq<Y>, i: nat, j: nat):
    Option<Cell<C, D>>
    requires i <= |sx| && j <= |sy|
    decreases i + j, 2, 0
  {
    if i == 0 && j == 0 then Some(InitialCell(svc))
    else if j == 0 then FindMatchSpec(svc, sx, sy, i, j, true, false)
    else if i == 0 then FindMatchSpec(svc, sx, sy, i, j, false, true)
    else
      match FindMatchSpec(svc, sx, sy, i, j, true, false)
      case None => None
      case Some(a) =>
        match FindMatchSpec(svc, sx, sy, i, j, false, true)
        case None => None
        case Some(b) =>
          match FindMatchSpec(svc, sx, sy, i, j, true, true)
          case None => None
          case Some(c) => Some(MinCell(svc.less, [a, b, c]))
  }

  /** `find_match` for cell (i, j): the cheapest of its candidates. */
  function FindMatchSpec<C, D, X, Y, O, MX, MY, M>(svc: AlignmentService<C, D, X, Y, O, MX, MY, M>, sx: seq<X>, sy: seq<Y>,
                                               i: nat, j: nat, incX: bool, incY: bool): Option<Cell<C, D>>
    requires i <= |sx| && j <= |sy| && (incX ==> i > 0) && (incY ==> j > 0)
    decreases i + j, 1, 0
  {
    var plans := FindMatchPlans(svc, sx, sy, i, j, incX, incY);
    match RealizeFrom(svc, sx, sy, i, j, incX, incY, plans, 0)
    case None => None
    case Some(cells) => if |cells| == 0 then None else Some(MinCell(svc.less, cells))
  }

  /** The candidate cells of `plans[k..]`, each made from the cell at its parent
      position. */
  function RealizeFrom<C, D, X, Y, O, MX, MY, M>(svc: AlignmentService<C, D, X, Y, O, MX, MY, M>, sx: seq<X>, sy: seq<Y>,
                                             i: nat, j: nat, incX: bool, incY: bool, plans: seq<Plan<O, Y, D>>, k: nat):
    Option<seq<Cell<C, D>>>
    requires i <= |sx| && j <= |sy| && k <= |plans|
    requires forall t :: 0 <= t < |plans| ==> plans[t].px <= i && plans[t].py <= j
    decreases i + j, 0, |plans| - k
  {
    if k == |plans| then Some([])
    else
      var p := plans[k];
      if p.px == i && p.py == j then None
      else
        match CellAt(svc, sx, sy, p.px, p.py)
        case None => None
        case Some(parent) =>
          match RealizeFrom(svc, sx, sy, i, j, incX, incY, plans, k + 1)
          case None => None
          case Some(rest) => Some([Realize(svc, p, parent, i, j, incX, incY)] + rest)
  }

  /** Each candidate is its plan realized on the cell stored at the plan's parent, which
      is strictly before (i, j). */
  lemma {:induction false} RealizeFromFacts<C, D, X, Y, O, MX, MY, M>(svc: AlignmentService<C, D, X, Y, O, MX, MY, M>, sx: seq<X>, sy: seq<Y>,
                                                                   i: nat, j: nat, incX: bool, incY: bool, plans: seq<Plan<O, Y, D>>, k: nat)
    requires i <= |sx| && j <= |sy| && k <= |plans|
    requires forall t :: 0 <= t < |plans| ==> plans[t].px <= i && plans[t].py <= j
    ensures var r := RealizeFrom(svc, sx, sy, i, j, incX, incY, plans, k);
            r.Some? ==> (|r.value| == |plans| - k &&
              forall t :: 0 <= t < |r.value| ==> RealizedFrom(svc, sx, sy, i, j, incX, incY, plans[k + t], r.value[t]))
    decreases |plans| - k
  {
    if k < |plans| {
      RealizeFromFacts(svc, sx, sy, i, j, incX, incY, plans, k + 1);
      var r := RealizeFrom(svc, sx, sy, i, j, incX, incY, plans, k);
      if r.Some? {
        var p := plans[k];
        assert !(p.px == i && p.py == j);
        var parent := CellAt(svc, sx, sy, p.px, p.py).value;
        var rest := RealizeFrom(svc, sx, sy, i, j, incX, incY, plans, k + 1).value;
        assert r.value == [Realize(svc, p, parent, i, j, incX, incY)] + rest;
        forall t | 0 <= t < |r.value|
          ensures RealizedFrom(svc, sx, sy, i, j, incX, incY, plans[k + t], r.value[t])
        {
          if t > 0 {
            assert r.value[t] == rest[t - 1];
            assert plans[k + t] == plans[(k + 1) + (t - 1)];
          }
        }
      }
    }
  }

  /** `c` is the cell `p` makes from the stored cell at its parent position, which is
      strictly before (i, j). */
  ghost predicate RealizedFrom<C, D, X, Y, O, MX, MY, M>(svc: AlignmentService<C, D, X, Y, O, MX, MY, M>, sx: seq<X>, sy: seq<Y>,
                                                     i: nat, j: nat, incX: bool, incY: bool, p: Plan<O, Y, D>, c: Cell<C, D>)
    requires i <= |sx| && j <= |sy|
  {
    p.px <= i && p.py <= j && p.px + p.py < i + j && CellAt(svc, sx, sy, p.px, p.py).Some? &&
    c == Realize(svc, p, CellAt(svc, sx, sy, p.px, p.py).value, i, j, incX, incY)
  }

  /** The shape of a computed cell at (i, j): it sits there, its parent is the stored
      cell at an earlier position, a match cell's unmatched run starts at itself, and a
      mismatch cell's where its parent's does, at a position that holds a stored cell. */
  ghost predicate ComputedShape<C, D, X, Y, O, MX, MY, M>(svc: AlignmentService<C, D, X, Y, O, MX, MY, M>, sx: seq<X>, sy: seq<Y>,
                                                      i: nat, j: nat, c: Cell<C, D>)
    requires i <= |sx| && j <= |sy|
  {
    c.x == i && c.y == j && c.ux <= i && c.uy <= j && c.parent.Some? &&
    c.parent.value.x <= i && c.parent.value.y <= j && c.parent.value.x + c.parent.value.y < i + j &&
    CellAt(svc, sx, sy, c.parent.value.x, c.parent.value.y) == c.parent &&
    (c.hasMatch ==> c.ux == i && c.uy == j) &&
    (!c.hasMatch ==> c.ux == c.parent.value.ux && c.uy == c.parent.value.uy &&
                     c.ux <= c.parent.value.x && c.uy <= c.parent.value.y && CellAt(svc, sx, sy, c.ux, c.uy).Some?)
  }

  /** What every stored cell looks like: the initial cell at (0, 0), and a computed
      cell elsewhere. */
  ghost predicate CellShape<C, D, X, Y, O, MX, MY, M>(svc: AlignmentService<C, D, X, Y, O, MX, MY, M>, sx: seq<X>, sy: seq<Y>,
                                                  i: nat, j: nat, c: Cell<C, D>)
    requires i <= |sx| && j <= |sy|
  {
    if i == 0 && j == 0 then c == InitialCell(svc) else ComputedShape(svc, sx, sy, i, j, c)
  }

  /** A cell realized on a well-shaped stored cell has the shape of a computed cell. */
  lemma RealizedShape<C, D, X, Y, O, MX, MY, M>(svc: AlignmentService<C, D, X, Y, O, MX, MY, M>, sx: seq<X>, sy: seq<Y>,
                                            i: nat, j: nat, incX: bool, incY: bool, p: Plan<O, Y, D>, c: Cell<C, D>)
    requires i <= |sx| && j <= |sy| && RealizedFrom(svc, sx, sy, i, j, incX, incY, p, c)
    requires CellShape(svc, sx, sy, p.px, p.py, CellAt(svc, sx, sy, p.px, p.py).value)
    ensures ComputedShape(svc, sx, sy, i, j, c)
  {
    var parent := CellAt(svc, sx, sy, p.px, p.py).value;
    if p.px == 0 && p.py == 0 {
      assert parent == InitialCell(svc);
    } else if !parent.hasMatch {
      assert CellAt(svc, sx, sy, parent.ux, parent.uy).Some?;
    }
  }

  /** The candidate cells of `find_match` for (i, j), or None when one cannot be made. */
  function Candidates<C, D, X, Y, O, MX, MY, M>(svc: AlignmentService<C, D, X, Y, O, MX, MY, M>, sx: seq<X>, sy: seq<Y>,
                                            i: nat, j: nat, incX: bool, incY: bool): Option<seq<Cell<C, D>>>
    requires i <= |sx| && j <= |sy| && (incX ==> i > 0) && (incY ==> j > 0)
  {
    RealizeFrom(svc, sx, sy, i, j, incX, incY, FindMatchPlans(svc, sx, sy, i, j, incX, incY), 0)
  }

  /** `find_match` returns the minimum of its candidates, which include the mismatch. */
  lemma FindMatchIsMin<C, D, X, Y, O, MX, MY, M>(svc: AlignmentService<C, D, X, Y, O, MX, MY, M>, sx: seq<X>, sy: seq<Y>,
                                             i: nat, j: nat, incX: bool, incY: bool)
    requires i <= |sx| && j <= |sy| && (incX ==> i > 0) && (incY ==> j > 0)
    ensures FindMatchSpec(svc, sx, sy, i, j, incX, incY).Some? <==> Candidates(svc, sx, sy, i, j, incX, incY).Some?
    ensures Candidates(svc, sx, sy, i, j, incX, incY).Some? ==>
              |Candidates(svc, sx, sy, i, j, incX, incY).value| > 0 &&
              FindMatchSpec(svc, sx, sy, i, j, incX, incY).value == MinCell(svc.less, Candidates(svc, sx, sy, i, j, incX, incY).value)
  {
    RealizeFromFacts(svc, sx, sy, i, j, incX, incY, FindMatchPlans(svc, sx, sy, i, j, incX, incY), 0);
  }

  /** The cell `find_match` picks is the candidate made by one of its plans. */
  lemma FindMatchPicksCandidate<C, D, X, Y, O, MX, MY, M>(svc: AlignmentService<C, D, X, Y, O, MX, MY, M>, sx: seq<X>, sy: seq<Y>,
                                                      i: nat, j: nat, incX: bool, incY: bool)
    requires i <= |sx| && j <= |sy| && (incX ==> i > 0) && (incY ==> j > 0)
    requires FindMatchSpec(svc, sx, sy, i, j, incX, incY).Some?
    ensures exists t :: 0 <= t < |FindMatchPlans(svc, sx, sy, i, j, incX, incY)| &&
              RealizedFrom(svc, sx, sy, i, j, incX, incY, FindMatchPlans(svc, sx, sy, i, j, incX, incY)[t],
                           FindMatchSpec(svc, sx, sy, i, j, incX, incY).value)
  {
    var plans := FindMatchPlans(svc, sx, sy, i, j, incX, incY);
    FindMatchIsMin(svc, sx, sy, i, j, incX, incY);
    RealizeFromFacts(svc, sx, sy, i, j, incX, incY, plans, 0);
    var r := Candidates(svc, sx, sy, i, j, incX, incY).value;
    var c := MinCell(svc.less, r);
    var t :| 0 <= t < |r| && r[t] == c;
    assert RealizedFrom(svc, sx, sy, i, j, incX, incY, plans[t], c);
  }

  lemma {:induction false} FindMatchShape<C, D, X, Y, O, MX, MY, M>(svc: AlignmentService<C, D, X, Y, O, MX, MY, M>, sx: seq<X>, sy: seq<Y>,
                                                                i: nat, j: nat, incX: bool, incY: bool)
    requires i <= |sx| && j <= |sy| && (incX ==> i > 0) && (incY ==> j > 0)
    ensures FindMatchSpec(svc, sx, sy, i, j, incX, incY).Some? ==>
              ComputedShape(svc, sx, sy, i, j, FindMatchSpec(svc, sx, sy, i, j, incX, incY).value)
    decreases i + j, 0
  {
    if FindMatchSpec(svc, sx, sy, i, j, incX, incY).Some? {
      var c := FindMatchSpec(svc, sx, sy, i, j, incX, incY).value;
      FindMatchPicksCandidate(svc, sx, sy, i, j, incX, incY);
      var plans := FindMatchPlans(svc, sx, sy, i, j, incX, incY);
      var t :| 0 <= t < |plans| && RealizedFrom(svc, sx, sy, i, j, incX, incY, plans[t], c);
      var p := plans[t];
      CellAtShape(svc, sx, sy, p.px, p.py);
      RealizedShape(svc, sx, sy, i, j, incX, incY, p, c);
    }
  }

  /** Every cell the aligner stores has the shape of `CellShape`. */
  lemma {:induction false} CellAtShape<C, D, X, Y, O, MX, MY, M>(svc: AlignmentService<C, D, X, Y, O, MX, MY, M>, sx: seq<X>, sy: seq<Y>, i: nat, j: nat)
    requires i <= |sx| && j <= |sy|
    ensures CellAt(svc, sx, sy, i, j).Some? ==> CellShape(svc, sx, sy, i, j, CellAt(svc, sx, sy, i, j).value)
    decreases i + j, 1
  {
    if i == 0 && j == 0 {
    } else if j == 0 {
      FindMatchShape(svc, sx, sy, i, j, true, false);
    } else if i == 0 {
      FindMatchShape(svc, sx, sy, i, j, false, true);
    } else {
      FindMatchShape(svc, sx, sy, i, j, true, false);
      FindMatchShape(svc, sx, sy, i, j, false, true);
      FindMatchShape(svc, sx, sy, i, j, true, true);
    }
  }

  /** The candidates of cell (i, j) when x is incremented, when y is, or when both are. */
  ghost predicate IsCandidate<C, D, X, Y, O, MX, MY, M>(svc: AlignmentService<C, D, X, Y, O, MX, MY, M>, sx: seq<X>, sy: seq<Y>,
                                                    i: nat, j: nat, c: Cell<C, D>)
    requires 0 < i <= |sx| && 0 < j <= |sy|
  {
    exists incX: bool, incY: bool ::
      (incX || incY) && Candidates(svc, sx, sy, i, j, incX, incY).Some? && c in Candidates(svc, sx, sy, i, j, incX, incY).value
  }

  /** An interior cell is a cheapest candidate: none of its x-, y- or xy-increment
      candidates costs less (alignment.py:49-53, 208-220). */
  lemma InteriorCellIsCheapest<C(!new), D, X, Y, O, MX, MY, M>(svc: AlignmentService<C, D, X, Y, O, MX, MY, M>, sx: seq<X>, sy: seq<Y>, i: nat, j: nat)
    requires 0 < i <= |sx| && 0 < j <= |sy| && StrictWeakOrder(svc.less)
    requires CellAt(svc, sx, sy, i, j).Some?
    ensures IsCandidate(svc, sx, sy, i, j, CellAt(svc, sx, sy, i, j).value)
    ensures forall c :: IsCandidate(svc, sx, sy, i, j, c) ==> !svc.less(c.cost, CellAt(svc, sx, sy, i, j).value.cost)
  {
    var best := CellAt(svc, sx, sy, i, j).value;
    FindMatchIsMin(svc, sx, sy, i, j, true, false);
    FindMatchIsMin(svc, sx, sy, i, j, false, true);
    FindMatchIsMin(svc, sx, sy, i, j, true, true);
    var ra := Candidates(svc, sx, sy, i, j, true, false).value;
    var rb := Candidates(svc, sx, sy, i, j, false, true).value;
    var rc := Candidates(svc, sx, sy, i, j, true, true).value;
    var a := MinCell(svc.less, ra);
    var b := MinCell(svc.less, rb);
    var c := MinCell(svc.less, rc);
    assert best == MinCell(svc.less, [a, b, c]);
    MinCellIsMinimal(svc.less, ra);
    MinCellIsMinimal(svc.less, rb);
    MinCellIsMinimal(svc.less, rc);
    MinCellIsMinimal(svc.less, [a, b, c]);
    forall e | IsCandidate(svc, sx, sy, i, j, e)
      ensures !svc.less(e.cost, best.cost)
    {
      var incX: bool, incY: bool :| (incX || incY) && Candidates(svc, sx, sy, i, j, incX, incY).Some? &&
                                    e in Candidates(svc, sx, sy, i, j, incX, incY).value;
      if incX && !incY {
        assert !svc.less(e.cost, a.cost) && !svc.less(a.cost, best.cost);
      } else if !incX && incY {
        assert !svc.less(e.cost, b.cost) && !svc.less(b.cost, best.cost);
      } else {
        assert !svc.less(e.cost, c.cost) && !svc.less(c.cost, best.cost);
      }
    }
    if best == a {
      assert IsCandidate(svc, sx, sy, i, j, best) by { assert a in ra; }
    } else if best == b {
      assert IsCandidate(svc, sx, sy, i, j, best) by { assert b in rb; }
    } else {
      assert IsCandidate(svc, sx, sy, i, j, best) by { assert c in rc; }
    }
  }

  /** The matrix holds the stored cell at every position: |sx| + 1 rows of |sy| + 1. */
  ghost predicate MatrixOf<C, D, X, Y, O, MX, MY, M>(svc: AlignmentService<C, D, X, Y, O, MX, MY, M>, sx: seq<X>, sy: seq<Y>,
                                                 m: seq<seq<Cell<C, D>>>) {
    |m| == |sx| + 1 &&
    (forall r :: 0 <= r < |m| ==> |m[r]| == |sy| + 1) &&
    forall r, q :: 0 <= r <= |sx| && 0 <= q <= |sy| ==> CellAt(svc, sx, sy, r, q) == Some(m[r][q])
  }

  /** Every position filled so far holds the stored cell. */
  ghost predicate Agrees<C, D, X, Y, O, MX, MY, M>(svc: AlignmentService<C, D, X, Y, O, MX, MY, M>, sx: seq<X>, sy: seq<Y>,
                                               m: seq<seq<Cell<C, D>>>) {
    |m| <= |sx| + 1 && (forall r :: 0 <= r < |m| ==> |m[r]| <= |sy| + 1) &&
    forall r, q :: 0 <= r < |m| && 0 <= q < |m[r]| ==> CellAt(svc, sx, sy, r, q) == Some(m[r][q])
  }

  /** The matrix built so far holds position (p, q). */
  predicate Holds<T>(m: seq<seq<T>>, p: nat, q: nat) {
    p < |m| && q < |m[p]|
  }

  /** `cells` put in front of the candidates `o`, if there are any. */
  function PrependTo<T>(cells: seq<T>, o: Option<seq<T>>): Option<seq<T>> {
    match o
    case None => None
    case Some(rest) => Some(cells + rest)
  }

  lemma PrependAssoc<T>(cells: seq<T>, c: T, o: Option<seq<T>>)
    ensures PrependTo(cells, PrependTo([c], o)) == PrependTo(cells + [c], o)
  {
    if o.Some? {
      assert cells + ([c] + o.value) == (cells + [c]) + o.value;
    }
  }

  /** One step of `RealizeFrom`: the plan at `k` looks up its parent, which is the
      stored cell when the matrix holds it and a failure when it is (i, j) itself. */
  lemma RealizeStep<C, D, X, Y, O, MX, MY, M>(svc: AlignmentService<C, D, X, Y, O, MX, MY, M>, sx: seq<X>, sy: seq<Y>,
                                          i: nat, j: nat, incX: bool, incY: bool, plans: seq<Plan<O, Y, D>>, k: nat,
                                          parent: Option<Cell<C, D>>)
    requires i <= |sx| && j <= |sy| && k < |plans|
    requires forall t :: 0 <= t < |plans| ==> plans[t].px <= i && plans[t].py <= j
    requires parent.None? ==> plans[k].px == i && plans[k].py == j
    requires parent.Some? ==> !(plans[k].px == i && plans[k].py == j) && CellAt(svc, sx, sy, plans[k].px, plans[k].py) == parent
    ensures parent.None? ==> RealizeFrom(svc, sx, sy, i, j, incX, incY, plans, k).None?
    ensures parent.Some? ==>
              RealizeFrom(svc, sx, sy, i, j, incX, incY, plans, k) ==
              PrependTo([Realize(svc, plans[k], parent.value, i, j, incX, incY)], RealizeFrom(svc, sx, sy, i, j, incX, incY, plans, k + 1))
  {
  }

  /** `find_match` over the matrix built so far (alignment.py:140-192); looking up a
      position the matrix does not hold yet fails as Python's `IndexError` would. */
  method FindMatch<C, D, X, Y, O, MX, MY, M>(svc: AlignmentService<C, D, X, Y, O, MX, MY, M>, sx: seq<X>, sy: seq<Y>,
                                         m: seq<seq<Cell<C, D>>>, i: nat, j: nat, incX: bool, incY: bool)
    returns (r: Option<Cell<C, D>>)
    requires i <= |sx| && j <= |sy| && (incX ==> i > 0) && (incY ==> j > 0)
    requires Agrees(svc, sx, sy, m)
    requires forall p: nat, q: nat :: p <= i && q <= j && p + q < i + j ==> Holds(m, p, q)
    requires !Holds(m, i, j)
    ensures r == FindMatchSpec(svc, sx, sy, i, j, incX, incY)
  {
    var plans := FindMatchPlans(svc, sx, sy, i, j, incX, incY);
    var cells: seq<Cell<C, D>> := [];
    ghost var all := RealizeFrom(svc, sx, sy, i, j, incX, incY, plans, 0);
    assert all.Some? ==> [] + all.value == all.value;
    for k := 0 to |plans|
      invariant RealizeFrom(svc, sx, sy, i, j, incX, incY, plans, 0) ==
                PrependTo(cells, RealizeFrom(svc, sx, sy, i, j, incX, incY, plans, k))
      invariant |cells| == k
    {
      var p := plans[k];
      if p.px >= |m| || p.py >= |m[p.px]| {
        assert !Holds(m, p.px, p.py);
        RealizeStep(svc, sx, sy, i, j, incX, incY, plans, k, None);
        return None;
      }
      assert Holds(m, p.px, p.py);
      var parent := m[p.px][p.py];
      RealizeStep(svc, sx, sy, i, j, incX, incY, plans, k, Some(parent));
      PrependAssoc(cells, Realize(svc, p, parent, i, j, incX, incY), RealizeFrom(svc, sx, sy, i, j, incX, incY, plans, k + 1));
      cells := cells + [Realize(svc, p, parent, i, j, incX, incY)];
    }
    assert cells + [] == cells;
    assert all == Some(cells);
    return Some(MinCell(svc.less, cells));
  }

  /** Appending the stored cell to a row keeps the matrix agreeing. */
  lemma AgreesExtend<C, D, X, Y, O, MX, MY, M>(svc: AlignmentService<C, D, X, Y, O, MX, MY, M>, sx: seq<X>, sy: seq<Y>,
                                           m: seq<seq<Cell<C, D>>>, row: nat, c: Cell<C, D>)
    requires Agrees(svc, sx, sy, m) && row < |m| && |m[row]| <= |sy|
    requires CellAt(svc, sx, sy, row, |m[row]|) == Some(c)
    ensures Agrees(svc, sx, sy, m[row := m[row] + [c]])
  {
    var m' := m[row := m[row] + [c]];
    assert |m'| == |m|;
    assert forall r :: 0 <= r < |m'| ==> |m'[r]| <= |sy| + 1;
    forall r, q | 0 <= r < |m'| && 0 <= q < |m'[r]|
      ensures CellAt(svc, sx, sy, r, q) == Some(m'[r][q])
    {
      if r != row {
        assert m'[r] == m[r];
        assert CellAt(svc, sx, sy, r, q) == Some(m[r][q]);
      } else if q < |m[row]| {
        assert m'[r][q] == m[r][q];
        assert CellAt(svc, sx, sy, r, q) == Some(m[r][q]);
      } else {
        assert q == |m[row]|;
        assert m'[r][q] == c;
      }
    }
  }

  /** Appending a row holding the stored cell of its first column keeps the matrix
      agreeing. */
  lemma AgreesNewRow<C, D, X, Y, O, MX, MY, M>(svc: AlignmentService<C, D, X, Y, O, MX, MY, M>, sx: seq<X>, sy: seq<Y>,
                                           m: seq<seq<Cell<C, D>>>, c: Cell<C, D>)
    requires Agrees(svc, sx, sy, m) && |m| <= |sx|
    requires CellAt(svc, sx, sy, |m|, 0) == Some(c)
    ensures Agrees(svc, sx, sy, m + [[c]])
  {
  }

  /** The first loop of `align` (alignment.py:199-201): the first cell of every row, each
      reached from the row above by consuming x alone. */
  method FillFirstColumn<C, D, X, Y, O, MX, MY, M>(svc: AlignmentService<C, D, X, Y, O, MX, MY, M>, sx: seq<X>, sy: seq<Y>)
    returns (r: Option<seq<seq<Cell<C, D>>>>)
    ensures r.Some? ==> |r.value| == |sx| + 1 && (forall t :: 0 <= t < |r.value| ==> |r.value[t]| == 1) &&
                        Agrees(svc, sx, sy, r.value)
    ensures r.None? ==> exists i, j :: 0 <= i <= |sx| && 0 <= j <= |sy| && CellAt(svc, sx, sy, i, j).None?
  {
    var m: seq<seq<Cell<C, D>>> := [[InitialCell(svc)]];
    for i := 0 to |sx|
      invariant |m| == i + 1 && (forall t :: 0 <= t < |m| ==> |m[t]| == 1)
      invariant Agrees(svc, sx, sy, m)
    {
      assert forall p: nat, q: nat :: p <= i + 1 && q <= 0 && p + q < i + 1 ==> Holds(m, p, q);
      var c := FindMatch(svc, sx, sy, m, i + 1, 0, true, false);
      if c.None? {
        assert CellAt(svc, sx, sy, i + 1, 0).None?;
        return None;
      }
      AgreesNewRow(svc, sx, sy, m, c.value);
      m := m + [[c.value]];
    }
    return Some(m);
  }

  /** The second loop of `align` (alignment.py:203-205): the rest of the first row, each
      cell reached from its left neighbour by consuming y alone. */
  method FillFirstRow<C, D, X, Y, O, MX, MY, M>(svc: AlignmentService<C, D, X, Y, O, MX, MY, M>, sx: seq<X>, sy: seq<Y>,
                                            m0: seq<seq<Cell<C, D>>>)
    returns (r: Option<seq<seq<Cell<C, D>>>>)
    requires |m0| == |sx| + 1 && (forall t :: 0 <= t < |m0| ==> |m0[t]| == 1) && Agrees(svc, sx, sy, m0)
    ensures r.Some? ==> |r.value| == |sx| + 1 && |r.value[0]| == |sy| + 1 &&
                        (forall t :: 1 <= t < |r.value| ==> |r.value[t]| == 1) && Agrees(svc, sx, sy, r.value)
    ensures r.None? ==> exists i, j :: 0 <= i <= |sx| && 0 <= j <= |sy| && CellAt(svc, sx, sy, i, j).None?
  {
    var m := m0;
    for j := 0 to |sy|
      invariant |m| == |sx| + 1 && |m[0]| == j + 1 && (forall t :: 1 <= t < |m| ==> |m[t]| == 1)
      invariant Agrees(svc, sx, sy, m)
    {
      assert forall p: nat, q: nat :: p <= 0 && q <= j + 1 && p + q < j + 1 ==> Holds(m, p, q);
      var c := FindMatch(svc, sx, sy, m, 0, j + 1, false, true);
      if c.None? {
        assert CellAt(svc, sx, sy, 0, j + 1).None?;
        return None;
      }
      AgreesExtend(svc, sx, sy, m, 0, c.value);
      m := m[0 := m[0] + [c.value]];
    }
    return Some(m);
  }

  /** One interior cell (alignment.py:210-220): the cheapest of the x-, y- and
      xy-increment candidates, or None when one of them cannot be computed. */
  method InteriorCell<C, D, X, Y, O, MX, MY, M>(svc: AlignmentService<C, D, X, Y, O, MX, MY, M>, sx: seq<X>, sy: seq<Y>,
                                            m: seq<seq<Cell<C, D>>>, i: nat, j: nat)
    returns (r: Option<Cell<C, D>>)
    requires 0 < i <= |sx| && 0 < j <= |sy|
    requires Agrees(svc, sx, sy, m)
    requires forall p: nat, q: nat :: p <= i && q <= j && p + q < i + j ==> Holds(m, p, q)
    requires !Holds(m, i, j)
    ensures r == CellAt(svc, sx, sy, i, j)
  {
    var a := FindMatch(svc, sx, sy, m, i, j, true, false);
    if a.None? {
      return None;
    }
    var b := FindMatch(svc, sx, sy, m, i, j, false, true);
    if b.None? {
      return None;
    }
    var c := FindMatch(svc, sx, sy, m, i, j, true, true);
    if c.None? {
      return None;
    }
    return Some(MinCell(svc.less, [a.value, b.value, c.value]));
  }

  /** The matrix while row `x + 1` is being filled: the rows up to `x` are complete,
      row `x + 1` holds its first `y + 1` cells, and every later row only its first. */
  ghost predicate RowsFilled<T>(m: seq<seq<T>>, nx: nat, ny: nat, x: nat, y: nat) {
    x < nx && |m| == nx + 1 && (forall t :: 0 <= t <= x ==> |m[t]| == ny + 1) &&
    |m[x + 1]| == y + 1 && (forall t :: x + 1 < t < |m| ==> |m[t]| == 1)
  }

  /** Every neighbour of the next cell of row `x + 1` is held, and that cell is not. */
  lemma RowsFilledHolds<T>(m: seq<seq<T>>, nx: nat, ny: nat, x: nat, y: nat)
    requires RowsFilled(m, nx, ny, x, y) && y < ny
    ensures forall p: nat, q: nat :: p <= x + 1 && q <= y + 1 && p + q < x + y + 2 ==> Holds(m, p, q)
    ensures !Holds(m, x + 1, y + 1)
  {
  }

  /** Appending the next cell to row `x + 1` moves the fill one column on. */
  lemma RowsFilledStep<T>(m: seq<seq<T>>, nx: nat, ny: nat, x: nat, y: nat, c: T)
    requires RowsFilled(m, nx, ny, x, y) && y < ny
    ensures RowsFilled(m[x + 1 := m[x + 1] + [c]], nx, ny, x, y + 1)
  {
  }

  /** One pass of the inner loop of `align` (alignment.py:208-220): the rest of row
      `x + 1`, each cell the cheapest of its x-, y- and xy-increment candidates. */
  method FillRow<C, D, X, Y, O, MX, MY, M>(svc: AlignmentService<C, D, X, Y, O, MX, MY, M>, sx: seq<X>, sy: seq<Y>,
                                       m0: seq<seq<Cell<C, D>>>, x: nat)
    returns (r: Option<seq<seq<Cell<C, D>>>>)
    requires x < |sx| && |m0| == |sx| + 1 && Agrees(svc, sx, sy, m0)
    requires (forall t :: 0 <= t <= x ==> |m0[t]| == |sy| + 1) && (forall t :: x < t < |m0| ==> |m0[t]| == 1)
    ensures r.Some? ==> |r.value| == |sx| + 1 && Agrees(svc, sx, sy, r.value) &&
                        (forall t :: 0 <= t <= x + 1 ==> |r.value[t]| == |sy| + 1) &&
                        (forall t :: x + 1 < t < |r.value| ==> |r.value[t]| == 1)
    ensures r.None? ==> exists i, j :: 0 <= i <= |sx| && 0 <= j <= |sy| && CellAt(svc, sx, sy, i, j).None?
  {
    var m := m0;
    for y := 0 to |sy|
      invariant RowsFilled(m, |sx|, |sy|, x, y)
      invariant Agrees(svc, sx, sy, m)
    {
      var next := FillCell(svc, sx, sy, m, x, y);
      if next.None? {
        assert CellAt(svc, sx, sy, x + 1, y + 1).None?;
        return None;
      }
      m := next.value;
    }
    return Some(m);
  }

  /** One step of that loop: the next cell of row `x + 1`, appended to the row. */
  method FillCell<C, D, X, Y, O, MX, MY, M>(svc: AlignmentService<C, D, X, Y, O, MX, MY, M>, sx: seq<X>, sy: seq<Y>,
                                        m: seq<seq<Cell<C, D>>>, x: nat, y: nat)
    returns (r: Option<seq<seq<Cell<C, D>>>>)
    requires RowsFilled(m, |sx|, |sy|, x, y) && y < |sy| && Agrees(svc, sx, sy, m)
    ensures r.Some? ==> RowsFilled(r.value, |sx|, |sy|, x, y + 1) && Agrees(svc, sx, sy, r.value)
    ensures r.None? ==> CellAt(svc, sx, sy, x + 1, y + 1).None?
  {
    RowsFilledHolds(m, |sx|, |sy|, x, y);
    var cell := InteriorCell(svc, sx, sy, m, x + 1, y + 1);
    if cell.None? {
      return None;
    }
    AgreesExtend(svc, sx, sy, m, x + 1, cell.value);
    RowsFilledStep(m, |sx|, |sy|, x, y, cell.value);
    return Some(m[x + 1 := m[x + 1] + [cell.value]]);
  }

  /** The matrix fill of `align` (alignment.py:195-220): the first column, the first
      row, then every other cell row by row. None when some cell cannot be computed. */
  method FillMatrix<C, D, X, Y, O, MX, MY, M>(svc: AlignmentService<C, D, X, Y, O, MX, MY, M>, sx: seq<X>, sy: seq<Y>)
    returns (r: Option<seq<seq<Cell<C, D>>>>)
    ensures r.Some? ==> MatrixOf(svc, sx, sy, r.value)
    ensures r.None? ==> exists i, j :: 0 <= i <= |sx| && 0 <= j <= |sy| && CellAt(svc, sx, sy, i, j).None?
  {
    var col := FillFirstColumn(svc, sx, sy);
    if col.None? {
      return None;
    }
    var row := FillFirstRow(svc, sx, sy, col.value);
    if row.None? {
      return None;
    }
    var m := row.value;
    for x := 0 to |sx|
      invariant |m| == |sx| + 1
      invariant forall t :: 0 <= t <= x ==> |m[t]| == |sy| + 1
      invariant forall t :: x < t < |m| ==> |m[t]| == 1
      invariant Agrees(svc, sx, sy, m)
    {
      var next := FillRow(svc, sx, sy, m, x);
      if next.None? {
        return None;
      }
      m := next.value;
    }
    return Some(m);
  }

  /** One emitted match: the cell it starts from, the cell it ends at, and its data. */
  datatype Span<C, D> = Span(start: Cell<C, D>, end: Cell<C, D>, data: Option<D>)

  /** Where the match ending at stored cell `c` starts: its parent when `c` is a match,
      and otherwise the start of its parent's unmatched run (alignment.py:236-241). */
  function TraceStart<C, D, X, Y, O, MX, MY, M>(svc: AlignmentService<C, D, X, Y, O, MX, MY, M>, sx: seq<X>, sy: seq<Y>, c: Cell<C, D>):
    (s: Cell<C, D>)
    requires c.x <= |sx| && c.y <= |sy| && CellAt(svc, sx, sy, c.x, c.y) == Some(c) && c.parent.Some?
    ensures s.x <= c.x && s.y <= c.y && s.x + s.y < c.x + c.y && CellAt(svc, sx, sy, s.x, s.y) == Some(s)
  {
    CellAtShape(svc, sx, sy, c.x, c.y);
    var parent := c.parent.value;
    if c.hasMatch then
      CellAtShape(svc, sx, sy, parent.x, parent.y);
      parent
    else
      CellAtShape(svc, sx, sy, parent.ux, parent.uy);
      CellAt(svc, sx, sy, parent.ux, parent.uy).value
  }

  /** `traceback_matchings` (alignment.py:232-244): the spans of the matches up to `c`,
      left to right; only the cell at (0, 0) has no parent and ends the recursion. */
  function Traceback<C, D, X, Y, O, MX, MY, M>(svc: AlignmentService<C, D, X, Y, O, MX, MY, M>, sx: seq<X>, sy: seq<Y>, c: Cell<C, D>):
    seq<Span<C, D>>
    requires c.x <= |sx| && c.y <= |sy| && CellAt(svc, sx, sy, c.x, c.y) == Some(c)
    decreases c.x + c.y
  {
    if c.parent.None? then []
    else
      var start := TraceStart(svc, sx, sy, c);
      Traceback(svc, sx, sy, start) + [Span(start, c, if c.hasMatch then c.matchData else None)]
  }

  /** The spans tile the alignment: the first starts at (0, 0), each starts where the
      previous ended, each ends strictly after it starts, and the last ends at `c`
      (alignment.py:232-246). */
  lemma {:induction false} TracebackTiles<C, D, X, Y, O, MX, MY, M>(svc: AlignmentService<C, D, X, Y, O, MX, MY, M>, sx: seq<X>, sy: seq<Y>, c: Cell<C, D>)
    requires c.x <= |sx| && c.y <= |sy| && CellAt(svc, sx, sy, c.x, c.y) == Some(c)
    ensures var spans := Traceback(svc, sx, sy, c);
            && (spans == [] <==> c.x == 0 && c.y == 0)
            && (spans != [] ==> spans[0].start.x == 0 && spans[0].start.y == 0 && spans[|spans| - 1].end == c)
            && (forall t :: 0 <= t < |spans| - 1 ==> spans[t].end == spans[t + 1].start)
            && (forall t :: 0 <= t < |spans| ==> spans[t].start.x <= spans[t].end.x && spans[t].start.y <= spans[t].end.y &&
                                                  spans[t].start.x + spans[t].start.y < spans[t].end.x + spans[t].end.y)
    decreases c.x + c.y
  {
    CellAtShape(svc, sx, sy, c.x, c.y);
    if c.parent.Some? {
      var start := TraceStart(svc, sx, sy, c);
      TracebackTiles(svc, sx, sy, start);
      var init := Traceback(svc, sx, sy, start);
      var spans := Traceback(svc, sx, sy, c);
      assert spans == init + [Span(start, c, if c.hasMatch then c.matchData else None)];
      if init == [] {
        assert start.x == 0 && start.y == 0;
      } else {
        assert spans[0] == init[0];
        assert forall t :: 0 <= t < |init| ==> spans[t] == init[t];
      }
    }
  }

  /** The constructed matches of some spans, in order. */
  function Construct<C, D, X, Y, O, MX, MY, M>(svc: AlignmentService<C, D, X, Y, O, MX, MY, M>, sx: seq<X>, sy: seq<Y>, spans: seq<Span<C, D>>):
    (r: seq<M>)
    ensures |r| == |spans| && forall t :: 0 <= t < |spans| ==> r[t] == svc.constructMatch(sx, sy, spans[t].start, spans[t].end, spans[t].data)
  {
    seq(|spans|, t requires 0 <= t < |spans| => svc.constructMatch(sx, sy, spans[t].start, spans[t].end, spans[t].data))
  }

  /** The spans traced back from the last cell, when every cell can be computed. */
  function AlignedSpans<C, D, X, Y, O, MX, MY, M>(svc: AlignmentService<C, D, X, Y, O, MX, MY, M>, sx: seq<X>, sy: seq<Y>):
    Option<seq<Span<C, D>>>
  {
    match CellAt(svc, sx, sy, |sx|, |sy|)
    case None => None
    case Some(last) =>
      CellAtShape(svc, sx, sy, |sx|, |sy|);
      Some(Traceback(svc, sx, sy, last))
  }

  /** `align` (alignment.py:115-246): fill the matrix, then trace back from its last
      cell, constructing one match per span. None when some cell cannot be computed. */
  method Align<C, D, X, Y, O, MX, MY, M>(svc: AlignmentService<C, D, X, Y, O, MX, MY, M>, sx: seq<X>, sy: seq<Y>)
    returns (r: Option<seq<M>>)
    ensures r.None? <==> exists i, j :: 0 <= i <= |sx| && 0 <= j <= |sy| && CellAt(svc, sx, sy, i, j).None?
    ensures r.Some? ==> AlignedSpans(svc, sx, sy).Some? && r.value == Construct(svc, sx, sy, AlignedSpans(svc, sx, sy).value)
  {
    var m := FillMatrix(svc, sx, sy);
    if m.None? {
      return None;
    }
    var last := m.value[|sx|][|sy|];
    assert CellAt(svc, sx, sy, |sx|, |sy|) == Some(last);
    CellAtShape(svc, sx, sy, |sx|, |sy|);
    return Some(Construct(svc, sx, sy, Traceback(svc, sx, sy, last)));
  }

  /** Cell (i, j) is the candidate made by plan `t` of a `find_match` call for it. */
  ghost predicate MadeBy<C, D, X, Y, O, MX, MY, M>(svc: AlignmentService<C, D, X, Y, O, MX, MY, M>, sx: seq<X>, sy: seq<Y>,
                                                i: nat, j: nat, incX: bool, incY: bool, t: nat, c: Cell<C, D>)
    requires i <= |sx| && j <= |sy|
  {
    (incX || incY) && (incX ==> i > 0) && (incY ==> j > 0) &&
    t < |FindMatchPlans(svc, sx, sy, i, j, incX, incY)| &&
    RealizedFrom(svc, sx, sy, i, j, incX, incY, FindMatchPlans(svc, sx, sy, i, j, incX, incY)[t], c)
  }

  /** Every stored cell other than the initial one is a candidate of one of the
      `find_match` calls for its position, made by one of that call's plans. */
  lemma StoredCellMadeBy<C, D, X, Y, O, MX, MY, M>(svc: AlignmentService<C, D, X, Y, O, MX, MY, M>, sx: seq<X>, sy: seq<Y>, i: nat, j: nat)
    requires i <= |sx| && j <= |sy| && 0 < i + j && CellAt(svc, sx, sy, i, j).Some?
    ensures exists incX, incY, t :: MadeBy(svc, sx, sy, i, j, incX, incY, t, CellAt(svc, sx, sy, i, j).value)
  {
    var best := CellAt(svc, sx, sy, i, j).value;
    if j == 0 {
      FindMatchPicksCandidate(svc, sx, sy, i, j, true, false);
      var t :| 0 <= t < |FindMatchPlans(svc, sx, sy, i, j, true, false)| &&
               RealizedFrom(svc, sx, sy, i, j, true, false, FindMatchPlans(svc, sx, sy, i, j, true, false)[t], best);
      assert MadeBy(svc, sx, sy, i, j, true, false, t, best);
    } else if i == 0 {
      FindMatchPicksCandidate(svc, sx, sy, i, j, false, true);
      var t :| 0 <= t < |FindMatchPlans(svc, sx, sy, i, j, false, true)| &&
               RealizedFrom(svc, sx, sy, i, j, false, true, FindMatchPlans(svc, sx, sy, i, j, false, true)[t], best);
      assert MadeBy(svc, sx, sy, i, j, false, true, t, best);
    } else {
      var a := FindMatchSpec(svc, sx, sy, i, j, true, false).value;
      var b := FindMatchSpec(svc, sx, sy, i, j, false, true).value;
      var c := FindMatchSpec(svc, sx, sy, i, j, true, true).value;
      assert best == MinCell(svc.less, [a, b, c]);
      var incX, incY := if best == a then true else if best == b then false else true,
                        if best == a then false else true;
      assert best == FindMatchSpec(svc, sx, sy, i, j, incX, incY).value;
      FindMatchPicksCandidate(svc, sx, sy, i, j, incX, incY);
      var t :| 0 <= t < |FindMatchPlans(svc, sx, sy, i, j, incX, incY)| &&
               RealizedFrom(svc, sx, sy, i, j, incX, incY, FindMatchPlans(svc, sx, sy, i, j, incX, incY)[t], best);
      assert MadeBy(svc, sx, sy, i, j, incX, incY, t, best);
    }
  }

  /** Without any mapping, no x run yields a match. */
  lemma {:induction false} NoMappingsNoMatchPlans<C, D, X, Y, O, MX(!new), MY, M>(svc: AlignmentService<C, D, X, Y, O, MX, MY, M>, sx: seq<X>, sy: seq<Y>,
                                                                         i: nat, j: nat, incY: bool, k: nat, maxK: nat)
    requires k <= maxK + 1 && maxK <= i <= |sx| && j <= |sy|
    requires forall key :: !svc.hasMapping(key)
    ensures PlansForXRuns(svc, sx, sy, i, j, incY, k, maxK) == []
    decreases maxK + 1 - k
  {
    if k <= maxK {
      NoMappingsNoMatchPlans(svc, sx, sy, i, j, incY, k + 1, maxK);
      assert PlansForXRuns(svc, sx, sy, i, j, incY, k, maxK) == [] + [];
    }
  }

  /** Without any mapping, `find_match` for (i, j) returns the mismatch made from the
      cell one step back along each incremented axis. */
  lemma NoMappingsFindMatch<C, D, X, Y, O, MX(!new), MY, M>(svc: AlignmentService<C, D, X, Y, O, MX, MY, M>, sx: seq<X>, sy: seq<Y>,
                                                    i: nat, j: nat, incX: bool, incY: bool)
    requires i <= |sx| && j <= |sy| && (incX || incY) && (incX ==> i > 0) && (incY ==> j > 0)
    requires forall key :: !svc.hasMapping(key)
    requires CellAt(svc, sx, sy, if incX then i - 1 else i, if incY then j - 1 else j).Some?
    ensures FindMatchSpec(svc, sx, sy, i, j, incX, incY) ==
            Some(Realize(svc, Plan(if incX then i - 1 else i, if incY then j - 1 else j, false, 0, None, [], None),
                         CellAt(svc, sx, sy, if incX then i - 1 else i, if incY then j - 1 else j).value, i, j, incX, incY))
  {
    var px: nat := if incX then i - 1 else i;
    var py: nat := if incY then j - 1 else j;
    NoMappingsNoMatchPlans(svc, sx, sy, i, j, incY, 0, if incX then i else 0);
    var plans := FindMatchPlans(svc, sx, sy, i, j, incX, incY);
    assert plans == [Plan(px, py, false, 0, None, [], None)];
    var parent := CellAt(svc, sx, sy, px, py).value;
    var c := Realize(svc, plans[0], parent, i, j, incX, incY);
    assert RealizeFrom(svc, sx, sy, i, j, incX, incY, plans, 1) == Some([]);
    assert [c] + [] == [c];
    assert RealizeFrom(svc, sx, sy, i, j, incX, incY, plans, 0) == Some([c]);
  }

  /** Without any mapping every cell can be computed, and every cell but the initial
      one is a mismatch whose unmatched run starts at (0, 0). */
  lemma {:induction false} NoMappingsMismatchOnly<C, D, X, Y, O, MX(!new), MY, M>(svc: AlignmentService<C, D, X, Y, O, MX, MY, M>, sx: seq<X>, sy: seq<Y>,
                                                                         i: nat, j: nat)
    requires i <= |sx| && j <= |sy|
    requires forall key :: !svc.hasMapping(key)
    ensures CellAt(svc, sx, sy, i, j).Some?
    ensures CellAt(svc, sx, sy, i, j).value.ux == 0 && CellAt(svc, sx, sy, i, j).value.uy == 0
    ensures 0 < i + j ==> !CellAt(svc, sx, sy, i, j).value.hasMatch && CellAt(svc, sx, sy, i, j).value.parent.Some?
    decreases i + j
  {
    if 0 < i + j {
      forall incX: bool, incY: bool | (incX || incY) && (incX ==> i > 0) && (incY ==> j > 0)
        ensures FindMatchSpec(svc, sx, sy, i, j, incX, incY).Some?
        ensures var c := FindMatchSpec(svc, sx, sy, i, j, incX, incY).value;
                c.ux == 0 && c.uy == 0 && !c.hasMatch && c.parent.Some?
      {
        NoMappingsMismatchOnly(svc, sx, sy, if incX then i - 1 else i, if incY then j - 1 else j);
        NoMappingsFindMatch(svc, sx, sy, i, j, incX, incY);
      }
      if 0 < i && 0 < j {
        var a := FindMatchSpec(svc, sx, sy, i, j, true, false).value;
        var b := FindMatchSpec(svc, sx, sy, i, j, false, true).value;
        var c := FindMatchSpec(svc, sx, sy, i, j, true, true).value;
        assert CellAt(svc, sx, sy, i, j) == Some(MinCell(svc.less, [a, b, c]));
      }
    }
  }

  /** Without any mapping the alignment of non-empty input is one span from (0, 0) to
      the last cell, carrying no match data. */
  lemma NoMappingsOneSpan<C, D, X, Y, O, MX(!new), MY, M>(svc: AlignmentService<C, D, X, Y, O, MX, MY, M>, sx: seq<X>, sy: seq<Y>)
    requires forall key :: !svc.hasMapping(key)
    requires 0 < |sx| + |sy|
    ensures CellAt(svc, sx, sy, |sx|, |sy|).Some?
    ensures AlignedSpans(svc, sx, sy) == Some([Span(InitialCell(svc), CellAt(svc, sx, sy, |sx|, |sy|).value, None)])
  {
    NoMappingsMismatchOnly(svc, sx, sy, |sx|, |sy|);
    NoMappingsMismatchOnly(svc, sx, sy, 0, 0);
    var last := CellAt(svc, sx, sy, |sx|, |sy|).value;
    CellAtShape(svc, sx, sy, |sx|, |sy|);
    assert !last.hasMatch && last.parent.Some? && last.ux == 0 && last.uy == 0;
    var start := TraceStart(svc, sx, sy, last);
    assert start == InitialCell(svc);
    assert Traceback(svc, sx, sy, start) == [];
    var span := Span(start, last, None);
    assert Traceback(svc, sx, sy, last) == [] + [span];
    assert [] + [span] == [span];
  }

  /** Plans whose parents are all stored cells other than (i, j) itself can all be
      realized. */
  lemma {:induction false} RealizeFromSome<C, D, X, Y, O, MX, MY, M>(svc: AlignmentService<C, D, X, Y, O, MX, MY, M>, sx: seq<X>, sy: seq<Y>,
                                                                  i: nat, j: nat, incX: bool, incY: bool, plans: seq<Plan<O, Y, D>>, k: nat)
    requires i <= |sx| && j <= |sy| && k <= |plans|
    requires forall t :: 0 <= t < |plans| ==> plans[t].px <= i && plans[t].py <= j
    requires forall t :: k <= t < |plans| ==> !(plans[t].px == i && plans[t].py == j) && CellAt(svc, sx, sy, plans[t].px, plans[t].py).Some?
    ensures RealizeFrom(svc, sx, sy, i, j, incX, incY, plans, k).Some?
    decreases |plans| - k
  {
    if k < |plans| {
      var p := plans[k];
      assert !(p.px == i && p.py == j) && CellAt(svc, sx, sy, p.px, p.py).Some?;
      RealizeFromSome(svc, sx, sy, i, j, incX, incY, plans, k + 1);
    }
  }

  /** When the empty x run has no mapping, every candidate's parent comes before the cell. */
  lemma PlansDescend<C, D, X, Y, O, MX, MY, M>(svc: AlignmentService<C, D, X, Y, O, MX, MY, M>, sx: seq<X>, sy: seq<Y>,
                                             i: nat, j: nat, incX: bool, incY: bool)
    requires i <= |sx| && j <= |sy| && (incX || incY) && (incX ==> i > 0) && (incY ==> j > 0)
    requires !svc.hasMapping(svc.candidateXKey([]))
    ensures var plans := FindMatchPlans(svc, sx, sy, i, j, incX, incY);
            forall t :: 0 <= t < |plans| ==> plans[t].px <= i && plans[t].py <= j && plans[t].px + plans[t].py < i + j
  {
    var plans := FindMatchPlans(svc, sx, sy, i, j, incX, incY);
    FindMatchPlansOk(svc, sx, sy, i, j, incX, incY);
    forall t | 0 <= t < |plans|
      ensures plans[t].px <= i && plans[t].py <= j && plans[t].px + plans[t].py < i + j
    {
      if t > 0 {
        assert MatchPlanOk(svc, sx, sy, i, j, incY, plans[t]);
        assert plans[t].xLen == 0 ==> sx[plans[t].px..i] == [];
      }
    }
  }

  /** When the empty x run has no mapping, no candidate is ever its own parent, so every
      cell can be computed and `align` always returns. */
  lemma {:induction false} AllCellsComputed<C, D, X, Y, O, MX, MY, M>(svc: AlignmentService<C, D, X, Y, O, MX, MY, M>, sx: seq<X>, sy: seq<Y>,
                                                                   i: nat, j: nat)
    requires i <= |sx| && j <= |sy|
    requires !svc.hasMapping(svc.candidateXKey([]))
    ensures CellAt(svc, sx, sy, i, j).Some?
    decreases i + j
  {
    if 0 < i + j {
      forall incX: bool, incY: bool | (incX || incY) && (incX ==> i > 0) && (incY ==> j > 0)
        ensures FindMatchSpec(svc, sx, sy, i, j, incX, incY).Some?
      {
        var plans := FindMatchPlans(svc, sx, sy, i, j, incX, incY);
        PlansDescend(svc, sx, sy, i, j, incX, incY);
        forall t | 0 <= t < |plans|
          ensures CellAt(svc, sx, sy, plans[t].px, plans[t].py).Some?
        {
          AllCellsComputed(svc, sx, sy, plans[t].px, plans[t].py);
        }
        RealizeFromSome(svc, sx, sy, i, j, incX, incY, plans, 0);
        RealizeFromFacts(svc, sx, sy, i, j, incX, incY, plans, 0);
      }
    }
  }

  /** The options among `opts` that match yield match plans from (i - k, j - |tail|). */
  lemma {:induction false} PlansForOptionsOffer<C, D, X, Y, O, MX, MY, M>(svc: AlignmentService<C, D, X, Y, O, MX, MY, M>, sx: seq<X>, sy: seq<Y>,
                                                                       i: nat, j: nat, k: nat, opts: seq<O>, o: O)
    requires k <= i <= |sx| && j <= |sy| && o in opts
    requires svc.isMatch(PyTail(sy[..j], j - |svc.candidateYKey(o)|), svc.candidateYKey(o))
    ensures exists p :: p in PlansForOptions(svc, sx, sy, i, j, k, opts) && p.hasMatch && p.px == i - k &&
                        p.py == j - |PyTail(sy[..j], j - |svc.candidateYKey(o)|)|
    decreases |opts|
  {
    var opt := opts[0];
    var yKey := svc.candidateYKey(opt);
    var actual := PyTail(sy[..j], j - |yKey|);
    var xRun := sx[i - k..i];
    var here := if svc.isMatch(actual, yKey)
                then [Plan(i - k, j - |actual|, true, k, Some(opt), actual, Some(svc.matchData(svc.candidateXKey(xRun), yKey, xRun, opt)))]
                else [];
    var rest := PlansForOptions(svc, sx, sy, i, j, k, opts[1..]);
    assert PlansForOptions(svc, sx, sy, i, j, k, opts) == here + rest;
    if opt == o {
      assert here[0] in here + rest;
    } else {
      PlansForOptionsOffer(svc, sx, sy, i, j, k, opts[1..], o);
      var p :| p in rest && p.hasMatch && p.px == i - k && p.py == j - |PyTail(sy[..j], j - |svc.candidateYKey(o)|)|;
      assert p in here + rest;
    }
  }

  /** A mapped x run of length k, among the runs of length `lo` to `hi`, yields the match
      plan of each of its matching options. */
  lemma {:induction false} PlansForXRunsOffer<C, D, X, Y, O, MX, MY, M>(svc: AlignmentService<C, D, X, Y, O, MX, MY, M>, sx: seq<X>, sy: seq<Y>,
                                                                     i: nat, j: nat, incY: bool, lo: nat, hi: nat, k: nat, o: O)
    requires lo <= k <= hi <= i <= |sx| && j <= |sy|
    requires svc.hasMapping(svc.candidateXKey(sx[i - k..i])) && o in svc.mappingOptions(svc.candidateXKey(sx[i - k..i]))
    requires incY || svc.ySeqLen(o) == 0
    requires svc.isMatch(PyTail(sy[..j], j - |svc.candidateYKey(o)|), svc.candidateYKey(o))
    ensures exists p :: p in PlansForXRuns(svc, sx, sy, i, j, incY, lo, hi) && p.hasMatch && p.px == i - k &&
                        p.py == j - |PyTail(sy[..j], j - |svc.candidateYKey(o)|)|
    decreases k - lo
  {
    var key := svc.candidateXKey(sx[i - lo..i]);
    var opts := if incY then svc.mappingOptions(key) else SilentOnly(svc, svc.mappingOptions(key));
    var here := if !svc.hasMapping(key) then [] else PlansForOptions(svc, sx, sy, i, j, lo, opts);
    assert PlansForXRuns(svc, sx, sy, i, j, incY, lo, hi) == here + PlansForXRuns(svc, sx, sy, i, j, incY, lo + 1, hi);
    var rest := PlansForXRuns(svc, sx, sy, i, j, incY, lo + 1, hi);
    var d := j - |PyTail(sy[..j], j - |svc.candidateYKey(o)|)|;
    if lo == k {
      if !incY {
        assert o in SilentOnly(svc, svc.mappingOptions(key));
      }
      PlansForOptionsOffer(svc, sx, sy, i, j, k, opts, o);
      var p :| p in here && p.hasMatch && p.px == i - k && p.py == d;
      assert p in here + rest;
    } else {
      PlansForXRunsOffer(svc, sx, sy, i, j, incY, lo + 1, hi, k, o);
      var p :| p in rest && p.hasMatch && p.px == i - k && p.py == d;
      assert p in here + rest;
    }
  }

  /** `find_match` for cell (i, j) considers the match of each option of a mapped x run
      ending at i (of length 0 only when x is not incremented) whose key matches the
      tail of y: it is one of its plans, made from (i - k, j - |tail|). */
  lemma MatchOffered<C, D, X, Y, O, MX, MY, M>(svc: AlignmentService<C, D, X, Y, O, MX, MY, M>, sx: seq<X>, sy: seq<Y>,
                                             i: nat, j: nat, incX: bool, incY: bool, k: nat, o: O)
    requires i <= |sx| && j <= |sy| && (incX ==> i > 0) && (incY ==> j > 0)
    requires if incX then k <= i else k == 0
    requires svc.hasMapping(svc.candidateXKey(sx[i - k..i])) && o in svc.mappingOptions(svc.candidateXKey(sx[i - k..i]))
    requires incY || svc.ySeqLen(o) == 0
    requires svc.isMatch(PyTail(sy[..j], j - |svc.candidateYKey(o)|), svc.candidateYKey(o))
    ensures exists t :: 0 < t < |FindMatchPlans(svc, sx, sy, i, j, incX, incY)| &&
                        var p := FindMatchPlans(svc, sx, sy, i, j, incX, incY)[t];
                        p.hasMatch && p.px == i - k && p.py == j - |PyTail(sy[..j], j - |svc.candidateYKey(o)|)|
  {
    var maxK := if incX then i else 0;
    PlansForXRunsOffer(svc, sx, sy, i, j, incY, 0, maxK, k, o);
    var matches := PlansForXRuns(svc, sx, sy, i, j, incY, 0, maxK);
    var plans := FindMatchPlans(svc, sx, sy, i, j, incX, incY);
    assert plans == [plans[0]] + matches;
    var p :| p in matches && p.hasMatch && p.px == i - k && p.py == j - |PyTail(sy[..j], j - |svc.candidateYKey(o)|)|;
    var u :| 0 <= u < |matches| && matches[u] == p;
    assert plans[u + 1] == p;
  }

  /** At an interior cell whose candidates can all be made, the cell a match plan of a
      `find_match` call makes from its parent is one of the cell's candidates. */
  lemma MatchPlanIsCandidate<C, D, X, Y, O, MX, MY, M>(svc: AlignmentService<C, D, X, Y, O, MX, MY, M>, sx: seq<X>, sy: seq<Y>,
                                                     i: nat, j: nat, incX: bool, incY: bool, t: nat)
    requires 0 < i <= |sx| && 0 < j <= |sy| && (incX || incY) && CellAt(svc, sx, sy, i, j).Some?
    requires t < |FindMatchPlans(svc, sx, sy, i, j, incX, incY)|
    ensures var p := FindMatchPlans(svc, sx, sy, i, j, incX, incY)[t];
            && p.px + p.py < i + j && CellAt(svc, sx, sy, p.px, p.py).Some?
            && IsCandidate(svc, sx, sy, i, j, Realize(svc, p, CellAt(svc, sx, sy, p.px, p.py).value, i, j, incX, incY))
  {
    var plans := FindMatchPlans(svc, sx, sy, i, j, incX, incY);
    assert FindMatchSpec(svc, sx, sy, i, j, incX, incY).Some?;
    FindMatchIsMin(svc, sx, sy, i, j, incX, incY);
    RealizeFromFacts(svc, sx, sy, i, j, incX, incY, plans, 0);
    var cands := Candidates(svc, sx, sy, i, j, incX, incY).value;
    assert RealizedFrom(svc, sx, sy, i, j, incX, incY, plans[0 + t], cands[t]);
    assert cands[t] in cands;
  }
}
