// Search configuration: the SearchParams record with its defaults and its
// by-value builders, and TimeManagement with its per-move time budget.

module Params {
  import opened Common
  import opened Words

  /** The search limits and pruning switches. */
  datatype SearchParams = SearchParams(
    maxDepth: U8,
    timeLimitMs: U64,
    nodeLimit: U64,
    aspirationWindow: I16,
    enableNullMovePruning: bool,
    nullMoveMinDepth: U8,
    enableLmr: bool,
    lmrMinDepth: U8,
    lmrBaseReduction: U8,
    enableFutilityPruning: bool,
    futilityMargin: I16,
    futilityMinDepth: U8,
    killerMovesCount: U64,
    qsearchDepth: U8)

  /** The names of the fields, for saying which one a builder sets. */
  datatype Field =
    | MaxDepth | TimeLimit | NodeLimit | AspirationWindow | NullMovePruning | NullMoveMinDepth | Lmr
    | LmrMinDepth | LmrBaseReduction | FutilityPruning | FutilityMargin | FutilityMinDepth
    | KillerMovesCount | QsearchDepth

  /** p and q agree on every field except possibly f. */
  predicate SameExcept(p: SearchParams, q: SearchParams, f: Field) {
    (f == MaxDepth || p.maxDepth == q.maxDepth) &&
    (f == TimeLimit || p.timeLimitMs == q.timeLimitMs) &&
    (f == NodeLimit || p.nodeLimit == q.nodeLimit) &&
    (f == AspirationWindow || p.aspirationWindow == q.aspirationWindow) &&
    (f == NullMovePruning || p.enableNullMovePruning == q.enableNullMovePruning) &&
    (f == NullMoveMinDepth || p.nullMoveMinDepth == q.nullMoveMinDepth) &&
    (f == Lmr || p.enableLmr == q.enableLmr) &&
    (f == LmrMinDepth || p.lmrMinDepth == q.lmrMinDepth) &&
    (f == LmrBaseReduction || p.lmrBaseReduction == q.lmrBaseReduction) &&
    (f == FutilityPruning || p.enableFutilityPruning == q.enableFutilityPruning) &&
    (f == FutilityMargin || p.futilityMargin == q.futilityMargin) &&
    (f == FutilityMinDepth || p.futilityMinDepth == q.futilityMinDepth) &&
    (f == KillerMovesCount || p.killerMovesCount == q.killerMovesCount) &&
    (f == QsearchDepth || p.qsearchDepth == q.qsearchDepth)
  }

  /** SearchParams::default (and new): depth 8, 5 s, no node limit, a 50 cp window, every pruning on. */
  function DefaultParams(): (p: SearchParams)
    ensures p.maxDepth == 8 && p.timeLimitMs == 5000 && p.nodeLimit == 0 && p.aspirationWindow == 50
    ensures p.enableNullMovePruning && p.nullMoveMinDepth == 2
    ensures p.enableLmr && p.lmrMinDepth == 3 && p.lmrBaseReduction == 2
    ensures p.enableFutilityPruning && p.futilityMargin == 100 && p.futilityMinDepth == 3
    ensures p.killerMovesCount == 2 && p.qsearchDepth == 4
  {
    SearchParams(8, 5000, 0, 50, true, 2, true, 3, 2, true, 100, 3, 2, 4)
  }

  // ---------------------------------------------------------------------
  // Builders: each returns a copy with one field replaced.

  function WithMaxDepth(p: SearchParams, depth: U8): (r: SearchParams)
    ensures r.maxDepth == depth && SameExcept(p, r, MaxDepth)
  {
    p.(maxDepth := depth)
  }

  function WithTimeLimit(p: SearchParams, ms: U64): (r: SearchParams)
    ensures r.timeLimitMs == ms && SameExcept(p, r, TimeLimit)
  {
    p.(timeLimitMs := ms)
  }

  function WithAspirationWindow(p: SearchParams, window: I16): (r: SearchParams)
    ensures r.aspirationWindow == window && SameExcept(p, r, AspirationWindow)
  {
    p.(aspirationWindow := window)
  }

  function WithNodeLimit(p: SearchParams, limit: U64): (r: SearchParams)
    ensures r.nodeLimit == limit && SameExcept(p, r, NodeLimit)
  {
    p.(nodeLimit := limit)
  }

  function WithNullMovePruning(p: SearchParams, enable: bool): (r: SearchParams)
    ensures r.enableNullMovePruning == enable && SameExcept(p, r, NullMovePruning)
  {
    p.(enableNullMovePruning := enable)
  }

  function WithNullMoveMinDepth(p: SearchParams, depth: U8): (r: SearchParams)
    ensures r.nullMoveMinDepth == depth && SameExcept(p, r, NullMoveMinDepth)
  {
    p.(nullMoveMinDepth := depth)
  }

  function WithLmr(p: SearchParams, enable: bool): (r: SearchParams)
    ensures r.enableLmr == enable && SameExcept(p, r, Lmr)
  {
    p.(enableLmr := enable)
  }

  function WithLmrMinDepth(p: SearchParams, depth: U8): (r: SearchParams)
    ensures r.lmrMinDepth == depth && SameExcept(p, r, LmrMinDepth)
  {
    p.(lmrMinDepth := depth)
  }

  function WithLmrBaseReduction(p: SearchParams, reduction: U8): (r: SearchParams)
    ensures r.lmrBaseReduction == reduction && SameExcept(p, r, LmrBaseReduction)
  {
    p.(lmrBaseReduction := reduction)
  }

  function WithFutilityPruning(p: SearchParams, enable: bool): (r: SearchParams)
    ensures r.enableFutilityPruning == enable && SameExcept(p, r, FutilityPruning)
  {
    p.(enableFutilityPruning := enable)
  }

  function WithFutilityMargin(p: SearchParams, margin: I16): (r: SearchParams)
    ensures r.futilityMargin == margin && SameExcept(p, r, FutilityMargin)
  {
    p.(futilityMargin := margin)
  }

  function WithFutilityMinDepth(p: SearchParams, depth: U8): (r: SearchParams)
    ensures r.futilityMinDepth == depth && SameExcept(p, r, FutilityMinDepth)
  {
    p.(futilityMinDepth := depth)
  }

  function WithKillerMovesCount(p: SearchParams, count: U64): (r: SearchParams)
    ensures r.killerMovesCount == count && SameExcept(p, r, KillerMovesCount)
  {
    p.(killerMovesCount := count)
  }

  function WithQsearchDepth(p: SearchParams, depth: U8): (r: SearchParams)
    ensures r.qsearchDepth == depth && SameExcept(p, r, QsearchDepth)
  {
    p.(qsearchDepth := depth)
  }

  /** Builders on different fields can be chained in either order; on the same field the last one wins. */
  lemma BuildersCompose(p: SearchParams, depth: U8, depth2: U8, ms: U64)
    ensures WithTimeLimit(WithMaxDepth(p, depth), ms) == WithMaxDepth(WithTimeLimit(p, ms), depth)
    ensures WithMaxDepth(WithMaxDepth(p, depth), depth2) == WithMaxDepth(p, depth2)
  {
  }

  // ---------------------------------------------------------------------
  // Time management

  datatype TimeManagement = TimeManagement(timeLeftMs: U64, movesLeft: U8, movesToGoLeft: U8, incMs: U64, msecPerMove: U64)

  /** TimeManagement::new: no clock, 40 moves to go, no increment, 5 s a move. */
  function NewTimeManagement(): (tm: TimeManagement)
    ensures tm.timeLeftMs == 0 && tm.movesLeft == 40 && tm.movesToGoLeft == 40
    ensures tm.incMs == 0 && tm.msecPerMove == 5000
  {
    TimeManagement(0, 40, 40, 0, 5000)
  }

  /** u64 wrapping multiplication (the release-build meaning of *). */
  function WrapMul(a: U64, b: U64): U64 {
    (a * b) % TWO_64
  }

  /**
   * allocate_time: the per-move default with no clock; otherwise 120% of
   * an equal share of the clock over the moves to go, capped by the larger
   * of the per-move default and twice the increment. None stands for the
   * division-by-zero panic when no moves are left to go.
   */
  function AllocateTime(tm: TimeManagement): (r: Option<U64>)
    ensures r.None? <==> tm.timeLeftMs != 0 && tm.movesToGoLeft == 0
    ensures tm.timeLeftMs == 0 ==> r == Some(tm.msecPerMove)
    ensures r.Some? ==> r.value <= Max(tm.msecPerMove, WrapMul(tm.incMs, 2))
    ensures r.Some? && tm.timeLeftMs != 0 ==> r.value <= WrapMul(tm.timeLeftMs / tm.movesToGoLeft, 120) / 100
  {
    if tm.timeLeftMs == 0 then Some(tm.msecPerMove)
    else if tm.movesToGoLeft == 0 then None
    else
      var budget := WrapMul(tm.timeLeftMs / tm.movesToGoLeft, 120) / 100;
      Some(Min(budget, Max(tm.msecPerMove, WrapMul(tm.incMs, 2))))
  }

  /** Without overflow the budget is exactly min(share * 120 / 100, max(per-move, 2 * increment)). */
  lemma AllocateTimeExact(tm: TimeManagement)
    requires tm.timeLeftMs != 0 && tm.movesToGoLeft != 0
    requires (tm.timeLeftMs / tm.movesToGoLeft) * 120 < TWO_64 && tm.incMs * 2 < TWO_64
    ensures AllocateTime(tm) == Some(Min((tm.timeLeftMs / tm.movesToGoLeft) * 120 / 100, Max(tm.msecPerMove, tm.incMs * 2)))
  {
    NoWrap(tm.timeLeftMs / tm.movesToGoLeft, 120);
    NoWrap(tm.incMs, 2);
  }

  /** A product below 2^64 does not wrap. */
  lemma NoWrap(a: U64, b: U64)
    requires a * b < TWO_64
    ensures WrapMul(a, b) == a * b
  {
    var x := a * b;
    assert 0 <= x < TWO_64;
  }

  /** With a fresh TimeManagement and a clock of t ms, the budget is min(t / 40 * 120 / 100, 5000). */
  lemma FreshAllocation(t: U64)
    requires 0 < t < 0x1_0000_0000
    ensures AllocateTime(NewTimeManagement().(timeLeftMs := t)) == Some(Min(t / 40 * 120 / 100, 5000))
  {
    var tm := NewTimeManagement().(timeLeftMs := t);
    assert t / 40 * 120 < TWO_64;
    AllocateTimeExact(tm);
  }
}
