// The search engine: iterative deepening over a fail-soft alpha-beta
// negamax with a transposition table, and the material evaluation that
// serves as its static evaluation.
//
// The board that make_move/unmake_move walk is abstracted into a game tree:
// a Node carries what the search reads at a position (its Zobrist key, its
// static evaluation from the side to move, whether that side is in check)
// and one Edge per legal move, in generation order. The transposition table
// is the Tt.Table class; the spec functions below thread its slot array
// through the search as a sequence, and the Searcher methods are proved to
// compute exactly those functions.
//
// Three defects of the search as written are modelled on both sides through
// the flag `fixed`: false is the code as written, true the evidently
// intended behaviour (see the lemmas at the end of this file).

module Search {
  import opened Common
  import opened Words
  import opened Pieces
  import opened Bits
  import opened Placement
  import opened Params
  import opened Tt
  import Eval

  const INFINITE: I16 := 30000
  const MATE: I16 := 30001

  // ---------------------------------------------------------------------
  // material_eval

  /** The non-king material of one colour in centipawns (a u32 sum that cannot overflow). */
  function Weighted(p: Placement, color: Color): (m: nat)
    requires Sized(p)
    ensures m <= 64 * 2150
  {
    CountBits(PieceBB(p, Pawn, color)) * 100 + CountBits(PieceBB(p, Knight, color)) * 320
      + CountBits(PieceBB(p, Bishop, color)) * 330 + CountBits(PieceBB(p, Rook, color)) * 500
      + CountBits(PieceBB(p, Queen, color)) * 900
  }

  function Kings(p: Placement, color: Color): nat
    requires Sized(p)
  {
    CountBits(PieceBB(p, King, color))
  }

  /**
   * material_eval: the u32 sums cast to i16, their i16 difference, plus
   * 20000 per king of difference, all with i16 wrap-around, negated when
   * Black is to move.
   */
  function MaterialEval(p: Placement, side: Color): I16
    requires Sized(p)
  {
    var material := WrapI16(WrapI16(Weighted(p, White)) - WrapI16(Weighted(p, Black)));
    var kings := WrapI16((Kings(p, White) - Kings(p, Black)) * 20000);
    Eval.Relative(side, WrapI16(material + kings))
  }

  /** The exact material difference from White's side. */
  function MaterialDiff(p: Placement): int
    requires Sized(p)
  {
    Weighted(p, White) - Weighted(p, Black) + 20000 * (Kings(p, White) - Kings(p, Black))
  }

  /** Two integers congruent modulo 2^16 wrap to the same i16. */
  lemma WrapI16Congruent(x: int, y: int)
    requires (x - y) % 0x1_0000 == 0
    ensures WrapI16(x) == WrapI16(y)
  {
    var a, b := WrapI16(x), WrapI16(y);
    var k1, k2, k3 := (x - a) / 0x1_0000, (y - b) / 0x1_0000, (x - y) / 0x1_0000;
    assert x - a == 0x1_0000 * k1;
    assert y - b == 0x1_0000 * k2;
    assert x - y == 0x1_0000 * k3;
    assert a - b == 0x1_0000 * (k3 - k1 + k2);
  }

  /** i16 subtraction of two wrapped values is the wrapped difference. */
  lemma WrapSub(x: int, y: int)
    ensures WrapI16(WrapI16(x) - WrapI16(y)) == WrapI16(x - y)
  {
    var a, b := WrapI16(x), WrapI16(y);
    var k1, k2 := (x - a) / 0x1_0000, (y - b) / 0x1_0000;
    assert x - a == 0x1_0000 * k1;
    assert y - b == 0x1_0000 * k2;
    assert (a - b) - (x - y) == 0x1_0000 * (k2 - k1);
    WrapI16Congruent(a - b, x - y);
  }

  /** i16 addition of two wrapped values is the wrapped sum. */
  lemma WrapAdd(x: int, y: int)
    ensures WrapI16(WrapI16(x) + WrapI16(y)) == WrapI16(x + y)
  {
    var a, b := WrapI16(x), WrapI16(y);
    var k1, k2 := (x - a) / 0x1_0000, (y - b) / 0x1_0000;
    assert x - a == 0x1_0000 * k1;
    assert y - b == 0x1_0000 * k2;
    assert (a + b) - (x + y) == 0x1_0000 * (-k1 - k2);
    WrapI16Congruent(a + b, x + y);
  }

  /**
   * However the intermediate i16 steps wrap, White's view is the exact
   * difference wrapped once, and Black's view is its wrapping negation.
   */
  lemma MaterialWraps(p: Placement)
    requires Sized(p)
    ensures MaterialEval(p, White) == WrapI16(MaterialDiff(p))
    ensures MaterialEval(p, Black) == Eval.Neg(MaterialEval(p, White))
  {
    var w, b := Weighted(p, White), Weighted(p, Black);
    var kd: int := (Kings(p, White) - Kings(p, Black)) * 20000;
    WrapSub(w, b);
    WrapAdd(w - b, kd);
    assert MaterialDiff(p) == w - b + kd;
  }

  /** Equal material and equal king counts (the empty board among them) score 0 for either side. */
  lemma BalancedMaterialIsZero(p: Placement, side: Color)
    requires Sized(p)
    requires Weighted(p, White) == Weighted(p, Black) && Kings(p, White) == Kings(p, Black)
    ensures MaterialEval(p, side) == 0
  {
    MaterialWraps(p);
  }

  /**
   * With one king a side and neither side's material above i16::MAX, the
   * score is the exact non-king difference, seen from the side to move.
   */
  lemma MaterialWithKings(p: Placement, side: Color)
    requires Sized(p) && Kings(p, White) == 1 && Kings(p, Black) == 1
    requires Weighted(p, White) <= 0x7FFF && Weighted(p, Black) <= 0x7FFF
    ensures MaterialEval(p, side) == if side == White then Weighted(p, White) - Weighted(p, Black)
                                     else Weighted(p, Black) - Weighted(p, White)
  {
    MaterialWraps(p);
  }

  // ---------------------------------------------------------------------
  // The game tree and the table as a sequence of slots

  datatype Node = Node(key: U64, eval: I16, inCheck: bool, edges: seq<Edge>)
  datatype Edge = Edge(mv: U32, child: Node)

  /** probe on a slot array: a hit in the key's slot gives its unpacked entry. */
  function ProbeIn(slots: seq<U64>, age: U8, key: U64): Option<Entry>
    requires |slots| > 0
  {
    var w := slots[key % |slots|];
    if Tt.Hit(w, age, key) then Some(Unpack(key, w)) else None
  }

  /** store on a slot array: the key's slot takes what the replacement policy leaves in it. */
  function StoreIn(slots: seq<U64>, age: U8, key: U64, score: I16, depth: U8, nodeType: NodeType, bestMove: U32): (r: seq<U64>)
    requires |slots| > 0
    ensures |r| == |slots|
  {
    slots[key % |slots| := Stored(slots[key % |slots|], key, score, depth, nodeType, bestMove, age)]
  }

  // ---------------------------------------------------------------------
  // negamax_pv

  /**
   * The cutoff a deep enough probed entry gives. As written, an entry whose
   * upper end is at most alpha returns its lower end, and one whose lower
   * end is at least beta returns its upper end; the intended cutoff returns
   * the end that proves it.
   */
  function Cutoff(e: Entry, depth: U8, alpha: I16, beta: I16, fixed: bool): (r: Option<I16>)
    ensures r.Some? <==> e.depth >= depth && (Bound(e).1 <= alpha || Bound(e).0 >= beta)
    ensures fixed && r.Some? ==> Bound(e).1 <= r.value <= alpha || beta <= r.value <= Bound(e).0
    ensures !fixed && r.Some? ==> r.value == if Bound(e).1 <= alpha then Bound(e).0 else Bound(e).1
  {
    if e.depth < depth then None
    else
      var (lo, hi) := Bound(e);
      if hi <= alpha then Some(if fixed then hi else lo)
      else if lo >= beta then Some(if fixed then lo else hi)
      else None
  }

  /** The node type a finished node is stored with: a fail-high, a fail-low or an exact score. */
  function NodeTypeOf(best: I16, alpha: I16, beta: I16): (t: NodeType)
    ensures t == LowerBound <==> best >= beta
    ensures t == UpperBound <==> best <= alpha && best < beta
    ensures t == Exact <==> alpha < best < beta
  {
    if best >= beta then LowerBound else if best <= alpha then UpperBound else Exact
  }

  /** The state of the move loop when it ends: best score and move, alpha, the table, and every score seen. */
  datatype Scanned = Scanned(best: I16, bestMove: U32, alpha: I16, slots: seq<U64>, scores: seq<I16>)

  /** The move loop's bookkeeping: the best score, its move, and alpha. */
  datatype Choice = Choice(best: I16, bestMove: U32, alpha: I16)

  /** One move of negamax_pv's loop: a better score becomes the best, and raises alpha when it beats it. */
  function Update(c: Choice, mv: U32, score: I16): Choice {
    if score > c.best then Choice(score, mv, if score > c.alpha then score else c.alpha) else c
  }

  /** The loop breaks after a score that becomes the best and raises alpha to beta or beyond. */
  predicate Cut(c: Choice, score: I16, beta: I16) {
    score > c.best && score > c.alpha && score >= beta
  }

  /** The cutoff the table gives node n at this depth and window, if any. */
  function TableCut(slots: seq<U64>, age: U8, n: Node, depth: U8, alpha: I16, beta: I16, fixed: bool): Option<I16>
    requires |slots| > 0
  {
    var probe := ProbeIn(slots, age, n.key);
    if probe.Some? then Cutoff(probe.value, depth, alpha, beta, fixed) else None
  }

  /** negamax_pv(depth, alpha, beta) at node n, with the table after it. */
  function Negamax(slots: seq<U64>, age: U8, n: Node, depth: U8, alpha: I16, beta: I16, fixed: bool): (r: (I16, seq<U64>))
    requires |slots| > 0
    ensures |r.1| == |slots|
    decreases n, 2
  {
    var cut := TableCut(slots, age, n, depth, alpha, beta, fixed);
    if cut.Some? then (cut.value, slots)
    else if depth == 0 then (n.eval, slots)
    else if |n.edges| == 0 then (if n.inCheck then -MATE else 0, slots)
    else
      var s := Scan(slots, age, n, depth, 0, alpha, beta, -INFINITE, 0, [], fixed);
      var nodeType := NodeTypeOf(s.best, if fixed then alpha else s.alpha, beta);
      (s.best, StoreIn(s.slots, age, n.key, s.best, depth, nodeType, s.bestMove))
  }

  /**
   * The move loop of negamax_pv from move i on: a better score becomes the
   * best, and when it also beats alpha it raises alpha, stopping at beta.
   */
  function Scan(slots: seq<U64>, age: U8, n: Node, depth: U8, i: nat, alpha: I16, beta: I16,
                best: I16, bestMove: U32, scores: seq<I16>, fixed: bool): (r: Scanned)
    requires |slots| > 0 && depth >= 1 && i <= |n.edges|
    ensures |r.slots| == |slots|
    decreases n, 1, |n.edges| - i
  {
    if i == |n.edges| then Scanned(best, bestMove, alpha, slots, scores)
    else
      var e := n.edges[i];
      var (score, after) := ChildScore(slots, age, e.child, depth, alpha, beta, fixed);
      var c := Update(Choice(best, bestMove, alpha), e.mv, score);
      if Cut(Choice(best, bestMove, alpha), score, beta) then Scanned(c.best, c.bestMove, c.alpha, after, scores + [score])
      else Scan(after, age, n, depth, i + 1, c.alpha, beta, c.best, c.bestMove, scores + [score], fixed)
  }

  /** One move of negamax_pv's loop: a cut ends the scan, otherwise it goes on from the next move. */
  lemma ScanStep(slots: seq<U64>, age: U8, n: Node, depth: U8, i: nat, alpha: I16, beta: I16,
                 best: I16, bestMove: U32, scores: seq<I16>, fixed: bool, score: I16, after: seq<U64>)
    requires |slots| > 0 && depth >= 1 && i < |n.edges|
    requires (score, after) == ChildScore(slots, age, n.edges[i].child, depth, alpha, beta, fixed)
    ensures var c := Update(Choice(best, bestMove, alpha), n.edges[i].mv, score);
      Scan(slots, age, n, depth, i, alpha, beta, best, bestMove, scores, fixed) ==
      if Cut(Choice(best, bestMove, alpha), score, beta) then Scanned(c.best, c.bestMove, c.alpha, after, scores + [score])
      else Scan(after, age, n, depth, i + 1, c.alpha, beta, c.best, c.bestMove, scores + [score], fixed)
  {
  }

  /**
   * The score of one move for the mover: at depth 1 the static evaluation of
   * the child (from the opponent's side; as written it is not negated),
   * deeper the negated search of the child with the negated window.
   */
  function ChildScore(slots: seq<U64>, age: U8, child: Node, depth: U8, alpha: I16, beta: I16, fixed: bool): (r: (I16, seq<U64>))
    requires |slots| > 0 && depth >= 1
    ensures |r.1| == |slots|
    decreases child, 4
  {
    if depth == 1 then (if fixed then Eval.Neg(child.eval) else child.eval, slots)
    else Deeper(slots, age, child, depth - 1, alpha, beta, fixed)
  }

  /** The negated search of a child to `depth` under the negated window. */
  function Deeper(slots: seq<U64>, age: U8, child: Node, depth: U8, alpha: I16, beta: I16, fixed: bool): (r: (I16, seq<U64>))
    requires |slots| > 0
    ensures |r.1| == |slots|
    decreases child, 3
  {
    var (score, after) := Negamax(slots, age, child, depth, Eval.Neg(beta), Eval.Neg(alpha), fixed);
    (Eval.Neg(score), after)
  }

  // ---------------------------------------------------------------------
  // iddfs and search

  /** One move of iddfs's root loop: a strictly better score becomes the best; alpha stays. */
  function RootUpdate(c: Choice, mv: U32, score: I16): Choice {
    if score > c.best then c.(best := score, bestMove := mv) else c
  }

  /** One root move: its score stops the scan at beta, otherwise the scan goes on from the next move. */
  lemma RootScanStep(slots: seq<U64>, age: U8, root: Node, depth: U8, i: nat, alpha: I16, beta: I16,
                     best: I16, bestMove: U32, scores: seq<I16>, fixed: bool, score: I16, after: seq<U64>)
    requires |slots| > 0 && depth >= 1 && i < |root.edges|
    requires (score, after) == ChildScore(slots, age, root.edges[i].child, depth, alpha, beta, fixed)
    ensures var c := RootUpdate(Choice(best, bestMove, alpha), root.edges[i].mv, score);
      RootScan(slots, age, root, depth, i, alpha, beta, best, bestMove, scores, fixed) ==
      if score >= beta then Scanned(c.best, c.bestMove, alpha, after, scores + [score])
      else RootScan(after, age, root, depth, i + 1, alpha, beta, c.best, c.bestMove, scores + [score], fixed)
  {
  }

  /** The root move loop of iddfs: alpha never moves, the first strictly better score wins, a score at beta stops. */
  function RootScan(slots: seq<U64>, age: U8, root: Node, depth: U8, i: nat, alpha: I16, beta: I16,
                    best: I16, bestMove: U32, scores: seq<I16>, fixed: bool): (r: Scanned)
    requires |slots| > 0 && depth >= 1 && i <= |root.edges|
    ensures |r.slots| == |slots| && r.alpha == alpha
    decreases |root.edges| - i
  {
    if i == |root.edges| then Scanned(best, bestMove, alpha, slots, scores)
    else
      var e := root.edges[i];
      var (score, after) := ChildScore(slots, age, e.child, depth, alpha, beta, fixed);
      var c := RootUpdate(Choice(best, bestMove, alpha), e.mv, score);
      if score >= beta then Scanned(c.best, c.bestMove, alpha, after, scores + [score])
      else RootScan(after, age, root, depth, i + 1, alpha, beta, c.best, c.bestMove, scores + [score], fixed)
  }

  /**
   * iddfs(depth, best_move, alpha, beta): (best move, score, table). With no
   * root moves the static evaluation is stored and returned with move 0;
   * otherwise the root result is stored as Exact.
   */
  function RootSearch(slots: seq<U64>, age: U8, root: Node, depth: U8, bestMove: U32, alpha: I16, beta: I16, fixed: bool): (r: (U32, I16, seq<U64>))
    requires |slots| > 0 && depth >= 1
    ensures |r.2| == |slots|
  {
    if |root.edges| == 0 then (0, root.eval, StoreIn(slots, age, root.key, root.eval, depth, Exact, 0))
    else
      var s := RootScan(slots, age, root, depth, 0, alpha, beta, -INFINITE, bestMove, [], fixed);
      (s.bestMove, s.best, StoreIn(s.slots, age, root.key, s.best, depth, Exact, s.bestMove))
  }

  /**
   * The iterative-deepening loop from `depth` to `maxDepth` with a full
   * window: (best move, score, table, last depth searched). It stops early
   * only when an iteration scores at least MATE.
   */
  function Deepen(slots: seq<U64>, age: U8, root: Node, depth: nat, maxDepth: U8, bestMove: U32, bestScore: I16, fixed: bool): (r: (U32, I16, seq<U64>, nat))
    requires |slots| > 0 && 1 <= depth <= maxDepth + 1
    ensures |r.2| == |slots|
    ensures depth - 1 <= r.3 <= maxDepth
    ensures r.3 < maxDepth ==> r.1 >= MATE && r.3 >= depth
    ensures r.3 == depth - 1 <==> depth > maxDepth
    ensures depth > maxDepth ==> r == (bestMove, bestScore, slots, depth - 1)
    decreases maxDepth + 1 - depth
  {
    if depth > maxDepth then (bestMove, bestScore, slots, depth - 1)
    else
      var (mv, score, after) := RootSearch(slots, age, root, depth as U8, bestMove, -INFINITE, INFINITE, fixed);
      if score >= MATE then (mv, score, after, depth)
      else Deepen(after, age, root, depth + 1, maxDepth, mv, score, fixed)
  }

  /** One round of iterative deepening: stop on a mate score, else deepen from the round's result. */
  lemma DeepenStep(slots: seq<U64>, age: U8, root: Node, depth: nat, maxDepth: U8, bestMove: U32, bestScore: I16,
                   fixed: bool, mv: U32, score: I16, after: seq<U64>)
    requires |slots| > 0 && 1 <= depth <= maxDepth
    requires (mv, score, after) == RootSearch(slots, age, root, depth as U8, bestMove, -INFINITE, INFINITE, fixed)
    ensures Deepen(slots, age, root, depth, maxDepth, bestMove, bestScore, fixed) ==
      if score >= MATE then (mv, score, after, depth) else Deepen(after, age, root, depth + 1, maxDepth, mv, score, fixed)
  {
  }

  /**
   * search(max_depth): a new table generation, then iterative deepening
   * from depth 1 with no move and -INFINITE. Depth 0 searches nothing.
   */
  function SearchOutcome(slots: seq<U64>, age: U8, root: Node, maxDepth: U8, fixed: bool): (r: (U32, I16, seq<U64>, nat))
    requires |slots| > 0
    ensures maxDepth == 0 ==> r == (0, -INFINITE, slots, 0)
    ensures 1 <= r.3 <= maxDepth || maxDepth == 0
    ensures r.3 < maxDepth ==> r.1 >= MATE
  {
    Deepen(slots, (age + 1) % 256, root, 1, maxDepth, 0, -INFINITE, fixed)
  }

  // ---------------------------------------------------------------------
  // What the move loops compute

  /** The bookkeeping of negamax_pv's loop over the scores it saw, from a start state. */
  function Pick(start: Choice, edges: seq<Edge>, scores: seq<I16>): Choice
    requires |scores| <= |edges|
    decreases |scores|
  {
    if |scores| == 0 then start else Pick(Update(start, edges[0].mv, scores[0]), edges[1..], scores[1..])
  }

  /** The bookkeeping of iddfs's root loop over the scores it saw. */
  function RootPick(start: Choice, edges: seq<Edge>, scores: seq<I16>): Choice
    requires |scores| <= |edges|
    decreases |scores|
  {
    if |scores| == 0 then start else RootPick(RootUpdate(start, edges[0].mv, scores[0]), edges[1..], scores[1..])
  }

  /** The loop saw every move, or stopped at the first score that cuts off and at no other. */
  predicate Consistent(start: Choice, edges: seq<Edge>, scores: seq<I16>, beta: I16)
    decreases |scores|
  {
    |scores| <= |edges| &&
    if |scores| == 0 then |edges| == 0
    else if Cut(start, scores[0], beta) then |scores| == 1
    else Consistent(Update(start, edges[0].mv, scores[0]), edges[1..], scores[1..], beta)
  }

  /** The root loop saw every move, or stopped at its first score at beta. */
  predicate RootConsistent(start: Choice, edges: seq<Edge>, scores: seq<I16>, beta: I16)
    decreases |scores|
  {
    |scores| <= |edges| &&
    if |scores| == 0 then |edges| == 0
    else if scores[0] >= beta then |scores| == 1
    else RootConsistent(RootUpdate(start, edges[0].mv, scores[0]), edges[1..], scores[1..], beta)
  }

  /**
   * The move loop of negamax_pv keeps its bookkeeping by Pick over the
   * scores it appended, and runs over every move or up to the first cutoff.
   */
  lemma {:induction false} ScanIsPick(slots: seq<U64>, age: U8, n: Node, depth: U8, i: nat, alpha: I16, beta: I16,
                                      best: I16, bestMove: U32, scores: seq<I16>, fixed: bool)
    requires |slots| > 0 && depth >= 1 && i <= |n.edges|
    ensures var r := Scan(slots, age, n, depth, i, alpha, beta, best, bestMove, scores, fixed);
      |scores| <= |r.scores| && r.scores[..|scores|] == scores &&
      Consistent(Choice(best, bestMove, alpha), n.edges[i..], r.scores[|scores|..], beta) &&
      Pick(Choice(best, bestMove, alpha), n.edges[i..], r.scores[|scores|..]) == Choice(r.best, r.bestMove, r.alpha)
    decreases |n.edges| - i
  {
    var start := Choice(best, bestMove, alpha);
    var r := Scan(slots, age, n, depth, i, alpha, beta, best, bestMove, scores, fixed);
    if i < |n.edges| {
      var e := n.edges[i];
      var c := ChildScore(slots, age, e.child, depth, alpha, beta, fixed);
      var seen := scores + [c.0];
      var next := Update(start, e.mv, c.0);
      assert n.edges[i..][0] == e && n.edges[i..][1..] == n.edges[i + 1..];
      if Cut(start, c.0, beta) {
        assert r == Scanned(next.best, next.bestMove, next.alpha, c.1, seen);
        assert r.scores[|scores|..] == [c.0];
      } else {
        assert r == Scan(c.1, age, n, depth, i + 1, next.alpha, beta, next.best, next.bestMove, seen, fixed);
        ScanIsPick(c.1, age, n, depth, i + 1, next.alpha, beta, next.best, next.bestMove, seen, fixed);
        assert r.scores[..|seen|] == seen;
        assert r.scores[..|scores|] == seen[..|scores|] == scores;
        assert r.scores[|scores|..][0] == c.0 && r.scores[|scores|..][1..] == r.scores[|seen|..];
      }
    } else {
      assert n.edges[i..] == [];
    }
  }

  /** The root loop of iddfs keeps its bookkeeping by RootPick and runs over every move or up to the first score at beta. */
  lemma {:induction false} RootScanIsPick(slots: seq<U64>, age: U8, root: Node, depth: U8, i: nat, alpha: I16, beta: I16,
                                          best: I16, bestMove: U32, scores: seq<I16>, fixed: bool)
    requires |slots| > 0 && depth >= 1 && i <= |root.edges|
    ensures var r := RootScan(slots, age, root, depth, i, alpha, beta, best, bestMove, scores, fixed);
      |scores| <= |r.scores| && r.scores[..|scores|] == scores &&
      RootConsistent(Choice(best, bestMove, alpha), root.edges[i..], r.scores[|scores|..], beta) &&
      RootPick(Choice(best, bestMove, alpha), root.edges[i..], r.scores[|scores|..]) == Choice(r.best, r.bestMove, alpha)
    decreases |root.edges| - i
  {
    var start := Choice(best, bestMove, alpha);
    var r := RootScan(slots, age, root, depth, i, alpha, beta, best, bestMove, scores, fixed);
    if i < |root.edges| {
      var e := root.edges[i];
      var c := ChildScore(slots, age, e.child, depth, alpha, beta, fixed);
      var seen := scores + [c.0];
      var next := RootUpdate(start, e.mv, c.0);
      assert root.edges[i..][0] == e && root.edges[i..][1..] == root.edges[i + 1..];
      if c.0 >= beta {
        assert r == Scanned(next.best, next.bestMove, alpha, c.1, seen);
        assert r.scores[|scores|..] == [c.0];
      } else {
        assert r == RootScan(c.1, age, root, depth, i + 1, alpha, beta, next.best, next.bestMove, seen, fixed);
        RootScanIsPick(c.1, age, root, depth, i + 1, alpha, beta, next.best, next.bestMove, seen, fixed);
        assert r.scores[..|seen|] == seen;
        assert r.scores[..|scores|] == seen[..|scores|] == scores;
        assert r.scores[|scores|..][0] == c.0 && r.scores[|scores|..][1..] == r.scores[|seen|..];
      }
    } else {
      assert root.edges[i..] == [];
    }
  }

  /**
   * The best never drops and bounds every score; when it improved, its move
   * is the move of the first score equal to it, every earlier score being
   * strictly lower.
   */
  lemma {:induction false} PickFirstBest(start: Choice, edges: seq<Edge>, scores: seq<I16>)
    requires |scores| <= |edges|
    ensures var c := Pick(start, edges, scores);
      c.best >= start.best && (forall j | 0 <= j < |scores| :: scores[j] <= c.best) &&
      ((c.best == start.best && c.bestMove == start.bestMove) ||
       (c.best > start.best && exists j | 0 <= j < |scores| ::
          scores[j] == c.best && c.bestMove == edges[j].mv && forall k | 0 <= k < j :: scores[k] < c.best))
    decreases |scores|
  {
    if |scores| > 0 {
      var next := Update(start, edges[0].mv, scores[0]);
      PickFirstBest(next, edges[1..], scores[1..]);
      var c := Pick(start, edges, scores);
      assert c == Pick(next, edges[1..], scores[1..]);
      if c.best == next.best && c.bestMove == next.bestMove {
        if scores[0] > start.best {
          assert scores[0] == c.best && c.bestMove == edges[0].mv;
        }
      } else {
        var j :| 0 <= j < |scores| - 1 && scores[1..][j] == c.best && c.bestMove == edges[1..][j].mv &&
                 forall k | 0 <= k < j :: scores[1..][k] < c.best;
        assert scores[j + 1] == c.best && c.bestMove == edges[j + 1].mv;
        assert forall k | 0 <= k < j + 1 :: scores[k] < c.best by {
          forall k | 0 <= k < j + 1 ensures scores[k] < c.best {
            if k > 0 {
              assert scores[k] == scores[1..][k - 1];
            }
          }
        }
      }
    }
  }

  /** The root loop's choice: the same first-best selection, under the root rule. */
  lemma {:induction false} RootPickFirstBest(start: Choice, edges: seq<Edge>, scores: seq<I16>)
    requires |scores| <= |edges|
    ensures var c := RootPick(start, edges, scores);
      c.alpha == start.alpha && c.best >= start.best && (forall j | 0 <= j < |scores| :: scores[j] <= c.best) &&
      ((c.best == start.best && c.bestMove == start.bestMove) ||
       (c.best > start.best && exists j | 0 <= j < |scores| ::
          scores[j] == c.best && c.bestMove == edges[j].mv && forall k | 0 <= k < j :: scores[k] < c.best))
    decreases |scores|
  {
    if |scores| > 0 {
      var next := RootUpdate(start, edges[0].mv, scores[0]);
      RootPickFirstBest(next, edges[1..], scores[1..]);
      var c := RootPick(start, edges, scores);
      assert c == RootPick(next, edges[1..], scores[1..]);
      if c.best == next.best && c.bestMove == next.bestMove {
        if scores[0] > start.best {
          assert scores[0] == c.best && c.bestMove == edges[0].mv;
        }
      } else {
        var j :| 0 <= j < |scores| - 1 && scores[1..][j] == c.best && c.bestMove == edges[1..][j].mv &&
                 forall k | 0 <= k < j :: scores[1..][k] < c.best;
        assert scores[j + 1] == c.best && c.bestMove == edges[j + 1].mv;
        assert forall k | 0 <= k < j + 1 :: scores[k] < c.best by {
          forall k | 0 <= k < j + 1 ensures scores[k] < c.best {
            if k > 0 {
              assert scores[k] == scores[1..][k - 1];
            }
          }
        }
      }
    }
  }

  /**
   * Started inside the window, the loop's scores all stay below beta except
   * possibly the last, and it ends before the last move only on a score at
   * or above beta.
   */
  lemma {:induction false} ConsistentStops(start: Choice, edges: seq<Edge>, scores: seq<I16>, beta: I16)
    requires Consistent(start, edges, scores, beta) && start.alpha < beta && start.best < beta
    ensures forall j | 0 <= j < |scores| - 1 :: scores[j] < beta
    ensures |scores| < |edges| ==> 0 < |scores| && scores[|scores| - 1] >= beta
    decreases |scores|
  {
    if |scores| > 0 && !Cut(start, scores[0], beta) {
      var next := Update(start, edges[0].mv, scores[0]);
      ConsistentStops(next, edges[1..], scores[1..], beta);
      assert forall j | 1 <= j < |scores| :: scores[j] == scores[1..][j - 1];
    }
  }

  /** The root loop's scores all stay below beta except possibly the last, which ends it early. */
  lemma {:induction false} RootConsistentStops(start: Choice, edges: seq<Edge>, scores: seq<I16>, beta: I16)
    requires RootConsistent(start, edges, scores, beta)
    ensures forall j | 0 <= j < |scores| - 1 :: scores[j] < beta
    ensures |scores| < |edges| ==> 0 < |scores| && scores[|scores| - 1] >= beta
    decreases |scores|
  {
    if |scores| > 0 && scores[0] < beta {
      var next := RootUpdate(start, edges[0].mv, scores[0]);
      RootConsistentStops(next, edges[1..], scores[1..], beta);
      assert forall j | 1 <= j < |scores| :: scores[j] == scores[1..][j - 1];
    }
  }

  /** Started with the best at most alpha, the loop leaves alpha at the larger of alpha and the best. */
  lemma {:induction false} PickAlpha(start: Choice, edges: seq<Edge>, scores: seq<I16>)
    requires |scores| <= |edges| && start.best <= start.alpha
    ensures Pick(start, edges, scores).alpha == Max(start.alpha, Pick(start, edges, scores).best)
    decreases |scores|
  {
    if |scores| > 0 {
      var next := Update(start, edges[0].mv, scores[0]);
      PickAlpha(next, edges[1..], scores[1..]);
      PickFirstBest(next, edges[1..], scores[1..]);
    }
  }

  /**
   * negamax_pv's rules before the move loop, at every node: a table cutoff
   * returns its score, otherwise depth 0 returns the static evaluation and a
   * node without moves returns -MATE in check and 0 (stalemate) out of it;
   * none of these touches the table.
   */
  lemma NegamaxRules(slots: seq<U64>, age: U8, n: Node, depth: U8, alpha: I16, beta: I16, fixed: bool)
    requires |slots| > 0
    ensures var cut := TableCut(slots, age, n, depth, alpha, beta, fixed);
      var r := Negamax(slots, age, n, depth, alpha, beta, fixed);
      (cut.Some? ==> r == (cut.value, slots)) &&
      (cut.None? && depth == 0 ==> r == (n.eval, slots)) &&
      (cut.None? && depth > 0 && |n.edges| == 0 && n.inCheck ==> r == (-MATE, slots)) &&
      (cut.None? && depth > 0 && |n.edges| == 0 && !n.inCheck ==> r == (0, slots)) &&
      (cut.None? && depth > 0 && |n.edges| > 0 ==> r.0 == Scan(slots, age, n, depth, 0, alpha, beta, -INFINITE, 0, [], fixed).best)
  {
  }

  /**
   * negamax_pv's move loop from the first move: the best bounds every score
   * seen, the best move is the first move reaching it, every score before
   * the last is below beta, and the loop ends early only on a score at beta.
   */
  lemma ScanSelects(slots: seq<U64>, age: U8, n: Node, depth: U8, alpha: I16, beta: I16, fixed: bool)
    requires |slots| > 0 && depth >= 1 && -INFINITE <= alpha < beta && |n.edges| > 0
    ensures var r := Scan(slots, age, n, depth, 0, alpha, beta, -INFINITE, 0, [], fixed);
      0 < |r.scores| <= |n.edges| &&
      (forall j | 0 <= j < |r.scores| :: r.scores[j] <= r.best) &&
      (r.best == -INFINITE ==> r.bestMove == 0) &&
      (r.best > -INFINITE ==> exists j | 0 <= j < |r.scores| ::
         r.scores[j] == r.best && r.bestMove == n.edges[j].mv && forall k | 0 <= k < j :: r.scores[k] < r.best) &&
      (forall j | 0 <= j < |r.scores| - 1 :: r.scores[j] < beta) &&
      (|r.scores| < |n.edges| ==> r.scores[|r.scores| - 1] >= beta) &&
      r.alpha == Max(alpha, r.best)
  {
    var r := Scan(slots, age, n, depth, 0, alpha, beta, -INFINITE, 0, [], fixed);
    var start := Choice(-INFINITE, 0, alpha);
    ScanIsPick(slots, age, n, depth, 0, alpha, beta, -INFINITE, 0, [], fixed);
    assert n.edges[0..] == n.edges && r.scores[0..] == r.scores;
    PickFirstBest(start, n.edges, r.scores);
    ConsistentStops(start, n.edges, r.scores, beta);
    PickAlpha(start, n.edges, r.scores);
  }

  /**
   * iddfs's root loop: the best bounds every score seen, the best move is the
   * first move reaching it (or the incoming move when nothing beats
   * -INFINITE), and the loop ends early only on a score at beta.
   */
  lemma RootScanSelects(slots: seq<U64>, age: U8, root: Node, depth: U8, bestMove: U32, alpha: I16, beta: I16, fixed: bool)
    requires |slots| > 0 && depth >= 1 && |root.edges| > 0
    ensures var r := RootScan(slots, age, root, depth, 0, alpha, beta, -INFINITE, bestMove, [], fixed);
      0 < |r.scores| <= |root.edges| &&
      (forall j | 0 <= j < |r.scores| :: r.scores[j] <= r.best) &&
      (r.best == -INFINITE ==> r.bestMove == bestMove) &&
      (r.best > -INFINITE ==> exists j | 0 <= j < |r.scores| ::
         r.scores[j] == r.best && r.bestMove == root.edges[j].mv && forall k | 0 <= k < j :: r.scores[k] < r.best) &&
      (forall j | 0 <= j < |r.scores| - 1 :: r.scores[j] < beta) &&
      (|r.scores| < |root.edges| ==> r.scores[|r.scores| - 1] >= beta)
  {
    var r := RootScan(slots, age, root, depth, 0, alpha, beta, -INFINITE, bestMove, [], fixed);
    var start := Choice(-INFINITE, bestMove, alpha);
    RootScanIsPick(slots, age, root, depth, 0, alpha, beta, -INFINITE, bestMove, [], fixed);
    assert root.edges[0..] == root.edges && r.scores[0..] == r.scores;
    RootPickFirstBest(start, root.edges, r.scores);
    RootConsistentStops(start, root.edges, r.scores, beta);
  }

  /**
   * A root without moves returns move 0 and its static evaluation, and when
   * the slot accepts the store a later probe finds that score as Exact.
   */
  lemma NoRootMovesStoresEval(slots: seq<U64>, age: U8, root: Node, depth: U8, bestMove: U32, alpha: I16, beta: I16, fixed: bool)
    requires |slots| > 0 && depth >= 1 && |root.edges| == 0
    requires Replaces(slots[root.key % |slots|], root.key, depth, Exact, age)
    requires Pack(Entry(root.key, root.eval, depth, Exact, 0, age)) != 0
    ensures var r := RootSearch(slots, age, root, depth, bestMove, alpha, beta, fixed);
      r.0 == 0 && r.1 == root.eval &&
      ProbeIn(r.2, age, root.key) == Some(Kept(root.key, Entry(root.key, root.eval, depth, Exact, 0, age)))
  {
    ProbeAfterStore(root.key, root.eval, depth, Exact, 0, age);
  }

  /** Every iteration on a root without moves returns move 0 and the root's static evaluation. */
  lemma {:induction false} DeepenNoMoves(slots: seq<U64>, age: U8, root: Node, depth: nat, maxDepth: U8, bestMove: U32, bestScore: I16, fixed: bool)
    requires |slots| > 0 && 1 <= depth <= maxDepth && |root.edges| == 0
    ensures var r := Deepen(slots, age, root, depth, maxDepth, bestMove, bestScore, fixed);
      r.0 == 0 && r.1 == root.eval && (root.eval < MATE ==> r.3 == maxDepth)
    decreases maxDepth - depth
  {
    var after := RootSearch(slots, age, root, depth as U8, bestMove, -INFINITE, INFINITE, fixed).2;
    if depth < maxDepth && root.eval < MATE {
      DeepenNoMoves(after, age, root, depth + 1, maxDepth, 0, root.eval, fixed);
    }
  }

  /** search(Some(d)) on a position without moves: move 0 and the static evaluation, for every d >= 1. */
  lemma SearchWithoutMoves(slots: seq<U64>, age: U8, root: Node, maxDepth: U8, fixed: bool)
    requires |slots| > 0 && |root.edges| == 0 && maxDepth >= 1
    ensures var r := SearchOutcome(slots, age, root, maxDepth, fixed);
      r.0 == 0 && r.1 == root.eval
  {
    DeepenNoMoves(slots, (age + 1) % 256, root, 1, maxDepth, 0, -INFINITE, fixed);
  }

  // ---------------------------------------------------------------------
  // Defects of the search as written, and the intended behaviour

  /**
   * An upper-bound entry at or below alpha cuts off with its lower end,
   * i16::MIN, whose negation in the parent wraps back to i16::MIN instead of
   * the bound -score the entry proves.
   */
  lemma AsWrittenUpperCutoff(e: Entry, depth: U8, alpha: I16, beta: I16)
    requires e.nodeType == UpperBound && e.depth >= depth && e.score <= alpha && e.score > I16_MIN
    ensures Cutoff(e, depth, alpha, beta, false) == Some(I16_MIN)
    ensures Eval.Neg(Cutoff(e, depth, alpha, beta, false).value) == I16_MIN < Eval.Neg(e.score)
  {
    assert Bound(e) == (I16_MIN, e.score);
  }

  /** The intended cutoff returns the stored score, which the parent negates exactly. */
  lemma CorrectedUpperCutoff(e: Entry, depth: U8, alpha: I16, beta: I16)
    requires e.nodeType == UpperBound && e.depth >= depth && e.score <= alpha && e.score > I16_MIN
    ensures Cutoff(e, depth, alpha, beta, true) == Some(e.score)
    ensures Eval.Neg(Cutoff(e, depth, alpha, beta, true).value) == -e.score >= -alpha
  {
  }

  /**
   * The node type is classified against the alpha the loop raised, which is
   * never below the best, so negamax_pv as written never stores Exact.
   */
  lemma AsWrittenNeverExact(slots: seq<U64>, age: U8, n: Node, depth: U8, alpha: I16, beta: I16, fixed: bool)
    requires |slots| > 0 && depth >= 1 && alpha >= -INFINITE
    ensures var s := Scan(slots, age, n, depth, 0, alpha, beta, -INFINITE, 0, [], fixed);
      NodeTypeOf(s.best, s.alpha, beta) != Exact
  {
    var s := Scan(slots, age, n, depth, 0, alpha, beta, -INFINITE, 0, [], fixed);
    ScanIsPick(slots, age, n, depth, 0, alpha, beta, -INFINITE, 0, [], fixed);
    assert n.edges[0..] == n.edges && s.scores[0..] == s.scores;
    PickAlpha(Choice(-INFINITE, 0, alpha), n.edges, s.scores);
  }

  /**
   * A node whose one reply scores inside the window: as written it scores
   * the child's unnegated evaluation and stores an upper bound; intended, it
   * scores the negation and stores Exact.
   */
  lemma ExactScoreStoredAsBound(slots: seq<U64>, age: U8)
    requires |slots| > 0
    ensures var n := Node(1, 0, false, [Edge(7, Node(2, -5, false, []))]);
      var w := Scan(slots, age, n, 1, 0, -100, 100, -INFINITE, 0, [], false);
      var f := Scan(slots, age, n, 1, 0, -100, 100, -INFINITE, 0, [], true);
      w.best == -5 && NodeTypeOf(w.best, w.alpha, 100) == UpperBound &&
      f.best == 5 && NodeTypeOf(f.best, -100, 100) == Exact
  {
  }

  /**
   * At depth 1 the intended score agrees with searching the child to depth 0
   * (when the child's probe misses); as written it differs for every
   * evaluation other than 0 and i16::MIN.
   */
  lemma DepthOneShortcut(slots: seq<U64>, age: U8, child: Node, alpha: I16, beta: I16)
    requires |slots| > 0 && ProbeIn(slots, age, child.key) == None
    ensures ChildScore(slots, age, child, 1, alpha, beta, true) ==
            (Eval.Neg(Negamax(slots, age, child, 0, Eval.Neg(beta), Eval.Neg(alpha), true).0), slots)
    ensures child.eval != 0 && child.eval != I16_MIN ==>
            ChildScore(slots, age, child, 1, alpha, beta, false).0 !=
            Eval.Neg(Negamax(slots, age, child, 0, Eval.Neg(beta), Eval.Neg(alpha), false).0)
  {
  }

  /**
   * A depth-1 root search with a quiet move (opponent evaluation 0) and a
   * queen capture (opponent evaluation -900): as written it picks the quiet
   * move, intended it picks the capture.
   */
  lemma WinningCaptureIgnored(slots: seq<U64>, age: U8)
    requires |slots| > 0
    ensures var root := Node(1, 0, false, [Edge(100, Node(2, 0, false, [])), Edge(200, Node(3, -900, false, []))]);
      RootSearch(slots, age, root, 1, 0, -INFINITE, INFINITE, false).0 == 100 &&
      RootSearch(slots, age, root, 1, 0, -INFINITE, INFINITE, true).0 == 200 &&
      RootSearch(slots, age, root, 1, 0, -INFINITE, INFINITE, true).1 == 900
  {
  }

  // ---------------------------------------------------------------------
  // The engine

  class Searcher {
    var tt: Table
    var params: SearchParams

    /** Search::new: a fresh table of tt_size_mb and the given parameters. */
    constructor (ttSizeMb: nat, params: SearchParams)
      ensures this.params == params && fresh(tt) && fresh(tt.entries)
      ensures tt.Valid() && tt.age == 0 && tt.entries.Length == SlotCount(ttSizeMb)
      ensures forall i | 0 <= i < tt.entries.Length :: tt.entries[i] == 0
    {
      tt := new Table(ttSizeMb);
      this.params := params;
    }

    /** Search::with_board: 16 MB and the default parameters with depth 8 and 5 s. */
    constructor WithBoard()
      ensures params == WithTimeLimit(WithMaxDepth(DefaultParams(), 8), 5000)
      ensures params.maxDepth == 8 && params.timeLimitMs == 5000
      ensures fresh(tt) && tt.Valid() && tt.age == 0 && tt.entries.Length == SlotCount(16)
    {
      tt := new Table(16);
      params := WithTimeLimit(WithMaxDepth(DefaultParams(), 8), 5000);
    }

    /** negamax_pv: computes Negamax on the current table and leaves its table behind. */
    method NegamaxPv(n: Node, depth: U8, alpha: I16, beta: I16, fixed: bool) returns (score: I16)
      requires tt.Valid()
      modifies tt.entries
      ensures (score, tt.entries[..]) == Negamax(old(tt.entries[..]), tt.age, n, depth, alpha, beta, fixed)
      decreases n, 2
    {
      ghost var slots := tt.entries[..];
      var probe := tt.Probe(n.key);
      assert probe == ProbeIn(slots, tt.age, n.key);
      if probe.Some? {
        var cut := Cutoff(probe.value, depth, alpha, beta, fixed);
        if cut.Some? {
          return cut.value;
        }
      }
      if depth == 0 {
        return n.eval;
      }
      if |n.edges| == 0 {
        if n.inCheck {
          return -MATE;
        }
        return 0;
      }
      var s := MoveLoop(n, depth, alpha, beta, fixed);
      var nodeType := NodeTypeOf(s.best, if fixed then alpha else s.alpha, beta);
      tt.Store(n.key, s.best, depth, nodeType, s.bestMove);
      score := s.best;
    }

    /** The move loop of negamax_pv: computes Scan from the first move. */
    method MoveLoop(n: Node, depth: U8, alpha: I16, beta: I16, fixed: bool) returns (s: Scanned)
      requires tt.Valid() && depth >= 1
      modifies tt.entries
      ensures s == Scan(old(tt.entries[..]), tt.age, n, depth, 0, alpha, beta, -INFINITE, 0, [], fixed)
      ensures s.slots == tt.entries[..]
      decreases n, 1
    {
      ghost var age := tt.age;
      ghost var total := Scan(tt.entries[..], age, n, depth, 0, alpha, beta, -INFINITE, 0, [], fixed);
      var best: I16, bestMove: U32, a: I16 := -INFINITE, 0, alpha;
      var scores: seq<I16> := [];
      for i := 0 to |n.edges|
        invariant tt.age == age
        invariant total == Scan(tt.entries[..], age, n, depth, i, a, beta, best, bestMove, scores, fixed)
      {
        ghost var before := tt.entries[..];
        var e := n.edges[i];
        var score := Child(e.child, depth, a, beta, fixed);
        ghost var after := tt.entries[..];
        ScanStep(before, age, n, depth, i, a, beta, best, bestMove, scores, fixed, score, after);
        scores := scores + [score];
        if score > best {
          best, bestMove := score, e.mv;
          if best > a {
            a := best;
            if a >= beta {
              break;
            }
          }
        }
      }
      s := Scanned(best, bestMove, a, tt.entries[..], scores);
    }

    /** The score of one move: computes ChildScore. */
    method Child(child: Node, depth: U8, alpha: I16, beta: I16, fixed: bool) returns (score: I16)
      requires tt.Valid() && depth >= 1
      modifies tt.entries
      ensures (score, tt.entries[..]) == ChildScore(old(tt.entries[..]), tt.age, child, depth, alpha, beta, fixed)
      decreases child, 3
    {
      if depth == 1 {
        score := if fixed then Eval.Neg(child.eval) else child.eval;
      } else {
        var v := NegamaxPv(child, depth - 1, Eval.Neg(beta), Eval.Neg(alpha), fixed);
        score := Eval.Neg(v);
      }
    }

    /** iddfs: computes RootSearch on the current table and leaves its table behind. */
    method Iddfs(root: Node, depth: U8, bestMove: U32, alpha: I16, beta: I16, fixed: bool) returns (mv: U32, score: I16)
      requires tt.Valid() && depth >= 1
      modifies tt.entries
      ensures (mv, score, tt.entries[..]) == RootSearch(old(tt.entries[..]), tt.age, root, depth, bestMove, alpha, beta, fixed)
    {
      if |root.edges| == 0 {
        tt.Store(root.key, root.eval, depth, Exact, 0);
        return 0, root.eval;
      }
      var s := RootLoop(root, depth, bestMove, alpha, beta, fixed);
      tt.Store(root.key, s.best, depth, Exact, s.bestMove);
      return s.bestMove, s.best;
    }

    /** The root move loop of iddfs: computes RootScan from the first move. */
    method RootLoop(root: Node, depth: U8, bestMove: U32, alpha: I16, beta: I16, fixed: bool) returns (s: Scanned)
      requires tt.Valid() && depth >= 1
      modifies tt.entries
      ensures s == RootScan(old(tt.entries[..]), tt.age, root, depth, 0, alpha, beta, -INFINITE, bestMove, [], fixed)
      ensures s.slots == tt.entries[..]
    {
      ghost var age := tt.age;
      ghost var total := RootScan(tt.entries[..], age, root, depth, 0, alpha, beta, -INFINITE, bestMove, [], fixed);
      var best: I16, bestRoot := -INFINITE, bestMove;
      var scores: seq<I16> := [];
      for i := 0 to |root.edges|
        invariant tt.age == age
        invariant total == RootScan(tt.entries[..], age, root, depth, i, alpha, beta, best, bestRoot, scores, fixed)
      {
        ghost var before := tt.entries[..];
        var e := root.edges[i];
        var score := Child(e.child, depth, alpha, beta, fixed);
        ghost var after := tt.entries[..];
        RootScanStep(before, age, root, depth, i, alpha, beta, best, bestRoot, scores, fixed, score, after);
        scores := scores + [score];
        if score > best {
          best, bestRoot := score, e.mv;
        }
        if score >= beta {
          break;
        }
      }
      s := Scanned(best, bestRoot, alpha, tt.entries[..], scores);
    }

    /** search(max_depth): computes SearchOutcome, with the parameters' depth when none is given. */
    method Search(root: Node, maxDepth: Option<U8>, fixed: bool) returns (mv: U32, score: I16)
      requires tt.Valid()
      modifies tt, tt.entries
      ensures tt.Valid() && tt.entries == old(tt.entries) && tt.age == (old(tt.age) + 1) % 256
      ensures var outcome := SearchOutcome(old(tt.entries[..]), old(tt.age), root,
                                           if maxDepth.Some? then maxDepth.value else params.maxDepth, fixed);
        mv == outcome.0 && score == outcome.1 && tt.entries[..] == outcome.2
    {
      var max := if maxDepth.Some? then maxDepth.value else params.maxDepth;
      tt.NewSearch();
      mv, score := Deepening(root, max, fixed);
    }

    /** The loop of search: deepen from 1 to max_depth, stopping after a mate score. */
    method Deepening(root: Node, max: U8, fixed: bool) returns (bestMove: U32, bestScore: I16)
      requires tt.Valid()
      modifies tt.entries
      ensures var outcome := Deepen(old(tt.entries[..]), tt.age, root, 1, max, 0, -INFINITE, fixed);
        bestMove == outcome.0 && bestScore == outcome.1 && tt.entries[..] == outcome.2
    {
      ghost var age := tt.age;
      ghost var outcome := Deepen(tt.entries[..], age, root, 1, max, 0, -INFINITE, fixed);
      bestMove, bestScore := 0, -INFINITE;
      for depth := 1 to max + 1
        invariant tt.age == age
        invariant outcome == Deepen(tt.entries[..], age, root, depth, max, bestMove, bestScore, fixed)
      {
        ghost var before := tt.entries[..];
        var m, s := Iddfs(root, depth, bestMove, -INFINITE, INFINITE, fixed);
        ghost var after := tt.entries[..];
        DeepenStep(before, age, root, depth, max, bestMove, bestScore, fixed, m, s, after);
        bestMove, bestScore := m, s;
        if s >= MATE {
          break;
        }
      }
    }
  }
}
