// Bitboards and the bit helpers built on them. A u64 bitboard is modelled by
// the set of its one bits, squares 0..63 with square = 8 * rank + file; the
// lowest set bit is the set's least element, clearing it is removing that
// element, and the population count is the set's cardinality.

module Bits {
  import opened Common

  type Square = s: int | 0 <= s < 64

  type Bitboard = set<Square>

  function File(s: Square): int { s % 8 }

  function Rank(s: Square): int { s / 8 }

  predicate Below(s: int, n: int) { 0 <= s < n }

  /** Every square: the all-ones bitboard. */
  function Full(): (r: Bitboard)
    ensures forall s: Square :: s in r
  {
    set s: int | 0 <= s < 64 && Below(s, 64)
  }

  /** FILE_A .. FILE_H: the squares of file f (0 = A). */
  function FileMask(f: int): (r: Bitboard)
    ensures forall s: Square :: s in r <==> File(s) == f
  {
    set s: int | 0 <= s < 64 && s % 8 == f
  }

  /** RANK_1 .. RANK_8: rank k (1-based) covers squares 8(k-1) .. 8k-1, i.e. 0xFF << 8(k-1). */
  function RankMask(k: int): (r: Bitboard)
    requires 1 <= k <= 8
    ensures forall s: Square :: s in r <==> 8 * (k - 1) <= s < 8 * k
  {
    set s: int | 0 <= s < 64 && s / 8 == k - 1
  }

  /** NOT_FILE_A and NOT_FILE_H: the complements of the edge files. */
  function NotFileA(): (r: Bitboard)
    ensures forall s: Square :: s in r <==> File(s) != 0
  {
    Full() - FileMask(0)
  }

  function NotFileH(): (r: Bitboard)
    ensures forall s: Square :: s in r <==> File(s) != 7
  {
    Full() - FileMask(7)
  }

  // ---------------------------------------------------------------------
  // Lowest bit, population count, iteration

  function MinFrom(bb: Bitboard, i: int): (r: Option<Square>)
    requires 0 <= i <= 64
    requires forall t | t in bb :: t >= i
    ensures r.None? <==> bb == {}
    ensures r.Some? ==> r.value in bb && forall t | t in bb :: r.value <= t
    decreases 64 - i
  {
    if i == 64 then None else if i in bb then Some(i) else MinFrom(bb, i + 1)
  }

  /** lsb_index: the index of the lowest set bit (trailing_zeros), or None for an empty board. */
  function Lsb(bb: Bitboard): (r: Option<Square>)
    ensures r.None? <==> bb == {}
    ensures r.Some? ==> r.value in bb && forall t | t in bb :: r.value <= t
  {
    MinFrom(bb, 0)
  }

  /** count_bits: the number of set bits. */
  function CountBits(bb: Bitboard): (n: nat)
    ensures n <= 64
  {
    SubsetCard(bb, Full());
    FullCard();
    |bb|
  }

  /**
   * pop_lsb on a bitboard held in a variable: returns the lowest set bit and
   * the board with that bit cleared, or None and the board unchanged when it
   * is empty.
   */
  method PopLsb(bb: Bitboard) returns (r: Option<Square>, rest: Bitboard)
    ensures bb == {} ==> r.None? && rest == {}
    ensures bb != {} ==> r.Some? && r.value in bb && rest == bb - {r.value} &&
                         forall t | t in rest :: r.value < t
    ensures r == Lsb(bb)
  {
    if bb == {} {
      return None, bb;
    }
    r := Lsb(bb);
    rest := bb - {r.value};
  }

  /** The squares iter_bits(bb) yields, in the order it yields them. */
  function Enumerate(bb: Bitboard): seq<Square>
    decreases |bb|
  {
    match Lsb(bb)
    case None => []
    case Some(s) => [s] + Enumerate(bb - {s})
  }

  /** BitIter: an iterator that pops the lowest bit of its board on every step. */
  class BitIter {
    var bb: Bitboard

    /** iter_bits */
    constructor (bb: Bitboard)
      ensures this.bb == bb
    {
      this.bb := bb;
    }

    method Next() returns (r: Option<Square>)
      modifies this
      ensures r == Lsb(old(bb))
      ensures bb == if r.Some? then old(bb) - {r.value} else old(bb)
      ensures old(Enumerate(bb)) == if r.Some? then [r.value] + Enumerate(bb) else []
    {
      r, bb := PopLsb(bb);
    }
  }

  /** Drains an iterator over bb into a sequence. */
  method IterBits(bb: Bitboard) returns (out: seq<Square>)
    ensures out == Enumerate(bb)
  {
    var it := new BitIter(bb);
    out := [];
    var r := it.Next();
    while r.Some?
      invariant r.Some? ==> out + [r.value] + Enumerate(it.bb) == Enumerate(bb)
      invariant r.None? ==> out == Enumerate(bb)
      decreases |it.bb| + (if r.Some? then 1 else 0)
    {
      out := out + [r.value];
      r := it.Next();
    }
  }

  // ---------------------------------------------------------------------
  // Attack tables

  /** A (file, rank) step from a square. */
  datatype Offset = Offset(dx: int, dy: int)

  const KnightOffsets: seq<Offset> := [
    Offset(-2, -1), Offset(-2, 1), Offset(-1, -2), Offset(-1, 2),
    Offset(1, -2), Offset(1, 2), Offset(2, -1), Offset(2, 1)]

  const KingOffsets: seq<Offset> := [
    Offset(-1, -1), Offset(-1, 0), Offset(-1, 1), Offset(0, -1),
    Offset(0, 1), Offset(1, -1), Offset(1, 0), Offset(1, 1)]

  /** The square one step o away from sq, if it stays on the board. */
  function Target(sq: Square, o: Offset): (r: Bitboard)
    ensures |r| <= 1
    ensures forall t: Square :: t in r <==> File(t) == File(sq) + o.dx && Rank(t) == Rank(sq) + o.dy
  {
    var f := File(sq) + o.dx;
    var k := Rank(sq) + o.dy;
    if 0 <= f < 8 && 0 <= k < 8 then
      var t := k * 8 + f;
      assert t % 8 == f && t / 8 == k;
      assert forall u: Square | File(u) == f && Rank(u) == k :: u == t;
      {t}
    else {}
  }

  /** The union of the targets of a list of steps. */
  function Targets(sq: Square, offs: seq<Offset>): Bitboard {
    if offs == [] then {} else Targets(sq, offs[..|offs| - 1]) + Target(sq, offs[|offs| - 1])
  }

  /** t is a knight's move from s: file and rank differ by 1 and 2, or by 2 and 1. */
  predicate KnightStep(s: Square, t: Square) {
    var df := File(t) - File(s);
    var dr := Rank(t) - Rank(s);
    (Abs(df) == 1 && Abs(dr) == 2) || (Abs(df) == 2 && Abs(dr) == 1)
  }

  /** t is a king's move from s: a different square whose file and rank each differ by at most 1. */
  predicate KingStep(s: Square, t: Square) {
    t != s && Abs(File(t) - File(s)) <= 1 && Abs(Rank(t) - Rank(s)) <= 1
  }

  function Abs(x: int): int { if x < 0 then -x else x }

  function KnightSet(s: Square): Bitboard {
    set t: int | 0 <= t < 64 && KnightStep(s, t)
  }

  function KingSet(s: Square): Bitboard {
    set t: int | 0 <= t < 64 && KingStep(s, t)
  }

  /** The mask one table entry gets: the targets of the steps, added one at a time. */
  method AttackMask(sq: Square, offs: seq<Offset>) returns (mask: Bitboard)
    ensures mask == Targets(sq, offs)
  {
    mask := {};
    for j := 0 to |offs|
      invariant mask == Targets(sq, offs[..j])
    {
      assert offs[..j + 1][..j] == offs[..j];
      mask := mask + Target(sq, offs[j]);
    }
    assert offs[..|offs|] == offs;
  }

  /** One entry of the knight table: the mask of the knight steps from sq. */
  method KnightMask(sq: Square) returns (mask: Bitboard)
    ensures mask == KnightSet(sq)
  {
    mask := AttackMask(sq, KnightOffsets);
    KnightTargets(sq);
  }

  /** One entry of the king table: the mask of the king steps from sq. */
  method KingMask(sq: Square) returns (mask: Bitboard)
    ensures mask == KingSet(sq)
  {
    mask := AttackMask(sq, KingOffsets);
    KingTargets(sq);
  }

  /** init_knight_attacks */
  method InitKnightAttacks() returns (attacks: array<Bitboard>)
    ensures fresh(attacks) && attacks.Length == 64
    ensures forall sq: Square :: attacks[sq] == KnightSet(sq)
  {
    attacks := new Bitboard[64](_ => {});
    for sq := 0 to 64
      invariant forall s: Square | s < sq :: attacks[s] == KnightSet(s)
    {
      var m := KnightMask(sq);
      attacks[sq] := m;
    }
  }

  /** init_king_attacks */
  method InitKingAttacks() returns (attacks: array<Bitboard>)
    ensures fresh(attacks) && attacks.Length == 64
    ensures forall sq: Square :: attacks[sq] == KingSet(sq)
  {
    attacks := new Bitboard[64](_ => {});
    for sq := 0 to 64
      invariant forall s: Square | s < sq :: attacks[s] == KingSet(s)
    {
      var m := KingMask(sq);
      attacks[sq] := m;
    }
  }

  // ---------------------------------------------------------------------
  // Properties

  lemma {:induction false} TargetsMembers(sq: Square, offs: seq<Offset>, t: Square)
    ensures t in Targets(sq, offs) <==>
      exists j | 0 <= j < |offs| :: File(t) == File(sq) + offs[j].dx && Rank(t) == Rank(sq) + offs[j].dy
  {
    if offs != [] {
      var init := offs[..|offs| - 1];
      TargetsMembers(sq, init, t);
      if t in Targets(sq, init) {
        var j :| 0 <= j < |init| && File(t) == File(sq) + init[j].dx && Rank(t) == Rank(sq) + init[j].dy;
        assert offs[j] == init[j];
      }
      forall j | 0 <= j < |offs| && File(t) == File(sq) + offs[j].dx && Rank(t) == Rank(sq) + offs[j].dy
        ensures t in Targets(sq, offs)
      {
        if j < |init| {
          assert init[j] == offs[j];
        }
      }
    }
  }

  /** The knight steps are exactly the eight (file, rank) differences of 1 and 2 or 2 and 1. */
  lemma KnightOffsetsAreSteps(df: int, dr: int)
    ensures (exists j | 0 <= j < |KnightOffsets| :: KnightOffsets[j] == Offset(df, dr)) <==>
      (Abs(df) == 1 && Abs(dr) == 2) || (Abs(df) == 2 && Abs(dr) == 1)
  {
    if (Abs(df) == 1 && Abs(dr) == 2) || (Abs(df) == 2 && Abs(dr) == 1) {
      var j :=
        if df == -2 && dr == -1 then 0 else if df == -2 && dr == 1 then 1
        else if df == -1 && dr == -2 then 2 else if df == -1 && dr == 2 then 3
        else if df == 1 && dr == -2 then 4 else if df == 1 && dr == 2 then 5
        else if df == 2 && dr == -1 then 6 else 7;
      assert KnightOffsets[j] == Offset(df, dr);
    }
  }

  /** The king steps are exactly the eight nonzero (file, rank) differences of at most 1. */
  lemma KingOffsetsAreSteps(df: int, dr: int)
    ensures (exists j | 0 <= j < |KingOffsets| :: KingOffsets[j] == Offset(df, dr)) <==>
      (df != 0 || dr != 0) && Abs(df) <= 1 && Abs(dr) <= 1
  {
    if (df != 0 || dr != 0) && Abs(df) <= 1 && Abs(dr) <= 1 {
      var j :=
        if df == -1 && dr == -1 then 0 else if df == -1 && dr == 0 then 1
        else if df == -1 && dr == 1 then 2 else if df == 0 && dr == -1 then 3
        else if df == 0 && dr == 1 then 4 else if df == 1 && dr == -1 then 5
        else if df == 1 && dr == 0 then 6 else 7;
      assert KingOffsets[j] == Offset(df, dr);
    }
  }

  /** t is a target of a step list exactly when its difference from sq is one of the steps. */
  lemma TargetsByDifference(sq: Square, offs: seq<Offset>, t: Square)
    ensures t in Targets(sq, offs) <==>
      exists j | 0 <= j < |offs| :: offs[j] == Offset(File(t) - File(sq), Rank(t) - Rank(sq))
  {
    TargetsMembers(sq, offs, t);
    var o := Offset(File(t) - File(sq), Rank(t) - Rank(sq));
    if t in Targets(sq, offs) {
      var j :| 0 <= j < |offs| && File(t) == File(sq) + offs[j].dx && Rank(t) == Rank(sq) + offs[j].dy;
      assert offs[j] == o;
    }
  }

  /** The knight step list reaches exactly the knight's-move squares. */
  lemma KnightTargets(sq: Square)
    ensures Targets(sq, KnightOffsets) == KnightSet(sq)
  {
    forall t: Square ensures t in Targets(sq, KnightOffsets) <==> KnightStep(sq, t) {
      TargetsByDifference(sq, KnightOffsets, t);
      KnightOffsetsAreSteps(File(t) - File(sq), Rank(t) - Rank(sq));
    }
  }

  /** The king step list reaches exactly the king's-move squares. */
  lemma KingTargets(sq: Square)
    ensures Targets(sq, KingOffsets) == KingSet(sq)
  {
    forall t: Square ensures t in Targets(sq, KingOffsets) <==> KingStep(sq, t) {
      TargetsByDifference(sq, KingOffsets, t);
      KingOffsetsAreSteps(File(t) - File(sq), Rank(t) - Rank(sq));
      assert t == Rank(t) * 8 + File(t) && sq == Rank(sq) * 8 + File(sq);
    }
  }

  lemma {:induction false} TargetsCard(sq: Square, offs: seq<Offset>)
    ensures |Targets(sq, offs)| <= |offs|
  {
    if offs != [] {
      TargetsCard(sq, offs[..|offs| - 1]);
    }
  }

  /** A king attacks at most 8 squares. */
  lemma KingAttacksAtMostEight(sq: Square)
    ensures |KingSet(sq)| <= 8
  {
    KingTargets(sq);
    TargetsCard(sq, KingOffsets);
  }

  /** A knight attacks at most 8 squares, and the knight relation is symmetric. */
  lemma KnightAttacksSymmetric(s: Square, t: Square)
    ensures t in KnightSet(s) <==> s in KnightSet(t)
    ensures |KnightSet(s)| <= 8
  {
    KnightTargets(s);
    TargetsCard(s, KnightOffsets);
  }

  /** The lowest square of a bitboard is what Lsb returns. */
  lemma LsbIs(bb: Bitboard, m: Square)
    requires m in bb && forall t | t in bb :: m <= t
    ensures Lsb(bb) == Some(m)
  {
    var r := Lsb(bb).value;
    assert r <= m && m <= r;
  }

  /** Iterating a bitboard yields each set bit once, in strictly increasing order, count_bits(bb) items in all. */
  lemma EnumerateSpec(bb: Bitboard)
    ensures |Enumerate(bb)| == CountBits(bb)
    ensures forall s :: s in bb <==> s in Enumerate(bb)
    ensures forall i, j | 0 <= i < j < |Enumerate(bb)| :: Enumerate(bb)[i] < Enumerate(bb)[j]
  {
    EnumerateCount(bb);
    EnumerateMembers(bb);
    EnumerateSorted(bb);
  }

  lemma {:induction false} EnumerateCount(bb: Bitboard)
    ensures |Enumerate(bb)| == |bb|
    decreases |bb|
  {
    if bb != {} {
      EnumerateCount(bb - {Lsb(bb).value});
    }
  }

  lemma {:induction false} EnumerateMembers(bb: Bitboard)
    ensures forall s :: s in bb <==> s in Enumerate(bb)
    decreases |bb|
  {
    if bb != {} {
      var s := Lsb(bb).value;
      EnumerateMembers(bb - {s});
      assert Enumerate(bb) == [s] + Enumerate(bb - {s});
    }
  }

  lemma {:induction false} EnumerateSorted(bb: Bitboard)
    ensures forall i, j | 0 <= i < j < |Enumerate(bb)| :: Enumerate(bb)[i] < Enumerate(bb)[j]
    decreases |bb|
  {
    if bb != {} {
      var s := Lsb(bb).value;
      var rest := bb - {s};
      var e := Enumerate(bb);
      var er := Enumerate(rest);
      EnumerateSorted(rest);
      EnumerateMembers(rest);
      assert e == [s] + er;
      forall i, j | 0 <= i < j < |e| ensures e[i] < e[j] {
        if i == 0 {
          assert e[j] == er[j - 1];
          assert er[j - 1] in rest;
        } else {
          assert e[i] == er[i - 1] && e[j] == er[j - 1];
        }
      }
    }
  }

  lemma {:induction false} RangeCard(n: nat)
    requires n <= 64
    ensures |set s: int | 0 <= s < n && Below(s, n)| == n
  {
    if n > 0 {
      RangeCard(n - 1);
      var m := n - 1;
      assert (set s: int | 0 <= s < n && Below(s, n)) == (set s: int | 0 <= s < m && Below(s, m)) + {m};
    }
  }

  lemma FullCard()
    ensures |Full()| == 64
  {
    RangeCard(64);
    assert Full() == set s: int | 0 <= s < 64 && Below(s, 64);
  }

  lemma {:induction false} SubsetCard(a: Bitboard, b: Bitboard)
    requires a <= b
    ensures |a| <= |b|
    decreases |b|
  {
    if a != {} {
      var x :| x in a;
      SubsetCard(a - {x}, b - {x});
    }
  }
}
