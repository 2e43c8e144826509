// The public side of the magic tables: rook_attacks, bishop_attacks and
// queen_attacks look up the entry for the occupancy masked by the square's
// relevant-occupancy mask. The tables are filled with the slow attacks of
// every subset of the mask, so a lookup returns the slow attacks of the
// masked occupancy; this module proves that masking loses nothing, what the
// slides contain, the index bound and the counts of the module's tests.
// The enumeration of the subsets is in BlockerSubsets.

module MagicLookup {
  import opened Bits
  import opened Words
  import opened Rays
  import opened Magic

  /** The directions a slider moves along. */
  predicate MovesAlong(p: Slider, d: Dir) {
    if p == RookSlider then d == North || d == South || d == East || d == West
    else d == NorthEast || d == NorthWest || d == SouthEast || d == SouthWest
  }

  // ---------------------------------------------------------------------
  // Lookups

  /**
   * rook_attacks / bishop_attacks: the entry for occ & mask, which
   * init_magic_tables filled with the slow attacks of that occupancy. The
   * mask leaves out only edge squares and squares off the rays, so the
   * result is the slow attacks of the full occupancy.
   */
  function Lookup(p: Slider, sq: Square, occ: Bitboard): (attacks: Bitboard)
    ensures attacks == SlidesOf(p, sq, occ)
  {
    MaskIndependence(p, sq, occ);
    SlidesOf(p, sq, occ * RelevantOf(p, sq))
  }

  /** queen_attacks: the union of the rook and the bishop lookups. */
  function QueenAttacks(sq: Square, occ: Bitboard): (attacks: Bitboard)
    ensures attacks == RookSlides(sq, occ) + BishopSlides(sq, occ)
  {
    Lookup(RookSlider, sq, occ) + Lookup(BishopSlider, sq, occ)
  }

  /** Squares outside the relevant mask do not change the slow attacks. */
  lemma MaskIndependence(p: Slider, sq: Square, occ: Bitboard)
    ensures SlidesOf(p, sq, occ * RelevantOf(p, sq)) == SlidesOf(p, sq, occ)
  {
    var mask := RelevantOf(p, sq);
    if p == RookSlider {
      SlideIgnoresEdge(Ray(sq, North), occ, mask);
      SlideIgnoresEdge(Ray(sq, South), occ, mask);
      SlideIgnoresEdge(Ray(sq, East), occ, mask);
      SlideIgnoresEdge(Ray(sq, West), occ, mask);
    } else {
      SlideIgnoresEdge(Ray(sq, NorthEast), occ, mask);
      SlideIgnoresEdge(Ray(sq, NorthWest), occ, mask);
      SlideIgnoresEdge(Ray(sq, SouthEast), occ, mask);
      SlideIgnoresEdge(Ray(sq, SouthWest), occ, mask);
    }
  }

  // ---------------------------------------------------------------------
  // What the attacks contain

  /** A slide holds only squares of its ray. */
  lemma SlideWithin(ray: seq<Square>, occ: Bitboard)
    ensures forall t | t in Slide(ray, occ) :: exists i | 0 <= i < |ray| :: ray[i] == t
  {
    if ray != [] {
      SlideMembers(ray, occ, 0);
    }
  }

  /** A square of one ray is on no slide along another direction. */
  lemma OffOtherSlide(sq: Square, occ: Bitboard, d: Dir, e: Dir, j: nat)
    requires d != e && j < |Ray(sq, d)|
    ensures Ray(sq, d)[j] !in Slide(Ray(sq, e), occ)
  {
    RaysDisjoint(sq, d, e);
    SlideWithin(Ray(sq, e), occ);
  }

  /**
   * The j-th square along one of the slider's directions is attacked
   * exactly when no square before it on that ray is occupied.
   */
  lemma SlidesExact(p: Slider, sq: Square, occ: Bitboard, d: Dir, j: nat)
    requires MovesAlong(p, d) && j < |Ray(sq, d)|
    ensures Ray(sq, d)[j] in Lookup(p, sq, occ) <==> forall i | 0 <= i < j :: Ray(sq, d)[i] !in occ
  {
    RayGeometry(sq, d);
    RayDistinct(sq, d);
    SlideExact(Ray(sq, d), occ, j);
    if p == RookSlider {
      if d != North { OffOtherSlide(sq, occ, d, North, j); }
      if d != South { OffOtherSlide(sq, occ, d, South, j); }
      if d != East { OffOtherSlide(sq, occ, d, East, j); }
      if d != West { OffOtherSlide(sq, occ, d, West, j); }
    } else {
      if d != NorthEast { OffOtherSlide(sq, occ, d, NorthEast, j); }
      if d != NorthWest { OffOtherSlide(sq, occ, d, NorthWest, j); }
      if d != SouthEast { OffOtherSlide(sq, occ, d, SouthEast, j); }
      if d != SouthWest { OffOtherSlide(sq, occ, d, SouthWest, j); }
    }
  }

  /** Every attacked square lies on one of the slider's rays, and the slider's own square never does. */
  lemma SlidesOnRays(p: Slider, sq: Square, occ: Bitboard, t: Square)
    requires t in Lookup(p, sq, occ)
    ensures exists d, j | MovesAlong(p, d) && 0 <= j < |Ray(sq, d)| :: Ray(sq, d)[j] == t
    ensures t != sq
  {
    var d: Dir;
    if p == RookSlider {
      d := if t in Slide(Ray(sq, North), occ) then North
        else if t in Slide(Ray(sq, South), occ) then South
        else if t in Slide(Ray(sq, East), occ) then East
        else West;
    } else {
      d := if t in Slide(Ray(sq, NorthEast), occ) then NorthEast
        else if t in Slide(Ray(sq, NorthWest), occ) then NorthWest
        else if t in Slide(Ray(sq, SouthEast), occ) then SouthEast
        else SouthWest;
    }
    assert t in Slide(Ray(sq, d), occ);
    SlideWithin(Ray(sq, d), occ);
    RayExcludesStart(sq, d);
    var j :| 0 <= j < |Ray(sq, d)| && Ray(sq, d)[j] == t;
    assert MovesAlong(p, d);
  }

  // ---------------------------------------------------------------------
  // Counting attacked squares

  /** Slides along two directions share no square. */
  lemma SlidesDisjoint(sq: Square, occ: Bitboard, d: Dir, e: Dir)
    requires d != e
    ensures Slide(Ray(sq, d), occ) !! Slide(Ray(sq, e), occ)
  {
    RaysDisjoint(sq, d, e);
    SlideWithin(Ray(sq, d), occ);
    SlideWithin(Ray(sq, e), occ);
  }

  /** Four slides in four directions attack as many squares as they hold together. */
  lemma SlidesCard(sq: Square, occ: Bitboard, d1: Dir, d2: Dir, d3: Dir, d4: Dir)
    requires d1 != d2 && d1 != d3 && d1 != d4 && d2 != d3 && d2 != d4 && d3 != d4
    ensures |Slides(sq, occ, d1, d2, d3, d4)| ==
            |Slide(Ray(sq, d1), occ)| + |Slide(Ray(sq, d2), occ)| + |Slide(Ray(sq, d3), occ)| + |Slide(Ray(sq, d4), occ)|
  {
    SlidesDisjoint(sq, occ, d1, d2);
    SlidesDisjoint(sq, occ, d1, d3);
    SlidesDisjoint(sq, occ, d1, d4);
    SlidesDisjoint(sq, occ, d2, d3);
    SlidesDisjoint(sq, occ, d2, d4);
    SlidesDisjoint(sq, occ, d3, d4);
    var a, b, c := Slide(Ray(sq, d1), occ), Slide(Ray(sq, d2), occ), Slide(Ray(sq, d3), occ);
    assert |a + b| == |a| + |b|;
    assert |a + b + c| == |a + b| + |c|;
  }

  /** A ray with no occupied square is attacked to the edge. */
  lemma ClearSlide(sq: Square, d: Dir, occ: Bitboard)
    requires forall i | 0 <= i < |Ray(sq, d)| :: Ray(sq, d)[i] !in occ
    ensures |Slide(Ray(sq, d), occ)| == Reach(sq, d)
  {
    RayGeometry(sq, d);
    RayDistinct(sq, d);
    SlideIsPrefix(Ray(sq, d), occ, |Ray(sq, d)|);
  }

  /** A square on the edge a ray points past has nothing to attack that way. */
  lemma EdgeSlide(sq: Square, d: Dir, occ: Bitboard)
    requires Reach(sq, d) == 0
    ensures Slide(Ray(sq, d), occ) == {}
  {
  }

  /** A ray whose j-th square is the first occupied one is attacked up to that square. */
  lemma BlockedSlide(sq: Square, d: Dir, occ: Bitboard, j: nat)
    requires j < |Ray(sq, d)| && Ray(sq, d)[j] in occ
    requires forall i | 0 <= i < j :: Ray(sq, d)[i] !in occ
    ensures |Slide(Ray(sq, d), occ)| == j + 1
  {
    RayDistinct(sq, d);
    SlideIsPrefix(Ray(sq, d), occ, j);
  }

  /** With nothing on the board, a slider attacks the squares its rays reach. */
  lemma EmptyBoardCount(p: Slider, sq: Square)
    ensures |Lookup(p, sq, {})| ==
      if p == RookSlider then Reach(sq, North) + Reach(sq, South) + Reach(sq, East) + Reach(sq, West)
      else Reach(sq, NorthEast) + Reach(sq, NorthWest) + Reach(sq, SouthEast) + Reach(sq, SouthWest)
  {
    if p == RookSlider {
      SlidesCard(sq, {}, North, South, East, West);
      ClearSlide(sq, North, {});
      ClearSlide(sq, South, {});
      ClearSlide(sq, East, {});
      ClearSlide(sq, West, {});
    } else {
      SlidesCard(sq, {}, NorthEast, NorthWest, SouthEast, SouthWest);
      ClearSlide(sq, NorthEast, {});
      ClearSlide(sq, NorthWest, {});
      ClearSlide(sq, SouthEast, {});
      ClearSlide(sq, SouthWest, {});
    }
  }

  /** A rook on a1 of an empty board attacks a2-a8 and b1-h1: 14 squares. */
  lemma RookCornerEmpty(sq: Square)
    requires sq == 0
    ensures |Lookup(RookSlider, sq, {})| == 14
  {
    CornerReach(sq);
    EmptyBoardCount(RookSlider, sq);
  }

  /** From a1 the rays reach 7 squares north and east and none south or west. */
  lemma CornerReach(sq: Square)
    requires sq == 0
    ensures Reach(sq, North) + Reach(sq, South) + Reach(sq, East) + Reach(sq, West) == 14
  {
    assert File(sq) == 0 && Rank(sq) == 0;
  }

  /** A rook on a1 with a blocker on a4 attacks a2, a3, a4 and b1-h1: 10 squares. */
  lemma RookCornerBlocked(sq: Square)
    requires sq == 0
    ensures |Lookup(RookSlider, sq, {24})| == 10
  {
    SlidesCard(sq, {24}, North, South, East, West);
    CornerSlides(sq);
  }

  /** From a1 with a4 occupied: a2, a3, a4 northwards, b1-h1 eastwards, nothing south or west. */
  lemma CornerSlides(sq: Square)
    requires sq == 0
    ensures |Slide(Ray(sq, North), {24})| == 3 && |Slide(Ray(sq, East), {24})| == 7
    ensures |Slide(Ray(sq, South), {24})| == 0 && |Slide(Ray(sq, West), {24})| == 0
  {
    CornerNorth(sq);
    CornerEast(sq);
    CornerEdges(sq);
    EdgeSlide(sq, South, {24});
    EdgeSlide(sq, West, {24});
  }

  lemma CornerEdges(sq: Square)
    requires sq == 0
    ensures Reach(sq, South) == 0 && Reach(sq, West) == 0
  {
    assert File(sq) == 0 && Rank(sq) == 0;
  }

  lemma CornerNorth(sq: Square)
    requires sq == 0
    ensures |Slide(Ray(sq, North), {24})| == 3
  {
    assert File(sq) == 0 && Rank(sq) == 0;
    NorthBlockedAtThird(sq, {24});
  }

  /** Two empty squares and then an occupied one northwards: the slide has those three squares. */
  lemma NorthBlockedAtThird(sq: Square, occ: Bitboard)
    requires Reach(sq, North) >= 3 && sq + 8 !in occ && sq + 16 !in occ && sq + 24 in occ
    ensures |Slide(Ray(sq, North), occ)| == 3
  {
    var a := Next(sq, North);
    var b := Next(a, North);
    var c := Next(b, North);
    assert Ray(sq, North) == [a] + Ray(a, North);
    assert Ray(a, North) == [b] + Ray(b, North);
    assert Ray(b, North) == [c] + Ray(c, North);
    assert Slide(Ray(b, North), occ) == {c};
    assert Slide(Ray(sq, North), occ) == {a} + ({b} + {c});
  }

  lemma CornerEast(sq: Square)
    requires sq == 0
    ensures |Slide(Ray(sq, East), {24})| == 7
  {
    assert File(sq) == 0 && Rank(sq) == 0;
    RayGeometry(sq, East);
    assert forall i | 0 <= i < |Ray(sq, East)| :: Rank(Ray(sq, East)[i]) == 0;
    ClearSlide(sq, East, {24});
  }

  /** From d4 the rays reach 4, 3, 4, 3 squares straight and 4, 3, 3, 3 diagonally. */
  lemma ReachFromD4(sq: Square)
    requires sq == 27
    ensures Reach(sq, North) + Reach(sq, South) + Reach(sq, East) + Reach(sq, West) == 14
    ensures Reach(sq, NorthEast) + Reach(sq, NorthWest) + Reach(sq, SouthEast) + Reach(sq, SouthWest) == 13
  {
    assert File(sq) == 3 && Rank(sq) == 3;
  }

  /** A bishop on d4 of an empty board attacks 4 + 3 + 3 + 3 = 13 squares. */
  lemma BishopCenterEmpty(sq: Square)
    requires sq == 27
    ensures |Lookup(BishopSlider, sq, {})| == 13
  {
    ReachFromD4(sq);
    EmptyBoardCount(BishopSlider, sq);
  }

  /** The rook and the bishop lookups never share a square. */
  lemma RookBishopDisjoint(sq: Square, occ: Bitboard)
    ensures Lookup(RookSlider, sq, occ) !! Lookup(BishopSlider, sq, occ)
  {
    StraightOffDiagonals(sq, occ, North);
    StraightOffDiagonals(sq, occ, South);
    StraightOffDiagonals(sq, occ, East);
    StraightOffDiagonals(sq, occ, West);
  }

  /** A slide along a straight direction meets no diagonal slide. */
  lemma StraightOffDiagonals(sq: Square, occ: Bitboard, d: Dir)
    requires MovesAlong(RookSlider, d)
    ensures Slide(Ray(sq, d), occ) !! BishopSlides(sq, occ)
  {
    SlidesDisjoint(sq, occ, d, NorthEast);
    SlidesDisjoint(sq, occ, d, NorthWest);
    SlidesDisjoint(sq, occ, d, SouthEast);
    SlidesDisjoint(sq, occ, d, SouthWest);
  }

  /** A queen on d4 of an empty board attacks the rook's 14 squares and the bishop's 13. */
  lemma QueenCenterEmpty(sq: Square)
    requires sq == 27
    ensures |QueenAttacks(sq, {})| == 27
  {
    ReachFromD4(sq);
    EmptyBoardCount(RookSlider, sq);
    EmptyBoardCount(BishopSlider, sq);
    RookBishopDisjoint(sq, {});
  }

  // ---------------------------------------------------------------------
  // Indexing

  lemma DivBelow(x: nat, a: nat, b: nat)
    requires a > 0 && x < a * b
    ensures 0 <= x / a < b
  {
    assert a * (x / a) <= x;
  }

  /**
   * ((masked.wrapping_mul(magic)) >> shift) as usize: the product wraps at
   * 2^64 and the shift keeps its top 64 - shift bits, so the index falls
   * inside the square's block of 2^(64 - shift) entries.
   */
  function MagicIndex(masked: U64, magic: U64, shift: Shift): (index: nat)
    ensures index < Size(shift)
  {
    TopBits(WrappingMul(masked, magic), shift)
  }

  /** w >> shift on a 64-bit word: its top 64 - shift bits. */
  function TopBits(w: U64, shift: Shift): (index: nat)
    ensures index < Size(shift)
  {
    TopBitsBelow(w, shift);
    w / Pow2(shift)
  }

  /** u64::wrapping_mul. */
  function WrappingMul(a: U64, b: U64): U64 {
    (a * b) % TWO_64
  }

  /** The top 64 - shift bits of a 64-bit word index a block of 2^(64 - shift) entries. */
  lemma TopBitsBelow(w: nat, shift: Shift)
    requires w < TWO_64
    ensures 0 <= w / Pow2(shift) < Size(shift)
  {
    Pow2Add(shift, 64 - shift);
    Pow2At64();
    DivBelow(w, Pow2(shift), Pow2(64 - shift));
  }

  /** Every lookup's slot lies inside the slider's attack vector. */
  lemma SlotInTable(p: Slider, offsets: seq<nat>, sq: Square, masked: U64, magic: U64)
    requires |offsets| == 64
    requires forall s | 0 <= s < 64 :: offsets[s] + Size(ShiftOf(p, s)) <= TableSize(p)
    ensures offsets[sq] + MagicIndex(masked, magic, ShiftOf(p, sq)) < TableSize(p)
  {
  }
}
