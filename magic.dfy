// Magic bitboards for the sliding pieces: which squares can block a rook or
// a bishop on a square (the relevant-occupancy masks, edges excluded), the
// attacks found by walking the rays square by square, the per-square shift
// tables, and the sizes and offsets of the two attack tables they index.

module Magic {
  import opened Common
  import opened Bits
  import opened Words
  import opened Rays

  /** The two sliding movers that have magic tables. */
  datatype Slider = RookSlider | BishopSlider

  /** A shift amount: 64 minus a number of relevant squares. */
  type Shift = s: nat | s <= 64

  /** ROOK_SHIFTS, one rank of eight files at a time, rank 1 (a1..h1) first. */
  function RookShiftRank(r: int): (row: seq<Shift>)
    ensures |row| == 8
  {
    match r
    case 0 => [52, 53, 53, 53, 53, 53, 53, 52]
    case 1 => [53, 54, 54, 54, 54, 54, 54, 53]
    case 2 => [53, 54, 54, 54, 54, 54, 54, 53]
    case 3 => [53, 54, 54, 54, 54, 54, 54, 53]
    case 4 => [53, 54, 54, 54, 54, 54, 54, 53]
    case 5 => [53, 54, 54, 54, 54, 54, 54, 53]
    case 6 => [53, 54, 54, 54, 54, 54, 54, 53]
    case _ => [52, 53, 53, 53, 53, 53, 53, 52]
  }

  /** BISHOP_SHIFTS, one rank at a time, rank 1 first. */
  function BishopShiftRank(r: int): (row: seq<Shift>)
    ensures |row| == 8
  {
    match r
    case 0 => [58, 59, 59, 59, 59, 59, 59, 58]
    case 1 => [59, 59, 59, 59, 59, 59, 59, 59]
    case 2 => [59, 59, 57, 57, 57, 57, 59, 59]
    case 3 => [59, 59, 57, 55, 55, 57, 59, 59]
    case 4 => [59, 59, 57, 55, 55, 57, 59, 59]
    case 5 => [59, 59, 57, 57, 57, 57, 59, 59]
    case 6 => [59, 59, 59, 59, 59, 59, 59, 59]
    case _ => [58, 59, 59, 59, 59, 59, 59, 58]
  }

  function ShiftRank(p: Slider, r: int): (row: seq<Shift>)
    ensures |row| == 8
  {
    if p == RookSlider then RookShiftRank(r) else BishopShiftRank(r)
  }

  /** ROOK_SHIFTS[sq] / BISHOP_SHIFTS[sq]. */
  function ShiftOf(p: Slider, sq: Square): Shift {
    ShiftRank(p, Rank(sq))[File(sq)]
  }

  const ROOK_TABLE_SIZE: nat := 102400
  const BISHOP_TABLE_SIZE: nat := 5248

  function TableSize(p: Slider): nat {
    if p == RookSlider then ROOK_TABLE_SIZE else BISHOP_TABLE_SIZE
  }

  // ---------------------------------------------------------------------
  // Specification: masks and attacks as unions over four rays

  /** The squares of four rays from sq, each without its edge square. */
  function Relevant(sq: Square, d1: Dir, d2: Dir, d3: Dir, d4: Dir): Bitboard {
    Interior(Ray(sq, d1)) + Interior(Ray(sq, d2)) + Interior(Ray(sq, d3)) + Interior(Ray(sq, d4))
  }

  /** The slides of four rays from sq: each up to and including its first blocker. */
  function Slides(sq: Square, occ: Bitboard, d1: Dir, d2: Dir, d3: Dir, d4: Dir): Bitboard {
    Slide(Ray(sq, d1), occ) + Slide(Ray(sq, d2), occ) + Slide(Ray(sq, d3), occ) + Slide(Ray(sq, d4), occ)
  }

  function RookRelevant(sq: Square): Bitboard {
    Relevant(sq, North, South, East, West)
  }

  function BishopRelevant(sq: Square): Bitboard {
    Relevant(sq, NorthEast, NorthWest, SouthEast, SouthWest)
  }

  function RookSlides(sq: Square, occ: Bitboard): Bitboard {
    Slides(sq, occ, North, South, East, West)
  }

  function BishopSlides(sq: Square, occ: Bitboard): Bitboard {
    Slides(sq, occ, NorthEast, NorthWest, SouthEast, SouthWest)
  }

  /** rook_mask / bishop_mask as a set. */
  function RelevantOf(p: Slider, sq: Square): Bitboard {
    if p == RookSlider then RookRelevant(sq) else BishopRelevant(sq)
  }

  /** rook_attacks_slow / bishop_attacks_slow as a set. */
  function SlidesOf(p: Slider, sq: Square, occ: Bitboard): Bitboard {
    if p == RookSlider then RookSlides(sq, occ) else BishopSlides(sq, occ)
  }

  /** A coordinate strictly inside the board along a moving axis (a fixed axis never stops the walk). */
  predicate Inner(c: int, delta: int) {
    delta == 0 || 0 < c < 7
  }

  predicate OnBoard(c: int) {
    0 <= c < 8
  }

  /** The mask walk goes on exactly while one more square precedes the ray's edge square. */
  lemma InnerIffBeforeEdge(sq: Square, d: Dir, k: nat)
    ensures Inner(Along(Rank(sq), DR(d), k + 1), DR(d)) && Inner(Along(File(sq), DF(d), k + 1), DF(d))
            <==> k + 1 < Reach(sq, d)
  {
  }

  /** The attack walk goes on exactly while it is still on the ray. */
  lemma OnBoardIffOnRay(sq: Square, d: Dir, k: nat)
    ensures OnBoard(Along(Rank(sq), DR(d), k + 1)) && OnBoard(Along(File(sq), DF(d), k + 1))
            <==> k < Reach(sq, d)
  {
  }

  // ---------------------------------------------------------------------
  // Mask generation

  /**
   * One direction of rook_mask / bishop_mask: walk from the square next to
   * sq while the next square is not on the edge the ray runs into, OR-ing
   * each square into the mask. (The rook's south and west loops count up
   * from the edge instead of down from sq; the set they build is the same.)
   */
  method MaskRay(sq: Square, d: Dir) returns (part: Bitboard)
    ensures part == Interior(Ray(sq, d))
  {
    ghost var ray := Ray(sq, d);
    assert |ray| == Reach(sq, d) by { RayGeometry(sq, d); }
    var r, f := Rank(sq) + DR(d), File(sq) + DF(d);
    ghost var k := 0;
    part := {};
    InnerIffBeforeEdge(sq, d, 0);
    while Inner(r, DR(d)) && Inner(f, DF(d))
      invariant 0 <= k && (k <= |ray| - 1 || k == 0)
      invariant r == Along(Rank(sq), DR(d), k + 1) && f == Along(File(sq), DF(d), k + 1)
      invariant part == Prefix(ray, k)
      decreases 7 - k
    {
      InnerIffBeforeEdge(sq, d, k);
      RayAt(sq, d, k);
      PrefixStep(ray, k);
      part := part + {r * 8 + f};
      r, f, k := r + DR(d), f + DF(d), k + 1;
    }
    InnerIffBeforeEdge(sq, d, k);
    assert k == |ray| - 1 || |ray| == 0;
  }

  /** rook_mask: the relevant blockers on sq's rank and file. */
  method RookMask(sq: Square) returns (mask: Bitboard)
    ensures mask == RookRelevant(sq)
  {
    var north := MaskRay(sq, North);
    var south := MaskRay(sq, South);
    var east := MaskRay(sq, East);
    var west := MaskRay(sq, West);
    mask := north + south + east + west;
  }

  /** bishop_mask: the relevant blockers on sq's diagonals. */
  method BishopMask(sq: Square) returns (mask: Bitboard)
    ensures mask == BishopRelevant(sq)
  {
    var ne := MaskRay(sq, NorthEast);
    var nw := MaskRay(sq, NorthWest);
    var se := MaskRay(sq, SouthEast);
    var sw := MaskRay(sq, SouthWest);
    mask := ne + nw + se + sw;
  }

  // ---------------------------------------------------------------------
  // Slow attack generation

  /**
   * One direction of rook_attacks_slow / bishop_attacks_slow: walk away
   * from sq while on the board, adding each square and stopping after the
   * first occupied one.
   */
  method SlideRay(sq: Square, d: Dir, occ: Bitboard) returns (part: Bitboard)
    ensures part == Slide(Ray(sq, d), occ)
  {
    ghost var ray := Ray(sq, d);
    assert |ray| == Reach(sq, d) by { RayGeometry(sq, d); }
    var r, f := Rank(sq) + DR(d), File(sq) + DF(d);
    ghost var k := 0;
    part := {};
    while OnBoard(r) && OnBoard(f)
      invariant 0 <= k <= |ray|
      invariant r == Along(Rank(sq), DR(d), k + 1) && f == Along(File(sq), DF(d), k + 1)
      invariant Slide(ray, occ) == part + Slide(ray[k..], occ)
      decreases |ray| - k
    {
      OnBoardIffOnRay(sq, d, k);
      RayAt(sq, d, k);
      var bit := r * 8 + f;
      assert ray[k..][0] == bit && ray[k..][1..] == ray[k + 1..];
      part := part + {bit};
      if bit in occ {
        break;
      }
      r, f, k := r + DR(d), f + DF(d), k + 1;
    }
  }

  /** rook_attacks_slow: the four orthogonal slides. */
  method RookAttacksSlow(sq: Square, occ: Bitboard) returns (attacks: Bitboard)
    ensures attacks == RookSlides(sq, occ)
  {
    var north := SlideRay(sq, North, occ);
    var south := SlideRay(sq, South, occ);
    var east := SlideRay(sq, East, occ);
    var west := SlideRay(sq, West, occ);
    attacks := north + south + east + west;
  }

  /** bishop_attacks_slow: the four diagonal slides. */
  method BishopAttacksSlow(sq: Square, occ: Bitboard) returns (attacks: Bitboard)
    ensures attacks == BishopSlides(sq, occ)
  {
    var ne := SlideRay(sq, NorthEast, occ);
    var nw := SlideRay(sq, NorthWest, occ);
    var se := SlideRay(sq, SouthEast, occ);
    var sw := SlideRay(sq, SouthWest, occ);
    attacks := ne + nw + se + sw;
  }

  // ---------------------------------------------------------------------
  // Table sizing: init_magic_tables gives each square 2^(64 - shift)
  // consecutive entries, the rook squares in one vector and the bishop
  // squares in another.

  /** ROOK_SHIFTS or BISHOP_SHIFTS as one table of 64 entries, a1 first. */
  function Shifts(p: Slider): (t: seq<Shift>)
    ensures |t| == 64
  {
    seq(64, sq requires 0 <= sq < 64 => ShiftOf(p, sq))
  }

  /** The entries one square's table takes: 1 << (64 - shift). */
  function Size(shift: Shift): nat {
    Pow2(64 - shift)
  }

  /** The entries the first n squares of a shift table take: the offset of square n. */
  function TableSum(shifts: seq<Shift>, n: nat): nat
    requires n <= |shifts|
  {
    if n == 0 then 0 else TableSum(shifts, n - 1) + Size(shifts[n - 1])
  }

  /** The offsets of the first n squares. */
  function PrefixSums(shifts: seq<Shift>, n: nat): (r: seq<nat>)
    requires n <= |shifts|
    ensures |r| == n
  {
    if n == 0 then [] else PrefixSums(shifts, n - 1) + [TableSum(shifts, n - 1)]
  }

  /**
   * The sizing half of init_magic_tables' loop over the squares, for one
   * shift table: each square's entry records the running offset, which then
   * advances by that square's table size.
   */
  method Offsets(shifts: seq<Shift>) returns (offsets: seq<nat>, end: nat)
    requires |shifts| == 64
    ensures offsets == PrefixSums(shifts, 64)
    ensures end == TableSum(shifts, 64)
  {
    offsets := [];
    var offset := 0;
    for sq := 0 to 64
      invariant offsets == PrefixSums(shifts, sq)
      invariant offset == TableSum(shifts, sq)
    {
      offsets := offsets + [offset];
      offset := offset + Size(shifts[sq]);
    }
    end := offset;
  }

  /**
   * init_magic_tables' offsets for one slider (the source advances the rook
   * and the bishop offsets in the same loop; they do not interact): every
   * square's block of entries lies inside the vector of ROOK_TABLE_SIZE or
   * BISHOP_TABLE_SIZE entries, and the blocks fill it exactly.
   */
  method SliderOffsets(p: Slider) returns (offsets: seq<nat>)
    ensures |offsets| == 64
    ensures forall sq | 0 <= sq < 64 :: offsets[sq] + Size(ShiftOf(p, sq)) <= TableSize(p)
    ensures forall sq | 0 <= sq < 63 :: offsets[sq] + Size(ShiftOf(p, sq)) == offsets[sq + 1]
    ensures offsets[0] == 0 && offsets[63] + Size(ShiftOf(p, 63)) == TableSize(p)
  {
    var end;
    offsets, end := Offsets(Shifts(p));
    TableSizes(p);
    forall sq | 0 <= sq < 64
      ensures offsets[sq] + Size(ShiftOf(p, sq)) <= TableSize(p)
    {
      OffsetEntry(Shifts(p), 64, sq);
      TableSumMonotone(Shifts(p), sq + 1, 64);
    }
    forall sq | 0 <= sq < 63
      ensures offsets[sq] + Size(ShiftOf(p, sq)) == offsets[sq + 1]
    {
      OffsetEntry(Shifts(p), 64, sq);
      OffsetEntry(Shifts(p), 64, sq + 1);
    }
    OffsetEntry(Shifts(p), 64, 0);
    OffsetEntry(Shifts(p), 64, 63);
  }

  lemma {:induction false} OffsetEntry(shifts: seq<Shift>, n: nat, sq: nat)
    requires sq < n <= |shifts|
    ensures PrefixSums(shifts, n)[sq] == TableSum(shifts, sq)
  {
    if sq < n - 1 {
      OffsetEntry(shifts, n - 1, sq);
    }
  }

  lemma {:induction false} TableSumMonotone(shifts: seq<Shift>, m: nat, n: nat)
    requires m <= n <= |shifts|
    ensures TableSum(shifts, m) <= TableSum(shifts, n)
    decreases n - m
  {
    if m < n {
      TableSumMonotone(shifts, m, n - 1);
    }
  }

  // ---------------------------------------------------------------------
  // The shift tables against the masks

  function Max0(x: int): nat {
    if x > 0 then x else 0
  }

  /** The squares a ray contributes to a mask: all of it but the edge square. */
  function InteriorCount(sq: Square, d: Dir): nat {
    Max0(Reach(sq, d) - 1)
  }

  /** The number of relevant squares on rank r, file f, in closed form. */
  function RelevantBits(p: Slider, r: int, f: int): nat {
    if p == RookSlider then Max0(6 - r) + Max0(r - 1) + Max0(6 - f) + Max0(f - 1)
    else Max0(Min(6 - r, 6 - f)) + Max0(Min(6 - r, f - 1)) + Max0(Min(r - 1, 6 - f)) + Max0(Min(r - 1, f - 1))
  }

  /** Files f.. of a table rank hold 64 minus the closed-form count. */
  predicate RankAgrees(row: seq<Shift>, p: Slider, r: int, f: nat)
    requires |row| == 8
    decreases 8 - f
  {
    f >= 8 || (row[f] + RelevantBits(p, r, f) == 64 && RankAgrees(row, p, r, f + 1))
  }

  /** The entries the first n files of a table rank take. */
  function RankSum(row: seq<Shift>, n: nat): nat
    requires n <= |row|
  {
    if n == 0 then 0 else RankSum(row, n - 1) + Size(row[n - 1])
  }

  lemma SizeValues()
    ensures Size(52) == 4096 && Size(53) == 2048 && Size(54) == 1024
    ensures Size(55) == 512 && Size(57) == 128 && Size(58) == 64 && Size(59) == 32
  {
  }

  lemma RookRank1()
    ensures RankAgrees(RookShiftRank(0), RookSlider, 0, 0) && RankSum(RookShiftRank(0), 8) == 20480
  {
    SizeValues();
  }
  lemma RookRank2()
    ensures RankAgrees(RookShiftRank(1), RookSlider, 1, 0) && RankSum(RookShiftRank(1), 8) == 10240
  {
    SizeValues();
  }
  lemma RookRank3()
    ensures RankAgrees(RookShiftRank(2), RookSlider, 2, 0) && RankSum(RookShiftRank(2), 8) == 10240
  {
    SizeValues();
  }
  lemma RookRank4()
    ensures RankAgrees(RookShiftRank(3), RookSlider, 3, 0) && RankSum(RookShiftRank(3), 8) == 10240
  {
    SizeValues();
  }
  lemma RookRank5()
    ensures RankAgrees(RookShiftRank(4), RookSlider, 4, 0) && RankSum(RookShiftRank(4), 8) == 10240
  {
    SizeValues();
  }
  lemma RookRank6()
    ensures RankAgrees(RookShiftRank(5), RookSlider, 5, 0) && RankSum(RookShiftRank(5), 8) == 10240
  {
    SizeValues();
  }
  lemma RookRank7()
    ensures RankAgrees(RookShiftRank(6), RookSlider, 6, 0) && RankSum(RookShiftRank(6), 8) == 10240
  {
    SizeValues();
  }
  lemma RookRank8()
    ensures RankAgrees(RookShiftRank(7), RookSlider, 7, 0) && RankSum(RookShiftRank(7), 8) == 20480
  {
    SizeValues();
  }
  lemma BishopRank1()
    ensures RankAgrees(BishopShiftRank(0), BishopSlider, 0, 0) && RankSum(BishopShiftRank(0), 8) == 320
  {
    SizeValues();
  }
  lemma BishopRank2()
    ensures RankAgrees(BishopShiftRank(1), BishopSlider, 1, 0) && RankSum(BishopShiftRank(1), 8) == 256
  {
    SizeValues();
  }
  lemma BishopRank3()
    ensures RankAgrees(BishopShiftRank(2), BishopSlider, 2, 0) && RankSum(BishopShiftRank(2), 8) == 640
  {
    SizeValues();
  }
  lemma BishopRank4()
    ensures RankAgrees(BishopShiftRank(3), BishopSlider, 3, 0) && RankSum(BishopShiftRank(3), 8) == 1408
  {
    SizeValues();
  }
  lemma BishopRank5()
    ensures RankAgrees(BishopShiftRank(4), BishopSlider, 4, 0) && RankSum(BishopShiftRank(4), 8) == 1408
  {
    SizeValues();
  }
  lemma BishopRank6()
    ensures RankAgrees(BishopShiftRank(5), BishopSlider, 5, 0) && RankSum(BishopShiftRank(5), 8) == 640
  {
    SizeValues();
  }
  lemma BishopRank7()
    ensures RankAgrees(BishopShiftRank(6), BishopSlider, 6, 0) && RankSum(BishopShiftRank(6), 8) == 256
  {
    SizeValues();
  }
  lemma BishopRank8()
    ensures RankAgrees(BishopShiftRank(7), BishopSlider, 7, 0) && RankSum(BishopShiftRank(7), 8) == 320
  {
    SizeValues();
  }
  /** Every rank of both tables agrees with the closed form. */
  lemma RanksAgree(p: Slider, r: int)
    requires 0 <= r < 8
    ensures RankAgrees(ShiftRank(p, r), p, r, 0)
  {
    if p == RookSlider {
      if r == 0 { RookRank1(); } else if r == 1 { RookRank2(); } else if r == 2 { RookRank3(); }
      else if r == 3 { RookRank4(); } else if r == 4 { RookRank5(); } else if r == 5 { RookRank6(); }
      else if r == 6 { RookRank7(); } else { RookRank8(); }
    } else {
      if r == 0 { BishopRank1(); } else if r == 1 { BishopRank2(); } else if r == 2 { BishopRank3(); }
      else if r == 3 { BishopRank4(); } else if r == 4 { BishopRank5(); } else if r == 5 { BishopRank6(); }
      else if r == 6 { BishopRank7(); } else { BishopRank8(); }
    }
  }

  lemma {:induction false} RankAgreesAt(row: seq<Shift>, p: Slider, r: int, f0: nat, f: nat)
    requires |row| == 8 && RankAgrees(row, p, r, f0) && f0 <= f < 8
    ensures row[f] + RelevantBits(p, r, f) == 64
    decreases f - f0
  {
    if f0 < f {
      RankAgreesAt(row, p, r, f0 + 1, f);
    }
  }

  /** The closed form counts the interior squares of the rook's four rays. */
  lemma RookBitsCount(sq: Square)
    ensures RelevantBits(RookSlider, Rank(sq), File(sq)) ==
            InteriorCount(sq, North) + InteriorCount(sq, South) + InteriorCount(sq, East) + InteriorCount(sq, West)
  {
  }

  /** The interior squares of each diagonal, in closed form. */
  lemma DiagonalCounts(sq: Square)
    ensures InteriorCount(sq, NorthEast) == Max0(Min(6 - Rank(sq), 6 - File(sq)))
    ensures InteriorCount(sq, NorthWest) == Max0(Min(6 - Rank(sq), File(sq) - 1))
    ensures InteriorCount(sq, SouthEast) == Max0(Min(Rank(sq) - 1, 6 - File(sq)))
    ensures InteriorCount(sq, SouthWest) == Max0(Min(Rank(sq) - 1, File(sq) - 1))
  {
  }

  /** The closed form counts the interior squares of the bishop's four rays. */
  lemma BishopBitsCount(sq: Square)
    ensures RelevantBits(BishopSlider, Rank(sq), File(sq)) ==
            InteriorCount(sq, NorthEast) + InteriorCount(sq, NorthWest) + InteriorCount(sq, SouthEast) + InteriorCount(sq, SouthWest)
  {
    DiagonalCounts(sq);
  }

  /** A ray's interior has as many squares as its length less one. */
  lemma InteriorCard(sq: Square, d: Dir)
    ensures |Interior(Ray(sq, d))| == InteriorCount(sq, d)
  {
    RayGeometry(sq, d);
    RayDistinct(sq, d);
    var ray := Ray(sq, d);
    if |ray| > 0 {
      PrefixCard(ray, |ray| - 1);
    }
  }

  lemma InteriorsDisjoint(sq: Square, d1: Dir, d2: Dir)
    requires d1 != d2
    ensures Interior(Ray(sq, d1)) !! Interior(Ray(sq, d2))
  {
    RaysDisjoint(sq, d1, d2);
  }

  /** Four rays in four directions give a mask of the sum of their interiors. */
  lemma RelevantCard(sq: Square, d1: Dir, d2: Dir, d3: Dir, d4: Dir)
    requires d1 != d2 && d1 != d3 && d1 != d4 && d2 != d3 && d2 != d4 && d3 != d4
    ensures |Relevant(sq, d1, d2, d3, d4)| ==
            InteriorCount(sq, d1) + InteriorCount(sq, d2) + InteriorCount(sq, d3) + InteriorCount(sq, d4)
  {
    InteriorCard(sq, d1);
    InteriorCard(sq, d2);
    InteriorCard(sq, d3);
    InteriorCard(sq, d4);
    InteriorsDisjoint(sq, d1, d2);
    InteriorsDisjoint(sq, d1, d3);
    InteriorsDisjoint(sq, d1, d4);
    InteriorsDisjoint(sq, d2, d3);
    InteriorsDisjoint(sq, d2, d4);
    InteriorsDisjoint(sq, d3, d4);
    var a, b, c, e := Interior(Ray(sq, d1)), Interior(Ray(sq, d2)), Interior(Ray(sq, d3)), Interior(Ray(sq, d4));
    assert |a + b| == |a| + |b|;
    assert |a + b + c| == |a + b| + |c|;
  }

  /**
   * popcount(mask) == 64 - shift: each table entry is 64 minus the number
   * of relevant squares, so an index keeps exactly the mask's bits.
   */
  lemma MaskPopcount(p: Slider, sq: Square)
    ensures |RelevantOf(p, sq)| == 64 - ShiftOf(p, sq)
  {
    RanksAgree(p, Rank(sq));
    RankAgreesAt(ShiftRank(p, Rank(sq)), p, Rank(sq), 0, File(sq));
    if p == RookSlider {
      RookBitsCount(sq);
      RelevantCard(sq, North, South, East, West);
    } else {
      BishopBitsCount(sq);
      RelevantCard(sq, NorthEast, NorthWest, SouthEast, SouthWest);
    }
  }

  /** The squares of one rank, file by file, follow one another in a table. */
  lemma {:induction false} RankStep(shifts: seq<Shift>, row: seq<Shift>, base: nat, f: nat)
    requires base + 8 <= |shifts| && |row| == 8 && f <= 8
    requires forall j | 0 <= j < 8 :: shifts[base + j] == row[j]
    ensures TableSum(shifts, base + f) == TableSum(shifts, base) + RankSum(row, f)
  {
    if f > 0 {
      RankStep(shifts, row, base, f - 1);
    }
  }

  /** Rank r of a flat shift table is the table's rank r. */
  lemma RankInTable(p: Slider, r: int)
    requires 0 <= r < 8
    ensures forall j | 0 <= j < 8 :: Shifts(p)[8 * r + j] == ShiftRank(p, r)[j]
  {
    forall j | 0 <= j < 8
      ensures Shifts(p)[8 * r + j] == ShiftRank(p, r)[j]
    {
      assert Rank(8 * r + j) == r && File(8 * r + j) == j;
    }
  }

  /** The table's first r ranks take the sum of their rank sums. */
  lemma RanksStep(p: Slider, r: int)
    requires 0 <= r < 8
    ensures TableSum(Shifts(p), 8 * r + 8) == TableSum(Shifts(p), 8 * r) + RankSum(ShiftRank(p, r), 8)
  {
    RankInTable(p, r);
    RankStep(Shifts(p), ShiftRank(p, r), 8 * r, 8);
  }

  /** The entries rank r of a table takes, as the per-rank lemmas compute them. */
  function RankTotal(p: Slider, r: int): nat {
    if p == RookSlider then (if r == 0 || r == 7 then 20480 else 10240)
    else if r == 0 || r == 7 then 320
    else if r == 1 || r == 6 then 256
    else if r == 2 || r == 5 then 640
    else 1408
  }

  lemma RankTotalStep(p: Slider, r: int)
    requires 0 <= r < 8
    ensures TableSum(Shifts(p), 8 * r + 8) == TableSum(Shifts(p), 8 * r) + RankTotal(p, r)
  {
    RanksStep(p, r);
    if p == RookSlider {
      if r == 0 { RookRank1(); } else if r == 1 { RookRank2(); } else if r == 2 { RookRank3(); }
      else if r == 3 { RookRank4(); } else if r == 4 { RookRank5(); } else if r == 5 { RookRank6(); }
      else if r == 6 { RookRank7(); } else { RookRank8(); }
    } else {
      if r == 0 { BishopRank1(); } else if r == 1 { BishopRank2(); } else if r == 2 { BishopRank3(); }
      else if r == 3 { BishopRank4(); } else if r == 4 { BishopRank5(); } else if r == 5 { BishopRank6(); }
      else if r == 6 { BishopRank7(); } else { BishopRank8(); }
    }
  }

  /** ROOK_TABLE_SIZE and BISHOP_TABLE_SIZE are exactly the sums of the per-square sizes. */
  lemma TableSizes(p: Slider)
    ensures TableSum(Shifts(p), 64) == TableSize(p)
  {
    RankTotalStep(p, 0);
    RankTotalStep(p, 1);
    RankTotalStep(p, 2);
    RankTotalStep(p, 3);
    RankTotalStep(p, 4);
    RankTotalStep(p, 5);
    RankTotalStep(p, 6);
    RankTotalStep(p, 7);
  }
}
