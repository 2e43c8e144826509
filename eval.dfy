// The static evaluation: material, piece-square tables, king safety,
// development and centre control, as White minus Black and then from the
// side to move's point of view. Scores are i16; sums are accumulated in
// i32 (which never overflows on a board) and cast with wrap-around.

module Eval {
  import opened Common
  import opened Words
  import opened Bits
  import opened Pieces
  import opened Placement
  import opened Position
  import opened Attacks

  // ---------------------------------------------------------------------
  // Values and tables

  /** Material value in centipawns. */
  function Value(k: PieceKind): (v: nat)
    ensures 100 <= v <= 20000
    ensures k != King ==> v <= 900
  {
    match k
    case Pawn => 100
    case Knight => 320
    case Bishop => 330
    case Rook => 500
    case Queen => 900
    case King => 20000
  }

  // Piece-square tables from White's side, index 0 = a1 .. 63 = h8.

  const PAWN_PSQT: seq<int> := [
    0, 0, 0, 0, 0, 0, 0, 0,
    5, 5, 5, 5, 5, 5, 5, 5,
    5, 5, 10, 15, 15, 10, 5, 5,
    10, 10, 20, 30, 30, 20, 10, 10,
    20, 20, 25, 30, 30, 25, 20, 20,
    25, 25, 30, 35, 35, 30, 25, 25,
    50, 50, 50, 50, 50, 50, 50, 50,
    0, 0, 0, 0, 0, 0, 0, 0]

  const KNIGHT_PSQT: seq<int> := [
    -50, -40, -30, -30, -30, -30, -40, -50,
    -40, -20, 0, 5, 5, 0, -20, -40,
    -30, 5, 10, 15, 15, 10, 5, -30,
    -30, 0, 15, 20, 20, 15, 0, -30,
    -30, 5, 15, 20, 20, 15, 5, -30,
    -30, 0, 10, 15, 15, 10, 0, -30,
    -40, -20, 0, 0, 0, 0, -20, -40,
    -50, -40, -30, -30, -30, -30, -40, -50]

  const BISHOP_PSQT: seq<int> := [
    -20, -10, -10, -10, -10, -10, -10, -20,
    -10, 5, 0, 0, 0, 0, 5, -10,
    -10, 10, 10, 10, 10, 10, 10, -10,
    -10, 0, 10, 10, 10, 10, 0, -10,
    -10, 5, 5, 10, 10, 5, 5, -10,
    -10, 0, 5, 10, 10, 5, 0, -10,
    -10, 0, 0, 0, 0, 0, 0, -10,
    -20, -10, -10, -10, -10, -10, -10, -20]

  const ROOK_PSQT: seq<int> := [
    0, 0, 0, 5, 5, 0, 0, 0,
    -5, 0, 0, 0, 0, 0, 0, -5,
    -5, 0, 0, 0, 0, 0, 0, -5,
    -5, 0, 0, 0, 0, 0, 0, -5,
    -5, 0, 0, 0, 0, 0, 0, -5,
    -5, 0, 0, 0, 0, 0, 0, -5,
    5, 10, 10, 10, 10, 10, 10, 5,
    0, 0, 0, 0, 0, 0, 0, 0]

  const QUEEN_PSQT: seq<int> := [
    -20, -10, -10, -5, -5, -10, -10, -20,
    -10, 0, 5, 0, 0, 0, 0, -10,
    -10, 5, 5, 5, 5, 5, 0, -10,
    0, 0, 5, 5, 5, 5, 0, -5,
    -5, 0, 5, 5, 5, 5, 0, -5,
    -10, 0, 5, 5, 5, 5, 0, -10,
    -10, 0, 0, 0, 0, 0, 0, -10,
    -20, -10, -10, -5, -5, -10, -10, -20]

  const KING_PSQT: seq<int> := [
    20, 30, 10, 0, 0, 10, 30, 20,
    20, 20, 0, 0, 0, 0, 20, 20,
    -10, -20, -20, -20, -20, -20, -20, -10,
    -20, -30, -30, -40, -40, -30, -30, -20,
    -30, -40, -40, -50, -50, -40, -40, -30,
    -30, -40, -40, -50, -50, -40, -40, -30,
    -30, -40, -40, -50, -50, -40, -40, -30,
    -30, -40, -40, -50, -50, -40, -40, -30]

  /**
   * One table per kind. The evaluators below take the tables as a value
   * and are proved for any tables of 64 entries; the engine always passes
   * its own (SourceTables).
   */
  datatype Tables = Tables(pawn: seq<int>, knight: seq<int>, bishop: seq<int>, rook: seq<int>, queen: seq<int>, king: seq<int>)

  predicate WellFormed(t: Tables) {
    |t.pawn| == 64 && |t.knight| == 64 && |t.bishop| == 64 && |t.rook| == 64 && |t.queen| == 64 && |t.king| == 64
  }

  /** The engine's tables, each with an entry for every square. */
  function SourceTables(): (t: Tables)
    ensures WellFormed(t)
  {
    Tables(PAWN_PSQT, KNIGHT_PSQT, BISHOP_PSQT, ROOK_PSQT, QUEEN_PSQT, KING_PSQT)
  }

  /** The kind's table entry at the index. */
  function Bonus(t: Tables, k: PieceKind, index: Square): int
    requires WellFormed(t)
  {
    match k
    case Pawn => t.pawn[index]
    case Knight => t.knight[index]
    case Bishop => t.bishop[index]
    case Rook => t.rook[index]
    case Queen => t.queen[index]
    case King => t.king[index]
  }

  /** sq ^ 56: the same file on the mirrored rank (XorFlipsRank shows the two agree). */
  function Flip(sq: Square): Square {
    (7 - Rank(sq)) * 8 + File(sq)
  }

  /** Flip mirrors the rank, keeps the file, and undoes itself. */
  lemma FlipMirrors(sq: Square)
    ensures Rank(Flip(sq)) == 7 - Rank(sq) && File(Flip(sq)) == File(sq)
    ensures Flip(Flip(sq)) == sq
  {
    var r := Flip(sq);
    assert r / 8 == 7 - sq / 8 && r % 8 == sq % 8;
  }

  /** On a square index, exclusive-or with 56 (0b111000) replaces the rank r by 7 - r and keeps the file. */
  lemma XorFlipsRank(b: bv8)
    requires b < 64
    ensures b ^ 56 == (7 - b / 8) * 8 + b % 8
  {
  }

  /** The table index a piece of the colour on sq reads: White's own square, Black's mirrored one. */
  function PstIndex(color: Color, sq: Square): Square {
    if color == White then sq else Flip(sq)
  }

  /** What one piece is worth to its side: its material value plus the table bonus at its index. */
  function PieceValue(t: Tables, kind: PieceKind, color: Color, sq: Square): int
    requires WellFormed(t)
  {
    Value(kind) + Bonus(t, kind, PstIndex(color, sq))
  }

  /** A Black piece on the mirror of a square earns what a White piece earns there. */
  lemma MirroredBonus(t: Tables, k: PieceKind, sq: Square)
    requires WellFormed(t)
    ensures PieceValue(t, k, Black, Flip(sq)) == PieceValue(t, k, White, sq)
  {
    FlipMirrors(sq);
  }

  // ---------------------------------------------------------------------
  // King safety

  function HomeRank(color: Color): nat {
    if color == White then 0 else 7
  }

  /** has_castled: the king stands where castling puts it, on the c- or g-file of its home rank. */
  function HasCastled(p: Placement, color: Color): (r: bool)
    ensures r <==> KingSq(p, color) / 8 == HomeRank(color) && (KingSq(p, color) % 8 == 2 || KingSq(p, color) % 8 == 6)
  {
    var k := KingSq(p, color);
    if color == White then k == 6 || k == 2 else k == 62 || k == 58
  }

  function SaturatingDec(x: nat): nat {
    if x == 0 then 0 else x - 1
  }

  /**
   * The files count_pawn_shield inspects. As written they are file - 1,
   * file, file + 1 each clamped to the board, so on an edge file one of
   * them appears twice; fixed keeps only the files that exist.
   */
  function ShieldFiles(file: nat, fixed: bool): (fs: seq<nat>)
    requires file < 8
    ensures forall i :: 0 <= i < |fs| ==> fs[i] < 8
    ensures |fs| <= 3
  {
    if !fixed then [SaturatingDec(file), file, Min(file + 1, 7)]
    else (if file > 0 then [file - 1] else []) + [file] + (if file < 7 then [file + 1] else [])
  }

  /** The rank in front of the king: one up for White, one down (stopping at 0) for Black. */
  function ShieldRank(rank: nat, color: Color): nat {
    if color == White then rank + 1 else SaturatingDec(rank)
  }

  /** How many of the listed files hold a pawn on the rank, counting a repeated file each time. */
  function ShieldHits(pawns: Bitboard, rank: nat, files: seq<nat>): (n: nat)
    requires rank < 8
    requires forall i :: 0 <= i < |files| ==> files[i] < 8
    ensures n <= |files|
  {
    if files == [] then 0
    else ShieldHits(pawns, rank, files[..|files| - 1]) + (if rank * 8 + files[|files| - 1] in pawns then 1 else 0)
  }

  function Hit(pawns: Bitboard, rank: nat, file: nat): nat {
    if rank * 8 + file in pawns then 1 else 0
  }

  lemma ShieldHitsUnfold(pawns: Bitboard, rank: nat, files: seq<nat>)
    requires rank < 8 && 1 <= |files| <= 3
    requires forall i :: 0 <= i < |files| ==> files[i] < 8
    ensures ShieldHits(pawns, rank, files) ==
      Hit(pawns, rank, files[0]) + (if |files| > 1 then Hit(pawns, rank, files[1]) else 0) +
      (if |files| > 2 then Hit(pawns, rank, files[2]) else 0)
  {
    assert files[..0] == [];
    if |files| > 1 {
      assert files[..1][..0] == [];
      if |files| > 2 {
        assert files[..2][..1] == files[..1];
      }
    }
  }

  /** The pawn shield count: none when the shield rank is off the board. */
  function PawnShield(pawns: Bitboard, kingSq: nat, color: Color, fixed: bool): (n: nat)
    ensures n <= 3
    ensures ShieldRank(kingSq / 8, color) >= 8 ==> n == 0
  {
    var rank := ShieldRank(kingSq / 8, color);
    if rank >= 8 then 0 else ShieldHits(pawns, rank, ShieldFiles(kingSq % 8, fixed))
  }

  /** count_pawn_shield: the loop over the shield files. */
  method CountPawnShield(pawns: Bitboard, kingSq: nat, color: Color, fixed: bool) returns (count: nat)
    ensures count == PawnShield(pawns, kingSq, color, fixed)
    ensures count <= 3
  {
    var file := kingSq % 8;
    var rank := kingSq / 8;
    var files := ShieldFiles(file, fixed);
    var shieldRank := ShieldRank(rank, color);
    if shieldRank >= 8 {
      return 0;
    }
    count := 0;
    for i := 0 to |files|
      invariant count == ShieldHits(pawns, shieldRank, files[..i])
    {
      var sq := shieldRank * 8 + files[i];
      assert files[..i + 1][..i] == files[..i];
      if sq < 64 && sq in pawns {
        count := count + 1;
      }
    }
    assert files[..|files|] == files;
  }

  /** Away from the edge files the written and the fixed shield agree; the fixed files never repeat. */
  lemma ShieldFixedAgrees(pawns: Bitboard, kingSq: nat, color: Color)
    ensures 1 <= kingSq % 8 <= 6 ==> PawnShield(pawns, kingSq, color, false) == PawnShield(pawns, kingSq, color, true)
    ensures var fs := ShieldFiles(kingSq % 8, true); forall i, j :: 0 <= i < j < |fs| ==> fs[i] < fs[j]
  {
    var f := kingSq % 8;
    if 1 <= f <= 6 {
      assert ShieldFiles(f, true) == [f - 1, f, f + 1] == ShieldFiles(f, false);
    }
  }

  /** A king on a1 with pawns on a2 and b2 counts three shield pawns as written and two when fixed. */
  lemma ShieldEdgeDoubleCount(pawns: Bitboard)
    requires pawns == {8, 9}
    ensures PawnShield(pawns, 0, White, false) == 3
    ensures PawnShield(pawns, 0, White, true) == 2
  {
    assert ShieldFiles(0, false) == [0, 0, 1];
    assert ShieldFiles(0, true) == [0, 1];
    ShieldHitsUnfold(pawns, 1, [0, 0, 1]);
    ShieldHitsUnfold(pawns, 1, [0, 1]);
  }

  /** The king sits on the d- or e-file without having castled. */
  predicate CentralUncastled(p: Placement, color: Color) {
    var file := KingSq(p, color) % 8;
    (file == 3 || file == 4) && !HasCastled(p, color)
  }

  /**
   * king_safety: -50 for an uncastled king in the centre plus 15 for each
   * shield pawn; negative exactly when the centre penalty applies.
   */
  function KingSafety(p: Placement, color: Color, fixed: bool): (r: int)
    requires Sized(p)
    ensures -50 <= r <= 45
    ensures r < 0 <==> CentralUncastled(p, color)
    ensures r == (if r < 0 then -50 else 0) + 15 * PawnShield(PieceBB(p, Pawn, color), KingSq(p, color) as nat, color, fixed)
  {
    var penalty := if CentralUncastled(p, color) then -50 else 0;
    penalty + 15 * PawnShield(PieceBB(p, Pawn, color), KingSq(p, color) as nat, color, fixed)
  }

  /** Bare kings on e1 and e8: both sides get the -50 centre penalty. */
  lemma KingSafetyBareCentre(p: Placement, fixed: bool)
    requires Sized(p) && KingSq(p, White) == 4 && KingSq(p, Black) == 60
    requires PieceBB(p, Pawn, White) == {} && PieceBB(p, Pawn, Black) == {}
    ensures KingSafety(p, White, fixed) == -50 && KingSafety(p, Black, fixed) == -50
  {
    ShieldHitsUnfold({}, 1, ShieldFiles(4, fixed));
    ShieldHitsUnfold({}, 6, ShieldFiles(4, fixed));
  }

  /** A king castled on g1 (or c1) with pawns on the three shield squares: +45. */
  lemma KingSafetyFullShield(p: Placement, fixed: bool)
    requires Sized(p)
    requires (KingSq(p, White) == 6 && PieceBB(p, Pawn, White) == {13, 14, 15}) ||
             (KingSq(p, White) == 2 && PieceBB(p, Pawn, White) == {9, 10, 11})
    ensures KingSafety(p, White, fixed) == 45
  {
    var k := KingSq(p, White) as nat;
    var fs := ShieldFiles(k % 8, fixed);
    assert fs == [k % 8 - 1, k % 8, k % 8 + 1];
    ShieldHitsUnfold(PieceBB(p, Pawn, White), 1, fs);
  }

  /** A king castled on g1 with pawns on f2 and g2 only: +30; with none: 0. */
  lemma KingSafetyPartialShield(p: Placement, fixed: bool)
    requires Sized(p) && KingSq(p, White) == 6
    requires PieceBB(p, Pawn, White) == {13, 14} || PieceBB(p, Pawn, White) == {}
    ensures KingSafety(p, White, fixed) == if PieceBB(p, Pawn, White) == {} then 0 else 30
  {
    var fs := ShieldFiles(6, fixed);
    assert fs == [5, 6, 7];
    ShieldHitsUnfold(PieceBB(p, Pawn, White), 1, fs);
  }

  /** A king on a1 behind pawns on a2 and b2: 45 as written, the a-file counted twice; 30 when fixed. */
  lemma KingSafetyEdgeFile(p: Placement)
    requires Sized(p) && KingSq(p, White) == 0 && PieceBB(p, Pawn, White) == {8, 9}
    ensures KingSafety(p, White, false) == 45
    ensures KingSafety(p, White, true) == 30
  {
    ShieldEdgeDoubleCount(PieceBB(p, Pawn, White));
  }

  // ---------------------------------------------------------------------
  // Development

  /** The colour's back rank: rank 1 (the mask 0xFF) for White, rank 8 (0xFF << 56) for Black. */
  function BackRank(color: Color): Bitboard {
    set sq: Square | sq / 8 == HomeRank(color)
  }

  lemma BackRankMask()
    ensures BackRank(White) == RankMask(1) && BackRank(Black) == RankMask(8)
  {
  }

  /**
   * development_penalty: nothing up to move 10; afterwards 10 for each of
   * the colour's knights and bishops still on its back rank.
   */
  function DevelopmentPenalty(knights: Bitboard, bishops: Bitboard, fullmove: nat, color: Color): (r: nat)
    ensures fullmove <= 10 ==> r == 0
    ensures r % 10 == 0
    ensures knights * BackRank(color) == {} && bishops * BackRank(color) == {} ==> r == 0
  {
    if fullmove <= 10 then 0
    else 10 * CountBits(knights * BackRank(color)) + 10 * CountBits(bishops * BackRank(color))
  }

  /** Developing a knight off the back rank after move 10 lowers the penalty by 10. */
  lemma DevelopingKnight(knights: Bitboard, bishops: Bitboard, fullmove: nat, color: Color, sq: Square, to: Square)
    requires fullmove > 10 && sq in knights && sq in BackRank(color)
    requires to !in knights && to !in BackRank(color)
    ensures DevelopmentPenalty(knights - {sq} + {to}, bishops, fullmove, color) ==
            DevelopmentPenalty(knights, bishops, fullmove, color) - 10
  {
    var m := BackRank(color);
    assert (knights - {sq} + {to}) * m == knights * m - {sq};
  }

  // ---------------------------------------------------------------------
  // Centre control

  /** d4, e4, d5, e5, worth 10 each. */
  const CENTER: seq<Square> := [27, 28, 35, 36]

  /** c3-f3, c4, f4, c5, f5, c6-f6, worth 3 each. */
  const EXTENDED: seq<Square> := [18, 19, 20, 21, 26, 29, 34, 37, 42, 43, 44, 45]

  /** Only the colour attacks the square. */
  predicate Holds(p: Placement, occ: Bitboard, sq: Square, color: Color, fixed: bool)
    requires Sized(p)
  {
    IsSquareAttacked(p, occ, sq, color, fixed) && !IsSquareAttacked(p, occ, sq, Opponent(color), fixed)
  }

  /** One square's share: +w when only White attacks it, -w when only Black does, 0 when both or neither do. */
  function Control(p: Placement, occ: Bitboard, sq: Square, w: int, fixed: bool): (r: int)
    requires Sized(p) && w >= 0
    ensures r == w || r == -w || r == 0
  {
    if Holds(p, occ, sq, White, fixed) then w else if Holds(p, occ, sq, Black, fixed) then -w else 0
  }

  lemma MulSucc(w: int, n: nat)
    ensures w * (n + 1) == w * n + w
  {
  }

  function ControlSum(p: Placement, occ: Bitboard, squares: seq<Square>, w: int, fixed: bool): (r: int)
    requires Sized(p) && w >= 0
    ensures -(w * |squares|) <= r <= w * |squares|
  {
    if squares == [] then 0
    else
      var n := |squares| - 1;
      var r := ControlSum(p, occ, squares[..n], w, fixed) + Control(p, occ, squares[n], w, fixed);
      MulSucc(w, n);
      r
  }

  /** center_control: White minus Black control of the four centre and twelve extended squares. */
  function CenterScore(p: Placement, occ: Bitboard, fixed: bool): (r: int)
    requires Sized(p)
    ensures -76 <= r <= 76
  {
    ControlSum(p, occ, CENTER, 10, fixed) + ControlSum(p, occ, EXTENDED, 3, fixed)
  }

  method SumControl(p: Placement, occ: Bitboard, squares: seq<Square>, w: int, fixed: bool) returns (score: int)
    requires Sized(p) && w >= 0
    ensures score == ControlSum(p, occ, squares, w, fixed)
  {
    score := 0;
    for i := 0 to |squares|
      invariant score == ControlSum(p, occ, squares[..i], w, fixed)
    {
      assert squares[..i + 1][..i] == squares[..i];
      var white := IsSquareAttacked(p, occ, squares[i], White, fixed);
      var black := IsSquareAttacked(p, occ, squares[i], Black, fixed);
      if white && !black {
        score := score + w;
      } else if black && !white {
        score := score - w;
      }
    }
    assert squares[..|squares|] == squares;
  }

  /** center_control: the two loops, over the centre and the extended centre. */
  method CenterControl(p: Placement, occ: Bitboard, fixed: bool) returns (score: int)
    requires Sized(p)
    ensures score == CenterScore(p, occ, fixed)
    ensures -76 <= score <= 76
  {
    var center := SumControl(p, occ, CENTER, 10, fixed);
    var extended := SumControl(p, occ, EXTENDED, 3, fixed);
    score := center + extended;
  }

  /** Every listed square held by one colour alone gives that colour the full weight of every square. */
  lemma {:induction false} ControlSumHeld(p: Placement, occ: Bitboard, squares: seq<Square>, w: int, color: Color, fixed: bool)
    requires Sized(p) && w >= 0
    requires forall i :: 0 <= i < |squares| ==> Holds(p, occ, squares[i], color, fixed)
    ensures ControlSum(p, occ, squares, w, fixed) == (if color == White then w else -w) * |squares|
  {
    if squares != [] {
      var n := |squares| - 1;
      var v := if color == White then w else -w;
      ControlSumHeld(p, occ, squares[..n], w, color, fixed);
      assert forall i :: 0 <= i < n ==> squares[..n][i] == squares[i];
      assert Control(p, occ, squares[n], w, fixed) == v;
      MulSucc(v, n);
    }
  }

  /** Holding all sixteen squares alone reaches the bound: +76 for White, -76 for Black. */
  lemma CenterHeld(p: Placement, occ: Bitboard, color: Color, fixed: bool)
    requires Sized(p)
    requires forall i :: 0 <= i < |CENTER| ==> Holds(p, occ, CENTER[i], color, fixed)
    requires forall i :: 0 <= i < |EXTENDED| ==> Holds(p, occ, EXTENDED[i], color, fixed)
    ensures CenterScore(p, occ, fixed) == if color == White then 76 else -76
  {
    ControlSumHeld(p, occ, CENTER, 10, color, fixed);
    ControlSumHeld(p, occ, EXTENDED, 3, color, fixed);
  }

  // ---------------------------------------------------------------------
  // Side to move

  /** i16 negation with wrap-around: -i16::MIN is i16::MIN. */
  function Neg(x: I16): (r: I16)
    ensures x != -0x8000 ==> r == -x
    ensures x == -0x8000 ==> r == x
  {
    WrapI16(-(x as int))
  }

  /**
   * A White-minus-Black score seen from the side to move: negated for
   * Black, with i16 wrap-around (so i16::MIN stays i16::MIN).
   */
  function Relative(side: Color, rel: I16): (r: I16)
    ensures side == White ==> r == rel
    ensures side == Black && rel != -0x8000 ==> r == -rel
    ensures side == Black && rel == -0x8000 ==> r == rel
  {
    if side == Black then Neg(rel) else rel
  }

  /** Black's view is the negation of White's, and negating it again gives White's back. */
  lemma RelativeSwap(rel: I16)
    ensures Relative(Black, rel) == Neg(Relative(White, rel))
    ensures Neg(Relative(Black, rel)) == Relative(White, rel)
  {
  }

  // ---------------------------------------------------------------------
  // quick_material_count

  /** What the piece on sq adds to the colour's material: its value if it is the colour's, else 0. */
  function MaterialAt(p: Placement, sq: nat, color: Color): (v: nat)
    requires Sized(p)
    ensures v <= 20000
    ensures v > 0 <==> PieceOn(p, sq).Some? && PieceOn(p, sq).value.1 == color
  {
    match PieceOn(p, sq)
    case None => 0
    case Some(pc) => if pc.1 == color then Value(pc.0) else 0
  }

  /** The colour's material on squares 0 .. n - 1. */
  function Material(p: Placement, color: Color, n: nat): (m: nat)
    requires Sized(p)
    ensures m <= 20000 * n
  {
    if n == 0 then 0 else Material(p, color, n - 1) + MaterialAt(p, n - 1, color)
  }

  /** quick_material_count: White's minus Black's material, cast to i16, from the side to move. */
  function QuickMaterial(s: State): I16
    requires Sized(s.board)
  {
    Relative(s.side, MaterialBalance(s.board))
  }

  /** White's minus Black's material, cast to i16. */
  function MaterialBalance(p: Placement): I16
    requires Sized(p)
  {
    WrapI16(Material(p, White, 64) - Material(p, Black, 64))
  }

  /** quick_material_count: the loop over the 64 squares. */
  method QuickMaterialCount(s: State) returns (r: I16)
    requires Sized(s.board)
    ensures r == QuickMaterial(s)
  {
    var white := 0;
    var black := 0;
    for sq := 0 to 64
      invariant white == Material(s.board, White, sq) && black == Material(s.board, Black, sq)
    {
      var piece := PieceOn(s.board, sq);
      if piece.Some? {
        var (kind, color) := piece.value;
        if color == White {
          white := white + Value(kind);
        } else {
          black := black + Value(kind);
        }
      }
    }
    var relative := WrapI16(white - black);
    r := Relative(s.side, relative);
  }

  /** Without wrap-around the count is exactly the material difference, negated for Black. */
  lemma QuickMaterialExact(s: State)
    requires Sized(s.board)
    requires -0x8000 < Material(s.board, White, 64) - Material(s.board, Black, 64) < 0x8000
    ensures QuickMaterial(s) == if s.side == White then Material(s.board, White, 64) - Material(s.board, Black, 64)
                                else Material(s.board, Black, 64) - Material(s.board, White, 64)
  {
  }

  // ---------------------------------------------------------------------
  // evaluate_fast

  /** What the piece on sq adds to the colour's score: value plus its table bonus. */
  function FastAt(p: Placement, t: Tables, sq: Square, color: Color): (v: int)
    requires Sized(p) && WellFormed(t)
    ensures v != 0 ==> PieceOn(p, sq).Some? && PieceOn(p, sq).value.1 == color
  {
    match PieceOn(p, sq)
    case None => 0
    case Some(pc) => if pc.1 == color then PieceValue(t, pc.0, color, sq) else 0
  }

  /** The colour's pieces on squares 0 .. n - 1, each worth its value plus its bonus. */
  function FastSum(p: Placement, t: Tables, color: Color, n: nat): int
    requires Sized(p) && WellFormed(t) && n <= 64
  {
    if n == 0 then 0 else FastSum(p, t, color, n - 1) + FastAt(p, t, n - 1, color)
  }

  /** evaluate_fast: material and table bonuses, White minus Black, from the side to move. */
  function FastScore(s: State, t: Tables): I16
    requires Sized(s.board) && WellFormed(t)
  {
    Relative(s.side, FastBalance(s.board, t))
  }

  function FastBalance(p: Placement, t: Tables): I16
    requires Sized(p) && WellFormed(t)
  {
    WrapI16(FastSum(p, t, White, 64) - FastSum(p, t, Black, 64))
  }

  /** The body of evaluate_fast's loop: the piece on sq, if any, credited to its colour. */
  method FastSquare(p: Placement, t: Tables, sq: Square) returns (white: int, black: int)
    requires Sized(p) && WellFormed(t)
    ensures white == FastAt(p, t, sq, White) && black == FastAt(p, t, sq, Black)
  {
    white, black := 0, 0;
    var piece := PieceOn(p, sq);
    if piece.Some? {
      var (kind, color) := piece.value;
      var total := PieceValue(t, kind, color, sq);
      if color == White {
        white := total;
      } else {
        black := total;
      }
    }
  }

  /** The loop of evaluate_fast: White's and Black's totals over the 64 squares. */
  method FastTotals(p: Placement, t: Tables) returns (white: int, black: int)
    requires Sized(p) && WellFormed(t)
    ensures white == FastSum(p, t, White, 64) && black == FastSum(p, t, Black, 64)
  {
    white, black := 0, 0;
    for sq := 0 to 64
      invariant white == FastSum(p, t, White, sq) && black == FastSum(p, t, Black, sq)
    {
      var w, b := FastSquare(p, t, sq);
      white := white + w;
      black := black + b;
    }
  }

  /** evaluate_fast: the totals' difference cast to i16, from the side to move. */
  method EvaluateFast(s: State, t: Tables) returns (r: I16)
    requires Sized(s.board) && WellFormed(t)
    ensures r == FastScore(s, t)
  {
    var white, black := FastTotals(s.board, t);
    var relative := WrapI16(white - black);
    r := Relative(s.side, relative);
  }

  // ---------------------------------------------------------------------
  // evaluate

  /** Value plus table bonus for a piece of the kind and colour on each of the squares. */
  function PieceScore(t: Tables, squares: seq<Square>, kind: PieceKind, color: Color): int
    requires WellFormed(t)
  {
    if squares == [] then 0
    else PieceValue(t, kind, color, squares[0]) + PieceScore(t, squares[1..], kind, color)
  }

  /** The inner loop of evaluate: pop the lowest set bit until the board is empty. */
  method SumPieces(t: Tables, bb: Bitboard, kind: PieceKind, color: Color) returns (total: int)
    requires WellFormed(t)
    ensures total == PieceScore(t, Enumerate(bb), kind, color)
  {
    total := 0;
    var rest := bb;
    while rest != {}
      invariant total + PieceScore(t, Enumerate(rest), kind, color) == PieceScore(t, Enumerate(bb), kind, color)
      decreases |rest|
    {
      var r, next := PopLsb(rest);
      var sq := r.value;
      assert Enumerate(rest) == [sq] + Enumerate(next);
      total := total + PieceValue(t, kind, color, sq);
      rest := next;
    }
  }

  /** The colour's pieces of the first i kinds (Pawn .. King), each on its own squares. */
  function KindsScore(p: Placement, t: Tables, color: Color, i: nat): int
    requires Sized(p) && WellFormed(t) && i <= 6
  {
    if i == 0 then 0
    else KindsScore(p, t, color, i - 1) + PieceScore(t, Enumerate(PieceBB(p, KindOf(i - 1), color)), KindOf(i - 1), color)
  }

  /** One colour's total: pieces, minus the development penalty, plus king safety. */
  function SideScore(p: Placement, t: Tables, fullmove: nat, color: Color, fixed: bool): int
    requires Sized(p) && WellFormed(t)
  {
    KindsScore(p, t, color, 6)
    - DevelopmentPenalty(PieceBB(p, Knight, color), PieceBB(p, Bishop, color), fullmove, color)
    + KingSafety(p, color, fixed)
  }

  /**
   * evaluate: White's minus Black's total cast to i16, plus centre control
   * (an i16 addition that wraps), from the side to move.
   */
  function EvalScore(s: State, t: Tables, fixed: bool): I16
    requires Sized(s.board) && WellFormed(t)
  {
    Relative(s.side, EvalBalance(s.board, t, s.occ.all, s.fullmove, fixed))
  }

  function EvalBalance(p: Placement, t: Tables, occ: Bitboard, fullmove: nat, fixed: bool): I16
    requires Sized(p) && WellFormed(t)
  {
    var rel := WrapI16(SideScore(p, t, fullmove, White, fixed) - SideScore(p, t, fullmove, Black, fixed));
    WrapI16(rel + CenterScore(p, occ, fixed))
  }

  /** king_safety as the straight-line code computes it, through count_pawn_shield. */
  method ComputeKingSafety(p: Placement, color: Color, fixed: bool) returns (safety: int)
    requires Sized(p)
    ensures safety == KingSafety(p, color, fixed)
  {
    safety := 0;
    var kingSq := KingSq(p, color);
    var file := kingSq % 8;
    if (file == 3 || file == 4) && !HasCastled(p, color) {
      safety := safety - 50;
    }
    var shield := CountPawnShield(PieceBB(p, Pawn, color), kingSq as nat, color, fixed);
    safety := safety + shield * 15;
  }

  /** The loop of evaluate over the six kinds, popping the bits of both colours' bitboards. */
  method KindTotals(p: Placement, t: Tables) returns (white: int, black: int)
    requires Sized(p) && WellFormed(t)
    ensures white == KindsScore(p, t, White, 6) && black == KindsScore(p, t, Black, 6)
  {
    white, black := 0, 0;
    for i := 0 to 6
      invariant white == KindsScore(p, t, White, i) && black == KindsScore(p, t, Black, i)
    {
      var kind := KindOf(i);
      var w := SumPieces(t, PieceBB(p, kind, White), kind, White);
      var b := SumPieces(t, PieceBB(p, kind, Black), kind, Black);
      white := white + w;
      black := black + b;
    }
  }

  /** Both colours' totals in evaluate: pieces, less the development penalty, plus king safety. */
  method SideTotals(p: Placement, t: Tables, fullmove: nat, fixed: bool) returns (white: int, black: int)
    requires Sized(p) && WellFormed(t)
    ensures white == SideScore(p, t, fullmove, White, fixed) && black == SideScore(p, t, fullmove, Black, fixed)
  {
    white, black := KindTotals(p, t);
    white := white - DevelopmentPenalty(PieceBB(p, Knight, White), PieceBB(p, Bishop, White), fullmove, White);
    black := black - DevelopmentPenalty(PieceBB(p, Knight, Black), PieceBB(p, Bishop, Black), fullmove, Black);
    var whiteSafety := ComputeKingSafety(p, White, fixed);
    var blackSafety := ComputeKingSafety(p, Black, fixed);
    white := white + whiteSafety;
    black := black + blackSafety;
  }

  lemma EvalBalanceOf(p: Placement, t: Tables, occ: Bitboard, fullmove: nat, fixed: bool, white: int, black: int, center: int)
    requires Sized(p) && WellFormed(t)
    requires white == SideScore(p, t, fullmove, White, fixed) && black == SideScore(p, t, fullmove, Black, fixed)
    requires center == CenterScore(p, occ, fixed)
    ensures WrapI16(WrapI16(white - black) + center) == EvalBalance(p, t, occ, fullmove, fixed)
  {
  }

  /** evaluate: both totals and centre control, White minus Black, from the side to move. */
  method Evaluate(s: State, t: Tables, fixed: bool) returns (r: I16)
    requires Sized(s.board) && WellFormed(t)
    ensures r == EvalScore(s, t, fixed)
  {
    var white, black := SideTotals(s.board, t, s.fullmove, fixed);
    var center := CenterControl(s.board, s.occ.all, fixed);
    var relative := WrapI16(WrapI16(white - black) + center);
    EvalBalanceOf(s.board, t, s.occ.all, s.fullmove, fixed, white, black, center);
    r := Relative(s.side, relative);
  }

  /** The same position with Black to move scores the negation of White to move, for all three evaluators. */
  lemma SideToMoveNegates(s: State, t: Tables, fixed: bool)
    requires Sized(s.board) && WellFormed(t)
    ensures EvalScore(s.(side := Black), t, fixed) == Neg(EvalScore(s.(side := White), t, fixed))
    ensures FastScore(s.(side := Black), t) == Neg(FastScore(s.(side := White), t))
    ensures QuickMaterial(s.(side := Black)) == Neg(QuickMaterial(s.(side := White)))
  {
    RelativeSwap(EvalBalance(s.board, t, s.occ.all, s.fullmove, fixed));
    RelativeSwap(FastBalance(s.board, t));
    RelativeSwap(MaterialBalance(s.board));
  }

  // ---------------------------------------------------------------------
  // evaluate_lazy

  /** i16::abs with wrap-around: i16::MIN is its own absolute value. */
  function AbsI16(x: I16): (r: I16)
    ensures x != -0x8000 ==> r >= 0 && (r == x || r == -x)
    ensures x == -0x8000 ==> r == x
  {
    if x < 0 then Neg(x) else x
  }

  /** evaluate_lazy: the material count when it is beyond 300 either way, otherwise the full evaluation. */
  function LazyScore(s: State, t: Tables, fixed: bool): I16
    requires Sized(s.board) && WellFormed(t)
  {
    var material := QuickMaterial(s);
    if AbsI16(material) > 300 then material else EvalScore(s, t, fixed)
  }

  method EvaluateLazy(s: State, t: Tables, fixed: bool) returns (r: I16)
    requires Sized(s.board) && WellFormed(t)
    ensures r == LazyScore(s, t, fixed)
  {
    var material := QuickMaterialCount(s);
    if AbsI16(material) > 300 {
      return material;
    }
    r := Evaluate(s, t, fixed);
  }

  /** Lazy evaluation returns the material count exactly when it is more than three pawns either way. */
  lemma LazyChoice(s: State, t: Tables, fixed: bool)
    requires Sized(s.board) && WellFormed(t)
    ensures var m := QuickMaterial(s);
      ((m < -300 || m > 300) && m != -0x8000 ==> LazyScore(s, t, fixed) == m) &&
      (-300 <= m <= 300 || m == -0x8000 ==> LazyScore(s, t, fixed) == EvalScore(s, t, fixed))
  {
  }

  /** Lazy evaluation also negates with the side to move. */
  lemma LazySideToMove(s: State, t: Tables, fixed: bool)
    requires Sized(s.board) && WellFormed(t)
    ensures LazyScore(s.(side := Black), t, fixed) == Neg(LazyScore(s.(side := White), t, fixed))
  {
    SideToMoveNegates(s, t, fixed);
    var m := QuickMaterial(s.(side := White));
    if m != -0x8000 {
      assert AbsI16(Neg(m)) == AbsI16(m);
    }
  }
}
