// is_square_attacked and the legality filter of generate_moves.
//
// The sliding part of is_square_attacked walks each ray square by square,
// adding the step to the square index and stopping on a loop condition
// that is meant to catch the board edge. Two of those conditions compare
// the file with the wrong edge: the +7 walk (one file left, one rank up)
// stops on file A instead of file H, and the +9 walk (one file right, one
// rank up) stops on file H instead of file A. Walk models the loop with
// the conditions as written (fixed = false) and corrected (fixed = true);
// only the corrected walk is the geometric ray.

module Attacks {
  import opened Common
  import opened Bits
  import opened Pieces
  import opened Moves
  import opened Zobrist
  import opened Placement
  import opened Position
  import opened Rays

  /** The bitboard shifted left by k bits (towards higher squares); bits past square 63 drop off. */
  function Shl(bb: Bitboard, k: nat): (r: Bitboard)
    ensures forall t: Square :: t in bb && t + k < 64 <==> t + k in r
  {
    set t: Square | t in bb && t + k < 64 :: t + k
  }

  /** The bitboard shifted right by k bits (towards lower squares). */
  function Shr(bb: Bitboard, k: nat): (r: Bitboard)
    ensures forall t: Square :: t in bb && t - k >= 0 <==> t - k in r
  {
    set t: Square | t in bb && t - k >= 0 :: t - k
  }

  /**
   * The loop condition of each ray walk. Only the +7 and +9 walks differ
   * between the code as written and the corrected form.
   */
  predicate Continues(d: Dir, s: int, fixed: bool) {
    match d
    case SouthWest => s >= 0 && s % 8 != 7
    case SouthEast => s >= 0 && s % 8 != 0
    case NorthWest => s < 64 && s % 8 != (if fixed then 7 else 0)
    case NorthEast => s < 64 && s % 8 != (if fixed then 0 else 7)
    case North => s < 64
    case South => s >= 0
    case East => s % 8 != 0
    case West => s >= 0 && s % 8 != 7
  }

  /** The values the walk's i8 index takes: at most one step past the board. */
  predicate InWalk(d: Dir, s: int) {
    if Step(d) > 0 then 1 <= s <= 72 && (d == East ==> s <= 64) else -9 <= s <= 62
  }

  /**
   * One ray walk of is_square_attacked from index s: while the loop
   * condition holds, the first occupied square decides, attacker or not.
   */
  function Walk(occ: Bitboard, attackers: Bitboard, d: Dir, s: int, fixed: bool): bool
    requires InWalk(d, s)
    decreases if Step(d) > 0 then 73 - s else s + 10
  {
    if !Continues(d, s, fixed) then false
    else if s in occ then s in attackers
    else Walk(occ, attackers, d, s + Step(d), fixed)
  }

  /** A pawn of the colour on one of the two squares diagonally behind sq, as the shifted pawn sets say. */
  predicate PawnAttacks(p: Placement, sq: Square, side: Color)
    requires Sized(p)
  {
    if side == White then
      var pawns := PieceBB(p, Pawn, White);
      sq in Shl(pawns * NotFileA(), 7) || sq in Shl(pawns * NotFileH(), 9)
    else
      var pawns := PieceBB(p, Pawn, Black);
      sq in Shr(pawns * NotFileA(), 9) || sq in Shr(pawns * NotFileH(), 7)
  }

  /** The diagonal walks, run only when the colour has a bishop or a queen. */
  predicate DiagonalAttacks(p: Placement, occ: Bitboard, sq: Square, side: Color, fixed: bool)
    requires Sized(p)
  {
    var diag := PieceBB(p, Bishop, side) + PieceBB(p, Queen, side);
    diag != {} && DiagonalWalks(occ, diag, sq, fixed)
  }

  /** The -9, -7, +7 and +9 walks, in the order the code runs them. */
  predicate DiagonalWalks(occ: Bitboard, attackers: Bitboard, sq: Square, fixed: bool) {
    StepWalk(occ, attackers, sq, SouthWest, fixed) || StepWalk(occ, attackers, sq, SouthEast, fixed) ||
    StepWalk(occ, attackers, sq, NorthWest, fixed) || StepWalk(occ, attackers, sq, NorthEast, fixed)
  }

  /**
   * The walk that starts one step from sq. The code guards the +1 walk by
   * sq % 8 != 7 and the -1 walk by sq % 8 != 0.
   */
  predicate StepWalk(occ: Bitboard, attackers: Bitboard, sq: Square, d: Dir, fixed: bool) {
    InWalkFrom(d, sq);
    (d == East ==> sq % 8 != 7) && (d == West ==> sq % 8 != 0) &&
    Walk(occ, attackers, d, sq + Step(d), fixed)
  }

  /** Every walk starts inside the index range it keeps to. */
  lemma InWalkFrom(d: Dir, sq: Square)
    ensures InWalk(d, sq + Step(d))
  {
  }

  /** The orthogonal walks, run only when the colour has a rook or a queen; east and west are guarded by the file. */
  predicate OrthogonalAttacks(p: Placement, occ: Bitboard, sq: Square, side: Color)
    requires Sized(p)
  {
    var orth := PieceBB(p, Rook, side) + PieceBB(p, Queen, side);
    orth != {} && OrthogonalWalks(occ, orth, sq)
  }

  /** The +8, -8, +1 and -1 walks, in the order the code runs them. */
  predicate OrthogonalWalks(occ: Bitboard, attackers: Bitboard, sq: Square) {
    StepWalk(occ, attackers, sq, North, false) || StepWalk(occ, attackers, sq, South, false) ||
    StepWalk(occ, attackers, sq, East, false) || StepWalk(occ, attackers, sq, West, false)
  }

  /**
   * is_square_attacked: a pawn, knight or king of the colour attacks sq
   * by its table, or a slider does along a walk.
   */
  predicate IsSquareAttacked(p: Placement, occ: Bitboard, sq: Square, side: Color, fixed: bool)
    requires Sized(p)
  {
    PawnAttacks(p, sq, side) ||
    KnightSet(sq) * PieceBB(p, Knight, side) != {} ||
    KingSet(sq) * PieceBB(p, King, side) != {} ||
    DiagonalAttacks(p, occ, sq, side, fixed) ||
    OrthogonalAttacks(p, occ, sq, side)
  }

  /** The geometric definition: some piece of the colour attacks sq along its own lines. */
  predicate AttackedOnRays(p: Placement, occ: Bitboard, sq: Square, side: Color)
    requires Sized(p)
  {
    var diag := PieceBB(p, Bishop, side) + PieceBB(p, Queen, side);
    var orth := PieceBB(p, Rook, side) + PieceBB(p, Queen, side);
    (exists t :: t in PieceBB(p, Pawn, side) && PawnStep(t, sq, side)) ||
    (exists t :: t in PieceBB(p, Knight, side) && KnightStep(sq, t)) ||
    (exists t :: t in PieceBB(p, King, side) && KingStep(sq, t)) ||
    (exists d :: Diagonal(d) && Hits(Ray(sq, d), occ, diag)) ||
    (exists d :: !Diagonal(d) && Hits(Ray(sq, d), occ, orth))
  }

  /** A pawn of the colour on t captures onto s: one rank forward for it and one file aside. */
  predicate PawnStep(t: Square, s: Square, side: Color) {
    Rank(s) == Rank(t) + (if side == White then 1 else -1) && Abs(File(s) - File(t)) == 1
  }

  predicate Diagonal(d: Dir) {
    DF(d) != 0 && DR(d) != 0
  }

  // ---------------------------------------------------------------------
  // Properties

  /** A square is fixed by its file and rank. */
  lemma SquareOfCoords(a: Square, b: Square, df: int, dr: int)
    requires File(a) == File(b) + df && Rank(a) == Rank(b) + dr
    ensures a == b + 8 * dr + df
  {
  }

  /** The square a pawn on t captures onto, on the side of the given file step. */
  lemma PawnTarget(t: Square, sq: Square, side: Color, df: int)
    requires df == 1 || df == -1
    requires File(sq) == File(t) + df && Rank(sq) == Rank(t) + (if side == White then 1 else -1)
    ensures sq == t + (if side == White then 8 else -8) + df
    ensures df == 1 ==> t in NotFileH()
    ensures df == -1 ==> t in NotFileA()
  {
    SquareOfCoords(sq, t, df, if side == White then 1 else -1);
  }

  /** A shifted pawn square lies one rank forward and one file aside. */
  lemma PawnSource(t: Square, sq: Square, side: Color, df: int)
    requires df == 1 || df == -1
    requires sq == t + (if side == White then 8 else -8) + df
    requires df == 1 ==> File(t) != 7
    requires df == -1 ==> File(t) != 0
    ensures PawnStep(t, sq, side)
  {
  }

  /** Every square a pawn of the colour captures onto is in its shifted pawn sets. */
  lemma PawnAttacksComplete(p: Placement, sq: Square, side: Color, t: Square)
    requires Sized(p) && t in PieceBB(p, Pawn, side) && PawnStep(t, sq, side)
    ensures PawnAttacks(p, sq, side)
  {
    var pawns := PieceBB(p, Pawn, side);
    var df := File(sq) - File(t);
    PawnTarget(t, sq, side, df);
    if side == White {
      if df == 1 {
        assert t in pawns * NotFileH() && t + 9 == sq;
      } else {
        assert t in pawns * NotFileA() && t + 7 == sq;
      }
    } else {
      if df == 1 {
        assert t in pawns * NotFileH() && t - 7 == sq;
      } else {
        assert t in pawns * NotFileA() && t - 9 == sq;
      }
    }
  }

  /** Every square in the shifted pawn sets is one a pawn of the colour captures onto. */
  lemma PawnAttacksSound(p: Placement, sq: Square, side: Color)
    requires Sized(p) && PawnAttacks(p, sq, side)
    ensures exists t :: t in PieceBB(p, Pawn, side) && PawnStep(t, sq, side)
  {
    var pawns := PieceBB(p, Pawn, side);
    if side == White {
      if sq in Shl(pawns * NotFileA(), 7) {
        PawnSource(sq - 7, sq, side, -1);
      } else {
        PawnSource(sq - 9, sq, side, 1);
      }
    } else {
      if sq in Shr(pawns * NotFileA(), 9) {
        PawnSource(sq + 9, sq, side, -1);
      } else {
        PawnSource(sq + 7, sq, side, 1);
      }
    }
  }

  /** The shifted pawn sets hold exactly the squares a pawn of the colour captures onto. */
  lemma PawnAttacksGeometry(p: Placement, sq: Square, side: Color)
    requires Sized(p)
    ensures PawnAttacks(p, sq, side) <==> exists t :: t in PieceBB(p, Pawn, side) && PawnStep(t, sq, side)
  {
    if PawnAttacks(p, sq, side) {
      PawnAttacksSound(p, sq, side);
    }
    if exists t :: t in PieceBB(p, Pawn, side) && PawnStep(t, sq, side) {
      var t :| t in PieceBB(p, Pawn, side) && PawnStep(t, sq, side);
      PawnAttacksComplete(p, sq, side, t);
    }
  }

  /** The corrected loop condition holds one step out exactly when the ray has a square there. */
  lemma ContinuesIffReach(d: Dir, sq: Square)
    ensures InWalk(d, sq + Step(d))
    ensures Continues(d, sq + Step(d), true) <==> Reach(sq, d) > 0
  {
  }

  /** The corrected walk from one step out is the ray: its first occupied square decides. */
  lemma {:induction false} FixedWalkIsRay(occ: Bitboard, attackers: Bitboard, d: Dir, sq: Square)
    ensures InWalk(d, sq + Step(d))
    ensures Walk(occ, attackers, d, sq + Step(d), true) == Hits(Ray(sq, d), occ, attackers)
    decreases Reach(sq, d)
  {
    ContinuesIffReach(d, sq);
    if Reach(sq, d) > 0 {
      var t := Next(sq, d);
      FixedWalkIsRay(occ, attackers, d, t);
      HitsAlongRay(sq, d, occ, attackers);
      WalkStep(occ, attackers, d, t);
    } else {
      assert Ray(sq, d) == [];
    }
  }

  /** A walk that may go on decides at its square or moves one step further. */
  lemma WalkStep(occ: Bitboard, attackers: Bitboard, d: Dir, s: int)
    requires InWalk(d, s) && Continues(d, s, true) && InWalk(d, s + Step(d))
    ensures Walk(occ, attackers, d, s, true) ==
            if s in occ then s in attackers else Walk(occ, attackers, d, s + Step(d), true)
  {
  }

  /** A ray decides at its first square or continues as the ray from there. */
  lemma HitsAlongRay(sq: Square, d: Dir, occ: Bitboard, attackers: Bitboard)
    requires Reach(sq, d) > 0
    ensures var t := Next(sq, d);
      Hits(Ray(sq, d), occ, attackers) == if t in occ then t in attackers else Hits(Ray(t, d), occ, attackers)
  {
    var t := Next(sq, d);
    var r := Ray(sq, d);
    assert r == [t] + Ray(t, d);
    assert r[1..] == Ray(t, d);
  }

  /** Two bitboards meet iff some square is in both. */
  lemma MeetIff(a: Bitboard, b: Bitboard)
    ensures a * b != {} <==> exists t :: t in a && t in b
  {
    if a * b != {} {
      var t :| t in a * b;
    }
    if exists t :: t in a && t in b {
      var t :| t in a && t in b;
      assert t in a * b;
    }
  }

  /** With no attackers a ray never hits. */
  lemma NoAttackersNoHit(occ: Bitboard, sq: Square, d: Dir)
    ensures !Hits(Ray(sq, d), occ, {})
  {
    HitsFirstBlocker(Ray(sq, d), occ, {});
  }

  /** Each corrected walk is its ray, and off the diagonals the code's walk is the corrected one. */
  lemma StepWalkIsRay(occ: Bitboard, attackers: Bitboard, sq: Square, d: Dir)
    ensures StepWalk(occ, attackers, sq, d, true) == Hits(Ray(sq, d), occ, attackers)
    ensures !Diagonal(d) ==> StepWalk(occ, attackers, sq, d, false) == StepWalk(occ, attackers, sq, d, true)
  {
    FixedWalkIsRay(occ, attackers, d, sq);
    if !Diagonal(d) {
      WalkSameOffDiagonal(occ, attackers, d, sq + Step(d));
    }
    if d == East && sq % 8 == 7 {
      assert Reach(sq, d) == 0;
    }
    if d == West && sq % 8 == 0 {
      assert Reach(sq, d) == 0;
    }
  }

  /** The corrected diagonal walks are the four diagonal rays. */
  lemma DiagonalWalksAreRays(occ: Bitboard, attackers: Bitboard, sq: Square)
    ensures DiagonalWalks(occ, attackers, sq, true) <==> exists d :: Diagonal(d) && Hits(Ray(sq, d), occ, attackers)
  {
    forall d ensures StepWalk(occ, attackers, sq, d, true) == Hits(Ray(sq, d), occ, attackers) {
      StepWalkIsRay(occ, attackers, sq, d);
    }
    if exists d :: Diagonal(d) && Hits(Ray(sq, d), occ, attackers) {
      var d :| Diagonal(d) && Hits(Ray(sq, d), occ, attackers);
      assert d == SouthWest || d == SouthEast || d == NorthWest || d == NorthEast;
    }
  }

  /** The orthogonal walks are the four orthogonal rays. */
  lemma OrthogonalWalksAreRays(occ: Bitboard, attackers: Bitboard, sq: Square)
    ensures OrthogonalWalks(occ, attackers, sq) <==> exists d :: !Diagonal(d) && Hits(Ray(sq, d), occ, attackers)
  {
    if OrthogonalWalks(occ, attackers, sq) {
      var d := if StepWalk(occ, attackers, sq, North, false) then North
        else if StepWalk(occ, attackers, sq, South, false) then South
        else if StepWalk(occ, attackers, sq, East, false) then East
        else West;
      StepWalkIsRay(occ, attackers, sq, d);
      assert !Diagonal(d) && Hits(Ray(sq, d), occ, attackers);
    }
    if exists d :: !Diagonal(d) && Hits(Ray(sq, d), occ, attackers) {
      var d :| !Diagonal(d) && Hits(Ray(sq, d), occ, attackers);
      StepWalkIsRay(occ, attackers, sq, d);
      assert d == North || d == South || d == East || d == West;
    }
  }

  /** The corrected diagonal part of is_square_attacked is the four diagonal rays. */
  lemma DiagonalIsRays(p: Placement, occ: Bitboard, sq: Square, side: Color)
    requires Sized(p)
    ensures var diag := PieceBB(p, Bishop, side) + PieceBB(p, Queen, side);
      DiagonalAttacks(p, occ, sq, side, true) <==> exists d :: Diagonal(d) && Hits(Ray(sq, d), occ, diag)
  {
    var diag := PieceBB(p, Bishop, side) + PieceBB(p, Queen, side);
    DiagonalWalksAreRays(occ, diag, sq);
    if diag == {} {
      forall d ensures !Hits(Ray(sq, d), occ, diag) {
        NoAttackersNoHit(occ, sq, d);
      }
    }
  }

  /** The orthogonal part of is_square_attacked is the four orthogonal rays. */
  lemma OrthogonalIsRays(p: Placement, occ: Bitboard, sq: Square, side: Color)
    requires Sized(p)
    ensures var orth := PieceBB(p, Rook, side) + PieceBB(p, Queen, side);
      OrthogonalAttacks(p, occ, sq, side) <==> exists d :: !Diagonal(d) && Hits(Ray(sq, d), occ, orth)
  {
    var orth := PieceBB(p, Rook, side) + PieceBB(p, Queen, side);
    OrthogonalWalksAreRays(occ, orth, sq);
    if orth == {} {
      forall d ensures !Hits(Ray(sq, d), occ, orth) {
        NoAttackersNoHit(occ, sq, d);
      }
    }
  }

  /** The corrected is_square_attacked is the geometric definition. */
  lemma FixedIsGeometric(p: Placement, occ: Bitboard, sq: Square, side: Color)
    requires Sized(p)
    ensures IsSquareAttacked(p, occ, sq, side, true) <==> AttackedOnRays(p, occ, sq, side)
  {
    PawnAttacksGeometry(p, sq, side);
    MeetIff(KnightSet(sq), PieceBB(p, Knight, side));
    MeetIff(KingSet(sq), PieceBB(p, King, side));
    DiagonalIsRays(p, occ, sq, side);
    OrthogonalIsRays(p, occ, sq, side);
  }

  /** The walks that are not +7 or +9 are the same as written and corrected. */
  lemma {:induction false} WalkSameOffDiagonal(occ: Bitboard, attackers: Bitboard, d: Dir, s: int)
    requires d != NorthWest && d != NorthEast && InWalk(d, s)
    ensures Walk(occ, attackers, d, s, false) == Walk(occ, attackers, d, s, true)
    decreases if Step(d) > 0 then 73 - s else s + 10
  {
    if Continues(d, s, true) && s !in occ {
      WalkSameOffDiagonal(occ, attackers, d, s + Step(d));
    }
  }

  /** A placement with one white piece of the kind on the square. */
  function Lone(kind: PieceKind, sq: Square): (p: Placement)
    ensures Sized(p)
  {
    NoPieces().(pieces := NoPieces().pieces[PieceIndex(kind, White) := {sq}])
  }

  /** A lone bishop is no pawn, knight, king, rook or queen: only the diagonal walks can see it. */
  lemma LoneBishop(sq: Square, t: Square, occ: Bitboard, fixed: bool)
    ensures IsSquareAttacked(Lone(Bishop, sq), occ, t, White, fixed) <==>
            DiagonalWalks(occ, {sq}, t, fixed)
  {
    var p := Lone(Bishop, sq);
    assert PieceBB(p, Pawn, White) == {} && PieceBB(p, Knight, White) == {} && PieceBB(p, King, White) == {};
    assert PieceBB(p, Rook, White) + PieceBB(p, Queen, White) == {};
    assert PieceBB(p, Bishop, White) + PieceBB(p, Queen, White) == {sq};
  }

  /** From a2, the as-written +7 walk wraps onto h2; the corrected walks find no bishop. */
  lemma WalksFromA2()
    ensures DiagonalWalks({15}, {15}, 8, false)
    ensures !DiagonalWalks({15}, {15}, 8, true)
  {
    assert StepWalk({15}, {15}, 8, NorthWest, false);
    assert !StepWalk({15}, {15}, 8, SouthWest, true);
    assert !StepWalk({15}, {15}, 8, SouthEast, true);
    assert !StepWalk({15}, {15}, 8, NorthWest, true);
    assert !StepWalk({15}, {15}, 8, NorthEast, true);
  }

  /** From g2, the as-written walks miss h3; the corrected +9 walk reaches it. */
  lemma WalksFromG2()
    ensures !DiagonalWalks({23}, {23}, 14, false)
    ensures DiagonalWalks({23}, {23}, 14, true)
  {
    assert StepWalk({23}, {23}, 14, NorthEast, true);
    assert !StepWalk({23}, {23}, 14, SouthWest, false);
    assert !StepWalk({23}, {23}, 14, SouthEast, false);
    assert !StepWalk({23}, {23}, 14, NorthWest, false);
    assert !StepWalk({23}, {23}, 14, NorthEast, false);
  }

  /**
   * As written, the +7 walk from a2 continues onto h2: a white bishop on h2
   * is reported to attack a2, which it does not.
   */
  lemma AsWrittenSeesAcrossEdge()
    ensures IsSquareAttacked(Lone(Bishop, 15), {15}, 8, White, false)
    ensures !AttackedOnRays(Lone(Bishop, 15), {15}, 8, White)
  {
    LoneBishop(15, 8, {15}, false);
    LoneBishop(15, 8, {15}, true);
    WalksFromA2();
    FixedIsGeometric(Lone(Bishop, 15), {15}, 8, White);
  }

  /**
   * As written, the +9 walk from g2 stops before h3: a white bishop on h3
   * attacks g2 and is not reported.
   */
  lemma AsWrittenMissesAttack()
    ensures !IsSquareAttacked(Lone(Bishop, 23), {23}, 14, White, false)
    ensures AttackedOnRays(Lone(Bishop, 23), {23}, 14, White)
  {
    LoneBishop(23, 14, {23}, false);
    LoneBishop(23, 14, {23}, true);
    WalksFromG2();
    FixedIsGeometric(Lone(Bishop, 23), {23}, 14, White);
  }

  // ---------------------------------------------------------------------
  // generate_moves: the legality filter over the pseudo-legal moves

  /** The position after make_move; the colour's king square stays on the board. */
  function After(s: State, mi: MoveInfo, k: Keys, c: Color): (r: State)
    requires CanMake(s, mi) && WellShaped(k) && KingSq(s.board, c) < 64
    ensures r == MakeSpec(s, mi, k).0
    ensures Sized(r.board) && KingSq(r.board, c) < 64
  {
    var color := MoverColor(s, mi.from);
    MoveKings(s.board, mi.from, mi.to, mi.piece, Capture(s, mi, color), Placed(mi), color, c);
    MakeSpec(s, mi, k).0
  }

  /**
   * The move leaves the mover's own king unattacked: after make_move the
   * side now to move does not attack the king square of the side that moved.
   */
  predicate KingSafeAfter(s: State, mi: MoveInfo, k: Keys)
    requires CanMake(s, mi) && WellShaped(k) && KingSq(s.board, s.side) < 64
  {
    var after := After(s, mi, k, s.side);
    !IsSquareAttacked(after.board, after.occ.all, KingSq(after.board, s.side), Opponent(s.side), true)
  }

  /** Every move of the list decodes and make_move can run it. */
  predicate Makeable(s: State, pseudo: seq<Move>) {
    forall mv | mv in pseudo :: WellFormed(mv) && CanMake(s, Info(mv))
  }

  /** The moves of pseudo, in order, that leave the mover's king safe. */
  function LegalMoves(s: State, pseudo: seq<Move>, k: Keys): (r: seq<Move>)
    requires Makeable(s, pseudo)
    requires WellShaped(k) && KingSq(s.board, s.side) < 64
  {
    if pseudo == [] then []
    else
      var rest := LegalMoves(s, pseudo[1..], k);
      if KingSafeAfter(s, Info(pseudo[0]), k) then [pseudo[0]] + rest else rest
  }

  /** generate_moves keeps a move exactly when it is pseudo-legal and leaves the king safe, and adds none. */
  lemma {:induction false} LegalMovesMembers(s: State, pseudo: seq<Move>, k: Keys, mv: Move)
    requires Makeable(s, pseudo)
    requires WellShaped(k) && KingSq(s.board, s.side) < 64
    ensures |LegalMoves(s, pseudo, k)| <= |pseudo|
    ensures mv in LegalMoves(s, pseudo, k) <==> mv in pseudo && KingSafeAfter(s, Info(mv), k)
  {
    if pseudo != [] {
      LegalMovesMembers(s, pseudo[1..], k, mv);
      assert mv in pseudo <==> mv == pseudo[0] || mv in pseudo[1..];
    }
  }

  /**
   * The filter is the geometric one: a pseudo-legal move is kept exactly
   * when no piece of the opponent reaches the mover's king along its own
   * lines in the position after the move.
   */
  lemma LegalMovesGeometric(s: State, pseudo: seq<Move>, k: Keys, mv: Move)
    requires Makeable(s, pseudo)
    requires WellShaped(k) && KingSq(s.board, s.side) < 64
    requires mv in pseudo
    ensures var after := After(s, Info(mv), k, s.side);
            mv in LegalMoves(s, pseudo, k) <==>
            !AttackedOnRays(after.board, after.occ.all, KingSq(after.board, s.side), Opponent(s.side))
  {
    var after := After(s, Info(mv), k, s.side);
    LegalMovesMembers(s, pseudo, k, mv);
    FixedIsGeometric(after.board, after.occ.all, KingSq(after.board, s.side), Opponent(s.side));
  }

  /** Every suffix of a makeable list is makeable. */
  lemma MakeableFrom(s: State, pseudo: seq<Move>, i: nat)
    requires Makeable(s, pseudo) && i <= |pseudo|
    ensures Makeable(s, pseudo[i..])
  {
    assert forall mv | mv in pseudo[i..] :: mv in pseudo;
  }

  /** The filter from the i-th move on: keep that move if it is safe, then filter the rest. */
  lemma LegalMovesFrom(s: State, pseudo: seq<Move>, k: Keys, i: nat)
    requires Makeable(s, pseudo) && WellShaped(k) && KingSq(s.board, s.side) < 64 && i < |pseudo|
    ensures Makeable(s, pseudo[i..]) && Makeable(s, pseudo[i + 1..])
    ensures
      LegalMoves(s, pseudo[i..], k) ==
      (if KingSafeAfter(s, Info(pseudo[i]), k) then [pseudo[i]] else []) + LegalMoves(s, pseudo[i + 1..], k)
  {
    MakeableFrom(s, pseudo, i);
    MakeableFrom(s, pseudo, i + 1);
    assert pseudo[i..][1..] == pseudo[i + 1..];
  }

  /** One step of the filter loop: a prefix of kept moves extended by the i-th move when it is safe. */
  lemma LegalMovesStep(s: State, pseudo: seq<Move>, k: Keys, i: nat, legal: seq<Move>, safe: bool)
    requires Makeable(s, pseudo) && WellShaped(k) && KingSq(s.board, s.side) < 64 && i < |pseudo|
    requires safe == KingSafeAfter(s, Info(pseudo[i]), k)
    requires legal + LegalMoves(s, pseudo[i..], k) == LegalMoves(s, pseudo, k)
    ensures (if safe then legal + [pseudo[i]] else legal) + LegalMoves(s, pseudo[i + 1..], k) == LegalMoves(s, pseudo, k)
  {
    LegalMovesFrom(s, pseudo, k, i);
    var rest := LegalMoves(s, pseudo[i + 1..], k);
    if safe {
      PushRegroup(legal, pseudo[i], rest);
    } else {
      assert [] + rest == rest;
    }
  }

  lemma PushRegroup(legal: seq<Move>, m: Move, rest: seq<Move>)
    ensures legal + [m] + rest == legal + ([m] + rest)
  {
  }
}
