// The position as a value: the piece placement, the occupancy derived from
// it, side to move, castling byte, en-passant square, move counters and
// hash; the undo record; and the state updates of
// update_castling_after_move, make_move and unmake_move as functions of the
// old position. The Board class proves its methods against these.

module Position {
  import opened Common
  import opened Words
  import opened Bits
  import opened Pieces
  import opened Moves
  import opened Zobrist
  import opened Placement


  datatype State = State(
    board: Placement,
    occ: Occupancy,
    side: Color,
    castling: bv8,
    ep: Option<U8>,
    halfmove: U16,
    fullmove: U16,
    zobrist: nat)

  /** What make_move records so that unmake_move can roll the move back. */
  datatype Undo = Undo(
    from: nat,
    to: nat,
    movedPiece: PieceKind,
    flags: bv32,
    capturedPiece: Option<PieceKind>,
    capturedSq: Option<nat>,
    prevEp: Option<U8>,
    prevCastling: bv8,
    prevHalfmove: U16,
    prevFullmove: U16,
    prevSide: Color,
    prevZobrist: nat)

  /** Twelve bitboards and a castling byte whose hash key exists. */
  predicate Shaped(s: State) {
    Sized(s.board) && s.castling < 16
  }

  /** The occupancy agrees with the bitboards, as refresh_occupancy leaves it. */
  predicate Fresh(s: State)
    requires Sized(s.board)
  {
    s.occ == OccupancyOf(s.board.pieces)
  }

  /** Board::new: no pieces, White to move, no rights, fullmove 1. */
  function Empty(): (s: State)
    ensures Shaped(s) && Fresh(s)
  {
    var p := NoPieces();
    OccupancyMembersEmpty(p.pieces);
    State(p, Occupancy({}, {}, {}), White, 0, None, 0, 1, 0)
  }

  /** Twelve empty bitboards have empty unions. */
  lemma OccupancyMembersEmpty(pieces: seq<Bitboard>)
    requires |pieces| == 12 && forall i | 0 <= i < 12 :: pieces[i] == {}
    ensures OccupancyOf(pieces) == Occupancy({}, {}, {})
  {
    var o := OccupancyOf(pieces);
    forall x: Square
      ensures x !in o.white && x !in o.black
    {
      OccupancyMembers(pieces, x);
    }
  }

  // ---------------------------------------------------------------------
  // Castling rights

  /**
   * A mask on one side's pair of castling bits, in set_from_fen's layout:
   * K = 8, Q = 4, k = 2, q = 1, so White's pair is the high two bits and
   * the king side is the higher bit of each pair.
   */
  function SideBits(side: Color, m: bv8): bv8
    requires m < 4
  {
    if side == White then m << 2 else m
  }

  /** The king-side bit and the queen-side bit within a side's pair. */
  const KingSideBit: bv8 := 2
  const QueenSideBit: bv8 := 1

  /** The home square of the side's king: e1 = 4, e8 = 60. */
  function KingHome(side: Color): nat {
    if side == White then 4 else 60
  }

  /** The king-side corner: h1 = 7, h8 = 63. */
  function KingSideCorner(side: Color): nat {
    if side == White then 7 else 63
  }

  /** The queen-side corner: a1 = 0, a8 = 56. */
  function QueenSideCorner(side: Color): nat {
    if side == White then 0 else 56
  }

  /**
   * update_castling_after_move with masks in set_from_fen's layout: a king
   * leaving its home square clears both of its side's bits; a rook leaving
   * the king-side corner clears the side's king-side bit, one leaving the
   * queen-side corner its queen-side bit.
   */
  function UpdateCastling(c: bv8, side: Color, piece: PieceKind, from: nat): bv8 {
    var c1 := if piece == King && from == KingHome(side) then ClearBits(c, SideBits(side, 3)) else c;
    if piece == Rook && from == KingSideCorner(side) then ClearBits(c1, SideBits(side, KingSideBit))
    else if piece == Rook && from == QueenSideCorner(side) then ClearBits(c1, SideBits(side, QueenSideBit))
    else c1
  }

  /**
   * The masks update_castling_after_move is written with: 0b11 << 2s for the
   * king, 1 << 2s for the king-side rook and 1 << (2s + 1) for the
   * queen-side rook, s being 0 for White. They put White's pair in the low
   * two bits and the king side in the lower bit, which set_from_fen assigns
   * to Black's q and k.
   */
  function AsWrittenSideBits(side: Color, m: bv8): bv8
    requires m < 4
  {
    if side == White then m else m << 2
  }

  /** update_castling_after_move as written. */
  function UpdateCastlingAsWritten(c: bv8, side: Color, piece: PieceKind, from: nat): bv8 {
    var c1 := if piece == King && from == KingHome(side) then ClearBits(c, AsWrittenSideBits(side, 3)) else c;
    if piece == Rook && from == KingSideCorner(side) then ClearBits(c1, AsWrittenSideBits(side, 1))
    else if piece == Rook && from == QueenSideCorner(side) then ClearBits(c1, AsWrittenSideBits(side, 2))
    else c1
  }

  /** `c &= !m` */
  function ClearBits(c: bv8, m: bv8): bv8 {
    c & !m
  }

  // ---------------------------------------------------------------------
  // make_move

  /** The fields of an encoded move that make_move reads. */
  datatype MoveInfo = MoveInfo(
    from: nat,
    to: nat,
    piece: PieceKind,
    captured: Option<PieceKind>,
    promotion: Option<PieceKind>,
    enPassant: bool,
    promotes: bool,
    flags: bv32)

  /** The decoded move. */
  function Info(mv: Move): (mi: MoveInfo)
    requires WellFormed(mv)
    ensures mi.from < 64 && mi.to < 64
  {
    MoveInfo(MoveFrom(mv), MoveTo(mv), MovePiece(mv), MoveCaptured(mv), MovePromotion(mv),
             MoveFlag(mv, FLAG_EN_PASSANT), MoveFlag(mv, FLAG_PROMOTION), FlagBits(mv))
  }

  /** `v as usize` for an i32 on a 64-bit target: negative values wrap. */
  function Usize(v: int): nat {
    v % TWO_64
  }

  /** The mover is White iff the from-square is in the white occupancy. */
  function MoverColor(s: State, from: nat): Color {
    if ShiftSquare(from) in s.occ.white then White else Black
  }

  /** The square of the captured piece: behind the en-passant square, or the destination. */
  function CapturedSquare(s: State, mi: MoveInfo, color: Color): Option<nat>
    requires mi.enPassant ==> s.ep.Some?
  {
    if mi.enPassant then Some(Usize(if color == White then s.ep.value - 8 else s.ep.value + 8))
    else if mi.captured.Some? then Some(mi.to)
    else None
  }

  /** The piece make_move takes off the board, with the square it takes it from. */
  function Capture(s: State, mi: MoveInfo, color: Color): Option<(PieceKind, nat)>
    requires mi.enPassant ==> s.ep.Some?
  {
    if mi.captured.Some? then Some((mi.captured.value, CapturedSquare(s, mi, color).value)) else None
  }

  /** The kind that lands on the destination: the promotion kind for a promotion. */
  function Placed(mi: MoveInfo): PieceKind
    requires mi.promotes ==> mi.promotion.Some?
  {
    if mi.promotes then mi.promotion.value else mi.piece
  }

  function Distance(a: nat, b: nat): nat {
    if a <= b then b - a else a - b
  }

  /** The new en-passant square: the square passed over by a pawn's double step. */
  function NewEp(mi: MoveInfo): (r: Option<U8>)
    requires mi.from < 64 && mi.to < 64
  {
    if mi.piece == Pawn && Distance(mi.to, mi.from) == 16 then Some((mi.from + mi.to) / 2) else None
  }

  /** What make_move needs to run to completion: no unwrap of None and no table index out of range. */
  predicate CanMake(s: State, mi: MoveInfo) {
    Shaped(s) && mi.from < 64 && mi.to < 64 &&
    (mi.enPassant ==> s.ep.Some?) &&
    (mi.promotes ==> mi.promotion.Some?) &&
    (mi.captured.Some? ==> CapturedSquare(s, mi, MoverColor(s, mi.from)).value < 64)
  }

  /** The hash after make_move's piece updates: origin, destination, captured piece, then the side key. */
  function MovedHash(k: Keys, s: State, mi: MoveInfo, color: Color): nat
    requires WellShaped(k) && CanMake(s, mi) && color == MoverColor(s, mi.from)
  {
    var z1 := Xor(s.zobrist, k.piece[PieceIndex(mi.piece, color)][mi.from]);
    var z2 := Xor(z1, k.piece[PieceIndex(Placed(mi), color)][mi.to]);
    var cap := Capture(s, mi, color);
    var z3 := if cap.Some? then Xor(z2, k.piece[PieceIndex(cap.value.0, Opponent(color))][cap.value.1]) else z2;
    Xor(z3, k.side)
  }

  /** The hash after make_move's castling and en-passant updates: old and new rights if they differ, old and new en-passant files. */
  function RightsHash(z: nat, k: Keys, oldRights: bv8, newRights: bv8, oldEp: Option<U8>, newEp: Option<U8>): nat
    requires WellShaped(k) && oldRights < 16 && newRights < 16
  {
    var z5 := if oldRights != newRights then Xor(Xor(z, k.castling[oldRights as nat]), k.castling[newRights as nat]) else z;
    var z6 := if oldEp.Some? then Xor(z5, k.epFile[oldEp.value % 8]) else z5;
    if newEp.Some? then Xor(z6, k.epFile[newEp.value % 8]) else z6
  }

  /** The hash after make_move's incremental updates, in the order it applies them. */
  function MakeZobrist(k: Keys, s: State, mi: MoveInfo, color: Color, castling: bv8): nat
    requires WellShaped(k) && CanMake(s, mi) && castling < 16 && color == MoverColor(s, mi.from)
  {
    RightsHash(MovedHash(k, s, mi, color), k, s.castling, castling, s.ep, NewEp(mi))
  }

  /** make_move's first stage: castling rights updated and the hash updated incrementally. */
  function Rehashed(s: State, mi: MoveInfo, k: Keys, color: Color): (r: State)
    requires CanMake(s, mi) && WellShaped(k) && color == MoverColor(s, mi.from)
  {
    var castling := UpdateCastling(s.castling, color, mi.piece, mi.from);
    CastlingShrinks(s.castling, color, mi.piece, mi.from);
    s.(castling := castling, zobrist := MakeZobrist(k, s, mi, color, castling))
  }

  /** make_move's second stage: the pieces moved and the occupancy refreshed. */
  function Moved(s: State, mi: MoveInfo, color: Color): (r: State)
    requires CanMake(s, mi)
  {
    var board := MovePieces(s.board, mi.from, mi.to, mi.piece, Capture(s, mi, color), Placed(mi), color);
    s.(board := board, occ := OccupancyOf(board.pieces))
  }

  /** make_move's last stage: en-passant square, halfmove clock, side to move and fullmove number. */
  function Finished(s: State, mi: MoveInfo): (r: State)
    requires mi.from < 64 && mi.to < 64
  {
    var side := Opponent(s.side);
    s.(ep := NewEp(mi),
       halfmove := if mi.piece == Pawn || mi.captured.Some? then 0 else (s.halfmove + 1) % 0x1_0000,
       side := side,
       fullmove := if side == White then (s.fullmove + 1) % 0x1_0000 else s.fullmove)
  }

  /** make_move: the new position and the undo record. */
  function MakeSpec(s: State, mi: MoveInfo, k: Keys): (State, Undo)
    requires CanMake(s, mi) && WellShaped(k)
  {
    var color := MoverColor(s, mi.from);
    var undo := Undo(mi.from, mi.to, mi.piece, mi.flags, mi.captured, CapturedSquare(s, mi, color),
                     s.ep, s.castling, s.halfmove, s.fullmove, s.side, s.zobrist);
    var s1 := Rehashed(s, mi, k, color);
    assert CanMake(s1, mi);
    (Finished(Moved(s1, mi, color), mi), undo)
  }

  // ---------------------------------------------------------------------
  // unmake_move

  /** An undo record unmake_move can apply without unwrapping None. */
  predicate CanUnmake(u: Undo) {
    u.capturedPiece.Some? ==> u.capturedSq.Some?
  }

  /** The captured piece and its square, as unmake_move puts them back. */
  function UndoCapture(u: Undo): Option<(PieceKind, nat)>
    requires CanUnmake(u)
  {
    if u.capturedPiece.Some? then Some((u.capturedPiece.value, u.capturedSq.value)) else None
  }

  /** The position with the board replaced, the occupancy refreshed and the scalars and hash taken from the record. */
  function Restored(s: State, u: Undo, board: Placement): (r: State)
    requires Sized(board)
  {
    State(board, OccupancyOf(board.pieces), u.prevSide, u.prevCastling, u.prevEp, u.prevHalfmove,
          u.prevFullmove, u.prevZobrist)
  }

  /**
   * unmake_move as written: it takes the moved piece's kind off the
   * destination, so after a promotion the promoted piece stays there.
   */
  function UnmakeAsWritten(s: State, u: Undo): (r: State)
    requires Sized(s.board) && CanUnmake(u)
  {
    Restored(s, u, UnmovePiecesAsWritten(s.board, u.from, u.to, u.movedPiece, UndoCapture(u), u.prevSide))
  }

  /**
   * unmake_move corrected: whatever the mover placed on the destination
   * (the pawn's promotion piece included) comes off it.
   */
  function Unmake(s: State, u: Undo): (r: State)
    requires Sized(s.board) && CanUnmake(u)
  {
    Restored(s, u, UnmovePieces(s.board, u.from, u.to, u.movedPiece, UndoCapture(u), u.prevSide))
  }

  // ---------------------------------------------------------------------
  // Properties

  /**
   * Castling rights only shrink: the new byte is a bitwise subset of the old
   * one, the other side's bits are untouched, and nothing changes unless a
   * king leaves its home square or a rook leaves one of its side's corners.
   */
  lemma CastlingShrinks(c: bv8, side: Color, piece: PieceKind, from: nat)
    ensures var r := UpdateCastling(c, side, piece, from);
      r & !c == 0 &&
      r & !SideBits(side, 3) == c & !SideBits(side, 3) &&
      (c < 16 ==> r < 16) &&
      (r != c ==> (piece == King && from == KingHome(side)) ||
                  (piece == Rook && (from == KingSideCorner(side) || from == QueenSideCorner(side))))
  {
  }

  /** A king move from e1 clears exactly K and Q; a rook move from h8 exactly k, from a8 exactly q. */
  lemma CastlingExamples()
    ensures UpdateCastling(0xF, White, King, 4) == 0x3
    ensures UpdateCastling(0xF, Black, Rook, 63) == 0xD
    ensures UpdateCastling(0xF, Black, Rook, 56) == 0xE
    ensures UpdateCastling(0xF, White, Queen, 4) == 0xF
  {
  }

  /**
   * The masks as written act on the other side's letters: a white king
   * leaving e1 keeps White's K and Q and clears Black's k and q, and a black
   * rook leaving h8 clears White's Q.
   */
  lemma CastlingAsWrittenSwapsSides()
    ensures UpdateCastlingAsWritten(0xF, White, King, 4) == 0xC
    ensures UpdateCastlingAsWritten(0xF, Black, Rook, 63) == 0xB
    ensures UpdateCastling(0xF, White, King, 4) != UpdateCastlingAsWritten(0xF, White, King, 4)
  {
  }

  /**
   * make_move's bookkeeping: the side toggles, fullmove advances (modulo
   * 2^16) exactly when White is to move next, halfmove restarts at 0 on a
   * pawn move or capture and otherwise advances.
   */
  lemma MakeCounters(s: State, mi: MoveInfo, k: Keys)
    requires CanMake(s, mi) && WellShaped(k)
    ensures var r := MakeSpec(s, mi, k).0;
      r.side == Opponent(s.side) &&
      (r.side == White ==> r.fullmove == (s.fullmove + 1) % 0x1_0000) &&
      (r.side == Black ==> r.fullmove == s.fullmove) &&
      (mi.piece == Pawn || mi.captured.Some? ==> r.halfmove == 0) &&
      (mi.piece != Pawn && mi.captured.None? ==> r.halfmove == (s.halfmove + 1) % 0x1_0000)
  {
  }

  /** The en-passant square after make_move is the square a pawn's double step passes over, and None otherwise. */
  lemma MakeEp(s: State, mi: MoveInfo, k: Keys)
    requires CanMake(s, mi) && WellShaped(k)
    ensures var r := MakeSpec(s, mi, k).0;
      (r.ep.Some? <==> mi.piece == Pawn && (mi.to == mi.from + 16 || mi.from == mi.to + 16)) &&
      (r.ep.Some? ==> r.ep.value * 2 == mi.from + mi.to)
  {
    assert MakeSpec(s, mi, k).0.ep == NewEp(mi);
  }

  /** make_move leaves the occupancy fresh and the castling byte a subset of the old one. */
  lemma MakeFresh(s: State, mi: MoveInfo, k: Keys)
    requires CanMake(s, mi) && WellShaped(k)
    ensures var r := MakeSpec(s, mi, k).0;
      Shaped(r) && Fresh(r) && r.castling & !s.castling == 0
  {
    CastlingShrinks(s.castling, MoverColor(s, mi.from), mi.piece, mi.from);
  }

  /** make_move moves the pieces as MovePieces does, with the capture and placed kind of the move, and refreshes the occupancy. */
  lemma MakeBoard(s: State, mi: MoveInfo, k: Keys)
    requires CanMake(s, mi) && WellShaped(k)
    ensures var r := MakeSpec(s, mi, k).0; var color := MoverColor(s, mi.from);
      r.board == MovePieces(s.board, mi.from, mi.to, mi.piece, Capture(s, mi, color), Placed(mi), color) &&
      r.occ == OccupancyOf(r.board.pieces)
  {
    var color := MoverColor(s, mi.from);
    var s1 := Rehashed(s, mi, k, color);
    assert s1.board == s.board && s1.ep == s.ep && s1.occ == s.occ;
    assert Capture(s1, mi, color) == Capture(s, mi, color);
  }

  /** make_move's undo record holds the move and every field it overwrites. */
  lemma MakeUndo(s: State, mi: MoveInfo, k: Keys)
    requires CanMake(s, mi) && WellShaped(k)
    ensures var u := MakeSpec(s, mi, k).1;
      CanUnmake(u) &&
      u.from == mi.from && u.to == mi.to && u.movedPiece == mi.piece && u.capturedPiece == mi.captured &&
      UndoCapture(u) == Capture(s, mi, MoverColor(s, mi.from)) && u.prevSide == s.side && u.prevEp == s.ep &&
      u.prevCastling == s.castling && u.prevHalfmove == s.halfmove && u.prevFullmove == s.fullmove &&
      u.prevZobrist == s.zobrist
  {
  }

  /**
   * unmake_move restores the side, the counters, the en-passant square,
   * the castling byte and the hash that make_move recorded, for every
   * move, promotions included.
   */
  lemma UnmakeRestoresScalars(s: State, mi: MoveInfo, k: Keys)
    requires CanMake(s, mi) && WellShaped(k)
    ensures var (r, u) := MakeSpec(s, mi, k);
      CanUnmake(u) &&
      var back := UnmakeAsWritten(r, u);
      back.side == s.side && back.halfmove == s.halfmove && back.fullmove == s.fullmove &&
      back.ep == s.ep && back.castling == s.castling && back.zobrist == s.zobrist
  {
    MakeUndo(s, mi, k);
  }

  /**
   * A move that fits the position: occupancy is up to date, the side to
   * move owns the moving piece on the origin, none of its pieces is on the
   * destination, a captured piece is where the move says, and the king
   * squares track the kings that move or are taken.
   */
  predicate Applicable(s: State, mi: MoveInfo) {
    CanMake(s, mi) && Fresh(s) && MoverColor(s, mi.from) == s.side &&
    Fits(s.board, mi.from, mi.to, mi.piece, Capture(s, mi, s.side), Placed(mi), s.side)
  }

  /**
   * unmake_move (corrected) undoes make_move completely for an applicable
   * move: bitboards, occupancy, king squares, side, counters, en-passant
   * square, castling byte and hash are all as before.
   */
  lemma UnmakeAfterMake(s: State, mi: MoveInfo, k: Keys)
    requires Applicable(s, mi) && WellShaped(k)
    ensures var (r, u) := MakeSpec(s, mi, k); CanUnmake(u) && Unmake(r, u) == s
  {
    var (r, u) := MakeSpec(s, mi, k);
    MakeUndo(s, mi, k);
    MakeBoard(s, mi, k);
    var placed := Placed(mi);
    UnmoveAfterMove(s.board, mi.from, mi.to, mi.piece, Capture(s, mi, s.side), placed, s.side);
  }

  /** unmake_move as written undoes make_move completely for an applicable move that does not promote. */
  lemma UnmakeAsWrittenAfterMake(s: State, mi: MoveInfo, k: Keys)
    requires Applicable(s, mi) && WellShaped(k) && !mi.promotes
    ensures var (r, u) := MakeSpec(s, mi, k); CanUnmake(u) && UnmakeAsWritten(r, u) == s
  {
    var (r, u) := MakeSpec(s, mi, k);
    MakeUndo(s, mi, k);
    MakeBoard(s, mi, k);
    assert Placed(mi) == mi.piece;
    UnmoveAsWrittenAfterMove(s.board, mi.from, mi.to, mi.piece, Capture(s, mi, s.side), s.side);
    assert UnmakeAsWritten(r, u).board == s.board;
  }
}
