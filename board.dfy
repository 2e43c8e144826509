// The Board object: twelve piece bitboards in a fixed array, the colour
// and total occupancies, side to move, castling byte, en-passant square,
// counters, hash and the two recorded king squares. Every method changes
// the fields in place and is proved against the function of the old
// position that Placement, Position, Attacks and Fen define for it.

module Chessboard {
  import opened Common
  import opened Words
  import opened Bits
  import opened Pieces
  import opened Moves
  import opened Zobrist
  import opened Placement
  import opened Position
  import opened Rays
  import opened Attacks
  import opened Text
  import opened Fen
  import PL = Placement

  class Board {
    var pieceBB: array<Bitboard>
    var whiteOcc: Bitboard
    var blackOcc: Bitboard
    var occ: Bitboard
    var side: Color
    var castling: bv8
    var ep: Option<U8>
    var halfmove: U16
    var fullmove: U16
    var zobrist: nat
    var whiteKingSq: U8
    var blackKingSq: U8

    predicate Valid()
      reads this
    {
      pieceBB.Length == 12
    }

    /** The fields as a position value. */
    function Snapshot(): (s: State)
      requires Valid()
      reads this, pieceBB
      ensures Sized(s.board)
    {
      State(Placement(pieceBB[..], whiteKingSq, blackKingSq), Occupancy(whiteOcc, blackOcc, occ),
            side, castling, ep, halfmove, fullmove, zobrist)
    }

    /** Board::new: the empty board, White to move, no rights, fullmove 1. */
    constructor()
      ensures Valid() && fresh(pieceBB)
      ensures Snapshot() == Empty()
    {
      pieceBB := new Bitboard[12](_ => {});
      whiteOcc, blackOcc, occ := {}, {}, {};
      side := White;
      castling := 0;
      ep := None;
      halfmove, fullmove := 0, 1;
      zobrist := 0;
      whiteKingSq, blackKingSq := 0, 0;
      new;
      assert pieceBB[..] == seq(12, _ => {});
    }

    /** set_piece: the square joins the piece's bitboard; a king's square is recorded. Occupancy is not refreshed. */
    method SetPiece(sq: nat, kind: PieceKind, color: Color)
      requires Valid()
      modifies this, pieceBB
      ensures Valid() && pieceBB == old(pieceBB)
      ensures Snapshot() == old(Snapshot()).(board := PL.SetPiece(old(Snapshot()).board, sq, kind, color))
    {
      var i := PieceIndex(kind, color);
      pieceBB[i] := pieceBB[i] + {ShiftSquare(sq)};
      if kind == King {
        if color == White {
          whiteKingSq := sq % 0x100;
        } else {
          blackKingSq := sq % 0x100;
        }
      }
    }

    /** remove_piece: the square leaves the piece's bitboard; king squares stay. */
    method RemovePiece(sq: nat, kind: PieceKind, color: Color)
      requires Valid()
      modifies pieceBB
      ensures Snapshot() == old(Snapshot()).(board := PL.RemovePiece(old(Snapshot()).board, sq, kind, color))
    {
      var i := PieceIndex(kind, color);
      pieceBB[i] := pieceBB[i] - {ShiftSquare(sq)};
    }

    /** refresh_occupancy: OR the six white and the six black bitboards, then their union. */
    method RefreshOccupancy()
      requires Valid()
      modifies this
      ensures Valid() && pieceBB == old(pieceBB)
      ensures Snapshot() == old(Snapshot()).(occ := OccupancyOf(old(Snapshot()).board.pieces))
    {
      var white: Bitboard := {};
      var black: Bitboard := {};
      for i := 0 to 6
        invariant white == Union(pieceBB[..], 0, i)
      {
        white := white + pieceBB[i];
      }
      for i := 6 to 12
        invariant black == Union(pieceBB[..], 6, i)
      {
        black := black + pieceBB[i];
      }
      whiteOcc, blackOcc, occ := white, black, white + black;
    }

    /** piece_on: scan the twelve bitboards in index order for the square. */
    method PieceOn(sq: nat) returns (r: Option<(PieceKind, Color)>)
      requires Valid()
      ensures r == PL.PieceOn(Snapshot().board, sq)
    {
      var x := ShiftSquare(sq);
      for i := 0 to 12
        invariant FirstHolder(pieceBB[..], x, 0) == FirstHolder(pieceBB[..], x, i)
      {
        if x in pieceBB[i] {
          var kind := KindOf(i % 6);
          var color := if i < 6 then White else Black;
          return Some((kind, color));
        }
      }
      return None;
    }

    /** update_castling_after_move on the castling field, with the masks in set_from_fen's layout. */
    method UpdateCastlingAfterMove(color: Color, piece: PieceKind, from: nat)
      requires Valid()
      modifies this
      ensures Valid() && pieceBB == old(pieceBB)
      ensures Snapshot() == old(Snapshot()).(castling := UpdateCastling(old(castling), color, piece, from))
    {
      if piece == King && from == KingHome(color) {
        castling := ClearBits(castling, SideBits(color, 3));
      }
      if piece == Rook {
        if from == KingSideCorner(color) {
          castling := ClearBits(castling, SideBits(color, KingSideBit));
        } else if from == QueenSideCorner(color) {
          castling := ClearBits(castling, SideBits(color, QueenSideBit));
        }
      }
    }

    /** The piece keys of make_move's hash update: origin, destination, captured piece, side. */
    method HashPieces(mi: MoveInfo, k: Keys, color: Color, capturedSq: Option<nat>)
      requires Valid() && WellShaped(k) && CanMake(Snapshot(), mi)
      requires color == MoverColor(Snapshot(), mi.from)
      requires capturedSq == CapturedSquare(Snapshot(), mi, color)
      modifies this
      ensures Valid() && pieceBB == old(pieceBB)
      ensures Snapshot() == old(Snapshot()).(zobrist := MovedHash(k, old(Snapshot()), mi, color))
    {
      var z := Xor(zobrist, k.piece[PieceIndex(mi.piece, color)][mi.from]);
      var moved := if mi.promotes then mi.promotion.value else mi.piece;
      z := Xor(z, k.piece[PieceIndex(moved, color)][mi.to]);
      if mi.captured.Some? {
        var capSq := if mi.enPassant then capturedSq.value else mi.to;
        z := Xor(z, k.piece[PieceIndex(mi.captured.value, Opponent(color))][capSq]);
      }
      zobrist := Xor(z, k.side);
    }

    /**
     * The first half of make_move: the hash updated incrementally (pieces
     * and side, castling change, old and new en-passant files) around the
     * castling update.
     */
    method HashAndRights(mi: MoveInfo, k: Keys, color: Color, capturedSq: Option<nat>)
      requires Valid() && WellShaped(k) && CanMake(Snapshot(), mi)
      requires color == MoverColor(Snapshot(), mi.from)
      requires capturedSq == CapturedSquare(Snapshot(), mi, color)
      modifies this
      ensures Valid() && pieceBB == old(pieceBB)
      ensures Snapshot() == Rehashed(old(Snapshot()), mi, k, color)
    {
      CastlingShrinks(castling, color, mi.piece, mi.from);
      HashPieces(mi, k, color, capturedSq);
      var oldRights := castling;
      UpdateCastlingAfterMove(color, mi.piece, mi.from);
      RehashRights(oldRights, mi, k);
    }

    /** The castling and en-passant keys of make_move's hash update, after the castling byte has changed. */
    method RehashRights(oldRights: bv8, mi: MoveInfo, k: Keys)
      requires Valid() && WellShaped(k) && oldRights < 16 && castling < 16 && mi.from < 64 && mi.to < 64
      modifies this
      ensures Valid() && pieceBB == old(pieceBB)
      ensures Snapshot() == old(Snapshot()).(zobrist := RightsHash(old(zobrist), k, oldRights, old(castling), old(ep), NewEp(mi)))
    {
      var newRights := castling;
      var z := zobrist;
      if oldRights != newRights {
        z := Xor(Xor(z, k.castling[oldRights as nat]), k.castling[newRights as nat]);
      }
      if ep.Some? {
        z := Xor(z, k.epFile[ep.value % 8]);
      }
      var newEp: Option<U8> := if mi.piece == Pawn && Distance(mi.to, mi.from) == 16 then Some((mi.from + mi.to) / 2) else None;
      if newEp.Some? {
        z := Xor(z, k.epFile[newEp.value % 8]);
      }
      zobrist := z;
    }

    /**
     * The second half of make_move: the king square follows a moving king,
     * the piece leaves the origin, a captured piece leaves its square, the
     * placed kind lands on the destination, and the occupancy is refreshed.
     */
    method MovePiecesOf(from: nat, to: nat, piece: PieceKind, capture: Option<(PieceKind, nat)>,
                        placed: PieceKind, color: Color)
      requires Valid() && to < 64
      modifies this, pieceBB
      ensures Valid() && pieceBB == old(pieceBB)
      ensures var b := MovePieces(old(Snapshot()).board, from, to, piece, capture, placed, color);
              Snapshot() == old(Snapshot()).(board := b, occ := OccupancyOf(b.pieces))
    {
      if piece == King {
        if color == White {
          whiteKingSq := to;
        } else {
          blackKingSq := to;
        }
      }
      RemovePiece(from, piece, color);
      if capture.Some? {
        RemovePiece(capture.value.1, capture.value.0, Opponent(color));
      }
      SetPiece(to, placed, color);
      RefreshOccupancy();
    }

    /**
     * make_move: decode the move, then apply it.
     */
    method MakeMove(mv: Move, k: Keys) returns (undo: Undo)
      requires Valid() && WellFormed(mv) && WellShaped(k) && CanMake(Snapshot(), Info(mv))
      modifies this, pieceBB
      ensures Valid() && pieceBB == old(pieceBB)
      ensures (Snapshot(), undo) == MakeSpec(old(Snapshot()), Info(mv), k)
    {
      var mi := Info(mv);
      undo := MakeDecoded(mi, k);
    }

    /**
     * The body of make_move on the decoded fields: the undo record of the
     * old fields, the hash and castling update, the pieces moved, then
     * en-passant square, counters and side.
     */
    method MakeDecoded(mi: MoveInfo, k: Keys) returns (undo: Undo)
      requires Valid() && WellShaped(k) && CanMake(Snapshot(), mi)
      modifies this, pieceBB
      ensures Valid() && pieceBB == old(pieceBB)
      ensures (Snapshot(), undo) == MakeSpec(old(Snapshot()), mi, k)
    {
      ghost var s := Snapshot();
      var epTarget := ep;
      var color := if ShiftSquare(mi.from) in whiteOcc then White else Black;
      var capturedSq: Option<nat> :=
        if mi.enPassant then Some(Usize(if color == White then epTarget.value - 8 else epTarget.value + 8))
        else if mi.captured.Some? then Some(mi.to)
        else None;
      undo := Undo(mi.from, mi.to, mi.piece, mi.flags, mi.captured, capturedSq, ep, castling, halfmove, fullmove,
                   side, zobrist);
      assert color == MoverColor(s, mi.from) && capturedSq == CapturedSquare(s, mi, color);
      HashAndRights(mi, k, color, capturedSq);
      MoveStage(mi, color, capturedSq);
      FinishMove(mi);
    }

    /** The pieces of make_move: the captured piece taken from its square and the placed kind landing on the destination. */
    method MoveStage(mi: MoveInfo, color: Color, capturedSq: Option<nat>)
      requires Valid() && CanMake(Snapshot(), mi)
      requires capturedSq == CapturedSquare(Snapshot(), mi, color)
      modifies this, pieceBB
      ensures Valid() && pieceBB == old(pieceBB)
      ensures Snapshot() == Moved(old(Snapshot()), mi, color)
    {
      var capture := if mi.captured.Some? then Some((mi.captured.value, if mi.enPassant then capturedSq.value else mi.to)) else None;
      var moved := if mi.promotes then mi.promotion.value else mi.piece;
      assert capture == Capture(Snapshot(), mi, color) && moved == Placed(mi);
      MovePiecesOf(mi.from, mi.to, mi.piece, capture, moved, color);
    }

    /** The tail of make_move: new en-passant square, halfmove clock, side to move, fullmove number. */
    method FinishMove(mi: MoveInfo)
      requires Valid() && mi.from < 64 && mi.to < 64
      modifies this
      ensures Valid() && pieceBB == old(pieceBB)
      ensures Snapshot() == Finished(old(Snapshot()), mi)
    {
      ep := if mi.piece == Pawn && Distance(mi.to, mi.from) == 16 then Some((mi.from + mi.to) / 2) else None;
      halfmove := (halfmove + 1) % 0x1_0000;
      if mi.piece == Pawn || mi.captured.Some? {
        halfmove := 0;
      }
      side := Opponent(side);
      if side == White {
        fullmove := (fullmove + 1) % 0x1_0000;
      }
    }

    /**
     * unmake_move, corrected: the scalars come back from the record, every
     * piece of the mover comes off the destination (a promoted piece
     * included), the moved piece returns to the origin, the captured piece
     * to its square, the occupancy is refreshed and the hash restored.
     */
    method UnmakeMove(undo: Undo)
      requires Valid() && CanUnmake(undo)
      modifies this, pieceBB
      ensures Valid() && pieceBB == old(pieceBB)
      ensures Snapshot() == Unmake(old(Snapshot()), undo)
    {
      RestoreScalars(undo);
      var mover := side;
      UnmovePiecesOf(undo.from, undo.to, undo.movedPiece, UndoCapture(undo), mover);
      zobrist := undo.prevZobrist;
    }

    /** The first step of unmake_move: side, counters, en-passant square and castling byte from the record. */
    method RestoreScalars(undo: Undo)
      requires Valid()
      modifies this
      ensures Valid() && pieceBB == old(pieceBB)
      ensures Snapshot() == old(Snapshot()).(side := undo.prevSide, halfmove := undo.prevHalfmove,
                                             fullmove := undo.prevFullmove, ep := undo.prevEp,
                                             castling := undo.prevCastling)
    {
      side := undo.prevSide;
      halfmove := undo.prevHalfmove;
      fullmove := undo.prevFullmove;
      ep := undo.prevEp;
      castling := undo.prevCastling;
    }

    /** The placement half of unmake_move, then the occupancy refreshed. */
    method UnmovePiecesOf(from: nat, to: nat, moved: PieceKind, capture: Option<(PieceKind, nat)>, mover: Color)
      requires Valid()
      modifies this, pieceBB
      ensures Valid() && pieceBB == old(pieceBB)
      ensures var b := UnmovePieces(old(Snapshot()).board, from, to, moved, capture, mover);
              Snapshot() == old(Snapshot()).(board := b, occ := OccupancyOf(b.pieces))
    {
      ClearSquare(to, mover);
      PutBackPieces(from, moved, capture, mover);
      RefreshOccupancy();
    }

    /** Every bitboard of the colour loses the square. */
    method ClearSquare(sq: nat, color: Color)
      requires Valid()
      modifies pieceBB
      ensures Snapshot() == old(Snapshot()).(board := PL.ClearSquare(old(Snapshot()).board, sq, color))
    {
      ghost var before := pieceBB[..];
      var lo := if color == White then 0 else 6;
      var x := ShiftSquare(sq);
      for i := lo to lo + 6
        invariant pieceBB[..] == seq(12, j requires 0 <= j < 12 => if lo <= j < i then before[j] - {x} else before[j])
      {
        pieceBB[i] := pieceBB[i] - {x};
      }
    }

    /** The moved piece back on the origin, the king square with it, and the captured piece back on its square. */
    method PutBackPieces(from: nat, moved: PieceKind, capture: Option<(PieceKind, nat)>, mover: Color)
      requires Valid()
      modifies this, pieceBB
      ensures Valid() && pieceBB == old(pieceBB)
      ensures Snapshot() == old(Snapshot()).(board := PutBack(old(Snapshot()).board, from, moved, capture, mover))
    {
      SetPiece(from, moved, mover);
      if moved == King {
        if mover == White {
          whiteKingSq := from % 0x100;
        } else {
          blackKingSq := from % 0x100;
        }
      }
      if capture.Some? {
        SetPiece(capture.value.1, capture.value.0, Opponent(mover));
      }
    }

    /**
     * One ray walk of is_square_attacked from index start, with the edge
     * conditions corrected: the first occupied square decides.
     */
    method WalkRay(attackers: Bitboard, d: Dir, start: int) returns (hit: bool)
      requires InWalk(d, start)
      ensures hit == Walk(occ, attackers, d, start, true)
    {
      var s := start;
      while Continues(d, s, true)
        invariant InWalk(d, s)
        invariant Walk(occ, attackers, d, s, true) == Walk(occ, attackers, d, start, true)
        decreases if Step(d) > 0 then 73 - s else s + 10
      {
        if s in occ {
          return s in attackers;
        }
        s := s + Step(d);
      }
      return false;
    }

    /**
     * is_square_attacked with the corrected diagonal walks: pawns by their
     * shifted sets, knights and kings by their tables, then the diagonal
     * and orthogonal walks when the colour has sliders of that kind.
     */
    method IsSquareAttacked(sq: Square, attacker: Color) returns (r: bool)
      requires Valid()
      ensures r == Attacks.IsSquareAttacked(Snapshot().board, occ, sq, attacker, true)
    {
      if attacker == White {
        var pawns := pieceBB[PieceIndex(Pawn, White)];
        if sq in Shl(pawns * NotFileA(), 7) || sq in Shl(pawns * NotFileH(), 9) {
          return true;
        }
      } else {
        var pawns := pieceBB[PieceIndex(Pawn, Black)];
        if sq in Shr(pawns * NotFileA(), 9) || sq in Shr(pawns * NotFileH(), 7) {
          return true;
        }
      }
      if KnightSet(sq) * pieceBB[PieceIndex(Knight, attacker)] != {} {
        return true;
      }
      if KingSet(sq) * pieceBB[PieceIndex(King, attacker)] != {} {
        return true;
      }
      var diag := pieceBB[PieceIndex(Bishop, attacker)] + pieceBB[PieceIndex(Queen, attacker)];
      if diag != {} {
        r := DiagonalHit(diag, sq);
        if r {
          return true;
        }
      }
      var orth := pieceBB[PieceIndex(Rook, attacker)] + pieceBB[PieceIndex(Queen, attacker)];
      if orth != {} {
        r := OrthogonalHit(orth, sq);
        if r {
          return true;
        }
      }
      return false;
    }

    /** The four diagonal walks in the order the code runs them, the first hit deciding. */
    method DiagonalHit(attackers: Bitboard, sq: Square) returns (r: bool)
      ensures r == DiagonalWalks(occ, attackers, sq, true)
    {
      r := StepWalkRay(attackers, sq, SouthWest);
      if !r {
        r := StepWalkRay(attackers, sq, SouthEast);
      }
      if !r {
        r := StepWalkRay(attackers, sq, NorthWest);
      }
      if !r {
        r := StepWalkRay(attackers, sq, NorthEast);
      }
    }

    /** The four orthogonal walks in the order the code runs them, the first hit deciding. */
    method OrthogonalHit(attackers: Bitboard, sq: Square) returns (r: bool)
      ensures r == OrthogonalWalks(occ, attackers, sq)
    {
      r := StepWalkRay(attackers, sq, North);
      if !r {
        r := StepWalkRay(attackers, sq, South);
      }
      if !r {
        r := StepWalkRay(attackers, sq, East);
      }
      if !r {
        r := StepWalkRay(attackers, sq, West);
      }
    }

    /** The walk that starts one step from sq; the east walk needs sq off file H, the west walk sq off file A. */
    method StepWalkRay(attackers: Bitboard, sq: Square, d: Dir) returns (r: bool)
      ensures r == StepWalk(occ, attackers, sq, d, true)
      ensures d != NorthWest && d != NorthEast ==> r == StepWalk(occ, attackers, sq, d, false)
    {
      if (d == East && sq % 8 == 7) || (d == West && sq % 8 == 0) {
        return false;
      }
      InWalkFrom(d, sq);
      r := WalkRay(attackers, d, sq + Step(d));
      if d != NorthWest && d != NorthEast {
        WalkSameOffDiagonal(occ, attackers, d, sq + Step(d));
      }
    }

    /**
     * One step of generate_moves: make the move, ask whether the side now
     * to move attacks the king of the side that moved, unmake the move.
     */
    method KingSafeAfterMove(mv: Move, k: Keys) returns (safe: bool)
      requires Valid() && WellFormed(mv) && WellShaped(k) && Applicable(Snapshot(), Info(mv))
      requires KingSq(Snapshot().board, side) < 64
      modifies this, pieceBB
      ensures Valid() && pieceBB == old(pieceBB) && Snapshot() == old(Snapshot())
      ensures safe == KingSafeAfter(old(Snapshot()), Info(mv), k)
    {
      ghost var s := Snapshot();
      ghost var after := After(s, Info(mv), k, s.side);
      var undo := MakeMove(mv, k);
      var moved := Opponent(side);
      var kingSq := if moved == White then whiteKingSq else blackKingSq;
      assert kingSq == KingSq(after.board, s.side);
      var attacked := IsSquareAttacked(kingSq as nat, side);
      safe := !attacked;
      UnmakeAfterMake(s, Info(mv), k);
      UnmakeMove(undo);
    }

    /**
     * generate_moves over a given pseudo-legal list: the moves, in order,
     * after which the mover's king is not attacked; the position is left
     * as it was. The list must record each capture's real victim, which
     * the pawn generator as written does not (see
     * Placement.PawnTakesKnightAsWritten); this is the corrected program.
     */
    method GenerateMoves(pseudo: seq<Move>, k: Keys) returns (legal: seq<Move>)
      requires Valid() && WellShaped(k) && KingSq(Snapshot().board, Snapshot().side) < 64
      requires Makeable(Snapshot(), pseudo) && forall mv | mv in pseudo :: Applicable(Snapshot(), Info(mv))
      modifies this, pieceBB
      ensures Valid() && pieceBB == old(pieceBB) && Snapshot() == old(Snapshot())
      ensures legal == LegalMoves(old(Snapshot()), pseudo, k)
    {
      ghost var s := Snapshot();
      legal := [];
      MakeableFrom(s, pseudo, 0);
      for i := 0 to |pseudo|
        invariant Valid() && pieceBB == old(pieceBB) && Snapshot() == s
        invariant Makeable(s, pseudo[i..])
        invariant legal + LegalMoves(s, pseudo[i..], k) == LegalMoves(s, pseudo, k)
      {
        MakeableFrom(s, pseudo, i + 1);
        legal := FilterStep(pseudo, k, i, legal);
      }
      assert pseudo[|pseudo|..] == [];
    }

    /** The body of generate_moves' loop: the i-th move is pushed when it leaves the king safe. */
    method FilterStep(pseudo: seq<Move>, k: Keys, i: nat, legal: seq<Move>) returns (legal': seq<Move>)
      requires Valid() && WellShaped(k) && KingSq(Snapshot().board, Snapshot().side) < 64 && i < |pseudo|
      requires Makeable(Snapshot(), pseudo) && forall mv | mv in pseudo :: Applicable(Snapshot(), Info(mv))
      requires legal + LegalMoves(Snapshot(), pseudo[i..], k) == LegalMoves(Snapshot(), pseudo, k)
      modifies this, pieceBB
      ensures Valid() && pieceBB == old(pieceBB) && Snapshot() == old(Snapshot())
      ensures legal' + LegalMoves(Snapshot(), pseudo[i + 1..], k) == LegalMoves(Snapshot(), pseudo, k)
    {
      ghost var s := Snapshot();
      var mv := pseudo[i];
      assert mv in pseudo;
      var safe := KingSafeAfterMove(mv, k);
      LegalMovesStep(s, pseudo, k, i, legal, safe);
      legal' := if safe then legal + [mv] else legal;
    }

    // -------------------------------------------------------------------
    // set_from_fen

    /**
     * set_from_fen: split the trimmed text at whitespace; with fewer than
     * six fields nothing is written. Otherwise the fields are read and
     * written one by one, and the first bad one stops with its error.
     */
    method SetFromFen(fen: string, k: Keys) returns (o: Outcome)
      requires Valid() && Shaped(Snapshot()) && WellShaped(k)
      modifies this, pieceBB
      ensures Valid() && pieceBB == old(pieceBB)
      ensures (Snapshot(), o) == FenSpec(old(Snapshot()), fen, k, true)
    {
      var f := Tokens(fen);
      if |f| < 6 {
        return Failed(MissingField(|f|));
      }
      o := SetFields(f, k);
    }

    /** The bitboards and occupancies cleared, the placement rows, the side and the castling field. */
    method SetFields(f: seq<string>, k: Keys) returns (o: Outcome)
      requires Valid() && Shaped(Snapshot()) && WellShaped(k) && |f| >= 6
      modifies this, pieceBB
      ensures Valid() && pieceBB == old(pieceBB)
      ensures (Snapshot(), o) == FenFields(old(Snapshot()), f, k, true)
    {
      ClearBoard();
      var ok := PlaceRowsOf(SplitOn(f[0], '/'));
      if !ok {
        return Failed("invalid piece char");
      }
      RefreshOccupancy();
      if f[1] == "w" {
        side := White;
      } else if f[1] == "b" {
        side := Black;
      } else {
        return Failed("invalid side char");
      }
      var castleOk := ParseCastling(f[2]);
      if !castleOk {
        return Failed("invalid castle char");
      }
      o := SetCounters(f, k);
    }

    /** The twelve bitboards and the three occupancies set to empty. */
    method ClearBoard()
      requires Valid()
      modifies this, pieceBB
      ensures Valid() && pieceBB == old(pieceBB)
      ensures Snapshot() == old(Snapshot()).(board := Cleared(old(Snapshot()).board), occ := Occupancy({}, {}, {}))
    {
      for i := 0 to 12
        invariant forall j | 0 <= j < i :: pieceBB[j] == {}
        modifies pieceBB
      {
        pieceBB[i] := {};
      }
      whiteOcc, blackOcc, occ := {}, {}, {};
      assert pieceBB[..] == seq(12, _ => {});
    }

    /**
     * The rank loop: row i of the '/'-separated text is rank 7 - i and goes
     * on the squares from rank * 8 (the corrected placement; as written the
     * base is (7 - rank) * 8, see Fen.RowBase), and the loop stops after
     * the eighth row.
     */
    method PlaceRowsOf(rows: seq<string>) returns (ok: bool)
      requires Valid()
      modifies this, pieceBB
      ensures Valid() && pieceBB == old(pieceBB)
      ensures var (placed, rowsOk) := PlaceRows(old(Snapshot()).board, rows, 0, true);
              ok == rowsOk && Snapshot() == old(Snapshot()).(board := placed)
    {
      var i := 0;
      while i < |rows| && i < 8
        invariant 0 <= i <= |rows|
        invariant Valid() && pieceBB == old(pieceBB)
        invariant Snapshot() == old(Snapshot()).(board := Snapshot().board)
        invariant PlaceRows(Snapshot().board, rows, i, true) == PlaceRows(old(Snapshot()).board, rows, 0, true)
      {
        var rank := 7 - i;
        var rowOk := PlaceRowOf(rows[i], rank * 8);
        if !rowOk {
          return false;
        }
        i := i + 1;
      }
      return true;
    }

    /** The file loop over one row: a digit moves the file on, a letter sets its piece, anything else fails. */
    method PlaceRowOf(row: string, base: nat) returns (ok: bool)
      requires Valid()
      modifies this, pieceBB
      ensures Valid() && pieceBB == old(pieceBB)
      ensures var (placed, rowOk) := PlaceRow(old(Snapshot()).board, row, base, 0);
              ok == rowOk && Snapshot() == old(Snapshot()).(board := placed)
    {
      var file: nat := 0;
      for j := 0 to |row|
        invariant Valid() && pieceBB == old(pieceBB)
        invariant Snapshot() == old(Snapshot()).(board := Snapshot().board)
        invariant PlaceRow(Snapshot().board, row[j..], base, file) == PlaceRow(old(Snapshot()).board, row, base, 0)
      {
        var ch := row[j];
        assert row[j..][0] == ch && row[j..][1..] == row[j + 1..];
        if IsDigit(ch) {
          file := file + DigitValue(ch);
        } else {
          var piece := PieceChar(ch);
          if piece.None? {
            return false;
          }
          SetPiece(base + file, piece.value.0, piece.value.1);
          file := file + 1;
        }
      }
      assert row[|row|..] == [];
      return true;
    }

    /**
     * The castling loop: the byte starts at 0, each of K, Q, k, q ORs in
     * its bit, '-' is skipped; the byte as far as the loop got is stored.
     */
    method ParseCastling(t: string) returns (ok: bool)
      requires Valid()
      modifies this
      ensures Valid() && pieceBB == old(pieceBB)
      ensures var (c, castleOk) := CastleBits(0, t);
              ok == castleOk && Snapshot() == old(Snapshot()).(castling := c)
    {
      var c;
      c, ok := CastleLoop(t);
      castling := c;
    }

    /** The loop itself over a local byte, stopping at the first character that is not K, Q, k, q or '-'. */
    static method CastleLoop(t: string) returns (c: bv8, ok: bool)
      ensures (c, ok) == CastleBits(0, t)
    {
      c := 0;
      for j := 0 to |t|
        invariant CastleBits(c, t[j..]) == CastleBits(0, t)
      {
        var ch := t[j];
        assert t[j..][0] == ch && t[j..][1..] == t[j + 1..];
        if ch in "KQkq" {
          c := c | LetterBit(ch);
        } else if ch != '-' {
          assert ch !in "KQkq-";
          return c, false;
        } else {
          assert c | LetterBit(ch) == c;
        }
      }
      assert t[|t|..] == [];
      return c, true;
    }

    /** The en-passant field, the two counters, then the hash recomputed from scratch. */
    method SetCounters(f: seq<string>, k: Keys) returns (o: Outcome)
      requires Valid() && Shaped(Snapshot()) && WellShaped(k) && |f| >= 6
      modifies this
      ensures Valid() && pieceBB == old(pieceBB)
      ensures (Snapshot(), o) == FenCounters(old(Snapshot()), f, k)
    {
      var e := EpField(f[3]);
      if e.Err? {
        return e.error;
      }
      ep := e.value;
      var half := ParseUnsigned(f[4], U16_MAX);
      if half.None? {
        return Failed("invalid halfmove");
      }
      halfmove := half.value;
      var full := ParseUnsigned(f[5], U16_MAX);
      if full.None? {
        return Failed("invalid fullmove");
      }
      fullmove := full.value;
      zobrist := RecalcWith(k, pieceBB[..], side, castling as nat, ep);
      return Done;
    }
  }
}
