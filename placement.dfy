// Where the pieces are: the twelve piece bitboards (white pawn..king at
// indices 0..5, black at 6..11), the occupancy bitboards refresh_occupancy
// derives from them and the two king squares; and the placement half of
// set_piece, remove_piece, refresh_occupancy, piece_on, make_move and
// unmake_move.

module Placement {
  import opened Common
  import opened Words
  import opened Bits
  import opened Pieces

  /** The piece bitboards with the recorded king squares. */
  datatype Placement = Placement(pieces: seq<Bitboard>, whiteKing: U8, blackKing: U8)

  /** white_occ, black_occ and occ. */
  datatype Occupancy = Occupancy(white: Bitboard, black: Bitboard, all: Bitboard)

  predicate Sized(p: Placement) {
    |p.pieces| == 12
  }

  /** Board::new's placement: twelve empty bitboards, kings recorded on square 0. */
  function NoPieces(): (p: Placement)
    ensures Sized(p)
  {
    Placement(seq(12, _ => {}), 0, 0)
  }

  /** piece_bb(kind, color) */
  function PieceBB(p: Placement, kind: PieceKind, color: Color): Bitboard
    requires Sized(p)
  {
    p.pieces[PieceIndex(kind, color)]
  }

  /** The square 1u64 << sq sets: a 64-bit shift uses the amount modulo 64. */
  function ShiftSquare(sq: nat): Square {
    sq % 64
  }

  /** king_sq */
  function KingSq(p: Placement, color: Color): U8 {
    if color == White then p.whiteKing else p.blackKing
  }

  /** The placement with the colour's king square recorded as sq. */
  function WithKing(p: Placement, color: Color, sq: U8): (r: Placement)
    ensures r.pieces == p.pieces
  {
    if color == White then p.(whiteKing := sq) else p.(blackKing := sq)
  }

  /** set_piece: adds the square to the piece's bitboard and, for a king, records its square as a u8. */
  function SetPiece(p: Placement, sq: nat, kind: PieceKind, color: Color): (r: Placement)
    requires Sized(p)
    ensures Sized(r)
  {
    var i := PieceIndex(kind, color);
    var r := p.(pieces := p.pieces[i := p.pieces[i] + {ShiftSquare(sq)}]);
    if kind == King then WithKing(r, color, sq % 0x100) else r
  }

  /** remove_piece: takes the square out of the piece's bitboard; king squares are left alone. */
  function RemovePiece(p: Placement, sq: nat, kind: PieceKind, color: Color): (r: Placement)
    requires Sized(p)
    ensures Sized(r)
  {
    var i := PieceIndex(kind, color);
    p.(pieces := p.pieces[i := p.pieces[i] - {ShiftSquare(sq)}])
  }

  /** The OR of pieces[lo..hi], accumulated from lo upwards. */
  function Union(pieces: seq<Bitboard>, lo: nat, hi: nat): Bitboard
    requires lo <= hi <= |pieces|
    decreases hi - lo
  {
    if lo == hi then {} else Union(pieces, lo, hi - 1) + pieces[hi - 1]
  }

  /** refresh_occupancy: the colour occupancies are the unions of each colour's six bitboards. */
  function OccupancyOf(pieces: seq<Bitboard>): Occupancy
    requires |pieces| == 12
  {
    var w := Union(pieces, 0, 6);
    var b := Union(pieces, 6, 12);
    Occupancy(w, b, w + b)
  }

  /** The first bitboard index from i upwards that holds sq. */
  function FirstHolder(pieces: seq<Bitboard>, sq: Square, i: nat): (r: Option<nat>)
    requires i <= |pieces|
    ensures r.Some? ==> i <= r.value < |pieces| && sq in pieces[r.value]
    decreases |pieces| - i
  {
    if i == |pieces| then None
    else if sq in pieces[i] then Some(i)
    else FirstHolder(pieces, sq, i + 1)
  }

  /** The (kind, colour) stored at bitboard index i. */
  function Occupant(i: nat): (r: (PieceKind, Color))
    requires i < 12
    ensures PieceIndex(r.0, r.1) == i
  {
    (KindOf(i % 6), if i < 6 then White else Black)
  }

  /** piece_on: the piece of the first bitboard that holds the square. */
  function PieceOn(p: Placement, sq: nat): Option<(PieceKind, Color)>
    requires Sized(p)
  {
    match FirstHolder(p.pieces, ShiftSquare(sq), 0)
    case None => None
    case Some(i) => Some(Occupant(i))
  }

  /** The square taken out of all six of the colour's bitboards. */
  function ClearSquare(p: Placement, sq: nat, color: Color): (r: Placement)
    requires Sized(p)
    ensures Sized(r)
  {
    var lo := if color == White then 0 else 6;
    p.(pieces := seq(12, i requires 0 <= i < 12 =>
          if lo <= i < lo + 6 then p.pieces[i] - {ShiftSquare(sq)} else p.pieces[i]))
  }

  // ---------------------------------------------------------------------
  // The placement half of make_move and unmake_move. A capture is the
  // captured kind with the square it is taken from.

  /**
   * make_move: the king square follows a moving king, the piece leaves the
   * origin, a captured piece leaves its square, and the placed kind (the
   * promotion kind for a promotion) lands on the destination.
   */
  function MovePieces(p: Placement, from: nat, to: nat, piece: PieceKind, capture: Option<(PieceKind, nat)>,
                      placed: PieceKind, color: Color): (r: Placement)
    requires Sized(p) && to < 64
    ensures Sized(r)
  {
    var p1 := if piece == King then WithKing(p, color, to) else p;
    var p2 := RemovePiece(p1, from, piece, color);
    var p3 := if capture.Some? then RemovePiece(p2, capture.value.1, capture.value.0, Opponent(color)) else p2;
    SetPiece(p3, to, placed, color)
  }

  /** The common tail of unmake_move: piece back on the origin, king square, captured piece. */
  function PutBack(p: Placement, from: nat, moved: PieceKind, capture: Option<(PieceKind, nat)>, mover: Color): (r: Placement)
    requires Sized(p)
    ensures Sized(r)
  {
    var p1 := SetPiece(p, from, moved, mover);
    var p2 := if moved == King then WithKing(p1, mover, from % 0x100) else p1;
    if capture.Some? then SetPiece(p2, capture.value.1, capture.value.0, Opponent(mover)) else p2
  }

  /**
   * unmake_move as written: it takes the moved kind off the destination,
   * so after a promotion the promoted piece is left standing there.
   */
  function UnmovePiecesAsWritten(p: Placement, from: nat, to: nat, moved: PieceKind, capture: Option<(PieceKind, nat)>,
                                 mover: Color): (r: Placement)
    requires Sized(p)
    ensures Sized(r)
  {
    PutBack(RemovePiece(p, to, moved, mover), from, moved, capture, mover)
  }

  /** unmake_move corrected: whatever the mover has on the destination comes off it. */
  function UnmovePieces(p: Placement, from: nat, to: nat, moved: PieceKind, capture: Option<(PieceKind, nat)>,
                        mover: Color): (r: Placement)
    requires Sized(p)
    ensures Sized(r)
  {
    PutBack(ClearSquare(p, to, mover), from, moved, capture, mover)
  }

  /**
   * A move that fits the placement: the mover's piece
   * is on the origin, none of the mover's pieces is on the destination, a
   * captured piece is on its square, and the king squares track every king
   * that moves or is taken.
   */
  predicate Fits(p: Placement, from: nat, to: nat, piece: PieceKind, capture: Option<(PieceKind, nat)>,
                 placed: PieceKind, color: Color)
  {
    Sized(p) && from < 64 && to < 64 &&
    from in PieceBB(p, piece, color) &&
    (forall kind: PieceKind :: to !in PieceBB(p, kind, color)) &&
    (capture.Some? ==>
       capture.value.1 < 64 && capture.value.1 in PieceBB(p, capture.value.0, Opponent(color)) &&
       (capture.value.0 == King ==> KingSq(p, Opponent(color)) == capture.value.1)) &&
    (piece == King ==> KingSq(p, color) == from) &&
    (placed == King ==> piece == King)
  }

  // ---------------------------------------------------------------------
  // Properties

  /** Membership in the accumulated union. */
  lemma {:induction false} UnionMembers(pieces: seq<Bitboard>, lo: nat, hi: nat, x: Square)
    requires lo <= hi <= |pieces|
    ensures x in Union(pieces, lo, hi) <==> exists i :: lo <= i < hi && x in pieces[i]
    decreases hi - lo
  {
    if lo < hi {
      UnionMembers(pieces, lo, hi - 1, x);
      if x in pieces[hi - 1] {
        assert lo <= hi - 1 < hi && x in pieces[hi - 1];
      }
    }
  }

  /**
   * After refresh_occupancy a square is White-occupied iff one of bitboards
   * 0..5 holds it, Black-occupied iff one of 6..11 does, and occupied iff
   * either.
   */
  lemma OccupancyMembers(pieces: seq<Bitboard>, x: Square)
    requires |pieces| == 12
    ensures var o := OccupancyOf(pieces);
      (x in o.white <==> exists i :: 0 <= i < 6 && x in pieces[i]) &&
      (x in o.black <==> exists i :: 6 <= i < 12 && x in pieces[i]) &&
      (x in o.all <==> x in o.white || x in o.black)
  {
    UnionMembers(pieces, 0, 6, x);
    UnionMembers(pieces, 6, 12, x);
  }

  /** The first holder is the least index from i whose bitboard holds the square. */
  lemma {:induction false} FirstHolderLeast(pieces: seq<Bitboard>, sq: Square, i: nat)
    requires i <= |pieces|
    ensures FirstHolder(pieces, sq, i).None? <==> forall j | i <= j < |pieces| :: sq !in pieces[j]
    ensures FirstHolder(pieces, sq, i).Some? ==>
              forall j | i <= j < FirstHolder(pieces, sq, i).value :: sq !in pieces[j]
    decreases |pieces| - i
  {
    if i < |pieces| && sq !in pieces[i] {
      FirstHolderLeast(pieces, sq, i + 1);
    }
  }

  /**
   * piece_on returns None iff no bitboard holds the square, and otherwise
   * the kind and colour of the first bitboard that does.
   */
  lemma PieceOnFirst(p: Placement, sq: nat)
    requires Sized(p)
    ensures PieceOn(p, sq).None? <==> forall i | 0 <= i < 12 :: ShiftSquare(sq) !in p.pieces[i]
    ensures PieceOn(p, sq).Some? ==>
              var (kind, color) := PieceOn(p, sq).value;
              ShiftSquare(sq) in PieceBB(p, kind, color) &&
              forall j | 0 <= j < PieceIndex(kind, color) :: ShiftSquare(sq) !in p.pieces[j]
  {
    FirstHolderLeast(p.pieces, ShiftSquare(sq), 0);
  }

  lemma SetPieceAt(p: Placement, sq: nat, kind: PieceKind, color: Color, i: nat, x: Square)
    requires Sized(p) && i < 12
    ensures x in SetPiece(p, sq, kind, color).pieces[i] <==>
            x in p.pieces[i] || (i == PieceIndex(kind, color) && x == ShiftSquare(sq))
  {
    var j := PieceIndex(kind, color);
    var r := p.(pieces := p.pieces[j := p.pieces[j] + {ShiftSquare(sq)}]);
    assert SetPiece(p, sq, kind, color).pieces == r.pieces;
  }

  lemma RemovePieceAt(p: Placement, sq: nat, kind: PieceKind, color: Color, i: nat, x: Square)
    requires Sized(p) && i < 12
    ensures x in RemovePiece(p, sq, kind, color).pieces[i] <==>
            x in p.pieces[i] && !(i == PieceIndex(kind, color) && x == ShiftSquare(sq))
  {
  }

  lemma ClearSquareAt(p: Placement, sq: nat, color: Color, i: nat, x: Square)
    requires Sized(p) && i < 12
    ensures x in ClearSquare(p, sq, color).pieces[i] <==>
            x in p.pieces[i] && !(((i < 6) <==> color == White) && x == ShiftSquare(sq))
  {
  }

  /** set_piece records the square of a king, and only of a king. */
  lemma SetPieceKings(p: Placement, sq: nat, kind: PieceKind, color: Color, c: Color)
    requires Sized(p)
    ensures KingSq(SetPiece(p, sq, kind, color), c) ==
            if kind == King && color == c then sq % 0x100 else KingSq(p, c)
  {
  }

  /** The bitboards after make_move: origin cleared, captured piece removed, placed piece added. */
  lemma MoveBoards(p: Placement, from: nat, to: nat, piece: PieceKind, capture: Option<(PieceKind, nat)>,
                   placed: PieceKind, color: Color, i: nat, x: Square)
    requires Sized(p) && from < 64 && to < 64 && i < 12
    requires capture.Some? ==> capture.value.1 < 64
    ensures x in MovePieces(p, from, to, piece, capture, placed, color).pieces[i] <==>
              (x == to && i == PieceIndex(placed, color)) ||
              (x in p.pieces[i] && !(x == from && i == PieceIndex(piece, color)) &&
               !(capture.Some? && x == capture.value.1 && i == PieceIndex(capture.value.0, Opponent(color))))
  {
    assert ShiftSquare(from) == from && ShiftSquare(to) == to;
    assert capture.Some? ==> ShiftSquare(capture.value.1) == capture.value.1;
    var p1 := if piece == King then WithKing(p, color, to) else p;
    var p2 := RemovePiece(p1, from, piece, color);
    RemovePieceAt(p1, from, piece, color, i, x);
    var p3 := if capture.Some? then RemovePiece(p2, capture.value.1, capture.value.0, Opponent(color)) else p2;
    if capture.Some? {
      RemovePieceAt(p2, capture.value.1, capture.value.0, Opponent(color), i, x);
    }
    SetPieceAt(p3, to, placed, color, i, x);
  }

  /** The bitboards after the tail of unmake_move. */
  lemma PutBackBoards(p: Placement, from: nat, moved: PieceKind, capture: Option<(PieceKind, nat)>, mover: Color,
                      i: nat, x: Square)
    requires Sized(p) && from < 64 && i < 12
    requires capture.Some? ==> capture.value.1 < 64
    ensures x in PutBack(p, from, moved, capture, mover).pieces[i] <==>
              (x == from && i == PieceIndex(moved, mover)) ||
              (capture.Some? && x == capture.value.1 && i == PieceIndex(capture.value.0, Opponent(mover))) ||
              x in p.pieces[i]
  {
    assert ShiftSquare(from) == from;
    assert capture.Some? ==> ShiftSquare(capture.value.1) == capture.value.1;
    var p1 := SetPiece(p, from, moved, mover);
    SetPieceAt(p, from, moved, mover, i, x);
    var p2 := if moved == King then WithKing(p1, mover, from % 0x100) else p1;
    if capture.Some? {
      SetPieceAt(p2, capture.value.1, capture.value.0, Opponent(mover), i, x);
    }
  }

  /** The king squares after make_move: the mover's follows a moving king, the other is untouched. */
  lemma MoveKings(p: Placement, from: nat, to: nat, piece: PieceKind, capture: Option<(PieceKind, nat)>,
                  placed: PieceKind, color: Color, d: Color)
    requires Sized(p) && to < 64
    ensures KingSq(MovePieces(p, from, to, piece, capture, placed, color), d) ==
            if d == color && (piece == King || placed == King) then to else KingSq(p, d)
  {
    var p1 := if piece == King then WithKing(p, color, to) else p;
    var p2 := RemovePiece(p1, from, piece, color);
    var p3 := if capture.Some? then RemovePiece(p2, capture.value.1, capture.value.0, Opponent(color)) else p2;
    SetPieceKings(p3, to, placed, color, d);
  }

  /** The king squares after the tail of unmake_move: a moved king goes back, a captured king reappears. */
  lemma PutBackKings(p: Placement, from: nat, moved: PieceKind, capture: Option<(PieceKind, nat)>, mover: Color, d: Color)
    requires Sized(p)
    ensures KingSq(PutBack(p, from, moved, capture, mover), d) ==
              if capture.Some? && capture.value.0 == King && d == Opponent(mover) then capture.value.1 % 0x100
              else if moved == King && d == mover then from % 0x100
              else KingSq(p, d)
  {
    var p1 := SetPiece(p, from, moved, mover);
    SetPieceKings(p, from, moved, mover, d);
    var p2 := if moved == King then WithKing(p1, mover, from % 0x100) else p1;
    if capture.Some? {
      SetPieceKings(p2, capture.value.1, capture.value.0, Opponent(mover), d);
    }
  }

  /** One square of one bitboard after make_move and the corrected unmake_move. */
  lemma UnmoveSquare(p: Placement, from: nat, to: nat, piece: PieceKind, capture: Option<(PieceKind, nat)>,
                     placed: PieceKind, color: Color, i: nat, x: Square)
    requires Fits(p, from, to, piece, capture, placed, color) && i < 12
    ensures var r := MovePieces(p, from, to, piece, capture, placed, color);
      x in PutBack(ClearSquare(r, to, color), from, piece, capture, color).pieces[i] <==> x in p.pieces[i]
  {
    var r := MovePieces(p, from, to, piece, capture, placed, color);
    var c := ClearSquare(r, to, color);
    MoveBoards(p, from, to, piece, capture, placed, color, i, x);
    ClearSquareAt(r, to, color, i, x);
    PutBackBoards(c, from, piece, capture, color, i, x);
    assert ShiftSquare(to) == to;
    var (kind, owner) := Occupant(i);
    if owner == color {
      assert to !in PieceBB(p, kind, color);
    }
  }

  /** One square of one bitboard after make_move and unmake_move as written, for a move that does not promote. */
  lemma UnmoveAsWrittenSquare(p: Placement, from: nat, to: nat, piece: PieceKind, capture: Option<(PieceKind, nat)>,
                              color: Color, i: nat, x: Square)
    requires Fits(p, from, to, piece, capture, piece, color) && i < 12
    ensures var r := MovePieces(p, from, to, piece, capture, piece, color);
      x in PutBack(RemovePiece(r, to, piece, color), from, piece, capture, color).pieces[i] <==> x in p.pieces[i]
  {
    var r := MovePieces(p, from, to, piece, capture, piece, color);
    var c := RemovePiece(r, to, piece, color);
    MoveBoards(p, from, to, piece, capture, piece, color, i, x);
    RemovePieceAt(r, to, piece, color, i, x);
    PutBackBoards(c, from, piece, capture, color, i, x);
    assert ShiftSquare(to) == to;
    var (kind, owner) := Occupant(i);
    if owner == color {
      assert to !in PieceBB(p, kind, color);
    }
  }

  /** The king squares after make_move and unmake_move (either form) are the ones make_move started from. */
  lemma UnmoveKings(p: Placement, from: nat, to: nat, piece: PieceKind, capture: Option<(PieceKind, nat)>,
                    placed: PieceKind, color: Color, c: Placement)
    requires Fits(p, from, to, piece, capture, placed, color)
    requires Sized(c)
    requires forall d :: KingSq(c, d) == KingSq(MovePieces(p, from, to, piece, capture, placed, color), d)
    ensures var back := PutBack(c, from, piece, capture, color);
      back.whiteKing == p.whiteKing && back.blackKing == p.blackKing
  {
    MoveKings(p, from, to, piece, capture, placed, color, White);
    MoveKings(p, from, to, piece, capture, placed, color, Black);
    PutBackKings(c, from, piece, capture, color, White);
    PutBackKings(c, from, piece, capture, color, Black);
    assert KingSq(c, White) == c.whiteKing && KingSq(c, Black) == c.blackKing;
  }

  /**
   * The corrected unmake_move puts back exactly the placement make_move
   * started from, for every move that fits it: all twelve bitboards and
   * both king squares.
   */
  lemma UnmoveAfterMove(p: Placement, from: nat, to: nat, piece: PieceKind, capture: Option<(PieceKind, nat)>,
                        placed: PieceKind, color: Color)
    requires Fits(p, from, to, piece, capture, placed, color)
    ensures UnmovePieces(MovePieces(p, from, to, piece, capture, placed, color), from, to, piece, capture, color) == p
  {
    var r := MovePieces(p, from, to, piece, capture, placed, color);
    var c := ClearSquare(r, to, color);
    var back := PutBack(c, from, piece, capture, color);
    forall i | 0 <= i < 12
      ensures back.pieces[i] == p.pieces[i]
    {
      forall x: Square
        ensures x in back.pieces[i] <==> x in p.pieces[i]
      {
        UnmoveSquare(p, from, to, piece, capture, placed, color, i, x);
      }
    }
    UnmoveKings(p, from, to, piece, capture, placed, color, c);
    assert back.pieces == p.pieces;
  }

  /** unmake_move as written also puts the placement back, provided the move is not a promotion. */
  lemma UnmoveAsWrittenAfterMove(p: Placement, from: nat, to: nat, piece: PieceKind, capture: Option<(PieceKind, nat)>,
                                 color: Color)
    requires Fits(p, from, to, piece, capture, piece, color)
    ensures UnmovePiecesAsWritten(MovePieces(p, from, to, piece, capture, piece, color), from, to, piece, capture, color) == p
  {
    var r := MovePieces(p, from, to, piece, capture, piece, color);
    var c := RemovePiece(r, to, piece, color);
    var back := PutBack(c, from, piece, capture, color);
    forall i | 0 <= i < 12
      ensures back.pieces[i] == p.pieces[i]
    {
      forall x: Square
        ensures x in back.pieces[i] <==> x in p.pieces[i]
      {
        UnmoveAsWrittenSquare(p, from, to, piece, capture, color, i, x);
      }
    }
    UnmoveKings(p, from, to, piece, capture, piece, color, c);
    assert back.pieces == p.pieces;
  }

  /**
   * unmake_move as written does not undo a promotion: a white pawn on a7
   * promoting to a queen on a8 leaves the queen on a8 after the roll-back.
   */
  lemma UnmoveAsWrittenLeavesPromotedPiece()
    ensures var p := NoPieces().(pieces := NoPieces().pieces[0 := {48}]);
      Fits(p, 48, 56, Pawn, None, Queen, White) &&
      var back := UnmovePiecesAsWritten(MovePieces(p, 48, 56, Pawn, None, Queen, White), 48, 56, Pawn, None, White);
      56 in PieceBB(back, Queen, White) && back != p
  {
    var p := NoPieces().(pieces := NoPieces().pieces[0 := {48}]);
    var r := MovePieces(p, 48, 56, Pawn, None, Queen, White);
    MoveBoards(p, 48, 56, Pawn, None, Queen, White, 4, 56);
    var c := RemovePiece(r, 56, Pawn, White);
    RemovePieceAt(r, 56, Pawn, White, 4, 56);
    PutBackBoards(c, 48, Pawn, None, White, 4, 56);
  }

  /** A white pawn on e4 and a black knight on d5, nothing else. */
  function PawnAndKnight(): (p: Placement)
    ensures Sized(p)
  {
    NoPieces().(pieces := NoPieces().pieces[PieceIndex(Pawn, White) := {28}][PieceIndex(Knight, Black) := {35}])
  }

  /**
   * The pawn generator as written records every pawn capture as taking a
   * pawn. For exd5 onto a knight, make_move then takes only a black pawn off
   * d5, so the knight stays beside the white pawn, and unmake_move puts a
   * black pawn on d5 that was never there.
   */
  lemma PawnTakesKnightAsWritten()
    ensures var p := PawnAndKnight();
      var cap := Some((Pawn, 35));
      var r := MovePieces(p, 28, 35, Pawn, cap, Pawn, White);
      var back := UnmovePieces(r, 28, 35, Pawn, cap, White);
      !Fits(p, 28, 35, Pawn, cap, Pawn, White) &&
      35 in PieceBB(r, Knight, Black) && 35 in PieceBB(r, Pawn, White) &&
      35 in PieceBB(back, Pawn, Black) && back != p
  {
    var p := PawnAndKnight();
    var cap := Some((Pawn, 35));
    var r := MovePieces(p, 28, 35, Pawn, cap, Pawn, White);
    MoveBoards(p, 28, 35, Pawn, cap, Pawn, White, PieceIndex(Knight, Black), 35);
    MoveBoards(p, 28, 35, Pawn, cap, Pawn, White, PieceIndex(Pawn, White), 35);
    var c := ClearSquare(r, 35, White);
    PutBackBoards(c, 28, Pawn, cap, White, PieceIndex(Pawn, Black), 35);
    assert 35 !in PieceBB(p, Pawn, Black);
  }

  /**
   * Recording the piece actually on the destination, the same capture fits
   * the placement, takes the knight off, and unmake_move restores it.
   */
  lemma PawnTakesKnight()
    ensures var p := PawnAndKnight();
      var cap := Some((Knight, 35));
      var r := MovePieces(p, 28, 35, Pawn, cap, Pawn, White);
      Fits(p, 28, 35, Pawn, cap, Pawn, White) &&
      35 !in PieceBB(r, Knight, Black) && 35 in PieceBB(r, Pawn, White) &&
      UnmovePieces(r, 28, 35, Pawn, cap, White) == p
  {
    var p := PawnAndKnight();
    var cap := Some((Knight, 35));
    forall kind: PieceKind
      ensures 35 !in PieceBB(p, kind, White)
    {
      PieceIndexInjective(kind, White, Pawn, White);
    }
    MoveBoards(p, 28, 35, Pawn, cap, Pawn, White, PieceIndex(Knight, Black), 35);
    MoveBoards(p, 28, 35, Pawn, cap, Pawn, White, PieceIndex(Pawn, White), 35);
    UnmoveAfterMove(p, 28, 35, Pawn, cap, Pawn, White);
  }
}
