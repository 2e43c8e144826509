// The castled-king test position read through set_from_fen, as written
// and with the corrected rank order, and what king safety makes of each.

module FenOrientation {
  import opened Common
  import opened Text
  import opened Pieces
  import opened Placement
  import Position
  import Zobrist
  import Fen
  import opened Eval

  /** The eight rows of the castled-king test position, rank 8 first: black king e8, pawns f2, g2, h2, king g1. */
  const ShieldRows: seq<string> := ["4k3", "8", "8", "8", "8", "8", "5PPP", "6K1"]

  /** Its placement field, "4k3/8/8/8/8/8/5PPP/6K1". */
  const ShieldPlacement: string := Join(ShieldRows, "/")

  lemma ShieldRowsOfText()
    ensures SplitOn(ShieldPlacement, '/') == ShieldRows
  {
    SplitOnJoin(ShieldRows, '/');
  }

  lemma PlaceEmptyRow(p: Placement, base: nat)
    requires Sized(p)
    ensures Fen.PlaceRow(p, "8", base, 0) == (p, true)
  {
  }

  lemma PlaceBlackKingRow(p: Placement, base: nat)
    requires Sized(p)
    ensures Fen.PlaceRow(p, "4k3", base, 0) == (SetPiece(p, base + 4, King, Black), true)
  {
  }

  lemma PlacePawnRow(p: Placement, base: nat)
    requires Sized(p)
    ensures Fen.PlaceRow(p, "5PPP", base, 0) ==
      (SetPiece(SetPiece(SetPiece(p, base + 5, Pawn, White), base + 6, Pawn, White), base + 7, Pawn, White), true)
  {
  }

  lemma PlaceWhiteKingRow(p: Placement, base: nat)
    requires Sized(p)
    ensures Fen.PlaceRow(p, "6K1", base, 0) == (SetPiece(p, base + 6, King, White), true)
  {
  }

  lemma RowsAfterRow(p: Placement, rows: seq<string>, i: nat, fixed: bool, q: Placement)
    requires Sized(p) && i < |rows| && i < 8
    requires Fen.PlaceRow(p, rows[i], Fen.RowBase(i, fixed), 0) == (q, true)
    ensures Fen.PlaceRows(p, rows, i, fixed) == Fen.PlaceRows(q, rows, i + 1, fixed)
  {
  }

  /** Row by row, the test position's rows build ShieldPlaced: the black king, five empty rows, then rows 2 and 1. */
  lemma ShieldRowsPlace(p: Placement, fixed: bool)
    requires Sized(p)
    ensures Fen.PlaceRows(p, ShieldRows, 0, fixed) == (ShieldPlaced(p, fixed), true)
  {
    var rows := ShieldRows;
    var q := SetPiece(p, Fen.RowBase(0, fixed) + 4, King, Black);
    PlaceBlackKingRow(p, Fen.RowBase(0, fixed));
    RowsAfterRow(p, rows, 0, fixed, q);
    ShieldEmptyRows(q, 1, fixed);
  }

  /** Rows i to 3 of the test position are empty and leave the placement as it is. */
  lemma {:induction false} ShieldEmptyRows(p: Placement, i: nat, fixed: bool)
    requires Sized(p) && 1 <= i <= 6
    ensures Fen.PlaceRows(p, ShieldRows, i, fixed) == (ShieldBottom(p, fixed), true)
    decreases 6 - i
  {
    if i == 6 {
      ShieldBottomRows(p, fixed);
    } else {
      assert ShieldRows[i] == "8";
      PlaceEmptyRow(p, Fen.RowBase(i, fixed));
      RowsAfterRow(p, ShieldRows, i, fixed, p);
      ShieldEmptyRows(p, i + 1, fixed);
    }
  }

  /** What rows 2 and 1 of the test position add to p: three white pawns, then the white king. */
  function ShieldBottom(p: Placement, fixed: bool): (q: Placement)
    requires Sized(p)
    ensures Sized(q)
  {
    var b := Fen.RowBase(6, fixed);
    var pawns := SetPiece(SetPiece(SetPiece(p, b + 5, Pawn, White), b + 6, Pawn, White), b + 7, Pawn, White);
    SetPiece(pawns, Fen.RowBase(7, fixed) + 6, King, White)
  }

  lemma ShieldBottomRows(p: Placement, fixed: bool)
    requires Sized(p)
    ensures Fen.PlaceRows(p, ShieldRows, 6, fixed) == (ShieldBottom(p, fixed), true)
  {
    var rows := ShieldRows;
    var b := Fen.RowBase(6, fixed);
    var pawns := SetPiece(SetPiece(SetPiece(p, b + 5, Pawn, White), b + 6, Pawn, White), b + 7, Pawn, White);
    assert rows[6] == "5PPP" && rows[7] == "6K1";
    PlacePawnRow(p, b);
    RowsAfterRow(p, rows, 6, fixed, pawns);
    PlaceWhiteKingRow(pawns, Fen.RowBase(7, fixed));
    RowsAfterRow(pawns, rows, 7, fixed, SetPiece(pawns, Fen.RowBase(7, fixed) + 6, King, White));
  }

  /** set_piece grows only the named bitboard, by the shifted square. */
  lemma SetPieceBoard(p: Placement, sq: nat, kind: PieceKind, color: Color, k: PieceKind, c: Color)
    requires Sized(p)
    ensures PieceBB(SetPiece(p, sq, kind, color), k, c) ==
            if kind == k && color == c then PieceBB(p, k, c) + {ShiftSquare(sq)} else PieceBB(p, k, c)
  {
    PieceIndexInjective(kind, color, k, c);
  }

  /** The placement the rows of the test position build from p, as set_piece calls in reading order. */
  function ShieldPlaced(p: Placement, fixed: bool): (q: Placement)
    requires Sized(p)
    ensures Sized(q)
  {
    ShieldBottom(SetPiece(p, Fen.RowBase(0, fixed) + 4, King, Black), fixed)
  }

  /**
   * The rows of the test position place the white king on g1 and the
   * pawns on f2, g2, h2 when fixed, and on g8 and f7, g7, h7 as written.
   */
  lemma ShieldRowsPlaced(p: Placement, fixed: bool)
    requires Sized(p) && PieceBB(p, Pawn, White) == {}
    ensures var q := ShieldPlaced(p, fixed);
      KingSq(q, White) == (if fixed then 6 else 62) &&
      PieceBB(q, Pawn, White) == (if fixed then {13, 14, 15} else {53, 54, 55})
  {
    var b := Fen.RowBase(6, fixed);
    var b1 := SetPiece(p, Fen.RowBase(0, fixed) + 4, King, Black);
    var p1 := SetPiece(b1, b + 5, Pawn, White);
    var p2 := SetPiece(p1, b + 6, Pawn, White);
    var p3 := SetPiece(p2, b + 7, Pawn, White);
    SetPieceKings(p3, Fen.RowBase(7, fixed) + 6, King, White, White);
    SetPieceBoard(p, Fen.RowBase(0, fixed) + 4, King, Black, Pawn, White);
    SetPieceBoard(b1, b + 5, Pawn, White, Pawn, White);
    SetPieceBoard(p1, b + 6, Pawn, White, Pawn, White);
    SetPieceBoard(p2, b + 7, Pawn, White, Pawn, White);
    SetPieceBoard(p3, Fen.RowBase(7, fixed) + 6, King, White, Pawn, White);
    ShieldSquares(fixed);
  }

  lemma ShieldSquares(fixed: bool)
    ensures var b := Fen.RowBase(6, fixed);
            {ShiftSquare(b + 5), ShiftSquare(b + 6), ShiftSquare(b + 7)} == (if fixed then {13, 14, 15} else {53, 54, 55})
    ensures (Fen.RowBase(7, fixed) + 6) % 0x100 == if fixed then 6 else 62
  {
  }

  /**
   * The source's castled-king test: "4k3/8/8/8/8/8/5PPP/6K1" read as
   * written puts the white king on g8 with the pawns in front of it off
   * the board, so king safety is 0 where the test expects 45.
   */
  lemma ShieldFenAsWritten(s: Position.State, fen: string, k: Zobrist.Keys)
    requires Position.Shaped(s) && Zobrist.WellShaped(k)
    requires Fen.FenSpec(s, fen, k, false).1 == Fen.Done && Tokens(fen)[0] == ShieldPlacement
    ensures KingSafety(Fen.FenSpec(s, fen, k, false).0.board, White, true) == 0
  {
    ShieldFenBoard(s, fen, k, false);
    KingOnEighthRank(Fen.FenSpec(s, fen, k, false).0.board);
  }

  /** A white king on g8 has no shield rank in front of it and is not in the centre: king safety 0. */
  lemma KingOnEighthRank(p: Placement)
    requires Sized(p) && KingSq(p, White) == 62
    ensures KingSafety(p, White, true) == 0
  {
  }

  /** With the corrected placement the same text gives the 45 the test expects. */
  lemma ShieldFenFixed(s: Position.State, fen: string, k: Zobrist.Keys)
    requires Position.Shaped(s) && Zobrist.WellShaped(k)
    requires Fen.FenSpec(s, fen, k, true).1 == Fen.Done && Tokens(fen)[0] == ShieldPlacement
    ensures KingSafety(Fen.FenSpec(s, fen, k, true).0.board, White, true) == 45
  {
    ShieldFenBoard(s, fen, k, true);
    KingSafetyFullShield(Fen.FenSpec(s, fen, k, true).0.board, true);
  }

  lemma ShieldFenBoard(s: Position.State, fen: string, k: Zobrist.Keys, fixed: bool)
    requires Position.Shaped(s) && Zobrist.WellShaped(k)
    requires Fen.FenSpec(s, fen, k, fixed).1 == Fen.Done && Tokens(fen)[0] == ShieldPlacement
    ensures var q := Fen.FenSpec(s, fen, k, fixed).0.board;
      KingSq(q, White) == (if fixed then 6 else 62) &&
      PieceBB(q, Pawn, White) == (if fixed then {13, 14, 15} else {53, 54, 55})
  {
    var f := Tokens(fen);
    assert Fen.FenSpec(s, fen, k, fixed) == Fen.FenFields(s, f, k, fixed);
    Fen.FieldsBoard(s, f, k, fixed);
    ShieldRowsOfText();
    var p := Fen.Cleared(s.board);
    assert PieceBB(p, Pawn, White) == {};
    ShieldRowsPlace(p, fixed);
    ShieldRowsPlaced(p, fixed);
  }
}
