// Colours, piece kinds and the index of a (kind, colour) pair in the
// twelve-entry bitboard array: white pieces 0..5, black pieces 6..11.

module Pieces {

  datatype Color = White | Black

  datatype PieceKind = Pawn | Knight | Bishop | Rook | Queen | King

  function Opponent(c: Color): Color {
    if c == White then Black else White
  }

  function ColorIndex(c: Color): nat {
    if c == White then 0 else 1
  }

  /** The kind's discriminant: Pawn = 0 .. King = 5. */
  function KindIndex(k: PieceKind): (r: nat)
    ensures r < 6
  {
    match k
    case Pawn => 0
    case Knight => 1
    case Bishop => 2
    case Rook => 3
    case Queen => 4
    case King => 5
  }

  /** The kind whose discriminant is i. */
  function KindOf(i: nat): (k: PieceKind)
    requires i < 6
    ensures KindIndex(k) == i
  {
    if i == 0 then Pawn else if i == 1 then Knight else if i == 2 then Bishop
    else if i == 3 then Rook else if i == 4 then Queen else King
  }

  /** piece_index: colour * 6 + kind. */
  function PieceIndex(k: PieceKind, c: Color): (i: nat)
    ensures i < 12
    ensures (i < 6) <==> c == White
  {
    ColorIndex(c) * 6 + KindIndex(k)
  }

  /** Distinct (kind, colour) pairs have distinct indices. */
  lemma PieceIndexInjective(k1: PieceKind, c1: Color, k2: PieceKind, c2: Color)
    ensures PieceIndex(k1, c1) == PieceIndex(k2, c2) ==> k1 == k2 && c1 == c2
  {
    if PieceIndex(k1, c1) == PieceIndex(k2, c2) {
      assert KindIndex(k1) == KindIndex(k2);
    }
  }
}
