// The 32-bit move encoding: bits 0-5 from-square, 6-11 to-square, 12-15 the
// moving kind, 16-19 the captured kind, 20-23 the promotion kind (0xF for
// none in both), 24-31 flags.

module Moves {
  import opened Common
  import opened Pieces

  type Move = bv32

  const FLAG_NONE: bv32 := 0
  const FLAG_EN_PASSANT: bv32 := 1 << 24
  const FLAG_CASTLE_KING: bv32 := 1 << 25
  const FLAG_CASTLE_QUEEN: bv32 := 1 << 26
  const FLAG_PROMOTION: bv32 := 1 << 27
  const FLAG_CAPTURE: bv32 := 1 << 28

  /** `kind as u32` */
  function KindCode(k: PieceKind): (v: bv32)
    ensures v <= 5
  {
    match k
    case Pawn => 0
    case Knight => 1
    case Bishop => 2
    case Rook => 3
    case Queen => 4
    case King => 5
  }

  /** The kind a nibble 0..5 stands for (larger values make the source panic). */
  function KindFromCode(v: bv32): (k: PieceKind)
    requires v <= 5
    ensures KindCode(k) == v
  {
    if v == 0 then Pawn else if v == 1 then Knight else if v == 2 then Bishop
    else if v == 3 then Rook else if v == 4 then Queen else King
  }

  function OptionCode(p: Option<PieceKind>): bv32 {
    if p.Some? then KindCode(p.value) else 0xF
  }

  /** The packed word for raw field values. */
  function Pack(from: bv32, to: bv32, piece: bv32, cap: bv32, prom: bv32, flags: bv32): Move {
    (from & 0x3F) | ((to & 0x3F) << 6) | ((piece & 0xF) << 12)
    | ((cap & 0xF) << 16) | ((prom & 0xF) << 20) | flags
  }

  /** new_move */
  function NewMove(from: bv32, to: bv32, piece: PieceKind, captured: Option<PieceKind>,
                   promotion: Option<PieceKind>, flags: bv32): Move
  {
    Pack(from, to, KindCode(piece), OptionCode(captured), OptionCode(promotion), flags)
  }

  /** move_from_sq */
  function MoveFrom(m: Move): (sq: nat)
    ensures sq < 64
  {
    (m & 0x3F) as nat
  }

  /** move_to_sq */
  function MoveTo(m: Move): (sq: nat)
    ensures sq < 64
  {
    ((m >> 6) & 0x3F) as nat
  }

  /** The moving-kind nibble names a kind (move_piece panics otherwise). */
  predicate ValidPiece(m: Move) {
    (m >> 12) & 0xF <= 5
  }

  /** An optional-kind nibble names a kind or is 0xF (the accessors panic otherwise). */
  predicate ValidOptional(m: Move, shift: bv32)
    requires shift == 16 || shift == 20
  {
    var v := (m >> shift) & 0xF;
    v <= 5 || v == 0xF
  }

  /** Every accessor of m is defined. */
  predicate WellFormed(m: Move) {
    ValidPiece(m) && ValidOptional(m, 16) && ValidOptional(m, 20)
  }

  /** move_piece */
  function MovePiece(m: Move): PieceKind
    requires ValidPiece(m)
  {
    KindFromCode((m >> 12) & 0xF)
  }

  function OptionalKind(m: Move, shift: bv32): Option<PieceKind>
    requires shift == 16 || shift == 20
    requires ValidOptional(m, shift)
  {
    var v := (m >> shift) & 0xF;
    if v == 0xF then None else Some(KindFromCode(v))
  }

  /** move_captured */
  function MoveCaptured(m: Move): Option<PieceKind>
    requires ValidOptional(m, 16)
  {
    OptionalKind(m, 16)
  }

  /** move_promotion */
  function MovePromotion(m: Move): Option<PieceKind>
    requires ValidOptional(m, 20)
  {
    OptionalKind(m, 20)
  }

  /** move_flag */
  predicate MoveFlag(m: Move, flag: bv32) {
    m & flag != 0
  }

  /** The flag byte, as make_move keeps it: mv & 0xFF000000. */
  function FlagBits(m: Move): bv32 {
    m & 0xFF00_0000
  }

  // ---------------------------------------------------------------------
  // Properties

  lemma OptionCodeNibble(p: Option<PieceKind>)
    ensures OptionCode(p) & 0xF == OptionCode(p)
    ensures OptionCode(p) == 0xF <==> p.None?
  {
  }

  lemma PackFields(from: bv32, to: bv32, piece: bv32, cap: bv32, prom: bv32, flags: bv32)
    requires from < 64 && to < 64 && piece < 16 && cap < 16 && prom < 16
    requires flags & 0x00FF_FFFF == 0
    ensures var m := Pack(from, to, piece, cap, prom, flags);
      m & 0x3F == from && (m >> 6) & 0x3F == to && (m >> 12) & 0xF == piece &&
      (m >> 16) & 0xF == cap && (m >> 20) & 0xF == prom && m & 0xFF00_0000 == flags
  {
  }

  /**
   * Decoding an encoded move gives back every field, for squares below 64
   * and flags confined to the top byte.
   */
  lemma CodecRoundTrip(from: bv32, to: bv32, piece: PieceKind, captured: Option<PieceKind>,
                       promotion: Option<PieceKind>, flags: bv32)
    requires from < 64 && to < 64
    requires flags & 0x00FF_FFFF == 0
    ensures var m := NewMove(from, to, piece, captured, promotion, flags);
      WellFormed(m) &&
      MoveFrom(m) == from as nat && MoveTo(m) == to as nat && MovePiece(m) == piece &&
      MoveCaptured(m) == captured && MovePromotion(m) == promotion && FlagBits(m) == flags
  {
    PackFields(from, to, KindCode(piece), OptionCode(captured), OptionCode(promotion), flags);
  }

  /** Each flag is seen by move_flag exactly when it was passed to new_move. */
  lemma FlagsRoundTrip(from: bv32, to: bv32, piece: PieceKind, captured: Option<PieceKind>,
                       promotion: Option<PieceKind>, flags: bv32, flag: bv32)
    requires flags & 0x00FF_FFFF == 0
    requires flag == FLAG_EN_PASSANT || flag == FLAG_CASTLE_KING || flag == FLAG_CASTLE_QUEEN ||
             flag == FLAG_PROMOTION || flag == FLAG_CAPTURE
    ensures MoveFlag(NewMove(from, to, piece, captured, promotion, flags), flag) <==> flags & flag != 0
  {
    PackHighByte(from, to, KindCode(piece), OptionCode(captured), OptionCode(promotion), flags);
    FlagInHighByte(NewMove(from, to, piece, captured, promotion, flags), flags, flag);
  }

  /** The fields below the flags never reach the top byte. */
  lemma PackHighByte(from: bv32, to: bv32, piece: bv32, cap: bv32, prom: bv32, flags: bv32)
    ensures Pack(from, to, piece, cap, prom, flags) & 0xFF00_0000 == flags & 0xFF00_0000
  {
  }

  lemma FlagInHighByte(m: Move, flags: bv32, flag: bv32)
    ensures m & 0xFF00_0000 == flags & 0xFF00_0000 && flag & 0x00FF_FFFF == 0 ==>
      (m & flag != 0 <==> flags & flag != 0)
  {
  }
}
