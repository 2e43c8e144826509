// set_from_fen as a function of the old position: the six whitespace
// fields, the placement rows, the side, castling and en-passant fields and
// the two counters, with the error each malformed field gives and the
// partly overwritten position such an error leaves behind.
//
// The square of the j-th row of the text (counting from 0) carries the
// flag `fixed`: as written (false) row i fills squares 8*i .. 8*i+7, so the
// first row of the text, rank 8, lands on rank 1 (a1 is square 0); the
// evidently intended placement (true) puts row i on rank 8 - i, squares
// 8*(7-i) .. 8*(7-i)+7.

module Fen {
  import opened Common
  import opened Text
  import opened Words
  import opened Bits
  import opened Pieces
  import opened Zobrist
  import opened Placement
  import opened Position

  /** What set_from_fen ends with: Ok, one of its error strings, or a panic. */
  datatype Outcome = Done | Failed(msg: string) | Panic

  /** The error for a text with only n whitespace fields. */
  function MissingField(n: nat): string
    requires n < 6
  {
    if n == 0 then "missing pieces" else if n == 1 then "missing side"
    else if n == 2 then "missing castling" else if n == 3 then "missing en-passant"
    else if n == 4 then "missing halfmove" else "missing fullmove"
  }

  /** The piece a placement letter stands for. */
  function PieceChar(c: char): Option<(PieceKind, Color)> {
    match c
    case 'P' => Some((Pawn, White))
    case 'N' => Some((Knight, White))
    case 'B' => Some((Bishop, White))
    case 'R' => Some((Rook, White))
    case 'Q' => Some((Queen, White))
    case 'K' => Some((King, White))
    case 'p' => Some((Pawn, Black))
    case 'n' => Some((Knight, Black))
    case 'b' => Some((Bishop, Black))
    case 'r' => Some((Rook, Black))
    case 'q' => Some((Queen, Black))
    case 'k' => Some((King, Black))
    case _ => None
  }

  /** A character the placement loop accepts: a decimal digit or a piece letter. */
  predicate RowChar(c: char) {
    IsDigit(c) || PieceChar(c).Some?
  }

  /** How far a placement character moves the file: a digit skips that many, a piece one. */
  function Advance(c: char): nat {
    if IsDigit(c) then DigitValue(c) else 1
  }

  /** The file the j-th character of a row starts on. */
  function FileBefore(row: string, j: nat): nat
    requires j <= |row|
  {
    if j == 0 then 0 else Advance(row[0]) + FileBefore(row[1..], j - 1)
  }

  /**
   * The inner placement loop over one row, from file onwards: digits move
   * the file, letters set a piece on base + file, anything else stops with
   * the placement so far and false.
   */
  function PlaceRow(p: Placement, row: string, base: nat, file: nat): (Placement, bool)
    requires Sized(p)
    ensures Sized(PlaceRow(p, row, base, file).0)
    decreases |row|
  {
    if row == [] then (p, true)
    else if IsDigit(row[0]) then PlaceRow(p, row[1..], base, file + DigitValue(row[0]))
    else match PieceChar(row[0])
      case None => (p, false)
      case Some((kind, color)) => PlaceRow(SetPiece(p, base + file, kind, color), row[1..], base, file + 1)
  }

  /** The first square of row i of the text: (7 - rank) * 8 with rank = 7 - i as written, rank * 8 when fixed. */
  function RowBase(i: nat, fixed: bool): (b: nat)
    requires i < 8
    ensures b % 8 == 0 && b < 64
  {
    var rank := 7 - i;
    if fixed then rank * 8 else (7 - rank) * 8
  }

  /** The outer loop: rows i, i+1, ... of the first eight, row i from square RowBase(i). */
  function PlaceRows(p: Placement, rows: seq<string>, i: nat, fixed: bool): (Placement, bool)
    requires Sized(p)
    ensures Sized(PlaceRows(p, rows, i, fixed).0)
    decreases |rows| - i
  {
    if i >= |rows| || i >= 8 then (p, true)
    else
      var (q, ok) := PlaceRow(p, rows[i], RowBase(i, fixed), 0);
      if !ok then (q, false) else PlaceRows(q, rows, i + 1, fixed)
  }

  /** The castling bit a letter stands for: K 8, Q 4, k 2, q 1; '-' stands for none. */
  function LetterBit(ch: char): bv8 {
    if ch == 'K' then 8 else if ch == 'Q' then 4 else if ch == 'k' then 2 else if ch == 'q' then 1 else 0
  }

  /** The castling loop from byte c: each of K, Q, k, q ORs in its bit, '-' is skipped, anything else stops. */
  function CastleBits(c: bv8, t: string): (r: (bv8, bool))
    ensures c < 16 ==> r.0 < 16
    decreases |t|
  {
    if t == [] then (c, true)
    else if t[0] in "KQkq-" then CastleBits(c | LetterBit(t[0]), t[1..])
    else (c, false)
  }

  /** The bytes of a character in UTF-8. */
  function CharBytes(c: char): nat {
    if c as int < 0x80 then 1 else if c as int < 0x800 then 2 else if c as int < 0x1_0000 then 3 else 4
  }

  /** str::len: the length of the text in UTF-8 bytes. */
  function Utf8Len(s: string): nat
    decreases |s|
  {
    if s == [] then 0 else CharBytes(s[0]) + Utf8Len(s[1..])
  }

  /**
   * The en-passant field: '-' is none; otherwise two bytes, a file a-h and
   * a rank 3 or 6. A single two-byte character passes the length test and
   * then has no second character to unwrap.
   */
  function EpField(t: string): Result<Option<U8>, Outcome> {
    if t == "-" then Ok(None)
    else if Utf8Len(t) != 2 then Err(Failed("invalid ep string"))
    else if |t| < 2 then Err(Panic)
    else if !('a' <= t[0] <= 'h') then Err(Failed("invalid ep file"))
    else if t[1] != '3' && t[1] != '6' then Err(Failed("invalid ep rank"))
    else Ok(Some((t[1] as int - '1' as int) * 8 + (t[0] as int - 'a' as int)))
  }

  /** The placement with every bitboard cleared; the recorded king squares stay. */
  function Cleared(p: Placement): (r: Placement)
    ensures Sized(r)
  {
    Placement(seq(12, _ => {}), p.whiteKing, p.blackKing)
  }

  /**
   * set_from_fen: the new position and the outcome. Every field is checked
   * in turn and written as soon as it is read, so an error leaves the
   * fields before it overwritten and the ones after it as they were.
   */
  function FenSpec(s: State, fen: string, k: Keys, fixed: bool): (r: (State, Outcome))
    requires Shaped(s) && WellShaped(k)
    ensures Shaped(r.0)
  {
    var f := Tokens(fen);
    if |f| < 6 then (s, Failed(MissingField(|f|)))
    else FenFields(s, f, k, fixed)
  }

  /** The placement, side and castling fields; the bitboards are cleared first. */
  function FenFields(s: State, f: seq<string>, k: Keys, fixed: bool): (r: (State, Outcome))
    requires Shaped(s) && WellShaped(k) && |f| >= 6
    ensures Shaped(r.0)
  {
    var (placed, ok) := PlaceRows(Cleared(s.board), SplitOn(f[0], '/'), 0, fixed);
    if !ok then (s.(board := placed, occ := Occupancy({}, {}, {})), Failed("invalid piece char"))
    else
      var s1 := s.(board := placed, occ := OccupancyOf(placed.pieces));
      if f[1] != "w" && f[1] != "b" then (s1, Failed("invalid side char"))
      else
        var s2 := s1.(side := if f[1] == "w" then White else Black);
        var (castling, castleOk) := CastleBits(0, f[2]);
        var s3 := s2.(castling := castling);
        if !castleOk then (s3, Failed("invalid castle char"))
        else FenCounters(s3, f, k)
  }

  /** The en-passant field and the two counters, then the hash of the finished position. */
  function FenCounters(s: State, f: seq<string>, k: Keys): (r: (State, Outcome))
    requires Shaped(s) && WellShaped(k) && |f| >= 6
    ensures Shaped(r.0)
  {
    match EpField(f[3])
    case Err(o) => (s, o)
    case Ok(ep) =>
      var s4 := s.(ep := ep);
      var half := ParseUnsigned(f[4], U16_MAX);
      if half.None? then (s4, Failed("invalid halfmove"))
      else
        var s5 := s4.(halfmove := half.value);
        var full := ParseUnsigned(f[5], U16_MAX);
        if full.None? then (s5, Failed("invalid fullmove"))
        else
          var s6 := s5.(fullmove := full.value);
          (s6.(zobrist := Hash(k, s6.board.pieces, s6.side, s6.castling as nat, ep)), Done)
  }

  // ---------------------------------------------------------------------
  // Which texts are accepted

  /** The en-passant text the parser accepts: '-', or a file a-h followed by rank 3 or 6. */
  predicate EpText(t: string) {
    t == "-" || (|t| == 2 && 'a' <= t[0] <= 'h' && (t[1] == '3' || t[1] == '6'))
  }

  /** A placement field whose first eight rows hold only digits and piece letters; later rows are never read. */
  predicate RowsText(t: string) {
    var rows := SplitOn(t, '/');
    forall i, j | 0 <= i < |rows| && i < 8 && 0 <= j < |rows[i]| :: RowChar(rows[i][j])
  }

  /** A side field: "w" or "b". */
  predicate SideText(t: string) {
    t == "w" || t == "b"
  }

  /** A castling field: any string over K, Q, k, q and '-', the empty one included. */
  predicate CastleText(t: string) {
    forall j | 0 <= j < |t| :: t[j] in "KQkq-"
  }

  /** The text set_from_fen accepts, field by field, stated without the parsing loops. */
  predicate ValidFen(fen: string) {
    var f := Tokens(fen);
    |f| >= 6 && RowsText(f[0]) && SideText(f[1]) && CastleText(f[2]) && EpText(f[3]) &&
    ParseUnsigned(f[4], U16_MAX).Some? && ParseUnsigned(f[5], U16_MAX).Some?
  }

  /** One row is accepted exactly when every character is a digit or a piece letter. */
  lemma {:induction false} PlaceRowOk(p: Placement, row: string, base: nat, file: nat)
    requires Sized(p)
    ensures PlaceRow(p, row, base, file).1 <==> forall j | 0 <= j < |row| :: RowChar(row[j])
    decreases |row|
  {
    if row != [] {
      if IsDigit(row[0]) {
        PlaceRowOk(p, row[1..], base, file + DigitValue(row[0]));
      } else if PieceChar(row[0]).Some? {
        var (kind, color) := PieceChar(row[0]).value;
        PlaceRowOk(SetPiece(p, base + file, kind, color), row[1..], base, file + 1);
      }
      assert forall j | 1 <= j < |row| :: row[j] == row[1..][j - 1];
    }
  }

  /** The rows are accepted exactly when every character of the first eight rows is. */
  lemma {:induction false} PlaceRowsOk(p: Placement, rows: seq<string>, i: nat, fixed: bool)
    requires Sized(p)
    ensures PlaceRows(p, rows, i, fixed).1 <==>
            forall m, j | i <= m < |rows| && m < 8 && 0 <= j < |rows[m]| :: RowChar(rows[m][j])
    decreases |rows| - i
  {
    if i < |rows| && i < 8 {
      PlaceRowOk(p, rows[i], RowBase(i, fixed), 0);
      var (q, ok) := PlaceRow(p, rows[i], RowBase(i, fixed), 0);
      if ok {
        PlaceRowsOk(q, rows, i + 1, fixed);
      }
    }
  }

  /** The castling loop accepts exactly the texts over K, Q, k, q and '-'. */
  lemma {:induction false} CastleBitsOk(c: bv8, t: string)
    ensures CastleBits(c, t).1 <==> forall j | 0 <= j < |t| :: t[j] in "KQkq-"
    decreases |t|
  {
    if t != [] {
      CastleBitsOk(c | LetterBit(t[0]), t[1..]);
      assert forall j | 1 <= j < |t| :: t[j] == t[1..][j - 1];
    }
  }

  /** Every character takes at least one byte. */
  lemma {:induction false} Utf8AtLeast(s: string)
    ensures Utf8Len(s) >= |s|
    decreases |s|
  {
    if s != [] {
      Utf8AtLeast(s[1..]);
    }
  }

  /** The en-passant field is accepted exactly for '-' and the sixteen file-rank pairs on ranks 3 and 6. */
  lemma EpFieldOk(t: string)
    ensures EpField(t).Ok? <==> EpText(t)
  {
    Utf8AtLeast(t);
    if |t| == 2 {
      assert t[1..][1..] == [];
      Utf8AtLeast(t[1..][1..]);
      if 'a' <= t[0] <= 'h' && (t[1] == '3' || t[1] == '6') {
        assert Utf8Len(t) == 2;
      }
    }
    if t != "-" && Utf8Len(t) == 2 && |t| >= 2 {
      assert Utf8Len(t) >= CharBytes(t[0]) + CharBytes(t[1]) by {
        Utf8AtLeast(t[1..][1..]);
      }
    }
  }

  /** set_from_fen returns Ok exactly for the texts ValidFen describes. */
  lemma FenDoneIff(s: State, fen: string, k: Keys, fixed: bool)
    requires Shaped(s) && WellShaped(k)
    ensures FenSpec(s, fen, k, fixed).1 == Done <==> ValidFen(fen)
  {
    var f := Tokens(fen);
    if |f| >= 6 {
      assert FenSpec(s, fen, k, fixed) == FenFields(s, f, k, fixed);
      FieldsDoneIff(s, f, k, fixed);
    }
  }

  lemma FieldsDoneIff(s: State, f: seq<string>, k: Keys, fixed: bool)
    requires Shaped(s) && WellShaped(k) && |f| >= 6
    ensures FenFields(s, f, k, fixed).1 == Done <==>
            RowsText(f[0]) && SideText(f[1]) && CastleText(f[2]) && EpText(f[3]) &&
            ParseUnsigned(f[4], U16_MAX).Some? && ParseUnsigned(f[5], U16_MAX).Some?
  {
    var (placed, ok) := PlaceRows(Cleared(s.board), SplitOn(f[0], '/'), 0, fixed);
    PlaceRowsOk(Cleared(s.board), SplitOn(f[0], '/'), 0, fixed);
    CastleBitsOk(0, f[2]);
    if ok && SideText(f[1]) && CastleText(f[2]) {
      var s3 := s.(board := placed, occ := OccupancyOf(placed.pieces),
                   side := if f[1] == "w" then White else Black, castling := CastleBits(0, f[2]).0);
      assert FenFields(s, f, k, fixed) == FenCounters(s3, f, k);
      CountersDoneIff(s3, f, k);
    }
  }

  lemma CountersDoneIff(s: State, f: seq<string>, k: Keys)
    requires Shaped(s) && WellShaped(k) && |f| >= 6
    ensures FenCounters(s, f, k).1 == Done <==>
            EpText(f[3]) && ParseUnsigned(f[4], U16_MAX).Some? && ParseUnsigned(f[5], U16_MAX).Some?
  {
    EpFieldOk(f[3]);
  }

  // ---------------------------------------------------------------------
  // What an accepted text sets

  /** One step of the castling loop sets a letter's bit exactly when that letter is read. */
  lemma LetterBitStep(a: bv8, x: char, ch: char)
    requires ch in "KQkq"
    ensures (a | LetterBit(x)) & LetterBit(ch) != 0 <==> a & LetterBit(ch) != 0 || x == ch
    ensures (a | LetterBit(x)) & 0xF0 == a & 0xF0
  {
  }

  /**
   * An accepted castling field sets the bit of each of K, Q, k, q exactly
   * when the letter occurs in it, and leaves the high bits alone.
   */
  lemma {:induction false} CastleBitsLetters(c: bv8, t: string, ch: char)
    requires CastleBits(c, t).1 && ch in "KQkq"
    ensures CastleBits(c, t).0 & LetterBit(ch) != 0 <==> c & LetterBit(ch) != 0 || ch in t
    ensures CastleBits(c, t).0 & 0xF0 == c & 0xF0
    decreases |t|
  {
    if t != [] {
      LetterBitStep(c, t[0], ch);
      CastleBitsLetters(c | LetterBit(t[0]), t[1..], ch);
      assert ch in t <==> ch == t[0] || ch in t[1..];
    }
  }

  /** The side whose right a castling letter records: K and Q are White's. */
  function LetterSide(ch: char): Color {
    if ch == 'K' || ch == 'Q' then White else Black
  }

  /** The corner of the rook a castling letter belongs to: K h1, Q a1, k h8, q a8. */
  function LetterCorner(ch: char): nat {
    if ch == 'K' then 7 else if ch == 'Q' then 0 else if ch == 'k' then 63 else 56
  }

  /**
   * The castling update read through the letters set_from_fen assigns: a
   * right survives a move exactly when it was held and the move is neither
   * its side's king leaving home nor a rook of its side leaving its corner.
   */
  lemma CastlingFollowsLetters(c: bv8, side: Color, piece: PieceKind, from: nat, ch: char)
    requires ch in "KQkq"
    ensures UpdateCastling(c, side, piece, from) & LetterBit(ch) != 0 <==>
      c & LetterBit(ch) != 0 &&
      !(LetterSide(ch) == side &&
        ((piece == King && from == KingHome(side)) || (piece == Rook && from == LetterCorner(ch))))
  {
  }

  /**
   * A position read with castling field "KQkq", then a white king leaving
   * e1: with the masks as written White keeps K and Q and Black loses k and q.
   */
  lemma KingMoveAsWritten()
    ensures CastleBits(0, "KQkq") == (0xF, true)
    ensures var r := UpdateCastlingAsWritten(CastleBits(0, "KQkq").0, White, King, 4);
      r == 0xC && r & LetterBit('K') != 0 && r & LetterBit('Q') != 0 && r & LetterBit('k') == 0
  {
  }

  /** The same position and move with the corrected masks: White loses K and Q, Black keeps k and q. */
  lemma KingMoveCorrected()
    ensures var r := UpdateCastling(CastleBits(0, "KQkq").0, White, King, 4);
      r == 0x3 && r & LetterBit('K') == 0 && r & LetterBit('Q') == 0 &&
      r & LetterBit('k') != 0 && r & LetterBit('q') != 0
  {
  }

  /** The en-passant square of an accepted field: rank index times eight plus file index. */
  lemma EpFieldSquare(t: string)
    requires EpText(t) && t != "-"
    ensures EpField(t) == Ok(Some((t[1] as int - '1' as int) * 8 + (t[0] as int - 'a' as int)))
  {
    assert t[1..][1..] == [];
    assert Utf8Len(t[1..]) == CharBytes(t[1]);
  }

  /** The j-th character of the row is a letter for the piece with bitboard index i. */
  predicate LetterFor(row: string, j: nat, i: nat)
    requires j < |row|
  {
    PieceChar(row[j]).Some? && PieceIndex(PieceChar(row[j]).value.0, PieceChar(row[j]).value.1) == i
  }

  /** Some letter of the row for bitboard i lands on x, counting files from file. */
  predicate InRow(row: string, base: nat, file: nat, i: nat, x: Square) {
    exists j :: 0 <= j < |row| && LetterFor(row, j, i) && x == ShiftSquare(base + file + FileBefore(row, j))
  }

  /** InRow splits into the first character and the rest. */
  lemma InRowStep(row: string, base: nat, file: nat, i: nat, x: Square)
    requires row != []
    ensures InRow(row, base, file, i, x) <==>
            (LetterFor(row, 0, i) && x == ShiftSquare(base + file)) ||
            InRow(row[1..], base, file + Advance(row[0]), i, x)
  {
    if InRow(row, base, file, i, x) {
      InRowFirst(row, base, file, i, x);
    }
    if InRow(row[1..], base, file + Advance(row[0]), i, x) {
      InRowLater(row, base, file, i, x);
    }
  }

  lemma InRowFirst(row: string, base: nat, file: nat, i: nat, x: Square)
    requires row != [] && InRow(row, base, file, i, x)
    ensures (LetterFor(row, 0, i) && x == ShiftSquare(base + file)) ||
            InRow(row[1..], base, file + Advance(row[0]), i, x)
  {
    var j :| 0 <= j < |row| && LetterFor(row, j, i) && x == ShiftSquare(base + file + FileBefore(row, j));
    if j > 0 {
      InRowShift(row, file, i, j);
      assert LetterFor(row[1..], j - 1, i) && x == ShiftSquare(base + file + Advance(row[0]) + FileBefore(row[1..], j - 1));
    }
  }

  lemma InRowLater(row: string, base: nat, file: nat, i: nat, x: Square)
    requires row != [] && InRow(row[1..], base, file + Advance(row[0]), i, x)
    ensures InRow(row, base, file, i, x)
  {
    var next := file + Advance(row[0]);
    var j :| 0 <= j < |row[1..]| && LetterFor(row[1..], j, i) && x == ShiftSquare(base + next + FileBefore(row[1..], j));
    InRowShift(row, file, i, j + 1);
    assert LetterFor(row, j + 1, i) && x == ShiftSquare(base + file + FileBefore(row, j + 1));
  }

  /** Character j of the row is character j - 1 of its tail, one advance further on. */
  lemma InRowShift(row: string, file: nat, i: nat, j: nat)
    requires 1 <= j < |row|
    ensures LetterFor(row, j, i) == LetterFor(row[1..], j - 1, i)
    ensures file + FileBefore(row, j) == file + Advance(row[0]) + FileBefore(row[1..], j - 1)
  {
    assert row[j] == row[1..][j - 1];
  }

  /**
   * An accepted row adds to bitboard i exactly the squares base + file of
   * its letters for that piece, each letter's file being the sum of the
   * advances before it.
   */
  lemma {:induction false} PlaceRowMembers(p: Placement, row: string, base: nat, file: nat, i: nat, x: Square)
    requires Sized(p) && i < 12 && PlaceRow(p, row, base, file).1
    ensures x in PlaceRow(p, row, base, file).0.pieces[i] <==> x in p.pieces[i] || InRow(row, base, file, i, x)
    decreases |row|
  {
    if row != [] {
      InRowStep(row, base, file, i, x);
      if IsDigit(row[0]) {
        PlaceRowMembers(p, row[1..], base, file + DigitValue(row[0]), i, x);
      } else {
        var (kind, color) := PieceChar(row[0]).value;
        SetPieceAt(p, base + file, kind, color, i, x);
        PlaceRowMembers(SetPiece(p, base + file, kind, color), row[1..], base, file + 1, i, x);
      }
    }
  }

  /** Some row m >= n of the first eight has a letter for bitboard i on x, row m starting at RowBase(m). */
  predicate InRows(rows: seq<string>, n: nat, i: nat, x: Square, fixed: bool) {
    exists m :: n <= m < |rows| && m < 8 && InRow(rows[m], RowBase(m, fixed), 0, i, x)
  }

  /** Accepted rows add to bitboard i exactly the squares their letters for it name. */
  lemma {:induction false} PlaceRowsMembers(p: Placement, rows: seq<string>, n: nat, i: nat, x: Square, fixed: bool)
    requires Sized(p) && i < 12 && PlaceRows(p, rows, n, fixed).1
    ensures x in PlaceRows(p, rows, n, fixed).0.pieces[i] <==> x in p.pieces[i] || InRows(rows, n, i, x, fixed)
    decreases |rows| - n
  {
    if n < |rows| && n < 8 {
      var q := PlaceRow(p, rows[n], RowBase(n, fixed), 0).0;
      PlaceRowMembers(p, rows[n], RowBase(n, fixed), 0, i, x);
      PlaceRowsMembers(q, rows, n + 1, i, x, fixed);
      if InRows(rows, n, i, x, fixed) {
        var m :| n <= m < |rows| && m < 8 && InRow(rows[m], RowBase(m, fixed), 0, i, x);
        if m > n {
          assert InRows(rows, n + 1, i, x, fixed);
        }
      }
    }
  }

  /**
   * An accepted text sets exactly the pieces its rows name, row m of the
   * first eight from square RowBase(m), with the occupancy refreshed.
   */
  lemma FenBoard(s: State, fen: string, k: Keys, fixed: bool, i: nat, x: Square)
    requires Shaped(s) && WellShaped(k) && i < 12
    requires FenSpec(s, fen, k, fixed).1 == Done
    ensures var r := FenSpec(s, fen, k, fixed).0;
            Fresh(r) &&
            (x in r.board.pieces[i] <==> InRows(SplitOn(Tokens(fen)[0], '/'), 0, i, x, fixed))
  {
    var f := Tokens(fen);
    var rows := SplitOn(f[0], '/');
    assert FenSpec(s, fen, k, fixed) == FenFields(s, f, k, fixed);
    FieldsBoard(s, f, k, fixed);
    PlaceRowsMembers(Cleared(s.board), rows, 0, i, x, fixed);
  }

  /** On success the bitboards are those the rows place, and the occupancy agrees with them. */
  lemma FieldsBoard(s: State, f: seq<string>, k: Keys, fixed: bool)
    requires Shaped(s) && WellShaped(k) && |f| >= 6
    requires FenFields(s, f, k, fixed).1 == Done
    ensures var r := FenFields(s, f, k, fixed).0;
            var (placed, ok) := PlaceRows(Cleared(s.board), SplitOn(f[0], '/'), 0, fixed);
            ok && r.board == placed && Fresh(r)
  {
    var placed := PlaceRows(Cleared(s.board), SplitOn(f[0], '/'), 0, fixed).0;
    var s3 := s.(board := placed, occ := OccupancyOf(placed.pieces),
                 side := if f[1] == "w" then White else Black, castling := CastleBits(0, f[2]).0);
    assert FenFields(s, f, k, fixed) == FenCounters(s3, f, k);
    CountersSet(s3, f, k);
  }

  /** The last stage on success: en-passant square and counters as parsed, hash of the result; nothing else changes. */
  lemma CountersSet(s: State, f: seq<string>, k: Keys)
    requires Shaped(s) && WellShaped(k) && |f| >= 6
    requires FenCounters(s, f, k).1 == Done
    ensures var r := FenCounters(s, f, k).0;
            r.board == s.board && r.occ == s.occ && r.side == s.side && r.castling == s.castling &&
            (r.ep.None? <==> f[3] == "-") &&
            (r.ep.Some? ==> |f[3]| == 2 && r.ep.value / 8 in {2, 5} &&
                            r.ep.value == (f[3][1] as int - '1' as int) * 8 + (f[3][0] as int - 'a' as int)) &&
            Some(r.halfmove as nat) == ParseUnsigned(f[4], U16_MAX) &&
            Some(r.fullmove as nat) == ParseUnsigned(f[5], U16_MAX) &&
            r.zobrist == Hash(k, r.board.pieces, r.side, r.castling as nat, r.ep)
  {
    EpFieldOk(f[3]);
    if f[3] != "-" {
      EpFieldSquare(f[3]);
    }
  }

  /** The middle stage on success: side and castling as read, then the last stage. */
  lemma FieldsSet(s: State, f: seq<string>, k: Keys, fixed: bool, ch: char)
    requires Shaped(s) && WellShaped(k) && |f| >= 6 && ch in "KQkq"
    requires FenFields(s, f, k, fixed).1 == Done
    ensures var r := FenFields(s, f, k, fixed).0;
            var s3 := s.(board := r.board, occ := r.occ, side := r.side, castling := r.castling);
            (r.side == White <==> f[1] == "w") &&
            (r.castling & LetterBit(ch) != 0 <==> ch in f[2]) && r.castling < 16 &&
            FenFields(s, f, k, fixed) == FenCounters(s3, f, k)
  {
    CastleBitsLetters(0, f[2], ch);
  }

  /**
   * An accepted text sets the side from 'w' or 'b', the castling bit of
   * each of K, Q, k, q exactly when the letter occurs, the en-passant
   * square on rank 3 or 6 (none for '-'), both counters, and the hash of
   * the new position.
   */
  lemma FenFieldsSet(s: State, fen: string, k: Keys, fixed: bool, ch: char)
    requires Shaped(s) && WellShaped(k) && ch in "KQkq"
    requires FenSpec(s, fen, k, fixed).1 == Done
    ensures var f := Tokens(fen);
            var r := FenSpec(s, fen, k, fixed).0;
            |f| >= 6 &&
            (r.side == White <==> f[1] == "w") &&
            (r.castling & LetterBit(ch) != 0 <==> ch in f[2]) && r.castling < 16 &&
            (r.ep.None? <==> f[3] == "-") &&
            (r.ep.Some? ==> |f[3]| == 2 && r.ep.value / 8 in {2, 5} &&
                            r.ep.value == (f[3][1] as int - '1' as int) * 8 + (f[3][0] as int - 'a' as int)) &&
            Some(r.halfmove as nat) == ParseUnsigned(f[4], U16_MAX) &&
            Some(r.fullmove as nat) == ParseUnsigned(f[5], U16_MAX) &&
            r.zobrist == Hash(k, r.board.pieces, r.side, r.castling as nat, r.ep)
  {
    var f := Tokens(fen);
    assert FenSpec(s, fen, k, fixed) == FenFields(s, f, k, fixed);
    FieldsSet(s, f, k, fixed, ch);
    var r := FenFields(s, f, k, fixed).0;
    CountersSet(s.(board := r.board, occ := r.occ, side := r.side, castling := r.castling), f, k);
  }

  /** The last stage on error: only the en-passant square and the halfmove counter may have been written. */
  lemma CountersErrors(s: State, f: seq<string>, k: Keys)
    requires Shaped(s) && WellShaped(k) && |f| >= 6
    requires FenCounters(s, f, k).1 != Done
    ensures var r := FenCounters(s, f, k).0;
            r == s.(ep := r.ep, halfmove := r.halfmove)
  {
  }

  /** The first stages on error: the bitboards are those of the rows read; hash and fullmove are untouched. */
  lemma FieldsErrors(s: State, f: seq<string>, k: Keys, fixed: bool)
    requires Shaped(s) && WellShaped(k) && |f| >= 6
    requires FenFields(s, f, k, fixed).1 != Done
    ensures var r := FenFields(s, f, k, fixed).0;
            r.zobrist == s.zobrist && r.fullmove == s.fullmove &&
            r.board == PlaceRows(Cleared(s.board), SplitOn(f[0], '/'), 0, fixed).0
  {
    var (placed, ok) := PlaceRows(Cleared(s.board), SplitOn(f[0], '/'), 0, fixed);
    if ok && (f[1] == "w" || f[1] == "b") && CastleBits(0, f[2]).1 {
      var s3 := s.(board := placed, occ := OccupancyOf(placed.pieces),
                   side := if f[1] == "w" then White else Black, castling := CastleBits(0, f[2]).0);
      CountersErrors(s3, f, k);
    }
  }

  /**
   * A rejected text leaves the hash and the fullmove counter as they were;
   * with fewer than six fields nothing changes; otherwise the bitboards are
   * already overwritten by the rows read before the error.
   */
  lemma FenErrors(s: State, fen: string, k: Keys, fixed: bool)
    requires Shaped(s) && WellShaped(k)
    requires FenSpec(s, fen, k, fixed).1 != Done
    ensures var r := FenSpec(s, fen, k, fixed).0;
            r.zobrist == s.zobrist && r.fullmove == s.fullmove &&
            (|Tokens(fen)| < 6 ==> FenSpec(s, fen, k, fixed) == (s, Failed(MissingField(|Tokens(fen)|)))) &&
            (|Tokens(fen)| >= 6 ==> r.board == PlaceRows(Cleared(s.board), SplitOn(Tokens(fen)[0], '/'), 0, fixed).0)
  {
    var f := Tokens(fen);
    if |f| >= 6 {
      assert FenSpec(s, fen, k, fixed) == FenFields(s, f, k, fixed);
      FieldsErrors(s, f, k, fixed);
    }
  }

  // ---------------------------------------------------------------------
  // Which error each malformed text gets

  /** Fewer than six whitespace fields: the error names the first missing one and nothing is written. */
  lemma FenTooFewFields(s: State, fen: string, k: Keys, fixed: bool)
    requires Shaped(s) && WellShaped(k) && |Tokens(fen)| < 6
    ensures FenSpec(s, fen, k, fixed).0 == s
    ensures FenSpec(s, fen, k, fixed).1 == Failed(MissingField(|Tokens(fen)|))
  {
  }

  /**
   * A character other than a digit or piece letter in one of the first eight
   * rows: "invalid piece char", with the occupancy left cleared.
   */
  lemma FenBadPiece(s: State, fen: string, k: Keys, fixed: bool)
    requires Shaped(s) && WellShaped(k) && |Tokens(fen)| >= 6
    requires !RowsText(Tokens(fen)[0])
    ensures FenSpec(s, fen, k, fixed).1 == Failed("invalid piece char")
    ensures FenSpec(s, fen, k, fixed).0.occ == Occupancy({}, {}, {})
  {
    var f := Tokens(fen);
    assert FenSpec(s, fen, k, fixed) == FenFields(s, f, k, fixed);
    PlaceRowsOk(Cleared(s.board), SplitOn(f[0], '/'), 0, fixed);
  }

  /** Good rows, then a side other than "w" or "b": "invalid side char". */
  lemma FenBadSide(s: State, fen: string, k: Keys, fixed: bool)
    requires Shaped(s) && WellShaped(k) && |Tokens(fen)| >= 6
    requires RowsText(Tokens(fen)[0]) && !SideText(Tokens(fen)[1])
    ensures FenSpec(s, fen, k, fixed).1 == Failed("invalid side char")
  {
    var f := Tokens(fen);
    assert FenSpec(s, fen, k, fixed) == FenFields(s, f, k, fixed);
    PlaceRowsOk(Cleared(s.board), SplitOn(f[0], '/'), 0, fixed);
  }

  /** Good rows and side, then a castling character outside K, Q, k, q and '-': "invalid castle char". */
  lemma FenBadCastle(s: State, fen: string, k: Keys, fixed: bool)
    requires Shaped(s) && WellShaped(k) && |Tokens(fen)| >= 6
    requires RowsText(Tokens(fen)[0]) && SideText(Tokens(fen)[1]) && !CastleText(Tokens(fen)[2])
    ensures FenSpec(s, fen, k, fixed).1 == Failed("invalid castle char")
  {
    var f := Tokens(fen);
    assert FenSpec(s, fen, k, fixed) == FenFields(s, f, k, fixed);
    PlaceRowsOk(Cleared(s.board), SplitOn(f[0], '/'), 0, fixed);
    CastleBitsOk(0, f[2]);
  }

  /**
   * Good rows, side and castling, then a bad en-passant field: one of the
   * three en-passant errors, or a panic; a two-byte, two-character field
   * gets "invalid ep file" or, with a good file, "invalid ep rank".
   */
  lemma FenBadEp(s: State, fen: string, k: Keys, fixed: bool)
    requires Shaped(s) && WellShaped(k) && |Tokens(fen)| >= 6
    requires RowsText(Tokens(fen)[0]) && SideText(Tokens(fen)[1]) && CastleText(Tokens(fen)[2])
    requires !EpText(Tokens(fen)[3])
    ensures FenSpec(s, fen, k, fixed).1 in
            {Failed("invalid ep string"), Failed("invalid ep file"), Failed("invalid ep rank"), Panic}
    ensures var t := Tokens(fen)[3];
            |t| == 2 && Utf8Len(t) == 2 ==>
              FenSpec(s, fen, k, fixed).1 == if 'a' <= t[0] <= 'h' then Failed("invalid ep rank") else Failed("invalid ep file")
  {
    var f := Tokens(fen);
    FenEarlyFieldsOk(s, fen, k, fixed);
    EpErrors(f[3]);
  }

  /** The en-passant errors of one field. */
  lemma EpErrors(t: string)
    requires !EpText(t)
    ensures EpField(t).Err?
    ensures EpField(t).error in
            {Failed("invalid ep string"), Failed("invalid ep file"), Failed("invalid ep rank"), Panic}
    ensures |t| == 2 && Utf8Len(t) == 2 ==>
              EpField(t).error == if 'a' <= t[0] <= 'h' then Failed("invalid ep rank") else Failed("invalid ep file")
  {
    if t != "-" && Utf8Len(t) == 2 && |t| >= 2 && 'a' <= t[0] <= 'h' {
      assert |t| == 2 by { Utf8AtLeast(t); }
    }
  }

  /** Good first four fields, then a halfmove count that is not a u16: "invalid halfmove". */
  lemma FenBadHalfmove(s: State, fen: string, k: Keys, fixed: bool)
    requires Shaped(s) && WellShaped(k) && |Tokens(fen)| >= 6
    requires RowsText(Tokens(fen)[0]) && SideText(Tokens(fen)[1]) && CastleText(Tokens(fen)[2])
    requires EpText(Tokens(fen)[3]) && ParseUnsigned(Tokens(fen)[4], U16_MAX).None?
    ensures FenSpec(s, fen, k, fixed).1 == Failed("invalid halfmove")
  {
    var f := Tokens(fen);
    FenEarlyFieldsOk(s, fen, k, fixed);
    EpFieldOk(f[3]);
  }

  /** Good first five fields, then a fullmove count that is not a u16: "invalid fullmove". */
  lemma FenBadFullmove(s: State, fen: string, k: Keys, fixed: bool)
    requires Shaped(s) && WellShaped(k) && |Tokens(fen)| >= 6
    requires RowsText(Tokens(fen)[0]) && SideText(Tokens(fen)[1]) && CastleText(Tokens(fen)[2])
    requires EpText(Tokens(fen)[3]) && ParseUnsigned(Tokens(fen)[4], U16_MAX).Some?
    requires ParseUnsigned(Tokens(fen)[5], U16_MAX).None?
    ensures FenSpec(s, fen, k, fixed).1 == Failed("invalid fullmove")
  {
    var f := Tokens(fen);
    FenEarlyFieldsOk(s, fen, k, fixed);
    EpFieldOk(f[3]);
  }

  /** Good rows, side and castling: set_from_fen goes on to the counters stage. */
  lemma FenEarlyFieldsOk(s: State, fen: string, k: Keys, fixed: bool)
    requires Shaped(s) && WellShaped(k) && |Tokens(fen)| >= 6
    requires RowsText(Tokens(fen)[0]) && SideText(Tokens(fen)[1]) && CastleText(Tokens(fen)[2])
    ensures var f := Tokens(fen);
            var placed := PlaceRows(Cleared(s.board), SplitOn(f[0], '/'), 0, fixed).0;
            FenSpec(s, fen, k, fixed) ==
              FenCounters(s.(board := placed, occ := OccupancyOf(placed.pieces),
                             side := if f[1] == "w" then White else Black, castling := CastleBits(0, f[2]).0), f, k)
  {
    var f := Tokens(fen);
    assert FenSpec(s, fen, k, fixed) == FenFields(s, f, k, fixed);
    PlaceRowsOk(Cleared(s.board), SplitOn(f[0], '/'), 0, fixed);
    CastleBitsOk(0, f[2]);
  }
}
