// Zobrist hashing: 64-bit keys generated by SplitMix64 from their table
// index, tables filled once behind an "initialized" flag, and the full hash
// of a position as the XOR of the keys of everything on it.

module Zobrist {
  import opened Common
  import opened Words
  import opened Bits
  import opened Pieces

  /** split_mix64, with 64-bit wrapping add and multiply. */
  function SplitMix64(x: bv64): bv64 {
    var z0 := x + 0x9e37_79b9_7f4a_7c15;
    var z1 := (z0 ^ (z0 >> 30)) * 0xbf58_476d_1ce4_e5b9;
    var z2 := (z1 ^ (z1 >> 27)) * 0x94d0_49bb_1331_11eb;
    z2 ^ (z2 >> 31)
  }

  /** ZOB_PIECE[i][j] */
  function PieceKey(i: nat, j: nat): U64
    requires i < 12 && j < 64
  {
    ToWord(SplitMix64((i * 0xad3 + j * 0x47a1) as bv64))
  }

  /** ZOB_SIDE */
  function SideKey(): U64 {
    ToWord(SplitMix64(0xdead_beef_dead_beef))
  }

  /** ZOB_CASTLING[i] */
  function CastlingKey(i: nat): U64
    requires i < 16
  {
    ToWord(SplitMix64((i * 0x1234_abcd) as bv64))
  }

  /** ZOB_EP_FILE[i] */
  function EpFileKey(i: nat): U64
    requires i < 8
  {
    ToWord(SplitMix64((i * 0x3333_5555) as bv64))
  }

  /** The contents of the key tables. */
  datatype Keys = Keys(piece: seq<seq<U64>>, side: U64, castling: seq<U64>, epFile: seq<U64>)

  predicate WellShaped(k: Keys) {
    |k.piece| == 12 && (forall i | 0 <= i < 12 :: |k.piece[i]| == 64) &&
    |k.castling| == 16 && |k.epFile| == 8
  }

  /** The keys init_zobrist writes: every entry a fixed function of its index. */
  function SourceKeys(): (k: Keys)
    ensures WellShaped(k)
  {
    Keys(seq(12, i requires 0 <= i < 12 => seq(64, j requires 0 <= j < 64 => PieceKey(i, j))),
         SideKey(),
         seq(16, i requires 0 <= i < 16 => CastlingKey(i)),
         seq(8, i requires 0 <= i < 8 => EpFileKey(i)))
  }

  /** The global key tables and their initialisation flag. */
  class Tables {
    var piece: seq<seq<U64>>
    var side: U64
    var castling: seq<U64>
    var epFile: seq<U64>
    var initialized: bool

    /** What the tables hold now. */
    function Current(): Keys
      reads this
    {
      Keys(piece, side, castling, epFile)
    }

    /** The tables have their sizes, and hold the generated keys once the flag is set. */
    predicate Valid()
      reads this
    {
      WellShaped(Current()) && (initialized ==> Current() == SourceKeys())
    }

    /** The zero-filled statics before init_zobrist runs. */
    constructor ()
      ensures Valid() && !initialized
      ensures Current() == Keys(seq(12, _ => seq(64, _ => 0)), 0, seq(16, _ => 0), seq(8, _ => 0))
    {
      piece := seq(12, _ => seq(64, _ => 0));
      side := 0;
      castling := seq(16, _ => 0);
      epFile := seq(8, _ => 0);
      initialized := false;
    }

    /** init_zobrist: fills every table the first time, and changes nothing afterwards. */
    method Init()
      requires Valid()
      modifies this
      ensures Valid() && initialized && Current() == SourceKeys()
      ensures old(initialized) ==> Current() == old(Current())
    {
      if initialized {
        return;
      }
      var k := SourceKeys();
      piece := k.piece;
      side := k.side;
      castling := k.castling;
      epFile := k.epFile;
      initialized := true;
    }
  }

  // ---------------------------------------------------------------------
  // The full hash

  /** XOR of ZOB_PIECE[i][sq] over the squares of bb, lowest square first. */
  function XorSquares(k: Keys, i: nat, bb: Bitboard): nat
    requires WellShaped(k) && i < 12
    decreases |bb|
  {
    match Lsb(bb)
    case None => 0
    case Some(s) => Xor(XorSquares(k, i, bb - {s}), k.piece[i][s])
  }

  /** The piece part of the hash for the kinds below n, White then Black for each kind. */
  function XorKinds(k: Keys, pieces: seq<Bitboard>, n: nat): nat
    requires WellShaped(k) && |pieces| == 12 && n <= 6
  {
    if n == 0 then 0
    else
      var kind := KindOf(n - 1);
      var w := PieceIndex(kind, White);
      var b := PieceIndex(kind, Black);
      Xor(Xor(XorKinds(k, pieces, n - 1), XorSquares(k, w, pieces[w])), XorSquares(k, b, pieces[b]))
  }

  /** ZOB_SIDE when Black is to move, nothing otherwise. */
  function SideTerm(k: Keys, side: Color): nat {
    if side == Black then k.side else 0
  }

  /** The key of the en-passant file, when there is an en-passant square. */
  function EpTerm(k: Keys, ep: Option<nat>): nat
    requires WellShaped(k)
  {
    if ep.Some? then k.epFile[ep.value % 8] else 0
  }

  /**
   * The hash recalc_zobrist_full computes: the pieces' keys, then the side
   * key iff Black is to move, the castling key always, and the en-passant
   * file key iff there is an en-passant square.
   */
  function Hash(k: Keys, pieces: seq<Bitboard>, side: Color, castling: nat, ep: Option<nat>): nat
    requires WellShaped(k) && |pieces| == 12 && castling < 16
  {
    Xor(Xor(Xor(XorKinds(k, pieces, 6), SideTerm(k, side)), k.castling[castling]), EpTerm(k, ep))
  }

  /** The inner loop of recalc_zobrist_full: XOR in the key of every square of bb, popping the lowest bit each time. */
  method XorBitboard(k: Keys, i: nat, bb: Bitboard, h0: nat) returns (h: nat)
    requires WellShaped(k) && i < 12
    ensures h == Xor(h0, XorSquares(k, i, bb))
  {
    h := h0;
    var rest := bb;
    var r: Option<Square>;
    r, rest := PopLsb(rest);
    ghost var done: Bitboard := {};
    XorSelf(XorSquares(k, i, bb));
    XorZero(h0);
    while r.Some?
      invariant r.Some? ==> rest == bb - done - {r.value} && r.value in bb && r.value !in done
      invariant r.Some? ==> Lsb(bb - done) == r
      invariant r.None? ==> done == bb
      invariant done <= bb
      invariant h == Xor(h0, XorPopped(k, i, bb, done))
      decreases |rest| + (if r.Some? then 1 else 0)
    {
      var s := r.value;
      XorPoppedStep(k, i, bb, done, s);
      XorAssoc(h0, XorPopped(k, i, bb, done), k.piece[i][s]);
      h := Xor(h, k.piece[i][s]);
      done := done + {s};
      assert rest == bb - done;
      r, rest := PopLsb(rest);
    }
    XorPoppedAll(k, i, bb);
  }

  /**
   * The XOR of the keys of the squares popped so far: those of bb that are
   * in done, which is always a lowest-first prefix of bb.
   */
  function XorPopped(k: Keys, i: nat, bb: Bitboard, done: Bitboard): nat
    requires WellShaped(k) && i < 12 && done <= bb
  {
    Xor(XorSquares(k, i, bb), XorSquares(k, i, bb - done))
  }

  /** recalc_zobrist_full, which first runs init_zobrist when the tables are not yet filled. */
  method RecalcZobristFull(t: Tables, pieces: seq<Bitboard>, side: Color, castling: nat, ep: Option<nat>)
    returns (h: nat)
    requires t.Valid() && |pieces| == 12 && castling < 16
    modifies t
    ensures t.Valid() && t.initialized && t.Current() == SourceKeys()
    ensures old(t.initialized) ==> t.Current() == old(t.Current())
    ensures h == Hash(SourceKeys(), pieces, side, castling, ep)
  {
    if !t.initialized {
      t.Init();
    }
    var k := t.Current();
    h := RecalcWith(k, pieces, side, castling, ep);
  }

  /** The body of recalc_zobrist_full once the tables are filled, over their contents k. */
  method RecalcWith(k: Keys, pieces: seq<Bitboard>, side: Color, castling: nat, ep: Option<nat>)
    returns (h: nat)
    requires WellShaped(k) && |pieces| == 12 && castling < 16
    ensures h == Hash(k, pieces, side, castling, ep)
  {
    h := 0;
    for n := 0 to 6
      invariant h == XorKinds(k, pieces, n)
    {
      var kind := KindOf(n);
      var w := PieceIndex(kind, White);
      var b := PieceIndex(kind, Black);
      h := XorBitboard(k, w, pieces[w], h);
      h := XorBitboard(k, b, pieces[b], h);
    }
    if side == Black {
      h := Xor(h, k.side);
    } else {
      XorZero(h);
    }
    h := Xor(h, k.castling[castling]);
    if ep.Some? {
      h := Xor(h, k.epFile[ep.value % 8]);
    } else {
      XorZero(h);
    }
  }

  // ---------------------------------------------------------------------
  // Properties

  lemma XorPoppedStep(k: Keys, i: nat, bb: Bitboard, done: Bitboard, s: Square)
    requires WellShaped(k) && i < 12 && done <= bb && s in bb && s !in done
    requires Lsb(bb - done) == Some(s)
    ensures XorPopped(k, i, bb, done + {s}) == Xor(XorPopped(k, i, bb, done), k.piece[i][s])
  {
    var all := XorSquares(k, i, bb);
    var left := bb - done;
    assert left - {s} == bb - (done + {s});
    var after := XorSquares(k, i, left - {s});
    assert XorSquares(k, i, left) == Xor(after, k.piece[i][s]);
    // all ^ after == (all ^ (after ^ key)) ^ key
    XorAssoc(all, after, k.piece[i][s]);
    XorCancel(Xor(all, after), k.piece[i][s]);
    XorAssoc(Xor(all, after), k.piece[i][s], k.piece[i][s]);
    XorAssoc(all, Xor(after, k.piece[i][s]), k.piece[i][s]);
  }

  lemma XorPoppedAll(k: Keys, i: nat, bb: Bitboard)
    requires WellShaped(k) && i < 12
    ensures XorPopped(k, i, bb, bb) == XorSquares(k, i, bb)
  {
    assert bb - bb == {};
    XorZero(XorSquares(k, i, bb));
  }

  /**
   * The piece hash does not depend on the order bits are visited: taking
   * any square out first gives the same value as taking the lowest.
   */
  lemma {:induction false} XorSquaresAnyOrder(k: Keys, i: nat, bb: Bitboard, x: Square)
    requires WellShaped(k) && i < 12 && x in bb
    ensures XorSquares(k, i, bb) == Xor(XorSquares(k, i, bb - {x}), k.piece[i][x])
    decreases |bb|
  {
    var m := Lsb(bb).value;
    if m != x {
      var rest := bb - {m};
      XorSquaresAnyOrder(k, i, rest, x);
      LsbIs(bb - {x}, m);
      assert bb - {x} - {m} == rest - {x};
      var r := XorSquares(k, i, rest - {x});
      // (r ^ kx) ^ km == (r ^ km) ^ kx
      XorAssoc(r, k.piece[i][x], k.piece[i][m]);
      XorComm(k.piece[i][x], k.piece[i][m]);
      XorAssoc(r, k.piece[i][m], k.piece[i][x]);
    }
  }

  /** Adding a square to a bitboard XORs its key into the piece hash. */
  lemma XorSquaresAdd(k: Keys, i: nat, bb: Bitboard, x: Square)
    requires WellShaped(k) && i < 12 && x !in bb
    ensures XorSquares(k, i, bb + {x}) == Xor(XorSquares(k, i, bb), k.piece[i][x])
  {
    XorSquaresAnyOrder(k, i, bb + {x}, x);
    assert bb + {x} - {x} == bb;
  }

  /** Two positions that differ only in the side to move have hashes that differ by exactly ZOB_SIDE. */
  lemma SideToggle(k: Keys, pieces: seq<Bitboard>, castling: nat, ep: Option<nat>)
    requires WellShaped(k) && |pieces| == 12 && castling < 16
    ensures Hash(k, pieces, Black, castling, ep) == Xor(Hash(k, pieces, White, castling, ep), k.side)
  {
    var p := XorKinds(k, pieces, 6);
    var c := k.castling[castling];
    var e := EpTerm(k, ep);
    XorZero(p);
    // ((p ^ s) ^ c) ^ e == (((p ^ c) ^ e) ^ s)
    MoveLast(p, k.side, c, e);
  }

  /** ((p ^ s) ^ c) ^ e == ((p ^ c) ^ e) ^ s */
  lemma MoveLast(p: nat, s: nat, c: nat, e: nat)
    ensures Xor(Xor(Xor(p, s), c), e) == Xor(Xor(Xor(p, c), e), s)
  {
    XorAssoc(p, s, c);
    XorComm(s, c);
    XorAssoc(p, c, s);
    XorAssoc(Xor(p, c), s, e);
    XorComm(s, e);
    XorAssoc(Xor(p, c), e, s);
  }
}
