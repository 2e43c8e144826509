# Scacchista, modelled in Dafny

Scacchista is a UCI chess engine written in Rust. This project models its core
and proves properties of the model:

- **Bitboards and moves** (`pieces`, `bits`, `moves`, `rays`): piece indices, the
  bit utilities (lowest set bit, pop, iteration), the knight and king attack
  tables, and the 32-bit move encoding with its flags.
- **Board** (`placement`, `position`, `attacks`, `fen`, `fen_orientation`, `board`):
  the twelve piece bitboards, `make_move` and `unmake_move`, the castling-rights
  update, `is_square_attacked`, the legal-move filter of `generate_moves`, and
  `set_from_fen` with every error it reports. `Chessboard.Board` is a class whose
  methods update its fields in place. Each method is proved against a function
  of the old state.
- **Sliding pieces** (`magic`, `magic_lookup`): the rook and bishop relevance
  masks, the slow ray attacks, the table sizes and offsets, the magic index,
  and subset enumeration.
- **Hashing** (`words`, `zobrist`, `tt`): the Zobrist key tables and the full
  hash recomputation; the transposition table's 64-bit entry packing, its probe
  with age checks, and its replacement policy.
- **Evaluation** (`eval`): material, piece-square tables, king safety, the pawn
  shield, the development penalty, centre control, `evaluate`,
  `evaluate_fast` and `evaluate_lazy`, all with i16 wrap-around.
- **Search** (`search`, `params`, `time`): negamax with the transposition table,
  the root loop `iddfs`, iterative deepening, the search parameters and their
  builders, and the time allocation.
- **UCI** (`text`, `uci_parser`, `uci_options`, `uci_loop`): command parsing, the
  engine's option settings, and the command loop's state machine.
- **Tactical harness** (`harness`): `tools/tactical_test.py`, which loads EPD
  positions, sends the engine a fixed command script, reads its `bestmove`, and
  scores a suite.

Where the code has a defect, the model carries both forms. A `fixed` flag, or a
pair of members, selects the code as written or the evidently intended
behaviour; "## Findings" lists them. The engine-level board members
(`Chessboard.Board.IsSquareAttacked`, `UnmakeMove`, `KingSafeAfterMove`,
`GenerateMoves`, `UpdateCastlingAfterMove`, and `SetFromFen` through
`FenSpec(..., true)`) are the
corrected program. The as-written forms sit beside them at the function
level, with the lemmas that exhibit each difference.

## Model

| member | source | states |
|---|---|---|
| `Pieces.PieceIndex` | src/board.rs:21-24 | piece_index: colour * 6 + kind, always below 12 |
| `Pieces.PieceIndexInjective` | src/board.rs:21-24 | distinct (kind, colour) pairs get distinct bitboard indices |
| `Words.WrapI16` | src/eval.rs:340 | `as i16` and release-build i16 arithmetic: the two's-complement wrap of an integer into -32768..32767 |
| `Words.XorCancel` | src/zobrist.rs:58-61 | XOR-ing the same key in twice cancels, so an incremental hash update can be undone |
| `Moves.MoveFrom` | src/board.rs:42 | move_from_sq is a square below 64 |
| `Moves.MoveTo` | src/board.rs:43 | move_to_sq is a square below 64 |
| `Moves.KindFromCode` | src/board.rs:44-52 | a nibble 0..5 decodes to the kind whose discriminant it is |
| `Moves.PackFields` | src/board.rs:81-92 | each field of the packed word reads back from its own bit range |
| `Moves.CodecRoundTrip` | src/board.rs:42-92 | new_move followed by move_from_sq, move_to_sq, move_piece, move_captured and move_promotion gives back every field; None reads back as None |
| `Moves.FlagsRoundTrip` | src/board.rs:35-40 | move_flag sees each of the five flags exactly when new_move was given it |
| `Bits.Full` | src/utils.rs:4-24 | the all-ones bitboard holds every square |
| `Bits.FileMask` | src/utils.rs:4-11 | FILE_A .. FILE_H hold exactly the squares of their file |
| `Bits.RankMask` | src/utils.rs:17-24 | RANK_k holds exactly squares 8(k-1) .. 8k-1 |
| `Bits.NotFileA` | src/utils.rs:13 | NOT_FILE_A holds exactly the squares off file A |
| `Bits.NotFileH` | src/utils.rs:14 | NOT_FILE_H holds exactly the squares off file H |
| `Bits.Lsb` | src/utils.rs:47-53 | lsb_index is None exactly for the empty board, otherwise the smallest square on it |
| `Bits.CountBits` | src/utils.rs:55-57 | count_bits is at most 64 |
| `Bits.PopLsb` | src/utils.rs:38-45 | pop_lsb returns the lowest square and leaves the board without it; None and no change on the empty board |
| `Bits.BitIter.constructor` | src/utils.rs:69-71 | iter_bits starts with the whole bitboard |
| `Bits.BitIter.Next` | src/utils.rs:64-66 | next yields the lowest remaining square and removes it; the rest of the iteration is unchanged |
| `Bits.IterBits` | src/utils.rs:59-71 | draining iter_bits yields Enumerate(bb) |
| `Bits.EnumerateSpec` | src/utils.rs:59-71 | iterating a bitboard yields each set square once, in increasing order, count_bits(bb) of them |
| `Bits.Target` | src/utils.rs:96-103 | one step from a square: the square at that file and rank difference if it is on the board, nothing otherwise |
| `Bits.AttackMask` | src/utils.rs:92-105 | the mask one table entry gets is the union of the targets of the steps |
| `Bits.InitKnightAttacks` | src/utils.rs:79-108 | entry sq of the knight table is the set of squares a knight's move from sq |
| `Bits.InitKingAttacks` | src/utils.rs:110-140 | entry sq of the king table is the set of squares a king's move from sq |
| `Bits.TargetsMembers` | src/utils.rs:96-103 | a square is in the mask exactly when some step reaches it |
| `Bits.KnightOffsetsAreSteps` | src/utils.rs:80-89 | KNIGHT_OFFSETS are exactly the eight (file, rank) differences of 1 and 2 or 2 and 1 |
| `Bits.KingOffsetsAreSteps` | src/utils.rs:111-120 | KING_OFFSETS are exactly the eight nonzero differences of at most 1 in file and rank |
| `Bits.KnightTargets` | src/utils.rs:79-108 | the knight steps reach exactly the knight's-move squares |
| `Bits.KingTargets` | src/utils.rs:110-140 | the king steps reach exactly the king's-move squares |
| `Bits.KingAttacksAtMostEight` | src/utils.rs:110-140 | a king attacks at most eight squares |
| `Bits.KnightAttacksSymmetric` | src/utils.rs:79-108 | the knight relation is symmetric and covers at most eight squares |
| `Bits.LsbIs` | src/utils.rs:47-53 | the smallest square of a bitboard is what lsb_index returns |
| `Zobrist.SourceKeys` | src/zobrist.rs:17-38 | the keys init_zobrist writes have the table shapes 12 x 64, 16 and 8 |
| `Zobrist.Tables.constructor` | src/zobrist.rs:5-9 | the statics start zero-filled and not initialized |
| `Zobrist.Tables.Init` | src/zobrist.rs:17-38 | init_zobrist fills every table with its split_mix64 keys the first time and changes nothing on later calls |
| `Zobrist.XorBitboard` | src/zobrist.rs:58-61 | the pop_lsb loop XORs in the key of every square of the bitboard |
| `Zobrist.RecalcZobristFull` | src/zobrist.rs:42-75 | recalc_zobrist_full initializes the tables if needed and returns the XOR of piece, side, castling and en-passant keys |
| `Zobrist.RecalcWith` | src/zobrist.rs:45-74 | the body of recalc_zobrist_full over filled tables computes Hash |
| `Zobrist.XorPoppedAll` | src/zobrist.rs:58-61 | popping every square XORs in the same keys as the square set |
| `Zobrist.XorSquaresAnyOrder` | src/zobrist.rs:58-61 | the piece hash does not depend on the order the squares are popped |
| `Zobrist.XorSquaresAdd` | src/zobrist.rs:58-61 | adding a square to a bitboard XORs its key into the hash |
| `Zobrist.SideToggle` | src/zobrist.rs:65 | positions that differ only in the side to move have hashes that differ by ZOB_SIDE |
| `TimeManager.ClockAllocation` | src/time/mod.rs:9-33 | movetime wins; otherwise max(own clock / 40, 10) when the mover's clock is given; otherwise msec_per_move |
| `TimeManager.OpponentClockIgnored` | src/time/mod.rs:21-28 | the opponent's clock never changes the allocation |
| `TimeManager.ClockBudgetWithinClock` | src/time/mod.rs:21-24 | with at least 10 ms on the clock the allocation never exceeds it |
| `Params.DefaultParams` | src/search/params.rs:49-75 | SearchParams::default and new: depth 8, 5000 ms, no node limit, window 50, all pruning on with its constants |
| `Params.WithMaxDepth` | src/search/params.rs:78-82 | sets max_depth and leaves every other field alone |
| `Params.WithTimeLimit` | src/search/params.rs:84-88 | sets time_limit_ms and leaves every other field alone |
| `Params.WithAspirationWindow` | src/search/params.rs:90-94 | sets aspiration_window and leaves every other field alone |
| `Params.WithNodeLimit` | src/search/params.rs:96-100 | sets node_limit and leaves every other field alone |
| `Params.WithNullMovePruning` | src/search/params.rs:102-106 | sets enable_null_move_pruning and leaves every other field alone |
| `Params.WithNullMoveMinDepth` | src/search/params.rs:108-112 | sets null_move_min_depth and leaves every other field alone |
| `Params.WithLmr` | src/search/params.rs:114-118 | sets enable_lmr and leaves every other field alone |
| `Params.WithLmrMinDepth` | src/search/params.rs:120-124 | sets lmr_min_depth and leaves every other field alone |
| `Params.WithLmrBaseReduction` | src/search/params.rs:126-130 | sets lmr_base_reduction and leaves every other field alone |
| `Params.WithFutilityPruning` | src/search/params.rs:132-136 | sets enable_futility_pruning and leaves every other field alone |
| `Params.WithFutilityMargin` | src/search/params.rs:138-142 | sets futility_margin and leaves every other field alone |
| `Params.WithFutilityMinDepth` | src/search/params.rs:144-148 | sets futility_min_depth and leaves every other field alone |
| `Params.WithKillerMovesCount` | src/search/params.rs:150-154 | sets killer_moves_count and leaves every other field alone |
| `Params.WithQsearchDepth` | src/search/params.rs:156-160 | sets qsearch_depth and leaves every other field alone |
| `Params.BuildersCompose` | src/search/params.rs:78-160 | builders on different fields commute; on the same field the last call wins |
| `Params.NewTimeManagement` | src/search/params.rs:173-181 | TimeManagement::new: no clock, 40 moves, 40 to go, no increment, 5000 ms a move |
| `Params.AllocateTime` | src/search/params.rs:184-193 | per-move default without a clock; None (the division panic) when moves_to_go_left is 0; otherwise capped both by 120% of the share and by max(per-move, 2 x increment) |
| `Params.AllocateTimeExact` | src/search/params.rs:184-193 | without overflow the budget is exactly min(share * 120 / 100, max(per-move, 2 x increment)) |
| `Params.FreshAllocation` | src/search/params.rs:173-193 | a fresh TimeManagement with a clock of t ms gives min(t / 40 * 120 / 100, 5000) |
| `Tt.EmptyEntry` | src/search/tt.rs:26-39 | TTEntry::empty is an entry is_empty reports as empty (key 0) |
| `Tt.AndLowMask` | src/search/tt.rs:143 | for a power-of-two table, key & mask is key modulo the table length |
| `Tt.ScoreBits` | src/search/tt.rs:65 | `score as u16` is a 16-bit pattern |
| `Tt.PackRoundTrip` | src/search/tt.rs:63-99 | unpack(k, pack(e)) gives back k, the score, node type and age, the depth modulo 64 and the move modulo 2^16; the stored key bits are the key's low 16 |
| `Tt.PackLowFields` | src/search/tt.rs:63-73 | the node type, age and depth sit in bits 0-1, 2-9 and 10-15 |
| `Tt.PackHighFields` | src/search/tt.rs:63-73 | the move, score and key bits sit in bits 16-31, 32-47 and 48-63 |
| `Tt.Bound` | src/search/tt.rs:102-108 | Exact gives (score, score), LowerBound (score, i16::MAX), UpperBound (i16::MIN, score); the window always holds the score |
| `Tt.Requested` | src/search/tt.rs:121-126 | size_mb MiB of 8-byte slots, or 1024 when that is zero |
| `Tt.NextPow2From` | src/search/tt.rs:127 | next_power_of_two: the least power of two at or above n |
| `Tt.SlotCount` | src/search/tt.rs:120-129 | the table has a power-of-two length of at least 1024 and at least the requested slots, and is the least such power above 1024 |
| `Tt.Table.Slot` | src/search/tt.rs:143 | the slot of a key is the key modulo the table length |
| `Tt.Table.constructor` | src/search/tt.rs:120-139 | new(size_mb): SlotCount(size_mb) slots, all zero, and age 0 |
| `Tt.Table.Probe` | src/search/tt.rs:142-168 | probe hits exactly when the slot is non-zero, its key bits match and the entry is fewer than 8 searches old (wrapping); a hit returns the unpacked entry |
| `Tt.Table.Store` | src/search/tt.rs:171-191 | store changes only the key's slot, which takes the packed new entry exactly when the replacement policy allows |
| `Tt.Table.NewSearch` | src/search/tt.rs:194-196 | new_search advances the age by one, modulo 256 |
| `Tt.Table.Clear` | src/search/tt.rs:207-212 | clear zeroes every slot and the age |
| `Tt.ProbeAfterStore` | src/search/tt.rs:142-191 | a freshly stored non-zero word is found by a probe at the same age, with its kept fields |
| `Tt.AgeGapStep` | src/search/tt.rs:161 | a new search makes every entry one search older, wrapping from 255 to 0 |
| `Tt.StaleAfterEight` | src/search/tt.rs:161 | an entry is found at its own age and no longer eight searches later |
| `Tt.KeepsDeeperOrExact` | src/search/tt.rs:178-185 | a recent entry survives a shallower store, and an equal-depth store that is not Exact |
| `Tt.WraparoundScenario` | src/search/tt.rs:230-287 | the age-wraparound test: entries stored at ages 254 and 255 are found; after the age wraps to 0 a shallower bound leaves the entry, and at age 1 an Exact store replaces it |
| `Tt.DepthScenario` | src/search/tt.rs:290-331 | the depth-priority test: a depth-5 store leaves a depth-10 entry, an Exact depth-10 store replaces it, and a depth-15 bound replaces that |
| `Tt.ExactScenario` | src/search/tt.rs:334-368 | the Exact-priority test: an Exact store at equal depth replaces a bound, a bound does not replace an Exact entry |
| `Tt.BasicScenario` | src/search/tt.rs:371-386 | store then probe returns the stored fields; another key's slot stays empty |
| `Rays.Reach` | src/magic.rs:183-260 | a ray from a square has at most seven squares before it leaves the board |
| `Rays.Next` | src/magic.rs:183-260 | one step along a direction changes file and rank by the direction's deltas and shortens the reach by one |
| `Rays.RayGeometry` | src/magic.rs:183-260 | the j-th square of a ray is j + 1 steps away in both coordinates, and the ray has Reach squares |
| `Rays.RayExcludesStart` | src/magic.rs:183-260 | a ray never contains its own origin |
| `Rays.HitsFirstBlocker` | src/board.rs:461-477 | a walk finds an attacker exactly when the first occupied square of the ray holds one |
| `Rays.SlideMembers` | src/magic.rs:188-211 | the slow walk adds every ray square up to and including the first blocker, and nothing off the ray |
| `Rays.SlideExact` | src/magic.rs:188-211 | a ray square is attacked exactly when no earlier square of the ray is occupied |
| `Rays.SlideStopsAt` | src/magic.rs:191 | the walk breaks at the first occupied square |
| `Rays.SlideIsPrefix` | src/magic.rs:188-211 | the attacked squares of a ray are its prefix through the first blocker, or the whole ray |
| `Rays.SlideIgnoresEdge` | src/magic.rs:115-138 | occupancy on the edge square of a ray never changes what the ray attacks, which is why the masks exclude the edges |
| `Rays.RayDistinct` | src/magic.rs:183-260 | no square occurs twice on a ray |
| `Rays.RaysDisjoint` | src/magic.rs:183-260 | rays in different directions from one square share no square |
| `Magic.ShiftRank` | src/magic.rs:57-79 | each rank row of ROOK_SHIFTS and BISHOP_SHIFTS has eight entries |
| `Magic.InnerIffBeforeEdge` | src/magic.rs:115-176 | the mask walk continues exactly while one more square precedes the ray's edge square |
| `Magic.OnBoardIffOnRay` | src/magic.rs:183-260 | the slow walk stays on the board exactly for the ray's squares |
| `Magic.MaskRay` | src/magic.rs:121-135 | one direction of the mask walk collects the ray without its edge square |
| `Magic.RookMask` | src/magic.rs:115-138 | rook_mask is the union of the four orthogonal rays without their edge squares |
| `Magic.BishopMask` | src/magic.rs:141-176 | bishop_mask is the union of the four diagonal rays without their edge squares |
| `Magic.SlideRay` | src/magic.rs:188-193 | one direction of the slow walk collects the ray up to and including the first blocker |
| `Magic.RookAttacksSlow` | src/magic.rs:183-214 | rook_attacks_slow is the union of the four orthogonal slides |
| `Magic.BishopAttacksSlow` | src/magic.rs:217-260 | bishop_attacks_slow is the union of the four diagonal slides |
| `Magic.Shifts` | src/magic.rs:57-79 | the shift tables have 64 entries |
| `Magic.Offsets` | src/magic.rs:285-320 | the running offsets are the prefix sums of 2^(64 - shift) and end at the table total |
| `Magic.SliderOffsets` | src/magic.rs:285-320 | every square's block fits inside the table, blocks are contiguous, the first starts at 0 and the last ends at the table size |
| `Magic.MaskPopcount` | src/magic.rs:56-79 | every shift equals 64 minus the number of squares of the square's mask |
| `Magic.TableSizes` | src/magic.rs:86-89 | the blocks add up to ROOK_TABLE_SIZE 102400 and BISHOP_TABLE_SIZE 5248 |
| `Magic.RanksAgree` | src/magic.rs:57-79 | each rank of the shift tables agrees with the mask sizes of its squares |
| `Magic.RookBitsCount` | src/magic.rs:115-138 | a rook mask has as many squares as its four ray interiors together |
| `Magic.BishopBitsCount` | src/magic.rs:141-176 | a bishop mask has as many squares as its four diagonal interiors together |
| `Magic.DiagonalCounts` | src/magic.rs:141-176 | the interior lengths of the four diagonals from a square |
| `Magic.InteriorsDisjoint` | src/magic.rs:115-176 | mask parts in different directions do not overlap |
| `MagicLookup.Lookup` | src/magic.rs:342-358 | rook_attacks and bishop_attacks return the slow attacks of the occupancy |
| `MagicLookup.QueenAttacks` | src/magic.rs:362-364 | queen_attacks is the union of the rook and bishop attacks |
| `MagicLookup.MaskIndependence` | src/magic.rs:345-355 | (lines 345 and 355, `occ & entry.mask`) masking the occupancy with the relevant mask does not change the slow attacks, so the table entry for occ & mask is the right one |
| `MagicLookup.SlidesExact` | src/magic.rs:342-358 | a square on one of the piece's rays is attacked exactly when no earlier square of that ray is occupied |
| `MagicLookup.SlidesOnRays` | src/magic.rs:342-358 | every attacked square lies on one of the piece's rays and is never the origin |
| `MagicLookup.SlidesDisjoint` | src/magic.rs:183-260 | slides in different directions do not overlap |
| `MagicLookup.SlidesCard` | src/magic.rs:183-260 | the attack count is the sum of the four slide lengths |
| `MagicLookup.ClearSlide` | src/magic.rs:188-193 | an empty ray is attacked in full |
| `MagicLookup.BlockedSlide` | src/magic.rs:188-193 | a ray first blocked at index j contributes j + 1 squares |
| `MagicLookup.EmptyBoardCount` | src/magic.rs:342-358 | on an empty board the attack count is the sum of the reaches |
| `MagicLookup.RookCornerEmpty` | src/magic.rs:375-381 | a rook on a1 attacks 14 squares of an empty board |
| `MagicLookup.RookCornerBlocked` | src/magic.rs:384-392 | a rook on a1 with a blocker on a4 attacks 10 squares |
| `MagicLookup.NorthBlockedAtThird` | src/magic.rs:188-193 | a ray north whose third square is the first occupied one attacks three squares |
| `MagicLookup.BishopCenterEmpty` | src/magic.rs:395-401 | a bishop on d4 attacks 13 squares of an empty board |
| `MagicLookup.QueenCenterEmpty` | src/magic.rs:404-412 | a queen on d4 attacks 27 squares of an empty board, the rook's and bishop's together |
| `MagicLookup.RookBishopDisjoint` | src/magic.rs:362-364 | rook and bishop attacks from one square never overlap |
| `MagicLookup.MagicIndex` | src/magic.rs:346-356 | the index of lines 346 and 356, the same expression as at lines 299 and 315 of init_magic_tables: (masked.wrapping_mul(magic)) >> shift is below 2^(64 - shift), the square's block size |
| `MagicLookup.SlotInTable` | src/magic.rs:347-357 | at lines 347 and 357, and at lines 300 and 316 where init_magic_tables fills the tables, offset + index always lands inside the attack table |
| `BlockerSubsets.EnumerateSubsets` | src/magic.rs:267-276 | enumerate_subsets returns 2^popcount(mask) values, starting at 0 and ending at the mask, pairwise distinct, and a word is among them exactly when it is a subset of the mask |
| `BlockerSubsets.NextWithin` | src/magic.rs:272 | the step `subset.wrapping_sub(mask) & mask` never leaves the mask |
| `BlockerSubsets.SubtractIsAddComplement` | src/magic.rs:272 | wrapping subtraction of the mask is adding its two's complement |
| `BlockerSubsets.StepShape` | src/magic.rs:272 | from a subset, the step sets the lowest mask bit missing from it and clears the subset's bits below that one |
| `BlockerSubsets.StepAddsLow` | src/magic.rs:272 | with the mask split into its lowest bit and the rest, the step from a subset of the rest adds the lowest bit |
| `BlockerSubsets.StepPastLow` | src/magic.rs:272 | from such a subset with the lowest bit added, the step drops the lowest bit and steps in the rest of the mask |
| `BlockerSubsets.InterleaveAt` | src/magic.rs:270-274 | up to the rest's own last value, the sequence for the whole mask alternates each value of the rest's sequence without and then with the lowest bit |
| `BlockerSubsets.Doubles` | src/magic.rs:270-274 | adding one bit to a mask doubles the enumeration: twice as many values, still distinct, still every subset, ending at the mask |
| `BlockerSubsets.EnumeratesAll` | src/magic.rs:267-276 | for every mask the first 2^popcount(mask) values of the chain are distinct subsets, cover every subset, and end at the mask |
| `BlockerSubsets.StopsAtCount` | src/magic.rs:273 | the step returns to zero exactly after 2^popcount(mask) values, so the loop ends there |
| `BlockerSubsets.ChainEnumerates` | src/magic.rs:267-276 | the pushed chain starts at 0, ends at the mask, has no repeats and holds exactly the subsets of the mask |
| `Placement.NoPieces` | src/board.rs:131-147 | Board::new's twelve empty bitboards |
| `Placement.SetPiece` | src/board.rs:179-189 | set_piece keeps twelve bitboards |
| `Placement.RemovePiece` | src/board.rs:191-199 | remove_piece keeps twelve bitboards |
| `Placement.FirstHolder` | src/board.rs:158-176 | the scan returns an index whose bitboard holds the square |
| `Placement.Occupant` | src/board.rs:162-172 | the (kind, colour) decoded from index i has piece_index i |
| `Placement.OccupancyMembers` | src/board.rs:201-211 | refresh_occupancy: white_occ is the union of bitboards 0-5, black_occ of 6-11, occ of both |
| `Placement.FirstHolderLeast` | src/board.rs:158-176 | the scan finds nothing exactly when no bitboard holds the square, and otherwise the first that does |
| `Placement.PieceOnFirst` | src/board.rs:158-176 | piece_on is None exactly on an empty square, and otherwise names the lowest-index bitboard holding it |
| `Placement.SetPieceAt` | src/board.rs:179-189 | set_piece adds the square (shifted modulo 64) to exactly the piece's bitboard |
| `Placement.RemovePieceAt` | src/board.rs:191-199 | remove_piece takes the square out of exactly the piece's bitboard |
| `Placement.SetPieceKings` | src/board.rs:182-187 | set_piece records the king square (as u8) only for a king |
| `Placement.MoveBoards` | src/board.rs:293-305 | make_move's piece updates: the mover leaves the origin, the captured piece its square, and the placed kind lands on the destination |
| `Placement.MoveKings` | src/board.rs:290-292 | only a king move changes the mover's recorded king square |
| `Placement.PutBackBoards` | src/board.rs:333-347 | unmake_move's put-back: the moved piece on the origin and the captured piece on its square |
| `Placement.PutBackKings` | src/board.rs:336-342 | unmake_move restores the king square of a moved king |
| `Placement.UnmoveAfterMove` | src/board.rs:320-352 | the corrected unmake (clear the destination for the mover, put back the pawn) undoes make_move's piece updates |
| `Placement.UnmoveAsWrittenAfterMove` | src/board.rs:320-352 | unmake as written undoes make_move's piece updates for a move that does not promote |
| `Placement.UnmoveAsWrittenLeavesPromotedPiece` | src/board.rs:332-334 | for a7-a8=Q, unmake as written leaves the queen on a8, so the board is not restored |
| `Placement.PawnAndKnight` | src/board.rs:616 | the test placement: white pawn e4, black knight d5 |
| `Placement.PawnTakesKnightAsWritten` | src/board.rs:616 | a pawn capture encoded as capturing a Pawn leaves the black knight on the destination, and unmake then adds a phantom black pawn there |
| `Placement.PawnTakesKnight` | src/board.rs:299-305 | with the captured kind recorded correctly, the knight leaves the board and unmake restores the position |
| `Position.Empty` | src/board.rs:131-147 | Board::new: no pieces, White to move, no rights, fullmove 1, occupancy fresh |
| `Position.Info` | src/board.rs:225-230 | the decoded move's squares are on the board |
| `Position.CastlingShrinks` | src/board.rs:355-371 | the corrected update only clears bits, leaves the other side's pair (set_from_fen's layout: K 8, Q 4, k 2, q 1) untouched, keeps the byte below 16, and changes it only for a king leaving its home square or a rook leaving one of its side's corners |
| `Position.CastlingExamples` | src/board.rs:355-371 | with the corrected masks, king from e1 clears K and Q (0xF to 0x3); rook from h8 clears k (0xD), from a8 q (0xE); a queen move clears nothing |
| `Position.CastlingAsWrittenSwapsSides` | src/board.rs:360-369 | the masks as written (0b11 << 2s, 1 << 2s, 1 << (2s + 1)) clear Black's k and q when the white king leaves e1 (0xF to 0xC), and White's Q when the black rook leaves h8 |
| `Fen.CastlingFollowsLetters` | src/board.rs:355-371 | with the letters set_from_fen assigns (src/board.rs:1071-1081), for each letter of KQkq, the right survives a move exactly when it was held and the move is neither that letter's king leaving home nor its rook leaving the letter's corner |
| `Fen.KingMoveAsWritten` | src/board.rs:360-362 | "KQkq" reads as 0xF (src/board.rs:1071-1081); as written, a white king leaving e1 then leaves K and Q set and k cleared (0xC) |
| `Fen.KingMoveCorrected` | src/board.rs:360-362 | with the corrected masks the same move clears K and Q and keeps k and q (0x3) |
| `Position.MakeCounters` | src/board.rs:309-315 | make_move flips the side, resets halfmove on a pawn move or capture and increments it otherwise, and increments fullmove after Black's move |
| `Position.MakeEp` | src/board.rs:308 | the en-passant square is set exactly by a pawn's double step, to the square passed over |
| `Position.MakeFresh` | src/board.rs:304 | make_move leaves the occupancy refreshed and the castling byte a subset of the old one |
| `Position.MakeBoard` | src/board.rs:290-305 | make_move moves the pieces as MovePieces does, with the move's capture and placed kind |
| `Position.MakeUndo` | src/board.rs:238-251 | the undo record holds the move and every field make_move overwrites |
| `Position.UnmakeRestoresScalars` | src/board.rs:320-327 | unmake_move restores side, counters, en-passant square, castling byte and hash |
| `Position.UnmakeAfterMake` | src/board.rs:224-352 | the corrected unmake_move undoes make_move completely for an applicable move |
| `Position.UnmakeAsWrittenAfterMake` | src/board.rs:224-352 | unmake_move as written undoes make_move completely for an applicable move that does not promote |
| `Attacks.Shl` | src/board.rs:428-429 | `bb << k`: a square moves up k, squares past 63 drop off |
| `Attacks.Shr` | src/board.rs:432-433 | `bb >> k`: a square moves down k, squares below 0 drop off |
| `Attacks.PawnAttacksGeometry` | src/board.rs:426-434 | the shifted pawn sets hold exactly the squares a pawn of the colour captures onto |
| `Attacks.PawnAttacksComplete` | src/board.rs:426-434 | every square a pawn captures onto is in the shifted sets |
| `Attacks.PawnAttacksSound` | src/board.rs:426-434 | every square in the shifted sets is one a pawn captures onto |
| `Attacks.ContinuesIffReach` | src/board.rs:443-476 | the corrected loop condition holds one step out exactly when the ray has a square there |
| `Attacks.FixedWalkIsRay` | src/board.rs:443-476 | a corrected walk is its ray: the first occupied square decides |
| `Attacks.StepWalkIsRay` | src/board.rs:440-518 | each corrected walk is its ray, and off the +7 and +9 walks the code's walk is the corrected one |
| `Attacks.DiagonalWalksAreRays` | src/board.rs:440-477 | the corrected diagonal walks are the four diagonal rays |
| `Attacks.OrthogonalWalksAreRays` | src/board.rs:479-518 | the four orthogonal walks, with the east and west guards, are the four orthogonal rays |
| `Attacks.DiagonalIsRays` | src/board.rs:440-477 | the corrected diagonal part of is_square_attacked holds exactly when a bishop or queen reaches sq on a diagonal |
| `Attacks.OrthogonalIsRays` | src/board.rs:479-518 | the orthogonal part holds exactly when a rook or queen reaches sq on a rank or file |
| `Attacks.FixedIsGeometric` | src/board.rs:424-521 | the corrected is_square_attacked holds exactly when some piece of the colour attacks sq along its own lines |
| `Attacks.WalkSameOffDiagonal` | src/board.rs:479-518 | the walks other than +7 and +9 are the same as written and corrected |
| `Attacks.LoneBishop` | src/board.rs:435-441 | with a lone bishop only the diagonal walks can report an attack |
| `Attacks.WalksFromA2` | src/board.rs:461-468 | from a2 the as-written +7 walk wraps onto h2 |
| `Attacks.WalksFromG2` | src/board.rs:470-477 | from g2 the as-written +9 walk stops before h3 |
| `Attacks.AsWrittenSeesAcrossEdge` | src/board.rs:461-468 | as written, a white bishop on h2 is reported to attack a2, which it does not |
| `Attacks.AsWrittenMissesAttack` | src/board.rs:470-477 | as written, a white bishop on h3 attacking g2 is not reported |
| `Attacks.After` | src/board.rs:531 | the position after make_move, with the mover's king still on the board |
| `Attacks.LegalMovesMembers` | src/board.rs:527-543 | generate_moves keeps a move exactly when it is pseudo-legal and leaves the mover's king unattacked, and adds none |
| `Attacks.LegalMovesGeometric` | src/board.rs:527-543 | a pseudo-legal move is kept exactly when no opposing piece reaches the mover's king along its lines after the move |
| `Attacks.LegalMovesFrom` | src/board.rs:530-541 | the filter from move i on keeps move i when safe and then filters the rest |
| `Attacks.LegalMovesStep` | src/board.rs:530-541 | one loop step extends the kept prefix by move i exactly when it is safe |
| `Chessboard.Board.Snapshot` | src/board.rs:110-127 | the fields as a position value with twelve bitboards |
| `Chessboard.Board.constructor` | src/board.rs:131-147 | Board::new is the empty position |
| `Chessboard.Board.SetPiece` | src/board.rs:179-189 | set_piece changes the placement as Placement.SetPiece does and nothing else |
| `Chessboard.Board.RemovePiece` | src/board.rs:191-199 | remove_piece changes the placement as Placement.RemovePiece does and nothing else |
| `Chessboard.Board.RefreshOccupancy` | src/board.rs:201-211 | refresh_occupancy recomputes the three occupancies from the bitboards and changes nothing else |
| `Chessboard.Board.PieceOn` | src/board.rs:158-176 | piece_on's loop returns the first bitboard holding the square |
| `Chessboard.Board.UpdateCastlingAfterMove` | src/board.rs:355-371 | changes only the castling byte, to what the corrected UpdateCastling gives, so only the mover's own letters can be cleared |
| `Chessboard.Board.HashPieces` | src/board.rs:256-266 | XORs in the origin, destination, captured-piece and side keys |
| `Chessboard.Board.RehashRights` | src/board.rs:268-288 | XORs in the old and new castling keys when they differ, and the old and new en-passant file keys |
| `Chessboard.Board.HashAndRights` | src/board.rs:253-289 | make_move's first stage: castling updated and the hash updated incrementally |
| `Chessboard.Board.MovePiecesOf` | src/board.rs:290-304 | make_move's piece updates followed by refresh_occupancy |
| `Chessboard.Board.MoveStage` | src/board.rs:290-304 | make_move's second stage, with the captured square chosen as make_move chooses it |
| `Chessboard.Board.FinishMove` | src/board.rs:306-315 | make_move's tail: en-passant square, halfmove clock, side and fullmove number |
| `Chessboard.Board.MakeMove` | src/board.rs:224-317 | make_move leaves the position and returns the undo record MakeSpec gives |
| `Chessboard.Board.MakeDecoded` | src/board.rs:231-317 | make_move over the decoded fields |
| `Chessboard.Board.RestoreScalars` | src/board.rs:321-326 | unmake_move's first step: side, counters, en-passant square and castling from the undo record |
| `Chessboard.Board.ClearSquare` | src/board.rs:330-331 | every bitboard of the mover loses the destination square |
| `Chessboard.Board.PutBackPieces` | src/board.rs:332-347 | the moved piece back on the origin with its king square, and the captured piece on its square |
| `Chessboard.Board.UnmovePiecesOf` | src/board.rs:328-349 | the placement half of unmake_move, then the occupancy refreshed |
| `Chessboard.Board.UnmakeMove` | src/board.rs:320-352 | unmake_move, in its corrected form, leaves Unmake(old position, undo) |
| `Chessboard.Board.WalkRay` | src/board.rs:443-476 | one walk loop returns what the corrected Walk says |
| `Chessboard.Board.StepWalkRay` | src/board.rs:443-518 | the walk from one step out; off the +7 and +9 walks it agrees with the code's walk |
| `Chessboard.Board.DiagonalHit` | src/board.rs:442-476 | the four diagonal loops in the code's order, the first hit deciding |
| `Chessboard.Board.OrthogonalHit` | src/board.rs:481-518 | the four orthogonal loops in the code's order, the first hit deciding |
| `Chessboard.Board.IsSquareAttacked` | src/board.rs:424-521 | is_square_attacked, with the corrected edge tests, returns Attacks.IsSquareAttacked of the board |
| `Chessboard.Board.KingSafeAfterMove` | src/board.rs:531-540 | make, test the mover's king, unmake: the board is unchanged and the answer is KingSafeAfter |
| `Chessboard.Board.FilterStep` | src/board.rs:531-540 | one iteration of generate_moves' loop keeps the filter invariant and the board |
| `Chessboard.Board.GenerateMoves` | src/board.rs:527-543 | generate_moves returns LegalMoves of the pseudo-legal list and leaves the board as it found it |
| `Chessboard.Board.SetFromFen` | src/board.rs:1018-1111 | set_from_fen leaves the position and returns the outcome FenSpec gives, with the rank order corrected |
| `Chessboard.Board.SetFields` | src/board.rs:1027-1109 | the fields after the six were split off |
| `Chessboard.Board.ClearBoard` | src/board.rs:1027-1029 | the twelve bitboards and three occupancies reset to empty |
| `Chessboard.Board.PlaceRowsOf` | src/board.rs:1031-1059 | the outer placement loop leaves PlaceRows' placement and its success flag |
| `Chessboard.Board.PlaceRowOf` | src/board.rs:1034-1057 | the file loop over one row leaves PlaceRow's placement and its success flag |
| `Chessboard.Board.ParseCastling` | src/board.rs:1070-1081 | the castling loop sets the byte CastleBits gives and reports a bad character |
| `Chessboard.Board.CastleLoop` | src/board.rs:1071-1081 | the loop over a local byte computes CastleBits from 0 |
| `Chessboard.Board.SetCounters` | src/board.rs:1083-1109 | en-passant square, counters and the recomputed hash, as FenCounters says |
| `Fen.PlaceRow` | src/board.rs:1034-1057 | the file loop keeps twelve bitboards |
| `Fen.RowBase` | src/board.rs:1054 | the first square of a row is a multiple of 8 on the board |
| `Fen.CastleBits` | src/board.rs:1071-1081 | the castling loop keeps the byte below 16 |
| `Fen.FenSpec` | src/board.rs:1018-1111 | set_from_fen keeps the position's shape on every path |
| `Fen.PlaceRowOk` | src/board.rs:1034-1057 | a row is accepted exactly when every character is a digit or a piece letter |
| `Fen.PlaceRowsOk` | src/board.rs:1031-1059 | the placement is accepted exactly when the first eight rows hold only digits and piece letters |
| `Fen.CastleBitsOk` | src/board.rs:1071-1081 | the castling field is accepted exactly when it holds only K, Q, k, q and '-' |
| `Fen.EpFieldOk` | src/board.rs:1084-1101 | the en-passant field is accepted exactly when it is '-' or a file a-h followed by rank 3 or 6 |
| `Fen.EpFieldSquare` | src/board.rs:1099 | an accepted en-passant square is (rank - 1) * 8 + file |
| `Fen.FenDoneIff` | src/board.rs:1018-1111 | set_from_fen returns Ok exactly for a text whose six fields are all valid |
| `Fen.FieldsDoneIff` | src/board.rs:1027-1111 | after the split, Ok exactly when every field is valid |
| `Fen.CountersDoneIff` | src/board.rs:1083-1106 | the tail returns Ok exactly when the en-passant field and both counters are valid |
| `Fen.CastleBitsLetters` | src/board.rs:1071-1081 | each of K, Q, k, q sets its bit exactly when it occurs in the field |
| `Fen.PlaceRowMembers` | src/board.rs:1034-1057 | an accepted row adds to bitboard i exactly the squares its letters for that piece name |
| `Fen.PlaceRowsMembers` | src/board.rs:1031-1059 | accepted rows add to bitboard i exactly the squares their letters for that piece name |
| `Fen.FenBoard` | src/board.rs:1018-1061 | after Ok, bitboard i holds exactly the squares the placement field's letters name, and the occupancy is fresh |
| `Fen.FieldsBoard` | src/board.rs:1027-1061 | after Ok, the board is the placement of the cleared board and the occupancy is refreshed |
| `Fen.CountersSet` | src/board.rs:1083-1109 | after Ok, the en-passant square and counters are those the text names, and the hash is recomputed |
| `Fen.FieldsSet` | src/board.rs:1063-1081 | after Ok, the side and each castling bit are those the text names |
| `Fen.FenFieldsSet` | src/board.rs:1063-1109 | after Ok, side, castling bits, en-passant square and counters are those of the text |
| `Fen.CountersErrors` | src/board.rs:1083-1106 | an error in the tail changes at most the en-passant square and the halfmove counter |
| `Fen.FieldsErrors` | src/board.rs:1027-1106 | an error after the split leaves the hash and fullmove alone and the placement already written |
| `Fen.FenErrors` | src/board.rs:1018-1106 | on every error the hash and fullmove are unchanged; too few fields changes nothing |
| `Fen.FenTooFewFields` | src/board.rs:1019-1025 | fewer than six whitespace fields: an error naming the first missing field, and the board untouched |
| `Fen.FenBadPiece` | src/board.rs:1052 | a placement character that is neither digit nor piece letter: "invalid piece char", with the board already cleared |
| `Fen.FenBadSide` | src/board.rs:1064-1068 | a side field other than w or b: "invalid side char" |
| `Fen.FenBadCastle` | src/board.rs:1079 | a castling character other than K, Q, k, q, '-': "invalid castle char" |
| `Fen.FenBadEp` | src/board.rs:1087-1097 | an invalid en-passant field gives one of the four en-passant errors |
| `Fen.EpErrors` | src/board.rs:1087-1097 | an invalid en-passant field gives "invalid ep string", "invalid ep file" or "invalid ep rank" (or a panic on a short multi-byte text) |
| `Fen.FenBadHalfmove` | src/board.rs:1103 | an unparsable halfmove field: "invalid halfmove" |
| `Fen.FenBadFullmove` | src/board.rs:1104 | an unparsable fullmove field: "invalid fullmove" |
| `Fen.FenEarlyFieldsOk` | src/board.rs:1027-1081 | valid placement, side and castling fields are written before the later fields are looked at |
| `FenOrientation.ShieldRowsPlace` | src/board.rs:1031-1059 | the rows of "4k3/8/8/8/8/8/5PPP/6K1" place the black king, three pawns and the white king |
| `FenOrientation.ShieldRowsPlaced` | src/board.rs:1054 | as written the white king lands on g8 (62) and the pawns on f7-h7; with the rank order corrected, on g1 (6) and f2-h2 |
| `FenOrientation.ShieldFenBoard` | src/board.rs:1018-1061 | set_from_fen on the castled-king text puts the king and pawns where ShieldRowsPlaced says |
| `FenOrientation.ShieldFenAsWritten` | src/eval.rs:663-677 | as written, the castled-king test position scores 0 king safety, not the 45 the test expects |
| `FenOrientation.KingOnEighthRank` | src/eval.rs:137-165 | a white king on g8 has no shield rank above it, so king safety is 0 |
| `FenOrientation.ShieldFenFixed` | src/eval.rs:663-677 | with the rank order corrected, the castled-king test position scores the expected 45 |
| `Eval.Value` | src/eval.rs:12-17 | the piece values: 100 to 900 for the non-king kinds, 20000 for the king |
| `Eval.SourceTables` | src/eval.rs:30-97 | the six piece-square tables, 64 entries each |
| `Eval.FlipMirrors` | src/eval.rs:402 | the Black index mirrors the rank, keeps the file, and is its own inverse |
| `Eval.XorFlipsRank` | src/eval.rs:490 | `sq ^ 56` is the rank mirror 8 * (7 - rank) + file |
| `Eval.MirroredBonus` | src/eval.rs:400-412 | a Black piece on the mirrored square earns what a White piece earns |
| `Eval.HasCastled` | src/eval.rs:110-123 | true exactly when the king is on c1/g1 (White) or c8/g8 (Black) |
| `Eval.ShieldFiles` | src/eval.rs:145 | the shield files are on the board, at most three |
| `Eval.PawnShield` | src/eval.rs:137-165 | at most three shield pawns, and none when the shield rank is off the board |
| `Eval.CountPawnShield` | src/eval.rs:137-165 | count_pawn_shield's loop returns PawnShield |
| `Eval.ShieldFixedAgrees` | src/eval.rs:145 | off the edge files the written and corrected shield agree; the corrected files are distinct |
| `Eval.ShieldEdgeDoubleCount` | src/eval.rs:145-162 | a king on a1 with pawns on a2 and b2 counts 3 as written, 2 when corrected |
| `Eval.KingSafety` | src/eval.rs:230-247 | king_safety lies in -50..45, is negative exactly for an uncastled king on the d- or e-file, and adds 15 per shield pawn |
| `Eval.KingSafetyBareCentre` | src/eval.rs:643-660 | bare kings on e1 and e8 both score -50 |
| `Eval.KingSafetyFullShield` | src/eval.rs:663-678 | a king on g1 behind f2-h2, or on c1 behind b2-d2, scores 45 |
| `Eval.KingSafetyPartialShield` | src/eval.rs:680-710 | a king on g1 behind f2 and g2 scores 30, with no shield 0 |
| `Eval.KingSafetyEdgeFile` | src/eval.rs:137-165 | a king on a1 behind a2 and b2 scores 45 as written and 30 when corrected |
| `Eval.BackRankMask` | src/eval.rs:281-297 | the back ranks are RANK_1_MASK and RANK_8_MASK |
| `Eval.DevelopmentPenalty` | src/eval.rs:266-302 | 0 up to move 10 and with no minor piece on the back rank; always a multiple of 10 |
| `Eval.DevelopingKnight` | src/eval.rs:266-302 | moving a knight off the back rank after move 10 lowers the penalty by 10 |
| `Eval.Control` | src/eval.rs:184-193 | one square contributes +w, -w or 0 |
| `Eval.ControlSum` | src/eval.rs:184-213 | a loop over n squares scores within -w * n .. w * n |
| `Eval.CenterScore` | src/eval.rs:178-216 | center_control lies within -76..76 |
| `Eval.SumControl` | src/eval.rs:184-213 | one loop of center_control returns ControlSum |
| `Eval.CenterControl` | src/eval.rs:178-216 | center_control's two loops return CenterScore, within -76..76 |
| `Eval.ControlSumHeld` | src/eval.rs:184-213 | squares held by one colour alone give it w per square |
| `Eval.CenterHeld` | src/eval.rs:178-216 | all sixteen squares held by one colour score +76 for White or -76 for Black |
| `Eval.Neg` | src/eval.rs:342 | i16 negation: -x, except i16::MIN, which wraps to itself |
| `Eval.Relative` | src/eval.rs:341-345 | White's view unchanged, Black's negated with i16 wrap-around |
| `Eval.RelativeSwap` | src/eval.rs:341-345 | Black's view is the wrapped negation of White's, both ways |
| `Eval.MaterialAt` | src/eval.rs:323-337 | a square adds material to a colour exactly when a piece of that colour stands there, at most 20000 |
| `Eval.Material` | src/eval.rs:322-338 | n squares add at most 20000 * n |
| `Eval.QuickMaterialCount` | src/eval.rs:318-346 | quick_material_count's loop returns QuickMaterial |
| `Eval.QuickMaterialExact` | src/eval.rs:318-346 | without i16 overflow the count is White's material minus Black's, from the side to move |
| `Eval.FastAt` | src/eval.rs:390-420 | a square scores for a colour only when a piece of that colour stands there |
| `Eval.FastSquare` | src/eval.rs:390-420 | one step of evaluate_fast's loop credits FastAt to each colour |
| `Eval.FastTotals` | src/eval.rs:385-421 | evaluate_fast's loop sums FastAt over the 64 squares for each colour |
| `Eval.EvaluateFast` | src/eval.rs:385-430 | evaluate_fast returns FastScore |
| `Eval.SumPieces` | src/eval.rs:477-493 | popping the lowest bit until the bitboard is empty sums the score of every square it holds |
| `Eval.ComputeKingSafety` | src/eval.rs:230-247 | king_safety's straight-line code returns KingSafety |
| `Eval.KindTotals` | src/eval.rs:457-494 | the loop over the six kinds returns each colour's piece score |
| `Eval.SideTotals` | src/eval.rs:443-508 | each colour's total: pieces, less the development penalty, plus king safety |
| `Eval.EvalBalanceOf` | src/eval.rs:515 | the i32 difference cast to i16 plus centre control, with i16 wrap-around |
| `Eval.Evaluate` | src/eval.rs:442-524 | evaluate returns EvalScore |
| `Eval.SideToMoveNegates` | src/eval.rs:551-571 | for evaluate, evaluate_fast and quick_material_count, Black to move scores the wrapped negation of White to move |
| `Eval.AbsI16` | src/eval.rs:375 | i16 abs: non-negative except for i16::MIN, which stays itself |
| `Eval.EvaluateLazy` | src/eval.rs:367-381 | evaluate_lazy returns LazyScore |
| `Eval.LazyChoice` | src/eval.rs:367-381 | the material count is returned exactly when its i16 abs exceeds 300; otherwise evaluate's score |
| `Eval.LazySideToMove` | src/eval.rs:367-381 | evaluate_lazy also negates with the side to move |
| `Search.Weighted` | src/search/search.rs:315-327 | one colour's non-king material is at most 64 * 2150, so the u32 sum never overflows |
| `Search.WrapI16Congruent` | src/search/search.rs:329-330 | integers congruent modulo 2^16 wrap to the same i16 |
| `Search.WrapSub` | src/search/search.rs:329 | i16 subtraction of wrapped values is the wrapped difference |
| `Search.WrapAdd` | src/search/search.rs:329-330 | i16 addition of wrapped values is the wrapped sum |
| `Search.MaterialWraps` | src/search/search.rs:310-341 | material_eval is the exact material difference wrapped once to i16, and Black's view is its wrapped negation |
| `Search.BalancedMaterialIsZero` | src/search/search.rs:310-341 | equal material and equal kings score 0 for either side |
| `Search.MaterialWithKings` | src/search/search.rs:310-341 | one king a side and no overflow: the exact non-king difference from the side to move |
| `Search.StoreIn` | src/search/search.rs:294 | a store on the slot array keeps its length |
| `Search.Cutoff` | src/search/search.rs:234-245 | a cutoff happens exactly for a deep enough entry whose bound lies outside the window; as written it returns the opposite end of the bound, corrected the end that proves it |
| `Search.NodeTypeOf` | src/search/search.rs:290-296 | LowerBound exactly at beta or above, UpperBound exactly at alpha or below (and under beta), Exact strictly inside |
| `Search.Deepen` | src/search/search.rs:110-121 | the deepening loop searches depths in order and stops early only on a score at MATE or above |
| `Search.SearchOutcome` | src/search/search.rs:99-125 | search(0) returns move 0 and -INFINITE untouched; otherwise it ends at max depth unless a mate score stops it |
| `Search.NegamaxRules` | src/search/search.rs:228-300 | a table cutoff returns its score; depth 0 the static evaluation; no moves -MATE in check and 0 otherwise; else the move loop's best |
| `Search.ScanSelects` | src/search/search.rs:262-288 | the best bounds every score seen, the best move is the first reaching it, every earlier score is under beta, the loop stops early only on a score at beta, and alpha ends at max(alpha, best) |
| `Search.RootScanSelects` | src/search/search.rs:183-216 | the root loop keeps the first strictly best move (the incoming move if nothing beats -INFINITE) and stops early only at beta |
| `Search.NoRootMovesStoresEval` | src/search/search.rs:172-181 | with no root moves iddfs returns move 0 and the static evaluation, and a later probe finds it stored as Exact |
| `Search.DeepenNoMoves` | src/search/search.rs:110-121 | without root moves every iteration returns move 0 and the static evaluation |
| `Search.SearchWithoutMoves` | src/search/search.rs:99-125 | search(Some(d)) on a position without moves returns move 0 and the static evaluation |
| `Search.AsWrittenUpperCutoff` | src/search/search.rs:237-238 | as written an upper-bound hit returns i16::MIN, whose negation in the parent wraps back to i16::MIN |
| `Search.CorrectedUpperCutoff` | src/search/search.rs:237-238 | corrected, it returns the stored score, which the parent negates to at least -alpha |
| `Search.AsWrittenNeverExact` | src/search/search.rs:277-296 | classified against the raised alpha, negamax_pv as written never stores Exact |
| `Search.ExactScoreStoredAsBound` | src/search/search.rs:268-296 | one reply scoring -5 inside (-100, 100): as written the node scores -5 and stores UpperBound; corrected it scores 5 and stores Exact |
| `Search.DepthOneShortcut` | src/search/search.rs:268-273 | corrected, the depth-1 score is the negated depth-0 search of the child; as written it differs for every evaluation but 0 and i16::MIN |
| `Search.WinningCaptureIgnored` | src/search/search.rs:189-191 | at depth 1 the root as written picks a quiet move over a queen capture; corrected it picks the capture with score 900 |
| `Search.Searcher.constructor` | src/search/search.rs:51-63 | Search::new: the given parameters and a fresh empty table of the requested size |
| `Search.Searcher.WithBoard` | src/search/search.rs:65-70 | with_board: a 16 MB table and the default parameters with depth 8 and 5000 ms |
| `Search.Searcher.NegamaxPv` | src/search/search.rs:228-300 | negamax_pv returns Negamax's score and leaves Negamax's table |
| `Search.Searcher.MoveLoop` | src/search/search.rs:262-288 | negamax_pv's move loop computes Scan |
| `Search.Searcher.Child` | src/search/search.rs:266-275 | one move's score computes ChildScore |
| `Search.Searcher.Iddfs` | src/search/search.rs:166-225 | iddfs returns RootSearch's move and score and leaves its table |
| `Search.Searcher.RootLoop` | src/search/search.rs:183-216 | iddfs's root loop computes RootScan |
| `Search.Searcher.Search` | src/search/search.rs:99-125 | search bumps the table's generation and returns SearchOutcome with the parameters' depth when none is given |
| `Text.TrimStart` | src/uci/parser.rs:37 | the result is a suffix of the text that does not start with whitespace |
| `Text.TrimStartDropsSpaces` | src/uci/parser.rs:37 | everything dropped is whitespace |
| `Text.TrimEnd` | src/uci/parser.rs:37 | a prefix that does not end in whitespace, and everything dropped is whitespace |
| `Text.Strip` | tools/tactical_test.py:34 | str.strip / str::trim: neither end is whitespace, the result is empty exactly for an all-whitespace text, and a text without outer whitespace is unchanged |
| `Text.StripEmptyIff` | src/uci/parser.rs:37-40 | trimming gives the empty text exactly when the line is all whitespace |
| `Text.Word` | src/uci/parser.rs:42 | the longest whitespace-free prefix, non-empty when the text starts with a non-space |
| `Text.SplitOn` | tools/tactical_test.py:37 | str.split(c): at least one piece, none containing c |
| `Text.SplitOnJoin` | tools/tactical_test.py:37 | splitting the c-join of c-free pieces gives the pieces back |
| `Text.JoinSplitOn` | tools/tactical_test.py:37 | joining the pieces of a split with c gives the text back |
| `Text.StripChar` | tools/tactical_test.py:49 | str.strip(q): neither end is q, and a text without q at either end is unchanged |
| `Text.Decimal` | tools/tactical_test.py:58-62 | decimal rendering: non-empty, all digits |
| `Text.ParseUnsigned` | src/uci/parser.rs:124 | str::parse for an unsigned type: the value is within the type, and empty text, a lone '+' or a leading '-' is rejected |
| `Text.DecimalValue` | tools/tactical_test.py:58-62 | a rendering's digits denote the number |
| `Text.ParseDecimal` | src/uci/parser.rs:124 | parsing a rendering (with or without '+') gives the number back when it fits the type, None otherwise |
| `Text.Lower` | src/uci/options.rs:101 | ASCII lower-casing: same length, A-Z mapped to a-z, everything else kept |
| `Text.TokensStep` | src/uci/parser.rs:42 | split_whitespace: the first word of the trimmed text, then the tokens of the rest |
| `Text.TokensAreTokens` | src/uci/parser.rs:42 | every token is non-empty and whitespace-free |
| `Text.TokensOfJoin` | src/uci/parser.rs:42 | tokenising single-space-joined tokens gives them back |
| `Text.TokensOfStrip` | src/uci/parser.rs:37-42 | trimming before split_whitespace changes nothing, and the trimmed line is empty exactly when there are no tokens |
| `Text.TokensDropLastSpace` | src/uci/parser.rs:42 | a trailing whitespace character adds no token |
| `UciParser.FirstIndex` | src/uci/parser.rs:86 | Iterator::position: the first index from `from` on holding w, or the length when there is none |
| `UciParser.SetOptionSpec` | src/uci/parser.rs:50-78 | the setoption scan yields a SetOption |
| `UciParser.PositionSpec` | src/uci/parser.rs:79-107 | the position scan yields a Position |
| `UciParser.WithField` | src/uci/parser.rs:122-177 | a go key sets its own field and no other |
| `UciParser.GoFrom` | src/uci/parser.rs:119-190 | the go scan yields a Go |
| `UciParser.ParseUciCommand` | src/uci/parser.rs:36-206 | parse_uci_command returns Parse of the line, and Unknown("") for a blank line |
| `UciParser.ParseParts` | src/uci/parser.rs:43-205 | the match on the first token returns ParseTokens |
| `UciParser.ParseSetOption` | src/uci/parser.rs:52-77 | the setoption loop returns SetOptionSpec's name and value |
| `UciParser.CopyAfter` | src/uci/parser.rs:87-89 | pushing the tokens from index k on gives parts[k..] |
| `UciParser.ParsePosition` | src/uci/parser.rs:81-106 | the position branch returns PositionSpec's FEN and moves |
| `UciParser.ParseGo` | src/uci/parser.rs:109-202 | the go loop returns GoFrom from index 1 with every field empty |
| `UciParser.ParseOfTokens` | src/uci/parser.rs:36-43 | a non-blank line stands for the command of its tokens |
| `UciParser.SetOptionHead` | src/uci/parser.rs:50 | a list headed by setoption is read by the setoption scan |
| `UciParser.PositionHead` | src/uci/parser.rs:79 | a list headed by position is read by the position scan |
| `UciParser.GoHead` | src/uci/parser.rs:108 | a list headed by go is read by the go scan |
| `UciParser.FirstWordDecides` | src/uci/parser.rs:43-49 | an argument-free keyword decides the command whatever follows; any other first token gives Unknown of it |
| `UciParser.GoFieldsInRange` | src/uci/parser.rs:122-177 | every numeric go field is None or within its type: 255 for u8 keys, 2^64 - 1 for u64 keys |
| `UciParser.GoUnmentioned` | src/uci/parser.rs:119-190 | a key that does not occur keeps its starting value |
| `UciParser.GoLastWins` | src/uci/parser.rs:122-177 | the value after the last occurrence of a key that parses is the one kept |
| `UciParser.GoInfinite` | src/uci/parser.rs:178-181 | infinite is set exactly when the scan visits an "infinite" token |
| `UciParser.SetOptionNameValue` | src/uci/parser.rs:57-71 | `setoption name N value V` gives N and V back, space-joined, when N holds no "value" token |
| `UciParser.SetOptionNameOnly` | src/uci/parser.rs:57-65 | `setoption name N` gives N and no value |
| `UciParser.PositionFenMoves` | src/uci/parser.rs:91-104 | `position fen F moves M` gives F back as the FEN text and M as the moves |
| `UciParser.PositionStartposMoves` | src/uci/parser.rs:83-90 | `position startpos moves M` gives no FEN and M as the moves |
| `UciOptions.Options.constructor` | src/uci/options.rs:52-66 | the defaults: hash 16, one thread, no Syzygy path, experience book on, style Normal |
| `UciOptions.Options.SetOption` | src/uci/options.rs:76-115 | set_option changes the settings and returns as SetOptionSpec says |
| `UciOptions.SetOptionFrame` | src/uci/options.rs:76-115 | a call changes at most the option it names, and a failing call changes nothing |
| `UciOptions.SetOptionErrors` | src/uci/options.rs:76-115 | the errors are exactly the unknown names and the Hash or Threads values that do not parse as u64 or u8 |
| `UciOptions.SetOptionNoValue` | src/uci/options.rs:76-115 | without a value SyzygyPath is cleared, every other known option is left alone, and the call succeeds |
| `UciOptions.SetNumericOption` | src/uci/options.rs:78-95 | a decimal Hash or Threads value within range is stored; out of range the settings stay and the error names the value |
| `UciOptions.ExperienceBookWords` | src/uci/options.rs:99-104 | "TRUE", "Yes" and "1" switch the experience book on; "on" and "y" switch it off |
| `UciLoop.Escape` | src/uci/loop.rs:60 | Debug formatting leaves a text without quotes or backslashes unchanged |
| `UciLoop.UciEngine.constructor` | src/uci/loop.rs:22-24 | state Init, running, and a fresh empty board |
| `UciLoop.UciEngine.HandleCommand` | src/uci/loop.rs:26-75 | handle_command answers Responses, moves to NextState, stops only on quit, and replaces the board exactly for ucinewgame and a position without a FEN |
| `UciLoop.UciEngine.ReadLine` | src/uci/loop.rs:89-100 | one loop iteration: a blank line is skipped, any other line is answered and the session continues from the next |
| `UciLoop.UciEngine.RunLines` | src/uci/loop.rs:80-104 | run_uci_loop over the lines read produces the output, state and running flag that Session gives |
| `UciLoop.ProcessUciLine` | src/uci/loop.rs:106-109 | process_uci_line answers the parsed line and updates the state as handle_command does; the board is replaced by a fresh empty one exactly on ucinewgame or a position without a FEN, and kept otherwise |
| `UciLoop.NeverThinking` | src/uci/loop.rs:26-75 | from Init or Ready the engine never reaches Thinking or Pondering, and once Ready it stays Ready |
| `UciLoop.InitUntilActivated` | src/uci/loop.rs:37-58 | the engine stays in Init exactly until a position, go, stop or ucinewgame arrives |
| `UciLoop.QuitIsFinal` | src/uci/loop.rs:67-69 | the engine keeps running exactly as long as no quit has arrived |
| `UciLoop.UnknownResponse` | src/uci/loop.rs:70-72 | an unknown command is answered by the one line echoing it |
| `UciLoop.BlankLineIsUnknown` | src/uci/loop.rs:106-109 | process_uci_line answers a blank line with the unknown-command line for the empty text |
| `UciLoop.UciReplies` | src/uci/loop.rs:29-33 | `uci` is answered by the two id lines and uciok |
| `UciLoop.IsReadyReplies` | src/uci/loop.rs:34-36 | `isready` is answered by readyok |
| `UciLoop.UnknownEcho` | src/uci/loop.rs:70-72 | an unrecognised first token is echoed, whatever follows |
| `UciLoop.KeywordLine` | src/uci/loop.rs:93-95 | a keyword alone is already trimmed and parses as that keyword |
| `UciLoop.SessionUntilQuit` | src/uci/loop.rs:89-101 | lines parsing as commands ending in the first quit produce all their answers and stop the engine |
| `UciLoop.SessionStep` | src/uci/loop.rs:93-100 | one non-blank line is answered before the rest of the session |
| `UciLoop.GoResponses` | src/uci/loop.rs:46-51 | go answers "info string starting search" then "bestmove e2e4" |
| `UciLoop.HarnessSession` | tools/tactical_test.py:56-83 | the harness's seven-command script makes the engine answer bestmove e2e4, end Ready and stop |
| `TacticalHarness.NonEmptyStripped` | tools/tactical_test.py:37 | the stripped non-empty segments: no more than the segments, none empty |
| `TacticalHarness.ParseLine` | tools/tactical_test.py:33-52 | a blank or '#' line gives nothing; a record has a non-empty FEN that is the first field and a token as bm |
| `TacticalHarness.ScanStep` | tools/tactical_test.py:43-49 | a `bm ` field with a move replaces bm, an `id ` field replaces the identifier |
| `TacticalHarness.ScanFieldsLast` | tools/tactical_test.py:43-49 | the field loop keeps the last bm and the last identifier the fields give |
| `TacticalHarness.LastBmWins` | tools/tactical_test.py:44-47 | the expected move is that of the last `bm` field with a move; with none it stays unset |
| `TacticalHarness.LastIdWins` | tools/tactical_test.py:48-49 | the identifier is that of the last `id` field; with none it stays unset |
| `TacticalHarness.LoadPositionsAppend` | tools/tactical_test.py:31-52 | records come out in file order: loading a concatenation concatenates the loads |
| `TacticalHarness.LoadPositionsOne` | tools/tactical_test.py:33-52 | a single line yields exactly its record, if any |
| `TacticalHarness.LoadPositionsFromLines` | tools/tactical_test.py:31-52 | every record comes from some line, at most one per line |
| `TacticalHarness.EngineInputLines` | tools/tactical_test.py:56-67 | the engine reads exactly the seven commands, one per line, then nothing |
| `TacticalHarness.QueryBestmove` | tools/tactical_test.py:73-83 | a nonzero exit code is an error carrying the code; an answer is a whitespace-free token |
| `TacticalHarness.FirstBestmoveDecides` | tools/tactical_test.py:77-82 | the first line starting with bestmove decides, whatever follows |
| `TacticalHarness.NoBestmoveLine` | tools/tactical_test.py:77-83 | without a bestmove line the answer is None |
| `TacticalHarness.Kept` | tools/tactical_test.py:88-89 | positions[:limit]: a prefix, min(limit, n) long, n + limit for a negative limit, everything without one |
| `TacticalHarness.EveryPositionScoredOnce` | tools/tactical_test.py:97-111 | each position is solved or a mismatch, never both |
| `TacticalHarness.MismatchesDescribePositions` | tools/tactical_test.py:104-107 | each mismatch names its 1-based index, id, expected and obtained move, which differ; indices increase |
| `TacticalHarness.RunSuite` | tools/tactical_test.py:86-111 | an empty kept list is an error; otherwise the totals count every kept position once, solved plus mismatches |

## Left out

- Text.Strip, Text.Lower: whitespace is the ASCII set (space, tab, line feed, carriage return, vertical tab, form feed) and lower-casing maps only A-Z. Rust's and Python's Unicode whitespace and case mapping are not modelled.
- UciLoop.Escape: the `{:?}` rendering of an option value escapes only `"` and `\`. Control characters and Unicode escapes are not modelled.
- Eval.Neg, Words.WrapI16: i16 and u64 arithmetic wraps as in a release build, including `-i16::MIN == i16::MIN`. Debug-build overflow panics are not modelled.
- Search.Negamax: the search runs over an abstract game tree (`Node`: hash key, static evaluation, in-check flag, children). `Node.eval` is not tied to `Search.MaterialEval`, and the board's make/unmake inside the search is not repeated there.
- Search.RootScan: the root moves are taken in the order given. generate_root_moves (src/search/search.rs:354-395) puts the transposition-table move first and stable-sorts captures by victim value. That ordering is not modelled; among tied scores it decides the reported move.
- search_timed, the search statistics, the thread manager, killer moves and history tables: not modelled (clock, counters and concurrency).
- Attacks.LegalMoves, Chessboard.Board.GenerateMoves: the pseudo-legal generators (pawn, knight, slider, king and castling moves) are a parameter. GenerateMoves assumes every pseudo-legal move is applicable and names the piece it really captures. The pawn generator breaks the second assumption (see "## Findings").
- MagicLookup.Lookup: a magic lookup is stated as the slow ray attack of the masked occupancy. This assumes the magic numbers cause no destructive collision. The filling of the tables by init_magic_tables and the search for magic numbers are not modelled.
- Zobrist.Tables.Init: the key tables are assigned as whole sequences from the SplitMix64 stream rather than by the nested loops of the source.
- The transposition table's fill_percentage (floating point) and its Default and size helpers are not modelled.
- Chessboard.Board.MakeMove: castling moves only the king, as the code does; the rook stays on its square.
- Fen.PlaceRows: set_from_fen has no error for too many rows. Rows after the eighth are ignored, as in the code.
- Fen.EpErrors: a one-character en-passant field of two UTF-8 bytes passes the length test (src/board.rs:1088), and the code then panics unwrapping the missing second character (src/board.rs:1090); the model reports it as `Panic`.
- TacticalHarness.QueryBestmove: the engine process is not run. Its exit code and standard output are inputs. Printing, timing and argument parsing are not modelled.
- TacticalHarness.LoadPositions: the file is an input already split into lines. Python's UTF-8 decoding of the file and its universal-newline line splitting (tools/tactical_test.py:32-33) are not modelled.
- UciLoop.UciEngine.RunLines: standard input and output become a list of lines read and a list of lines written. I/O errors are not modelled.

## Findings

| source | as written | input that shows it | evidently intended | confidence | as-written member | corrected member |
|---|---|---|---|---|---|---|
| src/board.rs:1031-1059 | the first FEN row (rank 8) is placed on squares 0-7, because `rank` starts at 7 and the square is `(7 - rank) * 8 + file` | the test FEN `4k3/8/8/8/8/8/5PPP/6K1` (src/eval.rs:667) puts the white king on g8, so king safety is 0 instead of the expected 45 | the first row fills squares 56-63 | not executed | `FenOrientation.ShieldFenAsWritten` | `FenOrientation.ShieldFenFixed` |
| src/board.rs:616, src/board.rs:637 | every pawn capture is encoded as capturing a Pawn | white pawn e4 takes black knight d5: make_move clears only the black pawn bitboard, so the knight stays on d5, and unmake then adds a black pawn there | the move records the kind that stands on the target | not executed | `Placement.PawnTakesKnightAsWritten` | `Placement.PawnTakesKnight` |
| src/board.rs:461-477 | the +7 diagonal walk stops on the a-file and the +9 walk on the h-file, the wrong way round | a white bishop on h2 is reported to attack a2; a white bishop on h3 attacking g2 is not reported | the +7 walk stops on the h-file and the +9 walk on the a-file | not executed | `Attacks.AsWrittenSeesAcrossEdge` | `Attacks.FixedIsGeometric` |
| src/board.rs:360-369 | update_castling_after_move clears `0b11 << 2s` for the king, `1 << 2s` for the king-side rook and `1 << (2s + 1)` for the queen-side rook; set_from_fen puts K, Q, k, q in bits 8, 4, 2, 1, so these masks address the other side's letters | castling field "KQkq", then the white king leaves e1: K and Q stay, k and q are cleared | the mover's own letters are cleared: `0b11 << 2(1 - s)` for the king, and K 8 / Q 4 for White's rooks, k 2 / q 1 for Black's | not executed | `Fen.KingMoveAsWritten` | `Fen.KingMoveCorrected` |
| src/board.rs:320-352 | unmake_move clears the destination for the moved kind and puts that kind back, ignoring a promotion | a7-a8=Q then unmake leaves the queen on a8 | the promoted piece leaves the destination and the pawn returns | not executed | `Placement.UnmoveAsWrittenLeavesPromotedPiece` | `Position.UnmakeAfterMake` |
| src/eval.rs:145 | the shield files are file - 1, file and file + 1 clamped to the board, so an edge file is listed twice | a king on a1 behind pawns on a2 and b2 counts three shield pawns | only the files that exist, each once | not executed | `Eval.ShieldEdgeDoubleCount` | `Eval.ShieldFixedAgrees` |
| src/search/search.rs:237-242 | an upper-bound hit at or below alpha returns the bound's lower end (i16::MIN), and a lower-bound hit returns its upper end | an UpperBound entry with score at most alpha makes the parent see i16::MIN | the cutoff returns the stored score | not executed | `Search.AsWrittenUpperCutoff` | `Search.CorrectedUpperCutoff` |
| src/search/search.rs:277-296 | the node type is classified against the alpha the loop has raised, so it is never Exact | one reply scoring inside (-100, 100) is stored as UpperBound | classify against the alpha the node was called with | not executed | `Search.AsWrittenNeverExact` | `Search.ExactScoreStoredAsBound` |
| src/search/search.rs:189-191, src/search/search.rs:268-269 | at depth 1 the child's static evaluation is used without negation, so it is the opponent's view | a depth-1 root with a quiet move and a queen capture picks the quiet move | negate the child's evaluation | not executed | `Search.DepthOneShortcut` | `Search.WinningCaptureIgnored` |
