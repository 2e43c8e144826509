// The EPD tactical-suite harness: reading EPD records, the fixed command
// script sent to the engine, reading the engine's answer, and scoring a suite.
// The engine process is not modelled: each query's (exit code, stdout lines)
// is an input.

module TacticalHarness {
  import opened Common
  import opened Text

  /** One EPD position: its FEN field, the expected best move, the optional id. */
  datatype Record = Record(fen: string, bm: string, id: Option<string>)

  // ---------------------------------------------------------------------
  // load_positions

  /** The stripped, non-empty pieces of a list of segments, in order. */
  function NonEmptyStripped(segs: seq<string>): (fs: seq<string>)
    ensures |fs| <= |segs|
    ensures forall i | 0 <= i < |fs| :: fs[i] != []
  {
    if segs == [] then []
    else
      var rest := NonEmptyStripped(segs[1..]);
      if Strip(segs[0]) == [] then rest else [Strip(segs[0])] + rest
  }

  /** The `;`-separated fields of a line, each stripped, empty ones dropped. */
  function Fields(line: string): seq<string> {
    NonEmptyStripped(SplitOn(line, ';'))
  }

  /** What a `bm ` field contributes: its second whitespace token, if any. */
  function BmOf(token: string): Option<string> {
    if "bm " <= token then
      var p := Tokens(token);
      if |p| >= 2 then Some(p[1]) else None
    else None
  }

  /** What an `id ` field contributes: the rest, stripped of whitespace and then of double quotes. */
  function IdOf(token: string): Option<string> {
    if !("bm " <= token) && "id " <= token then Some(StripChar(Strip(token[3..]), '"')) else None
  }

  /** The loop over the fields after the FEN, threading the current bm and id. */
  function ScanFields(ts: seq<string>, bm: Option<string>, id: Option<string>): (Option<string>, Option<string>)
  {
    if ts == [] then (bm, id)
    else
      var token := ts[0];
      if "bm " <= token then
        var p := Tokens(token);
        ScanFields(ts[1..], if |p| >= 2 then Some(p[1]) else bm, id)
      else if "id " <= token then
        ScanFields(ts[1..], bm, Some(StripChar(Strip(token[3..]), '"')))
      else
        ScanFields(ts[1..], bm, id)
  }

  /** One line of an EPD file: the record it yields, if any. */
  function ParseLine(raw: string): (r: Option<Record>)
    ensures Strip(raw) == [] || "#" <= Strip(raw) ==> r.None?
    ensures r.Some? ==> r.value.fen != [] && IsToken(r.value.bm)
    ensures r.Some? ==> |Fields(Strip(raw))| > 0 && r.value.fen == Fields(Strip(raw))[0]
  {
    var line := Strip(raw);
    if line == [] || "#" <= line then None
    else
      var parts := Fields(line);
      if parts == [] then None
      else
        var (bm, id) := ScanFields(parts[1..], None, None);
        ScanFieldsBmIsToken(parts[1..], None, None);
        if bm.None? then None else Some(Record(parts[0], bm.value, id))
  }

  /** load_positions: the records of the file's lines, in file order. */
  function LoadPositions(lines: seq<string>): seq<Record> {
    if lines == [] then []
    else
      var r := ParseLine(lines[0]);
      (if r.Some? then [r.value] else []) + LoadPositions(lines[1..])
  }

  lemma {:induction false} ScanFieldsBmIsToken(ts: seq<string>, bm: Option<string>, id: Option<string>)
    requires bm.Some? ==> IsToken(bm.value)
    ensures var r := ScanFields(ts, bm, id).0; r.Some? ==> IsToken(r.value)
  {
    if ts != [] {
      var token := ts[0];
      if "bm " <= token {
        var p := Tokens(token);
        TokensAreTokens(token);
        ScanFieldsBmIsToken(ts[1..], if |p| >= 2 then Some(p[1]) else bm, id);
      } else if "id " <= token {
        ScanFieldsBmIsToken(ts[1..], bm, Some(StripChar(Strip(token[3..]), '"')));
      } else {
        ScanFieldsBmIsToken(ts[1..], bm, id);
      }
    }
  }

  function NextBm(token: string, bm: Option<string>): Option<string> {
    if BmOf(token).Some? then BmOf(token) else bm
  }

  function NextId(token: string, id: Option<string>): Option<string> {
    if IdOf(token).Some? then IdOf(token) else id
  }

  /** One iteration of the field loop: a `bm` field with a move replaces bm, an `id` field replaces id. */
  lemma ScanStep(ts: seq<string>, bm: Option<string>, id: Option<string>)
    requires ts != []
    ensures ScanFields(ts, bm, id) == ScanFields(ts[1..], NextBm(ts[0], bm), NextId(ts[0], id))
  {
  }

  /** The last present value of a list, or d when none is present. */
  function LastSome(xs: seq<Option<string>>, d: Option<string>): Option<string> {
    if xs == [] then d else LastSome(xs[1..], if xs[0].Some? then xs[0] else d)
  }

  /** The last present value wins; with none, the default is kept. */
  lemma {:induction false} LastSomeWins(xs: seq<Option<string>>, d: Option<string>)
    ensures (forall j | 0 <= j < |xs| :: xs[j].None?) ==> LastSome(xs, d) == d
    ensures forall j | 0 <= j < |xs| && xs[j].Some? && (forall k | j < k < |xs| :: xs[k].None?) ::
      LastSome(xs, d) == xs[j]
  {
    if xs != [] {
      var d' := if xs[0].Some? then xs[0] else d;
      var tail := xs[1..];
      LastSomeWins(tail, d');
      forall j | 0 <= j < |xs| && xs[j].Some? && (forall k | j < k < |xs| :: xs[k].None?)
        ensures LastSome(xs, d) == xs[j]
      {
        if j > 0 {
          assert tail[j - 1] == xs[j];
          assert forall k | j - 1 < k < |tail| :: tail[k] == xs[k + 1];
        } else {
          assert forall k | 0 <= k < |tail| :: tail[k] == xs[k + 1];
        }
      }
      if forall j | 0 <= j < |xs| :: xs[j].None? {
        assert forall k | 0 <= k < |tail| :: tail[k] == xs[k + 1];
      }
    }
  }

  /** What each field contributes to bm. */
  function Bms(ts: seq<string>): (xs: seq<Option<string>>)
    ensures |xs| == |ts| && forall j | 0 <= j < |ts| :: xs[j] == BmOf(ts[j])
  {
    if ts == [] then [] else [BmOf(ts[0])] + Bms(ts[1..])
  }

  /** What each field contributes to id. */
  function Ids(ts: seq<string>): (xs: seq<Option<string>>)
    ensures |xs| == |ts| && forall j | 0 <= j < |ts| :: xs[j] == IdOf(ts[j])
  {
    if ts == [] then [] else [IdOf(ts[0])] + Ids(ts[1..])
  }

  /** The field loop keeps the last bm and the last id the fields contribute. */
  lemma {:induction false} ScanFieldsLast(ts: seq<string>, bm: Option<string>, id: Option<string>)
    ensures ScanFields(ts, bm, id) == (LastSome(Bms(ts), bm), LastSome(Ids(ts), id))
  {
    if ts != [] {
      ScanStep(ts, bm, id);
      ScanFieldsLast(ts[1..], NextBm(ts[0], bm), NextId(ts[0], id));
      assert Bms(ts)[1..] == Bms(ts[1..]) && Ids(ts)[1..] == Ids(ts[1..]);
    }
  }

  /**
   * The expected move is that of the LAST `bm` field with a second token;
   * without one, the value the scan started with is kept.
   */
  lemma LastBmWins(ts: seq<string>, bm: Option<string>, id: Option<string>)
    ensures (forall j | 0 <= j < |ts| :: BmOf(ts[j]).None?) ==> ScanFields(ts, bm, id).0 == bm
    ensures forall j | 0 <= j < |ts| && BmOf(ts[j]).Some? && (forall k | j < k < |ts| :: BmOf(ts[k]).None?) ::
      ScanFields(ts, bm, id).0 == BmOf(ts[j])
  {
    ScanFieldsLast(ts, bm, id);
    LastSomeWins(Bms(ts), bm);
  }

  /** Likewise the identifier is that of the LAST `id` field (one not starting with `bm `). */
  lemma LastIdWins(ts: seq<string>, bm: Option<string>, id: Option<string>)
    ensures (forall j | 0 <= j < |ts| :: IdOf(ts[j]).None?) ==> ScanFields(ts, bm, id).1 == id
    ensures forall j | 0 <= j < |ts| && IdOf(ts[j]).Some? && (forall k | j < k < |ts| :: IdOf(ts[k]).None?) ::
      ScanFields(ts, bm, id).1 == IdOf(ts[j])
  {
    ScanFieldsLast(ts, bm, id);
    LastSomeWins(Ids(ts), id);
  }

  /** Records come out in file order: loading a concatenation concatenates the loads. */
  lemma {:induction false} LoadPositionsAppend(a: seq<string>, b: seq<string>)
    ensures LoadPositions(a + b) == LoadPositions(a) + LoadPositions(b)
  {
    if a != [] {
      assert (a + b)[0] == a[0];
      assert (a + b)[1..] == a[1..] + b;
      LoadPositionsAppend(a[1..], b);
    } else {
      assert a + b == b;
    }
  }

  /** One record per qualifying line, no more: a single line yields exactly what ParseLine gives. */
  lemma LoadPositionsOne(line: string)
    ensures LoadPositions([line]) == if ParseLine(line).Some? then [ParseLine(line).value] else []
  {
    assert [line][1..] == [];
  }

  /** Every loaded record comes from some line of the file, and there are at most as many as lines. */
  lemma {:induction false} LoadPositionsFromLines(lines: seq<string>)
    ensures |LoadPositions(lines)| <= |lines|
    ensures forall r | r in LoadPositions(lines) :: exists i | 0 <= i < |lines| :: ParseLine(lines[i]) == Some(r)
  {
    if lines != [] {
      LoadPositionsFromLines(lines[1..]);
      forall r | r in LoadPositions(lines)
        ensures exists i | 0 <= i < |lines| :: ParseLine(lines[i]) == Some(r)
      {
        if ParseLine(lines[0]) == Some(r) {
        } else {
          assert r in LoadPositions(lines[1..]);
          var i :| 0 <= i < |lines| - 1 && ParseLine(lines[1..][i]) == Some(r);
          assert lines[1..][i] == lines[i + 1];
        }
      }
    }
  }

  // ---------------------------------------------------------------------
  // query_bestmove

  /** The seven commands sent to the engine, in order. */
  function Commands(fen: string, depth: int, threads: int): seq<string> {
    [ "uci",
      "setoption name Threads value " + IntString(threads),
      "isready",
      "position fen " + fen,
      "isready",
      "go depth " + IntString(depth),
      "quit" ]
  }

  /** The engine's standard input: the commands joined by newlines, plus a final newline. */
  function EngineInput(fen: string, depth: int, threads: int): string {
    Join(Commands(fen, depth, threads), "\n") + "\n"
  }

  /** Splitting the newline-terminated join of newline-free lines gives the lines and a final empty piece. */
  lemma {:induction false} SplitOnJoinTerminated(ps: seq<string>, c: char)
    requires |ps| >= 1
    requires forall i | 0 <= i < |ps| :: c !in ps[i]
    ensures SplitOn(Join(ps, [c]) + [c], c) == ps + [[]]
  {
    if |ps| == 1 {
      assert Join(ps, [c]) + [c] == ps[0] + [c] + [];
      SplitOnAfterPiece(ps[0], c, []);
    } else {
      var rest := Join(ps[1..], [c]) + [c];
      assert Join(ps, [c]) + [c] == ps[0] + [c] + rest;
      SplitOnAfterPiece(ps[0], c, rest);
      assert forall i | 0 <= i < |ps| - 1 :: ps[1..][i] == ps[i + 1];
      SplitOnJoinTerminated(ps[1..], c);
      assert [ps[0]] + (ps[1..] + [[]]) == ps + [[]];
    }
  }

  lemma IntStringNoNewline(i: int)
    ensures '\n' !in IntString(i)
  {
    var d := Decimal(if i < 0 then -i else i);
    assert forall k | 0 <= k < |d| :: IsDigit(d[k]);
    if i < 0 {
      assert forall k | 0 <= k < |IntString(i)| :: IntString(i)[k] == '-' || IntString(i)[k] == d[k - 1];
    }
  }

  /** The engine reads exactly the seven commands, each on its own line, and nothing after them. */
  lemma EngineInputLines(fen: string, depth: int, threads: int)
    requires '\n' !in fen
    ensures SplitOn(EngineInput(fen, depth, threads), '\n') == Commands(fen, depth, threads) + [[]]
  {
    var cs := Commands(fen, depth, threads);
    IntStringNoNewline(depth);
    IntStringNoNewline(threads);
    assert '\n' !in cs[1] by {
      assert cs[1] == "setoption name Threads value " + IntString(threads);
    }
    assert '\n' !in cs[3] by {
      assert cs[3] == "position fen " + fen;
    }
    assert '\n' !in cs[5] by {
      assert cs[5] == "go depth " + IntString(depth);
    }
    SplitOnJoinTerminated(cs, '\n');
  }

  /** What a `bestmove` line reports: its second whitespace token, if any. */
  function BestmoveOf(line: string): Option<string> {
    var p := Tokens(line);
    if |p| >= 2 then Some(p[1]) else None
  }

  /** The scan of stdout: the first line starting with `bestmove` decides. */
  function ScanBestmove(lines: seq<string>): Option<string> {
    if lines == [] then None
    else if "bestmove" <= lines[0] then BestmoveOf(lines[0])
    else ScanBestmove(lines[1..])
  }

  datatype QueryOutcome = Answer(move: Option<string>) | EngineError(code: int)

  /** query_bestmove once the engine has run: a nonzero exit code is an error. */
  function QueryBestmove(exitCode: int, stdoutLines: seq<string>): (r: QueryOutcome)
    ensures r.EngineError? <==> exitCode != 0
    ensures r.EngineError? ==> r.code == exitCode
    ensures r.Answer? && r.move.Some? ==> IsToken(r.move.value)
  {
    if exitCode != 0 then EngineError(exitCode)
    else
      ScanBestmoveIsToken(stdoutLines);
      Answer(ScanBestmove(stdoutLines))
  }

  lemma {:induction false} ScanBestmoveIsToken(lines: seq<string>)
    ensures ScanBestmove(lines).Some? ==> IsToken(ScanBestmove(lines).value)
  {
    if lines != [] {
      if "bestmove" <= lines[0] {
        TokensAreTokens(lines[0]);
      } else {
        ScanBestmoveIsToken(lines[1..]);
      }
    }
  }

  /** The first `bestmove` line decides the answer, whatever follows it. */
  lemma {:induction false} FirstBestmoveDecides(lines: seq<string>, j: nat)
    requires j < |lines| && "bestmove" <= lines[j]
    requires forall k | 0 <= k < j :: !("bestmove" <= lines[k])
    ensures ScanBestmove(lines) == BestmoveOf(lines[j])
  {
    if j > 0 {
      assert forall k | 0 <= k < j - 1 :: lines[1..][k] == lines[k + 1];
      FirstBestmoveDecides(lines[1..], j - 1);
    }
  }

  /** Without a `bestmove` line the answer is None. */
  lemma {:induction false} NoBestmoveLine(lines: seq<string>)
    requires forall k | 0 <= k < |lines| :: !("bestmove" <= lines[k])
    ensures ScanBestmove(lines) == None
  {
    if lines != [] {
      assert forall k | 0 <= k < |lines| - 1 :: lines[1..][k] == lines[k + 1];
      NoBestmoveLine(lines[1..]);
    }
  }

  // ---------------------------------------------------------------------
  // run_suite

  /** The engine's reply to one query: its exit code and its stdout, split into lines. */
  datatype Reply = Reply(exitCode: int, stdoutLines: seq<string>)

  /** One failed position: 1-based index, id, expected move and what the engine said. */
  datatype Mismatch = Mismatch(index: nat, id: Option<string>, expected: string, got: Option<string>)

  /** The move scored for a reply; an engine error scores as None. */
  function Scored(r: Reply): Option<string> {
    match QueryBestmove(r.exitCode, r.stdoutLines)
    case Answer(m) => m
    case EngineError(_) => None
  }

  /** Python's positions[:limit]. */
  function Kept(positions: seq<Record>, limit: Option<int>): (kept: seq<Record>)
    ensures kept <= positions
    ensures limit.Some? && limit.value >= 0 ==> |kept| == Min(limit.value, |positions|)
    ensures limit.Some? && limit.value < 0 ==> |kept| == Max(0, |positions| + limit.value)
    ensures limit.None? ==> kept == positions
  {
    match limit
    case None => positions
    case Some(l) =>
      if l >= 0 then positions[..Min(l, |positions|)]
      else positions[..Max(0, |positions| + l)]
  }

  /** How many of the positions were answered with exactly the expected move. */
  function SolvedCount(ps: seq<Record>, rs: seq<Reply>): nat
    requires |rs| == |ps|
  {
    if ps == [] then 0
    else
      var n := |ps|;
      SolvedCount(ps[..n - 1], rs[..n - 1]) + (if Scored(rs[n - 1]) == Some(ps[n - 1].bm) then 1 else 0)
  }

  /** The mismatches, in position order, with 1-based indices. */
  function MismatchList(ps: seq<Record>, rs: seq<Reply>): seq<Mismatch>
    requires |rs| == |ps|
  {
    if ps == [] then []
    else
      var n := |ps|;
      var p := ps[n - 1];
      MismatchList(ps[..n - 1], rs[..n - 1])
        + (if Scored(rs[n - 1]) == Some(p.bm) then [] else [Mismatch(n, p.id, p.bm, Scored(rs[n - 1]))])
  }

  /** Every position is either solved or a mismatch, never both. */
  lemma {:induction false} EveryPositionScoredOnce(ps: seq<Record>, rs: seq<Reply>)
    requires |rs| == |ps|
    ensures SolvedCount(ps, rs) + |MismatchList(ps, rs)| == |ps|
  {
    if ps != [] {
      EveryPositionScoredOnce(ps[..|ps| - 1], rs[..|ps| - 1]);
    }
  }

  /**
   * Each mismatch names a real position by its 1-based index, carries that
   * position's id and expected move, and what the engine answered, which
   * differs from the expected move; the indices strictly increase.
   */
  lemma {:induction false} MismatchesDescribePositions(ps: seq<Record>, rs: seq<Reply>)
    requires |rs| == |ps|
    ensures forall m | m in MismatchList(ps, rs) ::
      1 <= m.index <= |ps| && m.expected == ps[m.index - 1].bm && m.id == ps[m.index - 1].id &&
      m.got == Scored(rs[m.index - 1]) && m.got != Some(m.expected)
    ensures forall a, b | 0 <= a < b < |MismatchList(ps, rs)| ::
      MismatchList(ps, rs)[a].index < MismatchList(ps, rs)[b].index
  {
    if ps != [] {
      var n := |ps|;
      MismatchesDescribePositions(ps[..n - 1], rs[..n - 1]);
      var prev := MismatchList(ps[..n - 1], rs[..n - 1]);
      assert forall m | m in prev :: ps[..n - 1][m.index - 1] == ps[m.index - 1] && rs[..n - 1][m.index - 1] == rs[m.index - 1];
    }
  }

  datatype SuiteReport = SuiteReport(total: nat, solved: nat, mismatches: seq<Mismatch>)

  /**
   * run_suite without its printing and timing: keep the first `limit`
   * records, refuse an empty suite, then score each kept position against
   * the engine's reply for it (replies[i] answers the i-th kept position).
   */
  method RunSuite(positions: seq<Record>, limit: Option<int>, replies: seq<Reply>)
    returns (r: Result<SuiteReport, string>)
    requires |replies| >= |Kept(positions, limit)|
    ensures r.Err? <==> Kept(positions, limit) == []
    ensures r.Ok? ==> r.value.total == |Kept(positions, limit)|
    ensures r.Ok? ==> r.value.solved + |r.value.mismatches| == r.value.total
    ensures r.Ok? ==> var kept := Kept(positions, limit);
      r.value.solved == SolvedCount(kept, replies[..|kept|]) &&
      r.value.mismatches == MismatchList(kept, replies[..|kept|])
  {
    var kept := Kept(positions, limit);
    if kept == [] {
      return Err("No positions found in suite");
    }
    var mismatches: seq<Mismatch> := [];
    var solved: nat := 0;
    var i := 0;
    while i < |kept|
      invariant 0 <= i <= |kept|
      invariant solved == SolvedCount(kept[..i], replies[..i])
      invariant mismatches == MismatchList(kept[..i], replies[..i])
    {
      var p := kept[i];
      var bestmove: Option<string>;
      var q := QueryBestmove(replies[i].exitCode, replies[i].stdoutLines);
      if q.EngineError? {
        bestmove := None;
      } else {
        bestmove := q.move;
      }
      assert kept[..i + 1][..i] == kept[..i];
      assert replies[..i + 1][..i] == replies[..i];
      if bestmove == Some(p.bm) {
        solved := solved + 1;
      } else {
        mismatches := mismatches + [Mismatch(i + 1, p.id, p.bm, bestmove)];
      }
      i := i + 1;
    }
    assert kept[..i] == kept;
    EveryPositionScoredOnce(kept, replies[..|kept|]);
    return Ok(SuiteReport(|kept|, solved, mismatches));
  }
}
