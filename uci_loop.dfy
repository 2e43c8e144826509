// The UCI state machine: UciEngine holds the protocol state, a board and a
// running flag; handle_command answers one parsed command with the lines it
// would print and updates the fields in place. The read loop of
// run_uci_loop is modelled over a sequence of input lines.

module UciLoop {
  import opened Common
  import opened Text
  import opened UciParser
  import opened Position
  import opened Chessboard
  import TacticalHarness

  datatype UciState = Init | Ready | Thinking | Pondering

  // ---------------------------------------------------------------------
  // Specification

  /** Rust's {:?} escaping inside a string literal, for the characters a token can hold that it escapes. */
  function Escape(s: string): (r: string)
    ensures '"' !in s && '\\' !in s ==> r == s
  {
    if s == [] then []
    else (if s[0] == '"' then "\\\"" else if s[0] == '\\' then "\\\\" else [s[0]]) + Escape(s[1..])
  }

  /** Rust's {:?} of an Option<String>: None, or Some("...") with the text escaped. */
  function DebugOption(v: Option<string>): string {
    if v.None? then "None" else "Some(\"" + Escape(v.value) + "\")"
  }

  /** The lines handle_command returns for a command. */
  function Responses(cmd: UciCommand): seq<string> {
    match cmd
    case Uci => ["id name Scacchista", "id author Claude Code", "uciok"]
    case IsReady => ["readyok"]
    case Go(_, _, _, _, _, _, _, _, _) => ["info string starting search", "bestmove e2e4"]
    case SetOption(name, value) => ["info string setoption " + name + " = " + DebugOption(value)]
    case Unknown(s) => ["info string unknown command: " + s]
    case _ => []
  }

  /** The protocol state after a command. */
  function NextState(s: UciState, cmd: UciCommand): UciState {
    if cmd.Position? || cmd.Go? || cmd.Stop? || cmd.UciNewGame? then Ready
    else if cmd.PonderHit? && s == Pondering then Thinking
    else s
  }

  /** The commands that replace the board by a new one: `ucinewgame`, and `position` without a FEN. */
  predicate ResetsBoard(cmd: UciCommand) {
    cmd.UciNewGame? || (cmd.Position? && cmd.fen.None?)
  }

  /** The state after a sequence of commands. */
  function Run(s: UciState, cmds: seq<UciCommand>): UciState
    decreases |cmds|
  {
    if cmds == [] then s else Run(NextState(s, cmds[0]), cmds[1..])
  }

  /** The running flag after a sequence of commands. */
  function RunningAfter(running: bool, cmds: seq<UciCommand>): bool
    decreases |cmds|
  {
    if cmds == [] then running else RunningAfter(running && !cmds[0].Quit?, cmds[1..])
  }

  /**
   * The read loop over the input lines: while running, each line is
   * trimmed, a blank one is skipped, and any other is parsed and handled.
   * The result is the lines written, the final state and the running flag.
   */
  function Session(s: UciState, running: bool, lines: seq<string>): (seq<string>, UciState, bool)
    decreases |lines|
  {
    if !running || lines == [] then ([], s, running)
    else
      var line := Strip(lines[0]);
      if line == [] then Session(s, running, lines[1..])
      else
        var cmd := Parse(line);
        var rest := Session(NextState(s, cmd), !cmd.Quit?, lines[1..]);
        (Responses(cmd) + rest.0, rest.1, rest.2)
  }

  // ---------------------------------------------------------------------
  // The engine

  class UciEngine {
    var state: UciState
    var board: Board
    var running: bool

    /** UciEngine::new: state Init, a new board, running. */
    constructor()
      ensures state == Init && running
      ensures fresh(board) && board.Valid() && board.Snapshot() == Empty()
    {
      state := Init;
      board := new Board();
      running := true;
    }

    /** handle_command: answers with Responses and moves to NextState; only `quit` stops the engine. */
    method HandleCommand(cmd: UciCommand) returns (res: seq<string>)
      modifies this
      ensures res == Responses(cmd)
      ensures state == NextState(old(state), cmd)
      ensures running == (old(running) && !cmd.Quit?)
      ensures ResetsBoard(cmd) ==> fresh(board) && board.Valid() && board.Snapshot() == Empty()
      ensures !ResetsBoard(cmd) ==> board == old(board)
    {
      res := [];
      match cmd
      case Uci =>
        res := res + ["id name Scacchista"];
        res := res + ["id author Claude Code"];
        res := res + ["uciok"];
      case IsReady =>
        res := res + ["readyok"];
      case Position(fen, moves) =>
        if fen.None? {
          board := new Board();
        }
        state := Ready;
      case Go(_, _, _, _, _, _, _, _, _) =>
        res := res + ["info string starting search"];
        res := res + ["bestmove e2e4"];
        state := Ready;
      case Stop =>
        state := Ready;
      case UciNewGame =>
        board := new Board();
        state := Ready;
      case SetOption(name, value) =>
        res := res + ["info string setoption " + name + " = " + DebugOption(value)];
      case PonderHit =>
        if state == Pondering {
          state := Thinking;
        }
      case Quit =>
        running := false;
      case Unknown(s) =>
        res := res + ["info string unknown command: " + s];
    }

    /**
     * One turn of run_uci_loop's loop on lines[i]: a blank line is
     * skipped, any other is parsed and handled. What the rest of the
     * session writes afterwards completes what it would have written
     * from lines[i] on.
     */
    method ReadLine(lines: seq<string>, i: nat) returns (res: seq<string>)
      requires running && i < |lines|
      modifies this
      ensures var before := Session(old(state), true, lines[i..]);
        var after := Session(state, running, lines[i + 1..]);
        before == (res + after.0, after.1, after.2)
    {
      ghost var s0 := state;
      assert lines[i..][0] == lines[i] && lines[i..][1..] == lines[i + 1..];
      var line := Strip(lines[i]);
      if line == [] {
        assert Session(s0, true, lines[i..]) == Session(s0, true, lines[i + 1..]);
        res := [];
        assert res + Session(s0, true, lines[i + 1..]).0 == Session(s0, true, lines[i + 1..]).0;
        return;
      }
      var cmd := ParseUciCommand(line);
      SessionStep(s0, lines[i..], cmd);
      res := HandleCommand(cmd);
      assert state == NextState(s0, cmd) && running == !cmd.Quit?;
    }

    /** The loop of run_uci_loop over the lines read, until the input ends or the engine stops running. */
    method RunLines(lines: seq<string>) returns (out: seq<string>)
      modifies this
      ensures (out, state, running) == Session(old(state), old(running), lines)
    {
      ghost var total := Session(state, running, lines);
      out := [];
      var i := 0;
      assert lines[i..] == lines && out + total.0 == total.0;
      while running && i < |lines|
        invariant 0 <= i <= |lines|
        invariant var rest := Session(state, running, lines[i..]);
          total == (out + rest.0, rest.1, rest.2)
        decreases |lines| - i
      {
        ghost var before := Session(state, running, lines[i..]);
        var responses := ReadLine(lines, i);
        ghost var after := Session(state, running, lines[i + 1..]);
        Accumulate(total, out, responses, before, after);
        out := out + responses;
        i := i + 1;
      }
      SessionDone(state, running, lines[i..]);
      Finish(total, out, Session(state, running, lines[i..]));
    }
  }

  /** Output written so far, then a step's responses, then the rest of the session. */
  lemma Accumulate(total: (seq<string>, UciState, bool), out: seq<string>, responses: seq<string>,
                   before: (seq<string>, UciState, bool), after: (seq<string>, UciState, bool))
    requires total == (out + before.0, before.1, before.2)
    requires before == (responses + after.0, after.1, after.2)
    ensures total == ((out + responses) + after.0, after.1, after.2)
  {
    assert out + (responses + after.0) == (out + responses) + after.0;
  }

  lemma Finish(total: (seq<string>, UciState, bool), out: seq<string>, rest: (seq<string>, UciState, bool))
    requires total == (out + rest.0, rest.1, rest.2) && rest.0 == []
    ensures total == (out, rest.1, rest.2)
  {
    assert out + [] == out;
  }

  /** A stopped engine, or one out of lines, writes nothing more. */
  lemma SessionDone(s: UciState, running: bool, lines: seq<string>)
    requires !running || lines == []
    ensures Session(s, running, lines) == ([], s, running)
  {
  }

  /** process_uci_line: handle_command of the parsed line. */
  method ProcessUciLine(line: string, engine: UciEngine) returns (res: seq<string>)
    modifies engine
    ensures res == Responses(Parse(line))
    ensures engine.state == NextState(old(engine.state), Parse(line))
    ensures engine.running == (old(engine.running) && !Parse(line).Quit?)
    ensures ResetsBoard(Parse(line)) ==> fresh(engine.board) && engine.board.Valid() && engine.board.Snapshot() == Empty()
    ensures !ResetsBoard(Parse(line)) ==> engine.board == old(engine.board)
  {
    var cmd := ParseUciCommand(line);
    res := engine.HandleCommand(cmd);
  }

  // ---------------------------------------------------------------------
  // Properties

  /**
   * Thinking and Pondering are never entered from Init or Ready, since no
   * command leads to Pondering; and once Ready the engine stays Ready.
   */
  lemma {:induction false} NeverThinking(s: UciState, cmds: seq<UciCommand>)
    requires s == Init || s == Ready
    ensures Run(s, cmds) == Init || Run(s, cmds) == Ready
    ensures s == Ready ==> Run(s, cmds) == Ready
    decreases |cmds|
  {
    if cmds != [] {
      NeverThinking(NextState(s, cmds[0]), cmds[1..]);
    }
  }

  /** The engine leaves Init exactly when a position, go, stop or ucinewgame arrives, and never returns to it. */
  lemma {:induction false} InitUntilActivated(cmds: seq<UciCommand>)
    ensures Run(Init, cmds) == Init <==>
            forall i | 0 <= i < |cmds| :: !(cmds[i].Position? || cmds[i].Go? || cmds[i].Stop? || cmds[i].UciNewGame?)
    decreases |cmds|
  {
    if cmds != [] {
      var c := cmds[0];
      if c.Position? || c.Go? || c.Stop? || c.UciNewGame? {
        NeverThinking(Ready, cmds[1..]);
        assert Run(Init, cmds) == Run(Ready, cmds[1..]);
      } else {
        InitUntilActivated(cmds[1..]);
        assert forall i | 1 <= i < |cmds| :: cmds[i] == cmds[1..][i - 1];
      }
    }
  }

  /** The engine keeps running exactly as long as no `quit` has arrived; nothing restarts it. */
  lemma {:induction false} QuitIsFinal(running: bool, cmds: seq<UciCommand>)
    ensures RunningAfter(running, cmds) <==> running && forall i | 0 <= i < |cmds| :: !cmds[i].Quit?
    decreases |cmds|
  {
    if cmds != [] {
      QuitIsFinal(running && !cmds[0].Quit?, cmds[1..]);
      if cmds[0].Quit? {
        assert !RunningAfter(running, cmds);
      } else {
        assert forall i | 1 <= i < |cmds| :: cmds[i] == cmds[1..][i - 1];
      }
    }
  }

  /** The answer to an unknown command is the one line that echoes it. */
  lemma UnknownResponse(w: string)
    ensures Responses(Unknown(w)) == ["info string unknown command: " + w]
  {
  }

  /** A blank line is answered with the unknown-command line for the empty text. */
  lemma BlankLineIsUnknown(line: string)
    requires forall i | 0 <= i < |line| :: IsSpace(line[i])
    ensures Responses(Parse(line)) == ["info string unknown command: "]
  {
    TrimStartAllSpace(line);
    assert Tokens(line) == [];
    assert Parse(line) == Unknown([]);
    UnknownResponse([]);
    assert "info string unknown command: " + [] == "info string unknown command: ";
  }

  /** `uci` followed by anything answers with exactly the identification lines. */
  lemma UciReplies(rest: string)
    ensures Responses(Parse("uci " + rest)) == ["id name Scacchista", "id author Claude Code", "uciok"]
  {
    assert IsToken("uci") && Keyword("uci") == Some(Uci);
    FirstWordDecides("uci", rest);
    assert "uci " + rest == "uci" + " " + rest;
  }

  /** `isready` followed by anything answers with exactly readyok. */
  lemma IsReadyReplies(rest: string)
    ensures Responses(Parse("isready " + rest)) == ["readyok"]
  {
    assert IsToken("isready") && Keyword("isready") == Some(IsReady);
    FirstWordDecides("isready", rest);
    assert "isready " + rest == "isready" + " " + rest;
  }

  /** An unrecognised first token is echoed back, whatever follows it. */
  lemma UnknownEcho(w: string, rest: string)
    requires IsToken(w) && Keyword(w).None? && w != "setoption" && w != "position" && w != "go"
    ensures Responses(Parse(w + " " + rest)) == ["info string unknown command: " + w]
  {
    FirstWordDecides(w, rest);
  }

  /** A line whose first token is w: its command is the one ParseTokens picks for w and the remaining tokens. */
  lemma FirstToken(w: string, rest: string)
    requires IsToken(w)
    ensures Strip(w + " " + rest) != [] && Parse(Strip(w + " " + rest)) == ParseTokens([w] + Tokens(rest))
  {
    Regroup(w, " ", rest);
    TokensOfTokenSpace(w, rest);
    TokensOfStrip(w + " " + rest);
  }

  /** A line holding one argument-free keyword alone is already trimmed and parses as that keyword. */
  lemma KeywordLine(w: string)
    requires IsToken(w) && Keyword(w).Some?
    ensures Strip(w) == w && Parse(w) == Keyword(w).value
  {
    TokensOfSingle(w);
    assert Join([w], " ") == w;
  }

  /** The responses to a sequence of commands, in order. */
  function AllResponses(cmds: seq<UciCommand>): seq<string>
    decreases |cmds|
  {
    if cmds == [] then [] else Responses(cmds[0]) + AllResponses(cmds[1..])
  }

  /** The first |cmds| lines are non-blank and parse, in order, as cmds. */
  predicate ParsesTo(lines: seq<string>, cmds: seq<UciCommand>)
    decreases |cmds|
  {
    |cmds| <= |lines| &&
    (cmds != [] ==> Strip(lines[0]) != [] && Parse(Strip(lines[0])) == cmds[0] && ParsesTo(lines[1..], cmds[1..]))
  }

  /** A non-blank line parsing as c, before lines parsing as cs. */
  lemma ParsesToCons(l: string, ls: seq<string>, c: UciCommand, cs: seq<UciCommand>)
    requires Strip(l) != [] && Parse(Strip(l)) == c && ParsesTo(ls, cs)
    ensures ParsesTo([l] + ls, [c] + cs)
  {
    assert ([l] + ls)[0] == l && ([l] + ls)[1..] == ls;
    assert ([c] + cs)[0] == c && ([c] + cs)[1..] == cs;
  }

  /** The harness's eight lines, the last one empty, parse as its seven commands. */
  lemma HarnessParses(u: string, l1: string, r: string, l3: string, l5: string, q: string)
    requires Strip(u) != [] && Parse(Strip(u)) == Uci
    requires Strip(l1) != [] && Parse(Strip(l1)).SetOption?
    requires Strip(r) != [] && Parse(Strip(r)) == IsReady
    requires Strip(l3) != [] && Parse(Strip(l3)).Position?
    requires Strip(l5) != [] && Parse(Strip(l5)).Go?
    requires Strip(q) != [] && Parse(Strip(q)) == Quit
    ensures ParsesTo([u] + ([l1] + ([r] + ([l3] + ([r] + ([l5] + ([q] + [[]])))))),
      [Uci] + ([Parse(Strip(l1))] + ([IsReady] + ([Parse(Strip(l3))] + ([IsReady] + ([Parse(Strip(l5))] + [Quit]))))))
  {
    var none: seq<UciCommand> := [];
    assert ParsesTo([[]], none);
    ParsesToCons(q, [[]], Quit, none);
    assert [Quit] + none == [Quit];
    ParsesToCons(l5, [q] + [[]], Parse(Strip(l5)), [Quit]);
    ParsesToCons(r, [l5] + ([q] + [[]]), IsReady, [Parse(Strip(l5))] + [Quit]);
    ParsesToCons(l3, [r] + ([l5] + ([q] + [[]])), Parse(Strip(l3)), [IsReady] + ([Parse(Strip(l5))] + [Quit]));
    ParsesToCons(r, [l3] + ([r] + ([l5] + ([q] + [[]]))), IsReady,
      [Parse(Strip(l3))] + ([IsReady] + ([Parse(Strip(l5))] + [Quit])));
    ParsesToCons(l1, [r] + ([l3] + ([r] + ([l5] + ([q] + [[]])))), Parse(Strip(l1)),
      [IsReady] + ([Parse(Strip(l3))] + ([IsReady] + ([Parse(Strip(l5))] + [Quit]))));
    ParsesToCons(u, [l1] + ([r] + ([l3] + ([r] + ([l5] + ([q] + [[]]))))), Uci,
      [Parse(Strip(l1))] + ([IsReady] + ([Parse(Strip(l3))] + ([IsReady] + ([Parse(Strip(l5))] + [Quit])))));
  }

  /**
   * Non-blank lines up to and including a `quit`: the loop writes the
   * responses to their commands in order, ends in the state Run gives and
   * stops there, whatever lines follow.
   */
  lemma {:induction false} SessionUntilQuit(s: UciState, lines: seq<string>, cmds: seq<UciCommand>)
    requires cmds != [] && ParsesTo(lines, cmds)
    requires cmds[|cmds| - 1].Quit? && forall i | 0 <= i < |cmds| - 1 :: !cmds[i].Quit?
    ensures Session(s, true, lines) == (AllResponses(cmds), Run(s, cmds), false)
    decreases |cmds|
  {
    if |cmds| == 1 {
      SessionLastQuit(s, lines, cmds);
    } else {
      QuitStillAhead(cmds);
      SessionUntilQuit(NextState(s, cmds[0]), lines[1..], cmds[1..]);
      SessionCons(s, lines, cmds);
    }
  }

  /** A quit as the only command ends the session with its responses. */
  lemma SessionLastQuit(s: UciState, lines: seq<string>, cmds: seq<UciCommand>)
    requires |cmds| == 1 && ParsesTo(lines, cmds) && cmds[0].Quit?
    ensures Session(s, true, lines) == (AllResponses(cmds), Run(s, cmds), false)
  {
    var next := NextState(s, cmds[0]);
    assert Session(next, false, lines[1..]) == ([], next, false);
    SessionCons(s, lines, cmds);
  }

  /** The session over lines parsing as cmds is the first command's responses before the rest's. */
  lemma SessionCons(s: UciState, lines: seq<string>, cmds: seq<UciCommand>)
    requires cmds != [] && ParsesTo(lines, cmds)
    requires var next := NextState(s, cmds[0]);
      Session(next, !cmds[0].Quit?, lines[1..]) == (AllResponses(cmds[1..]), Run(next, cmds[1..]), false)
    ensures Session(s, true, lines) == (AllResponses(cmds), Run(s, cmds), false)
  {
    SessionStep(s, lines, cmds[0]);
  }

  /** Before the last command of a list ending in its only quit, the rest still ends in its only quit. */
  lemma QuitStillAhead(cmds: seq<UciCommand>)
    requires |cmds| > 1
    requires cmds[|cmds| - 1].Quit? && forall i | 0 <= i < |cmds| - 1 :: !cmds[i].Quit?
    ensures !cmds[0].Quit?
    ensures var tail := cmds[1..]; tail[|tail| - 1].Quit? && forall i | 0 <= i < |tail| - 1 :: !tail[i].Quit?
  {
  }

  /** One step of the loop on a non-blank line that parses as c. */
  lemma SessionStep(s: UciState, lines: seq<string>, c: UciCommand)
    requires |lines| >= 1 && Strip(lines[0]) != [] && Parse(Strip(lines[0])) == c
    ensures var rest := Session(NextState(s, c), !c.Quit?, lines[1..]);
      Session(s, true, lines) == (Responses(c) + rest.0, rest.1, rest.2)
  {
  }

  /** The harness's setoption line parses as a setoption. */
  lemma SetOptionLine(v: string)
    ensures var l := "setoption name Threads value " + v; Strip(l) != [] && Parse(Strip(l)).SetOption?
  {
    assert "setoption name Threads value " + v == "setoption" + " " + ("name Threads value " + v);
    assert IsToken("setoption") && Keyword("setoption") == None;
    FirstToken("setoption", "name Threads value " + v);
  }

  /** The harness's position line parses as a position. */
  lemma PositionLine(fen: string)
    ensures var l := "position fen " + fen; Strip(l) != [] && Parse(Strip(l)).Position?
  {
    assert "position fen " + fen == "position" + " " + ("fen " + fen);
    assert IsToken("position") && Keyword("position") == None && "position" != "setoption";
    FirstToken("position", "fen " + fen);
    var parts := ["position"] + Tokens("fen " + fen);
    assert parts[0] == "position";
    assert Parse(Strip("position fen " + fen)) == PositionSpec(parts);
    assert PositionSpec(parts).Position?;
  }

  /** The harness's go line parses as a go. */
  lemma GoLine(v: string)
    ensures var l := "go depth " + v; Strip(l) != [] && Parse(Strip(l)).Go?
  {
    assert "go depth " + v == "go" + " " + ("depth " + v);
    assert IsToken("go") && Keyword("go") == None && "go" != "setoption" && "go" != "position";
    FirstToken("go", "depth " + v);
  }

  /** The harness's keyword lines parse as their keywords. */
  lemma UciLine()
    ensures Strip("uci") != [] && Parse(Strip("uci")) == Uci
  {
    assert IsToken("uci") && Keyword("uci") == Some(Uci);
    KeywordLine("uci");
  }

  lemma IsReadyLine()
    ensures Strip("isready") != [] && Parse(Strip("isready")) == IsReady
  {
    assert IsToken("isready") && Keyword("isready") == Some(IsReady);
    KeywordLine("isready");
  }

  lemma QuitLine()
    ensures Strip("quit") != [] && Parse(Strip("quit")) == Quit
  {
    assert IsToken("quit") && Keyword("quit") == Some(Quit);
    KeywordLine("quit");
  }

  /** None of the lines answering uci, isready, setoption or position starts with `b`. */
  lemma QuietResponses(c: UciCommand)
    requires c.Uci? || c.IsReady? || c.SetOption? || c.Position?
    ensures forall i | 0 <= i < |Responses(c)| :: |Responses(c)[i]| > 0 && Responses(c)[i][0] != 'b'
  {
    if c.Uci? {
      assert "id name Scacchista"[0] == 'i' && "id author Claude Code"[0] == 'i' && "uciok"[0] == 'u';
    } else if c.IsReady? {
      assert "readyok"[0] == 'r';
    } else if c.SetOption? {
      var line := "info string setoption " + c.name + " = " + DebugOption(c.value);
      assert Responses(c) == [line];
      assert line[0] == 'i';
    }
  }

  /** The answer to uci, isready, setoption or position does not end a scan for `bestmove`. */
  lemma ScanQuiet(c: UciCommand, rest: seq<string>)
    requires c.Uci? || c.IsReady? || c.SetOption? || c.Position?
    ensures TacticalHarness.ScanBestmove(Responses(c) + rest) == TacticalHarness.ScanBestmove(rest)
  {
    QuietResponses(c);
    ScanSkips(Responses(c), rest);
  }

  /** A scan that reaches the answer to a `go` finds `bestmove e2e4` there. */
  lemma ScanGo(c: UciCommand, rest: seq<string>)
    requires c.Go?
    ensures TacticalHarness.ScanBestmove(Responses(c) + rest) == Some("e2e4")
  {
    GoResponses(c);
    PairThen("info string starting search", "bestmove e2e4", rest);
    StartingSearchQuiet();
    ScanSkips(["info string starting search"], ["bestmove e2e4"] + rest);
    BestmoveLine(rest);
  }

  lemma GoResponses(c: UciCommand)
    requires c.Go?
    ensures Responses(c) == ["info string starting search", "bestmove e2e4"]
  {
  }

  lemma PairThen<T>(x: T, y: T, r: seq<T>)
    ensures [x, y] + r == [x] + ([y] + r)
  {
  }

  lemma StartingSearchQuiet()
    ensures forall i | 0 <= i < |["info string starting search"]| ::
      |["info string starting search"][i]| > 0 && ["info string starting search"][i][0] != 'b'
  {
    var l := ["info string starting search"];
    assert l[0][0] == 'i';
  }

  /** A scan that reaches `bestmove e2e4` answers e2e4. */
  lemma BestmoveLine(rest: seq<string>)
    ensures TacticalHarness.ScanBestmove(["bestmove e2e4"] + rest) == Some("e2e4")
  {
    assert IsToken("e2e4");
    assert "bestmove e2e4" == "bestmove " + "e2e4";
    ScanFindsBestmove("e2e4", rest);
  }

  /** A scan that reaches `bestmove m`, for a token m, answers m. */
  lemma ScanFindsBestmove(m: string, rest: seq<string>)
    requires IsToken(m)
    ensures TacticalHarness.ScanBestmove(["bestmove " + m] + rest) == Some(m)
  {
    BestmoveTokensOf(m);
    BestmovePrefix(m);
    assert (["bestmove " + m] + rest)[0] == "bestmove " + m;
  }

  lemma BestmoveTokensOf(m: string)
    requires IsToken(m)
    ensures Tokens("bestmove " + m) == ["bestmove", m]
  {
    BestmoveSpace(m);
    BestmoveIsToken();
    TokensOfPair("bestmove", m);
  }

  lemma BestmoveSpace(m: string)
    ensures "bestmove " + m == "bestmove" + (" " + m)
  {
  }

  lemma BestmoveIsToken()
    ensures IsToken("bestmove")
  {
  }

  lemma BestmovePrefix(m: string)
    ensures "bestmove" <= "bestmove " + m
  {
    assert ("bestmove " + m)[..8] == "bestmove";
  }

  lemma AllResponsesCons(c: UciCommand, cs: seq<UciCommand>)
    ensures AllResponses([c] + cs) == Responses(c) + AllResponses(cs)
  {
    assert ([c] + cs)[0] == c && ([c] + cs)[1..] == cs;
  }

  lemma RunCons(s: UciState, c: UciCommand, cs: seq<UciCommand>)
    ensures Run(s, [c] + cs) == Run(NextState(s, c), cs)
  {
    assert ([c] + cs)[0] == c && ([c] + cs)[1..] == cs;
  }

  /**
   * The harness's seven commands: the scan of their answers finds
   * `bestmove e2e4`, they leave the engine Ready, and only the last is a quit.
   */
  lemma HarnessAnswers(c1: UciCommand, c3: UciCommand, c5: UciCommand)
    requires c1.SetOption? && c3.Position? && c5.Go?
    ensures var cmds := [Uci] + ([c1] + ([IsReady] + ([c3] + ([IsReady] + ([c5] + [Quit])))));
      TacticalHarness.ScanBestmove(AllResponses(cmds)) == Some("e2e4") && Run(Init, cmds) == Ready &&
      |cmds| == 7 && cmds[6].Quit? && forall i | 0 <= i < 6 :: !cmds[i].Quit?
  {
    HarnessScan(c1, c3, c5);
    HarnessRun(c1, c3, c5);
    HarnessQuitsLast(c1, c3, c5);
  }

  lemma HarnessScan(c1: UciCommand, c3: UciCommand, c5: UciCommand)
    requires c1.SetOption? && c3.Position? && c5.Go?
    ensures var cmds := [Uci] + ([c1] + ([IsReady] + ([c3] + ([IsReady] + ([c5] + [Quit])))));
      TacticalHarness.ScanBestmove(AllResponses(cmds)) == Some("e2e4")
  {
    var k6 := [Quit];
    var k5 := [c5] + k6;
    var k4 := [IsReady] + k5;
    var k3 := [c3] + k4;
    var k2 := [IsReady] + k3;
    var k1 := [c1] + k2;
    AllResponsesCons(c5, k6);
    ScanGo(c5, AllResponses(k6));
    AllResponsesCons(IsReady, k5);
    ScanQuiet(IsReady, AllResponses(k5));
    AllResponsesCons(c3, k4);
    ScanQuiet(c3, AllResponses(k4));
    AllResponsesCons(IsReady, k3);
    ScanQuiet(IsReady, AllResponses(k3));
    AllResponsesCons(c1, k2);
    ScanQuiet(c1, AllResponses(k2));
    AllResponsesCons(Uci, k1);
    ScanQuiet(Uci, AllResponses(k1));
  }

  lemma HarnessRun(c1: UciCommand, c3: UciCommand, c5: UciCommand)
    requires c1.SetOption? && c3.Position? && c5.Go?
    ensures var cmds := [Uci] + ([c1] + ([IsReady] + ([c3] + ([IsReady] + ([c5] + [Quit])))));
      Run(Init, cmds) == Ready
  {
    var k4 := [IsReady] + ([c5] + [Quit]);
    var k3 := [c3] + k4;
    var k2 := [IsReady] + k3;
    var k1 := [c1] + k2;
    RunCons(Init, Uci, k1);
    RunCons(Init, c1, k2);
    RunCons(Init, IsReady, k3);
    RunCons(Init, c3, k4);
    NeverThinking(Ready, k4);
  }

  lemma HarnessQuitsLast(c1: UciCommand, c3: UciCommand, c5: UciCommand)
    requires c1.SetOption? && c3.Position? && c5.Go?
    ensures var cmds := [Uci] + ([c1] + ([IsReady] + ([c3] + ([IsReady] + ([c5] + [Quit])))));
      |cmds| == 7 && cmds[6].Quit? && forall i | 0 <= i < 6 :: !cmds[i].Quit?
  {
  }

  /**
   * Fed the seven commands of the tactical harness, the engine answers
   * with output in which the harness finds `bestmove e2e4`, and it stops.
   */
  lemma HarnessSession(fen: string, depth: int, threads: int)
    requires '\n' !in fen
    ensures var r := Session(Init, true, SplitOn(TacticalHarness.EngineInput(fen, depth, threads), '\n'));
      TacticalHarness.ScanBestmove(r.0) == Some("e2e4") && r.1 == Ready && !r.2
  {
    TacticalHarness.EngineInputLines(fen, depth, threads);
    var l1 := "setoption name Threads value " + IntString(threads);
    var l3 := "position fen " + fen;
    var l5 := "go depth " + IntString(depth);
    UciLine();
    IsReadyLine();
    QuitLine();
    SetOptionLine(IntString(threads));
    PositionLine(fen);
    GoLine(IntString(depth));
    HarnessParses("uci", l1, "isready", l3, l5, "quit");
    var c1, c3, c5 := Parse(Strip(l1)), Parse(Strip(l3)), Parse(Strip(l5));
    HarnessAnswers(c1, c3, c5);
    var lines := ["uci"] + ([l1] + (["isready"] + ([l3] + (["isready"] + ([l5] + (["quit"] + [[]]))))));
    var cmds := [Uci] + ([c1] + ([IsReady] + ([c3] + ([IsReady] + ([c5] + [Quit])))));
    SessionUntilQuit(Init, lines, cmds);
    Nest8("uci", l1, "isready", l3, "isready", l5, "quit", []);
  }

  /** A display of seven, then one more, is the eighth consed onto the rest in turn. */
  lemma Nest8<T>(a: T, b: T, c: T, d: T, e: T, f: T, g: T, h: T)
    ensures [a, b, c, d, e, f, g] + [h] == [a] + ([b] + ([c] + ([d] + ([e] + ([f] + ([g] + [h]))))))
  {
  }

  /** A scan for `bestmove` passes over lines that do not start with it. */
  lemma {:induction false} ScanSkips(a: seq<string>, b: seq<string>)
    requires forall i | 0 <= i < |a| :: |a[i]| > 0 && a[i][0] != 'b'
    ensures TacticalHarness.ScanBestmove(a + b) == TacticalHarness.ScanBestmove(b)
    decreases |a|
  {
    if a == [] {
      assert a + b == b;
    } else {
      assert (a + b)[0] == a[0] && "bestmove"[0] == 'b';
      assert !("bestmove" <= a[0]);
      assert (a + b)[1..] == a[1..] + b;
      ScanSkips(a[1..], b);
    }
  }
}
