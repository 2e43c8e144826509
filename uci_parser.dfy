// The UCI command parser: a line of text is tokenised on whitespace and the
// first token selects the command; `setoption`, `position` and `go` scan the
// remaining tokens with an index that moves forward by one or two.

module UciParser {
  import opened Common
  import opened Text

  datatype UciCommand =
    | Uci
    | IsReady
    | SetOption(name: string, value: Option<string>)
    | UciNewGame
    | Position(fen: Option<string>, moves: seq<string>)
    | Go(wtime: Option<nat>, btime: Option<nat>, movetime: Option<nat>, depth: Option<nat>,
         nodes: Option<nat>, mate: Option<nat>, movestogo: Option<nat>,
         infinite: bool, ponder: bool)
    | Stop
    | PonderHit
    | Quit
    | Unknown(text: string)

  // ---------------------------------------------------------------------
  // Specification

  /** The first index at or after `from` holding w, or |ts| when there is none. */
  function FirstIndex<T(==)>(ts: seq<T>, w: T, from: nat): (r: nat)
    requires from <= |ts|
    ensures from <= r <= |ts|
    ensures r < |ts| ==> ts[r] == w
    ensures forall j | from <= j < r :: ts[j] != w
    decreases |ts| - from
  {
    if from == |ts| || ts[from] == w then from else FirstIndex(ts, w, from + 1)
  }

  /** The command a first token stands for on its own, if it is one of the argument-free ones. */
  function Keyword(w: string): Option<UciCommand> {
    if w == "uci" then Some(Uci)
    else if w == "isready" then Some(IsReady)
    else if w == "ucinewgame" then Some(UciNewGame)
    else if w == "stop" then Some(Stop)
    else if w == "ponderhit" then Some(PonderHit)
    else if w == "quit" then Some(Quit)
    else None
  }

  /**
   * setoption: the value is everything after the first "value" token; the
   * name is what lies between the first "name" token and that "value", when
   * "name" comes first, and empty otherwise.
   */
  function SetOptionSpec(parts: seq<string>): (r: UciCommand)
    requires |parts| >= 1
    ensures r.SetOption?
  {
    var v := FirstIndex(parts, "value", 1);
    var n := FirstIndex(parts, "name", 1);
    SetOption(if n < v then Join(parts[n + 1..v], " ") else [],
              if v < |parts| then Some(Join(parts[v + 1..], " ")) else None)
  }

  /** The tokens after index m, when m is a position of the token list. */
  function After(parts: seq<string>, m: nat): seq<string>
    requires m <= |parts|
  {
    if m < |parts| then parts[m + 1..] else []
  }

  /**
   * position: `startpos` takes the moves after the first "moves" token anywhere
   * on the line; `fen` takes the tokens up to the first "moves" after it as the
   * FEN text and the rest as moves; any other form gives neither.
   */
  function PositionSpec(parts: seq<string>): (r: UciCommand)
    requires |parts| >= 1
    ensures r.Position?
  {
    if |parts| >= 2 && parts[1] == "startpos" then
      Position(None, After(parts, FirstIndex(parts, "moves", 0)))
    else if |parts| >= 2 && parts[1] == "fen" then
      var m := FirstIndex(parts, "moves", 2);
      Position(Some(Join(parts[2..m], " ")), After(parts, m))
    else
      Position(None, [])
  }

  predicate IsNumericKey(k: string) {
    k == "wtime" || k == "btime" || k == "movetime" || k == "depth" ||
    k == "nodes" || k == "mate" || k == "movestogo"
  }

  /** The largest value a numeric `go` key accepts: u8 for depth, mate and movestogo, u64 otherwise. */
  function KeyMax(k: string): nat {
    if k == "depth" || k == "mate" || k == "movestogo" then U8_MAX else U64_MAX
  }

  /** The field of a `go` command that a numeric key names. */
  function Field(g: UciCommand, k: string): Option<nat>
    requires g.Go? && IsNumericKey(k)
  {
    if k == "wtime" then g.wtime
    else if k == "btime" then g.btime
    else if k == "movetime" then g.movetime
    else if k == "depth" then g.depth
    else if k == "nodes" then g.nodes
    else if k == "mate" then g.mate
    else g.movestogo
  }

  /** g with the field named by k replaced by v. */
  function WithField(g: UciCommand, k: string, v: Option<nat>): (r: UciCommand)
    requires g.Go? && IsNumericKey(k)
    ensures r.Go? && Field(r, k) == v
    ensures forall k' | IsNumericKey(k') && k' != k :: Field(r, k') == Field(g, k')
    ensures r.infinite == g.infinite && r.ponder == g.ponder
  {
    if k == "wtime" then g.(wtime := v)
    else if k == "btime" then g.(btime := v)
    else if k == "movetime" then g.(movetime := v)
    else if k == "depth" then g.(depth := v)
    else if k == "nodes" then g.(nodes := v)
    else if k == "mate" then g.(mate := v)
    else g.(movestogo := v)
  }

  const GoNone: UciCommand := Go(None, None, None, None, None, None, None, false, false)

  /** The token a numeric key at index i reads as its value, parsed in the key's range. */
  function KeyValue(parts: seq<string>, i: nat): Option<nat>
    requires i < |parts|
  {
    if i + 1 < |parts| then ParseUnsigned(parts[i + 1], KeyMax(parts[i])) else None
  }

  /** The index the `go` scan visits after index i. */
  function Next(parts: seq<string>, i: nat): nat
    requires i < |parts|
  {
    if IsNumericKey(parts[i]) then i + 2 else i + 1
  }

  /** The `go` fields after scanning the tokens from index i onwards, starting from g. */
  function GoFrom(parts: seq<string>, i: nat, g: UciCommand): (r: UciCommand)
    requires g.Go?
    ensures r.Go?
    decreases |parts| - i
  {
    if i >= |parts| then g
    else if IsNumericKey(parts[i]) then
      var x := KeyValue(parts, i);
      GoFrom(parts, Next(parts, i), if x.Some? then WithField(g, parts[i], x) else g)
    else if parts[i] == "infinite" then GoFrom(parts, Next(parts, i), g.(infinite := true))
    else if parts[i] == "ponder" then GoFrom(parts, Next(parts, i), g.(ponder := true))
    else GoFrom(parts, Next(parts, i), g)
  }

  /** The command a non-empty token list stands for. */
  function ParseTokens(parts: seq<string>): UciCommand
    requires |parts| >= 1
  {
    if Keyword(parts[0]).Some? then Keyword(parts[0]).value
    else if parts[0] == "setoption" then SetOptionSpec(parts)
    else if parts[0] == "position" then PositionSpec(parts)
    else if parts[0] == "go" then GoFrom(parts, 1, GoNone)
    else Unknown(parts[0])
  }

  /** The command a line stands for: only its whitespace tokens matter. */
  function Parse(line: string): UciCommand {
    var parts := Tokens(line);
    if parts == [] then Unknown([]) else ParseTokens(parts)
  }

  // ---------------------------------------------------------------------
  // The parser

  method ParseUciCommand(line: string) returns (cmd: UciCommand)
    ensures cmd == Parse(line)
    ensures (forall i | 0 <= i < |line| :: IsSpace(line[i])) ==> cmd == Unknown([])
  {
    var trimmed := Strip(line);
    TokensOfStrip(line);
    if trimmed == [] {
      return Unknown([]);
    }
    var parts := Tokens(trimmed);
    TokensOfNonBlank(trimmed);
    cmd := ParseParts(parts);
  }

  /** The match on the first token. */
  method ParseParts(parts: seq<string>) returns (cmd: UciCommand)
    requires |parts| >= 1
    ensures cmd == ParseTokens(parts)
  {
    var head := parts[0];
    if head == "uci" {
      cmd := Uci;
    } else if head == "isready" {
      cmd := IsReady;
    } else if head == "ucinewgame" {
      cmd := UciNewGame;
    } else if head == "stop" {
      cmd := Stop;
    } else if head == "ponderhit" {
      cmd := PonderHit;
    } else if head == "quit" {
      cmd := Quit;
    } else if head == "setoption" {
      var name, value := ParseSetOption(parts);
      cmd := SetOption(name, value);
    } else if head == "position" {
      var fen, moves := ParsePosition(parts);
      cmd := Position(fen, moves);
    } else if head == "go" {
      cmd := ParseGo(parts);
    } else {
      cmd := Unknown(head);
    }
  }

  method ParseSetOption(parts: seq<string>) returns (name: string, value: Option<string>)
    requires |parts| >= 1
    ensures SetOption(name, value) == SetOptionSpec(parts)
  {
    ghost var v := FirstIndex(parts, "value", 1);
    ghost var n := FirstIndex(parts, "name", 1);
    name := [];
    value := None;
    var i := 1;
    while i < |parts|
      invariant 1 <= i <= v
      invariant (i <= n && name == []) || (n < v && i == v && name == Join(parts[n + 1..v], " "))
      invariant value == None
      decreases |parts| - i
    {
      if parts[i] == "name" {
        i := i + 1;
        var vals: seq<string> := [];
        while i < |parts| && parts[i] != "value"
          invariant n + 1 <= i <= v
          invariant vals == parts[n + 1..i]
          decreases |parts| - i
        {
          vals := vals + [parts[i]];
          i := i + 1;
        }
        name := Join(vals, " ");
      } else if parts[i] == "value" {
        i := i + 1;
        value := Some(Join(parts[i..], " "));
        break;
      } else {
        i := i + 1;
      }
    }
  }

  /** The tokens after index k, pushed one at a time. */
  method CopyAfter(parts: seq<string>, k: nat) returns (out: seq<string>)
    requires k <= |parts|
    ensures out == parts[k..]
  {
    out := [];
    var j := k;
    while j < |parts|
      invariant k <= j <= |parts|
      invariant out == parts[k..j]
    {
      out := out + [parts[j]];
      j := j + 1;
    }
  }

  method ParsePosition(parts: seq<string>) returns (fen: Option<string>, moves: seq<string>)
    requires |parts| >= 1
    ensures Position(fen, moves) == PositionSpec(parts)
  {
    fen := None;
    moves := [];
    if |parts| >= 2 && parts[1] == "startpos" {
      var pos := FirstIndex(parts, "moves", 0);
      if pos < |parts| {
        moves := CopyAfter(parts, pos + 1);
      }
    } else if |parts| >= 2 && parts[1] == "fen" {
      var i := 2;
      var fenParts: seq<string> := [];
      while i < |parts| && parts[i] != "moves"
        invariant 2 <= i <= FirstIndex(parts, "moves", 2)
        invariant fenParts == parts[2..i]
        decreases |parts| - i
      {
        fenParts := fenParts + [parts[i]];
        i := i + 1;
      }
      fen := Some(Join(fenParts, " "));
      if i < |parts| && parts[i] == "moves" {
        moves := CopyAfter(parts, i + 1);
      }
    }
  }

  method ParseGo(parts: seq<string>) returns (cmd: UciCommand)
    ensures cmd == GoFrom(parts, 1, GoNone)
  {
    var wtime: Option<nat> := None;
    var btime: Option<nat> := None;
    var movetime: Option<nat> := None;
    var depth: Option<nat> := None;
    var nodes: Option<nat> := None;
    var mate: Option<nat> := None;
    var movestogo: Option<nat> := None;
    var infinite := false;
    var ponder := false;
    var i := 1;
    while i < |parts|
      invariant 1 <= i
      invariant GoFrom(parts, i, Go(wtime, btime, movetime, depth, nodes, mate, movestogo, infinite, ponder))
             == GoFrom(parts, 1, GoNone)
      decreases |parts| - i
    {
      var p := parts[i];
      if p == "wtime" {
        if i + 1 < |parts| {
          var x := ParseUnsigned(parts[i + 1], U64_MAX);
          if x.Some? { wtime := x; }
        }
        i := i + 2;
      } else if p == "btime" {
        if i + 1 < |parts| {
          var x := ParseUnsigned(parts[i + 1], U64_MAX);
          if x.Some? { btime := x; }
        }
        i := i + 2;
      } else if p == "movetime" {
        if i + 1 < |parts| {
          var x := ParseUnsigned(parts[i + 1], U64_MAX);
          if x.Some? { movetime := x; }
        }
        i := i + 2;
      } else if p == "depth" {
        if i + 1 < |parts| {
          var x := ParseUnsigned(parts[i + 1], U8_MAX);
          if x.Some? { depth := x; }
        }
        i := i + 2;
      } else if p == "nodes" {
        if i + 1 < |parts| {
          var x := ParseUnsigned(parts[i + 1], U64_MAX);
          if x.Some? { nodes := x; }
        }
        i := i + 2;
      } else if p == "mate" {
        if i + 1 < |parts| {
          var x := ParseUnsigned(parts[i + 1], U8_MAX);
          if x.Some? { mate := x; }
        }
        i := i + 2;
      } else if p == "movestogo" {
        if i + 1 < |parts| {
          var x := ParseUnsigned(parts[i + 1], U8_MAX);
          if x.Some? { movestogo := x; }
        }
        i := i + 2;
      } else if p == "infinite" {
        infinite := true;
        i := i + 1;
      } else if p == "ponder" {
        ponder := true;
        i := i + 1;
      } else {
        i := i + 1;
      }
    }
    cmd := Go(wtime, btime, movetime, depth, nodes, mate, movestogo, infinite, ponder);
  }

  // ---------------------------------------------------------------------
  // Properties

  lemma TokensOfNonBlank(s: string)
    requires s != [] && !IsSpace(s[0])
    ensures Tokens(s) != []
  {
    assert TrimStart(s) == s;
  }

  /** A line whose tokens are ts, not all blank, stands for the command of ts. */
  lemma ParseOfTokens(line: string, ts: seq<string>)
    requires Tokens(line) == ts && ts != []
    ensures Parse(line) == ParseTokens(ts)
  {
  }

  /** A token list headed by `setoption` is read by the setoption scan. */
  lemma SetOptionHead(parts: seq<string>)
    requires |parts| >= 1 && parts[0] == "setoption"
    ensures ParseTokens(parts) == SetOptionSpec(parts)
  {
    assert Keyword("setoption") == None;
  }

  /** A token list headed by `position` is read by the position scan. */
  lemma PositionHead(parts: seq<string>)
    requires |parts| >= 1 && parts[0] == "position"
    ensures ParseTokens(parts) == PositionSpec(parts)
  {
    assert Keyword("position") == None && "position" != "setoption";
  }

  /** A token list headed by `go` is read by the go scan. */
  lemma GoHead(parts: seq<string>)
    requires |parts| >= 1 && parts[0] == "go"
    ensures ParseTokens(parts) == GoFrom(parts, 1, GoNone)
  {
    assert Keyword("go") == None && "go" != "setoption" && "go" != "position";
  }

  /** A first token that names an argument-free command decides the command, whatever follows. */
  lemma FirstWordDecides(w: string, rest: string)
    requires IsToken(w) && w != "setoption" && w != "position" && w != "go"
    ensures Parse(w + " " + rest) == if Keyword(w).Some? then Keyword(w).value else Unknown(w)
  {
    assert w + " " + rest == w + (" " + rest);
    TokensOfTokenSpace(w, rest);
  }

  /** Every numeric `go` field holds either its starting value or a value in the key's range. */
  lemma {:induction false} GoFieldInRange(parts: seq<string>, i: nat, g: UciCommand, k: string)
    requires g.Go? && IsNumericKey(k)
    requires Field(g, k).Some? ==> Field(g, k).value <= KeyMax(k)
    ensures var r := GoFrom(parts, i, g); Field(r, k).Some? ==> Field(r, k).value <= KeyMax(k)
    decreases |parts| - i
  {
    if i < |parts| {
      if IsNumericKey(parts[i]) {
        var x := KeyValue(parts, i);
        var g' := if x.Some? then WithField(g, parts[i], x) else g;
        if x.Some? && parts[i] == k {
          assert Field(g', k) == x;
        }
        GoFieldInRange(parts, Next(parts, i), g', k);
      } else if parts[i] == "infinite" {
        GoFieldInRange(parts, Next(parts, i), g.(infinite := true), k);
      } else if parts[i] == "ponder" {
        GoFieldInRange(parts, Next(parts, i), g.(ponder := true), k);
      } else {
        GoFieldInRange(parts, Next(parts, i), g, k);
      }
    }
  }

  /** A `go` command's numeric fields are None or in range: at most 255 for u8 keys, 2^64 - 1 for u64 keys. */
  lemma GoFieldsInRange(parts: seq<string>, k: string)
    requires IsNumericKey(k)
    ensures var r := GoFrom(parts, 1, GoNone); Field(r, k).Some? ==> Field(r, k).value <= KeyMax(k)
  {
    GoFieldInRange(parts, 1, GoNone, k);
  }

  /** A key whose name does not occur in the scanned tokens keeps its starting value. */
  lemma {:induction false} GoUnmentioned(parts: seq<string>, i: nat, g: UciCommand, k: string)
    requires g.Go? && IsNumericKey(k)
    requires forall j | i <= j < |parts| :: parts[j] != k
    ensures Field(GoFrom(parts, i, g), k) == Field(g, k)
    decreases |parts| - i
  {
    if i < |parts| {
      if IsNumericKey(parts[i]) {
        var x := KeyValue(parts, i);
        var g' := if x.Some? then WithField(g, parts[i], x) else g;
        assert Field(g', k) == Field(g, k);
        GoUnmentioned(parts, Next(parts, i), g', k);
      } else if parts[i] == "infinite" {
        GoUnmentioned(parts, Next(parts, i), g.(infinite := true), k);
      } else if parts[i] == "ponder" {
        GoUnmentioned(parts, Next(parts, i), g.(ponder := true), k);
      } else {
        GoUnmentioned(parts, Next(parts, i), g, k);
      }
    }
  }

  /** Index j is visited by the `go` scan that starts at index i. */
  predicate Visits(parts: seq<string>, i: nat, j: nat)
    decreases |parts| - i
  {
    i == j || (i < j && i < |parts| && Visits(parts, Next(parts, i), j))
  }

  /**
   * Later occurrences overwrite earlier ones: when the scan visits key k at
   * index j, its value parses, and k does not occur further on, the field
   * ends up holding that value.
   */
  lemma {:induction false} GoLastWins(parts: seq<string>, i: nat, g: UciCommand, j: nat, k: string)
    requires g.Go? && IsNumericKey(k)
    requires Visits(parts, i, j) && j < |parts| && parts[j] == k
    requires KeyValue(parts, j).Some?
    requires forall l | j < l < |parts| :: parts[l] != k
    ensures Field(GoFrom(parts, i, g), k) == KeyValue(parts, j)
    decreases |parts| - i
  {
    var x := KeyValue(parts, i);
    var g' := if x.Some? && IsNumericKey(parts[i]) then WithField(g, parts[i], x) else g;
    if i == j {
      assert Field(g', k) == KeyValue(parts, j);
      GoUnmentioned(parts, Next(parts, i), g', k);
    } else if IsNumericKey(parts[i]) {
      GoLastWins(parts, Next(parts, i), g', j, k);
    } else if parts[i] == "infinite" {
      GoLastWins(parts, Next(parts, i), g.(infinite := true), j, k);
    } else if parts[i] == "ponder" {
      GoLastWins(parts, Next(parts, i), g.(ponder := true), j, k);
    } else {
      GoLastWins(parts, Next(parts, i), g, j, k);
    }
  }

  /** `infinite` is set exactly when the scan visits an "infinite" token (or it was already set). */
  lemma {:induction false} GoInfinite(parts: seq<string>, i: nat, g: UciCommand)
    requires g.Go?
    ensures GoFrom(parts, i, g).infinite <==>
      g.infinite || exists j | i <= j < |parts| :: Visits(parts, i, j) && parts[j] == "infinite"
    decreases |parts| - i
  {
    if i < |parts| {
      var n := Next(parts, i);
      var x := KeyValue(parts, i);
      var g' :=
        if IsNumericKey(parts[i]) then (if x.Some? then WithField(g, parts[i], x) else g)
        else if parts[i] == "infinite" then g.(infinite := true)
        else if parts[i] == "ponder" then g.(ponder := true)
        else g;
      GoInfinite(parts, n, g');
      assert GoFrom(parts, i, g) == GoFrom(parts, n, g');
      assert Visits(parts, i, i);
      forall j | i < j < |parts| ensures Visits(parts, i, j) <==> Visits(parts, n, j) {
      }
    }
  }

  /** `setoption name N value V` gives N and V back when N holds no "value" token. */
  lemma SetOptionNameValue(ns: seq<string>, vs: seq<string>)
    requires forall j | 0 <= j < |ns| :: ns[j] != "value"
    ensures ParseTokens(["setoption", "name"] + ns + ["value"] + vs) ==
      SetOption(Join(ns, " "), Some(Join(vs, " ")))
  {
    var parts := ["setoption", "name"] + ns + ["value"] + vs;
    SplitAtFirst(["setoption", "name"], ns, "value", vs);
    assert parts[0] == "setoption" && parts[1] == "name";
    FirstIndexIs(parts, "name", 1, 1);
    SetOptionHead(parts);
  }

  /** `setoption name N` without a value gives N and no value. */
  lemma SetOptionNameOnly(ns: seq<string>)
    requires forall j | 0 <= j < |ns| :: ns[j] != "value"
    ensures ParseTokens(["setoption", "name"] + ns) == SetOption(Join(ns, " "), None)
  {
    var parts := ["setoption", "name"] + ns;
    NoneAfter(["setoption", "name"], ns, "value");
    assert parts[0] == "setoption" && parts[1] == "name" && parts[1] != "value";
    assert FirstIndex(parts, "value", 1) == |parts|;
    FirstIndexIs(parts, "name", 1, 1);
    assert parts[2..|parts|] == ns;
    SetOptionHead(parts);
  }

  /** In pre + ns, where ns holds no w, there is no w after pre, and ns is what follows pre. */
  lemma NoneAfter<T>(pre: seq<T>, ns: seq<T>, w: T)
    requires forall j | 0 <= j < |ns| :: ns[j] != w
    ensures var parts := pre + ns; FirstIndex(parts, w, |pre|) == |parts| && parts[|pre|..] == ns
  {
    var parts := pre + ns;
    forall j | |pre| <= j < |parts| ensures parts[j] != w {
      assert parts[j] == ns[j - |pre|];
    }
    FirstIndexIs(parts, w, |pre|, |parts|);
    assert parts[|pre|..] == ns;
  }

  /** `position fen F moves M` gives F back as the FEN text and M as the moves when F holds no "moves" token. */
  lemma PositionFenMoves(fs: seq<string>, ms: seq<string>)
    requires forall j | 0 <= j < |fs| :: fs[j] != "moves"
    ensures ParseTokens(["position", "fen"] + fs + ["moves"] + ms) == Position(Some(Join(fs, " ")), ms)
  {
    var parts := ["position", "fen"] + fs + ["moves"] + ms;
    SplitAtFirst(["position", "fen"], fs, "moves", ms);
    assert parts[0] == "position" && parts[1] == "fen";
    PositionHead(parts);
  }

  /** In pre + fs + [w] + ms, where fs holds no w, the first w after pre closes fs and opens ms. */
  lemma SplitAtFirst<T>(pre: seq<T>, fs: seq<T>, w: T, ms: seq<T>)
    requires forall j | 0 <= j < |fs| :: fs[j] != w
    ensures var parts := pre + fs + [w] + ms; var m := |pre| + |fs|;
      m < |parts| && FirstIndex(parts, w, |pre|) == m && parts[|pre|..m] == fs && parts[m + 1..] == ms
  {
    var parts := pre + fs + [w] + ms;
    var m := |pre| + |fs|;
    assert parts[m] == w;
    forall j | |pre| <= j < m ensures parts[j] != w {
      assert parts[j] == fs[j - |pre|];
    }
    FirstIndexIs(parts, w, |pre|, m);
    assert parts[|pre|..m] == fs;
    assert parts[m + 1..] == ms;
  }

  /** `position startpos moves M` gives no FEN and M as the moves. */
  lemma PositionStartposMoves(ms: seq<string>)
    ensures ParseTokens(["position", "startpos", "moves"] + ms) == Position(None, ms)
  {
    var parts := ["position", "startpos", "moves"] + ms;
    assert parts[0] == "position" && parts[1] == "startpos" && parts[2] == "moves";
    FirstIndexIs(parts, "moves", 0, 2);
    assert parts[3..] == ms;
    PositionHead(parts);
  }

  lemma NotInConcat(pre: seq<string>, ns: seq<string>, w: string, from: nat)
    requires from <= |pre|
    requires forall j | from <= j < |pre| :: pre[j] != w
    requires forall j | 0 <= j < |ns| :: ns[j] != w
    ensures forall j | from <= j < |pre + ns| :: (pre + ns)[j] != w
  {
  }

  lemma FirstIndexIs<T>(ts: seq<T>, w: T, from: nat, r: nat)
    requires from <= r <= |ts|
    requires r < |ts| ==> ts[r] == w
    requires forall j | from <= j < r :: ts[j] != w
    ensures FirstIndex(ts, w, from) == r
  {
  }
}
