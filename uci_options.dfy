// The engine's UCI option record and its setter: five recognised names, a
// numeric parse for Hash (u64) and Threads (u8), and an error for anything else.

module UciOptions {
  import opened Common
  import opened Text

  /** The option values as one value, for stating what a call changes. */
  datatype Settings = Settings(
    hash: nat,
    threads: nat,
    syzygyPath: Option<string>,
    useExperienceBook: bool,
    experienceBookPath: Option<string>,
    chessStyle: string,
    analyzeMode: bool,
    debugLog: bool,
    engineName: string,
    author: string)

  const DefaultSettings: Settings :=
    Settings(16, 1, None, true, None, "Normal", false, false, "Scacchista", "Claude Code")

  /** The words that switch the experience book on, compared after lower-casing. */
  predicate IsTrueWord(v: string) {
    var l := Lower(v);
    l == "true" || l == "1" || l == "yes"
  }

  /** The settings after a set_option call and the call's outcome. */
  function SetOptionSpec(s: Settings, name: string, value: Option<string>): (Settings, Result<(), string>) {
    if name == "Hash" then
      if value.None? then (s, Ok(()))
      else
        var x := ParseUnsigned(value.value, U64_MAX);
        if x.Some? then (s.(hash := x.value), Ok(()))
        else (s, Err("Invalid numeric value for Hash: " + value.value))
    else if name == "Threads" then
      if value.None? then (s, Ok(()))
      else
        var x := ParseUnsigned(value.value, U8_MAX);
        if x.Some? then (s.(threads := x.value), Ok(()))
        else (s, Err("Invalid numeric value for Threads: " + value.value))
    else if name == "SyzygyPath" then (s.(syzygyPath := value), Ok(()))
    else if name == "UseExperienceBook" then
      if value.None? then (s, Ok(())) else (s.(useExperienceBook := IsTrueWord(value.value)), Ok(()))
    else if name == "Style" then
      if value.None? then (s, Ok(())) else (s.(chessStyle := value.value), Ok(()))
    else (s, Err("Unknown option: " + name))
  }

  class Options {
    var hash: nat
    var threads: nat
    var syzygyPath: Option<string>
    var useExperienceBook: bool
    var experienceBookPath: Option<string>
    var chessStyle: string
    var analyzeMode: bool
    var debugLog: bool
    var engineName: string
    var author: string

    function Snapshot(): Settings
      reads this
    {
      Settings(hash, threads, syzygyPath, useExperienceBook, experienceBookPath,
               chessStyle, analyzeMode, debugLog, engineName, author)
    }

    /** The default option values. */
    constructor ()
      ensures Snapshot() == DefaultSettings
    {
      hash := 16;
      threads := 1;
      syzygyPath := None;
      useExperienceBook := true;
      experienceBookPath := None;
      chessStyle := "Normal";
      analyzeMode := false;
      debugLog := false;
      engineName := "Scacchista";
      author := "Claude Code";
    }

    method SetOption(name: string, value: Option<string>) returns (r: Result<(), string>)
      modifies this
      ensures (Snapshot(), r) == SetOptionSpec(old(Snapshot()), name, value)
    {
      if name == "Hash" {
        if value.Some? {
          var x := ParseUnsigned(value.value, U64_MAX);
          if x.Some? {
            hash := x.value;
          } else {
            return Err("Invalid numeric value for Hash: " + value.value);
          }
        }
      } else if name == "Threads" {
        if value.Some? {
          var x := ParseUnsigned(value.value, U8_MAX);
          if x.Some? {
            threads := x.value;
          } else {
            return Err("Invalid numeric value for Threads: " + value.value);
          }
        }
      } else if name == "SyzygyPath" {
        syzygyPath := value;
      } else if name == "UseExperienceBook" {
        if value.Some? {
          useExperienceBook := IsTrueWord(value.value);
        }
      } else if name == "Style" {
        if value.Some? {
          chessStyle := value.value;
        }
      } else {
        return Err("Unknown option: " + name);
      }
      return Ok(());
    }
  }

  // ---------------------------------------------------------------------
  // Properties

  predicate Recognised(name: string) {
    name == "Hash" || name == "Threads" || name == "SyzygyPath" || name == "UseExperienceBook" || name == "Style"
  }

  /** a and b agree on every option except possibly the one the name selects. */
  predicate SameExcept(a: Settings, b: Settings, name: string) {
    (name != "Hash" ==> a.hash == b.hash) &&
    (name != "Threads" ==> a.threads == b.threads) &&
    (name != "SyzygyPath" ==> a.syzygyPath == b.syzygyPath) &&
    (name != "UseExperienceBook" ==> a.useExperienceBook == b.useExperienceBook) &&
    (name != "Style" ==> a.chessStyle == b.chessStyle) &&
    a.experienceBookPath == b.experienceBookPath && a.analyzeMode == b.analyzeMode &&
    a.debugLog == b.debugLog && a.engineName == b.engineName && a.author == b.author
  }

  /** A call changes at most the option it names, and a failing call changes nothing. */
  lemma SetOptionFrame(s: Settings, name: string, value: Option<string>)
    ensures var (s', r) := SetOptionSpec(s, name, value);
      SameExcept(s, s', name) && (r.Err? ==> s' == s)
  {
  }

  /** Exactly the unrecognised names, and the unparsable numbers, are errors. */
  lemma SetOptionErrors(s: Settings, name: string, value: Option<string>)
    ensures SetOptionSpec(s, name, value).1.Err? <==>
      !Recognised(name) ||
      (name == "Hash" && value.Some? && ParseUnsigned(value.value, U64_MAX).None?) ||
      (name == "Threads" && value.Some? && ParseUnsigned(value.value, U8_MAX).None?)
  {
  }

  /** Without a value, only SyzygyPath changes (it is cleared); the other recognised names succeed and change nothing. */
  lemma SetOptionNoValue(s: Settings, name: string)
    requires Recognised(name)
    ensures SetOptionSpec(s, name, None).1 == Ok(())
    ensures SetOptionSpec(s, name, None).0 == if name == "SyzygyPath" then s.(syzygyPath := None) else s
  {
  }

  /** A Hash or Threads value written in decimal within range is stored; one out of range is refused. */
  lemma SetNumericOption(s: Settings, n: nat)
    ensures SetOptionSpec(s, "Hash", Some(Decimal(n))) ==
      if n <= U64_MAX then (s.(hash := n), Ok(())) else (s, Err("Invalid numeric value for Hash: " + Decimal(n)))
    ensures SetOptionSpec(s, "Threads", Some(Decimal(n))) ==
      if n <= U8_MAX then (s.(threads := n), Ok(())) else (s, Err("Invalid numeric value for Threads: " + Decimal(n)))
  {
    ParseDecimal(n, U64_MAX);
    ParseDecimal(n, U8_MAX);
  }

  /** The experience book accepts "true", "1" and "yes" in any letter case, and nothing else. */
  lemma ExperienceBookWords()
    ensures IsTrueWord("TRUE") && IsTrueWord("Yes") && IsTrueWord("1")
    ensures !IsTrueWord("on") && !IsTrueWord("y")
  {
    var t := Lower("TRUE");
    assert t[0] == 't' && t[1] == 'r' && t[2] == 'u' && t[3] == 'e';
    assert t == "true";
    var y := Lower("Yes");
    assert y[0] == 'y' && y[1] == 'e' && y[2] == 's';
    assert y == "yes";
    var o := Lower("1");
    assert o[0] == '1';
    assert o == "1";
    var n := Lower("on");
    assert n[0] == 'o' && |n| == 2;
    var z := Lower("y");
    assert z[0] == 'y' && |z| == 1;
  }
}
