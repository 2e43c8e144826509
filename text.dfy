// Text primitives shared by the EPD harness and the UCI layer: whitespace
// trimming and tokenising (Python's str.strip/str.split, Rust's trim and
// split_whitespace), splitting on one character, joining, and the decimal
// rendering and parsing of unsigned integers (Rust's str::parse for u8, u16
// and u64).

module Text {
  import opened Common

  /** ASCII whitespace: space, tab, line feed, carriage return, vertical tab, form feed. */
  predicate IsSpace(c: char) {
    c == ' ' || c == '\t' || c == '\n' || c == '\r' || c == '\U{000B}' || c == '\U{000C}'
  }

  predicate NoSpace(s: string) {
    forall i | 0 <= i < |s| :: !IsSpace(s[i])
  }

  /** A whitespace token: non-empty and free of whitespace. */
  predicate IsToken(s: string) {
    s != [] && NoSpace(s)
  }

  predicate IsDigit(c: char) {
    '0' <= c <= '9'
  }

  predicate AllDigits(s: string) {
    forall i | 0 <= i < |s| :: IsDigit(s[i])
  }

  /** Drops leading whitespace. */
  function TrimStart(s: string): (r: string)
    ensures |r| <= |s| && r == s[|s| - |r|..]
    ensures r == [] || !IsSpace(r[0])
  {
    if s != [] && IsSpace(s[0]) then TrimStart(s[1..]) else s
  }

  lemma {:induction false} TrimStartDropsSpaces(s: string)
    ensures forall i | 0 <= i < |s| - |TrimStart(s)| :: IsSpace(s[i])
  {
    if s != [] && IsSpace(s[0]) { TrimStartDropsSpaces(s[1..]); }
  }

  /** Drops trailing whitespace. */
  function TrimEnd(s: string): (r: string)
    ensures |r| <= |s| && r == s[..|r|]
    ensures r == [] || !IsSpace(r[|r| - 1])
    ensures forall i | |r| <= i < |s| :: IsSpace(s[i])
  {
    if s != [] && IsSpace(s[|s| - 1]) then TrimEnd(s[..|s| - 1]) else s
  }

  /** Python's str.strip() and Rust's str::trim on ASCII whitespace. */
  function Strip(s: string): (r: string)
    ensures r == [] || (!IsSpace(r[0]) && !IsSpace(r[|r| - 1]))
    ensures r == [] <==> forall i | 0 <= i < |s| :: IsSpace(s[i])
    ensures |r| <= |s|
    ensures s == [] || (!IsSpace(s[0]) && !IsSpace(s[|s| - 1])) ==> r == s
  {
    StripEnds(s);
    StripEmptyIff(s);
    StripUnchanged(s);
    TrimEnd(TrimStart(s))
  }

  lemma StripEnds(s: string)
    ensures var r := TrimEnd(TrimStart(s)); r == [] || (!IsSpace(r[0]) && !IsSpace(r[|r| - 1]))
  {
    var t := TrimStart(s);
    var r := TrimEnd(t);
    if r != [] {
      assert r[0] == t[0];
    }
  }

  lemma StripUnchanged(s: string)
    ensures s == [] || (!IsSpace(s[0]) && !IsSpace(s[|s| - 1])) ==> TrimEnd(TrimStart(s)) == s
  {
  }

  /** Only an all-whitespace text strips to nothing. */
  lemma StripEmptyIff(s: string)
    ensures TrimEnd(TrimStart(s)) == [] <==> forall i | 0 <= i < |s| :: IsSpace(s[i])
  {
    var t := TrimStart(s);
    if forall i | 0 <= i < |s| :: IsSpace(s[i]) {
      TrimStartAllSpace(s);
    }
    if TrimEnd(t) == [] {
      assert t == [];
      TrimStartDropsSpaces(s);
    }
  }

  /** The longest whitespace-free prefix. */
  function Word(s: string): (w: string)
    ensures |w| <= |s| && w == s[..|w|] && NoSpace(w)
    ensures |w| == |s| || IsSpace(s[|w|])
    ensures s != [] && !IsSpace(s[0]) ==> w != []
  {
    if s == [] || IsSpace(s[0]) then [] else [s[0]] + Word(s[1..])
  }

  /** Python's str.split() with no argument and Rust's split_whitespace. */
  function Tokens(s: string): (ts: seq<string>)
    decreases |s|
  {
    var t := TrimStart(s);
    if t == [] then []
    else
      var w := Word(t);
      var rest := t[|w|..];
      assert |rest| < |s|;
      [w] + Tokens(rest)
  }

  /** Joins pieces with a separator (Python's sep.join, Rust's Vec::join). */
  function Join(ps: seq<string>, sep: string): string {
    if |ps| == 0 then []
    else if |ps| == 1 then ps[0]
    else ps[0] + sep + Join(ps[1..], sep)
  }

  /** Python's str.split(c): the pieces between occurrences of c, empty ones included. */
  function SplitOn(s: string, c: char): (parts: seq<string>)
    ensures |parts| >= 1
    ensures forall i | 0 <= i < |parts| :: c !in parts[i]
  {
    if s == [] then [[]]
    else
      var rest := SplitOn(s[1..], c);
      if s[0] == c then [[]] + rest else [[s[0]] + rest[0]] + rest[1..]
  }

  /** Python's str.strip(q): drops leading and trailing copies of q. */
  function StripChar(s: string, q: char): (r: string)
    ensures |r| <= |s|
    ensures r == [] || (r[0] != q && r[|r| - 1] != q)
    ensures s == [] || (s[0] != q && s[|s| - 1] != q) ==> r == s
    decreases |s|
  {
    if s != [] && s[0] == q then StripChar(s[1..], q)
    else if s != [] && s[|s| - 1] == q then StripChar(s[..|s| - 1], q)
    else s
  }

  function DigitChar(d: nat): char
    requires d < 10
  {
    ('0' as int + d) as char
  }

  function DigitValue(c: char): nat
    requires IsDigit(c)
  {
    c as int - '0' as int
  }

  /** The value of a string of decimal digits, most significant first. */
  function DigitsValue(d: string): nat
    requires AllDigits(d)
  {
    if d == [] then 0 else DigitsValue(d[..|d| - 1]) * 10 + DigitValue(d[|d| - 1])
  }

  /** Decimal rendering without leading zeros (Python's str, Rust's Display). */
  function Decimal(n: nat): (s: string)
    ensures s != [] && AllDigits(s)
  {
    if n < 10 then [DigitChar(n)] else Decimal(n / 10) + [DigitChar(n % 10)]
  }

  /** Python's str(i) for an int of either sign. */
  function IntString(i: int): string {
    if i < 0 then "-" + Decimal(-i) else Decimal(i)
  }

  /**
   * Rust's str::parse for an unsigned type whose largest value is max: an
   * optional leading '+', then one or more decimal digits whose value is at
   * most max; anything else (empty text, a lone '+', a '-', any other
   * character, overflow) is an error.
   */
  function ParseUnsigned(s: string, max: nat): (r: Option<nat>)
    ensures r.Some? ==> r.value <= max
    ensures s == [] || (|s| == 1 && s[0] == '+') || (s != [] && s[0] == '-') ==> r.None?
  {
    var digits := if s != [] && s[0] == '+' then s[1..] else s;
    if digits != [] && AllDigits(digits) && DigitsValue(digits) <= max
    then Some(DigitsValue(digits))
    else None
  }

  const U8_MAX: nat := 0xFF
  const U16_MAX: nat := 0xFFFF
  const U64_MAX: nat := 0xFFFF_FFFF_FFFF_FFFF

  /** ASCII lower-casing (str::to_lowercase restricted to A-Z). */
  function Lower(s: string): (r: string)
    ensures |r| == |s|
    ensures forall i | 0 <= i < |s| :: r[i] == if 'A' <= s[i] <= 'Z' then (s[i] as int + 32) as char else s[i]
  {
    if s == [] then [] else Lower(s[..|s| - 1]) + [if 'A' <= s[|s| - 1] <= 'Z' then (s[|s| - 1] as int + 32) as char else s[|s| - 1]]
  }

  // ---------------------------------------------------------------------
  // Properties

  lemma {:induction false} DecimalValue(n: nat)
    ensures DigitsValue(Decimal(n)) == n
  {
    if n >= 10 {
      DecimalValue(n / 10);
      var s := Decimal(n);
      assert s[..|s| - 1] == Decimal(n / 10);
    }
  }

  /** Rendering then parsing gives the number back, with or without a '+' sign. */
  lemma ParseDecimal(n: nat, max: nat)
    ensures ParseUnsigned(Decimal(n), max) == if n <= max then Some(n) else None
    ensures ParseUnsigned("+" + Decimal(n), max) == if n <= max then Some(n) else None
  {
    DecimalValue(n);
    assert ("+" + Decimal(n))[1..] == Decimal(n);
  }

  lemma {:induction false} SkipLeadingSpace(s: string)
    requires s != [] && IsSpace(s[0])
    ensures Tokens(s) == Tokens(s[1..])
  {
    assert TrimStart(s) == TrimStart(s[1..]);
  }

  lemma {:induction false} TokensOfWordThenRest(w: string, rest: string)
    requires IsToken(w)
    requires rest == [] || IsSpace(rest[0])
    ensures Tokens(w + rest) == [w] + Tokens(rest)
  {
    var s := w + rest;
    assert TrimStart(s) == s;
    WordOfPrefix(w, rest);
    assert s[|w|..] == rest;
  }

  lemma {:induction false} WordOfPrefix(w: string, rest: string)
    requires NoSpace(w)
    requires rest == [] || IsSpace(rest[0])
    ensures Word(w + rest) == w
  {
    if w != [] {
      assert (w + rest)[1..] == w[1..] + rest;
      WordOfPrefix(w[1..], rest);
    } else {
      assert w + rest == rest;
    }
  }

  /** One step of Tokens: the first word of the trimmed text, then the tokens of what follows it. */
  lemma TokensStep(s: string)
    ensures var t := TrimStart(s);
      (t == [] ==> Tokens(s) == []) &&
      (t != [] ==> Word(t) != [] && Tokens(s) == [Word(t)] + Tokens(t[|Word(t)|..]))
  {
  }

  lemma ConsTokens(w: string, rest: seq<string>, ts: seq<string>)
    requires ts == [w] + rest && IsToken(w)
    requires forall j | 0 <= j < |rest| :: IsToken(rest[j])
    ensures forall j | 0 <= j < |ts| :: IsToken(ts[j])
  {
    forall j | 0 <= j < |ts| ensures IsToken(ts[j]) {
      if j > 0 {
        assert ts[j] == rest[j - 1];
      }
    }
  }

  /** Every token is non-empty and whitespace-free. */
  lemma {:induction false} TokensAreTokens(s: string)
    ensures forall i | 0 <= i < |Tokens(s)| :: IsToken(Tokens(s)[i])
    decreases |s|
  {
    TokensStep(s);
    var t := TrimStart(s);
    if t != [] {
      var w := Word(t);
      var tail := t[|w|..];
      assert |tail| < |s|;
      TokensAreTokens(tail);
      ConsTokens(w, Tokens(tail), Tokens(s));
    }
  }

  /** Tokenising single-space-joined tokens gives them back. */
  lemma {:induction false} TokensOfJoin(ts: seq<string>)
    requires forall i | 0 <= i < |ts| :: IsToken(ts[i])
    ensures Tokens(Join(ts, " ")) == ts
  {
    if |ts| == 0 {
      TokensOfEmpty();
    } else if |ts| == 1 {
      TokensOfSingle(ts[0]);
    } else {
      var tail := ts[1..];
      assert forall i | 0 <= i < |tail| :: IsToken(tail[i]) by {
        forall i | 0 <= i < |tail| ensures IsToken(tail[i]) { assert tail[i] == ts[i + 1]; }
      }
      TokensOfJoin(tail);
      TokensOfJoinStep(ts);
    }
  }

  lemma TokensOfEmpty()
    ensures Tokens([]) == []
  {
    assert TrimStart([]) == [];
  }

  lemma TokensOfSingle(w: string)
    requires IsToken(w)
    ensures Tokens(Join([w], " ")) == [w]
  {
    TokensOfToken(w);
  }

  /** A token alone tokenises to itself. */
  lemma TokensOfToken(w: string)
    requires IsToken(w)
    ensures Tokens(w) == [w]
  {
    TokensOfEmpty();
    TokensOfWordThenRest(w, []);
    assert w + [] == w;
  }

  lemma TokensOfJoinStep(ts: seq<string>)
    requires |ts| >= 2 && IsToken(ts[0])
    requires Tokens(Join(ts[1..], " ")) == ts[1..]
    ensures Tokens(Join(ts, " ")) == ts
  {
    var rest := Join(ts[1..], " ");
    JoinCons(ts, " ");
    TokensOfTokenSpace(ts[0], rest);
    assert [ts[0]] + ts[1..] == ts;
  }

  lemma JoinCons(ts: seq<string>, sep: string)
    requires |ts| >= 2
    ensures Join(ts, sep) == ts[0] + (sep + Join(ts[1..], sep))
  {
  }

  lemma TokensOfTokenSpace(w: string, rest: string)
    requires IsToken(w)
    ensures Tokens(w + (" " + rest)) == [w] + Tokens(rest)
  {
    var tail := " " + rest;
    TokensOfWordThenRest(w, tail);
    SkipLeadingSpace(tail);
    assert tail[1..] == rest;
  }

  /** Two tokens separated by one space tokenise to the pair. */
  lemma TokensOfPair(a: string, b: string)
    requires IsToken(a) && IsToken(b)
    ensures Tokens(a + (" " + b)) == [a, b]
  {
    TokensOfTokenSpace(a, b);
    TokensOfToken(b);
  }

  lemma {:induction false} SplitOnAfterPiece(p: string, c: char, rest: string)
    requires c !in p
    ensures SplitOn(p + [c] + rest, c) == [p] + SplitOn(rest, c)
  {
    if p == [] {
      assert p + [c] + rest == [c] + rest;
      assert ([c] + rest)[1..] == rest;
    } else {
      var s := p + [c] + rest;
      assert s[1..] == p[1..] + [c] + rest;
      SplitOnAfterPiece(p[1..], c, rest);
      assert [p[0]] + p[1..] == p;
    }
  }

  /** Splitting the join of c-free pieces on c gives the pieces back. */
  lemma {:induction false} SplitOnJoin(ps: seq<string>, c: char)
    requires |ps| >= 1
    requires forall i | 0 <= i < |ps| :: c !in ps[i]
    ensures SplitOn(Join(ps, [c]), c) == ps
  {
    if |ps| == 1 {
      SplitOnNoSeparator(ps[0], c);
    } else {
      var rest := Join(ps[1..], [c]);
      assert Join(ps, [c]) == ps[0] + [c] + rest;
      SplitOnAfterPiece(ps[0], c, rest);
      assert forall i | 0 <= i < |ps| - 1 :: ps[1..][i] == ps[i + 1];
      SplitOnJoin(ps[1..], c);
      assert [ps[0]] + ps[1..] == ps;
    }
  }

  lemma {:induction false} SplitOnNoSeparator(p: string, c: char)
    requires c !in p
    ensures SplitOn(p, c) == [p]
  {
    if p != [] {
      SplitOnNoSeparator(p[1..], c);
      assert [p[0]] + p[1..] == p;
    }
  }

  /** Splitting on c and joining with c gives the text back. */
  lemma {:induction false} JoinSplitOn(s: string, c: char)
    ensures Join(SplitOn(s, c), [c]) == s
  {
    if s != [] {
      var rest := SplitOn(s[1..], c);
      JoinSplitOn(s[1..], c);
      if s[0] == c {
        assert SplitOn(s, c)[1..] == rest;
      } else {
        var parts := SplitOn(s, c);
        if |rest| == 1 {
          assert parts == [[s[0]] + rest[0]];
        } else {
          assert parts[1..] == rest[1..];
          assert Join(rest, [c]) == rest[0] + [c] + Join(rest[1..], [c]);
        }
      }
    }
  }

  lemma {:induction false} TrimStartAppend(s: string, x: string)
    requires TrimStart(s) != []
    ensures TrimStart(s + x) == TrimStart(s) + x
  {
    if s != [] && IsSpace(s[0]) {
      assert (s + x)[1..] == s[1..] + x;
      TrimStartAppend(s[1..], x);
    }
  }

  lemma {:induction false} WordAppendSpace(t: string, c: char)
    requires IsSpace(c)
    ensures Word(t + [c]) == Word(t)
  {
    if t == [] {
      assert t + [c] == [c];
    } else if !IsSpace(t[0]) {
      assert (t + [c])[1..] == t[1..] + [c];
      WordAppendSpace(t[1..], c);
    }
  }

  lemma {:induction false} TrimStartAllSpace(s: string)
    requires forall i | 0 <= i < |s| :: IsSpace(s[i])
    ensures TrimStart(s) == []
  {
    if s != [] {
      TrimStartAllSpace(s[1..]);
    }
  }

  lemma SliceAppend(t: string, k: nat, c: char)
    requires k <= |t|
    ensures (t + [c])[k..] == t[k..] + [c]
  {
  }

  /** A trailing whitespace character adds no token. */
  lemma {:induction false} TokensDropLastSpace(s: string, c: char)
    requires IsSpace(c)
    ensures Tokens(s + [c]) == Tokens(s)
    decreases |s|
  {
    var t := TrimStart(s);
    if t == [] {
      TrimStartDropsSpaces(s);
      assert forall i | 0 <= i < |s + [c]| :: IsSpace((s + [c])[i]) by {
        forall i | 0 <= i < |s + [c]| ensures IsSpace((s + [c])[i]) {
          if i < |s| { assert (s + [c])[i] == s[i]; }
        }
      }
      TrimStartAllSpace(s + [c]);
      assert Tokens(s + [c]) == [];
    } else {
      TrimStartAppend(s, [c]);
      WordAppendSpace(t, c);
      var w := Word(t);
      var rest := t[|w|..];
      SliceAppend(t, |w|, c);
      TokensDropLastSpace(rest, c);
      assert Tokens(s + [c]) == [w] + Tokens(rest + [c]);
    }
  }

  lemma Regroup(a: string, b: string, c: string)
    ensures a + b + c == a + (b + c)
  {
  }

  lemma SplitLast(s: string)
    requires s != []
    ensures s == s[..|s| - 1] + [s[|s| - 1]]
  {
  }

  lemma {:induction false} TokensOfTrimEnd(s: string)
    ensures Tokens(TrimEnd(s)) == Tokens(s)
  {
    if s != [] && IsSpace(s[|s| - 1]) {
      var p, c := s[..|s| - 1], s[|s| - 1];
      assert TrimEnd(s) == TrimEnd(p);
      TokensOfTrimEnd(p);
      SplitLast(s);
      TokensDropLastSpace(p, c);
    } else {
      assert TrimEnd(s) == s;
    }
  }

  /** Trimming before splitting on whitespace changes nothing (Rust's trim then split_whitespace). */
  lemma TokensOfStrip(s: string)
    ensures Tokens(Strip(s)) == Tokens(s)
    ensures Strip(s) == [] <==> Tokens(s) == []
  {
    var t := TrimStart(s);
    assert TrimStart(t) == t;
    TokensOfTrimEnd(t);
    if Strip(s) != [] {
      assert t != [];
    }
  }
}
