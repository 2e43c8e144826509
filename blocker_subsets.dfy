// enumerate_subsets, which init_magic_tables uses to visit every blocker
// configuration of a relevant-occupancy mask. The carry-rippler step
// (subset - mask) & mask on 64-bit words sets the lowest bit of the mask
// missing from the subset and clears the mask bits below it. Taking the
// lowest bit l off a mask m | l interleaves the enumerations: every subset s
// of m is followed by s | l, and s | l by the successor of s in m. By
// induction on the mask, the loop lists every subset of the mask exactly
// once, 2^popcount(mask) of them, ending with the mask itself before the
// step returns to 0.

module BlockerSubsets {
  import opened Words

  // ---------------------------------------------------------------------
  // Words as bit sets

  /** Every bit of x is a bit of mask: x & mask == x. */
  predicate Within(x: bv64, mask: bv64) {
    x & mask == x
  }

  /** The lowest set bit of d, d & d.wrapping_neg(); 0 when d is 0. */
  function LowBit(d: bv64): bv64 {
    d & -d
  }

  /** l has exactly one bit set. */
  predicate SingleBit(l: bv64) {
    l != 0 && l & (l - 1) == 0
  }

  /** l is a single bit lying below every bit of m. */
  predicate SplitsAt(m: bv64, l: bv64) {
    SingleBit(l) && m & (l | (l - 1)) == 0
  }

  /** The number of set bits, counted by clearing the lowest one. */
  function PopCount(mask: bv64): nat
    decreases mask
  {
    if mask == 0 then 0 else 1 + PopCount(mask & (mask - 1))
  }

  // ---------------------------------------------------------------------
  // The enumeration

  /**
   * The carry-rippler step: subset.wrapping_sub(mask) & mask, with the
   * wrapping subtraction written as adding the two's complement of mask
   * (SubtractIsAddComplement).
   */
  function NextSubset(x: bv64, mask: bv64): bv64 {
    (x + !mask + 1) & mask
  }

  /** The k-th value of the enumeration: k carry-rippler steps from zero. */
  function Iter(mask: bv64, k: nat): bv64 {
    if k == 0 then 0 else NextSubset(Iter(mask, k - 1), mask)
  }

  /** The first n values of the enumeration. */
  function Chain(mask: bv64, n: nat): (s: seq<bv64>)
    ensures |s| == n
  {
    if n == 0 then [] else Chain(mask, n - 1) + [Iter(mask, n - 1)]
  }

  /**
   * The first n steps list the subsets of mask: they end with mask, the
   * next step gives 0 again, no value comes twice and every subset comes.
   */
  ghost predicate Enumerates(mask: bv64, n: nat) {
    && n > 0
    && Iter(mask, n - 1) == mask
    && Iter(mask, n) == 0
    && (forall i, j | 0 <= i < j < n :: Iter(mask, i) != Iter(mask, j))
    && (forall y | Within(y, mask) :: Covered(mask, n, y))
  }

  /** y is one of the first n values of the enumeration. */
  ghost predicate Covered(mask: bv64, n: nat, y: bv64) {
    exists i | 0 <= i < n :: Iter(mask, i) == y
  }

  lemma NextWithin(x: bv64, mask: bv64)
    ensures Within(NextSubset(x, mask), mask)
  {
  }

  /** Every value of the enumeration is a subset of the mask. */
  lemma {:induction false} IterWithin(mask: bv64, k: nat)
    ensures Within(Iter(mask, k), mask)
  {
    if k > 0 {
      NextWithin(Iter(mask, k - 1), mask);
    }
  }

  lemma Unfold(mask: bv64, k: nat, x: bv64)
    requires 0 < k && Iter(mask, k - 1) == x
    ensures Iter(mask, k) == NextSubset(x, mask)
  {
  }

  lemma {:induction false} ChainAt(mask: bv64, n: nat, i: nat)
    requires i < n
    ensures Chain(mask, n)[i] == Iter(mask, i)
  {
    if i < n - 1 {
      ChainAt(mask, n - 1, i);
    }
  }

  // ---------------------------------------------------------------------
  // One step in closed form. The words in these statements are named by
  // small functions, so that the lemmas chaining bit-level facts substitute
  // equals for equals instead of reasoning about the bits again.

  /** x with every bit outside mask set. */
  function Fill(x: bv64, mask: bv64): bv64 {
    x | !mask
  }

  function Succ(z: bv64): bv64 {
    z + 1
  }

  function Restrict(v: bv64, mask: bv64): bv64 {
    v & mask
  }

  /** x with its bits below the bit b cleared and b set. */
  function SetAt(x: bv64, b: bv64): bv64 {
    (x & !(b - 1)) | b
  }

  /** The lowest bit of mask missing from x. */
  function FirstGap(x: bv64, mask: bv64): bv64 {
    LowBit(mask & !x)
  }

  /** 64-bit wrapping subtraction is addition of the two's complement. */
  lemma SubtractIsAddComplement(x: bv64, mask: bv64)
    ensures x - mask == x + !mask + 1
  {
  }

  lemma StepAsRestrict(x: bv64, mask: bv64)
    ensures NextSubset(x, mask) == Restrict(Succ(x + !mask), mask)
  {
  }

  lemma DisjointFill(x: bv64, mask: bv64)
    requires Within(x, mask)
    ensures x + !mask == Fill(x, mask)
  {
  }

  /** Subtracting a mask from one of its subsets is incrementing the filled word. */
  lemma SubtractAsIncrement(x: bv64, mask: bv64)
    requires Within(x, mask)
    ensures NextSubset(x, mask) == Restrict(Succ(Fill(x, mask)), mask)
  {
    StepAsRestrict(x, mask);
    DisjointFill(x, mask);
  }

  /** Adding one clears the trailing ones of z and sets its lowest zero bit. */
  lemma Increment(z: bv64)
    ensures Succ(z) == SetAt(z, LowBit(!z))
  {
  }

  lemma ComplementOfFill(x: bv64, mask: bv64)
    ensures !Fill(x, mask) == mask & !x
  {
  }

  lemma GapWithin(x: bv64, mask: bv64)
    ensures Within(FirstGap(x, mask), mask)
  {
  }

  lemma IncrementMasked(x: bv64, mask: bv64, b: bv64)
    requires Within(x, mask) && Within(b, mask)
    ensures Restrict(SetAt(Fill(x, mask), b), mask) == SetAt(x, b)
  {
  }

  /**
   * The step from a subset x sets the lowest bit of mask missing from x and
   * clears the bits of x below it.
   */
  lemma StepShape(x: bv64, mask: bv64)
    requires Within(x, mask)
    ensures NextSubset(x, mask) == SetAt(x, FirstGap(x, mask))
  {
    SubtractAsIncrement(x, mask);
    Increment(Fill(x, mask));
    ComplementOfFill(x, mask);
    GapWithin(x, mask);
    IncrementMasked(x, mask, FirstGap(x, mask));
  }

  lemma LowBitIs(d: bv64, l: bv64)
    requires SingleBit(l) && d & l == l && d & (l - 1) == 0
    ensures LowBit(d) == l
  {
  }

  lemma LowBitSingle(d: bv64)
    requires d != 0
    ensures SingleBit(LowBit(d))
  {
  }

  lemma LowBitIn(d: bv64)
    ensures LowBit(d) & d == LowBit(d)
  {
  }

  lemma WithinWider(s: bv64, m: bv64, l: bv64)
    requires Within(s, m)
    ensures Within(s, m | l)
  {
  }

  lemma WithinBoth(s: bv64, m: bv64, l: bv64)
    requires Within(s, m)
    ensures Within(s | l, m | l)
  {
  }

  lemma MissingAtSplit(s: bv64, m: bv64, l: bv64)
    requires SplitsAt(m, l) && Within(s, m)
    ensures (m | l) & !s & l == l && (m | l) & !s & (l - 1) == 0
  {
  }

  /** Below every bit of m, l is the first bit of m | l that a subset of m lacks. */
  lemma GapAtSplit(s: bv64, m: bv64, l: bv64)
    requires SplitsAt(m, l) && Within(s, m)
    ensures FirstGap(s, m | l) == l
  {
    MissingAtSplit(s, m, l);
    LowBitIs((m | l) & !s, l);
  }

  lemma SetLow(s: bv64, m: bv64, l: bv64)
    requires SplitsAt(m, l) && Within(s, m)
    ensures SetAt(s, l) == s | l
  {
  }

  lemma MissingAboveSplit(s: bv64, m: bv64, l: bv64)
    requires SplitsAt(m, l) && Within(s, m)
    ensures (m | l) & !(s | l) == m & !s
  {
  }

  lemma GapAboveSplit(s: bv64, m: bv64, l: bv64)
    requires SplitsAt(m, l) && Within(s, m)
    ensures FirstGap(s | l, m | l) == FirstGap(s, m)
  {
    MissingAboveSplit(s, m, l);
  }

  lemma MissingNonZero(s: bv64, m: bv64)
    requires Within(s, m) && s != m
    ensures m & !s != 0
  {
  }

  lemma MissingBit(s: bv64, m: bv64)
    requires Within(s, m) && s != m
    ensures SingleBit(FirstGap(s, m)) && Within(FirstGap(s, m), m)
  {
    MissingNonZero(s, m);
    LowBitSingle(m & !s);
    GapWithin(s, m);
  }

  lemma SetAbove(s: bv64, m: bv64, l: bv64, b: bv64)
    requires SplitsAt(m, l) && SingleBit(b) && Within(b, m)
    ensures SetAt(s | l, b) == SetAt(s, b)
  {
  }

  /** From a subset s of m, the step in m | l adds l and nothing else. */
  lemma StepAddsLow(s: bv64, m: bv64, l: bv64)
    requires SplitsAt(m, l) && Within(s, m)
    ensures NextSubset(s, m | l) == s | l
  {
    WithinWider(s, m, l);
    StepShape(s, m | l);
    GapAtSplit(s, m, l);
    SetLow(s, m, l);
  }

  /** From s | l, with s a subset of m other than m, the step in m | l is the step in m. */
  lemma StepPastLow(s: bv64, m: bv64, l: bv64)
    requires SplitsAt(m, l) && Within(s, m) && s != m
    ensures NextSubset(s | l, m | l) == NextSubset(s, m)
  {
    WithinBoth(s, m, l);
    StepShape(s | l, m | l);
    GapAboveSplit(s, m, l);
    MissingBit(s, m);
    SetAbove(s, m, l, FirstGap(s, m));
    StepShape(s, m);
  }

  // ---------------------------------------------------------------------
  // Interleaving

  /** The step from the i-th value s of m's enumeration, taken in m | l. */
  lemma AddsLowAt(m: bv64, l: bv64, i: nat, s: bv64)
    requires SplitsAt(m, l) && s == Iter(m, i)
    ensures NextSubset(s, m | l) == s | l
  {
    IterWithin(m, i);
    StepAddsLow(s, m, l);
  }

  lemma PastLowAt(m: bv64, l: bv64, j: nat, s: bv64)
    requires SplitsAt(m, l) && s == Iter(m, j) && s != m
    ensures NextSubset(s | l, m | l) == NextSubset(s, m)
  {
    IterWithin(m, j);
    StepPastLow(s, m, l);
  }

  lemma IterSucc(mask: bv64, k: nat)
    ensures Iter(mask, k + 1) == NextSubset(Iter(mask, k), mask)
  {
  }

  /** From the value 2i of m | l, which is the value i of m, the step adds l. */
  lemma OddStep(m: bv64, l: bv64, i: nat, s: bv64)
    requires SplitsAt(m, l) && s == Iter(m, i) && Iter(m | l, 2 * i) == s
    ensures Iter(m | l, 2 * i + 1) == s | l
  {
    AddsLowAt(m, l, i, s);
    IterSucc(m | l, 2 * i);
  }

  /** Iter written with its two indices as variables related by b == a + 1. */
  lemma StepAt(mask: bv64, a: nat, b: nat)
    requires b == a + 1
    ensures Iter(mask, b) == NextSubset(Iter(mask, a), mask)
  {
  }

  /** From the value 2j + 1 of m | l, the value j of m plus l, the step follows m. */
  lemma EvenStep(m: bv64, l: bv64, j: nat, i: nat, p: bv64)
    requires SplitsAt(m, l) && i == j + 1 && p == Iter(m, j) && p != m
    requires Iter(m | l, 2 * j + 1) == p | l
    ensures Iter(m | l, 2 * i) == Iter(m, i)
  {
    PastLowAt(m, l, j, p);
    StepAt(m | l, 2 * j + 1, 2 * i);
    StepAt(m, j, i);
  }

  lemma NotLast(m: bv64, n: nat, k: nat)
    requires Enumerates(m, n) && k < n - 1
    ensures Iter(m, k) != m
  {
    assert Iter(m, k) != Iter(m, n - 1);
  }

  /** None of the first i values of m's enumeration is m itself. */
  ghost predicate ShortOfMask(m: bv64, i: nat) {
    forall k | 0 <= k < i :: Iter(m, k) != m
  }

  lemma EnumeratesShort(m: bv64, n: nat, i: nat)
    requires Enumerates(m, n) && i < n
    ensures ShortOfMask(m, i)
  {
    forall k | 0 <= k < i
      ensures Iter(m, k) != m
    {
      NotLast(m, n, k);
    }
  }

  /** The enumeration of m | l takes each value s of m's and follows it with s | l. */
  lemma {:induction false} InterleaveAt(m: bv64, l: bv64, i: nat)
    requires SplitsAt(m, l) && ShortOfMask(m, i)
    ensures Iter(m | l, 2 * i) == Iter(m, i)
    ensures Iter(m | l, 2 * i + 1) == Iter(m, i) | l
  {
    if i == 0 {
      OddStep(m, l, 0, 0);
    } else {
      var j := i - 1;
      InterleaveAt(m, l, j);
      InterleaveNext(m, l, j, i, Iter(m, j), Iter(m, i));
    }
  }

  lemma InterleaveNext(m: bv64, l: bv64, j: nat, i: nat, p: bv64, s: bv64)
    requires SplitsAt(m, l) && i == j + 1 && p != m
    requires p == Iter(m, j) && s == Iter(m, i)
    requires Iter(m | l, 2 * j + 1) == p | l
    ensures Iter(m | l, 2 * i) == s && Iter(m | l, 2 * i + 1) == s | l
  {
    EvenStep(m, l, j, i, p);
    OddStep(m, l, i, s);
  }

  /** InterleaveAt for the i-th value of an exact enumeration of m. */
  lemma Interleave(m: bv64, l: bv64, n: nat, i: nat)
    requires SplitsAt(m, l) && Enumerates(m, n) && i < n
    ensures Iter(m | l, 2 * i) == Iter(m, i)
    ensures Iter(m | l, 2 * i + 1) == Iter(m, i) | l
  {
    EnumeratesShort(m, n, i);
    InterleaveAt(m, l, i);
  }

  lemma OddDiffer(x: bv64, y: bv64, m: bv64, l: bv64)
    ensures SplitsAt(m, l) && Within(x, m) && Within(y, m) && x != y ==> x | l != y | l
  {
  }

  lemma MixedDiffer(x: bv64, y: bv64, m: bv64, l: bv64)
    ensures SplitsAt(m, l) && Within(x, m) ==> x != y | l
  {
  }

  lemma DoublesApart(mask: bv64, m: bv64, l: bv64, n: nat, i: nat, j: nat)
    requires SplitsAt(m, l) && mask == m | l && Enumerates(m, n) && i < j < 2 * n
    ensures Iter(mask, i) != Iter(mask, j)
  {
    var a, b := i / 2, j / 2;
    if i % 2 == 0 && j % 2 == 0 {
      ApartEven(mask, m, l, n, i, j, a, b);
    } else if i % 2 == 1 && j % 2 == 1 {
      ApartOdd(mask, m, l, n, i, j, a, b);
    } else if i % 2 == 0 {
      ApartMixed(mask, m, l, n, i, j, a, b);
    } else {
      ApartMixed(mask, m, l, n, j, i, b, a);
    }
  }

  lemma ApartEven(mask: bv64, m: bv64, l: bv64, n: nat, i: nat, j: nat, a: nat, b: nat)
    requires SplitsAt(m, l) && mask == m | l && Enumerates(m, n) && a < b < n
    requires i == 2 * a && j == 2 * b
    ensures Iter(mask, i) != Iter(mask, j)
  {
    Interleave(m, l, n, a);
    Interleave(m, l, n, b);
  }

  lemma ApartOdd(mask: bv64, m: bv64, l: bv64, n: nat, i: nat, j: nat, a: nat, b: nat)
    requires SplitsAt(m, l) && mask == m | l && Enumerates(m, n) && a < b < n
    requires i == 2 * a + 1 && j == 2 * b + 1
    ensures Iter(mask, i) != Iter(mask, j)
  {
    Interleave(m, l, n, a);
    Interleave(m, l, n, b);
    OddApart(m, l, a, b);
  }

  lemma ApartMixed(mask: bv64, m: bv64, l: bv64, n: nat, i: nat, j: nat, a: nat, b: nat)
    requires SplitsAt(m, l) && mask == m | l && Enumerates(m, n) && a < n && b < n
    requires i == 2 * a && j == 2 * b + 1
    ensures Iter(mask, i) != Iter(mask, j)
  {
    Interleave(m, l, n, a);
    Interleave(m, l, n, b);
    IterWithin(m, a);
    MixedDiffer(Iter(m, a), Iter(m, b), m, l);
  }

  lemma OddApart(m: bv64, l: bv64, a: nat, b: nat)
    ensures SplitsAt(m, l) && Iter(m, a) != Iter(m, b) ==> Iter(m, a) | l != Iter(m, b) | l
  {
    IterWithin(m, a);
    IterWithin(m, b);
    OddDiffer(Iter(m, a), Iter(m, b), m, l);
  }

  lemma SplitWithin(y: bv64, m: bv64, l: bv64)
    ensures Within(y, m | l) ==> Within(y & !l, m)
  {
  }

  lemma SplitWithout(y: bv64, l: bv64)
    ensures y & l == 0 ==> y == y & !l
  {
  }

  lemma SplitWith(y: bv64, l: bv64)
    ensures SingleBit(l) && y & l != 0 ==> y == (y & !l) | l
  {
  }

  lemma DoublesCover(mask: bv64, m: bv64, l: bv64, n: nat, y: bv64)
    requires SplitsAt(m, l) && mask == m | l && Enumerates(m, n) && Within(y, mask)
    ensures Covered(mask, 2 * n, y)
  {
    SplitWithin(y, m, l);
    var a :| 0 <= a < n && Iter(m, a) == y & !l;
    if y & l == 0 {
      CoverEven(mask, m, l, n, y, a);
    } else {
      CoverOdd(mask, m, l, n, y, a);
    }
  }

  lemma CoverEven(mask: bv64, m: bv64, l: bv64, n: nat, y: bv64, a: nat)
    requires SplitsAt(m, l) && mask == m | l && Enumerates(m, n) && a < n
    requires Iter(m, a) == y & !l && y & l == 0
    ensures Iter(mask, 2 * a) == y
  {
    Interleave(m, l, n, a);
    SplitWithout(y, l);
  }

  lemma CoverOdd(mask: bv64, m: bv64, l: bv64, n: nat, y: bv64, a: nat)
    requires SplitsAt(m, l) && mask == m | l && Enumerates(m, n) && a < n
    requires Iter(m, a) == y & !l && y & l != 0
    ensures Iter(mask, 2 * a + 1) == y
  {
    Interleave(m, l, n, a);
    SplitWith(y, l);
  }

  lemma DoublesEnd(mask: bv64, n: nat)
    requires 0 < n && Iter(mask, 2 * n - 1) == mask
    ensures Iter(mask, 2 * n) == 0
  {
    Unfold(mask, 2 * n, mask);
  }

  /** Adding a bit below all of m's doubles the enumeration and keeps it exact. */
  lemma Doubles(mask: bv64, m: bv64, l: bv64, n: nat)
    requires SplitsAt(m, l) && mask == m | l && Enumerates(m, n)
    ensures Enumerates(mask, 2 * n)
  {
    DoublesLast(mask, m, l, n);
    DoublesEnd(mask, n);
    DoublesDistinct(mask, m, l, n);
    DoublesCovers(mask, m, l, n);
  }

  lemma DoublesLast(mask: bv64, m: bv64, l: bv64, n: nat)
    requires SplitsAt(m, l) && mask == m | l && Enumerates(m, n)
    ensures Iter(mask, 2 * n - 1) == mask
  {
    Interleave(m, l, n, n - 1);
  }

  lemma DoublesDistinct(mask: bv64, m: bv64, l: bv64, n: nat)
    requires SplitsAt(m, l) && mask == m | l && Enumerates(m, n)
    ensures forall i, j | 0 <= i < j < 2 * n :: Iter(mask, i) != Iter(mask, j)
  {
    forall i, j | 0 <= i < j < 2 * n
      ensures Iter(mask, i) != Iter(mask, j)
    {
      DoublesApart(mask, m, l, n, i, j);
    }
  }

  lemma DoublesCovers(mask: bv64, m: bv64, l: bv64, n: nat)
    requires SplitsAt(m, l) && mask == m | l && Enumerates(m, n)
    ensures forall y | Within(y, mask) :: Covered(mask, 2 * n, y)
  {
    forall y | Within(y, mask)
      ensures Covered(mask, 2 * n, y)
    {
      DoublesCover(mask, m, l, n, y);
    }
  }

  lemma EmptyMask(y: bv64)
    ensures Within(y, 0) ==> y == 0
  {
  }

  lemma EnumeratesEmpty()
    ensures Enumerates(0, 1)
  {
    forall y | Within(y, 0)
      ensures Covered(0, 1, y)
    {
      EmptyMask(y);
      assert Iter(0, 0) == y;
    }
  }

  lemma LowestSplit(mask: bv64)
    ensures mask != 0 ==> SplitsAt(mask & (mask - 1), LowBit(mask))
  {
  }

  lemma LowestJoin(mask: bv64)
    ensures mask == (mask & (mask - 1)) | LowBit(mask)
  {
  }

  lemma EnumeratesStep(mask: bv64)
    requires mask != 0
    requires Enumerates(mask & (mask - 1), Pow2(PopCount(mask & (mask - 1))))
    ensures Enumerates(mask, Pow2(PopCount(mask)))
  {
    var n := Pow2(PopCount(mask & (mask - 1)));
    LowestSplit(mask);
    LowestJoin(mask);
    Doubles(mask, mask & (mask - 1), LowBit(mask), n);
    PopCountStep(mask);
  }

  lemma PopCountStep(mask: bv64)
    requires mask != 0
    ensures Pow2(PopCount(mask)) == 2 * Pow2(PopCount(mask & (mask - 1)))
  {
  }

  /**
   * The carry-rippler enumeration of any mask lists its 2^popcount(mask)
   * subsets, each once, and the last one is the mask.
   */
  lemma {:induction false} EnumeratesAll(mask: bv64)
    ensures Enumerates(mask, Pow2(PopCount(mask)))
    decreases mask
  {
    if mask == 0 {
      EnumeratesEmpty();
    } else {
      EnumeratesAll(mask & (mask - 1));
      EnumeratesStep(mask);
    }
  }

  // ---------------------------------------------------------------------
  // enumerate_subsets

  /** Every value after the first and before the n-th is non-zero. */
  lemma NonZeroBefore(mask: bv64, n: nat, k: nat)
    requires Enumerates(mask, n) && 0 < k < n
    ensures Iter(mask, k) != 0
  {
    assert Iter(mask, 0) != Iter(mask, k);
  }

  /** The step from the k-th value returns to zero exactly at the count of subsets. */
  lemma StopsAtCount(mask: bv64, k: nat)
    requires k < Pow2(PopCount(mask))
    ensures Iter(mask, k + 1) == 0 <==> k + 1 == Pow2(PopCount(mask))
  {
    EnumeratesAll(mask);
    if k + 1 < Pow2(PopCount(mask)) {
      NonZeroBefore(mask, Pow2(PopCount(mask)), k + 1);
    }
  }

  /** One pass of the loop: push the k-th value, step to the next one. */
  lemma Advance(mask: bv64, n: nat, k: nat, subset: bv64, next: bv64)
    requires n == Pow2(PopCount(mask)) && k < n
    requires subset == Iter(mask, k) && next == NextSubset(subset, mask)
    ensures next == Iter(mask, k + 1)
    ensures next == 0 <==> k + 1 == n
    ensures Chain(mask, k) + [subset] == Chain(mask, k + 1)
  {
    StopsAtCount(mask, k);
  }

  /** The enumeration read as a sequence: distinct values, exactly the subsets of mask. */
  lemma ChainEnumerates(mask: bv64, n: nat)
    requires n == Pow2(PopCount(mask))
    ensures Chain(mask, n)[0] == 0 && Chain(mask, n)[n - 1] == mask
    ensures forall i, j | 0 <= i < j < n :: Chain(mask, n)[i] != Chain(mask, n)[j]
    ensures forall y :: Within(y, mask) <==> y in Chain(mask, n)
  {
    EnumeratesAll(mask);
    var s := Chain(mask, n);
    forall i | 0 <= i < n
      ensures s[i] == Iter(mask, i) && Within(s[i], mask)
    {
      ChainAt(mask, n, i);
      IterWithin(mask, i);
    }
    forall y | Within(y, mask)
      ensures y in s
    {
      var i :| 0 <= i < n && Iter(mask, i) == y;
      assert s[i] == y;
    }
  }

  /**
   * enumerate_subsets: push the current subset, step with the carry-rippler,
   * stop when the step comes back to zero. The result lists every subset of
   * the mask exactly once, 2^popcount(mask) of them, from 0 up to the mask.
   */
  method EnumerateSubsets(mask: bv64) returns (subsets: seq<bv64>)
    ensures |subsets| == Pow2(PopCount(mask))
    ensures subsets == Chain(mask, |subsets|)
    ensures subsets[0] == 0 && subsets[|subsets| - 1] == mask
    ensures forall i, j | 0 <= i < j < |subsets| :: subsets[i] != subsets[j]
    ensures forall y :: Within(y, mask) <==> y in subsets
  {
    ghost var n := Pow2(PopCount(mask));
    subsets := [];
    var subset: bv64 := 0;
    while true
      invariant |subsets| < n
      invariant subsets == Chain(mask, |subsets|)
      invariant subset == Iter(mask, |subsets|)
      decreases n - |subsets|
    {
      ghost var k := |subsets|;
      var next := NextSubset(subset, mask);
      Advance(mask, n, k, subset, next);
      subsets := subsets + [subset];
      subset := next;
      if subset == 0 {
        break;
      }
    }
    ChainEnumerates(mask, n);
  }
}
