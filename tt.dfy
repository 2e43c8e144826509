// The transposition table: entries packed into one 64-bit word each (the
// low 16 key bits, the score, the move, a 6-bit depth, the search age and
// the node type), a power-of-two array of slots indexed by key & mask, a
// replacement policy that weighs emptiness, age, depth and exactness, and
// an 8-bit search age that wraps around.

module Tt {
  import opened Common
  import opened Words

  const TWO_16: nat := 0x1_0000
  const TWO_32: nat := 0x1_0000_0000
  const TWO_48: nat := 0x1_0000_0000_0000

  const I16_MAX: I16 := 0x7FFF
  const I16_MIN: I16 := -0x8000

  datatype NodeType = Exact | LowerBound | UpperBound

  /** A search result for one position. */
  datatype Entry = Entry(key: U64, score: I16, depth: U8, nodeType: NodeType, bestMove: U32, age: U8)

  /** TTEntry::empty */
  function EmptyEntry(): (e: Entry)
    ensures IsEmpty(e)
  {
    Entry(0, 0, 0, Exact, 0, 0)
  }

  /** TTEntry::is_empty */
  predicate IsEmpty(e: Entry) {
    e.key == 0
  }

  // ---------------------------------------------------------------------
  // Bitwise and

  /** Bitwise and of two naturals: bit k is set iff it is set in both. */
  function And(a: nat, b: nat): nat
    decreases a + b
  {
    if a == 0 || b == 0 then 0
    else 2 * And(a / 2, b / 2) + (if a % 2 == 1 && b % 2 == 1 then 1 else 0)
  }

  /** n is 1, 2, 4, 8, ... */
  predicate IsPow2(n: nat)
    decreases n
  {
    n == 1 || (n > 1 && n % 2 == 0 && IsPow2(n / 2))
  }

  /** Dividing a * d + s by d gives back a and s when s < d. */
  lemma DivModUnique(a: nat, d: nat, t: nat, s: nat)
    requires d > 0 && s < d && a == d * t + s
    ensures a / d == t && a % d == s
  {
    var q, r := a / d, a % d;
    assert d * q + r == d * t + s;
    if q > t {
      assert d * q >= d * (t + 1) by { MulMonotone(d, t + 1, q); }
    } else if q < t {
      assert d * t >= d * (q + 1) by { MulMonotone(d, q + 1, t); }
    }
  }

  lemma MulMonotone(d: nat, x: nat, y: nat)
    requires x <= y
    ensures d * x <= d * y
  {
  }

  /** a mod 2m is twice (a / 2) mod m plus the low bit of a. */
  lemma ModDouble(a: nat, m: nat)
    requires m > 0
    ensures a % (2 * m) == 2 * ((a / 2) % m) + a % 2
  {
    var q, r := a / 2, a % 2;
    var t, s := q / m, q % m;
    assert a == 2 * m * t + (2 * s + r);
    DivModUnique(a, 2 * m, t, 2 * s + r);
  }

  /** key & (n - 1) == key % n for a power of two n: the slot index is the key modulo the table size. */
  lemma {:induction false} AndLowMask(a: nat, n: nat)
    requires IsPow2(n)
    ensures And(a, n - 1) == a % n
    decreases n
  {
    if n > 1 {
      var m := n / 2;
      AndLowMask(a / 2, m);
      if a != 0 {
        assert (n - 1) / 2 == m - 1 && (n - 1) % 2 == 1;
      }
      ModDouble(a, m);
    }
  }

  // ---------------------------------------------------------------------
  // Packing

  function Code(t: NodeType): nat {
    match t
    case Exact => 0
    case LowerBound => 1
    case UpperBound => 2
  }

  /** The node type of a 2-bit code; the unused code 3 reads as Exact. */
  function NodeOf(c: nat): NodeType {
    if c == 1 then LowerBound else if c == 2 then UpperBound else Exact
  }

  /** (score as u16): the two's complement bit pattern of an i16. */
  function ScoreBits(s: I16): (b: nat)
    ensures b < TWO_16
  {
    s % TWO_16
  }

  /** (bits as u16 as i16) */
  function ScoreOf(b: nat): I16
    requires b < TWO_16
  {
    if b >= 0x8000 then b - TWO_16 else b
  }

  /**
   * TTEntry::pack: [16 key bits][16 score][16 move][6 depth][8 age][2 type],
   * high to low. The source ORs shifted fields that occupy disjoint bits,
   * which is their sum; x & (2^n - 1) is x % 2^n (AndLowMask).
   */
  function Pack(e: Entry): (packed: U64) {
    (e.key % TWO_16) * TWO_48 + ScoreBits(e.score) * TWO_32 + (e.bestMove % TWO_16) * TWO_16
      + (e.depth % 64) * 1024 + e.age * 4 + Code(e.nodeType)
  }

  /** (packed >> 48) & 0xFFFF: the key bits kept for verification. */
  function KeyLow(packed: U64): nat {
    (packed / TWO_48) % TWO_16
  }

  /** TTEntry::unpack: the fields back out of a packed word, under the full key of the query. */
  function Unpack(key: U64, packed: U64): Entry {
    Entry(key, ScoreOf((packed / TWO_32) % TWO_16), (packed / 1024) % 64, NodeOf(packed % 4),
          (packed / TWO_16) % TWO_16, (packed / 4) % 256)
  }

  /** What a stored entry keeps: depth to 6 bits, the move to 16 bits. */
  function Kept(key: U64, e: Entry): Entry {
    e.(key := key, depth := e.depth % 64, bestMove := e.bestMove % TWO_16)
  }

  /**
   * unpack(k, pack(e)) gives back the key k, e's score, node type and age,
   * its depth modulo 64 and its move modulo 2^16; the stored key bits are
   * e's low 16 key bits.
   */
  lemma PackRoundTrip(key: U64, e: Entry)
    ensures Unpack(key, Pack(e)) == Kept(key, e)
    ensures KeyLow(Pack(e)) == e.key % TWO_16
  {
    PackLowFields(e);
    PackHighFields(e);
  }

  /** The node type, the age and the depth come back out of the low 16 bits. */
  lemma PackLowFields(e: Entry)
    ensures Pack(e) % 4 == Code(e.nodeType)
    ensures (Pack(e) / 4) % 256 == e.age
    ensures (Pack(e) / 1024) % 64 == e.depth % 64
  {
    var k, s, m, d, a, c := e.key % TWO_16, ScoreBits(e.score), e.bestMove % TWO_16, e.depth % 64, e.age, Code(e.nodeType);
    var p := Pack(e);
    DivModUnique(p, 4, k * 0x4000_0000_0000 + s * 0x4000_0000 + m * 0x4000 + d * 256 + a, c);
    DivModUnique(p / 4, 256, k * 0x40_0000_0000 + s * 0x40_0000 + m * 64 + d, a);
    DivModUnique(p, 1024, k * 0x40_0000_0000 + s * 0x40_0000 + m * 64 + d, a * 4 + c);
    DivModUnique(p / 1024, 64, k * 0x1_0000_0000 + s * TWO_16 + m, d);
  }

  /** The move, the score bits and the key bits come back out of the high 48 bits. */
  lemma PackHighFields(e: Entry)
    ensures (Pack(e) / TWO_16) % TWO_16 == e.bestMove % TWO_16
    ensures (Pack(e) / TWO_32) % TWO_16 == ScoreBits(e.score)
    ensures KeyLow(Pack(e)) == e.key % TWO_16
  {
    var k, s, m, d, a, c := e.key % TWO_16, ScoreBits(e.score), e.bestMove % TWO_16, e.depth % 64, e.age, Code(e.nodeType);
    var p := Pack(e);
    DivModUnique(p, TWO_16, k * TWO_32 + s * TWO_16 + m, d * 1024 + a * 4 + c);
    DivModUnique(p / TWO_16, TWO_16, k * TWO_16 + s, m);
    DivModUnique(p, TWO_32, k * TWO_16 + s, m * TWO_16 + d * 1024 + a * 4 + c);
    DivModUnique(p / TWO_32, TWO_16, k, s);
    DivModUnique(p, TWO_48, k, s * TWO_32 + m * TWO_16 + d * 1024 + a * 4 + c);
    DivModUnique(p / TWO_48, TWO_16, 0, k);
  }

  /**
   * TTEntry::bound: the score window an entry proves: both ends at the
   * score when exact, open upwards (to i16::MAX) for a lower bound and
   * downwards (to i16::MIN) for an upper bound.
   */
  function Bound(e: Entry): (window: (I16, I16))
    ensures window.0 <= e.score <= window.1
    ensures e.nodeType != UpperBound ==> window.0 == e.score
    ensures e.nodeType != LowerBound ==> window.1 == e.score
    ensures e.nodeType == LowerBound ==> window.1 == I16_MAX
    ensures e.nodeType == UpperBound ==> window.0 == I16_MIN
  {
    match e.nodeType
    case Exact => (e.score, e.score)
    case LowerBound => (e.score, I16_MAX)
    case UpperBound => (I16_MIN, e.score)
  }

  // ---------------------------------------------------------------------
  // Ages and the policies

  /** current_age.wrapping_sub(age) on u8. */
  function AgeGap(current: U8, age: U8): (gap: U8) {
    (current - age) % 256
  }

  /** A probe hit: a non-empty slot whose key bits match and whose age is fewer than 8 searches back. */
  predicate Hit(packed: U64, age: U8, key: U64) {
    packed != 0 && KeyLow(packed) == key % TWO_16 && AgeGap(age, Unpack(key, packed).age) < 8
  }

  /** The replacement policy of store, for the word already in the slot. */
  predicate Replaces(packed: U64, key: U64, depth: U8, nodeType: NodeType, age: U8) {
    packed == 0 ||
    (var existing := Unpack(key, packed);
     IsEmpty(existing) ||
     (age != existing.age && AgeGap(age, existing.age) >= 2) ||
     (depth >= existing.depth && nodeType == Exact) ||
     depth > existing.depth)
  }

  /** The word a slot holds after a store. */
  function Stored(packed: U64, key: U64, score: I16, depth: U8, nodeType: NodeType, bestMove: U32, age: U8): U64 {
    if Replaces(packed, key, depth, nodeType, age) then Pack(Entry(key, score, depth, nodeType, bestMove, age)) else packed
  }

  /** The number of slots new(size_mb) allocates before rounding: size_mb MiB of 8-byte words, or 1024 if none. */
  function Requested(sizeMb: nat): (n: nat)
    ensures n > 0
  {
    var words := sizeMb * 1024 * 1024 / 8;
    if words == 0 then 1024 else words
  }

  /** next_power_of_two, searched upwards from the power of two p. */
  function NextPow2From(n: nat, p: nat): (r: nat)
    requires IsPow2(p) && (p == 1 || p / 2 < n)
    ensures IsPow2(r) && r >= n && (r == 1 || r / 2 < n)
    decreases n - p
  {
    if p >= n then p else NextPow2From(n, 2 * p)
  }

  /** The number of slots of new(size_mb): the next power of two, at least 1024. */
  function SlotCount(sizeMb: nat): (n: nat)
    ensures IsPow2(n) && n >= 1024
    ensures n >= Requested(sizeMb)
    ensures n > 1024 ==> n / 2 < Requested(sizeMb)
  {
    var n := Requested(sizeMb);
    var p := NextPow2From(n, 1);
    assert p >= 1024;
    Max(p, 1024)
  }

  // ---------------------------------------------------------------------
  // The table

  class Table {
    var entries: array<U64>
    var mask: nat
    var age: U8

    ghost predicate Valid()
      reads this
    {
      IsPow2(entries.Length) && entries.Length >= 1024 && mask == entries.Length - 1
    }

    /** The slot of a key: key & mask. */
    function Slot(key: U64): (i: nat)
      reads this
      requires Valid()
      ensures i == key % entries.Length && i < entries.Length
    {
      AndLowMask(key, entries.Length);
      And(key, mask)
    }

    /** new(size_mb): every slot empty and the age zero. */
    constructor (sizeMb: nat)
      ensures Valid() && age == 0
      ensures entries.Length == SlotCount(sizeMb)
      ensures forall i | 0 <= i < entries.Length :: entries[i] == 0
      ensures fresh(entries)
    {
      var n := SlotCount(sizeMb);
      entries := new U64[n](_ => 0);
      mask := n - 1;
      age := 0;
    }

    /**
     * probe: the unpacked entry of the key's slot when that slot is a hit
     * for the key at the current age, and None otherwise.
     */
    method Probe(key: U64) returns (r: Option<Entry>)
      requires Valid()
      ensures r.Some? <==> Hit(entries[Slot(key)], age, key)
      ensures r.Some? ==> r.value == Unpack(key, entries[Slot(key)])
    {
      var index := And(key, mask);
      AndLowMask(key, entries.Length);
      var packed := entries[index];
      if packed == 0 {
        return None;
      }
      var entry := Unpack(key, packed);
      var storedKeyLow := (packed / TWO_48) % TWO_16;
      var queryKeyLow := key % TWO_16;
      if storedKeyLow == queryKeyLow && (age - entry.age) % 256 < 8 {
        r := Some(entry);
      } else {
        r := None;
      }
    }

    /** store: only the key's slot changes, and it takes the new entry iff the policy replaces. */
    method Store(key: U64, score: I16, depth: U8, nodeType: NodeType, bestMove: U32)
      requires Valid()
      modifies entries
      ensures entries[..] == old(entries[..])[Slot(key) := Stored(old(entries[Slot(key)]), key, score, depth, nodeType, bestMove, age)]
    {
      var index := And(key, mask);
      AndLowMask(key, entries.Length);
      var packed := entries[index];
      var replace;
      if packed == 0 {
        replace := true;
      } else {
        var existing := Unpack(key, packed);
        replace := existing.key == 0
          || (age != existing.age && (age - existing.age) % 256 >= 2)
          || (depth >= existing.depth && nodeType == Exact)
          || depth > existing.depth;
      }
      if replace {
        var newEntry := Entry(key, score, depth, nodeType, bestMove, age);
        entries[index] := Pack(newEntry);
      }
    }

    /** new_search: the age advances by one, modulo 256. */
    method NewSearch()
      requires Valid()
      modifies this
      ensures Valid() && age == (old(age) + 1) % 256
      ensures entries == old(entries) && mask == old(mask)
    {
      age := (age + 1) % 256;
    }

    /** clear: every slot and the age back to zero. */
    method Clear()
      requires Valid()
      modifies this, entries
      ensures Valid() && age == 0
      ensures entries == old(entries) && mask == old(mask)
      ensures forall i | 0 <= i < entries.Length :: entries[i] == 0
    {
      for i := 0 to entries.Length
        modifies entries
        invariant forall j | 0 <= j < i :: entries[j] == 0
      {
        entries[i] := 0;
      }
      age := 0;
    }
  }

  // ---------------------------------------------------------------------
  // Properties of the policies

  /**
   * A probe at the age of a store finds what was stored, unless the packed
   * word happens to be zero (key bits, score, move, depth and age all zero
   * with an Exact node), which reads as an empty slot.
   */
  lemma ProbeAfterStore(key: U64, score: I16, depth: U8, nodeType: NodeType, bestMove: U32, age: U8)
    ensures var e := Entry(key, score, depth, nodeType, bestMove, age);
      Hit(Pack(e), age, key) <==> Pack(e) != 0
    ensures var e := Entry(key, score, depth, nodeType, bestMove, age);
      Unpack(key, Pack(e)) == Kept(key, e)
  {
    PackRoundTrip(key, Entry(key, score, depth, nodeType, bestMove, age));
  }

  /** A new search makes every entry one search older, wrapping from 255 to 0. */
  lemma AgeGapStep(current: U8, age: U8)
    ensures AgeGap((current + 1) % 256, age) == (AgeGap(current, age) + 1) % 256
  {
  }

  /** An entry's own age is no gap; eight searches later a probe no longer accepts it. */
  lemma StaleAfterEight(packed: U64, key: U64, age: U8)
    requires packed != 0
    ensures AgeGap(Unpack(key, packed).age, Unpack(key, packed).age) == 0
    ensures !Hit(packed, (Unpack(key, packed).age + 8) % 256, key)
  {
  }

  /**
   * An occupied slot holding a non-empty entry of the same age or the one
   * before is kept against a shallower store, and against an equally deep
   * store that is not Exact.
   */
  lemma KeepsDeeperOrExact(packed: U64, key: U64, depth: U8, nodeType: NodeType, age: U8)
    requires packed != 0 && key != 0
    requires AgeGap(age, Unpack(key, packed).age) < 2
    requires depth < Unpack(key, packed).depth || (depth == Unpack(key, packed).depth && nodeType != Exact)
    ensures !Replaces(packed, key, depth, nodeType, age)
  {
  }

  // ---------------------------------------------------------------------
  // The scenarios of the table's unit tests, on one slot

  /**
   * Age wrap-around on the key 0x1234: a store at age 254; an equally deep
   * Exact store at 255 replaces it; at age 0 (gap 1) a shallower
   * UpperBound store does not; at age 1 (gap 2 across the wrap) an
   * equally deep store replaces again.
   */
  lemma WraparoundScenario(p1: U64, p2: U64)
    requires p1 == Stored(0, 0x1234, 100, 5, Exact, 0x1111, 254)
    requires p2 == Stored(p1, 0x1234, 200, 5, Exact, 0x2222, 255)
    ensures Hit(p1, 254, 0x1234) && Unpack(0x1234, p1).age == 254 && Unpack(0x1234, p1).depth == 5
    ensures Hit(p2, 255, 0x1234) && Unpack(0x1234, p2).age == 255 && Unpack(0x1234, p2).score == 200
    ensures Stored(p2, 0x1234, 250, 3, UpperBound, 0x2233, 0) == p2
    ensures Hit(p2, 0, 0x1234) && Unpack(0x1234, p2).score == 200
    ensures var p4 := Stored(p2, 0x1234, 300, 5, Exact, 0x3333, 1);
      Hit(p4, 1, 0x1234) && Unpack(0x1234, p4).age == 1 && Unpack(0x1234, p4).score == 300
  {
    var k: U64 := 0x1234;
    ProbeAfterStore(k, 100, 5, Exact, 0x1111, 254);
    assert p1 == Pack(Entry(k, 100, 5, Exact, 0x1111, 254));
    assert Replaces(p1, k, 5, Exact, 255);
    ProbeAfterStore(k, 200, 5, Exact, 0x2222, 255);
    assert !Replaces(p2, k, 3, UpperBound, 0);
    assert Replaces(p2, k, 5, Exact, 1);
    ProbeAfterStore(k, 300, 5, Exact, 0x3333, 1);
  }

  /**
   * Depth priority on the key 0x5678, all at age 0: a depth-10 entry is
   * kept against a depth-5 store, replaced by an Exact store at depth 10
   * and again by an UpperBound store at depth 15.
   */
  lemma DepthScenario(p1: U64, p2: U64)
    requires p1 == Stored(0, 0x5678, 100, 10, Exact, 0x1111, 0)
    requires p2 == Stored(p1, 0x5678, 300, 10, Exact, 0x3333, 0)
    ensures Hit(p1, 0, 0x5678) && Unpack(0x5678, p1).depth == 10 && Unpack(0x5678, p1).score == 100
    ensures Stored(p1, 0x5678, 200, 5, Exact, 0x2222, 0) == p1
    ensures Hit(p2, 0, 0x5678) && Unpack(0x5678, p2).depth == 10 && Unpack(0x5678, p2).score == 300
    ensures var p3 := Stored(p2, 0x5678, 400, 15, UpperBound, 0x4444, 0);
      Hit(p3, 0, 0x5678) && Unpack(0x5678, p3).depth == 15 && Unpack(0x5678, p3).score == 400
  {
    var k: U64 := 0x5678;
    ProbeAfterStore(k, 100, 10, Exact, 0x1111, 0);
    assert !Replaces(p1, k, 5, Exact, 0);
    assert Replaces(p1, k, 10, Exact, 0);
    ProbeAfterStore(k, 300, 10, Exact, 0x3333, 0);
    assert Replaces(p2, k, 15, UpperBound, 0);
    ProbeAfterStore(k, 400, 15, UpperBound, 0x4444, 0);
  }

  /**
   * Exact priority on the key 0xABCD at age 0: a depth-5 UpperBound is
   * replaced by an Exact store at depth 5, which a LowerBound store at
   * depth 5 then leaves alone.
   */
  lemma ExactScenario(p1: U64, p2: U64)
    requires p1 == Stored(0, 0xABCD, 100, 5, UpperBound, 0x1111, 0)
    requires p2 == Stored(p1, 0xABCD, 200, 5, Exact, 0x2222, 0)
    ensures Hit(p1, 0, 0xABCD) && Unpack(0xABCD, p1).nodeType == UpperBound && Unpack(0xABCD, p1).depth == 5
    ensures Hit(p2, 0, 0xABCD) && Unpack(0xABCD, p2).nodeType == Exact && Unpack(0xABCD, p2).score == 200
    ensures Stored(p2, 0xABCD, 300, 5, LowerBound, 0x3333, 0) == p2
  {
    var k: U64 := 0xABCD;
    ProbeAfterStore(k, 100, 5, UpperBound, 0x1111, 0);
    assert Replaces(p1, k, 5, Exact, 0);
    ProbeAfterStore(k, 200, 5, Exact, 0x2222, 0);
    assert !Replaces(p2, k, 5, LowerBound, 0);
  }

  /** A store into an empty table is found with its fields; another key's slot stays empty. */
  lemma BasicScenario(p: U64)
    requires p == Stored(0, 0x1111, 42, 3, Exact, 0xAAAA, 0)
    ensures Hit(p, 0, 0x1111)
    ensures Unpack(0x1111, p) == Entry(0x1111, 42, 3, Exact, 0xAAAA, 0)
    ensures !Hit(0, 0, 0x9999)
  {
    ProbeAfterStore(0x1111, 42, 3, Exact, 0xAAAA, 0);
  }
}
