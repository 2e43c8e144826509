// Sliding-piece geometry: the eight directions, the squares a ray from a
// square passes over up to the board edge (nearest first), and the two
// things the engine reads off a ray: whether the first occupied square
// holds an attacker, and the squares up to and including that blocker.

module Rays {
  import opened Common
  import opened Bits

  /** North is rank + 1 (square + 8), East is file + 1 (square + 1). */
  datatype Dir = North | South | East | West | NorthEast | NorthWest | SouthEast | SouthWest

  /** The file change of one step. */
  function DF(d: Dir): int {
    match d
    case East | NorthEast | SouthEast => 1
    case West | NorthWest | SouthWest => -1
    case North | South => 0
  }

  /** The rank change of one step. */
  function DR(d: Dir): int {
    match d
    case North | NorthEast | NorthWest => 1
    case South | SouthEast | SouthWest => -1
    case East | West => 0
  }

  /** The square-index change of one step. */
  function Step(d: Dir): int {
    8 * DR(d) + DF(d)
  }

  /** How many steps the edge allows in one coordinate. */
  function Room(c: int, delta: int): int {
    if delta > 0 then 7 - c else if delta < 0 then c else 8
  }

  /** The number of squares a ray from sq has before it leaves the board. */
  function Reach(sq: Square, d: Dir): (n: nat)
    ensures n <= 7
  {
    Min(Room(File(sq), DF(d)), Room(Rank(sq), DR(d)))
  }

  /** The coordinate k steps along. */
  function Along(c: int, delta: int, k: int): int {
    if delta > 0 then c + k else if delta < 0 then c - k else c
  }

  /** The square one step along d. */
  function Next(sq: Square, d: Dir): (t: Square)
    requires Reach(sq, d) > 0
    ensures File(t) == File(sq) + DF(d) && Rank(t) == Rank(sq) + DR(d)
    ensures t == sq + Step(d)
    ensures Reach(t, d) == Reach(sq, d) - 1
  {
    var f := File(sq) + DF(d);
    var k := Rank(sq) + DR(d);
    assert (k * 8 + f) % 8 == f && (k * 8 + f) / 8 == k;
    k * 8 + f
  }

  /** The ray from sq along d, nearest square first, up to the edge. */
  function Ray(sq: Square, d: Dir): seq<Square>
    decreases Reach(sq, d)
  {
    if Reach(sq, d) == 0 then [] else [Next(sq, d)] + Ray(Next(sq, d), d)
  }

  /** The first occupied square of the ray holds an attacker. */
  function Hits(ray: seq<Square>, occ: Bitboard, attackers: Bitboard): bool {
    if ray == [] then false
    else if ray[0] in occ then ray[0] in attackers
    else Hits(ray[1..], occ, attackers)
  }

  /** The squares of the ray up to and including its first occupied square. */
  function Slide(ray: seq<Square>, occ: Bitboard): Bitboard {
    if ray == [] then {}
    else if ray[0] in occ then {ray[0]}
    else {ray[0]} + Slide(ray[1..], occ)
  }

  // ---------------------------------------------------------------------
  // Properties

  /**
   * The j-th square of a ray is j + 1 steps away in both coordinates, and
   * the ray has exactly as many squares as the edge allows.
   */
  lemma {:induction false} RayGeometry(sq: Square, d: Dir)
    ensures |Ray(sq, d)| == Reach(sq, d)
    ensures forall j | 0 <= j < |Ray(sq, d)| ::
              File(Ray(sq, d)[j]) == Along(File(sq), DF(d), j + 1) &&
              Rank(Ray(sq, d)[j]) == Along(Rank(sq), DR(d), j + 1)
    decreases Reach(sq, d)
  {
    if Reach(sq, d) > 0 {
      var t := Next(sq, d);
      RayGeometry(t, d);
      var r := Ray(sq, d);
      assert r == [t] + Ray(t, d);
      forall j | 0 <= j < |r|
        ensures File(r[j]) == Along(File(sq), DF(d), j + 1) && Rank(r[j]) == Along(Rank(sq), DR(d), j + 1)
      {
        if j > 0 {
          assert r[j] == Ray(t, d)[j - 1];
        }
      }
    }
  }

  /** A ray never contains its own starting square. */
  lemma RayExcludesStart(sq: Square, d: Dir)
    ensures sq !in Ray(sq, d)
  {
    RayGeometry(sq, d);
    var r := Ray(sq, d);
    forall j | 0 <= j < |r|
      ensures r[j] != sq
    {
      assert File(r[j]) == Along(File(sq), DF(d), j + 1);
      assert Rank(r[j]) == Along(Rank(sq), DR(d), j + 1);
    }
  }

  /**
   * Hits is true exactly when some square of the ray is an occupied
   * attacker and every square before it is empty.
   */
  lemma {:induction false} HitsFirstBlocker(ray: seq<Square>, occ: Bitboard, attackers: Bitboard)
    ensures Hits(ray, occ, attackers) <==>
            exists j :: 0 <= j < |ray| && ray[j] in occ && ray[j] in attackers &&
                        forall i | 0 <= i < j :: ray[i] !in occ
  {
    if ray != [] && ray[0] !in occ {
      HitsFirstBlocker(ray[1..], occ, attackers);
      if Hits(ray, occ, attackers) {
        var j :| 0 <= j < |ray[1..]| && ray[1..][j] in occ && ray[1..][j] in attackers &&
                 forall i | 0 <= i < j :: ray[1..][i] !in occ;
        assert ray[j + 1] in occ && ray[j + 1] in attackers;
        assert forall i | 0 <= i < j + 1 :: ray[i] !in occ by {
          forall i | 0 <= i < j + 1 ensures ray[i] !in occ {
            if i > 0 { assert ray[i] == ray[1..][i - 1]; }
          }
        }
      }
      if exists j :: 0 <= j < |ray| && ray[j] in occ && ray[j] in attackers &&
                     forall i | 0 <= i < j :: ray[i] !in occ {
        var j :| 0 <= j < |ray| && ray[j] in occ && ray[j] in attackers &&
                 forall i | 0 <= i < j :: ray[i] !in occ;
        assert ray[1..][j - 1] in occ && ray[1..][j - 1] in attackers;
        assert forall i | 0 <= i < j - 1 :: ray[1..][i] !in occ by {
          forall i | 0 <= i < j - 1 ensures ray[1..][i] !in occ {
            assert ray[1..][i] == ray[i + 1];
          }
        }
      }
    }
  }

  /**
   * The slide covers every square of the ray that has no occupied square
   * before it, and nothing off the ray.
   */
  lemma {:induction false} SlideMembers(ray: seq<Square>, occ: Bitboard, j: nat)
    requires j < |ray|
    ensures ray[j] in Slide(ray, occ) <== forall i | 0 <= i < j :: ray[i] !in occ
    ensures Slide(ray, occ) <= set i | 0 <= i < |ray| :: ray[i]
  {
    if ray != [] && ray[0] !in occ {
      if j > 0 {
        SlideMembers(ray[1..], occ, j - 1);
        assert ray[1..][j - 1] == ray[j];
        if forall i | 0 <= i < j :: ray[i] !in occ {
          assert forall i | 0 <= i < j - 1 :: ray[1..][i] !in occ by {
            forall i | 0 <= i < j - 1 ensures ray[1..][i] !in occ {
              assert ray[1..][i] == ray[i + 1];
            }
          }
        }
      } else if |ray| > 1 {
        SlideMembers(ray[1..], occ, 0);
      }
      forall t | t in Slide(ray[1..], occ) ensures t in set i | 0 <= i < |ray| :: ray[i] {
        if |ray| > 1 {
          SlideMembers(ray[1..], occ, 0);
        }
        var i :| 0 <= i < |ray[1..]| && ray[1..][i] == t;
        assert ray[i + 1] == t;
      }
    }
  }

  /** Only occupancy on the ray matters to the slide: squares off the ray can be dropped. */
  lemma {:induction false} SlideOnRay(ray: seq<Square>, occ: Bitboard, mask: Bitboard)
    requires forall i | 0 <= i < |ray| :: ray[i] in occ ==> ray[i] in mask
    ensures Slide(ray, occ) == Slide(ray, occ * mask)
  {
    if ray != [] {
      SlideOnRay(ray[1..], occ, mask);
    }
  }

  // ---------------------------------------------------------------------
  // Ray squares as sets

  /** The first k squares of a ray (all of it when k is past its end). */
  function Prefix(ray: seq<Square>, k: int): Bitboard {
    set i | 0 <= i < k && i < |ray| :: ray[i]
  }

  /** Every square of a ray but the last, the one at the board edge. */
  function Interior(ray: seq<Square>): Bitboard {
    Prefix(ray, |ray| - 1)
  }

  /** No square occurs twice in the sequence. */
  predicate Distinct(ray: seq<Square>) {
    forall i, j | 0 <= i < j < |ray| :: ray[i] != ray[j]
  }

  /** The square j steps along a ray, from its rank and file. */
  lemma RayAt(sq: Square, d: Dir, j: nat)
    requires j < Reach(sq, d)
    ensures |Ray(sq, d)| == Reach(sq, d)
    ensures Ray(sq, d)[j] == Along(Rank(sq), DR(d), j + 1) * 8 + Along(File(sq), DF(d), j + 1)
  {
    RayGeometry(sq, d);
    var t := Ray(sq, d)[j];
    assert t == Rank(t) * 8 + File(t);
  }

  /** Each step moves at least one coordinate, so a ray never revisits a square. */
  lemma RayDistinct(sq: Square, d: Dir)
    ensures Distinct(Ray(sq, d))
  {
    RayGeometry(sq, d);
    var r := Ray(sq, d);
    forall i, j | 0 <= i < j < |r| ensures r[i] != r[j] {
      assert File(r[i]) == Along(File(sq), DF(d), i + 1) && File(r[j]) == Along(File(sq), DF(d), j + 1);
      assert Rank(r[i]) == Along(Rank(sq), DR(d), i + 1) && Rank(r[j]) == Along(Rank(sq), DR(d), j + 1);
    }
  }

  /** Rays of two different directions from one square share no square. */
  lemma RaysDisjoint(sq: Square, d1: Dir, d2: Dir)
    requires d1 != d2
    ensures forall i, j | 0 <= i < |Ray(sq, d1)| && 0 <= j < |Ray(sq, d2)| :: Ray(sq, d1)[i] != Ray(sq, d2)[j]
  {
    RayGeometry(sq, d1);
    RayGeometry(sq, d2);
    var r1, r2 := Ray(sq, d1), Ray(sq, d2);
    forall i, j | 0 <= i < |r1| && 0 <= j < |r2| ensures r1[i] != r2[j] {
      assert File(r1[i]) == Along(File(sq), DF(d1), i + 1) && File(r2[j]) == Along(File(sq), DF(d2), j + 1);
      assert Rank(r1[i]) == Along(Rank(sq), DR(d1), i + 1) && Rank(r2[j]) == Along(Rank(sq), DR(d2), j + 1);
    }
  }

  /** Extending a prefix by one square adds exactly that square. */
  lemma PrefixStep(ray: seq<Square>, k: nat)
    requires k < |ray|
    ensures Prefix(ray, k + 1) == Prefix(ray, k) + {ray[k]}
  {
    assert ray[k] in Prefix(ray, k + 1);
  }

  /** A prefix of a sequence without repeats has as many squares as indices. */
  lemma {:induction false} PrefixCard(ray: seq<Square>, k: nat)
    requires Distinct(ray) && k <= |ray|
    ensures |Prefix(ray, k)| == k
  {
    if k > 0 {
      PrefixCard(ray, k - 1);
      PrefixStep(ray, k - 1);
      assert ray[k - 1] !in Prefix(ray, k - 1);
    }
  }

  /**
   * On a ray without repeats, a square is in the slide exactly when no
   * square before it is occupied: the slide stops at the first blocker.
   */
  lemma SlideExact(ray: seq<Square>, occ: Bitboard, j: nat)
    requires Distinct(ray) && j < |ray|
    ensures ray[j] in Slide(ray, occ) <==> forall i | 0 <= i < j :: ray[i] !in occ
  {
    SlideMembers(ray, occ, j);
    if ray[j] in Slide(ray, occ) {
      SlideStopsAt(ray, occ, j);
    }
  }

  lemma {:induction false} SlideStopsAt(ray: seq<Square>, occ: Bitboard, j: nat)
    requires Distinct(ray) && j < |ray| && ray[j] in Slide(ray, occ)
    ensures forall i | 0 <= i < j :: ray[i] !in occ
  {
    if ray[0] !in occ && j > 0 {
      assert ray[1..][j - 1] == ray[j];
      assert Distinct(ray[1..]);
      SlideStopsAt(ray[1..], occ, j - 1);
      forall i | 0 < i < j ensures ray[i] !in occ {
        assert ray[i] == ray[1..][i - 1];
      }
    }
  }

  /**
   * The slide of a ray with no blocker among its first j squares and a
   * blocker (or the edge) at j has the first j + 1 squares (or all of them).
   */
  lemma SlideIsPrefix(ray: seq<Square>, occ: Bitboard, j: nat)
    requires Distinct(ray) && j <= |ray|
    requires forall i | 0 <= i < j :: ray[i] !in occ
    requires j == |ray| || ray[j] in occ
    ensures Slide(ray, occ) == Prefix(ray, j + 1)
    ensures |Slide(ray, occ)| == if j == |ray| then j else j + 1
  {
    if ray != [] {
      SlideMembers(ray, occ, 0);
      forall t | t in Slide(ray, occ) ensures t in Prefix(ray, j + 1) {
        var i :| 0 <= i < |ray| && ray[i] == t;
        SlideExact(ray, occ, i);
      }
      forall i | 0 <= i < j + 1 && i < |ray| ensures ray[i] in Slide(ray, occ) {
        SlideExact(ray, occ, i);
      }
    }
    var n := if j == |ray| then j else j + 1;
    assert Prefix(ray, j + 1) == Prefix(ray, n);
    PrefixCard(ray, n);
  }

  /**
   * The last square of a ray is in the slide whether or not it is occupied,
   * so occupancy there can be dropped as well as occupancy off the ray.
   */
  lemma {:induction false} SlideIgnoresEdge(ray: seq<Square>, occ: Bitboard, mask: Bitboard)
    requires Interior(ray) <= mask
    ensures Slide(ray, occ) == Slide(ray, occ * mask)
  {
    if |ray| > 1 {
      assert ray[0] in Interior(ray);
      forall t | t in Interior(ray[1..]) ensures t in mask {
        var i :| 0 <= i < |ray[1..]| - 1 && ray[1..][i] == t;
        assert ray[i + 1] in Interior(ray);
      }
      SlideIgnoresEdge(ray[1..], occ, mask);
    }
  }
}
