// Machine integers as bounded naturals and integers, and unsigned 64-bit
// words with bitwise exclusive-or defined bit by bit and its algebraic laws
// proved once, for the hash arithmetic that XORs keys together.

module Words {

  const TWO_64: nat := 0x1_0000_0000_0000_0000

  type U64 = x: nat | x < TWO_64

  type U8 = x: nat | x < 0x100
  type U16 = x: nat | x < 0x1_0000
  type U32 = x: nat | x < 0x1_0000_0000
  type I16 = x: int | -0x8000 <= x < 0x8000

  /** x reduced to i16 by two's-complement wrap-around: `as i16`, or i16 arithmetic without overflow checks. */
  function WrapI16(x: int): (r: I16)
    ensures -0x8000 <= x < 0x8000 ==> r == x
    ensures (x - r) % 0x1_0000 == 0
  {
    var r := (x + 0x8000) % 0x1_0000 - 0x8000;
    assert x - r == 0x1_0000 * ((x + 0x8000) / 0x1_0000);
    r
  }

  /** The value of a 64-bit vector. */
  function ToWord(x: bv64): U64 {
    x as nat
  }

  /** 2^n */
  function Pow2(n: nat): (r: nat)
    ensures r >= 1
  {
    if n == 0 then 1 else 2 * Pow2(n - 1)
  }

  /** Bitwise exclusive-or: bit k of the result is set iff exactly one of bit k of a and bit k of b is. */
  function Xor(a: nat, b: nat): nat
    decreases a + b
  {
    if a == 0 then b
    else if b == 0 then a
    else 2 * Xor(a / 2, b / 2) + (if a % 2 == b % 2 then 0 else 1)
  }

  /** The lowest bit of a. */
  function Bit(a: nat): nat {
    a % 2
  }

  /** Bit k of a. */
  function BitAt(a: nat, k: nat): bool
    decreases k
  {
    if k == 0 then a % 2 == 1 else BitAt(a / 2, k - 1)
  }

  // ---------------------------------------------------------------------
  // Properties

  /** One step of the bitwise recursion, for every pair of words (zero included). */
  lemma XorStep(a: nat, b: nat)
    ensures Xor(a, b) / 2 == Xor(a / 2, b / 2)
    ensures Xor(a, b) % 2 == if a % 2 == b % 2 then 0 else 1
  {
  }

  /** XOR agrees with its meaning bit by bit. */
  lemma {:induction false} XorBits(a: nat, b: nat, k: nat)
    ensures BitAt(Xor(a, b), k) == (BitAt(a, k) != BitAt(b, k))
    decreases k
  {
    XorStep(a, b);
    if k > 0 {
      XorBits(a / 2, b / 2, k - 1);
    }
  }

  lemma {:induction false} XorComm(a: nat, b: nat)
    ensures Xor(a, b) == Xor(b, a)
    decreases a + b
  {
    if a != 0 && b != 0 {
      XorComm(a / 2, b / 2);
    }
  }

  lemma XorZero(a: nat)
    ensures Xor(a, 0) == a && Xor(0, a) == a
  {
  }

  lemma {:induction false} XorSelf(a: nat)
    ensures Xor(a, a) == 0
    decreases a
  {
    if a != 0 {
      XorSelf(a / 2);
    }
  }

  lemma {:induction false} XorAssoc(a: nat, b: nat, c: nat)
    ensures Xor(a, Xor(b, c)) == Xor(Xor(a, b), c)
    decreases a + b + c
  {
    if a == 0 || b == 0 || c == 0 {
    } else {
      XorAssoc(a / 2, b / 2, c / 2);
      var bc := Xor(b, c);
      var ab := Xor(a, b);
      XorStep(b, c);
      XorStep(a, b);
      XorStep(a, bc);
      XorStep(ab, c);
      var l := Xor(a, bc);
      var r := Xor(ab, c);
      assert l / 2 == r / 2 && l % 2 == r % 2;
    }
  }

  /** XOR of two words is a word. */
  lemma {:induction false} XorBound(a: nat, b: nat, n: nat)
    requires a < Pow2(n) && b < Pow2(n)
    ensures Xor(a, b) < Pow2(n)
    decreases n
  {
    XorStep(a, b);
    if n > 0 && a != 0 && b != 0 {
      XorBound(a / 2, b / 2, n - 1);
    }
  }

  lemma {:induction false} Pow2Add(m: nat, n: nat)
    ensures Pow2(m + n) == Pow2(m) * Pow2(n)
    decreases m
  {
    if m > 0 {
      Pow2Add(m - 1, n);
    }
  }

  lemma Pow2At64()
    ensures Pow2(64) == TWO_64
  {
    assert Pow2(1) == 2;
    Pow2Add(1, 1);
    assert Pow2(2) == 4;
    Pow2Add(2, 2);
    assert Pow2(4) == 16;
    Pow2Add(4, 4);
    assert Pow2(8) == 0x100;
    Pow2Add(8, 8);
    assert Pow2(16) == 0x1_0000;
    Pow2Add(16, 16);
    assert Pow2(32) == 0x1_0000_0000;
    Pow2Add(32, 32);
  }

  /** XOR of two 64-bit words. */
  function Xor64(a: U64, b: U64): (r: U64)
    ensures r == Xor(a, b)
  {
    Pow2At64();
    XorBound(a, b, 64);
    Xor(a, b)
  }

  /** Taking the same word out twice cancels: (h ^ a) ^ a == h. */
  lemma XorCancel(h: nat, a: nat)
    ensures Xor(Xor(h, a), a) == h
  {
    XorAssoc(h, a, a);
    XorSelf(a);
    XorZero(h);
  }

  /** Moving one word past another: a ^ (b ^ c) == b ^ (a ^ c). */
  lemma XorSwap(a: nat, b: nat, c: nat)
    ensures Xor(a, Xor(b, c)) == Xor(b, Xor(a, c))
  {
    XorAssoc(a, b, c);
    XorComm(a, b);
    XorAssoc(b, a, c);
  }
}
