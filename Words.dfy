/**
 * C# `uint` arithmetic on mathematical integers.
 *
 * A `Word` is an integer in [0, 2^32). Addition, subtraction and left shift
 * wrap modulo 2^32; right shift is division by a power of two; xor is defined
 * bit by bit over the 32 bit positions.
 */
module Words {

  const Modulus: int := 0x1_0000_0000

  /** A C# `uint`. */
  type Word = x: int | 0 <= x < 0x1_0000_0000

  function Pow2(k: nat): (p: nat)
    ensures p >= 1
  {
    if k == 0 then 1 else 2 * Pow2(k - 1)
  }

  lemma Pow2Word()
    ensures Pow2(32) == Modulus
  {
    assert Pow2(8) == 256;
    assert Pow2(16) == 65536;
    assert Pow2(24) == 0x100_0000;
  }

  /** `x + y` on `uint`. */
  function Add(x: Word, y: Word): Word
  {
    (x + y) % Modulus
  }

  /** `x - y` on `uint`. */
  function Sub(x: Word, y: Word): Word
  {
    (x - y) % Modulus
  }

  /** `x >> k` on `uint`. */
  function Shr(x: Word, k: nat): Word
    requires k < 32
  {
    DivShrinks(x, Pow2(k));
    x / Pow2(k)
  }

  lemma DivShrinks(x: nat, p: nat)
    requires p >= 1
    ensures 0 <= x / p <= x
  {
    if p > 1 {
      assert x / p * p <= x;
    }
  }

  /** `x << k` on `uint`: the bits shifted past bit 31 are lost. */
  function Shl(x: Word, k: nat): Word
    requires k < 32
  {
    (x * Pow2(k)) % Modulus
  }

  /** Bitwise xor of two naturals, lowest bit first. */
  function XorNat(x: nat, y: nat): nat
    decreases x + y
  {
    if x == 0 && y == 0 then 0 else (x + y) % 2 + 2 * XorNat(x / 2, y / 2)
  }

  lemma {:induction false} XorNatBound(x: nat, y: nat, n: nat)
    requires x < Pow2(n) && y < Pow2(n)
    ensures XorNat(x, y) < Pow2(n)
  {
    if n > 0 && (x != 0 || y != 0) {
      XorNatBound(x / 2, y / 2, n - 1);
    }
  }

  /** `x ^ y` on `uint`. */
  function Xor(x: Word, y: Word): Word
  {
    Pow2Word();
    XorNatBound(x, y, 32);
    XorNat(x, y)
  }

  lemma {:induction false} XorNatZero(p: nat)
    ensures XorNat(p, 0) == p
    decreases p
  {
    if p != 0 {
      XorNatZero(p / 2);
    }
  }

  lemma Halves(q: int, b: int, h: int)
    requires 0 <= b < 2 && q == b + 2 * h
    ensures q % 2 == b && q / 2 == h
  {
  }

  lemma ParityCancel(p: int, t: int, q: int)
    requires q % 2 == (p + t) % 2
    ensures (q + t) % 2 == p % 2
  {
  }

  lemma {:induction false} XorNatInvolution(p: nat, t: nat)
    ensures XorNat(XorNat(p, t), t) == p
    decreases p + t
  {
    if p == 0 && t == 0 {
    } else if t == 0 {
      XorNatZero(p);
      XorNatZero(p);
    } else {
      var b := (p + t) % 2;
      var h := XorNat(p / 2, t / 2);
      var q := XorNat(p, t);
      assert q == b + 2 * h;
      Halves(q, b, h);
      ParityCancel(p, t, q);
      XorNatInvolution(p / 2, t / 2);
      assert XorNat(q, t) == (q + t) % 2 + 2 * XorNat(q / 2, t / 2);
    }
  }

  /** Xoring the same word twice restores the original. */
  lemma XorInvolution(p: Word, t: Word)
    ensures Xor(Xor(p, t), t) == p
  {
    XorNatInvolution(p, t);
  }

  /** Zero is the unit of xor. */
  lemma XorZero(p: Word)
    ensures Xor(p, 0) == p
  {
    XorNatZero(p);
  }

  /** Wrap-around addition and subtraction undo each other. */
  lemma AddSub(x: Word, y: Word)
    ensures Add(Sub(x, y), y) == x
    ensures Sub(Add(x, y), y) == x
  {
  }
}
