/** Fixed-width unsigned words and the bitwise operators the firmware applies to them.

    Machine words are modelled as mathematical integers with the wrap-around of the
    C types written out: an `unsigned int` on the PIC32 is a value modulo 2^32, and a
    word written to SPI2 in 16-bit mode keeps its low 16 bits.  Bitwise AND and OR are
    defined bit by bit on natural numbers, and the lemmas below give their closed forms
    for the masks the firmware uses (a low mask keeps the remainder, a field mask keeps
    one field, OR of non-overlapping values is their sum). */
module Bits {

  const TWO16: nat := 0x1_0000
  const TWO32: nat := 0x1_0000_0000

  /** 2^k */
  function Pow2(k: nat): (r: nat)
    ensures r >= 1
  {
    if k == 0 then 1 else 2 * Pow2(k - 1)
  }

  /** Reinterpretation of a C integer as a 32-bit unsigned word (two's complement). */
  function U32(x: int): (r: nat)
    ensures r < TWO32
    ensures 0 <= x < TWO32 ==> r == x
    ensures (x - r) % TWO32 == 0
  {
    x % TWO32
  }

  /** Bitwise AND of two non-negative integers, least significant bit first. */
  function And(a: nat, b: nat): nat
  {
    if a == 0 || b == 0 then 0
    else 2 * And(a / 2, b / 2) + (if a % 2 == 1 && b % 2 == 1 then 1 else 0)
  }

  /** Bitwise OR of two non-negative integers, least significant bit first. */
  function Or(a: nat, b: nat): nat
  {
    if a == 0 then b
    else if b == 0 then a
    else 2 * Or(a / 2, b / 2) + (if a % 2 == 1 || b % 2 == 1 then 1 else 0)
  }

  // ---------------------------------------------------------------------------
  // Arithmetic helpers

  /** Division and remainder are determined by any decomposition x == m*q + r with 0 <= r < m. */
  lemma DivModUnique(x: int, m: int, q: int, r: int)
    requires m > 0 && 0 <= r < m && x == m * q + r
    ensures x / m == q && x % m == r
  {
    var d := q - x / m;
    assert m * d == (x % m) - r by {
      assert m * q - m * (x / m) == m * d;
    }
    if d >= 1 {
      MulAtLeast(m, d);
    } else if d <= -1 {
      MulAtLeast(m, -d);
    }
  }

  lemma MulAtLeast(m: int, d: int)
    requires m > 0 && d >= 1
    ensures m * d >= m && m * -d <= -m
  {
  }

  /** Taking a halving step out of a division by a power of two. */
  lemma HalveDivMod(x: nat, k: nat)
    requires k > 0
    ensures x / Pow2(k) == (x / 2) / Pow2(k - 1)
    ensures x % Pow2(k) == 2 * ((x / 2) % Pow2(k - 1)) + x % 2
  {
    var p := Pow2(k - 1);
    var q, r := (x / 2) / p, (x / 2) % p;
    assert x / 2 == p * q + r;
    assert x == 2 * (x / 2) + x % 2;
    assert x == (2 * p) * q + (2 * r + x % 2);
    DivModUnique(x, 2 * p, q, 2 * r + x % 2);
  }

  // ---------------------------------------------------------------------------
  // Closed forms of AND and OR

  /** The low k bits of x, collected one at a time. */
  function LowBits(x: nat, k: nat): nat
  {
    if k == 0 then 0 else 2 * LowBits(x / 2, k - 1) + x % 2
  }

  /** The low k bits of x are its remainder modulo 2^k. */
  lemma {:induction false} LowBitsMod(x: nat, k: nat)
    ensures LowBits(x, k) == x % Pow2(k)
  {
    if k > 0 {
      LowBitsMod(x / 2, k - 1);
      HalveDivMod(x, k);
    }
  }

  /** AND with the low mask of width k collects the low k bits. */
  lemma {:induction false} AndLowBits(x: nat, k: nat)
    ensures And(x, Pow2(k) - 1) == LowBits(x, k)
  {
    if k > 0 && x > 0 {
      LowMaskHalves(k);
      AndOddMask(x, Pow2(k) - 1);
      AndLowBits(x / 2, k - 1);
    } else if k > 0 {
      AndLowBits(0, k - 1);
    }
  }

  /** AND with the low mask 2^k - 1 keeps the low k bits, i.e. the remainder modulo 2^k. */
  lemma AndLowMask(x: nat, k: nat)
    ensures And(x, Pow2(k) - 1) == x % Pow2(k)
  {
    AndLowBits(x, k);
    LowBitsMod(x, k);
  }

  /** Halving the low mask of width k gives the low mask of width k - 1. */
  lemma LowMaskHalves(k: nat)
    requires k > 0
    ensures (Pow2(k) - 1) / 2 == Pow2(k - 1) - 1 && (Pow2(k) - 1) % 2 == 1
  {
    DivModUnique(Pow2(k) - 1, 2, Pow2(k - 1) - 1, 1);
  }

  /** An odd mask keeps the low bit: AND shifts down by one position and adds it back. */
  lemma AndOddMask(x: nat, m: nat)
    requires x > 0 && m % 2 == 1
    ensures And(x, m) == 2 * And(x / 2, m / 2) + x % 2
  {
  }

  /** AND with a mask of n ones starting at bit j keeps exactly that field of x. */
  lemma {:induction false} AndFieldMask(x: nat, n: nat, j: nat)
    ensures And(x, (Pow2(n) - 1) * Pow2(j)) == ((x / Pow2(j)) % Pow2(n)) * Pow2(j)
  {
    if j == 0 {
      AndLowMask(x, n);
    } else {
      var ones := Pow2(n) - 1;
      DoublePow2(ones, j);
      HalveDivMod(x, j);
      if x == 0 {
        assert x / Pow2(j) == 0;
      } else if ones == 0 {
        assert Pow2(n) == 1;
      } else {
        AndEvenMask(x, ones * Pow2(j - 1));
        AndFieldMask(x / 2, n, j - 1);
        DoublePow2(((x / 2) / Pow2(j - 1)) % Pow2(n), j);
      }
    }
  }

  lemma DoublePow2(c: nat, j: nat)
    requires j > 0
    ensures c * Pow2(j) == 2 * (c * Pow2(j - 1))
  {
  }

  /** An even mask contributes no low bit: AND shifts down by one position. */
  lemma AndEvenMask(x: nat, m: nat)
    requires x > 0 && m > 0
    ensures And(x, 2 * m) == 2 * And(x / 2, m)
  {
  }

  /** A multiple of 2^k and a value below 2^k have no bit in common. */
  lemma {:induction false} AndDisjoint(hi: nat, k: nat, lo: nat)
    requires lo < Pow2(k)
    ensures And(hi * Pow2(k), lo) == 0 && And(lo, hi * Pow2(k)) == 0
  {
    if k > 0 && hi > 0 && lo > 0 {
      var a := hi * Pow2(k);
      assert a == 2 * (hi * Pow2(k - 1));
      assert a / 2 == hi * Pow2(k - 1) && a % 2 == 0;
      AndDisjoint(hi, k - 1, lo / 2);
    }
  }

  /** OR of a multiple of 2^k with a value below 2^k is their sum: no carry reaches the high part. */
  lemma {:induction false} OrDisjoint(hi: nat, k: nat, lo: nat)
    requires lo < Pow2(k)
    ensures Or(hi * Pow2(k), lo) == hi * Pow2(k) + lo
    ensures Or(lo, hi * Pow2(k)) == hi * Pow2(k) + lo
  {
    if k > 0 && hi > 0 && lo > 0 {
      var a := hi * Pow2(k);
      assert a == 2 * (hi * Pow2(k - 1));
      assert a / 2 == hi * Pow2(k - 1) && a % 2 == 0;
      OrDisjoint(hi, k - 1, lo / 2);
    }
  }

  /** OR with the all-ones word of width k absorbs every value of that width. */
  lemma {:induction false} OrAllOnes(a: nat, k: nat)
    requires a < Pow2(k)
    ensures Or(a, Pow2(k) - 1) == Pow2(k) - 1
  {
    if k > 0 && a > 0 {
      LowMaskHalves(k);
      OrAllOnes(a / 2, k - 1);
    }
  }

  lemma Pow2Values()
    ensures Pow2(3) == 8 && Pow2(4) == 16 && Pow2(5) == 32 && Pow2(6) == 64 && Pow2(7) == 128
    ensures Pow2(8) == 256 && Pow2(11) == 2048 && Pow2(12) == 4096
    ensures Pow2(16) == TWO16 && Pow2(24) == 0x100_0000 && Pow2(32) == TWO32
  {
    assert Pow2(4) == 16;
    assert Pow2(8) == 256;
    assert Pow2(12) == 4096;
    assert Pow2(16) == TWO16;
    assert Pow2(24) == 0x100_0000;
  }
}
