/**
 Single-bit operations on the words of the driver's bitmaps.  A word is the number that its binary
 digits denote; `1 << i` only ever has `i` below the word size, so no operation here overflows.
 */
module Bits {

  /** `(w >> i) & 1`. */
  predicate Bit(w: nat, i: nat) {
    if i == 0 then w % 2 == 1 else Bit(w / 2, i - 1)
  }

  /** `w | (1 << i)`. */
  function Set(w: nat, i: nat): nat {
    if i == 0 then w / 2 * 2 + 1 else Set(w / 2, i - 1) * 2 + w % 2
  }

  /** `w & ~(1 << i)`. */
  function Clear(w: nat, i: nat): nat {
    if i == 0 then w / 2 * 2 else Clear(w / 2, i - 1) * 2 + w % 2
  }

  /** `(w >> (4 * n)) & 0xF`. */
  function Nibble(w: nat, n: nat): nat {
    if n == 0 then w % 16 else Nibble(w / 16, n - 1)
  }

  function Pow2(n: nat): nat { if n == 0 then 1 else 2 * Pow2(n - 1) }

  lemma {:induction false} SetBit(w: nat, i: nat, j: nat)
    ensures Bit(Set(w, i), j) <==> Bit(w, j) || i == j
  {
    if i > 0 && j > 0 {
      SetBit(w / 2, i - 1, j - 1);
      assert Set(w, i) / 2 == Set(w / 2, i - 1);
    } else if j > 0 {
      assert Set(w, 0) / 2 == w / 2;
    }
  }

  lemma {:induction false} ClearBit(w: nat, i: nat, j: nat)
    ensures Bit(Clear(w, i), j) <==> Bit(w, j) && i != j
  {
    if i > 0 && j > 0 {
      ClearBit(w / 2, i - 1, j - 1);
      assert Clear(w, i) / 2 == Clear(w / 2, i - 1);
    } else if j > 0 {
      assert Clear(w, 0) / 2 == w / 2;
    }
  }

  /** Neither operation leaves the word size. */
  lemma {:induction false} WordSize(w: nat, i: nat, n: nat)
    requires w < Pow2(n) && i < n
    ensures Set(w, i) < Pow2(n) && Clear(w, i) < Pow2(n)
  {
    if i > 0 {
      WordSize(w / 2, i - 1, n - 1);
    }
  }

  lemma {:induction false} ZeroBits(i: nat)
    ensures !Bit(0, i)
  {
    if i > 0 { ZeroBits(i - 1); }
  }

  /** Bit `j` of nibble `n` is bit `4 * n + j` of the word. */
  lemma {:induction false} NibbleBit(w: nat, n: nat, j: nat)
    requires j < 4
    ensures Bit(Nibble(w, n), j) <==> Bit(w, 4 * n + j)
  {
    if n == 0 {
      LowNibble(w, j);
    } else {
      NibbleBit(w / 16, n - 1, j);
      FourDown(w, 4 * (n - 1) + j);
    }
  }

  lemma {:induction false} FourDown(w: nat, i: nat)
    ensures Bit(w / 16, i) <==> Bit(w, i + 4)
  {
    assert w / 2 / 2 / 2 / 2 == w / 16;
    assert Bit(w, i + 4) == Bit(w / 2, i + 3);
    assert Bit(w / 2, i + 3) == Bit(w / 2 / 2, i + 2);
    assert Bit(w / 2 / 2, i + 2) == Bit(w / 2 / 2 / 2, i + 1);
  }

  lemma Half16(w: nat)
    ensures w % 16 / 2 == w / 2 % 8 && w % 16 % 2 == w % 2
  {
  }

  lemma Half8(w: nat)
    ensures w % 8 / 2 == w / 2 % 4 && w % 8 % 2 == w % 2
  {
  }

  lemma Half4(w: nat)
    ensures w % 4 / 2 == w / 2 % 2 && w % 4 % 2 == w % 2
  {
  }

  lemma {:induction false} LowNibble(w: nat, j: nat)
    requires j < 4
    ensures Bit(w % 16, j) <==> Bit(w, j)
  {
    Half16(w);
    if j > 0 {
      assert Bit(w % 16, j) == Bit(w % 16 / 2, j - 1) && Bit(w, j) == Bit(w / 2, j - 1);
      LowOctal(w / 2, j - 1);
    }
  }

  lemma {:induction false} LowOctal(w: nat, j: nat)
    requires j < 3
    ensures Bit(w % 8, j) <==> Bit(w, j)
  {
    Half8(w);
    if j > 0 {
      assert Bit(w % 8, j) == Bit(w % 8 / 2, j - 1) && Bit(w, j) == Bit(w / 2, j - 1);
      LowPair(w / 2, j - 1);
    }
  }

  lemma {:induction false} LowPair(w: nat, j: nat)
    requires j < 2
    ensures Bit(w % 4, j) <==> Bit(w, j)
  {
    Half4(w);
    if j > 0 {
      assert Bit(w % 4, 1) == Bit(w % 4 / 2, 0) && Bit(w, 1) == Bit(w / 2, 0);
    }
  }

  /** `a | b`. */
  function Or(a: nat, b: nat): nat {
    if a == 0 then b else 2 * Or(a / 2, b / 2) + (if a % 2 == 1 || b % 2 == 1 then 1 else 0)
  }

  lemma EvenHalf(b: nat, n: nat)
    requires n > 0
    ensures b * Pow2(n) / 2 == b * Pow2(n - 1) && b * Pow2(n) % 2 == 0
  {
    assert b * (2 * Pow2(n - 1)) == 2 * (b * Pow2(n - 1));
  }

  /** Or-ing in a number that is shifted past the bits in use adds it. */
  lemma {:induction false} OrIsSum(a: nat, b: nat, n: nat)
    requires a < Pow2(n)
    ensures Or(a, b * Pow2(n)) == a + b * Pow2(n)
  {
    if a > 0 {
      OrIsSum(a / 2, b, n - 1);
      EvenHalf(b, n);
    }
  }
}
