/**
 * The bitwise operators evaluatePokerHand uses (`1 << k`, `|`, `&`), on
 * natural numbers. JavaScript applies them to 32-bit integers; every mask
 * the evaluator builds stays below 2^13, where the 32-bit operators and
 * these definitions agree.
 */
module Bits {
  /** `1 << k` */
  function Pow2(k: nat): (p: nat)
    ensures p >= 1
  {
    if k == 0 then 1 else 2 * Pow2(k - 1)
  }

  /** Bit k of m is set. */
  predicate Bit(m: nat, k: nat) {
    if k == 0 then m % 2 == 1 else Bit(m / 2, k - 1)
  }

  /** `a | b` */
  function Or(a: nat, b: nat): nat
    decreases a + b
  {
    if a == 0 then b
    else if b == 0 then a
    else 2 * Or(a / 2, b / 2) + (if a % 2 == 1 || b % 2 == 1 then 1 else 0)
  }

  /** `a & b` */
  function And(a: nat, b: nat): nat
    decreases a + b
  {
    if a == 0 || b == 0 then 0
    else 2 * And(a / 2, b / 2) + (if a % 2 == 1 && b % 2 == 1 then 1 else 0)
  }

  /** `m << k` */
  function Shl(m: nat, k: nat): nat {
    m * Pow2(k)
  }

  lemma {:induction false} ZeroNoBit(k: nat)
    ensures !Bit(0, k)
  {
    if k > 0 {
      ZeroNoBit(k - 1);
    }
  }

  /** Bit k of `a | b` is set iff it is set in a or in b. */
  lemma {:induction false} OrBit(a: nat, b: nat, k: nat)
    ensures Bit(Or(a, b), k) <==> Bit(a, k) || Bit(b, k)
    decreases a + b
  {
    if a == 0 {
      ZeroNoBit(k);
    } else if b == 0 {
      ZeroNoBit(k);
    } else {
      var o := Or(a / 2, b / 2);
      var x := if a % 2 == 1 || b % 2 == 1 then 1 else 0;
      assert Or(a, b) == 2 * o + x;
      Halve(o, x);
      if k > 0 {
        OrBit(a / 2, b / 2, k - 1);
      }
    }
  }

  /** Dividing `2 * o + x` by two, for a bit x. */
  lemma Halve(o: nat, x: nat)
    requires x < 2
    ensures (2 * o + x) / 2 == o && (2 * o + x) % 2 == x
  {
  }

  /** `1 << j` has bit k set iff k is j. */
  lemma {:induction false} Pow2Bit(j: nat, k: nat)
    ensures Bit(Pow2(j), k) <==> j == k
  {
    if j == 0 {
      if k > 0 {
        ZeroNoBit(k - 1);
      }
    } else if k == 0 {
    } else {
      Pow2Bit(j - 1, k - 1);
    }
  }

  lemma {:induction false} Pow2Monotone(j: nat, n: nat)
    requires j < n
    ensures Pow2(j) < Pow2(n)
  {
    if j < n - 1 {
      Pow2Monotone(j, n - 1);
    }
  }

  /** A mask below `1 << n` has no bit from bit n up. */
  lemma {:induction false} BelowNoBit(m: nat, n: nat, k: nat)
    requires m < Pow2(n) && n <= k
    ensures !Bit(m, k)
  {
    if n == 0 {
      ZeroNoBit(k);
    } else {
      BelowNoBit(m / 2, n - 1, k - 1);
    }
  }

  /** `|` of two masks below `1 << n` stays below `1 << n`. */
  lemma {:induction false} OrBelow(a: nat, b: nat, n: nat)
    requires a < Pow2(n) && b < Pow2(n)
    ensures Or(a, b) < Pow2(n)
    decreases a + b
  {
    if a != 0 && b != 0 {
      OrBelow(a / 2, b / 2, n - 1);
    }
  }

  /** Two masks below `1 << n` with the same bits below n are equal. */
  lemma {:induction false} Extensional(a: nat, b: nat, n: nat)
    requires a < Pow2(n) && b < Pow2(n)
    requires forall k :: 0 <= k < n ==> (Bit(a, k) <==> Bit(b, k))
    ensures a == b
  {
    if n > 0 {
      forall k | 0 <= k < n - 1 ensures Bit(a / 2, k) <==> Bit(b / 2, k) {
        assert Bit(a, k + 1) <==> Bit(b, k + 1);
      }
      Extensional(a / 2, b / 2, n - 1);
      assert Bit(a, 0) <==> Bit(b, 0);
    }
  }

  lemma {:induction false} AndSelf(m: nat)
    ensures And(m, m) == m
  {
    if m != 0 {
      AndSelf(m / 2);
    }
  }

  /**
   * The test `m && !(m & (m - 1))`: a non-zero m has no bit in common with
   * m - 1 exactly when m is a power of two.
   */
  lemma {:induction false} PowerOfTwoTest(m: nat)
    requires m != 0
    ensures And(m, m - 1) == 0 <==> exists k: nat :: m == Pow2(k)
  {
    if m % 2 == 1 {
      AndSelf(m / 2);
      assert And(m, m - 1) == 2 * And(m / 2, (m - 1) / 2);
      if m == 1 {
        assert m == Pow2(0);
      } else {
        forall k ensures m != Pow2(k) {
          if k > 0 {
            assert Pow2(k) % 2 == 0;
          }
        }
      }
    } else {
      var q := m / 2;
      assert m - 1 == 2 * (q - 1) + 1;
      assert And(m, m - 1) == 2 * And(q, q - 1);
      PowerOfTwoTest(q);
      if k: nat :| q == Pow2(k) {
        assert m == Pow2(k + 1);
      }
      if k: nat :| m == Pow2(k) {
        EvenPow2(m, k);
      }
    }
  }

  /** An even power of two is twice the next smaller one. */
  lemma EvenPow2(m: nat, k: nat)
    requires m == Pow2(k) && m % 2 == 0
    ensures k > 0 && m / 2 == Pow2(k - 1)
  {
  }

  /** `m << k` moves bit i of m to bit i + k. */
  lemma {:induction false} ShlBit(m: nat, k: nat, i: nat)
    ensures Bit(Shl(m, k), i) <==> k <= i && Bit(m, i - k)
  {
    if k > 0 {
      assert Shl(m, k) == 2 * Shl(m, k - 1);
      if i == 0 {
      } else {
        ShlBit(m, k - 1, i - 1);
      }
    }
  }

  /** `0x1f` has bits 0..4 set and no other. */
  lemma LowFiveBits(i: nat)
    ensures Bit(0x1f, i) <==> i < 5
  {
    if i >= 5 {
      BelowNoBit(0x1f, 5, i);
    } else {
      assert Bit(0x1f, 0) && Bit(0x1f, 1) && Bit(0x1f, 2) && Bit(0x1f, 3) && Bit(0x1f, 4);
    }
  }

  /** The mask `0x1f << k` has exactly bits k..k+4 set. */
  lemma WindowBits(k: nat, i: nat)
    ensures Bit(Shl(0x1f, k), i) <==> k <= i < k + 5
  {
    ShlBit(0x1f, k, i);
    if k <= i {
      LowFiveBits(i - k);
    }
  }
}
