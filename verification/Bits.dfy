/** Bit arithmetic on unsigned numbers, defined digit by digit. */
module Bits {
  import opened Numbers

  function Pow2(n: nat): (r: nat)
    ensures r > 0
  {
    if n == 0 then 1 else 2 * Pow2(n - 1)
  }

  predicate Bit(b: nat, i: nat) {
    if i == 0 then b % 2 == 1 else Bit(b / 2, i - 1)
  }

  function And(a: nat, b: nat): nat {
    if a == 0 then 0 else (if a % 2 == 1 && b % 2 == 1 then 1 else 0) + 2 * And(a / 2, b / 2)
  }

  function Or(a: nat, b: nat): nat
    decreases a + b
  {
    if a == 0 && b == 0 then 0 else (if a % 2 == 1 || b % 2 == 1 then 1 else 0) + 2 * Or(a / 2, b / 2)
  }

  function Xor(a: nat, b: nat): nat
    decreases a + b
  {
    if a == 0 && b == 0 then 0 else (if a % 2 != b % 2 then 1 else 0) + 2 * Xor(a / 2, b / 2)
  }

  function PopCount(b: nat): nat {
    if b == 0 then 0 else b % 2 + PopCount(b / 2)
  }

  lemma {:induction false} BitOfAnd(a: nat, b: nat, i: nat)
    ensures Bit(And(a, b), i) <==> Bit(a, i) && Bit(b, i)
    decreases i
  {
    if a == 0 {
      NoBits(i);
    } else if i > 0 {
      BitOfAnd(a / 2, b / 2, i - 1);
    }
  }

  lemma {:induction false} BitOfOr(a: nat, b: nat, i: nat)
    ensures Bit(Or(a, b), i) <==> Bit(a, i) || Bit(b, i)
    decreases i
  {
    if a == 0 && b == 0 {
      NoBits(i);
    } else if i > 0 {
      BitOfOr(a / 2, b / 2, i - 1);
    }
  }

  lemma {:induction false} BitOfXor(a: nat, b: nat, i: nat)
    ensures Bit(Xor(a, b), i) <==> Bit(a, i) != Bit(b, i)
    decreases i
  {
    if a == 0 && b == 0 {
      NoBits(i);
    } else if i > 0 {
      BitOfXor(a / 2, b / 2, i - 1);
    }
  }

  lemma {:induction false} NoBits(i: nat)
    ensures !Bit(0, i)
  {
    if i > 0 {
      NoBits(i - 1);
    }
  }

  lemma {:induction false} BitOfPow2(n: nat, i: nat)
    ensures Bit(Pow2(n), i) <==> i == n
  {
    if n == 0 {
      if i > 0 {
        NoBits(i - 1);
      }
    } else if i > 0 {
      BitOfPow2(n - 1, i - 1);
    }
  }

  /** A number with all `n` low bits set. */
  lemma {:induction false} BitOfOnes(n: nat, i: nat)
    ensures Bit(Pow2(n) - 1, i) <==> i < n
  {
    if n == 0 {
      NoBits(i);
    } else if i > 0 {
      assert (Pow2(n) - 1) / 2 == Pow2(n - 1) - 1;
      BitOfOnes(n - 1, i - 1);
    }
  }

  /** A number is its bits. */
  lemma {:induction false} SameBits(a: nat, b: nat)
    requires forall i: nat :: Bit(a, i) <==> Bit(b, i)
    ensures a == b
    decreases a + b
  {
    assert a % 2 == b % 2 by {
      assert Bit(a, 0) <==> Bit(b, 0);
    }
    if a + b > 0 {
      forall i: nat
        ensures Bit(a / 2, i) <==> Bit(b / 2, i)
      {
        assert Bit(a, i + 1) <==> Bit(b, i + 1);
      }
      SameBits(a / 2, b / 2);
    }
  }

  lemma {:induction false} HighBitsClear(b: nat, n: nat, i: nat)
    requires b < Pow2(n) && n <= i
    ensures !Bit(b, i)
  {
    if n == 0 {
      NoBits(i);
    } else {
      HighBitsClear(b / 2, n - 1, i - 1);
    }
  }

  lemma {:induction false} Bounded(b: nat, n: nat)
    requires forall i: nat :: n <= i ==> !Bit(b, i)
    ensures b < Pow2(n)
    decreases b
  {
    if b > 0 {
      if n == 0 {
        SomeBit(b);
      } else {
        forall i: nat | n - 1 <= i
          ensures !Bit(b / 2, i)
        {
          assert !Bit(b, i + 1);
        }
        Bounded(b / 2, n - 1);
      }
    }
  }

  lemma {:induction false} SomeBit(b: nat)
    requires b > 0
    ensures exists i: nat :: Bit(b, i)
  {
    if b % 2 == 1 {
      assert Bit(b, 0);
    } else {
      SomeBit(b / 2);
      var i: nat :| Bit(b / 2, i);
      assert Bit(b, i + 1);
    }
  }

  /** Each round of `b &= b - 1` removes exactly one set bit, and makes the number smaller. */
  lemma {:induction false} ClearLowest(b: nat)
    requires b > 0
    ensures And(b, b - 1) < b
    ensures PopCount(b) == PopCount(And(b, b - 1)) + 1
  {
    if b % 2 == 1 {
      assert (b - 1) / 2 == b / 2;
      AndSelf(b / 2);
    } else {
      assert (b - 1) / 2 == b / 2 - 1;
      ClearLowest(b / 2);
    }
  }

  lemma {:induction false} AndSelf(b: nat)
    ensures And(b, b) == b
  {
    if b > 0 {
      AndSelf(b / 2);
    }
  }

  lemma {:induction false} PopCountBound(b: nat, n: nat)
    requires b < Pow2(n)
    ensures PopCount(b) <= n
  {
    if b > 0 {
      PopCountBound(b / 2, n - 1);
    }
  }

  lemma {:induction false} Pow2Sum(m: nat, n: nat)
    ensures Pow2(m + n) == Pow2(m) * Pow2(n)
  {
    if m > 0 {
      Pow2Sum(m - 1, n);
    }
  }

  lemma Pow2Doubled(n: nat, v: nat)
    requires Pow2(n) == v
    ensures Pow2(n + n) == v * v
  {
    Pow2Sum(n, n);
  }

  lemma Width8()
    ensures Pow2(8) == 0x100
  {
  }

  lemma Width128()
    ensures Pow2(128) == 0x1_0000_0000_0000_0000_0000_0000_0000_0000
  {
    hide Pow2;
    Width8();
    Pow2Doubled(8, 0x100);
    Pow2Doubled(16, 0x1_0000);
    Pow2Doubled(32, 0x1_0000_0000);
    Pow2Doubled(64, 0x1_0000_0000_0000_0000);
  }

  lemma {:induction false} Pow2Monotone(m: nat, n: nat)
    requires m <= n
    ensures Pow2(m) <= Pow2(n)
    decreases n
  {
    if m < n {
      Pow2Monotone(m, n - 1);
    }
  }
}
