/** Bitwise and, or and shift on unsigned integers, by their binary digits. */
module Bits {

  const TWO_64: nat := 0x1_0000_0000_0000_0000

  newtype U64 = x: int | 0 <= x < TWO_64

  function Exp2(e: nat): (p: nat)
    ensures p >= 1
  {
    if e == 0 then 1 else 2 * Exp2(e - 1)
  }

  // Is bit i of a set?
  predicate Bit(a: nat, i: nat)
  {
    if i == 0 then a % 2 == 1 else Bit(a / 2, i - 1)
  }

  function And(a: nat, b: nat): (c: nat)
    ensures c <= a && c <= b
  {
    if a == 0 || b == 0 then 0
    else 2 * And(a / 2, b / 2) + if a % 2 == 1 && b % 2 == 1 then 1 else 0
  }

  function Or(a: nat, b: nat): nat
    decreases a + b
  {
    if a == 0 then b
    else if b == 0 then a
    else 2 * Or(a / 2, b / 2) + if a % 2 == 1 || b % 2 == 1 then 1 else 0
  }

  lemma {:induction false} ZeroHasNoBits(i: nat)
    ensures !Bit(0, i)
  {
    if i > 0 {
      ZeroHasNoBits(i - 1);
    }
  }

  lemma {:induction false} BitOfAnd(a: nat, b: nat, i: nat)
    ensures Bit(And(a, b), i) <==> Bit(a, i) && Bit(b, i)
  {
    if a == 0 || b == 0 {
      ZeroHasNoBits(i);
    } else {
      AndHalves(a, b);
      if i > 0 {
        BitOfAnd(a / 2, b / 2, i - 1);
      }
    }
  }

  lemma AndHalves(a: nat, b: nat)
    requires a != 0 && b != 0
    ensures And(a, b) / 2 == And(a / 2, b / 2) && (And(a, b) % 2 == 1 <==> a % 2 == 1 && b % 2 == 1)
  {
  }

  lemma {:induction false} BitOfOr(a: nat, b: nat, i: nat)
    ensures Bit(Or(a, b), i) <==> Bit(a, i) || Bit(b, i)
  {
    if a == 0 || b == 0 {
      ZeroHasNoBits(i);
    } else {
      OrHalves(a, b);
      if i > 0 {
        BitOfOr(a / 2, b / 2, i - 1);
      }
    }
  }

  lemma OrHalves(a: nat, b: nat)
    requires a != 0 && b != 0
    ensures Or(a, b) / 2 == Or(a / 2, b / 2) && (Or(a, b) % 2 == 1 <==> a % 2 == 1 || b % 2 == 1)
  {
  }

  // Numbers with the same bits are equal.
  lemma {:induction false} SameBits(a: nat, b: nat)
    requires forall i: nat :: Bit(a, i) == Bit(b, i)
    ensures a == b
    decreases a + b
  {
    if a != 0 || b != 0 {
      assert Bit(a, 0) == Bit(b, 0);
      forall i: nat
        ensures Bit(a / 2, i) == Bit(b / 2, i)
      {
        assert Bit(a, i + 1) == Bit(b, i + 1);
      }
      SameBits(a / 2, b / 2);
    }
  }

  lemma AndAssociative(a: nat, b: nat, c: nat)
    ensures And(And(a, b), c) == And(a, And(b, c))
  {
    forall i: nat
      ensures Bit(And(And(a, b), c), i) == Bit(And(a, And(b, c)), i)
    {
      BitOfAnd(a, b, i);
      BitOfAnd(And(a, b), c, i);
      BitOfAnd(b, c, i);
      BitOfAnd(a, And(b, c), i);
    }
    SameBits(And(And(a, b), c), And(a, And(b, c)));
  }

  lemma OrAssociative(a: nat, b: nat, c: nat)
    ensures Or(Or(a, b), c) == Or(a, Or(b, c))
  {
    forall i: nat
      ensures Bit(Or(Or(a, b), c), i) == Bit(Or(a, Or(b, c)), i)
    {
      BitOfOr(a, b, i);
      BitOfOr(Or(a, b), c, i);
      BitOfOr(b, c, i);
      BitOfOr(a, Or(b, c), i);
    }
    SameBits(Or(Or(a, b), c), Or(a, Or(b, c)));
  }

  lemma {:induction false} OrFits(a: nat, b: nat, e: nat)
    requires a < Exp2(e) && b < Exp2(e)
    ensures Or(a, b) < Exp2(e)
    decreases e
  {
    if a != 0 && b != 0 {
      OrFits(a / 2, b / 2, e - 1);
    }
  }

  // Bit i of 2^e is set only for i == e.
  lemma {:induction false} BitOfExp2(e: nat, i: nat)
    ensures Bit(Exp2(e), i) <==> i == e
    decreases e
  {
    if e == 0 {
      if i > 0 {
        ZeroHasNoBits(i - 1);
      }
    } else {
      assert Exp2(e) / 2 == Exp2(e - 1);
      if i > 0 {
        BitOfExp2(e - 1, i - 1);
      }
    }
  }

  // The bits of a number below 2^e are among the first e.
  lemma {:induction false} HighBits(a: nat, e: nat, i: nat)
    requires a < Exp2(e) && e <= i
    ensures !Bit(a, i)
    decreases e
  {
    if e == 0 {
      ZeroHasNoBits(i);
    } else {
      HighBits(a / 2, e - 1, i - 1);
    }
  }

  lemma {:induction false} Exp2Sum(a: nat, b: nat)
    ensures Exp2(a + b) == Exp2(a) * Exp2(b)
    decreases a
  {
    if a > 0 {
      Exp2Sum(a - 1, b);
    }
  }

  lemma TwoTo64()
    ensures Exp2(64) == TWO_64
  {
    TwoTo16();
    Exp2Sum(16, 16);
    Exp2Sum(32, 32);
  }

  lemma TwoTo16()
    ensures Exp2(16) == 0x1_0000
  {
    assert Exp2(4) == 16;
    Exp2Sum(4, 4);
    Exp2Sum(8, 8);
  }

  // ------------------------------------------------------------------ runs of ones

  function Shl(a: nat, k: nat): nat
  {
    if k == 0 then a else 2 * Shl(a, k - 1)
  }

  lemma {:induction false} BitOfShl(a: nat, k: nat, i: nat)
    ensures Bit(Shl(a, k), i) <==> k <= i && Bit(a, i - k)
    decreases k
  {
    if k > 0 {
      assert Shl(a, k) / 2 == Shl(a, k - 1) && Shl(a, k) % 2 == 0;
      if i > 0 {
        BitOfShl(a, k - 1, i - 1);
      }
    }
  }

  lemma {:induction false} BitOfOnes(e: nat, i: nat)
    ensures Bit(Exp2(e) - 1, i) <==> i < e
    decreases e
  {
    if e == 0 {
      ZeroHasNoBits(i);
    } else {
      assert (Exp2(e) - 1) / 2 == Exp2(e - 1) - 1 && (Exp2(e) - 1) % 2 == 1;
      if i > 0 {
        BitOfOnes(e - 1, i - 1);
      }
    }
  }

  lemma {:induction false} OnesShifted(e: nat, k: nat)
    ensures Shl(Exp2(e) - 1, k) == Exp2(e + k) - Exp2(k)
    decreases k
  {
    if k > 0 {
      OnesShifted(e, k - 1);
    }
  }

  // The bits of 2^64 - 2^31 are the upper 33.
  lemma BitOfSignExtended(i: nat)
    ensures Bit(TWO_64 - 0x8000_0000, i) <==> 31 <= i < 64
  {
    TwoTo64();
    TwoTo31();
    OnesShifted(33, 31);
    BitOfShl(Exp2(33) - 1, 31, i);
    if i >= 31 {
      BitOfOnes(33, i - 31);
    }
  }

  lemma TwoTo31()
    ensures Exp2(31) == 0x8000_0000
  {
    TwoTo16();
    Exp2Sum(16, 16);
    assert Exp2(32) == 2 * Exp2(31);
  }
}
