/** Bitwise operators on natural numbers of any size, and what they come to where they are used. */
module Bits {
  import opened ByteStrings
  import opened Arithmetic

  function BitAnd(a: nat, b: nat): nat {
    if a == 0 || b == 0 then 0 else 2 * BitAnd(a / 2, b / 2) + (if a % 2 == 1 && b % 2 == 1 then 1 else 0)
  }

  function BitOr(a: nat, b: nat): nat
    decreases a + b
  {
    if a == 0 then b else if b == 0 then a else
    2 * BitOr(a / 2, b / 2) + (if a % 2 == 1 || b % 2 == 1 then 1 else 0)
  }

  lemma {:induction false} BitAndBelow(a: nat, b: nat)
    ensures BitAnd(a, b) <= a && BitAnd(a, b) <= b
  {
    if a != 0 && b != 0 {
      BitAndBelow(a / 2, b / 2);
    }
  }

  /** And works on the high and the low part by themselves. */
  lemma {:induction false} AndSplits(a: nat, i: nat, b: nat, j: nat, k: nat)
    requires i < Pow(2, k) && j < Pow(2, k)
    ensures BitAnd(a * Pow(2, k) + i, b * Pow(2, k) + j) == BitAnd(a, b) * Pow(2, k) + BitAnd(i, j)
    decreases k
  {
    hide BitAnd;
    BitAndBelow(i, j);
    if k > 0 {
      var p := Pow(2, k - 1);
      var x, y := a * Pow(2, k) + i, b * Pow(2, k) + j;
      HalfOf(a, i, p);
      HalfOf(b, j, p);
      AndSplits(a, i / 2, b, j / 2, k - 1);
      AndHalves(x, y);
      AndHalves(i, j);
      MulSwaps(BitAnd(a, b), 2, p);
    }
  }

  lemma HalfOf(a: nat, i: nat, p: nat)
    ensures (a * (2 * p) + i) / 2 == a * p + i / 2 && (a * (2 * p) + i) % 2 == i % 2
  {
    MulSwaps(a, 2, p);
    assert a * (2 * p) + i == 2 * (a * p) + i;
  }

  lemma AndHalves(x: nat, y: nat)
    ensures BitAnd(x, y) == 2 * BitAnd(x / 2, y / 2) + (if x % 2 == 1 && y % 2 == 1 then 1 else 0)
  {
  }

  /** Masking with ones keeps the low bits. */
  lemma {:induction false} MaskIsRem(a: nat, k: nat)
    ensures Pow(2, k) > 0 && BitAnd(a, Pow(2, k) - 1) == a % Pow(2, k)
    decreases k
  {
    PowPositive(2, k);
    if k > 0 && a != 0 {
      PowPositive(2, k - 1);
      var h := Pow(2, k - 1);
      MaskIsRem(a / 2, k - 1);
      assert (2 * h - 1) / 2 == h - 1 && (2 * h - 1) % 2 == 1;
      assert BitAnd(a, 2 * h - 1) == 2 * (a / 2 % h) + a % 2;
      DivMod(a / 2, h);
      var q := a / 2 / h;
      MulSwaps(q, 2, h);
      DivModUnique(a, 2 * h, q, 2 * (a / 2 % h) + a % 2);
    }
  }

  /** Setting a bit above all others is adding it. */
  lemma {:induction false} OrAboveIsSum(a: nat, k: nat)
    requires a < Pow(2, k)
    ensures BitOr(a, Pow(2, k)) == a + Pow(2, k)
    decreases k
  {
    if a != 0 {
      OrAboveIsSum(a / 2, k - 1);
    }
  }

  /** Above and below a boundary, or is a sum. */
  lemma {:induction false} OrAcrossIsSum(hi: nat, lo: nat, k: nat)
    requires lo < Pow(2, k)
    ensures BitOr(hi * Pow(2, k), lo) == hi * Pow(2, k) + lo
    decreases k
  {
    if k > 0 && lo != 0 && hi != 0 {
      var h := Pow(2, k - 1);
      OrAcrossIsSum(hi, lo / 2, k - 1);
      MulSwaps(hi, 2, h);
      PowPositive(2, k - 1);
      MulMonotone(1, hi, h);
      assert hi * (2 * h) == 2 * (hi * h);
    }
  }

  function BitXor(a: nat, b: nat): nat
    decreases a + b
  {
    if a == 0 then b else if b == 0 then a else
    2 * BitXor(a / 2, b / 2) + (if a % 2 != b % 2 then 1 else 0)
  }

  lemma {:induction false} XorFits(a: nat, b: nat, k: nat)
    requires a < Pow(2, k) && b < Pow(2, k)
    ensures BitXor(a, b) < Pow(2, k)
    decreases k
  {
    if a != 0 && b != 0 {
      XorFits(a / 2, b / 2, k - 1);
    }
  }

  lemma {:induction false} XorUndone(a: nat, b: nat)
    ensures BitXor(BitXor(a, b), b) == a
    decreases a + b
  {
    if a == 0 {
      XorSelf(b);
    } else if b != 0 {
      XorUndone(a / 2, b / 2);
      var x := BitXor(a, b);
      assert x / 2 == BitXor(a / 2, b / 2) && (x % 2 == 1 <==> a % 2 != b % 2);
      if x == 0 {
        XorZero(a / 2, b / 2);
      }
    }
  }

  lemma {:induction false} XorSelf(a: nat)
    ensures BitXor(a, a) == 0
  {
    if a != 0 {
      XorSelf(a / 2);
    }
  }

  lemma {:induction false} XorZero(a: nat, b: nat)
    requires BitXor(a, b) == 0
    ensures a == b
    decreases a + b
  {
    if a != 0 && b != 0 {
      XorZero(a / 2, b / 2);
    }
  }

  lemma {:induction false} PowOfBytes(n: nat)
    ensures Pow(2, 8 * n) == Pow(256, n)
  {
    if n > 0 {
      PowOfBytes(n - 1);
      PowAdd(2, 8, 8 * (n - 1));
      PowAdd(2, 4, 4);
      assert Pow(2, 4) == 16;
    }
  }

  // ----- bit by bit

  predicate Bit(x: nat, j: nat) {
    if j == 0 then x % 2 == 1 else Bit(x / 2, j - 1)
  }

  lemma {:induction false} XorBits(x: nat, y: nat, j: nat)
    ensures Bit(BitXor(x, y), j) <==> Bit(x, j) != Bit(y, j)
    decreases j
  {
    if x == 0 {
      ZeroBits(j);
    } else if y == 0 {
      ZeroBits(j);
    } else if j > 0 {
      XorBits(x / 2, y / 2, j - 1);
    }
  }

  lemma {:induction false} ZeroBits(j: nat)
    ensures !Bit(0, j)
  {
    if j > 0 {
      ZeroBits(j - 1);
    }
  }

  /** The bits of a sum of a high and a low part. */
  lemma {:induction false} JoinedBits(hi: nat, lo: nat, n: nat, j: nat)
    requires lo < Pow(2, n)
    ensures Bit(hi * Pow(2, n) + lo, j) <==> if j < n then Bit(lo, j) else Bit(hi, j - n)
    decreases n
  {
    if n > 0 {
      var p := Pow(2, n - 1);
      MulSwaps(hi, 2, p);
      var sum := hi * Pow(2, n) + lo;
      assert sum == 2 * (hi * p) + lo && sum % 2 == lo % 2 && sum / 2 == hi * p + lo / 2;
      if j > 0 {
        JoinedBits(hi, lo / 2, n - 1, j - 1);
      }
    }
  }
}
