/** Multiplication and division facts the verifier does not find by itself. */
module Arithmetic {
  function Quot(a: nat, b: nat): nat
    requires b > 0
  {
    a / b
  }

  function Rem(a: nat, b: nat): (r: nat)
    requires b > 0
    ensures r < b
  {
    a % b
  }

  lemma MulMonotone(a: nat, b: nat, c: nat)
    requires a <= b
    ensures a * c <= b * c
  {
  }

  lemma MulDistributes(a: int, b: int, c: int)
    ensures (a + b) * c == a * c + b * c && (a - b) * c == a * c - b * c
  {
  }

  lemma DivMod(a: nat, b: nat)
    requires b > 0
    ensures a == Quot(a, b) * b + Rem(a, b)
  {
  }

  lemma DivModUnique(a: nat, b: nat, q: nat, r: nat)
    requires b > 0 && a == q * b + r && r < b
    ensures Quot(a, b) == q && Rem(a, b) == r
  {
    hide Quot, Rem;
    DivMod(a, b);
    if Quot(a, b) > q {
      MulMonotone(q + 1, Quot(a, b), b);
      MulDistributes(q, 1, b);
    } else if Quot(a, b) < q {
      MulMonotone(Quot(a, b) + 1, q, b);
      MulDistributes(Quot(a, b), 1, b);
    }
  }

  lemma QuotientBelow(v: nat, b: nat, m: nat)
    requires b > 0 && v < m * b
    ensures Quot(v, b) < m
  {
    hide Quot, Rem;
    DivMod(v, b);
    if Quot(v, b) >= m {
      MulMonotone(m, Quot(v, b), b);
    }
  }

  lemma MulSwaps(a: int, b: int, c: int)
    ensures a * (b * c) == a * b * c && a * b * c == a * c * b
  {
  }

  lemma DivByProduct(a: nat, b: nat, c: nat)
    requires b > 0 && c > 0
    ensures b * c > 0 && Quot(Quot(a, b), c) == Quot(a, b * c)
  {
    hide Quot, Rem;
    var q, r := Quot(a, b), Rem(a, b);
    MulMonotone(1, b, c);
    DivMod(a, b);
    DivMod(q, c);
    MulDistributes(Quot(q, c) * c, Rem(q, c), b);
    MulSwaps(Quot(q, c), b, c);
    MulMonotone(Rem(q, c) + 1, c, b);
    MulDistributes(Rem(q, c), 1, b);
    DivModUnique(a, b * c, Quot(q, c), Rem(q, c) * b + r);
  }
}
