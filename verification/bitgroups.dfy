/** Cutting a string of bits into groups of another size. */
module BitGroups {
  import opened Wrappers
  import opened ByteStrings
  import opened Arithmetic

  /** Digits of a number, most significant first. */
  function FromBE(xs: seq<nat>, base: nat): nat {
    if xs == [] then 0 else FromBE(xs[..|xs| - 1], base) * base + xs[|xs| - 1]
  }

  function Digits(v: nat, base: nat, n: nat): (ds: seq<nat>)
    requires base > 0
    ensures |ds| == n
    decreases n
  {
    if n == 0 then [] else Digits(Quot(v, base), base, n - 1) + [Rem(v, base)]
  }

  predicate Below(xs: seq<nat>, base: nat) {
    forall i :: 0 <= i < |xs| ==> xs[i] < base
  }

  lemma {:induction false} DigitsBelow(v: nat, base: nat, n: nat)
    requires base > 0
    ensures Below(Digits(v, base, n), base)
    decreases n
  {
    hide Quot, Rem;
    if n > 0 {
      DigitsBelow(Quot(v, base), base, n - 1);
    }
  }

  lemma {:induction false} DigitsOfFromBE(xs: seq<nat>, base: nat)
    requires base > 0 && Below(xs, base)
    ensures Digits(FromBE(xs, base), base, |xs|) == xs
  {
    if xs != [] {
      hide Quot, Rem;
      var front, last := xs[..|xs| - 1], xs[|xs| - 1];
      DivModUnique(FromBE(xs, base), base, FromBE(front, base), last);
      DigitsOfFromBE(front, base);
    }
  }

  lemma {:induction false} FromBEOfDigits(v: nat, base: nat, n: nat)
    requires base > 0 && v < Pow(base, n)
    ensures FromBE(Digits(v, base, n), base) == v
    decreases n
  {
    hide Quot, Rem;
    if n > 0 {
      var q := Quot(v, base);
      var ds := Digits(q, base, n - 1);
      assert (ds + [Rem(v, base)])[..n - 1] == ds;
      MulSwaps(1, base, Pow(base, n - 1));
      QuotientBelow(v, base, Pow(base, n - 1));
      DivMod(v, base);
      FromBEOfDigits(q, base, n - 1);
    }
  }

  lemma {:induction false} FromBEBound(xs: seq<nat>, base: nat)
    requires base > 0 && Below(xs, base)
    ensures FromBE(xs, base) < Pow(base, |xs|)
  {
    if xs != [] {
      var front := xs[..|xs| - 1];
      FromBEBound(front, base);
      MulMonotone(FromBE(front, base) + 1, Pow(base, |front|), base);
      MulDistributes(FromBE(front, base), 1, base);
    }
  }

  lemma FromBEOneMore(xs: seq<nat>, base: nat, d: nat)
    ensures FromBE(xs + [d], base) == FromBE(xs, base) * base + d
  {
    assert (xs + [d])[..|xs|] == xs;
  }

  // ----- shifts

  function Shr(a: nat, k: nat): nat {
    PowPositive(2, k);
    Quot(a, Pow(2, k))
  }

  function LowBits(a: nat, k: nat): (r: nat)
    ensures r < Pow(2, k)
  {
    PowPositive(2, k);
    Rem(a, Pow(2, k))
  }

  lemma ShrShr(a: nat, j: nat, k: nat)
    ensures Shr(Shr(a, j), k) == Shr(a, j + k)
  {
    hide Pow, Quot, Rem;
    PowPositive(2, j);
    PowPositive(2, k);
    PowAdd(2, j, k);
    DivByProduct(a, Pow(2, j), Pow(2, k));
  }

  /** New low bits do not disturb what lies above them. */
  lemma ShrOfAppended(a: nat, v: nat, j: nat, k: nat)
    requires v < Pow(2, j)
    ensures Shr(a * Pow(2, j) + v, j + k) == Shr(a, k)
  {
    hide Pow, Quot, Rem;
    DivModUnique(a * Pow(2, j) + v, Pow(2, j), a, v);
    ShrShr(a * Pow(2, j) + v, j, k);
  }

  /** A number with `k` zeros at the end is what is above them, moved up. */
  lemma ShrExact(a: nat, k: nat)
    ensures LowBits(a, k) == 0 <==> a == Shr(a, k) * Pow(2, k)
  {
    hide Pow, Quot, Rem;
    PowPositive(2, k);
    DivMod(a, Pow(2, k));
  }

  lemma ShrOfShifted(a: nat, k: nat)
    ensures Shr(a * Pow(2, k), k) == a && LowBits(a * Pow(2, k), k) == 0
  {
    hide Pow, Quot, Rem;
    PowPositive(2, k);
    DivModUnique(a * Pow(2, k), Pow(2, k), a, 0);
  }

  lemma ShrBelow(a: nat, k: nat, n: nat)
    requires a < Pow(2, k + n)
    ensures Shr(a, k) < Pow(2, n)
  {
    hide Pow, Quot, Rem;
    PowPositive(2, k);
    PowAdd(2, n, k);
    QuotientBelow(a, Pow(2, k), Pow(2, n));
  }

  lemma ShlBelow(a: nat, k: nat, n: nat)
    requires a < Pow(2, n)
    ensures a * Pow(2, k) < Pow(2, n + k)
  {
    hide Pow;
    PowPositive(2, k);
    PowAdd(2, n, k);
    MulMonotone(a + 1, Pow(2, n), Pow(2, k));
    MulDistributes(a, 1, Pow(2, k));
  }

  /** Cutting the next group off. */
  lemma NextGroup(acc: nat, bits: nat, to: nat)
    ensures Shr(acc, bits + to) * Pow(2, to) + LowBits(Shr(acc, bits), to) == Shr(acc, bits)
  {
    hide Pow, Quot, Rem;
    ShrShr(acc, bits, to);
    PowPositive(2, to);
    DivMod(Shr(acc, bits), Pow(2, to));
  }

  /** The last group filled up with zeros. */
  lemma PaddedGroup(acc: nat, bits: nat, to: nat)
    requires bits <= to
    ensures var m := acc * Pow(2, to - bits);
            && Shr(acc, bits) * Pow(2, to) + LowBits(m, to) == m
            && (LowBits(m, to) == 0 <==> LowBits(acc, bits) == 0)
  {
    hide Pow, Quot, Rem;
    var k := to - bits;
    var q, r := Shr(acc, bits), LowBits(acc, bits);
    PowPositive(2, k);
    PowPositive(2, bits);
    PowAdd(2, bits, k);
    DivMod(acc, Pow(2, bits));
    MulDistributes(q * Pow(2, bits), r, Pow(2, k));
    MulSwaps(q, Pow(2, bits), Pow(2, k));
    MulMonotone(r + 1, Pow(2, bits), Pow(2, k));
    MulDistributes(r, 1, Pow(2, k));
    if r > 0 {
      MulMonotone(1, r, Pow(2, k));
    }
    DivModUnique(acc * Pow(2, k), Pow(2, to), q, r * Pow(2, k));
  }

  // ----- regrouping

  /**
   The bits of `data`, groups of `from` each, as groups of `to`.  Padded: zeros fill the last group.
   Unpadded: what is left over must be less than an input group, and zero.
   */
  function Regrouped(data: seq<nat>, from: nat, to: nat, pad: bool): Option<seq<nat>>
    requires from > 0 && to > 0
  {
    if !Below(data, Pow(2, from)) then None else
    PowPositive(2, to);
    var v, n, left := FromBE(data, Pow(2, from)), Quot(|data| * from, to), Rem(|data| * from, to);
    if pad then Some(if left == 0 then Digits(v, Pow(2, to), n) else Digits(v * Pow(2, to - left), Pow(2, to), n + 1))
    else if left >= from || LowBits(v, left) != 0 then None
    else Some(Digits(Shr(v, left), Pow(2, to), n))
  }

  method Convertbits(data: seq<nat>, from: nat, to: nat, pad: bool) returns (r: Option<seq<nat>>)
    requires from > 0 && to > 0
    ensures r == Regrouped(data, from, to, pad)
  {
    hide Pow, Digits, Quot, Rem;
    var acc, bits: nat := 0, 0;
    var ret: seq<nat> := [];
    PowPositive(2, to);
    ShrOfZero();
    for i := 0 to |data|
      invariant Below(data[..i], Pow(2, from)) && acc == FromBE(data[..i], Pow(2, from))
      invariant bits < to && bits + |ret| * to == i * from
      invariant Below(ret, Pow(2, to)) && FromBE(ret, Pow(2, to)) == Shr(acc, bits)
    {
      var value := data[i];
      if value >= Pow(2, from) {
        return None;
      }
      assert data[..i + 1] == data[..i] + [value];
      FromBEOneMore(data[..i], Pow(2, from), value);
      ShrOfAppended(acc, value, from, bits);
      MulDistributes(i, 1, from);
      acc := acc * Pow(2, from) + value;
      bits := bits + from;
      while bits >= to
        invariant bits + |ret| * to == (i + 1) * from
        invariant Below(ret, Pow(2, to)) && FromBE(ret, Pow(2, to)) == Shr(acc, bits)
      {
        MulDistributes(|ret|, 1, to);
        bits := bits - to;
        NextGroup(acc, bits, to);
        FromBEOneMore(ret, Pow(2, to), LowBits(Shr(acc, bits), to));
        ret := ret + [LowBits(Shr(acc, bits), to)];
      }
    }
    assert data[..|data|] == data;
    DivModUnique(|data| * from, to, |ret|, bits);
    PaddedGroup(acc, bits, to);
    var last := LowBits(acc * Pow(2, to - bits), to);
    DigitsOfFromBE(ret, Pow(2, to));
    if pad {
      if bits > 0 {
        FromBEOneMore(ret, Pow(2, to), last);
        ret := ret + [last];
        DigitsOfFromBE(ret, Pow(2, to));
      } else {
        ShrNothing(acc);
      }
      return Some(ret);
    }
    if bits >= from || last != 0 {
      return None;
    }
    return Some(ret);
  }

  lemma ShrOfZero()
    ensures Shr(0, 0) == 0
  {
  }

  lemma ShrNothing(a: nat)
    ensures Shr(a, 0) == a
  {
  }

  // ----- eight to five and back

  lemma Powers()
    ensures Pow(2, 0) == 1 && Pow(2, 8) == 256 && Pow(2, 5) == 32
  {
    PowAdd(2, 4, 4);
    assert Pow(2, 4) == 16;
    assert Pow(2, 5) == 2 * Pow(2, 4);
  }

  lemma {:induction false} PowOfPow(base: nat, a: nat, n: nat)
    ensures Pow(Pow(base, a), n) == Pow(base, a * n)
  {
    if n > 0 {
      PowOfPow(base, a, n - 1);
      PowAdd(base, a, a * (n - 1));
      assert a * n == a + a * (n - 1);
    }
  }

  /** Zeros it takes to fill the last group of five. */
  function Fill(n: nat): (k: nat)
    ensures k < 5 && 5 * ((8 * n + k) / 5) == 8 * n + k
  {
    if 8 * n % 5 == 0 then 0 else 5 - 8 * n % 5
  }

  lemma EightToFive(bytes: seq<nat>)
    requires Below(bytes, 256)
    ensures var k := Fill(|bytes|);
            Regrouped(bytes, 8, 5, true) == Some(Digits(FromBE(bytes, 256) * Pow(2, k), 32, (8 * |bytes| + k) / 5))
  {
    hide Digits, FromBE, Pow;
    Powers();
  }

  lemma FiveToEight(symbols: seq<nat>)
    ensures var v, left := FromBE(symbols, 32), 5 * |symbols| % 8;
            Regrouped(symbols, 5, 8, false) ==
              if !Below(symbols, 32) || left >= 5 || LowBits(v, left) != 0 then None
              else Some(Digits(Shr(v, left), 256, 5 * |symbols| / 8))
  {
    hide Digits, FromBE, Pow, Shr, LowBits;
    Powers();
  }

  lemma RegroupedBelow(symbols: seq<nat>)
    requires Regrouped(symbols, 5, 8, false).Some?
    ensures Below(Regrouped(symbols, 5, 8, false).value, 256)
  {
    hide Regrouped, Digits, FromBE, Pow, Shr, LowBits;
    FiveToEight(symbols);
    DigitsBelow(Shr(FromBE(symbols, 32), 5 * |symbols| % 8), 256, 5 * |symbols| / 8);
  }

  /** What comes out of the padded direction goes back in unpadded, and nothing else does. */
  lemma RegroupingIsABijection(bytes: seq<nat>, symbols: seq<nat>)
    requires Below(bytes, 256)
    ensures Regrouped(symbols, 5, 8, false) == Some(bytes) <==> Regrouped(bytes, 8, 5, true) == Some(symbols)
  {
    hide Pow, Digits, FromBE, Shr, LowBits;
    Powers();
    if Regrouped(bytes, 8, 5, true) == Some(symbols) {
      ThereAndBack(bytes, symbols);
    }
    if Regrouped(symbols, 5, 8, false) == Some(bytes) {
      BackAndThere(bytes, symbols);
    }
  }

  /** A number of `bytes` bytes, shifted to fill `n` groups of five bits, fits them and shifts back. */
  lemma ShiftedFits(v: nat, k: nat, bytes: nat, n: nat)
    requires 5 * n == 8 * bytes + k && v < Pow(256, bytes)
    ensures v * Pow(2, k) < Pow(32, n) && Shr(v * Pow(2, k), k) == v && LowBits(v * Pow(2, k), k) == 0
  {
    hide Pow, Shr, LowBits;
    Powers();
    PowOfPow(2, 8, bytes);
    PowOfPow(2, 5, n);
    ShlBelow(v, k, 8 * bytes);
    ShrOfShifted(v, k);
  }

  lemma ThereAndBack(bytes: seq<nat>, symbols: seq<nat>)
    requires Below(bytes, 256) && Regrouped(bytes, 8, 5, true) == Some(symbols)
    ensures Regrouped(symbols, 5, 8, false) == Some(bytes)
  {
    hide Digits, FromBE, Pow, Shr, LowBits, Regrouped, Fill;
    Powers();
    var v, k, n := FromBE(bytes, 256), Fill(|bytes|), |symbols|;
    EightToFive(bytes);
    FiveToEight(symbols);
    assert 5 * n == 8 * |bytes| + k;
    var w := v * Pow(2, k);
    FromBEBound(bytes, 256);
    ShiftedFits(v, k, |bytes|, n);
    DigitsBelow(w, 32, n);
    FromBEOfDigits(w, 32, n);
    DigitsOfFromBE(bytes, 256);
  }

  lemma BackAndThere(bytes: seq<nat>, symbols: seq<nat>)
    requires Below(bytes, 256) && Regrouped(symbols, 5, 8, false) == Some(bytes)
    ensures Regrouped(bytes, 8, 5, true) == Some(symbols)
  {
    hide Digits, FromBE, Pow, Shr, LowBits, Regrouped;
    Powers();
    var v, left := FromBE(symbols, 32), 5 * |symbols| % 8;
    EightToFive(bytes);
    FiveToEight(symbols);
    assert 5 * |symbols| == 8 * |bytes| + left && left == Fill(|bytes|);
    FromBEBound(symbols, 32);
    PowOfPow(2, 8, |bytes|);
    PowOfPow(2, 5, |symbols|);
    ShrBelow(v, left, 8 * |bytes|);
    FromBEOfDigits(Shr(v, left), 256, |bytes|);
    ShrExact(v, left);
    DigitsOfFromBE(symbols, 32);
  }

  /** Every byte string, of any length, has a padded regrouping, and it is of symbols. */
  lemma BytesRegroup(bytes: seq<nat>)
    requires Below(bytes, 256)
    ensures Regrouped(bytes, 8, 5, true).Some? && Below(Regrouped(bytes, 8, 5, true).value, 32)
  {
    hide Regrouped, Digits, FromBE, Pow;
    EightToFive(bytes);
    var k := Fill(|bytes|);
    DigitsBelow(FromBE(bytes, 256) * Pow(2, k), 32, (8 * |bytes| + k) / 5);
  }
}

/** Regrouping moves no bit. */
module BitOrder {
  import opened Wrappers
  import opened ByteStrings
  import opened Arithmetic
  import opened Bits
  import opened BitGroups

  /** Bit `j` of a string of groups, the first bit of the first group being bit 0. */
  predicate BitAt(xs: seq<nat>, width: nat, j: nat)
    requires 0 < width && j < width * |xs|
  {
    GroupOf(width, |xs|, j);
    Bit(xs[j / width], width - 1 - j % width)
  }

  lemma GroupOf(width: nat, n: nat, j: nat)
    requires 0 < width && j < width * n
    ensures j / width < n
  {
    DivMod(j, width);
    if j / width >= n {
      MulMonotone(n, j / width, width);
    }
  }

  /** The number a string of groups stands for has those bits, the first one highest. */
  lemma {:induction false} BitsOfFromBE(xs: seq<nat>, width: nat, j: nat)
    requires 0 < width && Below(xs, Pow(2, width)) && j < width * |xs|
    ensures BitAt(xs, width, j) <==> Bit(FromBE(xs, Pow(2, width)), width * |xs| - 1 - j)
  {
    hide Pow, Bit;
    var front, last, p := xs[..|xs| - 1], xs[|xs| - 1], width * (|xs| - 1);
    GroupOf(width, |xs|, j);
    DivMod(j, width);
    assert width * |xs| == p + width;
    JoinedBits(FromBE(front, Pow(2, width)), last, width, width * |xs| - 1 - j);
    if j < p {
      GroupOf(width, |xs| - 1, j);
      BitsOfFromBE(front, width, j);
    } else {
      LastGroup(width, |xs| - 1, j);
    }
  }

  lemma LastGroup(width: nat, n: nat, j: nat)
    requires 0 < width && width * n <= j < width * n + width
    ensures j / width == n && j % width == j - width * n
  {
    MulSwaps(width, n, 1);
    DivModUnique(j, width, n, j - width * n);
  }

  /** Regrouping bytes keeps their bits in order and fills up the last group with zeros. */
  lemma BytesKeepTheirBits(bytes: seq<nat>, symbols: seq<nat>, j: nat)
    requires Below(bytes, 256) && Regrouped(bytes, 8, 5, true) == Some(symbols) && j < 5 * |symbols|
    ensures Below(symbols, 32)
    ensures if j < 8 * |bytes| then BitAt(symbols, 5, j) == BitAt(bytes, 8, j) else !BitAt(symbols, 5, j)
  {
    hide Digits, FromBE, Pow, Shr, LowBits, Regrouped, Fill, Bit, BitAt;
    Powers();
    var v, k, n := FromBE(bytes, 256), Fill(|bytes|), |symbols|;
    EightToFive(bytes);
    assert 5 * n == 8 * |bytes| + k;
    FromBEBound(bytes, 256);
    ShiftedFits(v, k, |bytes|, n);
    DigitsBelow(v * Pow(2, k), 32, n);
    FromBEOfDigits(v * Pow(2, k), 32, n);
    BitsOfFromBE(symbols, 5, j);
    ShiftedBits(v, k, 5 * n - 1 - j);
    if j < 8 * |bytes| {
      BitsOfFromBE(bytes, 8, j);
    }
  }

  lemma ShiftedBits(v: nat, k: nat, j: nat)
    ensures Bit(v * Pow(2, k), j) <==> j >= k && Bit(v, j - k)
  {
    hide Pow, Bit;
    PowPositive(2, k);
    JoinedBits(v, 0, k, j);
    ZeroBits(j);
  }
}
