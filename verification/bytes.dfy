/** Results that may be missing, standing for the exceptions and None returns of the program. */
module Wrappers {
  datatype Option<+T> = None | Some(value: T) {
    predicate IsFailure() {
      None?
    }

    function PropagateFailure<U>(): Option<U>
      requires None?
    {
      None
    }

    function Extract(): T
      requires Some?
    {
      value
    }
  }

  datatype Result<+T, +E> = Success(value: T) | Failure(error: E)
}

/** Sequences of anything. */
module Sequences {
  predicate Distinct<T(==)>(xs: seq<T>) {
    forall i, j :: 0 <= i < j < |xs| ==> xs[i] != xs[j]
  }

  lemma NothingDistinct<T>()
    ensures Distinct<T>([])
  {
  }

  lemma DistinctOneMore<T>(xs: seq<T>, x: T)
    requires Distinct(xs) && x !in xs
    ensures Distinct(xs + [x])
  {
    var more := xs + [x];
    forall i, j | 0 <= i < j < |more| ensures more[i] != more[j] {
      assert more[i] == xs[i] && xs[i] in xs;
    }
  }

  function Flatten<T>(xss: seq<seq<T>>): seq<T> {
    if xss == [] then [] else xss[0] + Flatten(xss[1..])
  }

  lemma {:induction false} FlattenJoined<T>(a: seq<seq<T>>, b: seq<seq<T>>)
    ensures Flatten(a + b) == Flatten(a) + Flatten(b)
  {
    if a == [] {
      assert a + b == b;
    } else {
      FlattenJoined(a[1..], b);
      assert (a + b)[1..] == a[1..] + b && (a + b)[0] == a[0];
      assert a[0] + (Flatten(a[1..]) + Flatten(b)) == a[0] + Flatten(a[1..]) + Flatten(b);
    }
  }

  lemma FlattenOneMore<T>(xss: seq<seq<T>>, xs: seq<T>)
    ensures Flatten(xss + [xs]) == Flatten(xss) + xs
  {
    FlattenJoined(xss, [xs]);
    assert [xs][1..] == [] && Flatten([xs]) == xs + Flatten<T>([]);
    assert xs + [] == xs;
  }

  /** The last `n`, or all of them. */
  function LastOf<T>(xs: seq<T>, n: nat): seq<T> {
    if |xs| <= n then xs else xs[|xs| - n..]
  }

  lemma LastOfLast<T>(xs: seq<T>, ys: seq<T>, n: nat)
    ensures LastOf(LastOf(xs, n) + ys, n) == LastOf(xs + ys, n)
  {
    var kept := LastOf(xs, n);
    var l, r := LastOf(kept + ys, n), LastOf(xs + ys, n);
    assert |l| == |r|;
    forall i | 0 <= i < |l| ensures l[i] == r[i] {
      assert l[i] == (kept + ys)[|kept + ys| - |l| + i];
      assert r[i] == (xs + ys)[|xs + ys| - |r| + i];
    }
  }

  lemma WithinBound<T>(xs: seq<T>, n: nat)
    requires |xs| <= n
    ensures LastOf(xs, n) == xs
  {
  }
}

/** Byte strings, and the number a byte string stands for in each byte order. */
module ByteStrings {
  import opened Arithmetic

  type byte = x: int | 0 <= x < 256

  type Bytes = seq<byte>

  /** What SHA-256 and HMAC-SHA256 return. */
  type Hash = b: Bytes | |b| == 32 witness seq(32, _ => 0)

  function Pow(base: nat, e: nat): nat {
    if e == 0 then 1 else base * Pow(base, e - 1)
  }

  function FromLE(b: Bytes): nat {
    if b == [] then 0 else b[0] + 256 * FromLE(b[1..])
  }

  function ToLE(n: nat, len: nat): (b: Bytes)
    ensures |b| == len
  {
    if len == 0 then [] else [n % 256] + ToLE(n / 256, len - 1)
  }

  function Zeros(n: nat): (b: Bytes)
    ensures |b| == n && forall i :: 0 <= i < n ==> b[i] == 0
  {
    seq(n, _ => 0)
  }

  lemma PowPositive(base: nat, e: nat)
    requires base > 0
    ensures Pow(base, e) > 0
  {
  }

  lemma MulAssociates(a: int, b: int, c: int)
    ensures a * (b * c) == a * b * c
  {
  }

  lemma {:induction false} PowAdd(base: nat, d: nat, e: nat)
    ensures Pow(base, d + e) == Pow(base, d) * Pow(base, e)
  {
    if d > 0 {
      PowAdd(base, d - 1, e);
      MulAssociates(base, Pow(base, d - 1), Pow(base, e));
    }
  }

  lemma {:induction false} PowGrows(base: nat, d: nat, e: nat)
    requires base > 0 && d <= e
    ensures Pow(base, d) <= Pow(base, e)
    decreases e
  {
    if d < e {
      PowGrows(base, d, e - 1);
      MulMonotone(1, base, Pow(base, e - 1));
    }
  }

  lemma PowersOf256()
    ensures Pow(256, 1) == 0x100
    ensures Pow(256, 2) == 0x1_0000
    ensures Pow(256, 4) == 0x1_0000_0000
    ensures Pow(256, 8) == 0x1_0000_0000_0000_0000
    ensures Pow(256, 16) == 0x1_0000_0000_0000_0000_0000_0000_0000_0000
  {
    PowAdd(256, 1, 1);
    PowAdd(256, 2, 2);
    PowAdd(256, 4, 4);
    PowAdd(256, 8, 8);
  }

  lemma {:induction false} FromLEBound(b: Bytes)
    ensures FromLE(b) < Pow(256, |b|)
  {
    if b != [] {
      FromLEBound(b[1..]);
    }
  }

  lemma {:induction false} ToLEOfFromLE(b: Bytes)
    ensures ToLE(FromLE(b), |b|) == b
  {
    if b != [] {
      var n, rest := FromLE(b), FromLE(b[1..]);
      assert n == b[0] + 256 * rest;
      assert n % 256 == b[0] && n / 256 == rest;
      ToLEOfFromLE(b[1..]);
      assert ToLE(n, |b|) == [n % 256] + ToLE(n / 256, |b| - 1);
    }
  }

  lemma {:induction false} FromLEOfToLE(n: nat, len: nat)
    requires n < Pow(256, len)
    ensures FromLE(ToLE(n, len)) == n
  {
    if len > 0 {
      FromLEOfToLE(n / 256, len - 1);
      assert ToLE(n, len)[1..] == ToLE(n / 256, len - 1);
    }
  }

  /** Byte `i` is the i-th digit to base 256, the lowest first. */
  lemma {:induction false} ToLEAt(n: nat, len: nat, i: nat)
    requires i < len
    ensures Pow(256, i) > 0 && ToLE(n, len)[i] == Quot(n, Pow(256, i)) % 256
  {
    PowPositive(256, i);
    if i > 0 {
      ToLEAt(n / 256, len - 1, i - 1);
      PowPositive(256, i - 1);
      DivByProduct(n, 256, Pow(256, i - 1));
    }
  }

  /** Little-endian reading is injective on byte strings of one length. */
  lemma FromLEInjective(a: Bytes, b: Bytes)
    requires |a| == |b| && FromLE(a) == FromLE(b)
    ensures a == b
  {
    ToLEOfFromLE(a);
    ToLEOfFromLE(b);
  }
}
