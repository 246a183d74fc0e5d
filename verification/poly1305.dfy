/** The one-time authenticator of section 2.5 of RFC 8439. */
module Poly1305 {
  import opened Wrappers
  import opened ByteStrings
  import opened Arithmetic
  import opened Bits

  const P: nat := 0x4_0000_0000_0000_0000_0000_0000_0000_0000 - 5
  const R_CLAMP: nat := 0x0FFF_FFFC_0FFF_FFFC_0FFF_FFFC_0FFF_FFFF
  const TWO128: nat := 0x1_0000_0000_0000_0000_0000_0000_0000_0000

  datatype Error = KeyNot32Bytes

  /** A block as a number: little-endian, with a one set just above its highest byte. */
  function BlockOf(chunk: Bytes): nat {
    BitOr(FromLE(chunk), Pow(2, 8 * |chunk|))
  }

  function ChunkLen(n: nat): nat {
    if n < 16 then n else 16
  }

  function BlocksOf(message: Bytes): seq<nat>
    decreases |message|
  {
    if message == [] then [] else
    var k := ChunkLen(|message|);
    [BlockOf(message[..k])] + BlocksOf(message[k..])
  }

  /** The polynomial of the RFC: the blocks as coefficients, the first with the highest power. */
  function Polynomial(ns: seq<nat>, r: nat): nat {
    if ns == [] then 0 else ns[0] * Pow(r, |ns|) + Polynomial(ns[1..], r)
  }

  function TagOf(key: Bytes, message: Bytes): Bytes
    requires |key| == 32
  {
    var r, s := BitAnd(FromLE(key[..16]), R_CLAMP), FromLE(key[16..]);
    ToLE((Polynomial(BlocksOf(message), r) % P + s) % TWO128, 16)
  }

  function Horner(acc: nat, ns: seq<nat>, r: nat): nat
    decreases |ns|
  {
    if ns == [] then acc else Horner((acc + ns[0]) * r % P, ns[1..], r)
  }

  /** The accumulator stays below the prime, and ends as the polynomial modulo it. */
  method Poly1305Mac(key: Bytes, message: Bytes) returns (tag: Result<Bytes, Error>)
    ensures tag == if |key| != 32 then Failure(KeyNot32Bytes) else Success(TagOf(key, message))
  {
    hide BlockOf, BitAnd, Polynomial, Pow, FromLE, ToLE;
    if |key| != 32 {
      return Failure(KeyNot32Bytes);
    }
    var r := BitAnd(FromLE(key[..16]), R_CLAMP);
    var s := FromLE(key[16..]);
    var acc: nat := 0;
    var i := 0;
    while i < |message|
      invariant acc < P && i <= |message|
      invariant Horner(0, BlocksOf(message), r) == Horner(acc, BlocksOf(message[i..]), r)
    {
      var end := i + ChunkLen(|message| - i);
      var chunk := message[i..end];
      NextBlock(message, i);
      acc := (acc + BlockOf(chunk)) * r % P;
      i := end;
    }
    HornerIsPolynomial(0, BlocksOf(message), r);
    MaskIs128(acc + s);
    tag := Success(ToLE(BitAnd(acc + s, TWO128 - 1), 16));
  }

  lemma NextBlock(message: Bytes, i: nat)
    requires i < |message|
    ensures var end := i + ChunkLen(|message| - i);
            BlocksOf(message[i..]) == [BlockOf(message[i..end])] + BlocksOf(message[end..])
  {
    hide BlockOf;
    var rest, k := message[i..], ChunkLen(|message| - i);
    assert rest[..k] == message[i..i + k] && rest[k..] == message[i + k..];
  }

  lemma MaskIs128(a: nat)
    ensures BitAnd(a, TWO128 - 1) == a % TWO128
  {
    hide BitAnd;
    MaskIsRem(a, 128);
    PowOfBytes(16);
    PowersOf256();
  }

  // ----- the loop is the polynomial

  /** A multiple of the modulus more or less makes no difference, at any factor. */
  lemma RemAbsorbs(a: nat, b: nat, c: nat, m: nat)
    requires m > 0
    ensures (a % m * b + c) % m == (a * b + c) % m
  {
    var q, x := a / m, a % m;
    DivMod(a, m);
    MulDistributes(q * m, x, b);
    MulSwaps(q, m, b);
    DivMod(x * b + c, m);
    var k := (x * b + c) / m;
    MulDistributes(q * b, k, m);
    DivModUnique(a * b + c, m, q * b + k, (x * b + c) % m);
  }

  lemma OneTurn(acc: nat, n: nat, r: nat, m: nat, rest: nat)
    ensures ((acc + n) * r % P * m + rest) % P == (acc * (r * m) + (n * (r * m) + rest)) % P
  {
    RemAbsorbs((acc + n) * r, m, rest, P);
    MulSwaps(acc + n, r, m);
    MulDistributes(acc, n, r * m);
  }

  lemma {:induction false} HornerIsPolynomial(acc: nat, ns: seq<nat>, r: nat)
    requires acc < P
    ensures Horner(acc, ns, r) < P
    ensures Horner(acc, ns, r) == (acc * Pow(r, |ns|) + Polynomial(ns, r)) % P
    decreases |ns|
  {
    if ns != [] {
      HornerIsPolynomial((acc + ns[0]) * r % P, ns[1..], r);
      OneTurn(acc, ns[0], r, Pow(r, |ns| - 1), Polynomial(ns[1..], r));
    }
  }

  // ----- the encoding loses nothing

  lemma BlockIsSum(chunk: Bytes)
    ensures BlockOf(chunk) == FromLE(chunk) + Pow(256, |chunk|)
    ensures Pow(256, |chunk|) <= BlockOf(chunk) < Pow(256, |chunk| + 1)
  {
    hide FromLE, BitOr;
    FromLEBound(chunk);
    PowOfBytes(|chunk|);
    OrAboveIsSum(FromLE(chunk), 8 * |chunk|);
  }

  /** The appended one tells chunks of different lengths apart: trailing zeros count. */
  lemma BlockInjective(a: Bytes, b: Bytes)
    requires BlockOf(a) == BlockOf(b)
    ensures a == b
  {
    hide BlockOf, Pow, FromLE;
    BlockIsSum(a);
    BlockIsSum(b);
    if |a| < |b| {
      PowGrows(256, |a| + 1, |b|);
    } else if |b| < |a| {
      PowGrows(256, |b| + 1, |a|);
    } else {
      FromLEInjective(a, b);
    }
  }

  /** No two messages have the same blocks, short final blocks and trailing zeros included. */
  lemma {:induction false} BlocksInjective(a: Bytes, b: Bytes)
    requires BlocksOf(a) == BlocksOf(b)
    ensures a == b
    decreases |a|
  {
    hide BlockOf;
    if a != [] && b != [] {
      var j, k := ChunkLen(|a|), ChunkLen(|b|);
      assert BlocksOf(a)[0] == BlocksOf(b)[0] && BlocksOf(a)[1..] == BlocksOf(b)[1..];
      BlockInjective(a[..j], b[..k]);
      BlocksInjective(a[j..], b[k..]);
      assert a == a[..j] + a[j..] && b == b[..k] + b[k..];
    }
  }

  // ----- the tag in the standard's terms

  lemma {:induction false} AndBytes(x: nat, y: nat, len: nat, j: nat)
    requires j < len
    ensures ToLE(BitAnd(x, y), len)[j] == BitAnd(ToLE(x, len)[j], ToLE(y, len)[j])
    decreases len
  {
    hide BitAnd;
    PowOfBytes(1);
    AndSplits(x / 256, x % 256, y / 256, y % 256, 8);
    BitAndBelow(x % 256, y % 256);
    assert BitAnd(x, y) == BitAnd(x / 256, y / 256) * 256 + BitAnd(x % 256, y % 256);
    hide Pow;
    if j > 0 {
      AndBytes(x / 256, y / 256, len - 1, j - 1);
    }
  }

  /** Section 2.5: the top four bits of bytes 3, 7, 11 and 15 are cleared, and the low two of bytes 4, 8 and 12. */
  function Clamped(j: nat, b: byte): byte {
    if j % 4 == 3 then b % 16 else if j > 0 && j % 4 == 0 then b - b % 4 else b
  }

  function ClampByte(j: nat): byte {
    if j % 4 == 3 then 0x0F else if j > 0 && j % 4 == 0 then 0xFC else 0xFF
  }

  /** The mask as bytes. */
  const CLAMP: Bytes := [
    0xFF, 0xFF, 0xFF, 0x0F, 0xFC, 0xFF, 0xFF, 0x0F, 0xFC, 0xFF, 0xFF, 0x0F, 0xFC, 0xFF, 0xFF, 0x0F]

  lemma WordFirst(b: Bytes)
    requires |b| >= 4
    ensures FromLE(b) == b[0] as int + 0x100 * (b[1] as int) + 0x1_0000 * (b[2] as int) + 0x100_0000 * (b[3] as int)
                         + 0x1_0000_0000 * FromLE(b[4..])
  {
    assert b[1..][1..] == b[2..] && b[2..][1..] == b[3..] && b[3..][1..] == b[4..];
    assert FromLE(b[3..]) == b[3] as int + 256 * FromLE(b[4..]);
    assert FromLE(b[2..]) == b[2] as int + 256 * FromLE(b[3..]);
  }

  lemma ClampIs(j: nat)
    requires j < 16
    ensures ToLE(R_CLAMP, 16)[j] == ClampByte(j)
  {
    hide ToLE, FromLE;
    ClampReads();
    ToLEOfFromLE(CLAMP);
  }

  lemma ClampReads()
    ensures FromLE(CLAMP) == R_CLAMP
  {
    hide FromLE;
    HighWords();
    WordFirst(CLAMP);
    assert CLAMP[4..] == CLAMP[4..16];
  }

  lemma HighWords()
    ensures FromLE(CLAMP[4..]) == 0x0FFF_FFFC_0FFF_FFFC_0FFF_FFFC
  {
    hide FromLE;
    var w: Bytes := [0xFC, 0xFF, 0xFF, 0x0F];
    NoBytes();
    WordFirst(w);
    WordFirst(w + w);
    WordFirst(w + w + w);
    assert w[4..] == [] && (w + w)[4..] == w && (w + w + w)[4..] == w + w;
    assert CLAMP[4..] == w + w + w;
  }

  lemma NoBytes()
    ensures FromLE([]) == 0
  {
  }

  lemma MaskedIs(j: nat, b: byte)
    ensures BitAnd(b, ClampByte(j)) == Clamped(j, b)
  {
    hide BitAnd;
    LowMask(b);
    HighMask(b);
    WholeMask(b);
  }

  lemma LowMask(b: byte)
    ensures BitAnd(b, 0x0F) == b % 16
  {
    hide BitAnd;
    assert Pow(2, 4) == 16;
    MaskIsRem(b, 4);
  }

  lemma WholeMask(b: byte)
    ensures BitAnd(b, 0xFF) == b
  {
    hide BitAnd;
    PowOfBytes(1);
    MaskIsRem(b, 8);
  }

  lemma HighMask(b: byte)
    ensures BitAnd(b, 0xFC) == b - b % 4
  {
    hide BitAnd;
    assert Pow(2, 2) == 4 && Pow(2, 6) == 64;
    MaskIsRem(b / 4, 6);
    AndSplits(b / 4, b % 4, 63, 0, 2);
    BitAndBelow(b % 4, 0);
  }

  /** The multiplier, byte for byte. */
  lemma MultiplierIs(key: Bytes, j: nat)
    requires |key| == 32 && j < 16
    ensures ToLE(BitAnd(FromLE(key[..16]), R_CLAMP), 16)[j] == Clamped(j, key[j])
  {
    hide BitAnd, ToLE, FromLE, Clamped, ClampByte;
    AndBytes(FromLE(key[..16]), R_CLAMP, 16, j);
    ToLEOfFromLE(key[..16]);
    ClampIs(j);
    MaskedIs(j, key[j]);
  }

  function Chunk(message: Bytes, k: nat): Bytes
    requires 16 * k < |message|
  {
    if 16 * k + 16 <= |message| then message[16 * k..16 * k + 16] else message[16 * k..]
  }

  /** Every sixteen bytes, and what is left, with a one behind: the coefficients. */
  lemma {:induction false} BlocksAre(message: Bytes, k: nat)
    requires 16 * k < |message|
    ensures |BlocksOf(message)| == (|message| + 15) / 16
    ensures BlocksOf(message)[k] == FromLE(Chunk(message, k)) + Pow(256, |Chunk(message, k)|)
    decreases |message|
  {
    hide BlockOf, FromLE, Pow;
    BlockIsSum(message[..ChunkLen(|message|)]);
    var rest := message[ChunkLen(|message|)..];
    if k > 0 {
      BlocksAre(rest, k - 1);
      assert Chunk(rest, k - 1) == Chunk(message, k);
    } else {
      assert message[..|message|] == message;
      assert Chunk(message, 0) == message[..ChunkLen(|message|)];
      BlocksCount(message);
    }
  }

  lemma {:induction false} BlocksCount(message: Bytes)
    ensures |BlocksOf(message)| == (|message| + 15) / 16
    decreases |message|
  {
    if message != [] {
      BlocksCount(message[ChunkLen(|message|)..]);
    }
  }

  /** The coefficients of a message, and the multiplier of a key. */
  ghost predicate Coefficients(message: Bytes, ns: seq<nat>) {
    && |ns| == (|message| + 15) / 16
    && forall k :: 0 <= k < |ns| ==> ns[k] == FromLE(Chunk(message, k)) + Pow(256, |Chunk(message, k)|)
  }

  ghost predicate Multiplier(key: Bytes, r: nat)
    requires |key| == 32
  {
    r < Pow(256, 16) && forall j :: 0 <= j < 16 ==> ToLE(r, 16)[j] == Clamped(j, key[j])
  }

  /** The tag: the polynomial at the multiplier, modulo 2^130 - 5, plus the second half of the key, modulo 2^128. */
  lemma TagIsPolynomial(key: Bytes, message: Bytes, ns: seq<nat>, r: nat)
    requires |key| == 32 && Coefficients(message, ns) && Multiplier(key, r)
    ensures |TagOf(key, message)| == 16
    ensures FromLE(TagOf(key, message)) ==
            (Polynomial(ns, r) % 0x3_FFFF_FFFF_FFFF_FFFF_FFFF_FFFF_FFFF_FFFB + FromLE(key[16..]))
            % 0x1_0000_0000_0000_0000_0000_0000_0000_0000
  {
    hide Polynomial, FromLE, ToLE, BitAnd, Pow, BlocksOf, Chunk, Clamped;
    BlocksCount(message);
    forall k | 0 <= k < |ns| ensures ns[k] == BlocksOf(message)[k] {
      BlocksAre(message, k);
    }
    assert ns == BlocksOf(message);
    var r' := BitAnd(FromLE(key[..16]), R_CLAMP);
    forall j | 0 <= j < 16 ensures ToLE(r, 16)[j] == ToLE(r', 16)[j] {
      MultiplierIs(key, j);
    }
    assert ToLE(r, 16) == ToLE(r', 16);
    PowersOf256();
    BitAndBelow(FromLE(key[..16]), R_CLAMP);
    FromLEOfToLE(r, 16);
    FromLEOfToLE(r', 16);
    FromLEOfToLE((Polynomial(ns, r) % P + FromLE(key[16..])) % TWO128, 16);
  }

  /** From the other end: one more block is added, and then everything is multiplied. */
  lemma {:induction false} PolynomialOneMore(ns: seq<nat>, n: nat, r: nat)
    ensures Polynomial(ns + [n], r) == (Polynomial(ns, r) + n) * r
  {
    if ns == [] {
      assert [n][1..] == [];
    } else {
      assert (ns + [n])[1..] == ns[1..] + [n];
      PolynomialOneMore(ns[1..], n, r);
      MulSwaps(ns[0], r, Pow(r, |ns|));
      MulDistributes(ns[0] * Pow(r, |ns|), Polynomial(ns[1..], r) + n, r);
    }
  }
}
