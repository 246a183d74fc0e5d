/** The stream cipher of sections 2.1 to 2.4 of RFC 8439. */
module ChaCha20 {
  import opened Wrappers
  import opened ByteStrings
  import opened Arithmetic
  import opened Bits

  const TWO32: nat := 0x1_0000_0000

  type Word = x: int | 0 <= x < 0x1_0000_0000

  /** Sixteen words. */
  type State = s: seq<Word> | |s| == 16 witness seq(16, _ => 0)

  datatype Error = KeyNot32Bytes | NonceNot12Bytes

  // ----- words: the masks of the program keep the low 32 bits, which is the remainder modulo 2^32

  function Add(x: Word, y: Word): Word {
    (x + y) % TWO32
  }

  function Sub(x: Word, y: Word): Word {
    (x - y) % TWO32
  }

  lemma TwoTo32()
    ensures Pow(2, 32) == TWO32
  {
    PowOfBytes(4);
    PowersOf256();
  }

  function Xor(x: Word, y: Word): Word {
    TwoTo32();
    XorFits(x, y, 32);
    BitXor(x, y)
  }

  function Rotl(x: Word, n: nat): Word
    requires 0 < n < 32
  {
    PowPositive(2, 32 - n);
    BitOr(x * Pow(2, n), Quot(x, Pow(2, 32 - n))) % TWO32
  }

  lemma WordRules(x: Word, y: Word)
    ensures Sub(Add(x, y), y) == x && Add(Sub(x, y), y) == x && Xor(Xor(x, y), y) == x
  {
    hide Add, Sub, BitXor;
    AddUndone(x, y);
    SubUndone(x, y);
    XorUndone(x, y);
  }

  lemma AddUndone(x: Word, y: Word)
    ensures Sub(Add(x, y), y) == x
  {
    assert Add(x, y) == if x + y < TWO32 then x + y else x + y - TWO32;
  }

  lemma SubUndone(x: Word, y: Word)
    ensures Add(Sub(x, y), y) == x
  {
    assert Sub(x, y) == if x >= y then x - y else x - y + TWO32;
  }

  /** A rotation exchanges the top `n` bits with the others. */
  lemma RotlIs(x: Word, n: nat)
    requires 0 < n < 32
    ensures Pow(2, 32 - n) > 0
    ensures Rotl(x, n) == Rem(x, Pow(2, 32 - n)) * Pow(2, n) + Quot(x, Pow(2, 32 - n))
    ensures Quot(x, Pow(2, 32 - n)) < Pow(2, n)
  {
    hide Pow, BitOr, Quot, Rem;
    var m, k := Pow(2, 32 - n), Pow(2, n);
    TwoTo32();
    PowPositive(2, 32 - n);
    PowAdd(2, n, 32 - n);
    DivMod(x, m);
    var q, r := Quot(x, m), Rem(x, m);
    QuotientBelow(x, m, k);
    OrAcrossIsSum(x, q, n);
    MulDistributes(q * m, r, k);
    MulSwaps(q, m, k);
    MulMonotone(r + 1, m, k);
    MulDistributes(r, 1, k);
    RemIs(x * k + q, TWO32, q, r * k + q);
  }

  lemma RemIs(a: nat, b: nat, q: nat, r: nat)
    requires b > 0 && a == q * b + r && r < b
    ensures a % b == r
  {
    DivModUnique(a, b, q, r);
  }

  /** Rotating the rest of the way round gives the word back. */
  lemma RotationsCancel(x: Word, n: nat)
    requires 0 < n < 32
    ensures Rotl(Rotl(x, n), 32 - n) == x
  {
    hide Pow, Rotl, Quot, Rem;
    var m, k := Pow(2, 32 - n), Pow(2, n);
    RotlIs(x, n);
    RotlIs(Rotl(x, n), 32 - n);
    DivMod(x, m);
    DivModUnique(Rotl(x, n), k, Rem(x, m), Quot(x, m));
  }

  // ----- the quarter round, as four half steps

  predicate Corners(x: int, y: int, z: int) {
    0 <= x < 16 && 0 <= y < 16 && 0 <= z < 16 && x != y && y != z && x != z
  }

  function HalfStep(s: State, x: int, y: int, z: int, n: nat): State
    requires Corners(x, y, z) && 0 < n < 32
  {
    var t := s[x := Add(s[x], s[y])];
    t[z := Rotl(Xor(t[z], t[x]), n)]
  }

  function UndoHalfStep(s: State, x: int, y: int, z: int, n: nat): State
    requires Corners(x, y, z) && 0 < n < 32
  {
    var t := s[z := Xor(Rotl(s[z], 32 - n), s[x])];
    t[x := Sub(t[x], t[y])]
  }

  lemma HalfStepUndone(s: State, x: int, y: int, z: int, n: nat)
    requires Corners(x, y, z) && 0 < n < 32
    ensures UndoHalfStep(HalfStep(s, x, y, z, n), x, y, z, n) == s
    ensures HalfStep(UndoHalfStep(s, x, y, z, n), x, y, z, n) == s
  {
    hide Add, Sub, Xor, Rotl;
    WordRules(s[x], s[y]);
    WordRules(s[z], Add(s[x], s[y]));
    RotationsCancel(Xor(s[z], Add(s[x], s[y])), n);
    WordRules(Rotl(s[z], 32 - n), s[x]);
    RotationsCancel(s[z], 32 - n);
  }

  predicate Quarter(a: int, b: int, c: int, d: int) {
    Corners(a, b, c) && Corners(b, c, d) && a != d
  }

  function QuarterOf(s: State, a: int, b: int, c: int, d: int): State
    requires Quarter(a, b, c, d)
  {
    HalfStep(HalfStep(HalfStep(HalfStep(s, a, b, d, 16), c, d, b, 12), a, b, d, 8), c, d, b, 7)
  }

  function UndoQuarter(s: State, a: int, b: int, c: int, d: int): State
    requires Quarter(a, b, c, d)
  {
    UndoHalfStep(UndoHalfStep(UndoHalfStep(UndoHalfStep(s, c, d, b, 7), a, b, d, 8), c, d, b, 12), a, b, d, 16)
  }

  lemma QuarterUndone(s: State, a: int, b: int, c: int, d: int)
    requires Quarter(a, b, c, d)
    ensures UndoQuarter(QuarterOf(s, a, b, c, d), a, b, c, d) == s
    ensures QuarterOf(UndoQuarter(s, a, b, c, d), a, b, c, d) == s
  {
    hide HalfStep, UndoHalfStep;
    var s1 := HalfStep(s, a, b, d, 16);
    var s2 := HalfStep(s1, c, d, b, 12);
    var s3 := HalfStep(s2, a, b, d, 8);
    HalfStepUndone(s, a, b, d, 16);
    HalfStepUndone(s1, c, d, b, 12);
    HalfStepUndone(s2, a, b, d, 8);
    HalfStepUndone(s3, c, d, b, 7);
    var u1 := UndoHalfStep(s, c, d, b, 7);
    var u2 := UndoHalfStep(u1, a, b, d, 8);
    var u3 := UndoHalfStep(u2, c, d, b, 12);
    HalfStepUndone(s, c, d, b, 7);
    HalfStepUndone(u1, a, b, d, 8);
    HalfStepUndone(u2, c, d, b, 12);
    HalfStepUndone(u3, a, b, d, 16);
  }

  // ----- rounds

  function ColumnRound(s: State): State {
    QuarterOf(QuarterOf(QuarterOf(QuarterOf(s, 0, 4, 8, 12), 1, 5, 9, 13), 2, 6, 10, 14), 3, 7, 11, 15)
  }

  function DiagonalRound(s: State): State {
    QuarterOf(QuarterOf(QuarterOf(QuarterOf(s, 0, 5, 10, 15), 1, 6, 11, 12), 2, 7, 8, 13), 3, 4, 9, 14)
  }

  function UndoColumnRound(s: State): State {
    UndoQuarter(UndoQuarter(UndoQuarter(UndoQuarter(s, 3, 7, 11, 15), 2, 6, 10, 14), 1, 5, 9, 13), 0, 4, 8, 12)
  }

  function UndoDiagonalRound(s: State): State {
    UndoQuarter(UndoQuarter(UndoQuarter(UndoQuarter(s, 3, 4, 9, 14), 2, 7, 8, 13), 1, 6, 11, 12), 0, 5, 10, 15)
  }

  function Rounds(s: State, n: nat): State
    decreases n
  {
    if n == 0 then s else DiagonalRound(ColumnRound(Rounds(s, n - 1)))
  }

  function UndoRounds(s: State, n: nat): State
    decreases n
  {
    if n == 0 then s else UndoRounds(UndoColumnRound(UndoDiagonalRound(s)), n - 1)
  }

  lemma ColumnRoundUndone(s: State)
    ensures UndoColumnRound(ColumnRound(s)) == s && ColumnRound(UndoColumnRound(s)) == s
  {
    hide QuarterOf, UndoQuarter;
    var s1 := QuarterOf(s, 0, 4, 8, 12);
    var s2 := QuarterOf(s1, 1, 5, 9, 13);
    QuarterUndone(s, 0, 4, 8, 12);
    QuarterUndone(s1, 1, 5, 9, 13);
    QuarterUndone(s2, 2, 6, 10, 14);
    QuarterUndone(QuarterOf(s2, 2, 6, 10, 14), 3, 7, 11, 15);
    var u1 := UndoQuarter(s, 3, 7, 11, 15);
    var u2 := UndoQuarter(u1, 2, 6, 10, 14);
    QuarterUndone(s, 3, 7, 11, 15);
    QuarterUndone(u1, 2, 6, 10, 14);
    QuarterUndone(u2, 1, 5, 9, 13);
    QuarterUndone(UndoQuarter(u2, 1, 5, 9, 13), 0, 4, 8, 12);
  }

  lemma DiagonalRoundUndone(s: State)
    ensures UndoDiagonalRound(DiagonalRound(s)) == s && DiagonalRound(UndoDiagonalRound(s)) == s
  {
    hide QuarterOf, UndoQuarter;
    var s1 := QuarterOf(s, 0, 5, 10, 15);
    var s2 := QuarterOf(s1, 1, 6, 11, 12);
    QuarterUndone(s, 0, 5, 10, 15);
    QuarterUndone(s1, 1, 6, 11, 12);
    QuarterUndone(s2, 2, 7, 8, 13);
    QuarterUndone(QuarterOf(s2, 2, 7, 8, 13), 3, 4, 9, 14);
    var u1 := UndoQuarter(s, 3, 4, 9, 14);
    var u2 := UndoQuarter(u1, 2, 7, 8, 13);
    QuarterUndone(s, 3, 4, 9, 14);
    QuarterUndone(u1, 2, 7, 8, 13);
    QuarterUndone(u2, 1, 6, 11, 12);
    QuarterUndone(UndoQuarter(u2, 1, 6, 11, 12), 0, 5, 10, 15);
  }

  /** The rounds are a bijection on states, however many there are. */
  lemma {:induction false} RoundsUndone(s: State, n: nat)
    ensures UndoRounds(Rounds(s, n), n) == s && Rounds(UndoRounds(s, n), n) == s
    decreases n
  {
    hide ColumnRound, DiagonalRound, UndoColumnRound, UndoDiagonalRound;
    if n > 0 {
      RoundsUndone(s, n - 1);
      var so := Rounds(s, n - 1);
      ColumnRoundUndone(so);
      DiagonalRoundUndone(ColumnRound(so));
      var back := UndoDiagonalRound(s);
      DiagonalRoundUndone(s);
      ColumnRoundUndone(back);
      RoundsUndone(UndoColumnRound(back), n - 1);
    }
  }

  method QuarterRound(s: array<Word>, a: int, b: int, c: int, d: int)
    requires s.Length == 16 && Quarter(a, b, c, d)
    modifies s
    ensures s[..] == QuarterOf(old(s[..]), a, b, c, d)
  {
    hide Add, Xor, Rotl;
    ghost var was := s[..];
    s[a] := Add(s[a], s[b]);
    s[d] := Rotl(Xor(s[d], s[a]), 16);
    assert s[..] == HalfStep(was, a, b, d, 16);
    was := s[..];
    s[c] := Add(s[c], s[d]);
    s[b] := Rotl(Xor(s[b], s[c]), 12);
    assert s[..] == HalfStep(was, c, d, b, 12);
    was := s[..];
    s[a] := Add(s[a], s[b]);
    s[d] := Rotl(Xor(s[d], s[a]), 8);
    assert s[..] == HalfStep(was, a, b, d, 8);
    was := s[..];
    s[c] := Add(s[c], s[d]);
    s[b] := Rotl(Xor(s[b], s[c]), 7);
    assert s[..] == HalfStep(was, c, d, b, 7);
  }

  // ----- the block function

  const CONSTANTS: seq<Word> := [0x6170_7865, 0x3320_646E, 0x7962_2D32, 0x6B20_6574]

  const DOUBLE_ROUNDS := 10

  predicate KeyAndNonce(key: Bytes, nonce: Bytes) {
    |key| == 32 && |nonce| == 12
  }

  function WordAt(b: Bytes, i: nat): Word
    requires 4 * i + 4 <= |b|
  {
    FromLEBound(b[4 * i..4 * i + 4]);
    PowersOf256();
    FromLE(b[4 * i..4 * i + 4])
  }

  function WordsOf(b: Bytes): (ws: seq<Word>)
    ensures |ws| == |b| / 4
  {
    seq(|b| / 4, i requires 0 <= i < |b| / 4 => WordAt(b, i))
  }

  /** What the block counter wraps to. */
  function CounterWord(counter: nat): Word {
    counter % TWO32
  }

  function InitialState(key: Bytes, counter: nat, nonce: Bytes): State
    requires KeyAndNonce(key, nonce)
  {
    CONSTANTS + WordsOf(key) + [CounterWord(counter)] + WordsOf(nonce)
  }

  function Sum(s: State, t: State): State {
    seq(16, i requires 0 <= i < 16 => Add(s[i], t[i]))
  }

  function BytesOfWord(w: Word): (b: Bytes)
    ensures |b| == 4
  {
    ToLE(w, 4)
  }

  function Serial(s: State): (b: Bytes)
    ensures |b| == 64
  {
    seq(64, i requires 0 <= i < 64 => BytesOfWord(s[i / 4])[i % 4])
  }

  function BlockOf(key: Bytes, counter: nat, nonce: Bytes): (b: Bytes)
    requires KeyAndNonce(key, nonce)
    ensures |b| == 64
  {
    var start := InitialState(key, counter, nonce);
    Serial(Sum(Rounds(start, DOUBLE_ROUNDS), start))
  }

  method Block(key: Bytes, counter: nat, nonce: Bytes) returns (b: Bytes)
    requires KeyAndNonce(key, nonce)
    ensures b == BlockOf(key, counter, nonce)
  {
    hide QuarterOf, InitialState, Serial;
    var state := InitialState(key, counter, nonce);
    var working := new Word[16](i requires 0 <= i < 16 => state[i]);
    assert working[..] == state;
    for n := 0 to DOUBLE_ROUNDS
      invariant working[..] == Rounds(state, n)
    {
      QuarterRound(working, 0, 4, 8, 12);
      QuarterRound(working, 1, 5, 9, 13);
      QuarterRound(working, 2, 6, 10, 14);
      QuarterRound(working, 3, 7, 11, 15);
      assert working[..] == ColumnRound(Rounds(state, n));
      QuarterRound(working, 0, 5, 10, 15);
      QuarterRound(working, 1, 6, 11, 12);
      QuarterRound(working, 2, 7, 8, 13);
      QuarterRound(working, 3, 4, 9, 14);
      assert working[..] == Rounds(state, n + 1);
    }
    b := Serial(Sum(working[..], state));
  }

  // ----- the cipher

  function XorByte(a: byte, b: byte): byte {
    assert Pow(2, 4) == 16;
    PowAdd(2, 4, 4);
    XorFits(a, b, 8);
    BitXor(a, b)
  }

  function KeystreamAt(key: Bytes, nonce: Bytes, counter: nat, i: nat): byte
    requires KeyAndNonce(key, nonce)
  {
    BlockOf(key, counter + i / 64, nonce)[i % 64]
  }

  /** Every byte against the keystream byte at its own position. */
  function Xored(key: Bytes, nonce: Bytes, data: Bytes, counter: nat): (r: Bytes)
    requires KeyAndNonce(key, nonce)
    ensures |r| == |data|
  {
    seq(|data|, i requires 0 <= i < |data| => XorByte(data[i], KeystreamAt(key, nonce, counter, i)))
  }

  function XoredOrError(key: Bytes, nonce: Bytes, data: Bytes, counter: nat): Result<Bytes, Error> {
    if |key| != 32 then Failure(KeyNot32Bytes)
    else if |nonce| != 12 then Failure(NonceNot12Bytes)
    else Success(Xored(key, nonce, data, counter))
  }

  method ChaCha20Xor(key: Bytes, nonce: Bytes, data: Bytes, counter: nat) returns (r: Result<Bytes, Error>)
    ensures r == XoredOrError(key, nonce, data, counter)
  {
    hide BlockOf, XorByte;
    if |key| != 32 {
      return Failure(KeyNot32Bytes);
    }
    if |nonce| != 12 {
      return Failure(NonceNot12Bytes);
    }
    ghost var want := Xored(key, nonce, data, counter);
    var out := new byte[|data|];
    var i := 0;
    while i < |data|
      invariant i % 64 == 0 || i == |data|
      invariant i <= |data| && out[..i] == want[..i]
    {
      var keystream := Block(key, counter + i / 64, nonce);
      var end := if i + 64 <= |data| then i + 64 else |data|;
      for k := i to end
        invariant out[..k] == want[..k]
      {
        SameBlock(i, k);
        out[k] := XorByte(data[k], keystream[k - i]);
        assert want[..k + 1] == want[..k] + [want[k]];
      }
      i := end;
    }
    assert out[..i] == out[..];
    assert want[..|data|] == want;
    return Success(out[..]);
  }

  lemma SameBlock(i: nat, k: nat)
    requires i % 64 == 0 && i <= k < i + 64
    ensures k / 64 == i / 64 && k % 64 == k - i
  {
  }

  // ----- what the cipher promises

  lemma XorByteUndone(a: byte, b: byte)
    ensures XorByte(XorByte(a, b), b) == a
  {
    XorUndone(a, b);
  }

  /** The same call decrypts. */
  lemma XoredTwice(key: Bytes, nonce: Bytes, data: Bytes, counter: nat)
    requires KeyAndNonce(key, nonce)
    ensures Xored(key, nonce, Xored(key, nonce, data, counter), counter) == data
  {
    hide XorByte, KeystreamAt;
    forall i | 0 <= i < |data| ensures Xored(key, nonce, Xored(key, nonce, data, counter), counter)[i] == data[i] {
      XorByteUndone(data[i], KeystreamAt(key, nonce, counter, i));
    }
  }

  /** A message may be cut at any block boundary, the counter going on from there. */
  lemma XoredInParts(key: Bytes, nonce: Bytes, a: Bytes, b: Bytes, counter: nat)
    requires KeyAndNonce(key, nonce) && |a| % 64 == 0
    ensures Xored(key, nonce, a + b, counter)
         == Xored(key, nonce, a, counter) + Xored(key, nonce, b, counter + |a| / 64)
  {
    hide XorByte, BlockOf;
    var whole := Xored(key, nonce, a + b, counter);
    var rest := Xored(key, nonce, b, counter + |a| / 64);
    forall i | 0 <= i < |b| ensures rest[i] == whole[|a| + i] {
      assert (|a| + i) / 64 == |a| / 64 + i / 64 && (|a| + i) % 64 == i % 64;
    }
  }

  /** Two blocks of one key and nonce start from the same state exactly when their counters agree modulo 2^32. */
  lemma StatesMeetExactly(key: Bytes, nonce: Bytes, c: nat, d: nat)
    requires KeyAndNonce(key, nonce)
    ensures InitialState(key, c, nonce) == InitialState(key, d, nonce) <==> c % TWO32 == d % TWO32
  {
    hide WordAt;
    assert InitialState(key, c, nonce)[12] == CounterWord(c) && InitialState(key, d, nonce)[12] == CounterWord(d);
  }

  /** The counter that encrypts byte `i` of a message whose first block is at counter 1. */
  function CounterFor(i: nat): nat {
    1 + i / 64
  }

  /** For `n` bytes these counters avoid the state at counter 0 exactly up to a bound. */
  lemma StatesApart(key: Bytes, nonce: Bytes, n: nat)
    requires KeyAndNonce(key, nonce)
    ensures (forall i: nat :: i < n ==> InitialState(key, CounterFor(i), nonce) != InitialState(key, 0, nonce))
       <==> n <= 64 * (TWO32 - 1)
  {
    hide InitialState;
    forall i: nat | i < n
      ensures InitialState(key, CounterFor(i), nonce) != InitialState(key, 0, nonce) <==> (1 + i / 64) % TWO32 != 0
    {
      StatesMeetExactly(key, nonce, CounterFor(i), 0);
    }
    if n > 64 * (TWO32 - 1) {
      var first := 64 * (TWO32 - 1);
      assert CounterFor(first) % TWO32 == 0;
    }
  }
}
