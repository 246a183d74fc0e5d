/** The block function once more, as RFC 8439 draws it: a four by four matrix, turned twenty times. */
module ChaCha20Reference {
  import opened ByteStrings
  import opened Arithmetic
  import opened Bits
  import opened ChaCha20

  // ----- words, bit by bit

  /** A rotation moves bit `j - n` to bit `j`, around the word. */
  lemma RotlBits(x: Word, n: nat, j: nat)
    requires 0 < n < 32 && j < 32
    ensures Bit(Rotl(x, n), j) <==> Bit(x, (j + 32 - n) % 32)
  {
    hide Pow, Quot, Rem, Rotl, Bit;
    var m := 32 - n;
    PowPositive(2, m);
    RotlIs(x, n);
    DivMod(x, Pow(2, m));
    JoinedBits(Rem(x, Pow(2, m)), Quot(x, Pow(2, m)), n, j);
    JoinedBits(Quot(x, Pow(2, m)), Rem(x, Pow(2, m)), m, (j + m) % 32);
  }

  // ----- the quarter round on four words

  function QuarterWords(a: Word, b: Word, c: Word, d: Word): (Word, Word, Word, Word) {
    var a1 := Add(a, b);
    var d1 := Rotl(Xor(d, a1), 16);
    var c1 := Add(c, d1);
    var b1 := Rotl(Xor(b, c1), 12);
    var a2 := Add(a1, b1);
    var d2 := Rotl(Xor(d1, a2), 8);
    var c2 := Add(c1, d2);
    var b2 := Rotl(Xor(b1, c2), 7);
    (a2, b2, c2, d2)
  }

  lemma QuarterIs(s: State, a: int, b: int, c: int, d: int)
    requires Quarter(a, b, c, d)
    ensures var q := QuarterWords(s[a], s[b], s[c], s[d]);
            QuarterOf(s, a, b, c, d) == s[a := q.0][b := q.1][c := q.2][d := q.3]
  {
    hide Add, Xor, Rotl;
  }

  // ----- the rounds on the matrix

  /** Where row `r` of column `j` is, or of diagonal `j`, which moves right by one from row to row. */
  function Place(diagonal: bool, r: nat, j: nat): (i: nat)
    requires r < 4 && j < 4
    ensures i < 16
  {
    4 * r + if diagonal then (j + r) % 4 else j
  }

  function Line(s: State, diagonal: bool, j: nat): (Word, Word, Word, Word)
    requires j < 4
  {
    QuarterWords(s[Place(diagonal, 0, j)], s[Place(diagonal, 1, j)], s[Place(diagonal, 2, j)], s[Place(diagonal, 3, j)])
  }

  /** Which column, or which diagonal, place `i` is on. */
  function LineOf(diagonal: bool, i: nat): (j: nat)
    requires i < 16
    ensures j < 4
  {
    if diagonal then (i % 4 + 4 - i / 4) % 4 else i % 4
  }

  function RowOf(q: (Word, Word, Word, Word), r: nat): Word {
    if r == 0 then q.0 else if r == 1 then q.1 else if r == 2 then q.2 else q.3
  }

  /** All four columns, or all four diagonals, at once. */
  function Turned(s: State, diagonal: bool): State {
    seq(16, i requires 0 <= i < 16 => RowOf(Line(s, diagonal, LineOf(diagonal, i)), i / 4))
  }

  lemma ColumnsAre()
    ensures Place(false, 0, 0) == 0 && Place(false, 0, 1) == 1 && Place(false, 0, 2) == 2 && Place(false, 0, 3) == 3
    ensures Place(false, 1, 0) == 4 && Place(false, 1, 1) == 5 && Place(false, 1, 2) == 6 && Place(false, 1, 3) == 7
    ensures Place(false, 2, 0) == 8 && Place(false, 2, 1) == 9 && Place(false, 2, 2) == 10 && Place(false, 2, 3) == 11
    ensures Place(false, 3, 0) == 12 && Place(false, 3, 1) == 13 && Place(false, 3, 2) == 14 && Place(false, 3, 3) == 15
    ensures forall i :: 0 <= i < 16 ==> LineOf(false, i) == i % 4
  {
  }

  lemma DiagonalsAre()
    ensures Place(true, 0, 0) == 0 && Place(true, 0, 1) == 1 && Place(true, 0, 2) == 2 && Place(true, 0, 3) == 3
    ensures Place(true, 1, 0) == 5 && Place(true, 1, 1) == 6 && Place(true, 1, 2) == 7 && Place(true, 1, 3) == 4
    ensures Place(true, 2, 0) == 10 && Place(true, 2, 1) == 11 && Place(true, 2, 2) == 8 && Place(true, 2, 3) == 9
    ensures Place(true, 3, 0) == 15 && Place(true, 3, 1) == 12 && Place(true, 3, 2) == 13 && Place(true, 3, 3) == 14
    ensures LineOf(true, 0) == LineOf(true, 5) == LineOf(true, 10) == LineOf(true, 15) == 0
    ensures LineOf(true, 1) == LineOf(true, 6) == LineOf(true, 11) == LineOf(true, 12) == 1
    ensures LineOf(true, 2) == LineOf(true, 7) == LineOf(true, 8) == LineOf(true, 13) == 2
    ensures LineOf(true, 3) == LineOf(true, 4) == LineOf(true, 9) == LineOf(true, 14) == 3
  {
  }

  lemma ColumnsAtOnce(s: State)
    ensures ColumnRound(s) == Turned(s, false)
  {
    hide QuarterOf, QuarterWords;
    ColumnsAre();
    hide Place, LineOf;
    var s1 := QuarterOf(s, 0, 4, 8, 12);
    var s2 := QuarterOf(s1, 1, 5, 9, 13);
    var s3 := QuarterOf(s2, 2, 6, 10, 14);
    QuarterIs(s, 0, 4, 8, 12);
    QuarterIs(s1, 1, 5, 9, 13);
    QuarterIs(s2, 2, 6, 10, 14);
    QuarterIs(s3, 3, 7, 11, 15);
  }

  lemma DiagonalsAtOnce(s: State)
    ensures DiagonalRound(s) == Turned(s, true)
  {
    hide QuarterOf, QuarterWords;
    DiagonalsAre();
    hide Place, LineOf;
    var s1 := QuarterOf(s, 0, 5, 10, 15);
    var s2 := QuarterOf(s1, 1, 6, 11, 12);
    var s3 := QuarterOf(s2, 2, 7, 8, 13);
    QuarterIs(s, 0, 5, 10, 15);
    QuarterIs(s1, 1, 6, 11, 12);
    QuarterIs(s2, 2, 7, 8, 13);
    QuarterIs(s3, 3, 4, 9, 14);
  }

  /** Column and diagonal rounds in turn, columns first. */
  function Alternating(s: State, rounds: nat): State {
    if rounds == 0 then s else Turned(Alternating(s, rounds - 1), rounds % 2 == 0)
  }

  lemma {:induction false} RoundsAlternate(s: State, n: nat)
    ensures Rounds(s, n) == Alternating(s, 2 * n)
    decreases n
  {
    hide ColumnRound, DiagonalRound, Turned;
    if n > 0 {
      RoundsAlternate(s, n - 1);
      ColumnsAtOnce(Rounds(s, n - 1));
      DiagonalsAtOnce(ColumnRound(Rounds(s, n - 1)));
      assert Alternating(s, 2 * n - 1) == Turned(Alternating(s, 2 * n - 2), false);
    }
  }

  // ----- the block

  /** The text "expand 32-byte k". */
  const EXPAND: Bytes := [
    0x65, 0x78, 0x70, 0x61, 0x6E, 0x64, 0x20, 0x33,
    0x32, 0x2D, 0x62, 0x79, 0x74, 0x65, 0x20, 0x6B]

  /** The initial state, as bytes. */
  function StartBytes(key: Bytes, counter: nat, nonce: Bytes): (b: Bytes)
    requires |key| == 32 && |nonce| == 12
    ensures |b| == 64
  {
    EXPAND + key + ToLE(counter % 0x1_0000_0000, 4) + nonce
  }

  function StartWord(key: Bytes, counter: nat, nonce: Bytes, i: nat): nat
    requires |key| == 32 && |nonce| == 12 && i < 16
  {
    FromLE(StartBytes(key, counter, nonce)[4 * i..4 * i + 4])
  }

  ghost predicate Starts(start: State, key: Bytes, counter: nat, nonce: Bytes)
    requires |key| == 32 && |nonce| == 12
  {
    forall n :: 0 <= n < 16 ==> start[n] == StartWord(key, counter, nonce, n)
  }

  lemma StartIs(key: Bytes, counter: nat, nonce: Bytes, i: nat)
    requires KeyAndNonce(key, nonce) && i < 16
    ensures InitialState(key, counter, nonce)[i] == StartWord(key, counter, nonce, i)
  {
    hide FromLE, ToLE;
    var b := StartBytes(key, counter, nonce);
    var word := b[4 * i..4 * i + 4];
    if i < 4 {
      assert word == EXPAND[4 * i..4 * i + 4];
      ConstantIs(i);
    } else if i < 12 {
      assert word == key[4 * (i - 4)..4 * (i - 4) + 4];
    } else if i == 12 {
      PowersOf256();
      assert word == ToLE(counter % 0x1_0000_0000, 4);
      FromLEOfToLE(counter % 0x1_0000_0000, 4);
    } else {
      assert word == nonce[4 * (i - 13)..4 * (i - 13) + 4];
    }
  }

  lemma ConstantIs(i: nat)
    requires i < 4
    ensures CONSTANTS[i] == FromLE(EXPAND[4 * i..4 * i + 4])
  {
    FourBytes(EXPAND[4 * i..4 * i + 4]);
  }

  lemma FourBytes(b: Bytes)
    requires |b| == 4
    ensures FromLE(b) == b[0] as int + 0x100 * (b[1] as int) + 0x1_0000 * (b[2] as int) + 0x100_0000 * (b[3] as int)
  {
    assert b[1..][1..] == b[2..] && b[2..][1..] == b[3..] && b[3..][1..] == [];
    assert FromLE(b[3..]) == b[3] as int;
    assert FromLE(b[2..]) == b[2] as int + 0x100 * (b[3] as int);
  }

  /**
   The block of section 2.3: twenty rounds over the initial state, that state added back word by word
   modulo 2^32, and every word written little-endian.
   */
  lemma BlockIsTwentyRounds(key: Bytes, counter: nat, nonce: Bytes, start: State, rounds: nat, i: nat)
    requires KeyAndNonce(key, nonce) && i < 16 && rounds == 20 && Starts(start, key, counter, nonce)
    ensures BlockOf(key, counter, nonce)[4 * i..4 * i + 4]
         == ToLE((Alternating(start, rounds)[i] as int + start[i] as int) % 0x1_0000_0000, 4)
  {
    hide Alternating, StartWord, InitialState, ToLE, Rounds, Serial, Sum;
    forall n | 0 <= n < 16 ensures start[n] == InitialState(key, counter, nonce)[n] {
      StartIs(key, counter, nonce, n);
    }
    assert start == InitialState(key, counter, nonce);
    RoundsAlternate(start, 10);
    SumWord(Alternating(start, rounds), start, i);
  }

  lemma SumWord(s: State, t: State, i: nat)
    requires i < 16
    ensures Serial(Sum(s, t))[4 * i..4 * i + 4] == ToLE((s[i] as int + t[i] as int) % 0x1_0000_0000, 4)
  {
    hide ToLE, Serial;
    SerialIs(Sum(s, t), i);
  }

  lemma SerialIs(s: State, i: nat)
    requires i < 16
    ensures Serial(s)[4 * i..4 * i + 4] == ToLE(s[i], 4)
  {
    hide ToLE;
    forall j | 0 <= j < 4 ensures Serial(s)[4 * i + j] == ToLE(s[i], 4)[j] {
      assert (4 * i + j) / 4 == i && (4 * i + j) % 4 == j;
    }
  }

  /** The keystream goes over the data bit by bit. */
  lemma XorByteBits(a: byte, b: byte, j: nat)
    ensures Bit(XorByte(a, b), j) <==> Bit(a, j) != Bit(b, j)
  {
    XorBits(a, b, j);
  }
}
