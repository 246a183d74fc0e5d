/** The checksum of BIP 173: a linear code over 30-bit words, one 5-bit symbol at a time. */
module Bech32Checksum {
  /** Every value the checksum passes through fits in 30 bits. */
  type Word = bv30

  type Symbol = x: int | 0 <= x < 32

  function Generator(i: nat): Word
    requires i < 5
  {
    match i
    case 0 => 0x3B6A57B2
    case 1 => 0x26508E6D
    case 2 => 0x1EA119FA
    case 3 => 0x3D4233DD
    case 4 => 0x2A1462B3
  }

  function Xor(a: Word, b: Word): Word {
    a ^ b
  }

  /** The low 25 bits, moved up to make room for a symbol. */
  function Shifted(chk: Word): Word {
    (chk & 0x1FF_FFFF) << 5
  }

  function Top(chk: Word): Word {
    chk >> 25
  }

  /** Bit `i` of the five at the top. */
  predicate Taps(top: Word, i: nat)
    requires i < 5
  {
    match i
    case 0 => top & 1 != 0
    case 1 => (top >> 1) & 1 != 0
    case 2 => (top >> 2) & 1 != 0
    case 3 => (top >> 3) & 1 != 0
    case 4 => (top >> 4) & 1 != 0
  }

  function Tap(chk: Word, top: Word, i: nat): Word
    requires i < 5
  {
    if Taps(top, i) then Xor(chk, Generator(i)) else chk
  }

  /** The first `n` generators fed back. */
  function Fed(chk: Word, top: Word, n: nat): Word
    requires n <= 5
  {
    if n == 0 then chk else Tap(Fed(chk, top, n - 1), top, n - 1)
  }

  function StepOf(chk: Word, v: Word): Word {
    Fed(Xor(Shifted(chk), v), Top(chk), 5)
  }

  function PolymodFrom(chk: Word, values: seq<Word>): Word
    decreases |values|
  {
    if values == [] then chk else PolymodFrom(StepOf(chk, values[0]), values[1..])
  }

  method Polymod(values: seq<Word>) returns (chk: Word)
    ensures chk == PolymodFrom(1, values)
  {
    hide Tap, Xor, Shifted, Top;
    chk := 1;
    for n := 0 to |values|
      invariant PolymodFrom(1, values) == PolymodFrom(chk, values[n..])
    {
      ghost var before := chk;
      var top := Top(chk);
      chk := Xor(Shifted(chk), values[n]);
      ghost var start := chk;
      for i := 0 to 5
        invariant chk == Fed(start, top, i)
      {
        FedOneMore(start, top, i);
        if Taps(top, i) {
          chk := Xor(chk, Generator(i));
        }
      }
      assert chk == StepOf(before, values[n]);
    }
  }

  lemma FedOneMore(chk: Word, top: Word, i: nat)
    requires i < 5
    ensures Fed(chk, top, i + 1) == if Taps(top, i) then Xor(Fed(chk, top, i), Generator(i)) else Fed(chk, top, i)
  {
  }

  // ----- the step is linear and injective

  lemma XorRules(a: Word, b: Word)
    ensures Xor(a, 0) == a && Xor(0, a) == a && Xor(a, a) == 0 && Xor(Xor(a, b), b) == a
    ensures Xor(a, b) == 0 ==> a == b
  {
  }

  lemma XorMoves(x: Word, y: Word, g: Word)
    ensures Xor(Xor(x, g), y) == Xor(Xor(x, y), g)
    ensures Xor(x, Xor(y, g)) == Xor(Xor(x, y), g)
    ensures Xor(Xor(x, g), Xor(y, g)) == Xor(x, y)
  {
  }

  lemma XorSwap(a: Word, b: Word, c: Word, d: Word)
    ensures Xor(Xor(a, b), Xor(c, d)) == Xor(Xor(a, c), Xor(b, d))
  {
    hide Xor;
    XorMoves(a, c, b);
    XorMoves(Xor(a, b), c, d);
    XorMoves(Xor(a, c), b, d);
  }

  lemma TapsLinear(a: Word, b: Word, i: nat)
    requires i < 5
    ensures Taps(Xor(a, b), i) == (Taps(a, i) != Taps(b, i))
  {
    match i
    case 0 => assert (a ^ b) & 1 == (a & 1) ^ (b & 1);
    case 1 => assert ((a ^ b) >> 1) & 1 == ((a >> 1) & 1) ^ ((b >> 1) & 1);
    case 2 => assert ((a ^ b) >> 2) & 1 == ((a >> 2) & 1) ^ ((b >> 2) & 1);
    case 3 => assert ((a ^ b) >> 3) & 1 == ((a >> 3) & 1) ^ ((b >> 3) & 1);
    case 4 => assert ((a ^ b) >> 4) & 1 == ((a >> 4) & 1) ^ ((b >> 4) & 1);
  }

  lemma ShiftLinear(a: Word, b: Word)
    ensures Shifted(Xor(a, b)) == Xor(Shifted(a), Shifted(b)) && Top(Xor(a, b)) == Xor(Top(a), Top(b))
  {
  }

  lemma {:induction false} FedLinear(x: Word, y: Word, a: Word, b: Word, n: nat)
    requires n <= 5
    ensures Fed(Xor(x, y), Xor(a, b), n) == Xor(Fed(x, a, n), Fed(y, b, n))
  {
    hide Taps, Xor, Generator;
    if n > 0 {
      FedLinear(x, y, a, b, n - 1);
      TapsLinear(a, b, n - 1);
      XorMoves(Fed(x, a, n - 1), Fed(y, b, n - 1), Generator(n - 1));
    }
  }

  lemma StepLinear(a: Word, b: Word, u: Word, v: Word)
    ensures StepOf(Xor(a, b), Xor(u, v)) == Xor(StepOf(a, u), StepOf(b, v))
  {
    hide Fed, Shifted, Top, Xor;
    ShiftLinear(a, b);
    XorSwap(Shifted(a), Shifted(b), u, v);
    FedLinear(Xor(Shifted(a), u), Xor(Shifted(b), v), Top(a), Top(b), 5);
  }

  lemma FedFlat(x: Word, top: Word)
    ensures Fed(x, top, 5) == Tap(Tap(Tap(Tap(Tap(x, top, 0), top, 1), top, 2), top, 3), top, 4)
  {
    hide Tap;
    assert Fed(x, top, 1) == Tap(x, top, 0);
    assert Fed(x, top, 2) == Tap(Fed(x, top, 1), top, 1);
    assert Fed(x, top, 3) == Tap(Fed(x, top, 2), top, 2);
    assert Fed(x, top, 4) == Tap(Fed(x, top, 3), top, 3);
  }

  lemma FedInjective(a: Word, x1: Word, x2: Word, x3: Word, x4: Word)
    requires x1 == Tap(Xor(Shifted(a), 0), Top(a), 0) && x2 == Tap(x1, Top(a), 1)
    requires x3 == Tap(x2, Top(a), 2) && x4 == Tap(x3, Top(a), 3) && Tap(x4, Top(a), 4) == 0
    ensures a == 0
  {
  }

  /** Only the zero word steps to zero on a zero symbol. */
  lemma StepInjective(a: Word)
    requires StepOf(a, 0) == 0
    ensures a == 0
  {
    hide Fed, Tap, Top, Xor, Shifted;
    var top, x0 := Top(a), Xor(Shifted(a), 0);
    FedFlat(x0, top);
    var x1 := Tap(x0, top, 0);
    var x2 := Tap(x1, top, 1);
    var x3 := Tap(x2, top, 2);
    FedInjective(a, x1, x2, x3, Tap(x3, top, 3));
  }

  /** Two different words stay different under any symbols. */
  lemma {:induction false} StaysApart(a: Word, b: Word, values: seq<Word>)
    requires a != b
    ensures PolymodFrom(a, values) != PolymodFrom(b, values)
    decreases |values|
  {
    hide StepOf, Xor;
    if values != [] {
      var v := values[0];
      StepLinear(a, b, v, v);
      XorRules(v, v);
      XorRules(a, b);
      XorRules(StepOf(a, v), StepOf(b, v));
      if StepOf(a, v) == StepOf(b, v) {
        StepInjective(Xor(a, b));
      }
      StaysApart(StepOf(a, v), StepOf(b, v), values[1..]);
    }
  }

  lemma {:induction false} PolymodJoined(chk: Word, a: seq<Word>, b: seq<Word>)
    ensures PolymodFrom(chk, a + b) == PolymodFrom(PolymodFrom(chk, a), b)
    decreases |a|
  {
    hide StepOf;
    if a == [] {
      assert a + b == b;
    } else {
      assert (a + b)[1..] == a[1..] + b;
      PolymodJoined(StepOf(chk, a[0]), a[1..], b);
    }
  }

  // ----- six symbols

  function Nothing(n: nat): seq<Word> {
    seq(n, _ => 0)
  }

  /** What comes before the symbols and the symbols themselves contribute independently. */
  lemma {:induction false} PolymodSplits(chk: Word, values: seq<Word>)
    ensures PolymodFrom(chk, values) == Xor(PolymodFrom(chk, Nothing(|values|)), PolymodFrom(0, values))
    decreases |values|
  {
    SplitsFrom(chk, 0, values);
    XorRules(chk, 0);
  }

  lemma {:induction false} SplitsFrom(a: Word, b: Word, values: seq<Word>)
    ensures PolymodFrom(Xor(a, b), values) == Xor(PolymodFrom(a, Nothing(|values|)), PolymodFrom(b, values))
    decreases |values|
  {
    hide StepOf, Xor;
    if values != [] {
      StepLinear(a, b, 0, values[0]);
      XorRules(values[0], 0);
      assert Nothing(|values|)[1..] == Nothing(|values| - 1);
      SplitsFrom(StepOf(a, 0), StepOf(b, values[0]), values[1..]);
    }
  }

  /** Symbol `i` of the six a word is cut into, most significant first. */
  function Slice(p: Word, i: nat): (w: Word)
    requires i < 6
    ensures w < 32
  {
    match i
    case 0 => (p >> 25) & 31
    case 1 => (p >> 20) & 31
    case 2 => (p >> 15) & 31
    case 3 => (p >> 10) & 31
    case 4 => (p >> 5) & 31
    case 5 => p & 31
  }

  function Append(chk: Word, v: Word): Word {
    (chk << 5) | v
  }

  function Pack(a: Word, b: Word, c: Word, d: Word, e: Word, f: Word): Word {
    Append(Append(Append(Append(Append(a, b), c), d), e), f)
  }

  lemma PackOfSlices(p: Word)
    ensures Pack(Slice(p, 0), Slice(p, 1), Slice(p, 2), Slice(p, 3), Slice(p, 4), Slice(p, 5)) == p
  {
  }

  lemma SlicesOfPack(a: Word, b: Word, c: Word, d: Word, e: Word, f: Word)
    requires a < 32 && b < 32 && c < 32 && d < 32 && e < 32 && f < 32
    ensures var p := Pack(a, b, c, d, e, f);
            && Slice(p, 0) == a && Slice(p, 1) == b && Slice(p, 2) == c
            && Slice(p, 3) == d && Slice(p, 4) == e && Slice(p, 5) == f
  {
  }

  /** With nothing at the top, nothing is fed back. */
  lemma QuietStep(chk: Word, v: Word)
    requires Top(chk) == 0
    ensures StepOf(chk, v) == Xor(Shifted(chk), v)
  {
    hide Shifted, Xor, Top;
    FedFlat(Xor(Shifted(chk), v), 0);
    NoTaps();
  }

  lemma NoTaps()
    ensures forall i: nat :: i < 5 ==> !Taps(0, i)
  {
  }

  /** While there is room at the top, a symbol is simply appended. */
  lemma Appends(chk: Word, v: Word)
    requires chk < 0x200_0000 && v < 32
    ensures StepOf(chk, v) == Append(chk, v)
  {
    assert Top(chk) == 0;
    QuietStep(chk, v);
  }

  lemma HasRoom(a: Word, b: Word, c: Word, d: Word, e: Word)
    requires a < 32 && b < 32 && c < 32 && d < 32 && e < 32
    ensures a < 0x200_0000 && Append(a, b) < 0x200_0000 && Append(Append(a, b), c) < 0x200_0000
    ensures Append(Append(Append(a, b), c), d) < 0x200_0000
    ensures Append(Append(Append(Append(a, b), c), d), e) < 0x200_0000
  {
  }

  lemma SixSteps(a: Word, b: Word, c: Word, d: Word, e: Word, f: Word)
    requires a < 32 && b < 32 && c < 32 && d < 32 && e < 32 && f < 32
    ensures PolymodFrom(0, [a, b, c, d, e, f]) == Pack(a, b, c, d, e, f)
  {
    hide StepOf, PolymodFrom, Append;
    HasRoom(a, b, c, d, e);
    FirstStep(a);
    var two := Append(a, b);
    var three := Append(two, c);
    var four := Append(three, d);
    Appends(a, b);
    Appends(two, c);
    Appends(three, d);
    Appends(four, e);
    Appends(Append(four, e), f);
    Unfolded(0, a, b, c, d, e, f);
  }

  lemma FirstStep(a: Word)
    requires a < 32
    ensures StepOf(0, a) == a
  {
    Appends(0, a);
  }

  lemma Unfolded(chk: Word, a: Word, b: Word, c: Word, d: Word, e: Word, f: Word)
    ensures PolymodFrom(chk, [a, b, c, d, e, f])
         == StepOf(StepOf(StepOf(StepOf(StepOf(StepOf(chk, a), b), c), d), e), f)
  {
    hide StepOf;
    var s3 := StepOf(StepOf(StepOf(chk, a), b), c);
    ThreeSteps(chk, a, b, c, [d, e, f]);
    ThreeSteps(s3, d, e, f, []);
    assert [a, b, c] + [d, e, f] == [a, b, c, d, e, f] && [d, e, f] + [] == [d, e, f];
  }

  lemma ThreeSteps(chk: Word, a: Word, b: Word, c: Word, rest: seq<Word>)
    ensures PolymodFrom(chk, [a, b, c] + rest) == PolymodFrom(StepOf(StepOf(StepOf(chk, a), b), c), rest)
  {
    hide StepOf;
    var s1, s2 := StepOf(chk, a), StepOf(StepOf(chk, a), b);
    assert ([a, b, c] + rest)[1..] == [b, c] + rest;
    assert ([b, c] + rest)[1..] == [c] + rest;
    assert ([c] + rest)[1..] == rest;
    assert PolymodFrom(s1, [b, c] + rest) == PolymodFrom(s2, [c] + rest);
  }

  // ----- checksums of words of symbols

  function AsWord(x: Symbol): (w: Word)
    ensures w < 32
  {
    x as Word
  }

  function AsSymbol(w: Word): Symbol
    requires w < 32
  {
    w as int
  }

  lemma SymbolsAreSmallWords(x: Symbol, w: Word)
    requires w < 32
    ensures AsSymbol(AsWord(x)) == x && AsWord(AsSymbol(w)) == w
  {
    hide AsSymbol, AsWord;
    ThereAndBack(x);
    BackAndThere(w);
  }

  lemma ThereAndBack(x: Symbol)
    ensures AsSymbol(AsWord(x)) == x
  {
  }

  lemma BackAndThere(w: Word)
    requires w < 32
    ensures AsWord(AsSymbol(w)) == w
  {
  }

  function Values(data: seq<Symbol>): (vs: seq<Word>)
    ensures |vs| == |data|
  {
    seq(|data|, i requires 0 <= i < |data| => AsWord(data[i]))
  }

  function High(c: char): Word {
    (c as int / 32) as Word
  }

  function Low(c: char): Word {
    (c as int % 32) as Word
  }

  /** The high bits of every character, a zero, the low bits of every character. */
  function HrpExpand(hrp: string): seq<Word> {
    seq(|hrp|, i requires 0 <= i < |hrp| => High(hrp[i]))
    + [0]
    + seq(|hrp|, i requires 0 <= i < |hrp| => Low(hrp[i]))
  }

  function CreateChecksum(hrp: string, data: seq<Symbol>): (sum: seq<Symbol>)
    ensures |sum| == 6
  {
    var p := Xor(PolymodFrom(1, HrpExpand(hrp) + Values(data) + Nothing(6)), 1);
    seq(6, i requires 0 <= i < 6 => AsSymbol(Slice(p, i)))
  }

  predicate VerifyChecksum(hrp: string, data: seq<Symbol>) {
    PolymodFrom(1, HrpExpand(hrp) + Values(data)) == 1
  }

  /** The word six symbols pack into. */
  function Packed(sum: seq<Symbol>): Word
    requires |sum| == 6
  {
    Pack(AsWord(sum[0]), AsWord(sum[1]), AsWord(sum[2]), AsWord(sum[3]), AsWord(sum[4]), AsWord(sum[5]))
  }

  lemma PackedIsPolymod(sum: seq<Symbol>)
    requires |sum| == 6
    ensures PolymodFrom(0, Values(sum)) == Packed(sum)
  {
    hide Pack, PolymodFrom;
    assert Values(sum) ==
           [AsWord(sum[0]), AsWord(sum[1]), AsWord(sum[2]), AsWord(sum[3]), AsWord(sum[4]), AsWord(sum[5])];
    SixSteps(AsWord(sum[0]), AsWord(sum[1]), AsWord(sum[2]), AsWord(sum[3]), AsWord(sum[4]), AsWord(sum[5]));
  }

  /** Packing is a bijection between six symbols and 30-bit words. */
  lemma PackedExactly(sum: seq<Symbol>, p: Word)
    requires |sum| == 6
    ensures Packed(sum) == p <==> forall i :: 0 <= i < 6 ==> sum[i] == AsSymbol(Slice(p, i))
  {
    hide Pack, Slice, AsWord, AsSymbol;
    forall i | 0 <= i < 6 ensures sum[i] == AsSymbol(Slice(p, i)) <==> AsWord(sum[i]) == Slice(p, i) {
      SymbolsAreSmallWords(sum[i], Slice(p, i));
    }
    PackOfSlices(p);
    SlicesOfPack(AsWord(sum[0]), AsWord(sum[1]), AsWord(sum[2]), AsWord(sum[3]), AsWord(sum[4]), AsWord(sum[5]));
    assert Packed(sum) == p ==> forall i :: 0 <= i < 6 ==> AsWord(sum[i]) == Slice(p, i);
    if forall i :: 0 <= i < 6 ==> sum[i] == AsSymbol(Slice(p, i)) {
      assert forall i :: 0 <= i < 6 ==> AsWord(sum[i]) == Slice(p, i);
      assert AsWord(sum[0]) == Slice(p, 0) && AsWord(sum[1]) == Slice(p, 1) && AsWord(sum[2]) == Slice(p, 2);
      assert AsWord(sum[3]) == Slice(p, 3) && AsWord(sum[4]) == Slice(p, 4) && AsWord(sum[5]) == Slice(p, 5);
    }
  }

  lemma ValuesJoined(a: seq<Symbol>, b: seq<Symbol>)
    ensures Values(a + b) == Values(a) + Values(b)
  {
  }

  lemma XorSolve(q: Word, p: Word)
    ensures Xor(q, p) == 1 <==> p == Xor(q, 1)
  {
    hide Xor;
    XorCommutes(q, p);
    XorCommutes(q, 1);
    XorRules(p, q);
    XorRules(1, q);
  }

  lemma XorCommutes(a: Word, b: Word)
    ensures Xor(a, b) == Xor(b, a)
  {
  }

  /** Six symbols complete a word to a valid one exactly when they are its checksum: one exists, and one only. */
  lemma ChecksumExactly(hrp: string, data: seq<Symbol>, sum: seq<Symbol>)
    requires |sum| == 6
    ensures VerifyChecksum(hrp, data + sum) <==> sum == CreateChecksum(hrp, data)
  {
    hide PolymodFrom, HrpExpand, Packed, Xor, Slice, AsSymbol, Values;
    var front := HrpExpand(hrp) + Values(data);
    var q := PolymodFrom(PolymodFrom(1, front), Nothing(6));
    ValuesJoined(data, sum);
    assert HrpExpand(hrp) + (Values(data) + Values(sum)) == front + Values(sum);
    PolymodJoined(1, front, Values(sum));
    PolymodJoined(1, front, Nothing(6));
    PolymodSplits(PolymodFrom(1, front), Values(sum));
    PackedIsPolymod(sum);
    XorSolve(q, Packed(sum));
    PackedExactly(sum, Xor(q, 1));
    assert sum == CreateChecksum(hrp, data) <==> forall i :: 0 <= i < 6 ==> sum[i] == CreateChecksum(hrp, data)[i];
  }

  lemma PackedInjective(a: seq<Symbol>, b: seq<Symbol>)
    requires |a| == |b| == 6 && Packed(a) == Packed(b)
    ensures a == b
  {
    hide Packed, Slice, AsSymbol;
    PackedExactly(a, Packed(a));
    PackedExactly(b, Packed(b));
  }

  /** After the same start, two different runs of six symbols never reach the same word. */
  lemma SixSymbolsTellApart(chk: Word, a: seq<Symbol>, b: seq<Symbol>)
    requires |a| == |b| == 6 && a != b
    ensures PolymodFrom(chk, Values(a)) != PolymodFrom(chk, Values(b))
  {
    hide PolymodFrom, Packed, Xor, Values;
    var q := PolymodFrom(chk, Nothing(6));
    PolymodSplits(chk, Values(a));
    PolymodSplits(chk, Values(b));
    PackedIsPolymod(a);
    PackedIsPolymod(b);
    if Packed(a) == Packed(b) {
      PackedInjective(a, b);
    }
    XorCancels(q, Packed(a), Packed(b));
  }

  lemma XorCancels(q: Word, a: Word, b: Word)
    ensures Xor(q, a) == Xor(q, b) ==> a == b
  {
  }

  /**
   Error detection at any length: whatever the prefix and however long the word, a change confined to
   six consecutive symbols, of the data or of the checksum, makes a valid word invalid.
   */
  lemma ShortBurstIsCaught(hrp: string, word: seq<Symbol>, changed: seq<Symbol>, p: nat)
    requires VerifyChecksum(hrp, word) && |changed| == |word| && changed != word && p + 6 <= |word|
    requires changed[..p] == word[..p] && changed[p + 6..] == word[p + 6..]
    ensures !VerifyChecksum(hrp, changed)
  {
    hide PolymodFrom, HrpExpand, Values;
    var front := HrpExpand(hrp) + Values(word[..p]);
    var was, now, rest := word[p..p + 6], changed[p..p + 6], word[p + 6..];
    var chk := PolymodFrom(1, front);
    assert word == word[..p] + was + rest && changed == word[..p] + now + rest;
    Through(hrp, word[..p], was, rest);
    Through(hrp, word[..p], now, rest);
    SixSymbolsTellApart(chk, was, now);
    StaysApart(PolymodFrom(chk, Values(was)), PolymodFrom(chk, Values(now)), Values(rest));
  }

  lemma Through(hrp: string, before: seq<Symbol>, mid: seq<Symbol>, after: seq<Symbol>)
    ensures PolymodFrom(1, HrpExpand(hrp) + Values(before + mid + after))
         == PolymodFrom(PolymodFrom(PolymodFrom(1, HrpExpand(hrp) + Values(before)), Values(mid)), Values(after))
  {
    hide PolymodFrom, HrpExpand, Values;
    var front := HrpExpand(hrp) + Values(before);
    ValuesJoined(before + mid, after);
    ValuesJoined(before, mid);
    assert HrpExpand(hrp) + (Values(before) + Values(mid) + Values(after)) == front + Values(mid) + Values(after);
    PolymodJoined(1, front + Values(mid), Values(after));
    PolymodJoined(1, front, Values(mid));
  }
}
