/** The longest example string of BIP 173, which has every symbol once: the constants are those of the standard. */
module Bip173Example {
  import opened Wrappers
  import opened Bech32Checksum
  import opened Npub

  /** The symbols 0 to 31, in order. */
  function Counting(): (data: seq<Symbol>)
    ensures |data| == 32 && forall i :: 0 <= i < 32 ==> data[i] == i
  {
    seq(32, i requires 0 <= i < 32 => i)
  }

  const SUM: seq<Symbol> := [27, 0, 0, 0, 6, 14]

  lemma OneStep(chk: Word, v: Word)
    ensures PolymodFrom(chk, [v]) == StepOf(chk, v)
  {
    hide StepOf;
    assert [v][1..] == [];
  }

  lemma PrefixHigh()
    ensures PolymodFrom(0x00000001, [3, 3, 3, 3, 3, 3]) == 0x3D5BDBD1
  {
    hide PolymodFrom;
    Unfolded(0x00000001, 3, 3, 3, 3, 3, 3);
    assert StepOf(0x00000001, 3) == 0x00000023;
    assert StepOf(0x00000023, 3) == 0x00000463;
    assert StepOf(0x00000463, 3) == 0x00008C63;
    assert StepOf(0x00008C63, 3) == 0x00118C63;
    assert StepOf(0x00118C63, 3) == 0x02318C63;
    assert StepOf(0x02318C63, 3) == 0x3D5BDBD1;
  }

  lemma PrefixZero()
    ensures PolymodFrom(0x3D5BDBD1, [0]) == 0x04DCBCD9
  {
    hide PolymodFrom;
    OneStep(0x3D5BDBD1, 0);
  }

  lemma PrefixLow()
    ensures PolymodFrom(0x04DCBCD9, [1, 2, 3, 4, 5, 6]) == 0x3BE80E6A
  {
    hide PolymodFrom;
    Unfolded(0x04DCBCD9, 1, 2, 3, 4, 5, 6);
    assert StepOf(0x04DCBCD9, 1) == 0x3DC7154C;
    assert StepOf(0x3DC7154C, 2) == 0x17456F7B;
    assert StepOf(0x17456F7B, 3) == 0x08D50561;
    assert StepOf(0x08D50561, 4) == 0x0401B5DE;
    assert StepOf(0x0401B5DE, 5) == 0x266635A8;
    assert StepOf(0x266635A8, 6) == 0x3BE80E6A;
  }

  lemma Symbols0()
    ensures PolymodFrom(0x3BE80E6A, [0, 1, 2, 3, 4, 5]) == 0x2FD98D2C
  {
    hide PolymodFrom;
    Unfolded(0x3BE80E6A, 0, 1, 2, 3, 4, 5);
    assert StepOf(0x3BE80E6A, 0) == 0x0F9CD266;
    assert StepOf(0x0F9CD266, 1) == 0x30018CE4;
    assert StepOf(0x30018CE4, 2) == 0x1767CDEC;
    assert StepOf(0x1767CDEC, 3) == 0x0C815781;
    assert StepOf(0x0C815781, 4) == 0x28DB67B3;
    assert StepOf(0x28DB67B3, 5) == 0x2FD98D2C;
  }

  lemma Symbols6()
    ensures PolymodFrom(0x2FD98D2C, [6, 7, 8, 9, 10, 11]) == 0x2F8CCEDD
  {
    hide PolymodFrom;
    Unfolded(0x2FD98D2C, 6, 7, 8, 9, 10, 11);
    assert StepOf(0x2FD98D2C, 6) == 0x12BE0710;
    assert StepOf(0x12BE0710, 7) == 0x11E88668;
    assert StepOf(0x11E88668, 8) == 0x0052FED5;
    assert StepOf(0x0052FED5, 9) == 0x0A5FDAA9;
    assert StepOf(0x0A5FDAA9, 10) == 0x2E301B62;
    assert StepOf(0x2E301B62, 11) == 0x2F8CCEDD;
  }

  lemma Symbols12()
    ensures PolymodFrom(0x2F8CCEDD, [12, 13, 14, 15, 16, 17]) == 0x0E08010D
  {
    hide PolymodFrom;
    Unfolded(0x2F8CCEDD, 12, 13, 14, 15, 16, 17);
    assert StepOf(0x2F8CCEDD, 12) == 0x1816793A;
    assert StepOf(0x1816793A, 13) == 0x212C0D6A;
    assert StepOf(0x212C0D6A, 14) == 0x0F95CFFD;
    assert StepOf(0x0F95CFFD, 15) == 0x31223F8A;
    assert StepOf(0x31223F8A, 16) == 0x3311A03E;
    assert StepOf(0x3311A03E, 17) == 0x0E08010D;
  }

  lemma Symbols18()
    ensures PolymodFrom(0x0E08010D, [18, 19, 20, 21, 22, 23]) == 0x297C48E0
  {
    hide PolymodFrom;
    Unfolded(0x0E08010D, 18, 19, 20, 21, 22, 23);
    assert StepOf(0x0E08010D, 18) == 0x029BE197;
    assert StepOf(0x029BE197, 19) == 0x28166541;
    assert StepOf(0x28166541, 20) == 0x3679D37D;
    assert StepOf(0x3679D37D, 21) == 0x0556E704;
    assert StepOf(0x0556E704, 22) == 0x0C8C6EFB;
    assert StepOf(0x0C8C6EFB, 23) == 0x297C48E0;
  }

  lemma Symbols24()
    ensures PolymodFrom(0x297C48E0, [24, 25, 26, 27, 28, 29]) == 0x2E07D307
  {
    hide PolymodFrom;
    Unfolded(0x297C48E0, 24, 25, 26, 27, 28, 29);
    assert StepOf(0x297C48E0, 24) == 0x1B3C6751;
    assert StepOf(0x1B3C6751, 25) == 0x3F0597AC;
    assert StepOf(0x3F0597AC, 26) == 0x347F64D1;
    assert StepOf(0x347F64D1, 27) == 0x3EEA4538;
    assert StepOf(0x3EEA4538, 28) == 0x09853657;
    assert StepOf(0x09853657, 29) == 0x2E07D307;
  }

  lemma Symbols30()
    ensures PolymodFrom(0x2E07D307, [30, 31, 27, 0, 0, 0]) == 0x0E8D5418
  {
    hide PolymodFrom;
    Unfolded(0x2E07D307, 30, 31, 27, 0, 0, 0);
    assert StepOf(0x2E07D307, 30) == 0x2975C268;
    assert StepOf(0x2975C268, 31) == 0x1A0D3656;
    assert StepOf(0x1A0D3656, 27) == 0x192FB74E;
    assert StepOf(0x192FB74E, 0) == 0x0615C3E7;
    assert StepOf(0x0615C3E7, 0) == 0x1F82A53F;
    assert StepOf(0x1F82A53F, 0) == 0x0E8D5418;
  }

  lemma Symbols36()
    ensures PolymodFrom(0x0E8D5418, [6, 14]) == 1
  {
    hide PolymodFrom;
    var six: seq<Word>, fourteen: seq<Word> := [6], [14];
    assert six + fourteen == [6, 14];
    PolymodJoined(0x0E8D5418, [6], [14]);
    OneStep(0x0E8D5418, 6);
    OneStep(0x12314323, 14);
    assert StepOf(0x0E8D5418, 6) == 0x12314323;
    assert StepOf(0x12314323, 14) == 1;
  }

  lemma PrefixIs()
    ensures HrpExpand("abcdef") == [3, 3, 3, 3, 3, 3] + [0] + [1, 2, 3, 4, 5, 6]
  {
    hide High, Low;
    LowOfLetter('a', 1);
    LowOfLetter('b', 2);
    LowOfLetter('c', 3);
    LowOfLetter('d', 4);
    LowOfLetter('e', 5);
    LowOfLetter('f', 6);
    var hrp := "abcdef";
    assert hrp[0] == 'a' && hrp[1] == 'b' && hrp[2] == 'c' && hrp[3] == 'd' && hrp[4] == 'e' && hrp[5] == 'f';
  }

  lemma LowOfLetter(c: char, n: nat)
    requires c as int == 96 + n && n < 32
    ensures High(c) == 3 && Low(c) == n as Word
  {
    assert c as int / 32 == 3 && c as int % 32 == n;
  }

  lemma PrefixReaches()
    ensures PolymodFrom(1, HrpExpand("abcdef")) == 0x3BE80E6A
  {
    hide PolymodFrom, HrpExpand;
    PrefixIs();
    PrefixHigh();
    PrefixZero();
    PrefixLow();
    PolymodJoined(1, [3, 3, 3, 3, 3, 3] + [0], [1, 2, 3, 4, 5, 6]);
    PolymodJoined(1, [3, 3, 3, 3, 3, 3], [0]);
  }

  function Front(n: nat): seq<Word>
    requires n <= 38
  {
    HrpExpand("abcdef") + Values((Counting() + SUM)[..n])
  }

  /** The next few symbols of the word. */
  lemma Onward(n: nat, symbols: seq<Symbol>, chk: Word, chk': Word)
    requires n + |symbols| <= 38 && (Counting() + SUM)[n..n + |symbols|] == symbols
    requires PolymodFrom(1, Front(n)) == chk && PolymodFrom(chk, Values(symbols)) == chk'
    ensures PolymodFrom(1, Front(n + |symbols|)) == chk'
  {
    hide PolymodFrom, HrpExpand, Values;
    var word, m := Counting() + SUM, n + |symbols|;
    assert word[..m] == word[..n] + symbols;
    ValuesJoined(word[..n], symbols);
    assert Front(m) == Front(n) + Values(symbols);
    PolymodJoined(1, Front(n), Values(symbols));
  }

  lemma ExampleVerifies()
    ensures VerifyChecksum("abcdef", Counting() + SUM)
  {
    hide PolymodFrom, HrpExpand, Values;
    var word: seq<Symbol> := Counting() + SUM;
    PrefixReaches();
    NoSymbols();
    ValuesOf0();
    Symbols0();
    Onward(0, [0, 1, 2, 3, 4, 5], 0x3BE80E6A, 0x2FD98D2C);
    ValuesOf6();
    Symbols6();
    Onward(6, [6, 7, 8, 9, 10, 11], 0x2FD98D2C, 0x2F8CCEDD);
    ValuesOf12();
    Symbols12();
    Onward(12, [12, 13, 14, 15, 16, 17], 0x2F8CCEDD, 0x0E08010D);
    ValuesOf18();
    Symbols18();
    Onward(18, [18, 19, 20, 21, 22, 23], 0x0E08010D, 0x297C48E0);
    ValuesOf24();
    Symbols24();
    Onward(24, [24, 25, 26, 27, 28, 29], 0x297C48E0, 0x2E07D307);
    ValuesOf30();
    Symbols30();
    Onward(30, [30, 31, 27, 0, 0, 0], 0x2E07D307, 0x0E8D5418);
    ValuesOf6And14();
    Symbols36();
    Onward(36, [6, 14], 0x0E8D5418, 1);
    assert word[..38] == word;
  }

  lemma NoSymbols()
    ensures Front(0) == HrpExpand("abcdef")
  {
  }

  lemma SixValues(a: Symbol, b: Symbol, c: Symbol, d: Symbol, e: Symbol, f: Symbol)
    ensures Values([a, b, c, d, e, f]) == [AsWord(a), AsWord(b), AsWord(c), AsWord(d), AsWord(e), AsWord(f)]
  {
    hide AsWord;
  }

  lemma TwoValues(a: Symbol, b: Symbol)
    ensures Values([a, b]) == [AsWord(a), AsWord(b)]
  {
    hide AsWord;
  }

  lemma ValuesOf0()
    ensures Values([0, 1, 2, 3, 4, 5]) == [0, 1, 2, 3, 4, 5]
  {
    SixValues(0, 1, 2, 3, 4, 5);
  }

  lemma ValuesOf6()
    ensures Values([6, 7, 8, 9, 10, 11]) == [6, 7, 8, 9, 10, 11]
  {
    SixValues(6, 7, 8, 9, 10, 11);
  }

  lemma ValuesOf12()
    ensures Values([12, 13, 14, 15, 16, 17]) == [12, 13, 14, 15, 16, 17]
  {
    SixValues(12, 13, 14, 15, 16, 17);
  }

  lemma ValuesOf18()
    ensures Values([18, 19, 20, 21, 22, 23]) == [18, 19, 20, 21, 22, 23]
  {
    SixValues(18, 19, 20, 21, 22, 23);
  }

  lemma ValuesOf24()
    ensures Values([24, 25, 26, 27, 28, 29]) == [24, 25, 26, 27, 28, 29]
  {
    SixValues(24, 25, 26, 27, 28, 29);
  }

  lemma ValuesOf30()
    ensures Values([30, 31, 27, 0, 0, 0]) == [30, 31, 27, 0, 0, 0]
  {
    SixValues(30, 31, 27, 0, 0, 0);
  }

  lemma ValuesOf6And14()
    ensures Values([6, 14]) == [6, 14]
  {
    TwoValues(6, 14);
  }

  const CHARS := "qpzry9x8gf2tvdw0s3jn54khce6mua7l"

  /** The string decodes to the symbols in order, and they are encoded as it. */
  lemma ExampleDecodes()
    ensures Encode("abcdef", Counting()) == "abcdef1" + "qpzry9x8gf2tvdw0s3jn54khce6mua7l" + "mqqqxw"
    ensures Decode("abcdef1" + "qpzry9x8gf2tvdw0s3jn54khce6mua7l" + "mqqqxw") == Success(("abcdef", Counting()))
  {
    hide PolymodFrom, HrpExpand, Values, Decode, Chars;
    ExampleVerifies();
    ChecksumExactly("abcdef", Counting(), SUM);
    ExampleChars();
    PrefixIsPlain();
    DecodeOfEncode("abcdef", Counting());
  }

  lemma ExampleChars()
    ensures Chars(Counting() + SUM) == "qpzry9x8gf2tvdw0s3jn54khce6mua7l" + "mqqqxw"
  {
    assert Chars(Counting()) == CHARS;
    assert Chars(SUM) == "mqqqxw";
    assert Chars(Counting() + SUM) == Chars(Counting()) + Chars(SUM);
  }

  lemma PrefixIsPlain()
    ensures LowerPrintable("abcdef")
  {
  }
}
