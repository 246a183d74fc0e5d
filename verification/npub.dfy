/** Bech32 strings, and the public keys written as them. */
module Npub {
  import opened Wrappers
  import opened ByteStrings
  import opened Bech32Checksum
  import opened BitGroups

  datatype Error =
    | InvalidCharacter | MixedCase | NoSeparator | InvalidDataCharacter | InvalidChecksum
    | NotAnNpub | NotThirtyTwoBytes

  const CHARSET := "qpzry9x8gf2tvdw0s3jn54khce6mua7l"

  function CharOf(d: Symbol): char {
    CHARSET[d]
  }

  function IndexFrom(c: char, i: nat): (d: Option<Symbol>)
    requires i <= 32
    ensures d.Some? ==> CHARSET[d.value] == c
    ensures d.None? ==> forall j :: i <= j < 32 ==> CHARSET[j] != c
    decreases 32 - i
  {
    if i == 32 then None else if CHARSET[i] == c then Some(i) else IndexFrom(c, i + 1)
  }

  function Chars(data: seq<Symbol>): (s: string)
    ensures |s| == |data|
  {
    seq(|data|, i requires 0 <= i < |data| => CharOf(data[i]))
  }

  /** The symbols of a string, if every character is in the set. */
  function Symbols(s: string): (r: Option<seq<Symbol>>)
    ensures r.Some? ==> |r.value| == |s|
  {
    if s == "" then Some([]) else
    match IndexFrom(s[0], 0)
    case None => None
    case Some(d) =>
      match Symbols(s[1..])
      case None => None
      case Some(rest) => Some([d] + rest)
  }

  predicate Printable(s: string) {
    forall i :: 0 <= i < |s| ==> 33 as char <= s[i] <= 126 as char
  }

  function LowerChar(c: char): char {
    if 'A' <= c <= 'Z' then c + 32 as char else c
  }

  function UpperChar(c: char): char {
    if 'a' <= c <= 'z' then c - 32 as char else c
  }

  function Lower(s: string): (t: string)
    ensures |t| == |s|
  {
    seq(|s|, i requires 0 <= i < |s| => LowerChar(s[i]))
  }

  function Upper(s: string): string {
    seq(|s|, i requires 0 <= i < |s| => UpperChar(s[i]))
  }

  predicate OneCase(s: string) {
    Lower(s) == s || Upper(s) == s
  }

  function LastIndexOf(s: string, c: char): (p: int)
    ensures -1 <= p < |s|
    ensures p >= 0 ==> s[p] == c
    ensures forall i :: p < i < |s| ==> s[i] != c
  {
    if s == "" then -1
    else if s[|s| - 1] == c then |s| - 1
    else LastIndexOf(s[..|s| - 1], c)
  }

  function Encode(hrp: string, data: seq<Symbol>): string {
    hrp + "1" + Chars(data + CreateChecksum(hrp, data))
  }

  /** The part of decoding that starts from a lower-case string. */
  function DecodeLower(s: string): Result<(string, seq<Symbol>), Error> {
    var pos := LastIndexOf(s, '1');
    if pos < 1 || pos + 7 > |s| then Failure(NoSeparator) else
    var hrp := s[..pos];
    match Symbols(s[pos + 1..])
    case None => Failure(InvalidDataCharacter)
    case Some(data) =>
      if !VerifyChecksum(hrp, data) then Failure(InvalidChecksum)
      else Success((hrp, data[..|data| - 6]))
  }

  function Decode(s: string): Result<(string, seq<Symbol>), Error> {
    if !Printable(s) then Failure(InvalidCharacter)
    else if !OneCase(s) then Failure(MixedCase)
    else DecodeLower(Lower(s))
  }

  // ----- the character set

  function Place(c: char): int {
    match c
    case 'q' => 0 case 'p' => 1 case 'z' => 2 case 'r' => 3
    case 'y' => 4 case '9' => 5 case 'x' => 6 case '8' => 7
    case 'g' => 8 case 'f' => 9 case '2' => 10 case 't' => 11
    case 'v' => 12 case 'd' => 13 case 'w' => 14 case '0' => 15
    case 's' => 16 case '3' => 17 case 'j' => 18 case 'n' => 19
    case '5' => 20 case '4' => 21 case 'k' => 22 case 'h' => 23
    case 'c' => 24 case 'e' => 25 case '6' => 26 case 'm' => 27
    case 'u' => 28 case 'a' => 29 case '7' => 30 case 'l' => 31
    case _ => -1
  }

  lemma PlaceOfChar(d: Symbol)
    ensures Place(CharOf(d)) == d
  {
  }

  /** No character stands for two symbols. */
  lemma IndexOfChar(d: Symbol)
    ensures IndexFrom(CharOf(d), 0) == Some(d)
  {
    var found := IndexFrom(CharOf(d), 0);
    PlaceOfChar(d);
    if found.Some? {
      PlaceOfChar(found.value);
    }
  }

  lemma CharsAreLowerAndNotOne(d: Symbol)
    ensures var c := CharOf(d);
            33 as char <= c <= 126 as char && LowerChar(c) == c && c != '1'
  {
  }

  lemma {:induction false} SymbolsOfChars(data: seq<Symbol>)
    ensures Symbols(Chars(data)) == Some(data)
  {
    hide CharOf, IndexFrom;
    if data != [] {
      IndexOfChar(data[0]);
      SymbolsOfChars(data[1..]);
      assert Chars(data)[0] == CharOf(data[0]) && Chars(data)[1..] == Chars(data[1..]);
      assert [data[0]] + data[1..] == data;
    }
  }

  lemma {:induction false} CharsOfSymbols(s: string)
    ensures Symbols(s).Some? ==> Chars(Symbols(s).value) == s
  {
    if s != "" {
      CharsOfSymbols(s[1..]);
    }
  }

  lemma LastIndexIs(s: string, c: char, n: nat)
    requires n < |s| && s[n] == c && forall i :: n < i < |s| ==> s[i] != c
    ensures LastIndexOf(s, c) == n
  {
    hide LastIndexOf;
  }

  /** From a lower-case string: decoding succeeds on exactly the encodings, and gives back what was encoded. */
  lemma DecodeLowerExactly(s: string, hrp: string, data: seq<Symbol>)
    ensures DecodeLower(s) == Success((hrp, data)) <==> hrp != "" && s == Encode(hrp, data)
  {
    hide CreateChecksum, VerifyChecksum, Symbols, Chars;
    if hrp != "" && s == Encode(hrp, data) {
      var word := data + CreateChecksum(hrp, data);
      ChecksumExactly(hrp, data, CreateChecksum(hrp, data));
      SymbolsOfChars(word);
      OneIsNoSymbol(word);
      assert s[..|hrp|] == hrp && s[|hrp| + 1..] == Chars(word);
      assert s[|hrp|] == '1' && forall i :: |hrp| < i < |s| ==> s[i] in Chars(word);
      LastIndexIs(s, '1', |hrp|);
      assert word[..|word| - 6] == data;
    }
    if DecodeLower(s) == Success((hrp, data)) {
      var pos := LastIndexOf(s, '1');
      var word := Symbols(s[pos + 1..]).value;
      CharsOfSymbols(s[pos + 1..]);
      assert word == data + word[|word| - 6..];
      ChecksumExactly(hrp, data, word[|word| - 6..]);
      assert s == s[..pos] + "1" + s[pos + 1..];
    }
  }

  lemma OneIsNoSymbol(data: seq<Symbol>)
    ensures '1' !in Chars(data)
  {
    hide CharOf;
    forall i | 0 <= i < |data| ensures Chars(data)[i] != '1' {
      CharsAreLowerAndNotOne(data[i]);
    }
  }

  /** Decoding succeeds on exactly the printable strings of one case that are, in lower case, an encoding. */
  lemma DecodesExactly(s: string, hrp: string, data: seq<Symbol>)
    ensures Decode(s) == Success((hrp, data)) <==>
            Printable(s) && OneCase(s) && hrp != "" && Lower(s) == Encode(hrp, data)
  {
    hide DecodeLower, Encode;
    DecodeLowerExactly(Lower(s), hrp, data);
  }

  predicate LowerPrintable(s: string) {
    Printable(s) && Lower(s) == s
  }

  lemma EncodeIsLowerPrintable(hrp: string, data: seq<Symbol>)
    requires LowerPrintable(hrp)
    ensures LowerPrintable(Encode(hrp, data))
  {
    hide CharOf, CreateChecksum;
    var word := data + CreateChecksum(hrp, data);
    var s := Encode(hrp, data);
    forall i | 0 <= i < |s| ensures 33 as char <= s[i] <= 126 as char && LowerChar(s[i]) == s[i] {
      if i < |hrp| {
        assert s[i] == hrp[i] && Lower(hrp)[i] == hrp[i];
      } else if i > |hrp| {
        assert s[i] == CharOf(word[i - |hrp| - 1]);
        CharsAreLowerAndNotOne(word[i - |hrp| - 1]);
      } else {
        assert s[i] == '1';
      }
    }
  }

  /** Decoding inverts encoding, for every non-empty printable lower-case prefix and all data. */
  lemma DecodeOfEncode(hrp: string, data: seq<Symbol>)
    requires hrp != "" && LowerPrintable(hrp)
    ensures Decode(Encode(hrp, data)) == Success((hrp, data))
  {
    hide Encode, Decode;
    EncodeIsLowerPrintable(hrp, data);
    DecodesExactly(Encode(hrp, data), hrp, data);
  }

  /** Some letter is upper case and some letter is lower case. */
  predicate Mixed(s: string) {
    (exists i :: 0 <= i < |s| && 'A' <= s[i] <= 'Z') && (exists j :: 0 <= j < |s| && 'a' <= s[j] <= 'z')
  }

  /** `t` with its letters in lower case, character by character. */
  predicate IsLowerOf(t: string, s: string) {
    && |t| == |s|
    && forall i :: 0 <= i < |s| ==> t[i] as int == s[i] as int + if 'A' <= s[i] <= 'Z' then 32 else 0
  }

  lemma LowerIs(s: string, t: string)
    ensures t == Lower(s) <==> IsLowerOf(t, s)
  {
    if IsLowerOf(t, s) {
      assert t == Lower(s);
    }
  }

  lemma OneCaseIsNotMixed(s: string)
    ensures OneCase(s) <==> !Mixed(s)
  {
    if Lower(s) == s {
      assert forall i :: 0 <= i < |s| ==> s[i] == LowerChar(s[i]);
    } else if Upper(s) == s {
      assert forall i :: 0 <= i < |s| ==> s[i] == UpperChar(s[i]);
    } else {
      var i :| 0 <= i < |s| && Lower(s)[i] != s[i];
      var j :| 0 <= j < |s| && Upper(s)[j] != s[j];
      assert 'A' <= s[i] <= 'Z' && 'a' <= s[j] <= 'z';
    }
  }

  /** What decodes, by its characters: from 33 to 126, no two cases, and in lower case the encoding. */
  lemma DecodesByCharacter(s: string, hrp: string, data: seq<Symbol>)
    ensures Decode(s) == Success((hrp, data)) <==>
            && (forall i :: 0 <= i < |s| ==> 33 <= s[i] as int <= 126) && !Mixed(s)
            && hrp != "" && IsLowerOf(Encode(hrp, data), s)
    ensures Decode(s) == Failure(InvalidCharacter) <==> exists i :: 0 <= i < |s| && !(33 <= s[i] as int <= 126)
    ensures Decode(s) == Failure(MixedCase) <==> (forall i :: 0 <= i < |s| ==> 33 <= s[i] as int <= 126) && Mixed(s)
  {
    hide Encode, Mixed, OneCase, Lower, IsLowerOf, DecodeLower;
    DecodesExactly(s, hrp, data);
    LowerIs(s, Encode(hrp, data));
    OneCaseIsNotMixed(s);
    LowerFails(Lower(s));
  }

  lemma LowerFails(s: string)
    ensures DecodeLower(s) != Failure(InvalidCharacter) && DecodeLower(s) != Failure(MixedCase)
  {
  }

  // ----- public keys

  function AllSymbols(xs: seq<nat>): (data: seq<Symbol>)
    requires Below(xs, 32)
    ensures data == xs
  {
    seq(|xs|, i requires 0 <= i < |xs| => xs[i])
  }

  function EncodeNpub(pubkey: Bytes): Result<string, Error> {
    if |pubkey| != 32 then Failure(NotThirtyTwoBytes) else
    BytesRegroup(pubkey);
    Success(Encode("npub", AllSymbols(Regrouped(pubkey, 8, 5, true).value)))
  }

  function DecodeNpub(s: string): Result<Bytes, Error> {
    match Decode(s)
    case Failure(e) => Failure(e)
    case Success((hrp, data)) =>
      if hrp != "npub" then Failure(NotAnNpub) else
      match Regrouped(data, 5, 8, false)
      case None => Failure(NotThirtyTwoBytes)
      case Some(decoded) =>
        if |decoded| != 32 then Failure(NotThirtyTwoBytes) else
        RegroupedBelow(data);
        Success(decoded)
  }

  /** A key is decoded from exactly its own encoding, in either case. */
  lemma DecodeNpubExactly(s: string, k: Bytes)
    ensures DecodeNpub(s) == Success(k) <==>
            |k| == 32 && Printable(s) && OneCase(s) && EncodeNpub(k) == Success(Lower(s))
  {
    hide Decode, Encode, Regrouped;
    if |k| == 32 {
      BytesRegroup(k);
      var data := AllSymbols(Regrouped(k, 8, 5, true).value);
      RegroupingIsABijection(k, data);
      DecodesExactly(s, "npub", data);
    }
    if DecodeNpub(s) == Success(k) {
      var data := Decode(s).value.1;
      RegroupingIsABijection(k, data);
      DecodesExactly(s, "npub", data);
    }
  }

  /** Hence decoding inverts encoding for every 32-byte key, and nothing else encodes or decodes. */
  lemma NpubRoundTrip(k: Bytes)
    ensures |k| == 32 ==> EncodeNpub(k).Success? && DecodeNpub(EncodeNpub(k).value) == Success(k)
    ensures |k| != 32 ==> EncodeNpub(k) == Failure(NotThirtyTwoBytes)
  {
    hide DecodeNpub, Encode, Regrouped, Printable;
    if |k| == 32 {
      BytesRegroup(k);
      var s := EncodeNpub(k).value;
      NpubIsPlain();
      EncodeIsLowerPrintable("npub", AllSymbols(Regrouped(k, 8, 5, true).value));
      DecodeNpubExactly(s, k);
    }
  }

  /** A written key: the prefix of NIP-19, and sixty-three characters in all. */
  lemma NpubLooks(k: Bytes)
    requires |k| == 32
    ensures var s := EncodeNpub(k).value;
            && EncodeNpub(k).Success? && |s| == 63
            && s[0] == 'n' && s[1] == 'p' && s[2] == 'u' && s[3] == 'b' && s[4] == '1'
  {
    hide CreateChecksum, Chars, Regrouped;
    BytesRegroup(k);
    RegroupedLength(k);
  }

  lemma RegroupedLength(k: Bytes)
    requires |k| == 32
    ensures Regrouped(k, 8, 5, true).Some? && |Regrouped(k, 8, 5, true).value| == 52
  {
    hide Digits, FromBE, Pow;
    EightToFive(k);
  }

  /** A string that decodes under another prefix, or to another length, is refused as such. */
  lemma NpubRefusedExactly(s: string)
    requires Decode(s).Success?
    ensures DecodeNpub(s) == Failure(NotAnNpub) <==> Decode(s).value.0 != ['n', 'p', 'u', 'b']
    ensures DecodeNpub(s).Failure? ==> DecodeNpub(s).error == NotAnNpub || DecodeNpub(s).error == NotThirtyTwoBytes
  {
    hide Decode, Regrouped;
    assert "npub" == ['n', 'p', 'u', 'b'];
  }

  lemma NpubIsPlain()
    ensures LowerPrintable("npub")
  {
  }
}
