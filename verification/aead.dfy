/** ChaCha20-Poly1305 as section 2.8 of RFC 8439 builds it, with the nonce in front and the tag behind. */
module Aead {
  import opened Wrappers
  import opened ByteStrings
  import ChaCha20
  import Poly1305

  const NONCE_LEN := 12
  const TAG_LEN := 16

  /** One failure for a short value, another for everything a forger could try: which part was wrong is not told. */
  datatype Error = KeyNot32Bytes | TooShort | AuthenticationFailed

  function Pad16(data: Bytes): Bytes {
    Zeros(-|data| % 16)
  }

  function MacData(aad: Bytes, ciphertext: Bytes): Bytes {
    aad + Pad16(aad) + ciphertext + Pad16(ciphertext) + (ToLE(|aad|, 8) + ToLE(|ciphertext|, 8))
  }

  function Tag(otk: Bytes, aad: Bytes, ciphertext: Bytes): (tag: Bytes)
    requires |otk| == 32
    ensures |tag| == TAG_LEN
  {
    Poly1305.TagOf(otk, MacData(aad, ciphertext))
  }

  /** The first 32 bytes of the keystream, before those that encrypt. */
  function OneTimeKey(key: Bytes, nonce: Bytes): (otk: Bytes)
    requires ChaCha20.KeyAndNonce(key, nonce)
    ensures |otk| == 32
  {
    ChaCha20.Xored(key, nonce, Zeros(32), 0)
  }

  function SealWithNonce(key: Bytes, nonce: Bytes, plaintext: Bytes, aad: Bytes): (sealed: Bytes)
    requires ChaCha20.KeyAndNonce(key, nonce)
    ensures |sealed| == NONCE_LEN + |plaintext| + TAG_LEN
  {
    var ciphertext := ChaCha20.Xored(key, nonce, plaintext, 1);
    nonce + ciphertext + Tag(OneTimeKey(key, nonce), aad, ciphertext)
  }

  /** The nonce is drawn at random; here it is whatever was drawn. */
  function Seal(key: Bytes, nonce: Bytes, plaintext: Bytes, aad: Bytes): Result<Bytes, Error>
    requires |nonce| == NONCE_LEN
  {
    if |key| != 32 then Failure(KeyNot32Bytes) else Success(SealWithNonce(key, nonce, plaintext, aad))
  }

  function Open(key: Bytes, sealed: Bytes, aad: Bytes): Result<Bytes, Error> {
    if |key| != 32 then Failure(KeyNot32Bytes)
    else if |sealed| < NONCE_LEN + TAG_LEN then Failure(TooShort) else
    var nonce := sealed[..NONCE_LEN];
    var ciphertext := sealed[NONCE_LEN..|sealed| - TAG_LEN];
    var tag := sealed[|sealed| - TAG_LEN..];
    if Tag(OneTimeKey(key, nonce), aad, ciphertext) != tag then Failure(AuthenticationFailed)
    else Success(ChaCha20.Xored(key, nonce, ciphertext, 1))
  }

  // ----- what a sealed value is, byte for byte

  /** The byte that encrypts byte `i`, from the blocks at counters 1, 2 and so on. */
  function StreamByte(key: Bytes, nonce: Bytes, i: nat): byte
    requires |key| == 32 && |nonce| == 12
  {
    ChaCha20.BlockOf(key, ChaCha20.CounterFor(i), nonce)[i % 64]
  }

  /** Every plaintext byte against its own byte of those blocks. */
  ghost predicate Encrypts(key: Bytes, nonce: Bytes, plaintext: Bytes, ciphertext: Bytes)
    requires |key| == 32 && |nonce| == 12
  {
    && |ciphertext| == |plaintext|
    && forall i :: 0 <= i < |plaintext| ==> ciphertext[i] == ChaCha20.XorByte(plaintext[i], StreamByte(key, nonce, i))
  }

  /** The one-time key is the first half of the block at counter 0. */
  lemma OneTimeKeyIs(key: Bytes, nonce: Bytes)
    requires |key| == 32 && |nonce| == 12
    ensures OneTimeKey(key, nonce) == ChaCha20.BlockOf(key, 0, nonce)[..32]
  {
    hide ChaCha20.BlockOf, ChaCha20.XorByte;
    var block := ChaCha20.BlockOf(key, 0, nonce);
    forall i | 0 <= i < 32 ensures OneTimeKey(key, nonce)[i] == block[i] {
      assert i / 64 == 0 && i % 64 == i;
      ZeroKeeps(block[i]);
    }
  }

  lemma ZeroKeeps(b: byte)
    ensures ChaCha20.XorByte(0, b) == b
  {
  }

  /** Where the next multiple of sixteen is. */
  function Up16(n: nat): nat {
    16 * ((n + 15) / 16)
  }

  /** What the tag covers: each part with zeros up to a multiple of sixteen, then both lengths in eight bytes each. */
  lemma MacDataIs(aad: Bytes, ciphertext: Bytes)
    ensures var m, a, c := MacData(aad, ciphertext), Up16(|aad|), Up16(|ciphertext|);
            && |m| == a + c + 16
            && m[..|aad|] == aad && (forall i :: |aad| <= i < a ==> m[i] == 0)
            && m[a..a + |ciphertext|] == ciphertext && (forall i :: a + |ciphertext| <= i < a + c ==> m[i] == 0)
            && m[a + c..a + c + 8] == ToLE(|aad|, 8) && m[a + c + 8..] == ToLE(|ciphertext|, 8)
  {
    hide ToLE;
    PaddedLength(aad);
    PaddedLength(ciphertext);
  }

  lemma PaddedLength(data: Bytes)
    ensures |data| + |Pad16(data)| == Up16(|data|)
  {
  }

  /** A sealed value: the nonce, the ciphertext, and a tag under a key from the block at counter 0. */
  lemma SealIs(key: Bytes, nonce: Bytes, plaintext: Bytes, aad: Bytes, ciphertext: Bytes)
    requires |key| == 32 && |nonce| == 12 && Encrypts(key, nonce, plaintext, ciphertext)
    ensures SealWithNonce(key, nonce, plaintext, aad)
         == nonce + ciphertext + Poly1305.TagOf(ChaCha20.BlockOf(key, 0, nonce)[..32], MacData(aad, ciphertext))
  {
    hide ChaCha20.BlockOf, Encrypts, ChaCha20.Xored, Tag, MacData, OneTimeKey;
    OneTimeKeyIs(key, nonce);
    EncryptsFromOne(key, nonce, plaintext);
    EncryptsOneWay(key, nonce, plaintext, ciphertext, ChaCha20.Xored(key, nonce, plaintext, 1));
    TagIs(OneTimeKey(key, nonce), aad, ciphertext);
  }

  lemma StartsWithNonce(key: Bytes, nonce: Bytes, plaintext: Bytes, aad: Bytes)
    requires |key| == 32 && |nonce| == 12
    ensures nonce <= SealWithNonce(key, nonce, plaintext, aad)
  {
    hide ChaCha20.Xored, Tag, OneTimeKey;
  }

  lemma EncryptsOneWay(key: Bytes, nonce: Bytes, plaintext: Bytes, c: Bytes, d: Bytes)
    requires |key| == 32 && |nonce| == 12
    requires Encrypts(key, nonce, plaintext, c) && Encrypts(key, nonce, plaintext, d)
    ensures c == d
  {
    hide StreamByte, ChaCha20.XorByte;
  }

  lemma EncryptsFromOne(key: Bytes, nonce: Bytes, plaintext: Bytes)
    requires |key| == 32 && |nonce| == 12
    ensures Encrypts(key, nonce, plaintext, ChaCha20.Xored(key, nonce, plaintext, 1))
  {
    hide ChaCha20.BlockOf, ChaCha20.XorByte;
  }

  lemma TagIs(otk: Bytes, aad: Bytes, ciphertext: Bytes)
    requires |otk| == 32
    ensures Tag(otk, aad, ciphertext) == Poly1305.TagOf(otk, MacData(aad, ciphertext))
  {
  }

  /**
   None of the blocks that encrypt starts from the state of the block that made the one-time key, exactly
   when the plaintext is not too long for the counter.
   */
  lemma KeyBlockIsNotReused(key: Bytes, nonce: Bytes, plaintext: Bytes, aad: Bytes)
    requires |key| == 32 && |nonce| == 12
    ensures exists ciphertext ::
              && Encrypts(key, nonce, plaintext, ciphertext)
              && SealWithNonce(key, nonce, plaintext, aad)[12..12 + |plaintext|] == ciphertext
    ensures OneTimeKey(key, nonce) == ChaCha20.BlockOf(key, 0, nonce)[..32]
    ensures (forall i: nat :: i < |plaintext| ==>
               ChaCha20.InitialState(key, ChaCha20.CounterFor(i), nonce) != ChaCha20.InitialState(key, 0, nonce))
       <==> |plaintext| <= 64 * 0xFFFF_FFFF
  {
    hide ChaCha20.InitialState, OneTimeKey, Encrypts, ChaCha20.BlockOf, ChaCha20.Xored, Tag;
    OneTimeKeyIs(key, nonce);
    EncryptsFromOne(key, nonce, plaintext);
    var ciphertext := ChaCha20.Xored(key, nonce, plaintext, 1);
    MiddleOf(nonce, ciphertext, Tag(OneTimeKey(key, nonce), aad, ciphertext));
    ChaCha20.StatesApart(key, nonce, |plaintext|);
  }

  lemma MiddleOf(a: Bytes, b: Bytes, c: Bytes)
    ensures (a + b + c)[|a|..|a| + |b|] == b
  {
  }

  /** Which of the three errors, if any. */
  lemma RefusedExactly(key: Bytes, sealed: Bytes, aad: Bytes)
    ensures Open(key, sealed, aad) == Failure(KeyNot32Bytes) <==> |key| != 32
    ensures Open(key, sealed, aad) == Failure(TooShort) <==> |key| == 32 && |sealed| < 28
  {
    hide Tag, OneTimeKey, ChaCha20.Xored;
  }

  /** Opening recovers what was sealed, for every plaintext and all associated data. */
  lemma OpenOfSeal(key: Bytes, nonce: Bytes, plaintext: Bytes, aad: Bytes)
    requires ChaCha20.KeyAndNonce(key, nonce)
    ensures Open(key, SealWithNonce(key, nonce, plaintext, aad), aad) == Success(plaintext)
  {
    hide Tag, OneTimeKey, ChaCha20.Xored;
    var sealed := SealWithNonce(key, nonce, plaintext, aad);
    var ciphertext := ChaCha20.Xored(key, nonce, plaintext, 1);
    assert sealed[..NONCE_LEN] == nonce;
    assert sealed[NONCE_LEN..|sealed| - TAG_LEN] == ciphertext;
    assert sealed[|sealed| - TAG_LEN..] == Tag(OneTimeKey(key, nonce), aad, ciphertext);
    ChaCha20.XoredTwice(key, nonce, plaintext, 1);
  }

  /** Sealing under a 32-byte key gives something that opens to the plaintext; under any other both refuse. */
  lemma SealedOpens(key: Bytes, nonce: Bytes, plaintext: Bytes, aad: Bytes)
    requires |nonce| == NONCE_LEN
    ensures match Seal(key, nonce, plaintext, aad)
            case Success(sealed) => |key| == 32 && Open(key, sealed, aad) == Success(plaintext)
            case Failure(e) =>
              && |key| != 32 && e == KeyNot32Bytes
              && forall sealed :: Open(key, sealed, aad) == Failure(KeyNot32Bytes)
  {
    hide SealWithNonce, Tag, OneTimeKey, ChaCha20.Xored;
    if |key| == 32 {
      OpenOfSeal(key, nonce, plaintext, aad);
    }
  }

  /** A value opens exactly when it is what sealing would have made of the result, under its own first twelve bytes. */
  lemma OpensExactly(key: Bytes, sealed: Bytes, aad: Bytes, plaintext: Bytes)
    requires |key| == 32
    ensures Open(key, sealed, aad) == Success(plaintext) <==>
            |sealed| >= NONCE_LEN + TAG_LEN && sealed == SealWithNonce(key, sealed[..NONCE_LEN], plaintext, aad)
  {
    hide Tag, OneTimeKey, ChaCha20.Xored;
    if |sealed| >= NONCE_LEN + TAG_LEN {
      var nonce := sealed[..NONCE_LEN];
      var ciphertext := sealed[NONCE_LEN..|sealed| - TAG_LEN];
      if Open(key, sealed, aad) == Success(plaintext) {
        ChaCha20.XoredTwice(key, nonce, ciphertext, 1);
        assert sealed == nonce + ciphertext + sealed[|sealed| - TAG_LEN..];
      }
      if sealed == SealWithNonce(key, nonce, plaintext, aad) {
        OpenOfSeal(key, nonce, plaintext, aad);
      }
    }
  }

  lemma LengthsInjective(n: nat, m: nat)
    requires n < Pow(256, 8) && m < Pow(256, 8) && ToLE(n, 8) == ToLE(m, 8)
    ensures n == m
  {
    FromLEOfToLE(n, 8);
    FromLEOfToLE(m, 8);
  }

  /** What the tag covers determines both parts: the boundary between them cannot be moved. */
  lemma MacDataInjective(a: Bytes, c: Bytes, a': Bytes, c': Bytes)
    requires |a| < Pow(256, 8) && |c| < Pow(256, 8) && |a'| < Pow(256, 8) && |c'| < Pow(256, 8)
    requires MacData(a, c) == MacData(a', c')
    ensures a == a' && c == c'
  {
    hide Pow, ToLE;
    var m, m' := MacData(a, c), MacData(a', c');
    assert m[|m| - 16..|m| - 8] == ToLE(|a|, 8) && m[|m| - 8..] == ToLE(|c|, 8);
    assert m'[|m'| - 16..|m'| - 8] == ToLE(|a'|, 8) && m'[|m'| - 8..] == ToLE(|c'|, 8);
    LengthsInjective(|a|, |a'|);
    LengthsInjective(|c|, |c'|);
    var at := |a| + |Pad16(a)|;
    assert m[..|a|] == a && m'[..|a|] == a';
    assert m[at..at + |c|] == c && m'[at..at + |c|] == c';
  }

  /** So two different pairs give the authenticator two different polynomials. */
  lemma AuthenticatedPairsDiffer(a: Bytes, c: Bytes, a': Bytes, c': Bytes)
    requires |a| < Pow(256, 8) && |c| < Pow(256, 8) && |a'| < Pow(256, 8) && |c'| < Pow(256, 8)
    ensures Poly1305.BlocksOf(MacData(a, c)) == Poly1305.BlocksOf(MacData(a', c')) <==> a == a' && c == c'
  {
    hide MacData, Poly1305.BlocksOf, Pow;
    if Poly1305.BlocksOf(MacData(a, c)) == Poly1305.BlocksOf(MacData(a', c')) {
      Poly1305.BlocksInjective(MacData(a, c), MacData(a', c'));
      MacDataInjective(a, c, a', c');
    }
  }
}
