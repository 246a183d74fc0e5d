/** Padding, key expansion and the envelope of NIP-44 version 2, over abstract HMAC, base64 and UTF-8. */
module Nip44 {
  import opened Wrappers
  import opened Sequences
  import opened ByteStrings
  import opened Arithmetic
  import opened BitGroups
  import ChaCha20

  const EXTENDED_PREFIX_THRESHOLD: nat := 65536
  const MAX_PLAINTEXT_SIZE: nat := 0xFFFF_FFFF

  datatype Error =
    | InvalidKeyLength | InvalidNonceLength | InvalidPlaintext | UnsupportedVersion | InvalidPayload
    | InvalidMac | InvalidPadding | NotUtf8

  // ----- padded lengths

  function FloorLog2(n: nat): nat
    requires n >= 1
  {
    if n == 1 then 0 else 1 + FloorLog2(n / 2)
  }

  lemma {:induction false} FloorLog2Is(n: nat)
    requires n >= 1
    ensures Pow(2, FloorLog2(n)) <= n < 2 * Pow(2, FloorLog2(n))
  {
    if n > 1 {
      FloorLog2Is(n / 2);
    }
  }

  lemma {:induction false} LogUnique(n: nat, k: nat)
    requires n >= 1 && Pow(2, k) <= n < 2 * Pow(2, k)
    ensures FloorLog2(n) == k
    decreases n
  {
    if n > 1 && k > 0 {
      LogUnique(n / 2, k - 1);
    }
  }

  /** The power of two the padding is a fraction of. */
  function NextPower(n: nat): nat
    requires n > 32
  {
    Pow(2, FloorLog2(n - 1) + 1)
  }

  function ChunkFor(n: nat): (chunk: nat)
    requires n > 32
    ensures chunk > 0
  {
    PowerSplits(n);
    if NextPower(n) <= 256 then 32 else NextPower(n) / 8
  }

  function PaddedLen(n: nat): nat {
    if n <= 32 then 32 else
    var chunk := ChunkFor(n);
    chunk * (Quot(n - 1, chunk) + 1)
  }

  /** A length lies in the upper half of its power, and the chunk divides that power. */
  lemma PowerSplits(n: nat)
    requires n > 32
    ensures var p := NextPower(n);
            && p >= 64 && p % 32 == 0 && p < 2 * n <= 2 * p
            && (p > 256 ==> p % 256 == 0)
  {
    hide Pow;
    var k := FloorLog2(n - 1);
    FloorLog2Is(n - 1);
    Doubled(k);
    PowersOfTwo();
    if k < 5 {
      PowGrows(2, k + 1, 5);
    } else {
      Divided(k + 1, 5);
      PowGrows(2, 6, k + 1);
      if k < 8 {
        PowGrows(2, k + 1, 8);
      } else {
        Divided(k + 1, 8);
      }
    }
  }

  lemma Doubled(k: nat)
    ensures Pow(2, k + 1) == 2 * Pow(2, k)
  {
  }

  lemma Divided(k: nat, d: nat)
    requires d <= k && (d == 5 || d == 8)
    ensures Pow(2, k) % Pow(2, d) == 0 && Pow(2, d) == if d == 5 then 32 else 256
  {
    hide Pow;
    PowersOfTwo();
    PowAdd(2, d, k - d);
  }

  lemma PowersOfTwo()
    ensures Pow(2, 5) == 32 && Pow(2, 6) == 64 && Pow(2, 8) == 256
  {
    Powers();
    assert Pow(2, 6) == 2 * Pow(2, 5);
  }

  /** What a length above 32 is padded to, in terms of its chunk. */
  lemma ChunkFacts(n: nat)
    requires n > 32
    ensures var p, c, q := NextPower(n), ChunkFor(n), Quot(n - 1, ChunkFor(n));
            && c % 32 == 0 && (c == 32 || (8 * c == p && p < 2 * n))
            && PaddedLen(n) == q * c + c && n <= q * c + c < n + c && q * c + c <= p
  {
    hide NextPower, Quot, Rem, ChunkFor;
    var c := ChunkFor(n);
    ChunkIs(n);
    var m := ChunkDivides(n);
    var q := Quot(n - 1, c);
    DivMod(n - 1, c);
    QuotientBelow(n - 1, c, m);
    MulMonotone(q + 1, m, c);
    MulDistributes(q, 1, c);
    Commutes(c, q + 1);
  }

  lemma Commutes(a: int, b: int)
    ensures a * b == b * a
  {
  }

  lemma ChunkIs(n: nat)
    requires n > 32
    ensures var p, c := NextPower(n), ChunkFor(n);
            && p % 32 == 0 && n <= p < 2 * n && c % 32 == 0
            && (if p <= 256 then c == 32 else 8 * c == p)
  {
    hide NextPower;
    PowerSplits(n);
  }

  lemma ChunkDivides(n: nat) returns (m: nat)
    requires n > 32
    ensures NextPower(n) == m * ChunkFor(n)
  {
    hide NextPower, ChunkFor;
    ChunkIs(n);
    m := if NextPower(n) <= 256 then NextPower(n) / 32 else 8;
  }

  lemma MultipleOf32(q: nat, c: nat)
    requires c % 32 == 0
    ensures (q * c + c) % 32 == 0
  {
    var d := c / 32;
    assert c == 32 * d;
    MulSwaps(q, 32, d);
    assert q * c + c == 32 * (q * d + d);
  }

  /** Long enough, in whole blocks of 32, and with less than a quarter added, or less than 32. */
  lemma PaddedLenBounds(n: nat)
    requires n >= 1
    ensures n <= PaddedLen(n) && PaddedLen(n) % 32 == 0
    ensures 4 * (PaddedLen(n) - n) < if n < 128 then 128 else n
  {
    hide NextPower, ChunkFor, Quot, PaddedLen;
    if n > 32 {
      ChunkFacts(n);
      MultipleOf32(Quot(n - 1, ChunkFor(n)), ChunkFor(n));
    } else {
      ShortPads(n);
    }
  }

  lemma ShortPads(n: nat)
    requires n <= 32
    ensures PaddedLen(n) == 32
  {
  }

  /** Lengths between a length and its power are padded by the same chunk. */
  lemma SamePower(n: nat, m: nat)
    requires 32 < n <= m <= NextPower(n)
    ensures NextPower(m) == NextPower(n) && ChunkFor(m) == ChunkFor(n)
  {
    var k := FloorLog2(n - 1);
    FloorLog2Is(n - 1);
    Doubled(k);
    LogUnique(m - 1, k);
  }

  /** A padded length is its own padded length. */
  lemma PaddedLenIdempotent(n: nat)
    ensures PaddedLen(PaddedLen(n)) == PaddedLen(n)
  {
    hide NextPower, Quot, Rem, FloorLog2;
    if n > 32 {
      ChunkFacts(n);
      var c, q := ChunkFor(n), Quot(n - 1, ChunkFor(n));
      SamePower(n, PaddedLen(n));
      DivModUnique(q * c + c - 1, c, q, c - 1);
      ChunkFacts(PaddedLen(n));
    }
  }

  lemma PaddedLenMonotone(n: nat, m: nat)
    requires n <= m
    ensures PaddedLen(n) <= PaddedLen(m)
  {
    hide NextPower, Quot, ChunkFor, PaddedLen;
    if m <= 32 {
      ShortPads(n);
      ShortPads(m);
    } else if n <= 32 {
      ShortPads(n);
      ChunkFacts(m);
    } else {
      ChunkFacts(n);
      ChunkFacts(m);
      if m <= NextPower(n) {
        SamePower(n, m);
        var c := ChunkFor(n);
        QuotMonotone(n - 1, m - 1, c);
        MulMonotone(Quot(n - 1, c), Quot(m - 1, c), c);
      }
    }
  }

  lemma QuotMonotone(a: nat, b: nat, c: nat)
    requires a <= b && c > 0
    ensures Quot(a, c) <= Quot(b, c)
  {
    hide Quot, Rem;
    DivMod(a, c);
    DivMod(b, c);
    MulDistributes(Quot(b, c), 1, c);
    if Quot(b, c) < Quot(a, c) {
      MulMonotone(Quot(b, c) + 1, Quot(a, c), c);
    }
  }

  /** In the standard's terms: between two powers of two, the least multiple of an eighth of the upper one, or of 32. */
  lemma PaddedLenIsLeast(n: nat, e: nat)
    requires Pow(2, e) < n <= Pow(2, e + 1) && n > 32
    ensures var chunk := if e + 1 <= 8 then 32 else Pow(2, e + 1) / 8;
            && chunk > 0 && n <= PaddedLen(n) < n + chunk
            && exists q :: PaddedLen(n) == q * chunk
  {
    hide PaddedLen, Quot;
    Doubled(e);
    LogUnique(n - 1, e);
    PowersOfTwo();
    PowerIs(n, e);
    ChunkFacts(n);
    MulDistributes(Quot(n - 1, ChunkFor(n)), 1, ChunkFor(n));
  }

  lemma PowerIs(n: nat, e: nat)
    requires n > 32 && FloorLog2(n - 1) == e && Pow(2, 8) == 256
    ensures NextPower(n) == Pow(2, e + 1) && (NextPower(n) <= 256 <==> e + 1 <= 8)
    ensures ChunkFor(n) == if e + 1 <= 8 then 32 else Pow(2, e + 1) / 8
  {
    hide Pow;
    PowersOfTwo();
    if e + 1 <= 8 {
      PowGrows(2, e + 1, 8);
    } else {
      PowGrows(2, 9, e + 1);
      Doubled(8);
    }
  }

  // ----- padding

  function BigEndian(n: nat, len: nat): (b: Bytes)
    ensures |b| == len
  {
    DigitsBelow(n, 256, len);
    seq(len, i requires 0 <= i < len => Digits(n, 256, len)[i])
  }

  function Prefix(n: nat): Bytes {
    if n >= EXTENDED_PREFIX_THRESHOLD then [0, 0] + BigEndian(n, 4) else BigEndian(n, 2)
  }

  function Pad(unpadded: Bytes): Option<Bytes> {
    var n := |unpadded|;
    if n < 1 || n > MAX_PLAINTEXT_SIZE then None else
    PaddedLenBounds(n);
    Some(Prefix(n) + unpadded + Zeros(PaddedLen(n) - n))
  }

  /** A slice as the program takes it: as much of it as there is. */
  function Slice(b: Bytes, from: nat, to: nat): Bytes
    requires from <= to
  {
    if to <= |b| then b[from..to] else if from <= |b| then b[from..] else []
  }

  function Unpad(padded: Bytes): Option<Bytes> {
    var firstTwo := FromBE(Slice(padded, 0, 2), 256);
    if firstTwo == 0 && |padded| < 6 then None else
    var n, prefixLen := if firstTwo == 0 then FromBE(padded[2..6], 256) else firstTwo, if firstTwo == 0 then 6 else 2;
    if firstTwo == 0 && n < EXTENDED_PREFIX_THRESHOLD then None else
    var unpadded := Slice(padded, prefixLen, prefixLen + n);
    if n == 0 || |unpadded| != n || |padded| != prefixLen + PaddedLen(n) then None else Some(unpadded)
  }

  /** What unpadding accepts: the prefix for the content's length, the content, any bytes up to the padded length. */
  predicate Carries(padded: Bytes, content: Bytes) {
    var n := |content|;
    && 1 <= n <= MAX_PLAINTEXT_SIZE && |padded| == |Prefix(n)| + PaddedLen(n)
    && Prefix(n) + content <= padded
  }

  lemma BigEndianRead(n: nat, len: nat)
    requires n < Pow(256, len)
    ensures FromBE(BigEndian(n, len), 256) == n
  {
    hide Digits, FromBE;
    DigitsBelow(n, 256, len);
    assert BigEndian(n, len) == Digits(n, 256, len);
    FromBEOfDigits(n, 256, len);
  }

  lemma BigEndianWritten(b: Bytes)
    ensures BigEndian(FromBE(b, 256), |b|) == b && FromBE(b, 256) < Pow(256, |b|)
  {
    hide Digits, FromBE;
    DigitsOfFromBE(b, 256);
    FromBEBound(b, 256);
  }

  /** The first two bytes tell the two prefixes apart. */
  lemma PrefixReads(n: nat)
    requires 1 <= n <= MAX_PLAINTEXT_SIZE
    ensures var first := FromBE(Prefix(n)[..2], 256);
            && (n < EXTENDED_PREFIX_THRESHOLD ==> |Prefix(n)| == 2 && first == n)
            && (n >= EXTENDED_PREFIX_THRESHOLD ==> |Prefix(n)| == 6 && first == 0 && FromBE(Prefix(n)[2..], 256) == n)
  {
    hide FromBE, BigEndian, Pow;
    PowersOf256();
    ZeroZero();
    var p := Prefix(n);
    if n < EXTENDED_PREFIX_THRESHOLD {
      BigEndianRead(n, 2);
      assert p[..2] == BigEndian(n, 2);
    } else {
      BigEndianRead(n, 4);
      assert p[..2] == [0, 0] && p[2..] == BigEndian(n, 4);
    }
  }

  lemma ZeroZero()
    ensures FromBE([0, 0], 256) == 0 && BigEndian(0, 2) == [0, 0]
  {
    assert [0, 0][..1] == [0];
    assert FromBE([0], 256) == 0;
    BigEndianWritten([0, 0]);
  }

  /** Unpadding accepts exactly what carries the content: the bytes after it are not looked at, only counted. */
  lemma UnpadsExactly(padded: Bytes, content: Bytes)
    ensures Unpad(padded) == Some(content) <==> Carries(padded, content)
  {
    if Carries(padded, content) {
      CarriedUnpads(padded, content);
    }
    if Unpad(padded) == Some(content) {
      UnpaddedCarries(padded, content);
    }
  }

  lemma CarriedUnpads(padded: Bytes, content: Bytes)
    requires Carries(padded, content)
    ensures Unpad(padded) == Some(content)
  {
    hide FromBE, PaddedLen, Prefix;
    var n := |content|;
    PrefixReads(n);
    PaddedLenBounds(n);
    assert padded[..2] == Prefix(n)[..2];
    assert padded[|Prefix(n)|..|Prefix(n)| + n] == content;
    if n >= EXTENDED_PREFIX_THRESHOLD {
      assert padded[2..6] == Prefix(n)[2..];
    }
  }

  lemma UnpaddedCarries(padded: Bytes, content: Bytes)
    requires Unpad(padded) == Some(content)
    ensures Carries(padded, content)
  {
    hide FromBE, PaddedLen, BigEndian, Pow;
    PowersOf256();
    ZeroZero();
    var n := |content|;
    PaddedLenBounds(n);
    BigEndianWritten(padded[..2]);
    if FromBE(padded[..2], 256) == 0 {
      BigEndianWritten(padded[2..6]);
      assert padded[..6] == padded[..2] + padded[2..6];
      assert padded[..6 + n] == padded[..6] + content;
    } else {
      assert padded[..2 + n] == padded[..2] + content;
    }
  }

  lemma PadCarries(content: Bytes)
    ensures Pad(content).Some? ==> Carries(Pad(content).value, content)
  {
    hide PaddedLen, Prefix;
    if |content| >= 1 {
      PaddedLenBounds(|content|);
    }
  }

  /** Unpadding inverts padding, on both sides of the prefix boundary. */
  lemma UnpadOfPad(content: Bytes)
    ensures Pad(content).Some? <==> 1 <= |content| <= MAX_PLAINTEXT_SIZE
    ensures Pad(content).Some? ==> Unpad(Pad(content).value) == Some(content)
  {
    hide Unpad, Prefix, Carries;
    PadCarries(content);
    if Pad(content).Some? {
      UnpadsExactly(Pad(content).value, content);
    }
  }

  /** Two accepted paddings of one content are of one length and differ only after the content. */
  lemma PaddingsDifferInTheSuffix(p: Bytes, q: Bytes, content: Bytes)
    requires Unpad(p) == Some(content) && Unpad(q) == Some(content)
    ensures |p| == |q| && |p| - PaddedLen(|content|) + |content| <= |p|
    ensures p[..|p| - PaddedLen(|content|) + |content|] == q[..|p| - PaddedLen(|content|) + |content|]
  {
    hide Unpad, PaddedLen, Prefix;
    UnpadsExactly(p, content);
    UnpadsExactly(q, content);
    PaddedLenBounds(|content|);
    var front := Prefix(|content|) + content;
    assert p[..|front|] == front == q[..|front|];
  }

  /** One byte of content and thirty-one of anything at all behind it. */
  lemma PaddingNeedNotBeZero(content: byte, filler: byte)
    ensures Unpad(Prefix(1) + [content] + seq(31, _ => filler)) == Some([content])
  {
    hide Unpad, Prefix;
    PrefixReads(1);
    ShortPads(1);
    var padded := Prefix(1) + [content] + seq(31, _ => filler);
    assert padded[..|Prefix(1) + [content]|] == Prefix(1) + [content];
    UnpadsExactly(padded, [content]);
  }

  // ----- key expansion

  type Hmac = (Bytes, Bytes) -> Hash

  /** Block `i` of the expansion, each keyed by the one before. */
  function Expansion(hmac: Hmac, prk: Bytes, info: Bytes, i: nat): (t: Bytes)
    requires i < 256
    ensures i > 0 ==> |t| == 32
  {
    if i == 0 then [] else hmac(prk, Expansion(hmac, prk, info, i - 1) + info + [i])
  }

  /** The first `n` blocks, joined. */
  function Expanded(hmac: Hmac, prk: Bytes, info: Bytes, n: nat): (out: Bytes)
    requires n < 256
    ensures |out| == 32 * n
  {
    if n == 0 then [] else Expanded(hmac, prk, info, n - 1) + Expansion(hmac, prk, info, n)
  }

  const LONGEST: nat := 32 * 255

  /** RFC 5869: as many blocks as it takes, cut to length; past 255 blocks the counter is no longer a byte. */
  function HkdfOf(hmac: Hmac, prk: Bytes, info: Bytes, length: nat): (out: Option<Bytes>)
    ensures out.Some? ==> |out.value| == length
  {
    if length > LONGEST then None else Some(Expanded(hmac, prk, info, (length + 31) / 32)[..length])
  }

  method HkdfExpand(hmac: Hmac, prk: Bytes, info: Bytes, length: nat) returns (r: Option<Bytes>)
    ensures r == HkdfOf(hmac, prk, info, length)
  {
    var out: Bytes, t: Bytes := [], [];
    var counter := 1;
    while |out| < length
      invariant 1 <= counter <= 256
      invariant out == Expanded(hmac, prk, info, counter - 1) && t == Expansion(hmac, prk, info, counter - 1)
      invariant counter > 1 ==> 32 * (counter - 2) < length
      decreases length - |out|
    {
      if counter > 255 {
        return None;
      }
      t := hmac(prk, t + info + [counter]);
      out := out + t;
      counter := counter + 1;
    }
    assert counter - 1 == (length + 31) / 32;
    return Some(out[..length]);
  }

  // ----- the envelope

  /** What the foreign libraries do: UTF-8 and base64, both ways. */
  datatype Codec = Codec(
    utf8: string -> Option<Bytes>, fromUtf8: Bytes -> Option<string>, b64: Bytes -> string,
    fromB64: string -> Option<Bytes>)

  /** Reading back what was written, and base64's length and alphabet. */
  ghost predicate Inverse(c: Codec) {
    && (forall s :: c.utf8(s).Some? ==> c.fromUtf8(c.utf8(s).value) == Some(s))
    && (forall b :: c.fromB64(c.b64(b)) == Some(b))
    && (forall b :: |c.b64(b)| == 4 * ((|b| + 2) / 3) && '#' !in c.b64(b))
  }

  datatype MessageKeys = MessageKeys(chachaKey: Bytes, chachaNonce: Bytes, hmacKey: Bytes)

  predicate KeysValid(k: MessageKeys) {
    ChaCha20.KeyAndNonce(k.chachaKey, k.chachaNonce) && |k.hmacKey| == 32
  }

  function KeysFor(hmac: Hmac, conversationKey: Bytes, nonce: Bytes): (k: Result<MessageKeys, Error>)
    ensures k.Success? ==> KeysValid(k.value)
    ensures k.Success? <==> |conversationKey| == 32 && |nonce| == 32
  {
    if |conversationKey| != 32 then Failure(InvalidKeyLength)
    else if |nonce| != 32 then Failure(InvalidNonceLength) else
    var keys := HkdfOf(hmac, conversationKey, nonce, 76).value;
    Success(MessageKeys(keys[0..32], keys[32..44], keys[44..76]))
  }

  const VERSION: byte := 2

  /** The bytes sent for a padded content. */
  function Wire(hmac: Hmac, k: MessageKeys, nonce: Bytes, padded: Bytes): Bytes
    requires KeysValid(k)
  {
    var ciphertext := ChaCha20.Xored(k.chachaKey, k.chachaNonce, padded, 0);
    [VERSION] + nonce + ciphertext + hmac(k.hmacKey, nonce + ciphertext)
  }

  function Encrypt(
    c: Codec, hmac: Hmac, plaintext: string, conversationKey: Bytes, nonce: Bytes): Result<string, Error> {
    match KeysFor(hmac, conversationKey, nonce)
    case Failure(e) => Failure(e)
    case Success(k) =>
      match c.utf8(plaintext)
      case None => Failure(InvalidPlaintext)
      case Some(unpadded) =>
        match Pad(unpadded)
        case None => Failure(InvalidPlaintext)
        case Some(padded) => Success(c.b64(Wire(hmac, k, nonce, padded)))
  }

  /** Nonce, ciphertext and MAC of a payload. */
  function DecodePayload(c: Codec, payload: string): (r: Result<(Bytes, Bytes, Bytes), Error>)
    ensures r.Success? ==> |r.value.0| == 32 && |r.value.2| == 32
  {
    if payload == "" || payload[0] == '#' then Failure(UnsupportedVersion)
    else if |payload| < 132 then Failure(InvalidPayload) else
    match c.fromB64(payload)
    case None => Failure(InvalidPayload)
    case Some(data) =>
      if |data| < 99 then Failure(InvalidPayload)
      else if data[0] != VERSION then Failure(UnsupportedVersion)
      else Success((data[1..33], data[33..|data| - 32], data[|data| - 32..]))
  }

  function Decrypt(c: Codec, hmac: Hmac, payload: string, conversationKey: Bytes): Result<string, Error> {
    match DecodePayload(c, payload)
    case Failure(e) => Failure(e)
    case Success((nonce, ciphertext, mac)) =>
      match KeysFor(hmac, conversationKey, nonce)
      case Failure(e) => Failure(e)
      case Success(k) =>
        if hmac(k.hmacKey, nonce + ciphertext) != mac then Failure(InvalidMac) else
        match Unpad(ChaCha20.Xored(k.chachaKey, k.chachaNonce, ciphertext, 0))
        case None => Failure(InvalidPadding)
        case Some(content) =>
          match c.fromUtf8(content)
          case None => Failure(NotUtf8)
          case Some(text) => Success(text)
  }

  /** A payload the decoder does not turn away unread. */
  predicate Readable(payload: string) {
    |payload| >= 132 && payload[0] != '#'
  }

  /** The decoded bytes are the wire form of some bytes that carry the content. */
  ghost predicate Bears(hmac: Hmac, conversationKey: Bytes, data: Bytes, content: Bytes) {
    exists nonce: Bytes, padded: Bytes ::
      Carries(padded, content) && |nonce| == 32 && |conversationKey| == 32
      && data == Wire(hmac, KeysFor(hmac, conversationKey, nonce).value, nonce, padded)
  }

  /** Decryption of a payload that decodes gives the text of exactly the content its bytes bear. */
  lemma DecryptsExactly(c: Codec, hmac: Hmac, payload: string, conversationKey: Bytes, data: Bytes, text: string)
    requires Readable(payload) && c.fromB64(payload) == Some(data)
    ensures Decrypt(c, hmac, payload, conversationKey) == Success(text) <==>
            exists content :: Bears(hmac, conversationKey, data, content) && c.fromUtf8(content) == Some(text)
  {
    if Decrypt(c, hmac, payload, conversationKey) == Success(text) {
      DecryptedBears(c, hmac, payload, conversationKey, data, text);
    }
    if content :| Bears(hmac, conversationKey, data, content) && c.fromUtf8(content) == Some(text) {
      var nonce: Bytes, padded: Bytes :|
        Carries(padded, content) && |nonce| == 32 && |conversationKey| == 32
        && data == Wire(hmac, KeysFor(hmac, conversationKey, nonce).value, nonce, padded);
      WireDecrypts(c, hmac, payload, conversationKey, nonce, padded, content);
    }
  }

  lemma WireParts(hmac: Hmac, k: MessageKeys, nonce: Bytes, padded: Bytes, content: Bytes)
    requires KeysValid(k) && |nonce| == 32 && Carries(padded, content)
    ensures var data := Wire(hmac, k, nonce, padded);
            var ciphertext := ChaCha20.Xored(k.chachaKey, k.chachaNonce, padded, 0);
            && |data| >= 99 && data[0] == VERSION && data[1..33] == nonce && data[33..|data| - 32] == ciphertext
            && data[|data| - 32..] == hmac(k.hmacKey, nonce + ciphertext)
  {
    hide ChaCha20.Xored, PaddedLen, Prefix;
    PaddedLenBounds(|content|);
    PrefixReads(|content|);
  }

  lemma WireDecrypts(
    c: Codec, hmac: Hmac, payload: string, conversationKey: Bytes, nonce: Bytes, padded: Bytes, content: Bytes)
    requires |conversationKey| == 32 && |nonce| == 32 && Carries(padded, content) && Readable(payload)
    requires c.fromB64(payload) == Some(Wire(hmac, KeysFor(hmac, conversationKey, nonce).value, nonce, padded))
    requires c.fromUtf8(content).Some?
    ensures Decrypt(c, hmac, payload, conversationKey) == Success(c.fromUtf8(content).value)
  {
    hide ChaCha20.Xored, Unpad, Carries, KeysFor, Wire;
    var k := KeysFor(hmac, conversationKey, nonce).value;
    WireParts(hmac, k, nonce, padded, content);
    ChaCha20.XoredTwice(k.chachaKey, k.chachaNonce, padded, 0);
    UnpadsExactly(padded, content);
  }

  lemma DecryptedBears(c: Codec, hmac: Hmac, payload: string, conversationKey: Bytes, data: Bytes, text: string)
    requires c.fromB64(payload) == Some(data) && Decrypt(c, hmac, payload, conversationKey) == Success(text)
    ensures exists content :: Bears(hmac, conversationKey, data, content) && c.fromUtf8(content) == Some(text)
  {
    hide ChaCha20.Xored, Unpad, Carries, KeysFor;
    var nonce, ciphertext, mac := data[1..33], data[33..|data| - 32], data[|data| - 32..];
    var k := KeysFor(hmac, conversationKey, nonce).value;
    var padded := ChaCha20.Xored(k.chachaKey, k.chachaNonce, ciphertext, 0);
    ChaCha20.XoredTwice(k.chachaKey, k.chachaNonce, ciphertext, 0);
    var content := Unpad(padded).value;
    UnpadsExactly(padded, content);
    assert data == [data[0]] + nonce + ciphertext + mac;
    assert data == Wire(hmac, k, nonce, padded);
    assert Bears(hmac, conversationKey, data, content);
  }

  /** Decrypting what was encrypted gives the plaintext back. */
  lemma DecryptOfEncrypt(c: Codec, hmac: Hmac, plaintext: string, conversationKey: Bytes, nonce: Bytes)
    requires Inverse(c) && Encrypt(c, hmac, plaintext, conversationKey, nonce).Success?
    ensures Decrypt(c, hmac, Encrypt(c, hmac, plaintext, conversationKey, nonce).value, conversationKey)
        == Success(plaintext)
  {
    hide Wire, Pad, KeysFor, Decrypt, Carries, HkdfOf, ChaCha20.Xored;
    var k := KeysFor(hmac, conversationKey, nonce).value;
    var content := c.utf8(plaintext).value;
    var padded := Pad(content).value;
    var payload := c.b64(Wire(hmac, k, nonce, padded));
    PadCarries(content);
    WireParts(hmac, k, nonce, padded, content);
    assert payload[0] in payload;
    WireDecrypts(c, hmac, payload, conversationKey, nonce, padded, content);
  }

  // ----- the standard's terms

  /** The length in two bytes, or after two zeros in four, the highest first. */
  lemma PrefixIs(n: nat)
    requires 1 <= n <= 0xFFFF_FFFF
    ensures Prefix(n) ==
            if n < 65536 then [n / 0x100, n % 0x100]
            else [0, 0, n / 0x100_0000, n / 0x1_0000 % 0x100, n / 0x100 % 0x100, n % 0x100]
  {
    hide BigEndian;
    if n < 65536 {
      TwoBytes(n);
    } else {
      FourBytes(n);
    }
  }

  lemma TwoBytes(n: nat)
    requires n < 65536
    ensures BigEndian(n, 2) == [n / 0x100, n % 0x100]
  {
    hide BigEndian;
    BigEndianOf([n / 0x100, n % 0x100]);
  }

  lemma FourBytes(n: nat)
    requires n < 0x1_0000_0000
    ensures BigEndian(n, 4) == [n / 0x100_0000, n / 0x1_0000 % 0x100, n / 0x100 % 0x100, n % 0x100]
  {
    hide BigEndian;
    var high, low := n / 0x1_0000, n % 0x1_0000;
    assert n / 0x100_0000 == high / 0x100 && n / 0x100 % 0x100 == low / 0x100 && n % 0x100 == low % 0x100;
    BigEndianOf([high / 0x100, high % 0x100, low / 0x100, low % 0x100]);
  }

  lemma BigEndianOf(b: Bytes)
    requires |b| == 2 || |b| == 4
    ensures |b| == 2 ==> BigEndian(b[0] as int * 0x100 + b[1] as int, 2) == b
    ensures |b| == 4 ==>
              BigEndian(b[0] as int * 0x100_0000 + b[1] as int * 0x1_0000 + b[2] as int * 0x100 + b[3] as int, 4) == b
  {
    hide Digits, BigEndian;
    BigEndianWritten(b);
    FromBEUnfolds(b);
  }

  lemma FromBEUnfolds(b: Bytes)
    ensures |b| == 2 ==> FromBE(b, 256) == b[0] as int * 0x100 + b[1] as int
    ensures |b| == 4 ==>
              FromBE(b, 256) == b[0] as int * 0x100_0000 + b[1] as int * 0x1_0000 + b[2] as int * 0x100 + b[3] as int
  {
    var s: seq<nat> := b;
    if |b| == 2 {
      assert s[..1][..0] == [];
      assert FromBE(s[..1], 256) == s[0];
    } else if |b| == 4 {
      assert s[..3][..2] == s[..2] && s[..2][..1] == s[..1] && s[..1][..0] == [];
      assert FromBE(s[..1], 256) == s[0];
      assert FromBE(s[..2], 256) == s[0] * 256 + s[1];
      assert FromBE(s[..3], 256) == (s[0] * 256 + s[1]) * 256 + s[2];
    }
  }

  /** The chain of RFC 5869: nothing, and then each block keyed over the one before, the info and its own number. */
  ghost predicate Chain(hmac: Hmac, prk: Bytes, info: Bytes, ts: seq<Bytes>) {
    && 1 <= |ts| <= 256 && ts[0] == []
    && forall i :: 0 < i < |ts| ==> ts[i] == hmac(prk, ts[i - 1] + info + [i])
  }

  lemma {:induction false} ChainIs(hmac: Hmac, prk: Bytes, info: Bytes, ts: seq<Bytes>, i: nat)
    requires Chain(hmac, prk, info, ts) && i < |ts|
    ensures ts[i] == Expansion(hmac, prk, info, i)
    decreases i
  {
    if i > 0 {
      ChainIs(hmac, prk, info, ts, i - 1);
    }
  }

  lemma {:induction false} ChainJoined(hmac: Hmac, prk: Bytes, info: Bytes, ts: seq<Bytes>, n: nat)
    requires Chain(hmac, prk, info, ts) && n < |ts|
    ensures Expanded(hmac, prk, info, n) == Flatten(ts[..n + 1])
    decreases n
  {
    hide Expansion;
    if n == 0 {
      assert ts[..1] == [[]] && Flatten<byte>([[]]) == [];
    } else {
      ChainJoined(hmac, prk, info, ts, n - 1);
      ChainIs(hmac, prk, info, ts, n);
      assert ts[..n + 1] == ts[..n] + [ts[n]];
      FlattenOneMore(ts[..n], ts[n]);
    }
  }

  /** The expansion is that chain joined and cut, and there is none past 255 blocks. */
  lemma ExpandsExactly(hmac: Hmac, prk: Bytes, info: Bytes, length: nat, ts: seq<Bytes>)
    requires Chain(hmac, prk, info, ts) && |ts| == 1 + (length + 31) / 32
    ensures |Flatten(ts)| >= length && HkdfOf(hmac, prk, info, length) == Some(Flatten(ts)[..length])
  {
    hide Expanded, Flatten;
    ChainJoined(hmac, prk, info, ts, |ts| - 1);
    assert ts[..|ts|] == ts;
  }

  lemma TooLongToExpand(hmac: Hmac, prk: Bytes, info: Bytes, length: nat)
    ensures HkdfOf(hmac, prk, info, length).None? <==> length > 8160
  {
    hide Expanded;
  }

  /** Byte `i` of the keystream that the message keys give, from the block at counter 0 on. */
  function StreamByte(okm: Bytes, i: nat): byte
    requires |okm| == 76
  {
    ChaCha20.BlockOf(okm[0..32], i / 64, okm[32..44])[i % 64]
  }

  ghost predicate Encrypts(okm: Bytes, padded: Bytes, ciphertext: Bytes)
    requires |okm| == 76
  {
    && |ciphertext| == |padded|
    && forall i :: 0 <= i < |padded| ==> ciphertext[i] == ChaCha20.XorByte(padded[i], StreamByte(okm, i))
  }

  /**
   The bytes sent: the version, the nonce, the ciphertext and the MAC over the last two.  The 76 bytes expanded
   from conversation key and nonce are 32 of cipher key, 12 of cipher nonce and 32 of MAC key.
   */
  lemma WireIs(hmac: Hmac, conversationKey: Bytes, nonce: Bytes, padded: Bytes, okm: Bytes, ciphertext: Bytes)
    requires |conversationKey| == 32 && |nonce| == 32 && HkdfOf(hmac, conversationKey, nonce, 76) == Some(okm)
    requires Encrypts(okm, padded, ciphertext)
    ensures Wire(hmac, KeysFor(hmac, conversationKey, nonce).value, nonce, padded)
         == [2] + nonce + ciphertext + hmac(okm[44..76], nonce + ciphertext)
  {
    hide HkdfOf, ChaCha20.Xored, Encrypts;
    EncryptsFromZero(okm, padded);
    EncryptsOneWay(okm, padded, ciphertext, ChaCha20.Xored(okm[0..32], okm[32..44], padded, 0));
  }

  lemma EncryptsOneWay(okm: Bytes, padded: Bytes, c: Bytes, d: Bytes)
    requires |okm| == 76 && Encrypts(okm, padded, c) && Encrypts(okm, padded, d)
    ensures c == d
  {
    hide StreamByte, ChaCha20.XorByte;
  }

  lemma EncryptsFromZero(okm: Bytes, padded: Bytes)
    requires |okm| == 76
    ensures Encrypts(okm, padded, ChaCha20.Xored(okm[0..32], okm[32..44], padded, 0))
  {
    hide ChaCha20.BlockOf, ChaCha20.XorByte;
  }

  /** Keys of the wrong length are told apart from nonces of the wrong length. */
  lemma KeysRefusedExactly(hmac: Hmac, conversationKey: Bytes, nonce: Bytes)
    ensures KeysFor(hmac, conversationKey, nonce) == Failure(InvalidKeyLength) <==> |conversationKey| != 32
    ensures KeysFor(hmac, conversationKey, nonce) == Failure(InvalidNonceLength) <==>
              |conversationKey| == 32 && |nonce| != 32
  {
    hide HkdfOf;
  }

  /** Before any key is touched: what is not readable, and what is not of this version. */
  lemma UnreadExactly(c: Codec, payload: string)
    ensures DecodePayload(c, payload) == Failure(UnsupportedVersion) <==>
              || payload == "" || payload[0] == '#'
              || (|payload| >= 132 && c.fromB64(payload).Some? && |c.fromB64(payload).value| >= 99
                  && c.fromB64(payload).value[0] != 2)
    ensures DecodePayload(c, payload) == Failure(InvalidPayload) <==>
              && payload != "" && payload[0] != '#'
              && (|payload| < 132 || c.fromB64(payload).None? || |c.fromB64(payload).value| < 99)
    ensures var r := DecodePayload(c, payload);
            r.Failure? ==> r.error == UnsupportedVersion || r.error == InvalidPayload
  {
  }

  /** And then: the MAC is looked at before the padding, and the padding before the text. */
  lemma RefusedExactly(c: Codec, hmac: Hmac, payload: string, conversationKey: Bytes, data: Bytes, okm: Bytes)
    requires Readable(payload) && c.fromB64(payload) == Some(data) && |data| >= 99 && data[0] == 2
    requires |conversationKey| == 32 && HkdfOf(hmac, conversationKey, data[1..33], 76) == Some(okm)
    ensures var r := Decrypt(c, hmac, payload, conversationKey);
            var covered, mac := data[1..|data| - 32], data[|data| - 32..];
            var content := Unpad(ChaCha20.Xored(okm[0..32], okm[32..44], data[33..|data| - 32], 0));
            && (r == Failure(InvalidMac) <==> mac != hmac(okm[44..76], covered))
            && (r == Failure(InvalidPadding) <==> mac == hmac(okm[44..76], covered) && content.None?)
            && (r == Failure(NotUtf8) <==>
                  mac == hmac(okm[44..76], covered) && content.Some? && c.fromUtf8(content.value).None?)
  {
    hide HkdfOf, ChaCha20.Xored, Unpad;
    assert data[1..33] + data[33..|data| - 32] == data[1..|data| - 32];
  }

  /** Encryption succeeds on every plaintext that encodes to between 1 and 2^32 - 1 bytes, and on no other. */
  lemma EncryptsExactly(c: Codec, hmac: Hmac, plaintext: string, conversationKey: Bytes, nonce: Bytes)
    requires |conversationKey| == 32 && |nonce| == 32
    ensures Encrypt(c, hmac, plaintext, conversationKey, nonce).Success? <==>
            c.utf8(plaintext).Some? && 1 <= |c.utf8(plaintext).value| <= MAX_PLAINTEXT_SIZE
  {
    hide Wire, Pad, KeysFor;
    if c.utf8(plaintext).Some? {
      UnpadOfPad(c.utf8(plaintext).value);
    }
  }
}
