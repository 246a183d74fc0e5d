/** What an accepted transaction's bytes decide: only the bytes it used matter. */
module TxLocality {
  import opened ByteStrings
  import opened Parsing
  import opened Tx

  lemma SharesPart(s: Bytes, t: Bytes, n: nat, a: nat, b: nat)
    requires Shares(s, t, n) && a + b <= n
    ensures Shares(s[a..], t[a..], b)
  {
    assert s[a..][..b] == s[..n][a..a + b] && t[a..][..b] == t[..n][a..a + b];
  }

  lemma UintLocal(width: nat, s: Bytes, t: Bytes)
    requires UintOf(width, s).Got? && Shares(s, t, width)
    ensures UintOf(width, t) == UintOf(width, s)
  {
  }

  lemma VarintLocal(s: Bytes, t: Bytes)
    requires VarintOf(s).Got? && Shares(s, t, VarintOf(s).used)
    ensures VarintOf(t) == VarintOf(s)
  {
    var used := VarintOf(s).used;
    assert s[0] == s[..used][0] && t[0] == t[..used][0];
    if used > 1 {
      SharesPart(s, t, used, 1, used - 1);
      UintLocal(used - 1, s[1..], t[1..]);
    }
  }

  /** The count check looks at the whole buffer, but items that were read leave room for themselves. */
  lemma CountedLocal<T(!new)>(least: nat, item: Parser<T>, s: Bytes, t: Bytes)
    requires Consumes(item, least) && Local(item)
    requires CountedOf(least, item, s).Got? && Shares(s, t, CountedOf(least, item, s).used)
    ensures CountedOf(least, item, t) == CountedOf(least, item, s)
  {
    hide VarintOf, Repeat, Local;
    var Got(n, a) := CountOf(least, s);
    var Got(_, b) := Repeat(item, n, s[a..]);
    SharesPart(s, t, a + b, 0, a);
    assert s[0..] == s && t[0..] == t;
    VarintLocal(s, t);
    RepeatConsumes(item, least, n, s[a..]);
    SharesPart(s, t, a + b, a, b);
    RepeatLocal(item, n, s[a..], t[a..]);
  }

  lemma ScriptLocal(s: Bytes, t: Bytes)
    requires ScriptOf(s).Got? && Shares(s, t, ScriptOf(s).used)
    ensures ScriptOf(t) == ScriptOf(s)
  {
    var Got(n, a) := CountOf(1, s);
    SharesPart(s, t, a + n, 0, a);
    assert s[0..] == s && t[0..] == t;
    VarintLocal(s, t);
    SharesPart(s, t, a + n, a, n);
  }

  lemma InputLocal(s: Bytes, t: Bytes)
    requires InputOf(s).Got? && Shares(s, t, InputOf(s).used)
    ensures InputOf(t) == InputOf(s)
  {
    var used := InputOf(s).used;
    var c := ScriptOf(s[36..]).used;
    SharesPart(s, t, used, 0, 32);
    assert s[0..] == s && t[0..] == t;
    SharesPart(s, t, used, 32, 4);
    SharesPart(s, t, used, 36, c);
    ScriptLocal(s[36..], t[36..]);
    SharesPart(s, t, used, 36 + c, 4);
  }

  lemma OutputLocal(s: Bytes, t: Bytes)
    requires OutputOf(s).Got? && Shares(s, t, OutputOf(s).used)
    ensures OutputOf(t) == OutputOf(s)
  {
    var used := OutputOf(s).used;
    SharesPart(s, t, used, 8, used - 8);
    ScriptLocal(s[8..], t[8..]);
  }

  lemma ItemsAreLocal()
    ensures Local(ScriptOf) && Consumes(ScriptOf, 1)
    ensures Local(InputOf) && Consumes(InputOf, 41)
    ensures Local(OutputOf) && Consumes(OutputOf, 9)
  {
    forall s, t | ScriptOf(s).Got? && Shares(s, t, ScriptOf(s).used)
      ensures ScriptOf(t) == ScriptOf(s)
    {
      ScriptLocal(s, t);
    }
    forall s, t | InputOf(s).Got? && Shares(s, t, InputOf(s).used)
      ensures InputOf(t) == InputOf(s)
    {
      InputLocal(s, t);
    }
    forall s, t | OutputOf(s).Got? && Shares(s, t, OutputOf(s).used)
      ensures OutputOf(t) == OutputOf(s)
    {
      OutputLocal(s, t);
    }
  }

  lemma StackIsLocal()
    ensures Local(StackOf)
  {
    forall s, t | StackOf(s).Got? && Shares(s, t, StackOf(s).used)
      ensures StackOf(t) == StackOf(s)
    {
      ItemsAreLocal();
      CountedLocal(1, ScriptOf, s, t);
    }
  }

  lemma InputsLocal(s: Bytes, t: Bytes)
    requires CountedOf(41, InputOf, s).Got? && Shares(s, t, CountedOf(41, InputOf, s).used)
    ensures CountedOf(41, InputOf, t) == CountedOf(41, InputOf, s)
  {
    ItemsAreLocal();
    CountedLocal(41, InputOf, s, t);
  }

  lemma OutputsLocal(s: Bytes, t: Bytes)
    requires CountedOf(9, OutputOf, s).Got? && Shares(s, t, CountedOf(9, OutputOf, s).used)
    ensures CountedOf(9, OutputOf, t) == CountedOf(9, OutputOf, s)
  {
    ItemsAreLocal();
    CountedLocal(9, OutputOf, s, t);
  }

  lemma BodyLocal(s: Bytes, t: Bytes)
    requires BodyOf(s).Got? && Shares(s, t, BodyOf(s).used)
    ensures BodyOf(t) == BodyOf(s)
  {
    var used, a := BodyOf(s).used, CountedOf(41, InputOf, s).used;
    SharesPart(s, t, used, 0, a);
    assert s[0..] == s && t[0..] == t;
    InputsLocal(s, t);
    SharesPart(s, t, used, a, used - a);
    OutputsLocal(s[a..], t[a..]);
  }

  lemma WitnessLocal(segwit: bool, n: nat, s: Bytes, t: Bytes)
    requires WitnessOf(segwit, n, s).Got? && Shares(s, t, WitnessOf(segwit, n, s).used)
    ensures WitnessOf(segwit, n, t) == WitnessOf(segwit, n, s)
  {
    if segwit {
      StackIsLocal();
      RepeatLocal(StackOf, n, s, t);
    }
  }

  lemma LayoutLocal(s: Bytes, t: Bytes)
    requires LayoutOf(s).Got? && Shares(s, t, LayoutOf(s).used)
    ensures LayoutOf(t) == LayoutOf(s)
  {
    hide BodyOf, WitnessOf;
    var Got(l, used) := LayoutOf(s);
    assert s[4] == s[..used][4] == t[..used][4] == t[4];
    assert s[5] == s[..used][5] == t[..used][5] == t[5];
    var start := if l.hasWitness then 6 else 4;
    SharesPart(s, t, used, start, l.witnessStart - start);
    BodyLocal(s[start..], t[start..]);
    SharesPart(s, t, used, l.witnessStart, l.locktimeStart - l.witnessStart);
    WitnessLocal(l.hasWitness, |l.body.spends|, s[l.witnessStart..], t[l.witnessStart..]);
    var Got(stacks, c) := WitnessOf(l.hasWitness, |l.body.spends|, t[l.witnessStart..]);
    LayoutFrom(t, start, l.body, l.witnessStart, stacks, c);
  }

  lemma PreimageLocal(s: Bytes, t: Bytes, l: Layout, used: nat)
    requires 6 <= l.witnessStart <= l.locktimeStart <= used && Shares(s, t, used)
    ensures Preimage(s, l, used) == Preimage(t, l, used)
  {
    assert s[..4] == s[..used][..4] && t[..4] == t[..used][..4];
    assert s[6..l.witnessStart] == s[..used][6..l.witnessStart];
    assert t[6..l.witnessStart] == t[..used][6..l.witnessStart];
    assert s[l.locktimeStart..used] == s[..used][l.locktimeStart..];
    assert t[l.locktimeStart..used] == t[..used][l.locktimeStart..];
  }

  lemma TxLocal(dsha: Bytes -> Hash, s: Bytes, t: Bytes)
    requires TxOf(dsha, s).Got? && Shares(s, t, TxOf(dsha, s).used)
    ensures TxOf(dsha, t) == TxOf(dsha, s)
  {
    var Got(l, used) := LayoutOf(s);
    LayoutLocal(s, t);
    PreimageLocal(s, t, l, used);
  }

  /** What is read depends only on the bytes from the start to the reported end. */
  lemma TxIsLocal(dsha: Bytes -> Hash)
    ensures Local(TxParser(dsha)) && Consumes(TxParser(dsha), 10)
  {
    var item := TxParser(dsha);
    forall s, t | item(s).Got? && Shares(s, t, item(s).used)
      ensures item(t) == item(s)
    {
      TxLocal(dsha, s, t);
    }
  }

  /** The bytes from the start of a transaction to its end read the same in any other buffer, at any other offset. */
  lemma ReadsTheSameAnywhere(dsha: Bytes -> Hash, raw: Bytes, start: nat, before: Bytes, rest: Bytes)
    requires start <= |raw| && TxOf(dsha, raw[start..]).Got?
    ensures var found := TxOf(dsha, raw[start..]);
            && start + found.used <= |raw|
            && TxOf(dsha, (before + raw[start..start + found.used] + rest)[|before|..]) == found
  {
    hide TxOf, Local;
    TxIsLocal(dsha);
    LocalAnywhere(TxParser(dsha), raw, start, before, rest);
  }

  /** No accepted transaction is a proper prefix of another. */
  lemma PrefixFree(dsha: Bytes -> Hash, a: Bytes, b: Bytes)
    requires ParseTx(dsha, a).Some? && ParseTx(dsha, b).Some? && a <= b
    ensures a == b
  {
    assert a[..|a|] == a == b[..|a|];
    TxLocal(dsha, a, b);
  }
}

/** Transactions as they are written, and the parser as the inverse of writing. */
module TxRoundTrip {
  import opened ByteStrings
  import opened Parsing
  import opened Tx

  type uint64 = n: int | 0 <= n < 0x1_0000_0000_0000_0000

  /** The count is written in `width` bytes after its first, or in that one alone: the least that fits, or more. */
  predicate Fits(count: nat, width: nat) {
    || (width == 0 && count < 0xFD)
    || (width == 2 && count < 0x1_0000)
    || (width == 4 && count < 0x1_0000_0000)
    || (width == 8 && count < 0x1_0000_0000_0000_0000)
  }

  /** A script or a witness item, with the width its length is written in. */
  datatype WireBytes = WireBytes(width: nat, bytes: Bytes)

  datatype WireIn = WireIn(txid: Hash, vout: uint32, script: WireBytes, sequence: uint32)

  datatype WireOut = WireOut(value: uint64, spk: WireBytes)

  datatype WireStack = WireStack(width: nat, items: seq<WireBytes>)

  datatype WireTx = WireTx(
    version: uint32, insWidth: nat, ins: seq<WireIn>, outsWidth: nat, outs: seq<WireOut>, locktime: uint32)

  /** The two forms of BIP 144. */
  datatype WireForm = Legacy(tx: WireTx) | Segwit(tx: WireTx, flag: byte, stacks: seq<WireStack>)

  predicate OkBytes(b: WireBytes) {
    Fits(|b.bytes|, b.width)
  }

  predicate OkIn(i: WireIn) {
    OkBytes(i.script)
  }

  predicate OkOut(o: WireOut) {
    OkBytes(o.spk)
  }

  predicate OkStack(stack: WireStack) {
    Fits(|stack.items|, stack.width) && forall i :: 0 <= i < |stack.items| ==> OkBytes(stack.items[i])
  }

  predicate WellFormed(tx: WireTx) {
    && Fits(|tx.ins|, tx.insWidth) && Fits(|tx.outs|, tx.outsWidth) && tx.ins != []
    && (forall i :: 0 <= i < |tx.ins| ==> OkIn(tx.ins[i]))
    && (forall i :: 0 <= i < |tx.outs| ==> OkOut(tx.outs[i]))
  }

  predicate OkForm(f: WireForm) {
    && WellFormed(f.tx)
    && (f.Segwit? ==>
          && f.flag != 0 && |f.stacks| == |f.tx.ins|
          && forall i :: 0 <= i < |f.stacks| ==> OkStack(f.stacks[i]))
  }

  function SizeBytes(count: nat, width: nat): (b: Bytes)
    requires Fits(count, width)
    ensures |b| == 1 + width
  {
    if width == 0 then [count] else
    [if width == 2 then 0xFD else if width == 4 then 0xFE else 0xFF] + ToLE(count, width)
  }

  function SerBytes(b: WireBytes): Bytes {
    if OkBytes(b) then SizeBytes(|b.bytes|, b.width) + b.bytes else []
  }

  function SerIn(i: WireIn): Bytes {
    i.txid + ToLE(i.vout, 4) + SerBytes(i.script) + ToLE(i.sequence, 4)
  }

  function SerOut(o: WireOut): Bytes {
    ToLE(o.value, 8) + SerBytes(o.spk)
  }

  function SerStack(stack: WireStack): Bytes {
    if OkStack(stack) then SizeBytes(|stack.items|, stack.width) + Concat(SerBytes, stack.items) else []
  }

  function SerIns(tx: WireTx): Bytes
    requires WellFormed(tx)
  {
    SizeBytes(|tx.ins|, tx.insWidth) + Concat(SerIn, tx.ins)
  }

  function SerOuts(tx: WireTx): Bytes
    requires WellFormed(tx)
  {
    SizeBytes(|tx.outs|, tx.outsWidth) + Concat(SerOut, tx.outs)
  }

  function SerBody(tx: WireTx): Bytes
    requires WellFormed(tx)
  {
    SerIns(tx) + SerOuts(tx)
  }

  /** The serialization without witness, which the txid is the hash of. */
  function SerLegacy(tx: WireTx): Bytes
    requires WellFormed(tx)
  {
    ToLE(tx.version, 4) + SerBody(tx) + ToLE(tx.locktime, 4)
  }

  /** With marker, flag and one witness stack per input. */
  function SerSegwit(tx: WireTx, flag: byte, stacks: seq<WireStack>): Bytes
    requires WellFormed(tx)
  {
    ToLE(tx.version, 4) + [0, flag] + SerBody(tx) + Concat(SerStack, stacks) + ToLE(tx.locktime, 4)
  }

  function SerForm(f: WireForm): Bytes {
    if !OkForm(f) then [] else
    match f
    case Legacy(tx) => SerLegacy(tx)
    case Segwit(tx, flag, stacks) => SerSegwit(tx, flag, stacks)
  }

  // ----- what a written transaction says

  /** One input, and it spends nothing: the null outpoint. */
  predicate WrittenCoinbase(tx: WireTx) {
    |tx.ins| == 1 && tx.ins[0].vout == 0xFFFF_FFFF && forall j :: 0 <= j < 32 ==> tx.ins[0].txid[j] == 0
  }

  /** What was read is what was written: every outpoint and every script in place, none for a coinbase's one input. */
  ghost predicate Says(dsha: Bytes -> Hash, f: WireForm, read: Transaction) {
    && WellFormed(f.tx)
    && read.txid == dsha(SerLegacy(f.tx))
    && (read.isCoinbase <==> WrittenCoinbase(f.tx))
    && (WrittenCoinbase(f.tx) ==> read.inputs == [])
    && (!WrittenCoinbase(f.tx) ==>
          && |read.inputs| == |f.tx.ins|
          && forall i :: 0 <= i < |f.tx.ins| ==> read.inputs[i] == OutPoint(f.tx.ins[i].txid, f.tx.ins[i].vout))
    && |read.outputs| == |f.tx.outs|
    && (forall i :: 0 <= i < |f.tx.outs| ==> read.outputs[i] == TxOutput(i, f.tx.outs[i].spk.bytes))
    && (read.hasWitness <==> f.Segwit?)
  }

  function Spend(i: WireIn): OutPoint {
    OutPoint(i.txid, i.vout)
  }

  function Pays(o: WireOut): Bytes {
    o.spk.bytes
  }

  function Content(b: WireBytes): Bytes {
    b.bytes
  }

  function Contents(stack: WireStack): seq<Bytes> {
    Map(Content, stack.items)
  }

  function BodyMeaning(tx: WireTx): Body {
    Body(Map(Spend, tx.ins), Map(Pays, tx.outs))
  }

  function MeaningOf(dsha: Bytes -> Hash, tx: WireTx, segwit: bool): Transaction
    requires WellFormed(tx)
  {
    Meaning(dsha(SerLegacy(tx)), BodyMeaning(tx), segwit)
  }

  function FormMeaning(dsha: Bytes -> Hash): WireForm -> Transaction {
    f => if OkForm(f) then MeaningOf(dsha, f.tx, f.Segwit?) else Transaction(Zeros(32), [], [], false, false)
  }

  lemma MeaningSays(dsha: Bytes -> Hash, f: WireForm)
    requires OkForm(f)
    ensures Says(dsha, f, FormMeaning(dsha)(f))
  {
    hide SerLegacy, OkIn, OkOut, OkStack;
    var body := BodyMeaning(f.tx);
    if WrittenCoinbase(f.tx) {
      assert f.tx.ins[0].txid == Zeros(32);
      assert body.spends[0] == OutPoint(Zeros(32), COINBASE_VOUT);
    }
  }

  // ----- reading what was written

  lemma UintInverts(width: nat, n: nat, rest: Bytes)
    requires n < Pow(256, width)
    ensures UintOf(width, ToLE(n, width) + rest) == Got(n, width)
  {
    FromLEOfToLE(n, width);
    assert (ToLE(n, width) + rest)[..width] == ToLE(n, width);
  }

  lemma VarintInverts(count: nat, width: nat, rest: Bytes)
    requires Fits(count, width)
    ensures VarintOf(SizeBytes(count, width) + rest) == Got(count, 1 + width)
  {
    hide ToLE, FromLE;
    PowersOf256();
    var s := SizeBytes(count, width) + rest;
    if width > 0 {
      assert s[1..] == ToLE(count, width) + rest;
      UintInverts(width, count, rest);
    }
  }

  lemma BytesInvert(b: WireBytes, rest: Bytes)
    requires OkBytes(b)
    ensures ScriptOf(SerBytes(b) + rest) == Got(b.bytes, |SerBytes(b)|) && |SerBytes(b)| >= 1
  {
    hide VarintOf, SizeBytes;
    var size := SizeBytes(|b.bytes|, b.width);
    var s := SerBytes(b) + rest;
    assert s == size + (b.bytes + rest);
    VarintInverts(|b.bytes|, b.width, b.bytes + rest);
    assert s[|size|..] == b.bytes + rest && (b.bytes + rest)[..|b.bytes|] == b.bytes;
  }

  lemma InputInverts(i: WireIn, rest: Bytes)
    requires OkIn(i)
    ensures InputOf(SerIn(i) + rest) == Got(Spend(i), |SerIn(i)|) && |SerIn(i)| >= 41
  {
    hide ScriptOf, SerBytes, ToLE, FromLE;
    PowersOf256();
    var script, end := SerBytes(i.script), ToLE(i.sequence, 4) + rest;
    var s := SerIn(i) + rest;
    assert s == i.txid + (ToLE(i.vout, 4) + (script + end));
    assert s[..32] == i.txid && s[32..] == ToLE(i.vout, 4) + (script + end);
    UintInverts(4, i.vout, script + end);
    assert s[36..] == script + end;
    BytesInvert(i.script, end);
    assert s[36 + |script|..] == end;
  }

  lemma OutputInverts(o: WireOut, rest: Bytes)
    requires OkOut(o)
    ensures OutputOf(SerOut(o) + rest) == Got(Pays(o), |SerOut(o)|) && |SerOut(o)| >= 9
  {
    hide ScriptOf, SerBytes, ToLE;
    var s := SerOut(o) + rest;
    assert s[8..] == SerBytes(o.spk) + rest;
    BytesInvert(o.spk, rest);
  }

  lemma ItemsInvert()
    ensures Inverts(InputOf, SerIn, Spend, OkIn)
    ensures Inverts(OutputOf, SerOut, Pays, OkOut)
    ensures Inverts(ScriptOf, SerBytes, Content, OkBytes)
  {
    hide InputOf, OutputOf, ScriptOf, SerIn, SerOut, SerBytes, OkBytes;
    forall i, rest | OkIn(i) ensures InputOf(SerIn(i) + rest) == Got(Spend(i), |SerIn(i)|) {
      InputInverts(i, rest);
    }
    forall o, rest | OkOut(o) ensures OutputOf(SerOut(o) + rest) == Got(Pays(o), |SerOut(o)|) {
      OutputInverts(o, rest);
    }
    forall b, rest | OkBytes(b) ensures ScriptOf(SerBytes(b) + rest) == Got(Content(b), |SerBytes(b)|) {
      BytesInvert(b, rest);
    }
  }

  lemma CountedInverts<U(!new), T(!new)>(
    least: nat, item: Parser<T>, ser: U -> Bytes, meaning: U -> T, ok: U -> bool, us: seq<U>, width: nat, rest: Bytes)
    requires Inverts(item, ser, meaning, ok) && Fits(|us|, width)
    requires forall i :: 0 <= i < |us| ==> ok(us[i]) && least <= |ser(us[i])|
    ensures CountedOf(least, item, SizeBytes(|us|, width) + Concat(ser, us) + rest)
         == Got(Map(meaning, us), 1 + width + |Concat(ser, us)|)
  {
    hide SizeBytes, Concat, VarintOf, Repeat, Inverts;
    var size, items := SizeBytes(|us|, width), Concat(ser, us);
    var s := size + items + rest;
    assert s == size + (items + rest) && s[|size|..] == items + rest;
    VarintInverts(|us|, width, items + rest);
    ConcatLength(ser, us, least);
    RepeatInverts(item, ser, meaning, ok, us, rest);
  }

  lemma StackInverts()
    ensures Inverts(StackOf, SerStack, Contents, OkStack)
  {
    hide CountedOf, SizeBytes, Concat, SerBytes, ScriptOf, Inverts, OkBytes;
    forall stack, rest | OkStack(stack)
      ensures StackOf(SerStack(stack) + rest) == Got(Contents(stack), |SerStack(stack)|)
    {
      ItemsInvert();
      forall i | 0 <= i < |stack.items| ensures OkBytes(stack.items[i]) && 1 <= |SerBytes(stack.items[i])| {
        BytesInvert(stack.items[i], []);
      }
      CountedInverts(1, ScriptOf, SerBytes, Content, OkBytes, stack.items, stack.width, rest);
    }
    InvertsMeans(StackOf, SerStack, Contents, OkStack);
  }

  lemma InvertsMeans<U(!new), T(!new)>(item: Parser<T>, ser: U -> Bytes, meaning: U -> T, ok: U -> bool)
    requires forall u, rest :: ok(u) ==> item(ser(u) + rest) == Got(meaning(u), |ser(u)|)
    ensures Inverts(item, ser, meaning, ok)
  {
  }

  lemma InputsInvert(tx: WireTx, rest: Bytes)
    requires WellFormed(tx)
    ensures CountedOf(41, InputOf, SerIns(tx) + rest) == Got(Map(Spend, tx.ins), |SerIns(tx)|)
  {
    hide CountedOf, SizeBytes, Concat, SerIn, InputOf, Inverts, OkIn, OkOut;
    ItemsInvert();
    forall i | 0 <= i < |tx.ins| ensures OkIn(tx.ins[i]) && 41 <= |SerIn(tx.ins[i])| {
      InputInverts(tx.ins[i], []);
    }
    CountedInverts(41, InputOf, SerIn, Spend, OkIn, tx.ins, tx.insWidth, rest);
  }

  lemma OutputsInvert(tx: WireTx, rest: Bytes)
    requires WellFormed(tx)
    ensures CountedOf(9, OutputOf, SerOuts(tx) + rest) == Got(Map(Pays, tx.outs), |SerOuts(tx)|)
  {
    hide CountedOf, SizeBytes, Concat, SerOut, OutputOf, Inverts, OkIn, OkOut;
    ItemsInvert();
    forall i | 0 <= i < |tx.outs| ensures OkOut(tx.outs[i]) && 9 <= |SerOut(tx.outs[i])| {
      OutputInverts(tx.outs[i], []);
    }
    CountedInverts(9, OutputOf, SerOut, Pays, OkOut, tx.outs, tx.outsWidth, rest);
  }

  lemma BodyInverts(tx: WireTx, rest: Bytes)
    requires WellFormed(tx)
    ensures BodyOf(SerBody(tx) + rest) == Got(BodyMeaning(tx), |SerBody(tx)|)
  {
    hide CountedOf, SerIns, SerOuts, InputOf, OutputOf;
    var ins, outs := SerIns(tx), SerOuts(tx);
    var s := SerBody(tx) + rest;
    assert s == ins + (outs + rest) && s[|ins|..] == outs + rest;
    InputsInvert(tx, outs + rest);
    OutputsInvert(tx, rest);
  }

  lemma WitnessInverts(segwit: bool, n: nat, stacks: seq<WireStack>, rest: Bytes)
    requires if segwit then |stacks| == n else stacks == []
    requires forall i :: 0 <= i < |stacks| ==> OkStack(stacks[i])
    ensures WitnessOf(segwit, n, Concat(SerStack, stacks) + rest)
         == Got(Map(Contents, stacks), |Concat(SerStack, stacks)|)
  {
    hide StackOf, SerStack, OkStack, Contents, Inverts;
    if segwit {
      StackInverts();
      RepeatInverts(StackOf, SerStack, Contents, OkStack, stacks, rest);
    }
  }

  /** A legacy transaction has no zero where the marker would be. */
  lemma BodyStartsNonZero(tx: WireTx)
    requires WellFormed(tx)
    ensures |SerBody(tx)| >= 2 && SerBody(tx)[0] != 0
  {
    assert SerBody(tx)[0] == SizeBytes(|tx.ins|, tx.insWidth)[0];
  }

  /** Reading the version, the body, the witness and the lock time off a buffer that is built of them. */
  lemma LayoutInverts(tx: WireTx, marker: Bytes, stacks: seq<WireStack>, rest: Bytes)
    requires WellFormed(tx)
    requires marker == [] ==> stacks == []
    requires marker != [] ==> |marker| == 2 && marker[0] == 0 && marker[1] != 0 && |stacks| == |tx.ins|
    requires forall i :: 0 <= i < |stacks| ==> OkStack(stacks[i])
    ensures var wit, end := Concat(SerStack, stacks), ToLE(tx.locktime, 4);
            var s := ToLE(tx.version, 4) + marker + SerBody(tx) + wit + end + rest;
            var w := 4 + |marker| + |SerBody(tx)|;
            LayoutOf(s) == Got(Layout(marker != [], BodyMeaning(tx), w, w + |wit|), w + |wit| + 4)
  {
    hide LayoutOf, BodyOf, WitnessOf, SerBody, Concat, ToLE, OkStack, OkIn, OkOut;
    var body, wit, end := SerBody(tx), Concat(SerStack, stacks), ToLE(tx.locktime, 4);
    var s := ToLE(tx.version, 4) + marker + body + wit + end + rest;
    var start := 4 + |marker|;
    assert s[start..] == body + (wit + end + rest);
    BodyStartsNonZero(tx);
    assert marker == [] ==> s[4] == body[0];
    assert marker != [] ==> s[4] == marker[0] && s[5] == marker[1];
    BodyInverts(tx, wit + end + rest);
    assert s[start + |body|..] == wit + (end + rest);
    WitnessInverts(marker != [], |tx.ins|, stacks, end + rest);
    LayoutFrom(s, start, BodyMeaning(tx), start + |body|, Map(Contents, stacks), |wit|);
  }

  lemma LegacyReads(dsha: Bytes -> Hash, tx: WireTx, rest: Bytes)
    requires WellFormed(tx)
    ensures TxOf(dsha, SerLegacy(tx) + rest) == Got(MeaningOf(dsha, tx, false), |SerLegacy(tx)|)
  {
    hide LayoutOf, SerBody, ToLE, Meaning, OkIn, OkOut;
    var raw := SerLegacy(tx);
    LayoutInverts(tx, [], [], rest);
    assert raw + rest == ToLE(tx.version, 4) + [] + SerBody(tx) + [] + ToLE(tx.locktime, 4) + rest;
    assert (raw + rest)[..|raw|] == raw;
  }

  lemma SegwitReads(dsha: Bytes -> Hash, tx: WireTx, flag: byte, stacks: seq<WireStack>, rest: Bytes)
    requires OkForm(Segwit(tx, flag, stacks))
    ensures TxOf(dsha, SerSegwit(tx, flag, stacks) + rest)
         == Got(MeaningOf(dsha, tx, true), |SerSegwit(tx, flag, stacks)|)
  {
    hide LayoutOf, SerBody, Concat, ToLE, Meaning, OkIn, OkOut, OkStack;
    var raw, body, wit, end := SerSegwit(tx, flag, stacks), SerBody(tx), Concat(SerStack, stacks), ToLE(tx.locktime, 4);
    var s := raw + rest;
    LayoutInverts(tx, [0, flag], stacks, rest);
    assert s == ToLE(tx.version, 4) + [0, flag] + body + wit + end + rest;
    assert s[..4] == ToLE(tx.version, 4) && s[6..6 + |body|] == body;
    assert s[6 + |body| + |wit|..|raw|] == end;
  }

  lemma FormReads(dsha: Bytes -> Hash, f: WireForm, rest: Bytes)
    requires OkForm(f)
    ensures TxOf(dsha, SerForm(f) + rest) == Got(FormMeaning(dsha)(f), |SerForm(f)|)
  {
    hide TxOf, SerLegacy, SerSegwit, MeaningOf, WellFormed;
    match f
    case Legacy(tx) => LegacyReads(dsha, tx, rest);
    case Segwit(tx, flag, stacks) => SegwitReads(dsha, tx, flag, stacks, rest);
  }

  /** Either form, with counts of any width, reads back as what it says, before any other bytes. */
  lemma RoundTrip(dsha: Bytes -> Hash, f: WireForm, rest: Bytes)
    requires OkForm(f)
    ensures var r := TxOf(dsha, SerForm(f) + rest);
            r.Got? && r.used == |SerForm(f)| && Says(dsha, f, r.value)
  {
    hide TxOf, SerForm, OkForm, FormMeaning, Says;
    FormReads(dsha, f, rest);
    MeaningSays(dsha, f);
  }

  /** At any offset of any buffer, the two forms share the txid of the legacy form: the witness cannot change it. */
  lemma RoundTripAnywhere(
    dsha: Bytes -> Hash, tx: WireTx, flag: byte, stacks: seq<WireStack>, before: Bytes, rest: Bytes)
    requires OkForm(Segwit(tx, flag, stacks))
    ensures var item := TxParser(dsha);
            var legacy := item((before + SerLegacy(tx) + rest)[|before|..]);
            var segwit := item((before + SerSegwit(tx, flag, stacks) + rest)[|before|..]);
            && legacy.Got? && legacy.used == |SerLegacy(tx)| && Says(dsha, Legacy(tx), legacy.value)
            && segwit.Got? && segwit.used == |SerSegwit(tx, flag, stacks)|
            && Says(dsha, Segwit(tx, flag, stacks), segwit.value)
            && legacy.value.txid == segwit.value.txid == dsha(SerLegacy(tx))
  {
    hide TxOf, SerLegacy, SerSegwit, WellFormed;
    assert (before + SerLegacy(tx) + rest)[|before|..] == SerLegacy(tx) + rest;
    assert (before + SerSegwit(tx, flag, stacks) + rest)[|before|..] == SerSegwit(tx, flag, stacks) + rest;
    RoundTrip(dsha, Legacy(tx), rest);
    RoundTrip(dsha, Segwit(tx, flag, stacks), rest);
  }
}
