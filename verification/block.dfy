/** Raw blocks: an 80-byte header, a count, and that many transactions back to back. */
module Blocks {
  import opened ByteStrings
  import opened Parsing
  import opened Tx
  import opened TxReader

  const HEADER_SIZE := 80

  datatype Block = Block(blockHash: Hash, prevHash: Hash, transactions: seq<Transaction>)

  /** `CountCutShort` is the `struct.error` of an unpack past the end: neither a block nor `MalformedBlock`. */
  datatype BlockResult = Accepted(block: Block) | MalformedBlock | CountCutShort

  /** Bytes of the transaction count after its first. */
  function CountWidth(first: byte): nat {
    if first < 0xFD then 0 else if first == 0xFD then 2 else if first == 0xFE then 4 else 8
  }

  /** Where the first transaction starts. */
  function BodyStart(raw: Bytes): nat
    requires |raw| > HEADER_SIZE
  {
    HEADER_SIZE + 1 + CountWidth(raw[HEADER_SIZE])
  }

  function TxCount(raw: Bytes): nat
    requires |raw| > HEADER_SIZE && BodyStart(raw) <= |raw|
  {
    if raw[HEADER_SIZE] < 0xFD then raw[HEADER_SIZE] else FromLE(raw[HEADER_SIZE + 1..BodyStart(raw)])
  }

  function HeaderOf(dsha: Bytes -> Hash, raw: Bytes, txs: seq<Transaction>): Block
    requires |raw| >= HEADER_SIZE
  {
    Block(dsha(raw[..HEADER_SIZE]), raw[4..36], txs)
  }

  function BlockOf(dsha: Bytes -> Hash, raw: Bytes): BlockResult {
    if |raw| < HEADER_SIZE + 1 then MalformedBlock
    else if |raw| < BodyStart(raw) then CountCutShort
    else
      var count, start := TxCount(raw), BodyStart(raw);
      if count == 0 || count * 60 > |raw| - start then MalformedBlock else
      match Repeat(TxParser(dsha), count, raw[start..])
      case Malformed => MalformedBlock
      case Got(txs, used) => if start + used == |raw| then Accepted(HeaderOf(dsha, raw, txs)) else MalformedBlock
  }

  function BlockParser(dsha: Bytes -> Hash): Bytes -> BlockResult {
    raw => BlockOf(dsha, raw)
  }

  /** `ticks` counts the iterations of every loop, those of the transaction reader included. */
  method ParseBlock(dsha: Bytes -> Hash, raw: Bytes) returns (r: BlockResult, ghost ticks: nat)
    ensures r == BlockParser(dsha)(raw)
    ensures ticks <= 3 * |raw|
  {
    hide TxOf, Repeat, After, FromLE;
    ticks := 0;
    if |raw| < HEADER_SIZE + 1 {
      return MalformedBlock, 0;
    }
    var pos := BodyStart(raw);
    if pos > |raw| {
      return CountCutShort, 0;
    }
    var count := TxCount(raw);
    if count == 0 || count * 60 > |raw| - pos {
      return MalformedBlock, 0;
    }
    var item := TxParser(dsha);
    ghost var start := pos;
    var transactions: seq<Transaction> := [];
    AfterNothing(Repeat(item, count, raw[pos..]));
    for i := 0 to count
      invariant start <= pos <= |raw| && ticks <= 3 * (pos - start)
      invariant Repeat(item, count, raw[start..])
             == After(transactions, pos - start, Repeat(item, count - i, raw[pos..]))
    {
      ghost var s := raw[pos..];
      AfterOneMore(item, count - i, s, transactions, pos - start);
      var read, more := ReadTx(dsha, raw, pos);
      ticks := ticks + 1 + more;
      if read.None? {
        return MalformedBlock, ticks;
      }
      TxIsNotEmpty(dsha, s);
      assert raw[read.value.1..] == s[read.value.1 - pos..];
      transactions, pos := transactions + [read.value.0], read.value.1;
    }
    AfterAll(item, raw[pos..], transactions, pos - start);
    if pos != |raw| {
      return MalformedBlock, ticks;
    }
    return Accepted(HeaderOf(dsha, raw, transactions)), ticks;
  }

  lemma TxIsNotEmpty(dsha: Bytes -> Hash, s: Bytes)
    requires TxOf(dsha, s).Got?
    ensures TxOf(dsha, s).used > 0
  {
  }
}

/** What accepting a block means for its bytes. */
module BlockProofs {
  import opened ByteStrings
  import opened Parsing
  import opened Tx
  import opened TxRoundTrip
  import opened TxExact
  import opened Blocks

  /** The transactions cover the bytes from `start` to the end, each ending where the next begins. */
  ghost predicate Tiles(dsha: Bytes -> Hash, raw: Bytes, start: nat, txs: seq<Transaction>, cuts: seq<nat>) {
    && |cuts| == |txs| + 1 && cuts[0] == start && cuts[|txs|] == |raw|
    && forall i {:trigger txs[i]} :: 0 <= i < |txs| ==> ReadsBetween(TxParser(dsha), raw, cuts[i], cuts[i + 1], txs[i])
  }

  ghost predicate Tiled(dsha: Bytes -> Hash, raw: Bytes, start: nat, txs: seq<Transaction>) {
    exists cuts :: Tiles(dsha, raw, start, txs, cuts)
  }

  lemma RestTiles(dsha: Bytes -> Hash, raw: Bytes, start: nat, txs: seq<Transaction>, cuts: seq<nat>)
    requires Tiles(dsha, raw, start, txs, cuts) && txs != []
    ensures |cuts| == |txs| + 1 && Tiles(dsha, raw, cuts[1], txs[1..], cuts[1..])
    ensures cuts[1] <= |raw| && ReadsBetween(TxParser(dsha), raw, start, cuts[1], txs[0])
  {
    CutInside(TxParser(dsha), raw, cuts[0], cuts[1], txs[0]);
    hide ReadsBetween, TxParser;
    forall i {:trigger txs[1..][i]} | 0 <= i < |txs[1..]|
      ensures ReadsBetween(TxParser(dsha), raw, cuts[1..][i], cuts[1..][i + 1], txs[1..][i])
    {
      assert txs[1..][i] == txs[i + 1];
    }
    assert ReadsBetween(TxParser(dsha), raw, cuts[0], cuts[1], txs[0]);
  }

  lemma {:induction false} TilesRepeat(
    dsha: Bytes -> Hash, raw: Bytes, start: nat, txs: seq<Transaction>, cuts: seq<nat>)
    requires Tiles(dsha, raw, start, txs, cuts) && start <= |raw|
    ensures Repeat(TxParser(dsha), |txs|, raw[start..]) == Got(txs, |raw| - start)
    decreases |txs|
  {
    hide TxParser, Tiles, Repeat, ReadsBetween;
    if txs == [] {
      NothingTiles(dsha, raw, start, cuts);
      RepeatNothing(TxParser(dsha), raw[start..]);
    } else {
      RestTiles(dsha, raw, start, txs, cuts);
      TilesRepeat(dsha, raw, cuts[1], txs[1..], cuts[1..]);
      ReadsOneMore(TxParser(dsha), raw, start, cuts[1], txs[0], txs[1..]);
      assert [txs[0]] + txs[1..] == txs;
    }
  }

  lemma CutInside<T>(item: Parser<T>, s: Bytes, from: nat, to: nat, x: T)
    ensures ReadsBetween(item, s, from, to, x) ==> from <= to <= |s|
  {
  }

  lemma RepeatNothing<T>(item: Parser<T>, s: Bytes)
    ensures Repeat(item, 0, s) == Got([], 0)
  {
  }

  lemma NothingTiles(dsha: Bytes -> Hash, raw: Bytes, start: nat, cuts: seq<nat>)
    requires Tiles(dsha, raw, start, [], cuts)
    ensures start == |raw|
  {
  }

  lemma RepeatTiles(dsha: Bytes -> Hash, raw: Bytes, start: nat, txs: seq<Transaction>)
    requires start <= |raw| && Repeat(TxParser(dsha), |txs|, raw[start..]) == Got(txs, |raw| - start)
    ensures Tiled(dsha, raw, start, txs)
  {
    hide TxOf, Repeat;
    var item := TxParser(dsha);
    var cuts := Cuts(item, |txs|, raw, start);
    forall i {:trigger txs[i]} | 0 <= i < |txs| ensures ReadsBetween(item, raw, cuts[i], cuts[i + 1], txs[i]) {
      CutsTile(item, |txs|, raw, start, i);
    }
    assert Tiles(dsha, raw, start, txs, cuts);
  }

  /** A buffer is accepted exactly when its transactions tile everything after the count. */
  lemma AcceptedIffTiled(dsha: Bytes -> Hash, raw: Bytes, txs: seq<Transaction>)
    requires |raw| > HEADER_SIZE && BodyStart(raw) <= |raw|
    ensures BlockOf(dsha, raw) == Accepted(HeaderOf(dsha, raw, txs)) <==>
            && |txs| == TxCount(raw) && 0 < |txs| && |txs| * 60 <= |raw| - BodyStart(raw)
            && Tiled(dsha, raw, BodyStart(raw), txs)
  {
    hide TxOf, FromLE, Repeat;
    var start := BodyStart(raw);
    if BlockOf(dsha, raw) == Accepted(HeaderOf(dsha, raw, txs)) {
      RepeatTiles(dsha, raw, start, txs);
    }
    if |txs| == TxCount(raw) && Tiled(dsha, raw, start, txs) {
      var cuts :| Tiles(dsha, raw, start, txs, cuts);
      TilesRepeat(dsha, raw, start, txs, cuts);
    }
  }

  /** The one other outcome: the count prefix, and nothing else, is missing bytes. */
  lemma CutShortExactlyWhenTheCountIs(dsha: Bytes -> Hash, raw: Bytes)
    ensures BlockOf(dsha, raw) == CountCutShort <==>
            && |raw| > HEADER_SIZE && raw[HEADER_SIZE] >= 0xFD
            && |raw| - HEADER_SIZE <=
               (if raw[HEADER_SIZE] == 0xFD then 2 else if raw[HEADER_SIZE] == 0xFE then 4 else 8)
  {
  }

  // ----- writing a block

  /** A header, a count of any width, and the transactions in either form. */
  function SerBlock(header: Bytes, width: nat, forms: seq<WireForm>): Bytes
    requires Fits(|forms|, width)
  {
    header + SizeBytes(|forms|, width) + Concat(SerForm, forms)
  }

  /** What was read is what was written: the header's hash, its bytes 4 to 36, and each transaction. */
  ghost predicate BlockSays(dsha: Bytes -> Hash, header: Bytes, forms: seq<WireForm>, b: Block)
    requires |header| == 80
  {
    && b.blockHash == dsha(header) && |b.transactions| == |forms|
    && (forall j :: 0 <= j < 32 ==> b.prevHash[j] == header[4 + j])
    && (forall i :: 0 <= i < |forms| ==> Says(dsha, forms[i], b.transactions[i]))
  }

  predicate OkForms(forms: seq<WireForm>) {
    forall i :: 0 <= i < |forms| ==> OkForm(forms[i])
  }

  lemma FormInverts(dsha: Bytes -> Hash)
    ensures Inverts(TxParser(dsha), SerForm, FormMeaning(dsha), OkForm)
  {
    hide TxOf, SerForm, OkForm;
    var item, meaning := TxParser(dsha), FormMeaning(dsha);
    forall f, rest | OkForm(f) ensures item(SerForm(f) + rest) == Got(meaning(f), |SerForm(f)|) {
      FormReads(dsha, f, rest);
    }
  }

  lemma FormsExact(dsha: Bytes -> Hash)
    ensures Exact(TxParser(dsha), SerForm, FormMeaning(dsha), OkForm)
  {
    hide TxOf, SerForm, OkForm, FormMeaning;
    var item, meaning := TxParser(dsha), FormMeaning(dsha);
    forall s | item(s).Got? ensures exists f :: Wrote(item, SerForm, meaning, OkForm, s, f) {
      var f := AcceptedWasWritten(dsha, s);
      assert s == SerForm(f) + s[|SerForm(f)|..];
      FormReads(dsha, f, s[|SerForm(f)|..]);
      assert Wrote(item, SerForm, meaning, OkForm, s, f);
    }
  }

  /** The count of a written block, and where its transactions begin. */
  lemma CountReads(header: Bytes, width: nat, forms: seq<WireForm>)
    requires |header| == HEADER_SIZE && Fits(|forms|, width)
    ensures var raw := SerBlock(header, width, forms);
            && |raw| > HEADER_SIZE && BodyStart(raw) == HEADER_SIZE + 1 + width <= |raw|
            && TxCount(raw) == |forms| && raw[BodyStart(raw)..] == Concat(SerForm, forms)
            && raw[..HEADER_SIZE] == header && raw[4..36] == header[4..36]
  {
    hide Concat, FromLE, ToLE;
    PowersOf256();
    var size, body := SizeBytes(|forms|, width), Concat(SerForm, forms);
    var raw := SerBlock(header, width, forms);
    assert raw == header + (size + body);
    assert raw[HEADER_SIZE] == size[0];
    if width > 0 {
      assert raw[HEADER_SIZE + 1..HEADER_SIZE + 1 + width] == ToLE(|forms|, width);
      FromLEOfToLE(|forms|, width);
    }
  }

  /** Parsing undoes writing, for counts of any width, as long as there are sixty bytes to a transaction. */
  lemma WrittenReads(dsha: Bytes -> Hash, header: Bytes, width: nat, forms: seq<WireForm>)
    requires |header| == HEADER_SIZE && Fits(|forms|, width) && forms != [] && OkForms(forms)
    requires 60 * |forms| <= |Concat(SerForm, forms)|
    ensures BlockOf(dsha, SerBlock(header, width, forms))
         == Accepted(Block(dsha(header), header[4..36], Map(FormMeaning(dsha), forms)))
  {
    hide TxOf, SerForm, FormMeaning, Repeat, Concat, Inverts, OkForm, SerBlock, BodyStart, TxCount;
    CountReads(header, width, forms);
    FormInverts(dsha);
    RepeatInverts(TxParser(dsha), SerForm, FormMeaning(dsha), OkForm, forms, []);
    assert Concat(SerForm, forms) + [] == Concat(SerForm, forms);
  }

  lemma WrittenSays(dsha: Bytes -> Hash, header: Bytes, forms: seq<WireForm>)
    requires |header| == HEADER_SIZE && OkForms(forms)
    ensures BlockSays(dsha, header, forms, Block(dsha(header), header[4..36], Map(FormMeaning(dsha), forms)))
  {
    hide Says, FormMeaning, OkForm;
    forall i | 0 <= i < |forms| ensures Says(dsha, forms[i], Map(FormMeaning(dsha), forms)[i]) {
      MeaningSays(dsha, forms[i]);
    }
  }

  lemma FormLength(f: WireForm)
    requires OkForm(f) && f.tx.outs != []
    ensures |SerForm(f)| >= 60
  {
    hide SerIn, SerOut, Concat, OkIn, OkOut, OkStack;
    forall i | 0 <= i < |f.tx.ins| ensures |SerIn(f.tx.ins[i])| >= 41 {
      InputInverts(f.tx.ins[i], []);
    }
    forall i | 0 <= i < |f.tx.outs| ensures |SerOut(f.tx.outs[i])| >= 9 {
      OutputInverts(f.tx.outs[i], []);
    }
    ConcatLength(SerIn, f.tx.ins, 41);
    ConcatLength(SerOut, f.tx.outs, 9);
  }

  /** So every written block is read whose transactions all pay something. */
  lemma BlockRoundTrip(dsha: Bytes -> Hash, header: Bytes, width: nat, forms: seq<WireForm>)
    requires |header| == 80 && Fits(|forms|, width) && forms != [] && OkForms(forms)
    requires forall i :: 0 <= i < |forms| ==> forms[i].tx.outs != []
    ensures var r := BlockOf(dsha, SerBlock(header, width, forms));
            r.Accepted? && BlockSays(dsha, header, forms, r.block)
  {
    hide BlockOf, SerBlock, SerForm, FormMeaning, OkForm, Concat, BlockSays;
    forall i | 0 <= i < |forms| ensures 60 <= |SerForm(forms[i])| {
      FormLength(forms[i]);
    }
    ConcatLength(SerForm, forms, 60);
    WrittenReads(dsha, header, width, forms);
    WrittenSays(dsha, header, forms);
  }

  ghost predicate WritesBlock(
    dsha: Bytes -> Hash, raw: Bytes, b: Block, header: Bytes, width: nat, forms: seq<WireForm>)
  {
    && |header| == 80 && Fits(|forms|, width) && forms != [] && OkForms(forms)
    && 60 * |forms| <= |Concat(SerForm, forms)|
    && raw == SerBlock(header, width, forms) && BlockSays(dsha, header, forms, b)
  }

  lemma AcceptedWasWrittenAs(dsha: Bytes -> Hash, raw: Bytes)
    returns (header: Bytes, width: nat, forms: seq<WireForm>)
    requires BlockOf(dsha, raw).Accepted?
    ensures WritesBlock(dsha, raw, BlockOf(dsha, raw).block, header, width, forms)
  {
    hide TxOf, SerForm, FormMeaning, Repeat, Concat, Exact, OkForm, FromLE, ToLE, Says;
    var start, count := BodyStart(raw), TxCount(raw);
    FormsExact(dsha);
    forms := RepeatExact(TxParser(dsha), SerForm, FormMeaning(dsha), OkForm, count, raw[start..]);
    header, width := raw[..HEADER_SIZE], start - HEADER_SIZE - 1;
    CountWritten(raw);
    assert Concat(SerForm, forms) == raw[start..];
    assert raw == header + raw[HEADER_SIZE..start] + raw[start..];
    WrittenSays(dsha, header, forms);
    assert header[4..36] == raw[4..36];
  }

  lemma CountWritten(raw: Bytes)
    requires |raw| > HEADER_SIZE && BodyStart(raw) <= |raw|
    ensures var start := BodyStart(raw);
            var width := start - HEADER_SIZE - 1;
            Fits(TxCount(raw), width) && SizeBytes(TxCount(raw), width) == raw[HEADER_SIZE..start]
  {
    PowersOf256();
    var start := BodyStart(raw);
    var rest := raw[HEADER_SIZE + 1..start];
    FromLEBound(rest);
    ToLEOfFromLE(rest);
    assert raw[HEADER_SIZE..start] == [raw[HEADER_SIZE]] + rest;
  }

  /** A block is accepted exactly when it is what it says, written with a count of any width and nothing behind. */
  lemma BlockAcceptedExactly(dsha: Bytes -> Hash, raw: Bytes, b: Block)
    ensures BlockOf(dsha, raw) == Accepted(b) <==>
            exists header, width, forms :: WritesBlock(dsha, raw, b, header, width, forms)
  {
    hide BlockOf, SerBlock, SerForm, FormMeaning, OkForm, Concat, Says;
    if BlockOf(dsha, raw) == Accepted(b) {
      var header, width, forms := AcceptedWasWrittenAs(dsha, raw);
    }
    if header, width, forms :| WritesBlock(dsha, raw, b, header, width, forms) {
      WrittenReads(dsha, header, width, forms);
      WrittenSays(dsha, header, forms);
      BlockSaysOneThing(dsha, header, forms, b, BlockOf(dsha, raw).block);
    }
  }

  lemma BlockSaysOneThing(dsha: Bytes -> Hash, header: Bytes, forms: seq<WireForm>, a: Block, b: Block)
    requires |header| == 80 && BlockSays(dsha, header, forms, a) && BlockSays(dsha, header, forms, b)
    ensures a == b
  {
    hide Says;
    forall i | 0 <= i < |forms| ensures a.transactions[i] == b.transactions[i] {
      SaysOneThing(dsha, forms[i], a.transactions[i], b.transactions[i]);
    }
    assert a.prevHash == b.prevHash;
  }
}
