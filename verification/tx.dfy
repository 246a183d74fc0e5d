/** The raw-transaction parser: what the bytes mean, and what the cursor-based reader returns. */
module Tx {
  import opened Wrappers
  import opened ByteStrings
  import opened Parsing

  type uint32 = n: int | 0 <= n < 0x1_0000_0000

  const COINBASE_VOUT: uint32 := 0xFFFF_FFFF

  datatype OutPoint = OutPoint(txid: Hash, vout: uint32)

  /** No value field: amounts are read past and dropped. */
  datatype TxOutput = TxOutput(vout: nat, spk: Bytes)

  datatype Transaction = Transaction(
    txid: Hash, inputs: seq<OutPoint>, outputs: seq<TxOutput>, isCoinbase: bool, hasWitness: bool)

  // ----- the grammar

  function TakeOf(n: nat, s: Bytes): (r: Parsed<Bytes>)
    ensures r.Got? ==> r.used == n <= |s|
  {
    if n <= |s| then Got(s[..n], n) else Malformed
  }

  function UintOf(width: nat, s: Bytes): (r: Parsed<nat>)
    ensures r.Got? ==> r.used == width <= |s| && r.value < Pow(256, width)
  {
    var (b, used) :- TakeOf(width, s);
    FromLEBound(b);
    Got(FromLE(b), used)
  }

  /** A compact size: one byte, or a marker and two, four or eight. Longer forms than needed are let through. */
  function VarintOf(s: Bytes): (r: Parsed<nat>)
    ensures r.Got? ==> 1 <= r.used <= |s|
  {
    if s == [] then Malformed else
    var width := if s[0] < 0xFD then 0 else if s[0] == 0xFD then 2 else if s[0] == 0xFE then 4 else 8;
    if width == 0 then Got(s[0], 1) else
    var (n, used) :- UintOf(width, s[1..]);
    Got(n, 1 + used)
  }

  /** An element count, refused when the elements could not fit in what is left. */
  function CountOf(least: nat, s: Bytes): (r: Parsed<nat>)
    ensures r.Got? ==> 1 <= r.used <= |s|
  {
    var (n, used) :- VarintOf(s);
    if n * least > |s| - used then Malformed else Got(n, used)
  }

  /** A count and that many items back to back. */
  function CountedOf<T>(least: nat, item: Parser<T>, s: Bytes): (r: Parsed<seq<T>>)
    ensures r.Got? ==> 1 <= r.used <= |s|
  {
    var (n, a) :- CountOf(least, s);
    var (xs, b) :- Repeat(item, n, s[a..]);
    Got(xs, a + b)
  }

  function ScriptOf(s: Bytes): (r: Parsed<Bytes>)
    ensures r.Got? ==> 1 <= r.used <= |s|
  {
    var (n, a) :- CountOf(1, s);
    var (script, b) :- TakeOf(n, s[a..]);
    Got(script, a + b)
  }

  function InputOf(s: Bytes): (r: Parsed<OutPoint>)
    ensures r.Got? ==> 41 <= r.used <= |s|
  {
    var (txid, a) :- TakeOf(32, s);
    var (vout, b) :- UintOf(4, s[a..]);
    PowersOf256();
    var (_, c) :- ScriptOf(s[a + b..]);
    var (_, d) :- TakeOf(4, s[a + b + c..]);
    Got(OutPoint(txid, vout), a + b + c + d)
  }

  function OutputOf(s: Bytes): (r: Parsed<Bytes>)
    ensures r.Got? ==> 9 <= r.used <= |s|
  {
    var (_, a) :- TakeOf(8, s);
    var (spk, b) :- ScriptOf(s[a..]);
    Got(spk, a + b)
  }

  function StackOf(s: Bytes): (r: Parsed<seq<Bytes>>)
    ensures r.Got? ==> 1 <= r.used <= |s|
  {
    CountedOf(1, ScriptOf, s)
  }

  datatype Body = Body(spends: seq<OutPoint>, spks: seq<Bytes>)

  /** The input section, which may not be empty, and the output section. */
  function BodyOf(s: Bytes): (r: Parsed<Body>)
    ensures r.Got? ==> 2 <= r.used <= |s| && r.value.spends != []
  {
    var (spends, a) :- CountedOf(41, InputOf, s);
    if spends == [] then Malformed else
    var (spks, b) :- CountedOf(9, OutputOf, s[a..]);
    Got(Body(spends, spks), a + b)
  }

  /** One witness stack per input, or nothing at all in a legacy transaction. */
  function WitnessOf(segwit: bool, n: nat, s: Bytes): (r: Parsed<seq<seq<Bytes>>>)
    ensures r.Got? ==> r.used <= |s|
  {
    if segwit then Repeat(StackOf, n, s) else Got([], 0)
  }

  /** What a transaction says, and where its two witness boundaries are. */
  datatype Layout = Layout(hasWitness: bool, body: Body, witnessStart: nat, locktimeStart: nat)

  /** Byte 4 is a segwit marker exactly when it is zero and a flag byte follows it. */
  predicate HasMarker(s: Bytes) {
    |s| >= 6 && s[4] == 0
  }

  function LayoutOf(s: Bytes): (r: Parsed<Layout>)
    ensures r.Got? ==>
      && r.value.hasWitness == HasMarker(s) && r.value.body.spends != []
      && 6 <= r.value.witnessStart <= r.value.locktimeStart
      && r.used == r.value.locktimeStart + 4 <= |s|
  {
    var (_, v) :- TakeOf(4, s);
    var segwit := HasMarker(s);
    if segwit && s[5] == 0 then Malformed else
    var start := if segwit then 6 else 4;
    var (body, b) :- BodyOf(s[start..]);
    var wits := start + b;
    var (_, c) :- WitnessOf(segwit, |body.spends|, s[wits..]);
    var (_, d) :- TakeOf(4, s[wits + c..]);
    Got(Layout(segwit, body, wits, wits + c), wits + c + d)
  }

  /** The layout of a buffer, put together from its parts. */
  lemma LayoutFrom(s: Bytes, start: nat, body: Body, w: nat, stacks: seq<seq<Bytes>>, c: nat)
    requires start == (if HasMarker(s) then 6 else 4) && (HasMarker(s) ==> s[5] != 0)
    requires start <= w && w + c + 4 <= |s|
    requires BodyOf(s[start..]) == Got(body, w - start)
    requires WitnessOf(HasMarker(s), |body.spends|, s[w..]) == Got(stacks, c)
    ensures LayoutOf(s) == Got(Layout(HasMarker(s), body, w, w + c), w + c + 4)
  {
    hide BodyOf, WitnessOf;
  }

  /** Every way a layout can fail. */
  lemma LayoutFails(s: Bytes)
    ensures var start := if HasMarker(s) then 6 else 4;
            LayoutOf(s).Malformed? <==>
            || |s| < start
            || (HasMarker(s) && s[5] == 0)
            || BodyOf(s[start..]).Malformed?
            || var Got(body, b) := BodyOf(s[start..]);
               var w := WitnessOf(HasMarker(s), |body.spends|, s[start + b..]);
               w.Malformed? || |s| < start + b + w.used + 4
  {
    hide BodyOf, WitnessOf;
  }

  /** The witness-stripped bytes, by slicing. */
  function Preimage(s: Bytes, l: Layout, used: nat): Bytes
    requires 6 <= l.witnessStart <= l.locktimeStart <= used <= |s|
  {
    if l.hasWitness then s[..4] + s[6..l.witnessStart] + s[l.locktimeStart..used] else s[..used]
  }

  predicate SpendsNothing(spends: seq<OutPoint>) {
    |spends| == 1 && spends[0] == OutPoint(Zeros(32), COINBASE_VOUT)
  }

  function Numbered(spks: seq<Bytes>): (outs: seq<TxOutput>)
    ensures |outs| == |spks| && forall i :: 0 <= i < |spks| ==> outs[i] == TxOutput(i, spks[i])
  {
    seq(|spks|, i requires 0 <= i < |spks| => TxOutput(i, spks[i]))
  }

  function Meaning(txid: Hash, body: Body, segwit: bool): Transaction {
    var coinbase := SpendsNothing(body.spends);
    Transaction(txid, if coinbase then [] else body.spends, Numbered(body.spks), coinbase, segwit)
  }

  /** One transaction at the front of `s`. `dsha` is the double SHA-256. */
  function TxOf(dsha: Bytes -> Hash, s: Bytes): (r: Parsed<Transaction>)
    ensures r.Got? ==> r.used <= |s|
  {
    var (l, used) :- LayoutOf(s);
    Got(Meaning(dsha(Preimage(s, l, used)), l.body, l.hasWitness), used)
  }

  function TxParser(dsha: Bytes -> Hash): Parser<Transaction> {
    s => TxOf(dsha, s)
  }

  /** A buffer holding exactly one transaction. */
  function ParseTx(dsha: Bytes -> Hash, raw: Bytes): Option<Transaction> {
    match TxOf(dsha, raw)
    case Got(tx, used) => if used == |raw| then Some(tx) else None
    case Malformed => None
  }
}
