/** The cursor that reads a transaction, proved to read what the grammar says. */
module TxReader {
  import opened Wrappers
  import opened ByteStrings
  import opened Parsing
  import opened Tx

  /** The reader did what the parser says: the same value, and the cursor moved past what was used. */
  ghost predicate Follows<T>(spec: Parsed<T>, r: Option<T>, from: nat, to: nat) {
    && from <= to
    && match spec
       case Malformed => r.None?
       case Got(x, used) => r == Some(x) && to == from + used
  }

  /** A position in a buffer; a read past the end is refused. */
  class Reader {
    const buf: Bytes
    var pos: nat
    /** Iterations of the parsing loops so far. */
    ghost var ticks: nat

    constructor (buf: Bytes)
      ensures this.buf == buf && pos == 0 && ticks == 0
    {
      this.buf, pos, ticks := buf, 0, 0;
    }

    ghost predicate Valid()
      reads this
    {
      pos <= |buf|
    }

    method Take(n: nat) returns (r: Option<Bytes>)
      requires Valid()
      modifies this`pos
      ensures Valid() && Follows(TakeOf(n, buf[old(pos)..]), r, old(pos), pos)
    {
      var end := pos + n;
      if end > |buf| {
        return None;
      }
      r := Some(buf[pos..end]);
      assert buf[pos..][..n] == buf[pos..end];
      pos := end;
    }

    method Uint(width: nat) returns (r: Option<nat>)
      requires Valid()
      modifies this`pos
      ensures Valid() && Follows(UintOf(width, buf[old(pos)..]), r, old(pos), pos)
    {
      var b :- Take(width);
      r := Some(FromLE(b));
    }

    method Varint() returns (r: Option<nat>)
      requires Valid()
      modifies this`pos
      ensures Valid() && Follows(VarintOf(buf[old(pos)..]), r, old(pos), pos)
    {
      hide UintOf, FromLE;
      var first :- Take(1);
      assert old(buf[pos..])[1..] == buf[pos..];
      if first[0] < 0xFD {
        r := Some(first[0]);
      } else if first[0] == 0xFD {
        r := Uint(2);
      } else if first[0] == 0xFE {
        r := Uint(4);
      } else {
        r := Uint(8);
      }
    }

    method Count(least: nat) returns (r: Option<nat>)
      requires Valid()
      modifies this`pos
      ensures Valid() && Follows(CountOf(least, buf[old(pos)..]), r, old(pos), pos)
    {
      hide VarintOf;
      var n :- Varint();
      if n * least > |buf| - pos {
        return None;
      }
      r := Some(n);
    }

    /** Taking as many bytes as a count says: a script, or a witness item. */
    method Script() returns (r: Option<Bytes>)
      requires Valid()
      modifies this`pos
      ensures Valid() && Follows(ScriptOf(buf[old(pos)..]), r, old(pos), pos)
    {
      hide CountOf;
      var n :- Count(1);
      assert old(buf[pos..])[pos - old(pos)..] == buf[pos..];
      r := Take(n);
    }

    /** One input: what it spends, and its script and sequence read past. */
    method Input() returns (r: Option<OutPoint>)
      requires Valid()
      modifies this`pos
      ensures Valid() && Follows(InputOf(buf[old(pos)..]), r, old(pos), pos)
    {
      hide ScriptOf, FromLE;
      ghost var s := buf[pos..];
      var txid :- Take(32);
      assert buf[pos..] == s[32..];
      var vout :- Uint(4);
      PowersOf256();
      assert buf[pos..] == s[36..];
      var script :- Script();
      assert buf[pos..] == s[pos - old(pos)..];
      var sequence :- Uint(4);
      r := Some(OutPoint(txid, vout));
    }

    /** One output's script, after a value that is read past and dropped. */
    method Output() returns (r: Option<Bytes>)
      requires Valid()
      modifies this`pos
      ensures Valid() && Follows(OutputOf(buf[old(pos)..]), r, old(pos), pos)
    {
      hide ScriptOf;
      var value :- Take(8);
      assert buf[pos..] == old(buf[pos..])[8..];
      r := Script();
    }

    method Inputs(n: nat) returns (r: Option<seq<OutPoint>>)
      requires Valid()
      modifies this
      ensures Valid() && Follows(Repeat(InputOf, n, buf[old(pos)..]), r, old(pos), pos)
      ensures ticks + old(pos) <= old(ticks) + pos + (if r.Some? then 0 else 1)
    {
      hide Repeat, After, InputOf;
      var inputs: seq<OutPoint> := [];
      AfterNothing(Repeat(InputOf, n, buf[pos..]));
      for i := 0 to n
        invariant Valid() && old(pos) <= pos && ticks + old(pos) <= old(ticks) + pos
        invariant Repeat(InputOf, n, buf[old(pos)..])
               == After(inputs, pos - old(pos), Repeat(InputOf, n - i, buf[pos..]))
      {
        ghost var s := buf[pos..];
        AfterOneMore(InputOf, n - i, s, inputs, pos - old(pos));
        ticks := ticks + 1;
        label L:
        var input :- Input();
        assert buf[pos..] == s[pos - old@L(pos)..];
        inputs := inputs + [input];
      }
      AfterAll(InputOf, buf[pos..], inputs, pos - old(pos));
      r := Some(inputs);
    }

    method Outputs(n: nat) returns (r: Option<seq<TxOutput>>)
      requires Valid()
      modifies this
      ensures Valid() && old(pos) <= pos
      ensures match Repeat(OutputOf, n, buf[old(pos)..])
              case Malformed => r.None?
              case Got(spks, used) => r == Some(Numbered(spks)) && pos == old(pos) + used
      ensures ticks + old(pos) <= old(ticks) + pos + (if r.Some? then 0 else 1)
    {
      hide Repeat, After, OutputOf;
      var outputs: seq<TxOutput> := [];
      ghost var spks: seq<Bytes> := [];
      AfterNothing(Repeat(OutputOf, n, buf[pos..]));
      for vout := 0 to n
        invariant Valid() && old(pos) <= pos && ticks + old(pos) <= old(ticks) + pos
        invariant |spks| == vout && outputs == Numbered(spks)
        invariant Repeat(OutputOf, n, buf[old(pos)..])
               == After(spks, pos - old(pos), Repeat(OutputOf, n - vout, buf[pos..]))
      {
        ghost var s := buf[pos..];
        AfterOneMore(OutputOf, n - vout, s, spks, pos - old(pos));
        ticks := ticks + 1;
        label L:
        var spk :- Output();
        assert buf[pos..] == s[pos - old@L(pos)..];
        outputs := outputs + [TxOutput(vout, spk)];
        spks := spks + [spk];
      }
      AfterAll(OutputOf, buf[pos..], spks, pos - old(pos));
      r := Some(outputs);
    }

    /** The version, and the segwit marker and flag if they are there. */
    method Prologue() returns (hasWitness: Option<bool>)
      requires Valid()
      modifies this`pos
      ensures Valid()
      ensures var s := buf[old(pos)..];
              if |s| < 4 || (HasMarker(s) && s[5] == 0) then hasWitness.None?
              else hasWitness == Some(HasMarker(s)) && pos == old(pos) + (if HasMarker(s) then 6 else 4)
    {
      hide FromLE;
      var start := pos;
      var version :- Uint(4);
      hasWitness := Some(false);
      if |buf| >= start + 6 && buf[start + 4] == 0 {
        if buf[start + 5] == 0 {
          return None;
        }
        var marker := Take(2);
        hasWitness := Some(true);
      }
    }

    /** The input section and the output section. */
    method Sections() returns (r: Option<(seq<OutPoint>, seq<TxOutput>)>)
      requires Valid()
      modifies this
      ensures Valid() && match BodyOf(buf[old(pos)..])
                         case Malformed => r.None?
                         case Got(body, used) => r == Some((body.spends, Numbered(body.spks))) && pos == old(pos) + used
      ensures old(pos) <= pos && ticks + old(pos) <= old(ticks) + pos + (if r.Some? then 0 else 1)
    {
      hide CountOf, InputOf, OutputOf, Repeat;
      var nIn :- Count(41);
      if nIn == 0 {
        return None;
      }
      assert buf[old(pos)..][pos - old(pos)..] == buf[pos..];
      var inputs :- Inputs(nIn);
      ghost var outs := pos;
      assert buf[old(pos)..][outs - old(pos)..] == buf[outs..];
      var nOut :- Count(9);
      assert buf[outs..][pos - outs..] == buf[pos..];
      var outputs :- Outputs(nOut);
      r := Some((inputs, outputs));
    }

    /** One input's witness items, read past. */
    method Stack() returns (ok: bool)
      requires Valid()
      modifies this
      ensures Valid() && old(pos) <= pos
      ensures match StackOf(buf[old(pos)..])
              case Malformed => !ok
              case Got(_, used) => ok && pos == old(pos) + used
      ensures ticks + old(pos) <= old(ticks) + pos + (if ok then 0 else 1)
    {
      hide CountOf, ScriptOf, Repeat, After;
      var n := Count(1);
      if n.None? {
        return false;
      }
      ghost var start, items: seq<Bytes> := pos, [];
      assert buf[old(pos)..][start - old(pos)..] == buf[start..];
      AfterNothing(Repeat(ScriptOf, n.value, buf[start..]));
      for i := 0 to n.value
        invariant Valid() && start <= pos && ticks + start <= old(ticks) + pos
        invariant Repeat(ScriptOf, n.value, buf[start..])
               == After(items, pos - start, Repeat(ScriptOf, n.value - i, buf[pos..]))
      {
        ghost var s := buf[pos..];
        AfterOneMore(ScriptOf, n.value - i, s, items, pos - start);
        ticks := ticks + 1;
        label L:
        var item := Script();
        if item.None? {
          return false;
        }
        assert buf[pos..] == s[pos - old@L(pos)..];
        items := items + [item.value];
      }
      AfterAll(ScriptOf, buf[pos..], items, pos - start);
      ok := true;
    }

    method Witness(n: nat) returns (ok: bool)
      requires Valid()
      modifies this
      ensures Valid() && old(pos) <= pos
      ensures match Repeat(StackOf, n, buf[old(pos)..])
              case Malformed => !ok
              case Got(_, used) => ok && pos == old(pos) + used
      ensures ticks + 2 * old(pos) <= old(ticks) + 2 * pos + (if ok then 0 else 2)
    {
      hide CountedOf, Repeat, After;
      ghost var stacks: seq<seq<Bytes>> := [];
      AfterNothing(Repeat(StackOf, n, buf[pos..]));
      for i := 0 to n
        invariant Valid() && old(pos) <= pos && ticks + 2 * old(pos) <= old(ticks) + 2 * pos
        invariant Repeat(StackOf, n, buf[old(pos)..])
               == After(stacks, pos - old(pos), Repeat(StackOf, n - i, buf[pos..]))
      {
        ghost var s := buf[pos..];
        AfterOneMore(StackOf, n - i, s, stacks, pos - old(pos));
        ticks := ticks + 1;
        label L:
        var read := Stack();
        if !read {
          return false;
        }
        assert buf[pos..] == s[pos - old@L(pos)..];
        stacks := stacks + [StackOf(s).value];
      }
      AfterAll(StackOf, buf[pos..], stacks, pos - old(pos));
      ok := true;
    }

    /** The witness, if there is one, and the lock time; the result is where the lock time begins. */
    method Epilogue(hasWitness: bool, n: nat) returns (locktimeStart: Option<nat>)
      requires Valid()
      modifies this
      ensures Valid() && old(pos) <= pos
      ensures var s := buf[old(pos)..];
              var w := WitnessOf(hasWitness, n, s);
              if w.Malformed? || |s| < w.used + 4 then locktimeStart.None?
              else locktimeStart == Some(old(pos) + w.used) && pos == old(pos) + w.used + 4
      ensures ticks + 2 * old(pos) <= old(ticks) + 2 * pos + (if locktimeStart.Some? then 0 else 2)
    {
      hide StackOf, Repeat, FromLE;
      if hasWitness {
        var ok := Witness(n);
        if !ok {
          return None;
        }
      }
      locktimeStart := Some(pos);
      var locktime :- Uint(4);
    }
  }

  /** The witness-stripped bytes, by slices of the whole buffer. */
  function Stripped(raw: Bytes, start: nat, segwit: bool, witnessStart: nat, locktimeStart: nat, end: nat): Bytes
    requires start + 6 <= witnessStart <= locktimeStart <= end <= |raw|
  {
    if segwit then raw[start..start + 4] + raw[start + 6..witnessStart] + raw[locktimeStart..end]
    else raw[start..end]
  }

  /** The preimage by slices of the whole buffer, and the transaction it identifies. */
  lemma TxFrom(dsha: Bytes -> Hash, raw: Bytes, start: nat, l: Layout, end: nat)
    requires start <= end <= |raw| && LayoutOf(raw[start..]) == Got(l, end - start)
    ensures var preimage :=
              Stripped(raw, start, l.hasWitness, start + l.witnessStart, start + l.locktimeStart, end);
            var coinbase := SpendsNothing(l.body.spends);
            TxOf(dsha, raw[start..]) == Got(
              Transaction(dsha(preimage), if coinbase then [] else l.body.spends,
                          Numbered(l.body.spks), coinbase, l.hasWitness), end - start)
  {
    hide LayoutOf;
    var s := raw[start..];
    assert s[..end - start] == raw[start..end] && s[..4] == raw[start..start + 4];
    assert s[6..l.witnessStart] == raw[start + 6..start + l.witnessStart];
    assert s[l.locktimeStart..end - start] == raw[start + l.locktimeStart..end];
  }

  lemma TxFails(dsha: Bytes -> Hash, s: Bytes)
    ensures var start := if HasMarker(s) then 6 else 4;
            TxOf(dsha, s).Malformed? <==>
            || |s| < start
            || (HasMarker(s) && s[5] == 0)
            || BodyOf(s[start..]).Malformed?
            || var Got(body, b) := BodyOf(s[start..]);
               var w := WitnessOf(HasMarker(s), |body.spends|, s[start + b..]);
               w.Malformed? || |s| < start + b + w.used + 4
  {
    hide LayoutOf, BodyOf, WitnessOf;
    LayoutFails(s);
  }

  predicate FoundAt<T(==)>(spec: Parsed<T>, r: Option<(T, nat)>, start: nat) {
    match spec
    case Malformed => r.None?
    case Got(x, used) => r == Some((x, start + used))
  }

  /** The transaction at `start` and the offset just past it.  `ticks` counts loop iterations. */
  method ReadTx(dsha: Bytes -> Hash, raw: Bytes, start: nat) returns (r: Option<(Transaction, nat)>, ghost ticks: nat)
    ensures start > |raw| ==> r.None?
    ensures start <= |raw| ==> FoundAt(TxOf(dsha, raw[start..]), r, start)
    ensures start <= |raw| ==> ticks <= 2 * ((if r.Some? then r.value.1 else |raw| + 1) - start)
  {
    hide BodyOf, WitnessOf, StackOf, Repeat, Numbered, Preimage, LayoutOf, TxOf, Stripped, SpendsNothing;
    var reader := new Reader(raw);
    reader.pos := start;
    ticks := 0;
    if start > |raw| {
      return None, 0;
    }
    ghost var s := raw[start..];
    var marker := reader.Prologue();
    if marker.None? {
      TxFails(dsha, s);
      return None, 0;
    }
    var hasWitness := marker.value;
    ghost var first := reader.pos;
    assert raw[first..] == s[first - start..];
    var sections := reader.Sections();
    ticks := reader.ticks;
    if sections.None? {
      TxFails(dsha, s);
      return None, ticks;
    }
    var (inputs, outputs) := sections.value;
    var isCoinbase := SpendsNothing(inputs);
    var witnessStart := reader.pos;
    assert raw[witnessStart..] == s[witnessStart - start..];
    var tail := reader.Epilogue(hasWitness, |inputs|);
    ticks := reader.ticks;
    if tail.None? {
      TxFails(dsha, s);
      return None, ticks;
    }
    var locktimeStart := tail.value;
    var end := reader.pos;
    var preimage := Stripped(raw, start, hasWitness, witnessStart, locktimeStart, end);
    ghost var Got(body, b) := BodyOf(s[first - start..]);
    ghost var Got(stacks, c) := WitnessOf(hasWitness, |body.spends|, s[witnessStart - start..]);
    LayoutFrom(s, first - start, body, witnessStart - start, stacks, c);
    TxFrom(dsha, raw, start, Layout(hasWitness, body, witnessStart - start, locktimeStart - start), end);
    var tx := Transaction(dsha(preimage), if isCoinbase then [] else inputs, outputs, isCoinbase, hasWitness);
    return Some((tx, end)), ticks;
  }

  method ParseRawTx(dsha: Bytes -> Hash, raw: Bytes) returns (r: Option<Transaction>)
    ensures r == ParseTx(dsha, raw)
  {
    hide LayoutOf;
    assert raw[0..] == raw;
    var read, _ := ReadTx(dsha, raw, 0);
    if read.None? || read.value.1 != |raw| {
      return None;
    }
    return Some(read.value.0);
  }
}
