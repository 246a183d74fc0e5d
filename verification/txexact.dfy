/** What the transaction parser accepts: what can be written, and nothing else. */
module TxExact {
  import opened ByteStrings
  import opened Parsing
  import opened Tx
  import opened TxRoundTrip

  /** `u` is what the bytes at the front of `s` are written from. */
  ghost predicate Wrote<U(!new), T(!new)>(
    item: Parser<T>, ser: U -> Bytes, meaning: U -> T, ok: U -> bool, s: Bytes, u: U)
  {
    ok(u) && ser(u) <= s && item(s) == Got(meaning(u), |ser(u)|)
  }

  /** Whatever is read was written. */
  ghost predicate Exact<U(!new), T(!new)>(item: Parser<T>, ser: U -> Bytes, meaning: U -> T, ok: U -> bool) {
    forall s :: item(s).Got? ==> exists u :: Wrote(item, ser, meaning, ok, s, u)
  }

  lemma UintExact(width: nat, s: Bytes)
    requires UintOf(width, s).Got?
    ensures ToLE(UintOf(width, s).value, width) == s[..width]
  {
    ToLEOfFromLE(s[..width]);
  }

  lemma VarintExact(s: Bytes) returns (width: nat)
    requires VarintOf(s).Got?
    ensures var r := VarintOf(s);
            Fits(r.value, width) && r.used == 1 + width && SizeBytes(r.value, width) == s[..1 + width]
  {
    PowersOf256();
    width := if s[0] < 0xFD then 0 else if s[0] == 0xFD then 2 else if s[0] == 0xFE then 4 else 8;
    if width > 0 {
      UintExact(width, s[1..]);
      assert s[..1 + width] == [s[0]] + s[1..][..width];
    } else {
      assert s[..1] == [s[0]];
    }
  }

  lemma BytesExact(s: Bytes) returns (b: WireBytes)
    requires ScriptOf(s).Got?
    ensures Wrote(ScriptOf, SerBytes, Content, OkBytes, s, b)
  {
    hide VarintOf, SizeBytes;
    var size := VarintOf(s);
    var width := VarintExact(s);
    var n, a := size.value, size.used;
    b := WireBytes(width, s[a..][..n]);
    assert SerBytes(b) == s[..a] + s[a..a + n] == s[..a + n];
  }

  lemma InputExact(s: Bytes) returns (i: WireIn)
    requires InputOf(s).Got?
    ensures Wrote(InputOf, SerIn, Spend, OkIn, s, i)
  {
    hide ScriptOf, SerBytes, ToLE, FromLE;
    PowersOf256();
    var vout := UintOf(4, s[32..]);
    UintExact(4, s[32..]);
    var script := BytesExact(s[36..]);
    var c := |SerBytes(script)|;
    FromLEBound(s[36 + c..][..4]);
    var sequence := FromLE(s[36 + c..][..4]);
    ToLEOfFromLE(s[36 + c..][..4]);
    i := WireIn(s[..32], vout.value, script, sequence);
    assert s[32..][..4] == s[32..36] && s[36..][..c] == s[36..36 + c] && s[36 + c..][..4] == s[36 + c..40 + c];
    assert SerIn(i) == s[..32] + s[32..36] + s[36..36 + c] + s[36 + c..40 + c] == s[..40 + c];
  }

  lemma OutputExact(s: Bytes) returns (o: WireOut)
    requires OutputOf(s).Got?
    ensures Wrote(OutputOf, SerOut, Pays, OkOut, s, o)
  {
    hide ScriptOf, SerBytes, ToLE, FromLE;
    PowersOf256();
    FromLEBound(s[..8]);
    ToLEOfFromLE(s[..8]);
    var spk := BytesExact(s[8..]);
    o := WireOut(FromLE(s[..8]), spk);
    var c := |SerBytes(spk)|;
    assert s[8..][..c] == s[8..8 + c];
    assert SerOut(o) == s[..8] + s[8..8 + c] == s[..8 + c];
  }

  lemma ItemsExact()
    ensures Exact(InputOf, SerIn, Spend, OkIn)
    ensures Exact(OutputOf, SerOut, Pays, OkOut)
    ensures Exact(ScriptOf, SerBytes, Content, OkBytes)
  {
    hide InputOf, OutputOf, ScriptOf, Wrote;
    forall s | InputOf(s).Got? ensures exists i :: Wrote(InputOf, SerIn, Spend, OkIn, s, i) {
      var i := InputExact(s);
    }
    forall s | OutputOf(s).Got? ensures exists o :: Wrote(OutputOf, SerOut, Pays, OkOut, s, o) {
      var o := OutputExact(s);
    }
    forall s | ScriptOf(s).Got? ensures exists b :: Wrote(ScriptOf, SerBytes, Content, OkBytes, s, b) {
      var b := BytesExact(s);
    }
  }

  lemma {:induction false} RepeatExact<U(!new), T(!new)>(
    item: Parser<T>, ser: U -> Bytes, meaning: U -> T, ok: U -> bool, n: nat, s: Bytes) returns (us: seq<U>)
    requires Exact(item, ser, meaning, ok) && Repeat(item, n, s).Got?
    ensures |us| == n && (forall i :: 0 <= i < n ==> ok(us[i])) && Concat(ser, us) <= s
    ensures Repeat(item, n, s) == Got(Map(meaning, us), |Concat(ser, us)|)
  {
    hide Exact, Wrote;
    us := [];
    if n > 0 {
      ExactHere(item, ser, meaning, ok, s);
      var u :| Wrote(item, ser, meaning, ok, s, u);
      WroteMeans(item, ser, meaning, ok, s, u);
      var rest := RepeatExact(item, ser, meaning, ok, n - 1, s[|ser(u)|..]);
      us := [u] + rest;
      assert Map(meaning, us) == [meaning(u)] + Map(meaning, rest);
      assert us[1..] == rest;
      assert s == ser(u) + s[|ser(u)|..];
    }
  }

  lemma WroteMeans<U(!new), T(!new)>(
    item: Parser<T>, ser: U -> Bytes, meaning: U -> T, ok: U -> bool, s: Bytes, u: U)
    requires Wrote(item, ser, meaning, ok, s, u)
    ensures ok(u) && ser(u) <= s && item(s) == Got(meaning(u), |ser(u)|)
  {
  }

  lemma ExactHere<U(!new), T(!new)>(item: Parser<T>, ser: U -> Bytes, meaning: U -> T, ok: U -> bool, s: Bytes)
    requires Exact(item, ser, meaning, ok) && item(s).Got?
    ensures exists u :: Wrote(item, ser, meaning, ok, s, u)
  {
  }

  lemma CountedExact<U(!new), T(!new)>(
    least: nat, item: Parser<T>, ser: U -> Bytes, meaning: U -> T, ok: U -> bool, s: Bytes)
    returns (width: nat, us: seq<U>)
    requires Exact(item, ser, meaning, ok) && CountedOf(least, item, s).Got?
    ensures Fits(|us|, width) && (forall i :: 0 <= i < |us| ==> ok(us[i]))
    ensures SizeBytes(|us|, width) + Concat(ser, us) <= s
    ensures CountedOf(least, item, s) == Got(Map(meaning, us), 1 + width + |Concat(ser, us)|)
  {
    hide Exact, VarintOf, SizeBytes, Repeat, Concat;
    width := VarintExact(s);
    us := RepeatExact(item, ser, meaning, ok, VarintOf(s).value, s[1 + width..]);
    assert s == s[..1 + width] + s[1 + width..];
  }

  lemma StacksExact()
    ensures Exact(StackOf, SerStack, Contents, OkStack)
  {
    hide CountedOf, SizeBytes, Concat, SerBytes, ScriptOf, OkBytes, Wrote, Exact;
    forall s | StackOf(s).Got? ensures exists stack :: Wrote(StackOf, SerStack, Contents, OkStack, s, stack) {
      var stack := StackExact(s);
    }
    ExactMeans(StackOf, SerStack, Contents, OkStack);
  }

  lemma StackExact(s: Bytes) returns (stack: WireStack)
    requires StackOf(s).Got?
    ensures Wrote(StackOf, SerStack, Contents, OkStack, s, stack)
  {
    hide CountedOf, SizeBytes, Concat, SerBytes, ScriptOf, OkBytes, Exact;
    ItemsExact();
    var width, items := CountedExact(1, ScriptOf, SerBytes, Content, OkBytes, s);
    stack := WireStack(width, items);
  }

  lemma ExactMeans<U(!new), T(!new)>(item: Parser<T>, ser: U -> Bytes, meaning: U -> T, ok: U -> bool)
    requires forall s :: item(s).Got? ==> exists u :: Wrote(item, ser, meaning, ok, s, u)
    ensures Exact(item, ser, meaning, ok)
  {
  }

  /** The body of a transaction, whatever its version and lock time. */
  lemma BodyExact(s: Bytes) returns (tx: WireTx)
    requires BodyOf(s).Got?
    ensures WellFormed(tx) && SerBody(tx) <= s && BodyOf(s) == Got(BodyMeaning(tx), |SerBody(tx)|)
  {
    hide CountedOf, SizeBytes, Concat, InputOf, OutputOf, SerIn, SerOut, OkIn, OkOut, Exact;
    ItemsExact();
    var insWidth, ins := CountedExact(41, InputOf, SerIn, Spend, OkIn, s);
    var a := 1 + insWidth + |Concat(SerIn, ins)|;
    var outsWidth, outs := CountedExact(9, OutputOf, SerOut, Pays, OkOut, s[a..]);
    tx := WireTx(0, insWidth, ins, outsWidth, outs, 0);
    assert SerIns(tx) == s[..a] && |SerIns(tx)| == a;
    assert s == s[..a] + s[a..] && SerOuts(tx) <= s[a..];
  }

  lemma WitnessExact(segwit: bool, n: nat, s: Bytes) returns (stacks: seq<WireStack>)
    requires WitnessOf(segwit, n, s).Got?
    ensures if segwit then |stacks| == n else stacks == []
    ensures (forall i :: 0 <= i < |stacks| ==> OkStack(stacks[i])) && Concat(SerStack, stacks) <= s
    ensures WitnessOf(segwit, n, s) == Got(Map(Contents, stacks), |Concat(SerStack, stacks)|)
  {
    hide StackOf, SerStack, OkStack, Contents, Exact, Repeat;
    stacks := [];
    if segwit {
      StacksExact();
      stacks := RepeatExact(StackOf, SerStack, Contents, OkStack, n, s);
    }
  }

  /** The number four bytes stand for, and back. */
  lemma WordExact(b: Bytes) returns (n: uint32)
    requires |b| == 4
    ensures ToLE(n, 4) == b
  {
    PowersOf256();
    FromLEBound(b);
    ToLEOfFromLE(b);
    n := FromLE(b);
  }

  function Rewrapped(tx: WireTx, version: uint32, locktime: uint32): WireTx {
    tx.(version := version, locktime := locktime)
  }

  lemma RewrappedIs(tx: WireTx, version: uint32, locktime: uint32)
    requires WellFormed(tx)
    ensures var tx' := Rewrapped(tx, version, locktime);
            && WellFormed(tx') && SerBody(tx') == SerBody(tx)
            && tx'.version == version && tx'.locktime == locktime && |tx'.ins| == |tx.ins| == |BodyMeaning(tx).spends|
  {
    hide SizeBytes, Concat;
  }

  /** The parts of an accepted transaction, put back together. */
  lemma PartsExact(s: Bytes, segwit: bool) returns (tx: WireTx, stacks: seq<WireStack>)
    requires LayoutOf(s).Got? && segwit == HasMarker(s)
    ensures WellFormed(tx) && (if segwit then |stacks| == |tx.ins| else stacks == [])
    ensures forall i :: 0 <= i < |stacks| ==> OkStack(stacks[i])
    ensures var start := if segwit then 6 else 4;
            var w := start + |SerBody(tx)|;
            var c := |Concat(SerStack, stacks)|;
            && w + c + 4 == LayoutOf(s).used <= |s| && s[..4] == ToLE(tx.version, 4) && s[start..w] == SerBody(tx)
            && s[w..w + c] == Concat(SerStack, stacks) && s[w + c..w + c + 4] == ToLE(tx.locktime, 4)
  {
    hide BodyOf, WitnessOf, SerBody, Concat, OkStack, OkIn, OkOut, ToLE;
    var start := if segwit then 6 else 4;
    var body := BodyExact(s[start..]);
    var w := start + |SerBody(body)|;
    stacks := WitnessExact(segwit, |BodyMeaning(body).spends|, s[w..]);
    var c := |Concat(SerStack, stacks)|;
    var version := WordExact(s[..4]);
    var locktime := WordExact(s[w + c..w + c + 4]);
    tx := Rewrapped(body, version, locktime);
    RewrappedIs(body, version, locktime);
    assert s[start..][..w - start] == s[start..w] && s[w..][..c] == s[w..w + c];
  }

  /** Whatever the parser accepts was written, in one of the two forms. */
  lemma AcceptedWasWritten(dsha: Bytes -> Hash, s: Bytes) returns (f: WireForm)
    requires TxOf(dsha, s).Got?
    ensures OkForm(f) && SerForm(f) <= s && |SerForm(f)| == TxOf(dsha, s).used
  {
    hide Meaning, Preimage, SerBody, Concat, OkStack, WellFormed, ToLE, BodyOf, WitnessOf;
    var segwit := HasMarker(s);
    var tx, stacks := PartsExact(s, segwit);
    var start := if segwit then 6 else 4;
    var w := start + |SerBody(tx)|;
    var c := |Concat(SerStack, stacks)|;
    hide LayoutOf;
    if segwit {
      f := Segwit(tx, s[5], stacks);
      FlagIsSet(s);
      assert s[4..6] == [0, s[5]];
      assert s[..w + c + 4] == s[..4] + s[4..6] + s[6..w] + s[w..w + c] + s[w + c..w + c + 4];
    } else {
      f := Legacy(tx);
      NoStacks(stacks);
      assert s[..w + 4] == s[..4] + s[4..w] + s[w..w + 4];
    }
  }

  lemma FlagIsSet(s: Bytes)
    requires LayoutOf(s).Got? && HasMarker(s)
    ensures s[5] != 0
  {
    hide BodyOf, WitnessOf;
  }

  lemma NoStacks(stacks: seq<WireStack>)
    requires stacks == []
    ensures Concat(SerStack, stacks) == []
  {
  }

  ghost predicate Writes(dsha: Bytes -> Hash, f: WireForm, s: Bytes, read: Transaction, used: nat) {
    OkForm(f) && SerForm(f) <= s && |SerForm(f)| == used && Says(dsha, f, read)
  }

  /** Reading gives a transaction exactly when the bytes at the front are one of its two forms, counts of any width. */
  lemma AcceptedExactly(dsha: Bytes -> Hash, s: Bytes, read: Transaction, used: nat)
    ensures TxOf(dsha, s) == Got(read, used) <==> exists f :: Writes(dsha, f, s, read, used)
  {
    hide TxOf, SerForm, OkForm, Says;
    if TxOf(dsha, s) == Got(read, used) {
      var f := AcceptedWasWritten(dsha, s);
      assert s == SerForm(f) + s[used..];
      RoundTrip(dsha, f, s[used..]);
      assert Writes(dsha, f, s, read, used);
    }
    if f :| Writes(dsha, f, s, read, used) {
      assert s == SerForm(f) + s[used..];
      RoundTrip(dsha, f, s[used..]);
      SaysOneThing(dsha, f, read, TxOf(dsha, s).value);
    }
  }

  /** What a written transaction says determines what is read. */
  lemma SaysOneThing(dsha: Bytes -> Hash, f: WireForm, a: Transaction, b: Transaction)
    requires Says(dsha, f, a) && Says(dsha, f, b)
    ensures a == b
  {
    hide WellFormed, SerLegacy, WrittenCoinbase;
    assert a.inputs == b.inputs;
    assert a.outputs == b.outputs;
  }
}
