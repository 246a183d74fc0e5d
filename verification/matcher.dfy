/** The matcher's three mutable parts, each proved to do what the specification functions say. */
module Matching {
  import opened ByteStrings
  import opened Tx
  import opened MatchSpec
  import opened RecordProofs
  import opened OverlayProofs

  /** The dict-backed index: items by watched script, and items by owned outpoint. */
  class InMemoryWatchIndex {
    var bySpk: Owners
    var byOutpoint: Owners

    /** Each pair enrols an item for a script hash, in order. */
    constructor (watched: seq<(int, Bytes)>)
      ensures byOutpoint == map[]
      ensures forall i, h :: Owns(bySpk, i, h) <==> (i, h) in watched
    {
      bySpk, byOutpoint := map[], map[];
      new;
      for n := 0 to |watched|
        invariant byOutpoint == map[]
        invariant forall i, h :: Owns(bySpk, i, h) <==> (i, h) in watched[..n]
      {
        var (item, h) := watched[n];
        bySpk := bySpk[h := ItemsOf(bySpk, h) + [item]];
        assert watched[..n + 1] == watched[..n] + [(item, h)];
      }
    }

    function ItemsWatchingSpk(h: Bytes): seq<int>
      reads this
    {
      ItemsOf(bySpk, h)
    }

    function ItemsOwningOutpoint(h: Bytes): seq<int>
      reads this
    {
      ItemsOf(byOutpoint, h)
    }

    method AddOutpoint(item: int, h: Bytes)
      modifies this`byOutpoint
      ensures byOutpoint == AddOwner(old(byOutpoint), item, h)
    {
      var owners := if h in byOutpoint then byOutpoint[h] else [];
      if item !in owners {
        byOutpoint := byOutpoint[h := owners + [item]];
      }
    }

    method DropOutpoint(item: int, h: Bytes)
      modifies this`byOutpoint
      ensures byOutpoint == DropOwner(old(byOutpoint), item, h)
    {
      if h !in byOutpoint || item !in byOutpoint[h] {
        return;
      }
      var owners := RemoveFirst(byOutpoint[h], item);
      if owners == [] {
        byOutpoint := byOutpoint - {h};
      } else {
        byOutpoint := byOutpoint[h := owners];
      }
    }
  }

  /** The overlay: what pending transactions pay to watched scripts, for at most `maxlen` of them. */
  class ProvisionalOutpoints {
    const maxlen: nat
    var byOutpoint: Owners
    var order: seq<Hash>
    var created: map<Hash, seq<Bytes>>
    var evicted: nat

    constructor (maxlen: nat)
      requires 1 <= maxlen
      ensures Value() == Overlay(maxlen, map[], [], map[], 0) && Bounded(Value()) && OverlayValid(Value())
    {
      this.maxlen, byOutpoint, order, created, evicted := maxlen, map[], [], map[], 0;
    }

    function Value(): Overlay
      reads this
    {
      Overlay(maxlen, byOutpoint, order, created, evicted)
    }

    method Add(txid: Hash, item: int, h: Bytes)
      requires Bounded(Value())
      modifies this
      ensures Value() == OverlayAdd(old(Value()), txid, item, h) && Bounded(Value())
      ensures old(OverlayValid(Value()) && FreeFor(Value(), txid, h)) ==> OverlayValid(Value())
    {
      hide OverlayPut, EvictOldest, OverlayValid, FreeFor;
      if OverlayValid(Value()) && FreeFor(Value(), txid, h) {
        AddValid(Value(), txid, item, h);
      }
      PutBounded(Value(), txid, item, h);
      Put(txid, item, h);
      ghost var put := Value();
      while |order| > maxlen
        invariant |order| <= maxlen + 1 && (|order| > maxlen ==> Value() == put)
        invariant Value() == if |put.order| > maxlen && |order| <= maxlen then EvictOldest(put) else put
        decreases |order|
      {
        PopOldest();
      }
    }

    method Put(txid: Hash, item: int, h: Bytes)
      modifies this
      ensures Value() == OverlayPut(old(Value()), txid, item, h)
    {
      var owners := if h in byOutpoint then byOutpoint[h] else [];
      if item !in owners {
        byOutpoint := byOutpoint[h := owners + [item]];
      }
      if txid !in created {
        order, created := order + [txid], created[txid := []];
      }
      created := created[txid := if h in created[txid] then created[txid] else created[txid] + [h]];
    }

    /** The oldest transaction goes, and its coins with it. */
    method PopOldest()
      requires order != [] && order[0] in created
      modifies this
      ensures Value() == EvictOldest(old(Value())) && |order| < |old(order)|
    {
      var oldest := order[0];
      var stale := created[oldest];
      order, created := order[1..], created - {oldest};
      Drop(stale);
      evicted := evicted + 1;
    }

    /** A transaction that confirmed, or was never pending. */
    method Release(txid: Hash)
      requires Bounded(Value())
      modifies this
      ensures Value() == Forget(old(Value()), txid) && Bounded(Value())
      ensures old(OverlayValid(Value())) ==> OverlayValid(Value())
    {
      hide AsSet, OverlayValid;
      if OverlayValid(Value()) {
        ForgetValid(Value(), txid);
      }
      if txid in created {
        var coins := created[txid];
        order, created := Without(order, txid), created - {txid};
        Drop(coins);
      } else {
        AbsentIsForgotten(Value(), txid);
      }
    }

    /** Drops coins by outpoint, whoever owns them. */
    method Drop(coins: seq<Bytes>)
      modifies this`byOutpoint
      ensures byOutpoint == old(byOutpoint) - AsSet(coins)
    {
      for n := 0 to |coins|
        invariant byOutpoint == old(byOutpoint) - AsSet(coins[..n])
      {
        assert coins[..n + 1] == coins[..n] + [coins[n]];
        byOutpoint := byOutpoint - {coins[n]};
      }
      assert coins[..|coins|] == coins;
    }
  }

  lemma AbsentIsForgotten(o: Overlay, txid: Hash)
    requires Bounded(o) && txid !in o.created
    ensures Forget(o, txid) == o
  {
    WithoutAbsent(o.order, txid);
    assert o.byOutpoint - AsSet([]) == o.byOutpoint && o.created - {txid} == o.created;
  }

  lemma {:induction false} WithoutAbsent(order: seq<Hash>, txid: Hash)
    requires txid !in order
    ensures Without(order, txid) == order
  {
    if order != [] {
      WithoutAbsent(order[1..], txid);
    }
  }

  class Matcher {
    const k: Keys
    const index: InMemoryWatchIndex
    const provisional: ProvisionalOutpoints

    constructor (k: Keys, index: InMemoryWatchIndex, provisional: ProvisionalOutpoints)
      requires NoneEmpty(index.byOutpoint) && Bounded(provisional.Value())
      ensures Valid() && this.k == k && this.index == index && this.provisional == provisional
    {
      this.k, this.index, this.provisional := k, index, provisional;
    }

    ghost predicate Valid()
      reads this, index, provisional
    {
      NoneEmpty(index.byOutpoint) && Bounded(provisional.Value())
    }

    /** What the transaction moves, changing nothing. */
    method Match(tx: Transaction) returns (matches: seq<Match>)
      ensures matches == MatchOf(k, index.bySpk, index.byOutpoint, provisional.byOutpoint, tx)
    {
      var outgoing: seq<int> := [];
      for n := 0 to |tx.inputs|
        invariant Spenders(k, index.byOutpoint, provisional.byOutpoint, tx.inputs, [])
               == Spenders(k, index.byOutpoint, provisional.byOutpoint, tx.inputs[n..], outgoing)
      {
        var h := k.outpoint(tx.inputs[n].txid, tx.inputs[n].vout);
        var items := index.ItemsOwningOutpoint(h) + ItemsOf(provisional.byOutpoint, h);
        outgoing := AppendEach(outgoing, items);
      }
      var incoming: seq<int> := [];
      for n := 0 to |tx.outputs|
        invariant Payees(k, index.bySpk, tx.outputs, []) == Payees(k, index.bySpk, tx.outputs[n..], incoming)
      {
        var items := index.ItemsWatchingSpk(k.spk(tx.outputs[n].spk));
        incoming := AppendEach(incoming, items);
      }
      matches := Report(outgoing, Outgoing) + Report(incoming, Incoming);
    }

    /** Outputs to watched scripts go into the overlay, and nowhere else. */
    method NoteUnconfirmed(tx: Transaction)
      requires Valid()
      modifies provisional
      ensures Valid()
      ensures provisional.Value() == NoteOutputs(k, index.bySpk, tx.txid, tx.outputs, old(provisional.Value()))
    {
      ghost var goal := NoteOutputs(k, index.bySpk, tx.txid, tx.outputs, provisional.Value());
      for n := 0 to |tx.outputs|
        invariant Valid() && goal == NoteOutputs(k, index.bySpk, tx.txid, tx.outputs[n..], provisional.Value())
      {
        hide OverlayAdd, Bounded;
        var out := tx.outputs[n];
        var items := index.ItemsWatchingSpk(k.spk(out.spk));
        var h := k.outpoint(tx.txid, out.vout);
        ghost var noted := NoteItems(provisional.Value(), tx.txid, items, h);
        for j := 0 to |items|
          invariant Valid() && noted == NoteItems(provisional.Value(), tx.txid, items[j..], h)
        {
          provisional.Add(tx.txid, items[j], h);
        }
      }
    }

    /** The one writer: spent coins out, paid coins in, and the overlay lets go of what has confirmed. */
    method Apply(tx: Transaction)
      requires Valid()
      modifies index`byOutpoint, provisional
      ensures Valid()
      ensures index.byOutpoint == ApplyTx(k, index.bySpk, old(index.byOutpoint), tx)
      ensures provisional.Value() == Forget(old(provisional.Value()), tx.txid)
    {
      hide Bounded, NoneEmpty, SpentBy, Pay, Forget;
      DropSpent(tx.inputs);
      PayNoneEmpty(k, index.bySpk, tx.txid, tx.outputs, index.byOutpoint);
      AddPaid(tx.txid, tx.outputs);
      provisional.Release(tx.txid);
    }

    /** The coins spent leave the record, whoever owns them. */
    method DropSpent(inputs: seq<OutPoint>)
      requires NoneEmpty(index.byOutpoint)
      modifies index`byOutpoint
      ensures NoneEmpty(index.byOutpoint) && index.byOutpoint == old(index.byOutpoint) - SpentBy(k, inputs)
    {
      ghost var record := index.byOutpoint;
      for n := 0 to |inputs|
        invariant NoneEmpty(index.byOutpoint) && index.byOutpoint == record - SpentBy(k, inputs[..n])
      {
        var h := k.outpoint(inputs[n].txid, inputs[n].vout);
        DropAll(h);
        assert inputs[..n + 1] == inputs[..n] + [inputs[n]];
        assert SpentBy(k, inputs[..n + 1]) == SpentBy(k, inputs[..n]) + {h};
      }
      assert inputs[..|inputs|] == inputs;
    }

    /** The coins paid to a watched script come in, each for every item that watches it. */
    method AddPaid(txid: Hash, outputs: seq<TxOutput>)
      modifies index`byOutpoint
      ensures index.byOutpoint == Pay(k, index.bySpk, txid, outputs, old(index.byOutpoint))
    {
      ghost var goal := Pay(k, index.bySpk, txid, outputs, index.byOutpoint);
      for n := 0 to |outputs|
        invariant goal == Pay(k, index.bySpk, txid, outputs[n..], index.byOutpoint)
      {
        var items := index.ItemsWatchingSpk(k.spk(outputs[n].spk));
        var h := k.outpoint(txid, outputs[n].vout);
        ghost var paid := AddOwners(index.byOutpoint, items, h);
        for j := 0 to |items|
          invariant paid == AddOwners(index.byOutpoint, items[j..], h)
        {
          index.AddOutpoint(items[j], h);
        }
      }
    }

    /** Every owner of one outpoint, taken from a copy of the list. */
    method DropAll(h: Bytes)
      requires NoneEmpty(index.byOutpoint)
      modifies index`byOutpoint
      ensures index.byOutpoint == old(index.byOutpoint) - {h}
    {
      var items := index.ItemsOwningOutpoint(h);
      for j := 0 to |items|
        invariant ItemsOf(index.byOutpoint, h) == items[j..]
        invariant index.byOutpoint - {h} == old(index.byOutpoint) - {h}
        invariant j == 0 ==> index.byOutpoint == old(index.byOutpoint)
        invariant j > 0 && j == |items| ==> h !in index.byOutpoint
      {
        index.DropOutpoint(items[j], h);
      }
      assert h in index.byOutpoint ==> items == [];
    }
  }

  /** The loop that appends the ids not yet listed. */
  method AppendEach(acc: seq<int>, items: seq<int>) returns (r: seq<int>)
    ensures r == AppendNew(acc, items)
  {
    r := acc;
    for j := 0 to |items|
      invariant AppendNew(acc, items) == AppendNew(r, items[j..])
    {
      if items[j] !in r {
        r := r + [items[j]];
      }
    }
  }
}
