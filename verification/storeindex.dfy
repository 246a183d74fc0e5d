/** The store as the matcher's index, with other threads using it between every two of the matcher's calls. */
module StoreIndex {
  import opened ByteStrings
  import opened Tx
  import opened MatchSpec
  import opened RecordProofs
  import opened StoreSpec
  import opened StoreProofs

  /** What the other threads do before each call the matcher makes: anything but writing coins. */
  type Others = nat -> seq<Op>

  predicate LeavesCoins(op: Op) {
    !op.AddOutpoint? && !op.DropOutpoint?
  }

  ghost predicate OnlyMatcherWrites(others: Others) {
    forall n, op :: op in others(n) ==> LeavesCoins(op)
  }

  /** The store, and how many calls the matcher has made. */
  datatype Moment = Moment(db: Database, calls: nat)

  /** Just before the next call. */
  function Turn(others: Others, m: Moment): Moment {
    Moment(Run(m.db, others(m.calls)), m.calls + 1)
  }

  function Write(others: Others, m: Moment, op: Op): Moment {
    var now := Turn(others, m);
    now.(db := After(now.db, op).0)
  }

  function DropEach(others: Others, m: Moment, items: seq<int>, h: Bytes): Moment
    decreases |items|
  {
    if items == [] then m else DropEach(others, Write(others, m, DropOutpoint(items[0], h)), items[1..], h)
  }

  /** Each coin spent is dropped for whoever owned it when it was looked up. */
  function DropInputs(others: Others, k: Keys, m: Moment, inputs: seq<OutPoint>): Moment
    decreases |inputs|
  {
    if inputs == [] then m else
    var h, now := k.outpoint(inputs[0].txid, inputs[0].vout), Turn(others, m);
    DropInputs(others, k, DropEach(others, now, Owning(now.db, h), h), inputs[1..])
  }

  function AddEach(others: Others, m: Moment, items: seq<int>, h: Bytes): Moment
    decreases |items|
  {
    if items == [] then m else AddEach(others, Write(others, m, AddOutpoint(items[0], h)), items[1..], h)
  }

  /** Each coin paid is added for whoever watched its script when that was looked up. */
  function AddOutputs(others: Others, k: Keys, m: Moment, txid: Hash, outputs: seq<TxOutput>): Moment
    decreases |outputs|
  {
    if outputs == [] then m else
    var now := Turn(others, m);
    var added := AddEach(others, now, Watching(now.db, k.spk(outputs[0].spk)), k.outpoint(txid, outputs[0].vout));
    AddOutputs(others, k, added, txid, outputs[1..])
  }

  function ApplyStored(others: Others, k: Keys, m: Moment, tx: Transaction): Moment {
    AddOutputs(others, k, DropInputs(others, k, m, tx.inputs), tx.txid, tx.outputs)
  }

  function FoldStored(others: Others, k: Keys, m: Moment, txs: seq<Transaction>): Moment
    decreases |txs|
  {
    if txs == [] then m else FoldStored(others, k, ApplyStored(others, k, m, txs[0]), txs[1..])
  }

  // ----- an item that is tracked at both ends is tracked all the way

  predicate IsTracked(db: Database, i: int) {
    0 < i <= db.lastItem && i in db.items && Tracked(db.items[i].status)
  }

  /** `b` may come after `a`, as far as item `i` goes. */
  predicate Later(a: Database, b: Database, i: int) {
    && a.lastItem <= b.lastItem
    && (i <= a.lastItem && i in b.items ==>
          i in a.items && a.items[i].row == b.items[i].row && Rank(a.items[i].status) <= Rank(b.items[i].status))
  }

  lemma TrackedBetween(a: Database, b: Database, c: Database, i: int)
    requires IsTracked(a, i) && IsTracked(c, i) && Later(a, b, i) && Later(b, c, i)
    ensures IsTracked(b, i) && b.items[i].row == a.items[i].row
  {
  }

  lemma StepLater(db: Database, op: Op, i: int)
    ensures Later(db, After(db, op).0, i)
  {
    hide After;
    StepKeepsItem(db, op, i);
    if i in After(db, op).0.items && i <= db.lastItem {
      StepNeverGoesBack(db, op, i);
    }
  }

  lemma {:induction false} RunLater(db: Database, ops: seq<Op>, i: int)
    ensures Later(db, Run(db, ops), i)
    decreases |ops|
  {
    hide After;
    if ops != [] {
      StepLater(db, ops[0], i);
      RunLater(After(db, ops[0]).0, ops[1..], i);
    }
  }

  lemma WriteLater(others: Others, m: Moment, op: Op, i: int)
    ensures Later(m.db, Turn(others, m).db, i) && Later(Turn(others, m).db, Write(others, m, op).db, i)
  {
    hide Run, After, Later;
    RunLater(m.db, others(m.calls), i);
    StepLater(Turn(others, m).db, op, i);
  }

  lemma WriteIsLater(others: Others, m: Moment, op: Op, i: int)
    ensures Later(m.db, Write(others, m, op).db, i)
  {
    hide Write, Turn;
    WriteLater(others, m, op, i);
  }

  lemma TurnLater(others: Others, m: Moment, i: int)
    ensures Later(m.db, Turn(others, m).db, i)
  {
    RunLater(m.db, others(m.calls), i);
  }

  lemma {:induction false} DropEachLater(others: Others, m: Moment, items: seq<int>, h: Bytes, i: int)
    ensures Later(m.db, DropEach(others, m, items, h).db, i)
    decreases |items|
  {
    hide Write, Turn;
    if items != [] {
      WriteIsLater(others, m, DropOutpoint(items[0], h), i);
      DropEachLater(others, Write(others, m, DropOutpoint(items[0], h)), items[1..], h, i);
    }
  }

  lemma {:induction false} DropInputsLater(others: Others, k: Keys, m: Moment, inputs: seq<OutPoint>, i: int)
    ensures Later(m.db, DropInputs(others, k, m, inputs).db, i)
    decreases |inputs|
  {
    hide Turn, DropEach, Owning;
    if inputs != [] {
      var h, now := k.outpoint(inputs[0].txid, inputs[0].vout), Turn(others, m);
      TurnLater(others, m, i);
      DropEachLater(others, now, Owning(now.db, h), h, i);
      DropInputsLater(others, k, DropEach(others, now, Owning(now.db, h), h), inputs[1..], i);
    }
  }

  lemma {:induction false} AddEachLater(others: Others, m: Moment, items: seq<int>, h: Bytes, i: int)
    ensures Later(m.db, AddEach(others, m, items, h).db, i)
    decreases |items|
  {
    hide Write, Turn;
    if items != [] {
      WriteIsLater(others, m, AddOutpoint(items[0], h), i);
      AddEachLater(others, Write(others, m, AddOutpoint(items[0], h)), items[1..], h, i);
    }
  }

  lemma {:induction false} AddOutputsLater(
    others: Others, k: Keys, m: Moment, txid: Hash, outputs: seq<TxOutput>, i: int)
    ensures Later(m.db, AddOutputs(others, k, m, txid, outputs).db, i)
    decreases |outputs|
  {
    hide Turn, AddEach, Watching;
    if outputs != [] {
      var h, now := k.outpoint(txid, outputs[0].vout), Turn(others, m);
      var items := Watching(now.db, k.spk(outputs[0].spk));
      TurnLater(others, m, i);
      AddEachLater(others, now, items, h, i);
      AddOutputsLater(others, k, AddEach(others, now, items, h), txid, outputs[1..], i);
    }
  }

  lemma {:induction false} FoldLater(others: Others, k: Keys, m: Moment, txs: seq<Transaction>, i: int)
    ensures Later(m.db, FoldStored(others, k, m, txs).db, i)
    decreases |txs|
  {
    hide DropInputs, AddOutputs;
    if txs != [] {
      var dropped := DropInputs(others, k, m, txs[0].inputs);
      DropInputsLater(others, k, m, txs[0].inputs, i);
      AddOutputsLater(others, k, dropped, txs[0].txid, txs[0].outputs, i);
      FoldLater(others, k, ApplyStored(others, k, m, txs[0]), txs[1..], i);
    }
  }

  // ----- and its coins are moved by the matcher alone

  predicate Has(db: Database, i: int, h: Bytes) {
    (i, h) in db.utxo
  }

  lemma StepLeavesCoins(db: Database, op: Op, i: int, h: Bytes)
    requires IsTracked(db, i) && IsTracked(After(db, op).0, i) && LeavesCoins(op)
    ensures Has(After(db, op).0, i, h) <==> Has(db, i, h)
  {
    hide HasProvenChannel;
  }

  lemma {:induction false} RunLeavesCoins(db: Database, ops: seq<Op>, i: int, h: Bytes)
    requires IsTracked(db, i) && IsTracked(Run(db, ops), i) && forall op :: op in ops ==> LeavesCoins(op)
    ensures Has(Run(db, ops), i, h) <==> Has(db, i, h)
    decreases |ops|
  {
    hide After, LeavesCoins, IsTracked, Later, Has;
    if ops != [] {
      var next := After(db, ops[0]).0;
      StepLater(db, ops[0], i);
      RunLater(next, ops[1..], i);
      TrackedBetween(db, next, Run(db, ops), i);
      StepLeavesCoins(db, ops[0], i, h);
      RunLeavesCoins(next, ops[1..], i, h);
    }
  }

  lemma TurnLeavesCoins(others: Others, m: Moment, i: int, h: Bytes)
    requires OnlyMatcherWrites(others) && IsTracked(m.db, i) && IsTracked(Turn(others, m).db, i)
    ensures Has(Turn(others, m).db, i, h) <==> Has(m.db, i, h)
  {
    hide Run, LeavesCoins;
    RunLeavesCoins(m.db, others(m.calls), i, h);
  }

  lemma DropWrites(others: Others, m: Moment, j: int, h: Bytes, i: int, g: Bytes)
    requires OnlyMatcherWrites(others) && IsTracked(m.db, i) && IsTracked(Write(others, m, DropOutpoint(j, h)).db, i)
    ensures Has(Write(others, m, DropOutpoint(j, h)).db, i, g) <==> Has(m.db, i, g) && !(i == j && g == h)
  {
    hide Run, Later, IsTracked, OnlyMatcherWrites;
    var op := DropOutpoint(j, h);
    WriteLater(others, m, op, i);
    TrackedBetween(m.db, Turn(others, m).db, Write(others, m, op).db, i);
    TurnLeavesCoins(others, m, i, g);
  }

  lemma AddWrites(others: Others, m: Moment, j: int, h: Bytes, i: int, g: Bytes)
    requires OnlyMatcherWrites(others) && IsTracked(m.db, i) && IsTracked(Write(others, m, AddOutpoint(j, h)).db, i)
    ensures Has(Write(others, m, AddOutpoint(j, h)).db, i, g) <==> Has(m.db, i, g) || (i == j && g == h)
  {
    hide Run, Later, OnlyMatcherWrites;
    var op := AddOutpoint(j, h);
    WriteLater(others, m, op, i);
    TrackedBetween(m.db, Turn(others, m).db, Write(others, m, op).db, i);
    TurnLeavesCoins(others, m, i, g);
  }

  lemma {:induction false} DropEachIs(others: Others, m: Moment, items: seq<int>, h: Bytes, i: int, g: Bytes)
    requires OnlyMatcherWrites(others) && IsTracked(m.db, i) && IsTracked(DropEach(others, m, items, h).db, i)
    ensures Has(DropEach(others, m, items, h).db, i, g) <==> Has(m.db, i, g) && !(i in items && g == h)
    decreases |items|
  {
    hide Write, Later, IsTracked, OnlyMatcherWrites, Has;
    if items != [] {
      var op := DropOutpoint(items[0], h);
      var next := Write(others, m, op);
      WriteIsLater(others, m, op, i);
      DropEachLater(others, next, items[1..], h, i);
      TrackedBetween(m.db, next.db, DropEach(others, m, items, h).db, i);
      DropWrites(others, m, items[0], h, i, g);
      DropEachIs(others, next, items[1..], h, i, g);
      assert i in items <==> i == items[0] || i in items[1..];
    }
  }

  lemma {:induction false} AddEachIs(others: Others, m: Moment, items: seq<int>, h: Bytes, i: int, g: Bytes)
    requires OnlyMatcherWrites(others) && IsTracked(m.db, i) && IsTracked(AddEach(others, m, items, h).db, i)
    ensures Has(AddEach(others, m, items, h).db, i, g) <==> Has(m.db, i, g) || (i in items && g == h)
    decreases |items|
  {
    hide Write, Later, IsTracked, OnlyMatcherWrites, Has;
    if items != [] {
      var op := AddOutpoint(items[0], h);
      var next := Write(others, m, op);
      WriteIsLater(others, m, op, i);
      AddEachLater(others, next, items[1..], h, i);
      TrackedBetween(m.db, next.db, AddEach(others, m, items, h).db, i);
      AddWrites(others, m, items[0], h, i, g);
      AddEachIs(others, next, items[1..], h, i, g);
      assert i in items <==> i == items[0] || i in items[1..];
    }
  }

  lemma SpentOneMore(k: Keys, inputs: seq<OutPoint>)
    requires inputs != []
    ensures SpentBy(k, inputs) == {k.outpoint(inputs[0].txid, inputs[0].vout)} + SpentBy(k, inputs[1..])
  {
    forall h | h in SpentBy(k, inputs)
      ensures h == k.outpoint(inputs[0].txid, inputs[0].vout) || h in SpentBy(k, inputs[1..])
    {
      var j :| 0 <= j < |inputs| && h == k.outpoint(inputs[j].txid, inputs[j].vout);
      if j > 0 {
        assert inputs[1..][j - 1] == inputs[j];
      }
    }
    forall j | 0 <= j < |inputs| - 1 ensures inputs[1..][j] == inputs[j + 1] {
    }
  }

  /** One lookup and its drops take the coin away from `i`, and take nothing else from it. */
  lemma LookupAndDrop(others: Others, m: Moment, h: Bytes, i: int, g: Bytes)
    requires OnlyMatcherWrites(others) && IsTracked(m.db, i)
    requires var now := Turn(others, m); IsTracked(DropEach(others, now, Owning(now.db, h), h).db, i)
    ensures var now := Turn(others, m);
            Has(DropEach(others, now, Owning(now.db, h), h).db, i, g) <==> Has(m.db, i, g) && g != h
  {
    hide Later, Turn, DropEach, OnlyMatcherWrites;
    var now := Turn(others, m);
    var items := Owning(now.db, h);
    TurnLater(others, m, i);
    DropEachLater(others, now, items, h, i);
    TrackedBetween(m.db, now.db, DropEach(others, now, items, h).db, i);
    TurnLeavesCoins(others, m, i, g);
    DropEachIs(others, now, items, h, i, g);
  }

  lemma {:induction false} DropInputsIs(others: Others, k: Keys, m: Moment, inputs: seq<OutPoint>, i: int, g: Bytes)
    requires OnlyMatcherWrites(others) && IsTracked(m.db, i) && IsTracked(DropInputs(others, k, m, inputs).db, i)
    ensures Has(DropInputs(others, k, m, inputs).db, i, g) <==> Has(m.db, i, g) && g !in SpentBy(k, inputs)
    decreases |inputs|
  {
    hide Later, Turn, DropEach, OnlyMatcherWrites, IsTracked, SpentBy, Owning, Has;
    if inputs == [] {
      NothingSpent(k);
    } else {
      var h, now := k.outpoint(inputs[0].txid, inputs[0].vout), Turn(others, m);
      var next := DropEach(others, now, Owning(now.db, h), h);
      LookupIsLater(others, m, now, next, Owning(now.db, h), h, i);
      DropInputsLater(others, k, next, inputs[1..], i);
      TrackedBetween(m.db, next.db, DropInputs(others, k, m, inputs).db, i);
      LookupAndDrop(others, m, h, i, g);
      DropInputsIs(others, k, next, inputs[1..], i, g);
      SpentOneMore(k, inputs);
    }
  }

  lemma NothingSpent(k: Keys)
    ensures SpentBy(k, []) == {}
  {
  }

  lemma LookupIsLater(others: Others, m: Moment, now: Moment, next: Moment, items: seq<int>, h: Bytes, i: int)
    requires now == Turn(others, m)
    requires (next == DropEach(others, now, items, h) || next == AddEach(others, now, items, h))
    ensures Later(m.db, next.db, i)
  {
    hide Turn, DropEach, AddEach;
    TurnLater(others, m, i);
    DropEachLater(others, now, items, h, i);
    AddEachLater(others, now, items, h, i);
  }

  /** One lookup and its additions give `i` the coin if it is `i`'s script, and nothing else. */
  lemma LookupAndAdd(others: Others, m: Moment, spk: Bytes, h: Bytes, i: int, g: Bytes)
    requires OnlyMatcherWrites(others) && IsTracked(m.db, i)
    requires var now := Turn(others, m); IsTracked(AddEach(others, now, Watching(now.db, spk), h).db, i)
    ensures var now := Turn(others, m);
            Has(AddEach(others, now, Watching(now.db, spk), h).db, i, g)
            <==> Has(m.db, i, g) || (g == h && spk == m.db.items[i].row.spkHmac)
  {
    hide Later, Turn, AddEach, OnlyMatcherWrites;
    var now := Turn(others, m);
    var items := Watching(now.db, spk);
    TurnLater(others, m, i);
    AddEachLater(others, now, items, h, i);
    TrackedBetween(m.db, now.db, AddEach(others, now, items, h).db, i);
    TurnLeavesCoins(others, m, i, g);
    AddEachIs(others, now, items, h, i, g);
  }

  /** Some output pays the script, at that outpoint. */
  predicate PaysAt(k: Keys, txid: Hash, outputs: seq<TxOutput>, spk: Bytes, g: Bytes) {
    exists out :: out in outputs && g == k.outpoint(txid, out.vout) && k.spk(out.spk) == spk
  }

  lemma PaysOneMore(k: Keys, txid: Hash, outputs: seq<TxOutput>, spk: Bytes, g: Bytes)
    requires outputs != []
    ensures PaysAt(k, txid, outputs, spk, g) <==>
            (g == k.outpoint(txid, outputs[0].vout) && k.spk(outputs[0].spk) == spk)
                || PaysAt(k, txid, outputs[1..], spk, g)
  {
    assert forall out :: out in outputs <==> out == outputs[0] || out in outputs[1..];
  }

  lemma {:induction false} AddOutputsIs(
    others: Others, k: Keys, m: Moment, txid: Hash, outputs: seq<TxOutput>, i: int, g: Bytes)
    requires OnlyMatcherWrites(others) && IsTracked(m.db, i) && IsTracked(AddOutputs(others, k, m, txid, outputs).db, i)
    ensures Has(AddOutputs(others, k, m, txid, outputs).db, i, g) <==>
            Has(m.db, i, g) || PaysAt(k, txid, outputs, m.db.items[i].row.spkHmac, g)
    decreases |outputs|
  {
    hide Later, Turn, AddEach, OnlyMatcherWrites, Watching, Has, PaysAt;
    if outputs == [] {
      NothingPaid(k, txid, m.db.items[i].row.spkHmac, g);
    } else {
      var spk, h, now := k.spk(outputs[0].spk), k.outpoint(txid, outputs[0].vout), Turn(others, m);
      var next := AddEach(others, now, Watching(now.db, spk), h);
      LookupIsLater(others, m, now, next, Watching(now.db, spk), h, i);
      AddOutputsLater(others, k, next, txid, outputs[1..], i);
      TrackedBetween(m.db, next.db, AddOutputs(others, k, m, txid, outputs).db, i);
      LookupAndAdd(others, m, spk, h, i, g);
      AddOutputsIs(others, k, next, txid, outputs[1..], i, g);
      PaysOneMore(k, txid, outputs, m.db.items[i].row.spkHmac, g);
    }
  }

  lemma NothingPaid(k: Keys, txid: Hash, spk: Bytes, g: Bytes)
    ensures !PaysAt(k, txid, [], spk, g)
  {
  }

  // ----- so the store is the record

  /** The watch list and the record of one item, as the in-memory index would hold them. */
  ghost predicate Mirrors(db: Database, i: int, watch: Owners, record: Owners) {
    && IsTracked(db, i)
    && (forall h :: Owns(watch, i, h) <==> h == db.items[i].row.spkHmac)
    && (forall h :: Owns(record, i, h) <==> Has(db, i, h))
  }

  lemma ApplyMirrors(others: Others, k: Keys, m: Moment, watch: Owners, record: Owners, tx: Transaction, i: int)
    requires OnlyMatcherWrites(others) && Mirrors(m.db, i, watch, record)
    requires IsTracked(ApplyStored(others, k, m, tx).db, i)
    ensures Mirrors(ApplyStored(others, k, m, tx).db, i, watch, ApplyTx(k, watch, record, tx))
  {
    hide OnlyMatcherWrites, DropInputs, AddOutputs, ApplyTx, SpentBy, IsTracked, Later, Has;
    var dropped, end := DropInputs(others, k, m, tx.inputs), ApplyStored(others, k, m, tx);
    DropInputsLater(others, k, m, tx.inputs, i);
    AddOutputsLater(others, k, dropped, tx.txid, tx.outputs, i);
    TrackedBetween(m.db, dropped.db, end.db, i);
    RowIsKept(dropped.db, end.db, i);
    var spk := RowOf(m.db, i).spkHmac;
    forall h ensures Owns(ApplyTx(k, watch, record, tx), i, h) <==> Has(end.db, i, h) {
      ApplyOwns(k, watch, record, tx, i, h);
      DropInputsIs(others, k, m, tx.inputs, i, h);
      AddOutputsIs(others, k, dropped, tx.txid, tx.outputs, i, h);
      assert forall out :: Brings(k, watch, tx.txid, out, i, h) <==>
                           h == k.outpoint(tx.txid, out.vout) && k.spk(out.spk) == spk;
    }
  }

  function RowOf(db: Database, i: int): Enrolled
    requires IsTracked(db, i)
  {
    db.items[i].row
  }

  lemma RowIsKept(a: Database, b: Database, i: int)
    requires IsTracked(a, i) && IsTracked(b, i) && Later(a, b, i)
    ensures a.items[i].row == b.items[i].row
  {
  }

  /**
   The store as the matcher's index.  Transactions are applied one after another while other threads add,
   arm, activate, pause, stop and purge between any two of the matcher's calls, between a lookup and the write
   it leads to among them.  An item that is tracked at the end has exactly the coins the in-memory
   record would give it.
   */
  lemma {:induction false} StoreIsTheRecord(
    others: Others, k: Keys, m: Moment, watch: Owners, record: Owners, txs: seq<Transaction>, i: int)
    requires OnlyMatcherWrites(others) && Mirrors(m.db, i, watch, record)
    requires IsTracked(FoldStored(others, k, m, txs).db, i)
    ensures Mirrors(FoldStored(others, k, m, txs).db, i, watch, RecordFold(k, watch, record, txs))
    decreases |txs|
  {
    hide OnlyMatcherWrites, ApplyStored, ApplyTx, IsTracked, Later;
    if txs != [] {
      var next := ApplyStored(others, k, m, txs[0]);
      ApplyLater(others, k, m, txs[0], i);
      FoldLater(others, k, next, txs[1..], i);
      TrackedBetween(m.db, next.db, FoldStored(others, k, m, txs).db, i);
      ApplyMirrors(others, k, m, watch, record, txs[0], i);
      StoreIsTheRecord(others, k, next, watch, ApplyTx(k, watch, record, txs[0]), txs[1..], i);
    }
  }

  lemma ApplyLater(others: Others, k: Keys, m: Moment, tx: Transaction, i: int)
    ensures Later(m.db, ApplyStored(others, k, m, tx).db, i)
  {
    hide DropInputs, AddOutputs;
    DropInputsLater(others, k, m, tx.inputs, i);
    AddOutputsLater(others, k, DropInputs(others, k, m, tx.inputs), tx.txid, tx.outputs, i);
  }

  /** Item `i` has exactly the coins of `u` that pay the script. */
  ghost predicate HasCoinsOf(k: Keys, db: Database, i: int, spk: Bytes, u: set<Coin>) {
    forall h :: Has(db, i, h) <==> exists c :: c in u && c.spk == spk && k.outpoint(c.txid, c.vout) == h
  }

  /** On the scripts of the run, the script hash does not collide with that of `spk`. */
  ghost predicate OwnHash(k: Keys, sc: Scope, spk: Bytes) {
    forall other :: other in sc.scripts && k.spk(other) == k.spk(spk) ==> other == spk
  }

  /** In the clear: an item tracked throughout has exactly the unspent coins of its script, whatever else went on. */
  lemma StoreHasTheUtxos(
    others: Others, k: Keys, sc: Scope, m: Moment, u: set<Coin>, txs: seq<Transaction>, i: int, spk: Bytes)
    requires OnlyMatcherWrites(others) && IsTracked(m.db, i) && IsTracked(FoldStored(others, k, m, txs).db, i)
    requires m.db.items[i].row.spkHmac == k.spk(spk) && HasCoinsOf(k, m.db, i, spk, u)
    requires Injective(k, sc) && OwnHash(k, sc, spk) && forall tx :: tx in txs ==> Touches(sc, tx)
    requires forall c :: c in u ==> (c.txid, c.vout) in sc.points
    ensures HasCoinsOf(k, FoldStored(others, k, m, txs).db, i, spk, UtxoFold(u, txs))
  {
    hide OnlyMatcherWrites, FoldStored, RecordFold, UtxoFold, Injective, Touches, IsTracked;
    var watch: Owners := map[k.spk(spk) := [i]];
    var record: Owners := map r | r in m.db.utxo && r.0 == i :: r.1 := [i];
    var enrolled := {(i, spk)};
    assert WatchList(k, watch, sc, enrolled);
    assert forall h :: Owns(record, i, h) <==> Has(m.db, i, h);
    RecordIsTracked(k, sc, enrolled, m.db, record, u, i, spk);
    RecordIsWatchedUtxo(k, watch, sc, enrolled, record, u, txs);
    StoreIsTheRecord(others, k, m, watch, record, txs, i);
  }

  lemma RecordIsTracked(
    k: Keys, sc: Scope, enrolled: set<(int, Bytes)>, db: Database, record: Owners, u: set<Coin>, i: int, spk: Bytes)
    requires enrolled == {(i, spk)} && HasCoinsOf(k, db, i, spk, u)
    requires forall c :: c in u ==> (c.txid, c.vout) in sc.points
    requires forall j, h :: Owns(record, j, h) <==> j == i && Has(db, i, h)
    ensures Tracks(k, sc, enrolled, record, u)
  {
  }

  // ----- and its alarms are exact

  /** The outgoing half of a match, one lookup after another. */
  function SpendersStored(
    others: Others, k: Keys, m: Moment, inputs: seq<OutPoint>, acc: seq<int>): (r: (Moment, seq<int>))
    decreases |inputs|
  {
    if inputs == [] then (m, acc) else
    var now := Turn(others, m);
    var items := Owning(now.db, k.outpoint(inputs[0].txid, inputs[0].vout));
    SpendersStored(others, k, now, inputs[1..], AppendNew(acc, items))
  }

  lemma {:induction false} SpendersLater(
    others: Others, k: Keys, m: Moment, inputs: seq<OutPoint>, acc: seq<int>, i: int)
    ensures Later(m.db, SpendersStored(others, k, m, inputs, acc).0.db, i)
    decreases |inputs|
  {
    hide Turn, Owning;
    if inputs != [] {
      var now := Turn(others, m);
      var items := Owning(now.db, k.outpoint(inputs[0].txid, inputs[0].vout));
      TurnLater(others, m, i);
      SpendersLater(others, k, now, inputs[1..], AppendNew(acc, items), i);
    }
  }

  predicate SpendsFrom(k: Keys, db: Database, op: OutPoint, i: int) {
    Has(db, i, k.outpoint(op.txid, op.vout))
  }

  lemma {:induction false} SpendersAre(others: Others, k: Keys, m: Moment, inputs: seq<OutPoint>, acc: seq<int>, i: int)
    requires OnlyMatcherWrites(others) && IsTracked(m.db, i)
    requires IsTracked(SpendersStored(others, k, m, inputs, acc).0.db, i)
    ensures i in SpendersStored(others, k, m, inputs, acc).1 <==>
            i in acc || exists op :: op in inputs && SpendsFrom(k, m.db, op, i)
    decreases |inputs|
  {
    hide OnlyMatcherWrites, Turn, Later;
    if inputs != [] {
      var h, now := k.outpoint(inputs[0].txid, inputs[0].vout), Turn(others, m);
      var items := Owning(now.db, h);
      TurnLater(others, m, i);
      SpendersLater(others, k, now, inputs[1..], AppendNew(acc, items), i);
      TrackedBetween(m.db, now.db, SpendersStored(others, k, m, inputs, acc).0.db, i);
      TurnLeavesCoins(others, m, i, h);
      AppendNewHolds(acc, items, i);
      assert i in items <==> SpendsFrom(k, m.db, inputs[0], i);
      SpendersAre(others, k, now, inputs[1..], AppendNew(acc, items), i);
      forall op | op in inputs[1..] ensures SpendsFrom(k, now.db, op, i) <==> SpendsFrom(k, m.db, op, i) {
        TurnLeavesCoins(others, m, i, k.outpoint(op.txid, op.vout));
      }
      assert forall op :: op in inputs <==> op == inputs[0] || op in inputs[1..];
    }
  }

  /**
   After any run of applied transactions, with other threads at work throughout, the next one raises the
   alarm for an item tracked all the while iff it spends an unspent coin that pays the item's script.
   */
  lemma StoreAlarmIsExact(
    others: Others, k: Keys, sc: Scope, m: Moment, u: set<Coin>, txs: seq<Transaction>, tx: Transaction, i: int,
    spk: Bytes)
    requires OnlyMatcherWrites(others) && IsTracked(m.db, i)
    requires IsTracked(SpendersStored(others, k, FoldStored(others, k, m, txs), tx.inputs, []).0.db, i)
    requires m.db.items[i].row.spkHmac == k.spk(spk) && HasCoinsOf(k, m.db, i, spk, u)
    requires Injective(k, sc) && OwnHash(k, sc, spk) && Touches(sc, tx) && forall t :: t in txs ==> Touches(sc, t)
    requires forall c :: c in u ==> (c.txid, c.vout) in sc.points
    ensures i in SpendersStored(others, k, FoldStored(others, k, m, txs), tx.inputs, []).1 <==>
            exists c :: c in UtxoFold(u, txs) && Consumes(tx, c) && c.spk == spk
  {
    hide OnlyMatcherWrites, FoldStored, SpendersStored, UtxoFold, OwnHash, Later, HasCoinsOf;
    var at, unspent := FoldStored(others, k, m, txs), UtxoFold(u, txs);
    FoldLater(others, k, m, txs, i);
    SpendersLater(others, k, at, tx.inputs, [], i);
    TrackedBetween(m.db, at.db, SpendersStored(others, k, at, tx.inputs, []).0.db, i);
    StoreHasTheUtxos(others, k, sc, m, u, txs, i, spk);
    SpendersAre(others, k, at, tx.inputs, [], i);
    UtxosInScope(sc, u, txs);
    SpendsItsCoins(k, sc, at.db, i, spk, unspent, tx);
  }

  lemma {:induction false} UtxosInScope(sc: Scope, u: set<Coin>, txs: seq<Transaction>)
    requires forall c :: c in u ==> (c.txid, c.vout) in sc.points
    requires forall tx :: tx in txs ==> Touches(sc, tx)
    ensures forall c :: c in UtxoFold(u, txs) ==> (c.txid, c.vout) in sc.points
    decreases |txs|
  {
    hide Consumes, Touches;
    if txs != [] {
      assert txs[0] in txs;
      CreatedInScope(sc, txs[0]);
      UtxosInScope(sc, UtxoAfter(u, txs[0]), txs[1..]);
    }
  }

  lemma SpendsItsCoins(k: Keys, sc: Scope, db: Database, i: int, spk: Bytes, u: set<Coin>, tx: Transaction)
    requires Injective(k, sc) && Touches(sc, tx) && HasCoinsOf(k, db, i, spk, u)
    requires forall c :: c in u ==> (c.txid, c.vout) in sc.points
    ensures (exists op :: op in tx.inputs && SpendsFrom(k, db, op, i)) <==>
            exists c :: c in u && Consumes(tx, c) && c.spk == spk
  {
    if op :| op in tx.inputs && SpendsFrom(k, db, op, i) {
      var c :| c in u && c.spk == spk && k.outpoint(c.txid, c.vout) == k.outpoint(op.txid, op.vout);
      assert (op.txid, op.vout) in sc.points;
      assert Consumes(tx, c);
    }
    if c :| c in u && Consumes(tx, c) && c.spk == spk {
      var op :| op in tx.inputs && op.txid == c.txid && op.vout == c.vout;
      assert Has(db, i, k.outpoint(op.txid, op.vout));
      assert SpendsFrom(k, db, op, i);
    }
  }

  /** The baseline is where it starts: after `arm` an item has the scanned coins and no others. */
  lemma BaselineIsTheCoins(db: Database, i: int, hs: seq<Bytes>, h: Bytes)
    requires Consistent(db) && After(db, Arm(i, hs)).1.Done?
    ensures IsTracked(After(db, Arm(i, hs)).0, i) && (Has(After(db, Arm(i, hs)).0, i, h) <==> h in hs)
  {
    hide TokensAreUnique, RoutesStayInTheTenant, AlertableIsDeliverable;
  }
}
