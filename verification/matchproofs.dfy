/** What a match says, and what the record is: the watched part of the UTXO set. */
module RecordProofs {
  import opened Sequences
  import opened ByteStrings
  import opened Tx
  import opened MatchSpec

  // ----- lists of items

  lemma {:induction false} AppendNewHolds(acc: seq<int>, xs: seq<int>, i: int)
    ensures i in AppendNew(acc, xs) <==> i in acc || i in xs
    ensures Distinct(acc) ==> Distinct(AppendNew(acc, xs))
    decreases |xs|
  {
    if xs != [] {
      AppendNewHolds(if xs[0] in acc then acc else acc + [xs[0]], xs[1..], i);
      assert i in xs <==> i == xs[0] || i in xs[1..];
    }
  }

  predicate SpendsOf(k: Keys, record: Owners, overlay: Owners, op: OutPoint, i: int) {
    Owns(record, i, k.outpoint(op.txid, op.vout)) || Owns(overlay, i, k.outpoint(op.txid, op.vout))
  }

  lemma {:induction false} SpendersHold(
    k: Keys, record: Owners, overlay: Owners, inputs: seq<OutPoint>, acc: seq<int>, i: int)
    ensures i in Spenders(k, record, overlay, inputs, acc) <==>
            i in acc || exists op :: op in inputs && SpendsOf(k, record, overlay, op, i)
    ensures Distinct(acc) ==> Distinct(Spenders(k, record, overlay, inputs, acc))
    decreases |inputs|
  {
    if inputs != [] {
      var h := k.outpoint(inputs[0].txid, inputs[0].vout);
      var items := ItemsOf(record, h) + ItemsOf(overlay, h);
      AppendNewHolds(acc, items, i);
      SpendersHold(k, record, overlay, inputs[1..], AppendNew(acc, items), i);
      assert forall op :: op in inputs <==> op == inputs[0] || op in inputs[1..];
      assert i in items <==> SpendsOf(k, record, overlay, inputs[0], i);
    }
  }

  predicate PaysTo(k: Keys, watch: Owners, out: TxOutput, i: int) {
    Owns(watch, i, k.spk(out.spk))
  }

  lemma {:induction false} PayeesHold(k: Keys, watch: Owners, outputs: seq<TxOutput>, acc: seq<int>, i: int)
    ensures i in Payees(k, watch, outputs, acc) <==>
            i in acc || exists out :: out in outputs && PaysTo(k, watch, out, i)
    ensures Distinct(acc) ==> Distinct(Payees(k, watch, outputs, acc))
    decreases |outputs|
  {
    if outputs != [] {
      var items := ItemsOf(watch, k.spk(outputs[0].spk));
      AppendNewHolds(acc, items, i);
      PayeesHold(k, watch, outputs[1..], AppendNew(acc, items), i);
      assert i in items <==> PaysTo(k, watch, outputs[0], i);
      assert forall out :: out in outputs <==> out == outputs[0] || out in outputs[1..];
    }
  }

  /** An alarm iff an input spends a coin of `i`, a notice iff an output pays its script; each once, alarms first. */
  lemma MatchExactly(k: Keys, watch: Owners, record: Owners, overlay: Owners, tx: Transaction, i: int)
    ensures var ms := MatchOf(k, watch, record, overlay, tx);
            && (Match(i, Outgoing) in ms <==> exists op :: op in tx.inputs && SpendsOf(k, record, overlay, op, i))
            && (Match(i, Incoming) in ms <==> exists out :: out in tx.outputs && PaysTo(k, watch, out, i))
            && Distinct(ms)
            && forall a, b :: 0 <= a < b < |ms| && ms[a].direction == Incoming ==> ms[b].direction == Incoming
  {
    var outgoing := Spenders(k, record, overlay, tx.inputs, []);
    var incoming := Payees(k, watch, tx.outputs, []);
    SpendersHold(k, record, overlay, tx.inputs, [], i);
    PayeesHold(k, watch, tx.outputs, [], i);
    var out, inc := Report(outgoing, Outgoing), Report(incoming, Incoming);
    if i in outgoing {
      var j :| 0 <= j < |outgoing| && outgoing[j] == i;
      assert out[j] in out;
    }
    if i in incoming {
      var j :| 0 <= j < |incoming| && incoming[j] == i;
      assert inc[j] in inc;
    }
  }

  // ----- the record

  lemma {:induction false} AddOwnersOwns(m: Owners, items: seq<int>, h: Bytes, i: int, g: Bytes)
    ensures Owns(AddOwners(m, items, h), i, g) <==> Owns(m, i, g) || (g == h && i in items)
    decreases |items|
  {
    if items != [] {
      AddOwnersOwns(AddOwner(m, items[0], h), items[1..], h, i, g);
      assert i in items <==> i == items[0] || i in items[1..];
    }
  }

  /** Each item once under each hash. */
  ghost predicate NoneTwice(m: Owners) {
    forall h :: h in m ==> Distinct(m[h])
  }

  lemma {:induction false} RemoveFirstHolds(xs: seq<int>, x: int, i: int)
    requires Distinct(xs)
    ensures i in RemoveFirst(xs, x) <==> i in xs && i != x
    ensures Distinct(RemoveFirst(xs, x))
  {
    if xs != [] {
      assert Distinct(xs[1..]) && xs[0] !in xs[1..];
      assert forall j :: j in xs <==> j == xs[0] || j in xs[1..];
      RemoveFirstHolds(xs[1..], x, i);
      if xs[0] != x {
        RemoveFirstHolds(xs[1..], x, xs[0]);
        DistinctInFront(xs[0], RemoveFirst(xs[1..], x));
      }
    }
  }

  lemma DistinctInFront(x: int, xs: seq<int>)
    requires Distinct(xs) && x !in xs
    ensures Distinct([x] + xs)
  {
    forall i, j | 0 <= i < j < |xs| + 1 ensures ([x] + xs)[i] != ([x] + xs)[j] {
      assert ([x] + xs)[j] == xs[j - 1];
    }
  }

  /** One owner of one coin more, or one less, and no entry is left that nobody owns. */
  lemma OwnersExactly(m: Owners, i: int, h: Bytes, j: int, g: Bytes)
    requires NoneTwice(m) && NoneEmpty(m)
    ensures Owns(AddOwner(m, i, h), j, g) <==> Owns(m, j, g) || (j == i && g == h)
    ensures Owns(DropOwner(m, i, h), j, g) <==> Owns(m, j, g) && !(j == i && g == h)
    ensures NoneTwice(AddOwner(m, i, h)) && NoneEmpty(AddOwner(m, i, h))
    ensures NoneTwice(DropOwner(m, i, h)) && NoneEmpty(DropOwner(m, i, h))
  {
    hide RemoveFirst, Distinct;
    if !Owns(m, i, h) {
      NothingDistinct<int>();
      DistinctOneMore(ItemsOf(m, h), i);
    } else {
      RemoveFirstHolds(m[h], i, j);
    }
  }

  lemma {:induction false} AddOwnersNoneEmpty(m: Owners, items: seq<int>, h: Bytes)
    requires NoneEmpty(m)
    ensures NoneEmpty(AddOwners(m, items, h))
    decreases |items|
  {
    if items != [] {
      AddOwnersNoneEmpty(AddOwner(m, items[0], h), items[1..], h);
    }
  }

  lemma {:induction false} PayNoneEmpty(k: Keys, watch: Owners, txid: Hash, outputs: seq<TxOutput>, m: Owners)
    requires NoneEmpty(m)
    ensures NoneEmpty(Pay(k, watch, txid, outputs, m))
    decreases |outputs|
  {
    hide NoneEmpty, AddOwners;
    if outputs != [] {
      var items, g := ItemsOf(watch, k.spk(outputs[0].spk)), k.outpoint(txid, outputs[0].vout);
      AddOwnersNoneEmpty(m, items, g);
      PayNoneEmpty(k, watch, txid, outputs[1..], AddOwners(m, items, g));
    }
  }

  predicate Brings(k: Keys, watch: Owners, txid: Hash, out: TxOutput, i: int, h: Bytes) {
    h == k.outpoint(txid, out.vout) && Owns(watch, i, k.spk(out.spk))
  }

  lemma {:induction false} PayOwns(
    k: Keys, watch: Owners, txid: Hash, outputs: seq<TxOutput>, m: Owners, i: int, h: Bytes)
    ensures Owns(Pay(k, watch, txid, outputs, m), i, h) <==>
            Owns(m, i, h) || exists out :: out in outputs && Brings(k, watch, txid, out, i, h)
    decreases |outputs|
  {
    if outputs != [] {
      var items, g := ItemsOf(watch, k.spk(outputs[0].spk)), k.outpoint(txid, outputs[0].vout);
      AddOwnersOwns(m, items, g, i, h);
      PayOwns(k, watch, txid, outputs[1..], AddOwners(m, items, g), i, h);
      assert h == g && i in items <==> Brings(k, watch, txid, outputs[0], i, h);
      assert forall out :: out in outputs <==> out == outputs[0] || out in outputs[1..];
    }
  }

  /** After a confirmed transaction: what was there and not spent, and what it pays to a watched script. */
  lemma ApplyOwns(k: Keys, watch: Owners, record: Owners, tx: Transaction, i: int, h: Bytes)
    ensures Owns(ApplyTx(k, watch, record, tx), i, h) <==>
            || (Owns(record, i, h) && h !in SpentBy(k, tx.inputs))
            || exists out :: out in tx.outputs && Brings(k, watch, tx.txid, out, i, h)
  {
    PayOwns(k, watch, tx.txid, tx.outputs, record - SpentBy(k, tx.inputs), i, h);
  }

  // ----- the UTXO set, in the clear

  datatype Coin = Coin(txid: Hash, vout: nat, spk: Bytes)

  predicate Consumes(tx: Transaction, c: Coin) {
    exists op :: op in tx.inputs && op.txid == c.txid && op.vout == c.vout
  }

  function Created(tx: Transaction): set<Coin> {
    set out | out in tx.outputs :: Coin(tx.txid, out.vout, out.spk)
  }

  function UtxoAfter(u: set<Coin>, tx: Transaction): set<Coin> {
    (set c | c in u && !Consumes(tx, c)) + Created(tx)
  }

  function UtxoFold(u: set<Coin>, txs: seq<Transaction>): set<Coin>
    decreases |txs|
  {
    if txs == [] then u else UtxoFold(UtxoAfter(u, txs[0]), txs[1..])
  }

  function RecordFold(k: Keys, watch: Owners, record: Owners, txs: seq<Transaction>): Owners
    decreases |txs|
  {
    if txs == [] then record else RecordFold(k, watch, ApplyTx(k, watch, record, txs[0]), txs[1..])
  }

  /** `watch` is the enrolled list, by keyed hash: of the scripts of the run, `i` watches those it was enrolled for. */
  ghost predicate WatchList(k: Keys, watch: Owners, sc: Scope, enrolled: set<(int, Bytes)>) {
    forall i, spk :: spk in sc.scripts ==> (Owns(watch, i, k.spk(spk)) <==> (i, spk) in enrolled)
  }

  predicate Holds(k: Keys, enrolled: set<(int, Bytes)>, c: Coin, i: int, h: Bytes) {
    k.outpoint(c.txid, c.vout) == h && (i, c.spk) in enrolled
  }

  /** Item `i` owns outpoint hash `h` iff it is the hash of an unspent coin, in the scope, whose script `i` watches. */
  ghost predicate Tracks(k: Keys, sc: Scope, enrolled: set<(int, Bytes)>, record: Owners, u: set<Coin>) {
    && (forall c :: c in u ==> (c.txid, c.vout) in sc.points)
    && (forall i, h :: Owns(record, i, h) <==> exists c :: c in u && Holds(k, enrolled, c, i, h))
  }

  lemma SpentIsConsumed(k: Keys, sc: Scope, tx: Transaction, c: Coin)
    requires Injective(k, sc) && Touches(sc, tx) && (c.txid, c.vout) in sc.points
    ensures k.outpoint(c.txid, c.vout) in SpentBy(k, tx.inputs) <==> Consumes(tx, c)
  {
    if Consumes(tx, c) {
      var op :| op in tx.inputs && op.txid == c.txid && op.vout == c.vout;
      var j :| 0 <= j < |tx.inputs| && tx.inputs[j] == op;
    }
  }

  lemma CreatedIsBrought(
    k: Keys, watch: Owners, sc: Scope, enrolled: set<(int, Bytes)>, tx: Transaction, i: int, h: Bytes)
    requires WatchList(k, watch, sc, enrolled) && Touches(sc, tx)
    ensures (exists out :: out in tx.outputs && Brings(k, watch, tx.txid, out, i, h)) <==>
            exists c :: c in Created(tx) && Holds(k, enrolled, c, i, h)
  {
    if out :| out in tx.outputs && Brings(k, watch, tx.txid, out, i, h) {
      var c := Coin(tx.txid, out.vout, out.spk);
      assert c in Created(tx) && Holds(k, enrolled, c, i, h);
    }
    if c :| c in Created(tx) && Holds(k, enrolled, c, i, h) {
      var out :| out in tx.outputs && c == Coin(tx.txid, out.vout, out.spk);
      assert Brings(k, watch, tx.txid, out, i, h);
    }
  }

  lemma TracksAfter(
    k: Keys, watch: Owners, sc: Scope, enrolled: set<(int, Bytes)>, record: Owners, u: set<Coin>, tx: Transaction)
    requires Injective(k, sc) && WatchList(k, watch, sc, enrolled) && Tracks(k, sc, enrolled, record, u)
    requires Touches(sc, tx)
    ensures Tracks(k, sc, enrolled, ApplyTx(k, watch, record, tx), UtxoAfter(u, tx))
  {
    hide ApplyTx, SpentBy, Consumes, Created, Brings, WatchList, Injective, Touches;
    CreatedInScope(sc, tx);
    var r', u' := ApplyTx(k, watch, record, tx), UtxoAfter(u, tx);
    forall i, h ensures Owns(r', i, h) <==> exists c :: c in u' && Holds(k, enrolled, c, i, h) {
      ApplyOwns(k, watch, record, tx, i, h);
      CreatedIsBrought(k, watch, sc, enrolled, tx, i, h);
      forall c | c in u ensures k.outpoint(c.txid, c.vout) in SpentBy(k, tx.inputs) <==> Consumes(tx, c) {
        SpentIsConsumed(k, sc, tx, c);
      }
      if Owns(r', i, h) {
        if Owns(record, i, h) && h !in SpentBy(k, tx.inputs) {
          var c :| c in u && Holds(k, enrolled, c, i, h);
          assert c in u';
        } else {
          var c :| c in Created(tx) && Holds(k, enrolled, c, i, h);
          assert c in u';
        }
      }
      if c :| c in u' && Holds(k, enrolled, c, i, h) {
        assert c in u || c in Created(tx);
      }
    }
  }

  lemma CreatedInScope(sc: Scope, tx: Transaction)
    requires Touches(sc, tx)
    ensures forall c :: c in Created(tx) ==> (c.txid, c.vout) in sc.points
  {
  }

  /** Over any run of confirmed transactions the record stays the watched part of the UTXO set. */
  lemma {:induction false} RecordIsWatchedUtxo(
    k: Keys, watch: Owners, sc: Scope, enrolled: set<(int, Bytes)>, record: Owners, u: set<Coin>, txs: seq<Transaction>)
    requires Injective(k, sc) && WatchList(k, watch, sc, enrolled) && Tracks(k, sc, enrolled, record, u)
    requires forall tx :: tx in txs ==> Touches(sc, tx)
    ensures Tracks(k, sc, enrolled, RecordFold(k, watch, record, txs), UtxoFold(u, txs))
    decreases |txs|
  {
    hide Tracks, Injective, WatchList, Touches;
    if txs != [] {
      TracksAfter(k, watch, sc, enrolled, record, u, txs[0]);
      RecordIsWatchedUtxo(k, watch, sc, enrolled, ApplyTx(k, watch, record, txs[0]), UtxoAfter(u, txs[0]), txs[1..]);
    }
  }

  /**
   The alarm is exact: the n-th confirmed transaction of a run raises it for `i` iff it spends a
   coin that is unspent at that point and pays a script `i` watches, wherever in the run the coin came from.
   */
  lemma AlarmIsExact(
    k: Keys, watch: Owners, sc: Scope, enrolled: set<(int, Bytes)>, record: Owners, u: set<Coin>,
    txs: seq<Transaction>, n: nat, i: int)
    requires Injective(k, sc) && WatchList(k, watch, sc, enrolled) && Tracks(k, sc, enrolled, record, u)
    requires n < |txs| && forall tx :: tx in txs[..n + 1] ==> Touches(sc, tx)
    ensures var at := RecordFold(k, watch, record, txs[..n]);
            Match(i, Outgoing) in MatchOf(k, watch, at, map[], txs[n]) <==>
            exists c :: c in UtxoFold(u, txs[..n]) && Consumes(txs[n], c) && (i, c.spk) in enrolled
  {
    hide WatchList, MatchOf, RecordFold, UtxoFold;
    var at, unspent, tx := RecordFold(k, watch, record, txs[..n]), UtxoFold(u, txs[..n]), txs[n];
    assert txs[..n + 1] == txs[..n] + [tx];
    assert tx in txs[..n + 1] && Touches(sc, tx);
    RecordIsWatchedUtxo(k, watch, sc, enrolled, record, u, txs[..n]);
    MatchExactly(k, watch, at, map[], tx, i);
    if op :| op in tx.inputs && SpendsOf(k, at, map[], op, i) {
      var c :| c in unspent && Holds(k, enrolled, c, i, k.outpoint(op.txid, op.vout));
      assert (op.txid, op.vout) in sc.points && (c.txid, c.vout) in sc.points;
      assert Consumes(tx, c);
    }
    if c :| c in unspent && Consumes(tx, c) && (i, c.spk) in enrolled {
      var op :| op in tx.inputs && op.txid == c.txid && op.vout == c.vout;
      assert Holds(k, enrolled, c, i, k.outpoint(op.txid, op.vout));
      assert SpendsOf(k, at, map[], op, i);
    }
  }
}
