/**
 What one transaction does to the record and to the mempool overlay, as functions of values.
 Everything is compared by keyed hash; the hash functions are parameters.
 */
module MatchSpec {
  import opened Sequences
  import opened ByteStrings
  import opened Tx

  datatype Direction = Outgoing | Incoming

  datatype Match = Match(itemId: int, direction: Direction)

  /** `k_match`: the keyed hash of a script, and of an outpoint. */
  datatype Keys = Keys(spk: Bytes -> Bytes, outpoint: (Hash, nat) -> Bytes)

  /** What a statement is about: the outpoints and the scripts of its run, and what each of its transactions pays. */
  datatype Scope = Scope(points: set<(Hash, nat)>, scripts: set<Bytes>, outs: Hash -> seq<TxOutput>)

  /** On the outpoints of the run, the hash is injective. */
  ghost predicate Injective(k: Keys, sc: Scope) {
    forall t, v, t', v' :: (t, v) in sc.points && (t', v') in sc.points && k.outpoint(t, v) == k.outpoint(t', v') ==>
      t == t' && v == v'
  }

  /** On the outpoints of the run, the hash commits to the transaction that created it. */
  ghost predicate Committing(k: Keys, sc: Scope) {
    forall t, v, t', v' :: (t, v) in sc.points && (t', v') in sc.points && k.outpoint(t, v) == k.outpoint(t', v') ==>
        t == t'
  }

  /** Its outpoints and scripts are in the scope. */
  ghost predicate Touches(sc: Scope, tx: Transaction) {
    && (forall op :: op in tx.inputs ==> (op.txid, op.vout) in sc.points)
    && (forall out :: out in tx.outputs ==> (tx.txid, out.vout) in sc.points && out.spk in sc.scripts)
  }

  /** And its txid determines its outputs, among the transactions of the run. */
  ghost predicate Pinned(sc: Scope, tx: Transaction) {
    Touches(sc, tx) && tx.outputs == sc.outs(tx.txid)
  }

  /** Item ids under a hash, in the order they were added. */
  type Owners = map<Bytes, seq<int>>

  function ItemsOf(m: Owners, h: Bytes): seq<int> {
    if h in m then m[h] else []
  }

  predicate Owns(m: Owners, i: int, h: Bytes) {
    i in ItemsOf(m, h)
  }

  function AddOwner(m: Owners, i: int, h: Bytes): Owners {
    if Owns(m, i, h) then m else m[h := ItemsOf(m, h) + [i]]
  }

  function RemoveFirst(xs: seq<int>, x: int): seq<int> {
    if xs == [] then [] else if xs[0] == x then xs[1..] else [xs[0]] + RemoveFirst(xs[1..], x)
  }

  function DropOwner(m: Owners, i: int, h: Bytes): Owners {
    if !Owns(m, i, h) then m else
    var left := RemoveFirst(ItemsOf(m, h), i);
    if left == [] then m - {h} else m[h := left]
  }

  function AddOwners(m: Owners, items: seq<int>, h: Bytes): Owners
    decreases |items|
  {
    if items == [] then m else AddOwners(AddOwner(m, items[0], h), items[1..], h)
  }

  function AppendNew(acc: seq<int>, xs: seq<int>): seq<int>
    decreases |xs|
  {
    if xs == [] then acc else AppendNew(if xs[0] in acc then acc else acc + [xs[0]], xs[1..])
  }

  // ----- matching

  function Spenders(k: Keys, record: Owners, overlay: Owners, inputs: seq<OutPoint>, acc: seq<int>): seq<int> {
    if inputs == [] then acc else
    var h := k.outpoint(inputs[0].txid, inputs[0].vout);
    Spenders(k, record, overlay, inputs[1..], AppendNew(acc, ItemsOf(record, h) + ItemsOf(overlay, h)))
  }

  function Payees(k: Keys, watch: Owners, outputs: seq<TxOutput>, acc: seq<int>): seq<int> {
    if outputs == [] then acc else
    Payees(k, watch, outputs[1..], AppendNew(acc, ItemsOf(watch, k.spk(outputs[0].spk))))
  }

  function Report(items: seq<int>, direction: Direction): (r: seq<Match>)
    ensures |r| == |items| && forall j :: 0 <= j < |r| ==> r[j] == Match(items[j], direction)
  {
    seq(|items|, j requires 0 <= j < |items| => Match(items[j], direction))
  }

  /** Alarms first, each item once per direction. */
  function MatchOf(k: Keys, watch: Owners, record: Owners, overlay: Owners, tx: Transaction): seq<Match> {
    Report(Spenders(k, record, overlay, tx.inputs, []), Outgoing)
    + Report(Payees(k, watch, tx.outputs, []), Incoming)
  }

  // ----- the record

  function SpentBy(k: Keys, inputs: seq<OutPoint>): set<Bytes> {
    set j | 0 <= j < |inputs| :: k.outpoint(inputs[j].txid, inputs[j].vout)
  }

  function Pay(k: Keys, watch: Owners, txid: Hash, outputs: seq<TxOutput>, m: Owners): Owners {
    if outputs == [] then m else
    var paid := AddOwners(m, ItemsOf(watch, k.spk(outputs[0].spk)), k.outpoint(txid, outputs[0].vout));
    Pay(k, watch, txid, outputs[1..], paid)
  }

  /** A confirmed transaction: the coins it spends leave, the coins it pays to a watched script come in. */
  function ApplyTx(k: Keys, watch: Owners, record: Owners, tx: Transaction): Owners {
    Pay(k, watch, tx.txid, tx.outputs, record - SpentBy(k, tx.inputs))
  }

  /** An entry exists only while someone owns the coin. */
  predicate NoneEmpty(m: Owners) {
    forall h :: h in m ==> m[h] != []
  }

  // ----- the overlay of unconfirmed coins

  /** `order` is the insertion order of `created`, the outpoints each transaction brought. */
  datatype Overlay = Overlay(
    maxlen: nat, byOutpoint: Owners, order: seq<Hash>, created: map<Hash, seq<Bytes>>, evicted: nat)

  /** Each pending transaction is listed once. */
  ghost predicate Listed(o: Overlay) {
    Distinct(o.order) && forall t :: t in o.order <==> t in o.created
  }

  /** The two maps say the same: the coins are exactly the disjoint union of what the pending transactions created. */
  ghost predicate Matched(o: Overlay) {
    && Listed(o)
    && (forall h :: h in o.byOutpoint <==> exists t :: t in o.created && h in o.created[t])
    && (forall t, t', h :: t in o.created && t' in o.created && h in o.created[t] && h in o.created[t'] ==> t == t')
  }

  /** What holds whatever the hash does. */
  ghost predicate Bounded(o: Overlay) {
    1 <= o.maxlen && |o.order| <= o.maxlen && Listed(o)
  }

  ghost predicate OverlayValid(o: Overlay) {
    Bounded(o) && Matched(o)
  }

  function CreatedBy(o: Overlay, txid: Hash): seq<Bytes> {
    if txid in o.created then o.created[txid] else []
  }

  function AsSet(hs: seq<Bytes>): set<Bytes> {
    set h | h in hs
  }

  function Without(order: seq<Hash>, txid: Hash): (r: seq<Hash>)
    ensures forall t :: t in r <==> t in order && t != txid
    ensures |r| <= |order| && (Distinct(order) ==> Distinct(r))
  {
    if order == [] then [] else
    var rest := Without(order[1..], txid);
    assert forall t :: t in order <==> t == order[0] || t in order[1..];
    assert Distinct(order) ==> Distinct(order[1..]) && order[0] !in order[1..];
    assert forall j :: 0 <= j < |rest| ==> rest[j] in rest;
    if order[0] == txid then rest else [order[0]] + rest
  }

  function Forget(o: Overlay, txid: Hash): Overlay {
    o.(order := Without(o.order, txid), created := o.created - {txid},
       byOutpoint := o.byOutpoint - AsSet(CreatedBy(o, txid)))
  }

  /** Before the bound is enforced. */
  function OverlayPut(o: Overlay, txid: Hash, i: int, h: Bytes): Overlay {
    var coins := CreatedBy(o, txid);
    o.(byOutpoint := AddOwner(o.byOutpoint, i, h),
       order := if txid in o.created then o.order else o.order + [txid],
       created := o.created[txid := if h in coins then coins else coins + [h]])
  }

  function EvictOldest(o: Overlay): Overlay
    requires o.order != []
  {
    var oldest := o.order[0];
    o.(order := o.order[1..], created := o.created - {oldest},
       byOutpoint := o.byOutpoint - AsSet(CreatedBy(o, oldest)), evicted := o.evicted + 1)
  }

  function OverlayAdd(o: Overlay, txid: Hash, i: int, h: Bytes): Overlay {
    var more := OverlayPut(o, txid, i, h);
    if |more.order| > more.maxlen && more.order != [] then EvictOldest(more) else more
  }

  function NoteItems(o: Overlay, txid: Hash, items: seq<int>, h: Bytes): Overlay
    decreases |items|
  {
    if items == [] then o else NoteItems(OverlayAdd(o, txid, items[0], h), txid, items[1..], h)
  }

  /** All the watched outputs of a mempool transaction, one by one. */
  function NoteOutputs(k: Keys, watch: Owners, txid: Hash, outputs: seq<TxOutput>, o: Overlay): Overlay {
    if outputs == [] then o else
    var items, h := ItemsOf(watch, k.spk(outputs[0].spk)), k.outpoint(txid, outputs[0].vout);
    NoteOutputs(k, watch, txid, outputs[1..], NoteItems(o, txid, items, h))
  }
}
