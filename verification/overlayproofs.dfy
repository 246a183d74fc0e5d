/** The overlay's two maps stay in step, and a coin once armed stays armed until a block spends it. */
module OverlayProofs {
  import opened Sequences
  import opened ByteStrings
  import opened Tx
  import opened MatchSpec
  import opened RecordProofs

  /** No other pending transaction lists `h`. */
  ghost predicate FreeFor(o: Overlay, txid: Hash, h: Bytes) {
    forall t :: t in o.created && h in o.created[t] ==> t == txid
  }

  lemma ForgetValid(o: Overlay, txid: Hash)
    requires OverlayValid(o)
    ensures OverlayValid(Forget(o, txid))
    ensures forall i, h :: Owns(Forget(o, txid).byOutpoint, i, h) <==>
        Owns(o.byOutpoint, i, h) && h !in CreatedBy(o, txid)
  {
    var o' := Forget(o, txid);
    forall h ensures h in o'.byOutpoint <==> exists t :: t in o'.created && h in o'.created[t] {
      if h in o'.byOutpoint {
        var t :| t in o.created && h in o.created[t];
        assert t in o'.created && h in o'.created[t];
      }
    }
  }

  lemma PutLists(o: Overlay, txid: Hash, i: int, h: Bytes)
    ensures var o' := OverlayPut(o, txid, i, h);
            && txid in o'.created && h in o'.created[txid]
            && (forall t, g :: t in o'.created && g in o'.created[t] <==>
                (t == txid && g == h) || (t in o.created && g in o.created[t]))
            && (forall g :: g in o'.byOutpoint <==> g == h || g in o.byOutpoint)
  {
    var o' := OverlayPut(o, txid, i, h);
    assert h in o'.created[txid];
    assert Owns(o'.byOutpoint, i, h);
  }

  lemma PutOrder(o: Overlay, txid: Hash, i: int, h: Bytes)
    requires Listed(o)
    ensures var o' := OverlayPut(o, txid, i, h);
            Listed(o') && |o'.order| <= |o.order| + 1 && o'.maxlen == o.maxlen
  {
    assert forall j :: 0 <= j < |o.order| ==> o.order[j] in o.order;
  }

  lemma PutMatched(o: Overlay, txid: Hash, i: int, h: Bytes)
    requires Matched(o) && FreeFor(o, txid, h)
    ensures Matched(OverlayPut(o, txid, i, h))
  {
    hide OverlayPut;
    var o' := OverlayPut(o, txid, i, h);
    PutOrder(o, txid, i, h);
    PutLists(o, txid, i, h);
    forall g ensures g in o'.byOutpoint <==> exists t :: t in o'.created && g in o'.created[t] {
      if g != h && g in o.byOutpoint {
        var t :| t in o.created && g in o.created[t];
        assert t in o'.created && g in o'.created[t];
      }
    }
  }

  lemma EvictOrder(o: Overlay)
    requires Listed(o) && o.order != []
    ensures Listed(EvictOldest(o)) && o.order[0] in o.created
  {
    var o', oldest := EvictOldest(o), o.order[0];
    assert oldest in o.order;
    assert forall j :: 0 <= j < |o'.order| ==> o'.order[j] == o.order[j + 1] != oldest;
    forall t | t in o.order && t != oldest ensures t in o'.order {
      var j :| 0 <= j < |o.order| && o.order[j] == t;
      assert o'.order[j - 1] == t;
    }
  }

  lemma EvictMatched(o: Overlay)
    requires Matched(o) && o.order != []
    ensures Matched(EvictOldest(o))
  {
    hide Listed;
    EvictOrder(o);
    var o' := EvictOldest(o);
    forall h ensures h in o'.byOutpoint <==> exists t :: t in o'.created && h in o'.created[t] {
      if h in o'.byOutpoint {
        var t :| t in o.created && h in o.created[t];
        assert t in o'.created && h in o'.created[t];
      }
    }
  }

  /** After a put the overlay is in bound, or one over with an oldest to drop. */
  lemma PutBounded(o: Overlay, txid: Hash, i: int, h: Bytes)
    requires Bounded(o)
    ensures var put := OverlayPut(o, txid, i, h);
            && |put.order| <= o.maxlen + 1 && put.maxlen == o.maxlen
            && (if |put.order| > put.maxlen
                then put.order[0] in put.created && Bounded(EvictOldest(put)) else Bounded(put))
  {
    hide OverlayPut, Listed;
    PutOrder(o, txid, i, h);
    var put := OverlayPut(o, txid, i, h);
    if put.order != [] {
      EvictOrder(put);
    }
  }

  /** Adding keeps the overlay in step and in bound; the transaction it is for is never the one evicted. */
  lemma AddValid(o: Overlay, txid: Hash, i: int, h: Bytes)
    requires OverlayValid(o) && FreeFor(o, txid, h)
    ensures var o' := OverlayAdd(o, txid, i, h);
            && OverlayValid(o') && txid in o'.created && Owns(o'.byOutpoint, i, h)
            && o'.maxlen == o.maxlen && o.evicted <= o'.evicted
            && (txid in o.created ==> o'.evicted == o.evicted)
            && (o'.evicted == o.evicted ==> o' == OverlayPut(o, txid, i, h))
  {
    hide Matched, Listed;
    var more := OverlayPut(o, txid, i, h);
    PutMatched(o, txid, i, h);
    PutBounded(o, txid, i, h);
    if |more.order| > more.maxlen {
      EvictMatched(more);
      OldestIsAnother(o, txid, i, h);
    }
  }

  lemma OldestIsAnother(o: Overlay, txid: Hash, i: int, h: Bytes)
    requires OverlayValid(o) && FreeFor(o, txid, h) && txid !in o.created && |o.order| == o.maxlen
    ensures var o' := EvictOldest(OverlayPut(o, txid, i, h));
            txid in o'.created && Owns(o'.byOutpoint, i, h)
  {
    var more := OverlayPut(o, txid, i, h);
    var oldest := more.order[0];
    assert oldest == o.order[0] && oldest in o.order;
    assert h !in CreatedBy(more, oldest);
  }

  // ----- the bound

  /** One more coin of a transaction: a new one goes to the end, and the oldest goes when the bound is passed. */
  lemma AddSlides(o: Overlay, txid: Hash, i: int, h: Bytes)
    requires Bounded(o)
    ensures var o' := OverlayAdd(o, txid, i, h);
            && Bounded(o') && o'.maxlen == o.maxlen && txid in o'.order
            && o'.order == (if txid in o.order then o.order else LastOf(o.order + [txid], o.maxlen))
            && o'.evicted == o.evicted + (if txid !in o.order && |o.order| == o.maxlen then 1 else 0)
  {
    PutBounded(o, txid, i, h);
    hide Distinct;
    var more := OverlayPut(o, txid, i, h);
    if txid !in o.order {
      assert more.order == o.order + [txid];
      assert more.order[|o.order|] == txid;
      if |more.order| > o.maxlen {
        assert more.order[1..][|o.order| - 1] == txid;
      }
    }
  }

  /** With the oldest go its coins, and nothing else. */
  lemma EvictsItsCoins(o: Overlay, i: int, h: Bytes)
    requires o.order != [] && o.order[0] in o.created
    ensures Owns(EvictOldest(o).byOutpoint, i, h) <==> Owns(o.byOutpoint, i, h) && h !in o.created[o.order[0]]
    ensures EvictOldest(o).created == o.created - {o.order[0]}
  {
  }

  predicate PaysSomeone(k: Keys, watch: Owners, outputs: seq<TxOutput>) {
    exists out :: out in outputs && ItemsOf(watch, k.spk(out.spk)) != []
  }

  lemma {:induction false} NoteItemsSlide(o: Overlay, txid: Hash, items: seq<int>, h: Bytes)
    requires Bounded(o)
    ensures var o' := NoteItems(o, txid, items, h);
            && Bounded(o') && o'.maxlen == o.maxlen && (items != [] ==> txid in o'.order)
            && o'.order == (if txid in o.order || items == [] then o.order else LastOf(o.order + [txid], o.maxlen))
            && o'.evicted ==
               o.evicted + (if items != [] && txid !in o.order && |o.order| == o.maxlen then 1 else 0)
    decreases |items|
  {
    hide OverlayAdd, Bounded, LastOf;
    if items != [] {
      AddSlides(o, txid, items[0], h);
      NoteItemsSlide(OverlayAdd(o, txid, items[0], h), txid, items[1..], h);
    }
  }

  /** One mempool transaction that pays a watched script joins the end of the window, unless it is in it. */
  lemma {:induction false} NoteSlides(k: Keys, watch: Owners, txid: Hash, outputs: seq<TxOutput>, o: Overlay)
    requires Bounded(o)
    ensures var o' := NoteOutputs(k, watch, txid, outputs, o);
            var joins := PaysSomeone(k, watch, outputs) && txid !in o.order;
            && Bounded(o') && o'.maxlen == o.maxlen && (PaysSomeone(k, watch, outputs) ==> txid in o'.order)
            && o'.order == (if joins then LastOf(o.order + [txid], o.maxlen) else o.order)
            && o'.evicted == o.evicted + (if joins && |o.order| == o.maxlen then 1 else 0)
    decreases |outputs|
  {
    hide NoteItems, Bounded, LastOf;
    if outputs != [] {
      var items, h := ItemsOf(watch, k.spk(outputs[0].spk)), k.outpoint(txid, outputs[0].vout);
      NoteItemsSlide(o, txid, items, h);
      NoteSlides(k, watch, txid, outputs[1..], NoteItems(o, txid, items, h));
      assert PaysSomeone(k, watch, outputs) <==> items != [] || PaysSomeone(k, watch, outputs[1..]) by {
        assert forall out :: out in outputs <==> out == outputs[0] || out in outputs[1..];
      }
    }
  }

  // ----- where the overlay's coins come from

  /** Every listed outpoint is an outpoint of the transaction it is listed under. */
  ghost predicate Provenance(k: Keys, sc: Scope, o: Overlay) {
    forall t, h :: t in o.created && h in o.created[t] ==> exists v :: (t, v) in sc.points && h == k.outpoint(t, v)
  }

  lemma ProvenanceIsFree(k: Keys, sc: Scope, o: Overlay, txid: Hash, v: nat)
    requires Committing(k, sc) && Provenance(k, sc, o) && (txid, v) in sc.points
    ensures FreeFor(o, txid, k.outpoint(txid, v))
  {
  }

  /** Lists only shrink, except that `txid` may gain `h`. */
  lemma AddLists(o: Overlay, txid: Hash, i: int, h: Bytes)
    ensures var o' := OverlayAdd(o, txid, i, h);
            forall t, g :: t in o'.created && g in o'.created[t] ==>
                (t == txid && g == h) || (t in o.created && g in o.created[t])
  {
    var more := OverlayPut(o, txid, i, h);
    assert forall t, g :: t in more.created && g in more.created[t] ==>
        (t == txid && g == h) || (t in o.created && g in o.created[t]);
  }

  lemma AddProvenance(k: Keys, sc: Scope, o: Overlay, txid: Hash, i: int, v: nat)
    requires Provenance(k, sc, o) && (txid, v) in sc.points
    ensures Provenance(k, sc, OverlayAdd(o, txid, i, k.outpoint(txid, v)))
  {
    hide OverlayAdd;
    AddLists(o, txid, i, k.outpoint(txid, v));
  }

  lemma ForgetProvenance(k: Keys, sc: Scope, o: Overlay, txid: Hash)
    requires Provenance(k, sc, o)
    ensures Provenance(k, sc, Forget(o, txid))
  {
    var o' := Forget(o, txid);
    assert forall t, h :: t in o'.created && h in o'.created[t] ==> t in o.created && h in o.created[t];
  }

  /** The transaction has that output, and it is in the scope. */
  ghost predicate Paid(sc: Scope, txid: Hash, out: TxOutput) {
    out in sc.outs(txid) && (txid, out.vout) in sc.points
  }

  ghost predicate Earned(k: Keys, watch: Owners, txid: Hash, outputs: seq<TxOutput>, i: int, h: Bytes) {
    exists out :: out in outputs && Brings(k, watch, txid, out, i, h)
  }

  /** Every coin in the overlay, under whichever transaction, is one that transaction pays to a watched script. */
  ghost predicate Backed(k: Keys, watch: Owners, sc: Scope, o: Overlay) {
    forall t, h, i :: t in o.created && h in o.created[t] && Owns(o.byOutpoint, i, h) ==>
        Earned(k, watch, t, sc.outs(t), i, h)
  }

  lemma AddOverlayOwners(o: Overlay, txid: Hash, i: int, h: Bytes)
    ensures forall j, g :: Owns(OverlayAdd(o, txid, i, h).byOutpoint, j, g) ==>
        Owns(o.byOutpoint, j, g) || (j == i && g == h)
  {
  }

  lemma AddBacked(
    k: Keys, watch: Owners, sc: Scope, o: Overlay, txid: Hash, out: TxOutput, i: int)
    requires OverlayValid(o) && Backed(k, watch, sc, o) && FreeFor(o, txid, k.outpoint(txid, out.vout))
    requires Paid(sc, txid, out) && Owns(watch, i, k.spk(out.spk))
    ensures Backed(k, watch, sc, OverlayAdd(o, txid, i, k.outpoint(txid, out.vout)))
  {
    hide OverlayAdd;
    var h := k.outpoint(txid, out.vout);
    var o' := OverlayAdd(o, txid, i, h);
    AddLists(o, txid, i, h);
    AddOverlayOwners(o, txid, i, h);
    forall t, g, j | t in o'.created && g in o'.created[t] && Owns(o'.byOutpoint, j, g)
      ensures Earned(k, watch, t, sc.outs(t), j, g)
    {
      if g == h && j == i {
        assert t == txid && Brings(k, watch, txid, out, i, h);
      } else {
        assert Owns(o.byOutpoint, j, g);
      }
    }
  }

  /** What the proofs of a run carry along. */
  ghost predicate Sound(k: Keys, watch: Owners, sc: Scope, o: Overlay) {
    OverlayValid(o) && Provenance(k, sc, o) && Backed(k, watch, sc, o)
  }

  lemma AddSound(k: Keys, watch: Owners, sc: Scope, o: Overlay, txid: Hash, out: TxOutput, i: int)
    requires Committing(k, sc) && Sound(k, watch, sc, o) && Paid(sc, txid, out) && Owns(watch, i, k.spk(out.spk))
    ensures var h := k.outpoint(txid, out.vout);
            var o' := OverlayAdd(o, txid, i, h);
            && Sound(k, watch, sc, o') && txid in o'.created && Owns(o'.byOutpoint, i, h)
            && o'.maxlen == o.maxlen && o.evicted <= o'.evicted && (txid in o.created ==> o'.evicted == o.evicted)
            && (o'.evicted == o.evicted ==> forall j, g :: Owns(o.byOutpoint, j, g) ==> Owns(o'.byOutpoint, j, g))
  {
    hide OverlayValid, Provenance, Backed, OverlayAdd, Committing, FreeFor;
    var h := k.outpoint(txid, out.vout);
    ProvenanceIsFree(k, sc, o, txid, out.vout);
    AddValid(o, txid, i, h);
    AddProvenance(k, sc, o, txid, i, out.vout);
    AddBacked(k, watch, sc, o, txid, out, i);
  }

  lemma {:induction false} NoteItemsKeeps(
    k: Keys, watch: Owners, sc: Scope, o: Overlay, txid: Hash, out: TxOutput, items: seq<int>)
    requires Committing(k, sc) && Sound(k, watch, sc, o) && Paid(sc, txid, out)
    requires forall i :: i in items ==> Owns(watch, i, k.spk(out.spk))
    ensures var h := k.outpoint(txid, out.vout);
            var o' := NoteItems(o, txid, items, h);
            && Sound(k, watch, sc, o') && o.evicted <= o'.evicted && o'.maxlen == o.maxlen
            && (txid in o.created ==> o'.evicted == o.evicted && txid in o'.created)
            && (items != [] ==> txid in o'.created)
            && (forall i :: i in items ==> Owns(o'.byOutpoint, i, h))
            && (o'.evicted == o.evicted ==> forall j, g :: Owns(o.byOutpoint, j, g) ==> Owns(o'.byOutpoint, j, g))
    decreases |items|
  {
    hide Sound, OverlayAdd, Committing;
    if items != [] {
      AddSound(k, watch, sc, o, txid, out, items[0]);
      NoteItemsKeeps(k, watch, sc, OverlayAdd(o, txid, items[0], k.outpoint(txid, out.vout)), txid, out, items[1..]);
    }
  }

  /** A mempool transaction: every watched output is armed, whatever had to be evicted to make room. */
  lemma {:induction false} NoteKeeps(
    k: Keys, watch: Owners, sc: Scope, o: Overlay, txid: Hash, outputs: seq<TxOutput>)
    requires Committing(k, sc) && Sound(k, watch, sc, o)
    requires forall out :: out in outputs ==> Paid(sc, txid, out)
    ensures var o' := NoteOutputs(k, watch, txid, outputs, o);
            && Sound(k, watch, sc, o') && o.evicted <= o'.evicted && o'.maxlen == o.maxlen
            && (txid in o.created ==> o'.evicted == o.evicted && txid in o'.created)
            && (forall i, h :: Earned(k, watch, txid, outputs, i, h) ==> Owns(o'.byOutpoint, i, h))
            && (o'.evicted == o.evicted ==> forall j, g :: Owns(o.byOutpoint, j, g) ==> Owns(o'.byOutpoint, j, g))
    decreases |outputs|
  {
    hide Sound, NoteItems, Committing;
    if outputs != [] {
      var out := outputs[0];
      var items, h := ItemsOf(watch, k.spk(out.spk)), k.outpoint(txid, out.vout);
      NoteItemsKeeps(k, watch, sc, o, txid, out, items);
      var next := NoteItems(o, txid, items, h);
      NoteKeeps(k, watch, sc, next, txid, outputs[1..]);
      var o' := NoteOutputs(k, watch, txid, outputs, o);
      forall i, g | Earned(k, watch, txid, outputs, i, g) ensures Owns(o'.byOutpoint, i, g) {
        var paid :| paid in outputs && Brings(k, watch, txid, paid, i, g);
        if paid == out {
          assert i in items && g == h && txid in next.created;
        } else {
          assert paid in outputs[1..];
          assert Earned(k, watch, txid, outputs[1..], i, g);
        }
      }
    }
  }

  lemma {:induction false} NoteItemsOwners(o: Overlay, txid: Hash, items: seq<int>, h: Bytes, j: int, g: Bytes)
    requires Owns(NoteItems(o, txid, items, h).byOutpoint, j, g)
    ensures Owns(o.byOutpoint, j, g) || (j in items && g == h)
    decreases |items|
  {
    hide OverlayAdd;
    if items != [] {
      NoteItemsOwners(OverlayAdd(o, txid, items[0], h), txid, items[1..], h, j, g);
      AddOverlayOwners(o, txid, items[0], h);
    }
  }

  /** Nothing gets into the overlay but what the transaction pays to watched scripts. */
  lemma {:induction false} NoteOwners(
    k: Keys, watch: Owners, txid: Hash, outputs: seq<TxOutput>, o: Overlay, j: int, g: Bytes)
    requires Owns(NoteOutputs(k, watch, txid, outputs, o).byOutpoint, j, g)
    ensures Owns(o.byOutpoint, j, g) || Earned(k, watch, txid, outputs, j, g)
    decreases |outputs|
  {
    hide NoteItems;
    if outputs != [] {
      var items, h := ItemsOf(watch, k.spk(outputs[0].spk)), k.outpoint(txid, outputs[0].vout);
      var next := NoteItems(o, txid, items, h);
      NoteOwners(k, watch, txid, outputs[1..], next, j, g);
      if Earned(k, watch, txid, outputs[1..], j, g) {
        var out :| out in outputs[1..] && Brings(k, watch, txid, out, j, g);
        assert out in outputs;
      } else {
        NoteItemsOwners(o, txid, items, h, j, g);
        assert Owns(o.byOutpoint, j, g) || Brings(k, watch, txid, outputs[0], j, g);
      }
    }
  }

  lemma ListedUnderItsOwn(k: Keys, sc: Scope, o: Overlay, txid: Hash, v: nat)
    requires Committing(k, sc) && OverlayValid(o) && Provenance(k, sc, o)
    requires (txid, v) in sc.points && k.outpoint(txid, v) in o.byOutpoint
    ensures k.outpoint(txid, v) in CreatedBy(o, txid)
  {
    var h := k.outpoint(txid, v);
    var t :| t in o.created && h in o.created[t];
    var v' :| (t, v') in sc.points && h == k.outpoint(t, v');
  }

  // ----- armed coins

  /** The record and the overlay together: what the matcher consults. */
  datatype Coins = Coins(record: Owners, overlay: Overlay)

  datatype Event = Mempool(tx: Transaction) | Confirmed(tx: Transaction)

  function Step(k: Keys, watch: Owners, c: Coins, e: Event): Coins {
    match e
    case Mempool(tx) => c.(overlay := NoteOutputs(k, watch, tx.txid, tx.outputs, c.overlay))
    case Confirmed(tx) => Coins(ApplyTx(k, watch, c.record, tx), Forget(c.overlay, tx.txid))
  }

  function Run(k: Keys, watch: Owners, c: Coins, es: seq<Event>): Coins
    decreases |es|
  {
    if es == [] then c else Run(k, watch, Step(k, watch, c, es[0]), es[1..])
  }

  predicate Armed(c: Coins, i: int, h: Bytes) {
    Owns(c.record, i, h) || Owns(c.overlay.byOutpoint, i, h)
  }

  predicate Spends(k: Keys, e: Event, h: Bytes) {
    e.Confirmed? && h in SpentBy(k, e.tx.inputs)
  }

  /** The handover: what a confirmation drops from the overlay it has just written to the record. */
  lemma HandoverHasNoHole(k: Keys, watch: Owners, sc: Scope, c: Coins, tx: Transaction, i: int, h: Bytes)
    requires Sound(k, watch, sc, c.overlay) && Pinned(sc, tx)
    requires Owns(c.overlay.byOutpoint, i, h) && h in CreatedBy(c.overlay, tx.txid)
    ensures Owns(ApplyTx(k, watch, c.record, tx), i, h)
  {
    hide ApplyTx;
    assert Earned(k, watch, tx.txid, tx.outputs, i, h);
    ApplyOwns(k, watch, c.record, tx, i, h);
  }

  lemma ForgetBacked(k: Keys, watch: Owners, sc: Scope, o: Overlay, txid: Hash)
    requires OverlayValid(o) && Backed(k, watch, sc, o)
    ensures Backed(k, watch, sc, Forget(o, txid))
  {
    var o' := Forget(o, txid);
    assert forall t, h :: t in o'.created && h in o'.created[t] ==> t in o.created && h in o.created[t];
    assert forall i, h :: Owns(o'.byOutpoint, i, h) ==> Owns(o.byOutpoint, i, h);
  }

  /** Only a confirmed spend disarms, and whatever a transaction pays to a watched script is armed by it. */
  lemma StepKeepsArmed(k: Keys, watch: Owners, sc: Scope, c: Coins, e: Event)
    requires Committing(k, sc) && Sound(k, watch, sc, c.overlay) && Pinned(sc, e.tx)
    ensures var c' := Step(k, watch, c, e);
            && Sound(k, watch, sc, c'.overlay) && c.overlay.evicted <= c'.overlay.evicted
            && (forall i, h :: Earned(k, watch, e.tx.txid, e.tx.outputs, i, h) ==> Armed(c', i, h))
            && (c'.overlay.evicted == c.overlay.evicted ==>
                  forall i, h :: Armed(c, i, h) && !Spends(k, e, h) ==> Armed(c', i, h))
  {
    hide OverlayValid, Provenance, Backed, NoteOutputs, Committing, ApplyTx, Forget, SpentBy;
    match e
    case Mempool(tx) =>
      NoteKeeps(k, watch, sc, c.overlay, tx.txid, tx.outputs);
    case Confirmed(tx) =>
      ForgetValid(c.overlay, tx.txid);
      ForgetProvenance(k, sc, c.overlay, tx.txid);
      ForgetBacked(k, watch, sc, c.overlay, tx.txid);
      ForgetEvictsNothing(c.overlay, tx.txid);
      var c' := Step(k, watch, c, e);
      forall i, h ensures Earned(k, watch, tx.txid, tx.outputs, i, h) ==> Armed(c', i, h) {
        ApplyOwns(k, watch, c.record, tx, i, h);
      }
      forall i, h | Armed(c, i, h) && !Spends(k, e, h) ensures Armed(c', i, h) {
        ApplyOwns(k, watch, c.record, tx, i, h);
        if !Owns(c.record, i, h) && h in CreatedBy(c.overlay, tx.txid) {
          HandoverHasNoHole(k, watch, sc, c, tx, i, h);
        }
      }
  }

  lemma ForgetEvictsNothing(o: Overlay, txid: Hash)
    ensures Forget(o, txid).evicted == o.evicted
  {
  }

  lemma {:induction false} RunIsSound(k: Keys, watch: Owners, sc: Scope, c: Coins, es: seq<Event>)
    requires Committing(k, sc) && Sound(k, watch, sc, c.overlay) && forall e :: e in es ==> Pinned(sc, e.tx)
    ensures Sound(k, watch, sc, Run(k, watch, c, es).overlay)
    ensures c.overlay.evicted <= Run(k, watch, c, es).overlay.evicted
    decreases |es|
  {
    hide Committing, Sound, Step, Pinned;
    if es != [] {
      StepKeepsArmed(k, watch, sc, c, es[0]);
      RunIsSound(k, watch, sc, Step(k, watch, c, es[0]), es[1..]);
    }
  }

  /**
   Over any interleaving of mempool and block transactions in which the overlay evicts nothing, an
   armed coin is still armed at the end unless some block on the way spent it.
   */
  lemma {:induction false} ArmedStaysArmed(
    k: Keys, watch: Owners, sc: Scope, c: Coins, es: seq<Event>, i: int, h: Bytes)
    requires Committing(k, sc) && Sound(k, watch, sc, c.overlay) && forall e :: e in es ==> Pinned(sc, e.tx)
    requires Run(k, watch, c, es).overlay.evicted == c.overlay.evicted
    requires Armed(c, i, h) && forall e :: e in es ==> !Spends(k, e, h)
    ensures Armed(Run(k, watch, c, es), i, h)
    decreases |es|
  {
    hide Committing, Sound, Step, Pinned, Armed, Spends;
    if es != [] {
      var next := Step(k, watch, c, es[0]);
      StepKeepsArmed(k, watch, sc, c, es[0]);
      RunIsSound(k, watch, sc, next, es[1..]);
      ArmedStaysArmed(k, watch, sc, next, es[1..], i, h);
    }
  }
}
