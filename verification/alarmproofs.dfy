/** When an alarm goes off, in a run of the engine: exactly when a watched coin is spent, confirmed or not. */
module AlarmProofs {
  import opened ByteStrings
  import opened Tx
  import opened MatchSpec
  import opened RecordProofs
  import opened OverlayProofs
  import opened StreamSpec
  import opened IngestRuns
  import opened AnnounceProofs

  // ----- block-only runs

  lemma {:induction false} BlocksKeepTheOverlayEmpty(w: Watching, l: Ledger, txs: seq<Transaction>)
    requires SeenValid(l.seen) && l.overlay.byOutpoint == map[]
    ensures var end := SeeAll(w, l, ConfirmedOf(txs)).0;
            end.overlay.byOutpoint == map[] && end.record == RecordFold(w.k, w.watch, l.record, txs)
    decreases |txs|
  {
    hide MatchOf, Announce, ApplyTx, Without;
    if txs == [] {
      assert ConfirmedOf(txs) == [];
    } else {
      assert ConfirmedOf(txs)[1..] == ConfirmedOf(txs[1..]) && ConfirmedOf(txs)[0] == Confirmed(txs[0]);
      var next := See(w, l, Confirmed(txs[0])).0;
      var none: Owners := map[];
      assert none - AsSet(CreatedBy(l.overlay, txs[0].txid)) == none;
      BlocksKeepTheOverlayEmpty(w, next, txs[1..]);
    }
  }

  /**
   A run of blocks from an empty overlay: the engine's match of the n-th transaction holds an alarm for `i`
   iff that transaction spends a coin unspent at that point that pays a script `i` watches, wherever in the
   run the coin came from.
   */
  lemma BlockRunAlarmIsExact(
    w: Watching, sc: Scope, enrolled: set<(int, Bytes)>, l: Ledger, u: set<Coin>, txs: seq<Transaction>, n: nat, i: int)
    requires SeenValid(l.seen) && l.overlay.byOutpoint == map[] && n < |txs|
    requires Injective(w.k, sc) && WatchList(w.k, w.watch, sc, enrolled) && Tracks(w.k, sc, enrolled, l.record, u)
    requires forall tx :: tx in txs[..n + 1] ==> Touches(sc, tx)
    ensures Match(i, Outgoing) in MatchNow(w, LedgerAt(w, l, ConfirmedOf(txs), n), Confirmed(txs[n])) <==>
            exists c :: c in UtxoFold(u, txs[..n]) && Consumes(txs[n], c) && (i, c.spk) in enrolled
  {
    hide MatchOf, RecordFold, UtxoFold, Injective, WatchList, Tracks, Consumes, SeeAll, Touches;
    assert ConfirmedOf(txs)[..n] == ConfirmedOf(txs[..n]);
    BlocksKeepTheOverlayEmpty(w, l, txs[..n]);
    AlarmIsExact(w.k, w.watch, sc, enrolled, l.record, u, txs, n, i);
  }

  // ----- runs with mempool traffic

  /** The coins the mempool holds: made by a transaction seen there and not confirmed since. */
  function PendingAfter(p: set<Coin>, ev: Event): set<Coin> {
    match ev
    case Mempool(tx) => p + Created(tx)
    case Confirmed(tx) => set c | c in p && c.txid != tx.txid
  }

  function PendingFold(p: set<Coin>, evs: seq<Event>): set<Coin>
    decreases |evs|
  {
    if evs == [] then p else PendingFold(PendingAfter(p, evs[0]), evs[1..])
  }

  function Confirmations(evs: seq<Event>): seq<Transaction> {
    if evs == [] then [] else (if evs[0].Confirmed? then [evs[0].tx] else []) + Confirmations(evs[1..])
  }

  lemma NotedIsPending(
    k: Keys, watch: Owners, sc: Scope, enrolled: set<(int, Bytes)>, o: Overlay, p: set<Coin>, tx: Transaction)
    requires Committing(k, sc) && WatchList(k, watch, sc, enrolled) && Sound(k, watch, sc, o) && Pinned(sc, tx)
    requires Tracks(k, sc, enrolled, o.byOutpoint, p)
    requires NoteOutputs(k, watch, tx.txid, tx.outputs, o).evicted == o.evicted
    ensures Tracks(k, sc, enrolled, NoteOutputs(k, watch, tx.txid, tx.outputs, o).byOutpoint, p + Created(tx))
  {
    hide Committing, Sound, NoteOutputs, WatchList, Created, Brings;
    CreatedInScope(sc, tx);
    var o' := NoteOutputs(k, watch, tx.txid, tx.outputs, o);
    NoteKeeps(k, watch, sc, o, tx.txid, tx.outputs);
    forall i, h ensures Owns(o'.byOutpoint, i, h) <==> exists c :: c in p + Created(tx) && Holds(k, enrolled, c, i, h) {
      CreatedIsBrought(k, watch, sc, enrolled, tx, i, h);
      if Owns(o'.byOutpoint, i, h) {
        NoteOwners(k, watch, tx.txid, tx.outputs, o, i, h);
        if Owns(o.byOutpoint, i, h) {
          var c :| c in p && Holds(k, enrolled, c, i, h);
          assert c in p + Created(tx);
        } else {
          var c :| c in Created(tx) && Holds(k, enrolled, c, i, h);
          assert c in p + Created(tx);
        }
      }
      if c :| c in p + Created(tx) && Holds(k, enrolled, c, i, h) {
        if c in p {
          assert Owns(o.byOutpoint, i, h);
        } else {
          assert Earned(k, watch, tx.txid, tx.outputs, i, h);
        }
      }
    }
  }

  /** Forgetting a transaction takes its own outpoints and no others. */
  lemma ForgottenExactly(k: Keys, sc: Scope, o: Overlay, txid: Hash, t: Hash, v: nat, i: int)
    requires Committing(k, sc) && OverlayValid(o) && Provenance(k, sc, o) && (t, v) in sc.points
    ensures Owns(Forget(o, txid).byOutpoint, i, k.outpoint(t, v)) <==>
        Owns(o.byOutpoint, i, k.outpoint(t, v)) && t != txid
  {
    hide OverlayValid;
    var h := k.outpoint(t, v);
    if h in CreatedBy(o, txid) {
      var v' :| (txid, v') in sc.points && h == k.outpoint(txid, v');
    } else if t == txid && h in o.byOutpoint {
      ListedUnderItsOwn(k, sc, o, txid, v);
    }
  }

  lemma ForgottenIsPending(
    k: Keys, watch: Owners, sc: Scope, enrolled: set<(int, Bytes)>, o: Overlay, p: set<Coin>, tx: Transaction)
    requires Committing(k, sc) && Sound(k, watch, sc, o) && Tracks(k, sc, enrolled, o.byOutpoint, p)
    ensures Tracks(k, sc, enrolled, Forget(o, tx.txid).byOutpoint, PendingAfter(p, Confirmed(tx)))
  {
    hide Committing, OverlayValid, Provenance, Backed, Forget;
    var o', p' := Forget(o, tx.txid), PendingAfter(p, Confirmed(tx));
    ForgetOwns(o, tx.txid);
    forall i, h ensures Owns(o'.byOutpoint, i, h) <==> exists c :: c in p' && Holds(k, enrolled, c, i, h) {
      if Owns(o'.byOutpoint, i, h) {
        var c :| c in p && Holds(k, enrolled, c, i, h);
        ForgottenExactly(k, sc, o, tx.txid, c.txid, c.vout, i);
        assert c in p';
      }
      if c :| c in p' && Holds(k, enrolled, c, i, h) {
        assert Owns(o.byOutpoint, i, h);
        ForgottenExactly(k, sc, o, tx.txid, c.txid, c.vout, i);
      }
    }
  }

  lemma ForgetOwns(o: Overlay, txid: Hash)
    ensures forall i, h :: Owns(Forget(o, txid).byOutpoint, i, h) ==> Owns(o.byOutpoint, i, h)
  {
  }

  lemma InjectiveCommits(k: Keys, sc: Scope)
    requires Injective(k, sc)
    ensures Committing(k, sc)
  {
  }

  /** Record and overlay together, over a run with no eviction: the watched coins, confirmed and pending. */
  lemma {:induction false} RunTracks(
    k: Keys, watch: Owners, sc: Scope, enrolled: set<(int, Bytes)>,
    c: Coins, u: set<Coin>, p: set<Coin>, evs: seq<Event>)
    requires Injective(k, sc) && WatchList(k, watch, sc, enrolled) && Sound(k, watch, sc, c.overlay)
    requires Tracks(k, sc, enrolled, c.record, u) && Tracks(k, sc, enrolled, c.overlay.byOutpoint, p)
    requires forall ev :: ev in evs ==> Pinned(sc, ev.tx)
    requires Run(k, watch, c, evs).overlay.evicted == c.overlay.evicted
    ensures var end := Run(k, watch, c, evs);
            && Tracks(k, sc, enrolled, end.record, UtxoFold(u, Confirmations(evs)))
            && Tracks(k, sc, enrolled, end.overlay.byOutpoint, PendingFold(p, evs))
    decreases |evs|
  {
    hide Injective, WatchList, Sound, Tracks, Pinned, ApplyTx, NoteOutputs, Forget, UtxoAfter, PendingAfter;
    if evs != [] {
      InjectiveCommits(k, sc);
      var next := Step(k, watch, c, evs[0]);
      StepKeepsArmed(k, watch, sc, c, evs[0]);
      RunIsSound(k, watch, sc, next, evs[1..]);
      StepTracks(k, watch, sc, enrolled, c, u, p, evs[0]);
      var u' := if evs[0].Confirmed? then UtxoAfter(u, evs[0].tx) else u;
      RunTracks(k, watch, sc, enrolled, next, u', PendingAfter(p, evs[0]), evs[1..]);
      if evs[0].Confirmed? {
        assert ([evs[0].tx] + Confirmations(evs[1..]))[1..] == Confirmations(evs[1..]);
      } else {
        assert [] + Confirmations(evs[1..]) == Confirmations(evs[1..]);
      }
    }
  }

  lemma StepTracks(
    k: Keys, watch: Owners, sc: Scope, enrolled: set<(int, Bytes)>,
    c: Coins, u: set<Coin>, p: set<Coin>, ev: Event)
    requires Injective(k, sc) && WatchList(k, watch, sc, enrolled) && Sound(k, watch, sc, c.overlay)
    requires Pinned(sc, ev.tx)
    requires Tracks(k, sc, enrolled, c.record, u) && Tracks(k, sc, enrolled, c.overlay.byOutpoint, p)
    requires Step(k, watch, c, ev).overlay.evicted == c.overlay.evicted
    ensures var c' := Step(k, watch, c, ev);
            && Tracks(k, sc, enrolled, c'.record, if ev.Confirmed? then UtxoAfter(u, ev.tx) else u)
            && Tracks(k, sc, enrolled, c'.overlay.byOutpoint, PendingAfter(p, ev))
  {
    hide Injective, WatchList, Sound, Tracks, Touches, ApplyTx, NoteOutputs, Forget, UtxoAfter;
    InjectiveCommits(k, sc);
    match ev
    case Mempool(tx) =>
      NotedIsPending(k, watch, sc, enrolled, c.overlay, p, tx);
    case Confirmed(tx) =>
      TracksAfter(k, watch, sc, enrolled, c.record, u, tx);
      ForgottenIsPending(k, watch, sc, enrolled, c.overlay, p, tx);
  }

  /**
   Any run, mempool and blocks, in which the overlay evicts nothing: the n-th transaction, wherever it came
   from, raises the alarm for `i` iff it spends a coin `i` watches that is unspent in the chain so far, or
   that a transaction still pending in the mempool has made.
   */
  lemma RunAlarmIsExact(
    w: Watching, sc: Scope, enrolled: set<(int, Bytes)>, l: Ledger, u: set<Coin>, p: set<Coin>,
    evs: seq<Event>, n: nat, i: int)
    requires SeenValid(l.seen) && n < |evs| && Sound(w.k, w.watch, sc, l.overlay)
    requires Injective(w.k, sc) && WatchList(w.k, w.watch, sc, enrolled)
    requires Tracks(w.k, sc, enrolled, l.record, u) && Tracks(w.k, sc, enrolled, l.overlay.byOutpoint, p)
    requires (forall ev :: ev in evs[..n] ==> Pinned(sc, ev.tx)) && Touches(sc, evs[n].tx)
    requires LedgerAt(w, l, evs, n).overlay.evicted == l.overlay.evicted
    ensures Match(i, Outgoing) in MatchNow(w, LedgerAt(w, l, evs, n), evs[n]) <==>
            exists c :: (c in UtxoFold(u, Confirmations(evs[..n])) || c in PendingFold(p, evs[..n]))
                     && Consumes(evs[n].tx, c) && (i, c.spk) in enrolled
  {
    hide SeeAll, Run, Sound, Injective, WatchList, Pinned, Touches, MatchOf, UtxoFold, PendingFold;
    var at := LedgerAt(w, l, evs, n);
    SeeingIsStepping(w, l, evs[..n]);
    RunTracks(w.k, w.watch, sc, enrolled, Coins(l.record, l.overlay), u, p, evs[..n]);
    var unspent, pending := UtxoFold(u, Confirmations(evs[..n])), PendingFold(p, evs[..n]);
    SpendsExactly(w.k, sc, enrolled, at.record, at.overlay.byOutpoint, unspent, pending, evs[n].tx, i);
    MatchExactly(w.k, w.watch, at.record, at.overlay.byOutpoint, evs[n].tx, i);
  }

  /** Up to an earlier moment no more has been evicted. */
  lemma EvictedBefore(w: Watching, sc: Scope, l: Ledger, evs: seq<Event>, f: nat, n: nat)
    requires SeenValid(l.seen) && f <= n <= |evs| && Committing(w.k, sc) && Sound(w.k, w.watch, sc, l.overlay)
    requires forall ev :: ev in evs[..n] ==> Pinned(sc, ev.tx)
    ensures l.overlay.evicted <= LedgerAt(w, l, evs, f).overlay.evicted <= LedgerAt(w, l, evs, n).overlay.evicted
  {
    hide SeeAll, Run, Sound, Committing, Pinned;
    var at := LedgerAt(w, l, evs, f);
    assert evs[..n] == evs[..f] + evs[f..n];
    SeeAllJoined(w, l, evs[..f], evs[f..n]);
    SeeingIsStepping(w, l, evs[..f]);
    SeeingIsStepping(w, at, evs[f..n]);
    RunIsSound(w.k, w.watch, sc, Coins(l.record, l.overlay), evs[..f]);
    RunIsSound(w.k, w.watch, sc, Coins(at.record, at.overlay), evs[f..n]);
  }

  /**
   The n-th transaction spends a coin that `i` watches.  Unless its txid was known before the run, the alarm
   goes out exactly when such a coin was there, unspent or pending, the first time the txid matched anything.
   */
  lemma AlarmIsSentExactly(
    w: Watching, sc: Scope, enrolled: set<(int, Bytes)>, l: Ledger, u: set<Coin>, p: set<Coin>,
    evs: seq<Event>, n: nat, i: int)
    requires SeenValid(l.seen) && n < |evs| && Sound(w.k, w.watch, sc, l.overlay)
    requires Injective(w.k, sc) && WatchList(w.k, w.watch, sc, enrolled)
    requires Tracks(w.k, sc, enrolled, l.record, u) && Tracks(w.k, sc, enrolled, l.overlay.byOutpoint, p)
    requires forall ev :: ev in evs[..n + 1] ==> Pinned(sc, ev.tx)
    requires LedgerAt(w, l, evs, n).overlay.evicted == l.overlay.evicted
    requires Match(i, Outgoing) in MatchNow(w, LedgerAt(w, l, evs, n), evs[n])
    requires !Knows(l, evs[n].tx.txid) && SeeAll(w, l, evs).0.seen.evicted == l.seen.evicted
    ensures var f := FirstMatch(w, l, evs, n);
            Sent(w, l, evs, n, Match(i, Outgoing)) <==>
            exists c :: (c in UtxoFold(u, Confirmations(evs[..f])) || c in PendingFold(p, evs[..f]))
                     && Consumes(evs[f].tx, c) && (i, c.spk) in enrolled
  {
    hide SeeAll, Sound, Injective, WatchList, Tracks, Touches, UtxoFold, PendingFold, Consumes, LedgerAt, Knows, Sent,
        MatchNow;
    AlarmGoesOutExactly(w, l, evs, n, Match(i, Outgoing));
    var f := FirstMatch(w, l, evs, n);
    InjectiveCommits(w.k, sc);
    assert forall ev :: ev in evs[..n] ==> ev in evs[..n + 1];
    assert forall ev :: ev in evs[..f] ==> ev in evs[..n + 1];
    assert evs[..n + 1][f] == evs[f];
    EvictedBefore(w, sc, l, evs, f, n);
    RunAlarmIsExact(w, sc, enrolled, l, u, p, evs, f, i);
  }

  lemma SpendsExactly(
    k: Keys, sc: Scope, enrolled: set<(int, Bytes)>, record: Owners, overlay: Owners, u: set<Coin>, p: set<Coin>,
    tx: Transaction, i: int)
    requires Injective(k, sc) && Touches(sc, tx)
    requires Tracks(k, sc, enrolled, record, u) && Tracks(k, sc, enrolled, overlay, p)
    ensures (exists op :: op in tx.inputs && SpendsOf(k, record, overlay, op, i)) <==>
            exists c :: (c in u || c in p) && Consumes(tx, c) && (i, c.spk) in enrolled
  {
    hide Consumes;
    if op :| op in tx.inputs && SpendsOf(k, record, overlay, op, i) {
      var h := k.outpoint(op.txid, op.vout);
      if Owns(record, i, h) {
        var c :| c in u && Holds(k, enrolled, c, i, h);
        HeldIsConsumed(k, sc, enrolled, tx, op, c, i);
      } else {
        var c :| c in p && Holds(k, enrolled, c, i, h);
        HeldIsConsumed(k, sc, enrolled, tx, op, c, i);
      }
    }
    if c :| (c in u || c in p) && Consumes(tx, c) && (i, c.spk) in enrolled {
      var op := ConsumedBy(tx, c);
      assert Holds(k, enrolled, c, i, k.outpoint(op.txid, op.vout));
      assert SpendsOf(k, record, overlay, op, i);
    }
  }

  lemma HeldIsConsumed(k: Keys, sc: Scope, enrolled: set<(int, Bytes)>, tx: Transaction, op: OutPoint, c: Coin, i: int)
    requires Injective(k, sc) && Touches(sc, tx) && (c.txid, c.vout) in sc.points
    requires op in tx.inputs && Holds(k, enrolled, c, i, k.outpoint(op.txid, op.vout))
    ensures Consumes(tx, c) && (i, c.spk) in enrolled
  {
  }

  lemma ConsumedBy(tx: Transaction, c: Coin) returns (op: OutPoint)
    requires Consumes(tx, c)
    ensures op in tx.inputs && op.txid == c.txid && op.vout == c.vout
  {
    op :| op in tx.inputs && op.txid == c.txid && op.vout == c.vout;
  }
}
