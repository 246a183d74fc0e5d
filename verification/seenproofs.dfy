/** What is announced, how often, and what is held back. */
module AnnounceProofs {
  import opened Sequences
  import opened ByteStrings
  import opened MatchSpec
  import opened OverlayProofs
  import opened StreamSpec
  import opened IngestRuns

  // ----- the seen-set is a window over the accepted txids

  function AddAll(s: Seen, txids: seq<Hash>): (s': Seen)
    requires SeenValid(s)
    ensures SeenValid(s') && s'.maxlen == s.maxlen
    decreases |txids|
  {
    if txids == [] then s else AddAll(if txids[0] in s.order then s else Remember(s, txids[0]), txids[1..])
  }

  /** Those that `add` said were new, in order. */
  function Accepted(s: Seen, txids: seq<Hash>): seq<Hash>
    requires SeenValid(s)
    decreases |txids|
  {
    if txids == [] then []
    else if txids[0] in s.order then Accepted(s, txids[1..])
    else [txids[0]] + Accepted(Remember(s, txids[0]), txids[1..])
  }

  /** The set holds the last `maxlen` accepted; every other accepted one is counted as evicted. */
  lemma {:induction false} SeenIsAWindow(s: Seen, txids: seq<Hash>)
    requires SeenValid(s)
    ensures var s', accepted := AddAll(s, txids), Accepted(s, txids);
            && s'.order == LastOf(s.order + accepted, s.maxlen)
            && |s'.order| + s'.evicted == |s.order| + s.evicted + |accepted|
    decreases |txids|
  {
    hide LastOf, Remember;
    if txids == [] {
      assert s.order + [] == s.order;
      WithinBound(s.order, s.maxlen);
    } else if txids[0] in s.order {
      SeenIsAWindow(s, txids[1..]);
    } else {
      var next := Remember(s, txids[0]);
      RememberSlides(s, txids[0]);
      var rest := Accepted(next, txids[1..]);
      SeenIsAWindow(next, txids[1..]);
      LastOfLast(s.order + [txids[0]], rest, s.maxlen);
      assert s.order + [txids[0]] + rest == s.order + ([txids[0]] + rest);
    }
  }

  lemma RememberSlides(s: Seen, txid: Hash)
    requires SeenValid(s)
    ensures var s' := Remember(s, txid);
            && SeenValid(s') && s'.order == LastOf(s.order + [txid], s.maxlen) && s'.maxlen == s.maxlen
            && |s'.order| + s'.evicted == |s.order| + s.evicted + 1
  {
  }

  /** From the empty set: an added txid is turned away exactly when it is among the last `maxlen` accepted before it. */
  lemma TurnedAwayExactly(maxlen: nat, txids: seq<Hash>, txid: Hash)
    requires 1 <= maxlen
    ensures var empty := Seen(maxlen, [], 0);
            var before := Accepted(empty, txids);
            && (txid in AddAll(empty, txids).order <==> txid in LastOf(before, maxlen))
            && |before| == |AddAll(empty, txids).order| + AddAll(empty, txids).evicted
  {
    var empty := Seen(maxlen, [], 0);
    SeenIsAWindow(empty, txids);
    assert [] + Accepted(empty, txids) == Accepted(empty, txids);
  }

  // ----- announcements

  predicate Knows(l: Ledger, txid: Hash) {
    txid in l.seen.order
  }

  function MatchNow(w: Watching, l: Ledger, ev: Event): seq<Match> {
    MatchOf(w.k, w.watch, l.record, l.overlay.byOutpoint, ev.tx)
  }

  /** A batch goes out exactly when a transaction matches and its txid is not remembered, and is the whole match. */
  lemma SeeAnnounces(w: Watching, l: Ledger, ev: Event)
    requires SeenValid(l.seen)
    ensures var (l', batch) := See(w, l, ev);
            && batch == (if Knows(l, ev.tx.txid) then [] else MatchNow(w, l, ev))
            && (MatchNow(w, l, ev) != [] ==> Knows(l', ev.tx.txid))
            && (batch == [] ==> l'.seen == l.seen)
            && l.seen.evicted <= l'.seen.evicted
            && (l'.seen.evicted == l.seen.evicted ==> forall t :: Knows(l, t) ==> Knows(l', t))
  {
    hide MatchOf, Step;
  }

  lemma {:induction false} EvictedGrows(w: Watching, l: Ledger, evs: seq<Event>)
    requires SeenValid(l.seen)
    ensures l.seen.evicted <= SeeAll(w, l, evs).0.seen.evicted
    decreases |evs|
  {
    hide See;
    if evs != [] {
      SeeAnnounces(w, l, evs[0]);
      EvictedGrows(w, See(w, l, evs[0]).0, evs[1..]);
    }
  }

  /** While nothing is evicted, a remembered txid never sends again. */
  lemma {:induction false} KnownIsSilent(w: Watching, l: Ledger, evs: seq<Event>, i: nat)
    requires SeenValid(l.seen) && i < |evs| && Knows(l, evs[i].tx.txid)
    requires SeeAll(w, l, evs).0.seen.evicted == l.seen.evicted
    ensures SeeAll(w, l, evs).1[i] == []
    decreases |evs|
  {
    hide See, Knows;
    var next := See(w, l, evs[0]).0;
    SeeAnnounces(w, l, evs[0]);
    EvictedGrows(w, next, evs[1..]);
    if i > 0 {
      KnownIsSilent(w, next, evs[1..], i - 1);
    }
  }

  /** While nothing is evicted, each txid sends at most one batch. */
  lemma {:induction false} AtMostOneBatch(w: Watching, l: Ledger, evs: seq<Event>, i: nat, j: nat)
    requires SeenValid(l.seen) && i < j < |evs| && evs[i].tx.txid == evs[j].tx.txid
    requires SeeAll(w, l, evs).0.seen.evicted == l.seen.evicted
    ensures SeeAll(w, l, evs).1[i] == [] || SeeAll(w, l, evs).1[j] == []
    decreases |evs|
  {
    hide See, Knows;
    var next := See(w, l, evs[0]).0;
    SeeAnnounces(w, l, evs[0]);
    EvictedGrows(w, next, evs[1..]);
    if i > 0 {
      AtMostOneBatch(w, next, evs[1..], i - 1, j - 1);
    } else if See(w, l, evs[0]).1 != [] {
      KnownIsSilent(w, next, evs[1..], j - 1);
    }
  }

  /** The ledger the i-th transaction was matched against. */
  function LedgerAt(w: Watching, l: Ledger, evs: seq<Event>, i: nat): (r: Ledger)
    requires SeenValid(l.seen) && i <= |evs|
    ensures SeenValid(r.seen)
  {
    SeeAll(w, l, evs[..i]).0
  }

  /** Some batch for the txid has gone out at or before position i. */
  predicate Announced(w: Watching, l: Ledger, evs: seq<Event>, i: nat, txid: Hash)
    requires SeenValid(l.seen) && i < |evs|
  {
    exists k :: 0 <= k <= i && evs[k].tx.txid == txid && SeeAll(w, l, evs).1[k] != []
  }

  /** Every transaction that matches, mempool or block, has been announced by then, unless known before the run. */
  lemma {:induction false} NoneIsLost(w: Watching, l: Ledger, evs: seq<Event>, i: nat)
    requires SeenValid(l.seen) && i < |evs| && MatchNow(w, LedgerAt(w, l, evs, i), evs[i]) != []
    ensures Knows(l, evs[i].tx.txid) || Announced(w, l, evs, i, evs[i].tx.txid)
    decreases i
  {
    hide See, MatchNow;
    var (next, batch) := See(w, l, evs[0]);
    var txid := evs[i].tx.txid;
    SeeAnnounces(w, l, evs[0]);
    if i > 0 {
      assert evs[..i][1..] == evs[1..][..i - 1];
      NoneIsLost(w, next, evs[1..], i - 1);
      if Knows(next, txid) {
        if !Knows(l, txid) {
          NewlyKnown(w, l, evs[0], txid);
          assert SeeAll(w, l, evs).1[0] == batch;
        }
      } else {
        var k :| 0 <= k <= i - 1 && evs[1..][k].tx.txid == txid && SeeAll(w, next, evs[1..]).1[k] != [];
        assert SeeAll(w, l, evs).1[k + 1] == SeeAll(w, next, evs[1..]).1[k];
      }
    } else {
      assert SeeAll(w, l, evs).1[0] == batch;
    }
  }

  /** A txid becomes known by its own batch and no other way. */
  lemma NewlyKnown(w: Watching, l: Ledger, ev: Event, txid: Hash)
    requires SeenValid(l.seen) && Knows(See(w, l, ev).0, txid) && !Knows(l, txid)
    ensures ev.tx.txid == txid && See(w, l, ev).1 != []
  {
    hide MatchOf, Step;
  }

  // ----- when an alarm is lost

  /** Each batch is that of its own transaction, in the ledger of its moment. */
  lemma BatchAt(w: Watching, l: Ledger, evs: seq<Event>, i: nat)
    requires SeenValid(l.seen) && i < |evs|
    ensures SeeAll(w, l, evs).1[i] == See(w, LedgerAt(w, l, evs, i), evs[i]).1
    ensures LedgerAt(w, l, evs, i + 1) == See(w, LedgerAt(w, l, evs, i), evs[i]).0
  {
    hide See;
    var at := LedgerAt(w, l, evs, i);
    SeeAllJoined(w, l, evs[..i], evs[i..]);
    SeeAllJoined(w, l, evs[..i], [evs[i]]);
    assert evs[..i] + evs[i..] == evs && evs[..i] + [evs[i]] == evs[..i + 1];
    assert [evs[i]][1..] == [];
    assert SeeAll(w, at, [evs[i]]).0 == See(w, at, evs[i]).0;
  }

  /** No transaction with this txid has matched anything before position i. */
  ghost predicate NoMatchBefore(w: Watching, l: Ledger, evs: seq<Event>, i: nat, txid: Hash)
    requires SeenValid(l.seen) && i <= |evs|
  {
    forall k :: 0 <= k < i && evs[k].tx.txid == txid ==> MatchNow(w, LedgerAt(w, l, evs, k), evs[k]) == []
  }

  lemma {:induction false} UnknownUntil(w: Watching, l: Ledger, evs: seq<Event>, i: nat, txid: Hash)
    requires SeenValid(l.seen) && i <= |evs| && !Knows(l, txid) && NoMatchBefore(w, l, evs, i, txid)
    ensures !Knows(LedgerAt(w, l, evs, i), txid)
  {
    hide See, Knows, MatchNow, LedgerAt;
    if i == 0 {
      NothingSeenYet(w, l, evs);
    } else {
      UnknownUntil(w, l, evs, i - 1, txid);
      var at := LedgerAt(w, l, evs, i - 1);
      BatchAt(w, l, evs, i - 1);
      SeeAnnounces(w, at, evs[i - 1]);
      if Knows(LedgerAt(w, l, evs, i), txid) {
        NewlyKnown(w, at, evs[i - 1], txid);
      }
    }
  }

  lemma NothingSeenYet(w: Watching, l: Ledger, evs: seq<Event>)
    requires SeenValid(l.seen)
    ensures LedgerAt(w, l, evs, 0) == l
  {
  }

  /** Where a txid first matched anything, at or before position n. */
  ghost function FirstMatch(w: Watching, l: Ledger, evs: seq<Event>, n: nat): (f: nat)
    requires SeenValid(l.seen) && n < |evs| && MatchNow(w, LedgerAt(w, l, evs, n), evs[n]) != []
    ensures f <= n && evs[f].tx.txid == evs[n].tx.txid && MatchNow(w, LedgerAt(w, l, evs, f), evs[f]) != []
    ensures NoMatchBefore(w, l, evs, f, evs[n].tx.txid)
  {
    hide MatchNow, LedgerAt;
    if k: nat :| k < n && evs[k].tx.txid == evs[n].tx.txid && MatchNow(w, LedgerAt(w, l, evs, k), evs[k]) != []
    then FirstMatch(w, l, evs, k)
    else n
  }

  /** `m` has gone out for the txid of position n, at or before it. */
  ghost predicate Sent(w: Watching, l: Ledger, evs: seq<Event>, n: nat, m: Match)
    requires SeenValid(l.seen) && n < |evs|
  {
    exists k :: 0 <= k <= n && evs[k].tx.txid == evs[n].tx.txid && m in SeeAll(w, l, evs).1[k]
  }

  /**
   A transaction matches `m`, say the spend of a watched coin.  Its txid is new to the run, and the
   seen-set evicts nothing.  Then `m` has gone out by now, or ever will, exactly when it was part of what
   the txid matched the first time it matched anything: what joins the match later is lost.
   */
  lemma AlarmGoesOutExactly(w: Watching, l: Ledger, evs: seq<Event>, n: nat, m: Match)
    requires SeenValid(l.seen) && n < |evs| && m in MatchNow(w, LedgerAt(w, l, evs, n), evs[n])
    requires !Knows(l, evs[n].tx.txid) && SeeAll(w, l, evs).0.seen.evicted == l.seen.evicted
    ensures var f := FirstMatch(w, l, evs, n);
            && (Sent(w, l, evs, n, m) <==> m in MatchNow(w, LedgerAt(w, l, evs, f), evs[f]))
            && (Sent(w, l, evs, n, m) <==>
                  exists k :: 0 <= k < |evs| && evs[k].tx.txid == evs[n].tx.txid && m in SeeAll(w, l, evs).1[k])
  {
    hide See, SeeAll, Knows, MatchNow, LedgerAt, NoMatchBefore;
    var f, batches := FirstMatch(w, l, evs, n), SeeAll(w, l, evs).1;
    UnknownUntil(w, l, evs, f, evs[n].tx.txid);
    BatchAt(w, l, evs, f);
    SeeAnnounces(w, LedgerAt(w, l, evs, f), evs[f]);
    assert batches[f] == MatchNow(w, LedgerAt(w, l, evs, f), evs[f]);
    forall k | 0 <= k < |evs| && k != f && evs[k].tx.txid == evs[n].tx.txid ensures batches[k] == [] {
      AtMostOneBatch(w, l, evs, if k < f then k else f, if k < f then f else k);
    }
  }

  /**
   A run of messages whose seen-set evicts nothing.  Its alerts are the batches of its transactions one
   after another; no txid has two; and whatever matched, unless known before, had its batch by then.
   */
  lemma RunAnnounces(s: Setting, e: Engine, ms: seq<Message>)
    requires EngineValid(e) && RunAll(s, e, ms).engine.ledger.seen.evicted == e.ledger.seen.evicted
    ensures var evs := EventsOfRun(s, e, ms);
            var batches := SeeAll(s.w, e.ledger, evs).1;
            && RunAll(s, e, ms).alerts == Flatten(batches)
            && (forall i, j :: 0 <= i < j < |evs| && evs[i].tx.txid == evs[j].tx.txid ==>
                batches[i] == [] || batches[j] == [])
            && (forall i :: 0 <= i < |evs| && MatchNow(s.w, LedgerAt(s.w, e.ledger, evs, i), evs[i]) != [] ==>
                  Knows(e.ledger, evs[i].tx.txid) || Announced(s.w, e.ledger, evs, i, evs[i].tx.txid))
  {
    hide RunAll, EventsOfRun, SeeAll, Flatten, LedgerAt, MatchNow, Announced, Knows;
    RunIsSeeing(s, e, ms);
    var evs := EventsOfRun(s, e, ms);
    var batches := SeeAll(s.w, e.ledger, evs).1;
    forall i, j | 0 <= i < j < |evs| && evs[i].tx.txid == evs[j].tx.txid ensures batches[i] == [] || batches[j] == [] {
      AtMostOneBatch(s.w, e.ledger, evs, i, j);
    }
    forall i | 0 <= i < |evs| && MatchNow(s.w, LedgerAt(s.w, e.ledger, evs, i), evs[i]) != []
      ensures Knows(e.ledger, evs[i].tx.txid) || Announced(s.w, e.ledger, evs, i, evs[i].tx.txid)
    {
      NoneIsLost(s.w, e.ledger, evs, i);
    }
  }
}
