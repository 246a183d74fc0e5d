/** Whole runs of messages: what they leave behind, and what they announce. */
module IngestRuns {
  import opened Wrappers
  import opened Sequences
  import opened ByteStrings
  import opened Tx
  import opened MatchSpec
  import opened RecordProofs
  import opened OverlayProofs
  import opened SequenceTracking
  import opened Blocks
  import opened Reconcile
  import opened StreamSpec
  import opened Stream

  datatype Ran = Ran(engine: Engine, alerts: seq<Match>, applied: seq<Due>)

  function AlertsIn(o: Outcome): seq<Match> {
    if o.Alerts? then o.matches else []
  }

  function RunAll(s: Setting, e: Engine, ms: seq<Message>): (r: Ran)
    requires EngineValid(e)
    ensures EngineValid(r.engine)
    decreases |ms|
  {
    if ms == [] then Ran(e, [], []) else
    var h := Handle(s, e, ms[0]);
    var rest := RunAll(s, h.engine, ms[1..]);
    Ran(rest.engine, AlertsIn(h.outcome) + rest.alerts, h.applied + rest.applied)
  }

  // ----- linked application

  /** Each block is the child of the one before, one higher; the first follows the tip, if there is one. */
  predicate Linked(tip: Option<Tip>, due: seq<Due>)
    decreases |due|
  {
    due != [] ==>
    && (tip.Some? ==> due[0].block.prevHash == tip.value.hash && due[0].height == tip.value.height + 1)
    && Linked(Some(Tip(due[0].block.blockHash, due[0].height)), due[1..])
  }

  lemma {:induction false} LinkedJoined(tip: Option<Tip>, a: seq<Due>, b: seq<Due>)
    requires Linked(tip, a) && Linked(TipAfter(tip, a), b)
    ensures Linked(tip, a + b) && TipAfter(tip, a + b) == TipAfter(TipAfter(tip, a), b)
    decreases |a|
  {
    if a == [] {
      assert a + b == b;
    } else {
      var next := Some(Tip(a[0].block.blockHash, a[0].height));
      assert (a + b)[1..] == a[1..] + b && (a + b)[0] == a[0];
      assert TipAfter(tip, a) == TipAfter(next, a[1..]);
      LinkedJoined(next, a[1..], b);
    }
  }

  /** The k-th block after another is its k-th descendant, k higher. */
  lemma {:induction false} LinkedAt(tip: Option<Tip>, due: seq<Due>, i: nat)
    requires Linked(tip, due) && 0 < i < |due|
    ensures due[i].block.prevHash == due[i - 1].block.blockHash && due[i].height == due[0].height + i
    decreases i
  {
    var next := Some(Tip(due[0].block.blockHash, due[0].height));
    if i > 1 {
      LinkedAt(next, due[1..], i - 1);
    }
  }

  lemma LinkedOne(tip: Tip, due: Due)
    requires due.block.prevHash == tip.hash && due.height == tip.height + 1
    ensures Linked(Some(tip), [due]) && TipAfter(Some(tip), [due]) == Some(Tip(due.block.blockHash, due.height))
  {
  }

  /** Each block is the child of the one before, the first of `parent`. */
  predicate Chained(parent: Hash, blocks: seq<Block>)
    decreases |blocks|
  {
    blocks != [] ==> blocks[0].prevHash == parent && Chained(blocks[0].blockHash, blocks[1..])
  }

  lemma FetchCalls(parse: Bytes -> BlockResult, node: Node, n: nat, height: int)
    ensures n < Fetch(parse, node, n, height).calls <= n + 2
  {
  }

  lemma {:induction false} FetchRunChained(
    parse: Bytes -> BlockResult, node: Node, n: nat, parent: Hash, height: int, count: nat)
    ensures var run := FetchRun(parse, node, n, parent, height, count);
            && Chained(parent, run.blocks) && |run.blocks| <= count && (run.failure.None? ==> |run.blocks| == count)
            && n <= run.calls <= n + 2 * count
    decreases count
  {
    hide Fetch;
    var got := Fetch(parse, node, n, height);
    FetchCalls(parse, node, n, height);
    if count > 0 && got.Got? && got.value.prevHash == parent {
      FetchRunChained(parse, node, got.calls, got.value.blockHash, height + 1, count - 1);
    }
  }

  lemma {:induction false} ChainedIsLinked(tip: Tip, blocks: seq<Block>)
    requires Chained(tip.hash, blocks)
    ensures var due := AtHeights(blocks, tip.height + 1);
            && Linked(Some(tip), due)
            && TipAfter(Some(tip), due) == Some(Tip(LastHash(blocks, tip), tip.height + |blocks|))
    decreases |blocks|
  {
    hide Linked, TipAfter;
    if blocks == [] {
      NothingIsLinked(Some(tip));
      assert AtHeights(blocks, tip.height + 1) == [];
    } else {
      var first := Due(blocks[0], tip.height + 1);
      var next := Tip(blocks[0].blockHash, tip.height + 1);
      ChainedIsLinked(next, blocks[1..]);
      LinkedOne(tip, first);
      LinkedJoined(Some(tip), [first], AtHeights(blocks[1..], tip.height + 2));
      assert AtHeights(blocks, tip.height + 1) == [first] + AtHeights(blocks[1..], tip.height + 2);
    }
  }

  function Ceiling(f: Follower): nat {
    if f.maxCatchUp < 0 then 0 else f.maxCatchUp
  }

  lemma GapPlanLinked(parse: Bytes -> BlockResult, node: Node, f: Follower, tip: Tip, block: Block, target: int)
    ensures var (f', plan) := GapPlan(parse, node, f, tip, block, target);
            && f'.tip == f.tip && f'.maxCatchUp == f.maxCatchUp
            && f.fetched <= f'.fetched && (f'.fetched == f.fetched || f'.fetched <= f.fetched + f.maxCatchUp)
            && f.calls < f'.calls <= f.calls + 1 + 2 * Ceiling(f)
            && (plan.Owed? ==> Linked(Some(tip), plan.due) && plan.due != [] && plan.due[|plan.due| - 1].block == block)
  {
    hide FetchRun, Fetch, Linked, TipAfter;
    var active := OnActiveChain(node, f.calls, tip.hash);
    var missing := target - tip.height - 1;
    if active.Got? && active.value && 0 <= missing <= f.maxCatchUp {
      FetchRunChained(parse, node, active.calls, tip.hash, tip.height + 1, missing);
      var run := FetchRun(parse, node, active.calls, tip.hash, tip.height + 1, missing);
      ChainedIsLinked(tip, run.blocks);
      if run.failure.None? && block.prevHash == LastHash(run.blocks, tip) {
        LinkedOne(Tip(LastHash(run.blocks, tip), target - 1), Due(block, target));
        LinkedJoined(Some(tip), AtHeights(run.blocks, tip.height + 1), [Due(block, target)]);
      }
    }
  }

  /**
   Whatever the node says, what is owed continues the chain from the tip, and costs at most the ceiling
   in blocks fetched, and two calls and two more for each of those, the fetches that failed included.
   */
  lemma PlanLinked(parse: Bytes -> BlockResult, node: Node, f: Follower, block: Block)
    ensures var (f', plan) := PlanFor(parse, node, f, block);
            && f'.tip == f.tip && f'.maxCatchUp == f.maxCatchUp
            && f.fetched <= f'.fetched && (f'.fetched == f.fetched || f'.fetched <= f.fetched + f.maxCatchUp)
            && f.calls <= f'.calls <= f.calls + 2 + 2 * Ceiling(f)
            && (plan.Owed? ==> Linked(f.tip, plan.due) && (plan.due != [] ==> plan.due[|plan.due| - 1].block == block))
  {
    hide GapPlan;
    var height := HeightOf(node, f.calls, block.blockHash);
    if f.tip.Some? && height.Got? {
      var counted := f.(catchUps := f.catchUps + 1, calls := height.calls);
      GapPlanLinked(parse, node, counted, f.tip.value, block, height.value);
    }
  }

  lemma HandleLinked(s: Setting, e: Engine, m: Message)
    requires EngineValid(e) && s.follows
    ensures var h := Handle(s, e, m);
            && Linked(e.follower.tip, h.applied) && h.engine.follower.tip == TipAfter(e.follower.tip, h.applied)
            && h.engine.follower.maxCatchUp == e.follower.maxCatchUp
            && e.follower.calls <= h.engine.follower.calls <= e.follower.calls + 2 + 2 * Ceiling(e.follower)
            && (h.engine.follower.fetched == e.follower.fetched
                || h.engine.follower.fetched <= e.follower.fetched + e.follower.maxCatchUp)
  {
    hide PlanFor, ConfirmAll, TxsOf, Linked, MatchOf, NoteOutputs, Announce, TipAfter;
    NothingIsLinked(e.follower.tip);
    if InRange(m.seqNo) && m.topic == TOPIC_BLOCK && s.parseBlock(m.body).Accepted? {
      PlanLinked(s.parseBlock, s.node, e.follower, s.parseBlock(m.body).block);
    }
  }

  lemma NothingIsLinked(tip: Option<Tip>)
    ensures Linked(tip, []) && TipAfter(tip, []) == tip
  {
  }

  /** Over any run of any messages, against any node: the applied blocks form one chain from the tip it began at. */
  lemma {:induction false} RunLinked(s: Setting, e: Engine, ms: seq<Message>)
    requires EngineValid(e) && s.follows
    ensures var r := RunAll(s, e, ms);
            Linked(e.follower.tip, r.applied) && r.engine.follower.tip == TipAfter(e.follower.tip, r.applied)
    decreases |ms|
  {
    hide Handle, Linked, TipAfter;
    NothingIsLinked(e.follower.tip);
    if ms != [] {
      var h := Handle(s, e, ms[0]);
      HandleLinked(s, e, ms[0]);
      RunLinked(s, h.engine, ms[1..]);
      LinkedJoined(e.follower.tip, h.applied, RunAll(s, h.engine, ms[1..]).applied);
    }
  }

  // ----- failures

  /** A message that brings a block: in range, on the block topic, and it parses. */
  predicate BringsBlock(s: Setting, m: Message) {
    InRange(m.seqNo) && m.topic == TOPIC_BLOCK && s.parseBlock(m.body).Accepted?
  }

  /** A message that brings no block leaves the follower alone. */
  lemma NoDelivery(s: Setting, e: Engine, m: Message)
    requires EngineValid(e) && !BringsBlock(s, m)
    ensures var h := Handle(s, e, m);
            h.applied == [] && h.engine.follower == e.follower
  {
    hide MatchOf, NoteOutputs, Announce, Observed;
  }

  /** What brings the flag down is reaching the block that arrived; what leaves it up is a failure. */
  lemma FlagAfterABlock(s: Setting, e: Engine, m: Message)
    requires EngineValid(e) && s.follows && BringsBlock(s, m)
    ensures var h := Handle(s, e, m);
            && (h.engine.tracker.needsReconciliation <==> h.outcome.Raised?)
            && (!h.outcome.Raised? ==>
                  h.engine.follower.tip.Some?
                      && h.engine.follower.tip.value.hash == s.parseBlock(m.body).block.blockHash)
  {
    hide ConfirmAll, TxsOf, Observed, PlanFor;
    var block := s.parseBlock(m.body).block;
    PlanLinked(s.parseBlock, s.node, e.follower, block);
    OwedReaches(s.parseBlock, s.node, e.follower, block);
  }

  lemma OwedReaches(parse: Bytes -> BlockResult, node: Node, f: Follower, block: Block)
    ensures var plan := PlanFor(parse, node, f, block).1;
            plan.Owed? ==>
              var tip := TipAfter(f.tip, plan.due);
              tip.Some? && tip.value.hash == block.blockHash
  {
    hide FetchRun;
  }

  /**
   A raise applies nothing and changes nothing that is kept.  The flag goes up with it, except when
   the block that arrived was itself cut inside its count: that raise leaves no trace but the counter's.
   */
  lemma FailureIsAllOrNothing(s: Setting, e: Engine, m: Message)
    requires EngineValid(e) && InRange(m.seqNo) && Handle(s, e, m).outcome.Raised?
    ensures var h := Handle(s, e, m);
            && h.applied == [] && h.engine.ledger == e.ledger && h.engine.follower.tip == e.follower.tip
            && (s.parseBlock(m.body).Accepted? ==>
                  h.engine.tracker.needsReconciliation
                  && h.engine.tally == e.tally.(catchUpFailures := e.tally.catchUpFailures + 1))
            && (!s.parseBlock(m.body).Accepted? ==>
                  s.parseBlock(m.body).CountCutShort? && h.engine.tally == e.tally
                  && h.engine.tracker == Observed(e.tracker, m.topic, m.seqNo))
  {
    hide PlanFor, ConfirmAll, TxsOf, MatchOf, NoteOutputs, Announce, Observed;
    if m.topic == TOPIC_BLOCK && s.parseBlock(m.body).Accepted? && s.follows {
      PlanLinked(s.parseBlock, s.node, e.follower, s.parseBlock(m.body).block);
    }
  }

  // ----- a run of messages is a run of transactions

  /** The transactions a message shows the ledger: one from the mempool, or those of the blocks it applied. */
  function EventsOf(s: Setting, e: Engine, m: Message): seq<Event>
    requires EngineValid(e)
  {
    if InRange(m.seqNo) && m.topic == TOPIC_TX then
      match s.parseTx(m.body)
      case None => []
      case Some(tx) => [Mempool(tx)]
    else ConfirmedOf(TxsOf(Handle(s, e, m).applied))
  }

  function ConfirmedOf(txs: seq<Transaction>): seq<Event> {
    seq(|txs|, i requires 0 <= i < |txs| => Confirmed(txs[i]))
  }

  function EventsOfRun(s: Setting, e: Engine, ms: seq<Message>): seq<Event>
    requires EngineValid(e)
    decreases |ms|
  {
    if ms == [] then [] else EventsOf(s, e, ms[0]) + EventsOfRun(s, Handle(s, e, ms[0]).engine, ms[1..])
  }

  /** What one transaction, wherever it came from, does to the ledger, and the batch it sends. */
  function See(w: Watching, l: Ledger, ev: Event): (r: (Ledger, seq<Match>))
    requires SeenValid(l.seen)
    ensures SeenValid(r.0.seen)
  {
    var (seen, batch) := Announce(l.seen, ev.tx.txid, MatchOf(w.k, w.watch, l.record, l.overlay.byOutpoint, ev.tx));
    var coins := Step(w.k, w.watch, Coins(l.record, l.overlay), ev);
    (Ledger(coins.record, coins.overlay, seen), batch)
  }

  /** The batches of a run, one per transaction seen, empty ones included. */
  function SeeAll(w: Watching, l: Ledger, evs: seq<Event>): (r: (Ledger, seq<seq<Match>>))
    requires SeenValid(l.seen)
    ensures SeenValid(r.0.seen) && |r.1| == |evs|
    decreases |evs|
  {
    if evs == [] then (l, []) else
    var (next, batch) := See(w, l, evs[0]);
    var (end, batches) := SeeAll(w, next, evs[1..]);
    (end, [batch] + batches)
  }

  lemma {:induction false} SeeAllJoined(w: Watching, l: Ledger, a: seq<Event>, b: seq<Event>)
    requires SeenValid(l.seen)
    ensures var (mid, first) := SeeAll(w, l, a);
            var (end, rest) := SeeAll(w, mid, b);
            SeeAll(w, l, a + b) == (end, first + rest)
    decreases |a|
  {
    hide See;
    if a == [] {
      assert a + b == b;
      assert [] + SeeAll(w, l, b).1 == SeeAll(w, l, b).1;
    } else {
      assert (a + b)[1..] == a[1..] + b;
      var (next, batch) := See(w, l, a[0]);
      SeeAllJoined(w, next, a[1..], b);
      var (mid, first) := SeeAll(w, next, a[1..]);
      var rest := SeeAll(w, mid, b).1;
      assert [batch] + (first + rest) == [batch] + first + rest;
    }
  }

  lemma {:induction false} ConfirmIsSeeing(w: Watching, l: Ledger, txs: seq<Transaction>)
    requires SeenValid(l.seen)
    ensures var told := ConfirmAll(w, l, txs);
            var (end, batches) := SeeAll(w, l, ConfirmedOf(txs));
            told.ledger == end && told.alerts == Flatten(batches)
    decreases |txs|
  {
    hide MatchOf, ApplyTx, Forget, Announce;
    if txs == [] {
      assert ConfirmedOf(txs) == [];
    } else {
      var evs := ConfirmedOf(txs);
      assert evs[1..] == ConfirmedOf(txs[1..]);
      var (next, batch) := See(w, l, evs[0]);
      ConfirmIsSeeing(w, next, txs[1..]);
      assert ([batch] + SeeAll(w, next, evs[1..]).1)[1..] == SeeAll(w, next, evs[1..]).1;
    }
  }

  lemma HandleIsSeeing(s: Setting, e: Engine, m: Message)
    requires EngineValid(e)
    ensures var h := Handle(s, e, m);
            var (end, batches) := SeeAll(s.w, e.ledger, EventsOf(s, e, m));
            h.engine.ledger == end && AlertsIn(h.outcome) == Flatten(batches)
  {
    hide MatchOf, NoteOutputs, Announce, ConfirmAll, PlanFor, Observed, TxsOf;
    var h := Handle(s, e, m);
    if InRange(m.seqNo) && m.topic == TOPIC_TX {
      if s.parseTx(m.body).Some? {
        OneEvent(s.w, e.ledger, Mempool(s.parseTx(m.body).value));
      }
    } else {
      ConfirmIsSeeing(s.w, e.ledger, TxsOf(h.applied));
      AppliedOrNot(s, e, m);
    }
  }

  lemma OneEvent(w: Watching, l: Ledger, ev: Event)
    requires SeenValid(l.seen)
    ensures SeeAll(w, l, [ev]).0 == See(w, l, ev).0 && Flatten(SeeAll(w, l, [ev]).1) == See(w, l, ev).1
  {
    hide See;
    var (next, batch) := See(w, l, ev);
    assert [batch] + [] == [batch] && batch + [] == batch;
    assert SeeAll(w, next, [ev][1..]).1 == [];
  }

  /** A message that is not a transaction changes the ledger by the blocks it applied and nothing else. */
  lemma AppliedOrNot(s: Setting, e: Engine, m: Message)
    requires EngineValid(e) && !(InRange(m.seqNo) && m.topic == TOPIC_TX)
    ensures var h := Handle(s, e, m);
            var told := ConfirmAll(s.w, e.ledger, TxsOf(h.applied));
            h.engine.ledger == told.ledger && AlertsIn(h.outcome) == told.alerts
  {
    hide ConfirmTx, PlanFor, Observed;
  }

  /** The ledger and the alerts of a run are those of its transactions, one by one. */
  lemma {:induction false} RunIsSeeing(s: Setting, e: Engine, ms: seq<Message>)
    requires EngineValid(e)
    ensures var r := RunAll(s, e, ms);
            var (end, batches) := SeeAll(s.w, e.ledger, EventsOfRun(s, e, ms));
            r.engine.ledger == end && r.alerts == Flatten(batches)
    decreases |ms|
  {
    hide Handle, EventsOf, See;
    if ms != [] {
      var h := Handle(s, e, ms[0]);
      HandleIsSeeing(s, e, ms[0]);
      RunIsSeeing(s, h.engine, ms[1..]);
      var now, later := EventsOf(s, e, ms[0]), EventsOfRun(s, h.engine, ms[1..]);
      SeeAllJoined(s.w, e.ledger, now, later);
      FlattenJoined(SeeAll(s.w, e.ledger, now).1, SeeAll(s.w, h.engine.ledger, later).1);
    }
  }

  // ----- the record and the coins after a run

  lemma {:induction false} SeeingIsStepping(w: Watching, l: Ledger, evs: seq<Event>)
    requires SeenValid(l.seen)
    ensures var end := SeeAll(w, l, evs).0;
            Coins(end.record, end.overlay) == Run(w.k, w.watch, Coins(l.record, l.overlay), evs)
    decreases |evs|
  {
    hide MatchOf, Announce, Step;
    if evs != [] {
      SeeingIsStepping(w, See(w, l, evs[0]).0, evs[1..]);
    }
  }

  /** Over any run of messages with no overlay eviction, an armed coin stays armed until an applied block spends it. */
  lemma RunKeepsArmed(
    s: Setting, sc: Scope, e: Engine, ms: seq<Message>, i: int, h: Bytes)
    requires EngineValid(e) && Committing(s.w.k, sc) && Sound(s.w.k, s.w.watch, sc, e.ledger.overlay)
    requires forall ev :: ev in EventsOfRun(s, e, ms) ==> Pinned(sc, ev.tx) && !Spends(s.w.k, ev, h)
    requires RunAll(s, e, ms).engine.ledger.overlay.evicted == e.ledger.overlay.evicted
    requires Armed(Coins(e.ledger.record, e.ledger.overlay), i, h)
    ensures var end := RunAll(s, e, ms).engine.ledger;
            Armed(Coins(end.record, end.overlay), i, h)
  {
    hide RunAll, SeeAll, Run, EventsOfRun, Sound, Committing, Armed, Spends, Pinned;
    RunIsSeeing(s, e, ms);
    SeeingIsStepping(s.w, e.ledger, EventsOfRun(s, e, ms));
    ArmedStaysArmed(s.w.k, s.w.watch, sc, Coins(e.ledger.record, e.ledger.overlay), EventsOfRun(s, e, ms), i, h);
  }

  lemma {:induction false} RecordFoldJoined(
    k: Keys, watch: Owners, record: Owners, a: seq<Transaction>, b: seq<Transaction>)
    ensures RecordFold(k, watch, record, a + b) == RecordFold(k, watch, RecordFold(k, watch, record, a), b)
    decreases |a|
  {
    hide ApplyTx;
    if a == [] {
      assert a + b == b;
    } else {
      RecordFoldJoined(k, watch, ApplyTx(k, watch, record, a[0]), a[1..], b);
      assert (a + b)[1..] == a[1..] + b;
    }
  }

  lemma {:induction false} ConfirmRecord(w: Watching, l: Ledger, txs: seq<Transaction>)
    requires SeenValid(l.seen)
    ensures ConfirmAll(w, l, txs).ledger.record == RecordFold(w.k, w.watch, l.record, txs)
    decreases |txs|
  {
    hide MatchOf, Announce, ApplyTx, Forget;
    if txs != [] {
      ConfirmRecord(w, ConfirmTx(w, l, txs[0]).ledger, txs[1..]);
    }
  }

  lemma HandleRecord(s: Setting, e: Engine, m: Message)
    requires EngineValid(e)
    ensures var h := Handle(s, e, m);
            h.engine.ledger.record == RecordFold(s.w.k, s.w.watch, e.ledger.record, TxsOf(h.applied))
  {
    hide ConfirmAll, PlanFor, MatchOf, NoteOutputs, Announce, Observed;
    if !(InRange(m.seqNo) && m.topic == TOPIC_TX) {
      AppliedOrNot(s, e, m);
      ConfirmRecord(s.w, e.ledger, TxsOf(Handle(s, e, m).applied));
    }
  }

  /** Blocks are the only writers: whatever else arrives, the record is the applied blocks folded in. */
  lemma {:induction false} RunRecord(s: Setting, e: Engine, ms: seq<Message>)
    requires EngineValid(e)
    ensures var r := RunAll(s, e, ms);
            r.engine.ledger.record == RecordFold(s.w.k, s.w.watch, e.ledger.record, TxsOf(r.applied))
    decreases |ms|
  {
    hide Handle, RecordFold, TxsOf;
    FoldNothing(s.w, e.ledger.record);
    if ms != [] {
      var h := Handle(s, e, ms[0]);
      HandleRecord(s, e, ms[0]);
      RunRecord(s, h.engine, ms[1..]);
      var rest := RunAll(s, h.engine, ms[1..]).applied;
      TxsOfJoined(h.applied, rest);
      RecordFoldJoined(s.w.k, s.w.watch, e.ledger.record, TxsOf(h.applied), TxsOf(rest));
    }
  }

  lemma FoldNothing(w: Watching, record: Owners)
    ensures RecordFold(w.k, w.watch, record, TxsOf([])) == record
  {
  }

  /** After any run of messages, item `i` owns exactly the hashes of the unspent coins it watches. */
  lemma RunRecordIsWatchedUtxo(
    s: Setting, sc: Scope, enrolled: set<(int, Bytes)>, u: set<Coin>, e: Engine, ms: seq<Message>)
    requires EngineValid(e) && Injective(s.w.k, sc) && WatchList(s.w.k, s.w.watch, sc, enrolled)
    requires Tracks(s.w.k, sc, enrolled, e.ledger.record, u)
    requires forall tx :: tx in TxsOf(RunAll(s, e, ms).applied) ==> Touches(sc, tx)
    ensures var r := RunAll(s, e, ms);
            Tracks(s.w.k, sc, enrolled, r.engine.ledger.record, UtxoFold(u, TxsOf(r.applied)))
  {
    hide RunAll, TxsOf, RecordFold, UtxoFold, Tracks, Injective, WatchList, Touches;
    RunRecord(s, e, ms);
    RecordIsWatchedUtxo(s.w.k, s.w.watch, sc, enrolled, e.ledger.record, u, TxsOf(RunAll(s, e, ms).applied));
  }
}
