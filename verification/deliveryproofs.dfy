/** What is delivered is what is seen, and what is counted is what happened. */
module DeliveryProofs {
  import opened Sequences
  import opened Tx
  import opened MatchSpec
  import opened OverlayProofs
  import opened SequenceTracking
  import opened Reconcile
  import opened StreamSpec
  import opened IngestRuns
  import opened AnnounceProofs

  // ----- with no follower, every delivered block is applied

  /** The transactions a message carries, from the mempool or in a block, as they stand in its body. */
  function Carried(s: Setting, m: Message): seq<Event> {
    if !InRange(m.seqNo) then []
    else if m.topic == "rawtx" then
      match s.parseTx(m.body)
      case None => []
      case Some(tx) => [Mempool(tx)]
    else if m.topic == "rawblock" then
      match s.parseBlock(m.body)
      case Accepted(block) => ConfirmedOf(block.transactions)
      case _ => []
    else []
  }

  function CarriedBy(s: Setting, ms: seq<Message>): seq<Event> {
    if ms == [] then [] else Carried(s, ms[0]) + CarriedBy(s, ms[1..])
  }

  lemma CarriedIsSeen(s: Setting, e: Engine, m: Message)
    requires EngineValid(e) && !s.follows
    ensures EventsOf(s, e, m) == Carried(s, m)
  {
    hide ConfirmAll, MatchOf, NoteOutputs, Announce, Observed;
    if m.topic == "rawblock" && s.parseBlock(m.body).Accepted? {
      var txs := s.parseBlock(m.body).block.transactions;
      assert TxsOf([Due(s.parseBlock(m.body).block, 0)]) == txs + [];
    }
  }

  /** A block that arrives is applied as it stands, its alerts go out, and the flag is as the counter left it. */
  lemma PlainBlockIsApplied(s: Setting, e: Engine, m: Message)
    requires EngineValid(e) && !s.follows && BringsBlock(s, m)
    ensures var h := Handle(s, e, m);
            var (end, batches) := SeeAll(s.w, e.ledger, ConfirmedOf(s.parseBlock(m.body).block.transactions));
            && h.engine.ledger == end && h.outcome == Alerts(Flatten(batches))
            && h.engine.tracker == Observed(e.tracker, m.topic, m.seqNo)
  {
    hide SeeAll, Flatten, Handle;
    CarriedIsSeen(s, e, m);
    HandleIsSeeing(s, e, m);
    PlainBlockSucceeds(s, e, m);
  }

  lemma PlainBlockSucceeds(s: Setting, e: Engine, m: Message)
    requires EngineValid(e) && !s.follows && BringsBlock(s, m)
    ensures Handle(s, e, m).outcome.Alerts? && Handle(s, e, m).engine.tracker == Observed(e.tracker, m.topic, m.seqNo)
  {
    hide ConfirmAll, TxsOf, Observed;
  }

  /** Over any run: the ledger and the alerts are those of every transaction delivered, one by one. */
  lemma {:induction false} PlainRunSeesAll(s: Setting, e: Engine, ms: seq<Message>)
    requires EngineValid(e) && !s.follows
    ensures var r := RunAll(s, e, ms);
            var (end, batches) := SeeAll(s.w, e.ledger, CarriedBy(s, ms));
            r.engine.ledger == end && r.alerts == Flatten(batches)
    decreases |ms|
  {
    hide SeeAll, Flatten, RunAll;
    RunIsSeeing(s, e, ms);
    CarriedAllSeen(s, e, ms);
  }

  lemma {:induction false} CarriedAllSeen(s: Setting, e: Engine, ms: seq<Message>)
    requires EngineValid(e) && !s.follows
    ensures EventsOfRun(s, e, ms) == CarriedBy(s, ms)
    decreases |ms|
  {
    hide Handle, EventsOf, Carried;
    if ms != [] {
      CarriedIsSeen(s, e, ms[0]);
      CarriedAllSeen(s, Handle(s, e, ms[0]).engine, ms[1..]);
    }
  }

  /** The transactions of some blocks: those of the first, in order, then those of the second, and so on. */
  lemma {:induction false} TxsInOrder(due: seq<Due>)
    ensures TxsOf(due) == Flatten(seq(|due|, i requires 0 <= i < |due| => due[i].block.transactions))
  {
    var blocks := seq(|due|, i requires 0 <= i < |due| => due[i].block.transactions);
    if due != [] {
      TxsInOrder(due[1..]);
      assert blocks[1..] == seq(|due[1..]|, i requires 0 <= i < |due[1..]| => due[1..][i].block.transactions);
    }
  }

  /** A counter that is not one of 32 bits is refused before anything is looked at. */
  lemma OutOfRangeIsRefused(s: Setting, e: Engine, m: Message)
    requires EngineValid(e)
    ensures Handle(s, e, m).outcome == SequenceOutOfRange <==> m.seqNo < 0 || m.seqNo >= 0x1_0000_0000
    ensures Handle(s, e, m).outcome == SequenceOutOfRange ==>
              Handle(s, e, m).engine == e && Handle(s, e, m).applied == []
  {
    hide ConfirmAll, MatchOf, NoteOutputs, Announce, Observed, PlanFor, TxsOf;
  }

  // ----- the counters

  function One(b: bool): nat {
    if b then 1 else 0
  }

  /** Confirmed transactions of a run that matched and sent nothing. */
  function Silent(w: Watching, l: Ledger, evs: seq<Event>): nat
    requires SeenValid(l.seen)
    decreases |evs|
  {
    if evs == [] then 0 else
    var (next, batch) := See(w, l, evs[0]);
    One(evs[0].Confirmed? && MatchNow(w, l, evs[0]) != [] && batch == []) + Silent(w, next, evs[1..])
  }

  lemma {:induction false} SuppressedAreSilent(w: Watching, l: Ledger, txs: seq<Transaction>)
    requires SeenValid(l.seen)
    ensures ConfirmAll(w, l, txs).suppressed == Silent(w, l, ConfirmedOf(txs))
    decreases |txs|
  {
    hide MatchOf, ApplyTx, Forget, Announce;
    if txs == [] {
      assert ConfirmedOf(txs) == [];
    } else {
      assert ConfirmedOf(txs)[1..] == ConfirmedOf(txs[1..]) && ConfirmedOf(txs)[0] == Confirmed(txs[0]);
      SuppressedAreSilent(w, See(w, l, Confirmed(txs[0])).0, txs[1..]);
    }
  }

  /** The message was taken in and is of neither topic. */
  predicate Foreign(m: Message) {
    InRange(m.seqNo) && m.topic != "rawtx" && m.topic != "rawblock"
  }

  predicate CarriesTx(s: Setting, m: Message) {
    InRange(m.seqNo) && m.topic == "rawtx" && s.parseTx(m.body).Some?
  }

  /** A transaction that does not parse, or a block the parser calls malformed. */
  predicate IsMalformed(s: Setting, m: Message) {
    InRange(m.seqNo) &&
    ((m.topic == "rawtx" && s.parseTx(m.body).None?) || (m.topic == "rawblock" && s.parseBlock(m.body).MalformedBlock?))
  }

  /** The tally a message leaves, from the one it found. */
  lemma CountsWhatHappened(s: Setting, e: Engine, m: Message)
    requires EngineValid(e)
    ensures var h := Handle(s, e, m);
            var was, now := e.tally, h.engine.tally;
            && now.parsed == was.parsed + One(CarriesTx(s, m))
            && now.malformed == was.malformed + One(IsMalformed(s, m))
            && now.ignored == was.ignored + One(Foreign(m))
            && now.blocks == was.blocks + |h.applied|
            && now.confirmed == was.confirmed + |TxsOf(h.applied)|
            && now.suppressed == was.suppressed + Silent(s.w, e.ledger, ConfirmedOf(TxsOf(h.applied)))
            && now.catchUpFailures == was.catchUpFailures + One(BringsBlock(s, m) && h.outcome.Raised?)
  {
    hide ConfirmAll, MatchOf, NoteOutputs, Announce, Observed, PlanFor, Silent;
    SuppressedAreSilent(s.w, e.ledger, TxsOf(Handle(s, e, m).applied));
    NothingIsSilent(s.w, e.ledger);
  }

  lemma NothingIsSilent(w: Watching, l: Ledger)
    requires SeenValid(l.seen)
    ensures Silent(w, l, ConfirmedOf(TxsOf([]))) == 0 && ConfirmAll(w, l, []).suppressed == 0
  {
  }
}
