/** What each message does to the record, the alerts and the tip, as functions of values. */
module StreamSpec {
  import opened Wrappers
  import opened ByteStrings
  import opened Tx
  import opened MatchSpec
  import opened SequenceTracking
  import opened Blocks
  import opened Reconcile

  // ----- the seen-set

  /** Txids already alerted on, oldest first. */
  datatype Seen = Seen(maxlen: nat, order: seq<Hash>, evicted: nat)

  predicate SeenValid(s: Seen) {
    1 <= s.maxlen && |s.order| <= s.maxlen
  }

  /** Adding a txid that is not there; the oldest goes when the bound is passed. */
  function Remember(s: Seen, txid: Hash): Seen
    requires SeenValid(s)
  {
    if |s.order| < s.maxlen then s.(order := s.order + [txid])
    else s.(order := s.order[1..] + [txid], evicted := s.evicted + 1)
  }

  /** Alert once per txid: the matches go out, or they are held back as already announced. */
  function Announce(s: Seen, txid: Hash, matches: seq<Match>): (r: (Seen, seq<Match>))
    requires SeenValid(s)
    ensures SeenValid(r.0) && r.0.maxlen == s.maxlen
  {
    if matches == [] || txid in s.order then (s, []) else (Remember(s, txid), matches)
  }

  // ----- confirmed transactions

  /** What the alerts and the record depend on. */
  datatype Ledger = Ledger(record: Owners, overlay: Overlay, seen: Seen)

  /** A ledger and the alerts sent on the way to it. */
  datatype Told = Told(ledger: Ledger, alerts: seq<Match>, suppressed: nat)

  datatype Watching = Watching(k: Keys, watch: Owners)

  function ConfirmTx(w: Watching, l: Ledger, tx: Transaction): (r: Told)
    requires SeenValid(l.seen)
    ensures SeenValid(r.ledger.seen)
  {
    var matches := MatchOf(w.k, w.watch, l.record, l.overlay.byOutpoint, tx);
    var (seen, alerts) := Announce(l.seen, tx.txid, matches);
    Told(Ledger(ApplyTx(w.k, w.watch, l.record, tx), Forget(l.overlay, tx.txid), seen), alerts,
         if matches != [] && alerts == [] then 1 else 0)
  }

  function ConfirmAll(w: Watching, l: Ledger, txs: seq<Transaction>): (r: Told)
    requires SeenValid(l.seen)
    ensures SeenValid(r.ledger.seen)
    decreases |txs|
  {
    if txs == [] then Told(l, [], 0) else
    var first := ConfirmTx(w, l, txs[0]);
    var rest := ConfirmAll(w, first.ledger, txs[1..]);
    Told(rest.ledger, first.alerts + rest.alerts, first.suppressed + rest.suppressed)
  }

  /** The transactions of some blocks, in the order the record sees them. */
  function TxsOf(due: seq<Due>): seq<Transaction> {
    if due == [] then [] else due[0].block.transactions + TxsOf(due[1..])
  }

  // ----- messages

  const TOPIC_TX := "rawtx"
  const TOPIC_BLOCK := "rawblock"

  datatype Message = Message(topic: string, body: Bytes, seqNo: int)

  datatype Tally = Tally(
    parsed: nat, malformed: nat, ignored: nat, blocks: nat, confirmed: nat, suppressed: nat, catchUpFailures: nat)

  datatype Engine = Engine(ledger: Ledger, follower: Follower, tracker: Tracker, tally: Tally)

  /** What does not change while messages are handled.  `follows` is false on the fixture path, with no node. */
  datatype Setting = Setting(
    w: Watching, parseTx: Bytes -> Option<Transaction>, parseBlock: Bytes -> BlockResult, node: Node, follows: bool)

  datatype Outcome = Alerts(matches: seq<Match>) | Raised(why: Failure) | SequenceOutOfRange

  /** The engine after a message, what the caller got, and the blocks that were applied for it. */
  datatype Handled = Handled(engine: Engine, outcome: Outcome, applied: seq<Due>)

  predicate EngineValid(e: Engine) {
    SeenValid(e.ledger.seen) && TrackerValid(e.tracker)
  }

  function Flagged(e: Engine): Engine {
    e.(tracker := e.tracker.(needsReconciliation := true))
  }

  /** Mempool: alert, touch nothing that is kept. */
  function HandleTx(s: Setting, e: Engine, body: Bytes): (r: Handled)
    requires EngineValid(e)
    ensures EngineValid(r.engine)
  {
    match s.parseTx(body)
    case None => Handled(e.(tally := e.tally.(malformed := e.tally.malformed + 1)), Alerts([]), [])
    case Some(tx) =>
      var l := e.ledger;
      var matches := MatchOf(s.w.k, s.w.watch, l.record, l.overlay.byOutpoint, tx);
      var (seen, alerts) := Announce(l.seen, tx.txid, matches);
      var overlay := NoteOutputs(s.w.k, s.w.watch, tx.txid, tx.outputs, l.overlay);
      Handled(e.(ledger := Ledger(l.record, overlay, seen), tally := e.tally.(parsed := e.tally.parsed + 1)),
              Alerts(alerts), [])
  }

  /** Folding blocks into the record, in order. */
  function ApplyDue(w: Watching, e: Engine, due: seq<Due>): (r: (Engine, seq<Match>))
    requires EngineValid(e)
    ensures EngineValid(r.0)
  {
    var txs := TxsOf(due);
    var told := ConfirmAll(w, e.ledger, txs);
    (e.(ledger := told.ledger,
        tally := e.tally.(blocks := e.tally.blocks + |due|, confirmed := e.tally.confirmed + |txs|,
                          suppressed := e.tally.suppressed + told.suppressed)),
     told.alerts)
  }

  /** A parsed block: what the record owes is applied, or nothing is and the flag goes up. */
  function HandleParsed(s: Setting, e: Engine, block: Block): (r: Handled)
    requires EngineValid(e)
    ensures EngineValid(r.engine)
  {
    if !s.follows then
      var due := [Due(block, 0)];
      var (e', alerts) := ApplyDue(s.w, e, due);
      Handled(e', Alerts(alerts), due)
    else
      var (follower, plan) := PlanFor(s.parseBlock, s.node, e.follower, block);
      match plan
      case Cannot(why) =>
        var tally := e.tally.(catchUpFailures := e.tally.catchUpFailures + 1);
        Handled(Flagged(e.(follower := follower, tally := tally)), Raised(why), [])
      case Owed(due) =>
        var (e', alerts) := ApplyDue(s.w, e, due);
        Handled(
          e'.(follower := follower.(tip := TipAfter(follower.tip, due)),
              tracker := e.tracker.(needsReconciliation := false)),
          Alerts(alerts), due)
  }

  function HandleBlock(s: Setting, e: Engine, body: Bytes): (r: Handled)
    requires EngineValid(e)
    ensures EngineValid(r.engine)
  {
    match s.parseBlock(body)
    case MalformedBlock =>
      Handled(Flagged(e.(tally := e.tally.(malformed := e.tally.malformed + 1))), Alerts([]), [])
    case CountCutShort => Handled(e, Raised(ParserCrashed), [])
    case Accepted(block) => HandleParsed(s, e, block)
  }

  function Handle(s: Setting, e: Engine, m: Message): (r: Handled)
    requires EngineValid(e)
    ensures EngineValid(r.engine)
  {
    if !InRange(m.seqNo) then Handled(e, SequenceOutOfRange, []) else
    var heard := e.(tracker := Observed(e.tracker, m.topic, m.seqNo));
    if m.topic == TOPIC_TX then HandleTx(s, heard, m.body)
    else if m.topic == TOPIC_BLOCK then HandleBlock(s, heard, m.body)
    else Handled(heard.(tally := heard.tally.(ignored := heard.tally.ignored + 1)), Alerts([]), [])
  }
}
