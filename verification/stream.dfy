/** The message loop: mempool transactions alert, blocks write the record. */
module Stream {
  import opened Wrappers
  import opened ByteStrings
  import opened Tx
  import opened TxReader
  import opened MatchSpec
  import opened Matching
  import opened SequenceTracking
  import opened Blocks
  import opened Reconcile
  import opened StreamSpec

  class SeenTransactions {
    const maxlen: nat
    var order: seq<Hash>
    var evicted: nat

    constructor (maxlen: nat)
      requires 1 <= maxlen
      ensures Value() == Seen(maxlen, [], 0)
    {
      this.maxlen, order, evicted := maxlen, [], 0;
    }

    function Value(): Seen
      reads this
    {
      Seen(maxlen, order, evicted)
    }

    /** Whether the txid was new; one that was not stays where it is in the order. */
    method Add(txid: Hash) returns (isNew: bool)
      requires SeenValid(Value())
      modifies this
      ensures SeenValid(Value()) && isNew == (txid !in old(order))
      ensures Value() == if isNew then Remember(old(Value()), txid) else old(Value())
    {
      if txid in order {
        return false;
      }
      order := order + [txid];
      while |order| > maxlen
        invariant |order| <= maxlen + 1
        invariant Value() == if |order| > maxlen || |old(order)| < maxlen
                             then old(Value()).(order := old(order) + [txid])
                             else Remember(old(Value()), txid)
        decreases |order|
      {
        assert (old(order) + [txid])[1..] == old(order)[1..] + [txid];
        order := order[1..];
        evicted := evicted + 1;
      }
      return true;
    }
  }

  class StreamIngest {
    const dsha: Bytes -> Hash
    const matcher: Matcher
    const tracker: SequenceTracker
    const seen: SeenTransactions
    /** Absent on the fixture path: apply exactly what arrives. */
    const follower: ChainFollower?
    var tally: Tally

    constructor (
      dsha: Bytes -> Hash, matcher: Matcher, tracker: SequenceTracker, seen: SeenTransactions, follower: ChainFollower?)
      requires matcher.Valid() && SeenValid(seen.Value()) && TrackerValid(tracker.Value())
      requires follower != null ==> follower.dsha == dsha
      ensures Valid() && tally == Tally(0, 0, 0, 0, 0, 0, 0)
      ensures this.matcher == matcher && this.tracker == tracker && this.seen == seen && this.follower == follower
    {
      this.dsha, this.matcher, this.tracker, this.seen, this.follower := dsha, matcher, tracker, seen, follower;
      tally := Tally(0, 0, 0, 0, 0, 0, 0);
    }

    ghost predicate Valid()
      reads this, matcher, matcher.index, matcher.provisional, tracker, seen
    {
      && matcher.Valid() && SeenValid(seen.Value()) && TrackerValid(tracker.Value())
      && (follower != null ==> follower.dsha == dsha)
    }

    ghost function LedgerNow(): Ledger
      reads matcher.index, matcher.provisional, seen
    {
      Ledger(matcher.index.byOutpoint, matcher.provisional.Value(), seen.Value())
    }

    ghost function Value(): Engine
      reads this, matcher.index, matcher.provisional, tracker, seen, follower
    {
      Engine(LedgerNow(),
             if follower == null then Follower(None, 0, 0, 0, 0) else follower.Value(),
             tracker.Value(), tally)
    }

    ghost function Setup(): Setting
      reads matcher.index
    {
      Setting(WatchingNow(), TxBytes(dsha), BlockParser(dsha),
              if follower == null then SilentNode() else follower.node, follower != null)
    }

    ghost function WatchingNow(): Watching
      reads matcher.index
    {
      Watching(matcher.k, matcher.index.bySpk)
    }

    /** One message.  A raise leaves by `outcome`; the anomaly is what the callback is given. */
    method Handle(m: Message) returns (outcome: Outcome, anomaly: Option<Anomaly>)
      requires Valid()
      modifies this, matcher.index`byOutpoint, matcher.provisional, tracker, seen
      modifies if follower == null then {} else {follower}
      ensures Valid()
      ensures var handled := StreamSpec.Handle(old(Setup()), old(Value()), m);
              Value() == handled.engine && outcome == handled.outcome
      ensures anomaly == if InRange(m.seqNo) then AnomalyOf(old(tracker.Value()), m.topic, m.seqNo) else None
    {
      hide StreamSpec.HandleTx, StreamSpec.HandleBlock, Observed, AnomalyOf;
      var inRange;
      inRange, anomaly := tracker.Observe(m.topic, m.seqNo);
      if !inRange {
        return SequenceOutOfRange, None;
      }
      if m.topic == TOPIC_TX {
        outcome := HandleTx(m.body);
      } else if m.topic == TOPIC_BLOCK {
        outcome := HandleBlock(m.body);
      } else {
        tally := tally.(ignored := tally.ignored + 1);
        outcome := Alerts([]);
      }
    }

    method HandleTx(body: Bytes) returns (outcome: Outcome)
      requires Valid()
      modifies this, matcher.provisional, seen
      ensures Valid()
      ensures var handled := StreamSpec.HandleTx(Setup(), old(Value()), body);
              Value() == handled.engine && outcome == handled.outcome
    {
      hide MatchOf, NoteOutputs, ParseTx, Matcher.Valid, Remember;
      var parsed := ParseRawTx(dsha, body);
      if parsed.None? {
        tally := tally.(malformed := tally.malformed + 1);
        return Alerts([]);
      }
      var tx := parsed.value;
      tally := tally.(parsed := tally.parsed + 1);
      var matches := matcher.Match(tx);
      matcher.NoteUnconfirmed(tx);
      if matches != [] {
        var isNew := seen.Add(tx.txid);
        if !isNew {
          return Alerts([]);
        }
      }
      return Alerts(matches);
    }

    method HandleBlock(body: Bytes) returns (outcome: Outcome)
      requires Valid()
      modifies this, matcher.index`byOutpoint, matcher.provisional, tracker, seen
      modifies if follower == null then {} else {follower}
      ensures Valid()
      ensures var handled := StreamSpec.HandleBlock(old(Setup()), old(Value()), body);
              Value() == handled.engine && outcome == handled.outcome
    {
      hide BlockParser, StreamSpec.HandleParsed, Matcher.Valid;
      var parsed, _ := ParseBlock(dsha, body);
      match parsed
      case MalformedBlock =>
        tally := tally.(malformed := tally.malformed + 1);
        tracker.FlagForReconciliation();
        return Alerts([]);
      case CountCutShort =>
        return Raised(ParserCrashed);
      case Accepted(block) =>
        outcome := HandleParsed(block);
    }

    method HandleParsed(block: Block) returns (outcome: Outcome)
      requires Valid()
      modifies this, matcher.index`byOutpoint, matcher.provisional, tracker, seen
      modifies if follower == null then {} else {follower}
      ensures Valid()
      ensures var handled := StreamSpec.HandleParsed(old(Setup()), old(Value()), block);
              Value() == handled.engine && outcome == handled.outcome
    {
      hide BlockParser, PlanFor, ApplyDue, TipAfter, Matcher.Valid;
      if follower == null {
        var alerts := ApplyBlock(Due(block, 0));
        return Alerts(alerts);
      }
      var due := follower.BlocksToApply(block);
      var alerts, failure := ApplyEach(due);
      if failure.Some? {
        tracker.FlagForReconciliation();
        tally := tally.(catchUpFailures := tally.catchUpFailures + 1);
        return Raised(failure.value);
      }
      tracker.Reconciled();
      return Alerts(alerts);
    }

    /** The consumer's loop: ask for a block, apply it, ask for the next; the tip follows one behind. */
    method ApplyEach(blocks: DueBlocks) returns (alerts: seq<Match>, failure: Option<Failure>)
      requires Valid() && follower != null && blocks.follower == follower && blocks.Fresh()
      modifies this, matcher.index`byOutpoint, matcher.provisional, seen, follower, blocks
      ensures Valid()
      ensures var (f, plan) := PlanFor(BlockParser(dsha), follower.node, old(Value()).follower, blocks.block);
              match plan
              case Cannot(why) => failure == Some(why) && alerts == [] && Value() == old(Value()).(follower := f)
              case Owed(due) =>
                var (e, told) := ApplyDue(WatchingNow(), old(Value()), due);
                && failure.None? && alerts == told
                && Value() == e.(follower := f.(tip := TipAfter(f.tip, due)))
    {
      hide ApplyDue, Caught, PlanFor, BlockParser, TipAfter, DueBlocks.Remaining, DueBlocks.Valid, Matcher.Valid;
      ghost var start := Value();
      var y := blocks.Next();
      if y.Threw? {
        return [], Some(y.why);
      }
      alerts := [];
      ghost var due := if y.Stopped? then [] else [y.due] + blocks.Remaining();
      ghost var f := follower.Value();
      ghost var n := 0;
      assert due == PlanFor(BlockParser(dsha), follower.node, start.follower, blocks.block).1.due;
      CatchesNothing(WatchingNow(), start, f);
      while y.Yielded?
        invariant Valid() && blocks.Valid() && n <= |due| && !y.Threw?
        invariant if y.Stopped? then n == |due|
                  else n < |due| && y.due == due[n] && blocks.held == Some(due[n]) && blocks.Remaining() == due[n + 1..]
        invariant (Value(), alerts) == Caught(WatchingNow(), start, f, due[..n])
        decreases |due| - n
      {
        CatchesOneMore(WatchingNow(), start, f, due[..n], due[n]);
        assert due[..n + 1] == due[..n] + [due[n]];
        var more;
        more, y := Turn(blocks, y.due);
        alerts := alerts + more;
        n := n + 1;
      }
      assert due[..|due|] == due;
      CaughtIs(WatchingNow(), start, f, due);
      failure := None;
    }

    /** One turn of it. */
    method Turn(blocks: DueBlocks, due: Due) returns (alerts: seq<Match>, y: Yield)
      requires Valid() && follower != null && blocks.follower == follower && blocks.Valid() && blocks.held == Some(due)
      modifies this, matcher.index`byOutpoint, matcher.provisional, seen, follower, blocks
      ensures Valid() && blocks.Valid()
      ensures var (mid, told) := ApplyDue(WatchingNow(), old(Value()), [due]);
              && alerts == told
              && Value() == mid.(follower := mid.follower.(tip := Some(Tip(due.block.blockHash, due.height))))
      ensures if old(blocks.Remaining()) == [] then y == Stopped
              else y == Yielded(old(blocks.Remaining())[0]) && blocks.held == Some(y.due)
                   && blocks.Remaining() == old(blocks.Remaining())[1..]
    {
      hide ApplyDue, DueBlocks.Remaining, Matcher.Valid;
      alerts := ApplyBlock(due);
      y := blocks.Next();
    }

    /** Each transaction is matched against the record its predecessors in the block have left. */
    method ApplyBlock(due: Due) returns (alerts: seq<Match>)
      requires Valid()
      modifies this`tally, matcher.index`byOutpoint, matcher.provisional, seen
      ensures Valid()
      ensures (Value(), alerts) == ApplyDue(WatchingNow(), old(Value()), [due])
    {
      hide ConfirmTx, ConfirmAll, Then, Matcher.Valid;
      var txs := due.block.transactions;
      tally := tally.(blocks := tally.blocks + 1);
      alerts := [];
      ghost var start := LedgerNow();
      ghost var suppressed: nat := 0;
      ToldNothing(ConfirmAll(WatchingNow(), start, txs));
      for n := 0 to |txs|
        invariant Valid()
        invariant tally == old(tally).(blocks := old(tally).blocks + 1, confirmed := old(tally).confirmed + n,
                                       suppressed := old(tally).suppressed + suppressed)
        invariant ConfirmAll(WatchingNow(), start, txs)
               == Then(Told(LedgerNow(), alerts, suppressed), ConfirmAll(WatchingNow(), LedgerNow(), txs[n..]))
      {
        ghost var before := Told(LedgerNow(), alerts, suppressed);
        ghost var step := ConfirmTx(WatchingNow(), LedgerNow(), txs[n]);
        ToldOneMore(before, step, WatchingNow(), txs[n..]);
        ThenIs(before, step);
        var more := ConfirmOne(txs[n]);
        alerts := alerts + more;
        suppressed := suppressed + step.suppressed;
      }
      ToldAll(WatchingNow(), LedgerNow(), alerts, suppressed);
      OneBlock(due);
    }

    /** One confirmed transaction: match, then write, then alert if it is news. */
    method ConfirmOne(tx: Transaction) returns (alerts: seq<Match>)
      requires Valid()
      modifies this`tally, matcher.index`byOutpoint, matcher.provisional, seen
      ensures Valid()
      ensures var told := ConfirmTx(WatchingNow(), old(LedgerNow()), tx);
              && LedgerNow() == told.ledger && alerts == told.alerts
              && tally == old(tally).(confirmed := old(tally).confirmed + 1,
                                      suppressed := old(tally).suppressed + told.suppressed)
    {
      hide MatchOf, ApplyTx, Forget, Remember;
      var matches := matcher.Match(tx);
      matcher.Apply(tx);
      tally := tally.(confirmed := tally.confirmed + 1);
      if matches == [] {
        return [];
      }
      var isNew := seen.Add(tx.txid);
      if isNew {
        return matches;
      }
      tally := tally.(suppressed := tally.suppressed + 1);
      return [];
    }
  }

  lemma ThenIs(a: Told, b: Told)
    ensures Then(a, b) == Told(b.ledger, a.alerts + b.alerts, a.suppressed + b.suppressed)
  {
  }

  function TxBytes(dsha: Bytes -> Hash): Bytes -> Option<Transaction> {
    raw => ParseTx(dsha, raw)
  }

  function SilentNode(): Node {
    (_, _) => Unreachable
  }

  function Then(first: Told, rest: Told): Told {
    Told(rest.ledger, first.alerts + rest.alerts, first.suppressed + rest.suppressed)
  }

  lemma ToldNothing(rest: Told)
    ensures forall l :: Then(Told(l, [], 0), rest) == rest
  {
    assert [] + rest.alerts == rest.alerts;
  }

  lemma ToldAll(w: Watching, l: Ledger, alerts: seq<Match>, suppressed: nat)
    requires SeenValid(l.seen)
    ensures Then(Told(l, alerts, suppressed), ConfirmAll(w, l, [])) == Told(l, alerts, suppressed)
  {
    assert alerts + [] == alerts;
  }

  /** One turn of the loop over a block's transactions. */
  lemma ToldOneMore(so: Told, first: Told, w: Watching, txs: seq<Transaction>)
    requires SeenValid(so.ledger.seen) && txs != [] && first == ConfirmTx(w, so.ledger, txs[0])
    ensures Then(so, ConfirmAll(w, so.ledger, txs)) == Then(Then(so, first), ConfirmAll(w, first.ledger, txs[1..]))
  {
    hide ConfirmTx;
    var rest := ConfirmAll(w, first.ledger, txs[1..]);
    assert so.alerts + (first.alerts + rest.alerts) == so.alerts + first.alerts + rest.alerts;
  }

  lemma OneBlock(due: Due)
    ensures TxsOf([due]) == due.block.transactions
  {
    assert due.block.transactions + [] == due.block.transactions;
  }

  lemma AppliesNothing(w: Watching, e: Engine)
    requires EngineValid(e)
    ensures ApplyDue(w, e, []) == (e, [])
  {
  }

  lemma {:induction false} TxsOfJoined(a: seq<Due>, b: seq<Due>)
    ensures TxsOf(a + b) == TxsOf(a) + TxsOf(b)
  {
    if a == [] {
      assert a + b == b;
    } else {
      TxsOfJoined(a[1..], b);
      assert (a + b)[1..] == a[1..] + b && (a + b)[0] == a[0];
      var first, rest := a[0].block.transactions, TxsOf(a[1..]);
      assert first + (rest + TxsOf(b)) == first + rest + TxsOf(b);
    }
  }

  /** Confirming two runs of transactions is confirming one and then the other. */
  lemma {:induction false} ConfirmJoined(w: Watching, l: Ledger, a: seq<Transaction>, b: seq<Transaction>)
    requires SeenValid(l.seen)
    ensures var first := ConfirmAll(w, l, a);
            ConfirmAll(w, l, a + b) == Then(first, ConfirmAll(w, first.ledger, b))
    decreases |a|
  {
    hide ConfirmTx;
    if a == [] {
      assert a + b == b;
      ToldNothing(ConfirmAll(w, l, b));
    } else {
      assert (a + b)[1..] == a[1..] + b;
      var step := ConfirmTx(w, l, a[0]);
      ConfirmJoined(w, step.ledger, a[1..], b);
      var mid := ConfirmAll(w, step.ledger, a[1..]);
      var rest := ConfirmAll(w, mid.ledger, b);
      assert step.alerts + (mid.alerts + rest.alerts) == step.alerts + mid.alerts + rest.alerts;
    }
  }

  /** After applying what was due, with the follower at its end. */
  function Caught(w: Watching, e: Engine, f: Follower, due: seq<Due>): (Engine, seq<Match>)
    requires EngineValid(e)
  {
    var (end, told) := ApplyDue(w, e, due);
    (end.(follower := f.(tip := TipAfter(f.tip, due))), told)
  }

  lemma CaughtIs(w: Watching, e: Engine, f: Follower, due: seq<Due>)
    requires EngineValid(e)
    ensures var (end, told) := ApplyDue(w, e, due);
            Caught(w, e, f, due) == (end.(follower := f.(tip := TipAfter(f.tip, due))), told)
  {
    hide ApplyDue;
  }

  lemma CatchesNothing(w: Watching, e: Engine, f: Follower)
    requires EngineValid(e)
    ensures Caught(w, e, f, []) == (e.(follower := f), [])
  {
    AppliesNothing(w, e);
  }

  lemma CatchesOneMore(w: Watching, e: Engine, f: Follower, done: seq<Due>, next: Due)
    requires EngineValid(e)
    ensures var (mid, alerts) := Caught(w, e, f, done);
            && EngineValid(mid)
            && var (end, more) := ApplyDue(w, mid, [next]);
               && end.follower == mid.follower
               && Caught(w, e, f, done + [next])
               == (end.(follower := end.follower.(tip := Some(Tip(next.block.blockHash, next.height)))), alerts + more)
  {
    hide ConfirmAll, TxsOf;
    AppliesOneMore(w, e, done, next);
  }

  lemma AppliesOneMore(w: Watching, e: Engine, done: seq<Due>, next: Due)
    requires EngineValid(e)
    ensures var (mid, alerts) := ApplyDue(w, e, done);
            var (end, more) := ApplyDue(w, mid, [next]);
            ApplyDue(w, e, done + [next]) == (end, alerts + more)
  {
    hide ConfirmAll, TxsOf;
    TxsOfJoined(done, [next]);
    ConfirmJoined(w, e.ledger, TxsOf(done), TxsOf([next]));
  }
}
