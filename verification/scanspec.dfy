/** The queue in front of the node, as a state machine over what its threads do. */
module ScanSpec {
  import opened Wrappers
  import opened ByteStrings

  datatype Utxo = Utxo(txid: Bytes, vout: int, spk: Bytes)

  /**
   An unspent as the node reports it, its txid in display order; or something that is not one.  A
   `RaisingEntry` is one whose output number is infinite: `int()` raises an error nobody catches.
   */
  datatype Entry = BadEntry | RaisingEntry | Found(displayTxid: Bytes, vout: int, spk: Bytes)

  /**
   How the call came back.  `CallRaised` is any error of the call but the two it is meant to raise, such as
   that of `int()` on an error code that is not a number; `Unreadable` is a success whose list of unspents
   cannot be walked.
   */
  datatype Answer =
    | Rejected(code: int)
    | Unreachable
    | CallRaised
    | NotCompleted
    | Unreadable
    | Completed(unspents: seq<Entry>)

  datatype Why = ShutDown | NodeRejected(code: int) | NodeUnreachable | DidNotComplete | WasMalformed

  datatype Future = Pending | Running | Cancelled | Failed(why: Why) | Baseline(coins: seq<Utxo>)

  predicate Done(f: Future) {
    f.Cancelled? || f.Failed? || f.Baseline?
  }

  /** Requests are named by the order they were accepted in. */
  datatype Worker = Collecting(batch: seq<nat>) | Scanning(live: seq<nat>) | Exited | Crashed(lost: seq<nat>)

  /**
   `spks` and `futures` are indexed by request; a `None` in the queue is the sentinel that wakes the worker.
   `fired` and `drained` log what left the queue: in batches, and at shutdown.
   */
  datatype State = State(
    batchMax: int, queueMax: int,
    spks: seq<Bytes>, futures: seq<Future>, queue: seq<Option<nat>>, worker: Worker, closed: bool, batchesRun: nat,
    fired: seq<seq<nat>>, drained: seq<nat>)

  datatype Step =
    | Submit(spk: Bytes)      // a caller: refused when closed, or when the queue is full
    | Cancel(id: nat)         // a caller, on its future
    | Take                    // the worker: one more off the queue, sentinel or request
    | Fire                    // the worker: collecting ends, by a full batch, an empty queue or the window
    | Answered(answer: Answer)// the node, on the scan in flight
    | Close                   // the shutdown thread
    | Drain                   // the shutdown thread, after that

  function Start(batchMax: int, queueMax: int): State {
    State(batchMax, queueMax, [], [], [], Collecting([]), false, 0, [], [])
  }

  predicate Full(s: State) {
    0 < s.queueMax <= |s.queue|
  }

  function Fail(futures: seq<Future>, ids: seq<nat>, why: Why): (r: seq<Future>)
    ensures |r| == |futures|
  {
    seq(|futures|, i requires 0 <= i < |futures| =>
      if i in ids && !Done(futures[i]) then Failed(why) else futures[i])
  }

  /** Those not cancelled meanwhile. */
  function LiveOf(futures: seq<Future>, ids: seq<nat>): seq<nat> {
    if ids == [] then []
    else if ids[0] < |futures| && futures[ids[0]].Pending? then [ids[0]] + LiveOf(futures, ids[1..])
    else LiveOf(futures, ids[1..])
  }

  function Begun(futures: seq<Future>, ids: seq<nat>): (r: seq<Future>)
    ensures |r| == |futures|
  {
    seq(|futures|, i requires 0 <= i < |futures| =>
      if i in ids && futures[i].Pending? then Running else futures[i])
  }

  /** One descriptor for each script, in order of first appearance. */
  function DistinctSpks(spks: seq<Bytes>, ids: seq<nat>): seq<Bytes> {
    if ids == [] then [] else
    var before := DistinctSpks(spks, ids[..|ids| - 1]);
    var id := ids[|ids| - 1];
    if id >= |spks| || spks[id] in before then before else before + [spks[id]]
  }

  function Reversed(b: Bytes): (r: Bytes)
    ensures |r| == |b|
  {
    seq(|b|, i requires 0 <= i < |b| => b[|b| - 1 - i])
  }

  /** The unspents that bear a script, in the node's order. */
  function OwnCoins(entries: seq<Entry>, spk: Bytes): seq<Utxo> {
    if entries == [] then [] else
    var before := OwnCoins(entries[..|entries| - 1], spk);
    var e := entries[|entries| - 1];
    if e.Found? && e.spk == spk then before + [Utxo(Reversed(e.displayTxid), e.vout, e.spk)] else before
  }

  /** Where reading the unspents stops: the first that is not one. */
  function FirstFault(entries: seq<Entry>): Option<Entry> {
    if entries == [] then None else if !entries[0].Found? then Some(entries[0]) else FirstFault(entries[1..])
  }

  /** The answers whose handling raises an error that nothing in the worker catches. */
  predicate Uncaught(answer: Answer) {
    match answer
    case CallRaised => true
    case Unreadable => true
    case Completed(entries) => FirstFault(entries) == Some(RaisingEntry)
    case _ => false
  }

  /** Why everything in a batch fails, if it does. */
  function FailureOf(answer: Answer): Option<Why> {
    match answer
    case Rejected(code) => Some(NodeRejected(code))
    case Unreachable => Some(NodeUnreachable)
    case NotCompleted => Some(DidNotComplete)
    case Completed(entries) => if FirstFault(entries) == Some(BadEntry) then Some(WasMalformed) else None
    case _ => None
  }

  /** Each live request gets the coins of its own script. */
  function Delivered(spks: seq<Bytes>, futures: seq<Future>, live: seq<nat>, entries: seq<Entry>): (r: seq<Future>)
    requires |spks| == |futures|
    ensures |r| == |futures|
  {
    seq(|futures|, i requires 0 <= i < |futures| =>
      if i in live then Baseline(OwnCoins(entries, spks[i])) else futures[i])
  }

  function NoteFired(s: State, batch: seq<nat>): State {
    if batch == [] then s else s.(fired := s.fired + [batch])
  }

  /** What the worker does with what it collected. */
  function AfterFire(s: State, batch: seq<nat>): State {
    var noted := NoteFired(s, batch);
    if s.closed then noted.(futures := Fail(s.futures, batch, ShutDown), worker := Exited) else
    var live := LiveOf(s.futures, batch);
    noted.(futures := Begun(s.futures, batch), worker := if live == [] then Collecting([]) else Scanning(live))
  }

  function AfterAnswer(s: State, live: seq<nat>, answer: Answer): State
    requires |s.spks| == |s.futures|
  {
    var counted := s.(batchesRun := s.batchesRun + 1, worker := Collecting([]));
    if Uncaught(answer) then counted.(worker := Crashed(live))
    else if FailureOf(answer).Some? then counted.(futures := Fail(s.futures, live, FailureOf(answer).value))
    else counted.(futures := Delivered(s.spks, s.futures, live, answer.unspents))
  }

  /** The requests in a queue. */
  function Requests(queue: seq<Option<nat>>): seq<nat> {
    if queue == [] then [] else
    (if queue[0].Some? then [queue[0].value] else []) + Requests(queue[1..])
  }

  /** A step that cannot be taken in a state leaves it as it is. */
  function Next(s: State, step: Step): State
    requires |s.spks| == |s.futures|
  {
    match step
    case Submit(spk) =>
      if s.closed || Full(s) then s
      else s.(spks := s.spks + [spk], futures := s.futures + [Pending], queue := s.queue + [Some(|s.spks|)])
    case Cancel(id) =>
      if id < |s.futures| && s.futures[id].Pending? then s.(futures := s.futures[id := Cancelled]) else s
    case Take =>
      if s.worker.Collecting? && s.queue != [] && (s.worker.batch == [] || |s.worker.batch| < s.batchMax) then
        var rest := s.(queue := s.queue[1..]);
        match s.queue[0]
        case None => AfterFire(rest, s.worker.batch)
        case Some(id) => rest.(worker := Collecting(s.worker.batch + [id]))
      else s
    case Fire => if s.worker.Collecting? then AfterFire(s, s.worker.batch) else s
    case Answered(answer) => if s.worker.Scanning? then AfterAnswer(s, s.worker.live, answer) else s
    case Close =>
      if s.closed then s else s.(closed := true, queue := if Full(s) then s.queue else s.queue + [None])
    case Drain =>
      if !s.closed then s else
      s.(queue := [], futures := Fail(s.futures, Requests(s.queue), ShutDown), drained := s.drained + Requests(s.queue))
  }
}
