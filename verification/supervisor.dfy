/** The scan supervisor.  Each method is what one thread does between two points where another may come in. */
module Supervisor {
  import opened Wrappers
  import opened Sequences
  import opened ByteStrings
  import opened ScanSpec
  import opened ScanProofs

  datatype Accepted = Accepted(id: nat) | Closed | QueueFull

  /** What going through the unspents comes to: an error that is not caught, one that is, or the coins by script. */
  datatype Reading = Broke | Malformed | Read(coins: map<Bytes, seq<Utxo>>)

  class ScanSupervisor {
    const batchMax: int
    const queueMax: int
    var spks: seq<Bytes>
    var futures: seq<Future>
    var queue: seq<Option<nat>>
    var worker: Worker
    var closed: bool
    var batchesRun: nat
    ghost var fired: seq<seq<nat>>
    ghost var drained: seq<nat>

    constructor (batchMax: int, queueMax: int)
      ensures Value() == Start(batchMax, queueMax) && Valid()
    {
      this.batchMax, this.queueMax := batchMax, queueMax;
      spks, futures, queue, worker := [], [], [], Collecting([]);
      closed, batchesRun := false, 0;
      fired, drained := [], [];
    }

    ghost function Value(): State
      reads this
    {
      State(batchMax, queueMax, spks, futures, queue, worker, closed, batchesRun, fired, drained)
    }

    ghost predicate Valid()
      reads this
    {
      ScanProofs.Valid(Value())
    }

    /** Fails whichever of them is not done yet. */
    method FailAll(ids: seq<nat>, why: Why)
      modifies this`futures
      ensures futures == Fail(old(futures), ids, why)
    {
      for n := 0 to |ids|
        invariant futures == Fail(old(futures), ids[..n], why)
      {
        var id := ids[n];
        if id < |futures| && !Done(futures[id]) {
          futures := futures[id := Failed(why)];
        }
        assert forall i :: i in ids[..n + 1] <==> i in ids[..n] || i == id;
      }
      assert ids[..|ids|] == ids;
    }

    method Submit(spk: Bytes) returns (r: Accepted)
      requires Valid()
      modifies this
      ensures Valid() && Value() == Next(old(Value()), ScanSpec.Submit(spk))
      ensures r == if old(closed) then Closed else if old(Full(Value())) then QueueFull else Accepted(|old(spks)|)
    {
      hide InOrder, Sized, Requests;
      StepKeepsValid(Value(), ScanSpec.Submit(spk));
      if closed {
        return Closed;
      }
      if 0 < queueMax <= |queue| {
        return QueueFull;
      }
      r := Accepted(|spks|);
      queue := queue + [Some(|spks|)];
      spks, futures := spks + [spk], futures + [Pending];
    }

    method Cancel(id: nat)
      requires Valid()
      modifies this
      ensures Valid() && Value() == Next(old(Value()), ScanSpec.Cancel(id))
    {
      hide InOrder, Sized, Requests;
      StepKeepsValid(Value(), ScanSpec.Cancel(id));
      if id < |futures| && futures[id].Pending? {
        futures := futures[id := Cancelled];
      }
    }

    /** Collecting is over: at shutdown the batch fails, otherwise what was not cancelled goes to the node. */
    method EndCollecting() returns (descriptors: seq<Bytes>)
      requires worker.Collecting? && |spks| == |futures| && Distinct(worker.batch)
      modifies this
      ensures Value() == AfterFire(old(Value()), old(worker).batch)
      ensures worker.Scanning? ==> descriptors == DistinctSpks(spks, worker.live)
    {
      hide Fail, LiveOf, Begun, DistinctSpks;
      var batch := worker.batch;
      descriptors := [];
      fired := if batch == [] then fired else fired + [batch];
      if closed {
        FailAll(batch, ShutDown);
        worker := Exited;
        return;
      }
      var live := BeginAll(batch);
      if live == [] {
        worker := Collecting([]);
        return;
      }
      descriptors := Descriptors(live);
      worker := Scanning(live);
    }

    method BeginAll(batch: seq<nat>) returns (live: seq<nat>)
      requires Distinct(batch)
      modifies this`futures
      ensures live == LiveOf(old(futures), batch) && futures == Begun(old(futures), batch)
    {
      live := [];
      ghost var start := futures;
      for n := 0 to |batch|
        invariant futures == Begun(start, batch[..n])
        invariant live == LiveOf(start, batch[..n])
      {
        var id := batch[n];
        LiveOfOneMore(start, batch[..n], id);
        assert id !in batch[..n];
        assert batch[..n + 1] == batch[..n] + [id];
        if id < |futures| && futures[id].Pending? {
          futures := futures[id := Running];
          live := live + [id];
        }
      }
      assert batch[..|batch|] == batch;
    }

    method Descriptors(live: seq<nat>) returns (ds: seq<Bytes>)
      requires |spks| == |futures|
      ensures ds == DistinctSpks(spks, live)
    {
      ds := [];
      for n := 0 to |live|
        invariant ds == DistinctSpks(spks, live[..n])
      {
        assert live[..n + 1][..n] == live[..n];
        if live[n] < |spks| && spks[live[n]] !in ds {
          ds := ds + [spks[live[n]]];
        }
      }
      assert live[..|live|] == live;
    }

    /** One `get`: a request joins the batch, the sentinel ends it. */
    method TakeOne() returns (descriptors: seq<Bytes>)
      requires Valid() && worker.Collecting? && queue != [] && (worker.batch == [] || |worker.batch| < batchMax)
      modifies this
      ensures Valid() && Value() == Next(old(Value()), Take)
      ensures old(queue[0]).None? && worker.Scanning? ==> descriptors == DistinctSpks(spks, worker.live)
    {
      hide InOrder, Sized, Requests, AfterFire, DistinctSpks;
      StepKeepsValid(Value(), Take);
      HandIsDistinct(Value());
      var item := queue[0];
      queue := queue[1..];
      if item.None? {
        descriptors := EndCollecting();
      } else {
        descriptors := [];
        worker := Collecting(worker.batch + [item.value]);
      }
    }

    /** A backlog is taken at once; each turn of the loop is one `get`. */
    method TakeQueued() returns (descriptors: seq<Bytes>)
      requires Valid()
      modifies this
      ensures Valid() && Value() == TakesAll(old(Value()))
      ensures old(worker).Collecting? && worker.Scanning? ==> descriptors == DistinctSpks(spks, worker.live)
    {
      hide InOrder, Sized, Requests, AfterFire, Next, DistinctSpks;
      descriptors := [];
      ghost var start := Value();
      while worker.Collecting? && queue != [] && (worker.batch == [] || |worker.batch| < batchMax)
        invariant Valid() && TakesAll(Value()) == TakesAll(start)
        invariant start.worker.Collecting? && worker.Scanning? ==> descriptors == DistinctSpks(spks, worker.live)
        decreases |queue|
      {
        TakeShortens(Value());
        TakeStaysCollecting(Value());
        descriptors := TakeOne();
      }
    }

    /** The window has passed, or the batch is full. */
    method Fire() returns (descriptors: seq<Bytes>)
      requires Valid() && worker.Collecting?
      modifies this
      ensures Valid() && Value() == Next(old(Value()), ScanSpec.Fire)
      ensures worker.Scanning? ==> descriptors == DistinctSpks(spks, worker.live)
    {
      hide InOrder, Sized, Requests, AfterFire, DistinctSpks;
      StepKeepsValid(Value(), ScanSpec.Fire);
      HandIsDistinct(Value());
      descriptors := EndCollecting();
    }

    /** The node's answer to the scan in flight. */
    method Answered(answer: Answer)
      requires Valid() && worker.Scanning?
      modifies this
      ensures Valid() && Value() == Next(old(Value()), ScanSpec.Answered(answer))
    {
      hide InOrder, Sized, Requests, OwnCoins, Fail, Delivered;
      StepKeepsValid(Value(), ScanSpec.Answered(answer));
      var live := worker.live;
      assert forall id :: id in live ==> id in InFlight(worker);
      batchesRun := batchesRun + 1;
      match answer
      case Rejected(code) =>
        FailAll(live, NodeRejected(code));
        worker := Collecting([]);
      case Unreachable =>
        FailAll(live, NodeUnreachable);
        worker := Collecting([]);
      case NotCompleted =>
        FailAll(live, DidNotComplete);
        worker := Collecting([]);
      case CallRaised =>
        worker := Crashed(live);
      case Unreadable =>
        worker := Crashed(live);
      case Completed(unspents) =>
        StopsAtTheFirst(unspents, RaisingEntry);
        StopsAtTheFirst(unspents, BadEntry);
        var reading := ReadUnspents(live, unspents);
        match reading
        case Broke =>
          worker := Crashed(live);
        case Malformed =>
          FailAll(live, WasMalformed);
          worker := Collecting([]);
        case Read(coins) =>
          DeliverAll(live, unspents, coins);
          worker := Collecting([]);
    }

    /** The unspents of each script asked about; those of any other script are dropped. */
    method ReadUnspents(live: seq<nat>, unspents: seq<Entry>) returns (reading: Reading)
      requires |spks| == |futures| && forall id :: id in live ==> id < |spks|
      ensures reading.Broke? <==> StopsAt(unspents, RaisingEntry)
      ensures reading.Malformed? <==> StopsAt(unspents, BadEntry)
      ensures reading.Read? ==> forall id :: id in live ==>
                spks[id] in reading.coins && reading.coins[spks[id]] == OwnCoins(unspents, spks[id])
    {
      hide OwnCoins, Reversed;
      NoCoinsYet();
      var sets: map<Bytes, seq<Utxo>> :=
        map spk | spk in spks && (exists id :: id in live && id < |spks| && spks[id] == spk) :: [];
      for n := 0 to |unspents|
        invariant forall i :: 0 <= i < n ==> unspents[i].Found?
        invariant forall id :: id in live ==> spks[id] in sets
        invariant forall spk :: spk in sets ==> sets[spk] == OwnCoins(unspents[..n], spk)
      {
        var e := unspents[n];
        assert unspents[..n + 1] == unspents[..n] + [e];
        forall spk | spk in sets {
          OwnCoinsOneMore(unspents[..n], e, spk);
        }
        assert !e.Found? ==> StopsAtIndex(unspents, e, n);
        if e.RaisingEntry? {
          return Broke;
        }
        if e.BadEntry? {
          return Malformed;
        }
        if e.spk in sets {
          sets := sets[e.spk := sets[e.spk] + [Utxo(Reversed(e.displayTxid), e.vout, e.spk)]];
        }
      }
      assert unspents[..|unspents|] == unspents;
      return Read(sets);
    }

    method DeliverAll(live: seq<nat>, unspents: seq<Entry>, found: map<Bytes, seq<Utxo>>)
      requires |spks| == |futures| && forall id :: id in live ==> id < |spks|
      requires forall id :: id in live ==> spks[id] in found && found[spks[id]] == OwnCoins(unspents, spks[id])
      modifies this`futures
      ensures futures == Delivered(spks, old(futures), live, unspents)
    {
      hide OwnCoins;
      ghost var start := futures;
      for n := 0 to |live|
        invariant futures == Delivered(spks, start, live[..n], unspents)
      {
        var id := live[n];
        assert id in live;
        assert forall i :: i in live[..n + 1] <==> i in live[..n] || i == id;
        futures := futures[id := Baseline(found[spks[id]])];
      }
      assert live[..|live|] == live;
    }

    /** Refuse what comes, wake the worker, and abort the scan there is, which reaches the worker as its answer. */
    method Close() returns (abort: bool)
      requires Valid()
      modifies this
      ensures Valid() && Value() == Next(old(Value()), ScanSpec.Close)
      ensures abort == old(!closed && worker.Scanning?)
    {
      hide InOrder, Sized, Requests;
      StepKeepsValid(Value(), ScanSpec.Close);
      if closed {
        return false;
      }
      closed := true;
      if !(0 < queueMax <= |queue|) {
        queue := queue + [None];
      }
      return worker.Scanning?;
    }

    method Drain()
      requires Valid() && closed
      modifies this
      ensures Valid() && Value() == Next(old(Value()), ScanSpec.Drain)
    {
      hide InOrder, Sized;
      StepKeepsValid(Value(), ScanSpec.Drain);
      ghost var start := Value();
      DrainNothing(start);
      while queue != []
        invariant closed && DrainedBy(start, Value())
        decreases |queue|
      {
        var item := queue[0];
        DrainOneMore(start, Value());
        queue := queue[1..];
        if item.Some? {
          drained := drained + [item.value];
          if item.value < |futures| && !Done(futures[item.value]) {
            futures := futures[item.value := Failed(ShutDown)];
          }
        }
      }
      DrainedAll(start, Value());
    }
  }

  lemma NoCoinsYet()
    ensures forall spk :: OwnCoins([], spk) == []
  {
  }

  lemma OwnCoinsOneMore(entries: seq<Entry>, e: Entry, spk: Bytes)
    ensures OwnCoins(entries + [e], spk)
         == OwnCoins(entries, spk)
            + if e.Found? && e.spk == spk then [Utxo(Reversed(e.displayTxid), e.vout, spk)] else []
  {
    assert (entries + [e])[..|entries|] == entries;
  }

  lemma TakeShortens(s: State)
    requires |s.spks| == |s.futures| && s.worker.Collecting? && s.queue != []
    requires s.worker.batch == [] || |s.worker.batch| < s.batchMax
    ensures |Next(s, Take).queue| < |s.queue|
  {
    hide Fail, LiveOf, Begun;
  }

  /** A request taken leaves the worker collecting. */
  lemma TakeStaysCollecting(s: State)
    requires |s.spks| == |s.futures| && s.worker.Collecting? && s.queue != []
    requires s.worker.batch == [] || |s.worker.batch| < s.batchMax
    ensures s.queue[0].Some? ==> Next(s, Take).worker.Collecting?
  {
  }

  /** Part of the way through draining: what has been drained has failed, the rest is as it was. */
  ghost predicate DrainedBy(start: State, now: State) {
    && |now.futures| == |start.futures|
    && now == start.(futures := now.futures, queue := now.queue, drained := now.drained)
    && start.drained + Requests(start.queue) == now.drained + Requests(now.queue)
    && Fail(start.futures, Requests(start.queue), ShutDown) == Fail(now.futures, Requests(now.queue), ShutDown)
  }

  lemma DrainNothing(s: State)
    ensures DrainedBy(s, s)
  {
  }

  function AfterOne(s: State): State
    requires s.queue != []
  {
    var rest := s.(queue := s.queue[1..]);
    match s.queue[0]
    case None => rest
    case Some(id) =>
      rest.(drained := s.drained + [id],
            futures := if id < |s.futures| && !Done(s.futures[id])
                       then s.futures[id := Failed(ShutDown)] else s.futures)
  }

  lemma DrainOneMore(start: State, now: State)
    requires DrainedBy(start, now) && now.queue != []
    ensures DrainedBy(start, AfterOne(now))
  {
    var next := AfterOne(now);
    var rest := Requests(now.queue[1..]);
    if now.queue[0].Some? {
      var id := now.queue[0].value;
      assert Requests(now.queue) == [id] + rest;
      assert now.drained + ([id] + rest) == now.drained + [id] + rest;
      assert forall i :: i in [id] + rest <==> i == id || i in rest;
    } else {
      assert Requests(now.queue) == rest by {
        assert [] + rest == rest;
      }
    }
  }

  lemma DrainedAll(start: State, now: State)
    requires DrainedBy(start, now) && now.queue == [] && start.closed && |start.spks| == |start.futures|
    ensures now == Next(start, Drain)
  {
    assert Requests(now.queue) == [];
    assert Fail(now.futures, [], ShutDown) == now.futures;
    assert now.drained + [] == now.drained;
  }

  lemma {:induction false} LiveOfOneMore(futures: seq<Future>, ids: seq<nat>, id: nat)
    ensures LiveOf(futures, ids + [id])
         == LiveOf(futures, ids) + if id < |futures| && futures[id].Pending? then [id] else []
  {
    if ids != [] {
      assert (ids + [id])[1..] == ids[1..] + [id];
      LiveOfOneMore(futures, ids[1..], id);
    }
  }
}
