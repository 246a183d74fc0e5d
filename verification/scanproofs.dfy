/** Batches are runs of the queue, nobody is forgotten, and nobody is answered twice. */
module ScanProofs {
  import opened Wrappers
  import opened Sequences
  import opened ByteStrings
  import opened ScanSpec

  function Upto(n: nat): (ids: seq<nat>)
    ensures |ids| == n && forall i :: 0 <= i < n ==> ids[i] == i
  {
    seq(n, i requires i >= 0 => i)
  }

  /** What the worker has taken and not yet fired. */
  function InHand(w: Worker): seq<nat> {
    if w.Collecting? then w.batch else []
  }

  /** What the worker has put to the node. */
  function InFlight(w: Worker): seq<nat> {
    match w
    case Scanning(live) => live
    case Crashed(lost) => lost
    case _ => []
  }

  function AtMost(s: State): int {
    if s.batchMax < 1 then 1 else s.batchMax
  }

  /** Everything accepted is, in the order it came: in the batches, in hand, drained, or still queued. */
  ghost predicate InOrder(s: State) {
    && Flatten(s.fired) + InHand(s.worker) + s.drained + Requests(s.queue) == Upto(|s.spks|)
    && (s.drained != [] ==> s.closed && Requests(s.queue) == [])
  }

  ghost predicate Sized(s: State) {
    (forall b :: b in s.fired ==> 1 <= |b| <= AtMost(s)) && |InHand(s.worker)| <= AtMost(s)
  }

  /** No request is without either an answer or a place; only what is in flight is running. */
  ghost predicate NoneForgotten(s: State) {
    && |s.spks| == |s.futures|
    && (forall id :: 0 <= id < |s.futures| ==>
          Done(s.futures[id]) || id in InHand(s.worker) || id in InFlight(s.worker) || id in Requests(s.queue))
    && (forall id :: id in InFlight(s.worker) ==> id < |s.futures| && s.futures[id].Running?)
    && (forall id :: id in InHand(s.worker) || id in Requests(s.queue) ==> id < |s.futures| && !s.futures[id].Running?)
  }

  ghost predicate Valid(s: State) {
    InOrder(s) && Sized(s) && NoneForgotten(s)
  }

  lemma {:induction false} RequestsJoined(a: seq<Option<nat>>, b: seq<Option<nat>>)
    ensures Requests(a + b) == Requests(a) + Requests(b)
  {
    if a == [] {
      assert a + b == b;
    } else {
      RequestsJoined(a[1..], b);
      assert (a + b)[1..] == a[1..] + b && (a + b)[0] == a[0];
      var first := if a[0].Some? then [a[0].value] else [];
      assert first + (Requests(a[1..]) + Requests(b)) == first + Requests(a[1..]) + Requests(b);
    }
  }

  lemma NoRequests()
    ensures Requests([]) == []
  {
  }

  lemma RequestsOneMore(queue: seq<Option<nat>>, item: Option<nat>)
    ensures Requests(queue + [item]) == Requests(queue) + if item.Some? then [item.value] else []
  {
    RequestsJoined(queue, [item]);
    assert Requests([item]) == if item.Some? then [item.value] else [];
  }

  // ----- order

  lemma FireKeepsOrder(s: State, batch: seq<nat>)
    requires InOrder(s.(worker := Collecting(batch))) && |s.spks| == |s.futures|
    ensures InOrder(AfterFire(s, batch))
  {
    FlattenOneMore(s.fired, batch);
    var s' := AfterFire(s, batch);
    assert Flatten(s'.fired) + InHand(s'.worker) == Flatten(s.fired) + batch;
  }

  lemma SubmitKeepsOrder(s: State, spk: Bytes)
    requires InOrder(s) && |s.spks| == |s.futures|
    ensures InOrder(Next(s, Submit(spk)))
  {
    hide Requests, Flatten, InHand;
    RequestsOneMore(s.queue, Some(|s.spks|));
    assert Upto(|s.spks| + 1) == Upto(|s.spks|) + [|s.spks|];
    var front := Flatten(s.fired) + InHand(s.worker) + s.drained;
    assert front + (Requests(s.queue) + [|s.spks|]) == front + Requests(s.queue) + [|s.spks|];
  }

  lemma TakeKeepsOrder(s: State)
    requires InOrder(s) && |s.spks| == |s.futures|
    ensures InOrder(Next(s, Take))
  {
    hide AfterFire, Flatten;
    if s.worker.Collecting? && s.queue != [] {
      match s.queue[0]
      case None => FireKeepsOrder(s.(queue := s.queue[1..]), s.worker.batch);
      case Some(id) =>
        var rest := Requests(s.queue[1..]);
        assert Requests(s.queue) == [id] + rest && s.drained == [];
        var front := Flatten(s.fired) + s.worker.batch;
        assert front + [] + ([id] + rest) == Flatten(s.fired) + (s.worker.batch + [id]) + [] + rest;
    }
  }

  lemma StepKeepsOrder(s: State, step: Step)
    requires InOrder(s) && |s.spks| == |s.futures|
    ensures InOrder(Next(s, step))
  {
    hide AfterFire, Fail, Delivered, Flatten, Requests;
    match step
    case Submit(spk) => SubmitKeepsOrder(s, spk);
    case Cancel(id) =>
    case Take => TakeKeepsOrder(s);
    case Fire => if s.worker.Collecting? { FireKeepsOrder(s, s.worker.batch); }
    case Answered(answer) =>
    case Close => RequestsOneMore(s.queue, None);
    case Drain =>
      NoRequests();
      var front := Flatten(s.fired) + InHand(s.worker);
      assert front + (s.drained + Requests(s.queue)) + [] == front + s.drained + Requests(s.queue);
  }

  lemma FireKeepsSizes(s: State, batch: seq<nat>)
    requires Sized(s.(worker := Collecting(batch)))
    ensures Sized(AfterFire(s, batch))
  {
    hide Fail, Begun, LiveOf;
  }

  lemma StepKeepsSizes(s: State, step: Step)
    requires Sized(s) && |s.spks| == |s.futures|
    ensures Sized(Next(s, step))
  {
    hide AfterFire, Fail, Delivered, FailureOf, Requests;
    if step.Take? && s.worker.Collecting? && s.queue != [] && s.queue[0].None? {
      FireKeepsSizes(s.(queue := s.queue[1..]), s.worker.batch);
    }
    if step.Fire? && s.worker.Collecting? {
      FireKeepsSizes(s, s.worker.batch);
    }
  }

  // ----- places

  lemma {:induction false} LiveOfIs(futures: seq<Future>, ids: seq<nat>)
    ensures forall id :: id in LiveOf(futures, ids) <==> id in ids && id < |futures| && futures[id].Pending?
  {
    if ids != [] {
      LiveOfIs(futures, ids[1..]);
      assert forall id :: id in ids <==> id == ids[0] || id in ids[1..];
    }
  }

  lemma PartsApart(x: seq<nat>, y: seq<nat>, z: seq<nat>, n: nat, id: nat)
    requires x + y + z == Upto(n) && id in y
    ensures id !in z
  {
    var i :| 0 <= i < |y| && y[i] == id;
    assert (x + y + z)[|x| + i] == id;
    forall j | 0 <= j < |z| ensures z[j] != id {
      assert (x + y + z)[|x| + |y| + j] == z[j];
    }
  }

  lemma HandAndQueueApart(s: State)
    requires InOrder(s)
    ensures forall id :: id in InHand(s.worker) ==> id !in Requests(s.queue)
  {
    hide Requests, Flatten, InHand;
    forall id | id in InHand(s.worker) ensures id !in Requests(s.queue) {
      var f, h, d, r := Flatten(s.fired), InHand(s.worker), s.drained, Requests(s.queue);
      assert f + h + (d + r) == f + h + d + r;
      PartsApart(f, h, d + r, |s.spks|, id);
    }
  }

  lemma HandIsDistinct(s: State)
    requires InOrder(s)
    ensures Distinct(InHand(s.worker))
  {
    hide Requests, Flatten, InHand;
    var f, h, rest := Flatten(s.fired), InHand(s.worker), s.drained + Requests(s.queue);
    assert f + h + rest == f + h + s.drained + Requests(s.queue);
    forall i, j | 0 <= i < j < |h| ensures h[i] != h[j] {
      assert (f + h + rest)[|f| + i] == h[i] && (f + h + rest)[|f| + j] == h[j];
    }
  }

  lemma FireForgetsNone(s: State, batch: seq<nat>)
    requires NoneForgotten(s.(worker := Collecting(batch))) && forall id :: id in batch ==> id !in Requests(s.queue)
    ensures NoneForgotten(AfterFire(s, batch))
  {
    hide Requests;
    LiveOfIs(s.futures, batch);
  }

  lemma SubmitForgetsNone(s: State, spk: Bytes)
    requires NoneForgotten(s)
    ensures NoneForgotten(Next(s, Submit(spk)))
  {
    hide Requests;
    RequestsOneMore(s.queue, Some(|s.spks|));
  }

  lemma TakeForgetsNone(s: State)
    requires NoneForgotten(s) && forall id :: id in InHand(s.worker) ==> id !in Requests(s.queue)
    ensures NoneForgotten(Next(s, Take))
  {
    hide AfterFire;
    if s.worker.Collecting? && s.queue != [] {
      var rest := Requests(s.queue[1..]);
      match s.queue[0]
      case None =>
        assert Requests(s.queue) == [] + rest == rest;
        FireForgetsNone(s.(queue := s.queue[1..]), s.worker.batch);
      case Some(id) =>
        assert Requests(s.queue) == [id] + rest;
        MovedForgetsNone(s, s.queue[1..], id);
    }
  }

  lemma MovedForgetsNone(s: State, rest: seq<Option<nat>>, id: nat)
    requires NoneForgotten(s) && s.worker.Collecting? && Requests(s.queue) == [id] + Requests(rest)
    ensures NoneForgotten(s.(queue := rest, worker := Collecting(s.worker.batch + [id])))
  {
    hide Requests;
    assert forall i :: i in Requests(s.queue) <==> i == id || i in Requests(rest);
    assert forall i :: i in s.worker.batch + [id] <==> i in s.worker.batch || i == id;
  }

  lemma StepForgetsNone(s: State, step: Step)
    requires NoneForgotten(s) && forall id :: id in InHand(s.worker) ==> id !in Requests(s.queue)
    ensures NoneForgotten(Next(s, step))
  {
    hide AfterFire, Fail, Delivered;
    match step
    case Submit(spk) => SubmitForgetsNone(s, spk);
    case Cancel(id) =>
    case Take => TakeForgetsNone(s);
    case Fire => if s.worker.Collecting? { FireForgetsNone(s, s.worker.batch); }
    case Answered(answer) => if s.worker.Scanning? { AnswerForgetsNone(s, s.worker.live, answer); }
    case Close => RequestsOneMore(s.queue, None);
    case Drain => DrainForgetsNone(s);
  }

  lemma AnswerForgetsNone(s: State, live: seq<nat>, answer: Answer)
    requires NoneForgotten(s) && s.worker == Scanning(live)
    ensures NoneForgotten(AfterAnswer(s, live, answer))
  {
    hide Requests, OwnCoins;
    var s' := AfterAnswer(s, live, answer);
    assert s'.queue == s.queue && s'.spks == s.spks && InHand(s'.worker) == [];
    forall id | 0 <= id < |s.futures| && !Uncaught(answer)
      ensures if id in live then Done(s'.futures[id]) else s'.futures[id] == s.futures[id]
    {
      if FailureOf(answer).Some? {
        assert s'.futures == Fail(s.futures, live, FailureOf(answer).value);
      } else {
        assert s'.futures == Delivered(s.spks, s.futures, live, answer.unspents);
      }
    }
  }

  lemma DrainForgetsNone(s: State)
    requires NoneForgotten(s)
    ensures NoneForgotten(Next(s, Drain))
  {
    assert Requests([]) == [];
    hide Requests;
  }

  lemma StepKeepsValid(s: State, step: Step)
    requires Valid(s)
    ensures Valid(Next(s, step))
  {
    hide Next, InOrder, Sized;
    StepKeepsOrder(s, step);
    StepKeepsSizes(s, step);
    HandAndQueueApart(s);
    StepForgetsNone(s, step);
  }

  function Run(s: State, steps: seq<Step>): State
    requires Valid(s)
    decreases |steps|
  {
    if steps == [] then s else
    StepKeepsValid(s, steps[0]);
    Run(Next(s, steps[0]), steps[1..])
  }

  /** Any interleaving of callers, worker, node and shutdown. */
  lemma {:induction false} RunKeepsValid(s: State, steps: seq<Step>)
    requires Valid(s)
    ensures Valid(Run(s, steps))
    decreases |steps|
  {
    hide Next, InOrder, Sized;
    if steps != [] {
      StepKeepsValid(s, steps[0]);
      RunKeepsValid(Next(s, steps[0]), steps[1..]);
    }
  }

  lemma StartIsValid(batchMax: int, queueMax: int)
    ensures Valid(Start(batchMax, queueMax))
  {
  }

  /** In every state there can ever be, from a supervisor newly made, by any interleaving. */
  lemma EveryStateIsValid(batchMax: int, queueMax: int, steps: seq<Step>)
    ensures (StartIsValid(batchMax, queueMax); Valid(Run(Start(batchMax, queueMax), steps)))
  {
    StartIsValid(batchMax, queueMax);
    RunKeepsValid(Start(batchMax, queueMax), steps);
  }

  // ----- batches are runs of the queue

  /** In every reachable state the batches, joined, are the first requests accepted, in order; each of proper size. */
  lemma BatchesAreRuns(s: State)
    requires Valid(s)
    ensures Flatten(s.fired) <= Upto(|s.spks|)
    ensures forall b :: b in s.fired ==> 1 <= |b| <= AtMost(s)
  {
    hide NoneForgotten, Requests, Flatten, InHand;
    var f, rest := Flatten(s.fired), InHand(s.worker) + s.drained + Requests(s.queue);
    assert Flatten(s.fired) + InHand(s.worker) + s.drained + Requests(s.queue) == f + rest;
  }

  // ----- each request resolves once, and to its own coins

  /** What is done stays as it is. */
  lemma StepNeverRevises(s: State, step: Step, id: nat)
    requires Valid(s) && id < |s.futures| && Done(s.futures[id])
    ensures id < |Next(s, step).futures| && Next(s, step).futures[id] == s.futures[id]
  {
    hide InOrder, Sized, OwnCoins, Requests, LiveOf, FailureOf, NoteFired;
  }

  lemma {:induction false} NeverRevised(s: State, steps: seq<Step>, id: nat)
    requires Valid(s) && id < |s.futures| && Done(s.futures[id])
    ensures id < |Run(s, steps).futures| && Run(s, steps).futures[id] == s.futures[id]
    decreases |steps|
  {
    hide Next, InOrder, Sized;
    if steps != [] {
      StepKeepsValid(s, steps[0]);
      StepNeverRevises(s, steps[0], id);
      NeverRevised(Next(s, steps[0]), steps[1..], id);
    }
  }

  /**
   An answer settles everything in flight and nothing else: all fail for one reason, or each gets the
   coins of its own script.  Only an answer whose error is caught nowhere settles nothing, and it ends the
   worker.
   */
  lemma AnswerSettlesExactly(s: State, answer: Answer, id: nat)
    requires Valid(s) && s.worker.Scanning? && id < |s.futures|
    ensures var s' := Next(s, Answered(answer));
            && |s'.futures| == |s.futures|
            && (id !in s.worker.live ==> s'.futures[id] == s.futures[id])
            && (id in s.worker.live ==>
                  s'.futures[id] ==
                    if Uncaught(answer) then Running
                    else if FailureOf(answer).Some? then Failed(FailureOf(answer).value)
                    else Baseline(OwnCoins(answer.unspents, s.spks[id])))
            && (s'.worker == if Uncaught(answer) then Crashed(s.worker.live) else Collecting([]))
  {
    hide InOrder, Sized, OwnCoins, Requests;
  }

  /** The first entry that is not an unspent is `fault`. */
  ghost predicate StopsAt(entries: seq<Entry>, fault: Entry) {
    exists n :: StopsAtIndex(entries, fault, n)
  }

  predicate StopsAtIndex(entries: seq<Entry>, fault: Entry, n: int) {
    && 0 <= n < |entries| && entries[n] == fault && !fault.Found?
    && forall i :: 0 <= i < n ==> entries[i].Found?
  }

  lemma {:induction false} StopsAtTheFirst(entries: seq<Entry>, fault: Entry)
    ensures StopsAt(entries, fault) <==> FirstFault(entries) == Some(fault)
  {
    if entries != [] {
      StopsAtTheFirst(entries[1..], fault);
      assert entries[0] == fault && !fault.Found? ==> StopsAtIndex(entries, fault, 0);
      if StopsAt(entries[1..], fault) && entries[0].Found? {
        var n :| StopsAtIndex(entries[1..], fault, n);
        assert forall i :: 0 < i < n + 1 ==> entries[i] == entries[1..][i - 1];
        assert StopsAtIndex(entries, fault, n + 1);
      }
      if n :| StopsAtIndex(entries, fault, n) {
        if n > 0 {
          assert forall i :: 0 <= i < n - 1 ==> entries[1..][i] == entries[i + 1];
          assert entries[0].Found? && StopsAtIndex(entries[1..], fault, n - 1);
        }
      }
    }
  }

  /** The coins of a script: each found entry that bears it, and none that does not. */
  lemma {:induction false} OwnCoinsAreOwn(entries: seq<Entry>, spk: Bytes, u: Utxo)
    ensures u in OwnCoins(entries, spk) <==>
            exists e :: e in entries && e.Found? && e.spk == spk && u == Utxo(Reversed(e.displayTxid), e.vout, spk)
  {
    if entries != [] {
      var front, last := entries[..|entries| - 1], entries[|entries| - 1];
      OwnCoinsAreOwn(front, spk, u);
      assert forall e :: e in entries <==> e in front || e == last;
    }
  }

  /** The unspent as the node lists it, its txid turned from display order into the order of the chain. */
  predicate Lists(e: Entry, spk: Bytes, u: Utxo) {
    && e.Found? && e.spk == spk && u.spk == spk && u.vout == e.vout && |u.txid| == |e.displayTxid|
    && forall j :: 0 <= j < |u.txid| ==> u.txid[j] == e.displayTxid[|e.displayTxid| - 1 - j]
  }

  /** The coins of a script, byte for byte. */
  lemma OwnCoinsExactly(entries: seq<Entry>, spk: Bytes, u: Utxo)
    ensures u in OwnCoins(entries, spk) <==> exists e :: e in entries && Lists(e, spk, u)
  {
    hide OwnCoins;
    OwnCoinsAreOwn(entries, spk, u);
    forall e | e in entries && e.Found? && e.spk == spk
      ensures u == Utxo(Reversed(e.displayTxid), e.vout, spk) <==> Lists(e, spk, u)
    {
      if Lists(e, spk, u) {
        assert u.txid == Reversed(e.displayTxid);
      }
    }
  }

  /** Node order is kept: a longer answer only adds to the end. */
  lemma {:induction false} OwnCoinsInOrder(a: seq<Entry>, b: seq<Entry>, spk: Bytes)
    ensures OwnCoins(a + b, spk) == OwnCoins(a, spk) + OwnCoins(b, spk)
  {
    if b == [] {
      assert a + b == a;
    } else {
      var front := b[..|b| - 1];
      OwnCoinsInOrder(a, front, spk);
      assert (a + b)[..|a + b| - 1] == a + front && (a + b)[|a + b| - 1] == b[|b| - 1];
    }
  }

  /** One descriptor for each distinct script of the live requests. */
  lemma {:induction false} DescriptorsAreDistinct(spks: seq<Bytes>, ids: seq<nat>)
    ensures var ds := DistinctSpks(spks, ids);
            && Distinct(ds)
            && (forall d :: d in ds <==> Asked(spks, ids, d))
  {
    hide Asked, Distinct;
    if ids == [] {
      NoneAsked(spks);
      NothingDistinct<Bytes>();
    } else {
      var front, last := ids[..|ids| - 1], ids[|ids| - 1];
      var before, ds := DistinctSpks(spks, front), DistinctSpks(spks, ids);
      DescriptorsAreDistinct(spks, front);
      if last < |spks| && spks[last] !in before {
        DistinctOneMore(before, spks[last]);
      }
      forall d ensures d in ds <==> Asked(spks, ids, d) {
        AskedOneMore(spks, front, last, d);
        assert front + [last] == ids;
      }
    }
  }

  /** Some request is for the script. */
  predicate Asked(spks: seq<Bytes>, ids: seq<nat>, spk: Bytes) {
    exists id :: id in ids && id < |spks| && spks[id] == spk
  }

  lemma NoneAsked(spks: seq<Bytes>)
    ensures forall spk :: !Asked(spks, [], spk)
  {
  }

  lemma AskedOneMore(spks: seq<Bytes>, front: seq<nat>, last: nat, spk: Bytes)
    ensures Asked(spks, front + [last], spk) <==> Asked(spks, front, spk) || (last < |spks| && spks[last] == spk)
  {
    assert forall id :: id in front + [last] <==> id in front || id == last;
  }

  // ----- shutdown

  /** Once closed and drained, with the worker gone by its own way out, no request is unresolved. */
  lemma NothingUnresolvedAfterShutdown(s: State)
    requires Valid(s) && s.closed && s.queue == [] && s.worker.Exited?
    ensures forall id :: 0 <= id < |s.futures| ==> Done(s.futures[id])
  {
    hide InOrder, Sized;
    NoRequests();
  }

  lemma InFlightIsRunning(s: State, id: nat)
    requires Valid(s) && id in InFlight(s.worker)
    ensures id < |s.futures| && s.futures[id].Running?
  {
  }

  lemma CrashedForGood(s: State, step: Step)
    requires |s.spks| == |s.futures| && s.worker.Crashed?
    ensures Next(s, step).worker == s.worker
  {
    hide Fail, LiveOf, Begun, Requests, OwnCoins, FailureOf;
  }

  lemma StepLeavesTheCrashed(s: State, step: Step, id: nat)
    requires Valid(s) && s.worker.Crashed? && id in s.worker.lost
    ensures var s' := Next(s, step);
            s'.worker == s.worker && id < |s'.futures| && s'.futures[id].Running?
  {
    hide Next, Valid;
    ValidMeansAligned(s);
    StepKeepsValid(s, step);
    CrashedForGood(s, step);
    InFlightIsRunning(Next(s, step), id);
  }

  /** What was in flight when the worker crashed is running for ever: nothing anyone does can settle it. */
  lemma {:induction false} TheCrashedAreLostForGood(s: State, steps: seq<Step>, id: nat)
    requires Valid(s) && s.worker.Crashed? && id in s.worker.lost
    ensures var s' := Run(s, steps);
            s'.worker == s.worker && id < |s'.futures| && s'.futures[id].Running?
    decreases |steps|
  {
    hide Next, InOrder, Sized;
    if steps == [] {
      InFlightIsRunning(s, id);
    } else {
      StepKeepsValid(s, steps[0]);
      StepLeavesTheCrashed(s, steps[0], id);
      TheCrashedAreLostForGood(Next(s, steps[0]), steps[1..], id);
    }
  }

  /** And nothing else is: once closed and drained, exactly what was in flight is unresolved, whatever is done after. */
  lemma OnlyTheCrashedAreLost(s: State, steps: seq<Step>, id: nat)
    requires Valid(s) && s.worker.Crashed? && s.closed && s.queue == [] && id < |s.futures|
    ensures var s' := Run(s, steps);
            id < |s'.futures| && (!Done(s'.futures[id]) <==> id in s.worker.lost)
  {
    hide InOrder, Sized, Run;
    NoRequests();
    if id in s.worker.lost {
      TheCrashedAreLostForGood(s, steps, id);
    } else {
      NeverRevised(s, steps, id);
    }
  }

  /** It happens, on each of them: one request, one scan, that answer; shut down and drained, the future still runs. */
  lemma OneRequestLost(answer: Answer)
    requires Uncaught(answer)
    ensures var scanning := Next(Next(Next(Start(25, 100), Submit([1])), Take), Fire);
            var end := Next(Next(Next(scanning, Answered(answer)), Close), Drain);
            && end.closed && end.queue == [] && end.worker.Crashed? && |end.futures| == 1 && end.futures[0].Running?
  {
    OneScanBegun();
    hide Fail, Requests;
    var crashed := Next(OneScan(), Answered(answer));
    NothingToDrain([Running]);
    assert Next(crashed, Close).queue == [None];
  }

  /** One request taken, fired and put to the node. */
  function OneScan(): State {
    State(25, 100, [[1]], [Running], [], Scanning([0]), false, 0, [[0]], [])
  }

  lemma OneScanBegun()
    ensures Next(Next(Next(Start(25, 100), Submit([1])), Take), Fire) == OneScan()
  {
    var queue: seq<Option<nat>> := [Some(0)];
    assert Next(Start(25, 100), Submit([1]))
        == State(25, 100, [[1]], [Pending], queue, Collecting([]), false, 0, [], []);
    var hand: seq<nat> := [];
    assert queue[1..] == [] && hand + [0] == [0];
    var taken := Next(Next(Start(25, 100), Submit([1])), Take);
    assert taken == State(25, 100, [[1]], [Pending], [], Collecting([0]), false, 0, [], []);
    hide Next;
    OneFired();
  }

  lemma OneFired()
    ensures Next(State(25, 100, [[1]], [Pending], [], Collecting([0]), false, 0, [], []), Fire) == OneScan()
  {
    assert LiveOf([Pending], [0]) == [0];
    assert Begun([Pending], [0]) == [Running];
  }

  lemma NothingToDrain(futures: seq<Future>)
    ensures Requests([None]) == [] && Fail(futures, [], ShutDown) == futures
  {
  }

  /** And it comes to that: from any reachable state, closing, draining, the node's answer and a turn are enough. */
  lemma ShutdownResolvesEverything(s: State, answer: Answer)
    requires Valid(s) && !s.worker.Crashed? && !Uncaught(answer)
    ensures var s' := Run(s, [Close, Drain, Answered(answer), Fire]);
            s'.worker.Exited? && forall id :: 0 <= id < |s'.futures| ==> Done(s'.futures[id])
  {
    hide Next, Valid;
    ValidMeansAligned(s);
    var s1 := Next(s, Close);
    StepKeepsValid(s, Close);
    ValidMeansAligned(s1);
    var s2 := Next(s1, Drain);
    StepKeepsValid(s1, Drain);
    ValidMeansAligned(s2);
    var s3 := Next(s2, Answered(answer));
    StepKeepsValid(s2, Answered(answer));
    ValidMeansAligned(s3);
    StepKeepsValid(s3, Fire);
    WindsDown(s, answer);
    FourSteps(s, Close, Drain, Answered(answer), Fire);
    NothingUnresolvedAfterShutdown(Next(s3, Fire));
  }

  lemma ValidMeansAligned(s: State)
    requires Valid(s)
    ensures |s.spks| == |s.futures|
  {
  }

  lemma WindsDown(s: State, answer: Answer)
    requires |s.spks| == |s.futures| && !s.worker.Crashed? && !Uncaught(answer)
    ensures var s4 := Next(Next(Next(Next(s, Close), Drain), Answered(answer)), Fire);
            s4.closed && s4.queue == [] && s4.worker.Exited?
  {
    hide Fail, Delivered, FailureOf, Requests, LiveOf, Begun;
    var s1 := Next(s, Close);
    var s2 := Next(s1, Drain);
    assert s2.closed && s2.queue == [] && s2.worker == s.worker;
    var s3 := Next(s2, Answered(answer));
    assert s3.closed && s3.queue == [] && (s3.worker.Collecting? || s3.worker.Exited?);
  }

  lemma FourSteps(s: State, a: Step, b: Step, c: Step, d: Step)
    requires Valid(s) && Valid(Next(s, a)) && Valid(Next(Next(s, a), b)) && Valid(Next(Next(Next(s, a), b), c))
    ensures Run(s, [a, b, c, d]) == Next(Next(Next(Next(s, a), b), c), d)
  {
    hide Next, InOrder, Sized;
    var s1 := Next(s, a);
    var s2 := Next(s1, b);
    var s3 := Next(s2, c);
    StepKeepsValid(s3, d);
    assert [a, b, c, d][1..] == [b, c, d] && [b, c, d][1..] == [c, d] && [c, d][1..] == [d] && [d][1..] == [];
    assert Run(s3, [d]) == Next(s3, d);
    assert Run(s2, [c, d]) == Run(s3, [d]);
    assert Run(s1, [b, c, d]) == Run(s2, [c, d]);
  }

  // ----- a backlog

  /** Taking what is already queued, until the batch is full or the queue is dry. */
  function TakesAll(s: State): State
    requires |s.spks| == |s.futures|
    decreases |s.queue|
  {
    if s.worker.Collecting? && s.queue != [] && (s.worker.batch == [] || |s.worker.batch| < s.batchMax)
    then TakesAll(Next(s, Take))
    else s
  }
}
