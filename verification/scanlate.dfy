/**
 Submitting is a check of the closed flag and then a put, and `close` may fall between the two.  Such a put
 comes into a closed queue; it is lost exactly when it comes after the queue was drained.
 */
module LateSubmits {
  import opened Wrappers
  import opened Sequences
  import opened ByteStrings
  import opened ScanSpec
  import opened ScanProofs

  /** A step as before, or the put of a caller who found the supervisor open and is late. */
  datatype LateStep = Usual(step: Step) | PutLate(spk: Bytes)

  function NextLate(s: State, late: LateStep): State
    requires |s.spks| == |s.futures|
  {
    match late
    case Usual(step) => Next(s, step)
    case PutLate(spk) => if s.closed then Next(s.(closed := false), Submit(spk)).(closed := true) else s
  }

  /** No request is in two places. */
  ghost predicate Apart(s: State) {
    Distinct(InHand(s.worker) + Requests(s.queue))
  }

  ghost predicate Placed(s: State) {
    NoneForgotten(s) && Apart(s)
  }

  lemma ApartMeans(hand: seq<nat>, queued: seq<nat>)
    requires Distinct(hand + queued)
    ensures Distinct(queued) && forall id :: id in hand ==> id !in queued
  {
    forall i, j | 0 <= i < j < |queued| ensures queued[i] != queued[j] {
      assert (hand + queued)[|hand| + i] == queued[i] && (hand + queued)[|hand| + j] == queued[j];
    }
    forall id | id in hand ensures id !in queued {
      var i :| 0 <= i < |hand| && hand[i] == id;
      forall j | 0 <= j < |queued| ensures queued[j] != id {
        assert (hand + queued)[i] == id && (hand + queued)[|hand| + j] == queued[j];
      }
    }
  }

  lemma FireStaysApart(s: State, batch: seq<nat>)
    requires Distinct(batch + Requests(s.queue))
    ensures Apart(AfterFire(s, batch))
  {
    hide Requests;
    ApartMeans(batch, Requests(s.queue));
    assert [] + Requests(s.queue) == Requests(s.queue);
  }

  lemma TakeStaysApart(s: State)
    requires Apart(s) && |s.spks| == |s.futures|
    ensures Apart(Next(s, Take))
  {
    hide AfterFire;
    if s.worker.Collecting? && s.queue != [] {
      var rest := s.(queue := s.queue[1..]);
      match s.queue[0]
      case None =>
        assert [] + Requests(rest.queue) == Requests(rest.queue);
        FireStaysApart(rest, s.worker.batch);
      case Some(id) =>
        assert s.worker.batch + ([id] + Requests(rest.queue)) == s.worker.batch + [id] + Requests(rest.queue);
    }
  }

  lemma SubmitStaysApart(s: State, spk: Bytes)
    requires Placed(s)
    ensures Apart(Next(s, Submit(spk)))
  {
    hide Requests, Distinct;
    var id: nat := |s.spks|;
    RequestsOneMore(s.queue, Some(id));
    var ids := InHand(s.worker) + Requests(s.queue);
    assert ids + [id] == InHand(s.worker) + (Requests(s.queue) + [id]);
    assert id !in ids;
    DistinctOneMore<nat>(ids, id);
  }

  lemma StepStaysApart(s: State, step: Step)
    requires Placed(s)
    ensures Apart(Next(s, step))
  {
    hide AfterFire, Fail, Delivered, Distinct, Requests, NoneForgotten;
    PlacedMeansAligned(s);
    match step
    case Submit(spk) => SubmitStaysApart(s, spk);
    case Cancel(id) =>
    case Take => TakeStaysApart(s);
    case Fire => if s.worker.Collecting? { FireStaysApart(s, s.worker.batch); }
    case Answered(answer) =>
    case Close => RequestsOneMore(s.queue, None); assert Requests(s.queue) + [] == Requests(s.queue);
    case Drain => DrainStaysApart(s);
  }

  lemma DrainStaysApart(s: State)
    requires Placed(s)
    ensures Apart(Next(s, Drain))
  {
    NoRequests();
    hide Requests;
    assert InHand(s.worker) + [] == InHand(s.worker);
    forall i, j | 0 <= i < j < |InHand(s.worker)| ensures InHand(s.worker)[i] != InHand(s.worker)[j] {
      var ids := InHand(s.worker) + Requests(s.queue);
      assert ids[i] == InHand(s.worker)[i] && ids[j] == InHand(s.worker)[j];
    }
  }

  lemma PlacedMeansAligned(s: State)
    requires Placed(s)
    ensures |s.spks| == |s.futures|
  {
  }

  lemma UsualKeepsPlaced(s: State, step: Step)
    requires Placed(s)
    ensures Placed(Next(s, step))
  {
    hide Next, NoneForgotten, Requests, Distinct;
    PlacedMeansAligned(s);
    ApartMeans(InHand(s.worker), Requests(s.queue));
    StepForgetsNone(s, step);
    StepStaysApart(s, step);
  }

  lemma LateKeepsPlaced(s: State, late: LateStep)
    requires Placed(s)
    ensures Placed(NextLate(s, late))
  {
    match late
    case Usual(step) =>
      hide Next, NoneForgotten, Apart;
      UsualKeepsPlaced(s, step);
    case PutLate(spk) =>
      hide Requests, Distinct;
      UsualKeepsPlaced(s.(closed := false), Submit(spk));
  }

  function RunLate(s: State, steps: seq<LateStep>): State
    requires Placed(s)
    decreases |steps|
  {
    if steps == [] then s else
    LateKeepsPlaced(s, steps[0]);
    RunLate(NextLate(s, steps[0]), steps[1..])
  }

  lemma {:induction false} StartIsPlaced(batchMax: int, queueMax: int)
    ensures Placed(Start(batchMax, queueMax))
  {
  }

  /** Late puts and all, in any interleaving: every request is done, in hand, in flight or in the queue. */
  lemma {:induction false} NoneForgottenLate(s: State, steps: seq<LateStep>, id: nat)
    requires Placed(s) && id < |RunLate(s, steps).futures|
    ensures var end := RunLate(s, steps);
            || Done(end.futures[id]) || id in InHand(end.worker) || id in InFlight(end.worker)
            || id in Requests(end.queue)
    decreases |steps|
  {
    hide NextLate, Requests, InHand, InFlight, Apart;
    if steps != [] {
      LateKeepsPlaced(s, steps[0]);
      NoneForgottenLate(NextLate(s, steps[0]), steps[1..], id);
    }
  }

  // ----- after the drain

  /** What was there at the drain is settled and as it was; nothing since is settled, unless its caller gave up. */
  predicate SettledSince(drained: seq<Future>, s: State) {
    && s.closed && s.worker.Exited? && |s.spks| == |s.futures| && drained <= s.futures
    && (forall id :: 0 <= id < |drained| ==> Done(drained[id]))
    && (forall id :: |drained| <= id < |s.futures| ==> s.futures[id].Pending? || s.futures[id].Cancelled?)
  }

  lemma StepStaysSettled(drained: seq<Future>, s: State, late: LateStep)
    requires SettledSince(drained, s) && late != Usual(Drain)
    ensures SettledSince(drained, NextLate(s, late))
  {
    hide Requests;
  }

  lemma {:induction false} RunStaysSettled(drained: seq<Future>, s: State, steps: seq<LateStep>)
    requires Placed(s) && SettledSince(drained, s) && Usual(Drain) !in steps
    ensures SettledSince(drained, RunLate(s, steps))
    decreases |steps|
  {
    hide NextLate, SettledSince, Apart;
    if steps != [] {
      LateKeepsPlaced(s, steps[0]);
      StepStaysSettled(drained, s, steps[0]);
      RunStaysSettled(drained, NextLate(s, steps[0]), steps[1..]);
    }
  }

  /**
   `close` drains the queue once.  Take the state after that, the worker gone by its own way out, reached with
   any late puts on the way, and let anything but a second drain follow.  A request is settled by the
   supervisor exactly when it was put before the drain: one put after it is pending for ever, or until
   its caller cancels it.
   */
  lemma LatePutIsLostExactly(s: State, steps: seq<LateStep>, id: nat)
    requires Placed(s) && s.closed && s.worker.Exited? && s.queue == [] && Usual(Drain) !in steps
    requires id < |RunLate(s, steps).futures|
    ensures var f := RunLate(s, steps).futures[id];
            if id < |s.futures| then Done(f) && f == s.futures[id] else f.Pending? || f.Cancelled?
  {
    hide RunLate, Apart, Requests;
    NoRequests();
    RunStaysSettled(s.futures, s, steps);
  }

  /** It happens: a caller finds it open, it is closed and drained, and then comes the put. */
  lemma OneLatePut(spk: Bytes)
    ensures var shut := Next(Next(Next(Start(25, 100), Close), Fire), Drain);
            var late := NextLate(shut, PutLate(spk));
            && shut.closed && shut.worker.Exited? && shut.queue == []
            && late.queue == [Some(0)] && late.futures == [Pending]
  {
    hide Requests;
    assert Next(Start(25, 100), Close).closed;
  }
}
