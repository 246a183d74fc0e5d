/** What each step of the scan queue does to the queue and to each future, by the names of the steps alone. */
module ScanSteps {
  import opened Wrappers
  import opened ByteStrings
  import opened ScanSpec
  import opened ScanProofs

  // ----- getting in

  /** A request is taken in exactly while the supervisor is open and the queue, if it is bounded, has room. */
  lemma AcceptedExactly(s: State, spk: Bytes)
    requires |s.spks| == |s.futures|
    ensures var s' := Next(s, Submit(spk));
            if !s.closed && (s.queueMax <= 0 || |s.queue| < s.queueMax)
            then s' == s.(spks := s.spks + [spk], futures := s.futures + [Pending], queue := s.queue + [Some(|s.spks|)])
            else s' == s
  {
  }

  ghost predicate WithinBound(s: State) {
    s.queueMax > 0 ==> |s.queue| <= s.queueMax
  }

  /** Nothing else makes the queue longer, the sentinel included. */
  lemma StepStaysWithinBound(s: State, step: Step)
    requires WithinBound(s) && |s.spks| == |s.futures|
    ensures WithinBound(Next(s, step)) && Next(s, step).queueMax == s.queueMax
  {
    hide Fail, LiveOf, Begun, Requests, Delivered, FailureOf, Uncaught;
  }

  lemma {:induction false} QueueIsBounded(s: State, steps: seq<Step>)
    requires Valid(s) && WithinBound(s)
    ensures WithinBound(Run(s, steps)) && Run(s, steps).queueMax == s.queueMax
    decreases |steps|
  {
    hide Next, Valid, WithinBound;
    if steps != [] {
      ValidMeansAligned(s);
      StepStaysWithinBound(s, steps[0]);
      StepKeepsValid(s, steps[0]);
      QueueIsBounded(Next(s, steps[0]), steps[1..]);
    }
  }

  // ----- collecting

  /** A backlog is taken until the worker has gone on to something else, the queue is dry or the batch is full. */
  lemma {:induction false} TakesUntil(s: State)
    requires |s.spks| == |s.futures| && s.worker.Collecting?
    ensures var s' := TakesAll(s);
            s'.worker.Collecting? ==> s'.queue == [] || (s'.worker.batch != [] && |s'.worker.batch| >= s.batchMax)
    decreases |s.queue|
  {
    hide Fail, LiveOf, Begun;
    if s.worker.Collecting? && s.queue != [] && (s.worker.batch == [] || |s.worker.batch| < s.batchMax) {
      TakenStaysAligned(s);
      if Next(s, Take).worker.Collecting? {
        TakesUntil(Next(s, Take));
      }
    }
  }

  lemma TakenStaysAligned(s: State)
    requires |s.spks| == |s.futures|
    ensures var s' := Next(s, Take);
            |s'.spks| == |s'.futures| && s'.batchMax == s.batchMax
    ensures s.worker.Collecting? && s.queue != [] && (s.worker.batch == [] || |s.worker.batch| < s.batchMax) ==>
              |Next(s, Take).queue| < |s.queue|
  {
    hide LiveOf;
  }

  // ----- futures

  /** Collecting ends: by the clock, or at the sentinel. */
  predicate EndsCollecting(s: State, step: Step) {
    && s.worker.Collecting?
    && (step.Fire?
        || (step.Take? && s.queue != [] && s.queue[0].None? && (s.worker.batch == [] || |s.worker.batch| < s.batchMax)))
  }

  /** What becomes of a request that is not done yet, and why. */
  function Fate(s: State, step: Step, id: nat): Future
    requires id < |s.futures| && |s.spks| == |s.futures|
  {
    var f := s.futures[id];
    match step
    case Cancel(which) => if which == id && f.Pending? then Cancelled else f
    case Answered(answer) =>
      if s.worker.Scanning? && id in s.worker.live then
        match answer
        case Rejected(code) => Failed(NodeRejected(code))
        case Unreachable => Failed(NodeUnreachable)
        case NotCompleted => Failed(DidNotComplete)
        case Completed(entries) =>
          (match FirstFault(entries)
           case Some(BadEntry) => Failed(WasMalformed)
           case Some(_) => Running
           case None => Baseline(OwnCoins(entries, s.spks[id])))
        case _ => Running
      else f
    case Drain => if s.closed && id in Requests(s.queue) then Failed(ShutDown) else f
    case _ =>
      if EndsCollecting(s, step) && id in s.worker.batch then
        (if s.closed then Failed(ShutDown) else if f.Pending? then Running else f)
      else f
  }

  /** In every reachable state a step changes a future as that table says, and leaves it alone once it is done. */
  lemma FateIs(s: State, step: Step, id: nat)
    requires Valid(s) && id < |s.futures|
    ensures |Next(s, step).futures| >= |s.futures|
    ensures Next(s, step).futures[id] == if Done(s.futures[id]) then s.futures[id] else Fate(s, step, id)
  {
    hide InOrder, Sized, OwnCoins, Requests, LiveOf, NoteFired, FirstFault;
    if step.Answered? && step.answer.Completed? {
      FaultIsNoUnspent(step.answer.unspents);
    }
  }

  lemma {:induction false} FaultIsNoUnspent(entries: seq<Entry>)
    ensures FirstFault(entries).Some? ==> !FirstFault(entries).value.Found?
  {
    if entries != [] {
      FaultIsNoUnspent(entries[1..]);
    }
  }

  /** The node is asked exactly when some request in hand has not been cancelled, and then for all of those. */
  lemma ScansExactly(s: State, step: Step)
    requires Valid(s) && EndsCollecting(s, step)
    ensures var w := Next(s, step).worker;
            && (w.Exited? <==> s.closed)
            && (w.Scanning? <==> !s.closed && exists id :: id in s.worker.batch && s.futures[id].Pending?)
            && (w.Scanning? ==> forall id :: id in w.live <==> id in s.worker.batch && s.futures[id].Pending?)
            && (!w.Exited? && !w.Scanning? ==> w == Collecting([]))
  {
    hide InOrder, Sized, Requests, LiveOf, NoteFired, Fail, Begun;
    LiveOfIs(s.futures, s.worker.batch);
    var live := LiveOf(s.futures, s.worker.batch);
    if live != [] {
      assert live[0] in live;
    }
  }

  /** Each answer that reaches a scan ends it, and is counted once. */
  lemma AnswersAreCounted(s: State, step: Step)
    requires |s.spks| == |s.futures|
    ensures Next(s, step).batchesRun == s.batchesRun + if step.Answered? && s.worker.Scanning? then 1 else 0
  {
    hide Fail, LiveOf, Begun, Requests, Delivered, FailureOf, Uncaught;
  }
}
