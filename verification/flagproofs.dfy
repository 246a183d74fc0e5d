/** The reconciliation flag over whole runs of the engine, the clearing of it included. */
module FlagProofs {
  import opened MatchSpec
  import opened SequenceTracking
  import opened Reconcile
  import opened StreamSpec
  import opened IngestRuns

  datatype Mark = Raises | Clears | Leaves

  /** The message does not follow the last one of its topic. */
  predicate BreaksOrder(t: Tracker, m: Message)
    requires TrackerValid(t) && InRange(m.seqNo)
  {
    var verdict := VerdictOn(StateOf(t, m.topic), m.seqNo);
    !verdict.InOrder? && !verdict.Repeated?
  }

  /** What one message does to the flag. */
  function MarkOf(s: Setting, e: Engine, m: Message): Mark
    requires EngineValid(e)
  {
    if !InRange(m.seqNo) then Leaves
    else if s.follows && BringsBlock(s, m) then (if Handle(s, e, m).outcome.Raised? then Raises else Clears)
    else if (m.topic == TOPIC_BLOCK && s.parseBlock(m.body).MalformedBlock?) || BreaksOrder(e.tracker, m) then Raises
    else Leaves
  }

  lemma FlagAfterOne(s: Setting, e: Engine, m: Message)
    requires EngineValid(e)
    ensures Handle(s, e, m).engine.tracker.needsReconciliation
         == match MarkOf(s, e, m)
            case Raises => true
            case Clears => false
            case Leaves => e.tracker.needsReconciliation
  {
    hide PlanFor, ConfirmAll, TxsOf, MatchOf, NoteOutputs, Announce;
    if s.follows && BringsBlock(s, m) {
      FlagAfterABlock(s, e, m);
    }
  }

  /** What the i-th message of a run does to it, in the state it finds. */
  function MarkAt(s: Setting, e: Engine, ms: seq<Message>, i: nat): Mark
    requires EngineValid(e) && i < |ms|
  {
    MarkOf(s, RunAll(s, e, ms[..i]).engine, ms[i])
  }

  lemma MarkShifts(s: Setting, e: Engine, ms: seq<Message>, i: nat)
    requires EngineValid(e) && 0 < i < |ms|
    ensures MarkAt(s, e, ms, i) == MarkAt(s, Handle(s, e, ms[0]).engine, ms[1..], i - 1)
  {
    hide Handle, MarkOf;
    assert ms[..i][1..] == ms[1..][..i - 1];
  }

  /** Nothing from position `from` on takes it down. */
  ghost predicate NeverCleared(s: Setting, e: Engine, ms: seq<Message>, from: nat)
    requires EngineValid(e)
  {
    forall j :: from <= j < |ms| ==> MarkAt(s, e, ms, j) != Clears
  }

  ghost predicate RaisedForGood(s: Setting, e: Engine, ms: seq<Message>, i: nat)
    requires EngineValid(e)
  {
    i < |ms| && MarkAt(s, e, ms, i) == Raises && NeverCleared(s, e, ms, i + 1)
  }

  lemma NeverClearedShifts(s: Setting, e: Engine, ms: seq<Message>, from: nat)
    requires EngineValid(e) && ms != []
    ensures NeverCleared(s, e, ms, from + 1) <==> NeverCleared(s, Handle(s, e, ms[0]).engine, ms[1..], from)
  {
    hide Handle, MarkAt;
    var e', rest := Handle(s, e, ms[0]).engine, ms[1..];
    forall j: nat | j < |rest| ensures MarkAt(s, e', rest, j) == MarkAt(s, e, ms, j + 1) {
      MarkShifts(s, e, ms, j + 1);
    }
    if NeverCleared(s, e', rest, from) {
      forall j | from + 1 <= j < |ms| ensures MarkAt(s, e, ms, j) != Clears {
        assert MarkAt(s, e', rest, j - 1) != Clears;
      }
    }
  }

  /**
   After any run the flag is up exactly when some message raised it and no block applied after that took it
   down, or it was up before and no block took it down.
   */
  lemma {:induction false} FlagAtTheEndExactly(s: Setting, e: Engine, ms: seq<Message>)
    requires EngineValid(e)
    ensures RunAll(s, e, ms).engine.tracker.needsReconciliation <==>
            || (exists i: nat :: RaisedForGood(s, e, ms, i))
            || (e.tracker.needsReconciliation && NeverCleared(s, e, ms, 0))
    decreases |ms|
  {
    hide Handle, MarkAt, NeverCleared;
    if ms == [] {
      NothingClears(s, e);
    } else {
      var e', rest := Handle(s, e, ms[0]).engine, ms[1..];
      FlagAtTheEndExactly(s, e', rest);
      FirstMark(s, e, ms);
      FlagAfterOne(s, e, ms[0]);
      NeverClearedShifts(s, e, ms, 0);
      RaisedShifts(s, e, ms);
    }
  }

  lemma RaisedShifts(s: Setting, e: Engine, ms: seq<Message>)
    requires EngineValid(e) && ms != []
    ensures (exists i: nat :: RaisedForGood(s, e, ms, i)) <==>
            || (MarkAt(s, e, ms, 0) == Raises && NeverCleared(s, e, ms, 1))
            || exists i: nat :: RaisedForGood(s, Handle(s, e, ms[0]).engine, ms[1..], i)
  {
    hide Handle, MarkAt, NeverCleared;
    var e', rest := Handle(s, e, ms[0]).engine, ms[1..];
    forall i: nat ensures RaisedForGood(s, e', rest, i) <==> RaisedForGood(s, e, ms, i + 1) {
      NeverClearedShifts(s, e, ms, i + 1);
      if i < |rest| {
        MarkShifts(s, e, ms, i + 1);
      }
    }
    if i: nat :| RaisedForGood(s, e, ms, i) {
      if i > 0 {
        assert RaisedForGood(s, e', rest, i - 1);
      }
    }
    if i: nat :| RaisedForGood(s, e', rest, i) {
      assert RaisedForGood(s, e, ms, i + 1);
    }
    if MarkAt(s, e, ms, 0) == Raises && NeverCleared(s, e, ms, 1) {
      assert RaisedForGood(s, e, ms, 0);
    }
  }

  lemma NothingClears(s: Setting, e: Engine)
    requires EngineValid(e)
    ensures NeverCleared(s, e, [], 0)
  {
  }

  lemma FirstMark(s: Setting, e: Engine, ms: seq<Message>)
    requires EngineValid(e) && ms != []
    ensures MarkAt(s, e, ms, 0) == MarkOf(s, e, ms[0])
    ensures NeverCleared(s, e, ms, 0) <==> MarkAt(s, e, ms, 0) != Clears && NeverCleared(s, e, ms, 1)
  {
    hide MarkOf;
    assert ms[..0] == [];
  }
}
