/** Per-topic message counters: what was lost, and whether the record has to be re-checked. */
module SequenceTracking {
  import opened Wrappers

  const UINT32 := 0x1_0000_0000
  const WRAP_MARGIN := 0x1_0000

  datatype AnomalyKind = Gap | Restart | Duplicate

  datatype Anomaly = Anomaly(topic: string, kind: AnomalyKind, lastSeq: int, seqNo: int, missing: int)

  datatype TopicState = TopicState(
    lastSeq: Option<int>, received: nat, missingTotal: nat, gaps: nat, restarts: nat, duplicates: nat)

  const FRESH := TopicState(None, 0, 0, 0, 0, 0)

  predicate InRange(n: int) {
    0 <= n < UINT32
  }

  /** How `next` follows `last` on a 32-bit counter; a jump backwards is a wrap only next to both ends. */
  datatype Verdict = InOrder | Skipped(missing: nat) | Reset | Repeated

  function Judge(last: int, next: int): Verdict
    requires InRange(last) && InRange(next)
  {
    if next == last + 1 then InOrder
    else if next == last then Repeated
    else if next > last then Skipped(next - last - 1)
    else if last >= UINT32 - WRAP_MARGIN && next < WRAP_MARGIN then Skipped(next + UINT32 - last - 1)
    else Reset
  }

  predicate StateValid(s: TopicState) {
    s.lastSeq.Some? ==> InRange(s.lastSeq.value)
  }

  function VerdictOn(s: TopicState, seqNo: int): Verdict
    requires StateValid(s) && InRange(seqNo)
  {
    if s.lastSeq.None? then InOrder else Judge(s.lastSeq.value, seqNo)
  }

  function Advance(s: TopicState, seqNo: int): (s': TopicState)
    requires StateValid(s) && InRange(seqNo)
    ensures StateValid(s')
  {
    var heard := s.(lastSeq := Some(seqNo), received := s.received + 1);
    match VerdictOn(s, seqNo)
    case InOrder => heard
    case Repeated => heard.(duplicates := s.duplicates + 1)
    case Skipped(missing) => heard.(gaps := s.gaps + 1, missingTotal := s.missingTotal + missing)
    case Reset => heard.(restarts := s.restarts + 1)
  }

  datatype Tracker = Tracker(topics: map<string, TopicState>, needsReconciliation: bool)

  predicate TrackerValid(t: Tracker) {
    forall topic :: topic in t.topics ==> StateValid(t.topics[topic])
  }

  function StateOf(t: Tracker, topic: string): TopicState {
    if topic in t.topics then t.topics[topic] else FRESH
  }

  function Observed(t: Tracker, topic: string, seqNo: int): (t': Tracker)
    requires TrackerValid(t) && InRange(seqNo)
    ensures TrackerValid(t')
  {
    var s := StateOf(t, topic);
    var verdict := VerdictOn(s, seqNo);
    Tracker(t.topics[topic := Advance(s, seqNo)], t.needsReconciliation || verdict.Skipped? || verdict.Reset?)
  }

  function AnomalyOf(t: Tracker, topic: string, seqNo: int): Option<Anomaly>
    requires TrackerValid(t) && InRange(seqNo)
  {
    var s := StateOf(t, topic);
    match VerdictOn(s, seqNo)
    case InOrder => None
    case Repeated => Some(Anomaly(topic, Duplicate, s.lastSeq.value, seqNo, 0))
    case Skipped(missing) => Some(Anomaly(topic, Gap, s.lastSeq.value, seqNo, missing))
    case Reset => Some(Anomaly(topic, Restart, s.lastSeq.value, seqNo, 0))
  }

  class SequenceTracker {
    var topics: map<string, TopicState>
    var needsReconciliation: bool

    constructor ()
      ensures Value() == Tracker(map[], false)
    {
      topics, needsReconciliation := map[], false;
    }

    function Value(): Tracker
      reads this
    {
      Tracker(topics, needsReconciliation)
    }

    /** Out of range raises before anything is recorded. */
    method Observe(topic: string, seqNo: int) returns (inRange: bool, anomaly: Option<Anomaly>)
      requires TrackerValid(Value())
      modifies this
      ensures TrackerValid(Value()) && inRange == InRange(seqNo)
      ensures inRange ==> Value() == Observed(old(Value()), topic, seqNo)
      ensures inRange ==> anomaly == AnomalyOf(old(Value()), topic, seqNo)
      ensures !inRange ==> Value() == old(Value()) && anomaly.None?
    {
      if !(0 <= seqNo < UINT32) {
        return false, None;
      }
      var state := if topic in topics then topics[topic] else FRESH;
      var last := state.lastSeq;
      state := state.(received := state.received + 1, lastSeq := Some(seqNo));
      topics := topics[topic := state];
      if last.None? {
        return true, None;
      }
      var delta := seqNo - last.value;
      if delta == 1 {
        return true, None;
      }
      if delta == 0 {
        topics := topics[topic := state.(duplicates := state.duplicates + 1)];
        return true, Some(Anomaly(topic, Duplicate, last.value, seqNo, 0));
      }
      var missing;
      if delta > 1 {
        missing := delta - 1;
      } else if last.value >= UINT32 - WRAP_MARGIN && seqNo < WRAP_MARGIN {
        missing := (seqNo + UINT32 - last.value) - 1;
      } else {
        topics := topics[topic := state.(restarts := state.restarts + 1)];
        needsReconciliation := true;
        return true, Some(Anomaly(topic, Restart, last.value, seqNo, 0));
      }
      topics := topics[topic := state.(gaps := state.gaps + 1, missingTotal := state.missingTotal + missing)];
      needsReconciliation := true;
      return true, Some(Anomaly(topic, Gap, last.value, seqNo, missing));
    }

    method FlagForReconciliation()
      modifies this
      ensures Value() == old(Value()).(needsReconciliation := true)
    {
      needsReconciliation := true;
    }

    method Reconciled()
      modifies this
      ensures Value() == old(Value()).(needsReconciliation := false)
    {
      needsReconciliation := false;
    }
  }

  // ----- one message after another

  /**
   Every verdict, by the numbers.  Going back is a wrap only from the last 65536 numbers to the first 65536;
   otherwise the publisher has started over.
   */
  lemma JudgedExactly(last: int, next: int)
    requires 0 <= last < 0x1_0000_0000 && 0 <= next < 0x1_0000_0000
    ensures Judge(last, next) == InOrder <==> next == last + 1
    ensures Judge(last, next) == Repeated <==> next == last
    ensures Judge(last, next) == Reset <==> next < last && (last < 0xFFFF_0000 || 0x1_0000 <= next)
    ensures forall n: nat :: Judge(last, next) == Skipped(n) <==>
              || (last + 1 < next && n == next - last - 1)
              || (last >= 0xFFFF_0000 && next < 0x1_0000 && n == next + 0x1_0000_0000 - last - 1)
  {
  }

  /** What is reported of a message, if anything: of its topic, with the two numbers, and of which kind. */
  lemma ReportedExactly(t: Tracker, topic: string, last: int, next: int)
    requires TrackerValid(t) && 0 <= next < 0x1_0000_0000 && StateOf(t, topic).lastSeq == Some(last)
    ensures AnomalyOf(t, topic, next) ==
            match Judge(last, next)
            case InOrder => None
            case Repeated => Some(Anomaly(topic, Duplicate, last, next, 0))
            case Skipped(n) => Some(Anomaly(topic, Gap, last, next, n))
            case Reset => Some(Anomaly(topic, Restart, last, next, 0))
  {
  }

  /** The first message of a topic is in order, whatever its number. */
  lemma FirstIsInOrder(t: Tracker, topic: string, next: int)
    requires TrackerValid(t) && InRange(next) && topic !in t.topics
    ensures AnomalyOf(t, topic, next).None?
    ensures Observed(t, topic, next) == t.(topics := t.topics[topic := TopicState(Some(next), 1, 0, 0, 0, 0)])
  {
  }

  predicate Reports(a: Option<Anomaly>, kind: AnomalyKind) {
    a.Some? && a.value.kind == kind
  }

  function OneIf(b: bool): nat {
    if b then 1 else 0
  }

  /** What is counted is what was reported, and gaps and restarts raise the flag. */
  lemma CountsWhatIsReported(t: Tracker, topic: string, seqNo: int)
    requires TrackerValid(t) && InRange(seqNo)
    ensures var a := AnomalyOf(t, topic, seqNo);
            var was, now := StateOf(t, topic), StateOf(Observed(t, topic, seqNo), topic);
            && now.lastSeq == Some(seqNo) && now.received == was.received + 1
            && now.duplicates == was.duplicates + OneIf(Reports(a, Duplicate))
            && now.gaps == was.gaps + OneIf(Reports(a, Gap))
            && now.restarts == was.restarts + OneIf(Reports(a, Restart))
            && now.missingTotal == was.missingTotal + (if a.Some? then a.value.missing else 0)
            && (Observed(t, topic, seqNo).needsReconciliation <==>
                  t.needsReconciliation || Reports(a, Gap) || Reports(a, Restart))
  {
  }

  // ----- a publisher that counts without bound, read through 32 bits

  /** Messages received out of an unbounded count: repeats allowed, each step shorter than a full turn. */
  predicate Received(cs: seq<nat>) {
    forall i :: 0 <= i < |cs| - 1 ==> cs[i] <= cs[i + 1] < cs[i] + UINT32
  }

  function Heard(s: TopicState, cs: seq<nat>): (s': TopicState)
    requires StateValid(s)
    ensures StateValid(s')
    decreases |cs|
  {
    if cs == [] then s else Advance(Heard(s, cs[..|cs| - 1]), cs[|cs| - 1] % UINT32)
  }

  /** One step of the publisher, `d` messages on: right unless it says Reset, and then something was lost. */
  lemma StepJudged(c: nat, d: nat)
    requires d < UINT32
    ensures var verdict := Judge(c % UINT32, (c + d) % UINT32);
            && (verdict == Repeated <==> d == 0)
            && (verdict == InOrder ==> d == 1)
            && (verdict.Skipped? ==> d == verdict.missing + 1)
            && (verdict == Reset ==> d > 1)
            && (d == 1 && verdict != InOrder <==> d == 1 && c % UINT32 == UINT32 - 1)
  {
    var q, r := c / UINT32, c % UINT32;
    assert c == q * UINT32 + r;
    if r + d < UINT32 {
      assert (c + d) % UINT32 == r + d;
    } else {
      assert c + d == (q + 1) * UINT32 + (r + d - UINT32);
      assert (c + d) % UINT32 == r + d - UINT32;
    }
  }

  /** Everything the publisher sent is accounted for, exactly unless a restart was reported and never with a surplus. */
  lemma {:induction false} LossIsAccounted(cs: seq<nat>)
    requires Received(cs) && cs != []
    ensures var s := Heard(FRESH, cs);
            var accounted := s.received - s.duplicates + s.missingTotal;
            && s.lastSeq == Some(cs[|cs| - 1] % UINT32)
            && s.received == |cs| && s.duplicates < |cs|
            && cs[0] + accounted <= cs[|cs| - 1] + 1
            && (cs[0] + accounted == cs[|cs| - 1] + 1 <==> s.restarts == 0)
    decreases |cs|
  {
    hide Judge;
    var last := |cs| - 1;
    if last == 0 {
      assert Heard(FRESH, cs[..0]) == FRESH;
    } else {
      var before := cs[..last];
      LossIsAccounted(before);
      assert cs[last - 1] <= cs[last - 1 + 1];
      StepJudged(cs[last - 1], cs[last] - cs[last - 1]);
      assert before[0] == cs[0] && before[|before| - 1] == cs[last - 1];
    }
  }

  // ----- the tracker over interleaved topics

  datatype Arrival = Arrival(topic: string, seqNo: int)

  predicate AllInRange(ms: seq<Arrival>) {
    forall i :: 0 <= i < |ms| ==> InRange(ms[i].seqNo)
  }

  function Tracked(t: Tracker, ms: seq<Arrival>): (t': Tracker)
    requires TrackerValid(t) && AllInRange(ms)
    ensures TrackerValid(t')
    decreases |ms|
  {
    if ms == [] then t else
    var m := ms[|ms| - 1];
    Observed(Tracked(t, ms[..|ms| - 1]), m.topic, m.seqNo)
  }

  /** Whether the message at `i`, coming right after another of its topic, follows it by exactly one or repeats it. */
  ghost predicate Follows(t: Tracker, ms: seq<Arrival>, i: nat)
    requires TrackerValid(t) && AllInRange(ms) && i < |ms|
  {
    var verdict := VerdictOn(StateOf(Tracked(t, ms[..i]), ms[i].topic), ms[i].seqNo);
    verdict.InOrder? || verdict.Repeated?
  }

  /** The flag is up iff it was, or some message broke its topic's order: no later clean message takes it down. */
  lemma {:induction false} FlagIsSticky(t: Tracker, ms: seq<Arrival>)
    requires TrackerValid(t) && AllInRange(ms)
    ensures Tracked(t, ms).needsReconciliation <==>
            t.needsReconciliation || exists i :: 0 <= i < |ms| && !Follows(t, ms, i)
    decreases |ms|
  {
    if ms != [] {
      var last := |ms| - 1;
      var before := ms[..last];
      FlagIsSticky(t, before);
      forall i | 0 <= i < last ensures Follows(t, before, i) == Follows(t, ms, i) {
        assert before[..i] == ms[..i];
      }
      assert Tracked(t, ms).needsReconciliation <==> Tracked(t, before).needsReconciliation || !Follows(t, ms, last);
      if Tracked(t, before).needsReconciliation && !t.needsReconciliation {
        var i :| 0 <= i < |before| && !Follows(t, before, i);
        assert !Follows(t, ms, i);
      }
      if i :| 0 <= i < |ms| && !Follows(t, ms, i) {
        assert i < last ==> !Follows(t, before, i);
      }
    }
  }

  /** A topic's counters see that topic's messages and no others. */
  lemma OtherTopicsDoNotInterfere(t: Tracker, topic: string, other: string, seqNo: int)
    requires TrackerValid(t) && InRange(seqNo)
    ensures StateOf(Observed(t, other, seqNo), topic)
         == if topic == other then Advance(StateOf(t, topic), seqNo) else StateOf(t, topic)
  {
  }

  /**
   A message that skipped others always raises the flag, and the flag goes up with nothing lost
   only when the counter goes from its last value straight to zero.
   */
  lemma FlagRaisedExactly(t: Tracker, topic: string, c: nat, d: nat)
    requires TrackerValid(t) && d < UINT32 && StateOf(t, topic).lastSeq == Some(c % UINT32)
    ensures Observed(t, topic, (c + d) % UINT32).needsReconciliation <==>
            t.needsReconciliation || d > 1 || (d == 1 && c % UINT32 == UINT32 - 1)
  {
    StepJudged(c, d);
  }

  /** The counter's last value and then zero, nothing lost: reported as a gap of nothing, and the flag goes up. */
  lemma WrapIsReportedAsAGap(t: Tracker, topic: string)
    requires TrackerValid(t) && StateOf(t, topic).lastSeq == Some(UINT32 - 1)
    ensures AnomalyOf(t, topic, 0) == Some(Anomaly(topic, Gap, UINT32 - 1, 0, 0))
    ensures Observed(t, topic, 0).needsReconciliation
  {
  }
}
