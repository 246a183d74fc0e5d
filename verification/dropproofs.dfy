/** Against a node that serves one chain, or fails, it does not matter which blocks the stream dropped. */
module DropProofs {
  import opened Wrappers
  import opened ByteStrings
  import opened MatchSpec
  import opened RecordProofs
  import opened SequenceTracking
  import opened Blocks
  import opened Reconcile
  import opened StreamSpec
  import opened Stream
  import opened IngestRuns

  /** Blocks linked parent to child, no hash twice, nothing on the chain before its first block. */
  ghost predicate IsChain(chain: seq<Block>) {
    && (forall j :: 0 < j < |chain| ==> chain[j].prevHash == chain[j - 1].blockHash)
    && (forall i, j :: 0 <= i < j < |chain| ==> chain[i].blockHash != chain[j].blockHash)
    && (forall j :: 0 <= j < |chain| ==> chain[j].blockHash != chain[0].prevHash)
  }

  predicate Fails(a: Answer) {
    a.Refused? || a.Unreachable? || a.CallRaised?
  }

  /** Not a reorg, nor bytes the parser breaks on. */
  predicate NodeFailed(why: Failure) {
    why.CatchUpFailed? || why.Escaped?
  }

  predicate Describes(a: Answer, height: int) {
    a.Object? && a.height == Number(height) && a.confirmations.Number? && a.confirmations.value >= 0
  }

  predicate Serves(parse: Bytes -> BlockResult, a: Answer, b: Block) {
    a.Text? && a.hex.Some? && parse(a.hex.value) == Accepted(b)
  }

  /** About block j of the chain, asked by hash at call n or by height at calls n and m, it answers truly or fails. */
  predicate TrueOrFailingOn(s: Setting, chain: seq<Block>, base: int, n: nat, m: nat, j: nat)
    requires j < |chain|
  {
    var described := s.node(n, Describe(chain[j].blockHash));
    var handle := s.node(n, BlockHashAt(base + j));
    var raw := s.node(m, RawBlock(handle));
    && (Fails(described) || Describes(described, base + j))
    && (Fails(handle) || Fails(raw) || Serves(s.parseBlock, raw, chain[j]))
  }

  /** `base` is the height of the first block. */
  ghost predicate TrueOrFailing(s: Setting, chain: seq<Block>, base: int) {
    forall n, m, j :: 0 <= j < |chain| ==> TrueOrFailingOn(s, chain, base, n, m, j)
  }

  predicate AnswersOn(s: Setting, chain: seq<Block>, base: int, n: nat, m: nat, j: nat)
    requires j < |chain|
  {
    var handle := s.node(n, BlockHashAt(base + j));
    !Fails(s.node(n, Describe(chain[j].blockHash))) && !Fails(handle) && !Fails(s.node(m, RawBlock(handle)))
  }

  /** It answers what it is asked about the blocks of the chain; about anything else it may refuse. */
  ghost predicate Answers(s: Setting, chain: seq<Block>, base: int) {
    forall n, m, j :: 0 <= j < |chain| ==> AnswersOn(s, chain, base, n, m, j)
  }

  ghost function IndexOf(chain: seq<Block>, hash: Hash): Option<nat> {
    if j: nat :| j < |chain| && chain[j].blockHash == hash then Some(j) else None
  }

  /** A node that has the chain, each block as `raws` writes it, and refuses everything else. */
  ghost function Honest(chain: seq<Block>, raws: seq<Bytes>, base: int): Node
    requires |raws| == |chain|
  {
    (n: nat, request: Request) =>
      match request
      case Describe(hash) =>
        var at := IndexOf(chain, hash);
        if at.Some? then Object(Number(base + at.value), Number(|chain| - at.value)) else Refused(-5)
      case BlockHashAt(height) =>
        if base <= height < base + |chain| then Text(Some(chain[height - base].blockHash)) else Refused(-8)
      case RawBlock(Text(Some(hash))) =>
        var at := if |hash| == 32 then IndexOf(chain, hash) else None;
        if at.Some? then Text(Some(raws[at.value])) else Refused(-5)
      case _ => Refused(-5)
  }

  /** So every chain has a node that answers truly. */
  lemma HonestIsTrue(s: Setting, chain: seq<Block>, raws: seq<Bytes>, base: int)
    requires IsChain(chain) && |raws| == |chain| && s.node == Honest(chain, raws, base)
    requires forall j :: 0 <= j < |chain| ==> s.parseBlock(raws[j]) == Accepted(chain[j])
    ensures TrueOrFailing(s, chain, base) && Answers(s, chain, base)
  {
    forall n: nat, m: nat, j | 0 <= j < |chain|
      ensures TrueOrFailingOn(s, chain, base, n, m, j) && AnswersOn(s, chain, base, n, m, j)
    {
      assert IndexOf(chain, chain[j].blockHash) == Some(j);
    }
  }

  /** The blocks from index `from` up to but not including `to`, at their heights. */
  function Stretch(chain: seq<Block>, base: int, from: nat, to: nat): seq<Due>
    requires from <= to <= |chain|
  {
    AtHeights(chain[from..to], base + from)
  }

  predicate AtIndex(f: Follower, chain: seq<Block>, base: int, t: nat) {
    t < |chain| && f.tip == Some(Tip(chain[t].blockHash, base + t))
  }

  /** A fetch on the chain gets the right block or fails. */
  lemma FetchOnChain(s: Setting, chain: seq<Block>, base: int, n: nat, j: nat)
    requires TrueOrFailing(s, chain, base) && j < |chain|
    ensures var r := Fetch(s.parseBlock, s.node, n, base + j);
            (if r.Got? then r.value == chain[j] else NodeFailed(r.why)) && (Answers(s, chain, base) ==> r.Got?)
  {
    assert TrueOrFailingOn(s, chain, base, n, n + 1, j);
    assert Answers(s, chain, base) ==> AnswersOn(s, chain, base, n, n + 1, j);
  }

  lemma {:induction false} FetchRunOnChain(s: Setting, chain: seq<Block>, base: int, n: nat, t: nat, count: nat)
    requires IsChain(chain) && TrueOrFailing(s, chain, base) && t + count < |chain|
    ensures var run := FetchRun(s.parseBlock, s.node, n, chain[t].blockHash, base + t + 1, count);
            && (if run.failure.None? then run.blocks == chain[t + 1..t + 1 + count] else NodeFailed(run.failure.value))
            && (Answers(s, chain, base) ==> run.failure.None?)
    decreases count
  {
    hide TrueOrFailing, Answers, Fetch;
    if count > 0 {
      FetchOnChain(s, chain, base, n, t + 1);
      var got := Fetch(s.parseBlock, s.node, n, base + (t + 1));
      if got.Got? {
        FetchRunOnChain(s, chain, base, got.calls, t + 1, count - 1);
        assert chain[t + 1..t + 1 + count] == [chain[t + 1]] + chain[t + 2..t + 1 + count];
      }
    }
  }

  /** What can be owed when block j arrives at tip t: the tip again, its child, or a gap within the ceiling. */
  predicate InReach(t: nat, j: nat, ceiling: int) {
    j == t || j == t + 1 || t < j <= t + 1 + ceiling
  }

  /**
   What a plan says when block j of the chain arrives at a follower whose tip is block t.  A reorg is
   never reported on the way forward; a node that answers about the chain makes every outcome exact.
   */
  ghost predicate PlanIsTrue(s: Setting, chain: seq<Block>, base: int, ceiling: int, t: nat, j: nat, plan: Plan)
    requires t < |chain| && j < |chain|
  {
    && (plan.Owed? ==> t <= j && plan.due == Stretch(chain, base, t + 1, j + 1))
    && (plan.Cannot? && t < j ==> NodeFailed(plan.why) && (Answers(s, chain, base) ==> plan.why == CatchUpFailed))
    && (Answers(s, chain, base) ==>
        (plan.Owed? <==> InReach(t, j, ceiling)) && (j < t ==> plan == Cannot(ReorgDetected)))
  }

  /** A block of the chain arrives at a follower whose tip is on it. */
  lemma PlanOnChain(s: Setting, chain: seq<Block>, base: int, f: Follower, t: nat, j: nat)
    requires IsChain(chain) && TrueOrFailing(s, chain, base) && t < |chain| && j < |chain| && AtIndex(f, chain, base, t)
    ensures var plan := PlanFor(s.parseBlock, s.node, f, chain[j]).1;
            PlanIsTrue(s, chain, base, f.maxCatchUp, t, j, plan) && (j == t || j == t + 1 ==> plan.Owed?)
  {
    hide TrueOrFailing, Answers, GapPlan;
    if j == t + 1 {
      assert chain[j].prevHash == chain[j - 1].blockHash;
      assert chain[t + 1..j + 1] == [chain[j]];
      assert Stretch(chain, base, t + 1, j + 1) == [Due(chain[j], base + t + 1)];
    } else if j == t {
      TipIsNotItsOwnParent(chain, t);
      assert chain[t + 1..j + 1] == [];
    } else {
      NotAChildNorTheTip(chain, t, j);
      GapOnChain(s, chain, base, f, t, j);
    }
  }

  lemma TipIsNotItsOwnParent(chain: seq<Block>, t: nat)
    requires IsChain(chain) && t < |chain|
    ensures chain[t].prevHash != chain[t].blockHash
  {
    if t > 0 {
      assert chain[t - 1].blockHash != chain[t].blockHash;
    }
  }

  lemma NotAChildNorTheTip(chain: seq<Block>, t: nat, j: nat)
    requires IsChain(chain) && t < |chain| && j < |chain| && j != t && j != t + 1
    ensures chain[j].prevHash != chain[t].blockHash && chain[j].blockHash != chain[t].blockHash
  {
    if j > 0 {
      assert chain[j].prevHash == chain[j - 1].blockHash;
      assert j - 1 < t ==> chain[j - 1].blockHash != chain[t].blockHash;
      assert t < j - 1 ==> chain[t].blockHash != chain[j - 1].blockHash;
    }
    assert j < t ==> chain[j].blockHash != chain[t].blockHash;
    assert t < j ==> chain[t].blockHash != chain[j].blockHash;
  }

  /** Neither a child of the tip nor the tip: the node is asked for its height, and then for the gap. */
  lemma GapOnChain(s: Setting, chain: seq<Block>, base: int, f: Follower, t: nat, j: nat)
    requires IsChain(chain) && TrueOrFailing(s, chain, base) && t < |chain| && j < |chain| && AtIndex(f, chain, base, t)
    requires chain[j].prevHash != chain[t].blockHash && chain[j].blockHash != chain[t].blockHash && j != t && j != t + 1
    ensures var plan := PlanFor(s.parseBlock, s.node, f, chain[j]).1;
            PlanIsTrue(s, chain, base, f.maxCatchUp, t, j, plan)
  {
    hide IsChain, GapPlan;
    assert TrueOrFailingOn(s, chain, base, f.calls, 0, j);
    assert Answers(s, chain, base) ==> AnswersOn(s, chain, base, f.calls, 0, j);
    var described := s.node(f.calls, Describe(chain[j].blockHash));
    if Describes(described, base + j) {
      GapPlanOnChain(s, chain, base, f.(catchUps := f.catchUps + 1, calls := f.calls + 1), t, j);
    }
  }

  lemma GapPlanOnChain(s: Setting, chain: seq<Block>, base: int, f: Follower, t: nat, j: nat)
    requires IsChain(chain) && TrueOrFailing(s, chain, base) && t < |chain| && j < |chain| && AtIndex(f, chain, base, t)
    requires j != t && j != t + 1
    ensures var plan := GapPlan(s.parseBlock, s.node, f, Tip(chain[t].blockHash, base + t), chain[j], base + j).1;
            PlanIsTrue(s, chain, base, f.maxCatchUp, t, j, plan)
  {
    hide IsChain, FetchRun;
    assert TrueOrFailingOn(s, chain, base, f.calls, 0, t);
    assert Answers(s, chain, base) ==> AnswersOn(s, chain, base, f.calls, 0, t);
    var described := s.node(f.calls, Describe(chain[t].blockHash));
    if t < j && Describes(described, base + t) {
      hide TrueOrFailing, TrueOrFailingOn;
      var missing := j - t - 1;
      FetchRunOnChain(s, chain, base, f.calls + 1, t, missing);
      ParentOnChain(chain, base, t, j);
      StretchAndOne(chain, base, t, j);
    }
  }

  lemma StretchAndOne(chain: seq<Block>, base: int, t: nat, j: nat)
    requires t < j < |chain|
    ensures Stretch(chain, base, t + 1, j + 1) == AtHeights(chain[t + 1..j], base + t + 1) + [Due(chain[j], base + j)]
  {
  }

  lemma ParentOnChain(chain: seq<Block>, base: int, t: nat, j: nat)
    requires IsChain(chain) && t < j < |chain|
    ensures chain[j].prevHash == LastHash(chain[t + 1..j], Tip(chain[t].blockHash, base + t))
  {
    assert chain[j].prevHash == chain[j - 1].blockHash;
    assert t + 1 < j ==> chain[t + 1..j][j - t - 2] == chain[j - 1];
  }

  // ----- runs

  /** Whatever else arrives, a block that parses is one of the chain. */
  predicate FromChain(s: Setting, chain: seq<Block>, m: Message) {
    BringsBlock(s, m) ==> s.parseBlock(m.body).block in chain
  }

  /** `applied` is blocks `a` to `t` of the chain; `a` comes right after the tip before, `t` is the tip after. */
  predicate Covers(
    chain: seq<Block>, base: int, before: Option<Tip>, applied: seq<Due>, after: Option<Tip>, a: nat, t: nat)
  {
    && a <= t < |chain| && applied == Stretch(chain, base, a, t + 1) && after == Some(Tip(chain[t].blockHash, base + t))
    && (before.Some? ==> 0 < a && before == Some(Tip(chain[a - 1].blockHash, base + a - 1)))
  }

  /** Applied so far: nothing, or an unbroken stretch of the chain ending at the tip. */
  ghost predicate OnChain(chain: seq<Block>, base: int, before: Option<Tip>, applied: seq<Due>, after: Option<Tip>) {
    (applied == [] && after == before) || exists a: nat, t: nat :: Covers(chain, base, before, applied, after, a, t)
  }

  ghost predicate TipOnChain(chain: seq<Block>, base: int, tip: Option<Tip>) {
    tip.Some? ==> exists t :: 0 <= t < |chain| && tip == Some(Tip(chain[t].blockHash, base + t))
  }

  /** What a delivery that succeeds applies. */
  lemma OwedOnChain(s: Setting, chain: seq<Block>, base: int, f: Follower, j: nat)
    requires IsChain(chain) && TrueOrFailing(s, chain, base) && TipOnChain(chain, base, f.tip) && j < |chain|
    ensures var plan := PlanFor(s.parseBlock, s.node, f, chain[j]).1;
            plan.Owed? ==>
              && OnChain(chain, base, f.tip, plan.due, TipAfter(f.tip, plan.due))
              && TipOnChain(chain, base, TipAfter(f.tip, plan.due))
  {
    hide IsChain, TrueOrFailing, PlanFor, Answers, Stretch, TipAfter;
    var plan := PlanFor(s.parseBlock, s.node, f, chain[j]).1;
    if f.tip.None? {
      FirstOnChain(s, chain, base, f, j);
      StretchEnds(chain, base, f.tip, j, j + 1);
      assert plan.Owed? ==> Covers(chain, base, f.tip, plan.due, TipAfter(f.tip, plan.due), j, j);
    } else {
      var t :| 0 <= t < |chain| && f.tip == Some(Tip(chain[t].blockHash, base + t));
      PlanOnChain(s, chain, base, f, t, j);
      if plan.Owed? {
        StretchEnds(chain, base, f.tip, t + 1, j + 1);
        if t < j {
          assert Covers(chain, base, f.tip, plan.due, TipAfter(f.tip, plan.due), t + 1, j);
        }
      }
    }
  }

  lemma StretchEnds(chain: seq<Block>, base: int, tip: Option<Tip>, from: nat, to: nat)
    requires from <= to <= |chain|
    ensures if from == to then Stretch(chain, base, from, to) == [] && TipAfter(tip, []) == tip
            else TipAfter(tip, Stretch(chain, base, from, to)) == Some(Tip(chain[to - 1].blockHash, base + to - 1))
  {
  }

  lemma HandleOnChain(s: Setting, chain: seq<Block>, base: int, e: Engine, m: Message)
    requires IsChain(chain) && TrueOrFailing(s, chain, base) && s.follows
    requires EngineValid(e) && TipOnChain(chain, base, e.follower.tip) && FromChain(s, chain, m)
    ensures var h := Handle(s, e, m);
            OnChain(chain, base, e.follower.tip, h.applied, h.engine.follower.tip)
            && TipOnChain(chain, base, h.engine.follower.tip)
  {
    hide IsChain, TrueOrFailing, PlanFor, ConfirmAll, TxsOf, MatchOf, NoteOutputs, Announce, Observed, OnChain,
        TipOnChain, TipAfter;
    StayingPut(chain, base, e.follower.tip);
    if InRange(m.seqNo) && m.topic == TOPIC_BLOCK && s.parseBlock(m.body).Accepted? {
      var b := s.parseBlock(m.body).block;
      var j :| 0 <= j < |chain| && chain[j] == b;
      PlanLinked(s.parseBlock, s.node, e.follower, b);
      OwedOnChain(s, chain, base, e.follower, j);
    }
  }

  /** The first block a fresh follower applies is the one that arrived, at the height the node gives it. */
  lemma FirstOnChain(s: Setting, chain: seq<Block>, base: int, f: Follower, j: nat)
    requires TrueOrFailing(s, chain, base) && f.tip.None? && j < |chain|
    ensures var plan := PlanFor(s.parseBlock, s.node, f, chain[j]).1;
            && (plan.Owed? ==> plan.due == Stretch(chain, base, j, j + 1))
            && (Answers(s, chain, base) ==> plan.Owed?)
  {
    assert TrueOrFailingOn(s, chain, base, f.calls, 0, j);
    assert Answers(s, chain, base) ==> AnswersOn(s, chain, base, f.calls, 0, j);
    assert chain[j..j + 1] == [chain[j]];
  }

  lemma CoversJoined(
    chain: seq<Block>, base: int, before: Option<Tip>, x: seq<Due>, mid: Option<Tip>, y: seq<Due>, after: Option<Tip>,
    a: nat, t: nat, a': nat, t': nat)
    requires Covers(chain, base, before, x, mid, a, t) && Covers(chain, base, mid, y, after, a', t')
    ensures Covers(chain, base, before, x + y, after, a, t')
  {
    hide Stretch;
    assert mid.value.height == base + t && mid.value.height == base + a' - 1;
    StretchJoined(chain, base, a, t + 1, t' + 1);
  }

  lemma StretchJoined(chain: seq<Block>, base: int, from: nat, mid: nat, to: nat)
    requires from <= mid <= to <= |chain|
    ensures Stretch(chain, base, from, mid) + Stretch(chain, base, mid, to) == Stretch(chain, base, from, to)
  {
  }

  lemma OnChainJoined(
    chain: seq<Block>, base: int, before: Option<Tip>, x: seq<Due>, mid: Option<Tip>, y: seq<Due>, after: Option<Tip>)
    requires OnChain(chain, base, before, x, mid) && OnChain(chain, base, mid, y, after)
    ensures OnChain(chain, base, before, x + y, after)
  {
    hide Covers;
    assert [] + y == y && x + [] == x;
    if x == [] {
      AppliedNothing(chain, base, before, mid);
    } else if y == [] {
      AppliedNothing(chain, base, mid, after);
    } else {
      var a: nat, t: nat :| Covers(chain, base, before, x, mid, a, t);
      var a': nat, t': nat :| Covers(chain, base, mid, y, after, a', t');
      CoversJoined(chain, base, before, x, mid, y, after, a, t, a', t');
    }
  }

  lemma AppliedNothing(chain: seq<Block>, base: int, before: Option<Tip>, after: Option<Tip>)
    requires OnChain(chain, base, before, [], after)
    ensures before == after
  {
    hide Stretch;
    if a: nat, t: nat :| Covers(chain, base, before, [], after, a, t) {
      StretchBegins(chain, base, a, t + 1);
    }
  }

  /** However deliveries were dropped, repeated, reordered or failed, what was applied is one stretch of the chain. */
  lemma {:induction false} RunOnChain(s: Setting, chain: seq<Block>, base: int, e: Engine, ms: seq<Message>)
    requires IsChain(chain) && TrueOrFailing(s, chain, base) && s.follows
    requires EngineValid(e) && TipOnChain(chain, base, e.follower.tip) && forall m :: m in ms ==> FromChain(s, chain, m)
    ensures var r := RunAll(s, e, ms);
            && OnChain(chain, base, e.follower.tip, r.applied, r.engine.follower.tip)
            && TipOnChain(chain, base, r.engine.follower.tip)
    decreases |ms|
  {
    hide IsChain, TrueOrFailing, Handle, FromChain, TipOnChain, OnChain;
    StayingPut(chain, base, e.follower.tip);
    if ms != [] {
      var h := Handle(s, e, ms[0]);
      HandleOnChain(s, chain, base, e, ms[0]);
      RunOnChain(s, chain, base, h.engine, ms[1..]);
      var rest := RunAll(s, h.engine, ms[1..]);
      OnChainJoined(chain, base, e.follower.tip, h.applied, h.engine.follower.tip, rest.applied,
          rest.engine.follower.tip);
    }
  }

  lemma StayingPut(chain: seq<Block>, base: int, tip: Option<Tip>)
    ensures OnChain(chain, base, tip, [], tip)
  {
  }

  /** Where a stretch begins and ends is all there is to it. */
  lemma OnChainDetermined(
    chain: seq<Block>, base: int, before: Option<Tip>, x: seq<Due>, y: seq<Due>, after: Option<Tip>)
    requires OnChain(chain, base, before, x, after) && OnChain(chain, base, before, y, after)
    requires before.None? && x != [] && y != [] ==> x[0] == y[0]
    ensures x == y
  {
    hide Covers;
    if x == [] {
      AppliedNothing(chain, base, before, after);
    }
    if y == [] {
      AppliedNothing(chain, base, before, after);
    }
    if x != [] {
      var a: nat, t: nat :| Covers(chain, base, before, x, after, a, t);
      CoversGoesOn(chain, base, before, x, after, a, t);
      if y != [] {
        var a': nat, t': nat :| Covers(chain, base, before, y, after, a', t');
        CoversDetermined(chain, base, before, x, y, after, a, t, a', t');
      }
    } else if y != [] {
      var a: nat, t: nat :| Covers(chain, base, before, y, after, a, t);
      CoversGoesOn(chain, base, before, y, after, a, t);
    }
  }

  lemma CoversGoesOn(chain: seq<Block>, base: int, before: Option<Tip>, x: seq<Due>, after: Option<Tip>, a: nat, t: nat)
    requires Covers(chain, base, before, x, after, a, t)
    ensures before != after
  {
    assert before.Some? ==> before.value.height == base + a - 1;
    assert after.value.height == base + t;
  }

  lemma CoversDetermined(
    chain: seq<Block>, base: int, before: Option<Tip>, x: seq<Due>, y: seq<Due>, after: Option<Tip>,
    a: nat, t: nat, a': nat, t': nat)
    requires Covers(chain, base, before, x, after, a, t) && Covers(chain, base, before, y, after, a', t')
    requires x != [] && y != [] && (before.None? ==> x[0] == y[0])
    ensures x == y
  {
    hide Stretch;
    StretchBegins(chain, base, a, t + 1);
    StretchBegins(chain, base, a', t' + 1);
    assert base + t == base + t';
    assert base + a == base + a';
  }

  lemma StretchBegins(chain: seq<Block>, base: int, from: nat, to: nat)
    requires from < to <= |chain|
    ensures |Stretch(chain, base, from, to)| == to - from
    ensures Stretch(chain, base, from, to)[0] == Due(chain[from], base + from)
  {
  }

  /** Block messages only: then the overlay stays out of it, and the alerts too are those of the applied blocks. */
  predicate BlocksOnly(ms: seq<Message>) {
    forall i :: 0 <= i < |ms| ==> ms[i].topic != TOPIC_TX
  }

  lemma {:induction false} BlockRunLedger(s: Setting, e: Engine, ms: seq<Message>)
    requires EngineValid(e) && BlocksOnly(ms)
    ensures var r := RunAll(s, e, ms);
            var told := ConfirmAll(s.w, e.ledger, TxsOf(r.applied));
            r.engine.ledger == told.ledger && r.alerts == told.alerts
    decreases |ms|
  {
    hide Handle, ConfirmTx;
    if ms != [] {
      var h := Handle(s, e, ms[0]);
      AppliedOrNot(s, e, ms[0]);
      BlockRunLedger(s, h.engine, ms[1..]);
      var rest := RunAll(s, h.engine, ms[1..]).applied;
      TxsOfJoined(h.applied, rest);
      ConfirmJoined(s.w, e.ledger, TxsOf(h.applied), TxsOf(rest));
    }
  }

  /**
   Drop-insensitivity.  Two runs from one state, each against its own node, each with any blocks of
   the chain delivered in any order with any failures and any mempool traffic between them: if they
   began at the same block and reached the same tip, they applied the same blocks and left the same
   record; and if neither saw mempool traffic, the same overlay, seen-set and alerts as well.
   */
  lemma DropInsensitive(
    s: Setting, s': Setting, chain: seq<Block>, base: int, e: Engine, ms: seq<Message>, ms': seq<Message>)
    requires IsChain(chain) && s.follows && s'.follows && s.w == s'.w
    requires TrueOrFailing(s, chain, base) && TrueOrFailing(s', chain, base)
    requires EngineValid(e) && TipOnChain(chain, base, e.follower.tip)
    requires (forall m :: m in ms ==> FromChain(s, chain, m)) && (forall m :: m in ms' ==> FromChain(s', chain, m))
    requires var r, r' := RunAll(s, e, ms), RunAll(s', e, ms');
             && r.engine.follower.tip == r'.engine.follower.tip
             && (e.follower.tip.None? && r.applied != [] && r'.applied != [] ==> r.applied[0] == r'.applied[0])
    ensures var r, r' := RunAll(s, e, ms), RunAll(s', e, ms');
            && r.applied == r'.applied
            && r.engine.ledger.record == r'.engine.ledger.record
            && (BlocksOnly(ms) && BlocksOnly(ms') ==> r.engine.ledger == r'.engine.ledger && r.alerts == r'.alerts)
  {
    hide RunAll, IsChain, TrueOrFailing, FromChain, TipOnChain, OnChain, RecordFold, TxsOf, ConfirmAll, BlocksOnly;
    var r, r' := RunAll(s, e, ms), RunAll(s', e, ms');
    RunOnChain(s, chain, base, e, ms);
    RunOnChain(s', chain, base, e, ms');
    OnChainDetermined(chain, base, e.follower.tip, r.applied, r'.applied, r.engine.follower.tip);
    RunRecord(s, e, ms);
    RunRecord(s', e, ms');
    if BlocksOnly(ms) && BlocksOnly(ms') {
      BlockRunLedger(s, e, ms);
      BlockRunLedger(s', e, ms');
    }
  }

  // ----- any deliveries, failures mixed in

  /** The blocks whose deliveries did not raise, in the order they came. */
  function Arrived(s: Setting, e: Engine, ms: seq<Message>): seq<Block>
    requires EngineValid(e)
    decreases |ms|
  {
    if ms == [] then [] else
    var h := Handle(s, e, ms[0]);
    (if BringsBlock(s, ms[0]) && !h.outcome.Raised? then [s.parseBlock(ms[0].body).block] else [])
    + Arrived(s, h.engine, ms[1..])
  }

  /** A message that brings no block, or raises, leaves the tip and applies nothing. */
  lemma NothingArrives(s: Setting, e: Engine, m: Message)
    requires EngineValid(e) && !(BringsBlock(s, m) && !Handle(s, e, m).outcome.Raised?)
    ensures var h := Handle(s, e, m);
            h.applied == [] && h.engine.follower.tip == e.follower.tip
  {
    hide Handle;
    if BringsBlock(s, m) {
      FailureIsAllOrNothing(s, e, m);
    } else {
      NoDelivery(s, e, m);
    }
  }

  /** A run ends at the last block that arrived, and if none did it goes nowhere. */
  lemma {:induction false} RunEndsAtTheLast(s: Setting, e: Engine, ms: seq<Message>)
    requires EngineValid(e) && s.follows
    ensures var r, a := RunAll(s, e, ms), Arrived(s, e, ms);
            && (a == [] ==> r.applied == [] && r.engine.follower.tip == e.follower.tip)
            && (a != [] ==> r.engine.follower.tip.Some? && r.engine.follower.tip.value.hash == a[|a| - 1].blockHash)
    decreases |ms|
  {
    hide Handle, BringsBlock;
    if ms != [] {
      var h := Handle(s, e, ms[0]);
      RunEndsAtTheLast(s, h.engine, ms[1..]);
      if BringsBlock(s, ms[0]) && !h.outcome.Raised? {
        FlagAfterABlock(s, e, ms[0]);
      } else {
        NothingArrives(s, e, ms[0]);
      }
    }
  }

  /** What a fresh follower applies on its first delivery is that block. */
  lemma FirstArrival(s: Setting, e: Engine, m: Message)
    requires EngineValid(e) && s.follows && BringsBlock(s, m) && !Handle(s, e, m).outcome.Raised?
    requires e.follower.tip.None?
    ensures var applied := Handle(s, e, m).applied;
            |applied| == 1 && applied[0].block == s.parseBlock(m.body).block
  {
    hide ConfirmAll, TxsOf, Observed;
  }

  lemma {:induction false} RunBeginsAtTheFirst(s: Setting, e: Engine, ms: seq<Message>)
    requires EngineValid(e) && s.follows && e.follower.tip.None? && Arrived(s, e, ms) != []
    ensures var applied := RunAll(s, e, ms).applied;
            applied != [] && applied[0].block == Arrived(s, e, ms)[0]
    decreases |ms|
  {
    hide Handle, BringsBlock;
    var h := Handle(s, e, ms[0]);
    if BringsBlock(s, ms[0]) && !h.outcome.Raised? {
      FirstArrival(s, e, ms[0]);
    } else {
      NothingArrives(s, e, ms[0]);
      RunBeginsAtTheFirst(s, h.engine, ms[1..]);
    }
  }

  lemma HashFindsTheBlock(chain: seq<Block>, i: nat, j: nat)
    requires IsChain(chain) && i < |chain| && j < |chain| && chain[i].blockHash == chain[j].blockHash
    ensures i == j
  {
  }

  lemma HashFindsTheTip(chain: seq<Block>, base: int, tip: Option<Tip>, tip': Option<Tip>)
    requires IsChain(chain) && TipOnChain(chain, base, tip) && TipOnChain(chain, base, tip')
    requires tip.Some? && tip'.Some? && tip.value.hash == tip'.value.hash
    ensures tip == tip'
  {
    var t :| 0 <= t < |chain| && tip == Some(Tip(chain[t].blockHash, base + t));
    var t' :| 0 <= t' < |chain| && tip' == Some(Tip(chain[t'].blockHash, base + t'));
    HashFindsTheBlock(chain, t, t');
  }

  /** The first block applied and its height, on a chain: one determines the other. */
  lemma FirstAppliedDetermined(
    chain: seq<Block>, base: int, before: Option<Tip>, x: seq<Due>, after: Option<Tip>, y: seq<Due>,
    after': Option<Tip>)
    requires IsChain(chain) && OnChain(chain, base, before, x, after) && OnChain(chain, base, before, y, after')
    requires x != [] && y != [] && x[0].block == y[0].block
    ensures x[0] == y[0]
  {
    hide Stretch;
    var a: nat, t: nat :| Covers(chain, base, before, x, after, a, t);
    var a': nat, t': nat :| Covers(chain, base, before, y, after', a', t');
    StretchBegins(chain, base, a, t + 1);
    StretchBegins(chain, base, a', t' + 1);
    HashFindsTheBlock(chain, a, a');
  }

  /**
   Drop-insensitivity with failures mixed in.  Two runs from one state, each against its own node, each
   with any blocks of the chain delivered in any order, any of those deliveries failing at any answer of
   the node, and any other messages between.  If, of the deliveries that did not raise, the first (for a
   fresh follower) and the last are the same blocks in both, then the same blocks were applied, and the
   record and the tip are the same; without mempool traffic so are the overlay, the seen-set and the alerts.
   */
  lemma {:induction false} DeliveriesAgree(
    s: Setting, s': Setting, chain: seq<Block>, base: int, e: Engine, ms: seq<Message>, ms': seq<Message>)
    requires IsChain(chain) && s.follows && s'.follows && s.w == s'.w
    requires TrueOrFailing(s, chain, base) && TrueOrFailing(s', chain, base)
    requires EngineValid(e) && TipOnChain(chain, base, e.follower.tip)
    requires (forall m :: m in ms ==> FromChain(s, chain, m)) && (forall m :: m in ms' ==> FromChain(s', chain, m))
    requires var a, a' := Arrived(s, e, ms), Arrived(s', e, ms');
             && (a == [] <==> a' == [])
             && (a != [] ==> a[|a| - 1] == a'[|a'| - 1] && (e.follower.tip.None? ==> a[0] == a'[0]))
    ensures var r, r' := RunAll(s, e, ms), RunAll(s', e, ms');
            && r.applied == r'.applied && r.engine.ledger.record == r'.engine.ledger.record
            && r.engine.follower.tip == r'.engine.follower.tip
    ensures BlocksOnly(ms) && BlocksOnly(ms') ==>
              var r, r' := RunAll(s, e, ms), RunAll(s', e, ms');
              r.engine.ledger == r'.engine.ledger && r.alerts == r'.alerts
  {
    hide RunAll, Arrived, IsChain, TrueOrFailing, FromChain, TipOnChain, OnChain, BlocksOnly;
    var r, r', a := RunAll(s, e, ms), RunAll(s', e, ms'), Arrived(s, e, ms);
    RunOnChain(s, chain, base, e, ms);
    RunOnChain(s', chain, base, e, ms');
    RunEndsAtTheLast(s, e, ms);
    RunEndsAtTheLast(s', e, ms');
    if a != [] {
      HashFindsTheTip(chain, base, r.engine.follower.tip, r'.engine.follower.tip);
      if e.follower.tip.None? {
        RunBeginsAtTheFirst(s, e, ms);
        RunBeginsAtTheFirst(s', e, ms');
        FirstAppliedDetermined(
          chain, base, e.follower.tip, r.applied, r.engine.follower.tip, r'.applied, r'.engine.follower.tip);
      }
    }
    DropInsensitive(s, s', chain, base, e, ms, ms');
  }

  // ----- a selection of blocks, against a node that answers about the chain

  predicate DeliversOne(s: Setting, chain: seq<Block>, m: Message, j: nat) {
    BringsBlock(s, m) && j < |chain| && s.parseBlock(m.body).block == chain[j]
  }

  /** The blocks that arrive are js of the chain, in that order; between them, any messages that bring none. */
  predicate Delivers(s: Setting, chain: seq<Block>, ms: seq<Message>, js: seq<nat>)
    decreases |ms|
  {
    if ms == [] then js == []
    else if BringsBlock(s, ms[0]) then
      js != [] && DeliversOne(s, chain, ms[0], js[0]) && Delivers(s, chain, ms[1..], js[1..])
    else Delivers(s, chain, ms[1..], js)
  }

  /** From `t` on: never backwards, repeats allowed, gaps no wider than the ceiling. */
  predicate Within(t: nat, js: seq<nat>, ceiling: int)
    decreases |js|
  {
    js != [] ==> InReach(t, js[0], ceiling) && Within(js[0], js[1..], ceiling)
  }

  /** A block in reach of the tip is applied, with all that it was missing. */
  lemma DeliveryReaches(s: Setting, chain: seq<Block>, base: int, e: Engine, m: Message, t: nat, j: nat)
    requires IsChain(chain) && TrueOrFailing(s, chain, base) && Answers(s, chain, base) && s.follows && EngineValid(e)
    requires DeliversOne(s, chain, m, j) && t < |chain| && InReach(t, j, e.follower.maxCatchUp)
    requires AtIndex(e.follower, chain, base, t)
    ensures var h := Handle(s, e, m);
            AtIndex(h.engine.follower, chain, base, j) && h.engine.follower.maxCatchUp == e.follower.maxCatchUp
  {
    hide IsChain, TrueOrFailing, Answers, PlanFor, ConfirmAll, TxsOf, Observed;
    PlanLinked(s.parseBlock, s.node, e.follower, chain[j]);
    PlanOnChain(s, chain, base, e.follower, t, j);
  }

  lemma FirstDelivery(s: Setting, chain: seq<Block>, base: int, e: Engine, m: Message, j: nat)
    requires TrueOrFailing(s, chain, base) && Answers(s, chain, base) && s.follows && EngineValid(e)
    requires DeliversOne(s, chain, m, j) && e.follower.tip.None?
    ensures var h := Handle(s, e, m);
            && AtIndex(h.engine.follower, chain, base, j) && h.engine.follower.maxCatchUp == e.follower.maxCatchUp
            && h.applied == [Due(chain[j], base + j)]
  {
    hide TrueOrFailing, Answers, PlanFor, ConfirmAll, TxsOf, Observed;
    PlanLinked(s.parseBlock, s.node, e.follower, chain[j]);
    FirstOnChain(s, chain, base, e.follower, j);
    assert Stretch(chain, base, j, j + 1) == [Due(chain[j], base + j)];
  }

  lemma {:induction false} ReachesFrom(
    s: Setting, chain: seq<Block>, base: int, e: Engine, ms: seq<Message>, t: nat, js: seq<nat>)
    requires IsChain(chain) && TrueOrFailing(s, chain, base) && Answers(s, chain, base) && s.follows && EngineValid(e)
    requires Delivers(s, chain, ms, js) && AtIndex(e.follower, chain, base, t) && Within(t, js, e.follower.maxCatchUp)
    ensures AtIndex(RunAll(s, e, ms).engine.follower, chain, base, if js == [] then t else js[|js| - 1])
    decreases |ms|
  {
    hide IsChain, TrueOrFailing, Answers, Handle, InReach, BringsBlock;
    if ms != [] {
      var e' := Handle(s, e, ms[0]).engine;
      if BringsBlock(s, ms[0]) {
        DeliveryReaches(s, chain, base, e, ms[0], t, js[0]);
        ReachesFrom(s, chain, base, e', ms[1..], js[0], js[1..]);
      } else {
        NoDelivery(s, e, ms[0]);
        ReachesFrom(s, chain, base, e', ms[1..], t, js);
      }
    }
  }

  /** A fresh follower given a selection within reach ends at its last block, having begun at its first. */
  lemma {:induction false} SelectionReaches(
    s: Setting, chain: seq<Block>, base: int, e: Engine, ms: seq<Message>, js: seq<nat>)
    requires IsChain(chain) && TrueOrFailing(s, chain, base) && Answers(s, chain, base) && s.follows && EngineValid(e)
    requires Delivers(s, chain, ms, js) && js != [] && e.follower.tip.None?
    requires Within(js[0], js[1..], e.follower.maxCatchUp)
    ensures var r := RunAll(s, e, ms);
            && AtIndex(r.engine.follower, chain, base, js[|js| - 1])
            && r.applied != [] && js[0] < |chain| && r.applied[0] == Due(chain[js[0]], base + js[0])
    decreases |ms|
  {
    hide IsChain, TrueOrFailing, Answers, Handle, InReach, BringsBlock, Within;
    var e' := Handle(s, e, ms[0]).engine;
    if BringsBlock(s, ms[0]) {
      FirstDelivery(s, chain, base, e, ms[0], js[0]);
      ReachesFrom(s, chain, base, e', ms[1..], js[0], js[1..]);
    } else {
      NoDelivery(s, e, ms[0]);
      SelectionReaches(s, chain, base, e', ms[1..], js);
    }
  }

  lemma {:induction false} DeliveredFromChain(s: Setting, chain: seq<Block>, ms: seq<Message>, js: seq<nat>)
    requires Delivers(s, chain, ms, js)
    ensures forall m :: m in ms ==> FromChain(s, chain, m)
    decreases |ms|
  {
    hide BringsBlock;
    if ms != [] {
      DeliveredFromChain(s, chain, ms[1..], if BringsBlock(s, ms[0]) then js[1..] else js);
      assert forall m :: m in ms ==> m == ms[0] || m in ms[1..];
    }
  }

  /**
   Two selections of one chain's blocks with the same first and last, repeats and gaps within the
   ceiling, each against its own unfailing node, with any other messages between: the same blocks
   applied, the same record and the same tip.  Without mempool traffic, the same alerts in the same
   order and the same overlay and seen-set too.  One of the two may be every block.
   */
  lemma {:induction false} SelectionsAgree(
    s: Setting, s': Setting, chain: seq<Block>, base: int, e: Engine,
    ms: seq<Message>, js: seq<nat>, ms': seq<Message>, js': seq<nat>)
    requires IsChain(chain) && s.follows && s'.follows && s.w == s'.w && EngineValid(e) && e.follower.tip.None?
    requires TrueOrFailing(s, chain, base) && Answers(s, chain, base) && TrueOrFailing(s', chain, base)
    requires Answers(s', chain, base)
    requires js != [] && Delivers(s, chain, ms, js) && Within(js[0], js[1..], e.follower.maxCatchUp)
    requires js' != [] && Delivers(s', chain, ms', js') && Within(js'[0], js'[1..], e.follower.maxCatchUp)
    requires js[0] == js'[0] && js[|js| - 1] == js'[|js'| - 1]
    ensures var r, r' := RunAll(s, e, ms), RunAll(s', e, ms');
            && r.applied == r'.applied && r.engine.ledger.record == r'.engine.ledger.record
            && r.engine.follower.tip == r'.engine.follower.tip && AtIndex(r.engine.follower, chain, base, js[|js| - 1])
    ensures BlocksOnly(ms) && BlocksOnly(ms') ==>
              var r, r' := RunAll(s, e, ms), RunAll(s', e, ms');
              r.engine.ledger == r'.engine.ledger && r.alerts == r'.alerts
  {
    hide RunAll, IsChain, TrueOrFailing, Answers, Delivers, Within, FromChain, BlocksOnly;
    SelectionReaches(s, chain, base, e, ms, js);
    SelectionReaches(s', chain, base, e, ms', js');
    DeliveredFromChain(s, chain, ms, js);
    DeliveredFromChain(s', chain, ms', js');
    DropInsensitive(s, s', chain, base, e, ms, ms');
  }

  /** A block and all of the `more` that come after it. */
  function Every(from: nat, more: nat): (js: seq<nat>)
    ensures |js| == more + 1 && forall i :: 0 <= i < |js| ==> js[i] == from + i
  {
    seq(more + 1, i requires i >= 0 => from + i)
  }

  /** Delivering every block is one of the selections, whatever the ceiling. */
  lemma {:induction false} EveryIsWithin(from: nat, more: nat, ceiling: int)
    ensures Within(Every(from, more)[0], Every(from, more)[1..], ceiling)
    decreases more
  {
    if more > 0 {
      assert Every(from, more)[1..] == Every(from + 1, more - 1);
      EveryIsWithin(from + 1, more - 1, ceiling);
    }
  }
}
