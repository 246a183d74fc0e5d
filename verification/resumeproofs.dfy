/** After a failed catch-up the engine goes on as if the failed delivery had not come. */
module ResumeProofs {
  import opened ByteStrings
  import opened MatchSpec
  import opened SequenceTracking
  import opened Blocks
  import opened Reconcile
  import opened StreamSpec
  import opened IngestRuns

  /** The node with its first `k` answers gone. */
  function Later(node: Node, k: nat): Node {
    (n: nat, r: Request) => node(n + k, r)
  }

  function Counted<T>(a: Asked<T>, k: nat): Asked<T> {
    match a
    case Got(value, calls) => Got(value, calls + k)
    case Failed(why, calls) => Failed(why, calls + k)
  }

  lemma AskedLater(parse: Bytes -> BlockResult, node: Node, n: nat, k: nat, height: int, hash: Hash)
    ensures Fetch(parse, node, n + k, height) == Counted(Fetch(parse, Later(node, k), n, height), k)
    ensures HeightOf(node, n + k, hash) == Counted(HeightOf(Later(node, k), n, hash), k)
    ensures OnActiveChain(node, n + k, hash) == Counted(OnActiveChain(Later(node, k), n, hash), k)
  {
    assert Later(node, k)(n + 1, RawBlock(node(n + k, BlockHashAt(height))))
        == node(n + k + 1, RawBlock(node(n + k, BlockHashAt(height))));
  }

  lemma {:induction false} FetchRunLater(
    parse: Bytes -> BlockResult, node: Node, n: nat, k: nat, parent: Hash, height: int, count: nat)
    ensures var now, later := FetchRun(parse, node, n + k, parent, height, count),
        FetchRun(parse, Later(node, k), n, parent, height, count);
            now == later.(calls := later.calls + k)
    decreases count
  {
    hide Fetch, Later;
    if count > 0 {
      AskedLater(parse, node, n, k, height, parent);
      var got := Fetch(parse, Later(node, k), n, height);
      if got.Got? && got.value.prevHash == parent {
        FetchRunLater(parse, node, got.calls, k, got.value.blockHash, height + 1, count - 1);
      }
    }
  }

  /** The same but for the counters, and `k` calls further on. */
  predicate Ahead(now: Follower, was: Follower, k: nat) {
    now.tip == was.tip && now.maxCatchUp == was.maxCatchUp && now.calls == was.calls + k
  }

  lemma GapPlanLater(
    parse: Bytes -> BlockResult, node: Node, now: Follower, was: Follower, k: nat, tip: Tip, block: Block, target: int)
    requires Ahead(now, was, k)
    ensures var a, b := GapPlan(parse, node, now, tip, block, target),
        GapPlan(parse, Later(node, k), was, tip, block, target);
            a.1 == b.1 && Ahead(a.0, b.0, k)
  {
    hide FetchRun, Later, OnActiveChain;
    AskedLater(parse, node, was.calls, k, 0, tip.hash);
    var active := OnActiveChain(Later(node, k), was.calls, tip.hash);
    var missing := target - tip.height - 1;
    if active.Got? && active.value && 0 <= missing <= was.maxCatchUp {
      FetchRunLater(parse, node, active.calls, k, tip.hash, tip.height + 1, missing);
    }
  }

  lemma PlanLater(parse: Bytes -> BlockResult, node: Node, now: Follower, was: Follower, k: nat, block: Block)
    requires Ahead(now, was, k)
    ensures var a, b := PlanFor(parse, node, now, block), PlanFor(parse, Later(node, k), was, block);
            a.1 == b.1 && Ahead(a.0, b.0, k)
  {
    hide GapPlan, Later, HeightOf;
    AskedLater(parse, node, was.calls, k, 0, block.blockHash);
    var height := HeightOf(Later(node, k), was.calls, block.blockHash);
    if now.tip.Some? && height.Got? {
      GapPlanLater(
        parse, node, now.(catchUps := now.catchUps + 1, calls := height.calls + k),
        was.(catchUps := was.catchUps + 1, calls := height.calls), k, now.tip.value, block, height.value);
    }
  }

  /** Nothing that decides what is applied or announced differs. */
  predicate SameEngine(now: Engine, was: Engine, k: nat) {
    now.ledger == was.ledger && Ahead(now.follower, was.follower, k)
  }

  function Resumed(s: Setting, k: nat): Setting {
    s.(node := Later(s.node, k))
  }

  lemma HandleLater(s: Setting, now: Engine, was: Engine, k: nat, m: Message)
    requires EngineValid(now) && EngineValid(was) && SameEngine(now, was, k)
    ensures var a, b := Handle(s, now, m), Handle(Resumed(s, k), was, m);
            a.applied == b.applied && a.outcome == b.outcome && SameEngine(a.engine, b.engine, k)
  {
    hide PlanFor, ConfirmAll, TxsOf, MatchOf, NoteOutputs, Announce, Observed, Later;
    if InRange(m.seqNo) && m.topic == TOPIC_BLOCK && s.parseBlock(m.body).Accepted? {
      PlanLater(s.parseBlock, s.node, now.follower, was.follower, k, s.parseBlock(m.body).block);
    }
  }

  lemma {:induction false} RunLater(s: Setting, now: Engine, was: Engine, k: nat, ms: seq<Message>)
    requires EngineValid(now) && EngineValid(was) && SameEngine(now, was, k)
    ensures var a, b := RunAll(s, now, ms), RunAll(Resumed(s, k), was, ms);
            a.applied == b.applied && a.alerts == b.alerts && SameEngine(a.engine, b.engine, k)
    decreases |ms|
  {
    hide Handle, SameEngine, Resumed;
    if ms != [] {
      HandleLater(s, now, was, k, ms[0]);
      RunLater(s, Handle(s, now, ms[0]).engine, Handle(Resumed(s, k), was, ms[0]).engine, k, ms[1..]);
    }
  }

  /**
   A message raised, having cost the node `k` answers.  Whatever comes next, the engine applies, announces
   and keeps exactly what an engine that never saw that message would, from the answers that are left: the
   next catch-up finds everything the failed one did not apply, and no alert has gone missing.
   */
  lemma FailedCatchUpLosesNothing(s: Setting, e: Engine, failed: Message, ms: seq<Message>)
    requires EngineValid(e) && Handle(s, e, failed).outcome.Raised?
    ensures var h := Handle(s, e, failed);
            && e.follower.calls <= h.engine.follower.calls
            && var k := h.engine.follower.calls - e.follower.calls;
               var after, without := RunAll(s, h.engine, ms), RunAll(Resumed(s, k), e, ms);
               && after.applied == without.applied && after.alerts == without.alerts
               && after.engine.ledger == without.engine.ledger
               && after.engine.follower.tip == without.engine.follower.tip
  {
    hide RunAll, Handle, Resumed;
    RaisedIsAhead(s, e, failed);
    var h := Handle(s, e, failed);
    RunLater(s, h.engine, e, h.engine.follower.calls - e.follower.calls, ms);
  }

  lemma RaisedIsAhead(s: Setting, e: Engine, m: Message)
    requires EngineValid(e) && Handle(s, e, m).outcome.Raised?
    ensures var after := Handle(s, e, m).engine;
            && e.follower.calls <= after.follower.calls
            && SameEngine(after, e, after.follower.calls - e.follower.calls)
  {
    hide PlanFor, ConfirmAll, TxsOf, MatchOf, NoteOutputs, Announce, Observed;
    if m.topic == TOPIC_BLOCK && s.parseBlock(m.body).Accepted? {
      PlanLinked(s.parseBlock, s.node, e.follower, s.parseBlock(m.body).block);
    }
  }
}
