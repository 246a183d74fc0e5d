/** Why a plan is what it is: every outcome of asking the node, by the answers alone, and what it is counted as. */
module PlanProofs {
  import opened Wrappers
  import opened ByteStrings
  import opened Blocks
  import opened Reconcile

  /** The height of a block: what the node says it is, or one of two failures. */
  lemma HeightExactly(node: Node, n: nat, hash: Hash)
    ensures var a, r := node(n, Describe(hash)), HeightOf(node, n, hash);
            && r.calls == n + 1
            && (forall h :: r == Got(h, n + 1) <==> a.Object? && a.height == Number(h))
            && (r == Failed(Escaped, n + 1) <==>
                  (a.Object? && a.height == Infinite) || (a.CallRaised? && !a.ordinary))
            && (r.Failed? && r.why != Escaped ==> r.why == CatchUpFailed)
  {
  }

  /** A block is on the active chain unless the node counts its confirmations below zero. */
  lemma ActiveExactly(node: Node, n: nat, hash: Hash)
    ensures var a, r := node(n, Describe(hash)), OnActiveChain(node, n, hash);
            && r.calls == n + 1
            && (r.Got? <==> a.Object? && a.confirmations.Number?)
            && (r.Got? ==> (r.value <==> a.confirmations.value >= 0))
            && (r == Failed(Escaped, n + 1) <==>
                  (a.Object? && a.confirmations == Infinite) || (a.CallRaised? && !a.ordinary))
            && (r.Failed? && r.why != Escaped ==> r.why == CatchUpFailed)
  {
  }

  /** A fetched block is one that parses from the hex the node gave for the hash it gave. */
  lemma FetchedExactly(parse: Bytes -> BlockResult, node: Node, n: nat, height: int)
    ensures var handle := node(n, BlockHashAt(height));
            var raw, r := node(n + 1, RawBlock(handle)), Fetch(parse, node, n, height);
            var asked := !handle.Refused? && !handle.Unreachable? && !handle.CallRaised?;
            && r.calls == (if asked then n + 2 else n + 1)
            && (forall b :: r == Got(b, n + 2) <==>
                  asked && raw.Text? && raw.hex.Some? && parse(raw.hex.value) == Accepted(b))
            && (r.Failed? ==>
                  && (r.why == Escaped <==> handle.CallRaised? || (asked && raw.CallRaised?))
                  && (r.why == ParserCrashed <==>
                        asked && raw.Text? && raw.hex.Some? && parse(raw.hex.value).CountCutShort?)
                  && (r.why != Escaped && r.why != ParserCrashed ==> r.why == CatchUpFailed))
  {
  }

  /** A gap can be asked for: the tip is on the active chain and the missing blocks are some, but not too many. */
  predicate CanBridge(f: Follower, active: Asked<bool>, tip: Tip, target: int) {
    active.Got? && active.value && 0 <= target - tip.height - 1 <= f.maxCatchUp
  }

  /**
   Every outcome of a gap.  A reorg is a tip off the active chain, a block at or below the tip, a fetched block
   that is not the child of the one before, or an end that does not meet the block that arrived; too many
   missing blocks, and every failure of the node, are a failed catch-up.
   */
  lemma GapExactly(parse: Bytes -> BlockResult, node: Node, f: Follower, tip: Tip, block: Block, target: int)
    ensures var active := OnActiveChain(node, f.calls, tip.hash);
            var missing := target - tip.height - 1;
            var (f', plan) := GapPlan(parse, node, f, tip, block, target);
            if active.Failed? then plan == Cannot(active.why) && f' == f.(calls := active.calls)
            else if !active.value || missing < 0 then plan == Cannot(ReorgDetected) && f' == f.(calls := active.calls)
            else if missing > f.maxCatchUp then plan == Cannot(CatchUpFailed) && f' == f.(calls := active.calls)
            else
              var run := FetchRun(parse, node, active.calls, tip.hash, tip.height + 1, missing);
              && f' == f.(calls := run.calls, fetched := f.fetched + |run.blocks|)
              && (plan == Cannot(ReorgDetected) <==>
                    || run.failure == Some(ReorgDetected)
                    || (run.failure.None? && block.prevHash != LastHash(run.blocks, tip)))
              && (run.failure.Some? ==> plan == Cannot(run.failure.value))
              && (plan.Owed? <==> run.failure.None? && block.prevHash == LastHash(run.blocks, tip))
  {
    hide FetchRun, OnActiveChain;
  }

  /** Why a run of fetches stops: at a fetch that fails, or at the first block that is no child of the one before. */
  lemma {:induction false} RunStopsExactly(
    parse: Bytes -> BlockResult, node: Node, n: nat, parent: Hash, height: int, count: nat)
    ensures var run := FetchRun(parse, node, n, parent, height, count);
            && (run.failure.None? <==> |run.blocks| == count)
            && (run.failure.Some? ==>
                  Stops(parse, node, height + |run.blocks|, LastHash(run.blocks, Tip(parent, 0)), run.failure.value))
    decreases count
  {
    hide Fetch, StopsAt;
    if count > 0 {
      StopsNow(parse, node, n, height, parent);
      var got := Fetch(parse, node, n, height);
      if got.Got? && got.value.prevHash == parent {
        RunStopsExactly(parse, node, got.calls, got.value.blockHash, height + 1, count - 1);
      }
    }
  }

  lemma StopsNow(parse: Bytes -> BlockResult, node: Node, n: nat, height: int, parent: Hash)
    ensures match Fetch(parse, node, n, height)
            case Failed(why, _) => Stops(parse, node, height, parent, why)
            case Got(b, _) => b.prevHash != parent ==> Stops(parse, node, height, parent, ReorgDetected)
  {
    hide Fetch;
    match Fetch(parse, node, n, height)
    case Failed(why, _) => assert StopsAt(parse, node, n, height, parent, why);
    case Got(b, _) => assert b.prevHash != parent ==> StopsAt(parse, node, n, height, parent, ReorgDetected);
  }

  ghost predicate Stops(parse: Bytes -> BlockResult, node: Node, height: int, parent: Hash, why: Failure) {
    exists n: nat :: StopsAt(parse, node, n, height, parent, why)
  }

  predicate StopsAt(parse: Bytes -> BlockResult, node: Node, n: nat, height: int, parent: Hash, why: Failure) {
    match Fetch(parse, node, n, height)
    case Failed(reason, _) => why == reason
    case Got(b, _) => b.prevHash != parent && why == ReorgDetected
  }

  /** A catch-up is counted exactly when the block is neither the first, nor a child of the tip, nor the tip. */
  lemma CatchUpsAreCounted(parse: Bytes -> BlockResult, node: Node, f: Follower, block: Block)
    ensures var (f', plan) := PlanFor(parse, node, f, block);
            var gap := f.tip.Some? && block.prevHash != f.tip.value.hash && block.blockHash != f.tip.value.hash;
            && f'.catchUps == f.catchUps + (if gap then 1 else 0)
            && (!gap ==> f'.fetched == f.fetched)
            && (gap && plan.Owed? ==> f'.fetched == f.fetched + |plan.due| - 1)
  {
    hide FetchRun;
  }
}
