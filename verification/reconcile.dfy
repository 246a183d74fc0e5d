/** Catching up with the chain through a node that may answer anything. */
module Reconcile {
  import opened Wrappers
  import opened ByteStrings
  import opened Blocks

  /** A field as `int()` takes it: a number; absent or not one; or infinite, which is another error. */
  datatype Field = Number(value: int) | NotANumber | Infinite

  /**
   What an RPC call may come to: a refusal, no connection, some other error, a string (which may or may
   not be hex), an object with its two fields, or anything else.  `ordinary` says that the other error is
   one that `_height_of` and `_on_active_chain` catch, a `TypeError` or a `ValueError`.
   */
  datatype Answer =
    | Refused(code: int)
    | Unreachable
    | CallRaised(ordinary: bool)
    | Text(hex: Option<Bytes>)
    | Object(height: Field, confirmations: Field)
    | Other

  /** `getblockhash`, `getblock` at verbosity 0 with whatever that returned, `getblock` at verbosity 1. */
  datatype Request = BlockHashAt(height: int) | RawBlock(handle: Answer) | Describe(hash: Hash)

  /** The answer to the n-th call: nothing is assumed about it. */
  type Node = (nat, Request) -> Answer

  datatype Tip = Tip(hash: Hash, height: int)

  /**
   `ParserCrashed` is the `struct.error` of a block cut inside its count, `Escaped` an error of a call or of
   `int()` that the follower does not turn into its own.
   */
  datatype Failure = ReorgDetected | CatchUpFailed | ParserCrashed | Escaped

  datatype Due = Due(block: Block, height: int)

  datatype Plan = Owed(due: seq<Due>) | Cannot(why: Failure)

  datatype Asked<+T> = Got(value: T, calls: nat) | Failed(why: Failure, calls: nat)

  datatype Follower = Follower(tip: Option<Tip>, maxCatchUp: int, fetched: nat, catchUps: nat, calls: nat)

  function HeightOf(node: Node, n: nat, hash: Hash): Asked<int> {
    match node(n, Describe(hash))
    case Object(Number(height), _) => Got(height, n + 1)
    case Object(Infinite, _) => Failed(Escaped, n + 1)
    case CallRaised(false) => Failed(Escaped, n + 1)
    case _ => Failed(CatchUpFailed, n + 1)
  }

  function OnActiveChain(node: Node, n: nat, hash: Hash): Asked<bool> {
    match node(n, Describe(hash))
    case Object(_, Number(confirmations)) => Got(confirmations >= 0, n + 1)
    case Object(_, Infinite) => Failed(Escaped, n + 1)
    case CallRaised(false) => Failed(Escaped, n + 1)
    case _ => Failed(CatchUpFailed, n + 1)
  }

  function Fetch(parse: Bytes -> BlockResult, node: Node, n: nat, height: int): Asked<Block> {
    var handle := node(n, BlockHashAt(height));
    if handle.Refused? || handle.Unreachable? then Failed(CatchUpFailed, n + 1) else
    if handle.CallRaised? then Failed(Escaped, n + 1) else
    match node(n + 1, RawBlock(handle))
    case CallRaised(_) => Failed(Escaped, n + 2)
    case Text(Some(raw)) =>
      (match parse(raw)
       case Accepted(b) => Got(b, n + 2)
       case MalformedBlock => Failed(CatchUpFailed, n + 2)
       case CountCutShort => Failed(ParserCrashed, n + 2))
    case _ => Failed(CatchUpFailed, n + 2)
  }

  /** What a run of fetches came to: the blocks it read, and why it stopped if it did. */
  datatype Fetched = Fetched(blocks: seq<Block>, failure: Option<Failure>, calls: nat)

  /** `count` blocks from `height` up, each the child of the one before, the first of `parent`. */
  function FetchRun(parse: Bytes -> BlockResult, node: Node, n: nat, parent: Hash, height: int, count: nat): Fetched
    decreases count
  {
    if count == 0 then Fetched([], None, n) else
    match Fetch(parse, node, n, height)
    case Failed(why, calls) => Fetched([], Some(why), calls)
    case Got(b, calls) =>
      if b.prevHash != parent then Fetched([], Some(ReorgDetected), calls) else
      var more := FetchRun(parse, node, calls, b.blockHash, height + 1, count - 1);
      more.(blocks := [b] + more.blocks)
  }

  function LastHash(blocks: seq<Block>, tip: Tip): Hash {
    if blocks == [] then tip.hash else blocks[|blocks| - 1].blockHash
  }

  function Joined(blocks: seq<Block>, rest: Fetched): Fetched {
    rest.(blocks := blocks + rest.blocks)
  }

  lemma JoinedNothing(rest: Fetched)
    ensures Joined([], rest) == rest
  {
    assert [] + rest.blocks == rest.blocks;
  }

  /** One more turn of the fetching loop. */
  lemma FetchOneMore(
    parse: Bytes -> BlockResult, node: Node, n: nat, parent: Hash, height: int, count: nat, blocks: seq<Block>)
    requires count > 0
    ensures Joined(blocks, FetchRun(parse, node, n, parent, height, count)) ==
            match Fetch(parse, node, n, height)
            case Failed(why, calls) => Fetched(blocks, Some(why), calls)
            case Got(b, calls) =>
              if b.prevHash != parent then Fetched(blocks, Some(ReorgDetected), calls)
              else Joined(blocks + [b], FetchRun(parse, node, calls, b.blockHash, height + 1, count - 1))
  {
    hide Fetch;
    assert blocks + [] == blocks;
    assert forall b: Block, rest :: blocks + ([b] + rest) == blocks + [b] + rest;
  }

  lemma FetchNoMore(parse: Bytes -> BlockResult, node: Node, n: nat, parent: Hash, height: int, blocks: seq<Block>)
    ensures Joined(blocks, FetchRun(parse, node, n, parent, height, 0)) == Fetched(blocks, None, n)
  {
    assert blocks + [] == blocks;
  }

  function AtHeights(blocks: seq<Block>, height: int): (due: seq<Due>)
    ensures |due| == |blocks| && forall i :: 0 <= i < |due| ==> due[i] == Due(blocks[i], height + i)
  {
    seq(|blocks|, i requires 0 <= i < |blocks| => Due(blocks[i], height + i))
  }

  /** Everything a gap needs once the height of the incoming block is known. */
  function GapPlan(
    parse: Bytes -> BlockResult, node: Node, f: Follower, tip: Tip, block: Block, target: int): (Follower, Plan) {
    match OnActiveChain(node, f.calls, tip.hash)
    case Failed(why, calls) => (f.(calls := calls), Cannot(why))
    case Got(active, calls) =>
      var asked := f.(calls := calls);
      var missing := target - tip.height - 1;
      if !active || missing < 0 then (asked, Cannot(ReorgDetected))
      else if missing > f.maxCatchUp then (asked, Cannot(CatchUpFailed))
      else
        var run := FetchRun(parse, node, calls, tip.hash, tip.height + 1, missing);
        var after := f.(calls := run.calls, fetched := f.fetched + |run.blocks|);
        if run.failure.Some? then (after, Cannot(run.failure.value))
        else if block.prevHash != LastHash(run.blocks, tip) then (after, Cannot(ReorgDetected))
        else (after, Owed(AtHeights(run.blocks, tip.height + 1) + [Due(block, target)]))
  }

  /** The blocks the record still owes, oldest first, ending with `block`; or why they cannot be had. */
  function PlanFor(parse: Bytes -> BlockResult, node: Node, f: Follower, block: Block): (Follower, Plan) {
    match f.tip
    case None =>
      (match HeightOf(node, f.calls, block.blockHash)
       case Failed(why, calls) => (f.(calls := calls), Cannot(why))
       case Got(height, calls) => (f.(calls := calls), Owed([Due(block, height)])))
    case Some(tip) =>
      if block.prevHash == tip.hash then (f, Owed([Due(block, tip.height + 1)]))
      else if block.blockHash == tip.hash then (f, Owed([]))
      else
        var counted := f.(catchUps := f.catchUps + 1);
        match HeightOf(node, f.calls, block.blockHash)
        case Failed(why, calls) => (counted.(calls := calls), Cannot(why))
        case Got(target, calls) => GapPlan(parse, node, counted.(calls := calls), tip, block, target)
  }

  /** The tip after the consumer has applied what was due. */
  function TipAfter(tip: Option<Tip>, due: seq<Due>): Option<Tip> {
    if due == [] then tip else
    var last := due[|due| - 1];
    Some(Tip(last.block.blockHash, last.height))
  }

  class ChainFollower {
    const dsha: Bytes -> Hash
    const node: Node
    const maxCatchUp: int
    var tip: Option<Tip>
    var fetched: nat
    var catchUps: nat
    /** How many calls the node has answered. */
    var calls: nat

    constructor (dsha: Bytes -> Hash, node: Node, tip: Option<Tip>, maxCatchUp: int)
      ensures this.dsha == dsha && this.node == node && Value() == Follower(tip, maxCatchUp, 0, 0, 0)
    {
      this.dsha, this.node, this.tip, this.maxCatchUp := dsha, node, tip, maxCatchUp;
      fetched, catchUps, calls := 0, 0, 0;
    }

    function Value(): Follower
      reads this
    {
      Follower(tip, maxCatchUp, fetched, catchUps, calls)
    }

    method Call(request: Request) returns (answer: Answer)
      modifies this`calls
      ensures answer == node(old(calls), request) && calls == old(calls) + 1
    {
      answer := node(calls, request);
      calls := calls + 1;
    }

    method FetchBlock(height: int) returns (r: Asked<Block>)
      modifies this`calls
      ensures r == Fetch(BlockParser(dsha), node, old(calls), height) && calls == r.calls
    {
      hide BlockParser;
      var handle := Call(BlockHashAt(height));
      if handle.Refused? || handle.Unreachable? {
        return Failed(CatchUpFailed, calls);
      }
      if handle.CallRaised? {
        return Failed(Escaped, calls);
      }
      var raw := Call(RawBlock(handle));
      if raw.CallRaised? {
        return Failed(Escaped, calls);
      }
      if !raw.Text? || raw.hex.None? {
        return Failed(CatchUpFailed, calls);
      }
      var parsed, _ := ParseBlock(dsha, raw.hex.value);
      match parsed
      case Accepted(b) => r := Got(b, calls);
      case MalformedBlock => r := Failed(CatchUpFailed, calls);
      case CountCutShort => r := Failed(ParserCrashed, calls);
    }

    /** The blocks from just above the tip to just below `target`, or how far it got and why it stopped. */
    method FetchBlocks(target: int) returns (blocks: seq<Block>, failure: Option<Failure>)
      requires tip.Some? && tip.value.height < target
      modifies this`calls, this`fetched
      ensures var run := FetchRun(BlockParser(dsha), node, old(calls), tip.value.hash, tip.value.height + 1,
                                  target - tip.value.height - 1);
              run == Fetched(blocks, failure, calls) && fetched == old(fetched) + |blocks|
    {
      hide BlockParser, Fetch, FetchRun;
      blocks := [];
      var expectedParent := tip.value.hash;
      ghost var run := FetchRun(BlockParser(dsha), node, calls, expectedParent, tip.value.height + 1,
                                target - tip.value.height - 1);
      JoinedNothing(run);
      for height := tip.value.height + 1 to target
        invariant tip == old(tip) && fetched == old(fetched) + |blocks|
        invariant expectedParent == LastHash(blocks, tip.value)
        invariant run == Joined(blocks,
            FetchRun(BlockParser(dsha), node, calls, expectedParent, height, target - height))
      {
        FetchOneMore(BlockParser(dsha), node, calls, expectedParent, height, target - height, blocks);
        var got := FetchBlock(height);
        if got.Failed? {
          return blocks, Some(got.why);
        }
        if got.value.prevHash != expectedParent {
          return blocks, Some(ReorgDetected);
        }
        expectedParent := got.value.blockHash;
        blocks := blocks + [got.value];
        fetched := fetched + 1;
      }
      FetchNoMore(BlockParser(dsha), node, calls, expectedParent, target, blocks);
      failure := None;
    }

    /** The height the node gives a block. */
    method AskHeight(hash: Hash) returns (r: Asked<int>)
      modifies this`calls
      ensures r == HeightOf(node, old(calls), hash) && calls == r.calls
    {
      var described := Call(Describe(hash));
      if described == CallRaised(false) || (described.Object? && described.height.Infinite?) {
        return Failed(Escaped, calls);
      }
      if !described.Object? || described.height.NotANumber? {
        return Failed(CatchUpFailed, calls);
      }
      return Got(described.height.value, calls);
    }

    /** Whether the node still has a block on its best chain. */
    method AskActive(hash: Hash) returns (r: Asked<bool>)
      modifies this`calls
      ensures r == OnActiveChain(node, old(calls), hash) && calls == r.calls
    {
      var described := Call(Describe(hash));
      if described == CallRaised(false) || (described.Object? && described.confirmations.Infinite?) {
        return Failed(Escaped, calls);
      }
      if !described.Object? || described.confirmations.NotANumber? {
        return Failed(CatchUpFailed, calls);
      }
      return Got(described.confirmations.value >= 0, calls);
    }

    /** The blocks between the tip and `block`, or why they cannot be had. */
    method FetchGap(block: Block, target: int) returns (blocks: seq<Block>, failure: Option<Failure>)
      requires tip.Some?
      modifies this`calls, this`fetched
      ensures var (f, plan) := GapPlan(BlockParser(dsha), node, old(Value()), tip.value, block, target);
              && Value() == f
              && match plan
                 case Cannot(why) => failure == Some(why)
                 case Owed(due) =>
                   failure.None? && due == AtHeights(blocks, tip.value.height + 1) + [Due(block, target)]
    {
      hide BlockParser, FetchRun;
      blocks := [];
      var active := AskActive(tip.value.hash);
      if active.Failed? {
        return [], Some(active.why);
      }
      if !active.value {
        return [], Some(ReorgDetected);
      }
      var missing := target - tip.value.height - 1;
      if missing < 0 {
        return [], Some(ReorgDetected);
      }
      if missing > maxCatchUp {
        return [], Some(CatchUpFailed);
      }
      blocks, failure := FetchBlocks(target);
      if failure.None? && block.prevHash != LastHash(blocks, tip.value) {
        failure := Some(ReorgDetected);
      }
    }

    /** A generator: nothing happens until its first block is asked for. */
    method BlocksToApply(block: Block) returns (due: DueBlocks)
      ensures fresh(due) && due.Fresh() && due.follower == this && due.block == block
    {
      due := new DueBlocks(this, block);
    }

    /** What the generator does when the consumer comes back for the next block. */
    method Advance(due: Due)
      modifies this`tip
      ensures tip == Some(Tip(due.block.blockHash, due.height))
    {
      tip := Some(Tip(due.block.blockHash, due.height));
    }
  }

  /** What asking a generator for its next block comes to. */
  datatype Yield = Yielded(due: Due) | Stopped | Threw(why: Failure)

  /** Whether asking the follower gave blocks to wait for, and the block that ends them at what height; or why not. */
  datatype Begun = Begun(waiting: seq<Block>, last: Option<int>) | CouldNot(why: Failure)

  /** The blocks the record still owes, one at a time; the tip moves past one when the next is asked for. */
  class DueBlocks {
    const follower: ChainFollower
    const block: Block
    var begun: bool
    /** Handed out, and not known to have been applied yet. */
    var held: Option<Due>
    /** Fetched, and not handed out yet. */
    var waiting: seq<Block>
    /** The height of `block`, until it is handed out. */
    var last: Option<int>

    constructor (follower: ChainFollower, block: Block)
      ensures this.follower == follower && this.block == block && Fresh()
    {
      this.follower, this.block := follower, block;
      begun, held, waiting, last := false, None, [], None;
    }

    predicate Fresh()
      reads this
    {
      !begun && held.None? && waiting == [] && last.None?
    }

    ghost predicate Valid()
      reads this, follower
    {
      begun && (waiting != [] ==> last.Some? && (held.Some? || follower.tip.Some?))
    }

    /** Where the follower is once what it handed out has been applied. */
    ghost function Reached(): Option<Tip>
      reads this, follower
    {
      if held.Some? then Some(Tip(held.value.block.blockHash, held.value.height)) else follower.tip
    }

    /** What is still to come, each waiting block one above the one before. */
    ghost function Remaining(): seq<Due>
      reads this, follower
    {
      AtHeights(waiting, if Reached().Some? then Reached().value.height + 1 else 0)
      + if last.Some? then [Due(block, last.value)] else []
    }

    /** The next block, once the tip has moved past the one handed out before: from here on it cannot fail. */
    method Resume() returns (y: Yield)
      requires Valid()
      modifies this, follower`tip
      ensures Valid() && follower.tip == old(Reached())
      ensures if old(Remaining()) == [] then y == Stopped && held.None? && Remaining() == []
              else
                && y == Yielded(old(Remaining())[0]) && held == Some(old(Remaining())[0])
                && Remaining() == old(Remaining())[1..]
    {
      if held.Some? {
        follower.Advance(held.value);
        held := None;
      }
      if waiting != [] {
        ghost var blocks := waiting;
        held := Some(Due(waiting[0], follower.tip.value.height + 1));
        waiting := waiting[1..];
        assert AtHeights(blocks, held.value.height)[1..] == AtHeights(blocks[1..], held.value.height + 1);
        return Yielded(held.value);
      }
      if last.Some? {
        held, last := Some(Due(block, last.value)), None;
        return Yielded(held.value);
      }
      return Stopped;
    }

    /** Asking the follower and the node what is owed; every failure there can be is here. */
    method Begin() returns (b: Begun)
      modifies follower`calls, follower`fetched, follower`catchUps
      ensures var (f, plan) := PlanFor(BlockParser(follower.dsha), follower.node, old(follower.Value()), block);
              && follower.Value() == f
              && match plan
                 case Cannot(why) => b == CouldNot(why)
                 case Owed(due) =>
                   && b.Begun? && (b.waiting != [] ==> b.last.Some? && follower.tip.Some?)
                   && due == AtHeights(b.waiting, if follower.tip.Some? then follower.tip.value.height + 1 else 0)
                           + if b.last.Some? then [Due(block, b.last.value)] else []
    {
      hide BlockParser, GapPlan;
      assert AtHeights([], 0) == [];
      if follower.tip.None? {
        var height := follower.AskHeight(block.blockHash);
        return if height.Failed? then CouldNot(height.why) else Begun([], Some(height.value));
      }
      var tip := follower.tip.value;
      assert AtHeights([], tip.height + 1) == [];
      if block.prevHash == tip.hash {
        return Begun([], Some(tip.height + 1));
      }
      if block.blockHash == tip.hash {
        return Begun([], None);
      }
      follower.catchUps := follower.catchUps + 1;
      var height := follower.AskHeight(block.blockHash);
      if height.Failed? {
        return CouldNot(height.why);
      }
      var blocks, failure := follower.FetchGap(block, height.value);
      if failure.Some? {
        return CouldNot(failure.value);
      }
      return Begun(blocks, Some(height.value));
    }

    /** The first call does all the asking; only it can raise, and then nothing has been handed out. */
    method First() returns (y: Yield)
      requires Fresh()
      modifies this, follower`calls, follower`fetched, follower`catchUps, follower`tip
      ensures Valid()
      ensures var (f, plan) := PlanFor(BlockParser(follower.dsha), follower.node, old(follower.Value()), block);
              && follower.Value() == f
              && match plan
                 case Cannot(why) => y == Threw(why) && held.None? && Remaining() == []
                 case Owed(due) =>
                   if due == [] then y == Stopped && held.None? && Remaining() == []
                   else y == Yielded(due[0]) && held == Some(due[0]) && Remaining() == due[1..]
    {
      hide PlanFor, BlockParser;
      var b := Begin();
      begun := true;
      if b.CouldNot? {
        return Threw(b.why);
      }
      waiting, last := b.waiting, b.last;
      y := Resume();
    }

    /** A turn of the consumer's loop. */
    method Next() returns (y: Yield)
      requires Fresh() || Valid()
      modifies this, follower`calls, follower`fetched, follower`catchUps, follower`tip
      ensures Valid() && begun
      ensures old(begun) ==>
                && follower.Value() == old(follower.Value()).(tip := old(Reached()))
                && if old(Remaining()) == [] then y == Stopped && held.None? && Remaining() == []
                   else
                     && y == Yielded(old(Remaining())[0]) && held == Some(old(Remaining())[0])
                     && Remaining() == old(Remaining())[1..]
      ensures !old(begun) ==>
                var (f, plan) := PlanFor(BlockParser(follower.dsha), follower.node, old(follower.Value()), block);
                && follower.Value() == f
                && match plan
                   case Cannot(why) => y == Threw(why) && held.None? && Remaining() == []
                   case Owed(due) =>
                     if due == [] then y == Stopped && held.None? && Remaining() == []
                     else y == Yielded(due[0]) && held == Some(due[0]) && Remaining() == due[1..]
    {
      hide PlanFor, BlockParser;
      if begun {
        y := Resume();
      } else {
        y := First();
      }
    }
  }
}
