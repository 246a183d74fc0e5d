/** Statements one would like of the message loop that hold only up to a condition, with the condition. */
module Limits {
  import opened Wrappers
  import opened ByteStrings
  import opened Parsing
  import opened Tx
  import opened MatchSpec
  import opened RecordProofs
  import opened OverlayProofs
  import opened SequenceTracking
  import opened TxRoundTrip
  import opened Blocks
  import opened BlockProofs
  import opened Reconcile
  import opened StreamSpec
  import opened IngestRuns
  import opened AnnounceProofs
  import opened DropProofs

  // ----- "what is held back has been announced already"

  /** A confirmed spend goes out exactly when its txid has not been announced before, for whatever reason. */
  lemma SpendAnnouncedExactly(w: Watching, l: Ledger, tx: Transaction, i: int)
    requires SeenValid(l.seen) && Match(i, Outgoing) in MatchNow(w, l, Confirmed(tx))
    ensures Match(i, Outgoing) in ConfirmTx(w, l, tx).alerts <==> !Knows(l, tx.txid)
  {
    hide MatchOf, ApplyTx, Forget, Remember;
  }

  function Txid(n: byte): Hash {
    seq(32, _ => n)
  }

  function Plain(): Keys {
    Keys(spk => spk, (txid, _) => txid)
  }

  function Quiet(): Ledger {
    Ledger(map[], Overlay(10, map[], [], map[], 0), Seen(10, [], 0))
  }

  /** Item 7 watches the script [1]. */
  function WatchOne(): Watching {
    Watching(Plain(), map[[1] := [7]])
  }

  /** A coinbase that pays the watched script. */
  function Parent(): Transaction {
    Transaction(Txid(1), [], [TxOutput(0, [1])], true, false)
  }

  /** Spends that, and pays the watched script again. */
  function Child(): Transaction {
    Transaction(Txid(2), [OutPoint(Txid(1), 0)], [TxOutput(0, [1])], false, false)
  }

  /** The child is seen before its parent, so as incoming only; when both confirm, the spend is held back. */
  lemma SpendHeldBack()
    ensures var w := WatchOne();
            var l := See(w, See(w, Quiet(), Mempool(Child())).0, Confirmed(Parent())).0;
            && See(w, Quiet(), Mempool(Child())).1 == [Match(7, Incoming)]
            && Match(7, Outgoing) in MatchNow(w, l, Confirmed(Child()))
            && See(w, l, Confirmed(Child())).1 == []
  {
    var w := WatchOne();
    var first := See(w, Quiet(), Mempool(Child())).0;
    var l := See(w, first, Confirmed(Parent())).0;
    hide See;
    ChildAlone(w);
    SeeAnnounces(w, first, Confirmed(Parent()));
    SeeAnnounces(w, l, Confirmed(Child()));
    SeenTwo();
    ParentArms();
  }

  lemma ChildAlone(w: Watching)
    requires w == WatchOne()
    ensures MatchNow(w, Quiet(), Mempool(Child())) == [Match(7, Incoming)]
    ensures See(w, Quiet(), Mempool(Child())).1 == [Match(7, Incoming)]
    ensures Knows(See(w, Quiet(), Mempool(Child())).0, Txid(2))
  {
    hide NoteOutputs;
    assert Payees(w.k, w.watch, Child().outputs, []) == [7] by {
      assert Child().outputs[1..] == [];
      assert AppendNew([], [7]) == [7];
    }
    var q := Quiet();
    assert Spenders(w.k, q.record, q.overlay.byOutpoint, Child().inputs, []) == [] by {
      assert Child().inputs[1..] == [];
      assert AppendNew([], []) == [];
    }
    assert Report([7], Incoming) == [Match(7, Incoming)];
  }

  lemma SeenTwo()
    ensures var first := See(WatchOne(), Quiet(), Mempool(Child())).0;
            Knows(See(WatchOne(), first, Confirmed(Parent())).0, Txid(2))
  {
    hide MatchOf, NoteOutputs, ApplyTx, Forget;
    ChildAlone(WatchOne());
  }

  lemma ParentArms()
    ensures var first := See(WatchOne(), Quiet(), Mempool(Child())).0;
            var l := See(WatchOne(), first, Confirmed(Parent())).0;
            Match(7, Outgoing) in MatchNow(WatchOne(), l, Confirmed(Child()))
  {
    hide NoteOutputs, Announce, MatchOf, Forget, ApplyTx;
    var w := WatchOne();
    var first := See(w, Quiet(), Mempool(Child())).0;
    var l := See(w, first, Confirmed(Parent())).0;
    ApplyOwns(w.k, w.watch, first.record, Parent(), 7, Txid(1));
    assert Brings(w.k, w.watch, Txid(1), Parent().outputs[0], 7, Txid(1));
    MatchExactly(w.k, w.watch, l.record, l.overlay.byOutpoint, Child(), 7);
    assert SpendsOf(w.k, l.record, l.overlay.byOutpoint, Child().inputs[0], 7);
  }

  // ----- "a coin is never in the record and in the overlay at once"

  ghost predicate Apart(c: Coins) {
    forall i, h :: Owns(c.record, i, h) ==> !Owns(c.overlay.byOutpoint, i, h)
  }

  /** A mempool transaction keeps them apart exactly when none of the coins it makes is in the record yet. */
  lemma MempoolKeepsApart(k: Keys, watch: Owners, sc: Scope, c: Coins, tx: Transaction)
    requires Committing(k, sc) && Sound(k, watch, sc, c.overlay) && Pinned(sc, tx) && Apart(c)
    ensures Apart(Step(k, watch, c, Mempool(tx))) <==>
            forall i, h :: Earned(k, watch, tx.txid, tx.outputs, i, h) ==> !Owns(c.record, i, h)
  {
    hide NoteOutputs, Committing, Sound, Earned;
    NoteKeeps(k, watch, sc, c.overlay, tx.txid, tx.outputs);
    var c' := Step(k, watch, c, Mempool(tx));
    if forall i, h :: Earned(k, watch, tx.txid, tx.outputs, i, h) ==> !Owns(c.record, i, h) {
      forall i, h | Owns(c'.overlay.byOutpoint, i, h) ensures !Owns(c'.record, i, h) {
        NoteOwners(k, watch, tx.txid, tx.outputs, c.overlay, i, h);
      }
    }
  }

  /** A confirmed transaction always does. */
  lemma ConfirmKeepsApart(k: Keys, watch: Owners, sc: Scope, c: Coins, tx: Transaction)
    requires Committing(k, sc) && Sound(k, watch, sc, c.overlay) && Pinned(sc, tx) && Apart(c)
    ensures Apart(Step(k, watch, c, Confirmed(tx)))
  {
    hide ApplyTx, SpentBy, Forget, Committing, Sound, Pinned;
    var c' := Step(k, watch, c, Confirmed(tx));
    forall i, h | Owns(c'.record, i, h) ensures !Owns(c'.overlay.byOutpoint, i, h) {
      ApplyOwns(k, watch, c.record, tx, i, h);
      ForgottenOwners(k, watch, sc, c.overlay, tx, i, h);
    }
  }

  /** What is left in the overlay was there before, and is none of the transaction's own coins. */
  lemma ForgottenOwners(k: Keys, watch: Owners, sc: Scope, o: Overlay, tx: Transaction, i: int, h: Bytes)
    requires Committing(k, sc) && Sound(k, watch, sc, o) && Pinned(sc, tx)
    ensures Owns(Forget(o, tx.txid).byOutpoint, i, h) ==>
              Owns(o.byOutpoint, i, h) && forall out :: out in tx.outputs ==> !Brings(k, watch, tx.txid, out, i, h)
  {
    hide Committing;
    ForgetValid(o, tx.txid);
    forall out | out in tx.outputs && Owns(Forget(o, tx.txid).byOutpoint, i, h)
      ensures !Brings(k, watch, tx.txid, out, i, h)
    {
      if h == k.outpoint(tx.txid, out.vout) {
        ListedUnderItsOwn(k, sc, o, tx.txid, out.vout);
      }
    }
  }

  /** The transaction confirms, and then its mempool copy comes late: item 7 owns the coin in both. */
  lemma CoinInBoth()
    ensures var w := WatchOne();
            var l := See(w, See(w, Quiet(), Confirmed(Parent())).0, Mempool(Parent())).0;
            Owns(l.record, 7, Txid(1)) && Owns(l.overlay.byOutpoint, 7, Txid(1))
  {
    hide MatchOf, Announce, ApplyTx, NoteOutputs, Forget;
    var w, sc := WatchOne(), Scope({(Txid(1), 0)}, {[1]}, (t: Hash) => [TxOutput(0, [1])]);
    var mid := See(w, Quiet(), Confirmed(Parent())).0;
    ApplyOwns(w.k, w.watch, Quiet().record, Parent(), 7, Txid(1));
    assert Brings(w.k, w.watch, Txid(1), Parent().outputs[0], 7, Txid(1));
    QuietIsSound(w.k, w.watch, sc);
    ForgetValid(Quiet().overlay, Txid(1));
    ForgetProvenance(w.k, sc, Quiet().overlay, Txid(1));
    ForgetBacked(w.k, w.watch, sc, Quiet().overlay, Txid(1));
    NoteKeeps(w.k, w.watch, sc, mid.overlay, Txid(1), Parent().outputs);
    assert Earned(w.k, w.watch, Txid(1), Parent().outputs, 7, Txid(1));
  }

  lemma QuietIsSound(k: Keys, watch: Owners, sc: Scope)
    ensures Sound(k, watch, sc, Quiet().overlay)
  {
  }

  // ----- "once the flag is down, the record is at the tip"

  /** So after a message the flag is down with the record short of the end exactly when that block was not the end. */
  lemma FlagDownAtTheEndExactly(s: Setting, chain: seq<Block>, base: int, e: Engine, m: Message, j: nat)
    requires IsChain(chain) && s.follows && EngineValid(e) && DeliversOne(s, chain, m, j)
    requires !Handle(s, e, m).outcome.Raised?
    ensures var tip := Handle(s, e, m).engine.follower.tip;
            && !Handle(s, e, m).engine.tracker.needsReconciliation && tip.Some?
            && (tip.value.hash == chain[|chain| - 1].blockHash <==> j == |chain| - 1)
  {
    hide Handle;
    FlagAfterABlock(s, e, m);
    assert j < |chain| - 1 ==> chain[j].blockHash != chain[|chain| - 1].blockHash;
  }

  /** A repeat of the tip applies nothing, takes the flag down all the same, and never fails. */
  lemma RepeatedTipClearsTheFlag(s: Setting, e: Engine, m: Message)
    requires EngineValid(e) && s.follows && BringsBlock(s, m) && e.follower.tip.Some?
    requires var b := s.parseBlock(m.body).block;
             b.blockHash == e.follower.tip.value.hash && b.prevHash != e.follower.tip.value.hash
    ensures var h := Handle(s, e, m);
            && h.outcome == Alerts([]) && h.applied == [] && h.engine.ledger == e.ledger
            && h.engine.follower == e.follower && !h.engine.tracker.needsReconciliation
  {
    hide ConfirmTx, Observed;
  }

  /** A block as it is written: a header, and transactions that are all there. */
  datatype Written = Written(header: Bytes, width: nat, forms: seq<WireForm>)

  predicate OkWritten(b: Written) {
    && |b.header| == HEADER_SIZE && b.forms != [] && Fits(|b.forms|, b.width) && OkForms(b.forms)
    && forall i :: 0 <= i < |b.forms| ==> b.forms[i].tx.outs != []
  }

  function BlockIn(dsha: Bytes -> Hash, b: Written): Block
    requires OkWritten(b)
  {
    Block(dsha(b.header), b.header[4..36], Map(FormMeaning(dsha), b.forms))
  }

  function Delivery(b: Written, seqNo: int): Message
    requires OkWritten(b)
  {
    Message(TOPIC_BLOCK, SerBlock(b.header, b.width, b.forms), seqNo)
  }

  /**
   A chain of two blocks, and a node that answers truly.  The first is delivered; the second, message 1, is
   lost; the first is published again as message 2.  The counter sees the loss and raises the flag, and the
   repeat takes it down in the same breath, with the record still one block short.
   */
  lemma FlagDownShortOfTheEnd(dsha: Bytes -> Hash, s: Setting, base: int, e: Engine, a: Written, b: Written)
    requires OkWritten(a) && OkWritten(b) && s.parseBlock == BlockParser(dsha) && s.follows
    requires var chain := [BlockIn(dsha, a), BlockIn(dsha, b)];
             IsChain(chain) && TrueOrFailing(s, chain, base) && Answers(s, chain, base)
    requires EngineValid(e) && e.follower.tip.None? && e.tracker == Tracker(map[], false)
    ensures var first := Handle(s, e, Delivery(a, 0)).engine;
            var end := RunAll(s, e, [Delivery(a, 0), Delivery(a, 2)]).engine;
            && Observed(first.tracker, TOPIC_BLOCK, 2).needsReconciliation
            && !end.tracker.needsReconciliation
            && end.follower.tip == Some(Tip(dsha(a.header), base)) && dsha(a.header) != dsha(b.header)
  {
    hide RunAll, SerBlock, TrueOrFailing, Answers, FormMeaning, BlockOf, BlockParser, Handle;
    var chain := [BlockIn(dsha, a), BlockIn(dsha, b)];
    ReadsBack(dsha, a);
    TipIsNotItsOwnParent(chain, 0);
    assert chain[0].blockHash != chain[1].blockHash;
    FirstDelivered(s, chain, base, e, Delivery(a, 0));
    var first := Handle(s, e, Delivery(a, 0)).engine;
    RepeatedTipClearsTheFlag(s, first, Delivery(a, 2));
    TwoMessages(s, e, Delivery(a, 0), Delivery(a, 2));
  }

  lemma ReadsBack(dsha: Bytes -> Hash, b: Written)
    requires OkWritten(b)
    ensures BlockParser(dsha)(SerBlock(b.header, b.width, b.forms)) == Accepted(BlockIn(dsha, b))
  {
    hide SerBlock, BlockOf, FormMeaning, Concat, SerForm, OkForms;
    forall i | 0 <= i < |b.forms| ensures 60 <= |SerForm(b.forms[i])| {
      FormIsLong(b.forms, i);
    }
    ConcatLength(SerForm, b.forms, 60);
    WrittenReads(dsha, b.header, b.width, b.forms);
  }

  lemma FormIsLong(forms: seq<WireForm>, i: nat)
    requires OkForms(forms) && i < |forms| && forms[i].tx.outs != []
    ensures 60 <= |SerForm(forms[i])|
  {
    hide SerForm, OkForm;
    FormLength(forms[i]);
  }

  /** The first message of all brings the first block of the chain. */
  lemma FirstDelivered(s: Setting, chain: seq<Block>, base: int, e: Engine, m: Message)
    requires chain != [] && TrueOrFailing(s, chain, base) && Answers(s, chain, base) && s.follows
    requires EngineValid(e) && e.follower.tip.None? && e.tracker == Tracker(map[], false)
    requires m.topic == TOPIC_BLOCK && m.seqNo == 0 && s.parseBlock(m.body) == Accepted(chain[0])
    ensures var first := Handle(s, e, m).engine;
            && first.follower.tip == Some(Tip(chain[0].blockHash, base))
            && Observed(first.tracker, TOPIC_BLOCK, 2).needsReconciliation
  {
    hide ConfirmAll, TxsOf, TrueOrFailing, Answers, PlanFor;
    FirstOnChain(s, chain, base, e.follower, 0);
    PlanLinked(s.parseBlock, s.node, e.follower, chain[0]);
  }

  lemma TwoMessages(s: Setting, e: Engine, a: Message, b: Message)
    requires EngineValid(e)
    ensures RunAll(s, e, [a, b]).engine == Handle(s, Handle(s, e, a).engine, b).engine
  {
    hide Handle;
    assert [a, b][1..] == [b] && [b][1..] == [];
    var e' := Handle(s, e, a).engine;
    assert RunAll(s, e', [b]).engine == Handle(s, e', b).engine;
  }

  // ----- "bad payload bytes never raise"

  /** The buffer ends inside the count of transactions. */
  predicate CutInsideTheCount(body: Bytes) {
    |body| > HEADER_SIZE && |body| < BodyStart(body)
  }

  /** With the real parser, a block body that does not parse raises exactly when it is cut inside its count. */
  lemma BadBlockRaisesExactly(dsha: Bytes -> Hash, s: Setting, e: Engine, m: Message)
    requires EngineValid(e) && s.parseBlock == BlockParser(dsha)
    requires InRange(m.seqNo) && m.topic == TOPIC_BLOCK && !BlockParser(dsha)(m.body).Accepted?
    ensures Handle(s, e, m).outcome == (if CutInsideTheCount(m.body) then Raised(ParserCrashed) else Alerts([]))
    ensures Handle(s, e, m).engine.ledger == e.ledger && Handle(s, e, m).applied == []
    ensures Handle(s, e, m).engine.tracker.needsReconciliation <==>
            !CutInsideTheCount(m.body) || Observed(e.tracker, m.topic, m.seqNo).needsReconciliation
  {
    hide BlockOf, Observed, BodyStart;
    BadBlockIs(dsha, m.body);
  }

  lemma BadBlockIs(dsha: Bytes -> Hash, body: Bytes)
    requires !BlockOf(dsha, body).Accepted?
    ensures BlockOf(dsha, body) == if CutInsideTheCount(body) then CountCutShort else MalformedBlock
  {
    hide TxParser, Repeat;
  }

  /** Eighty bytes of header and a first count byte that promises two more. */
  lemma CutBlockRaises(dsha: Bytes -> Hash, s: Setting, e: Engine, seqNo: int)
    requires EngineValid(e) && s.parseBlock == BlockParser(dsha) && InRange(seqNo)
    ensures Handle(s, e, Message(TOPIC_BLOCK, Zeros(80) + [0xFD], seqNo)).outcome == Raised(ParserCrashed)
  {
    hide Handle;
    var body := Zeros(80) + [0xFD];
    assert body[HEADER_SIZE] == 0xFD;
    BadBlockRaisesExactly(dsha, s, e, Message(TOPIC_BLOCK, body, seqNo));
  }
}
