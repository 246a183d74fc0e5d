# What is verified of Coldwatch

Coldwatch watches Bitcoin scripts. Mempool transactions alert and never write; confirmed blocks are
the only writers of the record; a dropped block is fetched again through a node that may answer
anything. This project models that engine, the parsers under it, the coding and cryptography that
carry its alerts and protect its columns, the store's lifecycle and the scan queue, and proves what
they are for.

The program's objects that change in place are classes here, its loops are loops, and each method is
proved against a function of values; the statements about runs are lemmas about those functions. What
such a function means is then said a second time without naming it: in the standard's own terms, by
what can be written, or over whole runs.

## Modules, by file

- `bytes.dfy`, `arith.dfy`, `bits.dfy`: byte strings, integer division, bitwise operators.
- `parsing.dfy`, `tx.dfy`, `txreader.dfy`, `txproofs.dfy`, `txexact.dfy`, `block.dfy`: the wire format.
  `Tx` and `Blocks` say what is read, `TxReader` is the cursor, `TxLocality`, `TxRoundTrip`, `TxExact`
  and `BlockProofs` are about both. The two forms are those of BIP 144, the txid that of BIP 141;
  counts may be wider than they need to be, as the program lets them.
- `matchspec.dfy`, `matcher.dfy`, `matchproofs.dfy`, `overlayproofs.dfy`: matching, the record and
  the overlay of unconfirmed coins.
- `sequence.dfy`: publisher counters and the sticky flag.
- `reconcile.dfy`, `planproofs.dfy`: the chain follower over an arbitrary node.
- `streamspec.dfy`, `stream.dfy`: the message loop.
- `ingestproofs.dfy`, `deliveryproofs.dfy`, `dropproofs.dfy`, `resumeproofs.dfy`, `seenproofs.dfy`,
  `alarmproofs.dfy`, `flagproofs.dfy`: whole runs of it. `limits.dfy`: where a natural statement needs a condition, with
  the condition and an input.
- `bech32.dfy`, `bitgroups.dfy`, `npub.dfy`: BIP 173 and public keys; `bip173.dfy`: the standard's example.
- `poly1305.dfy`, `chacha20.dfy`, `aead.dfy`, `nip44.dfy`: RFC 8439 sections 2.1 to 2.8 and NIP-44
  version 2; `chacharef.dfy`: the block function once more, as the RFC draws it.
- `storespec.dfy`, `storelife.dfy`, `store.dfy`: the tables and their transactions. `storeindex.dfy`: the store as the
  matcher's index, with other threads at work in between.
- `scanspec.dfy`, `scanproofs.dfy`, `scansteps.dfy`, `scanlate.dfy`, `supervisor.dfy`: the scan queue as a state machine,
  submissions that are late for the close, and the methods that take its steps.

## What is assumed

- SHA-256, HMAC, base64 and UTF-8 are parameters. `Inverse` asks of base64 and UTF-8 that reading
  back what was written gives it again.
- `Injective`, `Committing` and `WatchList` ask of the keyed hashes that they do not collide on a
  `Scope`, the outpoints and scripts of the run at hand; the lemmas that need it name it, the classes
  need none of it. A double SHA-256 is nowhere assumed injective: `Pinned` only says that, among the
  transactions of a run, a txid determines the outputs.
- The node is an arbitrary function from call number and request to answer. `TrueOrFailing` adds, for
  the statements about dropped blocks only, that what it says about blocks of one chain is true
  whenever it answers; `Answers`, for the statements about how far a catch-up reaches, that it does
  answer about them. A block hash covers the header alone, so serving the same block for one hash is
  part of that. `DropProofs.HonestIsTrue` gives every chain such a node.

## Where the code and its comments differ

- `handle` is documented never to raise on bad payload bytes (src/coldwatch/match/stream.py:148-155).
  A block cut inside its transaction count makes `struct.unpack_from` raise `struct.error`, which
  `_handle_block` does not catch: `Raised(ParserCrashed)`, with no flag. `Limits.CutBlockRaises` is
  such a body, `Limits.BadBlockRaisesExactly` says which they are.
- What is held back is described as already alerted (src/coldwatch/match/stream.py:181-182), but that is
  decided by txid alone: a spend is lost when its transaction was first seen incoming-only.
  `Limits.SpendHeldBack` is such a run; `AnnounceProofs.AlarmGoesOutExactly` says which alarms are
  lost, `AlarmProofs.AlarmIsSentExactly` says it in coins.
- The overlay is described as coins that exist only in the mempool
  (src/coldwatch/match/matcher.py:120). A mempool copy that arrives after its block arms a coin the
  record already holds; `Limits.CoinInBoth` is such a run, `Limits.MempoolKeepsApart` says exactly when.
- `reconciled` is described as called after a successful pass
  (src/coldwatch/match/sequence.py:167-173). A repeat of the tip clears the flag with nothing applied;
  in `Limits.FlagDownShortOfTheEnd` the record is then short of the chain, and
  `Limits.FlagDownAtTheEndExactly` says when it is not.
- A counter going from 2^32-1 to 0 is reported as a gap with nothing missing
  (src/coldwatch/match/sequence.py:121-131): `SequenceTracking.WrapIsReportedAsAGap`.
- Three kinds of answer raise an error that nothing in `_execute` catches
  (src/coldwatch/node/supervisor.py:291-325), and then the worker ends with the live futures unresolved:
  an error object whose code `int()` refuses, or whatever else makes `call` raise neither of its two
  errors (src/coldwatch/node/rpc.py:208-218); an `unspents` that cannot be walked, such as null; an
  entry whose output number is infinite. `ScanProofs.OneRequestLost` runs each of them,
  `ScanProofs.AnswerSettlesExactly` says that there are no others. In a catch-up, those errors that
  the follower does not catch either are re-raised as they are (src/coldwatch/reconcile.py:203-209,
  228-242): `Failure.Escaped`.
- `submit` is refused once closed (src/coldwatch/node/supervisor.py:211-218), but the check and the put are
  apart. A put that comes after the queue was drained is never looked at:
  `LateSubmits.OneLatePut`, and `LateSubmits.LatePutIsLostExactly` says which ones are lost.
- Unpadding checks the padded length but not that the padding is zero
  (src/coldwatch/channels/nostr/nip44.py:107-113): `Nip44.PaddingNeedNotBeZero`.

## Model

| member | source | states |
|---|---|---|
| Reconcile.DueBlocks.Next | src/coldwatch/reconcile.py:117-154 | one turn of the generator: the first does all the asking, and either raises with nothing handed out or yields the first of exactly what `PlanFor` owes; every later one moves the tip past the block handed out before, yields the next and cannot raise |
| Reconcile.DueBlocks.Begin | src/coldwatch/reconcile.py:125-150 | which blocks to wait for and the height of the last, or why they cannot be had, in the source's order of checks, with the counters and the RPC calls |
| Reconcile.DueBlocks.Resume | src/coldwatch/reconcile.py:146-154 | heights count up from the tip as it moves, one per block applied |
| Reconcile.ChainFollower.FetchGap | src/coldwatch/reconcile.py:160-193 | active chain, non-negative gap, ceiling, fetched run and final parent check, in that order, each with its own error |
| Reconcile.ChainFollower.FetchBlocks | src/coldwatch/reconcile.py:178-187 | the fetching loop is the recursive `FetchRun`: where it stops, why, and `fetched` counting what it read |
| Reconcile.ChainFollower.FetchBlock | src/coldwatch/reconcile.py:195-216 | one block by height: refusal, no connection, any other error of a call, not hex, not a block and the uncaught parser error are told apart |
| PlanProofs.GapExactly | src/coldwatch/reconcile.py:160-193 | every outcome of a gap: a reorg for a tip off the active chain, a block at or below the tip, or blocks that do not chain up; a failed catch-up for too many missing blocks; else the first failed fetch; with the counters each leaves |
| PlanProofs.RunStopsExactly | src/coldwatch/reconcile.py:178-187 | a run of fetches stops at the first fetch that fails, for its reason, or at the first block that is no child of the one before, as a reorg |
| PlanProofs.FetchedExactly | src/coldwatch/reconcile.py:203-216 | a block is fetched iff it parses from the hex given for the hash given; which of the three failures otherwise, and how many calls it took |
| PlanProofs.HeightExactly | src/coldwatch/reconcile.py:218-231 | the height is the number the node gives; an error of a call or of `int()` that is not caught escapes, everything else is a failed catch-up |
| PlanProofs.ActiveExactly | src/coldwatch/reconcile.py:233-242 | a block is off the active chain iff its confirmations are below zero |
| PlanProofs.CatchUpsAreCounted | src/coldwatch/reconcile.py:125-150 | a catch-up is counted iff the block is neither the first, nor a child of the tip, nor the tip, and every block it brought but the last was fetched |
| IngestRuns.PlanLinked | src/coldwatch/reconcile.py:117-193 | whatever the node answers, what is owed continues the chain from the tip child by child, one higher each, ends with the block that arrived, and cost at most `max_catch_up` blocks fetched and 2 + 2*max_catch_up calls to the node, failed ones included |
| IngestRuns.RunLinked | src/coldwatch/reconcile.py:117-154 | over any run of any messages against any node, all applied blocks form one hash-linked chain from the starting tip, and the tip is its end |
| IngestRuns.LinkedAt | src/coldwatch/reconcile.py:117-154 | in such a chain block i is the child of block i-1 and sits i above the first |
| DropProofs.FetchRunOnChain | src/coldwatch/reconcile.py:178-193 | on a node that serves one chain or fails, a fetched run is exactly that stretch of the chain, and it fails only where the node does |
| DropProofs.PlanOnChain | src/coldwatch/reconcile.py:117-193 | a chain block arriving at a follower whose tip is on the chain owes exactly the blocks after the tip up to it or nothing; no reorg is ever reported on the way forward; and if the node answers what it is asked about the chain's own blocks, it is owed iff it is the tip again, its child or within the ceiling, a reorg iff it lies behind the tip |
| DropProofs.RunOnChain | src/coldwatch/reconcile.py:117-193 | however deliveries were dropped, repeated, reordered or failed, what a run applied is one unbroken stretch of the chain ending at the tip |
| DropProofs.DropInsensitive | src/coldwatch/match/stream.py:168-239 | two runs from one state that began at the same block and reached the same tip applied the same blocks and left the same record, whatever was dropped, failed or sent by mempool; without mempool traffic the overlay, seen-set and alert sequence agree too |
| DropProofs.DeliveriesAgree | src/coldwatch/match/stream.py:168-239 | two runs, each with any chain blocks delivered in any order and any deliveries failing at any answer of its node: if the first and the last delivery that did not raise brought the same blocks in both, the same blocks were applied and record and tip agree; without mempool traffic so do overlay, seen-set and alerts |
| DropProofs.RunEndsAtTheLast | src/coldwatch/match/stream.py:185-219 | a run ends at the last block whose delivery did not raise, and if there was none it applied nothing |
| DropProofs.SelectionsAgree | src/coldwatch/match/stream.py:168-239 | against nodes that answer about the chain's own blocks, any two in-order selections of them with the same first and last and gaps within the ceiling, repeats and other messages between, all succeed and give the same applied blocks, record and tip (and alerts, overlay and seen-set without mempool traffic) |
| DropProofs.EveryIsWithin | src/coldwatch/match/stream.py:185-219 | delivering every block is one of those selections, whatever the ceiling |
| Stream.StreamIngest.Handle | src/coldwatch/match/stream.py:148-166 | one message takes the engine to exactly the specified state and outcome, and hands the callback exactly the anomaly of the counter |
| Stream.StreamIngest.HandleTx | src/coldwatch/match/stream.py:168-183 | the mempool path: match, arm the overlay, alert unless already announced; the record is not touched |
| Stream.StreamIngest.HandleBlock | src/coldwatch/match/stream.py:185-219 | the block path: malformed raises the flag, a failed catch-up raises the flag and re-raises, success applies all that is owed and clears the flag, and with no follower the block is applied as it stands |
| DeliveryProofs.PlainBlockIsApplied | src/coldwatch/match/stream.py:197-198 | with no follower a delivered block's own transactions are what the ledger sees and the alerts come from, and the flag is as the counter left it |
| DeliveryProofs.PlainRunSeesAll | src/coldwatch/match/stream.py:148-239 | over any run with no follower, the ledger and the alerts are those of every transaction delivered, mempool and block, one by one |
| DeliveryProofs.CountsWhatHappened | src/coldwatch/match/stream.py:148-239 | each of the seven counters moves by what the message brought and what was done with it, suppressed alerts included |
| DeliveryProofs.OutOfRangeIsRefused | src/coldwatch/match/stream.py:148-158 | a message is refused unchanged iff its counter is not one of 32 bits |
| Stream.StreamIngest.ApplyEach | src/coldwatch/match/stream.py:203-219 | asking, applying and asking again, the tip one behind, is applying everything owed and moving the tip to its end; a failure comes before anything was applied |
| Stream.StreamIngest.ApplyBlock | src/coldwatch/match/stream.py:221-239 | matching and writing alternate per transaction, with the counters |
| Stream.StreamIngest.ConfirmOne | src/coldwatch/match/stream.py:229-239 | one confirmed transaction: match against the state before it, write, alert only if its txid is new |
| Stream.SeenTransactions.Add | src/coldwatch/match/stream.py:85-97 | new exactly when absent; otherwise nothing changes; at the bound the oldest goes and is counted |
| AnnounceProofs.SeenIsAWindow | src/coldwatch/match/stream.py:85-97 | the seen-set is the last `maxlen` accepted txids, and accepted = kept + evicted |
| AnnounceProofs.TurnedAwayExactly | src/coldwatch/match/stream.py:85-97 | from empty, a txid is turned away iff it is among the last `maxlen` accepted |
| AnnounceProofs.SeeAnnounces | src/coldwatch/match/stream.py:168-183 | a transaction's batch is its whole match, or nothing exactly when its txid is remembered |
| AnnounceProofs.AtMostOneBatch | src/coldwatch/match/stream.py:168-239 | with no eviction, no txid sends two non-empty batches |
| AnnounceProofs.NoneIsLost | src/coldwatch/match/stream.py:168-239 | with no eviction, every transaction with a non-empty match has had a batch for its txid at or before it, unless known before the run |
| AnnounceProofs.AlarmGoesOutExactly | src/coldwatch/match/stream.py:168-239 | what a transaction matches goes out, by then or ever, iff it was part of what its txid matched the first time it matched anything (txid not known before the run, no eviction): the exact condition under which an alarm is lost |
| AlarmProofs.AlarmIsSentExactly | src/coldwatch/match/stream.py:168-239 | a spend of a watched coin is alarmed iff, the first time its txid matched anything, it spent a coin of that item already unspent in the chain or pending in the mempool |
| AnnounceProofs.RunAnnounces | src/coldwatch/match/stream.py:148-239 | the two statements above for a whole run of messages, whose alerts are those batches one after another |
| IngestRuns.RunIsSeeing | src/coldwatch/match/stream.py:148-239 | the ledger and alerts of a run of messages are those of its transactions seen one by one |
| ResumeProofs.FailedCatchUpLosesNothing | src/coldwatch/match/stream.py:200-219 | after a message that raised, having cost the node k answers, any further messages give the same applied blocks, alerts, record, overlay, seen-set and tip as if it had never come and the node had those k answers fewer: a later success resumes with nothing lost |
| Limits.SpendHeldBack | src/coldwatch/match/stream.py:181-182 | a concrete run in which a spend is held back because its transaction had first matched incoming-only |
| IngestRuns.FlagAfterABlock | src/coldwatch/match/stream.py:200-219 | after a block message the flag is up iff the message raised, and when it is down the tip is the block that arrived |
| Limits.FlagDownAtTheEndExactly | src/coldwatch/match/stream.py:215-219 | so the flag is down with the record at the end of the chain iff the block that arrived was the chain's last |
| Limits.FlagDownShortOfTheEnd | src/coldwatch/match/stream.py:215-219 | with the real parser, for any two written blocks that are a chain and any node that answers truly: the second is lost, the gap is seen, and a repeat of the first takes the flag down with the tip one block short |
| Limits.BadBlockRaisesExactly | src/coldwatch/match/stream.py:185-198 | with the real parser, a block body that does not parse makes `handle` raise iff it is cut inside its count, and only then goes unflagged |
| Limits.CutBlockRaises | src/coldwatch/match/stream.py:148-155 | a concrete body that does: eighty bytes of header and a count byte that promises two more |
| FlagProofs.FlagAtTheEndExactly | src/coldwatch/match/stream.py:148-219 | after any run the flag is up iff some message raised it (a loss, a malformed block or a failed catch-up) and no block applied later took it down, or it was up before and none did |
| Limits.RepeatedTipClearsTheFlag | src/coldwatch/match/stream.py:215-219 | a repeat of the tip applies nothing and clears the flag all the same |
| Matching.InMemoryWatchIndex.AddOutpoint | src/coldwatch/match/matcher.py:101-104 | an owner is added once, at the end of the list |
| Matching.InMemoryWatchIndex.DropOutpoint | src/coldwatch/match/matcher.py:106-112 | an owner is removed, and the entry with the last of them |
| RecordProofs.OwnersExactly | src/coldwatch/match/matcher.py:101-112 | an owner added owns that coin, one dropped does not, nobody else is touched, and no entry is empty or lists an item twice |
| Matching.ProvisionalOutpoints.Add | src/coldwatch/match/matcher.py:145-155 | both maps as specified, eviction of the oldest included, in bound whatever the hash does, and in agreement as long as no other transaction holds the outpoint hash |
| Matching.ProvisionalOutpoints.Release | src/coldwatch/match/matcher.py:160-172 | forgetting drops exactly the coins listed under the transaction, and keeps the maps in agreement |
| Matching.Matcher.Match | src/coldwatch/match/matcher.py:202-238 | the loops report exactly the spenders, record before overlay, then the payees, each item once per direction, and change nothing |
| Matching.Matcher.NoteUnconfirmed | src/coldwatch/match/matcher.py:240-254 | every watched output is armed in the overlay, and the record is not touched |
| Matching.Matcher.Apply | src/coldwatch/match/matcher.py:256-289 | the drop loop removes every owner of every spent coin, the add loop records every watched output, the overlay forgets the transaction |
| RecordProofs.MatchExactly | src/coldwatch/match/matcher.py:202-238 | item i is reported outgoing iff an input spends a coin it owns, incoming iff an output pays a script it watches |
| RecordProofs.ApplyOwns | src/coldwatch/match/matcher.py:256-289 | after a confirmed transaction an item owns a coin iff it did and it was not spent, or the transaction pays it to a watched script |
| RecordProofs.RecordIsWatchedUtxo | src/coldwatch/match/matcher.py:256-289 | after any confirmed transactions, item i owns outpoint o iff o is in the UTXO set folded over them and its script is watched by i, for hashes that do not collide on the outpoints of the run |
| IngestRuns.RunRecordIsWatchedUtxo | src/coldwatch/match/matcher.py:256-289 | the same after any run of messages, over the blocks it applied |
| StoreIndex.StoreIsTheRecord | src/coldwatch/match/matcher.py:256-289 | with the store as the index and any operations of other threads between any two of the matcher's calls, a lookup and its write included, an item tracked throughout has exactly the coins the in-memory record would give it |
| StoreIndex.StoreHasTheUtxos | src/coldwatch/match/matcher.py:256-289 | so it owns outpoint o iff o is in the UTXO set folded over the applied transactions and pays its script |
| StoreIndex.StoreAlarmIsExact | src/coldwatch/match/matcher.py:202-289 | and the next transaction, looked up input by input with others at work, reports it outgoing iff it spends such a coin |
| AlarmProofs.BlockRunAlarmIsExact | src/coldwatch/match/matcher.py:202-289 | in a block-only run of the engine from an empty overlay, the n-th transaction's match holds an alarm for i iff it spends a coin of the UTXO set at that point whose script i watches, coins made in the same block included |
| AlarmProofs.RunAlarmIsExact | src/coldwatch/match/matcher.py:202-289 | with mempool traffic and no overlay eviction: an alarm for i iff the transaction spends a coin i watches that is unspent in the chain so far or was made by a transaction still pending |
| OverlayProofs.AddValid | src/coldwatch/match/matcher.py:145-155 | an add keeps the two-map invariant, at most `maxlen` transactions, never evicts the one just added, and arms its coin |
| OverlayProofs.NoteSlides | src/coldwatch/match/matcher.py:145-155 | the pending transactions are a window: one that pays a watched script joins its end, and the oldest goes, and is counted, exactly when the bound is passed |
| OverlayProofs.EvictsItsCoins | src/coldwatch/match/matcher.py:151-155 | with an evicted transaction go exactly its coins |
| OverlayProofs.ForgetValid | src/coldwatch/match/matcher.py:160-172 | forgetting keeps the two-map invariant and leaves other transactions' coins alone |
| OverlayProofs.NoteKeeps | src/coldwatch/match/matcher.py:240-254 | after a mempool transaction every watched output of it is armed, whatever was evicted to make room |
| OverlayProofs.HandoverHasNoHole | src/coldwatch/match/matcher.py:284-289 | what a confirmation drops from the overlay it has just written to the record |
| OverlayProofs.StepKeepsArmed | src/coldwatch/match/matcher.py:240-289 | one transaction disarms only what a confirmed spend takes, and arms whatever it pays to a watched script |
| OverlayProofs.ArmedStaysArmed | src/coldwatch/match/matcher.py:145-289 | over any interleaving with no overlay eviction, an armed coin stays armed until a confirmed transaction spends it |
| IngestRuns.RunKeepsArmed | src/coldwatch/match/matcher.py:145-289 | the same for runs of messages |
| Limits.MempoolKeepsApart | src/coldwatch/match/matcher.py:240-254 | a mempool transaction keeps record and overlay disjoint iff none of the coins it creates is in the record already |
| Limits.CoinInBoth | src/coldwatch/match/matcher.py:284-289 | a concrete coin in both: its transaction confirms, then its mempool copy comes late |
| Limits.ConfirmKeepsApart | src/coldwatch/match/matcher.py:256-289 | a confirmed transaction always does |
| SequenceTracking.SequenceTracker.Observe | src/coldwatch/match/sequence.py:93-131 | counters, flag and reported anomaly of one message, out-of-range numbers refused unchanged |
| SequenceTracking.SequenceTracker.FlagForReconciliation | src/coldwatch/match/sequence.py:157-165 | sets the flag and nothing else |
| SequenceTracking.SequenceTracker.Reconciled | src/coldwatch/match/sequence.py:167-173 | clears the flag and nothing else |
| SequenceTracking.StepJudged | src/coldwatch/match/sequence.py:107-131 | for a publisher counter stepping by less than 2^32, a gap reports exactly what was skipped, a repeat is a repeat, a restart always hides a loss, and a step of one is misjudged only at the exact wrap |
| SequenceTracking.JudgedExactly | src/coldwatch/match/sequence.py:107-131 | every verdict by its numbers: a step back is a wrap only from the last 65536 numbers to the first 65536, otherwise a restart |
| SequenceTracking.ReportedExactly | src/coldwatch/match/sequence.py:107-131 | the anomaly carries the topic, the last number, this one, the kind of its verdict and what is missing |
| SequenceTracking.CountsWhatIsReported | src/coldwatch/match/sequence.py:93-131 | gaps, losses, restarts and duplicates are counted as they are reported, and the flag goes up with gaps and restarts |
| SequenceTracking.LossIsAccounted | src/coldwatch/match/sequence.py:93-131 | received less duplicates plus missing equals the publisher's span iff no restart was reported, and never exceeds it |
| SequenceTracking.FlagIsSticky | src/coldwatch/match/sequence.py:147-173 | the flag is up iff it was or some message broke its topic's order: no clean message takes it down |
| SequenceTracking.FlagRaisedExactly | src/coldwatch/match/sequence.py:107-131 | a message raises the flag iff it skipped others, or went from the last counter value to zero |
| SequenceTracking.WrapIsReportedAsAGap | src/coldwatch/match/sequence.py:121-131 | 2^32-1 and then 0 is reported as a gap with nothing missing, and raises the flag |
| SequenceTracking.OtherTopicsDoNotInterfere | src/coldwatch/match/sequence.py:101-105 | a topic's counters see that topic's messages only |
| TxReader.Reader.Take | src/coldwatch/match/tx.py:86-92 | the next n bytes, or an error that reads nothing |
| TxReader.Reader.Varint | src/coldwatch/match/tx.py:97-105 | compact sizes in all four widths, non-minimal ones accepted |
| TxReader.Reader.Count | src/coldwatch/match/tx.py:107-116 | a count is refused when its items could not fit in what is left |
| TxReader.Reader.Inputs | src/coldwatch/match/tx.py:161-167 | the input loop reads exactly what the grammar reads |
| TxReader.Reader.Outputs | src/coldwatch/match/tx.py:175-179 | the output loop numbers scripts by position |
| TxReader.Reader.Stack | src/coldwatch/match/tx.py:183-184 | one witness stack is skipped item by item |
| TxReader.Reader.Witness | src/coldwatch/match/tx.py:182-184 | one stack per input is skipped |
| TxReader.ReadTx | src/coldwatch/match/tx.py:135-210 | the cursor code reads exactly what the grammar reads at the front of the bytes from `start`, reports the offset after it, errors included, in a number of turns linear in the buffer; what the grammar reads is `TxExact.AcceptedExactly` |
| TxReader.ParseRawTx | src/coldwatch/match/tx.py:123-132 | a buffer is accepted iff one transaction takes up all of it |
| TxLocality.TxIsLocal | src/coldwatch/match/tx.py:135-210 | parsing depends only on the bytes it reports as its own, whatever follows them |
| TxLocality.ReadsTheSameAnywhere | src/coldwatch/match/tx.py:135-210 | the bytes from the start of a transaction to its reported end read the same in any other buffer at any other offset |
| TxLocality.PrefixFree | src/coldwatch/match/tx.py:135-210 | no accepted transaction is a proper prefix of another |
| TxExact.AcceptedExactly | src/coldwatch/match/tx.py:135-210 | bytes read as a transaction iff they are one of the two forms of BIP 144, with counts of any width, and it is what they say: each outpoint, each script at its index, whether there is a witness, and a coinbase, with no inputs, iff its one input is the null outpoint |
| TxRoundTrip.RoundTrip | src/coldwatch/match/tx.py:135-210 | either form, for any witness and non-zero flag and counts of any width, reads back as what it says, before any other bytes |
| TxRoundTrip.RoundTripAnywhere | src/coldwatch/match/tx.py:135-210 | the legacy and the segwit form of one transaction read back at any offset of any buffer, with one txid, the hash of the legacy form |
| Blocks.ParseBlock | src/coldwatch/match/block.py:60-108 | the loop over a block's transactions accepts, rejects or breaks off inside the count exactly as specified, in at most three turns per byte |
| BlockProofs.AcceptedIffTiled | src/coldwatch/match/block.py:86-108 | a block is accepted iff its transactions tile the bytes after the count with no gap or overlap |
| BlockProofs.CutShortExactlyWhenTheCountIs | src/coldwatch/match/block.py:71-81 | the third outcome, an uncaught error, occurs iff the buffer ends inside the count prefix |
| BlockProofs.BlockRoundTrip | src/coldwatch/match/block.py:60-108 | parsing inverts block serialization for any mix of legacy and segwit transactions with an output each: the header's hash, the parent in its bytes 4 to 36, every transaction |
| BlockProofs.BlockAcceptedExactly | src/coldwatch/match/block.py:60-108 | a buffer is accepted as a block iff it is header, count of any width and written transactions with nothing behind, at sixty bytes or more to each, and the block is what they say |
| Bech32Checksum.Polymod | src/coldwatch/channels/nostr/bech32.py:16-24 | the nested loops compute the fold of the step over the values, from 1 |
| Bech32Checksum.StepLinear | src/coldwatch/channels/nostr/bech32.py:18-23 | the step is linear over exclusive or, in the state and the symbol together |
| Bech32Checksum.StepInjective | src/coldwatch/channels/nostr/bech32.py:18-23 | no state but zero steps to zero on a zero symbol |
| Bech32Checksum.ChecksumExactly | src/coldwatch/channels/nostr/bech32.py:31-38 | six symbols complete a word to a valid one iff they are its created checksum: it exists and is unique |
| Bech32Checksum.ShortBurstIsCaught | src/coldwatch/channels/nostr/bech32.py:37-38 | at any length, a change confined to six consecutive symbols of a valid word makes it invalid |
| Bip173Example.ExampleDecodes | src/coldwatch/channels/nostr/bech32.py:9-83 | the longest example of BIP 173, every symbol of the set in it, encodes and decodes as the standard says: generators, final constant and character set are the standard's |
| BitGroups.Convertbits | src/coldwatch/channels/nostr/bech32.py:41-59 | the accumulator loops, padded or not, for any group sizes, give the regrouping defined by the number the bits stand for, every refusal included |
| BitGroups.RegroupingIsABijection | src/coldwatch/channels/nostr/bech32.py:41-59 | unpadded 5-to-8 gives b iff its input is the padded 8-to-5 of b, for byte strings of every length |
| BitGroups.BytesRegroup | src/coldwatch/channels/nostr/bech32.py:41-59 | every byte string has a padded regrouping, into 5-bit symbols |
| BitOrder.BytesKeepTheirBits | src/coldwatch/channels/nostr/bech32.py:41-59 | bit for bit: the padded regrouping has the bits of the bytes in order, and zeros behind them |
| Npub.DecodesExactly | src/coldwatch/channels/nostr/bech32.py:67-83 | decoding succeeds with (hrp, data) iff the string is printable, of one case, the prefix non-empty, and in lower case it is the encoding of them |
| Npub.DecodesByCharacter | src/coldwatch/channels/nostr/bech32.py:67-83 | the same in terms of characters, from 33 to 126 and of one case, with the two errors of characters |
| Npub.DecodeOfEncode | src/coldwatch/channels/nostr/bech32.py:62-83 | decoding inverts encoding for every non-empty printable lower-case prefix, digit one included, and all data |
| Npub.DecodeNpubExactly | src/coldwatch/channels/nostr/bech32.py:94-101 | a key is decoded from exactly its own encoding, in either case |
| Npub.NpubRoundTrip | src/coldwatch/channels/nostr/bech32.py:86-101 | every 32-byte key survives encode and decode; other lengths are refused |
| Npub.NpubLooks | src/coldwatch/channels/nostr/bech32.py:86-92 | a written key is npub1 and 58 more characters |
| Npub.NpubRefusedExactly | src/coldwatch/channels/nostr/bech32.py:94-101 | another prefix is refused as such, and so is another length |
| Poly1305.Poly1305Mac | src/coldwatch/crypto/poly1305.py:23-37 | the loop yields the polynomial of section 2.5 of RFC 8439 modulo 2^130-5, plus s, modulo 2^128, little-endian; other key lengths are refused |
| Poly1305.TagIsPolynomial | src/coldwatch/crypto/poly1305.py:23-37 | the tag, read little-endian, is (polynomial mod 2^130-5 + s) mod 2^128, over coefficients that are the message's sixteen-byte chunks with a one behind, at the multiplier below |
| Poly1305.MultiplierIs | src/coldwatch/crypto/poly1305.py:27 | the multiplier is the first half of the key with the top four bits of bytes 3, 7, 11, 15 and the low two of bytes 4, 8, 12 cleared |
| Poly1305.PolynomialOneMore | src/coldwatch/crypto/poly1305.py:29-36 | one more coefficient at the end is added, and then everything is multiplied |
| Poly1305.HornerIsPolynomial | src/coldwatch/crypto/poly1305.py:29-36 | the accumulator stays below the prime and equals the polynomial modulo it, from any start and for any coefficients |
| Poly1305.BlocksInjective | src/coldwatch/crypto/poly1305.py:30-35 | no two messages have the same blocks, trailing zeros and short final blocks included |
| Bits.OrAboveIsSum | src/coldwatch/crypto/poly1305.py:35 | setting the bit above the chunk is adding it |
| Bits.MaskIsRem | src/coldwatch/crypto/poly1305.py:37 | masking with ones is the remainder |
| ChaCha20.QuarterRound | src/coldwatch/crypto/chacha20.py:27-35 | the eight assignments in place are four half steps of the state |
| ChaCha20.Block | src/coldwatch/crypto/chacha20.py:38-55 | ten in-place double rounds, the final addition and the little-endian packing give the specified block |
| ChaCha20Reference.BlockIsTwentyRounds | src/coldwatch/crypto/chacha20.py:38-55 | the block is that of section 2.3 of RFC 8439: over expand 32-byte k, key, counter and nonce, twenty rounds of a four by four matrix, columns and diagonals in turn, that state added back and every word little-endian |
| ChaCha20Reference.QuarterIs | src/coldwatch/crypto/chacha20.py:27-35 | the quarter round in place is the standard's on four words, and touches no other |
| ChaCha20Reference.RotlBits | src/coldwatch/crypto/chacha20.py:23-24 | a rotation moves every bit n places around the word |
| ChaCha20Reference.XorByteBits | src/coldwatch/crypto/chacha20.py:66-68 | the keystream is added bit by bit |
| ChaCha20.ChaCha20Xor | src/coldwatch/crypto/chacha20.py:58-69 | the chunked loop equals the data against the keystream byte by byte; wrong key or nonce lengths are refused |
| ChaCha20.RotationsCancel | src/coldwatch/crypto/chacha20.py:23-24 | rotating by n and then by 32-n gives the word back |
| ChaCha20.QuarterUndone | src/coldwatch/crypto/chacha20.py:27-35 | the quarter round is a bijection, with its inverse |
| ChaCha20.RoundsUndone | src/coldwatch/crypto/chacha20.py:46-54 | any number of double rounds is a bijection on 16-word states |
| ChaCha20.XoredTwice | src/coldwatch/crypto/chacha20.py:58-69 | the same call decrypts |
| ChaCha20.XoredInParts | src/coldwatch/crypto/chacha20.py:63-68 | a message may be cut at any 64-byte boundary, the counter going on |
| ChaCha20.StatesMeetExactly | src/coldwatch/crypto/chacha20.py:38-44 | two blocks of one key and nonce start from one state iff their counters agree modulo 2^32 |
| Aead.OpenOfSeal | src/coldwatch/crypto/aead.py:54-81 | opening recovers what was sealed, for every plaintext and all associated data |
| Aead.SealedOpens | src/coldwatch/crypto/aead.py:62-81 | sealing and opening together, the refusal of other key lengths included |
| Aead.OpensExactly | src/coldwatch/crypto/aead.py:69-81 | a value opens to p iff it is what sealing p under its own first twelve bytes gives |
| Aead.MacDataInjective | src/coldwatch/crypto/aead.py:42-51 | what the tag covers determines associated data and ciphertext, for lengths below 2^64 |
| Aead.AuthenticatedPairsDiffer | src/coldwatch/crypto/aead.py:42-51 | two pairs give the authenticator the same coefficients iff they are the same pair |
| Aead.SealIs | src/coldwatch/crypto/aead.py:54-59 | a sealed value is the nonce, each plaintext byte against the keystream from the block at counter 1 on, and the tag of `MacDataIs` under the first half of the block at counter 0 |
| Aead.OneTimeKeyIs | src/coldwatch/crypto/aead.py:54-56 | the one-time key is the first 32 bytes of the block at counter 0 |
| Aead.MacDataIs | src/coldwatch/crypto/aead.py:42-51 | what is authenticated, byte for byte: each part with zeros up to a multiple of sixteen, then both lengths in eight bytes each, the associated data's first |
| Aead.KeyBlockIsNotReused | src/coldwatch/crypto/aead.py:54-59 | the bytes of a sealed plaintext come from blocks none of which starts from the state that made the one-time key, iff the plaintext is at most 64*(2^32-1) bytes |
| Aead.RefusedExactly | src/coldwatch/crypto/aead.py:69-76 | which error a key of another length and a value of fewer than 28 bytes are |
| Nip44.HkdfExpand | src/coldwatch/channels/nostr/nip44.py:44-52 | the loop yields the first L bytes of the chained blocks of RFC 5869, and fails past 255 of them |
| Nip44.ExpandsExactly | src/coldwatch/channels/nostr/nip44.py:44-52 | the expansion is the chain of RFC 5869, each block keyed over the one before, the info and its number, joined and cut |
| Nip44.PaddedLenBounds | src/coldwatch/channels/nostr/nip44.py:74-79 | the padded length is at least n, a multiple of 32, and less than a quarter, or 32, more |
| Nip44.PaddedLenIsLeast | src/coldwatch/channels/nostr/nip44.py:74-79 | between two powers of two the padded length is the least multiple, not below the length, of 32 or an eighth of the upper power |
| Nip44.PaddedLenMonotone | src/coldwatch/channels/nostr/nip44.py:74-79 | longer contents are not padded to less |
| Nip44.PaddedLenIdempotent | src/coldwatch/channels/nostr/nip44.py:74-79 | a padded length is its own padded length |
| Nip44.UnpadsExactly | src/coldwatch/channels/nostr/nip44.py:95-114 | unpadding yields u iff the bytes are the prefix for u's length, u, and any bytes up to the padded length: both prefixes, short inputs and the 65536 boundary |
| Nip44.UnpadOfPad | src/coldwatch/channels/nostr/nip44.py:82-114 | padding succeeds iff the length is 1 to 2^32-1, and unpadding inverts it |
| Nip44.PrefixIs | src/coldwatch/channels/nostr/nip44.py:82-92 | the length stands in two bytes below 65536, and after two zeros in four from there on, the highest first |
| Nip44.PaddingsDifferInTheSuffix | src/coldwatch/channels/nostr/nip44.py:95-114 | two accepted paddings of one content have one length and differ only after the content |
| Nip44.PaddingNeedNotBeZero | src/coldwatch/channels/nostr/nip44.py:107-114 | any filler at all is accepted behind the content |
| Nip44.DecryptsExactly | src/coldwatch/channels/nostr/nip44.py:131-157 | a payload decrypts to a text iff its bytes are version, nonce, encryption and MAC of something that carries a content of that text |
| Nip44.DecryptOfEncrypt | src/coldwatch/channels/nostr/nip44.py:123-157 | decryption inverts encryption |
| Nip44.WireIs | src/coldwatch/channels/nostr/nip44.py:123-128 | what is sent: version 2, the nonce, each padded byte against the keystream from counter 0 under bytes 0 to 32 and 32 to 44 of the expansion, and the MAC of both under bytes 44 to 76 |
| Nip44.KeysRefusedExactly | src/coldwatch/channels/nostr/nip44.py:65-71 | a key and a nonce of another length are refused, each with its own error |
| Nip44.UnreadExactly | src/coldwatch/channels/nostr/nip44.py:131-147 | which payloads are of another version and which are invalid, before any key is touched |
| Nip44.RefusedExactly | src/coldwatch/channels/nostr/nip44.py:148-157 | then the MAC is checked, then the padding, then the text, each with its own error |
| Nip44.EncryptsExactly | src/coldwatch/channels/nostr/nip44.py:82-92 | encryption succeeds iff the text encodes to 1 to 2^32-1 bytes |
| StoreTables.Store.CreateWatch | src/coldwatch/storage/store.py:223-232 | a tenant with a new id and the hash of its token; a hash already there is refused |
| StoreTables.Store.WatchByToken | src/coldwatch/storage/store.py:234-245 | the one tenant with that token, or none |
| StoreTables.Store.PurgeWatch | src/coldwatch/storage/store.py:257-310 | the tenant and every row under it go, nothing else, and stay gone whether the scrub after it is clean, blocked (`PurgeIncomplete`) or broken; an unknown tenant is an error |
| StoreTables.Store.AddItem | src/coldwatch/storage/store.py:312-342 | an arming item with a new id under an existing tenant, its script and label sealed to column and tenant, its script hash, chain and mode |
| StoreTables.EnrolledReadsBack | src/coldwatch/storage/store.py:312-382 | what was enrolled reads back after any operations: as long as the item is there, script and label decrypt to what they were, the keyed hash is that script's, and tenant, chain and mode are the same |
| StoreTables.DestinationReadsBack | src/coldwatch/storage/store.py:461-485 | and so does a channel: its destination, tenant, kind and acknowledgement |
| StoreTables.BindingsDiffer | src/coldwatch/storage/store.py:171-172 | what a ciphertext is bound to tells columns and tenants apart |
| StoreTables.ColumnsAreSealed | src/coldwatch/storage/store.py:312-382 | script and label are sealed under their own purposes, each with its own nonce in front |
| StoreTables.DestinationIsSealed | src/coldwatch/storage/store.py:461-485 | and so is a destination |
| StoreTables.ColumnsDiffer | src/coldwatch/storage/store.py:171-172 | the three purposes are spk, label and dest, each before the tenant in eight bytes, and no two columns are ever bound to the same thing |
| StoreTables.Store.Transition | src/coldwatch/storage/store.py:449-457 | the conditional update, and which error when it touched no row |
| StoreTables.Store.Arm | src/coldwatch/storage/store.py:384-411 | baseline and status change together, refused without effect on any other status |
| StoreTables.Store.Activate | src/coldwatch/storage/store.py:413-430 | armed to active only with a routed verified channel |
| StoreTables.Store.Pause | src/coldwatch/storage/store.py:432-433 | active to paused, otherwise an error and no change |
| StoreTables.Store.Resume | src/coldwatch/storage/store.py:435-436 | paused to active, otherwise an error and no change |
| StoreTables.Store.StopItem | src/coldwatch/storage/store.py:438-447 | any state to stopped, and the coins go |
| StoreTables.Store.AddChannel | src/coldwatch/storage/store.py:461-475 | an unverified channel with a new id under an existing tenant, its destination sealed to column and tenant, its kind and acknowledgement; what that comes to is `StoreLife.VerifiedExactly` |
| StoreTables.Store.MarkVerified | src/coldwatch/storage/store.py:487-494 | the channel is verified, and nothing else changes |
| StoreTables.Store.Route | src/coldwatch/storage/store.py:496-512 | a route with its severity within one tenant, replacing an earlier one of the same pair, with the two errors |
| StoreTables.Store.ItemsWatchingSpk | src/coldwatch/storage/store.py:527-534 | exactly the tracked items with the script, in id order |
| StoreTables.Store.ItemsOwningOutpoint | src/coldwatch/storage/store.py:536-542 | exactly the owners, in id order, and all of them tracked items |
| StoreTables.Store.AddOutpoint | src/coldwatch/storage/store.py:544-560 | a coin for an item that is still tracked, otherwise a no-op and never an error |
| StoreTables.Store.DropOutpoint | src/coldwatch/storage/store.py:562-567 | that coin of that item goes |
| StoreProofs.RunKeepsConsistent | src/coldwatch/storage/store.py:257-567 | in every state any order of operations reaches: no dangling row, routes within tenants, coins for tracked items only, and a routed verified channel for every active or paused item |
| StoreProofs.EveryDatabaseIsConsistent | src/coldwatch/storage/store.py:178-567 | so every database there can be, from an empty one on, is consistent |
| StoreLife.VerifiedExactly | src/coldwatch/storage/store.py:461-494 | in any database there can be, a channel is verified iff its test-fire was confirmed at some point while it was there |
| StoreLife.AlertsOnlyWhenProven | src/coldwatch/storage/store.py:413-430 | so every active or paused item has a routed channel whose test-fire was confirmed |
| StoreLife.ActivatesExactly | src/coldwatch/storage/store.py:413-430 | activation succeeds iff the item is armed and some verified channel is routed; which error otherwise |
| StoreLife.StatusMoves | src/coldwatch/storage/store.py:384-447 | a status changes only along arming, armed, active, paused and back, or to stopped from anywhere, by the operation of that edge |
| StoreLife.MovesExactly | src/coldwatch/storage/store.py:384-447 | arming, pausing, resuming and stopping succeed iff the item is in their state, and otherwise change nothing, with which error |
| StoreLife.MovesOneItem | src/coldwatch/storage/store.py:384-447 | a move touches the status of its item and, for arming and stopping, its coins, nothing else |
| StoreLife.PauseThenResume | src/coldwatch/storage/store.py:432-436 | pausing and resuming an active item succeed and bring back the whole store |
| StoreLife.TenantIsNewExactly | src/coldwatch/storage/store.py:223-232 | a tenant is created iff no tenant has its token |
| StoreLife.ItemIsNewExactly | src/coldwatch/storage/store.py:312-342 | an item is created iff its tenant is there, as given, arming and with no coin |
| StoreLife.ChannelIsNewExactly | src/coldwatch/storage/store.py:461-475 | a channel is created iff its tenant is there, as given, not verified and with no route |
| StoreLife.RoutesExactly | src/coldwatch/storage/store.py:496-512 | a route is laid iff item and channel are there and of one tenant, with its severity, and no other route changes |
| StoreLife.RouteStands | src/coldwatch/storage/store.py:496-512 | a route keeps its severity, whatever is done, until it is laid again or its item or channel goes |
| StoreLife.PurgeReports | src/coldwatch/storage/store.py:257-287 | a purge, or another try at its scrub, is done iff the scrub was clean; which of the two errors otherwise |
| StoreProofs.ArmedAtMostOnce | src/coldwatch/storage/store.py:384-411 | after a successful arm, whatever is done in between, a second one is refused and changes nothing |
| StoreProofs.NeverGoesBack | src/coldwatch/storage/store.py:384-457 | an item's status only moves forward through its life |
| StoreProofs.StoppedIsTerminal | src/coldwatch/storage/store.py:438-447 | a stopped item stays stopped and never gets a coin |
| StoreProofs.PurgeIsExact | src/coldwatch/storage/store.py:257-278 | a purge removes exactly the tenant's rows: everyone else's are as they were |
| StoreProofs.PurgedForEver | src/coldwatch/storage/store.py:257-278 | nothing of a purged tenant ever comes back |
| StoreProofs.TenantsAreIsolated | src/coldwatch/storage/store.py:223-567 | an operation that names nothing of a tenant changes none of its items, coins, channels or routes |
| StoreProofs.StaleWriteIsSafe | src/coldwatch/storage/store.py:544-560 | a write after a lookup, with anything in between, never fails and takes effect iff the item is still tracked, and then it is the same tenant's item with the same script |
| StoreIndex.BaselineIsTheCoins | src/coldwatch/storage/store.py:384-411 | a successful arm leaves the item tracked with exactly the scanned coins, which is where those statements start |
| StoreProofs.IdentityIsForEver | src/coldwatch/storage/schema.py:29-77 | an id once issued names what it named, or nothing, for ever: only an item's status and a channel's verification change |
| StoreProofs.TokenFindsItsTenant | src/coldwatch/storage/schema.py:29-37 | a token finds the tenant it was minted for and no other, for as long as that tenant is there |
| StoreProofs.NewIdsAreNew | src/coldwatch/storage/schema.py:29-77 | a new id is one no row of its table has had |
| Supervisor.ScanSupervisor.Submit | src/coldwatch/node/supervisor.py:205-218 | refused when closed or full, otherwise queued last with a pending future |
| Supervisor.ScanSupervisor.TakeQueued | src/coldwatch/node/supervisor.py:237-260 | the backlog loop takes requests from the front until the batch is full, the queue dry or the sentinel met |
| Supervisor.ScanSupervisor.Fire | src/coldwatch/node/supervisor.py:226-235 | the batch fails at shutdown, otherwise what was not cancelled goes to the node, one descriptor a script |
| Supervisor.ScanSupervisor.Answered | src/coldwatch/node/supervisor.py:291-330 | every answer of the node settles the scan in flight as specified, or ends the worker when its error is caught nowhere |
| Supervisor.ScanSupervisor.ReadUnspents | src/coldwatch/node/supervisor.py:308-325 | malformed, or broken by an uncaught error, iff the first entry that is not an unspent is of that kind; otherwise each script asked about gets its own unspents in node order |
| Supervisor.ScanSupervisor.FailAll | src/coldwatch/node/supervisor.py:345-348 | whatever is not done fails, whatever is done stays |
| Supervisor.ScanSupervisor.Close | src/coldwatch/node/supervisor.py:176-190 | later submissions are refused and the worker is woken; the node is told to abort iff a scan is in flight; a second call does nothing |
| Supervisor.ScanSupervisor.Drain | src/coldwatch/node/supervisor.py:350-357 | every request still queued fails, in order |
| ScanProofs.EveryStateIsValid | src/coldwatch/node/supervisor.py:119-357 | so every state a new supervisor can reach is such a state |
| ScanProofs.RunKeepsValid | src/coldwatch/node/supervisor.py:226-357 | any interleaving of callers, worker, node and shutdown keeps: order, batch sizes, and no request without an answer or a place |
| ScanProofs.BatchesAreRuns | src/coldwatch/node/supervisor.py:237-273 | the batches joined are the first requests accepted in order, each of 1 to `batch_max` |
| ScanProofs.NeverRevised | src/coldwatch/node/supervisor.py:345-357 | a future once done never changes |
| ScanSteps.FateIs | src/coldwatch/node/supervisor.py:205-357 | what each step does to each future that is not done: cancelled, running, failed for which reason, or its baseline |
| ScanSteps.AcceptedExactly | src/coldwatch/node/supervisor.py:205-218 | a request is queued, last and pending, iff the supervisor is open and the queue has room |
| ScanSteps.QueueIsBounded | src/coldwatch/node/supervisor.py:132-132 | over any steps a bounded queue stays within its bound, the sentinel included |
| ScanSteps.TakesUntil | src/coldwatch/node/supervisor.py:252-259 | a backlog is taken until the batch is full, the queue dry or the sentinel met |
| ScanSteps.ScansExactly | src/coldwatch/node/supervisor.py:226-278 | the node is asked iff some request in hand has not been cancelled, for exactly those, and the worker ends iff the supervisor is closed |
| ScanSteps.AnswersAreCounted | src/coldwatch/node/supervisor.py:301-303 | each answer to a scan is counted once |
| ScanProofs.AnswerSettlesExactly | src/coldwatch/node/supervisor.py:291-330 | an answer settles every live request and no other: all to one failure, or each to its own unspents; it settles nothing and ends the worker iff its handling raises an error caught nowhere: the call raised something else than its two errors, the list cannot be walked, or the first entry that is not an unspent has an infinite output number |
| ScanProofs.OwnCoinsAreOwn | src/coldwatch/node/supervisor.py:308-325 | a script's unspents are the entries that bear it, no more and no fewer |
| ScanProofs.OwnCoinsExactly | src/coldwatch/node/supervisor.py:308-325 | a coin is in a script's baseline iff some entry lists it, with the script and output number as they stand and the txid byte for byte in reverse |
| ScanProofs.OwnCoinsInOrder | src/coldwatch/node/supervisor.py:308-325 | and in the node's order |
| ScanProofs.DescriptorsAreDistinct | src/coldwatch/node/supervisor.py:280-288 | one descriptor for each distinct script of the live requests |
| ScanProofs.NothingUnresolvedAfterShutdown | src/coldwatch/node/supervisor.py:176-194 | closed, drained and the worker gone by its own way out: no request is unresolved |
| ScanProofs.ShutdownResolvesEverything | src/coldwatch/node/supervisor.py:176-235 | from any reachable state, closing, draining, one answer whose error, if any, is caught, and one turn of the worker resolve everything |
| ScanProofs.TheCrashedAreLostForGood | src/coldwatch/node/supervisor.py:291-325 | after a crash on such an answer, what was in flight runs for ever: no steps settle it |
| ScanProofs.OnlyTheCrashedAreLost | src/coldwatch/node/supervisor.py:291-325 | and once closed and drained exactly those requests are unresolved, after any further steps |
| ScanProofs.OneRequestLost | src/coldwatch/node/supervisor.py:291-325 | for each such answer, a run in which that happens |
| LateSubmits.NoneForgottenLate | src/coldwatch/node/supervisor.py:205-218 | with the check and the put of a submission apart and `close` between them, every request is still done, in hand, in flight or in the queue |
| LateSubmits.LatePutIsLostExactly | src/coldwatch/node/supervisor.py:176-218 | after the one drain, with the worker gone, a request is settled iff it was put before the drain: a later one is pending for ever unless its caller cancels it |
| LateSubmits.OneLatePut | src/coldwatch/node/supervisor.py:205-218 | a concrete run in which that happens |

## Left out

- SHA-256, HMAC and HKDF-Extract internals, secp256k1, Schnorr, ECDH, base64 tables, UTF-8: other
  people's libraries, parameters here.
- ZMQ, HTTP RPC, SMTP, WebSocket and relay plumbing, credential loading, alert templates, `tools/`:
  I/O, or settled by reading one function.
- Exceptions out of a database-backed index in the middle of a block: the index of the engine's classes
  is the in-memory one, and `StoreIndex` carries its record over to the store, on values.
- Anomaly callbacks that raise.
- Aead.MacDataInjective: asks for lengths below 2^64, which is what the program can pack.
- Random nonces and tokens: a seal takes the nonce that was drawn, a tenant the token.
- Columns of the store that no modelled operation reads or changes: balances, drip rates, tenant status,
  timestamps, the outbox; and the lookups that only list rows. Modes and severities are enumerations, so
  their `CHECK` constraints cannot fail.
- SQLite below a transaction (pages, WAL, `VACUUM`, `secure_delete`, busy timeouts): a method is one
  atomic step, and how a scrub came out is a parameter.
- Reorg repair: not in the program, which refuses instead.
- StoreTables.Store.WatchByToken: finds the tenant; the status, balance and undelivered-alarm columns of
  the row it returns are not modelled.
- Supervisor.ScanSupervisor.Submit: takes its check and its put in one step; `LateSubmits` takes them
  apart, on values.
- Supervisor.ScanSupervisor.Fire: does not model the wall-clock window, a batch may be fired at any
  moment. A `close` between its stop check and the in-flight flag is a close right after it, but for the
  abort, which is then not sent. Signal handlers and `atexit` are not modelled.
- Supervisor.ScanSupervisor.Close: says whether the abort is sent; the abort reaches the worker as the
  answer of its scan. The join and its timeout are not modelled, nor an abort that itself raises.
- Supervisor.ScanSupervisor.Answered: delivers along the live requests; the program goes script by
  script, which resolves the same futures to the same values in another order.
- Nip44.PaddedLenBounds: takes the integer logarithm where the program takes the floor of `math.log2`;
  they agree for lengths below 2^32.
