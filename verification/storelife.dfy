/** What each operation of the store does and when it is refused, and what runs of them come to. */
module StoreLife {
  import opened ByteStrings
  import opened StoreSpec
  import opened StoreProofs

  // ----- one operation

  /** The two states between which an operation on its own item moves it. */
  predicate Edge(op: Op, i: int, from: Status, to: Status) {
    || (op.Arm? && op.itemId == i && from == Arming && to == Armed)
    || (op == Activate(i) && from == Armed && to == Active)
    || (op == Pause(i) && from == Active && to == Paused)
    || (op == Resume(i) && from == Paused && to == Active)
    || (op == StopItem(i) && to == Stopped)
  }

  /** A status changes along the edges of the diagram and in no other way, and then the operation says `Done`. */
  lemma StatusMoves(db: Database, op: Op, i: int)
    requires i in db.items && i <= db.lastItem
    ensures var (db', outcome) := After(db, op);
            i in db'.items ==>
              var was, now := db.items[i].status, db'.items[i].status;
              && (was != now ==> Edge(op, i, was, now) && outcome == Done)
              && (forall to :: Edge(op, i, was, to) && outcome == Done ==> now == to)
  {
    hide HasProvenChannel;
  }

  /** Arming, pausing, resuming and stopping succeed exactly from their state, and are refused with no effect. */
  lemma MovesExactly(db: Database, op: Op, i: int)
    requires (op.Arm? && op.itemId == i) || op == Pause(i) || op == Resume(i) || op == StopItem(i)
    ensures var (db', outcome) := After(db, op);
            && (outcome == Done <==> i in db.items && exists to :: Edge(op, i, db.items[i].status, to))
            && (outcome != Done ==> db' == db)
            && (outcome == UnknownRow <==> i !in db.items)
            && (outcome != Done && outcome != UnknownRow ==> outcome == if op.Arm? then NotArmable else BadTransition)
  {
    if i in db.items {
      var was := db.items[i].status;
      var to := if op.Arm? then Armed else if op.Pause? then Paused else if op.Resume? then Active else Stopped;
      assert Edge(op, i, was, to) <==> exists any :: Edge(op, i, was, any);
    }
  }

  /** Activation succeeds exactly for an armed item with a routed channel whose test-fire was confirmed. */
  lemma ActivatesExactly(db: Database, i: int)
    ensures var (db', outcome) := After(db, Activate(i));
            && (outcome == Done <==>
                  && i in db.items && db.items[i].status == Armed
                  && exists c :: (i, c) in db.routes && c in db.channels && db.channels[c].verified)
            && (outcome == UnknownRow <==> i !in db.items)
            && (outcome != Done && outcome != UnknownRow ==> outcome == NotActivatable)
            && (outcome != Done ==> db' == db)
  {
  }

  /** A move touches the status of its item, and at most the coins of that item. */
  lemma MovesOneItem(db: Database, op: Op, i: int)
    requires (op.Arm? && op.itemId == i) || op == Activate(i) || op == Pause(i) || op == Resume(i) || op == StopItem(i)
    ensures var db' := After(db, op).0;
            && db' == db.(items := db'.items, utxo := db'.utxo) && db'.items.Keys == db.items.Keys
            && (forall j :: j in db.items ==> db'.items[j] == db.items[j].(status := db'.items[j].status))
            && (forall j :: j in db.items && j != i ==> db'.items[j] == db.items[j])
            && (!op.Arm? && !op.StopItem? ==> db'.utxo == db.utxo)
  {
    hide HasProvenChannel;
  }

  /** Arming adds the scanned coins to the item's own, and stopping takes all of them. */
  lemma MovesCoins(db: Database, i: int, hs: seq<Bytes>)
    ensures var (armed, outcome) := After(db, Arm(i, hs));
            forall j, h :: (j, h) in armed.utxo <==> (j, h) in db.utxo || (outcome == Done && j == i && h in hs)
    ensures var (stopped, outcome) := After(db, StopItem(i));
            forall j, h :: (j, h) in stopped.utxo <==> (j, h) in db.utxo && !(outcome == Done && j == i)
  {
  }

  /** Pausing and resuming brings an active item back, and with it the whole store. */
  lemma PauseThenResume(db: Database, i: int)
    requires i in db.items && db.items[i].status == Active
    ensures var (paused, first) := After(db, Pause(i));
            var (resumed, second) := After(paused, Resume(i));
            && first == Done && paused.items[i].status == Paused && second == Done && resumed == db
  {
    var paused := After(db, Pause(i)).0;
    assert After(paused, Resume(i)).0.items == db.items;
  }

  /** A tenant is new unless some tenant has its token; it brings no row but its own. */
  lemma TenantIsNewExactly(db: Database, tokenHash: Hash)
    ensures var (db', outcome) := After(db, CreateWatch(tokenHash));
            if tokenHash in db.watches.Values then outcome == TokenTaken && db' == db
            else
              && outcome.Created?
              && db' == db.(watches := db.watches[outcome.id := tokenHash], lastWatch := outcome.id)
  {
  }

  /** An item is enrolled exactly under a tenant that is there, as given, arming and with no coin. */
  lemma ItemIsNewExactly(db: Database, row: Enrolled)
    requires Consistent(db)
    ensures var (db', outcome) := After(db, AddItem(row));
            if row.watchId !in db.watches then outcome == UnknownRow && db' == db
            else
              && outcome.Created?
              && db' == db.(items := db.items[outcome.id := Item(row, Arming)], lastItem := outcome.id)
              && forall h :: (outcome.id, h) !in db'.utxo
  {
    hide TokensAreUnique, RoutesStayInTheTenant, CoinsAreTracked, AlertableIsDeliverable;
  }

  /** A channel is added exactly under a tenant that is there, as given, not verified and not routed. */
  lemma ChannelIsNewExactly(db: Database, row: Destination)
    requires Consistent(db)
    ensures var (db', outcome) := After(db, AddChannel(row));
            if row.watchId !in db.watches then outcome == UnknownRow && db' == db
            else
              && outcome.Created?
              && db' == db.(channels := db.channels[outcome.id := Channel(row, false)], lastChannel := outcome.id)
              && forall i :: (i, outcome.id) !in db'.routes
  {
    hide TokensAreUnique, RoutesStayInTheTenant, CoinsAreTracked, AlertableIsDeliverable;
  }

  /** A route is laid exactly between an item and a channel of one tenant. */
  lemma RoutesExactly(db: Database, i: int, c: int, severity: Severity)
    ensures var (db', outcome) := After(db, Route(i, c, severity));
            && (outcome == Done <==>
                  i in db.items && c in db.channels && db.items[i].row.watchId == db.channels[c].row.watchId)
            && (outcome == UnknownRow <==> i !in db.items || c !in db.channels)
            && (outcome != Done && outcome != UnknownRow ==> outcome == DifferentWatches)
            && db' == (if outcome == Done then db.(routes := db'.routes) else db)
            && (outcome == Done ==> forall r :: r in db'.routes <==> r in db.routes || r == (i, c))
            && (outcome == Done ==> forall r :: r in db'.routes ==>
                  db'.routes[r] == if r == (i, c) then severity else db.routes[r])
  {
  }

  /** How a purge is reported: done only when the scrub was clean. */
  lemma PurgeReports(db: Database, w: int, scrub: Scrub)
    ensures var outcome := After(db, PurgeWatch(w, scrub)).1;
            && (outcome == UnknownRow <==> w !in db.watches)
            && (outcome == Done <==> w in db.watches && scrub == Clean)
            && (outcome == PurgeIncomplete <==> w in db.watches && scrub == Blocked)
            && (outcome == ScrubFailed <==> w in db.watches && scrub == Broken)
    ensures After(db, FinishPurge(scrub)).0 == db
    ensures After(db, FinishPurge(scrub)).1 == Done <==> scrub == Clean
    ensures After(db, FinishPurge(scrub)).1 == PurgeIncomplete <==> scrub == Blocked
  {
  }

  // ----- runs

  lemma {:induction false} RunOneMore(db: Database, ops: seq<Op>, op: Op)
    ensures Run(db, ops + [op]) == After(Run(db, ops), op).0
    decreases |ops|
  {
    hide After;
    if ops == [] {
      assert ([] + [op])[1..] == [];
      assert Run(db, [op]) == Run(After(db, op).0, []);
    } else {
      assert (ops + [op])[1..] == ops[1..] + [op];
      RunOneMore(After(db, ops[0]).0, ops[1..], op);
    }
  }

  /** Where in a run the channel's test-fire was confirmed, while the channel was there. */
  ghost predicate MarkedAt(ops: seq<Op>, c: int, i: int) {
    0 <= i < |ops| && ops[i] == MarkVerified(c) && c in Run(Empty(), ops[..i]).channels
  }

  ghost predicate Marked(ops: seq<Op>, c: int) {
    exists i :: MarkedAt(ops, c, i)
  }

  lemma StepVerifies(db: Database, op: Op, c: int)
    requires c in After(db, op).0.channels && ChannelsHaveTenants(db)
    ensures After(db, op).0.channels[c].verified <==>
            c in db.channels && (db.channels[c].verified || op == MarkVerified(c))
  {
    hide HasProvenChannel;
  }

  /** A channel that has gone never comes back, so one that is there was there at every mark. */
  lemma MarkedSoFar(ops: seq<Op>, op: Op, c: int)
    ensures Marked(ops + [op], c) <==> Marked(ops, c) || (op == MarkVerified(c) && c in Run(Empty(), ops).channels)
  {
    hide Run;
    var more := ops + [op];
    assert more[..|ops|] == ops;
    forall i | 0 <= i < |ops| ensures MarkedAt(more, c, i) <==> MarkedAt(ops, c, i) {
      assert more[..i] == ops[..i];
    }
    if i :| MarkedAt(more, c, i) {
      assert i < |ops| ==> MarkedAt(ops, c, i);
    }
    if i :| MarkedAt(ops, c, i) {
      assert MarkedAt(more, c, i);
    }
    if op == MarkVerified(c) && c in Run(Empty(), ops).channels {
      assert MarkedAt(more, c, |ops|);
    }
  }

  lemma NothingAtFirst(c: int)
    ensures c !in Run(Empty(), []).channels
  {
  }

  lemma NotMarkedUnissued(ops: seq<Op>, c: int)
    requires c > Run(Empty(), ops).lastChannel
    ensures !Marked(ops, c)
  {
    hide Run;
    if i :| MarkedAt(ops, c, i) {
      RunSplit(Empty(), ops[..i], ops[i..]);
      assert ops[..i] + ops[i..] == ops;
      IdentityIsForEver(Run(Empty(), ops[..i]), ops[i..], c);
      EveryDatabaseIsConsistent(ops[..i]);
      ConsistentRows(Run(Empty(), ops[..i]));
    }
  }

  lemma {:induction false} RunSplit(db: Database, a: seq<Op>, b: seq<Op>)
    ensures Run(db, a + b) == Run(Run(db, a), b)
    decreases |a|
  {
    hide After;
    if a == [] {
      assert a + b == b;
    } else {
      assert (a + b)[1..] == a[1..] + b;
      RunSplit(After(db, a[0]).0, a[1..], b);
    }
  }

  /** In any database there can be, a channel is verified exactly when its test-fire has been confirmed. */
  lemma {:induction false} VerifiedExactly(ops: seq<Op>, c: int)
    requires c in Run(Empty(), ops).channels
    ensures Run(Empty(), ops).channels[c].verified <==> Marked(ops, c)
    decreases |ops|
  {
    hide Run, After, Marked, Consistent;
    if ops == [] {
      NothingAtFirst(c);
    } else {
      var before, op := ops[..|ops| - 1], ops[|ops| - 1];
      var db := Run(Empty(), before);
      assert ops == before + [op];
      RunOneMore(Empty(), before, op);
      EveryDatabaseIsConsistent(before);
      ConsistentRows(db);
      StepVerifies(db, op, c);
      MarkedSoFar(before, op, c);
      if c in db.channels {
        VerifiedExactly(before, c);
      } else {
        StepKeepsChannel(db, op, c);
        NotMarkedUnissued(before, c);
      }
    }
  }

  /** So nothing ever alerts that has no routed channel whose test-fire was confirmed. */
  lemma AlertsOnlyWhenProven(ops: seq<Op>, i: int)
    requires var db := Run(Empty(), ops);
             i in db.items && (db.items[i].status == Active || db.items[i].status == Paused)
    ensures exists c :: (i, c) in Run(Empty(), ops).routes && Marked(ops, c)
  {
    hide Run, Marked;
    EveryDatabaseIsConsistent(ops);
    var db := Run(Empty(), ops);
    ProvenChannel(db, i);
    var c :| c in db.channels && (i, c) in db.routes && db.channels[c].verified;
    VerifiedExactly(ops, c);
  }

  lemma ProvenChannel(db: Database, i: int)
    requires Consistent(db) && i in db.items && (db.items[i].status == Active || db.items[i].status == Paused)
    ensures exists c :: c in db.channels && (i, c) in db.routes && db.channels[c].verified
  {
  }

  /** A route keeps its severity until it is laid again, for as long as its item and channel are there. */
  lemma {:induction false} RouteStands(db: Database, ops: seq<Op>, i: int, c: int)
    requires Consistent(db) && (i, c) in db.routes && forall s :: Route(i, c, s) !in ops
    ensures var later := Run(db, ops);
            i in later.items && c in later.channels ==>
              (i, c) in later.routes && later.routes[(i, c)] == db.routes[(i, c)]
    decreases |ops|
  {
    hide After, Consistent;
    if ops != [] {
      var next := After(db, ops[0]).0;
      StepKeepsConsistent(db, ops[0]);
      ConsistentRows(db);
      StepKeepsRoute(db, ops[0], i, c);
      if i in next.items && c in next.channels {
        RouteStands(next, ops[1..], i, c);
      } else {
        IdentityIsForEver(next, ops[1..], i);
        IdentityIsForEver(next, ops[1..], c);
      }
    }
  }

  lemma StepKeepsRoute(db: Database, op: Op, i: int, c: int)
    requires NothingDangles(db) && (i, c) in db.routes && forall s :: op != Route(i, c, s)
    ensures var db' := After(db, op).0;
            && i <= db'.lastItem && c <= db'.lastChannel
            && (i in db'.items && c in db'.channels ==> (i, c) in db'.routes && db'.routes[(i, c)] == db.routes[(i, c)])
  {
    hide HasProvenChannel;
  }
}
