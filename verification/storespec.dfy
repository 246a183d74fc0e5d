/** The tables that decide what is watched, and what each operation on them does. */
module StoreSpec {
  import opened ByteStrings

  datatype Status = Arming | Armed | Active | Paused | Stopped

  /** The states in which an item's coins are kept. */
  predicate Tracked(s: Status) {
    s.Armed? || s.Active? || s.Paused?
  }

  datatype Mode = InfoMode | Mute

  datatype Severity = Info | Alarm

  /** The script and the label are there as ciphertexts; the script is matched by its keyed hash. */
  datatype Enrolled = Enrolled(watchId: int, chain: string, spkHmac: Bytes, spkCt: Bytes, labelCt: Bytes, mode: Mode)

  datatype Item = Item(row: Enrolled, status: Status)

  datatype Destination = Destination(watchId: int, kind: string, destCt: Bytes, privacyAck: bool)

  datatype Channel = Channel(row: Destination, verified: bool)

  /** The last ids are what AUTOINCREMENT keeps: the highest each table has ever issued. */
  datatype Database = Database(
    watches: map<int, Hash>, items: map<int, Item>, utxo: set<(int, Bytes)>, channels: map<int, Channel>,
    routes: map<(int, int), Severity>, lastWatch: nat, lastItem: nat, lastChannel: nat)

  datatype Outcome =
    | Done | Created(id: int) | UnknownRow | NotArmable | NotActivatable | BadTransition | DifferentWatches
    | TokenTaken | PurgeIncomplete | ScrubFailed

  /** How rebuilding the file and cutting the log came out: clean, blocked by another connection, or broken for good. */
  datatype Scrub = Clean | Blocked | Broken

  function Scrubbed(scrub: Scrub): Outcome {
    match scrub
    case Clean => Done
    case Blocked => PurgeIncomplete
    case Broken => ScrubFailed
  }

  datatype Op =
    | CreateWatch(tokenHash: Hash)
    | PurgeWatch(watchId: int, scrub: Scrub)
    | FinishPurge(scrub: Scrub)
    | AddItem(enrolled: Enrolled)
    | Arm(itemId: int, outpoints: seq<Bytes>)
    | Activate(itemId: int)
    | Pause(itemId: int)
    | Resume(itemId: int)
    | StopItem(itemId: int)
    | AddChannel(destination: Destination)
    | MarkVerified(channelId: int)
    | Route(itemId: int, channelId: int, severity: Severity)
    | AddOutpoint(itemId: int, outpoint: Bytes)
    | DropOutpoint(itemId: int, outpoint: Bytes)

  function Empty(): Database {
    Database(map[], map[], {}, map[], map[], 0, 0, 0)
  }

  function SetStatus(db: Database, i: int, s: Status): Database
    requires i in db.items
  {
    db.(items := db.items[i := db.items[i].(status := s)])
  }

  /** A conditional status update, with the two errors it may come back with. */
  function Moved(db: Database, i: int, from: Status, to: Status, refusal: Outcome): (Database, Outcome) {
    if i !in db.items then (db, UnknownRow)
    else if db.items[i].status != from then (db, refusal)
    else (SetStatus(db, i, to), Done)
  }

  function Coins(i: int, hs: seq<Bytes>): set<(int, Bytes)> {
    set h | h in hs :: (i, h)
  }

  /** A delivery channel of the item has had its test-fire confirmed. */
  predicate HasProvenChannel(db: Database, i: int) {
    exists c :: c in db.channels && (i, c) in db.routes && db.channels[c].verified
  }

  /** A tenant and all that hangs from it, gone. */
  function Purged(db: Database, w: int): Database {
    var items := map i | i in db.items && db.items[i].row.watchId != w :: db.items[i];
    var channels := map c | c in db.channels && db.channels[c].row.watchId != w :: db.channels[c];
    db.(watches := db.watches - {w}, items := items, channels := channels,
        utxo := (set r | r in db.utxo && r.0 in items),
        routes := (map r | r in db.routes && r.0 in items && r.1 in channels :: db.routes[r]))
  }

  function After(db: Database, op: Op): (Database, Outcome) {
    match op
    case CreateWatch(tokenHash) =>
      if tokenHash in db.watches.Values then (db, TokenTaken) else
      var id := db.lastWatch + 1;
      (db.(watches := db.watches[id := tokenHash], lastWatch := id), Created(id))
    case PurgeWatch(w, scrub) => if w !in db.watches then (db, UnknownRow) else (Purged(db, w), Scrubbed(scrub))
    case FinishPurge(scrub) => (db, Scrubbed(scrub))
    case AddItem(row) =>
      if row.watchId !in db.watches then (db, UnknownRow) else
      var id := db.lastItem + 1;
      (db.(items := db.items[id := Item(row, Arming)], lastItem := id), Created(id))
    case Arm(i, hs) =>
      var (armed, outcome) := Moved(db, i, Arming, Armed, NotArmable);
      if !outcome.Done? then (db, outcome) else (armed.(utxo := armed.utxo + Coins(i, hs)), Done)
    case Activate(i) =>
      if i in db.items && !HasProvenChannel(db, i) then (db, NotActivatable)
      else Moved(db, i, Armed, Active, NotActivatable)
    case Pause(i) => Moved(db, i, Active, Paused, BadTransition)
    case Resume(i) => Moved(db, i, Paused, Active, BadTransition)
    case StopItem(i) =>
      if i !in db.items then (db, UnknownRow) else
      (SetStatus(db, i, Stopped).(utxo := (set r | r in db.utxo && r.0 != i)), Done)
    case AddChannel(row) =>
      if row.watchId !in db.watches then (db, UnknownRow) else
      var id := db.lastChannel + 1;
      (db.(channels := db.channels[id := Channel(row, false)], lastChannel := id), Created(id))
    case MarkVerified(c) =>
      if c !in db.channels then (db, UnknownRow) else
      (db.(channels := db.channels[c := db.channels[c].(verified := true)]), Done)
    case Route(i, c, severity) =>
      if i !in db.items || c !in db.channels then (db, UnknownRow)
      else if db.items[i].row.watchId != db.channels[c].row.watchId then (db, DifferentWatches)
      else (db.(routes := db.routes[(i, c) := severity]), Done)
    case AddOutpoint(i, h) =>
      (if i in db.items && Tracked(db.items[i].status) then db.(utxo := db.utxo + {(i, h)}) else db, Done)
    case DropOutpoint(i, h) => (db.(utxo := db.utxo - {(i, h)}), Done)
  }

  function Run(db: Database, ops: seq<Op>): Database
    decreases |ops|
  {
    if ops == [] then db else Run(After(db, ops[0]).0, ops[1..])
  }

  /** Tracked items with this script. */
  predicate Watches(db: Database, i: int, spk: Bytes) {
    i in db.items && db.items[i].row.spkHmac == spk && Tracked(db.items[i].status)
  }

  /** Ids up to `n`, in order. */
  function Select(n: nat, p: int -> bool): (ids: seq<int>)
    ensures forall i :: i in ids <==> 0 < i <= n && p(i)
    ensures forall a, b :: 0 <= a < b < |ids| ==> ids[a] < ids[b]
  {
    if n == 0 then [] else
    var before := Select(n - 1, p);
    assert forall a :: 0 <= a < |before| ==> before[a] in before;
    before + if p(n) then [n] else []
  }

  function OwnerOf(db: Database, h: Bytes): int -> bool {
    i => (i, h) in db.utxo
  }

  function WatcherOf(db: Database, spk: Bytes): int -> bool {
    i => Watches(db, i, spk)
  }

  function Owning(db: Database, h: Bytes): seq<int> {
    Select(db.lastItem, OwnerOf(db, h))
  }

  function Watching(db: Database, spk: Bytes): seq<int> {
    Select(db.lastItem, WatcherOf(db, spk))
  }
}

module StoreProofs {
  import opened ByteStrings
  import opened StoreSpec

  ghost predicate WatchesIssued(db: Database) {
    forall w :: w in db.watches ==> 0 < w <= db.lastWatch
  }

  ghost predicate ItemsHaveTenants(db: Database) {
    forall i :: i in db.items ==> db.items[i].row.watchId in db.watches && 0 < i <= db.lastItem
  }

  ghost predicate ChannelsHaveTenants(db: Database) {
    forall c :: c in db.channels ==> db.channels[c].row.watchId in db.watches && 0 < c <= db.lastChannel
  }

  ghost predicate LinksHaveEnds(db: Database) {
    && (forall i, c :: (i, c) in db.routes ==> i in db.items && c in db.channels)
    && (forall i, h :: (i, h) in db.utxo ==> i in db.items)
  }

  /** Every row's parents exist, and every id was issued. */
  ghost predicate NothingDangles(db: Database) {
    WatchesIssued(db) && ItemsHaveTenants(db) && ChannelsHaveTenants(db) && LinksHaveEnds(db)
  }

  ghost predicate TokensAreUnique(db: Database) {
    forall v, w :: v in db.watches && w in db.watches && db.watches[v] == db.watches[w] ==> v == w
  }

  ghost predicate RoutesStayInTheTenant(db: Database) {
    forall i, c :: (i, c) in db.routes && i in db.items && c in db.channels ==>
        db.items[i].row.watchId == db.channels[c].row.watchId
  }

  /** Coins are kept for tracked items only. */
  ghost predicate CoinsAreTracked(db: Database) {
    forall i, h :: (i, h) in db.utxo && i in db.items ==> Tracked(db.items[i].status)
  }

  /** What may alert has somewhere proven to send it. */
  ghost predicate AlertableIsDeliverable(db: Database) {
    forall i :: i in db.items && (db.items[i].status.Active? || db.items[i].status.Paused?) ==> HasProvenChannel(db, i)
  }

  ghost predicate Consistent(db: Database) {
    && NothingDangles(db) && TokensAreUnique(db) && RoutesStayInTheTenant(db)
    && CoinsAreTracked(db) && AlertableIsDeliverable(db)
  }

  lemma StepKeepsItemRows(db: Database, op: Op)
    requires WatchesIssued(db) && ItemsHaveTenants(db)
    ensures WatchesIssued(After(db, op).0) && ItemsHaveTenants(After(db, op).0)
  {
    hide HasProvenChannel;
  }

  lemma StepKeepsChannelRows(db: Database, op: Op)
    requires ChannelsHaveTenants(db)
    ensures ChannelsHaveTenants(After(db, op).0)
  {
    hide HasProvenChannel;
  }

  lemma StepKeepsLinks(db: Database, op: Op)
    requires LinksHaveEnds(db)
    ensures LinksHaveEnds(After(db, op).0)
  {
    hide HasProvenChannel;
  }

  lemma StepKeepsRows(db: Database, op: Op)
    requires NothingDangles(db)
    ensures NothingDangles(After(db, op).0)
  {
    hide After, WatchesIssued, ItemsHaveTenants, ChannelsHaveTenants, LinksHaveEnds;
    StepKeepsItemRows(db, op);
    StepKeepsChannelRows(db, op);
    StepKeepsLinks(db, op);
  }

  lemma StepKeepsTokens(db: Database, op: Op)
    requires TokensAreUnique(db)
    ensures TokensAreUnique(After(db, op).0)
  {
    hide HasProvenChannel;
  }

  lemma StepKeepsRoutes(db: Database, op: Op)
    requires NothingDangles(db) && RoutesStayInTheTenant(db)
    ensures RoutesStayInTheTenant(After(db, op).0)
  {
    hide HasProvenChannel;
  }

  lemma StepKeepsCoins(db: Database, op: Op)
    requires NothingDangles(db) && CoinsAreTracked(db)
    ensures CoinsAreTracked(After(db, op).0)
  {
    hide HasProvenChannel;
  }

  /** A proven channel of an item is lost only with the item. */
  lemma StepKeepsProven(db: Database, op: Op, i: int)
    requires NothingDangles(db) && RoutesStayInTheTenant(db) && i in db.items && HasProvenChannel(db, i)
    ensures i in After(db, op).0.items ==> HasProvenChannel(After(db, op).0, i)
  {
    var c :| c in db.channels && (i, c) in db.routes && db.channels[c].verified;
    var db' := After(db, op).0;
    if i in db'.items {
      assert c in db'.channels && (i, c) in db'.routes && db'.channels[c].verified;
    }
  }

  lemma StepKeepsDeliverable(db: Database, op: Op)
    requires NothingDangles(db) && RoutesStayInTheTenant(db) && AlertableIsDeliverable(db)
    ensures AlertableIsDeliverable(After(db, op).0)
  {
    var db' := After(db, op).0;
    forall i | i in db'.items && (db'.items[i].status.Active? || db'.items[i].status.Paused?)
      ensures HasProvenChannel(db', i)
    {
      OnlyActivateBegins(db, op, i);
      StepKeepsProven(db, op, i);
    }
  }

  /** An alertable item was alertable before, or has just been activated. */
  lemma OnlyActivateBegins(db: Database, op: Op, i: int)
    requires i in After(db, op).0.items
    requires After(db, op).0.items[i].status.Active? || After(db, op).0.items[i].status.Paused?
    ensures i in db.items
    ensures db.items[i].status.Active? || db.items[i].status.Paused? || HasProvenChannel(db, i)
  {
  }

  lemma StepKeepsConsistent(db: Database, op: Op)
    requires Consistent(db)
    ensures Consistent(After(db, op).0)
  {
    hide After, NothingDangles, TokensAreUnique, RoutesStayInTheTenant, CoinsAreTracked, AlertableIsDeliverable;
    StepKeepsRows(db, op);
    StepKeepsTokens(db, op);
    StepKeepsRoutes(db, op);
    StepKeepsCoins(db, op);
    StepKeepsDeliverable(db, op);
  }

  /** In every state operations can reach, in any order, from an empty database or any consistent one. */
  lemma {:induction false} RunKeepsConsistent(db: Database, ops: seq<Op>)
    requires Consistent(db)
    ensures Consistent(Run(db, ops))
    decreases |ops|
  {
    hide After, Consistent;
    if ops != [] {
      StepKeepsConsistent(db, ops[0]);
      RunKeepsConsistent(After(db, ops[0]).0, ops[1..]);
    }
  }

  lemma EmptyIsConsistent()
    ensures Consistent(Empty())
  {
  }

  /** Every database there can ever be, made by any operations in any order, is consistent. */
  lemma EveryDatabaseIsConsistent(ops: seq<Op>)
    ensures Consistent(Run(Empty(), ops))
  {
    hide Consistent, Run;
    EmptyIsConsistent();
    RunKeepsConsistent(Empty(), ops);
  }

  lemma ConsistentTokens(db: Database)
    requires Consistent(db)
    ensures TokensAreUnique(db)
  {
  }

  lemma ConsistentRows(db: Database)
    requires Consistent(db)
    ensures NothingDangles(db)
  {
  }

  /** What the matcher's two lookups find. */
  lemma WatchingIs(db: Database, spk: Bytes)
    requires Consistent(db)
    ensures forall i :: i in Watching(db, spk) <==> Watches(db, i, spk)
  {
    hide TokensAreUnique, RoutesStayInTheTenant, CoinsAreTracked, AlertableIsDeliverable, Select;
  }

  lemma OwningIs(db: Database, h: Bytes)
    requires Consistent(db)
    ensures forall i :: i in Owning(db, h) <==> (i, h) in db.utxo
    ensures forall i :: i in Owning(db, h) ==> i in db.items && Tracked(db.items[i].status)
  {
    hide TokensAreUnique, RoutesStayInTheTenant, AlertableIsDeliverable, Select;
  }

  lemma WatchesMeans(db: Database, i: int, spk: Bytes)
    ensures Watches(db, i, spk) <==>
            i in db.items && db.items[i].row.spkHmac == spk && Tracked(db.items[i].status)
  {
  }

  // ----- an id means one thing for ever

  /** What an id can no longer become: another item, whatever its status. */
  predicate SameItem(db: Database, db': Database, id: int) {
    && db.lastItem <= db'.lastItem
    && (id <= db.lastItem && id in db'.items ==>
          id in db.items && db'.items[id].row == db.items[id].row)
  }

  predicate SameChannel(db: Database, db': Database, id: int) {
    && db.lastChannel <= db'.lastChannel
    && (id <= db.lastChannel && id in db'.channels ==>
          id in db.channels && db'.channels[id].row == db.channels[id].row)
  }

  predicate SameWatch(db: Database, db': Database, id: int) {
    && db.lastWatch <= db'.lastWatch
    && (id <= db.lastWatch && id in db'.watches ==> id in db.watches && db'.watches[id] == db.watches[id])
  }

  predicate SameRows(db: Database, db': Database, id: int) {
    SameItem(db, db', id) && SameChannel(db, db', id) && SameWatch(db, db', id)
  }

  lemma StepKeepsItem(db: Database, op: Op, id: int)
    ensures SameItem(db, After(db, op).0, id)
  {
    hide HasProvenChannel;
  }

  lemma StepKeepsChannel(db: Database, op: Op, id: int)
    ensures SameChannel(db, After(db, op).0, id)
  {
    hide HasProvenChannel;
  }

  lemma StepKeepsWatch(db: Database, op: Op, id: int)
    ensures SameWatch(db, After(db, op).0, id)
  {
    hide HasProvenChannel;
  }

  lemma StepKeepsIdentity(db: Database, op: Op, id: int)
    ensures SameRows(db, After(db, op).0, id)
  {
    hide After, SameItem, SameChannel, SameWatch;
    StepKeepsItem(db, op, id);
    StepKeepsChannel(db, op, id);
    StepKeepsWatch(db, op, id);
  }

  /** Whatever is done: an id issued before either names what it named or nothing. */
  lemma {:induction false} IdentityIsForEver(db: Database, ops: seq<Op>, id: int)
    ensures SameRows(db, Run(db, ops), id)
    decreases |ops|
  {
    hide After;
    if ops != [] {
      StepKeepsIdentity(db, ops[0], id);
      IdentityIsForEver(After(db, ops[0]).0, ops[1..], id);
    }
  }

  /** A new id is one no row has had. */
  lemma NewIdsAreNew(db: Database, op: Op)
    requires Consistent(db) && After(db, op).1.Created?
    ensures var id := After(db, op).1.id;
            match op
            case CreateWatch(_) => id > db.lastWatch && id !in db.watches
            case AddItem(_) => id > db.lastItem && id !in db.items
            case AddChannel(_) => id > db.lastChannel && id !in db.channels
            case _ => false
  {
    hide RoutesStayInTheTenant, CoinsAreTracked, AlertableIsDeliverable, HasProvenChannel;
  }

  /** A token finds the tenant it was minted for, and no other, for as long as that tenant is there. */
  lemma TokenFindsItsTenant(db: Database, tokenHash: Hash, ops: seq<Op>, w: int)
    requires Consistent(db) && After(db, CreateWatch(tokenHash)).1.Created?
    ensures var id := After(db, CreateWatch(tokenHash)).1.id;
            var later := Run(After(db, CreateWatch(tokenHash)).0, ops);
            id in later.watches ==> (w in later.watches && later.watches[w] == tokenHash <==> w == id)
  {
    var minted := After(db, CreateWatch(tokenHash)).0;
    hide Run, RoutesStayInTheTenant, CoinsAreTracked, AlertableIsDeliverable;
    StepKeepsConsistent(db, CreateWatch(tokenHash));
    RunKeepsConsistent(minted, ops);
    IdentityIsForEver(minted, ops, minted.lastWatch);
  }

  // ----- the life of an item

  function Rank(s: Status): nat {
    match s
    case Arming => 0
    case Armed => 1
    case Active => 2
    case Paused => 2
    case Stopped => 3
  }

  lemma StepNeverGoesBack(db: Database, op: Op, i: int)
    requires i in db.items && i <= db.lastItem && i in After(db, op).0.items
    ensures Rank(db.items[i].status) <= Rank(After(db, op).0.items[i].status)
  {
    hide HasProvenChannel;
  }

  lemma {:induction false} NeverGoesBack(db: Database, ops: seq<Op>, i: int)
    requires i in db.items && i <= db.lastItem && i in Run(db, ops).items
    ensures Rank(db.items[i].status) <= Rank(Run(db, ops).items[i].status)
    decreases |ops|
  {
    hide After, Rank;
    if ops != [] {
      var next := After(db, ops[0]).0;
      StepKeepsIdentity(db, ops[0], i);
      IdentityIsForEver(next, ops[1..], i);
      StepNeverGoesBack(db, ops[0], i);
      NeverGoesBack(next, ops[1..], i);
    }
  }

  /** However much is done in between, a second baseline is refused and changes nothing. */
  lemma ArmedAtMostOnce(db: Database, i: int, hs: seq<Bytes>, between: seq<Op>, again: seq<Bytes>)
    requires Consistent(db) && After(db, Arm(i, hs)).1.Done?
    ensures var later := Run(After(db, Arm(i, hs)).0, between);
            var (end, outcome) := After(later, Arm(i, again));
            end == later && outcome == if i in later.items then NotArmable else UnknownRow
  {
    var armed := After(db, Arm(i, hs)).0;
    var later := Run(armed, between);
    hide Run;
    if i in later.items {
      NeverGoesBack(armed, between, i);
    }
  }

  /** A stopped item stays stopped until its tenant is purged, and never gets a coin again. */
  lemma StoppedIsTerminal(db: Database, i: int, ops: seq<Op>)
    requires Consistent(db) && i in db.items && db.items[i].status.Stopped?
    ensures var later := Run(db, ops);
            && (i in later.items ==> later.items[i].status.Stopped?)
            && forall h :: (i, h) !in later.utxo
  {
    hide Run;
    RunKeepsConsistent(db, ops);
    if i in Run(db, ops).items {
      NeverGoesBack(db, ops, i);
    }
  }

  // ----- tenants

  function ItemTenant(db: Database, i: int): set<int> {
    if i in db.items then {db.items[i].row.watchId} else {}
  }

  function ChannelTenant(db: Database, c: int): set<int> {
    if c in db.channels then {db.channels[c].row.watchId} else {}
  }

  /** The tenants whose rows an operation names. */
  function Names(db: Database, op: Op): set<int> {
    match op
    case CreateWatch(_) => {}
    case PurgeWatch(w, _) => {w}
    case FinishPurge(_) => {}
    case AddItem(row) => {row.watchId}
    case AddChannel(row) => {row.watchId}
    case MarkVerified(c) => ChannelTenant(db, c)
    case Route(i, c, _) => ItemTenant(db, i) + ChannelTenant(db, c)
    case Arm(i, _) => ItemTenant(db, i)
    case Activate(i) => ItemTenant(db, i)
    case Pause(i) => ItemTenant(db, i)
    case Resume(i) => ItemTenant(db, i)
    case StopItem(i) => ItemTenant(db, i)
    case AddOutpoint(i, _) => ItemTenant(db, i)
    case DropOutpoint(i, _) => ItemTenant(db, i)
  }

  predicate ItemOf(db: Database, i: int, w: int) {
    i in db.items && db.items[i].row.watchId == w
  }

  predicate ChannelOf(db: Database, c: int, w: int) {
    c in db.channels && db.channels[c].row.watchId == w
  }

  predicate SameTenant(db: Database, db': Database, w: int) {
    if w in db.watches then w in db'.watches && db'.watches[w] == db.watches[w] else w !in db'.watches
  }

  ghost predicate SameItems(db: Database, db': Database, w: int) {
    forall i :: (ItemOf(db, i, w) <==> ItemOf(db', i, w)) && (ItemOf(db, i, w) ==> db.items[i] == db'.items[i])
  }

  ghost predicate SameChannels(db: Database, db': Database, w: int) {
    forall c :: (ChannelOf(db, c, w) <==> ChannelOf(db', c, w))
        && (ChannelOf(db, c, w) ==> db.channels[c] == db'.channels[c])
  }

  ghost predicate SameCoins(db: Database, db': Database, w: int) {
    forall i, h :: ItemOf(db, i, w) ==> ((i, h) in db.utxo <==> (i, h) in db'.utxo)
  }

  ghost predicate SameRoutes(db: Database, db': Database, w: int) {
    forall i, c :: ItemOf(db, i, w) ==>
      if (i, c) in db.routes then (i, c) in db'.routes && db'.routes[(i, c)] == db.routes[(i, c)]
      else (i, c) !in db'.routes
  }

  lemma ItemsAreIsolated(db: Database, op: Op, w: int)
    requires ItemsHaveTenants(db) && w !in Names(db, op)
    ensures SameItems(db, After(db, op).0, w)
  {
    hide HasProvenChannel;
  }

  lemma ChannelsAreIsolated(db: Database, op: Op, w: int)
    requires ChannelsHaveTenants(db) && w !in Names(db, op)
    ensures SameChannels(db, After(db, op).0, w)
  {
    hide HasProvenChannel;
  }

  lemma TenantRowIsIsolated(db: Database, op: Op, w: int)
    requires WatchesIssued(db) && w in db.watches && w !in Names(db, op)
    ensures SameTenant(db, After(db, op).0, w)
  {
    hide HasProvenChannel;
  }

  lemma CoinsAreIsolated(db: Database, op: Op, w: int)
    requires ItemsHaveTenants(db) && w !in Names(db, op)
    ensures SameCoins(db, After(db, op).0, w)
  {
    hide HasProvenChannel;
  }

  lemma RoutesAreIsolated(db: Database, op: Op, w: int)
    requires NothingDangles(db) && RoutesStayInTheTenant(db) && w !in Names(db, op)
    ensures SameRoutes(db, After(db, op).0, w)
  {
    hide HasProvenChannel;
  }

  /** An operation that names nothing of a tenant changes none of its items, channels, coins or routes. */
  lemma TenantsAreIsolated(db: Database, op: Op, w: int)
    requires Consistent(db) && w in db.watches && w !in Names(db, op)
    ensures var db' := After(db, op).0;
            && SameTenant(db, db', w) && SameItems(db, db', w) && SameChannels(db, db', w)
            && SameCoins(db, db', w) && SameRoutes(db, db', w)
  {
    hide After, WatchesIssued, ItemsHaveTenants, ChannelsHaveTenants, LinksHaveEnds;
    hide RoutesStayInTheTenant, CoinsAreTracked, AlertableIsDeliverable, Names;
    ItemsAreIsolated(db, op, w);
    ChannelsAreIsolated(db, op, w);
    TenantRowIsIsolated(db, op, w);
    CoinsAreIsolated(db, op, w);
    RoutesAreIsolated(db, op, w);
  }

  // ----- purge

  /** The tenant's rows and no others go: everyone else's items, coins, channels and routes are as they were. */
  lemma PurgeIsExact(db: Database, w: int, scrub: Scrub)
    requires Consistent(db) && w in db.watches
    ensures var db' := After(db, PurgeWatch(w, scrub)).0;
            && db'.watches == db.watches - {w}
            && (forall i :: i in db'.items <==> i in db.items && db.items[i].row.watchId != w)
            && (forall i :: i in db'.items ==> db'.items[i] == db.items[i])
            && (forall c :: c in db'.channels <==> c in db.channels && db.channels[c].row.watchId != w)
            && (forall c :: c in db'.channels ==> db'.channels[c] == db.channels[c])
            && (forall i, h :: (i, h) in db'.utxo <==> (i, h) in db.utxo && db.items[i].row.watchId != w)
            && (forall i, c :: (i, c) in db'.routes <==> (i, c) in db.routes && db.items[i].row.watchId != w)
            && (forall r :: r in db'.routes ==> db'.routes[r] == db.routes[r])
  {
    hide CoinsAreTracked, AlertableIsDeliverable;
  }

  /** And nothing of a purged tenant ever comes back. */
  lemma PurgedForEver(db: Database, w: int, scrub: Scrub, ops: seq<Op>)
    requires Consistent(db) && w in db.watches
    ensures var later := Run(After(db, PurgeWatch(w, scrub)).0, ops);
            && w !in later.watches
            && (forall i :: i in later.items ==> later.items[i].row.watchId != w)
            && (forall c :: c in later.channels ==> later.channels[c].row.watchId != w)
  {
    var purged := After(db, PurgeWatch(w, scrub)).0;
    hide Run;
    StepKeepsConsistent(db, PurgeWatch(w, scrub));
    RunKeepsConsistent(purged, ops);
    IdentityIsForEver(purged, ops, w);
  }

  // ----- the matcher's lookup and its write, with anything in between

  /**
   An item looked up by script, then anything at all, then the write.  The write never fails; it takes
   effect exactly when the item is still there and tracked, and then it is still the same tenant's item
   with the same script.
   */
  lemma StaleWriteIsSafe(db: Database, i: int, spk: Bytes, between: seq<Op>, h: Bytes)
    requires Consistent(db) && Watches(db, i, spk)
    ensures var later := Run(db, between);
            var (end, outcome) := After(later, AddOutpoint(i, h));
            && outcome.Done? && Consistent(end)
            && (Watches(later, i, spk) ==>
                  end == later.(utxo := later.utxo + {(i, h)}) && later.items[i].row.watchId == db.items[i].row.watchId)
            && (!Watches(later, i, spk) ==> end == later)
  {
    hide Run, Consistent;
    RunKeepsConsistent(db, between);
    StepKeepsConsistent(Run(db, between), AddOutpoint(i, h));
    ConsistentRows(db);
    IdentityIsForEver(db, between, i);
  }
}
