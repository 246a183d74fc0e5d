/** The store: each method is one transaction on the tables, committed whole or not at all. */
module StoreTables {
  import opened Wrappers
  import opened ByteStrings
  import opened StoreSpec
  import opened StoreProofs
  import Aead

  const AAD_SPK: Bytes := [0x73, 0x70, 0x6B]
  const AAD_LABEL: Bytes := [0x6C, 0x61, 0x62, 0x65, 0x6C]
  const AAD_DEST: Bytes := [0x64, 0x65, 0x73, 0x74]

  /** The associated data of a column: what it is for, and whose. */
  function AadFor(purpose: Bytes, watchId: nat): Bytes {
    purpose + ToLE(watchId, 8)
  }

  /** The token hash, the keyed script hash, and the key the columns are sealed with. */
  datatype Keys = Keys(sha: Bytes -> Hash, spkHmac: Bytes -> Bytes, store: Bytes)

  /** A nonce for each sealed column, drawn at random. */
  type Nonce = n: Bytes | |n| == Aead.NONCE_LEN witness seq(12, _ => 0)

  /** The row an enrolment writes. */
  function EnrolledRow(
    keys: Keys, w: nat, chain: string, spk: Bytes, name: Bytes, mode: Mode, spkNonce: Nonce,
    labelNonce: Nonce): Enrolled
    requires |keys.store| == 32
  {
    Enrolled(w, chain, keys.spkHmac(spk), Aead.SealWithNonce(keys.store, spkNonce, spk, AadFor(AAD_SPK, w)),
             Aead.SealWithNonce(keys.store, labelNonce, name, AadFor(AAD_LABEL, w)), mode)
  }

  function DestinationRow(keys: Keys, w: nat, kind: string, dest: Bytes, privacyAck: bool, nonce: Nonce): Destination
    requires |keys.store| == 32
  {
    Destination(w, kind, Aead.SealWithNonce(keys.store, nonce, dest, AadFor(AAD_DEST, w)), privacyAck)
  }

  datatype Read = Plain(bytes: Bytes) | NoSuchRow | Altered

  function Opened(keys: Keys, ciphertext: Bytes, aad: Bytes): Read {
    match Aead.Open(keys.store, ciphertext, aad)
    case Success(plain) => Plain(plain)
    case Failure(_) => Altered
  }

  function SpkOf(keys: Keys, row: Enrolled): Read {
    if row.watchId < 0 then Altered else Opened(keys, row.spkCt, AadFor(AAD_SPK, row.watchId))
  }

  function LabelOf(keys: Keys, row: Enrolled): Read {
    if row.watchId < 0 then Altered else Opened(keys, row.labelCt, AadFor(AAD_LABEL, row.watchId))
  }

  function DestOf(keys: Keys, row: Destination): Read {
    if row.watchId < 0 then Altered else Opened(keys, row.destCt, AadFor(AAD_DEST, row.watchId))
  }

  class Store {
    const keys: Keys
    var watches: map<int, Hash>
    var items: map<int, Item>
    var utxo: set<(int, Bytes)>
    var channels: map<int, Channel>
    var routes: map<(int, int), Severity>
    var lastWatch: nat
    var lastItem: nat
    var lastChannel: nat

    constructor (keys: Keys)
      requires |keys.store| == 32
      ensures Value() == Empty() && Valid() && this.keys == keys
    {
      this.keys := keys;
      watches, items, utxo, channels, routes := map[], map[], {}, map[], map[];
      lastWatch, lastItem, lastChannel := 0, 0, 0;
    }

    function Value(): Database
      reads this
    {
      Database(watches, items, utxo, channels, routes, lastWatch, lastItem, lastChannel)
    }

    ghost predicate Valid()
      reads this
    {
      Consistent(Value()) && |keys.store| == 32
    }

    // ----- tenants

    /** The token was drawn at random; only its hash is kept. */
    method CreateWatch(token: Bytes) returns (r: Outcome)
      requires Valid()
      modifies this
      ensures Valid() && (Value(), r) == After(old(Value()), StoreSpec.CreateWatch(keys.sha(token)))
    {
      hide Consistent;
      StepKeepsConsistent(Value(), StoreSpec.CreateWatch(keys.sha(token)));
      if keys.sha(token) in watches.Values {
        return TokenTaken;
      }
      lastWatch := lastWatch + 1;
      watches := watches[lastWatch := keys.sha(token)];
      r := Created(lastWatch);
    }

    /** The one tenant with this token, if there is one. */
    method WatchByToken(token: Bytes) returns (found: Option<int>)
      requires Valid()
      ensures forall w :: (w in watches && watches[w] == keys.sha(token)) <==> found == Some(w)
    {
      ConsistentRows(Value());
      ConsistentTokens(Value());
      for id := 1 to lastWatch + 1
        invariant forall w :: w in watches && watches[w] == keys.sha(token) ==> w >= id
      {
        if id in watches && watches[id] == keys.sha(token) {
          return Some(id);
        }
      }
      return None;
    }

    /** The rows go, and are committed gone, before the file is scrubbed: a scrub that fails leaves them gone. */
    method PurgeWatch(w: int, scrub: Scrub) returns (r: Outcome)
      requires Valid()
      modifies this
      ensures Valid() && (Value(), r) == After(old(Value()), StoreSpec.PurgeWatch(w, scrub))
    {
      hide Consistent, Purged, Scrubbed;
      StepKeepsConsistent(Value(), StoreSpec.PurgeWatch(w, scrub));
      if w !in watches {
        return UnknownRow;
      }
      DeleteWatch(w);
      r := Scrubbed(scrub);
    }

    /** Deleting the tenant takes with it every row that refers to it, and every row that refers to one of those. */
    method DeleteWatch(w: int)
      modifies this
      ensures Value() == Purged(old(Value()), w)
    {
      watches := watches - {w};
      items := map i | i in items && items[i].row.watchId != w :: items[i];
      channels := map c | c in channels && channels[c].row.watchId != w :: channels[c];
      utxo := set coin | coin in utxo && coin.0 in items;
      routes := map route | route in routes && route.0 in items && route.1 in channels :: routes[route];
    }

    /** Another try at the scrub; it deletes nothing. */
    method FinishPurge(scrub: Scrub) returns (r: Outcome)
      requires Valid()
      ensures (Value(), r) == After(Value(), StoreSpec.FinishPurge(scrub))
    {
      r := Scrubbed(scrub);
    }

    // ----- items

    method AddItem(
      w: int, chain: string, spk: Bytes, name: Bytes, mode: Mode, spkNonce: Nonce,
      labelNonce: Nonce) returns (r: Outcome)
      requires Valid()
      modifies this
      ensures Valid()
      ensures w !in old(watches) ==> Value() == old(Value()) && r == UnknownRow
      ensures w in old(watches) ==>
                w > 0 && (Value(), r) == After(old(Value()), StoreSpec.AddItem(
                                                 EnrolledRow(keys, w, chain, spk, name, mode, spkNonce, labelNonce)))
    {
      ConsistentRows(Value());
      hide Consistent, EnrolledRow, After;
      if w !in watches {
        return UnknownRow;
      }
      RowTenant(keys, w, chain, spk, name, mode, spkNonce, labelNonce);
      r := InsertItem(EnrolledRow(keys, w, chain, spk, name, mode, spkNonce, labelNonce));
    }

    method InsertItem(row: Enrolled) returns (r: Outcome)
      requires Valid() && row.watchId in watches
      modifies this
      ensures Valid() && (Value(), r) == After(old(Value()), StoreSpec.AddItem(row))
    {
      hide Consistent;
      StepKeepsConsistent(Value(), StoreSpec.AddItem(row));
      lastItem := lastItem + 1;
      items := items[lastItem := Item(row, Arming)];
      r := Created(lastItem);
    }

    /** Decrypted for the call. */
    method ItemSpk(i: int) returns (r: Read)
      requires Valid()
      ensures r == if i in items then SpkOf(keys, items[i].row) else NoSuchRow
    {
      if i !in items {
        return NoSuchRow;
      }
      r := SpkOf(keys, items[i].row);
    }

    method ItemLabel(i: int) returns (r: Read)
      requires Valid()
      ensures r == if i in items then LabelOf(keys, items[i].row) else NoSuchRow
    {
      if i !in items {
        return NoSuchRow;
      }
      r := LabelOf(keys, items[i].row);
    }

    /** The conditional update, and which of the two errors it was if it touched no row. */
    method Transition(i: int, from: Status, to: Status, refusal: Outcome) returns (r: Outcome)
      modifies this`items
      ensures (Value(), r) == Moved(old(Value()), i, from, to, refusal)
    {
      if i in items && items[i].status == from {
        items := items[i := items[i].(status := to)];
        return Done;
      }
      if i !in items {
        return UnknownRow;
      }
      r := refusal;
    }

    /** The status change and the baseline are one transaction. */
    method Arm(i: int, outpoints: seq<Bytes>) returns (r: Outcome)
      requires Valid()
      modifies this
      ensures Valid() && (Value(), r) == After(old(Value()), StoreSpec.Arm(i, outpoints))
    {
      hide Consistent;
      StepKeepsConsistent(Value(), StoreSpec.Arm(i, outpoints));
      r := Transition(i, Arming, Armed, NotArmable);
      if !r.Done? {
        return;
      }
      ghost var before := utxo;
      ghost var armed := Value();
      for n := 0 to |outpoints|
        invariant Value() == armed.(utxo := before + Coins(i, outpoints[..n]))
      {
        assert outpoints[..n + 1] == outpoints[..n] + [outpoints[n]];
        assert Coins(i, outpoints[..n + 1]) == Coins(i, outpoints[..n]) + {(i, outpoints[n])};
        utxo := utxo + {(i, outpoints[n])};
      }
      assert outpoints[..|outpoints|] == outpoints;
    }

    /** Refused unless some routed channel has had its test-fire confirmed. */
    method Activate(i: int) returns (r: Outcome)
      requires Valid()
      modifies this
      ensures Valid() && (Value(), r) == After(old(Value()), StoreSpec.Activate(i))
    {
      hide Consistent;
      StepKeepsConsistent(Value(), StoreSpec.Activate(i));
      if i !in items {
        return UnknownRow;
      }
      if !items[i].status.Armed? || !HasProvenChannel(Value(), i) {
        return NotActivatable;
      }
      items := items[i := items[i].(status := Active)];
      r := Done;
    }

    method Pause(i: int) returns (r: Outcome)
      requires Valid()
      modifies this
      ensures Valid() && (Value(), r) == After(old(Value()), StoreSpec.Pause(i))
    {
      hide Consistent;
      StepKeepsConsistent(Value(), StoreSpec.Pause(i));
      r := Transition(i, Active, Paused, BadTransition);
    }

    method Resume(i: int) returns (r: Outcome)
      requires Valid()
      modifies this
      ensures Valid() && (Value(), r) == After(old(Value()), StoreSpec.Resume(i))
    {
      hide Consistent;
      StepKeepsConsistent(Value(), StoreSpec.Resume(i));
      r := Transition(i, Paused, Active, BadTransition);
    }

    method StopItem(i: int) returns (r: Outcome)
      requires Valid()
      modifies this
      ensures Valid() && (Value(), r) == After(old(Value()), StoreSpec.StopItem(i))
    {
      hide Consistent;
      StepKeepsConsistent(Value(), StoreSpec.StopItem(i));
      if i !in items {
        return UnknownRow;
      }
      utxo := set coin | coin in utxo && coin.0 != i;
      items := items[i := items[i].(status := Stopped)];
      r := Done;
    }

    // ----- channels and routes

    method AddChannel(w: int, kind: string, dest: Bytes, privacyAck: bool, nonce: Nonce) returns (r: Outcome)
      requires Valid()
      modifies this
      ensures Valid()
      ensures w !in old(watches) ==> Value() == old(Value()) && r == UnknownRow
      ensures w in old(watches) ==>
                w > 0 && (Value(), r) == After(old(Value()), StoreSpec.AddChannel(
                                                 DestinationRow(keys, w, kind, dest, privacyAck, nonce)))
    {
      ConsistentRows(Value());
      hide Consistent, DestinationRow, After;
      if w !in watches {
        return UnknownRow;
      }
      DestinationTenant(keys, w, kind, dest, privacyAck, nonce);
      r := InsertChannel(DestinationRow(keys, w, kind, dest, privacyAck, nonce));
    }

    method InsertChannel(row: Destination) returns (r: Outcome)
      requires Valid() && row.watchId in watches
      modifies this
      ensures Valid() && (Value(), r) == After(old(Value()), StoreSpec.AddChannel(row))
    {
      hide Consistent;
      StepKeepsConsistent(Value(), StoreSpec.AddChannel(row));
      lastChannel := lastChannel + 1;
      channels := channels[lastChannel := Channel(row, false)];
      r := Created(lastChannel);
    }

    method ChannelDest(c: int) returns (r: Read)
      requires Valid()
      ensures r == if c in channels then DestOf(keys, channels[c].row) else NoSuchRow
    {
      if c !in channels {
        return NoSuchRow;
      }
      r := DestOf(keys, channels[c].row);
    }

    method MarkVerified(c: int) returns (r: Outcome)
      requires Valid()
      modifies this
      ensures Valid() && (Value(), r) == After(old(Value()), StoreSpec.MarkVerified(c))
    {
      hide Consistent;
      StepKeepsConsistent(Value(), StoreSpec.MarkVerified(c));
      if c !in channels {
        return UnknownRow;
      }
      channels := channels[c := channels[c].(verified := true)];
      r := Done;
    }

    /** A second route of the same pair replaces the severity of the first. */
    method Route(i: int, c: int, severity: Severity) returns (r: Outcome)
      requires Valid()
      modifies this
      ensures Valid() && (Value(), r) == After(old(Value()), StoreSpec.Route(i, c, severity))
    {
      hide Consistent;
      StepKeepsConsistent(Value(), StoreSpec.Route(i, c, severity));
      if i !in items || c !in channels {
        return UnknownRow;
      }
      if items[i].row.watchId != channels[c].row.watchId {
        return DifferentWatches;
      }
      routes := routes[(i, c) := severity];
      r := Done;
    }

    // ----- what the matcher calls

    /** In id order. */
    method ItemsWatchingSpk(spkHmac: Bytes) returns (found: seq<int>)
      requires Valid()
      ensures found == Watching(Value(), spkHmac)
      ensures forall i :: i in found <==> Watches(Value(), i, spkHmac)
      ensures forall a, b :: 0 <= a < b < |found| ==> found[a] < found[b]
    {
      hide Consistent, Watches;
      WatchingIs(Value(), spkHmac);
      found := [];
      for id := 1 to lastItem + 1
        invariant found == Select(id - 1, WatcherOf(Value(), spkHmac))
      {
        WatchesMeans(Value(), id, spkHmac);
        if id in items && items[id].row.spkHmac == spkHmac && Tracked(items[id].status) {
          found := found + [id];
        }
      }
    }

    /** In id order; who owns a coin is kept for tracked items only. */
    method ItemsOwningOutpoint(outpoint: Bytes) returns (found: seq<int>)
      requires Valid()
      ensures found == Owning(Value(), outpoint)
      ensures forall i :: i in found <==> (i, outpoint) in utxo
      ensures forall i :: i in found ==> i in items && Tracked(items[i].status)
      ensures forall a, b :: 0 <= a < b < |found| ==> found[a] < found[b]
    {
      hide Consistent;
      OwningIs(Value(), outpoint);
      found := [];
      for id := 1 to lastItem + 1
        invariant found == Select(id - 1, OwnerOf(Value(), outpoint))
      {
        if (id, outpoint) in utxo {
          found := found + [id];
        }
      }
    }

    /** A no-op for an item that is gone or no longer tracked, never an error. */
    method AddOutpoint(i: int, outpoint: Bytes)
      requires Valid()
      modifies this
      ensures Valid() && (Value(), Done) == After(old(Value()), StoreSpec.AddOutpoint(i, outpoint))
    {
      hide Consistent;
      StepKeepsConsistent(Value(), StoreSpec.AddOutpoint(i, outpoint));
      if i in items && Tracked(items[i].status) {
        utxo := utxo + {(i, outpoint)};
      }
    }

    method DropOutpoint(i: int, outpoint: Bytes)
      requires Valid()
      modifies this
      ensures Valid() && (Value(), Done) == After(old(Value()), StoreSpec.DropOutpoint(i, outpoint))
    {
      hide Consistent;
      StepKeepsConsistent(Value(), StoreSpec.DropOutpoint(i, outpoint));
      utxo := utxo - {(i, outpoint)};
    }
  }

  lemma RowTenant(
    keys: Keys, w: nat, chain: string, spk: Bytes, name: Bytes, mode: Mode, spkNonce: Nonce, labelNonce: Nonce)
    requires |keys.store| == 32
    ensures EnrolledRow(keys, w, chain, spk, name, mode, spkNonce, labelNonce).watchId == w
  {
  }

  lemma DestinationTenant(keys: Keys, w: nat, kind: string, dest: Bytes, privacyAck: bool, nonce: Nonce)
    requires |keys.store| == 32
    ensures DestinationRow(keys, w, kind, dest, privacyAck, nonce).watchId == w
  {
  }

  /**
   What was enrolled reads back, whatever has been done since: as long as the item is there, its script
   and its label decrypt to what they were, and it is matched by the hash of that script.
   */
  lemma EnrolledReadsBack(
    keys: Keys, db: Database, w: nat, chain: string, spk: Bytes, name: Bytes, mode: Mode, spkNonce: Nonce,
    labelNonce: Nonce,
    ops: seq<Op>)
    requires |keys.store| == 32 && w in db.watches
    ensures var (added, r) := After(db, AddItem(EnrolledRow(keys, w, chain, spk, name, mode, spkNonce, labelNonce)));
            var later := Run(added, ops);
            && r == Created(added.lastItem)
            && (added.lastItem in later.items ==>
                  var row := later.items[added.lastItem].row;
                  && SpkOf(keys, row) == Plain(spk) && LabelOf(keys, row) == Plain(name)
                  && row.watchId == w && row.spkHmac == keys.spkHmac(spk) && row.chain == chain && row.mode == mode)
  {
    hide Aead.SealWithNonce, Aead.Open, Run;
    var added := After(db, AddItem(EnrolledRow(keys, w, chain, spk, name, mode, spkNonce, labelNonce))).0;
    IdentityIsForEver(added, ops, added.lastItem);
    Aead.OpenOfSeal(keys.store, spkNonce, spk, AadFor(AAD_SPK, w));
    Aead.OpenOfSeal(keys.store, labelNonce, name, AadFor(AAD_LABEL, w));
  }

  lemma DestinationReadsBack(
    keys: Keys, db: Database, w: nat, kind: string, dest: Bytes, privacyAck: bool, nonce: Nonce, ops: seq<Op>)
    requires |keys.store| == 32 && w in db.watches
    ensures var (added, r) := After(db, AddChannel(DestinationRow(keys, w, kind, dest, privacyAck, nonce)));
            var later := Run(added, ops);
            && r == Created(added.lastChannel)
            && (added.lastChannel in later.channels ==>
                  var row := later.channels[added.lastChannel].row;
                  && DestOf(keys, row) == Plain(dest)
                  && row.watchId == w && row.kind == kind && row.privacyAck == privacyAck)
  {
    hide Aead.SealWithNonce, Aead.Open, Run;
    var added := After(db, AddChannel(DestinationRow(keys, w, kind, dest, privacyAck, nonce))).0;
    IdentityIsForEver(added, ops, added.lastChannel);
    Aead.OpenOfSeal(keys.store, nonce, dest, AadFor(AAD_DEST, w));
  }

  /** Each sealed column opens under its own purpose, and begins with its own nonce. */
  lemma ColumnsAreSealed(
    keys: Keys, w: nat, chain: string, spk: Bytes, name: Bytes, mode: Mode, spkNonce: Nonce, labelNonce: Nonce)
    requires |keys.store| == 32
    ensures var row := EnrolledRow(keys, w, chain, spk, name, mode, spkNonce, labelNonce);
            && Aead.Open(keys.store, row.spkCt, [0x73, 0x70, 0x6B] + ToLE(w, 8)) == Success(spk)
            && Aead.Open(keys.store, row.labelCt, [0x6C, 0x61, 0x62, 0x65, 0x6C] + ToLE(w, 8)) == Success(name)
            && spkNonce <= row.spkCt && labelNonce <= row.labelCt
  {
    hide Aead.Open;
    Aead.OpenOfSeal(keys.store, spkNonce, spk, AadFor(AAD_SPK, w));
    Aead.OpenOfSeal(keys.store, labelNonce, name, AadFor(AAD_LABEL, w));
    Aead.StartsWithNonce(keys.store, spkNonce, spk, AadFor(AAD_SPK, w));
    Aead.StartsWithNonce(keys.store, labelNonce, name, AadFor(AAD_LABEL, w));
    hide Aead.SealWithNonce;
  }

  lemma DestinationIsSealed(keys: Keys, w: nat, kind: string, dest: Bytes, privacyAck: bool, nonce: Nonce)
    requires |keys.store| == 32
    ensures var row := DestinationRow(keys, w, kind, dest, privacyAck, nonce);
            && Aead.Open(keys.store, row.destCt, [0x64, 0x65, 0x73, 0x74] + ToLE(w, 8)) == Success(dest)
            && nonce <= row.destCt
  {
    hide Aead.Open;
    Aead.OpenOfSeal(keys.store, nonce, dest, AadFor(AAD_DEST, w));
    Aead.StartsWithNonce(keys.store, nonce, dest, AadFor(AAD_DEST, w));
    hide Aead.SealWithNonce;
  }

  /** The three purposes, spelled out: no two columns are bound to the same thing, even in one tenant. */
  lemma ColumnsDiffer(w: nat)
    requires w < Pow(256, 8)
    ensures AadFor(AAD_SPK, w) == ['s' as int, 'p' as int, 'k' as int] + ToLE(w, 8)
    ensures AadFor(AAD_LABEL, w) == ['l' as int, 'a' as int, 'b' as int, 'e' as int, 'l' as int] + ToLE(w, 8)
    ensures AadFor(AAD_DEST, w) == ['d' as int, 'e' as int, 's' as int, 't' as int] + ToLE(w, 8)
    ensures forall v: nat :: v < Pow(256, 8) ==>
              && AadFor(AAD_SPK, w) != AadFor(AAD_LABEL, v)
              && AadFor(AAD_SPK, w) != AadFor(AAD_DEST, v)
              && AadFor(AAD_LABEL, w) != AadFor(AAD_DEST, v)
  {
    hide ToLE, Pow;
    forall v: nat | v < Pow(256, 8)
      ensures AadFor(AAD_SPK, w) != AadFor(AAD_LABEL, v) && AadFor(AAD_SPK, w) != AadFor(AAD_DEST, v)
      ensures AadFor(AAD_LABEL, w) != AadFor(AAD_DEST, v)
    {
      assert |AadFor(AAD_SPK, w)| == 11 && |AadFor(AAD_LABEL, v)| == 13 && |AadFor(AAD_DEST, v)| == 12;
      assert |AadFor(AAD_LABEL, w)| == 13;
    }
  }

  /** The columns and tenants a ciphertext may be presented under are told apart by what it is bound to. */
  lemma BindingsDiffer(p: Bytes, q: Bytes, v: nat, w: nat)
    requires v < Pow(256, 8) && w < Pow(256, 8)
    ensures AadFor(p, v) == AadFor(q, w) <==> p == q && v == w
  {
    hide ToLE, Pow;
    var a, b := AadFor(p, v), AadFor(q, w);
    if a == b {
      assert a[|a| - 8..] == ToLE(v, 8) && b[|b| - 8..] == ToLE(w, 8);
      FromLEOfToLE(v, 8);
      FromLEOfToLE(w, 8);
      assert a[..|a| - 8] == p && b[..|b| - 8] == q;
    }
  }
}
