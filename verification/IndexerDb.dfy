/** The indexer's tables and its poll cycle, updated in place. Whatever the tables held when the database
    was opened, they agree with one fold over the event log from then on. */
module IndexerDb {
  import opened Common
  import opened IndexerSpec
  import opened IndexerRuns
  import M = MarketSpec

  /** The keys of `aggregates`. `MixedVolume` is the total that older versions kept over all currencies. */
  datatype Key = Volume(currency: Address) | AmtMinted | MarketplaceSchema | MixedVolume

  const SCHEMA_VERSION := 2

  /** What a database file holds; the oldest versions kept ids in integer columns, which lose digits. */
  datatype Tables = Tables(events: seq<LogEvent>, listings: map<U64, Row>, aggregates: map<Key, int>,
                           checkpoint: Option<nat>, textIds: bool)

  /** The volume rows are those of `v`. */
  ghost predicate VolumeAgrees(aggregates: map<Key, int>, v: Views) {
    && (forall c :: Volume(c) in aggregates <==> c in v.volume)
    && (forall c :: Volume(c) in aggregates ==> aggregates[Volume(c)] == v.volume[c])
  }

  ghost predicate MintedAgrees(aggregates: map<Key, int>, minted: int) {
    AmtMinted in aggregates && aggregates[AmtMinted] == minted
  }

  predicate SameMinted(aggregates: map<Key, int>, before: map<Key, int>) {
    && (AmtMinted in aggregates <==> AmtMinted in before)
    && (AmtMinted in aggregates ==> aggregates[AmtMinted] == before[AmtMinted])
  }

  ghost predicate Agrees(aggregates: map<Key, int>, v: Views) {
    VolumeAgrees(aggregates, v) && MintedAgrees(aggregates, v.minted)
  }

  predicate Current(aggregates: map<Key, int>) {
    MarketplaceSchema in aggregates && aggregates[MarketplaceSchema] == SCHEMA_VERSION
  }

  /** What opening a database does not rebuild is right. */
  ghost predicate KeptAgrees(t: Tables) {
    && (t.aggregates != map[] ==> MintedAgrees(t.aggregates, MintSum(t.events)))
    && (Current(t.aggregates) ==> VolumeAgrees(t.aggregates, Fold(t.events)))
    && (Current(t.aggregates) && t.textIds ==> t.listings == Fold(t.events).listings)
  }

  ghost predicate Priced(rows: map<U64, Row>, id: U64, c: Address, p: int) {
    id in rows && rows[id].status == Active && rows[id].currency == Some(c) && rows[id].price == Some(p)
  }

  class Database {
    var events: seq<LogEvent>
    var listings: map<U64, Row>
    var aggregates: map<Key, int>
    var checkpoint: Option<nat>

    /** The tables hold the fold of the log. */
    ghost predicate Valid()
      reads this
    {
      listings == Fold(events).listings && Agrees(aggregates, Fold(events)) && Current(aggregates)
    }

    ghost function Value(): Db
      reads this
    {
      Db(events, Fold(events), checkpoint)
    }

    /** Opens a database of any version. A total that exists is kept, and so are volumes stamped with this
        version, and the listings too if their ids are text; everything else is rebuilt from the log. So the
        tables agree with the log if and only if what was kept does. */
    constructor (t: Tables)
      ensures events == t.events && checkpoint == t.checkpoint
      ensures Valid() <==> KeptAgrees(t)
    {
      events, listings, aggregates, checkpoint := t.events, t.listings, t.aggregates, t.checkpoint;
      new;
      ReplayIsFold(events);
      MigrateListingIdentifiers(t.textIds);
      InitializeAggregates();
      MigrateMarketplaceSchema();
    }

    /** The listings of a database with integer ids are dropped and replayed. */
    method MigrateListingIdentifiers(textIds: bool)
      modifies this`listings
      ensures listings == if textIds then old(listings) else Fold(events).listings
    {
      if textIds {
        return;
      }
      listings := map[];
      var i := 0;
      while i < |events|
        invariant 0 <= i <= |events|
        invariant listings == Fold(events[..i]).listings
      {
        assert events[..i + 1][..i] == events[..i];
        if events[i].payload.Market? {
          ApplyListingState(events[i].payload.e, events[i].ledger);
        }
        i := i + 1;
      }
      assert events[..i] == events;
    }

    method InitializeAggregates()
      modifies this`aggregates
      ensures old(aggregates) != map[] ==> aggregates == old(aggregates)
      ensures old(aggregates) == map[] ==> aggregates == map[AmtMinted := MintSum(events)]
    {
      if aggregates != map[] {
        return;
      }
      aggregates := map[AmtMinted := 0];
      var i := 0;
      while i < |events|
        invariant 0 <= i <= |events|
        invariant aggregates == map[AmtMinted := MintSum(events[..i])]
      {
        assert events[..i + 1][..i] == events[..i];
        if events[i].payload.TokenMint? {
          AddAggregate(AmtMinted, events[i].payload.amount);
        }
        i := i + 1;
      }
      assert events[..i] == events;
    }

    /** Clears what depends on the marketplace and replays its events in insertion order. */
    method MigrateMarketplaceSchema()
      modifies this`listings, this`aggregates
      ensures Current(old(aggregates)) ==> listings == old(listings) && aggregates == old(aggregates)
      ensures !Current(old(aggregates)) ==> listings == Fold(events).listings && VolumeAgrees(aggregates, Fold(events))
      ensures Current(aggregates) && SameMinted(aggregates, old(aggregates))
    {
      if Current(aggregates) {
        return;
      }
      listings := map[];
      aggregates := map key | key in aggregates && !key.Volume? && !key.MixedVolume? :: aggregates[key];
      ReplayMarketplaceEvents();
      aggregates := aggregates[MarketplaceSchema := SCHEMA_VERSION];
    }

    /** Every marketplace event of the log, in insertion order, into cleared tables. */
    method ReplayMarketplaceEvents()
      requires listings == map[] && forall c :: Volume(c) !in aggregates
      modifies this`listings, this`aggregates
      ensures listings == Fold(events).listings && VolumeAgrees(aggregates, Fold(events))
      ensures SameMinted(aggregates, old(aggregates))
    {
      ReplayIsFold(events);
      var i := 0;
      while i < |events|
        invariant 0 <= i <= |events|
        invariant listings == Replay(events[..i], 0).listings
        invariant VolumeAgrees(aggregates, Replay(events[..i], 0))
        invariant SameMinted(aggregates, old(aggregates))
      {
        assert events[..i + 1][..i] == events[..i];
        if events[i].payload.Market? {
          ApplyMarketplaceEvent(events[i].payload.e, events[i].ledger, Replay(events[..i], 0));
        }
        i := i + 1;
      }
      assert events[..i] == events;
    }

    /** The row is created first when the listing was never seen. */
    method CloseListing(id: U64, status: Status)
      modifies this`listings
      ensures listings == Close(old(listings), id, status)
    {
      if id !in listings {
        listings := listings[id := Row(None, None, None, None, None, Unknown)];
      }
      listings := listings[id := listings[id].(status := status)];
    }

    method ApplyListingState(e: M.Event, ledger: nat)
      modifies this`listings
      ensures listings == ApplyListing(old(listings), e, ledger)
    {
      match e
      case Listed(seller, id, botId, price, currency) =>
        listings := listings[id := Row(Some(seller), Some(botId), Some(price), Some(currency), Some(ledger), Active)];
      case Sold(_, _, id, _, _, _) => CloseListing(id, Sold);
      case ListingCancelled(_, id, _) => CloseListing(id, Cancelled);
      case Reclaimed(_, id, _) => CloseListing(id, Reclaimed);
      case Deactivated(_, id) => CloseListing(id, Deactivated);
      case Repriced(_, id, _, newPrice) =>
        if id in listings && listings[id].status == Active {
          listings := listings[id := listings[id].(price := Some(newPrice))];
        }
      case _ =>
    }

    method AddAggregate(key: Key, amount: int)
      modifies this`aggregates
      ensures aggregates
           == old(aggregates)[key := (if key in old(aggregates) then old(aggregates)[key] else 0) + amount]
    {
      var current := if key in aggregates then aggregates[key] else 0;
      aggregates := aggregates[key := current + amount];
    }

    /** Volumes are kept per currency: amounts in different tokens never meet. */
    method ApplyMarketplaceEvent(e: M.Event, ledger: nat, ghost v: Views)
      requires listings == v.listings && VolumeAgrees(aggregates, v)
      modifies this`listings, this`aggregates
      ensures listings == ApplyEvent(v, LogEvent(0, ledger, Market(e))).listings
      ensures VolumeAgrees(aggregates, ApplyEvent(v, LogEvent(0, ledger, Market(e))))
      ensures SameMinted(aggregates, old(aggregates))
      ensures Current(old(aggregates)) ==> Current(aggregates)
    {
      ApplyListingState(e, ledger);
      if e.Sold? {
        AddAggregate(Volume(e.currency), e.price);
      }
    }

    method ApplyDerivedState(e: LogEvent, ghost v: Views)
      requires listings == v.listings && Agrees(aggregates, v) && Current(aggregates)
      modifies this`listings, this`aggregates
      ensures listings == ApplyEvent(v, e).listings && Agrees(aggregates, ApplyEvent(v, e)) && Current(aggregates)
    {
      match e.payload
      case Market(m) => ApplyMarketplaceEvent(m, e.ledger, v);
      case TokenMint(amount) => AddAggregate(AmtMinted, amount);
      case Other =>
    }

    method Exists(id: nat) returns (found: bool)
      ensures found <==> HasId(events, id)
    {
      var i := 0;
      while i < |events|
        invariant 0 <= i <= |events|
        invariant forall k :: 0 <= k < i ==> events[k].id != id
      {
        if events[i].id == id {
          return true;
        }
        i := i + 1;
      }
      return false;
    }

    /** Log and tables move together, and only for events that are new. */
    method InsertEvents(batch: seq<LogEvent>) returns (inserted: nat)
      requires Valid()
      modifies this`events, this`listings, this`aggregates
      ensures Valid() && Value() == old(Value()).InsertEvents(batch)
      ensures inserted == |events| - |old(events)|
    {
      inserted := 0;
      var i := 0;
      while i < |batch|
        invariant 0 <= i <= |batch|
        invariant Valid() && events == Insert(old(events), batch[..i])
        invariant inserted == |events| - |old(events)|
      {
        assert batch[..i + 1][..i] == batch[..i];
        var known := Exists(batch[i].id);
        if !known {
          FoldAppend(events, batch[i]);
          ghost var v := Fold(events);
          events := events + [batch[i]];
          inserted := inserted + 1;
          ApplyDerivedState(batch[i], v);
        }
        i := i + 1;
      }
      assert batch[..i] == batch;
    }

    method SaveCheckpoint(ledger: nat)
      modifies this`checkpoint
      ensures checkpoint == Some(ledger)
    {
      checkpoint := Some(ledger);
    }

    // ---- queries ----------------------------------------------------------------------------

    /** Every currency with an active row, and only those, with its lowest active price. */
    method FloorPriceByCurrency() returns (floors: map<Address, int>)
      ensures forall id, c, p :: Priced(listings, id, c, p) ==> c in floors && floors[c] <= p
      ensures forall c :: c in floors ==> exists id :: Priced(listings, id, c, floors[c])
    {
      floors := map[];
      var todo := listings.Keys;
      while todo != {}
        invariant todo <= listings.Keys
        invariant forall id, c, p :: id !in todo && Priced(listings, id, c, p) ==> c in floors && floors[c] <= p
        invariant forall c :: c in floors ==> exists id :: Priced(listings, id, c, floors[c])
        decreases |todo|
      {
        var id :| id in todo;
        todo := todo - {id};
        var row := listings[id];
        if row.status == Active && row.price.Some? && row.currency.Some? {
          var c, p := row.currency.value, row.price.value;
          assert Priced(listings, id, c, p);
          if c !in floors || p < floors[c] {
            floors := floors[c := p];
          }
        }
      }
    }
  }

  /** What one poll reports. */
  datatype PollResult = PollResult(fetched: nat, inserted: nat, skipped: nat, latestLedger: nat)

  class Poller {
    const db: Database
    const defaultStartLedger: nat

    constructor (db: Database, defaultStartLedger: nat)
      ensures this.db == db && this.defaultStartLedger == defaultStartLedger
    {
      this.db, this.defaultStartLedger := db, defaultStartLedger;
    }

    /** Where a start without checkpoint begins; an unset ledger means the oldest the node retains. */
    function ColdStart(oldest: nat): nat {
      if defaultStartLedger > 0 then defaultStartLedger else oldest
    }

    method ResolveStartLedger(oldest: nat) returns (start: nat)
      ensures start == db.Value().Start(ColdStart(oldest))
    {
      if db.checkpoint.Some? {
        return db.checkpoint.value + 1;
      }
      return ColdStart(oldest);
    }

    /** One cycle against a node that holds `chain` from ledger `oldest` to `latest`: fetch, skip, insert,
        then the checkpoint. `crash` says where the process dies, if it does. */
    method PollOnce(chain: seq<RawEvent>, oldest: nat, latest: nat, crash: Crash) returns (r: Option<PollResult>)
      requires db.Valid()
      modifies db
      ensures db.Valid()
      ensures db.Value() == IndexerSpec.PollOnce(old(db.Value()), chain, Poll(ColdStart(oldest), latest, crash))
      ensures r.Some? <==> crash == Never
      ensures r.Some? ==> r.value.inserted + |old(db.events)| == |db.events|
      ensures var due := Good(chain, old(db.Value()).Start(ColdStart(oldest)), latest);
              r.Some? ==> r.value.fetched == r.value.skipped + |due|
    {
      var start := ResolveStartLedger(oldest);
      var raw := Slice(chain, start, latest);
      if crash == BeforeInsert {
        return None;
      }
      var decoded, skipped := DecodeAll(raw);
      var inserted := db.InsertEvents(decoded);
      if crash == BeforeCheckpoint {
        return None;
      }
      if latest > 0 {
        db.SaveCheckpoint(latest);
      }
      r := Some(PollResult(|raw|, inserted, skipped, latest));
    }

    /** Events of failed calls and undecodable ones are counted and left out. */
    method DecodeAll(raw: seq<RawEvent>) returns (decoded: seq<LogEvent>, skipped: nat)
      ensures decoded == Decode(raw) && |decoded| + skipped == |raw|
    {
      decoded, skipped := [], 0;
      var i := 0;
      while i < |raw|
        invariant 0 <= i <= |raw|
        invariant decoded == Decode(raw[..i]) && |decoded| + skipped == i
      {
        assert raw[..i + 1][..i] == raw[..i];
        if !raw[i].success || raw[i].payload.None? {
          skipped := skipped + 1;
        } else {
          decoded := decoded + [LogEvent(raw[i].id, raw[i].ledger, raw[i].payload.value)];
        }
        i := i + 1;
      }
      assert raw[..i] == raw;
    }
  }
}
