/** The marketplace contract: its storage entries, the indexes it maintains beside them, and its entry
    points step by step. Every entry point is proved to do what `MarketSpec` says, error for error,
    to leave no trace when it fails, and to keep every index exact. */
module Marketplace {
  import opened Common
  import opened IdLists
  import opened MarketSpec
  import opened MarketLegs
  import opened MarketInv
  import opened MarketTheorems
  import opened MarketIndex
  import Fees
  import N = NftSpec
  import T = TokenSpec

  /** The contract's storage, one field per family of keys, beside the state of the contracts it calls. */
  datatype Storage = Storage(
    self: Address,
    admin: Address,
    feeBps: U32,
    royaltyBps: U32,
    paused: bool,
    listingCap: U32,
    minPrices: map<Address, I128>,
    allowed: set<Address>,
    listings: map<U64, Listing>,
    nextListing: U64,
    pages: seq<seq<U64>>,
    offers: map<U64, Offer>,
    nextOffer: U64,
    fees: map<Address, I128>,
    tierStats: map<N.Tier, TierStats>,
    botListing: map<U64, U64>,
    activeCount: U32,
    userActive: map<Address, U32>,
    botOffers: map<U64, seq<U64>>,
    events: seq<Event>,
    nft: N.Nft,
    tokens: map<Address, T.Token>)
  {
    /** What is left when everything maintained is forgotten. */
    function Market(): Market {
      MarketSpec.Market(self, admin, feeBps, royaltyBps, paused, listingCap, minPrices, allowed, listings,
                        nextListing, pages, offers, nextOffer, fees, SalesIn(tierStats), events)
    }

    function World(): World {
      MarketSpec.World(Market(), nft, tokens)
    }

    ghost predicate IndexesExact() {
      Indexed(Market(), botListing, activeCount, userActive, tierStats, botOffers)
    }

    /** What holds even between the legs of a settlement. */
    ghost predicate Coherent() {
      Shape(Market()) && IndexesExact()
    }

    ghost predicate Valid() {
      Inv(World()) && IndexesExact()
    }

    function MinPriceFor(currency: Address): I128 {
      if currency in minPrices then minPrices[currency] else Fees.DefaultMinPrice(feeBps)
    }

    function FeesAccrued(currency: Address): I128 {
      if currency in fees then fees[currency] else 0
    }

    /** `active_listing_for_bot`, by the bot index. */
    function ActiveListingFor(botId: U64): Option<Listing> {
      if botId !in botListing || botListing[botId] !in listings || !listings[botListing[botId]].active then None
      else Some(listings[botListing[botId]])
    }

    function EffectiveOwner(botId: U64): Address
      requires botId in nft.bots
    {
      if nft.bots[botId].owner == self && ActiveListingFor(botId).Some? then ActiveListingFor(botId).value.seller
      else nft.bots[botId].owner
    }
  }

  lemma ValidIsCoherent(s: Storage)
    requires s.Valid()
    ensures s.Coherent()
  {
    InvShape(s.World());
  }

  /** The bot index answers what the listings answer. */
  lemma LookupsAgree(s: Storage, botId: U64)
    requires s.IndexesExact()
    ensures s.ActiveListingFor(botId).Some? <==> s.Market().ListingFor(botId).Some?
    ensures s.ActiveListingFor(botId).Some? ==>
              && botId in s.botListing && s.Market().ListingFor(botId) == Some(s.botListing[botId])
              && s.ActiveListingFor(botId).value == s.listings[s.Market().ListingFor(botId).value]
    ensures botId in s.botListing <==> s.Market().ListingFor(botId).Some?
    ensures botId in s.nft.bots ==> s.EffectiveOwner(botId) == s.World().EffectiveOwner(botId)
  {
    LookupIsExact(s.Market(), s.botListing, botId);
    assert botId in s.botListing ==> s.Market().IsActive(s.botListing[botId]);
  }

  // ---- pages --------------------------------------------------------------------------

  /** `ids_after`: walks the pages, skips those that end at or before the cursor. */
  method IdsAfterCursor(pages: seq<seq<U64>>, cursor: U64, max: nat) returns (out: seq<U64>)
    requires max >= 1 && Ascending(Flatten(pages))
    ensures out == IdsAfter(pages, cursor, max)
  {
    out := [];
    for p := 0 to |pages|
      invariant out == Above(Flatten(pages[..p]), cursor) && |out| < max
    {
      var page := pages[p];
      PageAscending(pages, p);
      assert pages[..p + 1][..p] == pages[..p];
      AboveConcat(Flatten(pages[..p]), page, cursor);
      if |page| == 0 || page[|page| - 1] <= cursor {
        AboveNothing(page, cursor);
      } else {
        var stop;
        out, stop := TakeAbove(page, cursor, out, max);
        if |out| >= max {
          AboveStops(pages, p, stop, cursor);
          return;
        }
        assert page[..stop] == page;
      }
    }
    assert pages[..|pages|] == pages;
  }

  /** The scan of one page, up to entry `stop`, where the list is full or the page ends. */
  method TakeAbove(page: seq<U64>, cursor: U64, found: seq<U64>, max: nat) returns (out: seq<U64>, stop: nat)
    requires |found| < max
    ensures stop <= |page| && out == found + Above(page[..stop], cursor) && |out| <= max
    ensures |out| < max ==> stop == |page|
  {
    out := found;
    for i := 0 to |page|
      invariant out == found + Above(page[..i], cursor) && |out| < max
    {
      assert page[..i + 1][..i] == page[..i];
      if page[i] > cursor {
        out := out + [page[i]];
        if |out| >= max {
          return out, i + 1;
        }
      }
    }
    return out, |page|;
  }

  /** Reaching `max` in the middle of page `p` has found exactly the first `max` ids above the cursor. */
  lemma AboveStops(pages: seq<seq<U64>>, p: nat, i: nat, cursor: U64)
    requires p < |pages| && i <= |pages[p]|
    ensures var found := Above(Flatten(pages[..p]), cursor) + Above(pages[p][..i], cursor);
            found <= Above(Flatten(pages), cursor)
  {
    FlattenSplit(pages, p);
    AboveConcat(Flatten(pages[..p]), pages[p], cursor);
    assert pages[p] == pages[p][..i] + pages[p][i..];
    AboveConcat(pages[p][..i], pages[p][i..], cursor);
    AboveConcat(Flatten(pages[..p]) + pages[p], Flatten(pages[p + 1..]), cursor);
  }

  lemma {:induction false} FlattenSplit(pages: seq<seq<U64>>, p: nat)
    requires p < |pages|
    ensures Flatten(pages) == Flatten(pages[..p]) + pages[p] + Flatten(pages[p + 1..])
    decreases |pages|
  {
    var n := |pages|;
    if p == n - 1 {
      assert Flatten(pages[p + 1..]) == [];
    } else {
      var front := pages[..n - 1];
      FlattenSplit(front, p);
      assert front[..p] == pages[..p];
      assert pages[p + 1..][..n - 1 - (p + 1)] == front[p + 1..];
    }
  }

  /** The least active price of a tier among some ids, and a listing at it. */
  method LeastAmong(ids: seq<U64>, listings: map<U64, Listing>, tier: N.Tier, ghost m: Market)
    returns (price: I128, id: U64)
    requires m.listings == listings && forall i :: m.IsActive(i) ==> m.listings[i].price > 0
    ensures FloorSoFar(m, tier, ids, price, id)
  {
    price, id := 0, 0;
    for k := 0 to |ids|
      invariant FloorSoFar(m, tier, ids[..k], price, id)
    {
      assert ids[..k + 1] == ids[..k] + [ids[k]];
      FloorOneMore(m, tier, ids[..k], price, id, ids[k]);
      if ids[k] in listings {
        var l := listings[ids[k]];
        if l.active && l.tier == tier && (price == 0 || l.price < price) {
          price, id := l.price, ids[k];
        }
      }
    }
    assert ids[..|ids|] == ids;
  }

  /** `scan_floor`: one pass over the indexed ids. */
  method ScanFloor(pages: seq<seq<U64>>, listings: map<U64, Listing>, tier: N.Tier, ghost m: Market)
    returns (price: I128, id: U64)
    requires m.pages == pages && m.listings == listings && Shape(m)
    ensures FloorExact(m, tier, price, id)
  {
    AboveKeeps(Flatten(pages), 0);
    AboveShort(Flatten(pages), 0);
    var ids := IdsAfterCursor(pages, 0, |Flatten(pages)| + 1);
    price, id := LeastAmong(ids, listings, tier, m);
    FloorOfAll(m, tier, ids, price, id);
  }

  /** The floor of a list that misses no active listing is the floor. */
  lemma FloorOfAll(m: Market, tier: N.Tier, ids: seq<U64>, price: int, id: U64)
    requires Shape(m) && FloorSoFar(m, tier, ids, price, id)
    requires forall x :: x in Flatten(m.pages) && x > 0 ==> x in ids
    ensures FloorExact(m, tier, price, id)
  {
    assert forall i :: m.IsActive(i) ==> i in ids;
  }

  /** The floor of the listings among `seen`. */
  ghost predicate FloorSoFar(m: Market, tier: N.Tier, seen: seq<U64>, price: int, id: U64) {
    && (price == 0 ==> id == 0)
    && (price == 0 <==> forall i :: i in seen && m.IsActive(i) ==> m.listings[i].tier != tier)
    && (price != 0 ==> m.IsActive(id) && m.listings[id].tier == tier && m.listings[id].price == price)
    && (forall i :: i in seen && m.IsActive(i) && m.listings[i].tier == tier ==> price <= m.listings[i].price)
  }

  lemma FloorOneMore(m: Market, tier: N.Tier, seen: seq<U64>, price: int, id: U64, next: U64)
    requires (forall i :: m.IsActive(i) ==> m.listings[i].price > 0) && FloorSoFar(m, tier, seen, price, id)
    ensures if m.IsActive(next) && m.listings[next].tier == tier && (price == 0 || m.listings[next].price < price)
            then FloorSoFar(m, tier, seen + [next], m.listings[next].price, next)
            else FloorSoFar(m, tier, seen + [next], price, id)
  {
    assert forall i :: i in seen + [next] <==> i in seen || i == next;
  }

  lemma {:induction false} AboveShort(s: seq<U64>, cursor: U64)
    ensures |Above(s, cursor)| <= |s|
    decreases |s|
  {
    if s != [] {
      AboveShort(s[..|s| - 1], cursor);
    }
  }

  /** The copy loop of `compact_page`. */
  method KeepLive(ids: seq<U64>, listings: map<U64, Listing>) returns (kept: seq<U64>)
    ensures kept == Live(ids, listings)
  {
    kept := [];
    for i := 0 to |ids|
      invariant kept == Live(ids[..i], listings)
    {
      assert ids[..i + 1][..i] == ids[..i];
      if ids[i] in listings && listings[ids[i]].active {
        kept := kept + [ids[i]];
      }
    }
    assert ids[..|ids|] == ids;
  }

  /** Nothing dropped means nothing changed. */
  lemma {:induction false} LiveFull(ids: seq<U64>, listings: map<U64, Listing>)
    requires |Live(ids, listings)| == |ids|
    ensures Live(ids, listings) == ids
    decreases |ids|
  {
    if ids != [] {
      var front, last := ids[..|ids| - 1], ids[|ids| - 1];
      LiveKeeps(front, listings);
      assert Live(ids, listings) == Live(front, listings) + [last];
      LiveFull(front, listings);
      assert ids == front + [last];
    }
  }

  // ---- what one write does to the indexes ------------------------------------------------

  /** Only the floor of the retired listing's tier can move, and only if that listing held it. */
  lemma FloorsAfterRetire(m: Market, id: U64, before: map<N.Tier, TierStats>, after: map<N.Tier, TierStats>,
                          price: I128, f: U64)
    requires Shape(m) && m.IsActive(id) && FloorsExact(m, before) && SalesClean(before)
    requires if StatsOf(before, m.listings[id].tier).floorListing == id
             then FloorExact(m.Deactivate(id), m.listings[id].tier, price, f)
                  && after == WithFloor(before, m.listings[id].tier, price, f)
             else after == before
    ensures FloorsExact(m.Deactivate(id), after) && SalesClean(after) && SalesIn(after) == SalesIn(before)
  {
    FloorWriteKeepsSales(before, m.listings[id].tier, price, f);
    forall t
      ensures FloorExact(m.Deactivate(id), t, StatsOf(after, t).floorPrice, StatsOf(after, t).floorListing)
    {
      if t != m.listings[id].tier || StatsOf(before, t).floorListing != id {
        FloorAfterRemove(m, id, t, StatsOf(before, t).floorPrice, StatsOf(before, t).floorListing);
      }
    }
  }

  lemma CountsAfterRetire(m: Market, id: U64, activeCount: U32, userActive: map<Address, U32>, now: map<Address, U32>)
    requires CountsExact(m, activeCount, userActive) && m.IsActive(id)
    requires forall a :: CountOf(now, a)
                      == SatSub(CountOf(userActive, a), if a == m.listings[id].seller then 1 else 0)
    ensures activeCount > 0 && CountsExact(m.Deactivate(id), activeCount - 1, now)
  {
    assert id in m.ActiveIds() && id in m.ActiveOf(m.listings[id].seller);
    RetireCounts(m, id);
  }

  /** All index writes of `deactivate_listing` together. */
  lemma RetireReindexes(s: Storage, v: Storage, id: U64)
    requires s.Coherent() && s.Market().IsActive(id)
    requires v == s.(listings := s.Market().Deactivate(id).listings,
                     botListing := s.botListing - {s.listings[id].botId},
                     activeCount := v.activeCount, tierStats := v.tierStats, userActive := v.userActive)
    requires CountsExact(s.Market().Deactivate(id), v.activeCount, v.userActive)
    requires FloorsExact(s.Market().Deactivate(id), v.tierStats) && SalesClean(v.tierStats)
             && SalesIn(v.tierStats) == SalesIn(s.tierStats)
    ensures v.Coherent() && v.Market() == s.Market().Deactivate(id)
  {
    RetireUnindexes(s.Market(), s.botListing, id);
    assert forall b :: s.Market().Deactivate(id).OpenOffers(b) == s.Market().OpenOffers(b);
  }

  /** A new listing takes the floor of its tier if it undercuts it, and moves no other. */
  lemma FloorsAfterList(m: Market, n: Market, id: U64, l: Listing, before: map<N.Tier, TierStats>,
                        after: map<N.Tier, TierStats>)
    requires Shape(m) && FloorsExact(m, before) && SalesClean(before)
    requires id !in m.listings && l.active && l.price > 0 && n.listings == m.listings[id := l]
    requires var st := StatsOf(before, l.tier);
             after == if st.floorPrice == 0 || l.price < st.floorPrice
                      then WithFloor(before, l.tier, l.price, id) else before
    ensures FloorsExact(n, after) && SalesClean(after) && SalesIn(after) == SalesIn(before)
  {
    FloorWriteKeepsSales(before, l.tier, l.price, id);
    forall t
      ensures FloorExact(n, t, StatsOf(after, t).floorPrice, StatsOf(after, t).floorListing)
    {
      FloorAfterAdd(m, n, id, l, t, StatsOf(before, t).floorPrice, StatsOf(before, t).floorListing);
    }
  }

  lemma BotIndexAfterList(m: Market, n: Market, id: U64, l: Listing, botListing: map<U64, U64>)
    requires BotIndexExact(m, botListing) && id !in m.listings && l.active && n.listings == m.listings[id := l]
    requires forall i :: m.IsActive(i) ==> m.listings[i].botId != l.botId
    ensures BotIndexExact(n, botListing[l.botId := id])
  {
    assert forall i :: n.IsActive(i) <==> m.IsActive(i) || i == id;
    assert forall b :: b in botListing ==> m.IsActive(botListing[b]);
  }

  /** All index writes of `list_bot` together. */
  lemma ListReindexes(s: Storage, v: Storage, l: Listing)
    requires s.Coherent() && Books(s.Market()) && l.active && l.price > 0 && s.nextListing < U64_MAX
    requires forall i :: s.Market().IsActive(i) ==> s.listings[i].botId != l.botId
    requires v.listings == s.listings[s.nextListing := l] && v.offers == s.offers && v.botOffers == s.botOffers
    requires v.botListing == s.botListing[l.botId := s.nextListing]
    requires CountsExact(v.Market(), v.activeCount, v.userActive)
    requires var st := StatsOf(s.tierStats, l.tier);
             v.tierStats == if st.floorPrice == 0 || l.price < st.floorPrice
                            then WithFloor(s.tierStats, l.tier, l.price, s.nextListing) else s.tierStats
    ensures v.IndexesExact() && SalesIn(v.tierStats) == SalesIn(s.tierStats)
  {
    FloorsAfterList(s.Market(), v.Market(), s.nextListing, l, s.tierStats, v.tierStats);
    BotIndexAfterList(s.Market(), v.Market(), s.nextListing, l, s.botListing);
    assert forall b :: v.Market().OpenOffers(b) == s.Market().OpenOffers(b);
  }

  /** A reprice moves the floor of its own tier only: down to the new price, or to the rescanned one
      when the holder no longer undercuts it. */
  lemma FloorsAfterReprice(m: Market, n: Market, id: U64, newPrice: I128, before: map<N.Tier, TierStats>,
                           after: map<N.Tier, TierStats>, price: I128, f: U64)
    requires Shape(m) && FloorsExact(m, before) && SalesClean(before) && m.IsActive(id) && newPrice > 0
    requires n.listings == m.listings[id := m.listings[id].(price := newPrice)]
    requires var tier, st := m.listings[id].tier, StatsOf(before, m.listings[id].tier);
             if st.floorPrice == 0 || newPrice < st.floorPrice then after == WithFloor(before, tier, newPrice, id)
             else if st.floorListing == id
             then FloorExact(n, tier, price, f) && after == WithFloor(before, tier, price, f)
             else after == before
    ensures FloorsExact(n, after) && SalesClean(after) && SalesIn(after) == SalesIn(before)
  {
    var tier := m.listings[id].tier;
    FloorWriteKeepsSales(before, tier, newPrice, id);
    FloorWriteKeepsSales(before, tier, price, f);
    forall t
      ensures FloorExact(n, t, StatsOf(after, t).floorPrice, StatsOf(after, t).floorListing)
    {
      var st := StatsOf(before, t);
      if t != tier || newPrice < st.floorPrice || st.floorListing != id {
        FloorAfterReprice(m, n, id, newPrice, t, st.floorPrice, st.floorListing);
      }
    }
  }

  lemma RepriceKeepsSets(m: Market, n: Market, id: U64, newPrice: I128)
    requires m.IsActive(id) && n.offers == m.offers
    requires n.listings == m.listings[id := m.listings[id].(price := newPrice)]
    ensures n.ActiveIds() == m.ActiveIds()
    ensures forall s :: n.ActiveOf(s) == m.ActiveOf(s)
    ensures forall b :: n.OpenOffers(b) == m.OpenOffers(b)
    ensures forall i :: n.IsActive(i) <==> m.IsActive(i)
  {
  }

  /** All index writes of `update_price` together. */
  lemma RepriceReindexes(s: Storage, v: Storage, id: U64, newPrice: I128)
    requires s.Coherent() && s.Market().IsActive(id)
    requires v == s.(listings := s.listings[id := s.listings[id].(price := newPrice)],
                     tierStats := v.tierStats, events := v.events)
    requires FloorsExact(v.Market(), v.tierStats) && SalesClean(v.tierStats)
    ensures v.IndexesExact()
  {
    RepriceKeepsSets(s.Market(), v.Market(), id, newPrice);
  }
}
