/** The structures the marketplace maintains incrementally, each with the simple statement it must agree
    with, and the lemmas that say the O(1) updates are enough. */
module MarketIndex {
  import opened Common
  import opened IdLists
  import opened MarketSpec
  import opened MarketLegs
  import opened MarketInv
  import N = NftSpec

  /** Per-tier statistics as stored: the sales record and the floor in one entry. */
  datatype TierStats = TierStats(volume: I128, saleCount: U64, lastSale: I128, floorPrice: I128, floorListing: U64)

  const NO_STATS := TierStats(0, 0, 0, 0, 0)

  function StatsOf(stats: map<N.Tier, TierStats>, tier: N.Tier): TierStats {
    if tier in stats then stats[tier] else NO_STATS
  }

  /** The sales part of the stored statistics. */
  function SalesIn(stats: map<N.Tier, TierStats>): map<N.Tier, Sales> {
    map t | t in stats && stats[t].saleCount > 0 :: Sales(stats[t].volume, stats[t].saleCount, stats[t].lastSale)
  }

  function CountOf(counts: map<Address, U32>, who: Address): U32 {
    if who in counts then counts[who] else 0
  }

  function OffersOn(botOffers: map<U64, seq<U64>>, botId: U64): seq<U64> {
    if botId in botOffers then botOffers[botId] else []
  }

  // ---- what each structure has to say -------------------------------------------

  /** What the updates rely on: positive prices, one active listing a bot, exact pages. */
  ghost predicate Shape(m: Market) {
    && (forall i :: m.IsActive(i) ==> m.listings[i].price > 0 && i >= 1)
    && (forall i, j :: m.IsActive(i) && m.IsActive(j) && i != j ==> m.listings[i].botId != m.listings[j].botId)
    && Paged(m)
  }

  /** `BotListing[b] = id` exactly when listing `id` is active for `b`. */
  ghost predicate BotIndexExact(m: Market, botListing: map<U64, U64>) {
    && (forall b :: b in botListing ==> m.IsActive(botListing[b]) && m.listings[botListing[b]].botId == b)
    && (forall i :: m.IsActive(i) ==> m.listings[i].botId in botListing && botListing[m.listings[i].botId] == i)
  }

  ghost predicate CountsExact(m: Market, activeCount: U32, userActive: map<Address, U32>) {
    && activeCount == |m.ActiveIds()|
    && forall s :: CountOf(userActive, s) == |m.ActiveOf(s)|
  }

  /** The floor of a tier is the least price among its active listings and names one at that price;
      it is 0 exactly when the tier has none. */
  ghost predicate FloorExact(m: Market, tier: N.Tier, price: int, id: U64) {
    && (price == 0 <==> forall i :: m.IsActive(i) ==> m.listings[i].tier != tier)
    && (price == 0 ==> id == 0)
    && (price != 0 ==> m.IsActive(id) && m.listings[id].tier == tier && m.listings[id].price == price)
    && (forall i :: m.IsActive(i) && m.listings[i].tier == tier ==> price <= m.listings[i].price)
  }

  ghost predicate FloorsExact(m: Market, stats: map<N.Tier, TierStats>) {
    forall t :: FloorExact(m, t, StatsOf(stats, t).floorPrice, StatsOf(stats, t).floorListing)
  }

  /** A record without sales carries no sales figures. */
  ghost predicate SalesClean(stats: map<N.Tier, TierStats>) {
    forall t :: t in stats && stats[t].saleCount == 0 ==> stats[t].volume == 0 && stats[t].lastSale == 0
  }

  /** Each bot's open-offer list holds exactly its open offers, oldest first. */
  ghost predicate OffersExact(m: Market, botOffers: map<U64, seq<U64>>) {
    forall b :: Lists(OffersOn(botOffers, b), m.OpenOffers(b)) && Ascending(OffersOn(botOffers, b))
  }

  // ---- counts ---------------------------------------------------------------------

  lemma RetireCounts(m: Market, id: U64)
    requires m.IsActive(id)
    ensures |m.Deactivate(id).ActiveIds()| == |m.ActiveIds()| - 1
    ensures forall s :: |m.Deactivate(id).ActiveOf(s)|
                     == |m.ActiveOf(s)| - if s == m.listings[id].seller then 1 else 0
  {
    var n := m.Deactivate(id);
    assert n.ActiveIds() == m.ActiveIds() - {id};
    forall s
      ensures |n.ActiveOf(s)| == |m.ActiveOf(s)| - if s == m.listings[id].seller then 1 else 0
    {
      if s == m.listings[id].seller {
        assert n.ActiveOf(s) == m.ActiveOf(s) - {id};
      } else {
        assert n.ActiveOf(s) == m.ActiveOf(s);
      }
    }
  }

  lemma ListCounts(m: Market, n: Market, id: U64, l: Listing)
    requires id !in m.listings && l.active && n.listings == m.listings[id := l]
    ensures |n.ActiveIds()| == |m.ActiveIds()| + 1
    ensures forall s :: |n.ActiveOf(s)| == |m.ActiveOf(s)| + if s == l.seller then 1 else 0
  {
    assert n.ActiveIds() == m.ActiveIds() + {id};
    forall s
      ensures |n.ActiveOf(s)| == |m.ActiveOf(s)| + if s == l.seller then 1 else 0
    {
      ListCountsOf(m, n, id, l, s);
    }
  }

  lemma ListCountsOf(m: Market, n: Market, id: U64, l: Listing, s: Address)
    requires id !in m.listings && l.active && n.listings == m.listings[id := l]
    ensures |n.ActiveOf(s)| == |m.ActiveOf(s)| + if s == l.seller then 1 else 0
  {
    forall x
      ensures x in n.ActiveOf(s) <==> x in m.ActiveOf(s) || (x == id && s == l.seller)
    {
    }
    assert n.ActiveOf(s) == m.ActiveOf(s) + if s == l.seller then {id} else {};
  }

  // ---- floors ---------------------------------------------------------------------

  /** A new listing can only lower the floor of its tier: one comparison. */
  lemma FloorAfterAdd(m: Market, n: Market, id: U64, l: Listing, tier: N.Tier, price: int, floorId: U64)
    requires FloorExact(m, tier, price, floorId) && Shape(m)
    requires id !in m.listings && l.active && l.price > 0 && n.listings == m.listings[id := l]
    ensures FloorExact(n, tier,
                       if l.tier == tier && (price == 0 || l.price < price) then l.price else price,
                       if l.tier == tier && (price == 0 || l.price < price) then id else floorId)
  {
    forall i
      ensures n.IsActive(i) <==> m.IsActive(i) || i == id
    {
    }
  }

  /** A listing that does not hold the floor leaves without moving it. */
  lemma FloorAfterRemove(m: Market, id: U64, tier: N.Tier, price: int, floorId: U64)
    requires FloorExact(m, tier, price, floorId) && Shape(m) && m.IsActive(id)
    requires floorId != id || m.listings[id].tier != tier
    ensures FloorExact(m.Deactivate(id), tier, price, floorId)
  {
    var n := m.Deactivate(id);
    assert forall i :: n.IsActive(i) <==> m.IsActive(i) && i != id;
  }

  /** A reprice below the floor takes it; any other reprice of a non-holder leaves it. */
  lemma FloorAfterReprice(m: Market, n: Market, id: U64, newPrice: I128, tier: N.Tier, price: int, floorId: U64)
    requires FloorExact(m, tier, price, floorId) && Shape(m) && m.IsActive(id) && newPrice > 0
    requires n.listings == m.listings[id := m.listings[id].(price := newPrice)]
    requires floorId != id || m.listings[id].tier != tier || newPrice < price
    ensures FloorExact(n, tier,
                       if m.listings[id].tier == tier && newPrice < price then newPrice else price,
                       if m.listings[id].tier == tier && newPrice < price then id else floorId)
  {
    assert forall i :: n.IsActive(i) <==> m.IsActive(i);
  }

  // ---- bot index and offers ----------------------------------------------------------

  lemma OpenOfferLists(m: Market, n: Market, botOffers: map<U64, seq<U64>>, o: Offer)
    requires OffersExact(m, botOffers) && o.status == Active
    requires forall i :: i in m.offers ==> i < m.nextOffer
    requires n.offers == m.offers[m.nextOffer := o]
    ensures OffersExact(n, botOffers[o.botId := OffersOn(botOffers, o.botId) + [m.nextOffer]])
  {
    var now := botOffers[o.botId := OffersOn(botOffers, o.botId) + [m.nextOffer]];
    forall b
      ensures Lists(OffersOn(now, b), n.OpenOffers(b)) && Ascending(OffersOn(now, b))
    {
      AppendKeeps(OffersOn(botOffers, b), m.nextOffer);
      if b == o.botId {
        assert n.OpenOffers(b) == m.OpenOffers(b) + {m.nextOffer};
      } else {
        assert n.OpenOffers(b) == m.OpenOffers(b);
      }
    }
  }

  lemma OpenOffersAfterClose(m: Market, n: Market, id: U64, status: OfferStatus, b: U64)
    requires id in m.offers && m.offers[id].status == Active && status != Active
    requires n.offers == m.CloseOffer(id, status).offers
    ensures n.OpenOffers(b) == m.OpenOffers(b) - if b == m.offers[id].botId then {id} else {}
  {
    if b == m.offers[id].botId {
      assert n.OpenOffers(b) == m.OpenOffers(b) - {id};
    } else {
      assert n.OpenOffers(b) == m.OpenOffers(b);
    }
  }

  lemma CloseOfferLists(m: Market, n: Market, botOffers: map<U64, seq<U64>>, now: map<U64, seq<U64>>,
                        id: U64, status: OfferStatus)
    requires OffersExact(m, botOffers) && id in m.offers && m.offers[id].status == Active && status != Active
    requires n.offers == m.CloseOffer(id, status).offers
    requires forall b :: OffersOn(now, b) == (if b == m.offers[id].botId then Without(OffersOn(botOffers, b), id)
                                              else OffersOn(botOffers, b))
    ensures OffersExact(n, now)
  {
    forall b
      ensures Lists(OffersOn(now, b), n.OpenOffers(b)) && Ascending(OffersOn(now, b))
    {
      assert Lists(OffersOn(botOffers, b), m.OpenOffers(b)) && Ascending(OffersOn(botOffers, b));
      WithoutKeeps(OffersOn(botOffers, b), id);
      OpenOffersAfterClose(m, n, id, status, b);
    }
  }

  /** With an exact bot index, looking a bot up answers what the listings answer. */
  lemma LookupIsExact(m: Market, botListing: map<U64, U64>, botId: U64)
    requires BotIndexExact(m, botListing)
    ensures m.ListingFor(botId) == if botId in botListing then Some(botListing[botId]) else None
  {
    if botId in botListing {
      assert m.IsActive(botListing[botId]);
    }
  }

  lemma RetireUnindexes(m: Market, botListing: map<U64, U64>, id: U64)
    requires BotIndexExact(m, botListing) && Shape(m) && m.IsActive(id)
    ensures BotIndexExact(m.Deactivate(id), botListing - {m.listings[id].botId})
    ensures Shape(m.Deactivate(id))
  {
    var n := m.Deactivate(id);
    assert forall i :: n.IsActive(i) <==> m.IsActive(i) && i != id;
  }

  // ---- the paged id index ---------------------------------------------------------

  /** The ids above a cursor, in order. */
  function Above(s: seq<U64>, cursor: U64): seq<U64>
    decreases |s|
  {
    if s == [] then []
    else Above(s[..|s| - 1], cursor) + if s[|s| - 1] > cursor then [s[|s| - 1]] else []
  }

  lemma {:induction false} AboveKeeps(s: seq<U64>, cursor: U64)
    ensures forall x :: x in Above(s, cursor) <==> x in s && x > cursor
    ensures Ascending(s) ==> Ascending(Above(s, cursor))
    decreases |s|
  {
    if s != [] {
      var front, last := s[..|s| - 1], s[|s| - 1];
      assert s == front + [last];
      AboveKeeps(front, cursor);
      AppendKeeps(front, last);
      AppendKeeps(Above(front, cursor), last);
      assert Above(front, cursor) + [] == Above(front, cursor);
    }
  }

  lemma {:induction false} AboveConcat(a: seq<U64>, b: seq<U64>, cursor: U64)
    ensures Above(a + b, cursor) == Above(a, cursor) + Above(b, cursor)
    decreases |b|
  {
    if b == [] {
      assert a + b == a;
      assert Above(a, cursor) + [] == Above(a, cursor);
    } else {
      var front := b[..|b| - 1];
      assert (a + b)[..|a + b| - 1] == a + front;
      AboveConcat(a, front, cursor);
    }
  }

  /** An ascending page whose last id is not above the cursor holds none that is. */
  lemma {:induction false} AboveNothing(s: seq<U64>, cursor: U64)
    requires Ascending(s) && (s != [] ==> s[|s| - 1] <= cursor)
    ensures Above(s, cursor) == []
    decreases |s|
  {
    if s != [] {
      AboveNothing(s[..|s| - 1], cursor);
    }
  }

  /** What `ids_after` returns: the first `max` indexed ids above the cursor. */
  function IdsAfter(pages: seq<seq<U64>>, cursor: U64, max: nat): seq<U64> {
    var all := Above(Flatten(pages), cursor);
    all[..Min(max, |all|)]
  }

  /** Pages of an ascending index are ascending themselves. */
  lemma {:induction false} PageAscending(pages: seq<seq<U64>>, p: nat)
    requires p < |pages| && Ascending(Flatten(pages))
    ensures Ascending(pages[p])
    ensures forall x :: x in pages[p] ==> x in Flatten(pages)
    decreases |pages|
  {
    var n := |pages|;
    AscendingConcat(Flatten(pages[..n - 1]), pages[n - 1]);
    if p < n - 1 {
      PageAscending(pages[..n - 1], p);
    }
  }

  // ---- putting the pieces together --------------------------------------------------

  /** Every maintained structure says what the listings and offers say. */
  ghost predicate Indexed(m: Market, botListing: map<U64, U64>, activeCount: U32, userActive: map<Address, U32>,
                          stats: map<N.Tier, TierStats>, botOffers: map<U64, seq<U64>>)
  {
    && BotIndexExact(m, botListing)
    && CountsExact(m, activeCount, userActive)
    && FloorsExact(m, stats) && SalesClean(stats)
    && OffersExact(m, botOffers)
  }

  lemma InvShape(w: World)
    requires Inv(w)
    ensures Shape(w.m)
  {
    forall i | w.m.IsActive(i)
      ensures w.m.listings[i].price > 0 && i >= 1
    {
      assert Escrowed(w, w.m.listings[i]);
    }
  }

  /** Structures that look only at listings and offers survive any step that changes neither. */
  lemma SameIndexes(m: Market, n: Market, botListing: map<U64, U64>, activeCount: U32, userActive: map<Address, U32>,
                    stats: map<N.Tier, TierStats>, botOffers: map<U64, seq<U64>>)
    requires Indexed(m, botListing, activeCount, userActive, stats, botOffers)
    requires n.listings == m.listings && n.offers == m.offers
    ensures Indexed(n, botListing, activeCount, userActive, stats, botOffers)
  {
    assert n.ActiveIds() == m.ActiveIds();
    assert forall s :: n.ActiveOf(s) == m.ActiveOf(s);
    assert forall b :: n.OpenOffers(b) == m.OpenOffers(b);
    assert forall i :: n.IsActive(i) <==> m.IsActive(i);
  }

  function WithFloor(stats: map<N.Tier, TierStats>, tier: N.Tier, price: I128, id: U64): map<N.Tier, TierStats> {
    stats[tier := StatsOf(stats, tier).(floorPrice := price, floorListing := id)]
  }

  /** Writing a floor touches no sales figure. */
  lemma FloorWriteKeepsSales(stats: map<N.Tier, TierStats>, tier: N.Tier, price: I128, id: U64)
    requires SalesClean(stats)
    ensures SalesIn(WithFloor(stats, tier, price, id)) == SalesIn(stats)
    ensures SalesClean(WithFloor(stats, tier, price, id))
  {
  }

  /** Adding a sale touches no floor, and is the sale the market records. */
  lemma SaleWriteKeepsFloors(m: Market, stats: map<N.Tier, TierStats>, tier: N.Tier, price: I128)
    requires m.sales == SalesIn(stats) && SalesClean(stats) && m.RecordSale(tier, price).Ok?
    ensures var s := StatsOf(stats, tier);
            && FitsI128(s.volume + price) && s.saleCount < U64_MAX
            && SalesIn(stats[tier := s.(volume := s.volume + price, saleCount := s.saleCount + 1, lastSale := price)])
               == m.RecordSale(tier, price).value.sales
  {
  }

  lemma SaleRefused(m: Market, stats: map<N.Tier, TierStats>, tier: N.Tier, price: I128)
    requires m.sales == SalesIn(stats) && SalesClean(stats)
    ensures m.RecordSale(tier, price).Err? <==>
            !FitsI128(StatsOf(stats, tier).volume + price) || StatsOf(stats, tier).saleCount == U64_MAX
  {
  }
}
