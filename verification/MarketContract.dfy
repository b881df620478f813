/** The marketplace contract at work: a storage that every entry point rewrites in place, and the lock
    around it. */
module MarketContract {
  import opened Common
  import opened IdLists
  import opened MarketSpec
  import opened MarketLegs
  import opened MarketInv
  import opened MarketTheorems
  import opened MarketIndex
  import opened Marketplace
  import Fees
  import N = NftSpec
  import T = TokenSpec

  /** Answer like `spec`, commit on `Ok`, leave no trace on `Err`. */
  ghost predicate Commits<R>(before: World, spec: Result<World, MarketError>, r: Result<R, MarketError>, after: World) {
    match spec
    case Ok(w) => r.Ok? && after == w
    case Err(e) => r == Err(e) && after == before
  }

  /** A call that arrives while another one is under way is refused; any other does what `spec` says. */
  ghost predicate Guarded<R>(busy: bool, before: World, spec: Result<World, MarketError>, r: Result<R, MarketError>,
                             after: World)
  {
    if busy then r == Err(Reentrancy) && after == before else Commits(before, spec, r, after)
  }

  class Contract {
    var s: Storage
    var locked: bool

    ghost predicate Valid()
      reads this
    {
      s.Valid()
    }

    constructor (self: Address, admin: Address, feeBps: U32, royaltyBps: U32, nft: N.Nft, tokens: map<Address, T.Token>)
      ensures !locked && s.IndexesExact() && s.nft == nft && s.tokens == tokens
      ensures s.Market()
           == Market(self, admin, feeBps, royaltyBps, false, 50, map[], {}, map[], 1, [], map[], 1, map[], map[], [])
    {
      s := Storage(self, admin, feeBps, royaltyBps, false, 50, map[], {}, map[], 1, [], map[], 1, map[], map[],
                   map[], 0, map[], map[], [], nft, tokens);
      locked := false;
      new;
      assert s.Market().ActiveIds() == {};
      assert forall a :: s.Market().ActiveOf(a) == {};
      assert forall b :: s.Market().OpenOffers(b) == {};
    }

    /** `initialize`, once for an address: `deployed` is what an earlier call left there, `answers` says
        whether bot_nft reacted to the probe. The rates must leave something to the seller. */
    static method Initialize(deployed: Option<Contract>, cx: Context, self: Address, admin: Address, feeBps: U32,
                             royaltyBps: U32, nft: N.Nft, answers: bool, tokens: map<Address, T.Token>)
      returns (r: Result<Contract, MarketError>)
      ensures r.Err? ==>
                r.error == if deployed.Some? then AlreadyInitialized
                           else if admin !in cx.auth then AuthFailed
                           else if !answers then InvalidBotNft
                           else InvalidPrice
      ensures r.Ok? <==> deployed.None? && admin in cx.auth && answers && feeBps + royaltyBps <= Fees.BPS
      ensures r.Ok? ==> fresh(r.value) && !r.value.locked && r.value.s.IndexesExact()
                        && r.value.s.nft == nft && r.value.s.tokens == tokens && r.value.s.feeBps == feeBps
                        && r.value.s.royaltyBps == royaltyBps && r.value.s.admin == admin && r.value.s.self == self
      ensures r.Ok? && Trusted(self, nft) && TokensSound(r.value.s.World()) ==>
                r.value.Valid() && Genesis(r.value.s.World())
    {
      if deployed.Some? { return Err(AlreadyInitialized); }
      if admin !in cx.auth { return Err(AuthFailed); }
      if !answers { return Err(InvalidBotNft); }
      if feeBps + royaltyBps > Fees.BPS { return Err(InvalidPrice); }
      var c := new Contract(self, admin, feeBps, royaltyBps, nft, tokens);
      if Trusted(self, nft) && TokensSound(c.s.World()) {
        GenesisInv(c.s.World());
      }
      return Ok(c);
    }

    // ---- internal steps ----------------------------------------------------------------

    method AppendListingId(id: U64) returns (r: Result<(), MarketError>)
      modifies `s
      ensures match AppendListing(old(s.pages), id)
              case Ok(p) => r == Ok(()) && s == old(s).(pages := p)
              case Err(e) => r == Err(e) && s == old(s)
    {
      var count := |s.pages|;
      var pages := s.pages;
      if count == 0 || |pages[count - 1]| >= LISTING_PAGE_SIZE {
        if count >= U32_MAX { return Err(Overflow); }
        pages := pages + [[]];
      }
      var last := |pages| - 1;
      pages := pages[last := pages[last] + [id]];
      assert count < |pages| ==> [] + [id] == [id] && pages == s.pages + [[id]];
      s := s.(pages := pages);
      return Ok(());
    }

    /** `on_listing_added`: no scan is needed here, since no price has gone up. */
    method OnListingAdded(id: U64, l: Listing)
      modifies `s
      ensures var st := StatsOf(old(s.tierStats), l.tier);
              s == old(s).(activeCount := Min(old(s.activeCount) + 1, U32_MAX),
                           tierStats := if st.floorPrice == 0 || l.price < st.floorPrice
                                        then WithFloor(old(s.tierStats), l.tier, l.price, id) else old(s.tierStats))
    {
      s := s.(activeCount := Min(s.activeCount + 1, U32_MAX));
      var st := StatsOf(s.tierStats, l.tier);
      if st.floorPrice == 0 || l.price < st.floorPrice {
        s := s.(tierStats := s.tierStats[l.tier := st.(floorPrice := l.price, floorListing := id)]);
      }
    }

    /** `on_listing_removed`: the floor is rescanned only if the leaving listing held it. `m` is the
        market before the listing left. */
    method OnListingRemoved(id: U64, l: Listing, ghost m: Market)
      requires Shape(m) && m.IsActive(id) && m.listings[id] == l
      requires s.Market() == m.Deactivate(id) && FloorsExact(m, s.tierStats) && SalesClean(s.tierStats)
      modifies `s
      ensures s == old(s).(activeCount := SatSub(old(s.activeCount), 1), tierStats := s.tierStats)
      ensures FloorsExact(m.Deactivate(id), s.tierStats) && SalesClean(s.tierStats)
      ensures SalesIn(s.tierStats) == SalesIn(old(s.tierStats))
    {
      RetireShape(m, id);
      s := s.(activeCount := SatSub(s.activeCount, 1));
      var st := StatsOf(s.tierStats, l.tier);
      var price: I128, f := 0, 0;
      if st.floorListing == id {
        price, f := ScanFloor(s.pages, s.listings, l.tier, m.Deactivate(id));
        s := s.(tierStats := s.tierStats[l.tier := st.(floorPrice := price, floorListing := f)]);
      }
      FloorsAfterRetire(m, id, old(s.tierStats), s.tierStats, price, f);
    }

    method DecrementUserActive(seller: Address)
      modifies `s
      ensures s == old(s).(userActive := s.userActive)
      ensures forall a :: CountOf(s.userActive, a)
                       == SatSub(CountOf(old(s.userActive), a), if a == seller then 1 else 0)
    {
      var counts := s.userActive;
      var count := CountOf(counts, seller);
      if count > 0 {
        if count - 1 > 0 {
          counts := counts[seller := count - 1];
        } else {
          counts := counts - {seller};
        }
      }
      s := s.(userActive := counts);
    }

    /** `deactivate_listing`: every index forgets the listing here and nowhere else; the second of two calls
        finds nothing to do. */
    method DeactivateListing(id: U64) returns (did: bool)
      requires s.Coherent()
      modifies `s
      ensures s.Coherent()
      ensures did <==> old(s).Market().IsActive(id)
      ensures s.Market() == old(s).Market().Deactivate(id)
      ensures s.nft == old(s.nft) && s.tokens == old(s.tokens)
    {
      if id !in s.listings || !s.listings[id].active { return false; }
      ghost var before := s;
      var l := s.listings[id];
      s := s.(listings := s.listings[id := l.(active := false)]);
      s := s.(botListing := s.botListing - {l.botId});
      OnListingRemoved(id, l, before.Market());
      DecrementUserActive(l.seller);
      CountsAfterRetire(before.Market(), id, before.activeCount, before.userActive, s.userActive);
      RetireReindexes(before, s, id);
      return true;
    }

    method Emit(e: Event)
      modifies `s
      ensures s == old(s).(events := old(s.events) + [e])
    {
      s := s.(events := s.events + [e]);
    }

    /** Logging changes no index. */
    method Log(e: Event)
      requires s.Coherent()
      modifies `s
      ensures s.Coherent() && s.nft == old(s.nft) && s.tokens == old(s.tokens)
      ensures s.Market() == old(s.Market()).Emit(e)
    {
      ghost var m := s.Market();
      Emit(e);
      SameIndexes(m, s.Market(), s.botListing, s.activeCount, s.userActive, s.tierStats, s.botOffers);
    }

    /** `on_bot_moved`; `fromBotNft` says whether the configured bot_nft contract signed the call. */
    method OnBotMoved(fromBotNft: bool, botId: U64) returns (r: Result<(), MarketError>)
      requires s.Coherent()
      modifies `s
      ensures s.Coherent() && r == if fromBotNft then Ok(()) else Err(AuthFailed)
      ensures s.Market() == if fromBotNft then old(s).Market().OnBotMoved(botId) else old(s).Market()
      ensures s.nft == old(s.nft) && s.tokens == old(s.tokens)
    {
      if !fromBotNft { return Err(AuthFailed); }
      LookupsAgree(s, botId);
      if botId !in s.botListing { return Ok(()); }
      var id := s.botListing[botId];
      var did := DeactivateListing(id);
      if did {
        Log(Deactivated(botId, id));
      }
      return Ok(());
    }

    /** `try_transfer` on bot_nft, with the callback that may or may not have run inside it. */
    method TransferBot(cx: Context, botId: U64, from: Address, to: Address, called: bool) returns (ok: bool)
      requires s.Coherent()
      modifies `s
      ensures s.Coherent()
      ensures match old(s.World()).MoveBot(cx, botId, from, to, called)
              case Ok(w) => ok && s.World() == w
              case Err(_) => !ok && s == old(s)
      ensures !called ==> s == old(s).(nft := s.nft)
    {
      var r := s.nft.Transfer(cx.(auth := cx.auth + {s.self}), botId, from, to);
      if r.Err? { return false; }
      s := s.(nft := r.value);
      if called && from != to && to != s.self {
        var _ := OnBotMoved(true, botId);
      }
      return true;
    }

    /** `try_transfer` on a token contract. */
    method TransferToken(cx: Context, currency: Address, from: Address, to: Address, amount: I128) returns (ok: bool)
      requires s.Coherent()
      modifies `s
      ensures s.Coherent() && s.Market() == old(s.Market())
      ensures match old(s.World()).Pay(cx, currency, from, to, amount)
              case Ok(w) => ok && s.World() == w
              case Err(_) => !ok && s == old(s)
    {
      if currency !in s.tokens { return false; }
      var r := s.tokens[currency].Transfer(cx.(auth := cx.auth + {s.self}), from, to, amount);
      if r.Err? { return false; }
      s := s.(tokens := s.tokens[currency := r.value]);
      return true;
    }

    method PayOut(cx: Context, currency: Address, to: Address, amount: I128) returns (ok: bool)
      requires s.Coherent()
      modifies `s
      ensures s.Coherent() && s.Market() == old(s.Market())
      ensures match old(s.World()).PayOut(cx, currency, to, amount)
              case Ok(w) => ok && s.World() == w
              case Err(e) => !ok && e == PaymentFailed
    {
      if amount <= 0 { return true; }
      ok := TransferToken(cx, currency, s.self, to, amount);
    }

    method AccrueFee(currency: Address, fee: I128) returns (r: Result<(), MarketError>)
      requires s.Coherent()
      modifies `s
      ensures s.Coherent() && s.nft == old(s.nft) && s.tokens == old(s.tokens)
      ensures match old(s.Market()).AccrueFee(currency, fee)
              case Ok(m) => r == Ok(()) && s.Market() == m
              case Err(e) => r == Err(e)
    {
      if fee <= 0 { return Ok(()); }
      var total := s.FeesAccrued(currency) + fee;
      if total > I128_MAX { return Err(Overflow); }
      ghost var m := s.Market();
      s := s.(fees := s.fees[currency := total]);
      SameIndexes(m, s.Market(), s.botListing, s.activeCount, s.userActive, s.tierStats, s.botOffers);
      return Ok(());
    }

    method RecordSale(tier: N.Tier, price: I128) returns (r: Result<(), MarketError>)
      requires s.Coherent()
      modifies `s
      ensures s.nft == old(s.nft) && s.tokens == old(s.tokens)
      ensures match old(s.Market()).RecordSale(tier, price)
              case Ok(m) => r == Ok(()) && s.Market() == m && s.Coherent()
              case Err(e) => r == Err(e)
    {
      var st := StatsOf(s.tierStats, tier);
      SaleRefused(s.Market(), s.tierStats, tier, price);
      if !FitsI128(st.volume + price) { return Err(Overflow); }
      if st.saleCount == U64_MAX { return Err(Overflow); }
      WriteSale(tier, st.(volume := st.volume + price, saleCount := st.saleCount + 1, lastSale := price), price);
      return Ok(());
    }

    method WriteSale(tier: N.Tier, st: TierStats, price: I128)
      requires s.Coherent() && s.Market().RecordSale(tier, price).Ok?
      requires var was := StatsOf(s.tierStats, tier);
               && FitsI128(was.volume + price) && was.saleCount < U64_MAX
               && st == was.(volume := was.volume + price, saleCount := was.saleCount + 1, lastSale := price)
      modifies `s
      ensures s.Coherent() && s.nft == old(s.nft) && s.tokens == old(s.tokens)
      ensures s.Market() == old(s.Market()).RecordSale(tier, price).value
    {
      ghost var m := s.Market();
      SaleWriteKeepsFloors(m, s.tierStats, tier, price);
      s := s.(tierStats := s.tierStats[tier := st]);
      SaleKeepsIndexes(m, s, old(s.tierStats), tier);
    }

    /** `remove_bot_offer`: an empty list leaves no entry behind. */
    method RemoveBotOffer(botId: U64, offerId: U64)
      modifies `s
      ensures s == old(s).(botOffers := s.botOffers)
      ensures forall b :: OffersOn(s.botOffers, b)
                          == (if b == botId then Without(OffersOn(old(s.botOffers), b), offerId)
                                                       else OffersOn(old(s.botOffers), b))
    {
      var kept := Remove(OffersOn(s.botOffers, botId), offerId);
      if kept == [] {
        s := s.(botOffers := s.botOffers - {botId});
      } else {
        s := s.(botOffers := s.botOffers[botId := kept]);
      }
    }

    // ---- prices --------------------------------------------------------------------------

    /** `bps_of`, division by division. */
    method BpsOf(amount: I128, bps: U32) returns (r: Result<I128, ()>)
      ensures r == Fees.BpsOf(amount, bps)
    {
      var whole := Fees.TruncDiv(amount, 10_000);
      var wholeFee := whole * bps;
      if !FitsI128(wholeFee) { return Err(()); }
      var remainderFee := Fees.TruncDiv((amount - whole * 10_000) * bps, 10_000);
      if !FitsI128(wholeFee + remainderFee) { return Err(()); }
      return Ok(wholeFee + remainderFee);
    }

    /** The fee, the royalty and the payout of a sale. */
    method SplitPrice(price: I128, minterIsSeller: bool) returns (r: Result<Split, MarketError>)
      ensures r == SplitOf(price, s.feeBps, s.royaltyBps, minterIsSeller)
    {
      var fee := BpsOf(price, s.feeBps);
      var royalty := BpsOf(price, s.royaltyBps);
      r := SplitBy(price, fee, royalty, minterIsSeller);
    }

    // ---- listings ------------------------------------------------------------------------

    method ListBot(cx: Context, seller: Address, botId: U64, price: I128, currency: Address, duration: U64)
      returns (r: Result<U64, MarketError>)
      requires Valid() && s.self !in cx.auth
      modifies this
      ensures Valid() && locked == old(locked)
      ensures Guarded(old(locked), old(s.World()),
                      old(s.World()).List(cx, seller, botId, price, currency, duration), r, s.World())
      ensures r.Ok? ==> r.value == old(s.nextListing)
    {
      if locked { return Err(Reentrancy); }
      locked := true;
      r := ListInner(cx, seller, botId, price, currency, duration);
      locked := false;
    }

    method ListInner(cx: Context, seller: Address, botId: U64, price: I128, currency: Address, duration: U64)
      returns (r: Result<U64, MarketError>)
      requires s.Valid() && s.self !in cx.auth
      modifies `s
      ensures s.Valid()
      ensures Commits(old(s.World()), old(s.World()).List(cx, seller, botId, price, currency, duration), r, s.World())
      ensures r.Ok? ==> r.value == old(s.nextListing)
    {
      if seller !in cx.auth { return Err(AuthFailed); }
      if s.paused { return Err(ContractPaused); }
      if !(MIN_DURATION <= duration <= MAX_DURATION) { return Err(InvalidPrice); }
      if price <= 0 { return Err(InvalidPrice); }
      var userCount := CountOf(s.userActive, seller);
      if userCount >= s.listingCap { return Err(TooManyListings); }
      if currency !in s.allowed { return Err(UnsupportedCurrency); }
      if price < s.MinPriceFor(currency) { return Err(PriceTooLow); }
      if botId !in s.nft.bots { return Err(BotNotFound); }
      if s.nft.bots[botId].owner != seller { return Err(NotBotOwner); }
      var tier := s.nft.bots[botId].tier;
      var l := Listing(seller, botId, tier, price, currency, cx.now, SatAdd64(cx.now, duration), true);
      ListKeeps(s.World(), cx, seller, botId, price, currency, duration);
      r := EscrowAndRecord(cx, l, duration);
    }

    /** The effects of `list_bot`: escrow the bot, then the record and every index. */
    method EscrowAndRecord(cx: Context, l: Listing, ghost duration: U64) returns (r: Result<U64, MarketError>)
      requires s.Valid() && s.self !in cx.auth && l.seller in cx.auth && l.active && l.price > 0
      requires l.botId in s.nft.bots && s.nft.bots[l.botId].owner == l.seller
      requires CountOf(s.userActive, l.seller) < U32_MAX
      requires s.World().Escrow(cx, l).Ok? ==> Inv(s.World().Escrow(cx, l).value)
      modifies `s
      ensures s.Valid()
      ensures Commits(old(s.World()), old(s.World()).Escrow(cx, l), r, s.World())
      ensures r.Ok? ==> r.value == old(s.nextListing)
    {
      ValidIsCoherent(s);
      var before := s;
      var ok := TransferBot(cx, l.botId, l.seller, s.self, false);
      if !ok { return Err(BotTransferFailed); }
      r := RecordListing(l);
      if r.Err? {
        s := before;
      } else {
        RecordedIsExact(before, s, cx, l);
      }
    }

    /** Listing, bot index, pages, counter and floor, seller's count, next id, event. */
    method RecordListing(l: Listing) returns (r: Result<U64, MarketError>)
      requires CountOf(s.userActive, l.seller) < U32_MAX
      modifies `s
      ensures if old(s.nextListing) < U64_MAX && AppendListing(old(s.pages), old(s.nextListing)).Ok?
              then r == Ok(old(s.nextListing)) && s == Recorded(old(s), l)
              else r == Err(Overflow)
    {
      var id := s.nextListing;
      if id == U64_MAX { return Err(Overflow); }
      s := s.(listings := s.listings[id := l]);
      s := s.(botListing := s.botListing[l.botId := id]);
      var appended := AppendListingId(id);
      if appended.Err? { return Err(Overflow); }
      OnListingAdded(id, l);
      s := s.(userActive := s.userActive[l.seller := CountOf(s.userActive, l.seller) + 1]);
      s := s.(nextListing := id + 1);
      Emit(Listed(l.seller, id, l.botId, l.price, l.currency));
      return Ok(id);
    }

    method BuyBot(cx: Context, buyer: Address, id: U64, called: bool) returns (r: Result<(), MarketError>)
      requires Valid() && s.self !in cx.auth
      modifies this
      ensures Valid() && locked == old(locked)
      ensures Guarded(old(locked), old(s.World()), old(s.World()).Buy(cx, buyer, id, called), r, s.World())
    {
      if locked { return Err(Reentrancy); }
      locked := true;
      r := BuyInner(cx, buyer, id, called);
      locked := false;
    }

    method BuyInner(cx: Context, buyer: Address, id: U64, called: bool) returns (r: Result<(), MarketError>)
      requires s.Valid() && s.self !in cx.auth
      modifies `s
      ensures s.Valid()
      ensures Commits(old(s.World()), old(s.World()).Buy(cx, buyer, id, called), r, s.World())
    {
      if buyer !in cx.auth { return Err(AuthFailed); }
      if s.paused { return Err(ContractPaused); }
      if id !in s.listings { return Err(ListingNotFound); }
      var l := s.listings[id];
      if l.seller == buyer { return Err(SelfPurchase); }
      if !l.active { return Err(ListingNotActive); }
      if cx.now > l.expiresAt { return Err(ListingExpired); }
      if l.currency !in s.allowed { return Err(UnsupportedCurrency); }
      if l.botId !in s.nft.bots || s.nft.bots[l.botId].owner != s.self {
        return Err(ListingStale);  // the deactivation written here is rolled back with the call
      }
      var minter := s.nft.bots[l.botId].minter;
      var split := SplitPrice(l.price, minter == l.seller);
      if split.Err? { return Err(split.error); }
      BuyKeeps(s.World(), cx, buyer, id, called);
      ValidIsCoherent(s);
      r := SettleSale(cx, buyer, id, minter, split.value, called);
    }

    method SettleSale(cx: Context, buyer: Address, id: U64, minter: Address, split: Split, called: bool)
      returns (r: Result<(), MarketError>)
      requires s.Coherent() && id in s.listings
      modifies `s
      ensures s.Coherent()
      ensures Commits(old(s.World()), old(s.World()).SettleSale(cx, buyer, id, minter, split, called), r, s.World())
      ensures r.Err? ==> s == old(s)
    {
      var before := s;
      var l := s.listings[id];
      var ok := TransferBot(cx, l.botId, s.self, buyer, called);
      if !ok { return Err(BotTransferFailed); }
      r := SaleLegs(cx, buyer, l, minter, split);
      if r.Ok? {
        r := RecordSale(l.tier, l.price);
      }
      if r.Err? {
        s := before;
        return;
      }
      CloseListing(id, Sold(l.seller, buyer, id, l.botId, l.price, l.currency));
    }

    /** Retires the listing if the callback has not done so already, and logs the exit. */
    method CloseListing(id: U64, e: Event)
      requires s.Coherent()
      modifies `s
      ensures s.Coherent() && s.nft == old(s.nft) && s.tokens == old(s.tokens)
      ensures s.Market() == old(s.Market()).Deactivate(id).Emit(e)
    {
      var _ := DeactivateListing(id);
      Log(e);
    }

    method SaleLegs(cx: Context, buyer: Address, l: Listing, minter: Address, split: Split)
      returns (r: Result<(), MarketError>)
      requires s.Coherent()
      modifies `s
      ensures s.Coherent()
      ensures match old(s.World()).SaleLegs(cx, buyer, l, minter, split)
              case Ok(w) => r == Ok(()) && s.World() == w
              case Err(e) => r == Err(e)
    {
      var ok := TransferToken(cx, l.currency, buyer, s.self, l.price);
      if !ok { return Err(PaymentFailed); }
      ok := PayOut(cx, l.currency, l.seller, split.payout);
      if !ok { return Err(PaymentFailed); }
      r := AccrueFee(l.currency, split.fee);
      if r.Err? { return; }
      ok := PayOut(cx, l.currency, minter, split.royalty);
      if !ok { return Err(PaymentFailed); }
    }

    method CancelListing(cx: Context, seller: Address, id: U64, called: bool) returns (r: Result<(), MarketError>)
      requires Valid() && s.self !in cx.auth
      modifies this
      ensures Valid() && locked == old(locked)
      ensures Guarded(old(locked), old(s.World()), old(s.World()).Cancel(cx, seller, id, called), r, s.World())
    {
      if locked { return Err(Reentrancy); }
      locked := true;
      if seller !in cx.auth { r := Err(AuthFailed); }
      else if id !in s.listings { r := Err(ListingNotFound); }
      else if s.listings[id].seller != seller { r := Err(Unauthorized); }
      else if !s.listings[id].active { r := Err(ListingNotActive); }
      else {
        CancelKeeps(s.World(), cx, seller, id, called);
        r := ReturnBot(cx, id, seller, called, ListingCancelled(seller, id, s.listings[id].botId));
      }
      locked := false;
    }

    method ReclaimExpired(cx: Context, id: U64, called: bool) returns (r: Result<(), MarketError>)
      requires Valid() && s.self !in cx.auth
      modifies this
      ensures Valid() && locked == old(locked)
      ensures Guarded(old(locked), old(s.World()), old(s.World()).Reclaim(cx, id, called), r, s.World())
    {
      if locked { return Err(Reentrancy); }
      locked := true;
      if id !in s.listings { r := Err(ListingNotFound); }
      else if !s.listings[id].active { r := Err(ListingNotActive); }
      else if cx.now <= s.listings[id].expiresAt { r := Err(ListingNotActive); }
      else {
        ReclaimKeeps(s.World(), cx, id, called);
        r := ReturnBot(cx, id, s.listings[id].seller, called,
                       Reclaimed(s.listings[id].seller, id, s.listings[id].botId));
      }
      locked := false;
    }

    /** The common tail of both exits: bot first, then the listing, then the event. */
    method ReturnBot(cx: Context, id: U64, to: Address, called: bool, e: Event) returns (r: Result<(), MarketError>)
      requires s.Valid() && s.Market().IsActive(id)
      requires var w := s.World().MoveBot(cx, s.listings[id].botId, s.self, to, called);
               w.Ok? ==> Inv(w.value.(m := w.value.m.Deactivate(id).Emit(e)))
      modifies `s
      ensures s.Valid()
      ensures match old(s.World()).MoveBot(cx, old(s.listings)[id].botId, old(s.self), to, called)
              case Ok(w) => r == Ok(()) && s.World() == w.(m := w.m.Deactivate(id).Emit(e))
              case Err(x) => r == Err(x) && s == old(s)
    {
      ValidIsCoherent(s);
      var ok := TransferBot(cx, s.listings[id].botId, s.self, to, called);
      if !ok { return Err(BotTransferFailed); }
      CloseListing(id, e);
      return Ok(());
    }

    method UpdatePrice(cx: Context, seller: Address, id: U64, newPrice: I128) returns (r: Result<(), MarketError>)
      requires Valid()
      modifies `s
      ensures Valid()
      ensures Commits(old(s.World()), old(s.World()).Reprice(cx, seller, id, newPrice), r, s.World())
    {
      if seller !in cx.auth { return Err(AuthFailed); }
      if s.paused { return Err(ContractPaused); }
      if id !in s.listings { return Err(ListingNotFound); }
      var l := s.listings[id];
      if l.seller != seller { return Err(Unauthorized); }
      if !l.active { return Err(ListingNotActive); }
      if newPrice <= 0 { return Err(InvalidPrice); }
      if newPrice < s.MinPriceFor(l.currency) { return Err(PriceTooLow); }
      RepriceKeeps(s.World(), cx, seller, id, newPrice);
      WritePrice(id, newPrice);
      return Ok(());
    }

    /** The new price, then the floor, then the event. */
    method WritePrice(id: U64, newPrice: I128)
      requires s.Valid() && s.Market().IsActive(id) && newPrice > 0
      requires Inv(s.World().SetPrice(id, newPrice))
      modifies `s
      ensures s.Valid()
      ensures s.World() == old(s.World()).SetPrice(id, newPrice)
    {
      ValidIsCoherent(s);
      ghost var before := s;
      var l := s.listings[id];
      s := s.(listings := s.listings[id := l.(price := newPrice)]);
      OnPriceChanged(id, newPrice, before.Market());
      Emit(Repriced(l.seller, id, l.price, newPrice));
      WrittenPrice(before, s, id, newPrice);
    }

    /** `on_price_changed`: one comparison, and a rescan only when the floor holder went up. `m` is the
        market before the price changed. */
    method OnPriceChanged(id: U64, newPrice: I128, ghost m: Market)
      requires Shape(m) && m.IsActive(id) && newPrice > 0
      requires s.Market() == m.(listings := m.listings[id := m.listings[id].(price := newPrice)])
      requires FloorsExact(m, s.tierStats) && SalesClean(s.tierStats)
      modifies `s
      ensures s == old(s).(tierStats := s.tierStats)
      ensures s.Market() == old(s.Market())
      ensures FloorsExact(s.Market(), s.tierStats) && SalesClean(s.tierStats)
    {
      RepriceShape(m, s.Market(), id, newPrice);
      var tier := s.listings[id].tier;
      var st := StatsOf(s.tierStats, tier);
      var price: I128, f := 0, 0;
      if st.floorPrice == 0 || newPrice < st.floorPrice {
        s := s.(tierStats := WithFloor(s.tierStats, tier, newPrice, id));
      } else if st.floorListing == id {
        price, f := ScanFloor(s.pages, s.listings, tier, s.Market());
        s := s.(tierStats := WithFloor(s.tierStats, tier, price, f));
      }
      FloorsAfterReprice(m, old(s.Market()), id, newPrice, old(s.tierStats), s.tierStats, price, f);
      FloorsOfListings(old(s.Market()), s.Market(), s.tierStats);
    }

    // ---- offers ----------------------------------------------------------------------------

    method MakeOffer(cx: Context, buyer: Address, botId: U64, amount: I128, currency: Address, expiresAt: U64)
      returns (r: Result<U64, MarketError>)
      requires Valid() && s.self !in cx.auth
      modifies this
      ensures Valid() && locked == old(locked)
      ensures Guarded(old(locked), old(s.World()),
                      old(s.World()).MakeOffer(cx, buyer, botId, amount, currency, expiresAt), r, s.World())
      ensures r.Ok? ==> r.value == old(s.nextOffer)
    {
      if locked { return Err(Reentrancy); }
      locked := true;
      r := MakeOfferInner(cx, buyer, botId, amount, currency, expiresAt);
      locked := false;
    }

    method MakeOfferInner(cx: Context, buyer: Address, botId: U64, amount: I128, currency: Address, expiresAt: U64)
      returns (r: Result<U64, MarketError>)
      requires s.Valid() && s.self !in cx.auth
      modifies `s
      ensures s.Valid()
      ensures Commits(old(s.World()), old(s.World()).MakeOffer(cx, buyer, botId, amount, currency, expiresAt), r,
                      s.World())
      ensures r.Ok? ==> r.value == old(s.nextOffer)
    {
      if buyer !in cx.auth { return Err(AuthFailed); }
      if s.paused { return Err(ContractPaused); }
      if amount <= 0 { return Err(InvalidPrice); }
      if currency !in s.allowed { return Err(UnsupportedCurrency); }
      if amount < s.MinPriceFor(currency) { return Err(PriceTooLow); }
      if expiresAt <= cx.now || expiresAt - cx.now > MAX_OFFER_DURATION { return Err(InvalidExpiry); }
      if botId !in s.nft.bots { return Err(BotNotFound); }
      LookupsAgree(s, botId);
      if s.EffectiveOwner(botId) == buyer { return Err(OfferOnOwnBot); }
      ListsSize(OffersOn(s.botOffers, botId), s.Market().OpenOffers(botId));
      if |OffersOn(s.botOffers, botId)| >= MAX_OFFERS_PER_BOT { return Err(TooManyOffers); }
      if s.nextOffer == U64_MAX { return Err(Overflow); }
      var o := Offer(buyer, botId, amount, currency, cx.now, expiresAt, Active);
      OpenOfferKeeps(s.World(), cx, o);
      r := OpenOffer(cx, o);
    }

    /** Pulls the escrow in, then the record, the bot's open list, the next id and the event. */
    method OpenOffer(cx: Context, o: Offer) returns (r: Result<U64, MarketError>)
      requires s.Valid() && s.nextOffer < U64_MAX && o.status == Active
      requires s.World().OpenOffer(cx, o).Ok? ==> Inv(s.World().OpenOffer(cx, o).value)
      modifies `s
      ensures s.Valid()
      ensures Commits(old(s.World()), old(s.World()).OpenOffer(cx, o), r, s.World())
      ensures r.Ok? ==> r.value == old(s.nextOffer)
    {
      ValidIsCoherent(s);
      var ok := TransferToken(cx, o.currency, o.buyer, s.self, o.amount);
      if !ok { return Err(PaymentFailed); }
      r := Ok(s.nextOffer);
      RecordOffer(o);
    }

    method RecordOffer(o: Offer)
      requires s.Coherent() && Books(s.Market()) && s.nextOffer < U64_MAX && o.status == Active
      modifies `s
      ensures s.Coherent() && s.nft == old(s.nft) && s.tokens == old(s.tokens)
      ensures s.Market() == old(s.Market()).Open(o)
    {
      ghost var before := s;
      var id := s.nextOffer;
      s := s.(offers := s.offers[id := o]);
      s := s.(botOffers := s.botOffers[o.botId := OffersOn(s.botOffers, o.botId) + [id]]);
      s := s.(nextOffer := id + 1);
      Emit(Offered(o.buyer, id, o.botId, o.amount, o.expiresAt));
      OpenOfferLists(before.Market(), s.Market(), before.botOffers, o);
      OffersAside(before, s);
    }

    method AcceptOffer(cx: Context, seller: Address, offerId: U64, called: bool) returns (r: Result<(), MarketError>)
      requires Valid() && s.self !in cx.auth
      modifies this
      ensures Valid() && locked == old(locked)
      ensures Guarded(old(locked), old(s.World()), old(s.World()).Accept(cx, seller, offerId, called), r, s.World())
    {
      if locked { return Err(Reentrancy); }
      locked := true;
      r := AcceptInner(cx, seller, offerId, called);
      locked := false;
    }

    method AcceptInner(cx: Context, seller: Address, offerId: U64, called: bool) returns (r: Result<(), MarketError>)
      requires s.Valid() && s.self !in cx.auth
      modifies `s
      ensures s.Valid()
      ensures Commits(old(s.World()), old(s.World()).Accept(cx, seller, offerId, called), r, s.World())
    {
      if seller !in cx.auth { return Err(AuthFailed); }
      if s.paused { return Err(ContractPaused); }
      if offerId !in s.offers { return Err(OfferNotFound); }
      var o := s.offers[offerId];
      if o.status != Active { return Err(OfferNotActive); }
      if cx.now >= o.expiresAt { return Err(OfferExpired); }
      if o.buyer == seller { return Err(SelfPurchase); }
      if o.currency !in s.allowed { return Err(UnsupportedCurrency); }
      if o.botId !in s.nft.bots { return Err(BotNotFound); }
      var held := ResolveCustody(seller, o.botId);
      if held.Err? { return Err(held.error); }
      var bot := s.nft.bots[o.botId];
      var split := SplitPrice(o.amount, bot.minter == seller);
      if split.Err? { return Err(split.error); }
      AcceptKeeps(s.World(), cx, seller, offerId, called);
      ValidIsCoherent(s);
      r := SettleOffer(cx, seller, offerId, held.value, bot, split.value, called);
    }

    /** Whether the bot leaves the seller's own account, or escrow together with the listing named here. */
    method ResolveCustody(seller: Address, botId: U64) returns (held: Result<Option<U64>, MarketError>)
      requires s.IndexesExact() && botId in s.nft.bots
      ensures held == s.World().Holding(seller, botId)
    {
      LookupsAgree(s, botId);
      if s.nft.bots[botId].owner == seller { return Ok(None); }
      if s.nft.bots[botId].owner == s.self {
        var l := s.ActiveListingFor(botId);
        if l.Some? && l.value.seller == seller { return Ok(Some(s.botListing[botId])); }
      }
      return Err(NotBotOwner);
    }

    method SettleOffer(cx: Context, seller: Address, offerId: U64, held: Option<U64>, bot: N.Bot, split: Split,
                       called: bool)
      returns (r: Result<(), MarketError>)
      requires s.Coherent() && offerId in s.offers && s.offers[offerId].status == Active
      modifies `s
      ensures s.Coherent()
      ensures Commits(old(s.World()), old(s.World()).SettleOffer(cx, seller, offerId, held, bot, split, called), r,
                      s.World())
      ensures r.Err? ==> s == old(s)
    {
      var before := s;
      var o := s.offers[offerId];
      HandOverKeepsOffers(s.World(), cx, seller, held, o.botId, o.buyer, called);
      var ok := HandOver(cx, seller, held, o.botId, o.buyer, called);
      if !ok { return Err(BotTransferFailed); }
      OfferLegsKeepOffers(s.World(), cx, seller, o.currency, bot.minter, split);
      r := OfferLegs(cx, seller, o.currency, bot.minter, split);
      if r.Ok? {
        r := BookAcceptance(offerId, o, bot.tier, OfferAccepted(seller, o.buyer, offerId, o.botId, o.amount));
      }
      if r.Err? {
        s := before;
      }
    }

    /** Final status, open list, sales figures, event. */
    method BookAcceptance(offerId: U64, o: Offer, tier: N.Tier, e: Event) returns (r: Result<(), MarketError>)
      requires s.Coherent() && offerId in s.offers && s.offers[offerId] == o && o.status == Active
      modifies `s
      ensures s.nft == old(s.nft) && s.tokens == old(s.tokens)
      ensures match old(s.Market()).CloseOffer(offerId, Accepted).RecordSale(tier, o.amount)
              case Ok(m) => r == Ok(()) && s.Market() == m.Emit(e) && s.Coherent()
              case Err(x) => r == Err(x)
    {
      CloseOffer(offerId, o, Accepted);
      r := RecordSale(tier, o.amount);
      if r.Ok? {
        Log(e);
      }
    }

    method HandOver(cx: Context, seller: Address, held: Option<U64>, botId: U64, to: Address, called: bool)
      returns (ok: bool)
      requires s.Coherent()
      modifies `s
      ensures s.Coherent()
      ensures match old(s.World()).HandOver(cx, seller, held, botId, to, called)
              case Ok(w) => ok && s.World() == w
              case Err(e) => !ok && e == BotTransferFailed && s == old(s)
    {
      ok := TransferBot(cx, botId, if held.Some? then s.self else seller, to, called);
      if ok && held.Some? {
        var _ := DeactivateListing(held.value);
      }
    }

    method OfferLegs(cx: Context, seller: Address, currency: Address, minter: Address, split: Split)
      returns (r: Result<(), MarketError>)
      requires s.Coherent()
      modifies `s
      ensures s.Coherent()
      ensures match old(s.World()).OfferLegs(cx, seller, currency, minter, split)
              case Ok(w) => r == Ok(()) && s.World() == w
              case Err(e) => r == Err(e)
    {
      var ok := PayOut(cx, currency, seller, split.payout);
      if !ok { return Err(PaymentFailed); }
      ok := PayOut(cx, currency, minter, split.royalty);
      if !ok { return Err(PaymentFailed); }
      r := AccrueFee(currency, split.fee);
    }

    /** The offer's final status, and its exit from the bot's open list. */
    method CloseOffer(offerId: U64, o: Offer, status: OfferStatus)
      requires s.Coherent() && offerId in s.offers && s.offers[offerId] == o
      requires o.status == Active && status != Active
      modifies `s
      ensures s.Coherent() && s.nft == old(s.nft) && s.tokens == old(s.tokens)
      ensures s.Market() == old(s.Market()).CloseOffer(offerId, status)
    {
      ghost var before := s;
      s := s.(offers := s.offers[offerId := o.(status := status)]);
      RemoveBotOffer(o.botId, offerId);
      CloseOfferLists(before.Market(), s.Market(), before.botOffers, s.botOffers, offerId, status);
      OffersAside(before, s);
    }

    method CancelOffer(cx: Context, caller: Address, offerId: U64) returns (r: Result<(), MarketError>)
      requires Valid()
      modifies this
      ensures Valid() && locked == old(locked)
      ensures Guarded(old(locked), old(s.World()), old(s.World()).CancelOffer(cx, caller, offerId), r, s.World())
    {
      if locked { return Err(Reentrancy); }
      locked := true;
      if caller !in cx.auth { r := Err(AuthFailed); }
      else if offerId !in s.offers { r := Err(OfferNotFound); }
      else {
        var o := s.offers[offerId];
        var expired := cx.now >= o.expiresAt;
        if o.status != Active { r := Err(OfferNotActive); }
        else if !expired && caller != o.buyer { r := Err(NotOfferOwner); }
        else {
          CancelOfferKeeps(s.World(), cx, caller, offerId);
          r := RefundOffer(cx, offerId, OfferCancelled(o.buyer, offerId, o.botId, o.amount, expired));
        }
      }
      locked := false;
    }

    method DismissOffer(cx: Context, caller: Address, offerId: U64) returns (r: Result<(), MarketError>)
      requires Valid()
      modifies this
      ensures Valid() && locked == old(locked)
      ensures Guarded(old(locked), old(s.World()), old(s.World()).Dismiss(cx, caller, offerId), r, s.World())
    {
      if locked { return Err(Reentrancy); }
      locked := true;
      if caller !in cx.auth { r := Err(AuthFailed); }
      else if offerId !in s.offers { r := Err(OfferNotFound); }
      else {
        var o := s.offers[offerId];
        LookupsAgree(s, o.botId);
        if o.status != Active { r := Err(OfferNotActive); }
        else if caller != s.admin && (o.botId !in s.nft.bots || s.EffectiveOwner(o.botId) != caller) {
          r := Err(Unauthorized);
        } else {
          DismissKeeps(s.World(), cx, caller, offerId);
          r := RefundOffer(cx, offerId, OfferDismissed(o.buyer, offerId, o.botId, o.amount, caller));
        }
      }
      locked := false;
    }

    /** `refund_offer` and the event of its caller. */
    method RefundOffer(cx: Context, offerId: U64, e: Event) returns (r: Result<(), MarketError>)
      requires s.Valid() && offerId in s.offers && s.offers[offerId].status == Active
      requires var w := s.World().Refund(cx, offerId);
               w.Ok? ==> Inv(w.value.(m := w.value.m.Emit(e)))
      modifies `s
      ensures s.Valid()
      ensures match old(s.World()).Refund(cx, offerId)
              case Ok(w) => r == Ok(()) && s.World() == w.(m := w.m.Emit(e))
              case Err(x) => r == Err(x) && s == old(s)
    {
      ValidIsCoherent(s);
      var o := s.offers[offerId];
      var ok := TransferToken(cx, o.currency, s.self, o.buyer, o.amount);
      if !ok { return Err(PaymentFailed); }
      CloseOffer(offerId, o, Cancelled);
      Log(e);
      return Ok(());
    }

    // ---- fees and settings -------------------------------------------------------------------

    method WithdrawFees(cx: Context, currency: Address, to: Address, amount: I128) returns (r: Result<(), MarketError>)
      requires Valid()
      modifies `s
      ensures Valid()
      ensures Commits(old(s.World()), old(s.World()).WithdrawFees(cx, currency, to, amount), r, s.World())
    {
      if s.admin !in cx.auth { return Err(AuthFailed); }
      if amount <= 0 { return Err(InvalidAmount); }
      var accrued := s.FeesAccrued(currency);
      if amount > accrued { return Err(InsufficientFees); }
      WithdrawKeeps(s.World(), cx, currency, to, amount);
      ValidIsCoherent(s);
      var ok := TransferToken(cx, currency, s.self, to, amount);
      if !ok { return Err(PaymentFailed); }
      TakeFees(currency, to, amount);
      return Ok(());
    }

    method TakeFees(currency: Address, to: Address, amount: I128)
      requires s.Coherent() && 0 < amount <= s.FeesAccrued(currency)
      modifies `s
      ensures s.Coherent() && s.nft == old(s.nft) && s.tokens == old(s.tokens)
      ensures s.Market() == old(s.Market()).TakeFees(currency, to, amount)
    {
      var remaining := s.FeesAccrued(currency) - amount;
      s := s.(fees := s.fees[currency := remaining]);
      FeesAside(old(s), s);
      Log(FeesWithdrawn(s.admin, to, currency, amount, remaining));
    }

    method SetFeeBps(cx: Context, feeBps: U32) returns (r: Result<(), MarketError>)
      requires Valid() && s.self !in cx.auth
      modifies `s
      ensures Valid()
      ensures Commits(old(s.World()), old(s.World()).SetFeeBps(cx, feeBps), r, s.World())
    {
      if s.admin !in cx.auth { return Err(AuthFailed); }
      if feeBps + s.royaltyBps > Fees.BPS { return Err(InvalidPrice); }
      SetFeeBpsKeeps(s.World(), cx, feeBps);
      ghost var m := s.Market();
      s := s.(feeBps := feeBps);
      SameIndexes(m, s.Market(), s.botListing, s.activeCount, s.userActive, s.tierStats, s.botOffers);
      return Ok(());
    }

    method SetMinPrice(cx: Context, currency: Address, minPrice: I128) returns (r: Result<(), MarketError>)
      requires Valid()
      modifies `s
      ensures Valid()
      ensures Commits(old(s.World()), old(s.World()).SetMinPrice(cx, currency, minPrice), r, s.World())
    {
      if s.admin !in cx.auth { return Err(AuthFailed); }
      if minPrice <= 0 { return Err(InvalidPrice); }
      ghost var w := s.World();
      s := s.(minPrices := s.minPrices[currency := minPrice]);
      SettingKeeps(w, s.World());
      SameIndexes(w.m, s.Market(), s.botListing, s.activeCount, s.userActive, s.tierStats, s.botOffers);
      return Ok(());
    }

    /** Rotation is refused while the counter says anything is escrowed, and when the new contract does
        not answer; beyond that the contract is taken as it is. */
    method SetBotNft(cx: Context, next: N.Nft, answers: bool) returns (r: Result<(), MarketError>)
      requires Valid()
      modifies `s
      ensures Commits(old(s.World()), old(s.World()).SetBotNft(cx, next, answers), r, s.World())
      ensures s.Coherent() && (r.Err? || Trusted(s.self, next) ==> Valid())
    {
      ValidIsCoherent(s);
      if s.admin !in cx.auth { return Err(AuthFailed); }
      if s.activeCount > 0 { return Err(ActiveListingsExist); }
      if !answers { return Err(InvalidBotNft); }
      if Trusted(s.self, next) {
        SetBotNftKeeps(s.World(), cx, next, answers);
      }
      s := s.(nft := next);
      return Ok(());
    }

    /** `compact_page`: returns how many tombstones it dropped. */
    method CompactPage(page: nat) returns (removed: nat)
      requires Valid()
      modifies `s
      ensures Valid()
      ensures s.World() == old(s.World()).CompactPage(page)
      ensures removed == if page < |old(s.pages)| then |old(s.pages)[page]| - |s.pages[page]| else 0
    {
      CompactKeeps(s.World(), page);
      if page >= |s.pages| { return 0; }
      var ids := s.pages[page];
      var kept := KeepLive(ids, s.listings);
      LiveKeeps(ids, s.listings);
      removed := |ids| - |kept|;
      ghost var m := s.Market();
      if removed > 0 {
        s := s.(pages := s.pages[page := kept]);
      } else {
        LiveFull(ids, s.listings);
        assert s.pages[page := ids] == s.pages;
      }
      SameIndexes(m, s.Market(), s.botListing, s.activeCount, s.userActive, s.tierStats, s.botOffers);
    }
  }

  lemma FeesAside(s: Storage, v: Storage)
    requires s.Coherent() && v == s.(fees := v.fees)
    ensures v.Coherent()
  {
    SameIndexes(s.Market(), v.Market(), s.botListing, s.activeCount, s.userActive, s.tierStats, s.botOffers);
  }

  lemma HandOverKeepsOffers(w: World, cx: Context, seller: Address, held: Option<U64>, botId: U64, to: Address,
                            called: bool)
    ensures var r := w.HandOver(cx, seller, held, botId, to, called);
            r.Ok? ==> r.value.m.offers == w.m.offers
  {
  }

  lemma OfferLegsKeepOffers(w: World, cx: Context, seller: Address, currency: Address, minter: Address, split: Split)
    ensures var r := w.OfferLegs(cx, seller, currency, minter, split);
            r.Ok? ==> r.value.m.offers == w.m.offers
  {
  }

  /** Offer records and open lists are the only things that changed. */
  lemma OffersAside(s: Storage, v: Storage)
    requires s.Coherent()
    requires v == s.(offers := v.offers, botOffers := v.botOffers, nextOffer := v.nextOffer, events := v.events)
    requires OffersExact(v.Market(), v.botOffers)
    ensures v.Coherent()
  {
    assert v.Market().ActiveIds() == s.Market().ActiveIds();
    assert forall a :: v.Market().ActiveOf(a) == s.Market().ActiveOf(a);
    assert forall i :: v.Market().IsActive(i) <==> s.Market().IsActive(i);
    FloorsOfListings(s.Market(), v.Market(), s.tierStats);
  }

  /** Floors are about listings only. */
  lemma FloorsOfListings(m: Market, n: Market, stats: map<N.Tier, TierStats>)
    requires FloorsExact(m, stats) && n.listings == m.listings
    ensures FloorsExact(n, stats)
  {
    assert forall i :: n.IsActive(i) <==> m.IsActive(i);
    forall t
      ensures FloorExact(n, t, StatsOf(stats, t).floorPrice, StatsOf(stats, t).floorListing)
    {
      assert FloorExact(m, t, StatsOf(stats, t).floorPrice, StatsOf(stats, t).floorListing);
    }
  }

  lemma RepriceShape(m: Market, n: Market, id: U64, newPrice: I128)
    requires Shape(m) && m.IsActive(id) && newPrice > 0
    requires n.listings == m.listings[id := m.listings[id].(price := newPrice)]
    requires n.pages == m.pages && n.nextListing == m.nextListing
    ensures Shape(n)
  {
    assert forall i :: n.IsActive(i) <==> m.IsActive(i);
  }

  /** The writes of `update_price` together. */
  lemma WrittenPrice(before: Storage, s: Storage, id: U64, newPrice: I128)
    requires before.Coherent() && before.Market().IsActive(id)
    requires var l := before.listings[id];
             s == before.(listings := before.listings[id := l.(price := newPrice)], tierStats := s.tierStats,
                          events := before.events + [Repriced(l.seller, id, l.price, newPrice)])
    requires SalesIn(s.tierStats) == SalesIn(before.tierStats) && SalesClean(s.tierStats)
    requires FloorsExact(before.Market().(listings := s.listings), s.tierStats)
    ensures s.World() == before.World().SetPrice(id, newPrice) && s.IndexesExact()
  {
    FloorsOfListings(before.Market().(listings := s.listings), s.Market(), s.tierStats);
    RepriceReindexes(before, s, id, newPrice);
  }

  /** The storage after the writes of `list_bot`. */
  function Recorded(s: Storage, l: Listing): Storage
    requires s.nextListing < U64_MAX && AppendListing(s.pages, s.nextListing).Ok?
    requires CountOf(s.userActive, l.seller) < U32_MAX
  {
    var id, st := s.nextListing, StatsOf(s.tierStats, l.tier);
    s.(listings := s.listings[id := l],
       botListing := s.botListing[l.botId := id],
       pages := AppendListing(s.pages, id).value,
       activeCount := Min(s.activeCount + 1, U32_MAX),
       tierStats := if st.floorPrice == 0 || l.price < st.floorPrice
                    then WithFloor(s.tierStats, l.tier, l.price, id) else s.tierStats,
       userActive := s.userActive[l.seller := CountOf(s.userActive, l.seller) + 1],
       nextListing := id + 1,
       events := s.events + [Listed(l.seller, id, l.botId, l.price, l.currency)])
  }

  /** Listing never saturates a counter and leaves every index exact. */
  lemma RecordedIndexes(s: Storage, v: Storage, l: Listing)
    requires s.Valid() && l.active && l.price > 0
    requires l.botId in s.nft.bots && s.nft.bots[l.botId].owner == l.seller && l.seller != s.self
    requires s.nextListing < U64_MAX && AppendListing(s.pages, s.nextListing).Ok?
    requires CountOf(s.userActive, l.seller) < U32_MAX
    requires v == Recorded(s.(nft := v.nft), l)
    ensures v.IndexesExact() && SalesIn(v.tierStats) == SalesIn(s.tierStats)
  {
    ValidIsCoherent(s);
    CountsAfterList(s, v, l);
    forall i | s.Market().IsActive(i)
      ensures s.listings[i].botId != l.botId
    {
      assert Escrowed(s.World(), s.listings[i]);
    }
    ListReindexes(s, v, l);
  }

  /** The writes of `list_bot`, indexes aside, are what the market records. */
  lemma RecordedWorld(s: Storage, v: Storage, cx: Context, l: Listing)
    requires s.nextListing < U64_MAX && AppendListing(s.pages, s.nextListing).Ok?
    requires CountOf(s.userActive, l.seller) < U32_MAX
    requires v == Recorded(s.(nft := v.nft), l) && SalesIn(v.tierStats) == SalesIn(s.tierStats)
    requires s.World().MoveBot(cx, l.botId, l.seller, s.self, false).Ok?
    requires v.nft == s.World().MoveBot(cx, l.botId, l.seller, s.self, false).value.nft
    ensures s.World().Escrow(cx, l) == Ok(v.World())
  {
  }

  lemma RecordedIsExact(s: Storage, v: Storage, cx: Context, l: Listing)
    requires s.Valid() && s.self !in cx.auth && l.seller in cx.auth && l.active && l.price > 0
    requires l.botId in s.nft.bots && s.nft.bots[l.botId].owner == l.seller
    requires s.nextListing < U64_MAX && AppendListing(s.pages, s.nextListing).Ok?
    requires CountOf(s.userActive, l.seller) < U32_MAX
    requires v == Recorded(s.(nft := v.nft), l)
    requires s.World().MoveBot(cx, l.botId, l.seller, s.self, false).Ok?
    requires v.nft == s.World().MoveBot(cx, l.botId, l.seller, s.self, false).value.nft
    ensures v.IndexesExact() && s.World().Escrow(cx, l) == Ok(v.World())
  {
    RecordedIndexes(s, v, l);
    RecordedWorld(s, v, cx, l);
  }

  lemma CountsAfterList(s: Storage, v: Storage, l: Listing)
    requires s.Valid() && l.active && s.nextListing < U64_MAX
    requires v.listings == s.listings[s.nextListing := l]
    requires v.activeCount == Min(s.activeCount + 1, U32_MAX)
    requires CountOf(s.userActive, l.seller) < U32_MAX
    requires v.userActive == s.userActive[l.seller := CountOf(s.userActive, l.seller) + 1]
    ensures CountsExact(v.Market(), v.activeCount, v.userActive)
  {
    ActiveBounded(s.World());
    assert s.nextListing !in s.Market().listings;
    ListCounts(s.Market(), v.Market(), s.nextListing, l);
  }

  lemma RetireShape(m: Market, id: U64)
    requires Shape(m) && m.IsActive(id)
    ensures Shape(m.Deactivate(id))
  {
    assert forall i :: m.Deactivate(id).IsActive(i) ==> m.IsActive(i);
  }

  /** A market that differs in anything but its listings and pages. */
  lemma ShapeAside(m: Market, n: Market)
    requires Shape(m)
    requires n.listings == m.listings && n.pages == m.pages && n.nextListing == m.nextListing
    ensures Shape(n)
  {
    assert forall i :: n.IsActive(i) <==> m.IsActive(i);
  }

  /** A sale entered into one tier's record leaves every floor. */
  lemma FloorsAfterSale(m: Market, before: map<N.Tier, TierStats>, after: map<N.Tier, TierStats>, tier: N.Tier)
    requires FloorsExact(m, before) && SalesClean(before)
    requires var st := StatsOf(after, tier);
             && st.saleCount > 0 && after == before[tier := st]
             && st.floorPrice == StatsOf(before, tier).floorPrice
             && st.floorListing == StatsOf(before, tier).floorListing
    ensures FloorsExact(m, after) && SalesClean(after)
  {
    forall t
      ensures FloorExact(m, t, StatsOf(after, t).floorPrice, StatsOf(after, t).floorListing)
    {
      assert FloorExact(m, t, StatsOf(before, t).floorPrice, StatsOf(before, t).floorListing);
    }
  }

  lemma SaleKeepsIndexes(m: Market, s: Storage, before: map<N.Tier, TierStats>, tier: N.Tier)
    requires Shape(m) && Indexed(m, s.botListing, s.activeCount, s.userActive, before, s.botOffers)
    requires s.Market().listings == m.listings && s.Market().offers == m.offers && s.Market().pages == m.pages
             && s.Market().nextListing == m.nextListing
    requires var st := StatsOf(s.tierStats, tier);
             && st.saleCount > 0 && s.tierStats == before[tier := st]
             && st.floorPrice == StatsOf(before, tier).floorPrice
             && st.floorListing == StatsOf(before, tier).floorListing
    ensures s.Coherent()
  {
    ShapeAside(m, s.Market());
    FloorsAfterSale(m, before, s.tierStats, tier);
    SameIndexes(m, s.Market(), s.botListing, s.activeCount, s.userActive, s.tierStats, s.botOffers);
  }
}
