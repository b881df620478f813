/** The marketplace together with the two contracts it settles through, as one value.
    `Market` holds what the contract decides on: listings, offers, fees, settings. The structures it
    maintains incrementally beside that (bot index, counters, floors, open-offer lists) are absent:
    here every question they answer is asked of the listings and offers themselves. */
module MarketSpec {
  import opened Common
  import opened IdLists
  import Fees
  import N = NftSpec
  import T = TokenSpec
  import TR = TokenRuns

  const LISTING_PAGE_SIZE := 100
  const MAX_OFFERS_PER_BOT := 25
  const MAX_OFFER_DURATION := 2_592_000
  const MIN_DURATION := 86_400
  const MAX_DURATION := 86_400 * 90

  datatype MarketError =
    | AlreadyInitialized
    | AuthFailed
    | InvalidPrice
    | BotTransferFailed
    | ListingNotFound
    | ListingNotActive
    | Unauthorized
    | PaymentFailed
    | Overflow
    | PriceTooLow
    | ListingStale
    | SelfPurchase
    | TooManyListings
    | InvalidBotNft
    | ContractPaused
    | BotNotFound
    | NotBotOwner
    | Reentrancy
    | UnsupportedCurrency
    | ListingExpired
    | InvalidExpiry
    | OfferNotFound
    | OfferNotActive
    | OfferExpired
    | NotOfferOwner
    | OfferOnOwnBot
    | TooManyOffers
    | InvalidAmount
    | InsufficientFees
    | ActiveListingsExist

  datatype Listing = Listing(seller: Address, botId: U64, tier: N.Tier, price: I128, currency: Address,
                             listedAt: U64, expiresAt: U64, active: bool)

  datatype OfferStatus = Active | Accepted | Cancelled

  datatype Offer = Offer(buyer: Address, botId: U64, amount: I128, currency: Address,
                         createdAt: U64, expiresAt: U64, status: OfferStatus)

  /** Per-tier sales record; the floor is derived and lives with the contract's other indexes. */
  datatype Sales = Sales(volume: I128, count: U64, last: I128)

  datatype Event =
    | Listed(seller: Address, id: U64, botId: U64, price: I128, currency: Address)
    | Sold(seller: Address, buyer: Address, id: U64, botId: U64, price: I128, currency: Address)
    | ListingCancelled(seller: Address, id: U64, botId: U64)
    | Reclaimed(seller: Address, id: U64, botId: U64)
    | Deactivated(botId: U64, id: U64)
    | Repriced(seller: Address, id: U64, oldPrice: I128, newPrice: I128)
    | Offered(buyer: Address, offerId: U64, botId: U64, amount: I128, expiresAt: U64)
    | OfferAccepted(seller: Address, buyer: Address, offerId: U64, botId: U64, amount: I128)
    | OfferCancelled(buyer: Address, offerId: U64, botId: U64, amount: I128, expired: bool)
    | OfferDismissed(buyer: Address, offerId: U64, botId: U64, amount: I128, caller: Address)
    | FeesWithdrawn(admin: Address, to: Address, currency: Address, amount: I128, remaining: I128)

  datatype Market = Market(
    self: Address,
    admin: Address,
    feeBps: U32,
    royaltyBps: U32,
    paused: bool,
    listingCap: U32,
    minPrices: map<Address, I128>,
    allowed: set<Address>,
    listings: map<U64, Listing>,
    nextListing: U64,
    pages: seq<seq<U64>>,
    offers: map<U64, Offer>,
    nextOffer: U64,
    fees: map<Address, I128>,
    sales: map<N.Tier, Sales>,
    events: seq<Event>)
  {
    predicate IsActive(id: U64) {
      id in listings && listings[id].active
    }

    ghost function ActiveIds(): set<U64> {
      set id | id in listings && listings[id].active
    }

    ghost function ActiveOf(seller: Address): set<U64> {
      set id | id in listings && listings[id].active && listings[id].seller == seller
    }

    /** The active listing of a bot, if it has one. */
    ghost function ListingFor(botId: U64): Option<U64> {
      if id :| IsActive(id) && listings[id].botId == botId then Some(id) else None
    }

    ghost function OpenOffers(botId: U64): set<U64> {
      set o | o in offers && offers[o].status == Active && offers[o].botId == botId
    }

    function MinPrice(currency: Address): I128 {
      if currency in minPrices then minPrices[currency] else Fees.DefaultMinPrice(feeBps)
    }

    function FeesAccrued(currency: Address): I128 {
      if currency in fees then fees[currency] else 0
    }

    function SalesOf(tier: N.Tier): Sales {
      if tier in sales then sales[tier] else Sales(0, 0, 0)
    }

    function Emit(e: Event): Market {
      this.(events := events + [e])
    }

    function Deactivate(id: U64): Market {
      if IsActive(id) then this.(listings := listings[id := listings[id].(active := false)]) else this
    }

    /** `on_bot_moved`, as called back by bot_nft. */
    ghost function OnBotMoved(botId: U64): Market {
      match ListingFor(botId)
      case None => this
      case Some(id) => Deactivate(id).Emit(Deactivated(botId, id))
    }

    function AccrueFee(currency: Address, fee: I128): Result<Market, MarketError> {
      if fee <= 0 then Ok(this)
      else if FeesAccrued(currency) + fee > I128_MAX then Err(Overflow)
      else Ok(this.(fees := fees[currency := FeesAccrued(currency) + fee]))
    }

    function TakeFees(currency: Address, to: Address, amount: I128): Market
      requires 0 < amount <= FeesAccrued(currency)
    {
      var rest := FeesAccrued(currency) - amount;
      this.(fees := fees[currency := rest]).Emit(FeesWithdrawn(admin, to, currency, amount, rest))
    }

    function RecordSale(tier: N.Tier, price: I128): Result<Market, MarketError> {
      var s := SalesOf(tier);
      if !FitsI128(s.volume + price) || s.count == U64_MAX then Err(Overflow)
      else Ok(this.(sales := sales[tier := Sales(s.volume + price, s.count + 1, price)]))
    }

    function Open(o: Offer): Market
      requires nextOffer < U64_MAX
    {
      this.(offers := offers[nextOffer := o], nextOffer := nextOffer + 1)
          .Emit(Offered(o.buyer, nextOffer, o.botId, o.amount, o.expiresAt))
    }

    function CloseOffer(id: U64, status: OfferStatus): Market
      requires id in offers
    {
      this.(offers := offers[id := offers[id].(status := status)])
    }
  }

  /** `append_listing_id`: into the last page, or into a new one when that is full. */
  function AppendListing(pages: seq<seq<U64>>, id: U64): Result<seq<seq<U64>>, MarketError> {
    var n := |pages|;
    if n == 0 || |pages[n - 1]| >= LISTING_PAGE_SIZE then
      if n >= U32_MAX then Err(Overflow) else Ok(pages + [[id]])
    else Ok(pages[n - 1 := pages[n - 1] + [id]])
  }

  /** The ids of `ids` whose listing is active, in order (`compact_page`). */
  function Live(ids: seq<U64>, listings: map<U64, Listing>): seq<U64>
    decreases |ids|
  {
    if ids == [] then []
    else Live(ids[..|ids| - 1], listings)
         + if ids[|ids| - 1] in listings && listings[ids[|ids| - 1]].active then [ids[|ids| - 1]] else []
  }

  /** How a price is divided: what stays as platform fee, what the minter and the seller are paid. */
  datatype Split = Split(fee: I128, royalty: I128, payout: I128) {
    ghost predicate Divides(price: int) {
      0 <= fee && 0 <= royalty && 0 <= payout && fee + royalty + payout == price
    }
  }

  /** Fee and royalty by rate; the royalty is waived in the seller's favour when they minted the bot. */
  function SplitOf(price: I128, feeBps: U32, royaltyBps: U32, minterIsSeller: bool): Result<Split, MarketError> {
    SplitBy(price, Fees.BpsOf(price, feeBps), Fees.BpsOf(price, royaltyBps), minterIsSeller)
  }

  function SplitBy(price: I128, fee: Result<I128, ()>, royalty: Result<I128, ()>, minterIsSeller: bool)
    : Result<Split, MarketError>
  {
    if fee.Err? || royalty.Err? then Err(Overflow)
    else if !FitsI128(price - fee.value) || !FitsI128(price - fee.value - royalty.value) then Err(Overflow)
    else if royalty.value > 0 && minterIsSeller then Ok(Split(fee.value, 0, price - fee.value))
    else Ok(Split(fee.value, royalty.value, price - fee.value - royalty.value))
  }

  predicate FitsI128(x: int) {
    -I128_MAX - 1 <= x <= I128_MAX
  }

  lemma SplitByDivides(price: I128, fee: I128, royalty: I128, minterIsSeller: bool)
    requires 0 <= fee && 0 <= royalty && fee + royalty <= price
    ensures SplitBy(price, Ok(fee), Ok(royalty), minterIsSeller).Ok?
    ensures SplitBy(price, Ok(fee), Ok(royalty), minterIsSeller).value.Divides(price)
  {
  }

  /** With rates that add up to at most 100 %, every price divides exactly and nobody is paid a
      negative amount. */
  lemma SplitDivides(price: I128, feeBps: U32, royaltyBps: U32, minterIsSeller: bool)
    requires price >= 0 && feeBps + royaltyBps <= Fees.BPS
    ensures SplitOf(price, feeBps, royaltyBps, minterIsSeller).Ok?
    ensures SplitOf(price, feeBps, royaltyBps, minterIsSeller).value.Divides(price)
  {
    Fees.SplitIsExact(price, feeBps, royaltyBps);
    SplitByDivides(price, Fees.BpsOf(price, feeBps).value, Fees.BpsOf(price, royaltyBps).value, minterIsSeller);
  }

  datatype World = World(m: Market, nft: N.Nft, tokens: map<Address, T.Token>)
  {
    /** A `try_transfer` on a token contract; `cx` names who signed, the marketplace signs for itself. */
    function Pay(cx: Context, currency: Address, from: Address, to: Address, amount: I128)
      : Result<World, MarketError>
    {
      if currency !in tokens then Err(PaymentFailed)
      else
        var r := tokens[currency].Transfer(cx.(auth := cx.auth + {m.self}), from, to, amount);
        if r.Err? then Err(PaymentFailed) else Ok(this.(tokens := tokens[currency := r.value]))
    }

    /** A payout leg out of the contract; nothing is called for a zero amount. */
    function PayOut(cx: Context, currency: Address, to: Address, amount: I128): Result<World, MarketError> {
      if amount <= 0 then Ok(this) else Pay(cx, currency, m.self, to, amount)
    }

    /** A `try_transfer` on bot_nft. `called` says whether bot_nft's best-effort callback ran. */
    ghost function MoveBot(cx: Context, botId: U64, from: Address, to: Address, called: bool)
      : Result<World, MarketError>
    {
      var r := nft.Transfer(cx.(auth := cx.auth + {m.self}), botId, from, to);
      if r.Err? then Err(BotTransferFailed)
      else Ok(this.(nft := r.value,
                    m := if called && from != to && to != m.self then m.OnBotMoved(botId) else m))
    }

    /** While the marketplace keeps a listed bot, the bot still counts as its seller's. */
    ghost function EffectiveOwner(botId: U64): Address
      requires botId in nft.bots
    {
      if nft.bots[botId].owner == m.self && m.ListingFor(botId).Some?
      then m.listings[m.ListingFor(botId).value].seller
      else nft.bots[botId].owner
    }

    ghost function List(cx: Context, seller: Address, botId: U64, price: I128, currency: Address, duration: U64)
      : Result<World, MarketError>
    {
      if seller !in cx.auth then Err(AuthFailed)
      else if m.paused then Err(ContractPaused)
      else if !(MIN_DURATION <= duration <= MAX_DURATION) then Err(InvalidPrice)
      else if price <= 0 then Err(InvalidPrice)
      else if |m.ActiveOf(seller)| >= m.listingCap then Err(TooManyListings)
      else if currency !in m.allowed then Err(UnsupportedCurrency)
      else if price < m.MinPrice(currency) then Err(PriceTooLow)
      else if botId !in nft.bots then Err(BotNotFound)
      else if nft.bots[botId].owner != seller then Err(NotBotOwner)
      else Escrow(cx, Listing(seller, botId, nft.bots[botId].tier, price, currency,
                              cx.now, SatAdd64(cx.now, duration), true))
    }

    /** Takes the bot in and records the listing under the next id, at the end of the page index. */
    ghost function Escrow(cx: Context, l: Listing): Result<World, MarketError> {
      var w :- MoveBot(cx, l.botId, l.seller, m.self, false);
      if m.nextListing == U64_MAX then Err(Overflow)
      else
        var pages :- AppendListing(m.pages, m.nextListing);
        Ok(w.(m := w.m.(listings := m.listings[m.nextListing := l],
                        nextListing := m.nextListing + 1,
                        pages := pages)
                   .Emit(Listed(l.seller, m.nextListing, l.botId, l.price, l.currency))))
    }

    ghost function Buy(cx: Context, buyer: Address, id: U64, called: bool): Result<World, MarketError> {
      if buyer !in cx.auth then Err(AuthFailed)
      else if m.paused then Err(ContractPaused)
      else if id !in m.listings then Err(ListingNotFound)
      else
        var l := m.listings[id];
        if l.seller == buyer then Err(SelfPurchase)
        else if !l.active then Err(ListingNotActive)
        else if cx.now > l.expiresAt then Err(ListingExpired)
        else if l.currency !in m.allowed then Err(UnsupportedCurrency)
        else if l.botId !in nft.bots || nft.bots[l.botId].owner != m.self then Err(ListingStale)
        else
          var minter := nft.bots[l.botId].minter;
          var split :- SplitOf(l.price, m.feeBps, m.royaltyBps, minter == l.seller);
          SettleSale(cx, buyer, id, minter, split, called)
    }

    /** The effects of a purchase: bot first, then the price in and every leg out, then the books. */
    ghost function SettleSale(cx: Context, buyer: Address, id: U64, minter: Address, split: Split, called: bool)
      : Result<World, MarketError>
      requires id in m.listings
    {
      var l := m.listings[id];
      var w1 :- MoveBot(cx, l.botId, m.self, buyer, called);
      var w2 :- w1.SaleLegs(cx, buyer, l, minter, split);
      var m3 :- w2.m.RecordSale(l.tier, l.price);
      Ok(w2.(m := m3.Deactivate(id).Emit(Sold(l.seller, buyer, id, l.botId, l.price, l.currency))))
    }

    /** The price in, the payout, the fee booked, the royalty. */
    function SaleLegs(cx: Context, buyer: Address, l: Listing, minter: Address, split: Split)
      : Result<World, MarketError>
    {
      var w1 :- Pay(cx, l.currency, buyer, m.self, l.price);
      var w2 :- w1.PayOut(cx, l.currency, l.seller, split.payout);
      var m3 :- w2.m.AccrueFee(l.currency, split.fee);
      w2.(m := m3).PayOut(cx, l.currency, minter, split.royalty)
    }

    ghost function Cancel(cx: Context, seller: Address, id: U64, called: bool): Result<World, MarketError> {
      if seller !in cx.auth then Err(AuthFailed)
      else if id !in m.listings then Err(ListingNotFound)
      else
        var l := m.listings[id];
        if l.seller != seller then Err(Unauthorized)
        else if !l.active then Err(ListingNotActive)
        else
          var w :- MoveBot(cx, l.botId, m.self, seller, called);
          Ok(w.(m := w.m.Deactivate(id).Emit(ListingCancelled(seller, id, l.botId))))
    }

    ghost function Reclaim(cx: Context, id: U64, called: bool): Result<World, MarketError> {
      if id !in m.listings then Err(ListingNotFound)
      else
        var l := m.listings[id];
        if !l.active then Err(ListingNotActive)
        else if cx.now <= l.expiresAt then Err(ListingNotActive)
        else
          var w :- MoveBot(cx, l.botId, m.self, l.seller, called);
          Ok(w.(m := w.m.Deactivate(id).Emit(Reclaimed(l.seller, id, l.botId))))
    }

    function Reprice(cx: Context, seller: Address, id: U64, newPrice: I128): Result<World, MarketError> {
      if seller !in cx.auth then Err(AuthFailed)
      else if m.paused then Err(ContractPaused)
      else if id !in m.listings then Err(ListingNotFound)
      else
        var l := m.listings[id];
        if l.seller != seller then Err(Unauthorized)
        else if !l.active then Err(ListingNotActive)
        else if newPrice <= 0 then Err(InvalidPrice)
        else if newPrice < m.MinPrice(l.currency) then Err(PriceTooLow)
        else Ok(SetPrice(id, newPrice))
    }

    function SetPrice(id: U64, newPrice: I128): World
      requires id in m.listings
    {
      var l := m.listings[id];
      this.(m := m.(listings := m.listings[id := l.(price := newPrice)])
                  .Emit(Repriced(l.seller, id, l.price, newPrice)))
    }

    ghost function MakeOffer(cx: Context, buyer: Address, botId: U64, amount: I128, currency: Address, expiresAt: U64)
      : Result<World, MarketError>
    {
      if buyer !in cx.auth then Err(AuthFailed)
      else if m.paused then Err(ContractPaused)
      else if amount <= 0 then Err(InvalidPrice)
      else if currency !in m.allowed then Err(UnsupportedCurrency)
      else if amount < m.MinPrice(currency) then Err(PriceTooLow)
      else if expiresAt <= cx.now || expiresAt - cx.now > MAX_OFFER_DURATION then Err(InvalidExpiry)
      else if botId !in nft.bots then Err(BotNotFound)
      else if EffectiveOwner(botId) == buyer then Err(OfferOnOwnBot)
      else if |m.OpenOffers(botId)| >= MAX_OFFERS_PER_BOT then Err(TooManyOffers)
      else if m.nextOffer == U64_MAX then Err(Overflow)
      else OpenOffer(cx, Offer(buyer, botId, amount, currency, cx.now, expiresAt, Active))
    }

    /** Pulls the escrow in and records the offer under the next id. */
    function OpenOffer(cx: Context, o: Offer): Result<World, MarketError>
      requires m.nextOffer < U64_MAX
    {
      var w :- Pay(cx, o.currency, o.buyer, m.self, o.amount);
      Ok(w.(m := m.Open(o)))
    }

    /** How a seller holds the bot of an offer: outright, or in escrow under their active listing. */
    ghost function Holding(seller: Address, botId: U64): Result<Option<U64>, MarketError>
      requires botId in nft.bots
    {
      if nft.bots[botId].owner == seller then Ok(None)
      else if nft.bots[botId].owner == m.self && m.ListingFor(botId).Some?
              && m.listings[m.ListingFor(botId).value].seller == seller
      then Ok(m.ListingFor(botId))
      else Err(NotBotOwner)
    }

    ghost function Accept(cx: Context, seller: Address, offerId: U64, called: bool): Result<World, MarketError> {
      if seller !in cx.auth then Err(AuthFailed)
      else if m.paused then Err(ContractPaused)
      else if offerId !in m.offers then Err(OfferNotFound)
      else
        var o := m.offers[offerId];
        if o.status != Active then Err(OfferNotActive)
        else if cx.now >= o.expiresAt then Err(OfferExpired)
        else if o.buyer == seller then Err(SelfPurchase)
        else if o.currency !in m.allowed then Err(UnsupportedCurrency)
        else if o.botId !in nft.bots then Err(BotNotFound)
        else
          var held :- Holding(seller, o.botId);
          var bot := nft.bots[o.botId];
          var split :- SplitOf(o.amount, m.feeBps, m.royaltyBps, bot.minter == seller);
          SettleOffer(cx, seller, offerId, held, bot, split, called)
    }

    /** The effects of an acceptance: bot first, then every leg out of escrow, then the books. */
    ghost function SettleOffer(cx: Context, seller: Address, offerId: U64, held: Option<U64>, bot: N.Bot,
                               split: Split, called: bool): Result<World, MarketError>
      requires offerId in m.offers
    {
      var o := m.offers[offerId];
      var w1 :- HandOver(cx, seller, held, o.botId, o.buyer, called);
      var w2 :- w1.OfferLegs(cx, seller, o.currency, bot.minter, split);
      var m3 :- w2.m.(offers := w2.m.offers[offerId := o.(status := Accepted)]).RecordSale(bot.tier, o.amount);
      Ok(w2.(m := m3.Emit(OfferAccepted(seller, o.buyer, offerId, o.botId, o.amount))))
    }

    /** The bot to the buyer, out of the seller's hands or out of the seller's listing, which retires. */
    ghost function HandOver(cx: Context, seller: Address, held: Option<U64>, botId: U64, to: Address, called: bool)
      : Result<World, MarketError>
    {
      var w :- MoveBot(cx, botId, if held.Some? then m.self else seller, to, called);
      Ok(if held.Some? then w.(m := w.m.Deactivate(held.value)) else w)
    }

    /** Out of escrow: the payout, the royalty, the fee booked. */
    function OfferLegs(cx: Context, seller: Address, currency: Address, minter: Address, split: Split)
      : Result<World, MarketError>
    {
      var w1 :- PayOut(cx, currency, seller, split.payout);
      var w2 :- w1.PayOut(cx, currency, minter, split.royalty);
      var m3 :- w2.m.AccrueFee(currency, split.fee);
      Ok(w2.(m := m3))
    }

    /** `refund_offer`: the whole escrow back to the buyer. */
    function Refund(cx: Context, offerId: U64): Result<World, MarketError>
      requires offerId in m.offers
    {
      var o := m.offers[offerId];
      var w :- Pay(cx, o.currency, m.self, o.buyer, o.amount);
      Ok(w.(m := m.CloseOffer(offerId, Cancelled)))
    }

    function CancelOffer(cx: Context, caller: Address, offerId: U64): Result<World, MarketError> {
      if caller !in cx.auth then Err(AuthFailed)
      else if offerId !in m.offers then Err(OfferNotFound)
      else
        var o := m.offers[offerId];
        if o.status != Active then Err(OfferNotActive)
        else if cx.now < o.expiresAt && caller != o.buyer then Err(NotOfferOwner)
        else
          var w :- Refund(cx, offerId);
          Ok(w.(m := w.m.Emit(OfferCancelled(o.buyer, offerId, o.botId, o.amount, cx.now >= o.expiresAt))))
    }

    ghost function Dismiss(cx: Context, caller: Address, offerId: U64): Result<World, MarketError> {
      if caller !in cx.auth then Err(AuthFailed)
      else if offerId !in m.offers then Err(OfferNotFound)
      else
        var o := m.offers[offerId];
        if o.status != Active then Err(OfferNotActive)
        else if caller != m.admin && (o.botId !in nft.bots || EffectiveOwner(o.botId) != caller)
        then Err(Unauthorized)
        else
          var w :- Refund(cx, offerId);
          Ok(w.(m := w.m.Emit(OfferDismissed(o.buyer, offerId, o.botId, o.amount, caller))))
    }

    function WithdrawFees(cx: Context, currency: Address, to: Address, amount: I128): Result<World, MarketError> {
      if m.admin !in cx.auth then Err(AuthFailed)
      else if amount <= 0 then Err(InvalidAmount)
      else if amount > m.FeesAccrued(currency) then Err(InsufficientFees)
      else
        var w :- Pay(cx, currency, m.self, to, amount);
        Ok(w.(m := m.TakeFees(currency, to, amount)))
    }

    function SetFeeBps(cx: Context, feeBps: U32): Result<World, MarketError> {
      if m.admin !in cx.auth then Err(AuthFailed)
      else if feeBps + m.royaltyBps > Fees.BPS then Err(InvalidPrice)
      else Ok(this.(m := m.(feeBps := feeBps)))
    }

    function SetMinPrice(cx: Context, currency: Address, minPrice: I128): Result<World, MarketError> {
      if m.admin !in cx.auth then Err(AuthFailed)
      else if minPrice <= 0 then Err(InvalidPrice)
      else Ok(this.(m := m.(minPrices := m.minPrices[currency := minPrice])))
    }

    /** Pause, resume, listing cap and currency allowlist: settings that only the admin writes. */
    function Configure(cx: Context, paused: bool, listingCap: U32, allowed: set<Address>): Result<World, MarketError> {
      if m.admin !in cx.auth then Err(AuthFailed)
      else Ok(this.(m := m.(paused := paused, listingCap := listingCap, allowed := allowed)))
    }

    /** Rotation to another bot_nft contract, whose whole state comes with it; `answers` says whether it
        reacted to the probe. */
    ghost function SetBotNft(cx: Context, next: N.Nft, answers: bool): Result<World, MarketError> {
      if m.admin !in cx.auth then Err(AuthFailed)
      else if |m.ActiveIds()| > 0 then Err(ActiveListingsExist)
      else if !answers then Err(InvalidBotNft)
      else Ok(this.(nft := next))
    }

    function CompactPage(page: nat): World {
      if page >= |m.pages| then this
      else this.(m := m.(pages := m.pages[page := Live(m.pages[page], m.listings)]))
    }

    /** A call on bot_nft from outside the marketplace, with its best-effort callback. */
    ghost function NftCall(cx: Context, call: N.Call, called: bool): World {
      var r := N.Apply(nft, cx, call);
      if r.Err? then this
      else
        var moved := match call
                     case Transfer(id, from, to) => if from != to && to != m.self then Some(id) else None
                     case TransferFrom(_, from, to, id) => if from != to && to != m.self then Some(id) else None
                     case _ => None;
        this.(nft := r.value, m := if called && moved.Some? then m.OnBotMoved(moved.value) else m)
    }

    /** A call on a token contract from outside the marketplace. */
    function TokenCall(cx: Context, currency: Address, call: TR.Call): World {
      if currency !in tokens then this
      else this.(tokens := tokens[currency := TR.Step(tokens[currency], cx, call)])
    }
  }

  datatype Action =
    | List(seller: Address, botId: U64, price: I128, currency: Address, duration: U64)
    | Buy(buyer: Address, listingId: U64, called: bool)
    | Cancel(seller: Address, listingId: U64, called: bool)
    | Reclaim(listingId: U64, called: bool)
    | Reprice(seller: Address, listingId: U64, newPrice: I128)
    | MakeOffer(buyer: Address, botId: U64, amount: I128, currency: Address, expiresAt: U64)
    | Accept(seller: Address, offerId: U64, called: bool)
    | CancelOffer(caller: Address, offerId: U64)
    | Dismiss(caller: Address, offerId: U64)
    | WithdrawFees(currency: Address, to: Address, amount: I128)
    | SetFeeBps(feeBps: U32)
    | SetMinPrice(currency: Address, minPrice: I128)
    | Configure(paused: bool, listingCap: U32, allowed: set<Address>)
    | SetBotNft(next: N.Nft, answers: bool)
    | CompactPage(page: nat)
    | NftCall(nftCall: N.Call, called: bool)
    | TokenCall(currency: Address, tokenCall: TR.Call)

  ghost function Apply(w: World, cx: Context, a: Action): Result<World, MarketError> {
    match a
    case List(seller, botId, price, currency, duration) => w.List(cx, seller, botId, price, currency, duration)
    case Buy(buyer, id, called) => w.Buy(cx, buyer, id, called)
    case Cancel(seller, id, called) => w.Cancel(cx, seller, id, called)
    case Reclaim(id, called) => w.Reclaim(cx, id, called)
    case Reprice(seller, id, price) => w.Reprice(cx, seller, id, price)
    case MakeOffer(buyer, botId, amount, currency, expiresAt) =>
      w.MakeOffer(cx, buyer, botId, amount, currency, expiresAt)
    case Accept(seller, offerId, called) => w.Accept(cx, seller, offerId, called)
    case CancelOffer(caller, offerId) => w.CancelOffer(cx, caller, offerId)
    case Dismiss(caller, offerId) => w.Dismiss(cx, caller, offerId)
    case WithdrawFees(currency, to, amount) => w.WithdrawFees(cx, currency, to, amount)
    case SetFeeBps(feeBps) => w.SetFeeBps(cx, feeBps)
    case SetMinPrice(currency, minPrice) => w.SetMinPrice(cx, currency, minPrice)
    case Configure(paused, cap, allowed) => w.Configure(cx, paused, cap, allowed)
    case SetBotNft(next, answers) => w.SetBotNft(cx, next, answers)
    case CompactPage(page) => Ok(w.CompactPage(page))
    case NftCall(call, called) => Ok(w.NftCall(cx, call, called))
    case TokenCall(currency, call) => Ok(w.TokenCall(cx, currency, call))
  }

  ghost function Step(w: World, cx: Context, a: Action): World {
    var r := Apply(w, cx, a);
    if r.Ok? then r.value else w
  }

  ghost function Run(w: World, steps: seq<(Context, Action)>): World
    decreases |steps|
  {
    if steps == [] then w else Run(Step(w, steps[0].0, steps[0].1), steps[1..])
  }
}
