/** What each call of the marketplace does to what is stored: every entry it writes, with what, and that it
    writes nothing else. And what that means for a seller: a listed bot goes home or to somebody who paid. */
module MarketEffects {
  import opened Common
  import opened MarketSpec
  import opened MarketLegs
  import opened MarketInv
  import opened MarketTheorems
  import opened MarketSuccess
  import Fees
  import N = NftSpec

  /** The bot has a new owner, and nobody is approved for it. */
  function Handed(n: N.Nft, botId: U64, to: Address): N.Nft
    requires botId in n.bots
  {
    n.(bots := n.bots[botId := n.bots[botId].(owner := to)], approvals := n.approvals - {botId})
  }

  /** The listing is retired, and `log` was logged. */
  function Retire(m: Market, id: U64, log: seq<Event>): Market
    requires id in m.listings
  {
    m.(listings := m.listings[id := m.listings[id].(active := false)], events := m.events + log)
  }

  /** Beside balances in currency `c`, nothing in the token ledgers differs. */
  ghost predicate OnlyBalances(w: World, v: World, c: Address) {
    && v.tokens.Keys == w.tokens.Keys
    && forall d :: d in w.tokens ==>
         v.tokens[d] == if d == c then w.tokens[d].(balances := v.tokens[d].balances) else w.tokens[d]
  }

  /** `amount` went from one account to another, and nothing else happened in the token ledgers. */
  ghost predicate Transferred(w: World, v: World, c: Address, from: Address, to: Address, amount: int) {
    && OnlyBalances(w, v, c)
    && forall a :: BalanceOf(v, c, a) == BalanceOf(w, c, a) + (if a == to then amount else 0)
                                         - if a == from then amount else 0
  }

  lemma PayTouches(w: World, cx: Context, c: Address, from: Address, to: Address, amount: I128)
    requires w.Pay(cx, c, from, to, amount).Ok?
    ensures OnlyBalances(w, w.Pay(cx, c, from, to, amount).value, c)
  {
  }

  lemma PayTransfers(w: World, cx: Context, c: Address, from: Address, to: Address, amount: I128)
    requires TokensSound(w) && w.Pay(cx, c, from, to, amount).Ok?
    ensures Transferred(w, w.Pay(cx, c, from, to, amount).value, c, from, to, amount)
  {
    PayTouches(w, cx, c, from, to, amount);
    PayPays(w, cx, c, from, to, amount);
  }

  lemma PayOutOnly(w: World, cx: Context, c: Address, to: Address, amount: I128)
    requires w.PayOut(cx, c, to, amount).Ok?
    ensures OnlyBalances(w, w.PayOut(cx, c, to, amount).value, c)
  {
  }

  lemma OnlyBalancesChain(u: World, v: World, w: World, c: Address)
    requires OnlyBalances(u, v, c) && OnlyBalances(v, w, c)
    ensures OnlyBalances(u, w, c)
  {
  }

  // ---- exits ------------------------------------------------------------------------------

  /** A bot out of escrow, with its listing retired and `e` logged last. */
  lemma BotReturns(w: World, cx: Context, id: U64, to: Address, called: bool, e: Event)
    requires Custody(w) && w.m.IsActive(id) && to != w.m.self
    ensures var l := w.m.listings[id];
            var r := w.MoveBot(cx, l.botId, w.m.self, to, called);
            && l.botId in w.nft.bots && r.Ok?
            && r.value.(m := r.value.m.Deactivate(id).Emit(e))
               == World(Retire(w.m, id, (if called then [Deactivated(l.botId, id)] else []) + [e]),
                        Handed(w.nft, l.botId, to), w.tokens)
  {
    var l := w.m.listings[id];
    assert Escrowed(w, l);
    ExitRetires(w, cx, id, to, called);
    assert w.m.events + [Deactivated(l.botId, id)] + [e] == w.m.events + ([Deactivated(l.botId, id)] + [e]);
    assert [] + [e] == [e];
  }

  lemma CancelReturns(w: World, cx: Context, caller: Address, id: U64, called: bool)
    requires Reachable(w) && w.m.self !in cx.auth && w.Cancel(cx, caller, id, called).Ok?
    ensures id in w.m.listings && w.m.listings[id].botId in w.nft.bots
    ensures var l := w.m.listings[id];
            w.Cancel(cx, caller, id, called).value
            == World(Retire(w.m, id, (if called then [Deactivated(l.botId, id)] else [])
                                     + [ListingCancelled(l.seller, id, l.botId)]),
                     Handed(w.nft, l.botId, l.seller), w.tokens)
  {
    ReachableInv(w);
    CancelSucceedsIff(w, cx, caller, id, called);
    var l := w.m.listings[id];
    BotReturns(w, cx, id, l.seller, called, ListingCancelled(l.seller, id, l.botId));
  }

  lemma ReclaimReturns(w: World, cx: Context, id: U64, called: bool)
    requires Reachable(w) && w.m.self !in cx.auth && w.Reclaim(cx, id, called).Ok?
    ensures w.m.IsActive(id) && cx.now > w.m.listings[id].expiresAt && w.m.listings[id].botId in w.nft.bots
    ensures var l := w.m.listings[id];
            w.Reclaim(cx, id, called).value
            == World(Retire(w.m, id, (if called then [Deactivated(l.botId, id)] else [])
                                     + [Reclaimed(l.seller, id, l.botId)]),
                     Handed(w.nft, l.botId, l.seller), w.tokens)
  {
    ReachableInv(w);
    var l := w.m.listings[id];
    assert Escrowed(w, l);
    BotReturns(w, cx, id, l.seller, called, Reclaimed(l.seller, id, l.botId));
  }

  // ---- listing and repricing -----------------------------------------------------------------

  lemma ListEscrows(w: World, cx: Context, seller: Address, botId: U64, price: I128, currency: Address, duration: U64)
    requires w.m.self !in cx.auth && w.List(cx, seller, botId, price, currency, duration).Ok?
    ensures botId in w.nft.bots
    ensures var v, id := w.List(cx, seller, botId, price, currency, duration).value, w.m.nextListing;
            var l := Listing(seller, botId, w.nft.bots[botId].tier, price, currency, cx.now,
                             Min(cx.now + duration, U64_MAX), true);
            && id < U64_MAX && Flatten(v.m.pages) == Flatten(w.m.pages) + [id]
            && v == World(w.m.(listings := w.m.listings[id := l], nextListing := id + 1, pages := v.m.pages,
                               events := w.m.events + [Listed(seller, id, botId, price, currency)]),
                          Handed(w.nft, botId, w.m.self), w.tokens)
  {
    AppendFlattens(w.m.pages, w.m.nextListing);
  }

  lemma RepriceWrites(w: World, cx: Context, caller: Address, id: U64, price: I128)
    requires w.Reprice(cx, caller, id, price).Ok?
    ensures id in w.m.listings
    ensures var l := w.m.listings[id];
            w.Reprice(cx, caller, id, price).value
            == w.(m := w.m.(listings := w.m.listings[id := l.(price := price)],
                            events := w.m.events + [Repriced(l.seller, id, l.price, price)]))
  {
  }

  // ---- offers --------------------------------------------------------------------------------

  /** The offer is on the books, and its amount is in escrow. */
  ghost predicate Opened(w: World, v: World, o: Offer) {
    && w.m.nextOffer < U64_MAX && Transferred(w, v, o.currency, o.buyer, w.m.self, o.amount)
    && v == World(w.m.(offers := w.m.offers[w.m.nextOffer := o], nextOffer := w.m.nextOffer + 1,
                       events := w.m.events + [Offered(o.buyer, w.m.nextOffer, o.botId, o.amount, o.expiresAt)]),
                  w.nft, v.tokens)
  }

  lemma OpensOffer(w: World, cx: Context, o: Offer)
    requires TokensSound(w) && w.m.nextOffer < U64_MAX && w.OpenOffer(cx, o).Ok?
    ensures Opened(w, w.OpenOffer(cx, o).value, o)
  {
    PayTransfers(w, cx, o.currency, o.buyer, w.m.self, o.amount);
    SameLedgers(w, w.Pay(cx, o.currency, o.buyer, w.m.self, o.amount).value, w.OpenOffer(cx, o).value, o.currency,
                o.buyer, w.m.self, o.amount);
  }

  lemma SameLedgers(w: World, u: World, v: World, c: Address, from: Address, to: Address, amount: int)
    requires Transferred(w, u, c, from, to, amount) && v.tokens == u.tokens
    ensures Transferred(w, v, c, from, to, amount)
  {
    assert forall a :: BalanceOf(v, c, a) == BalanceOf(u, c, a);
  }

  lemma OfferEscrows(w: World, cx: Context, buyer: Address, botId: U64, amount: I128, currency: Address, expiresAt: U64)
    requires Inv(w) && w.MakeOffer(cx, buyer, botId, amount, currency, expiresAt).Ok?
    ensures Opened(w, w.MakeOffer(cx, buyer, botId, amount, currency, expiresAt).value,
                   Offer(buyer, botId, amount, currency, cx.now, expiresAt, OfferStatus.Active))
  {
    OpensOffer(w, cx, Offer(buyer, botId, amount, currency, cx.now, expiresAt, OfferStatus.Active));
  }

  /** The offer is closed as `status`, `e` was logged, and the buyer has the escrow back. */
  ghost predicate Refunded(w: World, v: World, id: U64, e: Event)
    requires id in w.m.offers
  {
    var o := w.m.offers[id];
    && Transferred(w, v, o.currency, w.m.self, o.buyer, o.amount)
    && v == World(w.m.(offers := w.m.offers[id := o.(status := Cancelled)], events := w.m.events + [e]),
                  w.nft, v.tokens)
  }

  lemma CancelOfferRefunds(w: World, cx: Context, caller: Address, id: U64)
    requires Inv(w) && w.CancelOffer(cx, caller, id).Ok?
    ensures id in w.m.offers
    ensures var o := w.m.offers[id];
            Refunded(w, w.CancelOffer(cx, caller, id).value, id,
                     OfferCancelled(o.buyer, id, o.botId, o.amount, cx.now >= o.expiresAt))
  {
    var o := w.m.offers[id];
    PayTransfers(w, cx, o.currency, w.m.self, o.buyer, o.amount);
  }

  lemma DismissRefunds(w: World, cx: Context, caller: Address, id: U64)
    requires Inv(w) && w.Dismiss(cx, caller, id).Ok?
    ensures id in w.m.offers
    ensures var o := w.m.offers[id];
            Refunded(w, w.Dismiss(cx, caller, id).value, id, OfferDismissed(o.buyer, id, o.botId, o.amount, caller))
  {
    var o := w.m.offers[id];
    PayTransfers(w, cx, o.currency, w.m.self, o.buyer, o.amount);
  }

  // ---- fees ----------------------------------------------------------------------------------

  lemma WithdrawPays(w: World, cx: Context, currency: Address, to: Address, amount: I128)
    requires Inv(w) && w.WithdrawFees(cx, currency, to, amount).Ok?
    ensures currency in w.m.fees
    ensures var v, rest := w.WithdrawFees(cx, currency, to, amount).value, w.m.fees[currency] - amount;
            && Transferred(w, v, currency, w.m.self, to, amount) && -I128_MAX - 1 <= rest <= I128_MAX
            && v == World(w.m.(fees := w.m.fees[currency := rest],
                               events := w.m.events + [FeesWithdrawn(w.m.admin, to, currency, amount, rest)]),
                          w.nft, v.tokens)
  {
    PayTransfers(w, cx, currency, w.m.self, to, amount);
  }

  // ---- sales ---------------------------------------------------------------------------------

  /** Fees and ledgers of all other currencies are as before, and beside balances so are this one's. */
  ghost predicate OneCurrency(w: World, v: World, c: Address) {
    OnlyBalances(w, v, c) && forall d :: d != c ==> v.m.FeesAccrued(d) == w.m.FeesAccrued(d)
  }

  lemma AccrueOnly(m: Market, c: Address, fee: I128)
    requires m.AccrueFee(c, fee).Ok?
    ensures forall d :: d != c ==> m.AccrueFee(c, fee).value.FeesAccrued(d) == m.FeesAccrued(d)
  {
  }

  lemma OneCurrencyChain(u: World, v: World, w: World, c: Address)
    requires OneCurrency(u, v, c) && OneCurrency(v, w, c)
    ensures OneCurrency(u, w, c)
  {
    OnlyBalancesChain(u, v, w, c);
  }

  lemma PayOnly(w: World, cx: Context, c: Address, from: Address, to: Address, amount: I128)
    requires w.Pay(cx, c, from, to, amount).Ok?
    ensures OneCurrency(w, w.Pay(cx, c, from, to, amount).value, c)
  {
    PayTouches(w, cx, c, from, to, amount);
  }

  lemma PartsOnly(w: World, cx: Context, l: Listing, minter: Address, split: Split)
    requires w.PayOut(cx, l.currency, l.seller, split.payout).Ok?
    requires var w2 := w.PayOut(cx, l.currency, l.seller, split.payout).value;
             && w2.m.AccrueFee(l.currency, split.fee).Ok?
             && w2.(m := w2.m.AccrueFee(l.currency, split.fee).value).PayOut(cx, l.currency, minter, split.royalty).Ok?
    ensures var w2 := w.PayOut(cx, l.currency, l.seller, split.payout).value;
            var v := w2.(m := w2.m.AccrueFee(l.currency, split.fee).value)
                       .PayOut(cx, l.currency, minter, split.royalty).value;
            OneCurrency(w, v, l.currency)
  {
    var c := l.currency;
    var w2 := w.PayOut(cx, c, l.seller, split.payout).value;
    var w3 := w2.(m := w2.m.AccrueFee(c, split.fee).value);
    PayOutOnly(w, cx, c, l.seller, split.payout);
    AccrueOnly(w2.m, c, split.fee);
    PayOutOnly(w3, cx, c, minter, split.royalty);
    OnlyBalancesChain(w, w3, w3.PayOut(cx, c, minter, split.royalty).value, c);
  }

  lemma SaleLegsOnly(w: World, cx: Context, buyer: Address, l: Listing, minter: Address, split: Split)
    requires w.SaleLegs(cx, buyer, l, minter, split).Ok?
    ensures OneCurrency(w, w.SaleLegs(cx, buyer, l, minter, split).value, l.currency)
  {
    var w1 := w.Pay(cx, l.currency, buyer, w.m.self, l.price).value;
    PayOnly(w, cx, l.currency, buyer, w.m.self, l.price);
    PartsOnly(w1, cx, l, minter, split);
    OneCurrencyChain(w, w1, w.SaleLegs(cx, buyer, l, minter, split).value, l.currency);
  }

  lemma OfferLegsOnly(w: World, cx: Context, seller: Address, c: Address, minter: Address, split: Split)
    requires w.OfferLegs(cx, seller, c, minter, split).Ok?
    ensures OneCurrency(w, w.OfferLegs(cx, seller, c, minter, split).value, c)
  {
    var w1 := w.PayOut(cx, c, seller, split.payout).value;
    var w2 := w1.PayOut(cx, c, minter, split.royalty).value;
    PayOutOnly(w, cx, c, seller, split.payout);
    PayOutOnly(w1, cx, c, minter, split.royalty);
    OnlyBalancesChain(w, w1, w2, c);
    AccrueOnly(w2.m, c, split.fee);
  }

  lemma OneCurrencyElsewhere(w: World, w1: World, w2: World, v: World, c: Address)
    requires OneCurrency(w1, w2, c) && w1.tokens == w.tokens && w1.m.fees == w.m.fees
    requires v.tokens == w2.tokens && v.m.fees == w2.m.fees
    ensures OneCurrency(w, v, c)
  {
    assert forall d :: w1.m.FeesAccrued(d) == w.m.FeesAccrued(d) && v.m.FeesAccrued(d) == w2.m.FeesAccrued(d);
  }

  lemma SettledByLegs(w: World, w1: World, cx: Context, buyer: Address, id: U64, minter: Address, split: Split,
                      called: bool)
    requires id in w.m.listings && w.MoveBot(cx, w.m.listings[id].botId, w.m.self, buyer, called) == Ok(w1)
    requires w.SettleSale(cx, buyer, id, minter, split, called).Ok?
    ensures var legs := w1.SaleLegs(cx, buyer, w.m.listings[id], minter, split);
            var v := w.SettleSale(cx, buyer, id, minter, split, called).value;
            legs.Ok? && v.tokens == legs.value.tokens && v.m.fees == legs.value.m.fees
  {
  }

  lemma SettledInOne(w: World, cx: Context, buyer: Address, id: U64, minter: Address, split: Split, called: bool)
    requires Inv(w) && w.m.IsActive(id) && buyer != w.m.self
    requires w.SettleSale(cx, buyer, id, minter, split, called).Ok?
    ensures OneCurrency(w, w.SettleSale(cx, buyer, id, minter, split, called).value, w.m.listings[id].currency)
  {
    var l := w.m.listings[id];
    BotLegAside(w, cx, id, buyer, called);
    var w1 := w.MoveBot(cx, l.botId, w.m.self, buyer, called).value;
    SettledByLegs(w, w1, cx, buyer, id, minter, split, called);
    SaleLegsOnly(w1, cx, buyer, l, minter, split);
    OneCurrencyElsewhere(w, w1, w1.SaleLegs(cx, buyer, l, minter, split).value,
                         w.SettleSale(cx, buyer, id, minter, split, called).value, l.currency);
  }

  lemma BuyInOne(w: World, cx: Context, buyer: Address, id: U64, called: bool)
    requires Inv(w) && w.m.self !in cx.auth && w.m.IsActive(id) && w.Buy(cx, buyer, id, called).Ok?
    ensures OneCurrency(w, w.Buy(cx, buyer, id, called).value, w.m.listings[id].currency)
  {
    var l := w.m.listings[id];
    assert Escrowed(w, l);
    var minter := w.nft.bots[l.botId].minter;
    BuySettles(w, cx, buyer, id, called);
    SettledInOne(w, cx, buyer, id, minter, SplitFor(w.m, l.price, minter == l.seller), called);
  }

  /** The listing retired, its bot handed to `to`, money and records as they are in `v`. */
  ghost predicate SoldTo(w: World, v: World, id: U64, to: Address, log: seq<Event>)
    requires id in w.m.listings
  {
    && w.m.listings[id].botId in w.nft.bots
    && v == World(Retire(w.m, id, log).(fees := v.m.fees, sales := v.m.sales),
                  Handed(w.nft, w.m.listings[id].botId, to), v.tokens)
  }

  lemma RetiredIsSold(w: World, v: World, id: U64, to: Address, front: seq<Event>, e: Event)
    requires Retired(w, v, id, to) && v.m.offers == w.m.offers && v.m.events == w.m.events + front + [e]
    ensures SoldTo(w, v, id, to, front + [e])
  {
    assert w.m.events + front + [e] == w.m.events + (front + [e]);
  }

  /** A purchase: the bot is the buyer's, the price went to seller, minter and fees by their rates, the
      listing is retired, the sale is on record, and nothing else is different. */
  lemma BuyHands(w: World, cx: Context, buyer: Address, id: U64, called: bool)
    requires Reachable(w) && w.m.self !in cx.auth && w.Buy(cx, buyer, id, called).Ok?
    ensures id in w.m.listings && w.m.listings[id].botId in w.nft.bots
    ensures var v, l := w.Buy(cx, buyer, id, called).value, w.m.listings[id];
            var minter := w.nft.bots[l.botId].minter;
            && Bought(w, v, l.currency, buyer, l.price, l.seller, minter, l.price * w.m.feeBps / Fees.BPS,
                      if minter == l.seller then 0 else l.price * w.m.royaltyBps / Fees.BPS)
            && OneCurrency(w, v, l.currency) && SaleRecorded(w.m, v.m, l.tier, l.price)
            && SoldTo(w, v, id, buyer, (if called then [Deactivated(l.botId, id)] else [])
                                       + [Sold(l.seller, buyer, id, l.botId, l.price, l.currency)])
  {
    ReachableInv(w);
    BuySucceedsIff(w, cx, buyer, id, called);
    var v, l := w.Buy(cx, buyer, id, called).value, w.m.listings[id];
    BuyPaysExactly(w, cx, buyer, id, called);
    BuyInOne(w, cx, buyer, id, called);
    RetiredIsSold(w, v, id, buyer, if called then [Deactivated(l.botId, id)] else [],
                  Sold(l.seller, buyer, id, l.botId, l.price, l.currency));
  }

  // ---- acceptances ---------------------------------------------------------------------------

  lemma SettledOfferByLegs(w: World, w1: World, cx: Context, seller: Address, offerId: U64, held: Option<U64>,
                           bot: N.Bot, split: Split, called: bool)
    requires offerId in w.m.offers
    requires w.HandOver(cx, seller, held, w.m.offers[offerId].botId, w.m.offers[offerId].buyer, called) == Ok(w1)
    requires w.SettleOffer(cx, seller, offerId, held, bot, split, called).Ok?
    ensures var legs := w1.OfferLegs(cx, seller, w.m.offers[offerId].currency, bot.minter, split);
            var v := w.SettleOffer(cx, seller, offerId, held, bot, split, called).value;
            && legs.Ok? && v.tokens == legs.value.tokens
            && v.m == legs.value.m.(sales := v.m.sales, offers := v.m.offers, events := v.m.events)
  {
  }

  lemma HandedAside(w: World, w1: World, held: Option<U64>, botId: U64, to: Address, v: Market,
                    fees: map<Address, I128>)
    requires HandedOver(w, w1, held, botId, to)
    requires v == w1.m.(fees := fees, sales := v.sales, offers := v.offers, events := v.events)
    ensures v == w.m.(listings := v.listings, fees := v.fees, sales := v.sales, offers := v.offers, events := v.events)
  {
  }

  lemma AcceptInOne(w: World, cx: Context, seller: Address, offerId: U64, called: bool)
    requires Inv(w) && w.m.self !in cx.auth && w.Accept(cx, seller, offerId, called).Ok?
    ensures var v, o := w.Accept(cx, seller, offerId, called).value, w.m.offers[offerId];
            && OneCurrency(w, v, o.currency)
            && v.m == w.m.(listings := v.m.listings, fees := v.m.fees, sales := v.m.sales, offers := v.m.offers,
                           events := v.m.events)
  {
    var o := w.m.offers[offerId];
    var held, bot := w.Holding(seller, o.botId).value, w.nft.bots[o.botId];
    var split := SplitFor(w.m, o.amount, bot.minter == seller);
    SplitIsFloors(w.m, o.amount, bot.minter == seller);
    AcceptSettles(w, cx, seller, offerId, called);
    HandOverSucceeds(w, cx, seller, o.botId, o.buyer, called);
    var w1 := w.HandOver(cx, seller, held, o.botId, o.buyer, called).value;
    SettledOfferByLegs(w, w1, cx, seller, offerId, held, bot, split, called);
    OfferLegsPay(w1, cx, seller, o.currency, o.amount, bot.minter, split);
    OfferLegsOnly(w1, cx, seller, o.currency, bot.minter, split);
    var v := w.Accept(cx, seller, offerId, called).value;
    HandedAside(w, w1, held, o.botId, o.buyer, v.m, v.m.fees);
    OneCurrencyElsewhere(w, w1, w1.OfferLegs(cx, seller, o.currency, bot.minter, split).value,
                         v, o.currency);
  }

  /** The listings after the one that held the bot retired, if one did. */
  function AfterExit(m: Market, held: Option<U64>): map<U64, Listing>
    requires held.Some? ==> held.value in m.listings
  {
    if held.Some? then m.listings[held.value := m.listings[held.value].(active := false)] else m.listings
  }

  /** An acceptance: the bot is the buyer's, out of the account or the listing of the seller who signed; the
      amount went to seller, minter and fees by their rates; the offer is closed, the sale is on record, and
      nothing else is different. */
  lemma AcceptHands(w: World, cx: Context, seller: Address, offerId: U64, called: bool) returns (held: Option<U64>)
    requires Reachable(w) && w.m.self !in cx.auth && w.Accept(cx, seller, offerId, called).Ok?
    ensures offerId in w.m.offers && w.m.offers[offerId].botId in w.nft.bots
    ensures HeldBy(w, seller, w.m.offers[offerId].botId, held)
    ensures var v, o := w.Accept(cx, seller, offerId, called).value, w.m.offers[offerId];
            var bot := w.nft.bots[o.botId];
            && PaidOut(w, v, o.currency, o.amount, seller, bot.minter, o.amount * w.m.feeBps / Fees.BPS,
                       if bot.minter == seller then 0 else o.amount * w.m.royaltyBps / Fees.BPS)
            && OneCurrency(w, v, o.currency) && SaleRecorded(w.m, v.m, bot.tier, o.amount)
            && v == World(w.m.(listings := AfterExit(w.m, held),
                               offers := w.m.offers[offerId := o.(status := Accepted)],
                               fees := v.m.fees, sales := v.m.sales,
                               events := w.m.events
                                         + (if called && held.Some? then [Deactivated(o.botId, held.value)] else [])
                                         + [OfferAccepted(seller, o.buyer, offerId, o.botId, o.amount)]),
                          Handed(w.nft, o.botId, o.buyer), v.tokens)
  {
    ReachableInv(w);
    var o := w.m.offers[offerId];
    held := w.Holding(seller, o.botId).value;
    AcceptPaysExactly(w, cx, seller, offerId, called);
    AcceptInOne(w, cx, seller, offerId, called);
  }

  // ---- what can happen to a listing -------------------------------------------------------------

  /** Still for sale, on the same terms. */
  ghost predicate Kept(w: World, v: World, id: U64)
    requires id in w.m.listings
  {
    v.m.IsActive(id) && v.m.listings[id] == w.m.listings[id]
  }

  /** Still for sale, at the price its seller has signed for. */
  ghost predicate WasRepriced(w: World, cx: Context, a: Action, v: World, id: U64)
    requires id in w.m.listings
  {
    && a.Reprice? && a.listingId == id && w.m.listings[id].seller in cx.auth
    && v.m.IsActive(id) && v.m.listings[id] == w.m.listings[id].(price := a.newPrice)
  }

  /** The bot is home: the seller asked for it, or the listing had expired. */
  ghost predicate WentHome(w: World, cx: Context, v: World, id: U64)
    requires id in w.m.listings
  {
    var l := w.m.listings[id];
    && !v.m.IsActive(id) && (l.seller in cx.auth || cx.now > l.expiresAt)
    && l.botId in v.nft.bots && v.nft.bots[l.botId].owner == l.seller
  }

  /** Somebody who signed bought the bot and paid the price, of which the seller got all but fee and royalty. */
  ghost predicate WasBought(w: World, cx: Context, a: Action, v: World, id: U64)
    requires id in w.m.listings
  {
    var l := w.m.listings[id];
    && a.Buy? && a.listingId == id && a.buyer in cx.auth && !v.m.IsActive(id)
    && l.botId in w.nft.bots && l.botId in v.nft.bots && v.nft.bots[l.botId].owner == a.buyer
    && var minter := w.nft.bots[l.botId].minter;
       Bought(w, v, l.currency, a.buyer, l.price, l.seller, minter, l.price * w.m.feeBps / Fees.BPS,
              if minter == l.seller then 0 else l.price * w.m.royaltyBps / Fees.BPS)
  }

  /** The seller signed for an offer; its buyer has the bot, and the amount was paid out. */
  ghost predicate WasAccepted(w: World, cx: Context, a: Action, v: World, id: U64)
    requires id in w.m.listings
  {
    var l := w.m.listings[id];
    && a.Accept? && a.offerId in w.m.offers && l.seller in cx.auth && !v.m.IsActive(id)
    && var o := w.m.offers[a.offerId];
       && o.botId == l.botId && l.botId in w.nft.bots
       && l.botId in v.nft.bots && v.nft.bots[l.botId].owner == o.buyer
       && var minter := w.nft.bots[l.botId].minter;
          PaidOut(w, v, o.currency, o.amount, l.seller, minter, o.amount * w.m.feeBps / Fees.BPS,
                  if minter == l.seller then 0 else o.amount * w.m.royaltyBps / Fees.BPS)
  }

  ghost predicate Lives(w: World, cx: Context, a: Action, v: World, id: U64)
    requires id in w.m.listings
  {
    Kept(w, v, id) || WasRepriced(w, cx, a, v, id) || WentHome(w, cx, v, id) || WasBought(w, cx, a, v, id)
    || WasAccepted(w, cx, a, v, id)
  }

  lemma SalesLive(w: World, cx: Context, a: Action, id: U64)
    requires Reachable(w) && Admissible(w, cx, a) && w.m.IsActive(id) && a.Buy? && Apply(w, cx, a).Ok?
    ensures Kept(w, Step(w, cx, a), id) || WasBought(w, cx, a, Step(w, cx, a), id)
  {
    BuyHands(w, cx, a.buyer, a.listingId, a.called);
    BuySucceedsIff(w, cx, a.buyer, a.listingId, a.called);
  }

  lemma ExitsLive(w: World, cx: Context, a: Action, id: U64)
    requires Reachable(w) && Admissible(w, cx, a) && w.m.IsActive(id) && (a.Cancel? || a.Reclaim?)
    requires Apply(w, cx, a).Ok?
    ensures Kept(w, Step(w, cx, a), id) || WentHome(w, cx, Step(w, cx, a), id)
  {
    if a.Cancel? {
      CancelSucceedsIff(w, cx, a.seller, a.listingId, a.called);
      CancelReturns(w, cx, a.seller, a.listingId, a.called);
    } else {
      ReclaimReturns(w, cx, a.listingId, a.called);
    }
  }

  lemma ExitKeepsOthers(m: Market, n: Market, held: Option<U64>, id: U64)
    requires m.IsActive(id) && (held.Some? ==> held.value in m.listings) && n.listings == AfterExit(m, held)
    ensures if held == Some(id) then !n.IsActive(id) else n.IsActive(id) && n.listings[id] == m.listings[id]
  {
  }

  lemma AcceptsLive(w: World, cx: Context, a: Action, id: U64)
    requires Reachable(w) && Admissible(w, cx, a) && w.m.IsActive(id) && a.Accept? && Apply(w, cx, a).Ok?
    ensures Kept(w, Step(w, cx, a), id) || WasAccepted(w, cx, a, Step(w, cx, a), id)
  {
    var held := AcceptHands(w, cx, a.seller, a.offerId, a.called);
    ExitKeepsOthers(w.m, Step(w, cx, a).m, held, id);
    if held == Some(id) {
      AcceptSucceedsIff(w, cx, a.seller, a.offerId, a.called);
      assert w.m.listings[id].seller == a.seller && w.m.listings[id].botId == w.m.offers[a.offerId].botId;
    }
  }

  lemma EntriesLive(w: World, cx: Context, a: Action, id: U64)
    requires Inv(w) && w.m.self !in cx.auth && w.m.IsActive(id) && (a.List? || a.Reprice?) && Apply(w, cx, a).Ok?
    ensures Kept(w, Step(w, cx, a), id) || WasRepriced(w, cx, a, Step(w, cx, a), id)
  {
    if a.List? {
      ListEscrows(w, cx, a.seller, a.botId, a.price, a.currency, a.duration);
    } else {
      RepriceSucceedsIff(w, cx, a.seller, a.listingId, a.newPrice);
      RepriceWrites(w, cx, a.seller, a.listingId, a.newPrice);
    }
  }

  lemma OffersAside(w: World, cx: Context, a: Action)
    requires a.MakeOffer? || a.CancelOffer? || a.Dismiss? || a.WithdrawFees?
    ensures Step(w, cx, a).m.listings == w.m.listings
  {
  }

  lemma SettingsAside(w: World, cx: Context, a: Action)
    requires a.SetFeeBps? || a.SetMinPrice? || a.Configure? || a.SetBotNft? || a.CompactPage? || a.TokenCall?
    ensures Step(w, cx, a).m.listings == w.m.listings
  {
  }

  lemma OthersLive(w: World, cx: Context, a: Action, id: U64)
    requires Inv(w) && Admissible(w, cx, a) && w.m.IsActive(id)
    requires !a.List? && !a.Reprice? && !a.Buy? && !a.Cancel? && !a.Reclaim? && !a.Accept?
    ensures Kept(w, Step(w, cx, a), id)
  {
    if a.NftCall? {
      OutsideCallbackIsInert(w, cx, a.nftCall, a.called);
    } else if a.MakeOffer? || a.CancelOffer? || a.Dismiss? || a.WithdrawFees? {
      OffersAside(w, cx, a);
    } else {
      SettingsAside(w, cx, a);
    }
  }

  /** Whatever anybody does, a listing stays on its terms, or its seller reprices it, or its bot goes home at
      the seller's wish or after expiry, or it goes to a buyer whose money the seller, the minter and the
      platform have got by their rates. */
  lemma ListingLifecycle(w: World, cx: Context, a: Action, id: U64)
    requires Reachable(w) && Admissible(w, cx, a) && w.m.IsActive(id)
    ensures Lives(w, cx, a, Step(w, cx, a), id)
  {
    ReachableInv(w);
    if Apply(w, cx, a).Ok? {
      if a.Buy? {
        SalesLive(w, cx, a, id);
      } else if a.Cancel? || a.Reclaim? {
        ExitsLive(w, cx, a, id);
      } else if a.Accept? {
        AcceptsLive(w, cx, a, id);
      } else if a.List? || a.Reprice? {
        EntriesLive(w, cx, a, id);
      } else {
        OthersLive(w, cx, a, id);
      }
    }
  }

  // ---- what only the admin can do ------------------------------------------------------------------

  /** The same settings, and no booked fee gone. */
  ghost predicate SameSettings(m: Market, n: Market) {
    && n.self == m.self && n.admin == m.admin && n.feeBps == m.feeBps && n.royaltyBps == m.royaltyBps
    && n.paused == m.paused && n.listingCap == m.listingCap && n.minPrices == m.minPrices && n.allowed == m.allowed
    && forall c :: n.FeesAccrued(c) >= m.FeesAccrued(c)
  }

  lemma FeesGrow(w: World, v: World, c: Address, price: I128)
    requires price >= 0 && w.m.feeBps <= Fees.BPS && OneCurrency(w, v, c)
    requires v.m.FeesAccrued(c) == w.m.FeesAccrued(c) + price * w.m.feeBps / Fees.BPS
    ensures forall d :: v.m.FeesAccrued(d) >= w.m.FeesAccrued(d)
  {
    Fees.BpsOfIsFloor(price, w.m.feeBps);
  }

  lemma SoldToKeepsSettings(w: World, v: World, id: U64, to: Address, log: seq<Event>)
    requires id in w.m.listings && SoldTo(w, v, id, to, log)
    requires forall d :: v.m.FeesAccrued(d) >= w.m.FeesAccrued(d)
    ensures SameSettings(w.m, v.m)
  {
  }

  lemma SaleKeepsSettings(w: World, cx: Context, a: Action)
    requires Reachable(w) && Admissible(w, cx, a) && Apply(w, cx, a).Ok? && a.Buy?
    ensures SameSettings(w.m, Step(w, cx, a).m)
  {
    ReachableInv(w);
    BuyHands(w, cx, a.buyer, a.listingId, a.called);
    var v, l := Step(w, cx, a), w.m.listings[a.listingId];
    BuySucceedsIff(w, cx, a.buyer, a.listingId, a.called);
    assert Escrowed(w, l);
    FeesGrow(w, v, l.currency, l.price);
    SoldToKeepsSettings(w, v, a.listingId, a.buyer, (if a.called then [Deactivated(l.botId, a.listingId)] else [])
                        + [Sold(l.seller, a.buyer, a.listingId, l.botId, l.price, l.currency)]);
  }

  lemma AcceptKeepsSettings(w: World, cx: Context, a: Action)
    requires Reachable(w) && Admissible(w, cx, a) && Apply(w, cx, a).Ok? && a.Accept?
    ensures SameSettings(w.m, Step(w, cx, a).m)
  {
    ReachableInv(w);
    var held := AcceptHands(w, cx, a.seller, a.offerId, a.called);
    AcceptInOne(w, cx, a.seller, a.offerId, a.called);
    AcceptSucceedsIff(w, cx, a.seller, a.offerId, a.called);
    FeesGrow(w, Step(w, cx, a), w.m.offers[a.offerId].currency, w.m.offers[a.offerId].amount);
  }

  lemma ExitKeepsSettings(w: World, cx: Context, a: Action)
    requires Reachable(w) && Admissible(w, cx, a) && Apply(w, cx, a).Ok? && (a.Cancel? || a.Reclaim?)
    ensures SameSettings(w.m, Step(w, cx, a).m)
  {
    if a.Cancel? {
      CancelReturns(w, cx, a.seller, a.listingId, a.called);
    } else {
      ReclaimReturns(w, cx, a.listingId, a.called);
    }
  }

  lemma EntriesKeepSettings(w: World, cx: Context, a: Action)
    requires a.List? || a.Reprice?
    ensures SameSettings(w.m, Step(w, cx, a).m)
  {
  }

  lemma OfferKeepsSettings(w: World, cx: Context, a: Action)
    requires a.MakeOffer?
    ensures SameSettings(w.m, Step(w, cx, a).m)
  {
  }

  lemma OutsideKeepsSettings(w: World, cx: Context, a: Action)
    requires Inv(w) && Admissible(w, cx, a) && (a.CompactPage? || a.NftCall? || a.TokenCall?)
    ensures SameSettings(w.m, Step(w, cx, a).m)
  {
    if a.NftCall? {
      OutsideCallbackIsInert(w, cx, a.nftCall, a.called);
    }
  }

  lemma RefundsKeepSettings(w: World, cx: Context, a: Action)
    requires a.CancelOffer? || a.Dismiss?
    ensures SameSettings(w.m, Step(w, cx, a).m)
  {
  }

  lemma AdminCallsFail(w: World, cx: Context, a: Action)
    requires w.m.admin !in cx.auth
    requires a.WithdrawFees? || a.SetFeeBps? || a.SetMinPrice? || a.Configure? || a.SetBotNft?
    ensures Step(w, cx, a) == w
  {
  }

  lemma OthersKeepSettings(w: World, cx: Context, a: Action)
    requires Inv(w) && Admissible(w, cx, a) && w.m.admin !in cx.auth
    requires !a.Buy? && !a.Accept? && !a.Cancel? && !a.Reclaim?
    ensures SameSettings(w.m, Step(w, cx, a).m)
  {
    if a.CompactPage? || a.NftCall? || a.TokenCall? {
      OutsideKeepsSettings(w, cx, a);
    } else if a.List? || a.Reprice? {
      EntriesKeepSettings(w, cx, a);
    } else if a.MakeOffer? {
      OfferKeepsSettings(w, cx, a);
    } else if a.CancelOffer? || a.Dismiss? {
      RefundsKeepSettings(w, cx, a);
    } else {
      AdminCallsFail(w, cx, a);
    }
  }

  lemma StepKeepsSettings(w: World, cx: Context, a: Action)
    requires Reachable(w) && Admissible(w, cx, a) && w.m.admin !in cx.auth
    ensures SameSettings(w.m, Step(w, cx, a).m)
  {
    ReachableInv(w);
    if Apply(w, cx, a).Ok? {
      if a.Buy? {
        SaleKeepsSettings(w, cx, a);
      } else if a.Accept? {
        AcceptKeepsSettings(w, cx, a);
      } else if a.Cancel? || a.Reclaim? {
        ExitKeepsSettings(w, cx, a);
      } else {
        OthersKeepSettings(w, cx, a);
      }
    }
  }

  /** Over any run that the admin signs nothing of, no setting changes and no booked fee leaves. */
  lemma {:induction false} NothingWithoutAdmin(w: World, steps: seq<(Context, Action)>)
    requires Reachable(w) && AdmissibleRun(w, steps)
    requires forall i :: 0 <= i < |steps| ==> w.m.admin !in steps[i].0.auth
    ensures SameSettings(w.m, Run(w, steps).m)
    decreases |steps|
  {
    if steps != [] {
      var cx, a := steps[0].0, steps[0].1;
      StepKeepsSettings(w, cx, a);
      StepReaches(w, cx, a);
      assert forall i :: 0 <= i < |steps[1..]| ==> steps[1..][i] == steps[i + 1];
      NothingWithoutAdmin(Step(w, cx, a), steps[1..]);
    }
  }
}
