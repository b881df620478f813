/** When each call of the marketplace succeeds, in every reachable state: exactly under conditions that the
    caller can look up beforehand, told in terms of what is stored and not of the contract's own helpers. */
module MarketSuccess {
  import opened Common
  import opened MarketSpec
  import opened MarketLegs
  import opened MarketInv
  import opened MarketTheorems
  import Fees
  import N = NftSpec
  import TR = TokenRuns

  // ---- who and how much ------------------------------------------------------------------

  /** An active listing of `who` is for this bot. */
  ghost predicate ListedBy(w: World, who: Address, botId: U64) {
    exists id :: w.m.IsActive(id) && w.m.listings[id].botId == botId && w.m.listings[id].seller == who
  }

  /** `who` holds the bot in their own account or in escrow. */
  ghost predicate Disposes(w: World, who: Address, botId: U64) {
    botId in w.nft.bots && (w.nft.bots[botId].owner == who || ListedBy(w, who, botId))
  }

  /** A price that is not below an explicit minimum, or without one earns a fee if any price does. */
  predicate HighEnough(m: Market, currency: Address, price: int) {
    price > 0 && if currency in m.minPrices then price >= m.minPrices[currency]
                 else m.feeBps == 0 || price * m.feeBps / Fees.BPS >= 1
  }

  lemma HighEnoughIff(m: Market, currency: Address, price: I128)
    requires price > 0
    ensures price >= m.MinPrice(currency) <==> HighEnough(m, currency, price)
  {
    if m.feeBps > 0 {
      Fees.LeastMultiple(m.feeBps, price);
    }
  }

  /** Who holds a bot outright holds none of its listings; escrow names one seller. */
  lemma HoldingIff(w: World, who: Address, botId: U64)
    requires Custody(w) && botId in w.nft.bots && who != w.m.self
    ensures w.Holding(who, botId).Ok? <==> Disposes(w, who, botId)
    ensures w.EffectiveOwner(botId) == who <==> Disposes(w, who, botId)
  {
    if ListedBy(w, who, botId) {
      var id :| w.m.IsActive(id) && w.m.listings[id].botId == botId && w.m.listings[id].seller == who;
      assert Escrowed(w, w.m.listings[id]);
      ListingForIs(w, id);
    } else if w.m.ListingFor(botId).Some? {
      var id := w.m.ListingFor(botId).value;
      assert w.m.IsActive(id) && w.m.listings[id].botId == botId;
      assert Escrowed(w, w.m.listings[id]);
    }
  }

  // ---- refunds --------------------------------------------------------------------------

  /** The escrow of an open offer is always there: a refund fails exactly when its currency is paused. */
  lemma RefundSucceedsIff(w: World, cx: Context, offerId: U64)
    requires Inv(w) && offerId in w.m.offers && w.m.offers[offerId].status == Active
    ensures w.m.offers[offerId].currency in w.tokens
    ensures w.Refund(cx, offerId).Ok? <==> !w.tokens[w.m.offers[offerId].currency].paused
  {
    var o := w.m.offers[offerId];
    EscrowNonnegative(w.m.offers, o.currency);
    assert Surplus(w, o.currency) >= 0;
    assert w.m.FeesAccrued(o.currency) >= 0;
    assert Held(w, o.currency) >= o.amount > 0;
    PayOutSucceeds(w, cx, o.currency, o.buyer, o.amount);
  }

  /** An offer can be withdrawn by its buyer at any time and by anybody once it has expired, paused
      marketplace or not. */
  lemma CancelOfferSucceedsIff(w: World, cx: Context, caller: Address, offerId: U64)
    requires Reachable(w)
    ensures w.CancelOffer(cx, caller, offerId).Ok? <==>
            && caller in cx.auth && offerId in w.m.offers
            && var o := w.m.offers[offerId];
               && o.status == Active && (caller == o.buyer || cx.now >= o.expiresAt)
               && o.currency in w.tokens && !w.tokens[o.currency].paused
  {
    ReachableInv(w);
    if offerId in w.m.offers && w.m.offers[offerId].status == Active {
      RefundSucceedsIff(w, cx, offerId);
    }
  }

  /** An offer can be dismissed by the admin and by whoever holds the bot, in their own account or listed. */
  lemma DismissSucceedsIff(w: World, cx: Context, caller: Address, offerId: U64)
    requires Reachable(w) && w.m.self !in cx.auth
    ensures w.Dismiss(cx, caller, offerId).Ok? <==>
            && caller in cx.auth && offerId in w.m.offers
            && var o := w.m.offers[offerId];
               && o.status == Active && (caller == w.m.admin || Disposes(w, caller, o.botId))
               && o.currency in w.tokens && !w.tokens[o.currency].paused
  {
    ReachableInv(w);
    if offerId in w.m.offers && w.m.offers[offerId].status == Active {
      RefundSucceedsIff(w, cx, offerId);
      if w.m.offers[offerId].botId in w.nft.bots && caller in cx.auth {
        HoldingIff(w, caller, w.m.offers[offerId].botId);
      }
    }
  }

  // ---- purchases ------------------------------------------------------------------------

  lemma PayInSucceeds(w: World, cx: Context, c: Address, buyer: Address, price: I128)
    requires TokensSound(w) && buyer in cx.auth && buyer != w.m.self && price > 0
    ensures w.Pay(cx, c, buyer, w.m.self, price).Ok?
            <==> c in w.tokens && !w.tokens[c].paused && price <= w.tokens[c].Balance(buyer)
    ensures w.Pay(cx, c, buyer, w.m.self, price).Ok? ==>
              var v := w.Pay(cx, c, buyer, w.m.self, price).value;
              v.m == w.m && c in v.tokens && !v.tokens[c].paused
  {
    if c in w.tokens {
      TR.MoveConserves(w.tokens[c], buyer, w.m.self, price);
    }
  }

  /** A leg that the balance covers, in a currency that runs. */
  lemma LegSucceeds(w: World, cx: Context, c: Address, to: Address, amount: I128)
    requires TokensSound(w) && c in w.tokens && !w.tokens[c].paused && 0 <= amount <= Held(w, c)
    ensures w.PayOut(cx, c, to, amount).Ok?
    ensures var v := w.PayOut(cx, c, to, amount).value;
            && v.m == w.m && c in v.tokens && !v.tokens[c].paused && TokensSound(v)
            && Held(v, c) >= Held(w, c) - amount
  {
    if amount > 0 {
      PayOutSucceeds(w, cx, c, to, amount);
      PayOutMoves(w, cx, c, to, amount);
    }
  }

  /** The fee is booked against money that is there, so its sum never overflows. */
  lemma FeeFits(w: World, c: Address, fee: I128)
    requires 0 <= fee && 0 <= w.m.FeesAccrued(c) && w.m.FeesAccrued(c) + fee <= Held(w, c)
    ensures w.m.AccrueFee(c, fee).Ok?
    ensures var v := w.(m := w.m.AccrueFee(c, fee).value);
            v.tokens == w.tokens && v.m == w.m.(fees := v.m.fees) && Held(v, c) == Held(w, c)
  {
    assert Held(w, c) <= I128_MAX;
  }

  /** With the price in, the three parts of its split always go out. */
  lemma PartsGoOut(w: World, cx: Context, l: Listing, minter: Address, split: Split)
    requires TokensSound(w) && l.currency in w.tokens && !w.tokens[l.currency].paused
    requires split.Divides(l.price) && 0 <= w.m.FeesAccrued(l.currency)
    requires w.m.FeesAccrued(l.currency) + l.price <= Held(w, l.currency)
    ensures var r := w.PayOut(cx, l.currency, l.seller, split.payout);
            && r.Ok? && r.value.m == w.m && r.value.m.AccrueFee(l.currency, split.fee).Ok?
            && r.value.(m := r.value.m.AccrueFee(l.currency, split.fee).value)
                      .PayOut(cx, l.currency, minter, split.royalty).Ok?
  {
    var c := l.currency;
    LegSucceeds(w, cx, c, l.seller, split.payout);
    var w2 := w.PayOut(cx, c, l.seller, split.payout).value;
    FeeFits(w2, c, split.fee);
    var w3 := w2.(m := w2.m.AccrueFee(c, split.fee).value);
    LegSucceeds(w3, cx, c, minter, split.royalty);
  }

  lemma LegsSucceedIff(w: World, cx: Context, buyer: Address, l: Listing, minter: Address, split: Split)
    requires TokensSound(w) && buyer in cx.auth && buyer != w.m.self && l.price > 0 && split.Divides(l.price)
    requires 0 <= w.m.FeesAccrued(l.currency) <= Held(w, l.currency)
    ensures w.SaleLegs(cx, buyer, l, minter, split).Ok?
            <==> && l.currency in w.tokens && !w.tokens[l.currency].paused
                 && l.price <= w.tokens[l.currency].Balance(buyer)
  {
    var c := l.currency;
    PayInSucceeds(w, cx, c, buyer, l.price);
    var r := w.Pay(cx, c, buyer, w.m.self, l.price);
    if r.Ok? {
      PayMoves(w, cx, c, buyer, w.m.self, l.price);
      PartsGoOut(r.value, cx, l, minter, split);
    }
  }

  /** The tier's sales record can take one more sale at this price. */
  predicate RecordTakes(m: Market, tier: N.Tier, price: I128) {
    FitsI128(m.SalesOf(tier).volume + price) && m.SalesOf(tier).count < U64_MAX
  }

  /** Once the bot has moved, a settlement is its legs and its record. */
  lemma SettlesByLegs(w: World, w1: World, cx: Context, buyer: Address, id: U64, minter: Address, split: Split,
                      called: bool)
    requires id in w.m.listings && w.MoveBot(cx, w.m.listings[id].botId, w.m.self, buyer, called) == Ok(w1)
    ensures var l := w.m.listings[id];
            var legs := w1.SaleLegs(cx, buyer, l, minter, split);
            w.SettleSale(cx, buyer, id, minter, split, called).Ok?
            <==> legs.Ok? && legs.value.m.RecordSale(l.tier, l.price).Ok?
  {
  }

  lemma FeesCovered(w: World, c: Address)
    requires Inv(w)
    ensures 0 <= w.m.FeesAccrued(c) <= Held(w, c)
  {
    EscrowNonnegative(w.m.offers, c);
    assert Surplus(w, c) >= 0;
  }

  lemma LegsAndRecord(w: World, cx: Context, buyer: Address, l: Listing, minter: Address, split: Split)
    requires TokensSound(w) && buyer in cx.auth && buyer != w.m.self && l.price > 0 && split.Divides(l.price)
    requires 0 <= w.m.FeesAccrued(l.currency) <= Held(w, l.currency)
    ensures var legs := w.SaleLegs(cx, buyer, l, minter, split);
            legs.Ok? && legs.value.m.RecordSale(l.tier, l.price).Ok?
            <==> && l.currency in w.tokens && !w.tokens[l.currency].paused
                 && l.price <= w.tokens[l.currency].Balance(buyer) && RecordTakes(w.m, l.tier, l.price)
  {
    LegsSucceedIff(w, cx, buyer, l, minter, split);
    if w.SaleLegs(cx, buyer, l, minter, split).Ok? {
      SaleLegsPay(w, cx, buyer, l, minter, split);
    }
  }

  /** The bot's leg changes neither money nor records. */
  lemma BotLegAside(w: World, cx: Context, id: U64, buyer: Address, called: bool)
    requires Inv(w) && w.m.IsActive(id) && buyer != w.m.self
    ensures var r := w.MoveBot(cx, w.m.listings[id].botId, w.m.self, buyer, called);
            && r.Ok? && r.value.tokens == w.tokens && r.value.m.self == w.m.self
            && r.value.m.fees == w.m.fees && r.value.m.sales == w.m.sales
  {
    ExitRetires(w, cx, id, buyer, called);
  }

  lemma SameMoney(w: World, w1: World, c: Address)
    requires TokensSound(w) && w1.tokens == w.tokens && w1.m.self == w.m.self && w1.m.fees == w.m.fees
    ensures TokensSound(w1) && Held(w1, c) == Held(w, c) && w1.m.FeesAccrued(c) == w.m.FeesAccrued(c)
  {
  }

  lemma SettlesIff(w: World, cx: Context, buyer: Address, id: U64, minter: Address, split: Split, called: bool)
    requires Inv(w) && w.m.IsActive(id) && buyer in cx.auth && buyer != w.m.self
    requires split.Divides(w.m.listings[id].price)
    ensures var l := w.m.listings[id];
            w.SettleSale(cx, buyer, id, minter, split, called).Ok?
            <==> && l.currency in w.tokens && !w.tokens[l.currency].paused
                 && l.price <= w.tokens[l.currency].Balance(buyer) && RecordTakes(w.m, l.tier, l.price)
  {
    var l := w.m.listings[id];
    assert Escrowed(w, l);
    BotLegAside(w, cx, id, buyer, called);
    var w1 := w.MoveBot(cx, l.botId, w.m.self, buyer, called).value;
    FeesCovered(w, l.currency);
    SameMoney(w, w1, l.currency);
    SettlesByLegs(w, w1, cx, buyer, id, minter, split, called);
    LegsAndRecord(w1, cx, buyer, l, minter, split);
  }

  /** A purchase succeeds if and only if the buyer signed and is not the seller, the marketplace runs, the
      listing is active, unexpired and in an allowed currency that runs, the buyer holds the price, and the
      tier's sales record can take the sale. Nothing else can stop it. */
  lemma BuySucceedsIff(w: World, cx: Context, buyer: Address, id: U64, called: bool)
    requires Reachable(w) && w.m.self !in cx.auth
    ensures w.Buy(cx, buyer, id, called).Ok? <==>
            && buyer in cx.auth && !w.m.paused && w.m.IsActive(id)
            && var l := w.m.listings[id];
               && buyer != l.seller && cx.now <= l.expiresAt && l.currency in w.m.allowed
               && l.currency in w.tokens && !w.tokens[l.currency].paused
               && l.price <= w.tokens[l.currency].Balance(buyer) && RecordTakes(w.m, l.tier, l.price)
  {
    ReachableInv(w);
    if w.m.IsActive(id) && buyer in cx.auth {
      var l := w.m.listings[id];
      assert Escrowed(w, l);
      var minter := w.nft.bots[l.botId].minter;
      BuySettles(w, cx, buyer, id, called);
      SplitDivides(l.price, w.m.feeBps, w.m.royaltyBps, minter == l.seller);
      SettlesIff(w, cx, buyer, id, minter, SplitFor(w.m, l.price, minter == l.seller), called);
    }
  }

  // ---- acceptances ------------------------------------------------------------------------

  /** Out of escrow money, the parts of an offer always go out, unless the currency is paused and there is
      something to pay: at a rate of 100 % there is not. */
  lemma OfferPartsGoOut(w: World, cx: Context, seller: Address, c: Address, amount: int, minter: Address, split: Split)
    requires TokensSound(w) && c in w.tokens && split.Divides(amount) && 0 <= w.m.FeesAccrued(c)
    requires w.m.FeesAccrued(c) + amount <= Held(w, c)
    ensures w.OfferLegs(cx, seller, c, minter, split).Ok? <==> !w.tokens[c].paused || split.payout + split.royalty == 0
  {
    if w.tokens[c].paused {
      FeeFits(w, c, split.fee);
    } else {
      LegSucceeds(w, cx, c, seller, split.payout);
      var w1 := w.PayOut(cx, c, seller, split.payout).value;
      LegSucceeds(w1, cx, c, minter, split.royalty);
      FeeFits(w1.PayOut(cx, c, minter, split.royalty).value, c, split.fee);
    }
  }

  /** Past its checks, an acceptance of a bot the seller holds is its settlement. */
  lemma AcceptSettles(w: World, cx: Context, seller: Address, offerId: U64, called: bool)
    requires offerId in w.m.offers && w.m.offers[offerId].botId in w.nft.bots
    requires w.m.offers[offerId].amount >= 0 && w.m.feeBps + w.m.royaltyBps <= Fees.BPS
    requires w.Holding(seller, w.m.offers[offerId].botId).Ok?
    requires var o := w.m.offers[offerId];
             && seller in cx.auth && !w.m.paused && o.status == Active && cx.now < o.expiresAt && o.buyer != seller
             && o.currency in w.m.allowed
    ensures var o := w.m.offers[offerId];
            var bot := w.nft.bots[o.botId];
            w.Accept(cx, seller, offerId, called)
            == w.SettleOffer(cx, seller, offerId, w.Holding(seller, o.botId).value, bot,
                             SplitFor(w.m, o.amount, bot.minter == seller), called)
  {
    var o := w.m.offers[offerId];
    SplitDivides(o.amount, w.m.feeBps, w.m.royaltyBps, w.nft.bots[o.botId].minter == seller);
  }

  /** Once the bot is handed over, a settlement is its legs and its record. */
  lemma OfferSettlesByLegs(w: World, w1: World, cx: Context, seller: Address, offerId: U64, held: Option<U64>,
                           bot: N.Bot, split: Split, called: bool)
    requires offerId in w.m.offers
    requires w.HandOver(cx, seller, held, w.m.offers[offerId].botId, w.m.offers[offerId].buyer, called) == Ok(w1)
    requires var legs := w1.OfferLegs(cx, seller, w.m.offers[offerId].currency, bot.minter, split);
             legs.Ok? ==> legs.value.m.sales == w.m.sales
    ensures var o := w.m.offers[offerId];
            w.SettleOffer(cx, seller, offerId, held, bot, split, called).Ok?
            <==> w1.OfferLegs(cx, seller, o.currency, bot.minter, split).Ok? && RecordTakes(w.m, bot.tier, o.amount)
  {
    var legs := w1.OfferLegs(cx, seller, w.m.offers[offerId].currency, bot.minter, split);
    if legs.Ok? {
      TakesRecord(legs.value.m.(offers := legs.value.m.offers[offerId := w.m.offers[offerId].(status := Accepted)]),
                  bot.tier, w.m.offers[offerId].amount);
    }
  }

  lemma TakesRecord(m: Market, tier: N.Tier, price: I128)
    ensures m.RecordSale(tier, price).Ok? <==> RecordTakes(m, tier, price)
  {
  }

  lemma OfferLegsKeepRecord(w: World, cx: Context, seller: Address, c: Address, minter: Address, split: Split)
    ensures w.OfferLegs(cx, seller, c, minter, split).Ok? ==>
              w.OfferLegs(cx, seller, c, minter, split).value.m.sales == w.m.sales
  {
  }

  lemma OfferSettlesIff(w: World, cx: Context, seller: Address, offerId: U64, split: Split, called: bool)
    requires Inv(w) && w.m.self !in cx.auth && seller in cx.auth && offerId in w.m.offers
    requires var o := w.m.offers[offerId];
             && o.status == Active && o.buyer != seller && o.botId in w.nft.bots && split.Divides(o.amount)
             && w.Holding(seller, o.botId).Ok?
    ensures var o := w.m.offers[offerId];
            && o.currency in w.tokens
            && (w.SettleOffer(cx, seller, offerId, w.Holding(seller, o.botId).value, w.nft.bots[o.botId], split, called)
                 .Ok?
                <==> (!w.tokens[o.currency].paused || split.payout + split.royalty == 0)
                     && RecordTakes(w.m, w.nft.bots[o.botId].tier, o.amount))
  {
    var o := w.m.offers[offerId];
    var held := w.Holding(seller, o.botId).value;
    HandOverSucceeds(w, cx, seller, o.botId, o.buyer, called);
    var w1 := w.HandOver(cx, seller, held, o.botId, o.buyer, called).value;
    EscrowCovers(w, offerId);
    SameMoney(w, w1, o.currency);
    OfferLegsKeepRecord(w1, cx, seller, o.currency, w.nft.bots[o.botId].minter, split);
    OfferSettlesByLegs(w, w1, cx, seller, offerId, held, w.nft.bots[o.botId], split, called);
    OfferPartsGoOut(w1, cx, seller, o.currency, o.amount, w.nft.bots[o.botId].minter, split);
  }

  lemma EscrowCovers(w: World, offerId: U64)
    requires Inv(w) && offerId in w.m.offers && w.m.offers[offerId].status == Active
    ensures var o := w.m.offers[offerId];
            && o.currency in w.tokens && 0 <= w.m.FeesAccrued(o.currency) && o.amount > 0
            && w.m.FeesAccrued(o.currency) + o.amount <= Held(w, o.currency)
  {
    EscrowNonnegative(w.m.offers, w.m.offers[offerId].currency);
    assert Surplus(w, w.m.offers[offerId].currency) >= 0;
  }

  /** A floor takes all of an amount only at the full rate. */
  lemma AllIsFee(amount: int, feeBps: int)
    requires amount > 0 && 0 <= feeBps <= Fees.BPS
    ensures amount * feeBps / Fees.BPS == amount <==> feeBps == Fees.BPS
  {
    if feeBps < Fees.BPS {
      assert amount * feeBps < amount * Fees.BPS;
    }
  }

  /** An acceptance succeeds if and only if the seller signed, the marketplace runs, the offer is open,
      unexpired, somebody else's and in an allowed currency that runs (or of which nothing is to be paid, at
      a fee of 100 %), the sales record has room, and the seller holds the bot, in their own account or
      under an active listing of theirs. */
  lemma AcceptSucceedsIff(w: World, cx: Context, seller: Address, offerId: U64, called: bool)
    requires Reachable(w) && w.m.self !in cx.auth
    ensures w.Accept(cx, seller, offerId, called).Ok? <==>
            && seller in cx.auth && !w.m.paused && offerId in w.m.offers
            && var o := w.m.offers[offerId];
               && o.status == Active && cx.now < o.expiresAt && o.buyer != seller && o.currency in w.m.allowed
               && Disposes(w, seller, o.botId)
               && o.currency in w.tokens && (!w.tokens[o.currency].paused || w.m.feeBps == Fees.BPS)
               && RecordTakes(w.m, w.nft.bots[o.botId].tier, o.amount)
  {
    ReachableInv(w);
    if offerId in w.m.offers && w.m.offers[offerId].status == Active && w.m.offers[offerId].botId in w.nft.bots
       && seller in cx.auth {
      HoldingIff(w, seller, w.m.offers[offerId].botId);
      var o := w.m.offers[offerId];
      if w.Holding(seller, o.botId).Ok? && !w.m.paused && cx.now < o.expiresAt && o.buyer != seller
         && o.currency in w.m.allowed {
        AcceptHeldIff(w, cx, seller, offerId, called);
      }
    }
  }

  lemma AcceptHeldIff(w: World, cx: Context, seller: Address, offerId: U64, called: bool)
    requires Inv(w) && w.m.self !in cx.auth && seller in cx.auth && !w.m.paused && offerId in w.m.offers
    requires var o := w.m.offers[offerId];
             && o.status == Active && cx.now < o.expiresAt && o.buyer != seller && o.currency in w.m.allowed
             && o.botId in w.nft.bots && w.Holding(seller, o.botId).Ok?
    ensures var o := w.m.offers[offerId];
            && o.currency in w.tokens
            && (w.Accept(cx, seller, offerId, called).Ok?
                <==> (!w.tokens[o.currency].paused || w.m.feeBps == Fees.BPS)
                     && RecordTakes(w.m, w.nft.bots[o.botId].tier, o.amount))
  {
    var o := w.m.offers[offerId];
    var minted := w.nft.bots[o.botId].minter == seller;
    AcceptSettles(w, cx, seller, offerId, called);
    SplitIsFloors(w.m, o.amount, minted);
    OfferSettlesIff(w, cx, seller, offerId, SplitFor(w.m, o.amount, minted), called);
    AllIsFee(o.amount, w.m.feeBps);
  }

  // ---- listings ----------------------------------------------------------------------------

  /** Whoever signs, exactly the seller of an active listing can cancel it, paused marketplace or not. */
  lemma CancelSucceedsIff(w: World, cx: Context, caller: Address, id: U64, called: bool)
    requires Reachable(w) && w.m.self !in cx.auth
    ensures w.Cancel(cx, caller, id, called).Ok?
            <==> caller in cx.auth && w.m.IsActive(id) && w.m.listings[id].seller == caller
  {
    ReachableInv(w);
    if w.m.IsActive(id) && caller in cx.auth {
      assert Escrowed(w, w.m.listings[id]);
      ExitRetires(w, cx, id, caller, called);
    }
  }

  lemma RepriceSucceedsIff(w: World, cx: Context, caller: Address, id: U64, price: I128)
    ensures w.Reprice(cx, caller, id, price).Ok?
            <==> && caller in cx.auth && !w.m.paused && w.m.IsActive(id) && w.m.listings[id].seller == caller
                 && HighEnough(w.m, w.m.listings[id].currency, price)
  {
    if id in w.m.listings && price > 0 {
      HighEnoughIff(w.m, w.m.listings[id].currency, price);
    }
  }

  /** The page index takes one more id. */
  predicate PageRoom(pages: seq<seq<U64>>) {
    |pages| < U32_MAX || |pages[|pages| - 1]| < LISTING_PAGE_SIZE
  }

  lemma ListSucceedsIff(w: World, cx: Context, seller: Address, botId: U64, price: I128, currency: Address,
                        duration: U64)
    requires w.m.self !in cx.auth
    ensures w.List(cx, seller, botId, price, currency, duration).Ok?
            <==> && seller in cx.auth && !w.m.paused && MIN_DURATION <= duration <= MAX_DURATION
                 && |set id | id in w.m.listings && w.m.listings[id].active && w.m.listings[id].seller == seller|
                    < w.m.listingCap
                 && currency in w.m.allowed && HighEnough(w.m, currency, price)
                 && botId in w.nft.bots && w.nft.bots[botId].owner == seller
                 && w.m.nextListing < U64_MAX && PageRoom(w.m.pages)
  {
    if price > 0 {
      HighEnoughIff(w.m, currency, price);
    }
    assert w.m.ActiveOf(seller)
        == set id | id in w.m.listings && w.m.listings[id].active && w.m.listings[id].seller == seller;
  }

  lemma MakeOfferSucceedsIff(w: World, cx: Context, buyer: Address, botId: U64, amount: I128, currency: Address,
                             expiresAt: U64)
    requires Reachable(w) && w.m.self !in cx.auth
    ensures w.MakeOffer(cx, buyer, botId, amount, currency, expiresAt).Ok?
            <==> && buyer in cx.auth && !w.m.paused && currency in w.m.allowed && HighEnough(w.m, currency, amount)
                 && cx.now < expiresAt <= cx.now + MAX_OFFER_DURATION
                 && botId in w.nft.bots && !Disposes(w, buyer, botId)
                 && |set o | o in w.m.offers && w.m.offers[o].status == Active && w.m.offers[o].botId == botId|
                    < MAX_OFFERS_PER_BOT
                 && w.m.nextOffer < U64_MAX
                 && currency in w.tokens && !w.tokens[currency].paused && amount <= w.tokens[currency].Balance(buyer)
  {
    ReachableInv(w);
    if amount > 0 && buyer in cx.auth {
      HighEnoughIff(w.m, currency, amount);
      PayInSucceeds(w, cx, currency, buyer, amount);
      if botId in w.nft.bots {
        HoldingIff(w, buyer, botId);
      }
    }
    assert w.m.OpenOffers(botId)
        == set o | o in w.m.offers && w.m.offers[o].status == Active && w.m.offers[o].botId == botId;
  }

  lemma WithdrawSucceedsIff(w: World, cx: Context, currency: Address, to: Address, amount: I128)
    requires Reachable(w)
    ensures w.WithdrawFees(cx, currency, to, amount).Ok?
            <==> && w.m.admin in cx.auth && 0 < amount && currency in w.m.fees && amount <= w.m.fees[currency]
                 && currency in w.tokens && !w.tokens[currency].paused
  {
    if w.m.admin in cx.auth {
      FeesNeverTouchEscrow(w, cx, currency, to, amount);
    }
  }

  // ---- settings --------------------------------------------------------------------------

  /** What the admin alone can do, and does. */
  lemma SettingsDo(w: World, cx: Context, feeBps: U32, currency: Address, minPrice: I128, paused: bool, cap: U32,
                   allowed: set<Address>)
    ensures var r := w.SetFeeBps(cx, feeBps);
            && (r.Ok? <==> w.m.admin in cx.auth && feeBps + w.m.royaltyBps <= Fees.BPS)
            && (r.Ok? ==> r.value == w.(m := w.m.(feeBps := feeBps)))
    ensures var r := w.SetMinPrice(cx, currency, minPrice);
            && (r.Ok? <==> w.m.admin in cx.auth && minPrice > 0)
            && (r.Ok? ==> r.value == w.(m := w.m.(minPrices := w.m.minPrices[currency := minPrice])))
    ensures var r := w.Configure(cx, paused, cap, allowed);
            && (r.Ok? <==> w.m.admin in cx.auth)
            && (r.Ok? ==> r.value == w.(m := w.m.(paused := paused, listingCap := cap, allowed := allowed)))
  {
  }

  lemma SetBotNftSucceedsIff(w: World, cx: Context, next: N.Nft, answers: bool)
    ensures w.SetBotNft(cx, next, answers).Ok?
            <==> w.m.admin in cx.auth && answers && forall id :: id in w.m.listings ==> !w.m.listings[id].active
  {
    if id :| id in w.m.listings && w.m.listings[id].active {
      assert id in w.m.ActiveIds();
    } else {
      assert w.m.ActiveIds() == {};
    }
  }
}
