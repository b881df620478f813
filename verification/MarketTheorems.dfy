/** What the joint invariant means for traders: escrow is never stale, exits never close, every open
    offer is paid out exactly once. */
module MarketTheorems {
  import opened Common
  import opened MarketSpec
  import opened MarketLegs
  import opened MarketInv
  import Fees
  import N = NftSpec
  import T = TokenSpec
  import TR = TokenRuns

  // ---- reachable states ---------------------------------------------------------

  ghost predicate Reachable(w: World) {
    exists g, steps :: Genesis(g) && AdmissibleRun(g, steps) && w == Run(g, steps)
  }

  lemma ReachableInv(w: World)
    requires Reachable(w)
    ensures Inv(w)
  {
    var g, steps :| Genesis(g) && AdmissibleRun(g, steps) && w == Run(g, steps);
    GenesisInv(g);
    RunKeeps(g, steps);
  }

  lemma {:induction false} RunAppends(w: World, steps: seq<(Context, Action)>, t: (Context, Action))
    requires AdmissibleRun(w, steps) && Admissible(Run(w, steps), t.0, t.1)
    ensures AdmissibleRun(w, steps + [t]) && Run(w, steps + [t]) == Step(Run(w, steps), t.0, t.1)
    decreases |steps|
  {
    if steps == [] {
      assert ([] + [t])[1..] == [];
      assert AdmissibleRun(Step(w, t.0, t.1), []);
    } else {
      assert (steps + [t])[1..] == steps[1..] + [t];
      RunAppends(Step(w, steps[0].0, steps[0].1), steps[1..], t);
    }
  }

  lemma StepReaches(w: World, cx: Context, a: Action)
    requires Reachable(w) && Admissible(w, cx, a)
    ensures Reachable(Step(w, cx, a))
  {
    var g, steps :| Genesis(g) && AdmissibleRun(g, steps) && w == Run(g, steps);
    RunAppends(g, steps, (cx, a));
  }

  /** In every reachable state each active listing's bot is in escrow, unapproved, under that listing
      alone; and in every currency the marketplace holds the accrued fees and all open offers. */
  lemma EscrowIsBacked(w: World)
    requires Reachable(w)
    ensures forall id :: w.m.IsActive(id) ==>
              var b := w.m.listings[id].botId;
              && b in w.nft.bots && w.nft.bots[b].owner == w.m.self && b !in w.nft.approvals
              && w.m.ListingFor(b) == Some(id)
    ensures forall c :: Held(w, c) >= w.m.FeesAccrued(c) + Escrow(w.m, c)
    ensures forall o :: o in w.m.offers && w.m.offers[o].status == Active ==>
              Held(w, w.m.offers[o].currency) >= w.m.offers[o].amount > 0
  {
    ReachableInv(w);
    forall id | w.m.IsActive(id)
      ensures Escrowed(w, w.m.listings[id]) && w.m.ListingFor(w.m.listings[id].botId) == Some(id)
    {
      ListingForIs(w, id);
    }
    forall c
      ensures Held(w, c) >= w.m.FeesAccrued(c) + Escrow(w.m, c)
    {
      assert Surplus(w, c) >= 0;
    }
    forall o | o in w.m.offers && w.m.offers[o].status == Active
      ensures Held(w, w.m.offers[o].currency) >= w.m.offers[o].amount > 0
    {
      EscrowNonnegative(w.m.offers, w.m.offers[o].currency);
      assert w.m.FeesAccrued(w.m.offers[o].currency) >= 0;
    }
  }

  /** A withdrawal succeeds exactly within the accrued fees of an unpaused currency, and leaves every
      offer and its escrow alone. */
  lemma FeesNeverTouchEscrow(w: World, cx: Context, currency: Address, to: Address, amount: I128)
    requires Reachable(w) && w.m.admin in cx.auth
    ensures var r := w.WithdrawFees(cx, currency, to, amount);
            && (r.Ok? <==> && 0 < amount <= w.m.FeesAccrued(currency)
                           && currency in w.tokens && !w.tokens[currency].paused)
            && (r.Ok? ==>
                  && r.value.m.offers == w.m.offers
                  && r.value.m.FeesAccrued(currency) == w.m.FeesAccrued(currency) - amount
                  && Held(r.value, currency) >= r.value.m.FeesAccrued(currency) + Escrow(w.m, currency))
  {
    ReachableInv(w);
    assert Surplus(w, currency) >= 0;
    EscrowNonnegative(w.m.offers, currency);
    if 0 < amount <= w.m.FeesAccrued(currency) {
      PayOutSucceeds(w, cx, currency, to, amount);
      WithdrawKeeps(w, cx, currency, to, amount);
      if !w.tokens[currency].paused {
        assert Surplus(w.WithdrawFees(cx, currency, to, amount).value, currency) >= 0;
      }
    }
  }

  /** Once the bot has moved, only the money side of a settlement can fail. */
  lemma SaleFailsOnMoney(w: World, cx: Context, buyer: Address, id: U64, minter: Address, split: Split, called: bool)
    requires id in w.m.listings
    requires w.MoveBot(cx, w.m.listings[id].botId, w.m.self, buyer, called).Ok?
    ensures var r := w.SettleSale(cx, buyer, id, minter, split, called);
            r.Ok? || r == Err(PaymentFailed) || r == Err(Overflow)
  {
  }

  /** Past its checks, a purchase of an escrowed bot is its settlement. */
  lemma BuySettles(w: World, cx: Context, buyer: Address, id: U64, called: bool)
    requires w.m.IsActive(id) && Escrowed(w, w.m.listings[id]) && w.m.feeBps + w.m.royaltyBps <= Fees.BPS
    ensures var l := w.m.listings[id];
            var minter := w.nft.bots[l.botId].minter;
            var r := w.Buy(cx, buyer, id, called);
            || r == w.SettleSale(cx, buyer, id, minter, SplitFor(w.m, l.price, minter == l.seller), called)
            || r in {Err(AuthFailed), Err(ContractPaused), Err(SelfPurchase), Err(ListingExpired),
                     Err(UnsupportedCurrency)}
  {
    var l := w.m.listings[id];
    SplitDivides(l.price, w.m.feeBps, w.m.royaltyBps, w.nft.bots[l.botId].minter == l.seller);
  }

  /** The stale-listing and failed-transfer branches of a purchase are dead in every reachable state. */
  lemma BuyNeverStale(w: World, cx: Context, buyer: Address, id: U64, called: bool)
    requires Reachable(w) && w.m.self !in cx.auth
    ensures w.Buy(cx, buyer, id, called) != Err(ListingStale)
    ensures w.Buy(cx, buyer, id, called) != Err(BotTransferFailed)
  {
    ReachableInv(w);
    if w.m.IsActive(id) && buyer in cx.auth {
      var l := w.m.listings[id];
      assert Escrowed(w, l);
      ExitRetires(w, cx, id, buyer, called);
      BuySettles(w, cx, buyer, id, called);
      var minter := w.nft.bots[l.botId].minter;
      SaleFailsOnMoney(w, cx, buyer, id, minter, SplitFor(w.m, l.price, minter == l.seller), called);
    }
  }

  /** A seller can always take an escrowed bot back, paused or not, whatever happened before: the call
      succeeds, the bot is theirs, the listing is closed. */
  lemma CancelAlwaysOpen(w: World, cx: Context, id: U64, called: bool)
    requires Reachable(w) && w.m.self !in cx.auth
    requires w.m.IsActive(id) && w.m.listings[id].seller in cx.auth
    ensures var l := w.m.listings[id];
            var r := w.Cancel(cx, l.seller, id, called);
            && r.Ok?
            && l.botId in r.value.nft.bots && r.value.nft.bots[l.botId].owner == l.seller
            && !r.value.m.IsActive(id)
  {
    ReachableInv(w);
    assert Escrowed(w, w.m.listings[id]);
    ExitRetires(w, cx, id, w.m.listings[id].seller, called);
  }

  /** Once a listing has expired anyone can send its bot home; before that nobody but the seller can. */
  lemma ReclaimExactlyAfterExpiry(w: World, cx: Context, id: U64, called: bool)
    requires Reachable(w) && w.m.self !in cx.auth && w.m.IsActive(id)
    ensures w.Reclaim(cx, id, called).Ok? <==> cx.now > w.m.listings[id].expiresAt
    ensures w.Reclaim(cx, id, called).Ok? ==>
              && w.m.listings[id].botId in w.Reclaim(cx, id, called).value.nft.bots
              && w.Reclaim(cx, id, called).value.nft.bots[w.m.listings[id].botId].owner == w.m.listings[id].seller
  {
    ReachableInv(w);
    assert Escrowed(w, w.m.listings[id]);
    ExitRetires(w, cx, id, w.m.listings[id].seller, called);
  }

  // ---- money --------------------------------------------------------------------

  function BalanceOf(w: World, c: Address, who: Address): int {
    if c in w.tokens then w.tokens[c].Balance(who) else 0
  }

  /** How a price is divided under the rates in force. */
  function SplitFor(m: Market, price: I128, minterIsSeller: bool): Split {
    var r := SplitOf(price, m.feeBps, m.royaltyBps, minterIsSeller);
    if r.Ok? then r.value else Split(0, 0, 0)
  }

  /** What each part of a split is: fee and royalty are the floors of their rates, the royalty is waived for
      a minter who sells, and the rest is the seller's. */
  lemma SplitIsFloors(m: Market, price: I128, minterIsSeller: bool)
    requires price >= 0 && m.feeBps + m.royaltyBps <= Fees.BPS
    ensures SplitOf(price, m.feeBps, m.royaltyBps, minterIsSeller).Ok?
    ensures var s := SplitFor(m, price, minterIsSeller);
            && s.Divides(price)
            && s.fee == price * m.feeBps / Fees.BPS
            && s.royalty == (if minterIsSeller then 0 else price * m.royaltyBps / Fees.BPS)
            && s.payout == price - s.fee - s.royalty
  {
    SplitDivides(price, m.feeBps, m.royaltyBps, minterIsSeller);
    Fees.BpsOfIsFloor(price, m.feeBps);
    Fees.BpsOfIsFloor(price, m.royaltyBps);
  }

  lemma PayPays(w: World, cx: Context, c: Address, from: Address, to: Address, amount: I128)
    requires TokensSound(w) && w.Pay(cx, c, from, to, amount).Ok?
    ensures var v := w.Pay(cx, c, from, to, amount).value;
            && TokensSound(v) && v.m == w.m && v.nft == w.nft
            && forall a :: BalanceOf(v, c, a) == BalanceOf(w, c, a) + (if a == to then amount else 0)
                                                 - if a == from then amount else 0
  {
    PayMoves(w, cx, c, from, to, amount);
    TransferMoves(w.tokens[c], cx.(auth := cx.auth + {w.m.self}), from, to, amount);
  }

  lemma PayOutPays(w: World, cx: Context, c: Address, to: Address, amount: I128)
    requires TokensSound(w) && amount >= 0 && w.PayOut(cx, c, to, amount).Ok?
    ensures var v := w.PayOut(cx, c, to, amount).value;
            && TokensSound(v) && v.m == w.m && v.nft == w.nft
            && forall a :: BalanceOf(v, c, a) == BalanceOf(w, c, a) + (if a == to then amount else 0)
                                                 - if a == w.m.self then amount else 0
  {
    if amount > 0 {
      PayPays(w, cx, c, w.m.self, to, amount);
    }
  }

  /** The buyer of an open offer can always withdraw it for the full amount, paused marketplace or
      not: the refund fails exactly when the currency itself is paused. */
  lemma CancelOfferAlwaysOpen(w: World, cx: Context, offerId: U64)
    requires Reachable(w) && w.m.self !in cx.auth
    requires offerId in w.m.offers && w.m.offers[offerId].status == Active
    requires w.m.offers[offerId].buyer in cx.auth
    ensures var o := w.m.offers[offerId];
            var r := w.CancelOffer(cx, o.buyer, offerId);
            && o.currency in w.tokens
            && (r.Ok? <==> !w.tokens[o.currency].paused)
            && (r.Ok? ==>
                  && r.value.m.offers[offerId].status == Cancelled
                  && BalanceOf(r.value, o.currency, o.buyer) == BalanceOf(w, o.currency, o.buyer) + o.amount)
  {
    ReachableInv(w);
    var o := w.m.offers[offerId];
    EscrowNonnegative(w.m.offers, o.currency);
    assert Surplus(w, o.currency) >= 0;
    assert w.m.FeesAccrued(o.currency) >= 0;
    assert Held(w, o.currency) >= o.amount > 0;
    PayOutSucceeds(w, cx, o.currency, o.buyer, o.amount);
    if !w.tokens[o.currency].paused {
      PayPays(w, cx, o.currency, w.m.self, o.buyer, o.amount);
    }
  }

  /** `v` is `w` after `fee` was booked out of `amount`, `minter` was paid `royalty` and `seller` the rest
      out of the marketplace's balance. */
  ghost predicate PaidOut(w: World, v: World, c: Address, amount: int, seller: Address, minter: Address,
                          fee: int, royalty: int)
  {
    && v.m.FeesAccrued(c) == w.m.FeesAccrued(c) + fee
    && forall a :: BalanceOf(v, c, a) == BalanceOf(w, c, a)
         + (if a == seller then amount - fee - royalty else 0) + (if a == minter then royalty else 0)
         - (if a == w.m.self then amount - fee else 0)
  }

  /** How a seller holds a bot: in their own account, or in escrow under an active listing of theirs. */
  ghost predicate HeldBy(w: World, seller: Address, botId: U64, held: Option<U64>)
    requires botId in w.nft.bots
  {
    match held
    case None => w.nft.bots[botId].owner == seller
    case Some(id) => w.m.IsActive(id) && w.m.listings[id].botId == botId && w.m.listings[id].seller == seller
  }

  /** `n` is `m` with one more sale at `price` in the record of its tier. */
  ghost predicate SaleRecorded(m: Market, n: Market, tier: N.Tier, price: int) {
    && tier in n.sales && n.sales[tier].last == price
    && n.sales[tier].volume == (if tier in m.sales then m.sales[tier].volume else 0) + price
    && n.sales[tier].count == (if tier in m.sales then m.sales[tier].count else 0) + 1
    && forall t :: t != tier ==> (t in n.sales <==> t in m.sales) && (t in m.sales ==> n.sales[t] == m.sales[t])
  }

  /** What bot_nft's callback logs when it runs inside an escrow exit. */
  function CallbackEvents(held: Option<U64>, botId: U64, called: bool): seq<Event> {
    if called && held.Some? then [Deactivated(botId, held.value)] else []
  }

  /** `n` is `m` after an acceptance, as far as listings and the log are concerned: the listing that held
      the bot retires, and nothing is logged about it unless the callback ran. */
  ghost predicate AcceptedInto(m: Market, n: Market, held: Option<U64>, botId: U64, called: bool, e: Event) {
    && (match held case Some(id) => m.IsActive(id) && n.listings == m.Deactivate(id).listings
                   case None => n.listings == m.listings)
    && n.nextListing == m.nextListing
    && n.events == m.events + CallbackEvents(held, botId, called) + [e]
  }

  /** Who was paid what depends on the token ledgers and the fee ledger only. */
  lemma PaidOutElsewhere(w: World, w1: World, w2: World, v: World, c: Address, amount: int, seller: Address,
                         minter: Address, fee: int, royalty: int)
    requires PaidOut(w1, w2, c, amount, seller, minter, fee, royalty)
    requires w1.tokens == w.tokens && w1.m.fees == w.m.fees && w1.m.self == w.m.self
    requires v.tokens == w2.tokens && v.m.fees == w2.m.fees
    ensures PaidOut(w, v, c, amount, seller, minter, fee, royalty)
  {
    assert forall a :: BalanceOf(w1, c, a) == BalanceOf(w, c, a) && BalanceOf(v, c, a) == BalanceOf(w2, c, a);
  }

  lemma SettledOfferPays(w: World, cx: Context, seller: Address, offerId: U64, held: Option<U64>, bot: N.Bot,
                         split: Split, called: bool)
    requires TokensSound(w) && offerId in w.m.offers && split.Divides(w.m.offers[offerId].amount)
    requires var o := w.m.offers[offerId];
             && w.HandOver(cx, seller, held, o.botId, o.buyer, called).Ok?
             && HandedOver(w, w.HandOver(cx, seller, held, o.botId, o.buyer, called).value, held, o.botId, o.buyer)
             && w.HandOver(cx, seller, held, o.botId, o.buyer, called).value.m.events
                == w.m.events + CallbackEvents(held, o.botId, called)
    requires w.SettleOffer(cx, seller, offerId, held, bot, split, called).Ok?
    ensures var v, o := w.SettleOffer(cx, seller, offerId, held, bot, split, called).value, w.m.offers[offerId];
            && PaidOut(w, v, o.currency, o.amount, seller, bot.minter, split.fee, split.royalty)
            && SaleRecorded(w.m, v.m, bot.tier, o.amount)
            && v.m.offers == w.m.CloseOffer(offerId, Accepted).offers
            && v.nft == w.nft.Move(o.botId, o.buyer)
            && AcceptedInto(w.m, v.m, held, o.botId, called, OfferAccepted(seller, o.buyer, offerId, o.botId, o.amount))
  {
    var o := w.m.offers[offerId];
    var w1 := w.HandOver(cx, seller, held, o.botId, o.buyer, called).value;
    assert w1.m.offers == w.m.offers && w1.m.fees == w.m.fees;
    OfferLegsPay(w1, cx, seller, o.currency, o.amount, bot.minter, split);
    PaidOutElsewhere(w, w1, w1.OfferLegs(cx, seller, o.currency, bot.minter, split).value,
                     w.SettleOffer(cx, seller, offerId, held, bot, split, called).value,
                     o.currency, o.amount, seller, bot.minter, split.fee, split.royalty);
  }

  /** An accepted offer pays seller, minter and fee ledger amounts that add up to the offer, out of the
      marketplace's balance; the buyer gets the bot, and no other account sees a change. */
  lemma AcceptPaysExactly(w: World, cx: Context, seller: Address, offerId: U64, called: bool)
    requires Inv(w) && w.m.self !in cx.auth
    ensures var r := w.Accept(cx, seller, offerId, called);
            r.Ok? ==>
              var v, o := r.value, w.m.offers[offerId];
              var bot, held := w.nft.bots[o.botId], w.Holding(seller, o.botId);
              && PaidOut(w, v, o.currency, o.amount, seller, bot.minter, o.amount * w.m.feeBps / Fees.BPS,
                         if bot.minter == seller then 0 else o.amount * w.m.royaltyBps / Fees.BPS)
              && SaleRecorded(w.m, v.m, bot.tier, o.amount)
              && v.m.offers == w.m.CloseOffer(offerId, Accepted).offers
              && v.nft == w.nft.Move(o.botId, o.buyer)
              && held.Ok? && HeldBy(w, seller, o.botId, held.value)
              && AcceptedInto(w.m, v.m, held.value, o.botId, called,
                              OfferAccepted(seller, o.buyer, offerId, o.botId, o.amount))
  {
    if w.Accept(cx, seller, offerId, called).Ok? {
      var o := w.m.offers[offerId];
      var bot := w.nft.bots[o.botId];
      SplitIsFloors(w.m, o.amount, bot.minter == seller);
      HandOverSucceeds(w, cx, seller, o.botId, o.buyer, called);
      SettledOfferPays(w, cx, seller, offerId, w.Holding(seller, o.botId).value, bot,
                       SplitFor(w.m, o.amount, bot.minter == seller), called);
    }
  }

  lemma OfferLegsPay(w: World, cx: Context, seller: Address, c: Address, amount: int, minter: Address, split: Split)
    requires TokensSound(w) && split.Divides(amount)
    requires w.OfferLegs(cx, seller, c, minter, split).Ok?
    ensures var v := w.OfferLegs(cx, seller, c, minter, split).value;
            && v.nft == w.nft && v.m == w.m.(fees := v.m.fees)
            && PaidOut(w, v, c, amount, seller, minter, split.fee, split.royalty)
  {
    PayOutPays(w, cx, c, seller, split.payout);
    var w1 := w.PayOut(cx, c, seller, split.payout).value;
    PayOutPays(w1, cx, c, minter, split.royalty);
  }

  /** `v` is `w` after `buyer` paid `price`, of which `fee` stayed behind and was booked, `minter` got
      `royalty` and `seller` the rest. */
  ghost predicate Bought(w: World, v: World, c: Address, buyer: Address, price: int, seller: Address,
                         minter: Address, fee: int, royalty: int)
  {
    && v.m.FeesAccrued(c) == w.m.FeesAccrued(c) + fee
    && forall a :: BalanceOf(v, c, a) == BalanceOf(w, c, a)
         - (if a == buyer then price else 0)
         + (if a == seller then price - fee - royalty else 0) + (if a == minter then royalty else 0)
         + (if a == w.m.self then fee else 0)
  }

  lemma BoughtElsewhere(w: World, w1: World, w2: World, v: World, c: Address, buyer: Address, price: int,
                        seller: Address, minter: Address, fee: int, royalty: int)
    requires Bought(w1, w2, c, buyer, price, seller, minter, fee, royalty)
    requires w1.tokens == w.tokens && w1.m.fees == w.m.fees && w1.m.self == w.m.self
    requires v.tokens == w2.tokens && v.m.fees == w2.m.fees
    ensures Bought(w, v, c, buyer, price, seller, minter, fee, royalty)
  {
    assert forall a :: BalanceOf(w1, c, a) == BalanceOf(w, c, a) && BalanceOf(v, c, a) == BalanceOf(w2, c, a);
  }

  lemma SettledSalePays(w: World, cx: Context, buyer: Address, id: U64, minter: Address, split: Split, called: bool)
    requires Custody(w) && TokensSound(w) && w.m.IsActive(id) && buyer != w.m.self
    requires split.Divides(w.m.listings[id].price)
    requires w.SettleSale(cx, buyer, id, minter, split, called).Ok?
    ensures var v, l := w.SettleSale(cx, buyer, id, minter, split, called).value, w.m.listings[id];
            && Bought(w, v, l.currency, buyer, l.price, l.seller, minter, split.fee, split.royalty)
            && SaleRecorded(w.m, v.m, l.tier, l.price)
            && Retired(w, v, id, buyer) && v.m.offers == w.m.offers
            && v.m.events == w.m.events + (if called then [Deactivated(l.botId, id)] else [])
                             + [Sold(l.seller, buyer, id, l.botId, l.price, l.currency)]
  {
    var l := w.m.listings[id];
    assert Escrowed(w, l);
    ExitRetires(w, cx, id, buyer, called);
    var w1 := w.MoveBot(cx, l.botId, w.m.self, buyer, called).value;
    SaleLegsPay(w1, cx, buyer, l, minter, split);
    var w2 := w1.SaleLegs(cx, buyer, l, minter, split).value;
    var v := w.SettleSale(cx, buyer, id, minter, split, called).value;
    RetireAfterBooking(w, w1, w2, v, id, buyer, Sold(l.seller, buyer, id, l.botId, l.price, l.currency));
    BoughtElsewhere(w, w1, w2, v, l.currency, buyer, l.price, l.seller, minter, split.fee, split.royalty);
  }

  /** A purchase takes exactly the price from the buyer and splits all of it; the buyer gets the bot,
      the listing closes, and no other account sees a change. */
  lemma BuyPaysExactly(w: World, cx: Context, buyer: Address, id: U64, called: bool)
    requires Inv(w) && w.m.self !in cx.auth
    ensures var r := w.Buy(cx, buyer, id, called);
            r.Ok? ==>
              var v, l := r.value, w.m.listings[id];
              var minter := w.nft.bots[l.botId].minter;
              && Bought(w, v, l.currency, buyer, l.price, l.seller, minter, l.price * w.m.feeBps / Fees.BPS,
                        if minter == l.seller then 0 else l.price * w.m.royaltyBps / Fees.BPS)
              && SaleRecorded(w.m, v.m, l.tier, l.price)
              && Retired(w, v, id, buyer) && v.m.offers == w.m.offers
              && v.m.events == w.m.events + (if called then [Deactivated(l.botId, id)] else [])
                               + [Sold(l.seller, buyer, id, l.botId, l.price, l.currency)]
  {
    if w.Buy(cx, buyer, id, called).Ok? {
      var l := w.m.listings[id];
      assert Escrowed(w, l);
      var minter := w.nft.bots[l.botId].minter;
      SplitIsFloors(w.m, l.price, minter == l.seller);
      SettledSalePays(w, cx, buyer, id, minter, SplitFor(w.m, l.price, minter == l.seller), called);
    }
  }

  lemma SaleLegsPay(w: World, cx: Context, buyer: Address, l: Listing, minter: Address, split: Split)
    requires TokensSound(w) && split.Divides(l.price)
    requires w.SaleLegs(cx, buyer, l, minter, split).Ok?
    ensures var v := w.SaleLegs(cx, buyer, l, minter, split).value;
            && v.nft == w.nft && v.m == w.m.(fees := v.m.fees)
            && Bought(w, v, l.currency, buyer, l.price, l.seller, minter, split.fee, split.royalty)
  {
    var c := l.currency;
    PayPays(w, cx, c, buyer, w.m.self, l.price);
    var w1 := w.Pay(cx, c, buyer, w.m.self, l.price).value;
    PartsPay(w1, cx, l, minter, split);
  }

  /** The three parts of a price that is in: out to the seller, booked, out to the minter. */
  lemma PartsPay(w: World, cx: Context, l: Listing, minter: Address, split: Split)
    requires TokensSound(w) && split.Divides(l.price) && w.PayOut(cx, l.currency, l.seller, split.payout).Ok?
    requires var w2 := w.PayOut(cx, l.currency, l.seller, split.payout).value;
             && w2.m.AccrueFee(l.currency, split.fee).Ok?
             && w2.(m := w2.m.AccrueFee(l.currency, split.fee).value).PayOut(cx, l.currency, minter, split.royalty).Ok?
    ensures var w2 := w.PayOut(cx, l.currency, l.seller, split.payout).value;
            var v := w2.(m := w2.m.AccrueFee(l.currency, split.fee).value)
                       .PayOut(cx, l.currency, minter, split.royalty).value;
            && v.nft == w.nft && v.m == w.m.(fees := v.m.fees)
            && PaidOut(w, v, l.currency, l.price, l.seller, minter, split.fee, split.royalty)
  {
    var c := l.currency;
    PayOutPays(w, cx, c, l.seller, split.payout);
    var w2 := w.PayOut(cx, c, l.seller, split.payout).value;
    var w3 := w2.(m := w2.m.AccrueFee(c, split.fee).value);
    assert forall a :: BalanceOf(w3, c, a) == BalanceOf(w2, c, a);
    PayOutPays(w3, cx, c, minter, split.royalty);
  }

  // ---- offers over runs -----------------------------------------------------------

  predicate Refunds(a: Action, offerId: U64) {
    match a
    case CancelOffer(_, o) => o == offerId
    case Dismiss(_, o) => o == offerId
    case _ => false
  }

  predicate Accepts(a: Action, offerId: U64) {
    a.Accept? && a.offerId == offerId
  }

  lemma RefundPays(w: World, v: World, cx: Context, offerId: U64)
    requires Inv(w) && offerId in w.m.offers && w.m.offers[offerId].status == Active && w.Refund(cx, offerId).Ok?
    requires v.tokens == w.Refund(cx, offerId).value.tokens
    ensures var o := w.m.offers[offerId];
            BalanceOf(v, o.currency, o.buyer) == BalanceOf(w, o.currency, o.buyer) + o.amount
  {
    var o := w.m.offers[offerId];
    PayPays(w, cx, o.currency, w.m.self, o.buyer, o.amount);
  }

  lemma ExitsKeepOffers(w: World, cx: Context, a: Action)
    requires Inv(w) && Admissible(w, cx, a) && (a.Cancel? || a.Reclaim?)
    ensures Step(w, cx, a).m.offers == w.m.offers
  {
    if w.m.IsActive(a.listingId) {
      assert Escrowed(w, w.m.listings[a.listingId]);
      ExitRetires(w, cx, a.listingId, w.m.listings[a.listingId].seller, a.called);
    }
  }

  lemma ListKeepsOffers(w: World, cx: Context, a: Action)
    requires a.List?
    ensures Step(w, cx, a).m.offers == w.m.offers
  {
  }

  lemma NewOfferKeepsOffers(w: World, cx: Context, a: Action, offerId: U64)
    requires Books(w.m) && offerId in w.m.offers && a.MakeOffer?
    ensures offerId in Step(w, cx, a).m.offers && Step(w, cx, a).m.offers[offerId] == w.m.offers[offerId]
  {
  }

  lemma SettingsKeepOffers(w: World, cx: Context, a: Action)
    requires a.Reprice? || a.WithdrawFees? || a.SetFeeBps? || a.SetMinPrice? || a.Configure? || a.SetBotNft?
             || a.CompactPage? || a.TokenCall?
    ensures Step(w, cx, a).m.offers == w.m.offers
  {
  }

  /** Everything but an acceptance, a cancellation or a dismissal leaves existing offers alone. */
  lemma OffersUntouched(w: World, cx: Context, a: Action, offerId: U64)
    requires Inv(w) && Admissible(w, cx, a) && offerId in w.m.offers
    requires !a.Accept? && !a.CancelOffer? && !a.Dismiss?
    ensures offerId in Step(w, cx, a).m.offers && Step(w, cx, a).m.offers[offerId] == w.m.offers[offerId]
  {
    if a.Buy? {
      BuyPaysExactly(w, cx, a.buyer, a.listingId, a.called);
    } else if a.Cancel? || a.Reclaim? {
      ExitsKeepOffers(w, cx, a);
    } else if a.NftCall? {
      OutsideCallbackIsInert(w, cx, a.nftCall, a.called);
    } else if a.List? {
      ListKeepsOffers(w, cx, a);
    } else if a.MakeOffer? {
      NewOfferKeepsOffers(w, cx, a, offerId);
    } else {
      SettingsKeepOffers(w, cx, a);
    }
  }

  lemma AcceptCloses(w: World, cx: Context, a: Action, offerId: U64)
    requires Inv(w) && Admissible(w, cx, a) && offerId in w.m.offers && Accepts(a, offerId)
    ensures var v, o := Step(w, cx, a), w.m.offers[offerId];
            if Apply(w, cx, a).Ok?
            then o.status == Active && v.m.offers == w.m.CloseOffer(offerId, Accepted).offers
            else v == w
  {
    if Apply(w, cx, a).Ok? {
      AcceptPaysExactly(w, cx, a.seller, offerId, a.called);
    }
  }

  lemma RefundCloses(w: World, cx: Context, a: Action, offerId: U64)
    requires Inv(w) && offerId in w.m.offers && Refunds(a, offerId)
    ensures var v, o := Step(w, cx, a), w.m.offers[offerId];
            if Apply(w, cx, a).Ok?
            then o.status == Active && v.m.offers == w.m.CloseOffer(offerId, Cancelled).offers
                 && BalanceOf(v, o.currency, o.buyer) == BalanceOf(w, o.currency, o.buyer) + o.amount
            else v == w
  {
    if Apply(w, cx, a).Ok? {
      RefundPays(w, Step(w, cx, a), cx, offerId);
    }
  }

  /** One step leaves an offer alone, or closes an open one: as cancelled with the whole amount back to
      its buyer, or as accepted (see `AcceptPaysExactly`). Closed offers never change again. */
  lemma OfferLifecycle(w: World, cx: Context, a: Action, offerId: U64)
    requires Inv(w) && Admissible(w, cx, a) && offerId in w.m.offers
    ensures var v, o := Step(w, cx, a), w.m.offers[offerId];
            && offerId in v.m.offers
            && (|| v.m.offers[offerId] == o
                || (&& o.status == Active && v.m.offers[offerId] == o.(status := Cancelled)
                    && Refunds(a, offerId)
                    && BalanceOf(v, o.currency, o.buyer) == BalanceOf(w, o.currency, o.buyer) + o.amount)
                || (&& o.status == Active && v.m.offers[offerId] == o.(status := Accepted)
                    && Accepts(a, offerId) && Apply(w, cx, a).Ok?))
  {
    if !a.Accept? && !a.CancelOffer? && !a.Dismiss? {
      OffersUntouched(w, cx, a, offerId);
    } else if a.offerId !in w.m.offers {
      assert Apply(w, cx, a).Err?;
    } else if a.Accept? {
      AcceptCloses(w, cx, a, a.offerId);
    } else {
      RefundCloses(w, cx, a, a.offerId);
    }
  }

  /** Over any run a closed offer stays closed the way it was: its escrow has left once and for all. */
  lemma {:induction false} ClosedForGood(w: World, steps: seq<(Context, Action)>, offerId: U64)
    requires Inv(w) && AdmissibleRun(w, steps)
    requires offerId in w.m.offers && w.m.offers[offerId].status != Active
    ensures offerId in Run(w, steps).m.offers && Run(w, steps).m.offers[offerId] == w.m.offers[offerId]
    decreases |steps|
  {
    if steps != [] {
      OfferLifecycle(w, steps[0].0, steps[0].1, offerId);
      StepKeeps(w, steps[0].0, steps[0].1);
      ClosedForGood(Step(w, steps[0].0, steps[0].1), steps[1..], offerId);
    }
  }

  // ---- no counter can saturate -----------------------------------------------------

  lemma BotsBounded(n: N.Nft)
    requires n.Sound()
    ensures |n.bots.Keys| <= 5 * N.MAX_TIER_SUPPLY
  {
    var a, b, c := n.TierIds(N.Basic), n.TierIds(N.Bronze), n.TierIds(N.Silver);
    var d, e := n.TierIds(N.Gold), n.TierIds(N.Diamond);
    TiersCover(n);
    UnionSize(a + b + c + d, e);
    UnionSize(a + b + c, d);
    UnionSize(a + b, c);
    UnionSize(a, b);
  }

  lemma TiersCover(n: N.Nft)
    ensures n.bots.Keys == n.TierIds(N.Basic) + n.TierIds(N.Bronze) + n.TierIds(N.Silver) + n.TierIds(N.Gold)
                           + n.TierIds(N.Diamond)
  {
  }

  /** Escrowed bots are distinct live bots and bot_nft caps those, so never more than 250 listings are
      active and the `u32` counters of active listings cannot saturate. */
  lemma ActiveBounded(w: World)
    requires Custody(w) && w.nft.Sound()
    ensures |w.m.ActiveIds()| <= 5 * N.MAX_TIER_SUPPLY
    ensures forall s :: |w.m.ActiveOf(s)| <= |w.m.ActiveIds()|
  {
    var image := map id | id in w.m.ActiveIds() :: w.m.listings[id].botId;
    forall id | id in w.m.ActiveIds()
      ensures image[id] in w.nft.bots.Keys
    {
      assert w.m.IsActive(id) && Escrowed(w, w.m.listings[id]);
    }
    forall i, j | i in w.m.ActiveIds() && j in w.m.ActiveIds() && i != j
      ensures image[i] != image[j]
    {
      assert w.m.IsActive(i) && w.m.IsActive(j);
    }
    InjectionSize(w.m.ActiveIds(), image, w.nft.bots.Keys);
    BotsBounded(w.nft);
    forall s
      ensures |w.m.ActiveOf(s)| <= |w.m.ActiveIds()|
    {
      assert w.m.ActiveOf(s) <= w.m.ActiveIds();
      SubsetSize(w.m.ActiveOf(s), w.m.ActiveIds());
    }
  }
}
