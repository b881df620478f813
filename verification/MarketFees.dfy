/** When a settlement earns the platform a fee: by the rate in force when it settles, not by the one in
    force when the price was accepted. */
module MarketFees {
  import opened Common
  import opened MarketSpec
  import opened MarketLegs
  import opened MarketInv
  import opened MarketTheorems
  import Fees
  import N = NftSpec
  import T = TokenSpec

  // ---- one settlement -------------------------------------------------------------------

  /** A purchase books a fee if and only if the price is at least the default minimum of the rate in
      force at the purchase, whatever the rates and minimums were when it was listed. */
  lemma SaleEarnsFeeIff(w: World, cx: Context, buyer: Address, id: U64, called: bool)
    requires Inv(w) && w.m.self !in cx.auth && w.m.feeBps > 0
    ensures var r := w.Buy(cx, buyer, id, called);
            r.Ok? ==>
              var l := w.m.listings[id];
              r.value.m.FeesAccrued(l.currency) > w.m.FeesAccrued(l.currency)
              <==> l.price >= Fees.DefaultMinPrice(w.m.feeBps)
  {
    if w.Buy(cx, buyer, id, called).Ok? {
      var l := w.m.listings[id];
      BuyPaysExactly(w, cx, buyer, id, called);
      assert Escrowed(w, l);
      Fees.LeastMultiple(w.m.feeBps, l.price);
    }
  }

  /** The same for an accepted offer and its amount. */
  lemma OfferEarnsFeeIff(w: World, cx: Context, seller: Address, offerId: U64, called: bool)
    requires Inv(w) && w.m.self !in cx.auth && w.m.feeBps > 0
    ensures var r := w.Accept(cx, seller, offerId, called);
            r.Ok? ==>
              var o := w.m.offers[offerId];
              r.value.m.FeesAccrued(o.currency) > w.m.FeesAccrued(o.currency)
              <==> o.amount >= Fees.DefaultMinPrice(w.m.feeBps)
  {
    if w.Accept(cx, seller, offerId, called).Ok? {
      var o := w.m.offers[offerId];
      AcceptPaysExactly(w, cx, seller, offerId, called);
      Fees.LeastMultiple(w.m.feeBps, o.amount);
    }
  }

  // ---- runs -----------------------------------------------------------------------------

  /** All prices and amounts that can still settle are at least `least`. */
  ghost predicate PricedFrom(m: Market, least: int) {
    && (forall id :: m.IsActive(id) ==> m.listings[id].price >= least)
    && (forall o :: o in m.offers && m.offers[o].status == Active ==> m.offers[o].amount >= least)
  }

  /** The minimum price a successful call was held to, if it was one that accepts a price. */
  ghost function MinimumUsed(w: World, cx: Context, a: Action): Option<int> {
    if Apply(w, cx, a).Err? then None
    else match a
         case List(_, _, _, currency, _) => Some(w.m.MinPrice(currency))
         case Reprice(_, id, _) => if id in w.m.listings then Some(w.m.MinPrice(w.m.listings[id].currency)) else None
         case MakeOffer(_, _, _, currency, _) => Some(w.m.MinPrice(currency))
         case _ => None
  }

  ghost predicate MinimumsFrom(w: World, steps: seq<(Context, Action)>, least: int)
    decreases |steps|
  {
    steps != [] ==>
      && (MinimumUsed(w, steps[0].0, steps[0].1).Some? ==> MinimumUsed(w, steps[0].0, steps[0].1).value >= least)
      && MinimumsFrom(Step(w, steps[0].0, steps[0].1), steps[1..], least)
  }

  /** Nothing that can settle is new or has changed its price. */
  ghost predicate Fewer(m: Market, n: Market) {
    && (forall id :: n.IsActive(id) ==> m.IsActive(id) && n.listings[id] == m.listings[id])
    && (forall o :: o in n.offers && n.offers[o].status == Active ==> o in m.offers && n.offers[o] == m.offers[o])
  }

  lemma FewerByRetiring(m: Market, n: Market, id: U64)
    requires n.listings == m.Deactivate(id).listings && n.offers == m.offers
    ensures Fewer(m, n)
  {
    forall i | n.IsActive(i)
      ensures m.IsActive(i) && n.listings[i] == m.listings[i]
    {
    }
  }

  lemma FewerBySame(m: Market, n: Market)
    requires n.listings == m.listings && n.offers == m.offers
    ensures Fewer(m, n)
  {
    forall i | n.IsActive(i)
      ensures m.IsActive(i) && n.listings[i] == m.listings[i]
    {
    }
  }

  lemma ExitFewer(w: World, cx: Context, a: Action)
    requires Inv(w) && Admissible(w, cx, a) && (a.Cancel? || a.Reclaim?) && Apply(w, cx, a).Ok?
    ensures Fewer(w.m, Step(w, cx, a).m)
  {
    assert Escrowed(w, w.m.listings[a.listingId]);
    ExitRetires(w, cx, a.listingId, w.m.listings[a.listingId].seller, a.called);
    FewerByRetiring(w.m, Step(w, cx, a).m, a.listingId);
  }

  lemma AcceptFewer(w: World, cx: Context, a: Action)
    requires Inv(w) && Admissible(w, cx, a) && a.Accept? && Apply(w, cx, a).Ok?
    ensures Fewer(w.m, Step(w, cx, a).m)
  {
    AcceptPaysExactly(w, cx, a.seller, a.offerId, a.called);
    var n, held := Step(w, cx, a).m, w.Holding(a.seller, w.m.offers[a.offerId].botId).value;
    if held.Some? {
      FewerByRetiring(w.m, w.m.(listings := n.listings), held.value);
    } else {
      FewerBySame(w.m, w.m.(listings := n.listings));
    }
    FewerByClosing(w.m, n, a.offerId, Accepted);
  }

  lemma FewerByClosing(m: Market, n: Market, offerId: U64, status: OfferStatus)
    requires offerId in m.offers && status != Active && n.offers == m.CloseOffer(offerId, status).offers
    requires Fewer(m, m.(listings := n.listings))
    ensures Fewer(m, n)
  {
    forall i | n.IsActive(i)
      ensures m.IsActive(i) && n.listings[i] == m.listings[i]
    {
      assert m.(listings := n.listings).IsActive(i);
    }
  }

  lemma RefundFewer(w: World, cx: Context, a: Action)
    requires (a.CancelOffer? || a.Dismiss?) && Apply(w, cx, a).Ok?
    ensures Fewer(w.m, Step(w, cx, a).m)
  {
    FewerBySame(w.m, w.m.(listings := Step(w, cx, a).m.listings));
    FewerByClosing(w.m, Step(w, cx, a).m, a.offerId, Cancelled);
  }

  lemma SettingFewer(w: World, cx: Context, a: Action)
    requires a.WithdrawFees? || a.SetFeeBps? || a.SetMinPrice? || a.Configure? || a.SetBotNft?
    ensures Fewer(w.m, Step(w, cx, a).m)
  {
    FewerBySame(w.m, Step(w, cx, a).m);
  }

  lemma OutsideFewer(w: World, cx: Context, a: Action)
    requires Inv(w) && Admissible(w, cx, a) && (a.CompactPage? || a.NftCall? || a.TokenCall?)
    ensures Fewer(w.m, Step(w, cx, a).m)
  {
    if a.NftCall? {
      OutsideCallbackIsInert(w, cx, a.nftCall, a.called);
    }
    FewerBySame(w.m, Step(w, cx, a).m);
  }

  /** Only listing, repricing and offering bring in a price. */
  lemma OthersFewer(w: World, cx: Context, a: Action)
    requires Inv(w) && Admissible(w, cx, a) && !a.List? && !a.Reprice? && !a.MakeOffer?
    ensures Fewer(w.m, Step(w, cx, a).m)
  {
    if Apply(w, cx, a).Err? {
      FewerBySame(w.m, w.m);
    } else if a.Buy? {
      BuyPaysExactly(w, cx, a.buyer, a.listingId, a.called);
      FewerByRetiring(w.m, Step(w, cx, a).m, a.listingId);
    } else if a.Cancel? || a.Reclaim? {
      ExitFewer(w, cx, a);
    } else if a.Accept? {
      AcceptFewer(w, cx, a);
    } else if a.CancelOffer? || a.Dismiss? {
      RefundFewer(w, cx, a);
    } else if a.CompactPage? || a.NftCall? || a.TokenCall? {
      OutsideFewer(w, cx, a);
    } else {
      SettingFewer(w, cx, a);
    }
  }

  lemma FewerPriced(m: Market, n: Market, least: int)
    requires PricedFrom(m, least) && Fewer(m, n)
    ensures PricedFrom(n, least)
  {
  }

  lemma ListedPriced(m: Market, n: Market, id: U64, l: Listing, least: int)
    requires PricedFrom(m, least) && n.listings == m.listings[id := l] && n.offers == m.offers && l.price >= least
    ensures PricedFrom(n, least)
  {
    forall i | n.IsActive(i)
      ensures n.listings[i].price >= least
    {
      assert i == id || m.IsActive(i);
    }
  }

  lemma ListPriced(w: World, cx: Context, a: Action, least: int)
    requires PricedFrom(w.m, least) && a.List? && Apply(w, cx, a).Ok? && w.m.MinPrice(a.currency) >= least
    ensures PricedFrom(Step(w, cx, a).m, least)
  {
    var n := Step(w, cx, a).m;
    ListedPriced(w.m, n, w.m.nextListing, n.listings[w.m.nextListing], least);
  }

  lemma EntryPriced(w: World, cx: Context, a: Action, least: int)
    requires Inv(w) && PricedFrom(w.m, least) && (a.List? || a.Reprice? || a.MakeOffer?) && Apply(w, cx, a).Ok?
    requires MinimumUsed(w, cx, a).Some? && MinimumUsed(w, cx, a).value >= least
    ensures PricedFrom(Step(w, cx, a).m, least)
  {
    if a.List? {
      ListPriced(w, cx, a, least);
    } else {
      var n := Step(w, cx, a).m;
      if a.Reprice? {
        ListedPriced(w.m, n, a.listingId, n.listings[a.listingId], least);
      } else {
        assert forall i :: n.IsActive(i) ==> w.m.IsActive(i);
      }
    }
  }

  lemma StepPriced(w: World, cx: Context, a: Action, least: int)
    requires Inv(w) && Admissible(w, cx, a) && PricedFrom(w.m, least)
    requires MinimumUsed(w, cx, a).Some? ==> MinimumUsed(w, cx, a).value >= least
    ensures PricedFrom(Step(w, cx, a).m, least)
  {
    if (a.List? || a.Reprice? || a.MakeOffer?) && Apply(w, cx, a).Ok? {
      EntryPriced(w, cx, a, least);
    } else if Apply(w, cx, a).Ok? {
      OthersFewer(w, cx, a);
      FewerPriced(w.m, Step(w, cx, a).m, least);
    }
  }

  lemma {:induction false} RunPriced(w: World, steps: seq<(Context, Action)>, least: int)
    requires Inv(w) && AdmissibleRun(w, steps) && PricedFrom(w.m, least) && MinimumsFrom(w, steps, least)
    ensures Inv(Run(w, steps)) && PricedFrom(Run(w, steps).m, least)
    decreases |steps|
  {
    if steps != [] {
      StepPriced(w, steps[0].0, steps[0].1, least);
      StepKeeps(w, steps[0].0, steps[0].1);
      RunPriced(Step(w, steps[0].0, steps[0].1), steps[1..], least);
    }
  }

  /** Where everything is priced from the default minimum of the rate in force, every settlement earns. */
  lemma PricedEarns(w: World, cx: Context, a: Action)
    requires Inv(w) && w.m.self !in cx.auth && w.m.feeBps > 0 && PricedFrom(w.m, Fees.DefaultMinPrice(w.m.feeBps))
    requires (a.Buy? || a.Accept?) && Apply(w, cx, a).Ok?
    ensures Earned(w, Step(w, cx, a), a)
  {
    if a.Buy? {
      SaleEarnsFeeIff(w, cx, a.buyer, a.listingId, a.called);
    } else {
      OfferEarnsFeeIff(w, cx, a.seller, a.offerId, a.called);
    }
  }

  /** The settlement from `w` to `v` booked a fee in its currency. */
  predicate Earned(w: World, v: World, a: Action) {
    match a
    case Buy(_, id, _) =>
      id in w.m.listings && v.m.FeesAccrued(w.m.listings[id].currency) > w.m.FeesAccrued(w.m.listings[id].currency)
    case Accept(_, o, _) =>
      o in w.m.offers && v.m.FeesAccrued(w.m.offers[o].currency) > w.m.FeesAccrued(w.m.offers[o].currency)
    case _ => false
  }

  /** Over any run from the beginning: if every minimum a price was held to is at least the default of the
      rate in force now, every purchase and every acceptance books a fee now. */
  lemma {:induction false} EverySettlementEarns(g: World, steps: seq<(Context, Action)>, cx: Context, a: Action)
    requires Genesis(g) && AdmissibleRun(g, steps) && Run(g, steps).m.self !in cx.auth
    requires Run(g, steps).m.feeBps > 0
    requires MinimumsFrom(g, steps, Fees.DefaultMinPrice(Run(g, steps).m.feeBps))
    requires a.Buy? || a.Accept?
    ensures Apply(Run(g, steps), cx, a).Ok? ==> Earned(Run(g, steps), Step(Run(g, steps), cx, a), a)
  {
    GenesisInv(g);
    RunPriced(g, steps, Fees.DefaultMinPrice(Run(g, steps).m.feeBps));
    if Apply(Run(g, steps), cx, a).Ok? {
      PricedEarns(Run(g, steps), cx, a);
    }
  }

  /** Raising the rate endangers nothing that was accepted at the default. */
  lemma RaisedFeeCovered(before: U32, after: U32)
    requires 0 < before <= after <= Fees.BPS
    ensures Fees.DefaultMinPrice(before) >= Fees.DefaultMinPrice(after)
  {
    var p := Fees.DefaultMinPrice(before);
    Fees.DefaultMinPriceIsLeast(before, p);
    Fees.DefaultMinPriceIsLeast(after, p);
    Fees.BpsOfIsFloor(p, before);
    Fees.BpsOfIsFloor(p, after);
    Fees.FloorGrows(p, before, after);
  }

  // ---- two runs that earn nothing ---------------------------------------------------------

  const MARKET := Address([0])
  const ADMIN := Address([1])
  const SELLER := Address([2])
  const BUYER := Address([3])
  const COIN := Address([4])

  function Signed(who: Address): Context {
    Context({who}, 0, 0)
  }

  /** A shop at 250 basis points, a seller with one bot, a buyer with 100 coins. */
  function Shop(minPrices: map<Address, I128>): World {
    World(Market(MARKET, ADMIN, 250, 0, false, 50, minPrices, {COIN}, map[], 1, [], map[], 1, map[], map[], []),
          N.Nft(ADMIN, map[1 := N.Bot(N.Basic, SELLER, SELLER, 0)], map[], {}, 2, map[], map[]),
          map[COIN := T.Token(ADMIN, false, map[BUYER := 100], 100, None, map[], None, None)])
  }

  function ForSale(price: I128): Listing {
    Listing(SELLER, 1, N.Basic, price, COIN, 0, MIN_DURATION, true)
  }

  /** The shop with its one bot listed. */
  function Stocked(minPrices: map<Address, I128>, price: I128): World {
    var w := Shop(minPrices);
    w.(m := w.m.(listings := map[1 := ForSale(price)], nextListing := 2, pages := [[1]])
               .Emit(Listed(SELLER, 1, 1, price, COIN)),
       nft := w.nft.Move(1, MARKET))
  }

  lemma Different()
    ensures MARKET != ADMIN && MARKET != SELLER && MARKET != BUYER && SELLER != BUYER && SELLER != ADMIN
  {
    assert MARKET.xdr[0] == 0 && ADMIN.xdr[0] == 1 && SELLER.xdr[0] == 2 && BUYER.xdr[0] == 3;
  }

  lemma ShopLists(minPrices: map<Address, I128>, price: I128)
    requires price > 0 && price >= Shop(minPrices).m.MinPrice(COIN)
    ensures Step(Shop(minPrices), Signed(SELLER), List(SELLER, 1, price, COIN, MIN_DURATION))
         == Stocked(minPrices, price)
    ensures MinimumUsed(Shop(minPrices), Signed(SELLER), List(SELLER, 1, price, COIN, MIN_DURATION))
         == Some(Shop(minPrices).m.MinPrice(COIN))
  {
    var w := Shop(minPrices);
    Different();
    assert w.m.ActiveOf(SELLER) == {};
    assert w.MoveBot(Signed(SELLER), 1, SELLER, MARKET, false) == Ok(w.(nft := w.nft.Move(1, MARKET)));
    assert AppendListing([], 1) == Ok([[1]]) by {
      assert [] + [[1]] == [[1]];
    }
    assert map[][1 := ForSale(price)] == map[1 := ForSale(price)];
  }

  /** Whatever the listing cost to accept, at a rate that gives it no fee the sale succeeds and books none. */
  lemma ShopSells(minPrices: map<Address, I128>, price: I128, feeBps: U32)
    requires 0 < price <= 100 && feeBps <= Fees.BPS && Fees.BpsOf(price, feeBps) == Ok(0)
    ensures var w := Stocked(minPrices, price);
            var now := w.(m := w.m.(feeBps := feeBps));
            && Apply(now, Signed(BUYER), Buy(BUYER, 1, false)).Ok?
            && Step(now, Signed(BUYER), Buy(BUYER, 1, false)).m.FeesAccrued(COIN) == 0
  {
    var w := Stocked(minPrices, price);
    var now := w.(m := w.m.(feeBps := feeBps));
    Different();
    Fees.BpsOfIsFloor(price, 0);
    var split := Split(0, 0, price);
    assert SplitOf(price, feeBps, 0, true) == Ok(split);
    assert now.Buy(Signed(BUYER), BUYER, 1, false) == now.SettleSale(Signed(BUYER), BUYER, 1, SELLER, split, false);
    ShopSettles(now, price, split);
  }

  lemma ShopSettles(w: World, price: I128, split: Split)
    requires 0 < price <= 100 && split == Split(0, 0, price)
    requires w.m.self == MARKET && w.m.listings == map[1 := ForSale(price)] && w.m.fees == map[] && w.m.sales == map[]
    requires w.nft == Shop(map[]).nft.Move(1, MARKET) && w.tokens == Shop(map[]).tokens
    ensures var r := w.SettleSale(Signed(BUYER), BUYER, 1, SELLER, split, false);
            r.Ok? && r.value.m.FeesAccrued(COIN) == 0
  {
    Different();
    var cx := Signed(BUYER);
    var w1 := w.MoveBot(cx, 1, MARKET, BUYER, false).value;
    assert w1.m == w.m && w1.tokens == w.tokens;
    var w2 := w1.Pay(cx, COIN, BUYER, MARKET, price);
    assert w2.Ok? && w2.value.m == w.m && w2.value.tokens[COIN].Balance(MARKET) == price;
    var w3 := w2.value.PayOut(cx, COIN, SELLER, price);
    assert w3.Ok? && w3.value.m == w.m;
    assert w1.SaleLegs(cx, BUYER, ForSale(price), SELLER, split) == w3;
  }

  lemma {:induction false} RunTwo(w: World, steps: seq<(Context, Action)>)
    requires |steps| == 2
    ensures Run(w, steps) == Step(Step(w, steps[0].0, steps[0].1), steps[1].0, steps[1].1)
  {
    var v := Step(w, steps[0].0, steps[0].1);
    assert steps[1..] == [steps[1]] && steps[1..][1..] == [];
    assert Run(v, steps[1..]) == Run(Step(v, steps[1].0, steps[1].1), []);
  }

  /** A purchase in world `w` that succeeds and books nothing. */
  ghost predicate SellsForNoFee(w: World) {
    && Apply(w, Signed(BUYER), Buy(BUYER, 1, false)).Ok?
    && Step(w, Signed(BUYER), Buy(BUYER, 1, false)).m.FeesAccrued(COIN) == 0
  }

  lemma ShopMinimum()
    ensures Shop(map[]).m.MinPrice(COIN) == 40
    ensures Fees.BpsOf(40, 250) == Ok(1) && Fees.BpsOf(40, 100) == Ok(0)
  {
  }

  /** A fee lowered after listing: 40 is the default minimum at 250, accepted as such, and earns nothing
      at 100. */
  lemma {:induction false} LoweredFeeEarnsNothing(steps: seq<(Context, Action)>)
    requires steps == [(Signed(SELLER), List(SELLER, 1, 40, COIN, MIN_DURATION)), (Signed(ADMIN), SetFeeBps(100))]
    ensures Genesis(Shop(map[])) && Shop(map[]).m.MinPrice(COIN) == 40 && Fees.BpsOf(40, 250) == Ok(1)
    ensures Run(Shop(map[]), steps).m.feeBps == 100 && SellsForNoFee(Run(Shop(map[]), steps))
  {
    ShopMinimum();
    ShopIsGenesis(map[]);
    ShopLists(map[], 40);
    RunTwo(Shop(map[]), steps);
    ShopSells(map[], 40, 100);
    AdminSetsFee(Stocked(map[], 40), 100);
  }

  lemma AdminSetsFee(w: World, feeBps: U32)
    requires w.m.admin == ADMIN && feeBps + w.m.royaltyBps <= Fees.BPS
    ensures Step(w, Signed(ADMIN), SetFeeBps(feeBps)) == w.(m := w.m.(feeBps := feeBps))
  {
  }

  /** A minimum set by hand: 1 is accepted at 250 and earns nothing, at the same rate. */
  lemma {:induction false} LowMinimumEarnsNothing(steps: seq<(Context, Action)>)
    requires steps == [(Signed(ADMIN), SetMinPrice(COIN, 1)), (Signed(SELLER), List(SELLER, 1, 1, COIN, MIN_DURATION))]
    ensures Genesis(Shop(map[]))
    ensures Run(Shop(map[]), steps).m.feeBps == 250 && SellsForNoFee(Run(Shop(map[]), steps))
  {
    ShopIsGenesis(map[]);
    AdminSetsMinimum(1);
    ShopLists(map[COIN := 1], 1);
    RunTwo(Shop(map[]), steps);
    SameRate(Stocked(map[COIN := 1], 1));
    ShopSells(map[COIN := 1], 1, 250);
  }

  lemma SameRate(w: World)
    ensures w.(m := w.m.(feeBps := w.m.feeBps)) == w
  {
  }

  lemma AdminSetsMinimum(minPrice: I128)
    requires minPrice > 0
    ensures Step(Shop(map[]), Signed(ADMIN), SetMinPrice(COIN, minPrice)) == Shop(map[COIN := minPrice])
  {
    assert map[][COIN := minPrice] == map[COIN := minPrice];
  }

  lemma ShopIsGenesis(minPrices: map<Address, I128>)
    ensures Genesis(Shop(minPrices))
  {
    var w := Shop(minPrices);
    TotalUpdate(map[], BUYER, 100);
    assert w.tokens[COIN].balances == map[][BUYER := 100];
    assert w.nft.TierIds(N.Basic) == {1};
    forall t | t != N.Basic
      ensures w.nft.TierIds(t) == {}
    {
    }
  }
}
