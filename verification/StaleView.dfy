/** The run in which the indexer's view goes wrong: a listed bot changes hands through an accepted offer,
    bot_nft's callback does not arrive, and the listing stays in the view for ever. */
module StaleView {
  import opened Common
  import opened MarketSpec
  import opened MarketInv
  import opened MarketTheorems
  import opened MarketFees
  import opened Projection
  import Fees
  import N = NftSpec
  import T = TokenSpec

  const DEADLINE := 86_400

  function Bid(status: OfferStatus): Offer {
    Offer(BUYER, 1, 40, COIN, 0, DEADLINE, status)
  }

  /** The stocked shop with an offer of 40 for its listed bot. */
  function BidOn(): World {
    var w := Stocked(map[], 40);
    w.(m := w.m.(offers := map[1 := Bid(Active)], nextOffer := 2).Emit(Offered(BUYER, 1, 1, 40, DEADLINE)),
       tokens := map[COIN := w.tokens[COIN].(balances := map[BUYER := 60, MARKET := 40])])
  }

  lemma ShopTakesBid(w: World)
    requires w == Stocked(map[], 40)
    ensures Step(w, Signed(BUYER), MakeOffer(BUYER, 1, 40, COIN, DEADLINE)) == BidOn()
  {
    Different();
    ShopMinimum();
    assert w.m.IsActive(1) && w.EffectiveOwner(1) == SELLER;
    assert w.m.OpenOffers(1) == {};
    assert map[][1 := Bid(Active)] == map[1 := Bid(Active)];
    assert map[BUYER := 100][BUYER := 60][MARKET := 40] == map[BUYER := 60, MARKET := 40];
  }

  lemma BidDivides()
    ensures SplitOf(40, 250, 0, true) == Ok(Split(1, 0, 39))
  {
    ShopMinimum();
    Fees.BpsOfIsFloor(40, 0);
  }

  lemma BidHolder(w: World)
    requires w == BidOn()
    ensures w.m.IsActive(1) && w.Holding(SELLER, 1) == Ok(Some(1))
  {
    Different();
    assert w.m.IsActive(1);
  }

  lemma ShopPaysBid(w: World)
    requires w.m.self == MARKET && w.tokens == BidOn().tokens && w.m.fees == map[]
    ensures var r := w.OfferLegs(Signed(SELLER), SELLER, COIN, SELLER, Split(1, 0, 39));
            r.Ok? && r.value.m.sales == w.m.sales && r.value.m.offers == w.m.offers
  {
    Different();
    assert w.PayOut(Signed(SELLER), COIN, SELLER, 39).Ok?;
  }

  lemma BidSettles(w: World, cx: Context)
    requires w == BidOn() && cx == Signed(SELLER)
    ensures w.Accept(cx, SELLER, 1, false)
         == w.SettleOffer(cx, SELLER, 1, Some(1), N.Bot(N.Basic, MARKET, SELLER, 0), Split(1, 0, 39), false)
  {
    Different();
    BidDivides();
    BidHolder(w);
  }

  lemma BidHandsOver(w: World)
    requires w.m.self == MARKET && 1 in w.nft.bots && w.nft.bots[1].owner == MARKET
    ensures w.HandOver(Signed(SELLER), SELLER, Some(1), 1, BUYER, false)
         == Ok(w.(nft := w.nft.Move(1, BUYER), m := w.m.Deactivate(1)))
  {
    Different();
  }

  lemma LegsSettle(w: World, w1: World, bot: N.Bot, split: Split)
    requires 1 in w.m.offers && w.m.offers[1] == Bid(Active)
    requires w.HandOver(Signed(SELLER), SELLER, Some(1), 1, BUYER, false) == Ok(w1)
    requires w1.OfferLegs(Signed(SELLER), SELLER, COIN, bot.minter, split).Ok?
    requires w1.OfferLegs(Signed(SELLER), SELLER, COIN, bot.minter, split).value.m.sales == map[]
    ensures w.SettleOffer(Signed(SELLER), SELLER, 1, Some(1), bot, split, false).Ok?
  {
  }

  lemma ShopAcceptsBid(w: World)
    requires w == BidOn()
    ensures w.Accept(Signed(SELLER), SELLER, 1, false).Ok?
  {
    var w1 := w.(nft := w.nft.Move(1, BUYER), m := w.m.Deactivate(1));
    BidSettles(w, Signed(SELLER));
    BidHandsOver(w);
    ShopPaysBid(w1);
    LegsSettle(w, w1, N.Bot(N.Basic, MARKET, SELLER, 0), Split(1, 0, 39));
  }

  /** List, offer, accept: the last step alone can retire a listing silently. */
  lemma {:induction false} SilentAtTheEnd(w: World, w1: World, w2: World, steps: seq<(Context, Action)>)
    requires |steps| == 3 && !steps[0].1.Accept? && !steps[1].1.Accept?
    requires Step(w, steps[0].0, steps[0].1) == w1 && Step(w1, steps[1].0, steps[1].1) == w2
    requires Admissible(w, steps[0].0, steps[0].1) && Admissible(w1, steps[1].0, steps[1].1)
    requires Admissible(w2, steps[2].0, steps[2].1)
    ensures AdmissibleRun(w, steps) && Silent(w, steps) == SilentIn(w2, steps[2].0, steps[2].1)
  {
    var two, three := steps[1..], steps[2..];
    assert two[0] == steps[1] && two[1..] == three && three[0] == steps[2] && three[1..] == [];
    var w3 := Step(w2, steps[2].0, steps[2].1);
    assert AdmissibleRun(w3, []) && AdmissibleRun(w2, three) && AdmissibleRun(w1, two);
    assert Silent(w3, []) == {} && Silent(w2, three) == SilentIn(w2, steps[2].0, steps[2].1);
    assert Silent(w1, two) == Silent(w2, three);
  }

  lemma AcceptedSilently(w: World, cx: Context, a: Action, id: U64)
    requires a.Accept? && !a.called && Apply(w, cx, a).Ok?
    requires w.Holding(a.seller, w.m.offers[a.offerId].botId) == Ok(Some(id))
    ensures SilentIn(w, cx, a) == {id}
  {
  }

  lemma BidSoldSilently(w: World, cx: Context, a: Action)
    requires w == BidOn() && cx == Signed(SELLER) && a == Accept(SELLER, 1, false)
    ensures SilentIn(w, cx, a) == {1}
  {
    ShopAcceptsBid(w);
    BidHolder(w);
    AcceptedSilently(w, cx, a, 1);
  }

  /** The shop's bot listed at 40, an offer of 40 for it, and the offer accepted without the callback. */
  function SilentSale(): seq<(Context, Action)> {
    [(Signed(SELLER), List(SELLER, 1, 40, COIN, MIN_DURATION)),
     (Signed(BUYER), MakeOffer(BUYER, 1, 40, COIN, DEADLINE)),
     (Signed(SELLER), Accept(SELLER, 1, false))]
  }

  lemma {:induction false} ShopSellsSilently(w: World, steps: seq<(Context, Action)>)
    requires w == Shop(map[]) && steps == SilentSale()
    ensures AdmissibleRun(w, steps) && Silent(w, steps) == {1}
  {
    var w1, w2 := Stocked(map[], 40), BidOn();
    Different();
    ShopMinimum();
    ShopLists(map[], 40);
    ShopTakesBid(w1);
    BidSoldSilently(w2, steps[2].0, steps[2].1);
    SilentAtTheEnd(w, w1, w2, steps);
  }

  /** After that nothing is for sale any more, and the view still offers the listing. */
  lemma {:induction false} SoldListingStaysInView(w: World, steps: seq<(Context, Action)>)
    requires w == Shop(map[]) && steps == SilentSale()
    ensures Genesis(w) && AdmissibleRun(w, steps) && Silent(w, steps) == {1}
    ensures 1 in ShownIds(Run(w, steps).m) && !Run(w, steps).m.IsActive(1)
  {
    ShopIsGenesis(map[]);
    ShopSellsSilently(w, steps);
    ViewIsActivePlusSilent(w, steps);
    assert 1 in Silent(w, steps) && 1 !in Run(w, steps).m.ActiveIds();
  }
}
