/** The joint invariant of marketplace, bot_nft and the token ledgers, kept by every step of every
    party: custody of escrowed bots, solvency in every currency, exact books. */
module MarketInv {
  import opened Common
  import opened IdLists
  import opened MarketSpec
  import opened MarketLegs
  import Fees
  import N = NftSpec
  import T = TokenSpec
  import TR = TokenRuns

  /** Rates within 100 %, ids below their counters, open offers positive and not the contract's own. */
  ghost predicate Books(m: Market) {
    && m.feeBps + m.royaltyBps <= Fees.BPS
    && m.nextListing >= 1
    && (forall id :: id in m.listings ==> 1 <= id < m.nextListing)
    && (forall o :: o in m.offers ==> o < m.nextOffer)
    && (forall o :: o in m.offers && m.offers[o].status == Active ==>
          m.offers[o].amount > 0 && m.offers[o].buyer != m.self)
    && (forall c :: c in m.fees ==> m.fees[c] >= 0)
  }

  ghost predicate Solvent(w: World) {
    forall c :: Surplus(w, c) >= 0
  }

  function Flatten(pages: seq<seq<U64>>): seq<U64>
    decreases |pages|
  {
    if pages == [] then [] else Flatten(pages[..|pages| - 1]) + pages[|pages| - 1]
  }

  /** The concatenated pages are strictly ascending, stay below the counter and miss no active id. */
  ghost predicate Paged(m: Market) {
    && Ascending(Flatten(m.pages))
    && (forall x :: x in Flatten(m.pages) ==> x < m.nextListing)
    && (forall id :: m.IsActive(id) ==> id in Flatten(m.pages))
    && (forall p :: 0 <= p < |m.pages| ==> |m.pages[p]| <= LISTING_PAGE_SIZE)
  }

  ghost predicate Inv(w: World) {
    && Custody(w)
    && w.nft.Sound()
    && TokensSound(w)
    && Books(w.m)
    && Paged(w.m)
    && Solvent(w)
  }

  /** A bot_nft deployment in a sound state in which `self` has granted no operator. */
  ghost predicate Trusted(self: Address, nft: N.Nft) {
    nft.Sound() && forall x :: (self, x) !in nft.operators
  }

  /** The trust assumptions on one step: the marketplace signs nothing itself, and an admin only
      rotates to a bot_nft deployment in which it has granted no operator. */
  ghost predicate Admissible(w: World, cx: Context, a: Action) {
    && w.m.self !in cx.auth
    && (a.SetBotNft? ==> Trusted(w.m.self, a.next))
  }

  /** What every step guarantees: the invariant, and no currency's surplus ever shrinks. */
  ghost predicate Keeps(w: World, v: World) {
    && Inv(v)
    && v.m.self == w.m.self
    && forall c :: Surplus(v, c) >= Surplus(w, c)
  }

  /** The parts of the invariant that only look at the marketplace's own records. */
  lemma SolventByGrowth(w: World, v: World)
    requires Solvent(w) && forall c :: Surplus(v, c) >= Surplus(w, c)
    ensures Solvent(v)
  {
    forall c
      ensures Surplus(v, c) >= 0
    {
      assert Surplus(w, c) >= 0;
    }
  }

  // ---- exits ------------------------------------------------------------------

  /** `v` is `w` after listing `id` retired and its bot went to `to`, as far as bots, listings, pages
      and offers are concerned. */
  ghost predicate Retired(w: World, v: World, id: U64, to: Address) {
    && w.m.IsActive(id) && w.m.listings[id].botId in w.nft.bots
    && v.m == w.m.(listings := w.m.Deactivate(id).listings, fees := v.m.fees, sales := v.m.sales,
                   offers := v.m.offers, events := v.m.events)
    && v.nft == w.nft.Move(w.m.listings[id].botId, to)
  }

  lemma RetiredKeeps(w: World, v: World, id: U64, to: Address)
    requires Inv(w) && w.m.IsActive(id) && w.m.listings[id].botId in w.nft.bots && to != w.m.self
    requires Retired(w, v, id, to)
    ensures Custody(v) && v.nft.Sound() && Paged(v.m)
  {
    RetireKeepsCustody(w, v, id, to);
    N.MoveSound(w.nft, w.m.listings[id].botId, to);
    assert forall i :: v.m.IsActive(i) ==> w.m.IsActive(i);
  }

  /** Books stay in order when no id is new and no offer opens. */
  lemma BooksAfter(m: Market, n: Market)
    requires Books(m) && n.self == m.self && n.feeBps == m.feeBps && n.royaltyBps == m.royaltyBps
    requires n.nextListing == m.nextListing && n.nextOffer == m.nextOffer
    requires n.listings.Keys == m.listings.Keys && n.offers.Keys == m.offers.Keys
    requires forall o :: o in n.offers && n.offers[o].status == Active ==> n.offers[o] == m.offers[o]
    requires forall c :: c in n.fees ==> n.fees[c] >= 0
    ensures Books(n)
  {
  }

  lemma RetiredBooks(m: Market, n: Market, id: U64)
    requires Books(m) && n.self == m.self && n.feeBps == m.feeBps && n.royaltyBps == m.royaltyBps
    requires n.nextListing == m.nextListing && n.nextOffer == m.nextOffer && n.offers == m.offers
    requires n.listings == m.Deactivate(id).listings
    requires forall c :: c in n.fees ==> n.fees[c] >= 0
    ensures Books(n)
  {
    assert n.listings.Keys == m.listings.Keys;
    BooksAfter(m, n);
  }

  lemma ClosedOfferBooks(m: Market, n: Market, id: U64, status: OfferStatus)
    requires Books(m) && n.self == m.self && n.feeBps == m.feeBps && n.royaltyBps == m.royaltyBps
    requires n.nextListing == m.nextListing && n.nextOffer == m.nextOffer && n.listings == m.listings
    requires id in m.offers && status != Active && n.offers == m.CloseOffer(id, status).offers
    requires forall c :: c in n.fees ==> n.fees[c] >= 0
    ensures Books(n)
  {
    assert n.offers.Keys == m.offers.Keys;
    BooksAfter(m, n);
  }

  lemma ReturnKeeps(w: World, v: World, cx: Context, id: U64, to: Address, called: bool, e: Event)
    requires Inv(w) && w.m.IsActive(id) && to != w.m.self
    requires w.MoveBot(cx, w.m.listings[id].botId, w.m.self, to, called).Ok?
    requires var u := w.MoveBot(cx, w.m.listings[id].botId, w.m.self, to, called).value;
             v == u.(m := u.m.Deactivate(id).Emit(e))
    ensures Keeps(w, v)
  {
    ExitRetires(w, cx, id, to, called);
    RetiredKeeps(w, v, id, to);
    RetiredBooks(w.m, v.m, id);
    assert forall c :: Surplus(v, c) == Surplus(w, c);
  }

  lemma CancelKeeps(w: World, cx: Context, seller: Address, id: U64, called: bool)
    requires Inv(w) && w.m.self !in cx.auth
    ensures w.Cancel(cx, seller, id, called).Ok? ==> Keeps(w, w.Cancel(cx, seller, id, called).value)
  {
    if w.Cancel(cx, seller, id, called).Ok? {
      ReturnKeeps(w, w.Cancel(cx, seller, id, called).value, cx, id, seller, called,
                  ListingCancelled(seller, id, w.m.listings[id].botId));
    }
  }

  lemma ReclaimKeeps(w: World, cx: Context, id: U64, called: bool)
    requires Inv(w) && w.m.self !in cx.auth
    ensures w.Reclaim(cx, id, called).Ok? ==> Keeps(w, w.Reclaim(cx, id, called).value)
  {
    if w.Reclaim(cx, id, called).Ok? {
      assert Escrowed(w, w.m.listings[id]);
      ReturnKeeps(w, w.Reclaim(cx, id, called).value, cx, id, w.m.listings[id].seller, called,
                  Reclaimed(w.m.listings[id].seller, id, w.m.listings[id].botId));
    }
  }

  // ---- sales ------------------------------------------------------------------

  /** What the marketplace holds beyond the fees it has booked. */
  function Free(w: World, c: Address): int {
    Held(w, c) - w.m.FeesAccrued(c)
  }

  ghost predicate FeesNonnegative(m: Market) {
    forall c :: c in m.fees ==> m.fees[c] >= 0
  }

  /** Legs that touch only token balances and the fee ledger, changing what is free in currency `c`
      by `change` (or by less than was taken, when the contract pays a leg to itself). */
  ghost predicate LegsOnly(w: World, v: World, c: Address, change: int, exact: bool) {
    && v.m == w.m.(fees := v.m.fees) && v.nft == w.nft
    && TokensSound(v) && FeesNonnegative(v.m)
    && (forall d :: Free(v, d) >= Free(w, d) + if d == c then change else 0)
    && (exact ==> forall d :: Free(v, d) == Free(w, d) + if d == c then change else 0)
  }

  lemma LegsCompose(w: World, u: World, v: World, c: Address, x: int, y: int, e1: bool, e2: bool)
    requires LegsOnly(w, u, c, x, e1) && LegsOnly(u, v, c, y, e2)
    ensures LegsOnly(w, v, c, x + y, e1 && e2)
  {
  }

  lemma PayInLeg(w: World, cx: Context, c: Address, from: Address, amount: I128)
    requires TokensSound(w) && FeesNonnegative(w.m) && from != w.m.self && amount >= 0
    requires w.Pay(cx, c, from, w.m.self, amount).Ok?
    ensures LegsOnly(w, w.Pay(cx, c, from, w.m.self, amount).value, c, amount, true)
  {
    PayMoves(w, cx, c, from, w.m.self, amount);
  }

  lemma PayOutLeg(w: World, cx: Context, c: Address, to: Address, amount: I128)
    requires TokensSound(w) && FeesNonnegative(w.m) && amount >= 0
    requires w.PayOut(cx, c, to, amount).Ok?
    ensures LegsOnly(w, w.PayOut(cx, c, to, amount).value, c, -amount, to != w.m.self)
  {
    PayOutMoves(w, cx, c, to, amount);
  }

  /** A fee that is accrued is a fee that is owed, no more. */
  lemma AccrueLeg(w: World, c: Address, fee: I128)
    requires TokensSound(w) && FeesNonnegative(w.m) && fee >= 0 && w.m.AccrueFee(c, fee).Ok?
    ensures LegsOnly(w, w.(m := w.m.AccrueFee(c, fee).value), c, -fee, true)
  {
    var v := w.(m := w.m.AccrueFee(c, fee).value);
    assert forall d :: Held(v, d) == Held(w, d);
  }

  /** The legs of a purchase leave in the contract exactly the fee they book. */
  lemma SaleLegsBalance(w: World, cx: Context, buyer: Address, l: Listing, minter: Address, split: Split)
    requires TokensSound(w) && FeesNonnegative(w.m) && buyer != w.m.self && split.Divides(l.price)
    ensures w.SaleLegs(cx, buyer, l, minter, split).Ok? ==>
              LegsOnly(w, w.SaleLegs(cx, buyer, l, minter, split).value, l.currency, 0,
                       l.seller != w.m.self && minter != w.m.self)
  {
    if w.SaleLegs(cx, buyer, l, minter, split).Ok? {
      var c := l.currency;
      PayInLeg(w, cx, c, buyer, l.price);
      var w1 := w.Pay(cx, c, buyer, w.m.self, l.price).value;
      PayOutLeg(w1, cx, c, l.seller, split.payout);
      var w2 := w1.PayOut(cx, c, l.seller, split.payout).value;
      AccrueLeg(w2, c, split.fee);
      var w3 := w2.(m := w2.m.AccrueFee(c, split.fee).value);
      PayOutLeg(w3, cx, c, minter, split.royalty);
      var w4 := w3.PayOut(cx, c, minter, split.royalty).value;
      LegsCompose(w, w1, w2, c, l.price, -split.payout, true, l.seller != w.m.self);
      LegsCompose(w, w2, w3, c, l.price - split.payout, -split.fee, l.seller != w.m.self, true);
      LegsCompose(w, w3, w4, c, l.price - split.payout - split.fee, -split.royalty,
                  l.seller != w.m.self, minter != w.m.self);
    }
  }

  /** The legs of an acceptance take exactly the offered amount out of what is free. */
  lemma OfferLegsBalance(w: World, cx: Context, seller: Address, c: Address, minter: Address,
                         split: Split, amount: int)
    requires TokensSound(w) && FeesNonnegative(w.m) && split.Divides(amount)
    ensures w.OfferLegs(cx, seller, c, minter, split).Ok? ==>
              LegsOnly(w, w.OfferLegs(cx, seller, c, minter, split).value, c, -amount,
                       seller != w.m.self && minter != w.m.self)
  {
    if w.OfferLegs(cx, seller, c, minter, split).Ok? {
      PayOutLeg(w, cx, c, seller, split.payout);
      var w1 := w.PayOut(cx, c, seller, split.payout).value;
      PayOutLeg(w1, cx, c, minter, split.royalty);
      var w2 := w1.PayOut(cx, c, minter, split.royalty).value;
      AccrueLeg(w2, c, split.fee);
      var w3 := w2.(m := w2.m.AccrueFee(c, split.fee).value);
      LegsCompose(w, w1, w2, c, -split.payout, -split.royalty, seller != w.m.self, minter != w.m.self);
      LegsCompose(w, w2, w3, c, -split.payout - split.royalty, -split.fee,
                  seller != w.m.self && minter != w.m.self, true);
    }
  }

  /** Fees and sales may be booked before or after a listing retires. */
  lemma RetireAfterBooking(w: World, w1: World, w2: World, v: World, id: U64, to: Address, e: Event)
    requires Custody(w) && w.m.IsActive(id)
    requires w1.m.Deactivate(id) == w.m.Deactivate(id).(events := w1.m.events)
    requires w1.nft == w.nft.Move(w.m.listings[id].botId, to)
    requires w2.m == w1.m.(fees := w2.m.fees) && w2.nft == w1.nft
    requires v.m == w2.m.(sales := v.m.sales).Deactivate(id).Emit(e) && v.nft == w2.nft
    ensures Retired(w, v, id, to) && v.m.offers == w.m.offers && v.m.fees == w2.m.fees
  {
    assert w2.m.(sales := v.m.sales).Deactivate(id) == w1.m.Deactivate(id).(fees := w2.m.fees, sales := v.m.sales);
  }

  /** The states of a settled sale: bot moved, legs paid, sale recorded and listing retired. */
  lemma SaleStates(w: World, w1: World, w2: World, v: World, id: U64, buyer: Address, split: Split, e: Event)
    requires Custody(w) && TokensSound(w) && FeesNonnegative(w.m) && w.m.IsActive(id)
    requires w1.m.Deactivate(id) == w.m.Deactivate(id).(events := w1.m.events) && w1.m.offers == w.m.offers
    requires w1.m.self == w.m.self && w1.m.fees == w.m.fees && w1.tokens == w.tokens
    requires w1.nft == w.nft.Move(w.m.listings[id].botId, buyer)
    requires LegsOnly(w1, w2, w.m.listings[id].currency, 0, false)
    requires v.m == w2.m.(sales := v.m.sales).Deactivate(id).Emit(e) && v.nft == w2.nft && v.tokens == w2.tokens
    ensures Retired(w, v, id, buyer) && v.m.offers == w.m.offers
    ensures TokensSound(v) && FeesNonnegative(v.m) && forall c :: Surplus(v, c) >= Surplus(w, c)
  {
    RetireAfterBooking(w, w1, w2, v, id, buyer, e);
    SameBooks(w, w1, w2, v);
  }

  /** A purchase retires the listing, hands the bot to the buyer, and closes no offer. */
  lemma SaleSettles(w: World, cx: Context, buyer: Address, id: U64, minter: Address, split: Split, called: bool)
    requires Custody(w) && TokensSound(w) && FeesNonnegative(w.m) && w.m.IsActive(id) && buyer != w.m.self
    requires split.Divides(w.m.listings[id].price)
    ensures var r := w.SettleSale(cx, buyer, id, minter, split, called);
            r.Ok? ==>
              && Retired(w, r.value, id, buyer) && r.value.m.offers == w.m.offers
              && TokensSound(r.value) && FeesNonnegative(r.value.m)
              && forall c :: Surplus(r.value, c) >= Surplus(w, c)
  {
    var l := w.m.listings[id];
    var r := w.SettleSale(cx, buyer, id, minter, split, called);
    if r.Ok? {
      ExitRetires(w, cx, id, buyer, called);
      var w1 := w.MoveBot(cx, l.botId, w.m.self, buyer, called).value;
      SaleLegsBalance(w1, cx, buyer, l, minter, split);
      var w2 := w1.SaleLegs(cx, buyer, l, minter, split).value;
      SaleStates(w, w1, w2, r.value, id, buyer, split, Sold(l.seller, buyer, id, l.botId, l.price, l.currency));
    }
  }

  /** Surplus is what is free less open escrow: steps around the legs change neither. */
  lemma SameBooks(w: World, w1: World, w2: World, v: World)
    requires w1.m.self == w.m.self && w1.tokens == w.tokens && w1.m.fees == w.m.fees
    requires forall c :: Free(w2, c) >= Free(w1, c)
    requires v.m.self == w2.m.self && v.tokens == w2.tokens && v.m.fees == w2.m.fees
    requires v.m.offers == w.m.offers
    ensures forall c :: Surplus(v, c) >= Surplus(w, c)
  {
    forall c
      ensures Surplus(v, c) >= Surplus(w, c)
    {
      assert Free(w1, c) == Free(w, c) && Free(v, c) == Free(w2, c);
      assert Free(w2, c) >= Free(w1, c);
    }
  }

  lemma BuyKeeps(w: World, cx: Context, buyer: Address, id: U64, called: bool)
    requires Inv(w) && w.m.self !in cx.auth
    ensures w.Buy(cx, buyer, id, called).Ok? ==> Keeps(w, w.Buy(cx, buyer, id, called).value)
  {
    var r := w.Buy(cx, buyer, id, called);
    if r.Ok? {
      var l := w.m.listings[id];
      var minter := w.nft.bots[l.botId].minter;
      assert Escrowed(w, l);
      SplitDivides(l.price, w.m.feeBps, w.m.royaltyBps, minter == l.seller);
      SaleSettles(w, cx, buyer, id, minter,
                  SplitOf(l.price, w.m.feeBps, w.m.royaltyBps, minter == l.seller).value, called);
      RetiredKeeps(w, r.value, id, buyer);
      RetiredBooks(w.m, r.value.m, id);
      SolventByGrowth(w, r.value);
    }
  }

  // ---- listing, repricing, pages ------------------------------------------------

  /** Appending puts the id at the very end, wherever the page boundary falls. */
  lemma AppendFlattens(pages: seq<seq<U64>>, id: U64)
    requires AppendListing(pages, id).Ok?
    ensures Flatten(AppendListing(pages, id).value) == Flatten(pages) + [id]
  {
    var n, r := |pages|, AppendListing(pages, id).value;
    if |r| > n {
      assert r[..n] == pages;
    } else {
      assert r[..n - 1] == pages[..n - 1];
    }
  }

  lemma AppendPageSizes(pages: seq<seq<U64>>, id: U64)
    requires AppendListing(pages, id).Ok?
    requires forall p :: 0 <= p < |pages| ==> |pages[p]| <= LISTING_PAGE_SIZE
    ensures var r := AppendListing(pages, id).value;
            forall p :: 0 <= p < |r| ==> |r[p]| <= LISTING_PAGE_SIZE
  {
  }

  lemma AppendKeepsPaged(m: Market, l: Listing, pages: seq<seq<U64>>)
    requires Paged(m) && Books(m) && m.nextListing < U64_MAX
    requires AppendListing(m.pages, m.nextListing) == Ok(pages)
    ensures Paged(m.(listings := m.listings[m.nextListing := l], nextListing := m.nextListing + 1, pages := pages))
  {
    AppendFlattens(m.pages, m.nextListing);
    AppendPageSizes(m.pages, m.nextListing);
    AppendKeeps(Flatten(m.pages), m.nextListing);
    assert forall x :: x in Flatten(pages) <==> x in Flatten(m.pages) || x == m.nextListing;
  }

  lemma {:induction false} LiveKeeps(ids: seq<U64>, listings: map<U64, Listing>)
    ensures forall x :: x in Live(ids, listings) <==> x in ids && x in listings && listings[x].active
    ensures Ascending(ids) ==> Ascending(Live(ids, listings))
    ensures |Live(ids, listings)| <= |ids|
    decreases |ids|
  {
    if ids != [] {
      var front, last := ids[..|ids| - 1], ids[|ids| - 1];
      assert ids == front + [last];
      LiveKeeps(front, listings);
      AppendKeeps(front, last);
      AppendKeeps(Live(front, listings), last);
      assert Live(front, listings) + [] == Live(front, listings);
    }
  }

  /** `kept` is `ids` without some tombstones, in the same order. */
  ghost predicate Pruned(ids: seq<U64>, kept: seq<U64>, listings: map<U64, Listing>) {
    && (forall x :: x in kept ==> x in ids)
    && (forall x :: x in ids && x in listings && listings[x].active ==> x in kept)
    && (Ascending(ids) ==> Ascending(kept))
  }

  lemma PrunedConcat(a: seq<U64>, b: seq<U64>, c: seq<U64>, d: seq<U64>, listings: map<U64, Listing>)
    requires Pruned(a, c, listings) && Pruned(b, d, listings)
    ensures Pruned(a + b, c + d, listings)
  {
    AscendingConcat(a, b);
    AscendingConcat(c, d);
  }

  /** Compacting one page drops tombstones only, and keeps the order of everything else. */
  lemma {:induction false} CompactFlattens(pages: seq<seq<U64>>, p: nat, listings: map<U64, Listing>)
    requires p < |pages|
    ensures Pruned(Flatten(pages), Flatten(pages[p := Live(pages[p], listings)]), listings)
    decreases |pages|
  {
    var n := |pages|;
    var now := pages[p := Live(pages[p], listings)];
    LiveKeeps(pages[p], listings);
    if p == n - 1 {
      assert now[..n - 1] == pages[..n - 1];
    } else {
      assert now[..n - 1] == pages[..n - 1][p := Live(pages[p], listings)];
      CompactFlattens(pages[..n - 1], p, listings);
    }
    PrunedConcat(Flatten(pages[..n - 1]), pages[n - 1], Flatten(now[..n - 1]), now[n - 1], listings);
  }

  lemma CompactKeeps(w: World, page: nat)
    requires Inv(w)
    ensures Keeps(w, w.CompactPage(page))
  {
    if page < |w.m.pages| {
      CompactFlattens(w.m.pages, page, w.m.listings);
      LiveKeeps(w.m.pages[page], w.m.listings);
    }
    assert forall c :: Surplus(w.CompactPage(page), c) == Surplus(w, c);
  }

  /** A listing enters with its bot: nothing else about custody changes. */
  lemma ListKeepsCustody(w: World, v: World, l: Listing)
    requires Custody(w) && Books(w.m) && l.active && l.price > 0 && l.seller != w.m.self
    requires l.botId in w.nft.bots && w.nft.bots[l.botId].owner == l.seller && w.nft.bots[l.botId].tier == l.tier
    requires v.m.self == w.m.self && v.m.listings == w.m.listings[w.m.nextListing := l]
    requires v.nft == w.nft.Move(l.botId, w.m.self)
    ensures Custody(v)
  {
    forall i | v.m.IsActive(i) && i != w.m.nextListing
      ensures w.m.IsActive(i) && Escrowed(w, v.m.listings[i]) && Escrowed(v, v.m.listings[i])
      ensures v.m.listings[i].botId != l.botId
    {
      assert w.m.IsActive(i) && Escrowed(w, w.m.listings[i]);
    }
  }

  lemma EscrowKeeps(w: World, cx: Context, l: Listing)
    requires Inv(w) && l.active && l.price > 0 && l.seller != w.m.self
    requires l.botId in w.nft.bots && w.nft.bots[l.botId].owner == l.seller && w.nft.bots[l.botId].tier == l.tier
    ensures w.Escrow(cx, l).Ok? ==> Keeps(w, w.Escrow(cx, l).value)
  {
    if w.Escrow(cx, l).Ok? {
      var v := w.Escrow(cx, l).value;
      N.MoveSound(w.nft, l.botId, w.m.self);
      ListKeepsCustody(w, v, l);
      AppendKeepsPaged(w.m, l, v.m.pages);
      assert forall c :: Surplus(v, c) == Surplus(w, c);
    }
  }

  lemma ListKeeps(w: World, cx: Context, seller: Address, botId: U64, price: I128, currency: Address, duration: U64)
    requires Inv(w) && w.m.self !in cx.auth
    ensures var r := w.List(cx, seller, botId, price, currency, duration);
            r.Ok? ==> Keeps(w, r.value)
  {
    if w.List(cx, seller, botId, price, currency, duration).Ok? {
      EscrowKeeps(w, cx, Listing(seller, botId, w.nft.bots[botId].tier, price, currency,
                                 cx.now, SatAdd64(cx.now, duration), true));
    }
  }

  lemma RepriceKeeps(w: World, cx: Context, seller: Address, id: U64, newPrice: I128)
    requires Inv(w)
    ensures w.Reprice(cx, seller, id, newPrice).Ok? ==> Keeps(w, w.Reprice(cx, seller, id, newPrice).value)
  {
    if w.Reprice(cx, seller, id, newPrice).Ok? {
      var v := w.Reprice(cx, seller, id, newPrice).value;
      forall i | v.m.IsActive(i)
        ensures w.m.IsActive(i) && v.m.listings[i].botId == w.m.listings[i].botId && Escrowed(v, v.m.listings[i])
      {
        assert Escrowed(w, w.m.listings[i]);
      }
      assert forall c :: Surplus(v, c) == Surplus(w, c);
    }
  }

  // ---- offers ---------------------------------------------------------------------

  /** Custody looks at listings and bots only. */
  lemma SameCustody(w: World, v: World)
    requires Custody(w) && v.m.self == w.m.self && v.m.listings == w.m.listings && v.nft == w.nft
    ensures Custody(v)
  {
    assert forall i :: v.m.IsActive(i) <==> w.m.IsActive(i);
    assert forall i :: v.m.IsActive(i) ==> Escrowed(w, v.m.listings[i]);
  }

  /** Opening an offer owes exactly what was pulled in for it. */
  lemma OpenedBooks(w: World, u: World, v: World, o: Offer)
    requires Inv(w) && o.status == Active && o.amount > 0 && o.buyer != w.m.self && w.m.nextOffer < U64_MAX
    requires u.m == w.m && u.nft == w.nft && TokensSound(u)
    requires forall d :: Held(u, d) == Held(w, d) + if d == o.currency then o.amount else 0
    requires v == u.(m := w.m.Open(o))
    ensures Keeps(w, v)
  {
    SameCustody(w, v);
    assert w.m.nextOffer !in w.m.offers;
    forall c
      ensures Surplus(v, c) == Surplus(w, c)
    {
      EscrowOpens(w.m.offers, w.m.nextOffer, o, c);
      assert Held(v, c) == Held(u, c);
    }
    SolventByGrowth(w, v);
  }

  lemma OpenOfferKeeps(w: World, cx: Context, o: Offer)
    requires Inv(w) && o.status == Active && o.amount > 0 && o.buyer != w.m.self && w.m.nextOffer < U64_MAX
    ensures w.OpenOffer(cx, o).Ok? ==> Keeps(w, w.OpenOffer(cx, o).value)
  {
    if w.OpenOffer(cx, o).Ok? {
      PayMoves(w, cx, o.currency, o.buyer, w.m.self, o.amount);
      OpenedBooks(w, w.Pay(cx, o.currency, o.buyer, w.m.self, o.amount).value, w.OpenOffer(cx, o).value, o);
    }
  }

  lemma MakeOfferKeeps(w: World, cx: Context, buyer: Address, botId: U64, amount: I128, currency: Address,
                       expiresAt: U64)
    requires Inv(w) && w.m.self !in cx.auth
    ensures var r := w.MakeOffer(cx, buyer, botId, amount, currency, expiresAt);
            r.Ok? ==> Keeps(w, r.value)
  {
    if w.MakeOffer(cx, buyer, botId, amount, currency, expiresAt).Ok? {
      OpenOfferKeeps(w, cx, Offer(buyer, botId, amount, currency, cx.now, expiresAt, Active));
    }
  }

  /** Closing an offer owes exactly what was paid out for it less. */
  lemma ClosedBooks(w: World, u: World, v: World, offerId: U64, status: OfferStatus)
    requires Inv(w) && offerId in w.m.offers && w.m.offers[offerId].status == Active && status != Active
    requires u.m.self == w.m.self && u.m.offers == w.m.offers
    requires forall d :: Free(u, d) >= Free(w, d)
                         - if d == w.m.offers[offerId].currency then w.m.offers[offerId].amount else 0
    requires v.m.self == w.m.self && v.m.offers == w.m.CloseOffer(offerId, status).offers
    requires v.m.fees == u.m.fees && v.tokens == u.tokens
    ensures forall c :: Surplus(v, c) >= Surplus(w, c)
    ensures (forall d :: Free(u, d) == Free(w, d)
                         - if d == w.m.offers[offerId].currency then w.m.offers[offerId].amount else 0)
            ==> forall c :: Surplus(v, c) == Surplus(w, c)
  {
    forall c
      ensures Escrow(v.m, c) == Escrow(w.m, c)
              - if c == w.m.offers[offerId].currency then w.m.offers[offerId].amount else 0
      ensures Free(v, c) == Free(u, c)
    {
      EscrowCloses(w.m.offers, offerId, status, c);
    }
  }

  /** A refund pays the whole escrow of one open offer to its buyer and closes the offer. */
  lemma RefundKeeps(w: World, v: World, cx: Context, offerId: U64)
    requires Inv(w) && offerId in w.m.offers && w.m.offers[offerId].status == Active
    requires w.Refund(cx, offerId).Ok?
    requires v == w.Refund(cx, offerId).value.(m := v.m)
    requires v.m == w.m.(offers := w.m.CloseOffer(offerId, Cancelled).offers, events := v.m.events)
    ensures Keeps(w, v)
    ensures forall c :: Surplus(v, c) == Surplus(w, c)
  {
    var o := w.m.offers[offerId];
    PayMoves(w, cx, o.currency, w.m.self, o.buyer, o.amount);
    var u := w.Pay(cx, o.currency, w.m.self, o.buyer, o.amount).value;
    assert o.buyer != w.m.self;
    ClosedBooks(w, u, v, offerId, Cancelled);
    ClosedOfferBooks(w.m, v.m, offerId, Cancelled);
    SameCustody(w, v);
    SolventByGrowth(w, v);
  }

  lemma CancelOfferKeeps(w: World, cx: Context, caller: Address, offerId: U64)
    requires Inv(w)
    ensures w.CancelOffer(cx, caller, offerId).Ok? ==> Keeps(w, w.CancelOffer(cx, caller, offerId).value)
  {
    if w.CancelOffer(cx, caller, offerId).Ok? {
      RefundKeeps(w, w.CancelOffer(cx, caller, offerId).value, cx, offerId);
    }
  }

  lemma DismissKeeps(w: World, cx: Context, caller: Address, offerId: U64)
    requires Inv(w)
    ensures w.Dismiss(cx, caller, offerId).Ok? ==> Keeps(w, w.Dismiss(cx, caller, offerId).value)
  {
    if w.Dismiss(cx, caller, offerId).Ok? {
      RefundKeeps(w, w.Dismiss(cx, caller, offerId).value, cx, offerId);
    }
  }

  lemma WithdrawKeeps(w: World, cx: Context, currency: Address, to: Address, amount: I128)
    requires Inv(w)
    ensures w.WithdrawFees(cx, currency, to, amount).Ok? ==> Keeps(w, w.WithdrawFees(cx, currency, to, amount).value)
  {
    if w.WithdrawFees(cx, currency, to, amount).Ok? {
      var v := w.WithdrawFees(cx, currency, to, amount).value;
      PayMoves(w, cx, currency, w.m.self, to, amount);
      var u := w.Pay(cx, currency, w.m.self, to, amount).value;
      SameCustody(w, v);
      forall c
        ensures Surplus(v, c) >= Surplus(w, c)
      {
        assert Held(v, c) == Held(u, c) && Escrow(v.m, c) == Escrow(w.m, c);
      }
    }
  }

  // ---- acceptance --------------------------------------------------------------

  /** A bot that is not in escrow has no active listing, so bot_nft's callback about it does nothing. */
  lemma OutsideMoveIsInert(w: World, botId: U64)
    requires Custody(w) && (botId in w.nft.bots ==> w.nft.bots[botId].owner != w.m.self)
    ensures w.m.ListingFor(botId) == None
    ensures w.m.OnBotMoved(botId) == w.m
  {
    assert forall id :: w.m.IsActive(id) ==> Escrowed(w, w.m.listings[id]);
  }

  lemma OutsideMoveKeepsCustody(w: World, v: World, botId: U64, to: Address)
    requires Custody(w) && botId in w.nft.bots && w.nft.bots[botId].owner != w.m.self
    requires v.m.self == w.m.self && v.m.listings == w.m.listings && v.nft == w.nft.Move(botId, to)
    ensures Custody(v)
  {
    forall i | v.m.IsActive(i)
      ensures w.m.IsActive(i) && Escrowed(v, v.m.listings[i])
    {
      assert Escrowed(w, w.m.listings[i]);
    }
  }

  /** Where an accepted bot came from: the seller's hands, or the seller's listing, which retires. */
  ghost predicate HandedOver(w: World, v: World, held: Option<U64>, botId: U64, to: Address) {
    && botId in w.nft.bots && v.nft == w.nft.Move(botId, to)
    && v.tokens == w.tokens
    && match held
       case Some(id) => w.m.IsActive(id) && w.m.listings[id].botId == botId
                        && v.m == w.m.Deactivate(id).(events := v.m.events)
       case None => v.m == w.m
  }

  lemma HandOverSucceeds(w: World, cx: Context, seller: Address, botId: U64, buyer: Address, called: bool)
    requires Custody(w) && botId in w.nft.bots && seller in cx.auth && w.m.self !in cx.auth
    requires seller != buyer && buyer != w.m.self
    requires w.Holding(seller, botId).Ok?
    ensures var held := w.Holding(seller, botId).value;
            var r := w.HandOver(cx, seller, held, botId, buyer, called);
            && r.Ok? && HandedOver(w, r.value, held, botId, buyer)
            && r.value.m.events == w.m.events + (if called && held.Some? then [Deactivated(botId, held.value)] else [])
            && (held.None? ==> w.nft.bots[botId].owner != w.m.self)
  {
    var held := w.Holding(seller, botId).value;
    if held.Some? {
      ExitRetires(w, cx, held.value, buyer, called);
    } else {
      OutsideMoveIsInert(w, botId);
    }
  }

  lemma HandedOverKeeps(w: World, v: World, held: Option<U64>, botId: U64, to: Address)
    requires Inv(w) && to != w.m.self && HandedOver(w, v, held, botId, to)
    requires held.None? ==> w.nft.bots[botId].owner != w.m.self
    ensures Custody(v) && v.nft.Sound() && Paged(v.m) && Books(v.m) && TokensSound(v)
    ensures forall c :: Free(v, c) == Free(w, c)
  {
    N.MoveSound(w.nft, botId, to);
    if held.Some? {
      RetireKeepsCustody(w, v, held.value, to);
    } else {
      OutsideMoveKeepsCustody(w, v, botId, to);
    }
    assert forall i :: v.m.IsActive(i) ==> w.m.IsActive(i);
  }

  lemma OfferSettles(w: World, cx: Context, seller: Address, offerId: U64, held: Option<U64>, bot: N.Bot,
                     split: Split, called: bool)
    requires Inv(w) && offerId in w.m.offers && w.m.offers[offerId].status == Active
    requires w.HandOver(cx, seller, held, w.m.offers[offerId].botId, w.m.offers[offerId].buyer, called).Ok?
    requires var o := w.m.offers[offerId];
             HandedOver(w, w.HandOver(cx, seller, held, o.botId, o.buyer, called).value, held, o.botId, o.buyer)
    requires held.None? ==> w.nft.bots[w.m.offers[offerId].botId].owner != w.m.self
    requires split.Divides(w.m.offers[offerId].amount)
    ensures var r := w.SettleOffer(cx, seller, offerId, held, bot, split, called);
            r.Ok? ==> Keeps(w, r.value)
  {
    var o := w.m.offers[offerId];
    var r := w.SettleOffer(cx, seller, offerId, held, bot, split, called);
    if r.Ok? {
      var w1 := w.HandOver(cx, seller, held, o.botId, o.buyer, called).value;
      HandedOverKeeps(w, w1, held, o.botId, o.buyer);
      OfferLegsBalance(w1, cx, seller, o.currency, bot.minter, split, o.amount);
      AcceptedBooks(w, w1, w1.OfferLegs(cx, seller, o.currency, bot.minter, split).value, r.value, offerId,
                    seller != w.m.self && bot.minter != w.m.self);
    }
  }

  /** After the legs, closing the offer takes its amount off what is owed. */
  lemma AcceptedBooks(w: World, w2: World, w3: World, v: World, offerId: U64, exact: bool)
    requires Inv(w) && offerId in w.m.offers && w.m.offers[offerId].status == Active
    requires Custody(w2) && w2.nft.Sound() && Paged(w2.m) && Books(w2.m) && TokensSound(w2)
    requires w2.m.self == w.m.self && w2.m.offers == w.m.offers && forall c :: Free(w2, c) == Free(w, c)
    requires LegsOnly(w2, w3, w.m.offers[offerId].currency, -w.m.offers[offerId].amount, exact)
    requires v == w3.(m := w3.m.(offers := w3.m.CloseOffer(offerId, Accepted).offers,
                                 sales := v.m.sales, events := v.m.events))
    ensures Keeps(w, v)
  {
    SameCustody(w2, v);
    ClosedOfferBooks(w2.m, v.m, offerId, Accepted);
    ClosedBooks(w, w3, v, offerId, Accepted);
    SolventByGrowth(w, v);
  }

  lemma AcceptKeeps(w: World, cx: Context, seller: Address, offerId: U64, called: bool)
    requires Inv(w) && w.m.self !in cx.auth
    ensures w.Accept(cx, seller, offerId, called).Ok? ==> Keeps(w, w.Accept(cx, seller, offerId, called).value)
  {
    if w.Accept(cx, seller, offerId, called).Ok? {
      var o := w.m.offers[offerId];
      var bot := w.nft.bots[o.botId];
      SplitDivides(o.amount, w.m.feeBps, w.m.royaltyBps, bot.minter == seller);
      HandOverSucceeds(w, cx, seller, o.botId, o.buyer, called);
      OfferSettles(w, cx, seller, offerId, w.Holding(seller, o.botId).value, bot,
                   SplitOf(o.amount, w.m.feeBps, w.m.royaltyBps, bot.minter == seller).value, called);
    }
  }

  // ---- everybody else --------------------------------------------------------------

  /** Whoever moves a bot from outside moves one that is not in escrow. */
  lemma EscrowUnmoved(w: World, cx: Context, call: N.Call, l: Listing)
    requires Custody(w) && w.m.self !in cx.auth && Escrowed(w, l)
    requires N.Apply(w.nft, cx, call).Ok?
    requires (call.Transfer? || call.TransferFrom?) && call.from != call.to
    ensures call.id != l.botId
  {
    assert call.TransferFrom? ==> (w.m.self, call.spender) !in w.nft.operators;
  }

  /** No call from outside can move, burn or approve an escrowed bot. */
  lemma EscrowUntouchable(w: World, cx: Context, call: N.Call, l: Listing)
    requires Custody(w) && w.nft.Sound() && w.m.self !in cx.auth && Escrowed(w, l)
    requires N.Apply(w.nft, cx, call).Ok?
    ensures Escrowed(w.(nft := N.Apply(w.nft, cx, call).value), l)
  {
    if (call.Transfer? || call.TransferFrom?) && call.from != call.to {
      EscrowUnmoved(w, cx, call, l);
    }
  }

  /** So bot_nft's callbacks about outside transfers never deactivate anything. */
  lemma OutsideCallbackIsInert(w: World, cx: Context, call: N.Call, called: bool)
    requires Custody(w) && w.nft.Sound() && w.m.self !in cx.auth
    ensures w.NftCall(cx, call, called).m == w.m
  {
    if N.Apply(w.nft, cx, call).Ok? && (call.Transfer? || call.TransferFrom?) && call.from != call.to {
      forall id | w.m.IsActive(id)
        ensures w.m.listings[id].botId != call.id
      {
        EscrowUnmoved(w, cx, call, w.m.listings[id]);
      }
      assert w.m.OnBotMoved(call.id) == w.m;
    }
  }

  lemma NftCallKeeps(w: World, cx: Context, call: N.Call, called: bool)
    requires Inv(w) && w.m.self !in cx.auth
    ensures Keeps(w, w.NftCall(cx, call, called))
  {
    OutsideCallbackIsInert(w, cx, call, called);
    var v := w.NftCall(cx, call, called);
    if N.Apply(w.nft, cx, call).Ok? {
      N.ApplySound(w.nft, cx, call);
      forall i | v.m.IsActive(i)
        ensures Escrowed(v, v.m.listings[i])
      {
        assert w.m.IsActive(i);
        EscrowUntouchable(w, cx, call, w.m.listings[i]);
        assert Escrowed(w.(nft := N.Apply(w.nft, cx, call).value), w.m.listings[i]);
      }
      NoNewOperator(w, cx, call);
      assert forall c :: Surplus(v, c) == Surplus(w, c);
    }
  }

  lemma NoNewOperator(w: World, cx: Context, call: N.Call)
    requires Custody(w) && w.m.self !in cx.auth && N.Apply(w.nft, cx, call).Ok?
    ensures forall x :: (w.m.self, x) !in N.Apply(w.nft, cx, call).value.operators
  {
  }

  /** Nobody but its signature or an allowance can take tokens from an account. */
  lemma OutsideMove(t: T.Token, cx: Context, call: TR.Call, self: Address)
    requires t.Sound() && self !in cx.auth && (forall k :: k in t.allowances ==> k.0 != self)
    requires call.Transfer? || call.TransferBatch? || call.TransferFrom? || call.Burn? || call.BurnFrom?
    ensures var u := TR.Step(t, cx, call);
            (forall k :: k in u.allowances ==> k.0 != self) && u.Balance(self) >= t.Balance(self)
  {
    match call
    case TransferBatch(from, recipients, amounts) =>
      if |recipients| == |amounts| {
        SinglesSpare(t, cx, from, recipients, amounts, self);
      }
    case TransferFrom(spender, from, to, amount) =>
      if from == self { assert t.Granted(from, spender) == T.Allowance(0, 0); }
    case BurnFrom(spender, from, amount) =>
      if from == self { assert t.Granted(from, spender) == T.Allowance(0, 0); }
    case _ =>
  }

  /** No call from outside can take tokens from the marketplace or get an allowance on them. */
  lemma OutsideTokenCall(t: T.Token, cx: Context, call: TR.Call, self: Address)
    requires t.Sound() && self !in cx.auth && (forall k :: k in t.allowances ==> k.0 != self)
    ensures var u := TR.Step(t, cx, call);
            && u.Sound() && (forall k :: k in u.allowances ==> k.0 != self)
            && u.Balance(self) >= t.Balance(self)
  {
    TR.ApplySound(t, cx, call);
    if call.Transfer? || call.TransferBatch? || call.TransferFrom? || call.Burn? || call.BurnFrom? {
      OutsideMove(t, cx, call, self);
    }
  }

  lemma {:induction false} SinglesSpare(t: T.Token, cx: Context, from: Address, recipients: seq<Address>,
                                        amounts: seq<I128>, self: Address)
    requires |recipients| == |amounts| && self !in cx.auth
    ensures var s := t.Singles(cx, from, recipients, amounts);
            s.Ok? ==> s.value.allowances == t.allowances && s.value.Balance(self) >= t.Balance(self)
    decreases |recipients|
  {
    var n := |recipients|;
    if n > 0 {
      SinglesSpare(t, cx, from, recipients[..n - 1], amounts[..n - 1], self);
    }
  }

  lemma TokenCallKeeps(w: World, cx: Context, currency: Address, call: TR.Call)
    requires Inv(w) && w.m.self !in cx.auth
    ensures Keeps(w, w.TokenCall(cx, currency, call))
  {
    var v := w.TokenCall(cx, currency, call);
    if currency in w.tokens {
      OutsideTokenCall(w.tokens[currency], cx, call, w.m.self);
      SameCustody(w, v);
      forall c
        ensures Surplus(v, c) >= Surplus(w, c)
      {
        assert Held(v, c) >= Held(w, c);
      }
      SolventByGrowth(w, v);
    }
  }

  /** Settings move no bot, no token and no offer. */
  lemma SettingKeeps(w: World, v: World)
    requires Inv(w) && Books(v.m)
    requires v == w.(m := w.m.(feeBps := v.m.feeBps, minPrices := v.m.minPrices, paused := v.m.paused,
                               listingCap := v.m.listingCap, allowed := v.m.allowed))
    ensures Keeps(w, v)
  {
    SameCustody(w, v);
    assert forall c :: Surplus(v, c) == Surplus(w, c);
  }

  lemma SetFeeBpsKeeps(w: World, cx: Context, feeBps: U32)
    requires Inv(w)
    ensures w.SetFeeBps(cx, feeBps).Ok? ==> Keeps(w, w.SetFeeBps(cx, feeBps).value)
  {
    if w.SetFeeBps(cx, feeBps).Ok? {
      SettingKeeps(w, w.SetFeeBps(cx, feeBps).value);
    }
  }

  /** With nothing escrowed, any other sound deployment can take bot_nft's place. */
  lemma SetBotNftKeeps(w: World, cx: Context, next: N.Nft, answers: bool)
    requires Inv(w) && Trusted(w.m.self, next)
    ensures w.SetBotNft(cx, next, answers).Ok? ==> Keeps(w, w.SetBotNft(cx, next, answers).value)
  {
    if w.SetBotNft(cx, next, answers).Ok? {
      var v := w.SetBotNft(cx, next, answers).value;
      assert w.m.ActiveIds() == {};
      assert forall i :: w.m.IsActive(i) ==> i in w.m.ActiveIds();
      assert forall c :: Surplus(v, c) == Surplus(w, c);
    }
  }

  lemma SettingsKeep(w: World, cx: Context, a: Action)
    requires Inv(w) && (a.SetMinPrice? || a.Configure?)
    ensures Keeps(w, Step(w, cx, a))
  {
    SettingKeeps(w, Step(w, cx, a));
  }

  // ---- every step, every run ---------------------------------------------------------

  lemma TradeKeeps(w: World, cx: Context, a: Action)
    requires Inv(w) && Admissible(w, cx, a)
    requires a.List? || a.Buy? || a.Cancel? || a.Reclaim? || a.Reprice?
    ensures Keeps(w, Step(w, cx, a))
  {
    match a
    case List(seller, botId, price, currency, duration) => ListKeeps(w, cx, seller, botId, price, currency, duration);
    case Buy(buyer, id, called) => BuyKeeps(w, cx, buyer, id, called);
    case Cancel(seller, id, called) => CancelKeeps(w, cx, seller, id, called);
    case Reclaim(id, called) => ReclaimKeeps(w, cx, id, called);
    case Reprice(seller, id, price) => RepriceKeeps(w, cx, seller, id, price);
  }

  lemma OfferStepKeeps(w: World, cx: Context, a: Action)
    requires Inv(w) && Admissible(w, cx, a)
    requires a.MakeOffer? || a.Accept? || a.CancelOffer? || a.Dismiss? || a.WithdrawFees?
    ensures Keeps(w, Step(w, cx, a))
  {
    match a
    case MakeOffer(buyer, botId, amount, currency, expiresAt) =>
      MakeOfferKeeps(w, cx, buyer, botId, amount, currency, expiresAt);
    case Accept(seller, offerId, called) => AcceptKeeps(w, cx, seller, offerId, called);
    case CancelOffer(caller, offerId) => CancelOfferKeeps(w, cx, caller, offerId);
    case Dismiss(caller, offerId) => DismissKeeps(w, cx, caller, offerId);
    case WithdrawFees(currency, to, amount) => WithdrawKeeps(w, cx, currency, to, amount);
  }

  /** Every step of every party keeps the joint invariant and never costs the marketplace any surplus. */
  lemma StepKeeps(w: World, cx: Context, a: Action)
    requires Inv(w) && Admissible(w, cx, a)
    ensures Keeps(w, Step(w, cx, a))
  {
    if a.List? || a.Buy? || a.Cancel? || a.Reclaim? || a.Reprice? {
      TradeKeeps(w, cx, a);
    } else if a.MakeOffer? || a.Accept? || a.CancelOffer? || a.Dismiss? || a.WithdrawFees? {
      OfferStepKeeps(w, cx, a);
    } else if a.CompactPage? {
      CompactKeeps(w, a.page);
    } else if a.NftCall? {
      NftCallKeeps(w, cx, a.nftCall, a.called);
    } else if a.TokenCall? {
      TokenCallKeeps(w, cx, a.currency, a.tokenCall);
    } else if a.SetFeeBps? {
      SetFeeBpsKeeps(w, cx, a.feeBps);
    } else if a.SetBotNft? {
      SetBotNftKeeps(w, cx, a.next, a.answers);
    } else {
      SettingsKeep(w, cx, a);
    }
  }

  ghost predicate AdmissibleRun(w: World, steps: seq<(Context, Action)>)
    decreases |steps|
  {
    steps == [] || (Admissible(w, steps[0].0, steps[0].1)
                    && AdmissibleRun(Step(w, steps[0].0, steps[0].1), steps[1..]))
  }

  /** A freshly initialised marketplace beside any sound bot_nft and any sound tokens. */
  ghost predicate Genesis(w: World) {
    && w.m.listings == map[] && w.m.offers == map[] && w.m.fees == map[] && w.m.pages == []
    && w.m.nextListing == 1 && w.m.nextOffer == 1 && w.m.events == []
    && w.m.feeBps + w.m.royaltyBps <= Fees.BPS
    && w.nft.Sound() && (forall x :: (w.m.self, x) !in w.nft.operators)
    && TokensSound(w)
  }

  lemma GenesisInv(w: World)
    requires Genesis(w)
    ensures Inv(w)
  {
    forall c
      ensures Surplus(w, c) >= 0
    {
      assert EscrowMap(w.m.offers, c) == map[];
      if c in w.tokens && w.m.self in w.tokens[c].balances {
        TotalBounds(w.tokens[c].balances, w.m.self);
      }
    }
  }

  lemma {:induction false} RunKeeps(w: World, steps: seq<(Context, Action)>)
    requires Inv(w) && AdmissibleRun(w, steps)
    ensures Keeps(w, Run(w, steps))
    decreases |steps|
  {
    if steps != [] {
      var v := Step(w, steps[0].0, steps[0].1);
      StepKeeps(w, steps[0].0, steps[0].1);
      RunKeeps(v, steps[1..]);
      forall c
        ensures Surplus(Run(w, steps), c) >= Surplus(w, c)
      {
        assert Surplus(v, c) >= Surplus(w, c);
      }
    }
  }
}
