/** The indexer's view of the market against the market itself: folding the events of any run gives
    exactly the contract's active listings, prices and currencies, except for listings that an accepted
    offer retired without bot_nft's callback, which the log never closes. */
module Projection {
  import opened Common
  import opened MarketSpec
  import opened MarketLegs
  import opened MarketInv
  import opened MarketTheorems
  import I = IndexerSpec
  import N = NftSpec

  /** The marketplace's own events, as log entries. */
  function AsLog(events: seq<Event>): seq<I.LogEvent>
    decreases |events|
  {
    if events == [] then []
    else AsLog(events[..|events| - 1]) + [I.LogEvent(|events|, 0, I.Market(events[|events| - 1]))]
  }

  /** What the indexer shows after indexing everything the market has emitted. */
  function View(m: Market): I.Views {
    I.Fold(AsLog(m.events))
  }

  lemma ViewAppends(m: Market, n: Market, e: Event)
    requires n.events == m.events + [e]
    ensures View(n) == I.ApplyEvent(View(m), I.LogEvent(|n.events|, 0, I.Market(e)))
  {
    assert n.events[..|n.events| - 1] == m.events;
    I.FoldAppend(AsLog(m.events), I.LogEvent(|n.events|, 0, I.Market(e)));
  }

  predicate Shown(rows: map<U64, I.Row>, id: U64) {
    id in rows && rows[id].status == I.Active
  }

  /** The row of an active listing carries its seller, bot, price and currency. */
  ghost predicate RowMatches(rows: map<U64, I.Row>, id: U64, l: Listing) {
    && Shown(rows, id)
    && rows[id].seller == Some(l.seller) && rows[id].botId == Some(l.botId)
    && rows[id].price == Some(l.price as int) && rows[id].currency == Some(l.currency)
  }

  /** The view shows the active listings faithfully, plus exactly the ids in `silent`. */
  ghost predicate Tracks(m: Market, silent: set<U64>) {
    RowsTrack(View(m).listings, m, silent)
  }

  ghost predicate RowsTrack(rows: map<U64, I.Row>, m: Market, silent: set<U64>) {
    && (forall id :: m.IsActive(id) ==> RowMatches(rows, id, m.listings[id]) && id !in silent)
    && (forall id :: Shown(rows, id) ==> m.IsActive(id) || id in silent)
    && (forall id :: id in silent ==> Shown(rows, id))
    && (forall id :: id in rows ==> id < m.nextListing)
    && (forall id :: id in m.listings ==> id < m.nextListing)
  }

  /** Per-currency volume after one more event: only purchases count. */
  function SaleVolume(volume: map<Address, int>, e: Event): map<Address, int> {
    if e.Sold? then volume[e.currency := I.VolumeOf(volume, e.currency) + e.price] else volume
  }

  predicate Closes(e: Event, id: U64) {
    match e
    case Sold(_, _, i, _, _, _) => i == id
    case ListingCancelled(_, i, _) => i == id
    case Reclaimed(_, i, _) => i == id
    case Deactivated(_, i) => i == id
    case _ => false
  }

  predicate Irrelevant(e: Event) {
    e.Offered? || e.OfferAccepted? || e.OfferCancelled? || e.OfferDismissed? || e.FeesWithdrawn?
  }

  lemma RowListed(rows: map<U64, I.Row>, m: Market, n: Market, silent: set<U64>, l: Listing,
                  row: I.Row)
    requires RowsTrack(rows, m, silent) && l.active
    requires n.listings == m.listings[m.nextListing := l] && n.nextListing == m.nextListing + 1
    requires row.status == I.Active && row.seller == Some(l.seller) && row.botId == Some(l.botId)
             && row.price == Some(l.price as int) && row.currency == Some(l.currency)
    ensures RowsTrack(rows[m.nextListing := row], n, silent)
  {
    assert forall i :: i in silent ==> i < m.nextListing;
    assert forall i :: n.IsActive(i) && i != m.nextListing ==> m.IsActive(i);
  }

  lemma TrackListed(m: Market, n: Market, silent: set<U64>, l: Listing)
    requires Tracks(m, silent) && l.active
    requires n.listings == m.listings[m.nextListing := l] && n.nextListing == m.nextListing + 1
    requires n.events == m.events + [Listed(l.seller, m.nextListing, l.botId, l.price, l.currency)]
    ensures Tracks(n, silent)
    ensures View(n).volume == View(m).volume
  {
    var id, e := m.nextListing, Listed(l.seller, m.nextListing, l.botId, l.price, l.currency);
    ViewAppends(m, n, e);
    RowListed(View(m).listings, m, n, silent, l, View(n).listings[id]);
  }

  lemma TrackRepriced(m: Market, n: Market, silent: set<U64>, id: U64, newPrice: I128)
    requires Tracks(m, silent) && m.IsActive(id)
    requires n.listings == m.listings[id := m.listings[id].(price := newPrice)] && n.nextListing == m.nextListing
    requires n.events == m.events + [Repriced(m.listings[id].seller, id, m.listings[id].price, newPrice)]
    ensures Tracks(n, silent)
    ensures View(n).volume == View(m).volume
  {
    ViewAppends(m, n, Repriced(m.listings[id].seller, id, m.listings[id].price, newPrice));
    assert forall i :: n.IsActive(i) <==> m.IsActive(i);
  }

  /** A closing event leaves one row changed, and that row is no longer shown. */
  lemma ClosingRow(rows: map<U64, I.Row>, e: Event, ledger: nat, id: U64)
    requires Closes(e, id)
    ensures var after := I.ApplyListing(rows, e, ledger);
            id in after && after[id].status != I.Active && after == rows[id := after[id]]
  {
  }

  lemma ActiveAfterClosing(m: Market, n: Market, id: U64)
    requires n.listings == m.Deactivate(id).listings && id in m.listings
    ensures n.listings.Keys == m.listings.Keys
    ensures forall i :: n.IsActive(i) <==> m.IsActive(i) && i != id
    ensures forall i :: n.IsActive(i) ==> n.listings[i] == m.listings[i]
  {
  }

  lemma RowClosed(rows: map<U64, I.Row>, m: Market, n: Market, silent: set<U64>, id: U64, row: I.Row)
    requires RowsTrack(rows, m, silent) && id in m.listings && id !in silent && row.status != I.Active
    requires n.listings == m.Deactivate(id).listings && n.nextListing == m.nextListing
    ensures RowsTrack(rows[id := row], n, silent)
  {
    ActiveAfterClosing(m, n, id);
    assert forall i :: Shown(rows[id := row], i) <==> Shown(rows, i) && i != id;
  }

  /** Any closing event takes the listing out of the view together with the market. */
  lemma TrackClosed(m: Market, n: Market, silent: set<U64>, id: U64, e: Event)
    requires Tracks(m, silent) && id in m.listings && id !in silent && Closes(e, id)
    requires n.listings == m.Deactivate(id).listings && n.nextListing == m.nextListing
    requires n.events == m.events + [e]
    ensures Tracks(n, silent)
    ensures View(n).volume == SaleVolume(View(m).volume, e)
  {
    ViewAppends(m, n, e);
    ClosingRow(View(m).listings, e, 0, id);
    RowClosed(View(m).listings, m, n, silent, id, View(n).listings[id]);
  }

  lemma TrackIrrelevant(m: Market, n: Market, silent: set<U64>, e: Event)
    requires Tracks(m, silent) && Irrelevant(e)
    requires n.listings == m.listings && n.nextListing == m.nextListing && n.events == m.events + [e]
    ensures Tracks(n, silent)
    ensures View(n).volume == View(m).volume
  {
    ViewAppends(m, n, e);
    assert forall i :: n.IsActive(i) <==> m.IsActive(i);
  }

  /** A listing that retires without a word stays in the view. */
  lemma TrackSilent(m: Market, n: Market, silent: set<U64>, id: U64, e: Event)
    requires Tracks(m, silent) && m.IsActive(id) && Irrelevant(e)
    requires n.listings == m.Deactivate(id).listings && n.nextListing == m.nextListing
    requires n.events == m.events + [e]
    ensures Tracks(n, silent + {id})
    ensures View(n).volume == View(m).volume
  {
    ViewAppends(m, n, e);
    assert RowMatches(View(m).listings, id, m.listings[id]);
    assert forall i :: n.IsActive(i) <==> m.IsActive(i) && i != id;
  }

  lemma TrackSame(m: Market, n: Market, silent: set<U64>)
    requires Tracks(m, silent)
    requires n.listings == m.listings && n.nextListing == m.nextListing && n.events == m.events
    ensures Tracks(n, silent)
    ensures View(n).volume == View(m).volume
  {
    assert forall i :: n.IsActive(i) <==> m.IsActive(i);
  }

  // ---- steps ------------------------------------------------------------------------------

  /** The listing a step retires without any event that names it. */
  ghost function SilentIn(w: World, cx: Context, a: Action): set<U64> {
    if a.Accept? && !a.called && Apply(w, cx, a).Ok? then
      var held := w.Holding(a.seller, w.m.offers[a.offerId].botId);
      if held.Ok? && held.value.Some? then {held.value.value} else {}
    else {}
  }

  /** Per-currency volume after a purchase. */
  function Sale(volume: map<Address, int>, l: Listing): map<Address, int> {
    volume[l.currency := I.VolumeOf(volume, l.currency) + l.price]
  }

  /** Per-currency volume after one more step: a purchase adds its price. */
  ghost function VolumeAfter(w: World, cx: Context, a: Action, volume: map<Address, int>): map<Address, int> {
    if a.Buy? && Apply(w, cx, a).Ok? then Sale(volume, w.m.listings[a.listingId]) else volume
  }

  /** An exit logs its closing event, after the callback's one if that ran first. */
  lemma TrackExit(m: Market, n: Market, silent: set<U64>, id: U64, called: bool, e: Event)
    requires Tracks(m, silent) && m.IsActive(id) && Closes(e, id)
    requires n.listings == m.Deactivate(id).listings && n.nextListing == m.nextListing
    requires n.events == m.events + (if called then [Deactivated(m.listings[id].botId, id)] else []) + [e]
    ensures Tracks(n, silent)
    ensures View(n).volume == SaleVolume(View(m).volume, e)
  {
    if called {
      var mid := m.Deactivate(id).Emit(Deactivated(m.listings[id].botId, id));
      TrackClosed(m, mid, silent, id, Deactivated(m.listings[id].botId, id));
      assert n.events == mid.events + [e];
      TrackClosed(mid, n, silent, id, e);
    } else {
      assert n.events == m.events + [e];
      TrackClosed(m, n, silent, id, e);
    }
  }

  /** What an acceptance does to listings and log. */
  lemma AcceptLog(w: World, cx: Context, seller: Address, offerId: U64, called: bool, n: Market)
    requires Inv(w) && w.m.self !in cx.auth
    requires w.Accept(cx, seller, offerId, called).Ok? && n == w.Accept(cx, seller, offerId, called).value.m
    ensures var o := w.m.offers[offerId];
            && w.Holding(seller, o.botId).Ok?
            && AcceptedInto(w.m, n, w.Holding(seller, o.botId).value, o.botId, called,
                            OfferAccepted(seller, o.buyer, offerId, o.botId, o.amount))
  {
    AcceptPaysExactly(w, cx, seller, offerId, called);
  }

  lemma AcceptTracks(w: World, cx: Context, a: Action, silent: set<U64>)
    requires Inv(w) && Admissible(w, cx, a) && Tracks(w.m, silent) && a.Accept?
    ensures Tracks(Step(w, cx, a).m, silent + SilentIn(w, cx, a))
    ensures View(Step(w, cx, a).m).volume == View(w.m).volume
  {
    assert silent + {} == silent;
    if Apply(w, cx, a).Ok? {
      AcceptOkTracks(w, cx, a.seller, a.offerId, a.called, silent, Step(w, cx, a).m);
    }
  }

  lemma AcceptOkTracks(w: World, cx: Context, seller: Address, offerId: U64, called: bool,
                       silent: set<U64>, n: Market)
    requires Inv(w) && w.m.self !in cx.auth && Tracks(w.m, silent)
    requires w.Accept(cx, seller, offerId, called).Ok? && n == w.Accept(cx, seller, offerId, called).value.m
    ensures w.Holding(seller, w.m.offers[offerId].botId).Ok?
    ensures var held := w.Holding(seller, w.m.offers[offerId].botId).value;
            Tracks(n, if held.Some? && !called then silent + {held.value} else silent)
    ensures View(n).volume == View(w.m).volume
  {
    var o := w.m.offers[offerId];
    AcceptLog(w, cx, seller, offerId, called, n);
    AcceptedTracks(w.m, n, w.Holding(seller, o.botId).value, o.botId, called,
                   OfferAccepted(seller, o.buyer, offerId, o.botId, o.amount), silent);
  }

  lemma AcceptedTracks(m: Market, n: Market, held: Option<U64>, botId: U64, called: bool, e: Event,
                       silent: set<U64>)
    requires Tracks(m, silent) && AcceptedInto(m, n, held, botId, called, e) && Irrelevant(e)
    ensures Tracks(n, if held.Some? && !called then silent + {held.value} else silent)
    ensures View(n).volume == View(m).volume
  {
    if held.Some? && called {
      var mid := m.Deactivate(held.value).Emit(Deactivated(botId, held.value));
      TrackClosed(m, mid, silent, held.value, Deactivated(botId, held.value));
      assert n.events == mid.events + [e];
      TrackIrrelevant(mid, n, silent, e);
    } else {
      assert n.events == m.events + [e];
      if held.Some? {
        TrackSilent(m, n, silent, held.value, e);
      } else {
        TrackIrrelevant(m, n, silent, e);
      }
    }
  }

  /** A bot sent back to `to`, its listing retired and event `e` logged. */
  lemma ReturnTracks(w: World, cx: Context, id: U64, to: Address, called: bool, e: Event,
                     silent: set<U64>)
    requires Custody(w) && Tracks(w.m, silent) && w.m.IsActive(id) && to != w.m.self && Closes(e, id) && !e.Sold?
    requires w.MoveBot(cx, w.m.listings[id].botId, w.m.self, to, called).Ok?
    ensures var n := w.MoveBot(cx, w.m.listings[id].botId, w.m.self, to, called).value.m.Deactivate(id).Emit(e);
            Tracks(n, silent) && View(n).volume == View(w.m).volume
  {
    ExitRetires(w, cx, id, to, called);
    var u := w.MoveBot(cx, w.m.listings[id].botId, w.m.self, to, called).value.m;
    TrackExit(w.m, u.Deactivate(id).Emit(e), silent, id, called, e);
  }

  lemma ExitTracks(w: World, cx: Context, a: Action, silent: set<U64>)
    requires Inv(w) && Admissible(w, cx, a) && Tracks(w.m, silent) && (a.Cancel? || a.Reclaim?)
    ensures Tracks(Step(w, cx, a).m, silent)
    ensures View(Step(w, cx, a).m).volume == View(w.m).volume
  {
    if Apply(w, cx, a).Ok? {
      var id, l := a.listingId, w.m.listings[a.listingId];
      assert Escrowed(w, l);
      ReturnTracks(w, cx, id, l.seller, a.called,
                   if a.Cancel? then ListingCancelled(l.seller, id, l.botId) else Reclaimed(l.seller, id, l.botId),
                   silent);
    }
  }

  lemma OfferTracks(w: World, cx: Context, a: Action, silent: set<U64>)
    requires Inv(w) && Tracks(w.m, silent) && (a.MakeOffer? || a.CancelOffer? || a.Dismiss? || a.WithdrawFees?)
    ensures Tracks(Step(w, cx, a).m, silent)
    ensures View(Step(w, cx, a).m).volume == View(w.m).volume
  {
    var n := Step(w, cx, a).m;
    if Apply(w, cx, a).Ok? {
      assert n.events == w.m.events + [n.events[|n.events| - 1]];
      TrackIrrelevant(w.m, n, silent, n.events[|n.events| - 1]);
    }
  }

  /** `n` is `m` after a purchase, as far as listings and the log are concerned. */
  ghost predicate SoldInto(m: Market, n: Market, buyer: Address, id: U64, called: bool) {
    && m.IsActive(id)
    && n.listings == m.Deactivate(id).listings && n.nextListing == m.nextListing
    && var l := m.listings[id];
       n.events == m.events + (if called then [Deactivated(l.botId, id)] else [])
                   + [Sold(l.seller, buyer, id, l.botId, l.price, l.currency)]
  }

  lemma BuyLog(w: World, cx: Context, buyer: Address, id: U64, called: bool, n: Market)
    requires Inv(w) && w.m.self !in cx.auth
    requires w.Buy(cx, buyer, id, called).Ok? && n == w.Buy(cx, buyer, id, called).value.m
    ensures SoldInto(w.m, n, buyer, id, called)
  {
    BuyPaysExactly(w, cx, buyer, id, called);
  }

  lemma SoldTracks(m: Market, n: Market, buyer: Address, id: U64, called: bool, silent: set<U64>)
    requires Tracks(m, silent) && SoldInto(m, n, buyer, id, called)
    ensures Tracks(n, silent)
    ensures View(n).volume == Sale(View(m).volume, m.listings[id])
  {
    var l := m.listings[id];
    TrackExit(m, n, silent, id, called, Sold(l.seller, buyer, id, l.botId, l.price, l.currency));
  }

  lemma BuyTracks(w: World, cx: Context, a: Action, silent: set<U64>)
    requires Inv(w) && Admissible(w, cx, a) && Tracks(w.m, silent) && a.Buy?
    ensures Tracks(Step(w, cx, a).m, silent)
    ensures View(Step(w, cx, a).m).volume == VolumeAfter(w, cx, a, View(w.m).volume)
  {
    if Apply(w, cx, a).Ok? {
      BuyLog(w, cx, a.buyer, a.listingId, a.called, Step(w, cx, a).m);
      SoldTracks(w.m, Step(w, cx, a).m, a.buyer, a.listingId, a.called, silent);
    }
  }

  lemma ListTracks(w: World, cx: Context, a: Action, silent: set<U64>)
    requires Inv(w) && Tracks(w.m, silent) && a.List?
    ensures Tracks(Step(w, cx, a).m, silent)
    ensures View(Step(w, cx, a).m).volume == View(w.m).volume
  {
    if Apply(w, cx, a).Ok? {
      var n := Step(w, cx, a).m;
      TrackListed(w.m, n, silent, n.listings[w.m.nextListing]);
    }
  }

  lemma RepriceTracks(w: World, cx: Context, a: Action, silent: set<U64>)
    requires Inv(w) && Tracks(w.m, silent) && a.Reprice?
    ensures Tracks(Step(w, cx, a).m, silent)
    ensures View(Step(w, cx, a).m).volume == View(w.m).volume
  {
    if Apply(w, cx, a).Ok? {
      TrackRepriced(w.m, Step(w, cx, a).m, silent, a.listingId, a.newPrice);
    }
  }

  lemma SettingTracks(w: World, cx: Context, a: Action, silent: set<U64>)
    requires Tracks(w.m, silent) && (a.SetFeeBps? || a.SetMinPrice? || a.Configure? || a.SetBotNft?)
    ensures Tracks(Step(w, cx, a).m, silent)
    ensures View(Step(w, cx, a).m).volume == View(w.m).volume
  {
    TrackSame(w.m, Step(w, cx, a).m, silent);
  }

  lemma OutsideTracks(w: World, cx: Context, a: Action, silent: set<U64>)
    requires Inv(w) && Admissible(w, cx, a) && Tracks(w.m, silent)
    requires a.CompactPage? || a.NftCall? || a.TokenCall?
    ensures Tracks(Step(w, cx, a).m, silent)
    ensures View(Step(w, cx, a).m).volume == View(w.m).volume
  {
    if a.NftCall? {
      OutsideCallbackIsInert(w, cx, a.nftCall, a.called);
    }
    TrackSame(w.m, Step(w, cx, a).m, silent);
  }

  lemma StepTracks(w: World, cx: Context, a: Action, silent: set<U64>)
    requires Inv(w) && Admissible(w, cx, a) && Tracks(w.m, silent)
    ensures Tracks(Step(w, cx, a).m, silent + SilentIn(w, cx, a))
    ensures View(Step(w, cx, a).m).volume == VolumeAfter(w, cx, a, View(w.m).volume)
  {
    assert silent + {} == silent;
    if a.List? {
      ListTracks(w, cx, a, silent);
    } else if a.Buy? {
      BuyTracks(w, cx, a, silent);
    } else if a.Reprice? {
      RepriceTracks(w, cx, a, silent);
    } else if a.Cancel? || a.Reclaim? {
      ExitTracks(w, cx, a, silent);
    } else if a.MakeOffer? || a.CancelOffer? || a.Dismiss? || a.WithdrawFees? {
      OfferTracks(w, cx, a, silent);
    } else if a.Accept? {
      AcceptTracks(w, cx, a, silent);
    } else if a.CompactPage? || a.NftCall? || a.TokenCall? {
      OutsideTracks(w, cx, a, silent);
    } else {
      SettingTracks(w, cx, a, silent);
    }
  }

  // ---- runs -------------------------------------------------------------------------------

  /** All listings a run retires silently. */
  ghost function Silent(w: World, steps: seq<(Context, Action)>): set<U64>
    decreases |steps|
  {
    if steps == [] then {}
    else SilentIn(w, steps[0].0, steps[0].1) + Silent(Step(w, steps[0].0, steps[0].1), steps[1..])
  }

  lemma {:induction false} RunTracks(w: World, steps: seq<(Context, Action)>, silent: set<U64>)
    requires Inv(w) && AdmissibleRun(w, steps) && Tracks(w.m, silent)
    ensures Tracks(Run(w, steps).m, silent + Silent(w, steps))
    decreases |steps|
  {
    if steps == [] {
      assert silent + {} == silent;
    } else {
      var v := Step(w, steps[0].0, steps[0].1);
      StepKeeps(w, steps[0].0, steps[0].1);
      StepTracks(w, steps[0].0, steps[0].1, silent);
      RunTracks(v, steps[1..], silent + SilentIn(w, steps[0].0, steps[0].1));
      assert silent + SilentIn(w, steps[0].0, steps[0].1) + Silent(v, steps[1..]) == silent + Silent(w, steps);
    }
  }

  /** What a run's purchases in currency `c` add up to. */
  ghost function Traded(w: World, steps: seq<(Context, Action)>, c: Address): int
    decreases |steps|
  {
    if steps == [] then 0
    else (if steps[0].1.Buy? && Apply(w, steps[0].0, steps[0].1).Ok?
             && w.m.listings[steps[0].1.listingId].currency == c
          then w.m.listings[steps[0].1.listingId].price else 0)
         + Traded(Step(w, steps[0].0, steps[0].1), steps[1..], c)
  }

  /** The view's volume in every currency is the sum of the prices paid in purchases; what accepted
      offers turn over is not part of it. */
  lemma {:induction false} VolumeIsTraded(w: World, steps: seq<(Context, Action)>, silent: set<U64>, c: Address)
    requires Inv(w) && AdmissibleRun(w, steps) && Tracks(w.m, silent)
    ensures I.VolumeOf(View(Run(w, steps).m).volume, c) == I.VolumeOf(View(w.m).volume, c) + Traded(w, steps, c)
    decreases |steps|
  {
    if steps != [] {
      var v := Step(w, steps[0].0, steps[0].1);
      StepKeeps(w, steps[0].0, steps[0].1);
      StepTracks(w, steps[0].0, steps[0].1, silent);
      VolumeIsTraded(v, steps[1..], silent + SilentIn(w, steps[0].0, steps[0].1), c);
    }
  }

  ghost function ShownIds(m: Market): set<U64> {
    set id | id in View(m).listings && View(m).listings[id].status == I.Active
  }

  /** Indexing everything a market ever emitted shows its active listings with their sellers, bots,
      prices and currencies, and beside them exactly the listings retired by accepting an offer while
      bot_nft's callback did not run; and its volumes are what purchases paid. */
  lemma {:induction false} ViewIsActivePlusSilent(w: World, steps: seq<(Context, Action)>)
    requires Genesis(w) && AdmissibleRun(w, steps)
    ensures var m := Run(w, steps).m;
            && ShownIds(m) == m.ActiveIds() + Silent(w, steps)
            && m.ActiveIds() !! Silent(w, steps)
            && (forall id :: m.IsActive(id) ==> RowMatches(View(m).listings, id, m.listings[id]))
            && forall c :: I.VolumeOf(View(m).volume, c) == Traded(w, steps, c)
  {
    GenesisInv(w);
    assert Tracks(w.m, {});
    RunTracks(w, steps, {});
    forall c
      ensures I.VolumeOf(View(Run(w, steps).m).volume, c) == Traded(w, steps, c)
    {
      VolumeIsTraded(w, steps, {}, c);
    }
    assert {} + Silent(w, steps) == Silent(w, steps);
    var m := Run(w, steps).m;
    assert forall id :: id in ShownIds(m) <==> Shown(View(m).listings, id);
    assert forall id :: id in m.ActiveIds() <==> m.IsActive(id);
  }

  /** So the view is exact if and only if no accepted offer retired a listing silently. */
  lemma {:induction false} ViewExactIff(w: World, steps: seq<(Context, Action)>)
    requires Genesis(w) && AdmissibleRun(w, steps)
    ensures ShownIds(Run(w, steps).m) == Run(w, steps).m.ActiveIds() <==> Silent(w, steps) == {}
  {
    ViewIsActivePlusSilent(w, steps);
    var m, silent := Run(w, steps).m, Silent(w, steps);
    assert ShownIds(m) - m.ActiveIds() == silent;
  }
}
