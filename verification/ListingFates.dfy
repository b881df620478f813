/** What the indexer's rows say about listings that are over: how each of them ended. */
module ListingFates {
  import opened Common
  import opened MarketSpec
  import opened MarketLegs
  import opened MarketInv
  import opened MarketTheorems
  import opened MarketSuccess
  import opened MarketEffects
  import opened Projection
  import I = IndexerSpec

  type Fates = map<U64, I.Status>

  /** Every listing has a row, and the row says how the listing fared. */
  ghost predicate FatesShown(m: Market, fates: Fates) {
    && View(m).listings.Keys == fates.Keys
    && forall id :: id in fates ==> View(m).listings[id].status == fates[id]
  }

  /** How listings fare in one step: by what was done to them, not by what was logged. An acceptance without
      the callback is not noticed. */
  ghost function FateAfter(w: World, cx: Context, a: Action, fates: Fates): Fates {
    if Apply(w, cx, a).Err? then fates
    else match a
         case List(_, _, _, _, _) => fates[w.m.nextListing := I.Active]
         case Buy(_, id, _) => fates[id := I.Sold]
         case Cancel(_, id, _) => fates[id := I.Cancelled]
         case Reclaim(id, _) => fates[id := I.Reclaimed]
         case Accept(_, offerId, true) =>
           if id :| offerId in w.m.offers && w.m.IsActive(id) && w.m.listings[id].botId == w.m.offers[offerId].botId
           then fates[id := I.Deactivated] else fates
         case _ => fates
  }

  ghost function FatesOf(w: World, steps: seq<(Context, Action)>, fates: Fates): Fates
    decreases |steps|
  {
    if steps == [] then fates
    else FatesOf(Step(w, steps[0].0, steps[0].1), steps[1..], FateAfter(w, steps[0].0, steps[0].1, fates))
  }

  // ---- one event ----------------------------------------------------------------------------

  /** The listing an event ends, and how. */
  function Ends(e: Event): Option<(U64, I.Status)> {
    match e
    case Sold(_, _, id, _, _, _) => Some((id, I.Sold))
    case ListingCancelled(_, id, _) => Some((id, I.Cancelled))
    case Reclaimed(_, id, _) => Some((id, I.Reclaimed))
    case Deactivated(_, id) => Some((id, I.Deactivated))
    case _ => None
  }

  lemma EndShows(m: Market, n: Market, fates: Fates, e: Event, id: U64, status: I.Status)
    requires FatesShown(m, fates) && n.events == m.events + [e] && Ends(e) == Some((id, status))
    ensures FatesShown(n, fates[id := status])
  {
    ViewAppends(m, n, e);
  }

  lemma StartShows(m: Market, n: Market, fates: Fates, e: Event)
    requires FatesShown(m, fates) && n.events == m.events + [e] && e.Listed?
    ensures FatesShown(n, fates[e.id := I.Active])
  {
    ViewAppends(m, n, e);
  }

  lemma OtherShows(m: Market, n: Market, fates: Fates, e: Event)
    requires FatesShown(m, fates) && n.events == m.events + [e] && (Irrelevant(e) || e.Repriced?)
    ensures FatesShown(n, fates)
  {
    ViewAppends(m, n, e);
  }

  lemma SameShows(m: Market, n: Market, fates: Fates)
    requires FatesShown(m, fates) && n.events == m.events
    ensures FatesShown(n, fates)
  {
  }

  lemma TwiceSet(fates: Fates, id: U64, first: I.Status, last: I.Status)
    ensures fates[id := first][id := last] == fates[id := last]
  {
  }

  /** Two events, the callback's first: the last word counts. */
  lemma BothShow(m: Market, n: Market, fates: Fates, d: Event, e: Event, id: U64, first: I.Status, last: I.Status)
    requires FatesShown(m, fates) && Ends(d) == Some((id, first)) && Ends(e) == Some((id, last))
    requires n.events == m.events + [d, e]
    ensures FatesShown(n, fates[id := last])
  {
    var mid := m.Emit(d);
    EndShows(m, mid, fates, d, id, first);
    assert n.events == mid.events + [e];
    EndShows(mid, n, fates[id := first], e, id, last);
    TwiceSet(fates, id, first, last);
  }

  /** An exit, after the callback's event if that was logged first. */
  lemma ExitShows(m: Market, n: Market, fates: Fates, botId: U64, id: U64, called: bool, e: Event, status: I.Status)
    requires FatesShown(m, fates) && Ends(e) == Some((id, status))
    requires n.events == m.events + ((if called then [Deactivated(botId, id)] else []) + [e])
    ensures FatesShown(n, fates[id := status])
  {
    if called {
      assert [Deactivated(botId, id)] + [e] == [Deactivated(botId, id), e];
      BothShow(m, n, fates, Deactivated(botId, id), e, id, I.Deactivated, status);
    } else {
      assert [] + [e] == [e];
      EndShows(m, n, fates, e, id, status);
    }
  }

  // ---- one step -----------------------------------------------------------------------------

  lemma SoldLogs(w: World, v: World, id: U64, to: Address, log: seq<Event>)
    requires id in w.m.listings && SoldTo(w, v, id, to, log)
    ensures v.m.events == w.m.events + log
  {
  }

  lemma BuyLogs(w: World, cx: Context, a: Action)
    requires Reachable(w) && Admissible(w, cx, a) && Apply(w, cx, a).Ok? && a.Buy?
    ensures a.listingId in w.m.listings
    ensures var l := w.m.listings[a.listingId];
            Step(w, cx, a).m.events
            == w.m.events + ((if a.called then [Deactivated(l.botId, a.listingId)] else [])
                             + [Event.Sold(l.seller, a.buyer, a.listingId, l.botId, l.price, l.currency)])
  {
    BuyHands(w, cx, a.buyer, a.listingId, a.called);
    var l := w.m.listings[a.listingId];
    SoldLogs(w, Step(w, cx, a), a.listingId, a.buyer,
             (if a.called then [Deactivated(l.botId, a.listingId)] else [])
             + [Event.Sold(l.seller, a.buyer, a.listingId, l.botId, l.price, l.currency)]);
  }

  lemma BuyShows(w: World, cx: Context, a: Action, fates: Fates)
    requires Reachable(w) && Admissible(w, cx, a) && FatesShown(w.m, fates) && Apply(w, cx, a).Ok? && a.Buy?
    ensures FatesShown(Step(w, cx, a).m, FateAfter(w, cx, a, fates))
  {
    BuyLogs(w, cx, a);
    var l := w.m.listings[a.listingId];
    ExitShows(w.m, Step(w, cx, a).m, fates, l.botId, a.listingId, a.called,
              Event.Sold(l.seller, a.buyer, a.listingId, l.botId, l.price, l.currency), I.Sold);
  }

  lemma CancelShows(w: World, cx: Context, a: Action, fates: Fates)
    requires Reachable(w) && Admissible(w, cx, a) && FatesShown(w.m, fates) && Apply(w, cx, a).Ok? && a.Cancel?
    ensures FatesShown(Step(w, cx, a).m, FateAfter(w, cx, a, fates))
  {
    CancelReturns(w, cx, a.seller, a.listingId, a.called);
    var l := w.m.listings[a.listingId];
    ExitShows(w.m, Step(w, cx, a).m, fates, l.botId, a.listingId, a.called,
              ListingCancelled(l.seller, a.listingId, l.botId), I.Cancelled);
  }

  lemma ReclaimShows(w: World, cx: Context, a: Action, fates: Fates)
    requires Reachable(w) && Admissible(w, cx, a) && FatesShown(w.m, fates) && Apply(w, cx, a).Ok? && a.Reclaim?
    ensures FatesShown(Step(w, cx, a).m, FateAfter(w, cx, a, fates))
  {
    ReclaimReturns(w, cx, a.listingId, a.called);
    var l := w.m.listings[a.listingId];
    ExitShows(w.m, Step(w, cx, a).m, fates, l.botId, a.listingId, a.called,
              Event.Reclaimed(l.seller, a.listingId, l.botId), I.Reclaimed);
  }

  /** The one listing that can be meant. */
  lemma OnlyListing(w: World, seller: Address, botId: U64, held: Option<U64>, id: U64)
    requires Custody(w) && botId in w.nft.bots && seller != w.m.self && HeldBy(w, seller, botId, held)
    requires w.m.IsActive(id) && w.m.listings[id].botId == botId
    ensures held == Some(id)
  {
    assert Escrowed(w, w.m.listings[id]);
  }

  /** What an acceptance whose callback arrived leaves in the log. */
  lemma NoticedShows(m: Market, n: Market, fates: Fates, botId: U64, id: U64, e: Event)
    requires FatesShown(m, fates) && Irrelevant(e) && n.events == m.events + [Deactivated(botId, id)] + [e]
    ensures FatesShown(n, fates[id := I.Deactivated])
  {
    var mid := m.Emit(Deactivated(botId, id));
    EndShows(m, mid, fates, Deactivated(botId, id), id, I.Deactivated);
    OtherShows(mid, n, fates[id := I.Deactivated], e);
  }

  lemma FateOfAccept(w: World, cx: Context, a: Action, fates: Fates, held: Option<U64>)
    requires Custody(w) && a.Accept? && Apply(w, cx, a).Ok? && a.offerId in w.m.offers && a.seller != w.m.self
    requires w.m.offers[a.offerId].botId in w.nft.bots && HeldBy(w, a.seller, w.m.offers[a.offerId].botId, held)
    ensures FateAfter(w, cx, a, fates) == if a.called && held.Some? then fates[held.value := I.Deactivated] else fates
  {
    forall id | w.m.IsActive(id) && w.m.listings[id].botId == w.m.offers[a.offerId].botId
      ensures held == Some(id)
    {
      OnlyListing(w, a.seller, w.m.offers[a.offerId].botId, held, id);
    }
  }

  lemma AcceptedShows(m: Market, n: Market, fates: Fates, held: Option<U64>, botId: U64, called: bool, e: Event)
    requires FatesShown(m, fates) && Irrelevant(e)
    requires n.events == m.events + (if called && held.Some? then [Deactivated(botId, held.value)] else []) + [e]
    ensures FatesShown(n, if called && held.Some? then fates[held.value := I.Deactivated] else fates)
  {
    if called && held.Some? {
      NoticedShows(m, n, fates, botId, held.value, e);
    } else {
      assert m.events + [] + [e] == m.events + [e];
      OtherShows(m, n, fates, e);
    }
  }

  lemma AcceptIsSigned(w: World, cx: Context, a: Action)
    requires a.Accept? && Apply(w, cx, a).Ok?
    ensures a.seller in cx.auth
  {
  }

  lemma AcceptShows(w: World, cx: Context, a: Action, fates: Fates)
    requires Reachable(w) && Admissible(w, cx, a) && FatesShown(w.m, fates) && Apply(w, cx, a).Ok? && a.Accept?
    ensures FatesShown(Step(w, cx, a).m, FateAfter(w, cx, a, fates))
  {
    ReachableInv(w);
    AcceptIsSigned(w, cx, a);
    var held := AcceptHands(w, cx, a.seller, a.offerId, a.called);
    FateOfAccept(w, cx, a, fates, held);
    var o := w.m.offers[a.offerId];
    AcceptedShows(w.m, Step(w, cx, a).m, fates, held, o.botId, a.called,
                  OfferAccepted(a.seller, o.buyer, a.offerId, o.botId, o.amount));
  }

  lemma OfferStepShows(w: World, cx: Context, a: Action, fates: Fates)
    requires Inv(w) && FatesShown(w.m, fates) && Apply(w, cx, a).Ok?
    requires a.MakeOffer? || a.CancelOffer? || a.Dismiss? || a.WithdrawFees?
    ensures FatesShown(Step(w, cx, a).m, fates)
  {
    var n := Step(w, cx, a).m;
    assert n.events == w.m.events + [n.events[|n.events| - 1]];
    OtherShows(w.m, n, fates, n.events[|n.events| - 1]);
  }

  lemma EntryShows(w: World, cx: Context, a: Action, fates: Fates)
    requires Admissible(w, cx, a) && FatesShown(w.m, fates) && Apply(w, cx, a).Ok? && (a.List? || a.Reprice?)
    ensures FatesShown(Step(w, cx, a).m, FateAfter(w, cx, a, fates))
  {
    if a.List? {
      ListEscrows(w, cx, a.seller, a.botId, a.price, a.currency, a.duration);
      StartShows(w.m, Step(w, cx, a).m, fates, Listed(a.seller, w.m.nextListing, a.botId, a.price, a.currency));
    } else {
      RepriceWrites(w, cx, a.seller, a.listingId, a.newPrice);
      var l := w.m.listings[a.listingId];
      OtherShows(w.m, Step(w, cx, a).m, fates, Event.Repriced(l.seller, a.listingId, l.price, a.newPrice));
    }
  }

  lemma SettingsLogNothing(w: World, cx: Context, a: Action)
    requires a.SetFeeBps? || a.SetMinPrice? || a.Configure? || a.SetBotNft? || a.CompactPage? || a.TokenCall?
    ensures Step(w, cx, a).m.events == w.m.events
  {
  }

  lemma OutsideShows(w: World, cx: Context, a: Action, fates: Fates)
    requires Inv(w) && Admissible(w, cx, a) && FatesShown(w.m, fates)
    requires a.SetFeeBps? || a.SetMinPrice? || a.Configure? || a.SetBotNft? || a.CompactPage? || a.NftCall?
             || a.TokenCall?
    ensures FatesShown(Step(w, cx, a).m, fates)
  {
    if a.NftCall? {
      OutsideCallbackIsInert(w, cx, a.nftCall, a.called);
    } else {
      SettingsLogNothing(w, cx, a);
    }
    SameShows(w.m, Step(w, cx, a).m, fates);
  }

  lemma StepShows(w: World, cx: Context, a: Action, fates: Fates)
    requires Reachable(w) && Admissible(w, cx, a) && FatesShown(w.m, fates)
    ensures FatesShown(Step(w, cx, a).m, FateAfter(w, cx, a, fates))
  {
    ReachableInv(w);
    if Apply(w, cx, a).Err? {
      SameShows(w.m, Step(w, cx, a).m, fates);
    } else if a.Buy? {
      BuyShows(w, cx, a, fates);
    } else if a.Cancel? {
      CancelShows(w, cx, a, fates);
    } else if a.Reclaim? {
      ReclaimShows(w, cx, a, fates);
    } else if a.Accept? {
      AcceptShows(w, cx, a, fates);
    } else if a.List? || a.Reprice? {
      EntryShows(w, cx, a, fates);
    } else if a.MakeOffer? || a.CancelOffer? || a.Dismiss? || a.WithdrawFees? {
      OfferStepShows(w, cx, a, fates);
    } else {
      OutsideShows(w, cx, a, fates);
    }
  }

  // ---- runs ---------------------------------------------------------------------------------

  lemma {:induction false} RunShows(w: World, steps: seq<(Context, Action)>, fates: Fates)
    requires Reachable(w) && AdmissibleRun(w, steps) && FatesShown(w.m, fates)
    ensures FatesShown(Run(w, steps).m, FatesOf(w, steps, fates))
    decreases |steps|
  {
    if steps != [] {
      StepShows(w, steps[0].0, steps[0].1, fates);
      StepReaches(w, steps[0].0, steps[0].1);
      RunShows(Step(w, steps[0].0, steps[0].1), steps[1..], FateAfter(w, steps[0].0, steps[0].1, fates));
    }
  }

  /** Over every run the indexer has a row for every listing there ever was, and the row says how it ended:
      sold, cancelled, reclaimed, or taken out by an offer whose callback arrived; all others show as active. */
  lemma {:induction false} RowsTellFates(w: World, steps: seq<(Context, Action)>)
    requires Genesis(w) && AdmissibleRun(w, steps)
    ensures FatesShown(Run(w, steps).m, FatesOf(w, steps, map[]))
  {
    assert AdmissibleRun(w, []) && w == Run(w, []);
    assert View(w.m).listings == map[];
    RunShows(w, steps, map[]);
  }
}
