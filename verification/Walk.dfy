/** Paging through the active listings by id cursor, while the market moves on between the calls. */
module Walk {
  import opened Common
  import opened IdLists
  import opened MarketSpec
  import opened MarketLegs
  import opened MarketInv
  import opened MarketTheorems
  import opened MarketIndex
  import opened Marketplace
  import N = NftSpec

  /** One answer: exactly the active listings above the cursor up to the next cursor, in order. */
  ghost predicate Page(m: Market, cursor: U64, out: seq<U64>, next: U64) {
    && cursor <= next
    && Ascending(out)
    && forall id: U64 :: id in out <==> m.IsActive(id) && cursor < id <= next
  }

  /** Nothing is indexed above the cursor. */
  ghost predicate Exhausted(m: Market, cursor: U64) {
    forall id :: id in Flatten(m.pages) ==> id <= cursor
  }

  /** How many index entries one call may look at. */
  function Window(limit: U32): nat {
    Min(limit * 4, U32_MAX)
  }

  /** `get_active_listings`; a listing is named by its id. The custody filter drops nothing. */
  method GetActiveListings(s: Storage, cursor: U64, limit: U32) returns (out: seq<U64>, next: U64)
    requires s.Valid()
    ensures |out| <= limit && Page(s.Market(), cursor, out, next)
    ensures next == cursor || next in IdsAfter(s.pages, cursor, Window(limit))
    ensures |out| < limit ==> forall id :: id in IdsAfter(s.pages, cursor, Window(limit)) ==> id <= next
    ensures limit > 0 ==> (next == cursor <==> Exhausted(s.Market(), cursor))
  {
    out, next := [], cursor;
    if limit == 0 {
      return;
    }
    var ids := IdsAfterCursor(s.pages, cursor, Window(limit));
    var k := 0;
    while k < |ids| && |out| < limit
      invariant 0 <= k <= |ids| && |out| <= limit
      invariant next == if k == 0 then cursor else ids[k - 1]
      invariant out == Live(ids[..k], s.listings)
    {
      assert ids[..k + 1][..k] == ids[..k];
      next := ids[k];
      var served := IsServed(s, next);
      if served {
        out := out + [next];
      }
      k := k + 1;
    }
    WindowServes(s.Market(), cursor, Window(limit), k);
    LiveKeeps(ids[..k], s.listings);
  }

  /** The active ids among the first `k` of the window are a page. */
  lemma WindowServes(m: Market, cursor: U64, max: nat, k: nat)
    requires Paged(m) && max >= 1 && k <= |IdsAfter(m.pages, cursor, max)|
    ensures var ids := IdsAfter(m.pages, cursor, max);
            var next := if k == 0 then cursor else ids[k - 1];
            && Page(m, cursor, Live(ids[..k], m.listings), next)
            && (k > 0 ==> next in ids && next > cursor)
            && (k == |ids| ==> forall id :: id in ids ==> id <= next)
            && (ids == [] <==> Exhausted(m, cursor))
  {
    var ids := IdsAfter(m.pages, cursor, max);
    WindowCovers(m, cursor, max, k);
    AboveKeeps(Flatten(m.pages), cursor);
    assert Ascending(ids[..k]);
    LiveKeeps(ids[..k], m.listings);
  }

  /** Active and still in custody; the second never fails. */
  method IsServed(s: Storage, id: U64) returns (served: bool)
    requires s.Valid()
    ensures served == s.Market().IsActive(id)
  {
    if id !in s.listings || !s.listings[id].active {
      return false;
    }
    var l := s.listings[id];
    assert s.Market().IsActive(id) && Escrowed(s.World(), l);
    return l.botId in s.nft.bots && s.nft.bots[l.botId].owner == s.self;
  }

  /** After the first `k` entries, everything indexed between the cursor and the last of them was seen. */
  lemma WindowCovers(m: Market, cursor: U64, max: nat, k: nat)
    requires Paged(m) && max >= 1 && k <= |IdsAfter(m.pages, cursor, max)|
    ensures var ids := IdsAfter(m.pages, cursor, max);
            var next := if k == 0 then cursor else ids[k - 1];
            && (forall id :: id in ids[..k] <==> id in Flatten(m.pages) && cursor < id <= next)
            && cursor <= next && (k > 0 ==> next in ids && next > cursor)
            && (k == |ids| ==> forall id :: id in ids ==> id <= next)
            && (ids == [] <==> Exhausted(m, cursor))
  {
    var all, ids := Above(Flatten(m.pages), cursor), IdsAfter(m.pages, cursor, max);
    AboveKeeps(Flatten(m.pages), cursor);
    if k == 0 {
      if ids == [] {
        assert all == [];
      } else {
        assert all[0] in all;
      }
    } else {
      PrefixCovers(all, ids, k);
    }
  }

  /** In an ascending list, the first `k` entries are those up to entry `k`. */
  lemma PrefixCovers(all: seq<U64>, ids: seq<U64>, k: nat)
    requires Ascending(all) && ids <= all && 0 < k <= |ids|
    ensures forall id :: id in ids[..k] <==> id in all && id <= ids[k - 1]
    ensures k == |ids| ==> forall id :: id in ids ==> id <= ids[k - 1]
    ensures ids[k - 1] in ids && ids[k - 1] in all && all[0] in all
  {
    assert ids[k - 1] == all[k - 1];
    forall id | id in all && id <= ids[k - 1]
      ensures id in ids[..k]
    {
      var i :| 0 <= i < |all| && all[i] == id;
      assert i < k && ids[..k][i] == id;
    }
    forall id | id in ids[..k]
      ensures id in all && id <= ids[k - 1]
    {
      var i :| 0 <= i < k && ids[..k][i] == id;
      assert all[i] == id;
    }
    assert k == |ids| ==> ids[..k] == ids;
  }

  // ---- a quiet market -----------------------------------------------------------------------

  lemma {:induction false} AboveShrinks(s: seq<U64>, cursor: U64, next: U64)
    requires cursor <= next
    ensures |Above(s, next)| <= |Above(s, cursor)|
    ensures cursor < next && next in s ==> |Above(s, next)| < |Above(s, cursor)|
    decreases |s|
  {
    if s != [] {
      var front, last := s[..|s| - 1], s[|s| - 1];
      assert s == front + [last];
      AboveShrinks(front, cursor, next);
    }
  }

  lemma PagesJoin(m: Market, start: U64, all: seq<U64>, cursor: U64, page: seq<U64>, next: U64)
    requires Page(m, start, all, cursor) && Page(m, cursor, page, next)
    ensures Page(m, start, all + page, next)
  {
    AscendingConcat(all, page);
  }

  lemma AllPaged(w: World, all: seq<U64>, cursor: U64)
    requires Inv(w) && Page(w.m, 0, all, cursor) && Exhausted(w.m, cursor)
    ensures Lists(all, w.m.ActiveIds()) && Ascending(all)
  {
    InvShape(w);
    assert forall id: U64 :: w.m.IsActive(id) ==> id in Flatten(w.m.pages) && 0 < id <= cursor;
  }

  /** The documented client loop: keep paging until the returned cursor is the one passed in. On a quiet
      market it ends with all active listings, ascending. */
  method WalkAll(s: Storage, limit: U32) returns (all: seq<U64>)
    requires s.Valid() && limit >= 1
    ensures Lists(all, s.Market().ActiveIds()) && Ascending(all)
  {
    all := [];
    ghost var m := s.Market();
    var cursor, done := 0, false;
    while !done
      invariant Page(m, 0, all, cursor)
      invariant done ==> Exhausted(m, cursor)
      decreases !done, |Above(Flatten(s.pages), cursor)|
    {
      var page, next := GetActiveListings(s, cursor, limit);
      PagesJoin(m, 0, all, cursor, page, next);
      AboveKeeps(Flatten(s.pages), cursor);
      AboveShrinks(Flatten(s.pages), cursor, next);
      all, done, cursor := all + page, next == cursor, next;
    }
    AllPaged(s.World(), all, cursor);
  }

  // ---- a market that moves --------------------------------------------------------------------

  /** What any number of steps can do to the listings: new ids are above all old ones, and no listing
      comes back. */
  ghost predicate Later(m: Market, n: Market) {
    && m.nextListing <= n.nextListing
    && (forall id :: id in m.listings ==> id in n.listings)
    && (forall id :: n.IsActive(id) && id in m.listings ==> m.IsActive(id))
    && (forall id :: id in n.listings && id !in m.listings ==> id >= m.nextListing)
  }

  lemma RetireLater(m: Market, n: Market, id: U64)
    requires id in m.listings && n.listings == m.Deactivate(id).listings && n.nextListing == m.nextListing
    ensures Later(m, n)
  {
  }

  lemma ListingsSame(m: Market, n: Market)
    requires n.listings == m.listings && n.nextListing == m.nextListing
    ensures Later(m, n)
  {
    assert forall id :: n.IsActive(id) ==> m.IsActive(id);
  }

  lemma StepLater(w: World, cx: Context, a: Action)
    requires Inv(w) && Admissible(w, cx, a)
    ensures Later(w.m, Step(w, cx, a).m)
  {
    if Apply(w, cx, a).Err? {
      ListingsSame(w.m, w.m);
    } else if a.Buy? {
      BuyPaysExactly(w, cx, a.buyer, a.listingId, a.called);
      RetireLater(w.m, Step(w, cx, a).m, a.listingId);
    } else if a.Cancel? || a.Reclaim? {
      ExitLater(w, cx, a);
    } else if a.Accept? {
      AcceptLater(w, cx, a);
    } else if a.List? || a.Reprice? {
      EntryLater(w, cx, a);
    } else {
      OtherLater(w, cx, a);
    }
  }

  lemma ExitLater(w: World, cx: Context, a: Action)
    requires Inv(w) && Admissible(w, cx, a) && (a.Cancel? || a.Reclaim?) && Apply(w, cx, a).Ok?
    ensures Later(w.m, Step(w, cx, a).m)
  {
    assert Escrowed(w, w.m.listings[a.listingId]);
    ExitRetires(w, cx, a.listingId, w.m.listings[a.listingId].seller, a.called);
    RetireLater(w.m, Step(w, cx, a).m, a.listingId);
  }

  lemma AcceptLater(w: World, cx: Context, a: Action)
    requires Inv(w) && Admissible(w, cx, a) && a.Accept? && Apply(w, cx, a).Ok?
    ensures Later(w.m, Step(w, cx, a).m)
  {
    AcceptPaysExactly(w, cx, a.seller, a.offerId, a.called);
    var held := w.Holding(a.seller, w.m.offers[a.offerId].botId).value;
    if held.Some? {
      RetireLater(w.m, Step(w, cx, a).m, held.value);
    } else {
      ListingsSame(w.m, Step(w, cx, a).m);
    }
  }

  lemma EntryLater(w: World, cx: Context, a: Action)
    requires Inv(w) && (a.List? || a.Reprice?) && Apply(w, cx, a).Ok?
    ensures Later(w.m, Step(w, cx, a).m)
  {
    var n := Step(w, cx, a).m;
    if a.List? {
      AddedLater(w.m, n, n.listings[w.m.nextListing]);
    }
  }

  lemma AddedLater(m: Market, n: Market, l: Listing)
    requires m.nextListing !in m.listings && m.nextListing < U64_MAX
    requires n.listings == m.listings[m.nextListing := l] && n.nextListing == m.nextListing + 1
    ensures Later(m, n)
  {
  }

  lemma OtherLater(w: World, cx: Context, a: Action)
    requires Inv(w) && Admissible(w, cx, a) && Apply(w, cx, a).Ok?
    requires !a.List? && !a.Buy? && !a.Cancel? && !a.Reclaim? && !a.Reprice? && !a.Accept?
    ensures Later(w.m, Step(w, cx, a).m)
  {
    if a.NftCall? {
      OutsideCallbackIsInert(w, cx, a.nftCall, a.called);
    }
    ListingsSame(w.m, Step(w, cx, a).m);
  }

  lemma {:induction false} RunLater(w: World, steps: seq<(Context, Action)>)
    requires Inv(w) && AdmissibleRun(w, steps)
    ensures Later(w.m, Run(w, steps).m)
    decreases |steps|
  {
    if steps != [] {
      StepLater(w, steps[0].0, steps[0].1);
      StepKeeps(w, steps[0].0, steps[0].1);
      RunLater(Step(w, steps[0].0, steps[0].1), steps[1..]);
    }
  }

  /** One call of a walk: the market it ran on and what it answered. */
  datatype Visit = Visit(m: Market, out: seq<U64>, next: U64)

  function CursorAt(visits: seq<Visit>, k: nat): U64
    requires k <= |visits|
  {
    if k == 0 then 0 else visits[k - 1].next
  }

  /** Call `k` got its page for the cursor the one before it returned; it returns that cursor again or
      an id indexed at that time. */
  ghost predicate Served(visits: seq<Visit>, k: nat)
    requires k < |visits|
  {
    var v, cursor := visits[k], CursorAt(visits, k);
    Page(v.m, cursor, v.out, v.next) && (v.next == cursor || v.next in Flatten(v.m.pages))
  }

  ghost predicate Walked(visits: seq<Visit>) {
    forall k :: 0 <= k < |visits| ==> Served(visits, k)
  }

  /** All answers, one after the other. */
  function Returned(visits: seq<Visit>): seq<U64>
    decreases |visits|
  {
    if visits == [] then [] else Returned(visits[..|visits| - 1]) + visits[|visits| - 1].out
  }

  lemma WalkedFront(visits: seq<Visit>)
    requires Walked(visits) && visits != []
    ensures Walked(visits[..|visits| - 1])
  {
    var front := visits[..|visits| - 1];
    forall k | 0 <= k < |front|
      ensures Served(front, k)
    {
      assert Served(visits, k) && CursorAt(front, k) == CursorAt(visits, k);
    }
  }

  /** However the market changes between the calls, no listing is returned twice. */
  lemma {:induction false} NeverTwice(visits: seq<Visit>)
    requires Walked(visits)
    ensures Ascending(Returned(visits)) && Distinct(Returned(visits))
    ensures forall id :: id in Returned(visits) ==> id <= CursorAt(visits, |visits|)
    decreases |visits|
  {
    if visits != [] {
      var front, last := visits[..|visits| - 1], visits[|visits| - 1];
      WalkedFront(visits);
      NeverTwice(front);
      assert Served(visits, |visits| - 1) && CursorAt(front, |front|) == CursorAt(visits, |visits| - 1);
      AscendingConcat(Returned(front), last.out);
    }
  }

  lemma {:induction false} ReturnedBy(visits: seq<Visit>, k: nat)
    requires k < |visits|
    ensures forall id :: id in visits[k].out ==> id in Returned(visits)
    decreases |visits|
  {
    if k < |visits| - 1 {
      ReturnedBy(visits[..|visits| - 1], k);
    }
  }

  /** The call whose range holds an id. */
  lemma {:induction false} RangeOf(visits: seq<Visit>, n: nat, id: U64) returns (k: nat)
    requires n <= |visits| && 0 < id <= CursorAt(visits, n)
    ensures k < n && CursorAt(visits, k) < id <= visits[k].next
    decreases n
  {
    if CursorAt(visits, n - 1) < id {
      k := n - 1;
    } else {
      k := RangeOf(visits, n - 1, id);
    }
  }

  /** Between two calls the market took any steps. */
  ghost predicate Moved(w: World, v: World) {
    exists steps :: AdmissibleRun(w, steps) && v == Run(w, steps)
  }

  lemma MovedLater(w: World, v: World)
    requires Inv(w) && Moved(w, v)
    ensures Inv(v) && Later(w.m, v.m)
  {
    var steps :| AdmissibleRun(w, steps) && v == Run(w, steps);
    RunLater(w, steps);
    RunKeeps(w, steps);
  }

  /** The worlds a walk met, one for each call. */
  ghost predicate Met(visits: seq<Visit>, worlds: seq<World>) {
    && |worlds| == |visits|
    && (forall k :: 0 <= k < |visits| ==> visits[k].m == worlds[k].m)
    && (worlds != [] ==> Inv(worlds[0]))
    && (forall k :: 0 < k < |worlds| ==> Moved(worlds[k - 1], worlds[k]))
  }

  lemma {:induction false} MetLater(visits: seq<Visit>, worlds: seq<World>, j: nat, k: nat)
    requires Met(visits, worlds) && j <= k < |visits|
    ensures Inv(worlds[k]) && Later(visits[j].m, visits[k].m)
    decreases k
  {
    if k > 0 {
      MetLater(visits, worlds, if j < k then j else 0, k - 1);
      MovedLater(worlds[k - 1], worlds[k]);
    }
    if j < k {
      LaterTransitive(visits[j].m, visits[k - 1].m, visits[k].m);
    }
  }

  lemma LaterTransitive(m: Market, n: Market, o: Market)
    requires Later(m, n) && Later(n, o)
    ensures Later(m, o)
  {
    assert forall id :: o.IsActive(id) && id in m.listings ==> n.IsActive(id);
  }

  /** A listing at or below the last cursor that is active at the end of a walk was returned by it,
      even if it was listed while the walk was under way. */
  lemma {:induction false} SurvivorReturned(visits: seq<Visit>, worlds: seq<World>, id: U64)
    requires Walked(visits) && Met(visits, worlds) && visits != []
    requires visits[|visits| - 1].m.IsActive(id) && id <= CursorAt(visits, |visits|)
    ensures id in Returned(visits)
  {
    var last := |visits| - 1;
    MetLater(visits, worlds, last, last);
    assert Books(worlds[last].m);
    var k := RangeOf(visits, |visits|, id);
    MetLater(visits, worlds, k, last);
    MetLater(visits, worlds, k, k);
    assert Served(visits, k) && Paged(worlds[k].m);
    assert id < visits[k].m.nextListing;
    assert visits[k].m.IsActive(id);
    ReturnedBy(visits, k);
  }

  /** A walk that ran until nothing was left has returned every listing active at its end, once each,
      whatever was listed, sold, cancelled or compacted on the way. */
  lemma {:induction false} CompleteWalk(visits: seq<Visit>, worlds: seq<World>)
    requires Walked(visits) && Met(visits, worlds) && visits != []
    requires Exhausted(visits[|visits| - 1].m, CursorAt(visits, |visits|))
    ensures forall id :: visits[|visits| - 1].m.IsActive(id) ==> id in Returned(visits)
    ensures Distinct(Returned(visits))
  {
    NeverTwice(visits);
    MetLater(visits, worlds, |visits| - 1, |visits| - 1);
    assert Paged(worlds[|visits| - 1].m);
    forall id | visits[|visits| - 1].m.IsActive(id)
      ensures id in Returned(visits)
    {
      SurvivorReturned(visits, worlds, id);
    }
  }
}
