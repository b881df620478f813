/** End to end: a market emits, a chain orders, an indexer polls, crashes and restarts; what its tables
    show in the end is the market. */
module Pipeline {
  import opened Common
  import opened IndexerSpec
  import opened IndexerRuns
  import M = MarketSpec
  import Inv = MarketInv
  import T = TokenSpec
  import TR = TokenRuns
  import opened Projection
  import F = ListingFates

  /** The marketplace's events in a log, in order, between those of other contracts. */
  function MarketEvents(log: seq<LogEvent>): seq<M.Event>
    decreases |log|
  {
    if log == [] then []
    else
      var last := log[|log| - 1];
      MarketEvents(log[..|log| - 1]) + if last.payload.Market? then [last.payload.e] else []
  }

  /** The same rows but for the ledger a listing was seen in. */
  ghost predicate SameRow(a: Row, b: Row) {
    a.(listedLedger := None) == b.(listedLedger := None)
  }

  ghost predicate SameRows(a: map<U64, Row>, b: map<U64, Row>) {
    a.Keys == b.Keys && forall id :: id in a ==> SameRow(a[id], b[id])
  }

  lemma ApplySame(a: map<U64, Row>, b: map<U64, Row>, e: M.Event, x: nat, y: nat)
    requires SameRows(a, b)
    ensures SameRows(ApplyListing(a, e, x), ApplyListing(b, e, y))
  {
  }

  lemma ApplySameEvent(a: Views, b: Views, x: LogEvent, y: LogEvent)
    requires SameRows(a.listings, b.listings) && a.volume == b.volume
    requires x.payload.Market? && y.payload == x.payload
    ensures SameRows(ApplyEvent(a, x).listings, ApplyEvent(b, y).listings)
    ensures ApplyEvent(a, x).volume == ApplyEvent(b, y).volume
  {
    ApplySame(a.listings, b.listings, x.payload.e, x.ledger, y.ledger);
  }

  lemma {:induction false} AsLogAppend(seen: seq<M.Event>, e: M.Event)
    ensures AsLog(seen + [e]) == AsLog(seen) + [LogEvent(|seen| + 1, 0, Market(e))]
  {
    assert (seen + [e])[..|seen|] == seen;
  }

  /** One more marketplace event, in the log and in the market's own list. */
  lemma {:induction false} FoldMarketEvent(views: Views, last: LogEvent, seen: seq<M.Event>)
    requires last.payload.Market?
    requires SameRows(views.listings, Fold(AsLog(seen)).listings) && views.volume == Fold(AsLog(seen)).volume
    ensures SameRows(ApplyEvent(views, last).listings, Fold(AsLog(seen + [last.payload.e])).listings)
    ensures ApplyEvent(views, last).volume == Fold(AsLog(seen + [last.payload.e])).volume
  {
    var x := LogEvent(|seen| + 1, 0, last.payload);
    AsLogAppend(seen, last.payload.e);
    FoldAppend(AsLog(seen), x);
    ApplySameEvent(views, Fold(AsLog(seen)), last, x);
  }

  /** The views of a log depend on its marketplace events only, ids and other contracts aside. */
  lemma {:induction false} FoldIsView(log: seq<LogEvent>)
    ensures SameRows(Fold(log).listings, Fold(AsLog(MarketEvents(log))).listings)
    ensures Fold(log).volume == Fold(AsLog(MarketEvents(log))).volume
    decreases |log|
  {
    if log != [] {
      var front, last := log[..|log| - 1], log[|log| - 1];
      FoldIsView(front);
      if last.payload.Market? {
        FoldMarketEvent(Fold(front), last, MarketEvents(front));
      } else {
        assert MarketEvents(front) + [] == MarketEvents(front);
      }
    }
  }

  ghost function ShownIn(rows: map<U64, Row>): set<U64> {
    set id | id in rows && rows[id].status == Active
  }

  /** Once an indexer that jumped over nothing has covered everything a market emitted, its tables show
      the market's active listings with their sellers, bots, prices and currencies, beside them exactly
      the listings that accepted offers retired silently, and the traded volumes; through any crashes,
      restarts and overlapping answers on the way. */
  lemma TablesFollowMarket(chain: seq<RawEvent>, from: int, polls: seq<Poll>,
                          w: M.World, steps: seq<(Context, M.Action)>)
    requires Chain(chain) && from >= 1 && Seamless(chain, false, from, from - 1, polls)
    requires Inv.Genesis(w) && Inv.AdmissibleRun(w, steps)
    requires MarketEvents(Good(chain, from, Covered(from - 1, polls))) == M.Run(w, steps).m.events
    ensures var m, views := M.Run(w, steps).m, Polls(Db([], EMPTY, None), chain, polls).views;
            && ShownIn(views.listings) == m.ActiveIds() + Silent(w, steps)
            && (forall id :: m.IsActive(id) ==> RowMatches(views.listings, id, m.listings[id]))
            && forall c :: VolumeOf(views.volume, c) == Traded(w, steps, c)
  {
    var m, views := M.Run(w, steps).m, Polls(Db([], EMPTY, None), chain, polls).views;
    ExactlyOnce(chain, from, polls);
    FoldIsView(Good(chain, from, Covered(from - 1, polls)));
    ViewIsActivePlusSilent(w, steps);
    assert ShownIn(views.listings) == ShownIds(m);
  }

  /** And every row of theirs says how its listing ended. */
  lemma TablesTellFates(chain: seq<RawEvent>, from: int, polls: seq<Poll>,
                        w: M.World, steps: seq<(Context, M.Action)>)
    requires Chain(chain) && from >= 1 && Seamless(chain, false, from, from - 1, polls)
    requires Inv.Genesis(w) && Inv.AdmissibleRun(w, steps)
    requires MarketEvents(Good(chain, from, Covered(from - 1, polls))) == M.Run(w, steps).m.events
    ensures var rows, fates := Polls(Db([], EMPTY, None), chain, polls).views.listings, F.FatesOf(w, steps, map[]);
            rows.Keys == fates.Keys && forall id :: id in rows ==> rows[id].status == fates[id]
  {
    ExactlyOnce(chain, from, polls);
    FoldIsView(Good(chain, from, Covered(from - 1, polls)));
    F.RowsTellFates(w, steps);
    var rows, view := Polls(Db([], EMPTY, None), chain, polls).views.listings, View(M.Run(w, steps).m).listings;
    assert SameRows(rows, view);
    forall id | id in rows
      ensures rows[id].status == view[id].status
    {
      assert SameRow(rows[id], view[id]);
    }
  }

  // ---- what was minted ------------------------------------------------------------------------

  /** The amounts of the `mint` events in a log. */
  function TokenMints(log: seq<LogEvent>): seq<int>
    decreases |log|
  {
    if log == [] then []
    else
      var last := log[|log| - 1];
      TokenMints(log[..|log| - 1]) + if last.payload.TokenMint? then [last.payload.amount] else []
  }

  /** The amounts a token logs as minted along a run; a zero mint logs nothing. */
  function MintEvents(t: T.Token, calls: seq<(Context, TR.Call)>): seq<int>
    decreases |calls|
  {
    if calls == [] then []
    else (if calls[0].1.Mint? && TR.Created(t, calls[0].0, calls[0].1) > 0
          then [TR.Created(t, calls[0].0, calls[0].1)] else [])
         + MintEvents(TR.Step(t, calls[0].0, calls[0].1), calls[1..])
  }

  /** Everything burned along a run. */
  function Burned(t: T.Token, calls: seq<(Context, TR.Call)>): int
    decreases |calls|
  {
    if calls == [] then 0
    else (if calls[0].1.Mint? then 0 else -TR.Created(t, calls[0].0, calls[0].1))
         + Burned(TR.Step(t, calls[0].0, calls[0].1), calls[1..])
  }

  function Added(amounts: seq<int>): int
    decreases |amounts|
  {
    if amounts == [] then 0 else Added(amounts[..|amounts| - 1]) + amounts[|amounts| - 1]
  }

  lemma {:induction false} AddedConcat(a: seq<int>, b: seq<int>)
    ensures Added(a + b) == Added(a) + Added(b)
    decreases |b|
  {
    if b == [] {
      assert a + b == a;
    } else {
      assert (a + b)[..|a + b| - 1] == a + b[..|b| - 1];
      AddedConcat(a, b[..|b| - 1]);
    }
  }

  lemma {:induction false} FoldMinted(log: seq<LogEvent>)
    ensures Fold(log).minted == Added(TokenMints(log))
    decreases |log|
  {
    if log != [] {
      var front, last := log[..|log| - 1], log[|log| - 1];
      FoldMinted(front);
      AddedConcat(TokenMints(front), if last.payload.TokenMint? then [last.payload.amount] else []);
    }
  }

  lemma {:induction false} CreatedSplits(t: T.Token, calls: seq<(Context, TR.Call)>)
    ensures TR.CreatedBy(t, calls) == Added(MintEvents(t, calls)) - Burned(t, calls)
    decreases |calls|
  {
    if calls != [] {
      var next, created := TR.Step(t, calls[0].0, calls[0].1), TR.Created(t, calls[0].0, calls[0].1);
      CreatedSplits(next, calls[1..]);
      AddedConcat(if calls[0].1.Mint? && created > 0 then [created] else [], MintEvents(next, calls[1..]));
    }
  }

  /** Once an indexer that jumped over nothing has covered everything a token minted, its total is what
      the ledger says: the supply gained since, and everything burned meanwhile. */
  lemma MintedFollowsToken(chain: seq<RawEvent>, from: int, polls: seq<Poll>,
                          t: T.Token, calls: seq<(Context, TR.Call)>)
    requires Chain(chain) && from >= 1 && Seamless(chain, false, from, from - 1, polls) && t.Sound()
    requires TokenMints(Good(chain, from, Covered(from - 1, polls))) == MintEvents(t, calls)
    ensures Polls(Db([], EMPTY, None), chain, polls).views.minted
         == TR.Run(t, calls).supply - t.supply + Burned(t, calls)
  {
    ExactlyOnce(chain, from, polls);
    FoldMinted(Good(chain, from, Covered(from - 1, polls)));
    TR.RunSound(t, calls);
    CreatedSplits(t, calls);
  }
}
