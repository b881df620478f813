/** The indexer's derived views as a fold over its event log, and its log as a function of the polls. */
module IndexerSpec {
  import opened Common
  import M = MarketSpec

  datatype Status = Active | Sold | Cancelled | Reclaimed | Deactivated | Unknown

  /** A row of `listings`; the columns are empty when only a closing event was ever seen. */
  datatype Row = Row(seller: Option<Address>, botId: Option<U64>, price: Option<int>, currency: Option<Address>,
                     listedLedger: Option<nat>, status: Status)

  datatype Payload =
    | Market(e: M.Event)
    | TokenMint(amount: int)
    | Other

  /** A decoded event as the log stores it; `id` is the RPC's stable paging token. */
  datatype LogEvent = LogEvent(id: nat, ledger: nat, payload: Payload)

  datatype Views = Views(listings: map<U64, Row>, volume: map<Address, int>, minted: int)

  const EMPTY := Views(map[], map[], 0)

  /** `closeListing`: the row is created as unknown if it was never seen, then given its final status. */
  function Close(rows: map<U64, Row>, id: U64, status: Status): map<U64, Row> {
    var row := if id in rows then rows[id] else Row(None, None, None, None, None, Unknown);
    rows[id := row.(status := status)]
  }

  /** `applyListingState` */
  function ApplyListing(rows: map<U64, Row>, e: M.Event, ledger: nat): map<U64, Row> {
    match e
    case Listed(seller, id, botId, price, currency) =>
      rows[id := Row(Some(seller), Some(botId), Some(price), Some(currency), Some(ledger), Active)]
    case Sold(_, _, id, _, _, _) => Close(rows, id, Sold)
    case ListingCancelled(_, id, _) => Close(rows, id, Cancelled)
    case Reclaimed(_, id, _) => Close(rows, id, Reclaimed)
    case Deactivated(_, id) => Close(rows, id, Deactivated)
    case Repriced(_, id, _, newPrice) =>
      if id in rows && rows[id].status == Active then rows[id := rows[id].(price := Some(newPrice))] else rows
    case _ => rows
  }

  function VolumeOf(volume: map<Address, int>, c: Address): int {
    if c in volume then volume[c] else 0
  }

  /** `applyDerivedState` */
  function ApplyEvent(v: Views, e: LogEvent): Views {
    match e.payload
    case Market(m) =>
      v.(listings := ApplyListing(v.listings, m, e.ledger),
         volume := if m.Sold? then v.volume[m.currency := VolumeOf(v.volume, m.currency) + m.price] else v.volume)
    case TokenMint(amount) => v.(minted := v.minted + amount)
    case Other => v
  }

  /** The views after a whole log. */
  function Fold(log: seq<LogEvent>): Views
    decreases |log|
  {
    if log == [] then EMPTY else ApplyEvent(Fold(log[..|log| - 1]), log[|log| - 1])
  }

  lemma {:induction false} FoldAppend(log: seq<LogEvent>, e: LogEvent)
    ensures Fold(log + [e]) == ApplyEvent(Fold(log), e)
  {
    assert (log + [e])[..|log|] == log;
  }

  // ---- the log --------------------------------------------------------------------------

  /** An event as the RPC returns it; `payload` is empty when it cannot be decoded. */
  datatype RawEvent = RawEvent(id: nat, ledger: nat, success: bool, payload: Option<Payload>)

  /** Events of failed calls and undecodable ones are skipped. */
  function Decode(raw: seq<RawEvent>): seq<LogEvent>
    decreases |raw|
  {
    if raw == [] then []
    else
      var last := raw[|raw| - 1];
      Decode(raw[..|raw| - 1])
        + if last.success && last.payload.Some? then [LogEvent(last.id, last.ledger, last.payload.value)] else []
  }

  /** The chain's events in ledgers `[from, to]`, in order: what a complete RPC answer holds. */
  function Slice(chain: seq<RawEvent>, from: int, to: int): seq<RawEvent>
    decreases |chain|
  {
    if chain == [] then []
    else
      Slice(chain[..|chain| - 1], from, to) + InRange(chain[|chain| - 1], from, to)
  }

  function InRange(e: RawEvent, from: int, to: int): seq<RawEvent> {
    if from <= e.ledger <= to then [e] else []
  }

  /** A chain lists its events by ledger, each under its own id. */
  ghost predicate Chain(chain: seq<RawEvent>) {
    && (forall i, j :: 0 <= i < j < |chain| ==> chain[i].ledger <= chain[j].ledger)
    && (forall i, j :: 0 <= i < j < |chain| ==> chain[i].id != chain[j].id)
  }

  predicate HasId(log: seq<LogEvent>, id: nat) {
    exists i :: 0 <= i < |log| && log[i].id == id
  }

  /** `INSERT OR IGNORE`, one by one. */
  function Insert(log: seq<LogEvent>, batch: seq<LogEvent>): seq<LogEvent>
    decreases |batch|
  {
    if batch == [] then log
    else
      var before := Insert(log, batch[..|batch| - 1]);
      if HasId(before, batch[|batch| - 1].id) then before else before + [batch[|batch| - 1]]
  }

  /** What survives a crash. */
  datatype Db = Db(log: seq<LogEvent>, views: Views, checkpoint: Option<nat>) {
    /** `insertEvents`: log and views in one transaction. */
    function InsertEvents(batch: seq<LogEvent>): Db {
      var after := Insert(log, batch);
      this.(log := after, views := Fold(after))
    }

    /** `resolveStartLedger` */
    function Start(cold: nat): nat {
      if checkpoint.Some? then checkpoint.value + 1 else cold
    }

    ghost predicate Consistent() {
      views == Fold(log)
    }
  }

  /** Where the process dies in one poll, if it does. */
  datatype Crash = BeforeInsert | BeforeCheckpoint | Never

  /** One poll: `cold` is where a start without checkpoint begins, `latest` the head the RPC reports. */
  datatype Poll = Poll(cold: nat, latest: nat, crash: Crash)

  function PollOnce(db: Db, chain: seq<RawEvent>, p: Poll): Db {
    var batch := Decode(Slice(chain, db.Start(p.cold), p.latest));
    match p.crash
    case BeforeInsert => db
    case BeforeCheckpoint => db.InsertEvents(batch)
    case Never => var after := db.InsertEvents(batch);
                  if p.latest > 0 then after.(checkpoint := Some(p.latest)) else after
  }

  function Polls(db: Db, chain: seq<RawEvent>, polls: seq<Poll>): Db
    decreases |polls|
  {
    if polls == [] then db else Polls(PollOnce(db, chain, polls[0]), chain, polls[1..])
  }

  /** The successful, decodable events of ledgers `[from, to]`. */
  function Good(chain: seq<RawEvent>, from: int, to: int): seq<LogEvent> {
    Decode(Slice(chain, from, to))
  }

  lemma {:induction false} DecodeConcat(a: seq<RawEvent>, b: seq<RawEvent>)
    ensures Decode(a + b) == Decode(a) + Decode(b)
    decreases |b|
  {
    if b == [] {
      assert a + b == a;
    } else {
      var front := b[..|b| - 1];
      assert (a + b)[..|a + b| - 1] == a + front;
      DecodeConcat(a, front);
    }
  }

  lemma Rejoin(low: seq<RawEvent>, high: seq<RawEvent>, x: seq<RawEvent>, y: seq<RawEvent>)
    requires high == [] || x == []
    ensures low + high + (x + y) == (low + x) + (high + y)
  {
  }

  /** On a chain, consecutive ranges of ledgers are consecutive pieces. */
  lemma {:induction false} SliceJoins(chain: seq<RawEvent>, from: int, mid: int, to: int)
    requires Chain(chain) && from <= mid + 1 && mid <= to
    ensures Slice(chain, from, to) == Slice(chain, from, mid) + Slice(chain, mid + 1, to)
    decreases |chain|
  {
    if chain != [] {
      var front, last := chain[..|chain| - 1], chain[|chain| - 1];
      SliceJoins(front, from, mid, to);
      if last.ledger <= mid {
        SliceBefore(front, mid + 1, to, last.ledger);
      }
      var x, y := InRange(last, from, mid), InRange(last, mid + 1, to);
      assert InRange(last, from, to) == x + y;
      Rejoin(Slice(front, from, mid), Slice(front, mid + 1, to), x, y);
    }
  }

  lemma {:induction false} SliceBefore(chain: seq<RawEvent>, from: int, to: int, last: int)
    requires forall i :: 0 <= i < |chain| ==> chain[i].ledger <= last
    requires last < from
    ensures Slice(chain, from, to) == []
    decreases |chain|
  {
    if chain != [] {
      SliceBefore(chain[..|chain| - 1], from, to, last);
    }
  }

  lemma GoodJoins(chain: seq<RawEvent>, from: int, mid: int, to: int)
    requires Chain(chain) && from <= mid + 1 && mid <= to
    ensures Good(chain, from, to) == Good(chain, from, mid) + Good(chain, mid + 1, to)
  {
    SliceJoins(chain, from, mid, to);
    DecodeConcat(Slice(chain, from, mid), Slice(chain, mid + 1, to));
  }

  // ---- ids ------------------------------------------------------------------------------

  ghost predicate FromChain(e: LogEvent, chain: seq<RawEvent>, from: int, to: int) {
    exists k :: 0 <= k < |chain| && chain[k].id == e.id && chain[k].ledger == e.ledger && from <= e.ledger <= to
  }

  /** Every logged event stems from its own chain event, in range. */
  lemma {:induction false} GoodFromChain(chain: seq<RawEvent>, from: int, to: int)
    ensures forall i :: 0 <= i < |Good(chain, from, to)| ==> FromChain(Good(chain, from, to)[i], chain, from, to)
    decreases |chain|
  {
    if chain != [] {
      var front, last := chain[..|chain| - 1], chain[|chain| - 1];
      GoodFromChain(front, from, to);
      var g, h := Good(front, from, to), Good(chain, from, to);
      GoodGrows(chain, from, to);
      forall i | 0 <= i < |h|
        ensures FromChain(h[i], chain, from, to)
      {
        if i < |g| {
          assert h[i] == g[i];
          var k :| 0 <= k < |front| && front[k].id == g[i].id && front[k].ledger == g[i].ledger
                   && from <= g[i].ledger <= to;
          assert chain[k] == front[k];
        } else {
          assert chain[|chain| - 1].id == h[i].id;
        }
      }
    }
  }

  ghost predicate DistinctIds(log: seq<LogEvent>) {
    forall i, j :: 0 <= i < j < |log| ==> log[i].id != log[j].id
  }

  lemma NotYetSeen(chain: seq<RawEvent>, from: int, to: int, e: LogEvent)
    requires Chain(chain) && chain != [] && FromChain(e, chain[..|chain| - 1], from, to)
    ensures e.id != chain[|chain| - 1].id
  {
    var front := chain[..|chain| - 1];
    var k :| 0 <= k < |front| && front[k].id == e.id && front[k].ledger == e.ledger && from <= e.ledger <= to;
    assert chain[k] == front[k];
  }

  /** On a chain every id names one event only. */
  lemma {:induction false} GoodDistinct(chain: seq<RawEvent>, from: int, to: int)
    requires Chain(chain)
    ensures DistinctIds(Good(chain, from, to))
    decreases |chain|
  {
    if chain != [] {
      var front, last := chain[..|chain| - 1], chain[|chain| - 1];
      GoodDistinct(front, from, to);
      GoodFromChain(front, from, to);
      var g := Good(front, from, to);
      forall i | 0 <= i < |g|
        ensures g[i].id != last.id
      {
        NotYetSeen(chain, from, to, g[i]);
      }
      GoodGrows(chain, from, to);
    }
  }

  /** One more chain event is logged at the end, or not at all. */
  lemma GoodGrows(chain: seq<RawEvent>, from: int, to: int)
    requires chain != []
    ensures var g, last := Good(chain[..|chain| - 1], from, to), chain[|chain| - 1];
            Good(chain, from, to)
            == g + if from <= last.ledger <= to && last.success && last.payload.Some?
                   then [LogEvent(last.id, last.ledger, last.payload.value)] else []
  {
    var front, last := chain[..|chain| - 1], chain[|chain| - 1];
    if from <= last.ledger <= to {
      var s := Slice(front, from, to) + [last];
      assert s[..|s| - 1] == Slice(front, from, to);
    } else {
      assert Slice(front, from, to) + [] == Slice(front, from, to);
      assert Good(front, from, to) + [] == Good(front, from, to);
    }
  }

  // ---- inserting --------------------------------------------------------------------------

  /** Re-inserting what is there, followed by what is new, appends what is new. */
  lemma {:induction false} InsertOverlap(log: seq<LogEvent>, seen: seq<LogEvent>, next: seq<LogEvent>)
    requires forall i :: 0 <= i < |seen| ==> HasId(log, seen[i].id)
    requires forall i :: 0 <= i < |next| ==> !HasId(log, next[i].id)
    requires DistinctIds(next)
    ensures Insert(log, seen + next) == log + next
    decreases |seen| + |next|
  {
    var batch := seen + next;
    assert log + [] == log;
    if next != [] {
      var front, last := next[..|next| - 1], next[|next| - 1];
      assert batch[..|batch| - 1] == seen + front;
      InsertOverlap(log, seen, front);
      forall i | 0 <= i < |log + front|
        ensures (log + front)[i].id != last.id
      {
        if i < |log| {
          assert !HasId(log, last.id);
        }
      }
    } else if seen != [] {
      assert batch == seen;
      InsertOverlap(log, seen[..|seen| - 1], []);
      assert seen[..|seen| - 1] + [] == seen[..|seen| - 1];
    }
  }
}
