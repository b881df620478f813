/** The indexer under crashes, restarts and overlapping refetches: its log stays a gap-free,
    duplicate-free piece of the chain and its views one fold over it. */
module IndexerRuns {
  import opened Common
  import opened IndexerSpec
  import M = MarketSpec

  /** The highest ledger whose events have been inserted after one more poll. */
  function CoveredBy(to: int, p: Poll): int {
    if p.crash == BeforeInsert || p.latest <= to then to else p.latest
  }

  function Covered(to: int, polls: seq<Poll>): int
    decreases |polls|
  {
    if polls == [] then to else Covered(CoveredBy(to, polls[0]), polls[1..])
  }

  /** Inserting any answer that starts inside or right after what is covered extends it without gap
      and without repetition, whatever part of it was seen before. */
  lemma InsertExtends(chain: seq<RawEvent>, from: int, to: int, start: int, latest: int)
    requires Chain(chain) && from <= start <= to + 1
    ensures Insert(Good(chain, from, to), Good(chain, start, latest))
         == Good(chain, from, if latest > to then latest else to)
  {
    if latest < start {
      SliceEmpty(chain, start, latest);
    } else if latest <= to {
      SeenBefore(chain, from, to, start, latest);
      InsertSeen(Good(chain, from, to), Good(chain, start, latest));
    } else {
      InsertBeyond(chain, from, to, start, latest);
    }
  }

  lemma InsertBeyond(chain: seq<RawEvent>, from: int, to: int, start: int, latest: int)
    requires Chain(chain) && from <= start <= to + 1 && to < latest
    ensures Insert(Good(chain, from, to), Good(chain, start, latest)) == Good(chain, from, latest)
  {
    SeenBefore(chain, from, to, start, to);
    NewBeyond(chain, from, to, to + 1, latest);
    InsertOverlap(Good(chain, from, to), Good(chain, start, to), Good(chain, to + 1, latest));
    GoodJoins(chain, start, to, latest);
    GoodJoins(chain, from, to, latest);
  }

  /** A batch of known events changes nothing. */
  lemma {:induction false} InsertSeen(log: seq<LogEvent>, batch: seq<LogEvent>)
    requires forall i :: 0 <= i < |batch| ==> HasId(log, batch[i].id)
    ensures Insert(log, batch) == log
    decreases |batch|
  {
    if batch != [] {
      InsertSeen(log, batch[..|batch| - 1]);
    }
  }

  /** Events of covered ledgers are in the log. */
  lemma SeenBefore(chain: seq<RawEvent>, from: int, to: int, start: int, mid: int)
    requires Chain(chain) && from <= start <= mid + 1 && mid <= to
    ensures forall i :: 0 <= i < |Good(chain, start, mid)| ==>
              HasId(Good(chain, from, to), Good(chain, start, mid)[i].id)
  {
    GoodJoins(chain, from, start - 1, mid);
    GoodJoins(chain, from, mid, to);
    InTheMiddle(Good(chain, from, start - 1), Good(chain, start, mid), Good(chain, mid + 1, to));
  }

  lemma InTheMiddle(before: seq<LogEvent>, seen: seq<LogEvent>, rest: seq<LogEvent>)
    ensures forall i :: 0 <= i < |seen| ==> HasId(before + seen + rest, seen[i].id)
  {
    forall i | 0 <= i < |seen|
      ensures HasId(before + seen + rest, seen[i].id)
    {
      assert (before + seen + rest)[|before| + i] == seen[i];
    }
  }

  /** A range of ledgers in three pieces. */
  lemma GoodThree(chain: seq<RawEvent>, from: int, to: int, start: int, latest: int)
    requires Chain(chain) && from <= to + 1 && to < start <= latest
    ensures Good(chain, from, latest)
         == Good(chain, from, to) + (Good(chain, to + 1, start - 1) + Good(chain, start, latest))
  {
    GoodJoins(chain, from, to, latest);
    GoodJoins(chain, to + 1, start - 1, latest);
  }

  /** Events of later ledgers are not in the log, and differ from one another. */
  lemma NewBeyond(chain: seq<RawEvent>, from: int, to: int, start: int, latest: int)
    requires Chain(chain) && from <= to + 1 && to < start <= latest
    ensures var log, next := Good(chain, from, to), Good(chain, start, latest);
            && Good(chain, from, latest) == log + (Good(chain, to + 1, start - 1) + next)
            && (forall i :: 0 <= i < |next| ==> !HasId(log, next[i].id))
            && DistinctIds(next)
  {
    GoodThree(chain, from, to, start, latest);
    GoodDistinct(chain, from, latest);
    DistinctTail(Good(chain, from, latest), Good(chain, from, to), Good(chain, to + 1, start - 1),
                 Good(chain, start, latest));
  }

  lemma DistinctTail(all: seq<LogEvent>, log: seq<LogEvent>, hole: seq<LogEvent>,
                     next: seq<LogEvent>)
    requires all == log + (hole + next)
    requires DistinctIds(all)
    ensures forall i :: 0 <= i < |next| ==> !HasId(log, next[i].id)
    ensures DistinctIds(next)
  {
    var skip := |log| + |hole|;
    assert forall i :: 0 <= i < |next| ==> all[skip + i] == next[i];
    assert forall k :: 0 <= k < |log| ==> all[k] == log[k];
  }

  lemma {:induction false} SliceEmpty(chain: seq<RawEvent>, from: int, to: int)
    requires to < from
    ensures Slice(chain, from, to) == []
    decreases |chain|
  {
    if chain != [] {
      SliceEmpty(chain[..|chain| - 1], from, to);
    }
  }

  /** The state of an indexer that covers ledgers `[from, to]`. */
  ghost predicate Covers(db: Db, chain: seq<RawEvent>, from: int, to: int) {
    && db.log == Good(chain, from, to)
    && db.Consistent()
    && (db.checkpoint.Some? ==> from - 1 <= db.checkpoint.value <= to)
  }

  /** An event the indexer should hold for ledgers `[from, to]`. */
  predicate Due(e: RawEvent, from: int, to: int) {
    from <= e.ledger <= to && e.success && e.payload.Some?
  }

  ghost predicate NoneDue(chain: seq<RawEvent>, from: int, to: int) {
    forall k :: 0 <= k < |chain| ==> !Due(chain[k], from, to)
  }

  predicate Inserts(p: Poll) {
    p.crash != BeforeInsert
  }

  /** Whether a checkpoint exists after one more poll. */
  predicate SavedBy(saved: bool, p: Poll) {
    saved || (p.crash == Never && p.latest > 0)
  }

  /** At every poll that gets past its insert while no checkpoint is saved, no event was due between what
      is covered and the ledger the poll starts at. */
  ghost predicate NoHole(chain: seq<RawEvent>, saved: bool, to: int, polls: seq<Poll>)
    decreases |polls|
  {
    polls != [] ==>
      var p := polls[0];
      && (Inserts(p) && !saved ==> NoneDue(chain, to + 1, p.cold - 1))
      && NoHole(chain, SavedBy(saved, p), CoveredBy(to, p), polls[1..])
  }

  /** Every answer that is inserted reaches up to the ledger before `from` at least; while no checkpoint
      is saved, fetching begins at `from` or later, and jumps over no event it should have taken. */
  ghost predicate Seamless(chain: seq<RawEvent>, saved: bool, from: int, to: int, polls: seq<Poll>)
    decreases |polls|
  {
    polls != [] ==>
      var p := polls[0];
      && (Inserts(p) ==>
            && p.latest >= from - 1
            && (saved || (from <= p.cold && NoneDue(chain, to + 1, Min(p.cold - 1, p.latest)))))
      && Seamless(chain, SavedBy(saved, p), from, CoveredBy(to, p), polls[1..])
  }

  lemma NoneDueGrows(front: seq<RawEvent>, last: RawEvent, from: int, to: int)
    ensures NoneDue(front + [last], from, to) <==> NoneDue(front, from, to) && !Due(last, from, to)
  {
    var chain := front + [last];
    assert chain[|front|] == last && forall k :: 0 <= k < |front| ==> front[k] == chain[k];
  }

  lemma {:induction false} GoodEmpty(chain: seq<RawEvent>, from: int, to: int)
    ensures |Good(chain, from, to)| == 0 <==> NoneDue(chain, from, to)
    decreases |chain|
  {
    if chain != [] {
      var front, last := chain[..|chain| - 1], chain[|chain| - 1];
      GoodEmpty(front, from, to);
      GoodGrows(chain, from, to);
      assert chain == front + [last];
      NoneDueGrows(front, last, from, to);
    }
  }

  /** A start beyond what is covered leaves a hole exactly when an event fell into it. */
  lemma ColdRestartGap(chain: seq<RawEvent>, from: int, to: int, start: int, latest: int)
    requires Chain(chain) && from <= to + 1 && to < start <= latest
    ensures Insert(Good(chain, from, to), Good(chain, start, latest)) == Good(chain, from, latest)
            <==> NoneDue(chain, to + 1, start - 1)
  {
    NewBeyond(chain, from, to, start, latest);
    InsertFresh(Good(chain, from, to), Good(chain, start, latest));
    GoodEmpty(chain, to + 1, start - 1);
    HoleShows(Good(chain, from, to), Good(chain, to + 1, start - 1), Good(chain, start, latest));
  }

  lemma {:induction false} InsertFresh(log: seq<LogEvent>, next: seq<LogEvent>)
    requires DistinctIds(next) && forall i :: 0 <= i < |next| ==> !HasId(log, next[i].id)
    ensures Insert(log, next) == log + next
  {
    InsertOverlap(log, [], next);
    assert [] + next == next;
  }

  lemma HoleShows(log: seq<LogEvent>, hole: seq<LogEvent>, next: seq<LogEvent>)
    ensures log + next == log + (hole + next) <==> |hole| == 0
  {
    if |hole| == 0 {
      assert hole + next == next;
    } else {
      assert |log + next| < |log + (hole + next)|;
    }
  }

  /** An answer that jumps over nothing extends what is covered, wherever it starts. */
  lemma JumpExtends(chain: seq<RawEvent>, from: int, to: int, start: int, latest: int)
    requires Chain(chain) && from <= to + 1 && from <= start
    requires NoneDue(chain, to + 1, Min(start - 1, latest))
    ensures Insert(Good(chain, from, to), Good(chain, start, latest))
         == Good(chain, from, if latest > to then latest else to)
  {
    if start <= to + 1 {
      InsertExtends(chain, from, to, start, latest);
    } else if start <= latest {
      ColdRestartGap(chain, from, to, start, latest);
    } else {
      SliceEmpty(chain, start, latest);
      if latest > to {
        GoodJoins(chain, from, to, latest);
        GoodEmpty(chain, to + 1, latest);
        assert Good(chain, from, to) + [] == Good(chain, from, to);
      }
    }
  }

  /** What a poll that gets past its insert leaves. */
  lemma PollInserts(db: Db, chain: seq<RawEvent>, p: Poll)
    requires Inserts(p)
    ensures PollOnce(db, chain, p).log == Insert(db.log, Good(chain, db.Start(p.cold), p.latest))
    ensures PollOnce(db, chain, p).Consistent()
    ensures PollOnce(db, chain, p).checkpoint
         == if p.crash == Never && p.latest > 0 then Some(p.latest) else db.checkpoint
  {
  }

  lemma {:induction false} PollCovers(db: Db, chain: seq<RawEvent>, from: int, to: int, p: Poll)
    requires Chain(chain) && from >= 1 && to >= from - 1 && Covers(db, chain, from, to)
    requires Seamless(chain, db.checkpoint.Some?, from, to, [p])
    ensures Covers(PollOnce(db, chain, p), chain, from, CoveredBy(to, p))
    ensures PollOnce(db, chain, p).checkpoint.Some? == SavedBy(db.checkpoint.Some?, p)
  {
    if Inserts(p) {
      PollInserts(db, chain, p);
      if db.checkpoint.Some? {
        InsertExtends(chain, from, to, db.Start(p.cold), p.latest);
      } else {
        JumpExtends(chain, from, to, p.cold, p.latest);
      }
    }
  }

  /** Any interleaving of polls, stale answers and crashes that jumps over nothing leaves a log that is
      exactly the successful events of one gap-free range of ledgers, in order and once each, with views
      that are one fold over it; and the checkpoint never runs ahead of the log. */
  lemma {:induction false} PollsCover(db: Db, chain: seq<RawEvent>, from: int, to: int, polls: seq<Poll>)
    requires Chain(chain) && from >= 1 && to >= from - 1 && Covers(db, chain, from, to)
    requires Seamless(chain, db.checkpoint.Some?, from, to, polls)
    ensures Covers(Polls(db, chain, polls), chain, from, Covered(to, polls))
    decreases |polls|
  {
    if polls != [] {
      PollCovers(db, chain, from, to, polls[0]);
      PollsCover(PollOnce(db, chain, polls[0]), chain, from, CoveredBy(to, polls[0]), polls[1..]);
    }
  }

  lemma EmptyCovers(chain: seq<RawEvent>, from: int)
    ensures Covers(Db([], EMPTY, None), chain, from, from - 1)
  {
    SliceEmpty(chain, from, from - 1);
    assert Good(chain, from, from - 1) == [];
  }

  /** From an empty database: exactly once, over every run. */
  lemma ExactlyOnce(chain: seq<RawEvent>, from: int, polls: seq<Poll>)
    requires Chain(chain) && from >= 1 && Seamless(chain, false, from, from - 1, polls)
    ensures var db := Polls(Db([], EMPTY, None), chain, polls);
            var log := Good(chain, from, Covered(from - 1, polls));
            && db.log == log && db.views == Fold(log)
            && DistinctIds(log)
            && (db.checkpoint.Some? ==> db.checkpoint.value <= Covered(from - 1, polls))
  {
    EmptyCovers(chain, from);
    PollsCover(Db([], EMPTY, None), chain, from, from - 1, polls);
    GoodDistinct(chain, from, Covered(from - 1, polls));
  }

  // ---- where a start may be ------------------------------------------------------------------

  /** While no checkpoint is saved, fetching begins inside or right after what is covered; what the
      configuration says afterwards does not matter. */
  ghost predicate Contiguous(saved: bool, from: int, to: int, polls: seq<Poll>)
    decreases |polls|
  {
    polls != [] ==>
      var p := polls[0];
      && (Inserts(p) ==> p.latest >= from - 1 && (saved || from <= p.cold <= to + 1))
      && Contiguous(SavedBy(saved, p), from, CoveredBy(to, p), polls[1..])
  }

  lemma {:induction false} ContiguousIsSeamless(chain: seq<RawEvent>, saved: bool, from: int, to: int, polls: seq<Poll>)
    requires Contiguous(saved, from, to, polls)
    ensures Seamless(chain, saved, from, to, polls)
    decreases |polls|
  {
    if polls != [] {
      ContiguousIsSeamless(chain, SavedBy(saved, polls[0]), from, CoveredBy(to, polls[0]), polls[1..]);
    }
  }

  /** A configured start ledger is contiguous in every run. */
  lemma {:induction false} ConfiguredStart(saved: bool, from: int, to: int, polls: seq<Poll>)
    requires to >= from - 1
    requires forall i :: 0 <= i < |polls| ==>
               polls[i].cold == from && (Inserts(polls[i]) ==> polls[i].latest >= from - 1)
    ensures Contiguous(saved, from, to, polls)
    decreases |polls|
  {
    if polls != [] {
      ConfiguredStart(SavedBy(saved, polls[0]), from, CoveredBy(to, polls[0]), polls[1..]);
    }
  }

  // ---- a start that moves ------------------------------------------------------------------

  /** What a node tells: its oldest ledger never goes back and is not above its head. */
  ghost predicate Node(polls: seq<Poll>) {
    && (forall i :: 0 <= i < |polls| ==> 1 <= polls[i].cold <= polls[i].latest)
    && (forall i, j :: 0 <= i < j < |polls| ==> polls[i].cold <= polls[j].cold)
  }

  lemma NodeLater(polls: seq<Poll>)
    requires Node(polls) && polls != []
    ensures Node(polls[1..]) && forall i :: 0 <= i < |polls[1..]| ==> polls[0].cold <= polls[1..][i].cold
  {
    var rest := polls[1..];
    assert forall i :: 0 <= i < |rest| ==> rest[i] == polls[i + 1];
  }

  /** Event `e` is due in what is covered but not in the log, and no fetch will reach back to it. */
  ghost predicate Lost(db: Db, chain: seq<RawEvent>, e: RawEvent, from: int, to: int) {
    && e in chain && Due(e, from, to) && !HasId(db.log, e.id)
    && (db.checkpoint.Some? ==> db.checkpoint.value >= e.ledger)
  }

  lemma NotFetched(chain: seq<RawEvent>, e: RawEvent, from: int, to: int)
    requires Chain(chain) && e in chain && !(from <= e.ledger <= to)
    ensures !HasId(Good(chain, from, to), e.id)
  {
    var log := Good(chain, from, to);
    GoodFromChain(chain, from, to);
    forall i | 0 <= i < |log|
      ensures log[i].id != e.id
    {
      var k :| 0 <= k < |chain| && chain[k].id == log[i].id && chain[k].ledger == log[i].ledger
               && from <= log[i].ledger <= to;
      var m :| 0 <= m < |chain| && chain[m] == e;
      assert chain[k].ledger != chain[m].ledger;
      assert k != m;
    }
  }

  lemma HasIdGrows(g: seq<LogEvent>, more: seq<LogEvent>, id: nat)
    requires HasId(g, id) || HasId(more, id)
    ensures HasId(g + more, id)
  {
    if HasId(g, id) {
      var i :| 0 <= i < |g| && g[i].id == id;
      assert (g + more)[i].id == id;
    } else {
      var i :| 0 <= i < |more| && more[i].id == id;
      assert (g + more)[|g| + i].id == id;
    }
  }

  /** What one more chain event adds to the log. */
  function Logged(e: RawEvent, from: int, to: int): seq<LogEvent> {
    if Due(e, from, to) then [LogEvent(e.id, e.ledger, e.payload.value)] else []
  }

  lemma FetchedMore(chain: seq<RawEvent>, from: int, to: int, id: nat)
    requires chain != []
    requires HasId(Good(chain[..|chain| - 1], from, to), id) || HasId(Logged(chain[|chain| - 1], from, to), id)
    ensures HasId(Good(chain, from, to), id)
  {
    GoodGrows(chain, from, to);
    HasIdGrows(Good(chain[..|chain| - 1], from, to), Logged(chain[|chain| - 1], from, to), id);
  }

  lemma {:induction false} Fetched(chain: seq<RawEvent>, e: RawEvent, from: int, to: int)
    requires e in chain && Due(e, from, to)
    ensures HasId(Good(chain, from, to), e.id)
    decreases |chain|
  {
    var front, last := chain[..|chain| - 1], chain[|chain| - 1];
    if e == last {
      assert Logged(last, from, to)[0].id == e.id;
    } else {
      assert chain == front + [last];
      Fetched(front, e, from, to);
    }
    FetchedMore(chain, from, to, e.id);
  }

  /** The log entry of a due event. */
  ghost predicate EntryOf(e: LogEvent, raw: RawEvent, from: int, to: int) {
    Due(raw, from, to) && e == LogEvent(raw.id, raw.ledger, raw.payload.value)
  }

  lemma {:induction false} GoodFromDue(chain: seq<RawEvent>, from: int, to: int, e: LogEvent)
    requires e in Good(chain, from, to)
    ensures exists k :: 0 <= k < |chain| && EntryOf(e, chain[k], from, to)
    decreases |chain|
  {
    if chain != [] {
      var front, last := chain[..|chain| - 1], chain[|chain| - 1];
      GoodGrows(chain, from, to);
      if e in Good(front, from, to) {
        GoodFromDue(front, from, to, e);
        var k :| 0 <= k < |front| && EntryOf(e, front[k], from, to);
        assert chain[k] == front[k];
      } else {
        assert EntryOf(e, chain[|chain| - 1], from, to);
      }
    }
  }

  lemma {:induction false} DueIsGood(chain: seq<RawEvent>, from: int, to: int, k: nat)
    requires k < |chain| && Due(chain[k], from, to)
    ensures LogEvent(chain[k].id, chain[k].ledger, chain[k].payload.value) in Good(chain, from, to)
    decreases |chain|
  {
    var front := chain[..|chain| - 1];
    GoodGrows(chain, from, to);
    if k < |front| {
      DueIsGood(front, from, to, k);
    }
  }

  lemma {:induction false} GoodByLedger(chain: seq<RawEvent>, from: int, to: int)
    requires Chain(chain)
    ensures forall i, j :: 0 <= i < j < |Good(chain, from, to)| ==>
              Good(chain, from, to)[i].ledger <= Good(chain, from, to)[j].ledger
    decreases |chain|
  {
    if chain != [] {
      var front, last := chain[..|chain| - 1], chain[|chain| - 1];
      GoodByLedger(front, from, to);
      GoodGrows(chain, from, to);
      var log := Good(front, from, to);
      forall i | 0 <= i < |log|
        ensures log[i].ledger <= last.ledger
      {
        GoodFromDue(front, from, to, log[i]);
      }
    }
  }

  /** What is fetched from a range of ledgers: an entry for every successful, decodable event in it, by
      ledger, and nothing else. */
  lemma GoodIsDue(chain: seq<RawEvent>, from: int, to: int)
    requires Chain(chain)
    ensures forall e :: e in Good(chain, from, to) ==> exists k :: 0 <= k < |chain| && EntryOf(e, chain[k], from, to)
    ensures forall k :: 0 <= k < |chain| && Due(chain[k], from, to) ==>
              LogEvent(chain[k].id, chain[k].ledger, chain[k].payload.value) in Good(chain, from, to)
    ensures forall i, j :: 0 <= i < j < |Good(chain, from, to)| ==>
              Good(chain, from, to)[i].ledger <= Good(chain, from, to)[j].ledger
  {
    forall e | e in Good(chain, from, to)
      ensures exists k :: 0 <= k < |chain| && EntryOf(e, chain[k], from, to)
    {
      GoodFromDue(chain, from, to, e);
    }
    forall k | 0 <= k < |chain| && Due(chain[k], from, to)
      ensures LogEvent(chain[k].id, chain[k].ledger, chain[k].payload.value) in Good(chain, from, to)
    {
      DueIsGood(chain, from, to, k);
    }
    GoodByLedger(chain, from, to);
  }

  /** Inserting adds ids of the batch only. */
  lemma {:induction false} InsertAdds(log: seq<LogEvent>, batch: seq<LogEvent>, id: nat)
    requires !HasId(log, id) && !HasId(batch, id)
    ensures !HasId(Insert(log, batch), id)
    decreases |batch|
  {
    if batch != [] {
      var front, last := batch[..|batch| - 1], batch[|batch| - 1];
      assert batch[|batch| - 1].id != id;
      assert forall i :: 0 <= i < |front| ==> front[i] == batch[i];
      InsertAdds(log, front, id);
    }
  }

  lemma PollLoses(db: Db, chain: seq<RawEvent>, e: RawEvent, from: int, to: int, p: Poll)
    requires Chain(chain) && Lost(db, chain, e, from, to) && e.ledger < p.cold <= p.latest
    ensures Lost(PollOnce(db, chain, p), chain, e, from, CoveredBy(to, p))
  {
    if Inserts(p) {
      PollInserts(db, chain, p);
      NotFetched(chain, e, db.Start(p.cold), p.latest);
      InsertAdds(db.log, Good(chain, db.Start(p.cold), p.latest), e.id);
    }
  }

  /** An event once jumped over is lost for good. */
  lemma {:induction false} LostForGood(db: Db, chain: seq<RawEvent>, e: RawEvent, from: int, to: int, polls: seq<Poll>)
    requires Chain(chain) && Lost(db, chain, e, from, to) && Node(polls)
    requires forall i :: 0 <= i < |polls| ==> e.ledger < polls[i].cold
    ensures Lost(Polls(db, chain, polls), chain, e, from, Covered(to, polls))
    decreases |polls|
  {
    if polls != [] {
      NodeLater(polls);
      PollLoses(db, chain, e, from, to, polls[0]);
      assert forall i :: 0 <= i < |polls[1..]| ==> polls[1..][i] == polls[i + 1];
      LostForGood(PollOnce(db, chain, polls[0]), chain, e, from, CoveredBy(to, polls[0]), polls[1..]);
    }
  }

  /** A poll without checkpoint that jumps over a due event loses it. */
  lemma JumpLoses(db: Db, chain: seq<RawEvent>, from: int, to: int, p: Poll) returns (e: RawEvent)
    requires Chain(chain) && from <= to + 1 && Covers(db, chain, from, to) && db.checkpoint.None?
    requires Inserts(p) && p.cold <= p.latest && !NoneDue(chain, to + 1, p.cold - 1)
    ensures e.ledger < p.cold && Lost(PollOnce(db, chain, p), chain, e, from, CoveredBy(to, p))
  {
    var k :| 0 <= k < |chain| && Due(chain[k], to + 1, p.cold - 1);
    e := chain[k];
    PollInserts(db, chain, p);
    NotFetched(chain, e, from, to);
    NotFetched(chain, e, p.cold, p.latest);
    InsertAdds(db.log, Good(chain, p.cold, p.latest), e.id);
  }

  /** From what is covered on: complete if and only if nothing is jumped over. */
  lemma {:induction false} CompleteFrom(db: Db, chain: seq<RawEvent>, from: int, to: int, polls: seq<Poll>)
    requires Chain(chain) && from >= 1 && to >= from - 1 && Covers(db, chain, from, to)
    requires Node(polls) && forall i :: 0 <= i < |polls| ==> from <= polls[i].cold
    ensures Polls(db, chain, polls).log == Good(chain, from, Covered(to, polls))
            <==> NoHole(chain, db.checkpoint.Some?, to, polls)
    decreases |polls|
  {
    if polls != [] {
      var p, rest := polls[0], polls[1..];
      var mid := PollOnce(db, chain, p);
      NodeLater(polls);
      if Inserts(p) && db.checkpoint.None? && !NoneDue(chain, to + 1, p.cold - 1) {
        var e := JumpLoses(db, chain, from, to, p);
        LostForGood(mid, chain, e, from, CoveredBy(to, p), rest);
        Fetched(chain, e, from, Covered(to, polls));
      } else {
        PollCovers(db, chain, from, to, p);
        CompleteFrom(mid, chain, from, CoveredBy(to, p), rest);
      }
    }
  }

  /** Where the first poll that gets past its insert starts. */
  function First(polls: seq<Poll>): Option<nat> {
    if polls == [] then None else if Inserts(polls[0]) then Some(polls[0].cold) else First(polls[1..])
  }

  /** A poll that dies before its insert changes nothing. */
  lemma SkipInert(chain: seq<RawEvent>, polls: seq<Poll>, from: int)
    requires polls != [] && !Inserts(polls[0])
    ensures Polls(Db([], EMPTY, None), chain, polls) == Polls(Db([], EMPTY, None), chain, polls[1..])
    ensures Covered(from - 1, polls) == Covered(from - 1, polls[1..])
    ensures NoHole(chain, false, from - 1, polls) <==> NoHole(chain, false, from - 1, polls[1..])
  {
  }

  ghost predicate CompleteIff(chain: seq<RawEvent>, polls: seq<Poll>) {
    match First(polls)
    case None => Polls(Db([], EMPTY, None), chain, polls) == Db([], EMPTY, None)
    case Some(from) =>
      Polls(Db([], EMPTY, None), chain, polls).log == Good(chain, from, Covered(from - 1, polls))
      <==> NoHole(chain, false, from - 1, polls)
  }

  /** With a start that follows the node's oldest ledger, over every run: the log is complete from the
      first ledger ever fetched to the last one covered if and only if, at every poll that got past its
      insert without a checkpoint, no event had been due in the ledgers the node dropped meanwhile. */
  lemma {:induction false} CompleteExactlyWithoutHole(chain: seq<RawEvent>, polls: seq<Poll>)
    requires Chain(chain) && Node(polls)
    ensures CompleteIff(chain, polls)
    decreases |polls|
  {
    if polls != [] {
      NodeLater(polls);
      var from := polls[0].cold;
      if Inserts(polls[0]) {
        EmptyCovers(chain, from);
        CompleteFrom(Db([], EMPTY, None), chain, from, from - 1, polls);
      } else {
        CompleteExactlyWithoutHole(chain, polls[1..]);
        if First(polls).Some? {
          from := First(polls).value;
        }
        SkipInert(chain, polls, from);
      }
    }
  }

  /** Whatever is lost, nothing is ever logged twice, and the views are one fold over the log. */
  lemma {:induction false} NeverTwice(db: Db, chain: seq<RawEvent>, polls: seq<Poll>)
    requires db.Consistent() && DistinctIds(db.log)
    ensures Polls(db, chain, polls).Consistent() && DistinctIds(Polls(db, chain, polls).log)
    decreases |polls|
  {
    if polls != [] {
      if Inserts(polls[0]) {
        PollInserts(db, chain, polls[0]);
        InsertDistinct(db.log, Good(chain, db.Start(polls[0].cold), polls[0].latest));
      }
      NeverTwice(PollOnce(db, chain, polls[0]), chain, polls[1..]);
    }
  }

  lemma {:induction false} InsertDistinct(log: seq<LogEvent>, batch: seq<LogEvent>)
    requires DistinctIds(log)
    ensures DistinctIds(Insert(log, batch))
    decreases |batch|
  {
    if batch != [] {
      InsertDistinct(log, batch[..|batch| - 1]);
    }
  }

  /** A first poll that dies before its checkpoint, then a poll that starts beyond a due event. */
  lemma {:induction false} SecondPollJumps(chain: seq<RawEvent>, polls: seq<Poll>)
    requires Chain(chain) && Node(polls) && |polls| == 2
    requires polls[0].crash == BeforeCheckpoint && polls[1].crash == Never && polls[0].latest <= polls[1].latest
    requires !NoneDue(chain, polls[0].latest + 1, polls[1].cold - 1)
    ensures Polls(Db([], EMPTY, None), chain, polls).log != Good(chain, polls[0].cold, polls[1].latest)
  {
    var from := polls[0].cold;
    assert polls[1..] == [polls[1]] && polls[1..][1..] == [];
    assert CoveredBy(from - 1, polls[0]) == polls[0].latest && CoveredBy(polls[0].latest, polls[1]) == polls[1].latest;
    assert Covered(from - 1, polls) == Covered(polls[0].latest, polls[1..]) == Covered(polls[1].latest, []);
    assert !NoHole(chain, false, polls[0].latest, polls[1..]);
    CompleteExactlyWithoutHole(chain, polls);
  }

  /** It can happen: a crash between the first insert and its checkpoint, then a long outage, and the
      event of ledger 2 is never indexed. */
  lemma {:induction false} ColdRestartLosesAnEvent(chain: seq<RawEvent>, polls: seq<Poll>)
    requires chain == [RawEvent(7, 2, true, Some(Other))]
    requires polls == [Poll(1, 1, BeforeCheckpoint), Poll(3, 3, Never)]
    ensures Polls(Db([], EMPTY, None), chain, polls).log != Good(chain, 1, 3)
  {
    assert Due(chain[0], 2, 2);
    SecondPollJumps(chain, polls);
  }

  // ---- rebuilding ----------------------------------------------------------------------------

  /** The schema migration: clears listings and volumes and replays the marketplace rows of the log. */
  function Replay(log: seq<LogEvent>, minted: int): Views
    decreases |log|
  {
    if log == [] then Views(map[], map[], minted)
    else
      var before := Replay(log[..|log| - 1], minted);
      if log[|log| - 1].payload.Market? then ApplyEvent(before, log[|log| - 1]) else before
  }

  /** The first-run aggregate: the sum over the logged token mints. */
  function MintSum(log: seq<LogEvent>): int
    decreases |log|
  {
    if log == [] then 0
    else MintSum(log[..|log| - 1])
         + if log[|log| - 1].payload.TokenMint? then log[|log| - 1].payload.amount else 0
  }

  /** Rebuilding from the log gives what incremental maintenance gave. */
  lemma {:induction false} ReplayIsFold(log: seq<LogEvent>)
    ensures Replay(log, MintSum(log)) == Fold(log)
    ensures forall x :: Replay(log, x) == Fold(log).(minted := x)
    ensures MintSum(log) == Fold(log).minted
    decreases |log|
  {
    if log != [] {
      ReplayIsFold(log[..|log| - 1]);
    }
  }
}
