/** Runs of one user's accrual: however banking is scheduled, nothing is lost and nothing is gained,
    except when a restart re-prices the interval that is still open. */
module AccrualRuns {
  import opened Common
  import opened AccrualSpec

  /** The calls that change a record, when they succeed. `Restart` is `start_accrual` on an existing one. */
  datatype Op = Settle | Claim(ppa: PointsPerAmt) | Sync(newRate: U64) | Stop | Restart(newRate: U64)

  datatype Timed = Timed(at: U64, op: Op)

  /** A record with what left it: points redeemed and tokens minted by claims, points credited to the
      registry, and points banked by `sync_rate`, which credits nothing. */
  datatype Account = Account(rec: UserAccrual, redeemed: nat, minted: nat, credited: nat, synced: nat)

  function RateAfter(rate: U64, op: Op): U64 {
    match op
    case Sync(r) => r
    case Restart(r) => r
    case Stop => 0
    case _ => rate
  }

  function Step(acc: Account, t: Timed): Account {
    var now, rec, points := t.at, acc.rec, acc.rec.Pending(t.at);
    match t.op
    case Settle => acc.(rec := rec.Settled(now), credited := acc.credited + points)
    case Claim(ppa) =>
      Account(rec.Claimed(now, ppa), acc.redeemed + rec.Mints(now, ppa) * ppa, acc.minted + rec.Mints(now, ppa),
              acc.credited + points, acc.synced)
    case Sync(r) => acc.(rec := rec.Bank(now).(rate := r), synced := acc.synced + points)
    case Stop => acc.(rec := rec.Bank(now).(rate := 0), credited := acc.credited + points)
    case Restart(r) => acc.(rec := rec.(rate := r))
  }

  function Run(acc: Account, steps: seq<Timed>): Account
    decreases |steps|
  {
    if steps == [] then acc else Run(Step(acc, steps[0]), steps[1..])
  }

  /** The ledger clock does not run backwards. */
  predicate Ordered(from: U64, steps: seq<Timed>, end: U64)
    decreases |steps|
  {
    if steps == [] then from <= end else from <= steps[0].at && Ordered(steps[0].at, steps[1..], end)
  }

  predicate Banks(op: Op) {
    !op.Restart?
  }

  /** No step of the run saturates. */
  predicate Unsaturated(acc: Account, steps: seq<Timed>)
    decreases |steps|
  {
    steps != [] ==>
      (Banks(steps[0].op) ==> acc.rec.Fits(steps[0].at)) && Unsaturated(Step(acc, steps[0]), steps[1..])
  }

  /** The books of one account: what was earned is in the carry or redeemed, and credited or only synced. */
  ghost predicate Balanced(acc: Account) {
    && acc.rec.carry + acc.redeemed == acc.rec.lifetime
    && acc.credited + acc.synced == acc.rec.lifetime
    && acc.rec.leftover < HOUR
  }

  /** Rate times time, over all segments of constant rate. */
  function Earned(rate: U64, from: U64, steps: seq<Timed>, end: U64): int
    decreases |steps|
  {
    if steps == [] then (end - from) * rate
    else (steps[0].at - from) * rate + Earned(RateAfter(rate, steps[0].op), steps[0].at, steps[1..], end)
  }

  /** What restarts add or take: the open interval, at the difference of the rates. */
  function Repriced(acc: Account, steps: seq<Timed>): int
    decreases |steps|
  {
    if steps == [] then 0
    else (if steps[0].op.Restart? then (steps[0].at - acc.rec.last) * (steps[0].op.newRate - acc.rec.rate) else 0)
         + Repriced(Step(acc, steps[0]), steps[1..])
  }

  // ---- one step -----------------------------------------------------------------------------

  lemma RedeemKeeps(carry: nat, redeemed: nat, ppa: int)
    requires ppa >= 1
    ensures carry % ppa + (redeemed + carry / ppa * ppa) == carry + redeemed
    ensures 0 <= carry % ppa < ppa
  {
  }

  lemma StepBalanced(acc: Account, t: Timed)
    requires Balanced(acc) && (Banks(t.op) ==> acc.rec.Fits(t.at))
    ensures Balanced(Step(acc, t))
    ensures Banks(t.op) ==> Step(acc, t).rec.lifetime == acc.rec.lifetime + acc.rec.Pending(t.at)
    ensures Step(acc, t).rec.rate == RateAfter(acc.rec.rate, t.op)
  {
    if Banks(t.op) {
      BankedRecord(acc.rec, t.at);
      if t.op.Claim? {
        RedeemKeeps(acc.rec.Bank(t.at).carry, acc.redeemed, t.op.ppa);
      }
    }
  }

  /** What is owed at a later time, at the rate in force. */
  lemma OwedGrows(a: UserAccrual, now: U64, later: U64)
    requires a.last <= now <= later
    ensures a.Owed(later) == a.Owed(now) + (later - now) * a.rate
  {
    assert (later - a.last) * a.rate == (later - now) * a.rate + (now - a.last) * a.rate;
  }

  /** At the moment of a step, only a restart changes what is owed. */
  lemma StepConserves(acc: Account, t: Timed)
    requires Balanced(acc) && acc.rec.last <= t.at && (Banks(t.op) ==> acc.rec.Fits(t.at))
    ensures Step(acc, t).rec.last <= t.at
    ensures Step(acc, t).rec.Owed(t.at)
         == acc.rec.Owed(t.at) + if t.op.Restart? then (t.at - acc.rec.last) * (t.op.newRate - acc.rec.rate) else 0
  {
    var a, now := acc.rec, t.at;
    if t.op.Restart? {
      assert (now - a.last) * t.op.newRate
          == (now - a.last) * a.rate + (now - a.last) * (t.op.newRate - a.rate);
    } else if t.op.Settle? && a.Pending(now) == 0 {
      assert Step(acc, t).rec == a;
    } else {
      BankConserves(a, now);
      SameMoney(a.Bank(now), Step(acc, t).rec, now);
    }
  }

  /** Right after banking neither the rate nor the carry matters. */
  lemma SameMoney(a: UserAccrual, b: UserAccrual, now: U64)
    requires a.last == now && b.last == now && a.lifetime == b.lifetime && a.leftover == b.leftover
    ensures a.Owed(now) == b.Owed(now)
  {
    assert SatSub(now, now) * a.rate == 0 && SatSub(now, now) * b.rate == 0;
  }

  /** A restart keeps what is owed if and only if it does not change the rate or nothing is open. */
  lemma RestartConservesIff(acc: Account, t: Timed)
    requires Balanced(acc) && acc.rec.last <= t.at && t.op.Restart?
    ensures Step(acc, t).rec.Owed(t.at) == acc.rec.Owed(t.at)
            <==> t.op.newRate == acc.rec.rate || t.at == acc.rec.last
  {
    StepConserves(acc, t);
    ZeroProduct(t.at - acc.rec.last, t.op.newRate - acc.rec.rate);
  }

  // ---- runs ---------------------------------------------------------------------------------

  /** Conservation over every run: points banked, the sub-hour remainder and the open interval add up to
      rate times time over all segments, plus what restarts re-priced. */
  lemma {:induction false} RunConserves(acc: Account, from: U64, steps: seq<Timed>, end: U64)
    requires Balanced(acc) && acc.rec.last <= from && Ordered(from, steps, end) && Unsaturated(acc, steps)
    ensures var final := Run(acc, steps);
            && Balanced(final) && final.rec.last <= end
            && final.rec.Owed(end)
               == acc.rec.Owed(from) + Earned(acc.rec.rate, from, steps, end) + Repriced(acc, steps)
    decreases |steps|
  {
    if steps == [] {
      OwedGrows(acc.rec, from, end);
    } else {
      StepBalanced(acc, steps[0]);
      StepConserves(acc, steps[0]);
      OwedGrows(acc.rec, from, steps[0].at);
      RunConserves(Step(acc, steps[0]), steps[0].at, steps[1..], end);
    }
  }

  predicate NoRestart(steps: seq<Timed>) {
    forall i :: 0 <= i < |steps| ==> !steps[i].op.Restart?
  }

  lemma {:induction false} NothingRepriced(acc: Account, steps: seq<Timed>)
    requires NoRestart(steps)
    ensures Repriced(acc, steps) == 0
    decreases |steps|
  {
    if steps != [] {
      NothingRepriced(Step(acc, steps[0]), steps[1..]);
    }
  }

  /** A stop followed by a start pays for the pause: 10 hours at rate 0 become 10 hours at rate 5. */
  lemma PauseIsPaid(acc: Account)
    requires acc.rec == UserAccrual(0, 0, 0, 0, 0, 0) && acc == Account(acc.rec, 0, 0, 0, 0)
    ensures Run(acc, [Timed(36000, Restart(5)), Timed(36000, Settle)]).rec.lifetime == 50
    ensures Earned(0, 0, [Timed(36000, Restart(5)), Timed(36000, Settle)], 36000) == 0
  {
    var steps := [Timed(36000, Restart(5)), Timed(36000, Settle)];
    assert steps[1..] == [Timed(36000, Settle)] && steps[1..][1..] == [];
    var mid := Step(acc, steps[0]);
    assert mid.rec == UserAccrual(5, 0, 0, 0, 0, 0);
    assert Run(acc, steps) == Run(mid, steps[1..]) == Run(Step(mid, steps[1]), []);
    assert Earned(0, 0, steps, 36000) == Earned(5, 36000, steps[1..], 36000) == Earned(5, 36000, [], 36000);
  }

  /** If all point-seconds of a run fit into 64 bits, no step of it saturates. */
  lemma {:induction false} SmallRunsFit(acc: Account, from: U64, steps: seq<Timed>, end: U64)
    requires Balanced(acc) && acc.rec.last <= from && Ordered(from, steps, end) && NoRestart(steps)
    requires acc.rec.Owed(from) + Earned(acc.rec.rate, from, steps, end) <= U64_MAX
    ensures Unsaturated(acc, steps)
    decreases |steps|
  {
    if steps != [] {
      OwedGrows(acc.rec, from, steps[0].at);
      EarnedNonnegative(RateAfter(acc.rec.rate, steps[0].op), steps[0].at, steps[1..], end);
      SmallFits(acc.rec, steps[0].at);
      StepBalanced(acc, steps[0]);
      StepConserves(acc, steps[0]);
      SmallRunsFit(Step(acc, steps[0]), steps[0].at, steps[1..], end);
    }
  }

  lemma SmallFits(a: UserAccrual, now: U64)
    requires a.Owed(now) <= U64_MAX
    ensures a.Fits(now)
  {
    var e := a.Exact(now);
    assert HOUR * (e / HOUR) <= e;
  }

  lemma {:induction false} EarnedNonnegative(rate: U64, from: U64, steps: seq<Timed>, end: U64)
    requires Ordered(from, steps, end)
    ensures Earned(rate, from, steps, end) >= 0
    decreases |steps|
  {
    if steps != [] {
      EarnedNonnegative(RateAfter(rate, steps[0].op), steps[0].at, steps[1..], end);
    }
  }

  // ---- the rate history -----------------------------------------------------------------------

  /** The rate in force during second `s`. */
  function RateAt(rate: U64, steps: seq<Timed>, s: nat): U64
    decreases |steps|
  {
    if steps == [] || s < steps[0].at then rate else RateAt(RateAfter(rate, steps[0].op), steps[1..], s)
  }

  /** The rates of seconds `from` up to `end`, added up one by one. */
  function RateSum(rate: U64, steps: seq<Timed>, from: nat, end: nat): nat
    requires from <= end
    decreases end - from
  {
    if from == end then 0 else RateAt(rate, steps, from) + RateSum(rate, steps, from + 1, end)
  }

  lemma {:induction false} ConstantRate(rate: U64, steps: seq<Timed>, from: nat, mid: nat, end: nat)
    requires from <= mid <= end && (steps != [] ==> mid <= steps[0].at)
    ensures RateSum(rate, steps, from, end) == (mid - from) * rate + RateSum(rate, steps, mid, end)
    decreases mid - from
  {
    if from < mid {
      ConstantRate(rate, steps, from + 1, mid, end);
      assert (mid - from) * rate == (mid - (from + 1)) * rate + rate;
    } else {
      assert (mid - from) * rate == 0;
    }
  }

  lemma {:induction false} AfterFirst(rate: U64, steps: seq<Timed>, from: nat, end: nat)
    requires steps != [] && steps[0].at <= from <= end
    ensures RateSum(rate, steps, from, end) == RateSum(RateAfter(rate, steps[0].op), steps[1..], from, end)
    decreases end - from
  {
    if from < end {
      AfterFirst(rate, steps, from + 1, end);
    }
  }

  /** Segment by segment is second by second. */
  lemma {:induction false} EarnedIsRateSum(rate: U64, from: U64, steps: seq<Timed>, end: U64)
    requires Ordered(from, steps, end)
    ensures from <= end && Earned(rate, from, steps, end) == RateSum(rate, steps, from, end)
    decreases |steps|
  {
    if steps == [] {
      ConstantRate(rate, steps, from, end, end);
    } else {
      var at := steps[0].at;
      EarnedIsRateSum(RateAfter(rate, steps[0].op), at, steps[1..], end);
      ConstantRate(rate, steps, from, at, end);
      AfterFirst(rate, steps, at, end);
    }
  }

  /** The same rates second by second earn the same. */
  lemma {:induction false} SameRatesSameSum(rate: U64, a: seq<Timed>, other: U64, b: seq<Timed>, from: nat, end: nat)
    requires from <= end
    requires forall s :: from <= s < end ==> RateAt(rate, a, s) == RateAt(other, b, s)
    ensures RateSum(rate, a, from, end) == RateSum(other, b, from, end)
    decreases end - from
  {
    if from < end {
      SameRatesSameSum(rate, a, other, b, from + 1, end);
    }
  }

  // ---- schedule independence ---------------------------------------------------------------------

  /** All claims of a run redeem at the same price. */
  predicate FixedPrice(steps: seq<Timed>, ppa: PointsPerAmt) {
    forall i :: 0 <= i < |steps| && steps[i].op.Claim? ==> steps[i].op.ppa == ppa
  }

  lemma {:induction false} RedeemedAtPrice(acc: Account, steps: seq<Timed>, ppa: PointsPerAmt)
    requires acc.redeemed == acc.minted * ppa && FixedPrice(steps, ppa)
    ensures Run(acc, steps).redeemed == Run(acc, steps).minted * ppa
    decreases |steps|
  {
    if steps != [] {
      if steps[0].op.Claim? {
        var n := acc.rec.Mints(steps[0].at, ppa);
        assert (acc.minted + n) * ppa == acc.minted * ppa + n * ppa;
      }
      RedeemedAtPrice(Step(acc, steps[0]), steps[1..], ppa);
    }
  }

  lemma {:induction false} RunAppend(acc: Account, steps: seq<Timed>, t: Timed)
    ensures Run(acc, steps + [t]) == Step(Run(acc, steps), t)
    decreases |steps|
  {
    if steps == [] {
      assert steps + [t] == [t] && [t][1..] == [];
    } else {
      assert (steps + [t])[1..] == steps[1..] + [t];
      RunAppend(Step(acc, steps[0]), steps[1..], t);
    }
  }

  /** A schedule is any run without restarts that ends in a claim at time `end`. */
  ghost predicate Schedule(acc: Account, from: U64, steps: seq<Timed>, end: U64, ppa: PointsPerAmt) {
    && steps != [] && steps[|steps| - 1] == Timed(end, Claim(ppa))
    && Ordered(from, steps, end) && NoRestart(steps) && FixedPrice(steps, ppa) && Unsaturated(acc, steps)
  }

  /** The outcome of a schedule, in closed form: it depends on the earned total only. */
  lemma {:induction false} ScheduleOutcome(acc: Account, from: U64, steps: seq<Timed>, end: U64, ppa: PointsPerAmt)
    requires Balanced(acc) && acc.rec.last <= from && acc.redeemed == acc.minted * ppa
    requires Schedule(acc, from, steps, end, ppa)
    ensures from <= end
    ensures var final := Run(acc, steps);
            var total := acc.rec.Owed(from) + RateSum(acc.rec.rate, steps, from, end);
            && final.rec.lifetime == total / HOUR && final.rec.leftover == total % HOUR
            && final.minted == total / HOUR / ppa && final.rec.carry == total / HOUR % ppa
            && final.credited + final.synced == total / HOUR
  {
    var final := Run(acc, steps);
    RunConserves(acc, from, steps, end);
    NothingRepriced(acc, steps);
    EarnedIsRateSum(acc.rec.rate, from, steps, end);
    RedeemedAtPrice(acc, steps, ppa);
    EndsClaimed(acc, steps, end, ppa);
    ZeroProduct(0, final.rec.rate);
    Quotients(acc.rec.Owed(from) + RateSum(acc.rec.rate, steps, from, end), final, ppa);
  }

  lemma Quotients(total: nat, final: Account, ppa: PointsPerAmt)
    requires Balanced(final) && final.redeemed == final.minted * ppa && final.rec.carry < ppa
    requires total == HOUR * final.rec.lifetime + final.rec.leftover
    ensures final.rec.lifetime == total / HOUR && final.rec.leftover == total % HOUR
    ensures final.minted == total / HOUR / ppa && final.rec.carry == total / HOUR % ppa
  {
    DivUnique(total, HOUR, final.rec.lifetime, final.rec.leftover);
    DivUnique(final.rec.lifetime, ppa, final.minted, final.rec.carry);
  }

  lemma {:induction false} EndsClaimed(acc: Account, steps: seq<Timed>, end: U64, ppa: PointsPerAmt)
    requires steps != [] && steps[|steps| - 1] == Timed(end, Claim(ppa))
    ensures Run(acc, steps).rec.last == end && Run(acc, steps).rec.carry < ppa
  {
    var front := steps[..|steps| - 1];
    assert steps == front + [Timed(end, Claim(ppa))];
    RunAppend(acc, front, Timed(end, Claim(ppa)));
    RedeemKeeps(Run(acc, front).rec.Bank(end).carry, 0, ppa);
  }

  /** Schedule independence: with the same rate history, when and how often points are settled, synced
      or claimed makes no difference to points, remainder, carry or tokens. */
  lemma {:induction false} ScheduleIndependence(acc: Account, from: U64, a: seq<Timed>, b: seq<Timed>, end: U64,
                                                ppa: PointsPerAmt)
    requires Balanced(acc) && acc.rec.last <= from && acc.redeemed == acc.minted * ppa
    requires Schedule(acc, from, a, end, ppa) && Schedule(acc, from, b, end, ppa)
    requires forall s :: from <= s < end ==> RateAt(acc.rec.rate, a, s) == RateAt(acc.rec.rate, b, s)
    ensures var x, y := Run(acc, a), Run(acc, b);
            && x.rec.lifetime == y.rec.lifetime && x.rec.leftover == y.rec.leftover
            && x.rec.carry == y.rec.carry && x.minted == y.minted
            && x.credited + x.synced == y.credited + y.synced
  {
    ScheduleOutcome(acc, from, a, end, ppa);
    ScheduleOutcome(acc, from, b, end, ppa);
    SameRatesSameSum(acc.rec.rate, a, acc.rec.rate, b, from, end);
  }

  /** Every `sync_rate` of a run meets a record with no whole point pending. */
  predicate SyncsIdle(acc: Account, steps: seq<Timed>)
    decreases |steps|
  {
    steps != [] ==>
      (steps[0].op.Sync? ==> acc.rec.Pending(steps[0].at) == 0) && SyncsIdle(Step(acc, steps[0]), steps[1..])
  }

  /** What was synced never becomes less, and stays the same exactly while syncs are idle. */
  lemma {:induction false} SyncedGrows(acc: Account, steps: seq<Timed>)
    ensures Run(acc, steps).synced >= acc.synced
    ensures Run(acc, steps).synced == acc.synced <==> SyncsIdle(acc, steps)
    decreases |steps|
  {
    if steps != [] {
      SyncedGrows(Step(acc, steps[0]), steps[1..]);
    }
  }

  /** The registry is credited with everything earned if and only if no `sync_rate` of the run meets a
      record with a whole point pending. */
  lemma {:induction false} RegistryComplete(acc: Account, from: U64, steps: seq<Timed>, end: U64)
    requires Balanced(acc) && acc.rec.last <= from && Ordered(from, steps, end) && Unsaturated(acc, steps)
    requires acc.credited == acc.rec.lifetime
    ensures Run(acc, steps).credited == Run(acc, steps).rec.lifetime <==> SyncsIdle(acc, steps)
  {
    RunConserves(acc, from, steps, end);
    SyncedGrows(acc, steps);
  }

  /** One hour at rate 1, then a sync: the claim that follows credits nothing, and the registry never
      hears of the point. */
  lemma {:induction false} SyncHidesAPoint(acc: Account)
    requires acc == Account(UserAccrual(1, 0, 0, 0, 0, 0), 0, 0, 0, 0)
    ensures var final := Run(acc, [Timed(3600, Sync(1)), Timed(3600, Claim(1))]);
            final.rec.lifetime == 1 && final.minted == 1 && final.credited == 0
  {
    var steps := [Timed(3600, Sync(1)), Timed(3600, Claim(1))];
    assert steps[1..] == [Timed(3600, Claim(1))] && steps[1..][1..] == [];
    var mid := Step(acc, steps[0]);
    assert mid == Account(UserAccrual(1, 3600, 1, 1, 0, 0), 0, 0, 0, 1);
    assert Run(acc, steps) == Run(mid, steps[1..]) == Run(Step(mid, steps[1]), []);
  }

  /** From a step on, point-seconds are earned at the rate it set: a stop means none, and only a sync or a
      restart brings a new one. */
  lemma RateFromThen(acc: Account, t: Timed, later: U64)
    requires t.at <= later && (t.op.Restart? || t.op.Settle? ==> acc.rec.last <= t.at)
    ensures var a := Step(acc, t).rec;
            a.Owed(later) == a.Owed(t.at) + (later - t.at) * match t.op
                                                             case Sync(r) => r
                                                             case Restart(r) => r
                                                             case Stop => 0
                                                             case _ => acc.rec.rate
  {
    OwedGrows(Step(acc, t).rec, t.at, later);
  }

  /** Nothing but a sync or a restart can set a rate. */
  predicate NoNewRate(steps: seq<Timed>) {
    forall i :: 0 <= i < |steps| ==> !steps[i].op.Sync? && !steps[i].op.Restart?
  }

  /** A record that is stopped and has less than a point left never earns another, whatever is settled,
      claimed or stopped on it afterwards, until a sync or a restart. */
  lemma {:induction false} IdleStaysIdle(acc: Account, steps: seq<Timed>)
    requires acc.rec.rate == 0 && acc.rec.leftover < HOUR && NoNewRate(steps)
    ensures var end := Run(acc, steps);
            && end.rec.rate == 0 && end.rec.leftover == acc.rec.leftover && end.rec.lifetime == acc.rec.lifetime
            && end.credited == acc.credited
    decreases |steps|
  {
    if steps != [] {
      assert SatSub(steps[0].at, acc.rec.last) * 0 == 0;
      assert acc.rec.Pending(steps[0].at) == 0;
      assert forall i :: 0 <= i < |steps[1..]| ==> steps[1..][i] == steps[i + 1];
      IdleStaysIdle(Step(acc, steps[0]), steps[1..]);
    }
  }

  /** After a stop no run without a sync or a restart earns anything. */
  lemma {:induction false} StoppedEarnsNothing(acc: Account, at: U64, steps: seq<Timed>)
    requires NoNewRate(steps)
    ensures Run(Step(acc, Timed(at, Stop)), steps).rec.lifetime == Step(acc, Timed(at, Stop)).rec.lifetime
  {
    IdleStaysIdle(Step(acc, Timed(at, Stop)), steps);
  }
}
