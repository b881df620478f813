/** Point accrual: what banking does to one user's record, and what it does not change. */
module AccrualSpec {
  import opened Common

  const HOUR := 3600

  /** `points_per_amt`, never zero. */
  type PointsPerAmt = p: U64 | p >= 1 witness 1

  datatype UserAccrual = UserAccrual(rate: U64, last: U64, carry: U64, lifetime: U64, startedAt: U64, leftover: U64)
  {
    /** Point-seconds earned since the last banking, in the contract's saturating arithmetic. */
    function Numerator(now: U64): U64 {
      SatAdd64(SatMul64(SatSub(now, last), rate), leftover)
    }

    /** The same without any limit. */
    function Exact(now: U64): nat {
      SatSub(now, last) * rate + leftover
    }

    function Pending(now: U64): U64 {
      Numerator(now) / HOUR
    }

    /** What `sync_rate`, `settle`, `claim` and `stop_accrual` have in common. */
    function Bank(now: U64): UserAccrual {
      UserAccrual(rate, now, SatAdd64(carry, Pending(now)), SatAdd64(lifetime, Pending(now)), startedAt,
                  Numerator(now) % HOUR)
    }

    /** `settle` for one user: nothing is written when nothing is pending. */
    function Settled(now: U64): UserAccrual {
      if Pending(now) == 0 then this else Bank(now)
    }

    /** `claim`: whole tokens leave the carry. */
    function Claimed(now: U64, ppa: PointsPerAmt): UserAccrual {
      Bank(now).(carry := Bank(now).carry % ppa)
    }

    /** Whole tokens a claim mints. */
    function Mints(now: U64, ppa: PointsPerAmt): U64 {
      DivAtMost(Bank(now).carry, ppa);
      Bank(now).carry / ppa
    }

    /** `pending_points`, computed in `u128`, which cannot overflow here. */
    function PendingPoints(now: U64): nat {
      Exact(now) / HOUR
    }

    /** `seconds_to_next_amt`: rounded up, then cut to 64 bits. */
    function SecondsToNextAmt(ppa: PointsPerAmt): U64 {
      if rate == 0 || carry >= ppa then 0 else CeilSeconds(ppa) % (U64_MAX + 1)
    }

    function CeilSeconds(ppa: PointsPerAmt): nat
      requires rate > 0 && carry < ppa
    {
      ((ppa - carry) * HOUR + rate - 1) / rate
    }

    /** All point-seconds ever earned: banked, in the remainder, and in the open interval. */
    function Owed(now: U64): nat {
      HOUR * lifetime + Exact(now)
    }

    /** Banking now saturates nowhere. */
    predicate Fits(now: U64) {
      Exact(now) <= U64_MAX && lifetime + Exact(now) / HOUR <= U64_MAX
    }
  }

  lemma DivAtMost(a: nat, d: int)
    requires d >= 1
    ensures 0 <= a / d <= a
  {
  }

  lemma NumeratorIsCut(a: UserAccrual, now: U64)
    ensures a.Numerator(now) == Min(a.Exact(now), U64_MAX)
  {
    var p := SatSub(now, a.last) * a.rate;
    assert p >= 0;
    assert SatMul64(SatSub(now, a.last), a.rate) == Min(p, U64_MAX);
  }

  lemma BankedOwes(a: UserAccrual, now: U64)
    ensures a.Bank(now).Exact(now) == a.Numerator(now) % HOUR
    ensures a.Bank(now).Owed(now) == HOUR * SatAdd64(a.lifetime, a.Pending(now)) + a.Numerator(now) % HOUR
  {
    assert SatSub(now, now) * a.rate == 0;
  }

  /** Banking loses nothing if and only if nothing saturates. */
  lemma BankConserves(a: UserAccrual, now: U64)
    ensures a.Bank(now).Owed(now) == a.Owed(now) <==> a.Fits(now)
    ensures a.Bank(now).Owed(now) <= a.Owed(now)
  {
    NumeratorIsCut(a, now);
    BankedOwes(a, now);
    var e := a.Exact(now);
    assert e == HOUR * (e / HOUR) + e % HOUR;
    if e > U64_MAX {
      assert U64_MAX / HOUR * HOUR + U64_MAX % HOUR == U64_MAX;
    }
  }

  /** As long as nothing saturates, the remainder is below an hour's worth and the carry no more than
      what was ever earned. */
  lemma BankedRecord(a: UserAccrual, now: U64)
    requires a.Fits(now) && a.carry <= a.lifetime
    ensures var b := a.Bank(now);
            && b.leftover < HOUR && b.last == now
            && b.lifetime == a.lifetime + a.PendingPoints(now)
            && b.carry == a.carry + a.PendingPoints(now)
            && a.Pending(now) == a.PendingPoints(now)
            && HOUR * b.lifetime + b.leftover == a.Owed(now)
  {
    NumeratorIsCut(a, now);
    BankConserves(a, now);
    BankedOwes(a, now);
  }

  // ---- the previews -----------------------------------------------------------------------

  /** `pending_points` previews what a claim banks if and only if the exact amount is below the largest
      whole point the 64-bit numerator can express, plus one. */
  lemma PreviewExactIff(a: UserAccrual, now: U64)
    ensures a.PendingPoints(now) == a.Pending(now) <==> a.Exact(now) < (U64_MAX / HOUR + 1) * HOUR
  {
    NumeratorIsCut(a, now);
    var e := a.Exact(now);
    if e > U64_MAX {
      assert e / HOUR >= U64_MAX / HOUR;
    }
  }

  /** Points at `s` seconds after the last banking, exactly. */
  function PointsAfter(a: UserAccrual, s: nat): nat {
    a.carry + (s * a.rate + a.leftover) / HOUR
  }

  lemma CeilIsLeast(needed: nat, rate: nat, n: nat)
    requires rate > 0 && n == (needed + rate - 1) / rate
    ensures n * rate >= needed
    ensures n > 0 ==> (n - 1) * rate == needed - 1 - (needed - 1) % rate
  {
    var q := needed + rate - 1;
    assert q == rate * n + q % rate;
    if n > 0 {
      assert needed >= 1;
      DivShift(needed - 1, rate);
      assert n - 1 == (needed - 1) / rate;
      assert needed - 1 == rate * (n - 1) + (needed - 1) % rate;
    }
  }

  lemma DivShift(x: nat, d: nat)
    requires d > 0
    ensures (x + d) / d == x / d + 1
  {
    var n := x / d;
    assert x == d * n + x % d;
    assert x + d == d * (n + 1) + x % d;
    DivUnique(x + d, d, n + 1, x % d);
  }

  lemma AtLeastFactor(d: nat, k: nat)
    requires k >= 1
    ensures d * k >= d && k * d >= d
  {
    assert d * k == d + d * (k - 1) && d * (k - 1) >= 0;
  }

  lemma DivUnique(x: nat, d: nat, n: nat, r: nat)
    requires d > 0 && r < d && x == d * n + r
    ensures x / d == n && x % d == r
  {
    var m, q := x / d, x % d;
    assert x == d * m + q;
    if m > n {
      assert d * m - d * n == d * (m - n);
      AtLeastFactor(d, m - n);
    } else if m < n {
      assert d * n - d * m == d * (n - m);
      AtLeastFactor(d, n - m);
    }
  }

  /** The ceiling of a quotient is the least factor that reaches the dividend. */
  lemma CeilReaches(needed: nat, rate: nat, s: nat)
    requires rate > 0
    ensures s * rate >= needed <==> s >= (needed + rate - 1) / rate
  {
    var n := (needed + rate - 1) / rate;
    CeilIsLeast(needed, rate, n);
    if s >= n {
      AtMostFactor(n, s, rate);
    } else {
      AtMostFactor(s, n - 1, rate);
    }
  }

  lemma AtMostFactor(x: nat, y: nat, d: nat)
    requires x <= y
    ensures x * d <= y * d
  {
    Distribute(x, y - x, d);
  }

  lemma Distribute(x: int, y: int, d: int)
    ensures (x + y) * d == x * d + y * d
  {
  }

  lemma ZeroProduct(x: int, y: int)
    ensures x * y == 0 <==> x == 0 || y == 0
  {
  }

  /** The seconds from the last banking to the next token, with the carried remainder put to use. */
  function Wait(a: UserAccrual, ppa: PointsPerAmt): nat
    requires a.rate > 0 && a.carry < ppa && a.leftover < HOUR
  {
    ((ppa - a.carry) * HOUR - a.leftover + a.rate - 1) / a.rate
  }

  lemma WaitIsLeast(a: UserAccrual, ppa: PointsPerAmt, s: nat)
    requires a.rate > 0 && a.carry < ppa && a.leftover < HOUR
    ensures PointsAfter(a, s) >= ppa <==> s >= Wait(a, ppa)
  {
    var needed, earned := (ppa - a.carry) * HOUR, s * a.rate + a.leftover;
    assert PointsAfter(a, s) == a.carry + earned / HOUR;
    assert earned / HOUR >= ppa - a.carry <==> earned >= needed;
    CeilReaches(needed - a.leftover, a.rate, s);
  }

  /** The remainder shortens the wait by less than an hour. */
  lemma WaitNear(a: UserAccrual, ppa: PointsPerAmt)
    requires a.rate > 0 && a.carry < ppa && a.leftover < HOUR
    ensures Wait(a, ppa) <= a.CeilSeconds(ppa) < Wait(a, ppa) + HOUR
  {
    var needed, n := (ppa - a.carry) * HOUR, a.CeilSeconds(ppa);
    CeilReaches(needed, a.rate, n);
    CeilReaches(needed - a.leftover, a.rate, n);
    var w := Wait(a, ppa);
    CeilReaches(needed - a.leftover, a.rate, w);
    AtLeastFactor(a.rate, HOUR - 1);
    Distribute(w, HOUR - 1, a.rate);
    assert (HOUR - 1) * a.rate >= HOUR - 1 by {
      Distribute(1, a.rate - 1, HOUR - 1);
    }
    CeilReaches(needed, a.rate, w + HOUR - 1);
  }

  /** Seconds the running interval has been open at a query. */
  function Open(a: UserAccrual, now: U64): nat {
    SatSub(now, a.last)
  }

  /** Waiting the announced time from the query always earns the next token, unless the announcement was
      cut to 64 bits; a cut one suffices exactly when the open interval makes up for what is missing, and
      never when nothing is open. */
  lemma AnnouncedTimeSuffices(a: UserAccrual, ppa: PointsPerAmt, now: U64)
    requires a.rate > 0 && a.carry < ppa && a.leftover < HOUR
    ensures PointsAfter(a, Open(a, now) + a.SecondsToNextAmt(ppa)) >= ppa
            <==> a.CeilSeconds(ppa) <= U64_MAX || Open(a, now) + a.SecondsToNextAmt(ppa) >= Wait(a, ppa)
    ensures Open(a, now) == 0 ==>
              (PointsAfter(a, a.SecondsToNextAmt(ppa)) >= ppa <==> a.CeilSeconds(ppa) <= U64_MAX)
  {
    WaitNear(a, ppa);
    WaitIsLeast(a, ppa, Open(a, now) + a.SecondsToNextAmt(ppa));
    if a.CeilSeconds(ppa) > U64_MAX {
      assert a.SecondsToNextAmt(ppa) <= a.CeilSeconds(ppa) - (U64_MAX + 1);
    }
  }

  /** It is the least such time if and only if nothing is open at the query and the carried remainder does
      not complete the last second: the announcement ignores both. */
  lemma AnnouncedTimeLeastIff(a: UserAccrual, ppa: PointsPerAmt, now: U64)
    requires a.rate > 0 && a.carry < ppa && a.leftover < HOUR && a.CeilSeconds(ppa) <= U64_MAX
    ensures a.SecondsToNextAmt(ppa) >= 1
    ensures PointsAfter(a, Open(a, now) + a.SecondsToNextAmt(ppa) - 1) < ppa
            <==> Open(a, now) == 0 && a.leftover <= ((ppa - a.carry) * HOUR - 1) % a.rate
  {
    var needed, n := (ppa - a.carry) * HOUR, a.CeilSeconds(ppa);
    CeilIsLeast(needed, a.rate, n);
    ZeroProduct(n, a.rate);
    WaitNear(a, ppa);
    WaitIsLeast(a, ppa, Open(a, now) + n - 1);
    CeilReaches(needed - a.leftover, a.rate, n - 1);
  }

  // ---- where the previews are off -----------------------------------------------------------

  /** A new record at a rate. */
  function Started(rate: U64): UserAccrual {
    UserAccrual(rate, 0, 0, 0, 0, 0)
  }

  /** At the largest rate an hour previews 3600 times what a claim then banks. */
  lemma PreviewPromisesTooMuch()
    ensures Started(U64_MAX).PendingPoints(3600) == U64_MAX
    ensures Started(U64_MAX).Pending(3600) == U64_MAX / HOUR
    ensures Started(U64_MAX).Bank(3600).lifetime == U64_MAX / HOUR
  {
    assert U64_MAX * HOUR / HOUR == U64_MAX;
  }

  /** At rate 1 and the largest price, the wait does not fit 64 bits, and after the announced time the
      token is far away. */
  lemma AnnouncedTimeTooShort()
    ensures Started(1).CeilSeconds(U64_MAX) == U64_MAX * HOUR
    ensures Started(1).SecondsToNextAmt(U64_MAX) == U64_MAX - 3599
    ensures PointsAfter(Started(1), Started(1).SecondsToNextAmt(U64_MAX)) < U64_MAX
  {
  }

  /** One second banked at rate 1 leaves a remainder that the announcement ignores: 3600 seconds are
      announced where 3599 suffice. A second later, 3598 do. */
  lemma AnnouncedTimeTooLong()
    ensures var a := Started(1).Bank(1);
            && a.leftover == 1 && a.SecondsToNextAmt(1) == 3600
            && PointsAfter(a, 3599) == 1
            && Open(a, 2) == 1 && PointsAfter(a, Open(a, 2) + 3598) == 1
  {
    assert Started(1).Numerator(1) == 1;
  }

  /** Base units minted for `amt` whole tokens: scaled, or unscaled when that does not fit. */
  function MintAmount(amt: U64, scale: I128): I128 {
    if -I128_MAX - 1 <= amt * scale <= I128_MAX then amt * scale else amt
  }

  /** The fallback never triggers for a token of at most 18 decimals; beyond, it mints too little
      exactly when the scaled amount does not fit. */
  lemma MintIsScaledIff(amt: U64, scale: I128)
    requires amt > 0 && scale > 1
    ensures MintAmount(amt, scale) == amt * scale <==> amt * scale <= I128_MAX
    ensures scale <= 1_000_000_000_000_000_000 ==> MintAmount(amt, scale) == amt * scale
  {
    assert amt * scale >= amt * 2;
    if scale <= 1_000_000_000_000_000_000 {
      assert amt * scale <= amt * 1_000_000_000_000_000_000;
    }
  }
}
