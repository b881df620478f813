/** The accrual contract at work. Calls to bot_nft, registry and token are represented by what they
    answer; what reached registry and token is kept beside the contract's own entries. */
module AccrualContract {
  import opened Common
  import opened AccrualSpec
  import opened AccrualRuns

  const MAX_SETTLE_USERS := 25

  datatype AccrualError =
    | AuthFailed
    | NotStarted
    | RegistryCallFailed
    | TokenMintFailed
    | InvalidConfig
    | NoBots
    | TooManyUsers
    | NotRegistered
    | Frozen

  function Count(m: map<Address, int>, who: Address): int {
    if who in m then m[who] else 0
  }

  /** `settle` touches this user: not frozen, and the registry takes the credit. */
  predicate Settleable(u: Address, frozen: set<Address>, refused: set<Address>) {
    u !in frozen && u !in refused
  }

  /** The entries a call rewrites: the accrual records, and what has reached the other contracts so far:
      points the registry accepted, tokens it recorded as claimed, base units the token minted. */
  datatype Entries = Entries(users: map<Address, UserAccrual>, credited: map<Address, int>,
                             claimed: map<Address, int>, units: map<Address, int>)

  /** The entries of each user are those of its history. */
  ghost predicate Matches(e: Entries, accounts: map<Address, Account>) {
    && accounts.Keys == e.users.Keys
    && (forall u :: u in e.users ==>
          && accounts[u].rec == e.users[u]
          && accounts[u].credited == Count(e.credited, u)
          && accounts[u].minted == Count(e.claimed, u))
    && (forall u :: u in e.credited || u in e.claimed ==> u in e.users)
  }

  /** `amt` whole tokens were minted to one user in base units: scaled, or as they are if that does not fit. */
  ghost predicate Minted(before: map<Address, int>, after: map<Address, int>, who: Address, amt: int, scale: int) {
    && Count(after, who) == Count(before, who) + (if amt * scale <= I128_MAX then amt * scale else amt)
    && forall u :: u != who ==> (u in after <==> u in before) && Count(after, u) == Count(before, u)
  }

  lemma NoneMinted(units: map<Address, int>, who: Address, scale: int)
    ensures Minted(units, units, who, 0, scale)
  {
  }

  function BaseUnits(tokens: int, scale: int): int {
    tokens * scale
  }

  /** Except for users for whom a product once did not fit, everybody has the base units of their tokens. */
  ghost predicate Scaled(e: Entries, accounts: map<Address, Account>, scale: int, unscaled: set<Address>) {
    && (forall u :: u in e.units ==> u in accounts)
    && forall u :: u in accounts && u !in unscaled ==> Count(e.units, u) == BaseUnits(accounts[u].minted, scale)
  }

  lemma SameUnits(e: Entries, f: Entries, accounts: map<Address, Account>, u: Address, acc: Account, scale: int,
                  unscaled: set<Address>)
    requires Scaled(e, accounts, scale, unscaled) && f.units == e.units
    requires if u in accounts then acc.minted == accounts[u].minted else acc.minted == 0
    ensures Scaled(f, accounts[u := acc], scale, unscaled)
  {
  }

  /** With at most 18 decimals every scaled amount fits. */
  lemma ProductFits(amt: U64, scale: int)
    requires 1 <= scale <= 1_000_000_000_000_000_000
    ensures 0 <= amt * scale <= I128_MAX
  {
    AtMostFactor(scale, 1_000_000_000_000_000_000, amt);
    ZeroProduct(amt, scale);
  }

  lemma MoreUnits(e: Entries, f: Entries, accounts: map<Address, Account>, u: Address, acc: Account, amt: U64,
                  scale: int, unscaled: set<Address>) returns (fallen: set<Address>)
    requires Scaled(e, accounts, scale, unscaled) && Minted(e.units, f.units, u, amt, scale) && scale >= 1
    requires u in accounts && acc.minted == accounts[u].minted + amt
    ensures Scaled(f, accounts[u := acc], scale, fallen)
    ensures fallen == unscaled + if amt * scale <= I128_MAX then {} else {u}
    ensures scale <= 1_000_000_000_000_000_000 ==> fallen == unscaled
  {
    fallen := unscaled + if amt * scale <= I128_MAX then {} else {u};
    Distribute(accounts[u].minted, amt, scale);
    if scale <= 1_000_000_000_000_000_000 {
      ProductFits(amt, scale);
    }
  }

  /** A call that rewrites the entries of one user. */
  lemma OneUser(e: Entries, f: Entries, accounts: map<Address, Account>, u: Address, acc: Account)
    requires Matches(e, accounts)
    requires f.users == e.users[u := acc.rec]
    requires acc.credited == Count(f.credited, u) && acc.minted == Count(f.claimed, u)
    requires f.credited == e.credited || f.credited == e.credited[u := acc.credited]
    requires f.claimed == e.claimed || f.claimed == e.claimed[u := acc.minted]
    ensures Matches(f, accounts[u := acc])
  {
  }

  class Contract {
    var admin: Address
    var pointsPerAmt: PointsPerAmt
    var amtScale: I128
    var frozen: set<Address>
    var guarded: bool
    var e: Entries
    /** The history of each user, as runs see it. */
    ghost var accounts: map<Address, Account>
    /** The users for whom a scaled amount did not fit once. */
    ghost var unscaled: set<Address>

    ghost predicate Valid()
      reads this
    {
      Matches(e, accounts) && amtScale >= 1 && Scaled(e, accounts, amtScale, unscaled)
    }

    /** The scale is a power of ten. */
    constructor (admin: Address, pointsPerAmt: PointsPerAmt, amtScale: I128)
      requires amtScale >= 1
      ensures Valid() && unscaled == {} && e.users == map[]
      ensures this.pointsPerAmt == pointsPerAmt && this.amtScale == amtScale
      ensures this.admin == admin && frozen == {} && !guarded
    {
      this.admin, this.pointsPerAmt, this.amtScale := admin, pointsPerAmt, amtScale;
      frozen, guarded, e, accounts, unscaled := {}, false, Entries(map[], map[], map[], map[]), map[], {};
    }

    /** Nothing a failed call wrote survives it. */
    twostate predicate Untouched()
      reads this
    {
      e == old(e) && accounts == old(accounts)
    }

    /** One user took step `op`; what the token minted is as before. */
    twostate predicate Took(u: Address, t: Timed)
      requires u in old(accounts)
      reads this
    {
      accounts == old(accounts)[u := Step(old(accounts)[u], t)] && e.units == old(e).units
    }

    /** One accepted credit. */
    method AddPoints(u: Address, points: U64)
      modifies `e
      ensures e == old(e).(credited := old(e).credited[u := Count(old(e).credited, u) + points])
    {
      e := e.(credited := e.credited[u := Count(e.credited, u) + points]);
    }

    /** The first lines that all four banking calls share. */
    static method NumeratorOf(a: UserAccrual, now: U64) returns (numerator: U64)
      ensures numerator == a.Numerator(now)
    {
      var elapsed := SatSub(now, a.last);
      return SatAdd64(SatMul64(elapsed, a.rate), a.leftover);
    }

    method Write(u: Address, a: UserAccrual)
      modifies `e
      ensures e == old(e).(users := old(e).users[u := a])
    {
      e := e.(users := e.users[u := a]);
    }

    /** Writes the record that `u` has after its next step; a credit for it may be out already. */
    method Record(u: Address, a: UserAccrual, ghost before: Entries, ghost next: Account)
      requires Matches(before, accounts) && next.rec == a
      requires e == before.(credited := e.credited)
      requires e.credited == before.credited || e.credited == before.credited[u := next.credited]
      requires next.credited == Count(e.credited, u) && next.minted == Count(e.claimed, u)
      requires amtScale >= 1 && Scaled(before, accounts, amtScale, unscaled)
      requires if u in accounts then next.minted == accounts[u].minted else next.minted == 0
      modifies `e, `accounts
      ensures Valid() && accounts == old(accounts)[u := next] && e.units == old(e).units
    {
      Write(u, a);
      OneUser(before, e, accounts, u, next);
      SameUnits(before, e, accounts, u, next, amtScale, unscaled);
      accounts := accounts[u := next];
    }

    /** Permissionless: banks, then takes over the rate bot_nft reports. Nothing is credited. */
    method SyncRate(now: U64, user: Address, botRate: U64) returns (r: Result<U64, AccrualError>)
      requires Valid()
      modifies `e, `accounts
      ensures Valid()
      ensures user in frozen ==> r == Err(Frozen) && Untouched()
      ensures user !in frozen && user !in old(accounts) ==> r == Ok(0) && Untouched()
      ensures user !in frozen && user in old(accounts) ==>
                r == Ok(old(accounts)[user].rec.Pending(now)) && Took(user, Timed(now, Sync(botRate)))
    {
      if user in frozen { return Err(Frozen); }
      if user !in e.users { return Ok(0); }
      var a := e.users[user];
      var numerator := NumeratorOf(a, now);
      var settled := numerator / HOUR;
      Record(user, UserAccrual(botRate, now, SatAdd64(a.carry, settled), SatAdd64(a.lifetime, settled), a.startedAt,
                               numerator % HOUR), e, Step(accounts[user], Timed(now, Sync(botRate))));
      return Ok(settled);
    }

    /** A second start only replaces the rate: the open interval is re-priced, not settled. */
    method StartAccrual(cx: Context, user: Address, botRate: U64, registered: bool)
      returns (r: Result<(), AccrualError>)
      requires Valid()
      modifies `e, `accounts
      ensures Valid() && (r.Err? ==> Untouched())
      ensures r == (if user !in cx.auth then Err(AuthFailed)
                    else if user in old(accounts) then Ok(())
                    else if !registered then Err(NotRegistered)
                    else if botRate == 0 then Err(NoBots)
                    else Ok(()))
      ensures r.Ok? && user in old(accounts) ==> Took(user, Timed(cx.now, Restart(botRate)))
      ensures r.Ok? && user !in old(accounts) ==>
                && accounts == old(accounts)[user := Account(UserAccrual(botRate, cx.now, 0, 0, cx.now, 0), 0, 0, 0, 0)]
                && e.units == old(e).units
    {
      if user !in cx.auth { return Err(AuthFailed); }
      if user in e.users {
        Record(user, e.users[user].(rate := botRate), e, Step(accounts[user], Timed(cx.now, Restart(botRate))));
        return Ok(());
      }
      if !registered { return Err(NotRegistered); }
      if botRate == 0 { return Err(NoBots); }
      var a := UserAccrual(botRate, cx.now, 0, 0, cx.now, 0);
      Record(user, a, e, Account(a, 0, 0, 0, 0));
      return Ok(());
    }

    /** One settlement for a user with a record. */
    method SettleOne(now: U64, user: Address, refused: bool) returns (did: bool)
      requires Valid() && user in e.users
      modifies `e, `accounts
      ensures Valid()
      ensures did <==> !refused && old(accounts)[user].rec.Pending(now) > 0
      ensures if did then Took(user, Timed(now, AccrualRuns.Settle)) else Untouched()
    {
      var a := e.users[user];
      var numerator := NumeratorOf(a, now);
      var pending := numerator / HOUR;
      if pending == 0 || refused {
        return false;
      }
      ghost var before := e;
      AddPoints(user, pending);
      Record(user, UserAccrual(a.rate, now, SatAdd64(a.carry, pending), SatAdd64(a.lifetime, pending), a.startedAt,
                               numerator % HOUR), before, Step(accounts[user], Timed(now, AccrualRuns.Settle)));
      return true;
    }

    /** The body of the settlement loop. */
    method SettleListed(now: U64, user: Address, refused: set<Address>) returns (did: bool)
      requires Valid()
      modifies `e, `accounts
      ensures Valid() && e.units == old(e).units
      ensures did <==> && user in old(accounts) && Settleable(user, frozen, refused)
                       && old(accounts)[user].rec.Pending(now) > 0
      ensures accounts == if did then old(accounts)[user := Step(old(accounts)[user], Timed(now, AccrualRuns.Settle))]
                          else old(accounts)
    {
      if user in frozen || user !in e.users {
        return false;
      }
      did := SettleOne(now, user, user in refused);
    }

    /** Banks what is pending for each listed user at most once, however often and in whatever order
        they are listed; frozen users and refused credits are skipped without a trace. */
    method Settle(now: U64, list: seq<Address>, refused: set<Address>) returns (r: Result<nat, AccrualError>)
      requires Valid()
      modifies `e, `accounts
      ensures Valid() && e.units == old(e).units
      ensures if |list| > MAX_SETTLE_USERS then r == Err(TooManyUsers) && Untouched()
              else && r == Ok(|DueUsers(old(accounts), list, now, frozen, refused)|)
                   && SettledUpTo(old(accounts), accounts, list, now, frozen, refused)
    {
      if |list| > MAX_SETTLE_USERS { return Err(TooManyUsers); }
      var settled := 0;
      var i := 0;
      while i < |list|
        invariant 0 <= i <= |list| && Valid() && e.units == old(e).units
        invariant settled == |DueUsers(old(accounts), list[..i], now, frozen, refused)|
        invariant SettledUpTo(old(accounts), accounts, list[..i], now, frozen, refused)
      {
        assert list[..i + 1] == list[..i] + [list[i]];
        ghost var mid := accounts;
        var did := SettleListed(now, list[i], refused);
        OneMoreSettled(old(accounts), mid, accounts, list[..i], list[i], now, frozen, refused, did);
        if did {
          settled := settled + 1;
        }
        i := i + 1;
      }
      assert list[..i] == list;
      return Ok(settled);
    }

    /** One mint on the token, in base units. */
    method MintUnits(user: Address, amt: U64)
      requires amtScale >= 1
      modifies `e
      ensures Minted(old(e).units, e.units, user, amt, amtScale) && e == old(e).(units := e.units)
    {
      var amount := MintAmount(amt, amtScale);
      e := e.(units := e.units[user := Count(e.units, user) + amount]);
    }

    /** The writes of a claim in the order the contract makes them; the host undoes them on `Err`. */
    method ClaimGuarded(now: U64, user: Address, creditOk: bool, mintOk: bool, recordOk: bool)
      returns (r: Result<I128, AccrualError>)
      requires user in e.users && amtScale >= 1
      modifies `e
      ensures r == ClaimResult(old(e).users[user], now, pointsPerAmt, creditOk, mintOk, recordOk)
      ensures r.Ok? ==>
                var a := old(e).users[user];
                var amt := a.Mints(now, pointsPerAmt);
                && e.users == old(e).users[user := a.Claimed(now, pointsPerAmt)]
                && e.credited == old(e).credited[user := Count(old(e).credited, user) + a.Pending(now)]
                && e.claimed == (if amt > 0 then old(e).claimed[user := Count(old(e).claimed, user) + amt]
                                 else old(e).claimed)
                && Minted(old(e).units, e.units, user, amt, amtScale)
    {
      var a := e.users[user];
      var numerator := NumeratorOf(a, now);
      var pending := numerator / HOUR;
      var carry := SatAdd64(a.carry, pending);
      DivAtMost(carry, pointsPerAmt);
      var amt := carry / pointsPerAmt;
      Write(user, UserAccrual(a.rate, now, carry % pointsPerAmt, SatAdd64(a.lifetime, pending), a.startedAt,
                              numerator % HOUR));
      if !creditOk { return Err(RegistryCallFailed); }
      AddPoints(user, pending);
      NoneMinted(e.units, user, amtScale);
      if amt > 0 {
        if !mintOk { return Err(TokenMintFailed); }
        MintUnits(user, amt);
        if !recordOk { return Err(RegistryCallFailed); }
        e := e.(claimed := e.claimed[user := Count(e.claimed, user) + amt]);
      }
      return Ok(pending);
    }

    /** Enters a claim that went through into the histories. */
    ghost method Commit(user: Address, before: Entries, next: Account, amt: U64)
      requires user in accounts && Matches(before, accounts) && amtScale >= 1
      requires Scaled(before, accounts, amtScale, unscaled)
      requires e.users == before.users[user := next.rec]
      requires next.credited == Count(e.credited, user) && next.minted == Count(e.claimed, user)
      requires e.credited == before.credited || e.credited == before.credited[user := next.credited]
      requires e.claimed == before.claimed || e.claimed == before.claimed[user := next.minted]
      requires Minted(before.units, e.units, user, amt, amtScale) && next.minted == accounts[user].minted + amt
      modifies `accounts, `unscaled
      ensures Valid() && accounts == old(accounts)[user := next]
      ensures amtScale <= 1_000_000_000_000_000_000 ==> unscaled == old(unscaled)
    {
      OneUser(before, e, accounts, user, next);
      unscaled := MoreUnits(before, e, accounts, user, next, amt, amtScale, unscaled);
      accounts := accounts[user := next];
    }

    /** Banks, redeems whole tokens and mints them; any refusal undoes everything. A call from within a
        claim does nothing. */
    method Claim(cx: Context, user: Address, creditOk: bool, mintOk: bool, recordOk: bool)
      returns (r: Result<I128, AccrualError>)
      requires Valid()
      modifies `e, `guarded, `accounts, `unscaled
      ensures Valid() && guarded == old(guarded) && (r.Err? || guarded ==> Untouched())
      ensures r == (if user !in cx.auth then Err(AuthFailed)
                    else if user in frozen then Err(Frozen)
                    else if guarded then Ok(0)
                    else if user !in old(accounts) then Err(NotStarted)
                    else ClaimResult(old(accounts)[user].rec, cx.now, pointsPerAmt, creditOk, mintOk, recordOk))
      ensures r.Ok? && !guarded ==>
                var a := old(accounts)[user].rec;
                && accounts == old(accounts)[user := Step(old(accounts)[user],
                                                          Timed(cx.now, AccrualRuns.Claim(pointsPerAmt)))]
                && Minted(old(e).units, e.units, user, accounts[user].minted - old(accounts)[user].minted, amtScale)
      ensures amtScale <= 1_000_000_000_000_000_000 ==> unscaled == old(unscaled)
    {
      if user !in cx.auth { return Err(AuthFailed); }
      if user in frozen { return Err(Frozen); }
      if guarded { return Ok(0); }
      guarded := true;
      if user !in e.users {
        guarded := false;
        return Err(NotStarted);
      }
      var before := e;
      r := ClaimGuarded(cx.now, user, creditOk, mintOk, recordOk);
      guarded := false;
      if r.Err? {
        e := before;
      } else {
        ghost var next := Step(accounts[user], Timed(cx.now, AccrualRuns.Claim(pointsPerAmt)));
        ghost var amt := before.users[user].Mints(cx.now, pointsPerAmt);
        Commit(user, before, next, amt);
      }
    }

    /** Banks and pauses; the record stays, so carry and remainder stay claimable. */
    method StopAccrual(cx: Context, user: Address, creditOk: bool) returns (r: Result<(), AccrualError>)
      requires Valid()
      modifies `e, `accounts
      ensures Valid() && (r.Err? ==> Untouched())
      ensures r == (if user !in cx.auth then Err(AuthFailed)
                    else if user !in old(accounts) then Err(NotStarted)
                    else if old(accounts)[user].rec.Pending(cx.now) > 0 && !creditOk then Err(RegistryCallFailed)
                    else Ok(()))
      ensures r.Ok? ==> Took(user, Timed(cx.now, Stop))
    {
      if user !in cx.auth { return Err(AuthFailed); }
      if user !in e.users { return Err(NotStarted); }
      var a := e.users[user];
      var numerator := NumeratorOf(a, cx.now);
      var pending := numerator / HOUR;
      ghost var before := e;
      if pending > 0 {
        if !creditOk { return Err(RegistryCallFailed); }
        AddPoints(user, pending);
      }
      Record(user, UserAccrual(0, cx.now, SatAdd64(a.carry, pending), SatAdd64(a.lifetime, pending), a.startedAt,
                               numerator % HOUR), before, Step(accounts[user], Timed(cx.now, Stop)));
      return Ok(());
    }

    /** At most a factor of two either way, in saturating arithmetic, and never zero. */
    method SetPointsPerAmt(cx: Context, value: U64) returns (r: Result<(), AccrualError>)
      requires Valid()
      modifies `pointsPerAmt
      ensures Valid() && (r.Err? ==> pointsPerAmt == old(pointsPerAmt))
      ensures r.Ok? ==> admin in cx.auth && pointsPerAmt == value
      ensures r.Ok? <==> admin in cx.auth && value > 0
                         && value <= Min(2 * old(pointsPerAmt), U64_MAX) && old(pointsPerAmt) <= 2 * value
    {
      if admin !in cx.auth { return Err(AuthFailed); }
      if value == 0 { return Err(InvalidConfig); }
      if value > SatMul64(pointsPerAmt, 2) || SatMul64(value, 2) < pointsPerAmt { return Err(InvalidConfig); }
      pointsPerAmt := value;
      return Ok(());
    }
  }

  /** How a claim on record `a` ends. */
  function ClaimResult(a: UserAccrual, now: U64, ppa: PointsPerAmt, creditOk: bool, mintOk: bool, recordOk: bool)
    : Result<I128, AccrualError>
  {
    if !creditOk then Err(RegistryCallFailed)
    else if a.Mints(now, ppa) == 0 then Ok(a.Pending(now))
    else if !mintOk then Err(TokenMintFailed)
    else if !recordOk then Err(RegistryCallFailed)
    else Ok(a.Pending(now))
  }

  /** Every listed user that may be settled took one settlement step, and nobody else any. */
  ghost predicate SettledUpTo(before: map<Address, Account>, after: map<Address, Account>, list: seq<Address>, now: U64,
                              frozen: set<Address>, refused: set<Address>)
  {
    && after.Keys == before.Keys
    && forall u :: u in after ==>
         after[u] == if u in list && Settleable(u, frozen, refused) then Step(before[u], Timed(now, AccrualRuns.Settle))
                     else before[u]
  }

  /** The users a settlement banks for. */
  ghost function DueUsers(accounts: map<Address, Account>, list: seq<Address>, now: U64, frozen: set<Address>,
                          refused: set<Address>): set<Address>
  {
    set u | u in list && u in accounts && Settleable(u, frozen, refused) && accounts[u].rec.Pending(now) > 0
  }

  /** One more user: it is due if its record, as settled so far, has anything pending. */
  lemma OneMoreDue(before: map<Address, Account>, after: map<Address, Account>, list: seq<Address>, user: Address,
                   now: U64, frozen: set<Address>, refused: set<Address>)
    requires SettledUpTo(before, after, list, now, frozen, refused)
    ensures var due := DueUsers(before, list, now, frozen, refused);
            var more := DueUsers(before, list + [user], now, frozen, refused);
            if user in after && Settleable(user, frozen, refused) && after[user].rec.Pending(now) > 0
            then more == due + {user} && user !in due
                 && SettledUpTo(before, after[user := Step(after[user], Timed(now, AccrualRuns.Settle))],
                                list + [user], now, frozen, refused)
            else more == due && SettledUpTo(before, after, list + [user], now, frozen, refused)
  {
    if user in before {
      SettledIsIdle(before[user].rec, now);
    }
    assert forall u :: u in list + [user] <==> u in list || u == user;
  }

  /** The same for the loop: the count goes up with it. */
  lemma OneMoreSettled(before: map<Address, Account>, mid: map<Address, Account>, after: map<Address, Account>,
                       list: seq<Address>, user: Address, now: U64, frozen: set<Address>, refused: set<Address>,
                       did: bool)
    requires SettledUpTo(before, mid, list, now, frozen, refused)
    requires did <==> user in mid && Settleable(user, frozen, refused) && mid[user].rec.Pending(now) > 0
    requires after == if did then mid[user := Step(mid[user], Timed(now, AccrualRuns.Settle))] else mid
    ensures SettledUpTo(before, after, list + [user], now, frozen, refused)
    ensures |DueUsers(before, list + [user], now, frozen, refused)|
         == |DueUsers(before, list, now, frozen, refused)| + if did then 1 else 0
  {
    OneMoreDue(before, mid, list, user, now, frozen, refused);
  }

  /** Settling twice in the same second settles once. */
  lemma SettledIsIdle(a: UserAccrual, now: U64)
    ensures a.Settled(now).Pending(now) == 0
    ensures a.Settled(now).Settled(now) == a.Settled(now)
  {
    if a.Pending(now) != 0 {
      BankedOwes(a, now);
      NumeratorIsCut(a.Bank(now), now);
    }
  }
}
