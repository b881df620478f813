/** bot_nft as a value: who owns which bot, and who may move it. The indexes the contract keeps
    beside this (`UserBots`, `TierIndex`, `TierSupply`) are not part of the value: they are derived. */
module NftSpec {
  import opened Common

  const MAX_TIER_SUPPLY := 50
  const MAX_BASIC_BOTS_PER_ACCOUNT := 1

  datatype Tier = Basic | Bronze | Silver | Gold | Diamond

  datatype NftError =
    | AuthFailed
    | BotNotFound
    | NotOwner
    | Unauthorized
    | InvalidTier
    | SupplyCapExceeded
    | TierSoldOut
    | CapBelowSupply
    | Overflow
    | ApprovalExpired
    | NotApproved

  datatype Bot = Bot(tier: Tier, owner: Address, minter: Address, bonusBps: U32)
  datatype Approval = Approval(spender: Address, expiration: U32)

  datatype Nft = Nft(
    admin: Address,
    bots: map<U64, Bot>,
    approvals: map<U64, Approval>,
    operators: set<(Address, Address)>,
    nextId: U64,
    caps: map<Tier, U64>,
    rates: map<Tier, U64>)
  {
    ghost function TierIds(tier: Tier): set<U64> {
      set b | b in bots && bots[b].tier == tier
    }

    ghost function OwnedBy(user: Address): set<U64> {
      set b | b in bots && bots[b].owner == user
    }

    function Cap(tier: Tier): U64 {
      if tier in caps then caps[tier] else 0
    }

    function BaseRate(tier: Tier): U64 {
      if tier in rates then rates[tier] else DefaultRate(tier)
    }

    /** Tier base rate plus rarity bonus, as `get_bot` reports it. */
    function EffectiveRate(bot: Bot): U64 {
      var base := BaseRate(bot.tier);
      SatAdd64(base, SatMul64(base, bot.bonusBps) / 10000)
    }

    /** `do_mint`: the next id, within the hard and the configured cap of its tier. */
    ghost function DoMint(owner: Address, tier: Tier, bonusBps: U32): Result<Nft, NftError> {
      if nextId == U64_MAX then Err(Overflow)
      else if |TierIds(tier)| + 1 > MAX_TIER_SUPPLY then Err(SupplyCapExceeded)
      else if Cap(tier) > 0 && |TierIds(tier)| + 1 > Cap(tier) then Err(TierSoldOut)
      else Ok(this.(nextId := nextId + 1, bots := bots[nextId := Bot(tier, owner, owner, bonusBps)]))
    }

    ghost function AdminMint(cx: Context, to: Address, tier: Tier, bonusBps: U32): Result<Nft, NftError> {
      if admin !in cx.auth then Err(AuthFailed) else DoMint(to, tier, bonusBps)
    }

    ghost function MintBasic(cx: Context, owner: Address, bonusBps: U32): Result<Nft, NftError> {
      if owner !in cx.auth then Err(AuthFailed)
      else if |OwnedBy(owner) * TierIds(Basic)| >= MAX_BASIC_BOTS_PER_ACCOUNT then Err(SupplyCapExceeded)
      else DoMint(owner, Basic, bonusBps)
    }

    /** `do_transfer`: a new owner, and no single-token approval survives. */
    function Move(id: U64, to: Address): Nft
      requires id in bots
    {
      this.(bots := bots[id := bots[id].(owner := to)], approvals := approvals - {id})
    }

    function Transfer(cx: Context, id: U64, from: Address, to: Address): Result<Nft, NftError> {
      if from !in cx.auth then Err(AuthFailed)
      else if from == to then Ok(this)
      else if id !in bots then Err(BotNotFound)
      else if bots[id].owner != from then Err(NotOwner)
      else Ok(Move(id, to))
    }

    predicate IsApprovedForAll(owner: Address, operator: Address) {
      owner == operator || (owner, operator) in operators
    }

    function TransferFrom(cx: Context, spender: Address, from: Address, to: Address, id: U64)
      : Result<Nft, NftError>
    {
      if spender !in cx.auth then Err(AuthFailed)
      else if from == to then Ok(this)
      else if id !in bots then Err(BotNotFound)
      else if bots[id].owner != from then Err(NotOwner)
      else if IsApprovedForAll(from, spender) then Ok(Move(id, to))
      else if id !in approvals || approvals[id].spender != spender then Err(NotApproved)
      else if approvals[id].expiration < cx.sequence then Err(ApprovalExpired)
      else Ok(Move(id, to))
    }

    function Approve(cx: Context, owner: Address, spender: Address, id: U64, expiration: U32)
      : Result<Nft, NftError>
    {
      if id !in bots then Err(BotNotFound)
      else if bots[id].owner != owner then Err(NotOwner)
      else if owner !in cx.auth then Err(AuthFailed)
      else if expiration < cx.sequence then Ok(this.(approvals := approvals - {id}))
      else Ok(this.(approvals := approvals[id := Approval(spender, expiration)]))
    }

    function SetApprovalForAll(cx: Context, owner: Address, operator: Address, approved: bool)
      : Result<Nft, NftError>
    {
      if owner == operator then Ok(this)
      else if owner !in cx.auth then Err(AuthFailed)
      else Ok(this.(operators := if approved then operators + {(owner, operator)}
                                 else operators - {(owner, operator)}))
    }

    function Burn(cx: Context, id: U64, owner: Address): Result<Nft, NftError> {
      if owner !in cx.auth then Err(AuthFailed)
      else if id !in bots then Err(BotNotFound)
      else if bots[id].owner != owner then Err(NotOwner)
      else Ok(this.(bots := bots - {id}))
    }

    ghost function SetTierCap(cx: Context, tier: Tier, cap: U64): Result<Nft, NftError> {
      if admin !in cx.auth then Err(AuthFailed)
      else if cap > 0 && cap < |TierIds(tier)| then Err(CapBelowSupply)
      else Ok(this.(caps := caps[tier := cap]))
    }

    function SetTierRate(cx: Context, tier: Tier, rate: U64): Result<Nft, NftError> {
      if admin !in cx.auth then Err(AuthFailed)
      else if rate == 0 then Err(InvalidTier)
      else if rate > SatMul64(BaseRate(tier), 2) || (BaseRate(tier) / 2 > 0 && rate < BaseRate(tier) / 2)
      then Err(Unauthorized)
      else Ok(this.(rates := rates[tier := rate]))
    }

    /** Ids below the counter, and every tier within its hard cap and within any configured one. */
    ghost predicate Sound() {
      && (forall b :: b in bots ==> b < nextId && bots[b].bonusBps < 500)
      && (forall t :: |TierIds(t)| <= MAX_TIER_SUPPLY)
      && (forall t :: Cap(t) > 0 ==> |TierIds(t)| <= Cap(t))
      && (forall b :: b in approvals ==> b < nextId)
    }
  }

  function DefaultRate(tier: Tier): U64 {
    match tier
    case Basic => 1
    case Bronze => 5
    case Silver => 25
    case Gold => 100
    case Diamond => 500
  }

  datatype Call =
    | AdminMint(to: Address, tier: Tier, bonusBps: U32)
    | MintBasic(owner: Address, bonusBps: U32)
    | Transfer(id: U64, from: Address, to: Address)
    | TransferFrom(spender: Address, from: Address, to: Address, id: U64)
    | Approve(owner: Address, spender: Address, id: U64, expiration: U32)
    | SetApprovalForAll(owner: Address, operator: Address, approved: bool)
    | Burn(id: U64, owner: Address)
    | SetTierCap(tier: Tier, cap: U64)
    | SetTierRate(tier: Tier, rate: U64)

  ghost function Apply(n: Nft, cx: Context, call: Call): Result<Nft, NftError> {
    match call
    case AdminMint(to, tier, bonus) => n.AdminMint(cx, to, tier, bonus % 500)
    case MintBasic(owner, bonus) => n.MintBasic(cx, owner, bonus % 500)
    case Transfer(id, from, to) => n.Transfer(cx, id, from, to)
    case TransferFrom(spender, from, to, id) => n.TransferFrom(cx, spender, from, to, id)
    case Approve(owner, spender, id, expiration) => n.Approve(cx, owner, spender, id, expiration)
    case SetApprovalForAll(owner, operator, approved) => n.SetApprovalForAll(cx, owner, operator, approved)
    case Burn(id, owner) => n.Burn(cx, id, owner)
    case SetTierCap(tier, cap) => n.SetTierCap(cx, tier, cap)
    case SetTierRate(tier, rate) => n.SetTierRate(cx, tier, rate)
  }

  lemma NewBotTier(n: Nft, m: Nft, id: U64, bot: Bot, t: Tier)
    requires id !in n.bots && m.bots == n.bots[id := bot]
    ensures |m.TierIds(t)| == |n.TierIds(t)| + if t == bot.tier then 1 else 0
  {
    forall b
      ensures b in m.TierIds(t) <==> b in n.TierIds(t) || (b == id && t == bot.tier)
    {
    }
    assert m.TierIds(t) == n.TierIds(t) + if t == bot.tier then {id} else {};
  }

  lemma DoMintSound(n: Nft, owner: Address, tier: Tier, bonusBps: U32)
    requires n.Sound() && bonusBps < 500
    requires n.DoMint(owner, tier, bonusBps).Ok?
    ensures n.DoMint(owner, tier, bonusBps).value.Sound()
  {
    var m := n.DoMint(owner, tier, bonusBps).value;
    assert n.nextId !in n.bots;
    forall t
      ensures |m.TierIds(t)| <= MAX_TIER_SUPPLY
      ensures m.Cap(t) > 0 ==> |m.TierIds(t)| <= m.Cap(t)
    {
      NewBotTier(n, m, n.nextId, Bot(tier, owner, owner, bonusBps), t);
      assert |n.TierIds(t)| <= MAX_TIER_SUPPLY;
      assert n.Cap(t) > 0 ==> |n.TierIds(t)| <= n.Cap(t);
    }
  }

  lemma SetTierCapSound(n: Nft, cx: Context, tier: Tier, cap: U64)
    requires n.Sound() && n.SetTierCap(cx, tier, cap).Ok?
    ensures n.SetTierCap(cx, tier, cap).value.Sound()
  {
    var m := n.SetTierCap(cx, tier, cap).value;
    forall t
      ensures m.TierIds(t) == n.TierIds(t)
    {
    }
  }

  /** Fewer live bots, or the same bots with other owners, stay within every cap. */
  lemma FewerBotsSound(n: Nft, m: Nft)
    requires n.Sound()
    requires m.caps == n.caps && m.nextId == n.nextId
    requires forall b :: b in m.approvals ==> b < n.nextId
    requires forall b :: b in m.bots ==> b in n.bots && m.bots[b].tier == n.bots[b].tier
                                         && m.bots[b].bonusBps == n.bots[b].bonusBps
    ensures m.Sound()
  {
    forall t
      ensures |m.TierIds(t)| <= |n.TierIds(t)| && m.Cap(t) == n.Cap(t)
    {
      assert m.TierIds(t) <= n.TierIds(t);
      SubsetSize(m.TierIds(t), n.TierIds(t));
    }
  }

  lemma MoveSound(n: Nft, id: U64, to: Address)
    requires n.Sound() && id in n.bots
    ensures n.Move(id, to).Sound()
  {
    FewerBotsSound(n, n.Move(id, to));
  }

  lemma ApprovalsSound(n: Nft, cx: Context, call: Call)
    requires n.Sound() && (call.Approve? || call.SetApprovalForAll? || call.SetTierRate? || call.Burn?)
    ensures Apply(n, cx, call).Ok? ==> Apply(n, cx, call).value.Sound()
  {
    var r := Apply(n, cx, call);
    if r.Ok? {
      FewerBotsSound(n, r.value);
    }
  }

  /** Every entry point keeps ids, caps and supplies sound. */
  lemma ApplySound(n: Nft, cx: Context, call: Call)
    requires n.Sound()
    ensures Apply(n, cx, call).Ok? ==> Apply(n, cx, call).value.Sound()
  {
    if Apply(n, cx, call).Ok? {
      match call
      case AdminMint(to, tier, bonus) => DoMintSound(n, to, tier, bonus % 500);
      case MintBasic(owner, bonus) => DoMintSound(n, owner, Basic, bonus % 500);
      case Transfer(id, from, to) => if from != to { MoveSound(n, id, to); }
      case TransferFrom(_, from, to, id) => if from != to { MoveSound(n, id, to); }
      case SetTierCap(tier, cap) => SetTierCapSound(n, cx, tier, cap);
      case _ => ApprovalsSound(n, cx, call);
    }
  }

  // ---- accrual rates -----------------------------------------------------

  ghost function Rates(n: Nft, ids: set<U64>): map<U64, int>
    requires ids <= n.bots.Keys
  {
    map b | b in ids :: n.EffectiveRate(n.bots[b])
  }

  /** What `get_user_total_rate` adds up for `user`, before it saturates. */
  ghost function UserRate(n: Nft, user: Address): int {
    Total(Rates(n, n.OwnedBy(user)))
  }

  ghost function RateTable(n: Nft, users: set<Address>): map<Address, int> {
    map u | u in users :: UserRate(n, u)
  }

  /** The rates as reported, cut at the top of `u64`. */
  ghost function Reported(rates: map<Address, int>): map<Address, int> {
    map u | u in rates :: Min(rates[u], U64_MAX)
  }

  lemma ReceivedRate(n: Nft, id: U64, to: Address)
    requires id in n.bots && n.bots[id].owner != to
    ensures UserRate(n.Move(id, to), to) == UserRate(n, to) + n.EffectiveRate(n.bots[id])
  {
    var m := n.Move(id, to);
    var before, after := Rates(n, n.OwnedBy(to)), Rates(m, m.OwnedBy(to));
    assert m.OwnedBy(to) == n.OwnedBy(to) + {id};
    assert after == before[id := n.EffectiveRate(n.bots[id])];
    TotalUpdate(before, id, n.EffectiveRate(n.bots[id]));
  }

  lemma SentRate(n: Nft, id: U64, to: Address)
    requires id in n.bots && n.bots[id].owner != to
    ensures UserRate(n.Move(id, to), n.bots[id].owner)
         == UserRate(n, n.bots[id].owner) - n.EffectiveRate(n.bots[id])
  {
    var m, from := n.Move(id, to), n.bots[id].owner;
    var before, after := Rates(n, n.OwnedBy(from)), Rates(m, m.OwnedBy(from));
    assert m.OwnedBy(from) == n.OwnedBy(from) - {id};
    assert after == before - {id};
    TotalPick(before, id);
  }

  lemma OtherRate(n: Nft, id: U64, to: Address, user: Address)
    requires id in n.bots && user != n.bots[id].owner && user != to
    ensures UserRate(n.Move(id, to), user) == UserRate(n, user)
  {
    var m := n.Move(id, to);
    assert m.OwnedBy(user) == n.OwnedBy(user);
    assert Rates(m, m.OwnedBy(user)) == Rates(n, n.OwnedBy(user));
  }

  /** Moving a bot moves its rate from one owner to the other. */
  lemma MoveMovesRate(n: Nft, id: U64, to: Address, user: Address)
    requires id in n.bots && n.bots[id].owner != to
    ensures UserRate(n.Move(id, to), user)
         == UserRate(n, user) + (if user == to then n.EffectiveRate(n.bots[id]) else 0)
            - (if user == n.bots[id].owner then n.EffectiveRate(n.bots[id]) else 0)
  {
    if user == to {
      ReceivedRate(n, id, to);
    } else if user == n.bots[id].owner {
      SentRate(n, id, to);
    } else {
      OtherRate(n, id, to, user);
    }
  }

  /** `rate` has gone from one entry of a table to another. */
  ghost predicate Shifted(before: map<Address, int>, after: map<Address, int>, from: Address, to: Address, rate: int) {
    && from in before && to in before && from != to && before.Keys == after.Keys
    && forall u :: u in before ==>
         after[u] == before[u] + (if u == to then rate else 0) - (if u == from then rate else 0)
  }

  lemma TransferShifts(n: Nft, cx: Context, id: U64, from: Address, to: Address, users: set<Address>)
    requires from in users && to in users && from != to && n.Transfer(cx, id, from, to).Ok?
    ensures Shifted(RateTable(n, users), RateTable(n.Transfer(cx, id, from, to).value, users), from, to,
                    n.EffectiveRate(n.bots[id]))
  {
    forall u | u in users
      ensures UserRate(n.Move(id, to), u)
           == UserRate(n, u) + (if u == to then n.EffectiveRate(n.bots[id]) else 0)
              - (if u == from then n.EffectiveRate(n.bots[id]) else 0)
    {
      MoveMovesRate(n, id, to, u);
    }
  }

  /** A table that changes at two entries changes its sum by what these two change. */
  lemma {:induction false} TwoEntries(before: map<Address, int>, after: map<Address, int>, from: Address, to: Address)
    requires from in before && to in before && from != to && before.Keys == after.Keys
    requires forall u :: u in before && u != from && u != to ==> after[u] == before[u]
    ensures Total(after) == Total(before) + (after[from] - before[from]) + (after[to] - before[to])
  {
    assert after == before[to := after[to]][from := after[from]];
    TotalUpdate(before, to, after[to]);
    TotalUpdate(before[to := after[to]], from, after[from]);
  }

  lemma CutDifference(a: int, x: int)
    requires 0 <= x
    ensures Min(a + x, U64_MAX) - Min(a, U64_MAX) == Min(x, SatSub(U64_MAX, a))
  {
  }

  lemma {:induction false} ShiftedSums(before: map<Address, int>, after: map<Address, int>, from: Address, to: Address,
                                       rate: int)
    requires Shifted(before, after, from, to, rate) && rate >= 0
    ensures Total(after) == Total(before)
    ensures Total(Reported(after)) == Total(Reported(before))
            <==> Min(rate, SatSub(U64_MAX, before[from] - rate)) == Min(rate, SatSub(U64_MAX, before[to]))
  {
    TwoEntries(before, after, from, to);
    TwoEntries(Reported(before), Reported(after), from, to);
    CutDifference(before[from] - rate, rate);
    CutDifference(before[to], rate);
  }

  /** A transfer leaves the sum of all users' exact rates unchanged, for any group holding both parties. */
  lemma TransferKeepsRates(n: Nft, cx: Context, id: U64, from: Address, to: Address,
                           users: set<Address>)
    requires from in users && to in users
    requires n.Transfer(cx, id, from, to).Ok?
    ensures Total(RateTable(n.Transfer(cx, id, from, to).value, users)) == Total(RateTable(n, users))
  {
    if from != to {
      TransferShifts(n, cx, id, from, to, users);
      ShiftedSums(RateTable(n, users), RateTable(n.Transfer(cx, id, from, to).value, users), from, to,
                  n.EffectiveRate(n.bots[id]));
    }
  }

  /** The sum of the reported rates stays the same if and only if sender and receiver have the same room
      for the bot's rate below the cut: both enough, or both equally little. */
  lemma TransferKeepsReportedIff(n: Nft, cx: Context, id: U64, from: Address, to: Address,
                                 users: set<Address>)
    requires from in users && to in users && from != to
    requires n.Transfer(cx, id, from, to).Ok?
    ensures var rate := n.EffectiveRate(n.bots[id]);
            Total(Reported(RateTable(n.Transfer(cx, id, from, to).value, users)))
            == Total(Reported(RateTable(n, users)))
            <==> Min(rate, SatSub(U64_MAX, UserRate(n, from) - rate)) == Min(rate, SatSub(U64_MAX, UserRate(n, to)))
  {
    TransferShifts(n, cx, id, from, to, users);
    ShiftedSums(RateTable(n, users), RateTable(n.Transfer(cx, id, from, to).value, users), from, to,
                n.EffectiveRate(n.bots[id]));
  }

  // ---- a transfer that changes what is reported -------------------------------------------------

  /** `set_tier_rate`, once for each rate. */
  function SetRates(n: Nft, cx: Context, tier: Tier, rates: seq<U64>): Result<Nft, NftError>
    decreases |rates|
  {
    if rates == [] then Ok(n)
    else
      var r := n.SetTierRate(cx, tier, rates[0]);
      if r.Err? then r else SetRates(r.value, cx, tier, rates[1..])
  }

  /** Though one call at most doubles a rate, repeated calls raise it as far as they like. */
  lemma {:induction false} RatesClimb(n: Nft, cx: Context, tier: Tier, rate: U64) returns (rates: seq<U64>)
    requires n.admin in cx.auth && 1 <= n.BaseRate(tier) <= rate
    ensures SetRates(n, cx, tier, rates) == Ok(n.(rates := n.rates[tier := rate]))
    decreases rate - n.BaseRate(tier)
  {
    if rate <= 2 * n.BaseRate(tier) {
      rates := [rate];
      assert SetRates(n, cx, tier, rates) == SetRates(n.SetTierRate(cx, tier, rate).value, cx, tier, []);
    } else {
      var twice := 2 * n.BaseRate(tier);
      var m := n.SetTierRate(cx, tier, twice).value;
      var rest := RatesClimb(m, cx, tier, rate);
      rates := [twice] + rest;
      assert rates[1..] == rest;
      assert m.rates[tier := rate] == n.rates[tier := rate];
    }
  }

  /** Two owners of one basic bot each. */
  function TwoOwners(admin: Address, a: Address, b: Address, rates: map<Tier, U64>): Nft {
    Nft(admin, map[1 := Bot(Basic, a, a, 0), 2 := Bot(Basic, b, b, 0)], map[], {}, 3, map[], rates)
  }

  lemma OneBotRate(n: Nft, user: Address, id: U64)
    requires id in n.bots && n.OwnedBy(user) == {id}
    ensures UserRate(n, user) == n.EffectiveRate(n.bots[id])
  {
    assert Rates(n, {id}) == map[][id := n.EffectiveRate(n.bots[id])];
    TotalUpdate(map[], id, n.EffectiveRate(n.bots[id]));
  }

  lemma {:induction false} PairTotal(t: map<Address, int>, a: Address, b: Address)
    requires t.Keys == {a, b} && a != b
    ensures Total(t) == t[a] + t[b]
  {
    assert t == map[][a := t[a]][b := t[b]];
    TotalUpdate(map[], a, t[a]);
    TotalUpdate(map[][a := t[a]], b, t[b]);
  }

  lemma PairReported(n: Nft, a: Address, b: Address)
    requires a != b
    ensures Total(Reported(RateTable(n, {a, b}))) == Min(UserRate(n, a), U64_MAX) + Min(UserRate(n, b), U64_MAX)
  {
    PairTotal(Reported(RateTable(n, {a, b})), a, b);
  }

  /** Each of the two bots alone fills the cut, and both together no more. */
  lemma HalfIsReported(n: Nft, a: Address, b: Address)
    requires a != b && n.bots.Keys == {1, 2} && n.bots[1].owner == a && n.bots[2].owner == b
    requires n.EffectiveRate(n.bots[1]) == n.EffectiveRate(n.bots[2]) == U64_MAX
    ensures Total(Reported(RateTable(n, {a, b}))) == 2 * U64_MAX
    ensures Total(Reported(RateTable(n.Move(1, b), {a, b}))) == U64_MAX
  {
    assert n.OwnedBy(a) == {1} && n.OwnedBy(b) == {2};
    OneBotRate(n, a, 1);
    OneBotRate(n, b, 2);
    SentRate(n, 1, b);
    ReceivedRate(n, 1, b);
    PairReported(n, a, b);
    PairReported(n.Move(1, b), a, b);
  }

  /** Once the basic rate has been raised to the top, giving one bot to the other owner halves what is
      reported. */
  lemma TransferHidesRate(cx: Context, admin: Address, a: Address, b: Address)
    returns (rates: seq<U64>)
    requires admin in cx.auth && a in cx.auth && a != b
    ensures SetRates(TwoOwners(admin, a, b, map[]), cx, Basic, rates)
         == Ok(TwoOwners(admin, a, b, map[Basic := U64_MAX]))
    ensures var n := TwoOwners(admin, a, b, map[Basic := U64_MAX]);
            && n.Transfer(cx, 1, a, b).Ok?
            && Total(Reported(RateTable(n, {a, b}))) == 2 * U64_MAX
            && Total(Reported(RateTable(n.Transfer(cx, 1, a, b).value, {a, b}))) == U64_MAX
  {
    rates := RatesClimb(TwoOwners(admin, a, b, map[]), cx, Basic, U64_MAX);
    assert map[][Basic := U64_MAX] == map[Basic := U64_MAX];
    HalfIsReported(TwoOwners(admin, a, b, map[Basic := U64_MAX]), a, b);
  }
}
