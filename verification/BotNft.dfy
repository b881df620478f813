/** The bot_nft contract with the indexes it maintains incrementally. Every method is proved to be
    the function of the same name in `NftSpec`, and to keep every index exact. */
module BotNft {
  import opened Common
  import opened IdLists
  import opened NftSpec

  function Listed<K>(index: map<K, seq<U64>>, key: K): seq<U64> {
    if key in index then index[key] else []
  }

  function Supply(tierSupply: map<Tier, U64>, tier: Tier): U64 {
    if tier in tierSupply then tierSupply[tier] else 0
  }

  /** `UserBots`, `TierIndex` and `TierSupply` say exactly what the bots themselves say. */
  ghost predicate Indexed(n: Nft, userBots: map<Address, seq<U64>>, tierIndex: map<Tier, seq<U64>>,
                          tierSupply: map<Tier, U64>)
  {
    && (forall u :: Lists(Listed(userBots, u), n.OwnedBy(u)))
    && (forall t :: Lists(Listed(tierIndex, t), n.TierIds(t)) && Ascending(Listed(tierIndex, t)))
    && (forall t :: Supply(tierSupply, t) == |n.TierIds(t)|)
  }

  lemma OwnerIndexAdds(n: Nft, m: Nft, userBots: map<Address, seq<U64>>, id: U64, bot: Bot)
    requires forall u :: Lists(Listed(userBots, u), n.OwnedBy(u))
    requires id !in n.bots && m.bots == n.bots[id := bot]
    ensures forall u :: Lists(Listed(userBots[bot.owner := Listed(userBots, bot.owner) + [id]], u), m.OwnedBy(u))
  {
    forall u
      ensures Lists(Listed(userBots[bot.owner := Listed(userBots, bot.owner) + [id]], u), m.OwnedBy(u))
    {
      AppendKeeps(Listed(userBots, u), id);
      assert m.OwnedBy(u) == n.OwnedBy(u) + if u == bot.owner then {id} else {};
    }
  }

  lemma TierIndexAdds(n: Nft, m: Nft, tierIndex: map<Tier, seq<U64>>, id: U64, bot: Bot)
    requires forall t :: Lists(Listed(tierIndex, t), n.TierIds(t)) && Ascending(Listed(tierIndex, t))
    requires forall b :: b in n.bots ==> b < id
    requires m.bots == n.bots[id := bot]
    ensures forall t :: Lists(Listed(tierIndex[bot.tier := Listed(tierIndex, bot.tier) + [id]], t), m.TierIds(t))
                        && Ascending(Listed(tierIndex[bot.tier := Listed(tierIndex, bot.tier) + [id]], t))
  {
    forall t
      ensures Lists(Listed(tierIndex[bot.tier := Listed(tierIndex, bot.tier) + [id]], t), m.TierIds(t))
      ensures Ascending(Listed(tierIndex[bot.tier := Listed(tierIndex, bot.tier) + [id]], t))
    {
      AppendKeeps(Listed(tierIndex, t), id);
      assert m.TierIds(t) == n.TierIds(t) + if t == bot.tier then {id} else {};
    }
  }

  function Dropped<K(==)>(index: map<K, seq<U64>>, key: K, id: U64): map<K, seq<U64>> {
    index[key := Without(Listed(index, key), id)]
  }

  lemma OwnerIndexDrops(n: Nft, m: Nft, userBots: map<Address, seq<U64>>, id: U64)
    requires forall u :: Lists(Listed(userBots, u), n.OwnedBy(u))
    requires id in n.bots && m.bots == n.bots - {id}
    ensures forall u :: Lists(Listed(Dropped(userBots, n.bots[id].owner, id), u), m.OwnedBy(u))
  {
    forall u
      ensures Lists(Listed(Dropped(userBots, n.bots[id].owner, id), u), m.OwnedBy(u))
    {
      WithoutKeeps(Listed(userBots, u), id);
      assert m.OwnedBy(u) == n.OwnedBy(u) - {id};
    }
  }

  lemma TierIndexDrops(n: Nft, m: Nft, tierIndex: map<Tier, seq<U64>>, id: U64)
    requires forall t :: Lists(Listed(tierIndex, t), n.TierIds(t)) && Ascending(Listed(tierIndex, t))
    requires id in n.bots && m.bots == n.bots - {id}
    ensures forall t :: Lists(Listed(Dropped(tierIndex, n.bots[id].tier, id), t), m.TierIds(t))
                        && Ascending(Listed(Dropped(tierIndex, n.bots[id].tier, id), t))
  {
    forall t
      ensures Lists(Listed(Dropped(tierIndex, n.bots[id].tier, id), t), m.TierIds(t))
      ensures Ascending(Listed(Dropped(tierIndex, n.bots[id].tier, id), t))
    {
      WithoutKeeps(Listed(tierIndex, t), id);
      assert m.TierIds(t) == n.TierIds(t) - {id};
    }
  }

  /** A new owner moves the id between two owner lists and touches no tier index. */
  lemma {:induction false} MoveReindexes(n: Nft, id: U64, to: Address, userBots: map<Address, seq<U64>>,
                      tierIndex: map<Tier, seq<U64>>, tierSupply: map<Tier, U64>)
    requires Indexed(n, userBots, tierIndex, tierSupply)
    requires id in n.bots && n.bots[id].owner != to
    ensures var from := n.bots[id].owner;
            var dropped := userBots[from := Without(Listed(userBots, from), id)];
            Indexed(n.Move(id, to), dropped[to := Listed(dropped, to) + [id]], tierIndex, tierSupply)
  {
    var from := n.bots[id].owner;
    var gone := n.(bots := n.bots - {id});
    var dropped := userBots[from := Without(Listed(userBots, from), id)];
    OwnerIndexDrops(n, gone, userBots, id);
    assert n.Move(id, to).bots == gone.bots[id := n.bots[id].(owner := to)];
    OwnerIndexAdds(gone, n.Move(id, to), dropped, id, n.bots[id].(owner := to));
    forall t
      ensures n.Move(id, to).TierIds(t) == n.TierIds(t)
    {
    }
  }

  /** A minted bot enters its owner's list and its tier's index at the end. */
  lemma MintReindexes(n: Nft, owner: Address, tier: Tier, bonusBps: U32, userBots: map<Address, seq<U64>>,
                      tierIndex: map<Tier, seq<U64>>, tierSupply: map<Tier, U64>)
    requires n.Sound() && Indexed(n, userBots, tierIndex, tierSupply)
    requires n.DoMint(owner, tier, bonusBps).Ok?
    ensures Indexed(n.DoMint(owner, tier, bonusBps).value,
                    userBots[owner := Listed(userBots, owner) + [n.nextId]],
                    tierIndex[tier := Listed(tierIndex, tier) + [n.nextId]],
                    tierSupply[tier := |n.TierIds(tier)| + 1])
  {
    var m, bot := n.DoMint(owner, tier, bonusBps).value, Bot(tier, owner, owner, bonusBps);
    OwnerIndexAdds(n, m, userBots, n.nextId, bot);
    TierIndexAdds(n, m, tierIndex, n.nextId, bot);
    forall t
      ensures Supply(tierSupply[tier := |n.TierIds(tier)| + 1], t) == |m.TierIds(t)|
    {
      NewBotTier(n, m, n.nextId, bot, t);
    }
  }

  /** A burned bot leaves its owner's list, its tier's index and its tier's count. */
  lemma BurnReindexes(n: Nft, id: U64, userBots: map<Address, seq<U64>>, tierIndex: map<Tier, seq<U64>>,
                      tierSupply: map<Tier, U64>)
    requires Indexed(n, userBots, tierIndex, tierSupply)
    requires id in n.bots
    ensures var owner, tier := n.bots[id].owner, n.bots[id].tier;
            && |n.TierIds(tier)| > 0
            && Indexed(n.(bots := n.bots - {id}),
                       userBots[owner := Without(Listed(userBots, owner), id)],
                       tierIndex[tier := Without(Listed(tierIndex, tier), id)],
                       tierSupply[tier := SatSub(Supply(tierSupply, tier), 1)])
  {
    var m := n.(bots := n.bots - {id});
    OwnerIndexDrops(n, m, userBots, id);
    TierIndexDrops(n, m, tierIndex, id);
    SupplyDrops(n, m, tierSupply, id);
  }

  lemma SupplyDrops(n: Nft, m: Nft, tierSupply: map<Tier, U64>, id: U64)
    requires forall t :: Supply(tierSupply, t) == |n.TierIds(t)|
    requires id in n.bots && m.bots == n.bots - {id}
    ensures |n.TierIds(n.bots[id].tier)| > 0
    ensures forall t :: Supply(tierSupply[n.bots[id].tier := SatSub(Supply(tierSupply, n.bots[id].tier), 1)], t)
                     == |m.TierIds(t)|
  {
    var tier := n.bots[id].tier;
    assert n.bots == m.bots[id := n.bots[id]];
    forall t
      ensures Supply(tierSupply[tier := SatSub(Supply(tierSupply, tier), 1)], t) == |m.TierIds(t)|
      ensures |n.TierIds(t)| == |m.TierIds(t)| + if t == tier then 1 else 0
    {
      NewBotTier(m, n, id, n.bots[id], t);
    }
  }

  /** Reading one more entry of the owner's list counts it if it is Basic. */
  lemma CountOneMore(n: Nft, ids: seq<U64>, i: nat)
    requires i < |ids| && Distinct(ids) && ids[i] in n.bots
    ensures |Members(ids[..i + 1]) * n.TierIds(Basic)|
         == |Members(ids[..i]) * n.TierIds(Basic)| + if n.bots[ids[i]].tier == Basic then 1 else 0
  {
    var seen, basic := Members(ids[..i]), n.TierIds(Basic);
    assert ids[..i + 1] == ids[..i] + [ids[i]];
    assert Members(ids[..i + 1]) == seen + {ids[i]};
    assert ids[i] !in seen;
    if n.bots[ids[i]].tier == Basic {
      assert (seen + {ids[i]}) * basic == seen * basic + {ids[i]};
    } else {
      assert (seen + {ids[i]}) * basic == seen * basic;
    }
  }

  /** The true sum of the first `i` rates of a list of live bots. */
  ghost function RateUpTo(n: Nft, ids: seq<U64>, i: nat): int
    requires i <= |ids| && forall b :: b in ids ==> b in n.bots
  {
    Total(Rates(n, Members(ids[..i])))
  }

  lemma OwnedRatesStart(n: Nft, ids: seq<U64>, user: Address)
    requires Lists(ids, n.OwnedBy(user))
    ensures Distinct(ids) && forall b :: b in ids ==> b in n.bots
    ensures RateUpTo(n, ids, 0) == 0 && RateUpTo(n, ids, |ids|) == UserRate(n, user)
  {
    assert Rates(n, Members(ids[..0])) == map[];
    assert ids[..|ids|] == ids;
    assert Members(ids) == n.OwnedBy(user);
  }

  /** Reading one more entry of the owner's list adds its rate. */
  lemma RateOneMore(n: Nft, ids: seq<U64>, i: nat)
    requires i < |ids| && Distinct(ids) && (forall b :: b in ids ==> b in n.bots)
    ensures ids[i] in n.bots
    ensures RateUpTo(n, ids, i + 1) == RateUpTo(n, ids, i) + n.EffectiveRate(n.bots[ids[i]])
    ensures RateUpTo(n, ids, i) >= 0
  {
    var seen := Members(ids[..i]);
    assert ids[..i + 1] == ids[..i] + [ids[i]];
    assert Members(ids[..i + 1]) == seen + {ids[i]};
    assert ids[i] !in seen;
    var rate := n.EffectiveRate(n.bots[ids[i]]);
    assert Rates(n, seen + {ids[i]}) == Rates(n, seen)[ids[i] := rate];
    TotalUpdate(Rates(n, seen), ids[i], rate);
    TotalNonnegative(Rates(n, seen));
  }

  class Contract {
    var admin: Address
    var bots: map<U64, Bot>
    var approvals: map<U64, Approval>
    var operators: set<(Address, Address)>
    var nextId: U64
    var caps: map<Tier, U64>
    var rates: map<Tier, U64>
    var marketplace: Option<Address>
    var userBots: map<Address, seq<U64>>
    var tierIndex: map<Tier, seq<U64>>
    var tierSupply: map<Tier, U64>

    function State(): Nft
      reads this
    {
      Nft(admin, bots, approvals, operators, nextId, caps, rates)
    }

    ghost predicate Valid()
      reads this
    {
      State().Sound() && Indexed(State(), userBots, tierIndex, tierSupply)
    }

    constructor (admin: Address)
      ensures Valid()
      ensures State() == Nft(admin, map[], map[], {}, 1, map[],
                             map t: Tier | t in {Basic, Bronze, Silver, Gold, Diamond} :: DefaultRate(t))
    {
      this.admin, nextId, marketplace := admin, 1, None;
      bots, approvals, operators, caps := map[], map[], {}, map[];
      rates := map t: Tier | t in {Basic, Bronze, Silver, Gold, Diamond} :: DefaultRate(t);
      userBots, tierIndex, tierSupply := map[], map[], map[];
    }

    method AddBotToUser(user: Address, id: U64)
      modifies `userBots
      ensures userBots == old(userBots)[user := Listed(old(userBots), user) + [id]]
    {
      userBots := userBots[user := Listed(userBots, user) + [id]];
    }

    method RemoveBotFromUser(user: Address, id: U64)
      modifies `userBots
      ensures userBots == old(userBots)[user := Without(Listed(old(userBots), user), id)]
    {
      var kept := Remove(Listed(userBots, user), id);
      userBots := userBots[user := kept];
    }

    /** Id, caps and supply first, then the bot and both indexes. */
    method DoMint(owner: Address, tier: Tier, bonusBps: U32) returns (r: Result<U64, NftError>)
      requires Valid() && bonusBps < 500
      modifies this
      ensures Valid() && marketplace == old(marketplace)
      ensures match old(State().DoMint(owner, tier, bonusBps))
              case Ok(n) => r == Ok(old(nextId)) && State() == n
              case Err(e) => r == Err(e) && State() == old(State())
    {
      var id := nextId;
      if id == U64_MAX { return Err(Overflow); }
      var supply := SatAdd64(Supply(tierSupply, tier), 1);
      if supply > MAX_TIER_SUPPLY { return Err(SupplyCapExceeded); }
      var cap := if tier in caps then caps[tier] else 0;
      if cap > 0 && supply > cap { return Err(TierSoldOut); }
      DoMintSound(State(), owner, tier, bonusBps);
      WriteBot(owner, tier, bonusBps, supply);
      return Ok(id);
    }

    /** The writes of `do_mint`, once the mint is admitted. */
    method WriteBot(owner: Address, tier: Tier, bonusBps: U32, supply: U64)
      requires State().Sound() && Indexed(State(), userBots, tierIndex, tierSupply)
      requires State().DoMint(owner, tier, bonusBps).Ok? && supply == |State().TierIds(tier)| + 1
      modifies this
      ensures marketplace == old(marketplace) && Ok(State()) == old(State().DoMint(owner, tier, bonusBps))
      ensures Indexed(State(), userBots, tierIndex, tierSupply)
    {
      MintReindexes(State(), owner, tier, bonusBps, userBots, tierIndex, tierSupply);
      var id := nextId;
      nextId := id + 1;
      tierSupply := tierSupply[tier := supply];
      bots := bots[id := Bot(tier, owner, owner, bonusBps)];
      AddBotToUser(owner, id);
      tierIndex := tierIndex[tier := Listed(tierIndex, tier) + [id]];
    }

    method AdminMint(cx: Context, to: Address, tier: Tier, bonusBps: U32) returns (r: Result<U64, NftError>)
      requires Valid() && bonusBps < 500
      modifies this
      ensures Valid()
      ensures match old(State().AdminMint(cx, to, tier, bonusBps))
              case Ok(n) => r == Ok(old(nextId)) && State() == n
              case Err(e) => r == Err(e) && State() == old(State())
    {
      if admin !in cx.auth { return Err(AuthFailed); }
      r := DoMint(to, tier, bonusBps);
    }

    /** The count loop of `mint_basic` over the owner's bot list. */
    method CountBasic(owner: Address) returns (count: nat)
      requires Valid()
      ensures count == |State().OwnedBy(owner) * State().TierIds(Basic)|
    {
      var ids := Listed(userBots, owner);
      count := 0;
      for i := 0 to |ids|
        invariant count == |Members(ids[..i]) * State().TierIds(Basic)|
      {
        assert ids[i] in State().OwnedBy(owner);
        CountOneMore(State(), ids, i);
        if ids[i] in bots && bots[ids[i]].tier == Basic {
          count := count + 1;
        }
      }
      assert ids[..|ids|] == ids;
      assert Members(ids) == State().OwnedBy(owner);
    }

    method MintBasic(cx: Context, owner: Address, bonusBps: U32) returns (r: Result<U64, NftError>)
      requires Valid() && bonusBps < 500
      modifies this
      ensures Valid()
      ensures match old(State().MintBasic(cx, owner, bonusBps))
              case Ok(n) => r == Ok(old(nextId)) && State() == n
              case Err(e) => r == Err(e) && State() == old(State())
    {
      if owner !in cx.auth { return Err(AuthFailed); }
      var basicCount := CountBasic(owner);
      if basicCount >= MAX_BASIC_BOTS_PER_ACCOUNT { return Err(SupplyCapExceeded); }
      r := DoMint(owner, Basic, bonusBps);
    }

    /** Rewrites the bot, clears its approval and moves it between owner lists. Reports whether the
        marketplace is to be called back. */
    method DoTransfer(id: U64, from: Address, to: Address) returns (notified: bool)
      requires Valid() && id in bots && bots[id].owner == from && from != to
      modifies this
      ensures Valid() && marketplace == old(marketplace)
      ensures State() == old(State()).Move(id, to)
      ensures notified <==> marketplace.Some? && to != marketplace.value
    {
      MoveSound(State(), id, to);
      MoveReindexes(State(), id, to, userBots, tierIndex, tierSupply);
      bots := bots[id := bots[id].(owner := to)];
      approvals := approvals - {id};
      RemoveBotFromUser(from, id);
      AddBotToUser(to, id);
      return marketplace.Some? && to != marketplace.value;
    }

    method Transfer(cx: Context, id: U64, from: Address, to: Address) returns (r: Result<(), NftError>, notified: bool)
      requires Valid()
      modifies this
      ensures Valid()
      ensures match old(State().Transfer(cx, id, from, to))
              case Ok(n) => r == Ok(()) && State() == n
              case Err(e) => r == Err(e) && State() == old(State())
      ensures notified <==> r.Ok? && from != to && old(marketplace).Some? && to != old(marketplace).value
    {
      if from !in cx.auth { return Err(AuthFailed), false; }
      if from == to { return Ok(()), false; }
      if id !in bots { return Err(BotNotFound), false; }
      if bots[id].owner != from { return Err(NotOwner), false; }
      notified := DoTransfer(id, from, to);
      r := Ok(());
    }

    method TransferFrom(cx: Context, spender: Address, from: Address, to: Address, id: U64)
      returns (r: Result<(), NftError>, notified: bool)
      requires Valid()
      modifies this
      ensures Valid()
      ensures match old(State().TransferFrom(cx, spender, from, to, id))
              case Ok(n) => r == Ok(()) && State() == n
              case Err(e) => r == Err(e) && State() == old(State())
      ensures notified <==> r.Ok? && from != to && old(marketplace).Some? && to != old(marketplace).value
    {
      if spender !in cx.auth { return Err(AuthFailed), false; }
      if from == to { return Ok(()), false; }
      if id !in bots { return Err(BotNotFound), false; }
      if bots[id].owner != from { return Err(NotOwner), false; }
      if spender != from && (from, spender) !in operators {
        if id !in approvals || approvals[id].spender != spender { return Err(NotApproved), false; }
        if approvals[id].expiration < cx.sequence {
          return Err(ApprovalExpired), false;  // the clean-up write is rolled back with the call
        }
      }
      notified := DoTransfer(id, from, to);
      r := Ok(());
    }

    method Approve(cx: Context, owner: Address, spender: Address, id: U64, expiration: U32)
      returns (r: Result<(), NftError>)
      requires Valid()
      modifies this
      ensures Valid()
      ensures match old(State().Approve(cx, owner, spender, id, expiration))
              case Ok(n) => r == Ok(()) && State() == n
              case Err(e) => r == Err(e) && State() == old(State())
    {
      ghost var n := State();
      if id !in bots { return Err(BotNotFound); }
      if bots[id].owner != owner { return Err(NotOwner); }
      if owner !in cx.auth { return Err(AuthFailed); }
      if expiration < cx.sequence {
        approvals := approvals - {id};
      } else {
        approvals := approvals[id := Approval(spender, expiration)];
      }
      SameBots(n, State(), userBots, tierIndex, tierSupply);
      return Ok(());
    }

    /** An owner is their own operator anyway, signed or not. */
    method SetApprovalForAll(cx: Context, owner: Address, operator: Address, approved: bool)
      returns (r: Result<(), NftError>)
      requires Valid()
      modifies this
      ensures Valid()
      ensures match old(State().SetApprovalForAll(cx, owner, operator, approved))
              case Ok(n) => r == Ok(()) && State() == n
              case Err(e) => r == Err(e) && State() == old(State())
    {
      ghost var n := State();
      if owner == operator { return Ok(()); }
      if owner !in cx.auth { return Err(AuthFailed); }
      if approved {
        operators := operators + {(owner, operator)};
      } else {
        operators := operators - {(owner, operator)};
      }
      SameBots(n, State(), userBots, tierIndex, tierSupply);
      return Ok(());
    }

    method Burn(cx: Context, id: U64, owner: Address) returns (r: Result<(), NftError>)
      requires Valid()
      modifies this
      ensures Valid()
      ensures match old(State().Burn(cx, id, owner))
              case Ok(n) => r == Ok(()) && State() == n
              case Err(e) => r == Err(e) && State() == old(State())
    {
      ghost var n := State();
      if owner !in cx.auth { return Err(AuthFailed); }
      if id !in bots { return Err(BotNotFound); }
      if bots[id].owner != owner { return Err(NotOwner); }
      DropBot(id, owner, bots[id].tier);
      FewerBotsSound(n, State());
      return Ok(());
    }

    /** The writes of `burn`. */
    method DropBot(id: U64, owner: Address, tier: Tier)
      requires Indexed(State(), userBots, tierIndex, tierSupply)
      requires id in bots && bots[id].owner == owner && bots[id].tier == tier
      modifies this
      ensures marketplace == old(marketplace) && State() == old(State()).(bots := old(bots) - {id})
      ensures Indexed(State(), userBots, tierIndex, tierSupply)
    {
      BurnReindexes(State(), id, userBots, tierIndex, tierSupply);
      tierSupply := tierSupply[tier := SatSub(Supply(tierSupply, tier), 1)];
      bots := bots - {id};
      RemoveBotFromUser(owner, id);
      var kept := Remove(Listed(tierIndex, tier), id);
      tierIndex := tierIndex[tier := kept];
    }

    /** At most a factor of two at once, in saturating arithmetic. */
    method SetTierRate(cx: Context, tier: Tier, rate: U64) returns (r: Result<(), NftError>)
      requires Valid()
      modifies this
      ensures Valid()
      ensures match old(State().SetTierRate(cx, tier, rate))
              case Ok(n) => r == Ok(()) && State() == n
              case Err(e) => r == Err(e) && State() == old(State())
    {
      ghost var n := State();
      if admin !in cx.auth { return Err(AuthFailed); }
      if rate == 0 { return Err(InvalidTier); }
      var current := if tier in rates then rates[tier] else DefaultRate(tier);
      var least := current / 2;
      if rate > SatMul64(current, 2) || (least > 0 && rate < least) { return Err(Unauthorized); }
      rates := rates[tier := rate];
      SameBots(n, State(), userBots, tierIndex, tierSupply);
      return Ok(());
    }

    method SetTierCap(cx: Context, tier: Tier, cap: U64) returns (r: Result<(), NftError>)
      requires Valid()
      modifies this
      ensures Valid()
      ensures match old(State().SetTierCap(cx, tier, cap))
              case Ok(n) => r == Ok(()) && State() == n
              case Err(e) => r == Err(e) && State() == old(State())
    {
      ghost var n := State();
      if admin !in cx.auth { return Err(AuthFailed); }
      if cap > 0 && cap < Supply(tierSupply, tier) { return Err(CapBelowSupply); }
      SetTierCapSound(n, cx, tier, cap);
      caps := caps[tier := cap];
      assert forall t :: State().TierIds(t) == n.TierIds(t);
      assert forall u :: State().OwnedBy(u) == n.OwnedBy(u);
      return Ok(());
    }

    /** The summing loop of `get_user_total_rate`: the true sum, cut off at the top of `u64`. */
    method GetUserTotalRate(user: Address) returns (total: U64)
      requires Valid()
      ensures total == Min(UserRate(State(), user), U64_MAX)
    {
      var ids := Listed(userBots, user);
      total := 0;
      ghost var n := State();
      OwnedRatesStart(n, ids, user);
      for i := 0 to |ids|
        invariant total == Min(RateUpTo(n, ids, i), U64_MAX)
      {
        var rate := ReadRate(ids, i);
        total := SatAdd64(total, rate);
      }
    }

    /** The `accrual_rate` that `get_bot` reports for one entry of an owner's list. */
    method ReadRate(ids: seq<U64>, i: nat) returns (rate: U64)
      requires i < |ids| && Distinct(ids) && (forall b :: b in ids ==> b in State().bots)
      ensures rate == RateUpTo(State(), ids, i + 1) - RateUpTo(State(), ids, i)
      ensures RateUpTo(State(), ids, i) >= 0
    {
      RateOneMore(State(), ids, i);
      rate := State().EffectiveRate(bots[ids[i]]);
    }
  }

  lemma SameBots(n: Nft, m: Nft, userBots: map<Address, seq<U64>>, tierIndex: map<Tier, seq<U64>>,
                 tierSupply: map<Tier, U64>)
    requires n.Sound() && Indexed(n, userBots, tierIndex, tierSupply)
    requires m.bots == n.bots && m.caps == n.caps && m.nextId == n.nextId
    requires forall b :: b in m.approvals ==> b < n.nextId
    ensures m.Sound() && Indexed(m, userBots, tierIndex, tierSupply)
  {
    FewerBotsSound(n, m);
    assert forall t :: m.TierIds(t) == n.TierIds(t);
    assert forall u :: m.OwnedBy(u) == n.OwnedBy(u);
  }
}
