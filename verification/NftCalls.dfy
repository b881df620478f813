/** What each call of bot_nft needs and does, and that a bot leaves its owner only with their leave. */
module NftCalls {
  import opened Common
  import opened NftSpec

  /** `who` may move the bot for its owner: an operator, or the one account approved for it, in time. */
  ghost predicate MayMove(n: Nft, cx: Context, who: Address, id: U64)
    requires id in n.bots
  {
    || who == n.bots[id].owner || (n.bots[id].owner, who) in n.operators
    || (id in n.approvals && n.approvals[id].spender == who && cx.sequence <= n.approvals[id].expiration)
  }

  /** The bot has a new owner and nobody is approved for it; nothing else is different. */
  ghost predicate HandedTo(n: Nft, m: Nft, id: U64, to: Address)
    requires id in n.bots
  {
    && m == n.(bots := m.bots, approvals := m.approvals)
    && m.bots == n.bots[id := n.bots[id].(owner := to)] && m.approvals == n.approvals - {id}
  }

  lemma TransferDoes(n: Nft, cx: Context, id: U64, from: Address, to: Address)
    ensures var r := n.Transfer(cx, id, from, to);
            && (r.Ok? <==> from in cx.auth && (from == to || (id in n.bots && n.bots[id].owner == from)))
            && (r.Ok? ==> if from == to then r.value == n else HandedTo(n, r.value, id, to))
  {
  }

  lemma TransferFromDoes(n: Nft, cx: Context, spender: Address, from: Address, to: Address, id: U64)
    ensures var r := n.TransferFrom(cx, spender, from, to, id);
            && (r.Ok? <==> && spender in cx.auth
                           && (from == to || (id in n.bots && n.bots[id].owner == from && MayMove(n, cx, spender, id))))
            && (r.Ok? ==> if from == to then r.value == n else HandedTo(n, r.value, id, to))
  {
  }

  lemma ApproveDoes(n: Nft, cx: Context, owner: Address, spender: Address, id: U64, expiration: U32)
    ensures var r := n.Approve(cx, owner, spender, id, expiration);
            && (r.Ok? <==> id in n.bots && n.bots[id].owner == owner && owner in cx.auth)
            && (r.Ok? ==>
                  && r.value == n.(approvals := r.value.approvals) && r.value.approvals - {id} == n.approvals - {id}
                  && if expiration < cx.sequence then id !in r.value.approvals
                     else id in r.value.approvals && r.value.approvals[id] == Approval(spender, expiration))
  {
  }

  lemma OperatorDoes(n: Nft, cx: Context, owner: Address, operator: Address, approved: bool)
    ensures var r := n.SetApprovalForAll(cx, owner, operator, approved);
            && (r.Ok? <==> owner == operator || owner in cx.auth)
            && (r.Ok? ==>
                  && r.value == n.(operators := r.value.operators)
                  && (owner != operator ==> ((owner, operator) in r.value.operators <==> approved))
                  && forall p :: p != (owner, operator) || owner == operator ==>
                       (p in r.value.operators <==> p in n.operators))
  {
  }

  lemma BurnDoes(n: Nft, cx: Context, id: U64, owner: Address)
    ensures var r := n.Burn(cx, id, owner);
            && (r.Ok? <==> owner in cx.auth && id in n.bots && n.bots[id].owner == owner)
            && (r.Ok? ==> r.value == n.(bots := n.bots - {id}))
  {
  }

  /** Bots of a tier. */
  ghost function Many(n: Nft, tier: Tier): nat {
    |set b | b in n.bots && n.bots[b].tier == tier|
  }

  /** A mint succeeds within 50 a tier and its cap, if one is set, and makes one bot under the next id. */
  lemma MintDoes(n: Nft, owner: Address, tier: Tier, bonusBps: U32)
    ensures var r := n.DoMint(owner, tier, bonusBps);
            && (r.Ok? <==> && n.nextId < U64_MAX && Many(n, tier) < MAX_TIER_SUPPLY
                           && (tier in n.caps && n.caps[tier] > 0 ==> Many(n, tier) < n.caps[tier]))
            && (r.Ok? ==> r.value == n.(nextId := n.nextId + 1,
                                        bots := n.bots[n.nextId := Bot(tier, owner, owner, bonusBps)]))
  {
    assert n.TierIds(tier) == set b | b in n.bots && n.bots[b].tier == tier;
  }

  /** Who mints: the admin whatever they like, everybody else one basic bot. */
  lemma MintsNeed(n: Nft, cx: Context, owner: Address, tier: Tier, bonusBps: U32)
    ensures n.AdminMint(cx, owner, tier, bonusBps).Ok?
            <==> n.admin in cx.auth && n.DoMint(owner, tier, bonusBps).Ok?
    ensures n.MintBasic(cx, owner, bonusBps).Ok?
            <==> && owner in cx.auth && n.DoMint(owner, Basic, bonusBps).Ok?
                 && forall b :: b in n.bots && n.bots[b].tier == Basic ==> n.bots[b].owner != owner
  {
    var basics := n.OwnedBy(owner) * n.TierIds(Basic);
    if b :| b in n.bots && n.bots[b].tier == Basic && n.bots[b].owner == owner {
      assert b in basics;
    } else {
      assert basics == {};
    }
  }

  /** A rate moves by a factor of two at most, down to its half rounded down, and never to zero. */
  lemma SetTierRateDoes(n: Nft, cx: Context, tier: Tier, rate: U64)
    ensures var r := n.SetTierRate(cx, tier, rate);
            var current := if tier in n.rates then n.rates[tier] else DefaultRate(tier);
            && (r.Ok? <==> n.admin in cx.auth && 0 < rate <= 2 * current && current < 2 * rate + 2)
            && (r.Ok? ==> r.value == n.(rates := n.rates[tier := rate]))
  {
  }

  /** A cap is taken back, or at least what is alive already. */
  lemma SetTierCapDoes(n: Nft, cx: Context, tier: Tier, cap: U64)
    ensures var r := n.SetTierCap(cx, tier, cap);
            && (r.Ok? <==> n.admin in cx.auth && (cap == 0 || Many(n, tier) <= cap))
            && (r.Ok? ==> r.value == n.(caps := n.caps[tier := cap]))
  {
    assert n.TierIds(tier) == set b | b in n.bots && n.bots[b].tier == tier;
  }

  // ---- runs ------------------------------------------------------------------------------

  ghost function Step(n: Nft, cx: Context, call: Call): Nft {
    var r := Apply(n, cx, call);
    if r.Ok? then r.value else n
  }

  ghost function Run(n: Nft, calls: seq<(Context, Call)>): Nft
    decreases |calls|
  {
    if calls == [] then n else Run(Step(n, calls[0].0, calls[0].1), calls[1..])
  }

  /** Nobody but its owner can do anything with the bot. */
  ghost predicate Unshared(n: Nft, id: U64, owner: Address) {
    && id in n.bots && n.bots[id].owner == owner && id !in n.approvals
    && forall x :: x != owner ==> (owner, x) !in n.operators
  }

  lemma MovesSpare(n: Nft, cx: Context, call: Call, id: U64, owner: Address)
    requires n.Sound() && Unshared(n, id, owner) && owner !in cx.auth && (call.Transfer? || call.TransferFrom?)
    ensures Unshared(Step(n, cx, call), id, owner) && Step(n, cx, call).bots[id] == n.bots[id]
  {
    if call.Transfer? {
      TransferDoes(n, cx, call.id, call.from, call.to);
    } else {
      TransferFromDoes(n, cx, call.spender, call.from, call.to, call.id);
    }
  }

  lemma OthersSpare(n: Nft, cx: Context, call: Call, id: U64, owner: Address)
    requires n.Sound() && Unshared(n, id, owner) && owner !in cx.auth && !call.Transfer? && !call.TransferFrom?
    ensures Unshared(Step(n, cx, call), id, owner) && Step(n, cx, call).bots[id] == n.bots[id]
  {
    match call
    case Approve(o, s, i, e) => ApproveDoes(n, cx, o, s, i, e);
    case SetApprovalForAll(o, p, a) => OperatorDoes(n, cx, o, p, a);
    case Burn(i, o) => BurnDoes(n, cx, i, o);
    case AdminMint(to, tier, bonus) => MintDoes(n, to, tier, bonus % 500);
    case MintBasic(o, bonus) => MintDoes(n, o, Basic, bonus % 500);
    case _ =>
  }

  /** Over any run in which the owner signs nothing, a bot that nobody else was given leave for stays with
      its owner, as it is. */
  lemma {:induction false} UnsignedKeepsBot(n: Nft, calls: seq<(Context, Call)>, id: U64, owner: Address)
    requires n.Sound() && Unshared(n, id, owner)
    requires forall i :: 0 <= i < |calls| ==> owner !in calls[i].0.auth
    ensures id in Run(n, calls).bots && Run(n, calls).bots[id] == n.bots[id]
    decreases |calls|
  {
    if calls != [] {
      var cx, call := calls[0].0, calls[0].1;
      if call.Transfer? || call.TransferFrom? {
        MovesSpare(n, cx, call, id, owner);
      } else {
        OthersSpare(n, cx, call, id, owner);
      }
      ApplySound(n, cx, call);
      assert forall i :: 0 <= i < |calls[1..]| ==> calls[1..][i] == calls[i + 1];
      UnsignedKeepsBot(Step(n, cx, call), calls[1..], id, owner);
    }
  }

  lemma StepWithoutAdmin(n: Nft, cx: Context, call: Call)
    requires n.admin !in cx.auth
    ensures var m := Step(n, cx, call);
            && m.admin == n.admin && m.caps == n.caps && m.rates == n.rates
            && forall b :: b in m.bots && m.bots[b].tier != Basic ==> b in n.bots && m.bots[b].tier == n.bots[b].tier
  {
    match call
    case Transfer(id, from, to) => TransferDoes(n, cx, id, from, to);
    case TransferFrom(spender, from, to, id) => TransferFromDoes(n, cx, spender, from, to, id);
    case MintBasic(owner, bonus) => MintDoes(n, owner, Basic, bonus % 500);
    case _ =>
  }

  /** Over any run that the admin signs nothing of, caps and rates stay, and nobody gets a bot of a higher
      tier than Basic that was not there before. */
  lemma {:induction false} NothingWithoutAdmin(n: Nft, calls: seq<(Context, Call)>)
    requires forall i :: 0 <= i < |calls| ==> n.admin !in calls[i].0.auth
    ensures var m := Run(n, calls);
            && m.admin == n.admin && m.caps == n.caps && m.rates == n.rates
            && forall b :: b in m.bots && m.bots[b].tier != Basic ==> b in n.bots && m.bots[b].tier == n.bots[b].tier
    decreases |calls|
  {
    if calls != [] {
      var cx, call := calls[0].0, calls[0].1;
      StepWithoutAdmin(n, cx, call);
      assert forall i :: 0 <= i < |calls[1..]| ==> calls[1..][i] == calls[i + 1];
      NothingWithoutAdmin(Step(n, cx, call), calls[1..]);
    }
  }

  // ---- accrual rates ---------------------------------------------------------------------

  lemma BonusPart(base: int, bonusBps: int)
    requires base >= 0 && bonusBps >= 0
    ensures base * (10000 + bonusBps) / 10000 == base + base * bonusBps / 10000
  {
    assert base * (10000 + bonusBps) == base * 10000 + base * bonusBps;
  }

  /** A bot earns its tier's rate raised by its bonus, rounded down, if and only if that fits: the bonus
      before its division, and the rate itself. */
  lemma RateIsRaisedIff(n: Nft, bot: Bot)
    ensures n.EffectiveRate(bot) == n.BaseRate(bot.tier) * (10000 + bot.bonusBps) / 10000
            <==> && n.BaseRate(bot.tier) * bot.bonusBps / 10000 <= U64_MAX / 10000
                 && n.BaseRate(bot.tier) * (10000 + bot.bonusBps) / 10000 <= U64_MAX
  {
    var base, product := n.BaseRate(bot.tier), n.BaseRate(bot.tier) * bot.bonusBps;
    BonusPart(base, bot.bonusBps);
    assert product >= 0;
  }

  /** A tier's rate is what was set for it, or else its default; with a bonus below 5 % the defaults keep
      the tiers apart. */
  lemma DefaultsKeepTiersApart(n: Nft, low: Bot, high: Bot)
    requires n.rates == map[] && low.bonusBps < 500 && high.bonusBps < 500
    requires (low.tier, high.tier) in {(Basic, Bronze), (Bronze, Silver), (Silver, Gold), (Gold, Diamond)}
    ensures 3 * n.EffectiveRate(low) <= n.EffectiveRate(high)
    ensures n.EffectiveRate(Bot(Basic, low.owner, low.minter, 0)) == 1
  {
  }
}
