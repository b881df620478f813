/** What each call of the token needs and does, and what allowances are worth over a run: a spender takes
    at most what was approved, nothing after expiry, and nobody else takes anything. */
module TokenCalls {
  import opened Common
  import opened TokenSpec
  import opened TokenRuns

  /** `from` has let `spender` take `amount`, and that has not expired. */
  predicate Approved(t: Token, cx: Context, from: Address, spender: Address, amount: int) {
    && (from, spender) in t.allowances
    && t.allowances[(from, spender)].expiration >= cx.sequence && t.allowances[(from, spender)].amount >= amount
  }

  /** What an account may still take from another one, expired or not. */
  function Left(t: Token, from: Address, spender: Address): int {
    if (from, spender) in t.allowances then t.allowances[(from, spender)].amount else 0
  }

  /** The balance table after `amount` left one account for another. */
  ghost predicate Moved(t: Token, u: Token, from: Address, to: Address, amount: int) {
    forall a :: u.Balance(a) == t.Balance(a) + (if a == to then amount else 0) - if a == from then amount else 0
  }

  /** The balance table after `amount` was made or destroyed in one account. */
  ghost predicate Changed(t: Token, u: Token, who: Address, amount: int) {
    forall a :: u.Balance(a) == t.Balance(a) + if a == who then amount else 0
  }

  /** The allowance of one pair is `amount` lower and keeps its expiration; all others are as before. */
  ghost predicate Spent(t: Token, u: Token, from: Address, spender: Address, amount: int) {
    && u.allowances.Keys == t.allowances.Keys && (from, spender) in t.allowances
    && forall k :: k in t.allowances ==>
         && u.allowances[k].expiration == t.allowances[k].expiration
         && u.allowances[k].amount == t.allowances[k].amount - if k == (from, spender) then amount else 0
  }

  // ---- moving ----------------------------------------------------------------------------

  lemma MoveMoves(t: Token, from: Address, to: Address, amount: I128)
    requires t.Sound() && amount > 0 && from != to && t.Balance(from) >= amount
    ensures var r := t.Move(from, to, amount);
            r.Ok? && Moved(t, r.value, from, to, amount) && r.value == t.(balances := r.value.balances)
  {
    MoveConserves(t, from, to, amount);
  }

  lemma TransferDoes(t: Token, cx: Context, from: Address, to: Address, amount: I128)
    requires t.Sound()
    ensures var r := t.Transfer(cx, from, to, amount);
            && (r.Ok? <==> amount >= 0 && from in cx.auth && !t.paused && (amount == 0 || amount <= t.Balance(from)))
            && (r.Ok? ==> Moved(t, r.value, from, to, amount) && r.value == t.(balances := r.value.balances))
  {
    if amount > 0 && from != to && t.Balance(from) >= amount {
      MoveMoves(t, from, to, amount);
    }
  }

  // ---- allowances ------------------------------------------------------------------------

  lemma ApproveDoes(t: Token, cx: Context, from: Address, spender: Address, amount: I128, expiration: U32)
    ensures var r := t.Approve(cx, from, spender, amount, expiration);
            && (r.Ok? <==> && amount >= 0 && from in cx.auth && !t.paused && (amount > 0 ==> cx.sequence <= expiration)
                           && expiration <= Min(cx.sequence + MAX_ALLOWANCE_LEDGERS, U32_MAX))
            && (r.Ok? ==> && Left(r.value, from, spender) == amount
                          && (from, spender) in r.value.allowances
                          && r.value.allowances[(from, spender)].expiration == expiration
                          && r.value.allowances - {(from, spender)} == t.allowances - {(from, spender)}
                          && r.value == t.(allowances := r.value.allowances))
  {
  }

  lemma SpendDoes(t: Token, cx: Context, from: Address, spender: Address, amount: I128)
    requires amount > 0
    ensures var r := t.SpendAllowance(cx, from, spender, amount);
            && (r.Ok? <==> Approved(t, cx, from, spender, amount))
            && (r.Ok? ==> Spent(t, r.value, from, spender, amount) && r.value == t.(allowances := r.value.allowances))
  {
  }

  /** A transfer by allowance: signed by the spender, covered by an unexpired allowance and the balance; it
      lowers that one allowance by exactly what it moves. */
  lemma TransferFromDoes(t: Token, cx: Context, spender: Address, from: Address, to: Address, amount: I128)
    requires t.Sound()
    ensures var r := t.TransferFrom(cx, spender, from, to, amount);
            && (r.Ok? <==>
                  && amount >= 0 && spender in cx.auth && !t.paused
                  && (amount == 0 || (&& spender != from && Approved(t, cx, from, spender, amount)
                                      && amount <= t.Balance(from))))
            && (r.Ok? ==> && Moved(t, r.value, from, to, amount)
                          && r.value == t.(balances := r.value.balances, allowances := r.value.allowances)
                          && if amount == 0 then r.value == t else Spent(t, r.value, from, spender, amount))
  {
    if amount > 0 {
      SpendDoes(t, cx, from, spender, amount);
      var s := t.SpendAllowance(cx, from, spender, amount);
      if s.Ok? && from != to && t.Balance(from) >= amount {
        MoveMoves(t, from, to, amount);
        assert s.value.Move(from, to, amount)
            == Ok(t.Move(from, to, amount).value.(allowances := s.value.allowances));
      }
    }
  }

  lemma DestroyDoes(t: Token, from: Address, amount: I128)
    requires t.Sound() && 0 < amount <= t.Balance(from)
    ensures var r := t.Destroy(from, amount);
            && r.Ok? && Changed(t, r.value, from, -amount) && r.value.supply == t.supply - amount
            && r.value == t.(balances := r.value.balances, supply := r.value.supply)
  {
    DestroySound(t, from, amount);
  }

  lemma BurnDoes(t: Token, cx: Context, from: Address, amount: I128)
    requires t.Sound()
    ensures var r := t.Burn(cx, from, amount);
            && (r.Ok? <==> amount >= 0 && from in cx.auth && !t.paused && (amount == 0 || amount <= t.Balance(from)))
            && (r.Ok? ==> && Changed(t, r.value, from, -amount) && r.value.supply == t.supply - amount
                          && r.value == t.(balances := r.value.balances, supply := r.value.supply))
  {
    if 0 < amount <= t.Balance(from) {
      DestroyDoes(t, from, amount);
    }
  }

  /** A burn by allowance lowers that one allowance by exactly what it destroys. */
  lemma BurnFromDoes(t: Token, cx: Context, spender: Address, from: Address, amount: I128)
    requires t.Sound()
    ensures var r := t.BurnFrom(cx, spender, from, amount);
            && (r.Ok? <==>
                  && amount >= 0 && spender in cx.auth && !t.paused
                  && (amount == 0 || (Approved(t, cx, from, spender, amount) && amount <= t.Balance(from))))
            && (r.Ok? ==> && Changed(t, r.value, from, -amount) && r.value.supply == t.supply - amount
                          && r.value == t.(balances := r.value.balances, allowances := r.value.allowances,
                                           supply := r.value.supply)
                          && if amount == 0 then r.value == t else Spent(t, r.value, from, spender, amount))
  {
    if 0 < amount <= t.Balance(from) {
      SpendDoes(t, cx, from, spender, amount);
      var s := t.SpendAllowance(cx, from, spender, amount);
      if s.Ok? {
        DestroyDoes(t, from, amount);
        assert s.value.Destroy(from, amount) == Ok(t.Destroy(from, amount).value.(allowances := s.value.allowances));
      }
    }
  }

  // ---- minting ---------------------------------------------------------------------------

  /** What was minted in the window that is running at `sequence`, if one is. */
  function MintedNow(t: Token, sequence: U32): int
    requires t.limit.Some?
  {
    var ledgers := t.limit.value.windowLedgers;
    if t.window.Some? && ledgers > 0 && sequence < t.window.value.start + ledgers then t.window.value.minted else 0
  }

  /** A limit of zero is none. */
  predicate WithinLimit(t: Token, sequence: U32, amount: int) {
    t.limit.None? || t.limit.value.maxPerWindow == 0
    || MintedNow(t, sequence) + amount <= t.limit.value.maxPerWindow
  }

  lemma MintDoes(t: Token, cx: Context, to: Address, amount: I128)
    requires t.Sound()
    ensures var r := t.Mint(cx, to, amount);
            && (r.Ok? <==>
                  && amount >= 0 && t.admin in cx.auth && !t.paused
                  && (amount == 0 || (&& WithinLimit(t, cx.sequence, amount) && t.supply + amount <= I128_MAX
                                      && (t.cap.Some? ==> t.supply + amount <= t.cap.value))))
            && (r.Ok? ==> && Changed(t, r.value, to, amount) && r.value.supply == t.supply + amount
                          && r.value == t.(balances := r.value.balances, supply := r.value.supply,
                                           window := r.value.window))
            && (r.Ok? && amount > 0 && t.limit.Some? && t.limit.value.maxPerWindow != 0 ==>
                  MintedNow(r.value, cx.sequence) == (if t.limit.value.windowLedgers == 0 then 0
                                                      else MintedNow(t, cx.sequence) + amount))
  {
    TotalNonnegative(t.balances);
    if to in t.balances {
      TotalBounds(t.balances, to);
    }
  }

  /** A new limit takes effect at once, on a window that is already running. */
  lemma SetMintLimitDoes(t: Token, cx: Context, maxPerWindow: I128, windowLedgers: U32)
    ensures var r := t.SetMintLimit(cx, maxPerWindow, windowLedgers);
            && (r.Ok? <==> t.admin in cx.auth && maxPerWindow >= 0 && (maxPerWindow > 0 ==> windowLedgers > 0))
            && (r.Ok? ==> && r.value.limit == Some(MintLimit(maxPerWindow, windowLedgers))
                          && (t.window.Some? ==> r.value.window == t.window)
                          && r.value == t.(limit := r.value.limit, window := r.value.window))
  {
  }

  lemma RulesDo(t: Token, cx: Context, cap: Option<I128>, paused: bool)
    ensures var r := t.SetMaxSupply(cx, cap);
            && (r.Ok? <==> t.admin in cx.auth && (cap.Some? ==> 0 <= cap.value && t.supply <= cap.value))
            && (r.Ok? ==> r.value == t.(cap := cap))
    ensures var r := t.SetPaused(cx, paused);
            && (r.Ok? <==> t.admin in cx.auth)
            && (r.Ok? ==> r.value == t.(paused := paused))
  {
  }

  // ---- runs ------------------------------------------------------------------------------

  /** What a call takes from `from` by the allowance of `spender`. */
  function TakenBy(t: Token, cx: Context, call: Call, from: Address, spender: Address): int {
    if Apply(t, cx, call).Err? then 0
    else match call
         case TransferFrom(s, f, _, amount) => if s == spender && f == from then amount else 0
         case BurnFrom(s, f, amount) => if s == spender && f == from then amount else 0
         case _ => 0
  }

  function Taken(t: Token, calls: seq<(Context, Call)>, from: Address, spender: Address): int
    decreases |calls|
  {
    if calls == [] then 0
    else TakenBy(t, calls[0].0, calls[0].1, from, spender)
         + Taken(Step(t, calls[0].0, calls[0].1), calls[1..], from, spender)
  }

  /** No call of the run approves the pair anew. */
  predicate NoApproval(calls: seq<(Context, Call)>, from: Address, spender: Address) {
    forall i :: 0 <= i < |calls| ==>
      !(calls[i].1.Approve? && calls[i].1.from == from && calls[i].1.spender == spender)
  }

  lemma {:induction false} SinglesKeepAllowances(t: Token, cx: Context, from: Address, recipients: seq<Address>,
                                                 amounts: seq<I128>)
    requires |recipients| == |amounts|
    ensures var s := t.Singles(cx, from, recipients, amounts);
            s.Ok? ==> s.value.allowances == t.allowances
    decreases |recipients|
  {
    var n := |recipients|;
    if n > 0 {
      SinglesKeepAllowances(t, cx, from, recipients[..n - 1], amounts[..n - 1]);
    }
  }

  /** An allowance only goes down by what is taken by it. */
  lemma StepSpends(t: Token, cx: Context, call: Call, from: Address, spender: Address)
    requires t.Sound() && !(call.Approve? && call.from == from && call.spender == spender)
    ensures var u := Step(t, cx, call);
            && Left(u, from, spender) == Left(t, from, spender) - TakenBy(t, cx, call, from, spender)
            && TakenBy(t, cx, call, from, spender) >= 0
            && ((from, spender) in u.allowances <==> (from, spender) in t.allowances)
            && ((from, spender) in t.allowances ==>
                  u.allowances[(from, spender)].expiration == t.allowances[(from, spender)].expiration)
            && (TakenBy(t, cx, call, from, spender) > 0 ==> Approved(t, cx, from, spender, 1))
  {
    match call
    case TransferFrom(s, f, to, amount) => TransferFromDoes(t, cx, s, f, to, amount);
    case BurnFrom(s, f, amount) => BurnFromDoes(t, cx, s, f, amount);
    case TransferBatch(f, recipients, amounts) =>
      if |recipients| == |amounts| {
        SinglesKeepAllowances(t, cx, f, recipients, amounts);
      }
    case Approve(f, s, amount, expiration) => ApproveDoes(t, cx, f, s, amount, expiration);
    case _ =>
  }

  /** Over any run that does not approve the pair anew, what the spender takes and what is left add up to
      what was approved; so nobody takes more than was approved. */
  lemma {:induction false} TakenWithinApproval(t: Token, calls: seq<(Context, Call)>, from: Address, spender: Address)
    requires t.Sound() && NoApproval(calls, from, spender)
    ensures Taken(t, calls, from, spender) + Left(Run(t, calls), from, spender) == Left(t, from, spender)
    ensures 0 <= Taken(t, calls, from, spender) <= Left(t, from, spender)
    decreases |calls|
  {
    if calls == [] {
      assert Left(t, from, spender) >= 0;
    } else {
      StepSpends(t, calls[0].0, calls[0].1, from, spender);
      ApplySound(t, calls[0].0, calls[0].1);
      assert forall i :: 0 <= i < |calls[1..]| ==> calls[1..][i] == calls[i + 1];
      TakenWithinApproval(Step(t, calls[0].0, calls[0].1), calls[1..], from, spender);
    }
  }

  /** Nothing is taken once the allowance has expired. */
  lemma {:induction false} NothingAfterExpiry(t: Token, calls: seq<(Context, Call)>, from: Address, spender: Address)
    requires t.Sound() && NoApproval(calls, from, spender)
    requires forall i :: 0 <= i < |calls| ==> !Approved(t, calls[i].0, from, spender, 0)
    ensures Taken(t, calls, from, spender) == 0
    decreases |calls|
  {
    if calls != [] {
      var u := Step(t, calls[0].0, calls[0].1);
      StepSpends(t, calls[0].0, calls[0].1, from, spender);
      ApplySound(t, calls[0].0, calls[0].1);
      assert forall i :: 0 <= i < |calls[1..]| ==> calls[1..][i] == calls[i + 1];
      forall i | 0 <= i < |calls[1..]|
        ensures !Approved(u, calls[1..][i].0, from, spender, 0)
      {
        assert !Approved(t, calls[i + 1].0, from, spender, 0);
      }
      NothingAfterExpiry(u, calls[1..], from, spender);
    }
  }

  /** Nobody may take anything from `who`. */
  predicate NoneApproved(t: Token, who: Address) {
    forall k :: k in t.allowances && k.0 == who ==> t.allowances[k].amount <= 0
  }

  lemma {:induction false} SinglesUnsigned(t: Token, cx: Context, from: Address, recipients: seq<Address>,
                                           amounts: seq<I128>, who: Address)
    requires |recipients| == |amounts| && who !in cx.auth && t.Sound()
    ensures var s := t.Singles(cx, from, recipients, amounts);
            s.Ok? ==> s.value.Sound() && s.value.Balance(who) >= t.Balance(who)
    decreases |recipients|
  {
    var n := |recipients|;
    if n > 0 {
      SinglesUnsigned(t, cx, from, recipients[..n - 1], amounts[..n - 1], who);
      var mid := t.Singles(cx, from, recipients[..n - 1], amounts[..n - 1]);
      if mid.Ok? {
        TransferDoes(mid.value, cx, from, recipients[n - 1], amounts[n - 1]);
        if mid.value.Transfer(cx, from, recipients[n - 1], amounts[n - 1]).Ok? {
          ApplySound(mid.value, cx, Transfer(from, recipients[n - 1], amounts[n - 1]));
        }
      }
    }
  }

  lemma AllowanceCallSpares(t: Token, cx: Context, call: Call, who: Address)
    requires t.Sound() && who !in cx.auth && NoneApproved(t, who) && (call.TransferFrom? || call.BurnFrom?)
    ensures Step(t, cx, call).Balance(who) >= t.Balance(who) && NoneApproved(Step(t, cx, call), who)
  {
    if call.TransferFrom? {
      TransferFromDoes(t, cx, call.spender, call.from, call.to, call.amount);
    } else {
      BurnFromDoes(t, cx, call.spender, call.from, call.amount);
    }
  }

  lemma OtherCallSpares(t: Token, cx: Context, call: Call, who: Address)
    requires t.Sound() && who !in cx.auth && NoneApproved(t, who) && !call.TransferFrom? && !call.BurnFrom?
    ensures Step(t, cx, call).Balance(who) >= t.Balance(who) && NoneApproved(Step(t, cx, call), who)
  {
    match call
    case Transfer(from, to, amount) => TransferDoes(t, cx, from, to, amount);
    case TransferBatch(from, recipients, amounts) =>
      if |recipients| == |amounts| {
        SinglesUnsigned(t, cx, from, recipients, amounts, who);
        SinglesKeepAllowances(t, cx, from, recipients, amounts);
      }
    case Burn(from, amount) => BurnDoes(t, cx, from, amount);
    case Mint(to, amount) => MintDoes(t, cx, to, amount);
    case Approve(from, spender, amount, expiration) => ApproveDoes(t, cx, from, spender, amount, expiration);
    case _ =>
  }

  /** Over any run in which `who` signs nothing and had approved nobody, `who` loses nothing. */
  lemma {:induction false} UnsignedLosesNothing(t: Token, calls: seq<(Context, Call)>, who: Address)
    requires t.Sound() && NoneApproved(t, who)
    requires forall i :: 0 <= i < |calls| ==> who !in calls[i].0.auth
    ensures Run(t, calls).Balance(who) >= t.Balance(who)
    decreases |calls|
  {
    if calls != [] {
      var cx, call := calls[0].0, calls[0].1;
      if call.TransferFrom? || call.BurnFrom? {
        AllowanceCallSpares(t, cx, call, who);
      } else {
        OtherCallSpares(t, cx, call, who);
      }
      ApplySound(t, cx, call);
      assert forall i :: 0 <= i < |calls[1..]| ==> calls[1..][i] == calls[i + 1];
      UnsignedLosesNothing(Step(t, cx, call), calls[1..], who);
    }
  }

  /** The same rules, and no more tokens. */
  predicate NoMore(t: Token, u: Token) {
    && u.admin == t.admin && u.paused == t.paused && u.cap == t.cap && u.limit == t.limit && u.window == t.window
    && u.supply <= t.supply
  }

  lemma MovesMakeNothing(t: Token, cx: Context, call: Call)
    requires t.Sound() && (call.Transfer? || call.TransferBatch? || call.TransferFrom? || call.Approve?)
    ensures NoMore(t, Step(t, cx, call))
  {
    match call
    case TransferBatch(from, recipients, amounts) =>
      if |recipients| == |amounts| {
        SinglesMakeNothing(t, cx, from, recipients, amounts);
      }
    case TransferFrom(spender, from, to, amount) => TransferFromDoes(t, cx, spender, from, to, amount);
    case _ =>
  }

  lemma {:induction false} SinglesMakeNothing(t: Token, cx: Context, from: Address, recipients: seq<Address>,
                                              amounts: seq<I128>)
    requires |recipients| == |amounts|
    ensures t.Singles(cx, from, recipients, amounts).Ok? ==> NoMore(t, t.Singles(cx, from, recipients, amounts).value)
    decreases |recipients|
  {
    var n := |recipients|;
    if n > 0 {
      SinglesMakeNothing(t, cx, from, recipients[..n - 1], amounts[..n - 1]);
    }
  }

  lemma UnsignedMakesNothing(t: Token, cx: Context, call: Call)
    requires t.Sound() && t.admin !in cx.auth
    requires !call.Transfer? && !call.TransferBatch? && !call.TransferFrom? && !call.Approve?
    ensures NoMore(t, Step(t, cx, call))
  {
    match call
    case Burn(from, amount) => BurnDoes(t, cx, from, amount);
    case BurnFrom(spender, from, amount) => BurnFromDoes(t, cx, spender, from, amount);
    case _ =>
  }

  /** Over any run that the admin signs nothing of, the supply never grows and no rule changes. */
  lemma {:induction false} NothingWithoutAdmin(t: Token, calls: seq<(Context, Call)>)
    requires t.Sound()
    requires forall i :: 0 <= i < |calls| ==> t.admin !in calls[i].0.auth
    ensures NoMore(t, Run(t, calls))
    decreases |calls|
  {
    if calls != [] {
      var cx, call := calls[0].0, calls[0].1;
      if call.Transfer? || call.TransferBatch? || call.TransferFrom? || call.Approve? {
        MovesMakeNothing(t, cx, call);
      } else {
        UnsignedMakesNothing(t, cx, call);
      }
      ApplySound(t, cx, call);
      assert forall i :: 0 <= i < |calls[1..]| ==> calls[1..][i] == calls[i + 1];
      NothingWithoutAdmin(Step(t, cx, call), calls[1..]);
    }
  }
}
