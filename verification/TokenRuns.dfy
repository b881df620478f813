/** Arbitrary runs of the token: supply conservation, and what it rules out. */
module TokenRuns {
  import opened Common
  import opened TokenSpec

  datatype Call =
    | Transfer(from: Address, to: Address, amount: I128)
    | TransferBatch(from: Address, recipients: seq<Address>, amounts: seq<I128>)
    | TransferFrom(spender: Address, from: Address, to: Address, amount: I128)
    | Approve(from: Address, spender: Address, amount: I128, expiration: U32)
    | Burn(from: Address, amount: I128)
    | BurnFrom(spender: Address, from: Address, amount: I128)
    | Mint(to: Address, amount: I128)
    | SetMaxSupply(cap: Option<I128>)
    | SetMintLimit(maxPerWindow: I128, windowLedgers: U32)
    | SetPaused(paused: bool)

  function Apply(t: Token, cx: Context, call: Call): Result<Token, TokenError> {
    match call
    case Transfer(from, to, amount) => t.Transfer(cx, from, to, amount)
    case TransferBatch(from, recipients, amounts) => t.TransferBatch(cx, from, recipients, amounts)
    case TransferFrom(spender, from, to, amount) => t.TransferFrom(cx, spender, from, to, amount)
    case Approve(from, spender, amount, expiration) => t.Approve(cx, from, spender, amount, expiration)
    case Burn(from, amount) => t.Burn(cx, from, amount)
    case BurnFrom(spender, from, amount) => t.BurnFrom(cx, spender, from, amount)
    case Mint(to, amount) => t.Mint(cx, to, amount)
    case SetMaxSupply(cap) => t.SetMaxSupply(cx, cap)
    case SetMintLimit(m, w) => t.SetMintLimit(cx, m, w)
    case SetPaused(p) => t.SetPaused(cx, p)
  }

  /** A failing call is rolled back by the host. */
  function Step(t: Token, cx: Context, call: Call): Token {
    var r := Apply(t, cx, call);
    if r.Ok? then r.value else t
  }

  function Run(t: Token, calls: seq<(Context, Call)>): Token
    decreases |calls|
  {
    if calls == [] then t
    else Run(Step(t, calls[0].0, calls[0].1), calls[1..])
  }

  /** The amount a call really created (positive) or destroyed (negative). */
  function Created(t: Token, cx: Context, call: Call): int {
    if Apply(t, cx, call).Err? then 0
    else match call
         case Mint(_, amount) => amount
         case Burn(_, amount) => -amount
         case BurnFrom(_, _, amount) => -amount
         case _ => 0
  }

  function CreatedBy(t: Token, calls: seq<(Context, Call)>): int
    decreases |calls|
  {
    if calls == [] then 0
    else Created(t, calls[0].0, calls[0].1) + CreatedBy(Step(t, calls[0].0, calls[0].1), calls[1..])
  }

  /** Moving tokens keeps the sum of balances, and a sound table can always take the credit. */
  lemma MoveConserves(t: Token, from: Address, to: Address, amount: I128)
    requires t.Sound() && amount > 0 && from != to
    ensures t.Move(from, to, amount).Ok? <==> t.Balance(from) >= amount
    ensures t.Move(from, to, amount).Ok? ==> t.Move(from, to, amount).value.Sound()
  {
    if t.Balance(from) >= amount {
      TotalBounds(t.balances, from);
      TotalUpdate(t.balances, from, t.Balance(from) - amount);
      TotalUpdate(t.balances[from := t.Balance(from) - amount], to, t.Balance(to) + amount);
    }
  }

  lemma {:induction false} SinglesConserve(t: Token, cx: Context, from: Address,
                                           recipients: seq<Address>, amounts: seq<I128>)
    requires t.Sound() && |recipients| == |amounts|
    ensures var s := t.Singles(cx, from, recipients, amounts);
            s.Ok? ==> s.value.Sound() && s.value == t.(balances := s.value.balances)
    ensures t.Singles(cx, from, recipients, amounts) != Err(Overflow)
    decreases |recipients|
  {
    var n := |recipients|;
    if n > 0 {
      SinglesConserve(t, cx, from, recipients[..n - 1], amounts[..n - 1]);
      var mid := t.Singles(cx, from, recipients[..n - 1], amounts[..n - 1]);
      if mid.Ok? && amounts[n - 1] > 0 && from != recipients[n - 1] {
        MoveConserves(mid.value, from, recipients[n - 1], amounts[n - 1]);
      }
    }
  }

  lemma DestroySound(t: Token, from: Address, amount: I128)
    requires t.Sound() && 0 < amount <= t.Balance(from)
    ensures t.Destroy(from, amount).Ok?
    ensures t.Destroy(from, amount).value.Sound()
  {
    TotalBounds(t.balances, from);
    TotalNonnegative(t.balances);
    TotalUpdate(t.balances, from, t.Balance(from) - amount);
  }

  lemma MintSound(t: Token, cx: Context, to: Address, amount: I128)
    requires t.Sound()
    ensures t.Mint(cx, to, amount).Ok? ==>
              t.Mint(cx, to, amount).value.Sound() && t.Mint(cx, to, amount).value.supply == t.supply + amount
  {
    TotalUpdate(t.balances, to, t.Balance(to) + amount);
  }

  lemma MovesSound(t: Token, cx: Context, call: Call)
    requires t.Sound() && (call.Transfer? || call.TransferBatch? || call.TransferFrom?)
    ensures Step(t, cx, call).Sound() && Step(t, cx, call).supply == t.supply
  {
    match call
    case Transfer(from, to, amount) =>
      if amount > 0 && from != to {
        MoveConserves(t, from, to, amount);
      }
    case TransferBatch(from, recipients, amounts) =>
      if |recipients| == |amounts| {
        SinglesConserve(t, cx, from, recipients, amounts);
      }
    case TransferFrom(spender, from, to, amount) =>
      if amount > 0 && from != to && t.SpendAllowance(cx, from, spender, amount).Ok? {
        MoveConserves(t.SpendAllowance(cx, from, spender, amount).value, from, to, amount);
      }
  }

  lemma BurnsSound(t: Token, cx: Context, call: Call)
    requires t.Sound() && (call.Burn? || call.BurnFrom?)
    ensures Step(t, cx, call).Sound()
    ensures Step(t, cx, call).supply == t.supply + Created(t, cx, call)
  {
    match call
    case Burn(from, amount) =>
      if 0 < amount <= t.Balance(from) {
        DestroySound(t, from, amount);
      }
    case BurnFrom(spender, from, amount) =>
      if 0 < amount <= t.Balance(from) && t.SpendAllowance(cx, from, spender, amount).Ok? {
        DestroySound(t.SpendAllowance(cx, from, spender, amount).value, from, amount);
      }
  }

  lemma OthersSound(t: Token, cx: Context, call: Call)
    requires t.Sound() && (call.Approve? || call.SetMaxSupply? || call.SetMintLimit? || call.SetPaused?)
    ensures Step(t, cx, call).Sound() && Step(t, cx, call).supply == t.supply
  {
  }

  /** Every entry point keeps the token sound and changes supply by exactly what it creates. */
  lemma ApplySound(t: Token, cx: Context, call: Call)
    requires t.Sound()
    ensures Step(t, cx, call).Sound()
    ensures Step(t, cx, call).supply == t.supply + Created(t, cx, call)
  {
    if call.Transfer? || call.TransferBatch? || call.TransferFrom? {
      MovesSound(t, cx, call);
    } else if call.Burn? || call.BurnFrom? {
      BurnsSound(t, cx, call);
    } else if call.Mint? {
      MintSound(t, cx, call.to, call.amount);
    } else {
      OthersSound(t, cx, call);
    }
  }

  /** Over any run on any number of addresses, balances sum to the supply, none is negative, a set
      cap is respected, and the supply moved by exactly what was minted less what was burned. */
  lemma {:induction false} RunSound(t: Token, calls: seq<(Context, Call)>)
    requires t.Sound()
    ensures Run(t, calls).Sound()
    ensures Run(t, calls).supply == t.supply + CreatedBy(t, calls)
    decreases |calls|
  {
    if calls != [] {
      ApplySound(t, calls[0].0, calls[0].1);
      RunSound(Step(t, calls[0].0, calls[0].1), calls[1..]);
    }
  }

  /** In every reachable state the recipient overflow of `do_transfer` and the supply underflow of
      `burn` are dead branches: those calls fail for other reasons or not at all. */
  lemma OverflowUnreachable(t: Token, calls: seq<(Context, Call)>, cx: Context, call: Call)
    requires t.Sound()
    requires call.Transfer? || call.TransferFrom? || call.Burn? || call.BurnFrom?
    ensures Apply(Run(t, calls), cx, call) != Err(Overflow)
  {
    RunSound(t, calls);
    var u := Run(t, calls);
    match call
    case Transfer(from, to, amount) =>
      if amount > 0 && from != to {
        MoveConserves(u, from, to, amount);
      }
    case TransferFrom(spender, from, to, amount) =>
      if amount > 0 && from != to && u.SpendAllowance(cx, from, spender, amount).Ok? {
        MoveConserves(u.SpendAllowance(cx, from, spender, amount).value, from, to, amount);
      }
    case Burn(from, amount) =>
      if 0 < amount <= u.Balance(from) {
        DestroySound(u, from, amount);
      }
    case BurnFrom(spender, from, amount) =>
      if 0 < amount <= u.Balance(from) && u.SpendAllowance(cx, from, spender, amount).Ok? {
        DestroySound(u.SpendAllowance(cx, from, spender, amount).value, from, amount);
      }
  }

  /** A batch is accepted in a sound state exactly when its entries are well formed, the sender
      signed, the token runs, and the sender holds the whole total at once. */
  lemma BatchAccepted(t: Token, cx: Context, from: Address, recipients: seq<Address>, amounts: seq<I128>)
    requires t.Sound()
    ensures t.TransferBatch(cx, from, recipients, amounts).Ok? <==>
            && |recipients| == |amounts| <= MAX_BATCH_SIZE
            && CheckedTotal(amounts).Ok?
            && from in cx.auth && !t.paused
            && CheckedTotal(amounts).value <= t.Balance(from)
  {
    if |recipients| == |amounts| {
      SinglesConserve(t, cx, from, recipients, amounts);
      if from in cx.auth && !t.paused && CheckedTotal(amounts).Ok?
         && CheckedTotal(amounts).value <= t.Balance(from) {
        SinglesSettle(t, cx, from, recipients, amounts);
      }
    }
  }

  /** What the entries pay to anybody but the sender. */
  function PaidToOthers(from: Address, recipients: seq<Address>, amounts: seq<I128>): int
    requires |recipients| == |amounts|
    decreases |recipients|
  {
    var n := |recipients|;
    if n == 0 then 0
    else PaidToOthers(from, recipients[..n - 1], amounts[..n - 1])
         + if recipients[n - 1] == from then 0 else amounts[n - 1]
  }

  /** No amount is negative, and each positive one is covered by what earlier entries leave: payments
      to oneself leave everything. */
  predicate Affordable(balance: int, from: Address, recipients: seq<Address>, amounts: seq<I128>)
    requires |recipients| == |amounts|
  {
    forall i :: 0 <= i < |amounts| ==>
      && amounts[i] >= 0
      && (amounts[i] > 0 ==> amounts[i] <= balance - PaidToOthers(from, recipients[..i], amounts[..i]))
  }

  lemma {:induction false} AffordableFront(balance: int, from: Address, recipients: seq<Address>, amounts: seq<I128>)
    requires |recipients| == |amounts| > 0
    ensures var n := |recipients| - 1;
            Affordable(balance, from, recipients, amounts) <==>
              && Affordable(balance, from, recipients[..n], amounts[..n])
              && amounts[n] >= 0
              && (amounts[n] > 0 ==> amounts[n] <= balance - PaidToOthers(from, recipients[..n], amounts[..n]))
  {
    var n := |recipients| - 1;
    var rs, xs := recipients[..n], amounts[..n];
    assert forall i :: 0 <= i < n ==> rs[..i] == recipients[..i] && xs[..i] == amounts[..i] && xs[i] == amounts[i];
  }

  /** The exact condition for the single transfers, in a sound state. */
  lemma {:induction false} SinglesSucceedIff(t: Token, cx: Context, from: Address, recipients: seq<Address>,
                                             amounts: seq<I128>)
    requires t.Sound() && |recipients| == |amounts| && from in cx.auth && !t.paused
    ensures var s := t.Singles(cx, from, recipients, amounts);
            && (s.Ok? <==> Affordable(t.Balance(from), from, recipients, amounts))
            && (s.Ok? ==> && s.value.Sound() && s.value.paused == t.paused
                          && s.value.Balance(from) == t.Balance(from) - PaidToOthers(from, recipients, amounts))
    decreases |recipients|
  {
    var n := |recipients|;
    if n > 0 {
      SinglesSucceedIff(t, cx, from, recipients[..n - 1], amounts[..n - 1]);
      AffordableFront(t.Balance(from), from, recipients, amounts);
      var mid := t.Singles(cx, from, recipients[..n - 1], amounts[..n - 1]);
      if mid.Ok? && amounts[n - 1] > 0 && recipients[n - 1] != from {
        MoveConserves(mid.value, from, recipients[n - 1], amounts[n - 1]);
      }
    }
  }

  /** The exact sum of a batch. */
  function Sum(amounts: seq<I128>): int
    decreases |amounts|
  {
    if amounts == [] then 0 else Sum(amounts[..|amounts| - 1]) + amounts[|amounts| - 1]
  }

  lemma {:induction false} CheckedTotalIsSum(amounts: seq<I128>)
    requires forall i :: 0 <= i < |amounts| ==> amounts[i] >= 0
    ensures Sum(amounts) >= 0
    ensures CheckedTotal(amounts).Ok? <==> Sum(amounts) <= I128_MAX
    ensures CheckedTotal(amounts).Ok? ==> CheckedTotal(amounts).value == Sum(amounts)
    decreases |amounts|
  {
    if amounts != [] {
      var front := amounts[..|amounts| - 1];
      assert forall i :: 0 <= i < |front| ==> front[i] == amounts[i];
      CheckedTotalIsSum(front);
    }
  }

  /** When the single transfers succeed and the batch is refused: exactly when each entry is affordable in
      its turn, but there are too many of them or the sender does not hold the whole sum at once. */
  lemma {:induction false} BatchStricterIff(t: Token, cx: Context, from: Address, recipients: seq<Address>,
                                            amounts: seq<I128>)
    requires t.Sound() && |recipients| == |amounts| && from in cx.auth && !t.paused
    ensures t.Singles(cx, from, recipients, amounts).Ok? && t.TransferBatch(cx, from, recipients, amounts).Err?
            <==> && Affordable(t.Balance(from), from, recipients, amounts)
                 && (|recipients| > MAX_BATCH_SIZE || Sum(amounts) > t.Balance(from))
  {
    SinglesSucceedIff(t, cx, from, recipients, amounts);
    BatchAccepted(t, cx, from, recipients, amounts);
    if Affordable(t.Balance(from), from, recipients, amounts) {
      CheckedTotalIsSum(amounts);
    }
  }

  /** It can happen, with a payment to oneself between two to somebody else. */
  lemma {:induction false} SinglesCanSucceedAlone(t: Token, cx: Context, from: Address, to: Address)
    requires t.Sound() && from in cx.auth && !t.paused && from != to && t.Balance(from) == 10
    ensures t.Singles(cx, from, [to, from, to], [2, 5, 5]).Ok?
    ensures t.TransferBatch(cx, from, [to, from, to], [2, 5, 5]).Err?
  {
    var rs, xs := [to, from, to], [2, 5, 5];
    assert rs[..2] == [to, from] && rs[..2][..1] == rs[..1] == [to];
    assert xs[..2] == [2, 5] && xs[..2][..1] == xs[..1] == [2];
    assert rs[..1][..0] == rs[..0] == [] && xs[..1][..0] == xs[..0] == [];
    var r2, x2 := rs[..2], xs[..2];
    assert PaidToOthers(from, r2[..1], x2[..1]) == PaidToOthers(from, [], []) + 2 == 2;
    assert r2[1] == from && PaidToOthers(from, r2, x2) == 2;
    assert Sum(x2[..1]) == 2 && Sum(x2) == 7 && Sum(xs) == 12;
    BatchStricterIff(t, cx, from, rs, xs);
  }

  // ---- the tumbling mint window ------------------------------------------

  /** Ledger numbers never decrease along a run. */
  ghost predicate Chronological(calls: seq<(Context, Call)>, first: int) {
    && (forall i :: 0 <= i < |calls| ==> first <= calls[i].0.sequence)
    && (forall i, j :: 0 <= i < j < |calls| ==> calls[i].0.sequence <= calls[j].0.sequence)
  }

  ghost predicate LimitFixed(calls: seq<(Context, Call)>) {
    forall i :: 0 <= i < |calls| ==> !calls[i].1.SetMintLimit?
  }

  /** Total minted at ledgers in `[a, b)` along a run. */
  function MintedIn(t: Token, calls: seq<(Context, Call)>, a: int, b: int): int
    decreases |calls|
  {
    if calls == [] then 0
    else (if calls[0].1.Mint? && a <= calls[0].0.sequence < b
          then Created(t, calls[0].0, calls[0].1) else 0)
         + MintedIn(Step(t, calls[0].0, calls[0].1), calls[1..], a, b)
  }

  lemma {:induction false} MintedOutside(t: Token, calls: seq<(Context, Call)>, a: int, b: int)
    requires Chronological(calls, b)
    ensures MintedIn(t, calls, a, b) == 0
    decreases |calls|
  {
    if calls != [] {
      MintedOutside(Step(t, calls[0].0, calls[0].1), calls[1..], a, b);
    }
  }

  /** What may still be minted before the next window opens. */
  function Room(t: Token): int
    requires t.limit.Some?
  {
    if t.window.None? then t.limit.value.maxPerWindow
    else if t.window.value.minted > t.limit.value.maxPerWindow then 0
    else t.limit.value.maxPerWindow - t.window.value.minted
  }

  /** No new window can open before this ledger, for calls made from `a` on. */
  function NextOpening(t: Token, a: int): int
    requires t.limit.Some?
  {
    var w := t.limit.value.windowLedgers;
    if t.window.None? then a + w
    else if a < t.window.value.start + w then t.window.value.start + w else a
  }

  lemma StepKeepsLimit(t: Token, cx: Context, call: Call)
    requires !call.SetMintLimit?
    ensures Step(t, cx, call).limit == t.limit
    ensures !call.Mint? ==> Step(t, cx, call).window == t.window
  {
    match call
    case TransferBatch(from, recipients, amounts) =>
      if |recipients| == |amounts| {
        SinglesKeepWindow(t, cx, from, recipients, amounts);
      }
    case _ =>
  }

  lemma {:induction false} SinglesKeepWindow(t: Token, cx: Context, from: Address,
                                             recipients: seq<Address>, amounts: seq<I128>)
    requires |recipients| == |amounts|
    ensures var s := t.Singles(cx, from, recipients, amounts);
            s.Ok? ==> s.value.limit == t.limit && s.value.window == t.window
    decreases |recipients|
  {
    var n := |recipients|;
    if n > 0 {
      SinglesKeepWindow(t, cx, from, recipients[..n - 1], amounts[..n - 1]);
    }
  }

  /** A successful mint uses up room in the running window, or opens a new one when that is due. */
  lemma MintUsesRoom(t: Token, cx: Context, to: Address, amount: I128, lo: int)
    requires t.limit.Some? && t.limit.value.maxPerWindow > 0 && t.limit.value.windowLedgers > 0
    requires t.window.Some? ==> t.window.value.minted >= 0
    requires lo <= cx.sequence && amount > 0 && t.Mint(cx, to, amount).Ok?
    ensures var next := t.Mint(cx, to, amount).value;
            && next.limit == t.limit && next.window.Some? && next.window.value.minted >= 0
            && (|| (Room(next) + amount <= Room(t) && NextOpening(next, cx.sequence) >= NextOpening(t, lo))
                || (&& cx.sequence >= NextOpening(t, lo)
                    && Room(next) + amount <= t.limit.value.maxPerWindow
                    && NextOpening(next, cx.sequence) >= cx.sequence + t.limit.value.windowLedgers))
  {
  }

  /** `k * x`, by addition. */
  function Times(k: nat, x: int): int {
    if k == 0 then 0 else x + Times(k - 1, x)
  }

  lemma {:induction false} TimesIsProduct(k: nat, x: int)
    ensures Times(k, x) == k * x
  {
    if k > 0 {
      TimesIsProduct(k - 1, x);
    }
  }

  /** One step of the bound: a call uses room of the running window, opens one of the `k` further ones,
      or mints nothing. */
  lemma CallUsesRoom(t: Token, cx: Context, call: Call, b: int, k: nat, lo: int) returns (rest: nat)
    requires t.limit.Some? && t.limit.value.maxPerWindow > 0 && t.limit.value.windowLedgers > 0
    requires t.window.Some? ==> t.window.value.minted >= 0
    requires lo <= cx.sequence < b && !call.SetMintLimit?
    requires b <= NextOpening(t, lo) + Times(k, t.limit.value.windowLedgers)
    ensures var next, minted := Step(t, cx, call), if call.Mint? then Created(t, cx, call) else 0;
            && next.limit == t.limit && (next.window.Some? ==> next.window.value.minted >= 0)
            && b <= NextOpening(next, cx.sequence) + Times(rest, t.limit.value.windowLedgers)
            && minted + Room(next) + Times(rest, t.limit.value.maxPerWindow)
               <= Room(t) + Times(k, t.limit.value.maxPerWindow)
  {
    StepKeepsLimit(t, cx, call);
    rest := k;
    if call.Mint? && call.amount > 0 && Apply(t, cx, call).Ok? {
      MintUsesRoom(t, cx, call.to, call.amount, lo);
      var next := Step(t, cx, call);
      if !(Room(next) + call.amount <= Room(t) && NextOpening(next, cx.sequence) >= NextOpening(t, lo)) {
        rest := k - 1;
      }
    }
  }

  /** With `k` further windows possible before ledger `b`, at most `Room + k * M` is minted. */
  lemma {:induction false} MintedWithin(t: Token, calls: seq<(Context, Call)>, a: int, b: int, k: nat, lo: int)
    requires t.limit.Some? && t.limit.value.maxPerWindow > 0 && t.limit.value.windowLedgers > 0
    requires t.window.Some? ==> t.window.value.minted >= 0
    requires Chronological(calls, lo) && LimitFixed(calls) && a <= lo
    requires b <= NextOpening(t, lo) + Times(k, t.limit.value.windowLedgers)
    ensures MintedIn(t, calls, a, b) <= Room(t) + Times(k, t.limit.value.maxPerWindow)
    decreases |calls|
  {
    TimesIsProduct(k, t.limit.value.maxPerWindow);
    if calls != [] && calls[0].0.sequence >= b {
      MintedOutside(t, calls, a, b);
    } else if calls != [] {
      var cx, call := calls[0].0, calls[0].1;
      var rest := CallUsesRoom(t, cx, call, b, k, lo);
      MintedWithin(Step(t, cx, call), calls[1..], a, b, rest, cx.sequence);
    }
  }

  /** With a fixed enabled limit of `M` per `W` ledgers, any `k * W` consecutive ledgers of any run
      mint at most `(k + 1) * M`, from whatever state the run starts in. */
  lemma {:induction false} MintRateBound(t: Token, calls: seq<(Context, Call)>, a: int, k: nat, first: int)
    requires t.limit.Some? && t.limit.value.maxPerWindow > 0 && t.limit.value.windowLedgers > 0
    requires t.window.Some? ==> t.window.value.minted >= 0
    requires Chronological(calls, first) && LimitFixed(calls)
    ensures MintedIn(t, calls, a, a + k * t.limit.value.windowLedgers)
         <= (k + 1) * t.limit.value.maxPerWindow
    decreases |calls|
  {
    var M, W := t.limit.value.maxPerWindow, t.limit.value.windowLedgers;
    TimesIsProduct(k + 1, M);
    if calls == [] {
      TimesIsProduct(k + 1, M);
    } else if calls[0].0.sequence < a {
      StepKeepsLimit(t, calls[0].0, calls[0].1);
      MintRateBound(Step(t, calls[0].0, calls[0].1), calls[1..], a, k, first);
    } else {
      TimesIsProduct(k, W);
      MintedWithin(t, calls, a, a + k * W, k, calls[0].0.sequence);
    }
  }

  /** The bound is reached: with `W >= 2`, two full windows fit into `W` consecutive ledgers. */
  lemma MintRateReached(t: Token, to: Address, m: I128, w: U32)
    requires m > 0 && 2 <= w && 2 * w <= U32_MAX
    requires t.limit == Some(MintLimit(m, w)) && t.window == Some(MintWindow(0, 0))
    requires t.Sound() && !t.paused && t.cap.None? && t.supply + 2 * m <= I128_MAX
    ensures var calls := [(Context({t.admin}, w - 1, 0), Mint(to, m)), (Context({t.admin}, w, 0), Mint(to, m))];
            Chronological(calls, 0) && LimitFixed(calls)
            && MintedIn(t, calls, w - 1, (w - 1) + w) == 2 * m
  {
    var c1, c2 := Context({t.admin}, w - 1, 0), Context({t.admin}, w, 0);
    var calls := [(c1, Mint(to, m)), (c2, Mint(to, m))];
    TotalNonnegative(t.balances);
    if to in t.balances { TotalBounds(t.balances, to); }
    var t1 := Step(t, c1, Mint(to, m));
    assert t.CheckMintLimit(w - 1, m) == Ok(Some(MintWindow(0, m)));
    assert t1.CheckMintLimit(w, m) == Ok(Some(MintWindow(w, m)));
    var t2 := Step(t1, c2, Mint(to, m));
    assert Created(t1, c2, Mint(to, m)) == m;
    assert calls[1..] == [(c2, Mint(to, m))];
    assert calls[1..][1..] == [];
    assert MintedIn(t2, [], w - 1, (w - 1) + w) == 0;
  }
}
