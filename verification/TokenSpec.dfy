/** The AMT token as a value: one pure function per entry point, and what every run of them keeps. */
module TokenSpec {
  import opened Common

  const MAX_BATCH_SIZE := 100
  const MAX_ALLOWANCE_LEDGERS := 3_110_400

  datatype TokenError =
    | AuthFailed  // the host's `require_auth` trap
    | Unauthorized
    | InsufficientBalance
    | InsufficientAllowance
    | NegativeAmount
    | AllowanceExpired
    | Overflow
    | Paused
    | SupplyCapExceeded
    | InvalidExpiration
    | LengthMismatch
    | BatchTooLarge
    | MintLimitExceeded
    | InvalidMintLimit

  datatype Allowance = Allowance(amount: I128, expiration: U32)
  datatype MintLimit = MintLimit(maxPerWindow: I128, windowLedgers: U32)
  datatype MintWindow = MintWindow(start: U32, minted: I128)

  datatype Token = Token(
    admin: Address,
    paused: bool,
    balances: map<Address, I128>,
    supply: I128,
    cap: Option<I128>,
    allowances: map<(Address, Address), Allowance>,
    limit: Option<MintLimit>,
    window: Option<MintWindow>)
  {
    function Balance(id: Address): I128 {
      if id in balances then balances[id] else 0
    }

    /** `do_transfer`: both balances are written, and nothing else. */
    function Move(from: Address, to: Address, amount: I128): Result<Token, TokenError>
      requires amount > 0
    {
      if Balance(from) < amount then Err(InsufficientBalance)
      else if Balance(to) + amount > I128_MAX then Err(Overflow)
      else Ok(this.(balances := balances[from := Balance(from) - amount][to := Balance(to) + amount]))
    }

    function Transfer(cx: Context, from: Address, to: Address, amount: I128): Result<Token, TokenError> {
      if amount < 0 then Err(NegativeAmount)
      else if from !in cx.auth then Err(AuthFailed)
      else if paused then Err(Paused)
      else if amount == 0 then Ok(this)
      else if from == to then
        if Balance(from) < amount then Err(InsufficientBalance) else Ok(this)
      else Move(from, to, amount)
    }

    /** One `transfer` per recipient, in order. */
    function Singles(cx: Context, from: Address, recipients: seq<Address>, amounts: seq<I128>)
      : Result<Token, TokenError>
      requires |recipients| == |amounts|
      decreases |recipients|
    {
      var n := |recipients|;
      if n == 0 then Ok(this) else
        var t :- Singles(cx, from, recipients[..n - 1], amounts[..n - 1]);
        t.Transfer(cx, from, recipients[n - 1], amounts[n - 1])
    }

    /** `transfer_batch`: its own admission checks, then exactly what the single transfers would do. */
    function TransferBatch(cx: Context, from: Address, recipients: seq<Address>, amounts: seq<I128>)
      : Result<Token, TokenError>
    {
      if |recipients| != |amounts| then Err(LengthMismatch)
      else if |recipients| > MAX_BATCH_SIZE then Err(BatchTooLarge)
      else
        var total :- CheckedTotal(amounts);
        if from !in cx.auth then Err(AuthFailed)
        else if paused then Err(Paused)
        else if Balance(from) < total then Err(InsufficientBalance)
        else Singles(cx, from, recipients, amounts)
    }

    function Approve(cx: Context, from: Address, spender: Address, amount: I128, expiration: U32)
      : Result<Token, TokenError>
    {
      if amount < 0 then Err(NegativeAmount)
      else if amount > 0 && expiration < cx.sequence then Err(InvalidExpiration)
      else if expiration > Min(cx.sequence + MAX_ALLOWANCE_LEDGERS, U32_MAX) then Err(InvalidExpiration)
      else if from !in cx.auth then Err(AuthFailed)
      else if paused then Err(Paused)
      else Ok(this.(allowances := allowances[(from, spender) := Allowance(amount, expiration)]))
    }

    function Granted(from: Address, spender: Address): Allowance {
      if (from, spender) in allowances then allowances[(from, spender)] else Allowance(0, 0)
    }

    function SpendAllowance(cx: Context, from: Address, spender: Address, amount: I128)
      : Result<Token, TokenError>
      requires amount > 0
    {
      var a := Granted(from, spender);
      if a.expiration < cx.sequence then Err(AllowanceExpired)
      else if a.amount < amount then Err(InsufficientAllowance)
      else Ok(this.(allowances := allowances[(from, spender) := Allowance(a.amount - amount, a.expiration)]))
    }

    function TransferFrom(cx: Context, spender: Address, from: Address, to: Address, amount: I128)
      : Result<Token, TokenError>
    {
      if amount < 0 then Err(NegativeAmount)
      else if spender !in cx.auth then Err(AuthFailed)
      else if paused then Err(Paused)
      else if amount == 0 then Ok(this)
      else if spender == from then Err(Unauthorized)
      else
        var t :- SpendAllowance(cx, from, spender, amount);
        if from == to then
          if Balance(from) < amount then Err(InsufficientBalance) else Ok(t)
        else t.Move(from, to, amount)
    }

    /** The common tail of `burn` and `burn_from`, once `from` is known to hold `amount`. */
    function Destroy(from: Address, amount: I128): Result<Token, TokenError>
      requires 0 < amount <= Balance(from)
    {
      if supply - amount < -I128_MAX - 1 then Err(Overflow)
      else Ok(this.(balances := balances[from := Balance(from) - amount], supply := supply - amount))
    }

    function Burn(cx: Context, from: Address, amount: I128): Result<Token, TokenError> {
      if amount < 0 then Err(NegativeAmount)
      else if from !in cx.auth then Err(AuthFailed)
      else if paused then Err(Paused)
      else if amount == 0 then Ok(this)
      else if Balance(from) < amount then Err(InsufficientBalance)
      else Destroy(from, amount)
    }

    function BurnFrom(cx: Context, spender: Address, from: Address, amount: I128): Result<Token, TokenError> {
      if amount < 0 then Err(NegativeAmount)
      else if spender !in cx.auth then Err(AuthFailed)
      else if paused then Err(Paused)
      else if amount == 0 then Ok(this)
      else if Balance(from) < amount then Err(InsufficientBalance)
      else
        var t :- SpendAllowance(cx, from, spender, amount);
        t.Destroy(from, amount)
    }

    /** `check_mint_limit`: the window to store after minting `amount` now, or `None` when no limit is on. */
    function CheckMintLimit(sequence: U32, amount: I128): Result<Option<MintWindow>, TokenError> {
      if limit.None? || limit.value.maxPerWindow == 0 then Ok(None)
      else
        var stored := if window.Some? then window.value else MintWindow(sequence, 0);
        var w := if SatSub(sequence, stored.start) >= limit.value.windowLedgers
                 then MintWindow(sequence, 0) else stored;
        if !(-I128_MAX - 1 <= w.minted + amount <= I128_MAX) then Err(MintLimitExceeded)
        else if w.minted + amount > limit.value.maxPerWindow then Err(MintLimitExceeded)
        else Ok(Some(MintWindow(w.start, w.minted + amount)))
    }

    function Mint(cx: Context, to: Address, amount: I128): Result<Token, TokenError> {
      if amount < 0 then Err(NegativeAmount)
      else if admin !in cx.auth then Err(AuthFailed)
      else if paused then Err(Paused)
      else if amount == 0 then Ok(this)
      else
        var w :- CheckMintLimit(cx.sequence, amount);
        if Balance(to) + amount > I128_MAX then Err(Overflow)
        else if supply + amount > I128_MAX then Err(Overflow)
        else if cap.Some? && supply + amount > cap.value then Err(SupplyCapExceeded)
        else Ok(this.(balances := balances[to := Balance(to) + amount],
                      supply := supply + amount,
                      window := if w.Some? then w else window))
    }

    function SetMaxSupply(cx: Context, newCap: Option<I128>): Result<Token, TokenError> {
      if newCap.Some? && newCap.value < 0 then Err(NegativeAmount)
      else if admin !in cx.auth then Err(AuthFailed)
      else if newCap.Some? && newCap.value < supply then Err(SupplyCapExceeded)
      else Ok(this.(cap := newCap))
    }

    function SetMintLimit(cx: Context, maxPerWindow: I128, windowLedgers: U32): Result<Token, TokenError> {
      if maxPerWindow < 0 || (maxPerWindow > 0 && windowLedgers == 0) then Err(InvalidMintLimit)
      else if admin !in cx.auth then Err(AuthFailed)
      else Ok(this.(limit := Some(MintLimit(maxPerWindow, windowLedgers)),
                    window := if window.Some? then window else Some(MintWindow(cx.sequence, 0))))
    }

    function SetPaused(cx: Context, value: bool): Result<Token, TokenError> {
      if admin !in cx.auth then Err(AuthFailed) else Ok(this.(paused := value))
    }

    /** Supply conservation and everything that has to be kept alongside it. */
    ghost predicate Sound() {
      && (forall a :: a in balances ==> balances[a] >= 0)
      && Total(balances) == supply
      && (cap.Some? ==> supply <= cap.value)
      && (forall k :: k in allowances ==> allowances[k].amount >= 0)
      && (window.Some? ==> window.value.minted >= 0)
    }
  }

  /** The running `total` of `transfer_batch`, with the error of the first bad entry. */
  function CheckedTotal(amounts: seq<I128>): (r: Result<I128, TokenError>)
    ensures r.Ok? ==> r.value >= 0
    decreases |amounts|
  {
    var n := |amounts|;
    if n == 0 then Ok(0) else
      var t :- CheckedTotal(amounts[..n - 1]);
      if amounts[n - 1] < 0 then Err(NegativeAmount)
      else if t + amounts[n - 1] > I128_MAX then Err(Overflow)
      else Ok(t + amounts[n - 1])
  }

  /** What a batch credits to `who`. */
  function Credit(recipients: seq<Address>, amounts: seq<I128>, who: Address): int
    requires |recipients| == |amounts|
    decreases |recipients|
  {
    var n := |recipients|;
    if n == 0 then 0
    else Credit(recipients[..n - 1], amounts[..n - 1], who)
         + if recipients[n - 1] == who then amounts[n - 1] else 0
  }

  /** With no entry rejected, each credit is at most the total, and two different credits are too. */
  lemma {:induction false} CreditBounds(recipients: seq<Address>, amounts: seq<I128>, a: Address)
    requires |recipients| == |amounts|
    requires CheckedTotal(amounts).Ok?
    ensures 0 <= Credit(recipients, amounts, a) <= CheckedTotal(amounts).value
    ensures forall b :: b != a ==>
              Credit(recipients, amounts, a) + Credit(recipients, amounts, b) <= CheckedTotal(amounts).value
    decreases |recipients|
  {
    var n := |recipients|;
    if n > 0 {
      CreditBounds(recipients[..n - 1], amounts[..n - 1], a);
      forall b | b != a
        ensures Credit(recipients, amounts, a) + Credit(recipients, amounts, b) <= CheckedTotal(amounts).value
      {
        assert Credit(recipients[..n - 1], amounts[..n - 1], a)
            + Credit(recipients[..n - 1], amounts[..n - 1], b) <= CheckedTotal(amounts[..n - 1]).value;
      }
    }
  }

  /** The balance of `who` once the whole batch has been paid out of `from`. */
  function Settled(t: Token, from: Address, recipients: seq<Address>, amounts: seq<I128>, who: Address): int
    requires |recipients| == |amounts|
    requires CheckedTotal(amounts).Ok?
  {
    t.Balance(who) + Credit(recipients, amounts, who)
      - if who == from then CheckedTotal(amounts).value else 0
  }

  ghost predicate NoOverflow(t: Token, from: Address, recipients: seq<Address>, amounts: seq<I128>)
    requires |recipients| == |amounts|
    requires CheckedTotal(amounts).Ok?
  {
    forall a :: a in recipients ==> Settled(t, from, recipients, amounts, a) <= I128_MAX
  }

  /** `b` is the balance table after the batch: credited and debited once per address. */
  ghost predicate IsSettlement(t: Token, from: Address, recipients: seq<Address>, amounts: seq<I128>,
                               b: map<Address, I128>)
    requires |recipients| == |amounts|
    requires CheckedTotal(amounts).Ok?
  {
    && (forall a :: a in b <==> a in t.balances || Credit(recipients, amounts, a) > 0)
    && (forall a :: a in b ==> b[a] == Settled(t, from, recipients, amounts, a))
  }

  /** `s` is what settling the batch in one go gives: every address once, or `Overflow`. */
  ghost predicate Settles(t: Token, from: Address, recipients: seq<Address>, amounts: seq<I128>,
                          s: Result<Token, TokenError>)
    requires |recipients| == |amounts|
    requires CheckedTotal(amounts).Ok?
  {
    if NoOverflow(t, from, recipients, amounts)
    then s.Ok? && s.value == t.(balances := s.value.balances)
         && IsSettlement(t, from, recipients, amounts, s.value.balances)
    else s == Err(Overflow)
  }

  /** One more entry of a batch, seen from one address. */
  lemma {:induction false} OneMoreEntry(t: Token, from: Address, rs: seq<Address>, xs: seq<I128>, to: Address, x: I128,
                                        a: Address)
    requires |rs| == |xs| && CheckedTotal(xs).Ok? && x >= 0 && CheckedTotal(xs).value + x <= t.Balance(from)
    ensures CheckedTotal(xs + [x]) == Ok(CheckedTotal(xs).value + x)
    ensures Credit(rs + [to], xs + [x], a) == Credit(rs, xs, a) + if a == to then x else 0
    ensures 0 <= Credit(rs, xs, a) <= CheckedTotal(xs).value
    ensures Settled(t, from, rs + [to], xs + [x], a)
         == Settled(t, from, rs, xs, a) + (if a == to then x else 0) - if a == from then x else 0
  {
    var ys, qs := xs + [x], rs + [to];
    assert ys[..|ys| - 1] == xs && qs[..|qs| - 1] == rs;
    CreditBounds(rs, xs, a);
  }

  /** Paying an entry of nothing, or to oneself, changes no table. */
  lemma {:induction false} SettleIdle(t: Token, mid: Token, from: Address, rs: seq<Address>, xs: seq<I128>,
                                      to: Address, x: I128)
    requires |rs| == |xs| && CheckedTotal(xs).Ok? && x >= 0 && CheckedTotal(xs).value + x <= t.Balance(from)
    requires NoOverflow(t, from, rs, xs) && IsSettlement(t, from, rs, xs, mid.balances)
    requires x == 0 || from == to
    ensures CheckedTotal(xs + [x]).Ok?
    ensures NoOverflow(t, from, rs + [to], xs + [x]) && IsSettlement(t, from, rs + [to], xs + [x], mid.balances)
  {
    forall a
      ensures CheckedTotal(xs + [x]).Ok?
      ensures a in mid.balances <==> a in t.balances || Credit(rs + [to], xs + [x], a) > 0
      ensures Settled(t, from, rs + [to], xs + [x], a) == Settled(t, from, rs, xs, a)
      ensures a in rs + [to] ==> Settled(t, from, rs, xs, a) <= I128_MAX
    {
      OneMoreEntry(t, from, rs, xs, to, x, a);
    }
  }

  /** Paying an entry to somebody else moves its amount, if the receiver can hold it. */
  lemma {:induction false} SettleMove(t: Token, mid: Token, from: Address, rs: seq<Address>, xs: seq<I128>,
                                      to: Address, x: I128)
    requires |rs| == |xs| && CheckedTotal(xs).Ok? && x > 0 && CheckedTotal(xs).value + x <= t.Balance(from)
    requires mid == t.(balances := mid.balances) && from != to
    requires NoOverflow(t, from, rs, xs) && IsSettlement(t, from, rs, xs, mid.balances)
    ensures CheckedTotal(xs + [x]).Ok?
    ensures Settles(t, from, rs + [to], xs + [x], mid.Move(from, to, x))
  {
    OneMoreEntry(t, from, rs, xs, to, x, from);
    OneMoreEntry(t, from, rs, xs, to, x, to);
    assert mid.Balance(from) == Settled(t, from, rs, xs, from);
    assert mid.Balance(to) == Settled(t, from, rs, xs, to);
    var s := mid.Move(from, to, x);
    if s.Ok? {
      forall a
        ensures a in s.value.balances <==> a in t.balances || Credit(rs + [to], xs + [x], a) > 0
        ensures a in s.value.balances ==> s.value.balances[a] == Settled(t, from, rs + [to], xs + [x], a)
        ensures a in rs + [to] ==> Settled(t, from, rs + [to], xs + [x], a) <= I128_MAX
      {
        OneMoreEntry(t, from, rs, xs, to, x, a);
      }
    } else {
      assert to in rs + [to];
    }
  }

  /** One more transfer carries a settlement of the batch so far to a settlement of the longer batch. */
  lemma {:induction false} SettleOneMore(t: Token, mid: Token, cx: Context, from: Address,
                                         rs: seq<Address>, xs: seq<I128>, to: Address, x: I128)
    requires |rs| == |xs| && from in cx.auth && !t.paused
    requires CheckedTotal(xs).Ok? && x >= 0 && CheckedTotal(xs).value + x <= t.Balance(from)
    requires mid == t.(balances := mid.balances)
    requires NoOverflow(t, from, rs, xs) && IsSettlement(t, from, rs, xs, mid.balances)
    ensures CheckedTotal(xs + [x]).Ok?
    ensures Settles(t, from, rs + [to], xs + [x], mid.Transfer(cx, from, to, x))
  {
    OneMoreEntry(t, from, rs, xs, to, x, from);
    if x == 0 || from == to {
      assert mid.Balance(from) == Settled(t, from, rs, xs, from);
      SettleIdle(t, mid, from, rs, xs, to, x);
    } else {
      SettleMove(t, mid, from, rs, xs, to, x);
    }
  }

  /** Running the single transfers in order succeeds exactly when no final balance overflows,
      and then settles every address once, whatever repeats there are among the recipients. */
  lemma {:induction false} SinglesSettle(t: Token, cx: Context, from: Address,
                                         recipients: seq<Address>, amounts: seq<I128>)
    requires |recipients| == |amounts|
    requires from in cx.auth && !t.paused
    requires CheckedTotal(amounts).Ok? && CheckedTotal(amounts).value <= t.Balance(from)
    ensures Settles(t, from, recipients, amounts, t.Singles(cx, from, recipients, amounts))
    decreases |recipients|
  {
    var n := |recipients|;
    if n > 0 {
      var rs, xs := recipients[..n - 1], amounts[..n - 1];
      var to, x := recipients[n - 1], amounts[n - 1];
      assert recipients == rs + [to] && amounts == xs + [x];
      SinglesSettle(t, cx, from, rs, xs);
      if NoOverflow(t, from, rs, xs) {
        SettleOneMore(t, t.Singles(cx, from, rs, xs).value, cx, from, rs, xs, to, x);
      } else {
        var a :| a in rs && Settled(t, from, rs, xs, a) > I128_MAX;
        CreditBounds(rs, xs, from);
        assert a in recipients && Settled(t, from, recipients, amounts, a) > I128_MAX;
      }
    }
  }
}
