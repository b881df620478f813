/** The AMT token contract: storage entries overwritten in place, entry point by entry point.
    Every method is proved to be the function of the same name in `TokenSpec`. */
module AmtToken {
  import opened Common
  import opened TokenSpec

  /** What one invocation may do: answer like `spec`, commit on `Ok`, leave no trace on `Err`. */
  ghost predicate Commits(before: Token, spec: Result<Token, TokenError>, r: Result<(), TokenError>, after: Token) {
    match spec
    case Ok(t) => r == Ok(()) && after == t
    case Err(e) => r == Err(e) && after == before
  }

  class Contract {
    var admin: Address
    var paused: bool
    var balances: map<Address, I128>
    var totalSupply: I128
    var maxSupply: Option<I128>
    var allowances: map<(Address, Address), Allowance>
    var mintLimit: Option<MintLimit>
    var mintWindow: Option<MintWindow>

    function State(): Token
      reads this
    {
      Token(admin, paused, balances, totalSupply, maxSupply, allowances, mintLimit, mintWindow)
    }

    constructor (admin: Address)
      ensures State() == Token(admin, false, map[], 0, None, map[], None, None)
      ensures State().Sound()
    {
      this.admin, this.paused := admin, false;
      balances, totalSupply, maxSupply := map[], 0, None;
      allowances, mintLimit, mintWindow := map[], None, None;
    }

    /** The host's rollback of an invocation that returned an error after writing. */
    method Restore(t: Token)
      modifies this
      ensures State() == t
    {
      admin, paused, balances, totalSupply := t.admin, t.paused, t.balances, t.supply;
      maxSupply, allowances, mintLimit, mintWindow := t.cap, t.allowances, t.limit, t.window;
    }

    function Balance(id: Address): I128
      reads this
    {
      if id in balances then balances[id] else 0
    }

    method DoTransfer(from: Address, to: Address, amount: I128) returns (r: Result<(), TokenError>)
      requires amount > 0
      modifies `balances
      ensures Commits(old(State()), old(State().Move(from, to, amount)), r, State())
    {
      var fromBalance := Balance(from);
      if fromBalance < amount { return Err(InsufficientBalance); }
      var toBalance := Balance(to);
      if toBalance + amount > I128_MAX { return Err(Overflow); }
      balances := balances[from := fromBalance - amount];
      balances := balances[to := toBalance + amount];
      return Ok(());
    }

    method SpendAllowance(cx: Context, from: Address, spender: Address, amount: I128)
      returns (r: Result<(), TokenError>)
      requires amount > 0
      modifies `allowances
      ensures Commits(old(State()), old(State().SpendAllowance(cx, from, spender, amount)), r, State())
    {
      var a := if (from, spender) in allowances then allowances[(from, spender)] else Allowance(0, 0);
      if a.expiration < cx.sequence { return Err(AllowanceExpired); }
      if a.amount < amount { return Err(InsufficientAllowance); }
      allowances := allowances[(from, spender) := Allowance(a.amount - amount, a.expiration)];
      return Ok(());
    }

    method Transfer(cx: Context, from: Address, to: Address, amount: I128) returns (r: Result<(), TokenError>)
      modifies this
      ensures Commits(old(State()), old(State().Transfer(cx, from, to, amount)), r, State())
    {
      if amount < 0 { return Err(NegativeAmount); }
      if from !in cx.auth { return Err(AuthFailed); }
      if paused { return Err(Paused); }
      if amount == 0 { return Ok(()); }
      if from == to {
        if Balance(from) < amount { return Err(InsufficientBalance); }
        return Ok(());
      }
      r := DoTransfer(from, to, amount);
    }

    method TransferFrom(cx: Context, spender: Address, from: Address, to: Address, amount: I128)
      returns (r: Result<(), TokenError>)
      modifies this
      ensures Commits(old(State()), old(State().TransferFrom(cx, spender, from, to, amount)), r, State())
    {
      if amount < 0 { return Err(NegativeAmount); }
      if spender !in cx.auth { return Err(AuthFailed); }
      if paused { return Err(Paused); }
      if amount == 0 { return Ok(()); }
      if spender == from { return Err(Unauthorized); }
      var before := State();
      r := SpendAllowance(cx, from, spender, amount);
      if r.Err? { return; }
      if from == to {
        if Balance(from) < amount { r := Err(InsufficientBalance); }
      } else {
        r := DoTransfer(from, to, amount);
      }
      if r.Err? { Restore(before); }
    }

    method Burn(cx: Context, from: Address, amount: I128) returns (r: Result<(), TokenError>)
      modifies this
      ensures Commits(old(State()), old(State().Burn(cx, from, amount)), r, State())
    {
      if amount < 0 { return Err(NegativeAmount); }
      if from !in cx.auth { return Err(AuthFailed); }
      if paused { return Err(Paused); }
      if amount == 0 { return Ok(()); }
      var balance := Balance(from);
      if balance < amount { return Err(InsufficientBalance); }
      if totalSupply - amount < -I128_MAX - 1 { return Err(Overflow); }
      balances := balances[from := balance - amount];
      totalSupply := totalSupply - amount;
      return Ok(());
    }

    method BurnFrom(cx: Context, spender: Address, from: Address, amount: I128)
      returns (r: Result<(), TokenError>)
      modifies this
      ensures Commits(old(State()), old(State().BurnFrom(cx, spender, from, amount)), r, State())
    {
      if amount < 0 { return Err(NegativeAmount); }
      if spender !in cx.auth { return Err(AuthFailed); }
      if paused { return Err(Paused); }
      if amount == 0 { return Ok(()); }
      var balance := Balance(from);
      if balance < amount { return Err(InsufficientBalance); }
      var before := State();
      r := SpendAllowance(cx, from, spender, amount);
      if r.Err? { return; }
      if totalSupply - amount < -I128_MAX - 1 {
        Restore(before);
        return Err(Overflow);
      }
      balances := balances[from := balance - amount];
      totalSupply := totalSupply - amount;
    }

    method CheckMintLimit(sequence: U32, amount: I128) returns (r: Result<Option<MintWindow>, TokenError>)
      ensures r == State().CheckMintLimit(sequence, amount)
    {
      if mintLimit.None? || mintLimit.value.maxPerWindow == 0 { return Ok(None); }
      var limit := mintLimit.value;
      var window := if mintWindow.Some? then mintWindow.value else MintWindow(sequence, 0);
      if SatSub(sequence, window.start) >= limit.windowLedgers {
        window := MintWindow(sequence, 0);
      }
      var nextTotal := window.minted + amount;
      if nextTotal > I128_MAX || nextTotal < -I128_MAX - 1 { return Err(MintLimitExceeded); }
      if nextTotal > limit.maxPerWindow { return Err(MintLimitExceeded); }
      return Ok(Some(window.(minted := nextTotal)));
    }

    method Mint(cx: Context, to: Address, amount: I128) returns (r: Result<(), TokenError>)
      modifies this
      ensures Commits(old(State()), old(State().Mint(cx, to, amount)), r, State())
    {
      if amount < 0 { return Err(NegativeAmount); }
      if admin !in cx.auth { return Err(AuthFailed); }
      if paused { return Err(Paused); }
      if amount == 0 { return Ok(()); }
      var w := CheckMintLimit(cx.sequence, amount);
      if w.Err? { return Err(w.error); }
      if Balance(to) + amount > I128_MAX { return Err(Overflow); }
      if totalSupply + amount > I128_MAX { return Err(Overflow); }
      if maxSupply.Some? && totalSupply + amount > maxSupply.value { return Err(SupplyCapExceeded); }
      if w.value.Some? { mintWindow := w.value; }
      totalSupply := totalSupply + amount;
      balances := balances[to := Balance(to) + amount];
      return Ok(());
    }

    method SetMaxSupply(cx: Context, newCap: Option<I128>) returns (r: Result<(), TokenError>)
      modifies this
      ensures Commits(old(State()), old(State().SetMaxSupply(cx, newCap)), r, State())
    {
      if newCap.Some? && newCap.value < 0 { return Err(NegativeAmount); }
      if admin !in cx.auth { return Err(AuthFailed); }
      if newCap.Some? && newCap.value < totalSupply { return Err(SupplyCapExceeded); }
      maxSupply := newCap;
      return Ok(());
    }

    method SetMintLimit(cx: Context, maxPerWindow: I128, windowLedgers: U32) returns (r: Result<(), TokenError>)
      modifies this
      ensures Commits(old(State()), old(State().SetMintLimit(cx, maxPerWindow, windowLedgers)), r, State())
    {
      if maxPerWindow < 0 || (maxPerWindow > 0 && windowLedgers == 0) { return Err(InvalidMintLimit); }
      if admin !in cx.auth { return Err(AuthFailed); }
      mintLimit := Some(MintLimit(maxPerWindow, windowLedgers));
      if mintWindow.None? { mintWindow := Some(MintWindow(cx.sequence, 0)); }
      return Ok(());
    }

    /** The inner loop: the entry joins the credit of its recipient, or starts one. */
    static method MergeCredit(recipients: seq<Address>, amounts: seq<I128>, i: nat, credits: seq<(Address, I128)>)
      returns (merged: seq<(Address, I128)>)
      requires |recipients| == |amounts| && i < |recipients| && CheckedTotal(amounts[..i + 1]).Ok?
      requires IsCreditList(recipients[..i], amounts[..i], credits) && amounts[i] >= 0
      ensures IsCreditList(recipients[..i + 1], amounts[..i + 1], merged)
    {
      var recipient, amount := recipients[i], amounts[i];
      assert amounts[..i + 1][..i] == amounts[..i] && recipients[..i + 1][..i] == recipients[..i];
      CreditBounds(recipients[..i + 1], amounts[..i + 1], recipient);
      var k := 0;
      while k < |credits| && credits[k].0 != recipient
        invariant 0 <= k <= |credits|
        invariant forall j :: 0 <= j < k ==> credits[j].0 != recipient
      {
        k := k + 1;
      }
      if k < |credits| {
        merged := credits[k := (recipient, credits[k].1 + amount)];
      } else {
        merged := credits + [(recipient, amount)];
      }
      CreditListGrows(recipients, amounts, i, credits, k, merged);
    }

    /** The first loop of `transfer_batch`: checks the amounts and merges repeated recipients. */
    method CollectCredits(recipients: seq<Address>, amounts: seq<I128>)
      returns (r: Result<I128, TokenError>, credits: seq<(Address, I128)>)
      requires |recipients| == |amounts|
      ensures r == CheckedTotal(amounts)
      ensures r.Ok? ==> IsCreditList(recipients, amounts, credits)
    {
      var total: I128 := 0;
      credits := [];
      for i := 0 to |recipients|
        invariant CheckedTotal(amounts[..i]) == Ok(total)
        invariant IsCreditList(recipients[..i], amounts[..i], credits)
      {
        var amount := amounts[i];
        assert amounts[..i + 1][..i] == amounts[..i];
        if amount < 0 {
          CheckedTotalStops(amounts, i + 1);
          return Err(NegativeAmount), credits;
        }
        if total + amount > I128_MAX {
          CheckedTotalStops(amounts, i + 1);
          return Err(Overflow), credits;
        }
        total := total + amount;
        credits := MergeCredit(recipients, amounts, i, credits);
      }
      assert amounts[..|recipients|] == amounts && recipients[..|recipients|] == recipients;
      return Ok(total), credits;
    }

    /** `transfer_batch`: merged credits and one debit leave what the single transfers would leave. */
    method TransferBatch(cx: Context, from: Address, recipients: seq<Address>, amounts: seq<I128>)
      returns (r: Result<(), TokenError>)
      modifies this
      ensures Commits(old(State()), old(State().TransferBatch(cx, from, recipients, amounts)), r, State())
    {
      if |recipients| != |amounts| { return Err(LengthMismatch); }
      if |recipients| > MAX_BATCH_SIZE { return Err(BatchTooLarge); }
      var total, credits := CollectCredits(recipients, amounts);
      if total.Err? { return Err(total.error); }
      if from !in cx.auth { return Err(AuthFailed); }
      if paused { return Err(Paused); }
      var sourceBalance := Balance(from);
      if sourceBalance < total.value { return Err(InsufficientBalance); }
      var debitedSource: I128 := sourceBalance - total.value;
      ghost var t := State();
      SinglesSettle(t, cx, from, recipients, amounts);

      for i := 0 to |credits|
        invariant forall k :: 0 <= k < i ==> Settled(t, from, recipients, amounts, credits[k].0) <= I128_MAX
      {
        var starting := if credits[i].0 == from then debitedSource else Balance(credits[i].0);
        if starting + credits[i].1 > I128_MAX {
          assert credits[i].0 in recipients;
          return Err(Overflow);
        }
      }
      assert NoOverflow(t, from, recipients, amounts);
      WriteCredits(from, recipients, amounts, total.value, debitedSource, credits);
      SettlementIsUnique(t, from, recipients, amounts, balances,
                         t.Singles(cx, from, recipients, amounts).value.balances);
      return Ok(());
    }

    /** The last loop of `transfer_batch`: one write for the debit and one per merged credit. */
    method WriteCredits(from: Address, recipients: seq<Address>, amounts: seq<I128>,
                        total: I128, debitedSource: I128, credits: seq<(Address, I128)>)
      requires |recipients| == |amounts| && CheckedTotal(amounts) == Ok(total)
      requires IsCreditList(recipients, amounts, credits)
      requires total <= Balance(from) && debitedSource == Balance(from) - total
      requires NoOverflow(State(), from, recipients, amounts)
      modifies `balances
      ensures IsSettlement(old(State()), from, recipients, amounts, balances)
    {
      ghost var t := State();
      if total > 0 {
        balances := balances[from := debitedSource];
      }
      DebitWritten(t, from, recipients, amounts, balances);
      ghost var done: set<Address> := {};
      for i := 0 to |credits|
        invariant WrittenUpTo(credits, i, done) && PartlySettled(t, from, recipients, amounts, done, balances)
      {
        if credits[i].1 != 0 {
          var recipient := credits[i].0;
          var starting := if recipient == from then debitedSource else Balance(recipient);
          CreditFits(t, from, recipients, amounts, done, balances, recipient, starting);
          ghost var before := balances;
          balances := balances[recipient := starting + credits[i].1];
          CreditWritten(t, from, recipients, amounts, done, before, recipient, balances[recipient]);
        }
        done := OneMoreWritten(recipients, amounts, credits, i, done);
      }
      AllWritten(recipients, amounts, credits, done);
      PartlySettledEnds(t, from, recipients, amounts, done, balances);
    }
  }

  /** The balance table once the debit is written and the credits of `done` have been. */
  ghost predicate PartlySettled(t: Token, from: Address, recipients: seq<Address>, amounts: seq<I128>,
                                done: set<Address>, b: map<Address, I128>)
    requires |recipients| == |amounts| && CheckedTotal(amounts).Ok?
  {
    && (forall a :: a in done ==> Credit(recipients, amounts, a) > 0)
    && (forall a :: a in b <==> a in t.balances || a in done)
    && (forall a :: a in b ==>
          b[a] == Settled(t, from, recipients, amounts, a)
                  - if a in done then 0 else Credit(recipients, amounts, a))
  }

  /** The debit alone is written, if there is one. */
  lemma DebitWritten(t: Token, from: Address, recipients: seq<Address>, amounts: seq<I128>, b: map<Address, I128>)
    requires |recipients| == |amounts| && CheckedTotal(amounts).Ok?
    requires CheckedTotal(amounts).value <= t.Balance(from)
    requires b == if CheckedTotal(amounts).value > 0
                  then t.balances[from := t.Balance(from) - CheckedTotal(amounts).value] else t.balances
    ensures PartlySettled(t, from, recipients, amounts, {}, b)
  {
  }

  /** What a receiver starts from, with the debit out already. */
  predicate StartsFrom(t: Token, from: Address, amounts: seq<I128>, b: map<Address, I128>, to: Address, starting: int)
    requires CheckedTotal(amounts).Ok?
  {
    starting == if to == from then t.Balance(from) - CheckedTotal(amounts).value else if to in b then b[to] else 0
  }

  lemma CreditFits(t: Token, from: Address, recipients: seq<Address>, amounts: seq<I128>, done: set<Address>,
                   b: map<Address, I128>, to: Address, starting: I128)
    requires |recipients| == |amounts| && CheckedTotal(amounts).Ok?
    requires PartlySettled(t, from, recipients, amounts, done, b) && NoOverflow(t, from, recipients, amounts)
    requires to in recipients && to !in done && StartsFrom(t, from, amounts, b, to, starting)
    ensures starting + Credit(recipients, amounts, to) == Settled(t, from, recipients, amounts, to) <= I128_MAX
    ensures Credit(recipients, amounts, to) >= 0
  {
    CreditBounds(recipients, amounts, to);
  }

  /** One more credit is written. */
  lemma CreditWritten(t: Token, from: Address, recipients: seq<Address>, amounts: seq<I128>, done: set<Address>,
                      b: map<Address, I128>, to: Address, balance: I128)
    requires |recipients| == |amounts| && CheckedTotal(amounts).Ok?
    requires PartlySettled(t, from, recipients, amounts, done, b)
    requires Credit(recipients, amounts, to) > 0 && balance == Settled(t, from, recipients, amounts, to)
    ensures PartlySettled(t, from, recipients, amounts, done + {to}, b[to := balance])
  {
  }

  /** `done` are those of the first `i` entries that give something. */
  ghost predicate WrittenUpTo(credits: seq<(Address, I128)>, i: nat, done: set<Address>)
    requires i <= |credits|
  {
    && (forall k :: 0 <= k < i && credits[k].1 > 0 ==> credits[k].0 in done)
    && (forall k :: i <= k < |credits| ==> credits[k].0 !in done)
  }

  lemma OneMoreWritten(recipients: seq<Address>, amounts: seq<I128>, credits: seq<(Address, I128)>, i: nat,
                       done: set<Address>) returns (more: set<Address>)
    requires |recipients| == |amounts| && IsCreditList(recipients, amounts, credits)
    requires i < |credits| && WrittenUpTo(credits, i, done)
    ensures WrittenUpTo(credits, i + 1, more) && more == if credits[i].1 != 0 then done + {credits[i].0} else done
  {
    more := if credits[i].1 != 0 then done + {credits[i].0} else done;
  }

  /** After the last entry of the list, everybody with a credit has it. */
  lemma AllWritten(recipients: seq<Address>, amounts: seq<I128>, credits: seq<(Address, I128)>, done: set<Address>)
    requires |recipients| == |amounts| && IsCreditList(recipients, amounts, credits)
    requires WrittenUpTo(credits, |credits|, done)
    ensures forall a :: Credit(recipients, amounts, a) > 0 ==> a in done
  {
    forall a | Credit(recipients, amounts, a) > 0
      ensures a in done
    {
      if a !in recipients {
        CreditOfStranger(recipients, amounts, a);
      }
    }
  }

  lemma PartlySettledEnds(t: Token, from: Address, recipients: seq<Address>, amounts: seq<I128>,
                          done: set<Address>, b: map<Address, I128>)
    requires |recipients| == |amounts| && CheckedTotal(amounts).Ok?
    requires PartlySettled(t, from, recipients, amounts, done, b)
    requires forall a :: Credit(recipients, amounts, a) > 0 ==> a in done
    ensures IsSettlement(t, from, recipients, amounts, b)
  {
    forall a | a in b
      ensures b[a] == Settled(t, from, recipients, amounts, a)
    {
      CreditBounds(recipients, amounts, a);
    }
  }

  // ---- the merged credit list --------------------------------------------

  /** One entry per distinct recipient, holding everything the batch sends it. */
  ghost predicate IsCreditList(recipients: seq<Address>, amounts: seq<I128>, credits: seq<(Address, I128)>)
    requires |recipients| == |amounts|
  {
    && (forall i, j :: 0 <= i < j < |credits| ==> credits[i].0 != credits[j].0)
    && (forall i :: 0 <= i < |credits| ==>
          credits[i].0 in recipients && credits[i].1 == Credit(recipients, amounts, credits[i].0))
    && (forall a :: a in recipients ==> exists i :: 0 <= i < |credits| && credits[i].0 == a)
  }

  lemma {:induction false} CreditOfStranger(recipients: seq<Address>, amounts: seq<I128>, a: Address)
    requires |recipients| == |amounts| && a !in recipients
    ensures Credit(recipients, amounts, a) == 0
    decreases |recipients|
  {
    var n := |recipients|;
    if n > 0 {
      assert recipients[n - 1] in recipients;
      CreditOfStranger(recipients[..n - 1], amounts[..n - 1], a);
    }
  }

  /** A total that fails on a prefix fails the same way on the whole batch. */
  lemma {:induction false} CheckedTotalStops(amounts: seq<I128>, i: nat)
    requires i <= |amounts| && CheckedTotal(amounts[..i]).Err?
    ensures CheckedTotal(amounts) == CheckedTotal(amounts[..i])
    decreases |amounts|
  {
    if i == |amounts| {
      assert amounts[..i] == amounts;
    } else {
      var front := amounts[..|amounts| - 1];
      assert front[..i] == amounts[..i];
      CheckedTotalStops(front, i);
    }
  }

  lemma CreditOfNext(recipients: seq<Address>, amounts: seq<I128>, i: nat, a: Address)
    requires |recipients| == |amounts| && i < |recipients|
    ensures Credit(recipients[..i + 1], amounts[..i + 1], a)
         == Credit(recipients[..i], amounts[..i], a) + if recipients[i] == a then amounts[i] else 0
  {
    assert recipients[..i + 1][..i] == recipients[..i];
    assert amounts[..i + 1][..i] == amounts[..i];
  }

  /** Merging one more entry, into slot `k` or at the end, keeps the list a credit list. */
  lemma CreditListGrows(recipients: seq<Address>, amounts: seq<I128>, i: nat,
                        before: seq<(Address, I128)>, k: nat, after: seq<(Address, I128)>)
    requires |recipients| == |amounts| && i < |recipients|
    requires IsCreditList(recipients[..i], amounts[..i], before)
    requires k <= |before| && k < |after|
    requires forall j :: 0 <= j < k ==> before[j].0 != recipients[i]
    requires after[k].0 == recipients[i]
    requires forall j :: 0 <= j < |before| && j != k ==> j < |after| && after[j] == before[j]
    requires if k < |before|
             then |after| == |before| && before[k].0 == recipients[i]
                  && before[k].1 as int + amounts[i] as int == after[k].1 as int
             else |after| == |before| + 1 && after[k].1 == amounts[i]
    ensures IsCreditList(recipients[..i + 1], amounts[..i + 1], after)
  {
    var rs, xs := recipients[..i + 1], amounts[..i + 1];
    assert rs == recipients[..i] + [recipients[i]];
    if k == |before| {
      assert recipients[i] !in recipients[..i];
      CreditOfStranger(recipients[..i], amounts[..i], recipients[i]);
    }
    forall j | 0 <= j < |after|
      ensures after[j].0 in rs && after[j].1 == Credit(rs, xs, after[j].0)
    {
      CreditOfNext(recipients, amounts, i, after[j].0);
    }
    forall a | a in rs
      ensures exists j :: 0 <= j < |after| && after[j].0 == a
    {
      if a == recipients[i] {
        assert after[k].0 == a;
      } else {
        var j :| 0 <= j < |before| && before[j].0 == a;
        assert after[j].0 == a;
      }
    }
  }

  lemma SettlementIsUnique(t: Token, from: Address, recipients: seq<Address>, amounts: seq<I128>,
                           b: map<Address, I128>, c: map<Address, I128>)
    requires |recipients| == |amounts| && CheckedTotal(amounts).Ok?
    requires IsSettlement(t, from, recipients, amounts, b) && IsSettlement(t, from, recipients, amounts, c)
    ensures b == c
  {
  }
}
