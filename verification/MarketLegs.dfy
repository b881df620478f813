/** What the token legs and the bot leg of a settlement do to the rest of the world. */
module MarketLegs {
  import opened Common
  import opened MarketSpec
  import N = NftSpec
  import T = TokenSpec
  import TR = TokenRuns

  // ---- money ----------------------------------------------------------------

  /** Every token is sound and no allowance lets anyone spend the marketplace's balance. */
  ghost predicate TokensSound(w: World) {
    forall c :: c in w.tokens ==>
      w.tokens[c].Sound() && forall k :: k in w.tokens[c].allowances ==> k.0 != w.m.self
  }

  /** The marketplace's balance in a currency. */
  function Held(w: World, c: Address): int {
    if c in w.tokens then w.tokens[c].Balance(w.m.self) else 0
  }

  function EscrowMap(offers: map<U64, Offer>, c: Address): map<U64, int> {
    map id | id in offers && offers[id].status == Active && offers[id].currency == c :: offers[id].amount as int
  }

  /** Everything owed to buyers of open offers in a currency. */
  ghost function Escrow(m: Market, c: Address): int {
    Total(EscrowMap(m.offers, c))
  }

  /** What the marketplace holds beyond fees and open escrow. */
  ghost function Surplus(w: World, c: Address): int {
    Held(w, c) - w.m.FeesAccrued(c) - Escrow(w.m, c)
  }

  lemma EscrowOpens(offers: map<U64, Offer>, id: U64, o: Offer, c: Address)
    requires id !in offers && o.status == Active
    ensures Total(EscrowMap(offers[id := o], c))
         == Total(EscrowMap(offers, c)) + if o.currency == c then o.amount else 0
  {
    if o.currency == c {
      assert EscrowMap(offers[id := o], c) == EscrowMap(offers, c)[id := o.amount];
      TotalUpdate(EscrowMap(offers, c), id, o.amount);
    } else {
      assert EscrowMap(offers[id := o], c) == EscrowMap(offers, c);
    }
  }

  lemma EscrowCloses(offers: map<U64, Offer>, id: U64, status: OfferStatus, c: Address)
    requires id in offers && offers[id].status == Active && status != Active
    ensures Total(EscrowMap(offers[id := offers[id].(status := status)], c))
         == Total(EscrowMap(offers, c)) - if offers[id].currency == c then offers[id].amount else 0
  {
    var after := EscrowMap(offers[id := offers[id].(status := status)], c);
    if offers[id].currency == c {
      TotalPick(EscrowMap(offers, c), id);
      assert after == EscrowMap(offers, c) - {id};
    } else {
      assert after == EscrowMap(offers, c);
    }
  }

  lemma EscrowNonnegative(offers: map<U64, Offer>, c: Address)
    requires forall id :: id in offers && offers[id].status == Active ==> offers[id].amount > 0
    ensures Total(EscrowMap(offers, c)) >= 0
    ensures forall id :: id in offers && offers[id].status == Active && offers[id].currency == c ==>
              offers[id].amount <= Total(EscrowMap(offers, c))
  {
    var e := EscrowMap(offers, c);
    TotalNonnegative(e);
    forall id | id in offers && offers[id].status == Active && offers[id].currency == c
      ensures offers[id].amount <= Total(e)
    {
      TotalBounds(e, id);
    }
  }

  /** A token transfer moves exactly its amount and keeps the ledger sound. */
  lemma TransferMoves(t: T.Token, cx: Context, from: Address, to: Address, amount: I128)
    requires t.Sound() && t.Transfer(cx, from, to, amount).Ok?
    ensures var u := t.Transfer(cx, from, to, amount).value;
            && u.Sound() && u.allowances == t.allowances
            && forall a :: u.Balance(a) == t.Balance(a) + (if a == to && from != to then amount else 0)
                                           - (if a == from && from != to then amount else 0)
  {
    if amount > 0 && from != to {
      TR.MoveConserves(t, from, to, amount);
    }
  }

  /** A leg touches one currency of the token side and nothing else. */
  lemma PayMoves(w: World, cx: Context, c: Address, from: Address, to: Address, amount: I128)
    requires TokensSound(w) && w.Pay(cx, c, from, to, amount).Ok?
    ensures var v := w.Pay(cx, c, from, to, amount).value;
            && v.m == w.m && v.nft == w.nft && v.tokens.Keys == w.tokens.Keys && TokensSound(v)
            && c in w.tokens
            && forall d :: Held(v, d) == Held(w, d) + (if d == c && to == w.m.self != from then amount else 0)
                                         - (if d == c && from == w.m.self != to then amount else 0)
  {
    var cx' := cx.(auth := cx.auth + {w.m.self});
    TransferMoves(w.tokens[c], cx', from, to, amount);
  }

  /** A payout costs the marketplace its amount at most (nothing when it pays itself). */
  lemma PayOutMoves(w: World, cx: Context, c: Address, to: Address, amount: I128)
    requires TokensSound(w) && amount >= 0 && w.PayOut(cx, c, to, amount).Ok?
    ensures var v := w.PayOut(cx, c, to, amount).value;
            && v.m == w.m && v.nft == w.nft && v.tokens.Keys == w.tokens.Keys && TokensSound(v)
            && forall d :: Held(v, d) == Held(w, d) - if d == c && to != w.m.self then amount else 0
  {
    if amount > 0 {
      PayMoves(w, cx, c, w.m.self, to, amount);
    }
  }

  /** A payout the marketplace can cover fails only because the token itself is paused. */
  lemma PayOutSucceeds(w: World, cx: Context, c: Address, to: Address, amount: I128)
    requires TokensSound(w) && c in w.tokens && 0 < amount <= Held(w, c)
    ensures w.Pay(cx, c, w.m.self, to, amount).Ok? <==> !w.tokens[c].paused
  {
    if to != w.m.self {
      TR.MoveConserves(w.tokens[c], w.m.self, to, amount);
    }
  }

  // ---- bots -----------------------------------------------------------------

  /** Each active listing's bot sits in escrow, unapproved, under one listing only; and nobody is an
      operator for the marketplace. */
  ghost predicate Custody(w: World) {
    && (forall id :: w.m.IsActive(id) ==> Escrowed(w, w.m.listings[id]))
    && (forall i, j :: w.m.IsActive(i) && w.m.IsActive(j) && i != j ==>
          w.m.listings[i].botId != w.m.listings[j].botId)
    && (forall a :: (w.m.self, a) !in w.nft.operators)
  }

  ghost predicate Escrowed(w: World, l: Listing) {
    && l.botId in w.nft.bots
    && w.nft.bots[l.botId].owner == w.m.self
    && w.nft.bots[l.botId].tier == l.tier
    && l.botId !in w.nft.approvals
    && l.seller != w.m.self
    && l.price > 0
  }

  lemma ListingForIs(w: World, id: U64)
    requires Custody(w) && w.m.IsActive(id)
    ensures w.m.ListingFor(w.m.listings[id].botId) == Some(id)
  {
  }

  /** An escrow exit always succeeds, and after it the books are the same whether or not bot_nft's
      callback got there first (only the log tells). */
  lemma ExitRetires(w: World, cx: Context, id: U64, to: Address, called: bool)
    requires Custody(w) && w.m.IsActive(id) && to != w.m.self
    ensures var botId := w.m.listings[id].botId;
            var r := w.MoveBot(cx, botId, w.m.self, to, called);
            && r.Ok? && r.value.nft == w.nft.Move(botId, to) && r.value.tokens == w.tokens
            && r.value.m.Deactivate(id) == w.m.Deactivate(id).(events := r.value.m.events)
            && r.value.m == (if called then w.m.Deactivate(id).Emit(Deactivated(botId, id)) else w.m)
  {
    ListingForIs(w, id);
  }

  /** Retiring a listing and handing its bot over keeps custody of all the others. */
  lemma RetireKeepsCustody(w: World, v: World, id: U64, to: Address)
    requires Custody(w) && w.m.IsActive(id) && to != w.m.self
    requires v.m.self == w.m.self && v.m.listings == w.m.Deactivate(id).listings
    requires v.nft == w.nft.Move(w.m.listings[id].botId, to)
    ensures Custody(v)
  {
    forall i | v.m.IsActive(i)
      ensures w.m.IsActive(i) && v.m.listings[i] == w.m.listings[i] && Escrowed(v, v.m.listings[i])
    {
      assert w.m.IsActive(i) && i != id;
      assert w.m.listings[i].botId != w.m.listings[id].botId;
    }
  }
}
