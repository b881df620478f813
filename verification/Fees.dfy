/** Basis-point arithmetic of the marketplace (`bps_of`, default minimum price). */
module Fees {
  import opened Common

  const BPS := 10_000

  lemma ProductBound(a: int, b: int, c: int)
    requires a >= 0 && 0 <= b <= c
    ensures 0 <= a * b <= a * c
  {
  }

  /** Rust's `/` by a positive divisor: rounds toward zero. */
  function TruncDiv(a: int, b: int): int
    requires b > 0
  {
    if a >= 0 then a / b else -(-a / b)
  }

  /** `bps_of`: whole and remainder parts of 10 000, each step checked. */
  function BpsOf(amount: I128, bps: U32): Result<I128, ()> {
    var q := TruncDiv(amount, BPS);
    Parts(q * bps, TruncDiv((amount - q * BPS) * bps, BPS))
  }

  /** The checked product and the checked sum at the end of `bps_of`. */
  function Parts(whole: int, rest: int): Result<I128, ()> {
    if !(-I128_MAX - 1 <= whole <= I128_MAX) || !(-I128_MAX - 1 <= whole + rest <= I128_MAX) then Err(())
    else Ok(whole + rest)
  }

  /** `ceil(10_000 / fee_bps)`, or 1 without a fee. */
  function DefaultMinPrice(feeBps: U32): I128 {
    if feeBps == 0 then 1 else (BPS + feeBps - 1) / feeBps
  }

  lemma DivByParts(q: int, r: int, b: int)
    requires q >= 0 && 0 <= r && b >= 0
    ensures (q * BPS + r) * b / BPS == q * b + r * b / BPS
  {
    assert (q * BPS + r) * b == (q * b) * BPS + r * b;
  }

  /** For every non-negative `i128` and every rate up to 100 %, `bps_of` never overflows, is the floor
      of the exact product, and never exceeds the amount. */
  lemma BpsOfIsFloor(amount: I128, bps: U32)
    requires amount >= 0 && bps <= BPS
    ensures BpsOf(amount, bps) == Ok(amount * bps / BPS)
    ensures 0 <= amount * bps / BPS <= amount
  {
    var q, r := amount / BPS, amount % BPS;
    assert amount == q * BPS + r;
    DivByParts(q, r, bps);
    ProductBound(q, bps, BPS);
    ProductBound(r, bps, BPS);
    ProductBound(amount, bps, BPS);
  }

  /** The platform fee, the royalty and what is left for the seller add up to the price exactly, and
      the seller's part is never negative. */
  lemma SplitIsExact(price: I128, feeBps: U32, royaltyBps: U32)
    requires price >= 0 && feeBps + royaltyBps <= BPS
    ensures BpsOf(price, feeBps).Ok? && BpsOf(price, royaltyBps).Ok?
    ensures var seller := price - BpsOf(price, feeBps).value - BpsOf(price, royaltyBps).value;
            && 0 <= BpsOf(price, feeBps).value && 0 <= BpsOf(price, royaltyBps).value
            && 0 <= seller <= price
            && seller + BpsOf(price, feeBps).value + BpsOf(price, royaltyBps).value == price
  {
    BpsOfIsFloor(price, feeBps);
    BpsOfIsFloor(price, royaltyBps);
    ProductBound(price, feeBps + royaltyBps, BPS);
    assert price * (feeBps + royaltyBps) == price * feeBps + price * royaltyBps;
    assert price * feeBps / BPS + price * royaltyBps / BPS <= price * BPS / BPS;
  }

  lemma LeastMultiple(feeBps: int, price: int)
    requires 0 < feeBps && price >= 0
    ensures price * feeBps / BPS >= 1 <==> price >= (BPS + feeBps - 1) / feeBps
  {
    var m := (BPS + feeBps - 1) / feeBps;
    assert (m - 1) * feeBps < BPS <= m * feeBps;
    if price >= m {
      ProductBound(feeBps, m, price);
    } else {
      ProductBound(feeBps, price, m - 1);
    }
  }

  /** The default minimum is the least price that earns a fee: every price at or above it does, and
      every lower one does not. */
  lemma DefaultMinPriceIsLeast(feeBps: U32, price: I128)
    requires 0 < feeBps <= BPS && price >= 0
    ensures BpsOf(price, feeBps).Ok?
    ensures BpsOf(price, feeBps).value >= 1 <==> price >= DefaultMinPrice(feeBps)
  {
    LeastMultiple(feeBps, price);
    BpsOfIsFloor(price, feeBps);
  }

  lemma FloorGrows(price: nat, low: nat, high: nat)
    requires low <= high
    ensures price * low / BPS <= price * high / BPS
  {
    ProductBound(price, low, high);
  }

  /** Held to a minimum `minPrice` when accepted and settled at rate `feeBps`: every such price earns a
      fee if and only if the minimum was at least the default of the rate it settles at. An explicit
      minimum may be lower, and so may the default of a rate that has been lowered since. */
  lemma AcceptedPricesEarnFee(minPrice: I128, feeBps: U32)
    requires 0 < feeBps <= BPS && minPrice > 0
    ensures (forall p: I128 :: p >= minPrice ==> BpsOf(p, feeBps).Ok? && BpsOf(p, feeBps).value >= 1)
            <==> minPrice >= DefaultMinPrice(feeBps)
  {
    if minPrice >= DefaultMinPrice(feeBps) {
      forall p: I128 | p >= minPrice
        ensures BpsOf(p, feeBps).Ok? && BpsOf(p, feeBps).value >= 1
      {
        DefaultMinPriceIsLeast(feeBps, p);
      }
    } else {
      DefaultMinPriceIsLeast(feeBps, minPrice);
    }
  }
}
