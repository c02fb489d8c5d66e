/** The exact-in and exact-out quotes of `dex.rs`, on unbounded integers. */
module Quotes {
  import opened Arithmetic
  import opened Chain

  const BPS: nat := 10_000

  /** A fee the source can subtract from 10000 without a panic. */
  type Fee = f: nat | f <= BPS

  function WithFee(amountIn: nat, fee: Fee): nat
  {
    amountIn * (BPS - fee)
  }

  function V2AmountOut(amountIn: nat, reserveIn: nat, reserveOut: nat, fee: Fee): nat
  {
    if amountIn == 0 || reserveIn == 0 || reserveOut == 0 then 0
    else
      var weighted := WithFee(amountIn, fee);
      Quot(weighted * reserveOut, reserveIn * BPS + weighted)
  }

  function V2AmountIn(amountOut: nat, reserveIn: nat, reserveOut: nat, fee: Fee): nat
  {
    if amountOut == 0 || amountOut >= reserveOut then U256_MAX
    else
      var denominator := WithFee(reserveOut - amountOut, fee);
      if denominator == 0 then U256_MAX else Quot(reserveIn * amountOut * BPS, denominator) + 1
  }

  /** Aerodrome takes the floored fee off the input before pricing it. */
  function AeroNetIn(amountIn: nat, fee: nat): nat
  {
    var cut := Quot(amountIn * fee, BPS);
    if cut <= amountIn then amountIn - cut else 0
  }

  function AeroVolatileAmountOut(amountIn: nat, reserveIn: nat, reserveOut: nat, fee: nat): nat
  {
    if amountIn == 0 || reserveIn == 0 || reserveOut == 0 then 0
    else
      var net := AeroNetIn(amountIn, fee);
      if net == 0 then 0 else Quot(net * reserveOut, reserveIn + net)
  }

  // ------------------------------------------------------------------
  // The product check of the pair contract
  // ------------------------------------------------------------------

  /** Uniswap v2 Core, section 3.2.1: the pair lets `paid` out against a fee-weighted
      input `weighted` (the input times 10000 - fee) when the adjusted product holds. */
  ghost predicate PairAccepts(weighted: nat, reserveIn: nat, reserveOut: nat, paid: nat)
  {
    paid <= reserveOut
    && (BPS * reserveIn + weighted) * (reserveOut - paid) >= BPS * reserveIn * reserveOut
  }

  lemma AcceptsIffQuotient(weighted: nat, reserveIn: nat, reserveOut: nat, paid: nat)
    requires 0 < reserveIn && 0 < reserveOut
    ensures PairAccepts(weighted, reserveIn, reserveOut, paid)
       <==> paid <= Quot(weighted * reserveOut, reserveIn * BPS + weighted)
  {
    var depth := BPS * reserveIn;
    QuotAdjoint(weighted * reserveOut, depth + weighted, paid);
    assert (depth + weighted) * (reserveOut - paid)
        == depth * reserveOut + weighted * reserveOut - paid * (depth + weighted);
    if paid > reserveOut {
      MulMono(reserveOut + 1, paid, depth + weighted);
      assert (reserveOut + 1) * (depth + weighted)
          == reserveOut * depth + weighted * reserveOut + depth + weighted;
      assert reserveOut * depth >= 0;
    }
  }

  /** The check, rearranged: the weighted input covers what `paid` moves the in-side. */
  lemma AcceptsIffCovered(weighted: nat, reserveIn: nat, reserveOut: nat, paid: nat)
    requires paid <= reserveOut
    ensures PairAccepts(weighted, reserveIn, reserveOut, paid)
       <==> reserveIn * paid * BPS <= weighted * (reserveOut - paid)
  {
    var depth := BPS * reserveIn;
    assert (depth + weighted) * (reserveOut - paid)
        == depth * reserveOut - depth * paid + weighted * (reserveOut - paid);
    assert reserveIn * paid * BPS == depth * paid;
  }

  /** `v2_amount_out` is the largest output the pair accepts, and it never empties the pool. */
  lemma V2OutIsLargestAccepted(amountIn: nat, reserveIn: nat, reserveOut: nat, fee: Fee)
    requires 0 < reserveIn && 0 < reserveOut
    ensures V2AmountOut(amountIn, reserveIn, reserveOut, fee) < reserveOut
    ensures forall paid: nat :: PairAccepts(WithFee(amountIn, fee), reserveIn, reserveOut, paid)
                           <==> paid <= V2AmountOut(amountIn, reserveIn, reserveOut, fee)
  {
    var weighted := WithFee(amountIn, fee);
    forall paid: nat
      ensures PairAccepts(weighted, reserveIn, reserveOut, paid)
         <==> paid <= V2AmountOut(amountIn, reserveIn, reserveOut, fee)
    {
      AcceptsIffQuotient(weighted, reserveIn, reserveOut, paid);
    }
    assert BPS * reserveIn * reserveOut > 0;
    assert !PairAccepts(weighted, reserveIn, reserveOut, reserveOut);
  }

  /** The form the other proofs use: what is paid is accepted. */
  lemma V2OutAccepted(amountIn: nat, reserveIn: nat, reserveOut: nat, fee: Fee)
    requires 0 < reserveIn && 0 < reserveOut
    ensures PairAccepts(WithFee(amountIn, fee), reserveIn, reserveOut,
                        V2AmountOut(amountIn, reserveIn, reserveOut, fee))
    ensures V2AmountOut(amountIn, reserveIn, reserveOut, fee) < reserveOut
  {
    V2OutIsLargestAccepted(amountIn, reserveIn, reserveOut, fee);
  }

  /** No quote, of either venue, takes more than the pool holds. */
  lemma OutputsFit(amountIn: nat, reserveIn: nat, reserveOut: nat, fee: nat)
    ensures fee <= BPS ==> V2AmountOut(amountIn, reserveIn, reserveOut, fee) <= reserveOut
    ensures AeroVolatileAmountOut(amountIn, reserveIn, reserveOut, fee) <= reserveOut
  {
    if 0 < reserveIn && 0 < reserveOut {
      if fee <= BPS {
        V2OutAccepted(amountIn, reserveIn, reserveOut, fee);
      }
      AeroIsFreeV2OfNet(amountIn, reserveIn, reserveOut, fee);
      V2OutAccepted(AeroNetIn(amountIn, fee), reserveIn, reserveOut, 0);
    }
  }

  // ------------------------------------------------------------------
  // One swap keeps the product
  // ------------------------------------------------------------------

  lemma V2ProductKept(amountIn: nat, reserveIn: nat, reserveOut: nat, fee: Fee)
    ensures V2AmountOut(amountIn, reserveIn, reserveOut, fee) <= reserveOut
    ensures (reserveIn + amountIn) * (reserveOut - V2AmountOut(amountIn, reserveIn, reserveOut, fee))
         >= reserveIn * reserveOut
  {
    var out := V2AmountOut(amountIn, reserveIn, reserveOut, fee);
    if 0 < reserveIn && 0 < reserveOut {
      V2OutAccepted(amountIn, reserveIn, reserveOut, fee);
      var left := reserveOut - out;
      MulMono(BPS - fee, BPS, amountIn);
      MulMono(BPS * reserveIn + amountIn * (BPS - fee), BPS * (reserveIn + amountIn), left);
      assert BPS * (reserveIn + amountIn) * left == BPS * ((reserveIn + amountIn) * left);
      assert BPS * reserveIn * reserveOut == BPS * (reserveIn * reserveOut);
    } else {
      assert reserveIn * reserveOut == 0;
    }
  }

  /** Aerodrome prices its net input as a fee-free V2 pool would. */
  lemma AeroIsFreeV2OfNet(amountIn: nat, reserveIn: nat, reserveOut: nat, fee: nat)
    ensures AeroVolatileAmountOut(amountIn, reserveIn, reserveOut, fee)
         == V2AmountOut(AeroNetIn(amountIn, fee), reserveIn, reserveOut, 0)
  {
    var net := AeroNetIn(amountIn, fee);
    if amountIn != 0 && reserveIn != 0 && reserveOut != 0 && net != 0 {
      var n, d := net * reserveOut, reserveIn + net;
      assert (net * BPS) * reserveOut == BPS * n;
      assert reserveIn * BPS + net * BPS == BPS * d;
      ScaledQuotient(n, d);
    }
  }

  lemma ScaledQuotient(n: nat, d: nat)
    requires 0 < d
    ensures Quot(BPS * n, BPS * d) == Quot(n, d)
  {
    var q, r := Quot(n, d), Quot(BPS * n, BPS * d);
    QuotAdjoint(n, d, q);
    QuotAdjoint(n, d, r);
    QuotAdjoint(BPS * n, BPS * d, q);
    QuotAdjoint(BPS * n, BPS * d, r);
    assert q * (BPS * d) == BPS * (q * d);
    assert r * (BPS * d) == BPS * (r * d);
  }

  lemma AeroProductKept(amountIn: nat, reserveIn: nat, reserveOut: nat, fee: nat)
    ensures AeroVolatileAmountOut(amountIn, reserveIn, reserveOut, fee) <= reserveOut
    ensures (reserveIn + amountIn) * (reserveOut - AeroVolatileAmountOut(amountIn, reserveIn, reserveOut, fee))
         >= reserveIn * reserveOut
  {
    var net := AeroNetIn(amountIn, fee);
    AeroIsFreeV2OfNet(amountIn, reserveIn, reserveOut, fee);
    V2ProductKept(net, reserveIn, reserveOut, 0);
    MulMono(reserveIn + net, reserveIn + amountIn,
            reserveOut - AeroVolatileAmountOut(amountIn, reserveIn, reserveOut, fee));
  }

  // ------------------------------------------------------------------
  // Monotonicity
  // ------------------------------------------------------------------

  /** More in, a shallower in-side or a deeper out-side never lowers the quote. */
  lemma V2OutMonotone(x: nat, x': nat, rIn: nat, rIn': nat, rOut: nat, rOut': nat, fee: Fee)
    requires x <= x' && 0 < rIn' <= rIn && rOut <= rOut'
    ensures V2AmountOut(x, rIn, rOut, fee) <= V2AmountOut(x', rIn', rOut', fee)
  {
    var y := V2AmountOut(x, rIn, rOut, fee);
    if 0 < rOut {
      V2OutAccepted(x, rIn, rOut, fee);
      AcceptsIffCovered(WithFee(x, fee), rIn, rOut, y);
      MulMono(x, x', BPS - fee);
      MulMono2(WithFee(x, fee), WithFee(x', fee), rOut - y, rOut' - y);
      MulMono(rIn', rIn, y);
      AcceptsIffCovered(WithFee(x', fee), rIn', rOut', y);
      V2OutIsLargestAccepted(x', rIn', rOut', fee);
    }
  }

  // ------------------------------------------------------------------
  // The exact-out quote
  // ------------------------------------------------------------------

  /** An input buys at least `y` exactly when it covers the unfloored exact-out price. */
  lemma SufficientInput(x: nat, y: nat, rIn: nat, rOut: nat, fee: Fee)
    requires 0 < y < rOut && 0 < rIn
    ensures y <= V2AmountOut(x, rIn, rOut, fee)
       <==> rIn * y * BPS <= x * WithFee(rOut - y, fee)
  {
    var w := WithFee(x, fee);
    V2OutIsLargestAccepted(x, rIn, rOut, fee);
    AcceptsIffCovered(w, rIn, rOut, y);
    assert w * (rOut - y) == x * WithFee(rOut - y, fee);
  }

  /** Nothing, or all the pool holds and more, cannot be bought, nor anything at a fee of 100%. */
  lemma NotForSale(y: nat, rIn: nat, rOut: nat, fee: Fee)
    requires y == 0 || rOut <= y || fee == BPS
    ensures V2AmountIn(y, rIn, rOut, fee) == 0x1_0000_0000_0000_0000_0000_0000_0000_0000 * 0x1_0000_0000_0000_0000_0000_0000_0000_0000 - 1
  {
  }

  /** What Aerodrome prices is the input less its fee, rounded up. */
  lemma NetIsRoundedUp(x: nat, fee: Fee)
    ensures AeroNetIn(x, fee) * BPS < x * (BPS - fee) + BPS && x * (BPS - fee) <= AeroNetIn(x, fee) * BPS
  {
    QuotBounds(x * fee, BPS);
    assert x * (BPS - fee) == x * BPS - x * fee;
    MulMono(fee, BPS, x);
    assert fee * x == x * fee && BPS * x == x * BPS;
    MulCancel(Quot(x * fee, BPS), x, BPS);
  }

  /** The quote, told by multiplication. */
  lemma QuoteIs(x: nat, rIn: nat, rOut: nat, fee: Fee, y: nat)
    requires 0 < x && 0 < rIn && 0 < rOut
    requires var d := rIn * BPS + x * (BPS - fee); y * d <= x * (BPS - fee) * rOut < y * d + d
    ensures V2AmountOut(x, rIn, rOut, fee) == y
  {
    var w := x * (BPS - fee);
    var n, d := w * rOut, rIn * BPS + w;
    QuotAdjoint(n, d, y);
    QuotAdjoint(n, d, y + 1);
    assert (y + 1) * d == y * d + d;
  }

  ghost predicate Suffices(x: nat, y: nat, rIn: nat, rOut: nat, fee: Fee)
  {
    y <= V2AmountOut(x, rIn, rOut, fee)
  }

  /** `v2_amount_in` buys what was asked, one unit less is already enough only when the
      unfloored price is a whole number, and two units less is never enough. */
  lemma AmountInIsTight(y: nat, rIn: nat, rOut: nat, fee: Fee)
    requires 0 < y < rOut && 0 < rIn && fee < BPS
    ensures var x := V2AmountIn(y, rIn, rOut, fee);
      && 0 < x
      && Suffices(x, y, rIn, rOut, fee)
      && (forall z: nat :: z + 1 < x ==> !Suffices(z, y, rIn, rOut, fee))
      && (Suffices(x - 1, y, rIn, rOut, fee)
          <==> ExactPrice(y, rIn, rOut, fee))
  {
    var n, d := rIn * y * BPS, WithFee(rOut - y, fee);
    var q := Quot(n, d);
    var x := q + 1;
    QuotBounds(n, d);
    assert (q + 1) * d == q * d + d;
    SufficientInput(x, y, rIn, rOut, fee);
    SufficientInput(q, y, rIn, rOut, fee);
    forall z: nat | z + 1 < x
      ensures !Suffices(z, y, rIn, rOut, fee)
    {
      SufficientInput(z, y, rIn, rOut, fee);
      MulMono(z + 1, q, d);
      assert (z + 1) * d == z * d + d;
    }
  }

  /** The price of `y` is a whole number of units of the in-token. */
  predicate ExactPrice(y: nat, rIn: nat, rOut: nat, fee: Fee)
    requires y < rOut && fee < BPS
  {
    (rIn * y * BPS) % WithFee(rOut - y, fee) == 0
  }

  /** Asking for what a swap pays never costs more than one unit above that swap. */
  lemma AmountInAfterOut(x: nat, rIn: nat, rOut: nat, fee: Fee)
    requires fee < BPS && V2AmountOut(x, rIn, rOut, fee) > 0
    ensures V2AmountIn(V2AmountOut(x, rIn, rOut, fee), rIn, rOut, fee) <= x + 1
  {
    var y := V2AmountOut(x, rIn, rOut, fee);
    V2OutAccepted(x, rIn, rOut, fee);
    AmountInIsTight(y, rIn, rOut, fee);
    assert Suffices(x, y, rIn, rOut, fee);
  }

  // ------------------------------------------------------------------
  // Aerodrome between two V2 quotes
  // ------------------------------------------------------------------

  lemma NetInBounds(amountIn: nat, fee: Fee)
    ensures WithFee(amountIn, fee) <= AeroNetIn(amountIn, fee) * BPS <= WithFee(amountIn, fee) + BPS - 1
  {
    var total := amountIn * fee;
    MulMono(fee, BPS, amountIn);
    QuotBounds(total, BPS);
    assert WithFee(amountIn, fee) == amountIn * BPS - total;
  }

  /** A quote depends on its input only through the fee-weighted amount. */
  lemma V2OutByWeight(x: nat, fee: Fee, x': nat, fee': Fee, rIn: nat, rOut: nat)
    requires WithFee(x, fee) <= WithFee(x', fee')
    ensures V2AmountOut(x, rIn, rOut, fee) <= V2AmountOut(x', rIn, rOut, fee')
  {
    if 0 < rIn && 0 < rOut {
      var w, w' := WithFee(x, fee), WithFee(x', fee');
      var y := V2AmountOut(x, rIn, rOut, fee);
      V2OutAccepted(x, rIn, rOut, fee);
      V2OutIsLargestAccepted(x', rIn, rOut, fee');
      MulMono(BPS * rIn + w, BPS * rIn + w', rOut - y);
      assert PairAccepts(w', rIn, rOut, y);
    }
  }

  /** Any top-up `k` worth 9999 fee-weighted units lifts the V2 quote over Aerodrome's. */
  lemma AeroBetweenV2Quotes(x: nat, k: nat, rIn: nat, rOut: nat, fee: Fee)
    requires WithFee(k, fee) >= BPS - 1
    ensures V2AmountOut(x, rIn, rOut, fee)
         <= AeroVolatileAmountOut(x, rIn, rOut, fee)
         <= V2AmountOut(x + k, rIn, rOut, fee)
  {
    AeroIsFreeV2OfNet(x, rIn, rOut, fee);
    NetInBounds(x, fee);
    V2OutByWeight(x, fee, AeroNetIn(x, fee), 0, rIn, rOut);
    assert WithFee(x + k, fee) == WithFee(x, fee) + WithFee(k, fee);
    V2OutByWeight(AeroNetIn(x, fee), 0, x + k, fee, rIn, rOut);
  }

  /** With at most half the input taken as fee, two units are enough. */
  lemma AeroWithinTwoUnits(x: nat, rIn: nat, rOut: nat, fee: Fee)
    requires fee <= 5_000
    ensures V2AmountOut(x, rIn, rOut, fee)
         <= AeroVolatileAmountOut(x, rIn, rOut, fee)
         <= V2AmountOut(x + 2, rIn, rOut, fee)
  {
    AeroBetweenV2Quotes(x, 2, rIn, rOut, fee);
  }
}
