/** The sandwich sizing of `dex.rs`: front-run, victim, back-run on one V2 pool. */
module Sandwich {
  import opened Arithmetic
  import opened Chain
  import opened Quotes
  import opened Pools
  import opened Search
  import opened Wrappers

  /** The funded reserves, the pool fee, the victim's input and its slippage limit. */
  datatype Market_ = Market(rIn: nat, rOut: nat, fee: nat, victim: nat, minOut: nat)
  type Market = m: Market_ | 0 < m.rIn && 0 < m.rOut && 0 < m.victim && m.fee <= BPS
    witness Market(1, 1, 0, 1, 0)

  datatype SandwichSizing =
    SandwichSizing(amountIn: nat, frontOut: nat, backOut: nat, grossProfit: nat, victimOut: nat)

  // ------------------------------------------------------------------
  // The three legs
  // ------------------------------------------------------------------

  function FrontOut(m: Market, x: nat): (out: nat)
    ensures out < m.rOut
  {
    V2OutAccepted(x, m.rIn, m.rOut, m.fee);
    V2AmountOut(x, m.rIn, m.rOut, m.fee)
  }

  function VictimOut(m: Market, x: nat): (out: nat)
    ensures out < m.rOut - FrontOut(m, x)
  {
    V2OutAccepted(m.victim, m.rIn + x, m.rOut - FrontOut(m, x), m.fee);
    V2AmountOut(m.victim, m.rIn + x, m.rOut - FrontOut(m, x), m.fee)
  }

  function BackOut(m: Market, x: nat): nat
  {
    V2AmountOut(FrontOut(m, x), m.rOut - FrontOut(m, x) - VictimOut(m, x), m.rIn + x + m.victim, m.fee)
  }

  /** The searched profit, with every early zero of the source. */
  function ProfitOf(m: Market, x: nat): nat
  {
    if x == 0 then 0
    else
      var out1 := V2AmountOut(x, m.rIn, m.rOut, m.fee);
      if out1 == 0 || out1 >= m.rOut then 0
      else
        var (rIn2, rOut2) := (m.rIn + x, m.rOut - out1);
        var victimOut := V2AmountOut(m.victim, rIn2, rOut2, m.fee);
        if victimOut == 0 || victimOut >= rOut2 then 0
        else if m.minOut != 0 && victimOut < m.minOut then 0
        else
          var (rIn3, rOut3) := (rIn2 + m.victim, rOut2 - victimOut);
          SaturatingSub(V2AmountOut(out1, rOut3, rIn3, m.fee), x)
  }

  function Profit(m: Market): nat -> nat
  {
    x => ProfitOf(m, x)
  }

  function Sizing(m: Market, x: nat, p: nat): SandwichSizing
  {
    SandwichSizing(x, FrontOut(m, x), BackOut(m, x), p, VictimOut(m, x))
  }

  function Setup(pool: Pool, tokenIn: Address, victim: nat, minOut: nat): Option<Market>
    requires pool.V2Pool? && pool.Priceable()
  {
    match pool.ReservesFor(tokenIn)
    case None => None
    case Some(r) =>
      if r.0 == 0 || r.1 == 0 || victim == 0 then None
      else Some(Market(r.0, r.1, pool.feeBps, victim, minOut))
  }

  /** `r` is what the search finds for the profit it climbs. */
  ghost predicate Sized(pool: Pool, tokenIn: Address, victim: nat, minOut: nat, maxIn: nat, r: Option<SandwichSizing>)
    requires pool.V2Pool? && pool.Priceable()
  {
    match Setup(pool, tokenIn, victim, minOut)
    case None => r == None
    case Some(m) =>
      exists x: nat, p: nat :: Found(Profit(m), 0, Min(maxIn, m.rIn), x, p)
                            && r == (if p == 0 || x == 0 then None else Some(Sizing(m, x, p)))
  }

  /** Front-run, victim and back-run as three swaps through the pool itself. */
  ghost predicate ThreeSwaps(pool: Pool, tokenIn: Address, tokenOut: Address, victim: nat,
                             amountIn: nat, frontOut: nat, victimOut: nat, backOut: nat)
  {
    exists p1, p2, p3 ::
      && SwapsTo(pool, tokenIn, amountIn, p1, frontOut)
      && SwapsTo(p1, tokenIn, victim, p2, victimOut)
      && SwapsTo(p2, tokenOut, frontOut, p3, backOut)
  }

  /** What a sizing is good for: within the caller's cap, at the victim's limit or better, and with
      the gain it names, when the three swaps are made. */
  ghost predicate Delivers(pool: Pool, tokenIn: Address, victim: nat, minOut: nat, maxIn: nat, s: SandwichSizing)
  {
    && 0 < s.amountIn <= maxIn && 0 < s.grossProfit && s.backOut == s.amountIn + s.grossProfit
    && 0 < s.victimOut && (minOut != 0 ==> minOut <= s.victimOut)
    && (tokenIn == pool.token0 || tokenIn == pool.token1)
    && (forall tokenOut: Address :: Pairs(pool, tokenIn, tokenOut) ==>
          ThreeSwaps(pool, tokenIn, tokenOut, victim, s.amountIn, s.frontOut, s.victimOut, s.backOut))
  }

  method OptimalSandwichIn(pool: Pool, tokenIn: Address, victimAmountIn: nat, victimMinOut: nat, maxIn: nat)
    returns (r: Option<SandwichSizing>)
    requires pool.V2Pool? && pool.Priceable()
    ensures Sized(pool, tokenIn, victimAmountIn, victimMinOut, maxIn, r)
    ensures r.Some? ==> Delivers(pool, tokenIn, victimAmountIn, victimMinOut, maxIn, r.value)
  {
    hide Quot, WithFee, ProfitOf, Found, Delivers;
    r := None;
    match Setup(pool, tokenIn, victimAmountIn, victimMinOut) {
      case None =>
      case Some(m) =>
        var bestX, bestProfit := TernarySearchMax(0, Min(maxIn, m.rIn), Profit(m));
        if bestProfit != 0 && bestX != 0 {
          var frontOut := V2AmountOut(bestX, m.rIn, m.rOut, m.fee);
          assert frontOut == FrontOut(m, bestX);
          var rIn2, rOut2 := m.rIn + bestX, m.rOut - frontOut;
          var victimOut := V2AmountOut(m.victim, rIn2, rOut2, m.fee);
          assert victimOut == VictimOut(m, bestX);
          var rIn3, rOut3 := rIn2 + m.victim, rOut2 - victimOut;
          var backOut := V2AmountOut(frontOut, rOut3, rIn3, m.fee);
          r := Some(SandwichSizing(bestX, frontOut, backOut, bestProfit, victimOut));
          SizingDelivers(pool, tokenIn, victimAmountIn, victimMinOut, maxIn, bestX, bestProfit);
        }
    }
  }

  // ------------------------------------------------------------------
  // The victim
  // ------------------------------------------------------------------

  /** A larger front-run, through its floored output, never leaves the victim more. */
  lemma VictimOutFalls(m: Market, x: nat, x': nat)
    requires x <= x'
    ensures VictimOut(m, x') <= VictimOut(m, x)
  {
    V2OutMonotone(x, x', m.rIn, m.rIn, m.rOut, m.rOut, m.fee);
    V2OutMonotone(m.victim, m.victim, m.rIn + x', m.rIn + x,
                  m.rOut - FrontOut(m, x'), m.rOut - FrontOut(m, x), m.fee);
  }

  /** The victim's transaction goes through and respects its limit. */
  predicate VictimServed(m: Market, x: nat)
  {
    0 < VictimOut(m, x) && (m.minOut == 0 || m.minOut <= VictimOut(m, x))
  }

  /** The feasible front-run sizes are downward closed, and no sandwiched victim gets more than
      an undisturbed one. */
  lemma FeasibleSizesAreDownwardClosed(m: Market, x: nat, x': nat)
    requires x <= x'
    ensures VictimServed(m, x') ==> VictimServed(m, x)
    ensures VictimOut(m, x') <= V2AmountOut(m.victim, m.rIn, m.rOut, m.fee)
  {
    hide V2AmountOut;
    VictimOutFalls(m, x, x');
    VictimOutFalls(m, 0, x');
    assert FrontOut(m, 0) == 0 by { FrontOfNothing(m); }
  }

  lemma FrontOfNothing(m: Market)
    ensures FrontOut(m, 0) == 0
  {
  }

  /** A size is profitable exactly when the victim is served and the back-run returns more
      than was put in; the profit is the difference. */
  lemma ProfitCases(m: Market, x: nat)
    ensures 0 < ProfitOf(m, x) <==> 0 < FrontOut(m, x) && VictimServed(m, x) && x < BackOut(m, x)
    ensures 0 < ProfitOf(m, x) ==> BackOut(m, x) == x + ProfitOf(m, x)
  {
    FrontOfNothing(m);
    hide V2AmountOut;
    assert FrontOut(m, x) == V2AmountOut(x, m.rIn, m.rOut, m.fee);
    assert VictimOut(m, x) == V2AmountOut(m.victim, m.rIn + x, m.rOut - FrontOut(m, x), m.fee);
  }

  // ------------------------------------------------------------------
  // Conservation
  // ------------------------------------------------------------------

  /** After the three legs the pool holds the victim's input less the profit on the in-side and
      has paid only the victim on the out-side; the product has not fallen. */
  lemma LegsKeepProduct(m: Market, x: nat)
    ensures var p := ProfitOf(m, x);
      0 < p ==> p < m.victim && m.rIn * m.rOut <= (m.rIn + m.victim - p) * (m.rOut - VictimOut(m, x))
  {
    hide V2AmountOut;
    ProfitCases(m, x);
    if 0 < ProfitOf(m, x) {
      ProfitableLegsKeepProduct(m, x);
    }
  }

  lemma ProfitableLegsKeepProduct(m: Market, x: nat)
    requires x < BackOut(m, x) && ProfitOf(m, x) == BackOut(m, x) - x
    ensures var p := ProfitOf(m, x);
      p < m.victim && m.rIn * m.rOut <= (m.rIn + m.victim - p) * (m.rOut - VictimOut(m, x))
  {
    hide V2AmountOut;
    var p, front, victim, back := ProfitOf(m, x), FrontOut(m, x), VictimOut(m, x), BackOut(m, x);
    V2ProductKept(x, m.rIn, m.rOut, m.fee);
    V2ProductKept(m.victim, m.rIn + x, m.rOut - front, m.fee);
    V2ProductKept(front, m.rOut - front - victim, m.rIn + x + m.victim, m.fee);
    var rIn', rOut' := m.rIn + m.victim + x - back, m.rOut - victim;
    assert (m.rOut - front - victim) * (m.rIn + x + m.victim)
        == (m.rIn + x + m.victim) * (m.rOut - front - victim);
    assert rOut' * rIn' == rIn' * rOut';
    assert m.rIn * m.rOut <= rIn' * rOut';
    ProductsOrder(m.rIn, m.rOut, rIn', rOut');
  }

  /** Everything a returned sizing promises. */
  ghost predicate Sound(m: Market, maxIn: nat, s: SandwichSizing)
  {
    && 0 < s.amountIn <= Min(maxIn, m.rIn)
    && s.backOut == s.amountIn + s.grossProfit
    && 0 < s.grossProfit < m.victim
    && 0 < s.victimOut <= V2AmountOut(m.victim, m.rIn, m.rOut, m.fee)
    && (m.minOut != 0 ==> m.minOut <= s.victimOut)
    && s.frontOut + s.victimOut < m.rOut
    && m.rIn * m.rOut <= (m.rIn + m.victim - s.grossProfit) * (m.rOut - s.victimOut)
  }

  lemma SizingIsSound(m: Market, maxIn: nat, x: nat, p: nat)
    ensures Found(Profit(m), 0, Min(maxIn, m.rIn), x, p) && p != 0 && x != 0 ==> Sound(m, maxIn, Sizing(m, x, p))
  {
    hide V2AmountOut, ProfitOf;
    if Found(Profit(m), 0, Min(maxIn, m.rIn), x, p) && p != 0 && x != 0 {
      assert p == ProfitOf(m, x);
      NarrowTimesWithin(Profit(m), Range(0, Min(maxIn, m.rIn)), SEARCH_GUARD);
      ProfitCases(m, x);
      LegsKeepProduct(m, x);
      FeasibleSizesAreDownwardClosed(m, 0, x);
    }
  }

  /** The sizing is what three swaps through the pool really do. */
  lemma SizingIsThreeSwaps(pool: Pool, tokenIn: Address, victim: nat, minOut: nat, maxIn: nat, x: nat, p: nat)
    requires pool.V2Pool? && pool.Priceable() && pool.token0 != pool.token1
    requires Setup(pool, tokenIn, victim, minOut).Some?
    requires var m := Setup(pool, tokenIn, victim, minOut).value;
      Found(Profit(m), 0, Min(maxIn, m.rIn), x, p) && p != 0 && x != 0
    ensures var m := Setup(pool, tokenIn, victim, minOut).value;
      var s := Sizing(m, x, p);
      var tokenOut := pool.OtherToken(tokenIn).value;
      && pool.WithSwap(tokenIn, x).Some? && pool.WithSwap(tokenIn, x).value.1 == s.frontOut
      && (var after1 := pool.WithSwap(tokenIn, x).value.0;
          after1.Priceable()
          && after1.WithSwap(tokenIn, victim).Some? && after1.WithSwap(tokenIn, victim).value.1 == s.victimOut
          && (var after2 := after1.WithSwap(tokenIn, victim).value.0;
              after2.Priceable()
              && after2.WithSwap(tokenOut, s.frontOut).Some?
              && after2.WithSwap(tokenOut, s.frontOut).value.1 == s.backOut
              && after2.WithSwap(tokenOut, s.frontOut).value.0.ReservesFor(tokenIn)
                 == Some((m.rIn + victim - s.grossProfit, m.rOut - s.victimOut))))
  {
    hide V2AmountOut, ProfitOf, Found;
    var m := Setup(pool, tokenIn, victim, minOut).value;
    SizingIsSound(m, maxIn, x, p);
    SwapMovesReserves(pool, tokenIn, x);
    var after1 := pool.WithSwap(tokenIn, x).value.0;
    SwapMovesReserves(after1, tokenIn, victim);
    var after2 := after1.WithSwap(tokenIn, victim).value.0;
    SwapMovesReserves(after2, pool.OtherToken(tokenIn).value, FrontOut(m, x));
  }

  /** Any sizing the search finds delivers, on the pool and under the limit the caller named. */
  lemma SizingDelivers(pool: Pool, tokenIn: Address, victim: nat, minOut: nat, maxIn: nat, x: nat, p: nat)
    requires pool.V2Pool? && pool.Priceable() && Setup(pool, tokenIn, victim, minOut).Some?
    requires var m := Setup(pool, tokenIn, victim, minOut).value;
      Found(Profit(m), 0, Min(maxIn, m.rIn), x, p) && p != 0 && x != 0
    ensures Delivers(pool, tokenIn, victim, minOut, maxIn,
                     Sizing(Setup(pool, tokenIn, victim, minOut).value, x, p))
  {
    hide V2AmountOut, ProfitOf, Found;
    var m := Setup(pool, tokenIn, victim, minOut).value;
    var s := Sizing(m, x, p);
    SizingIsSound(m, maxIn, x, p);
    forall tokenOut: Address | Pairs(pool, tokenIn, tokenOut)
      ensures ThreeSwaps(pool, tokenIn, tokenOut, victim, s.amountIn, s.frontOut, s.victimOut, s.backOut)
    {
      SizingIsThreeSwaps(pool, tokenIn, victim, minOut, maxIn, x, p);
      var after1 := pool.WithSwap(tokenIn, x).value.0;
      var after2 := after1.WithSwap(tokenIn, victim).value.0;
      assert pool.OtherToken(tokenIn) == Some(tokenOut);
      var after3 := after2.WithSwap(tokenOut, s.frontOut).value.0;
      assert SwapsTo(pool, tokenIn, x, after1, s.frontOut);
      assert SwapsTo(after1, tokenIn, victim, after2, s.victimOut);
      assert SwapsTo(after2, tokenOut, s.frontOut, after3, s.backOut);
    }
  }
}
