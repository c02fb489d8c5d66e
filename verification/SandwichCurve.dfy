/** The curve the sandwich search climbs, floors included: where it dips, how deep, and what the
    search can miss on it. */
module SandwichCurve {
  import opened Arithmetic
  import opened Chain
  import opened NearOptimal
  import opened Pools
  import opened Quotes
  import opened Sandwich
  import opened SandwichOptimum
  import opened Search
  import opened Wrappers

  /** A pool of one coarse token, far above the liquidity every pair locks for ever. */
  const COARSE: Market := Market(160_000, 12, 30, 36_000, 0)

  /** The three quotes at a size, and the profit they leave. */
  ghost predicate Legs(x: nat, front: nat, victim: nat, back: nat)
  {
    && V2AmountOut(x, 160_000, 12, 30) == front
    && front < 12 && V2AmountOut(36_000, 160_000 + x, 12 - front, 30) == victim
    && victim < 12 - front && V2AmountOut(front, 12 - front - victim, 196_000 + x, 30) == back
  }

  lemma QuotedProfit(x: nat, front: nat, victim: nat, back: nat)
    requires Legs(x, front, victim, back)
    ensures ProfitOf(COARSE, x) == if x == 0 || front == 0 || victim == 0 then 0 else SaturatingSub(back, x)
  {
    hide V2AmountOut;
  }

  predicate Divides(n: nat, d: nat, q: nat)
  {
    q * d <= n < q * d + d
  }

  lemma LegsAre(x: nat, front: nat, victim: nat, back: nat)
    requires 0 < x && 0 < front && front + victim < 12
    requires Divides(x * 9_970 * 12, 1_600_000_000 + x * 9_970, front)
    requires Divides(358_920_000 * (12 - front), (160_000 + x) * 10_000 + 358_920_000, victim)
    requires Divides(front * 9_970 * (196_000 + x), (12 - front - victim) * 10_000 + front * 9_970, back)
    ensures Legs(x, front, victim, back)
  {
    hide V2AmountOut;
    QuoteIs(x, 160_000, 12, 30, front);
    QuoteIs(36_000, 160_000 + x, 12 - front, 30, victim);
    QuoteIs(front, 12 - front - victim, 196_000 + x, 30, back);
  }

  lemma ToothTop()
    ensures Legs(14_590, 1, 1, 19_092) && Legs(21_071, 1, 1, 19_679)
  {
    hide Legs;
    LegsAre(14_590, 1, 1, 19_092);
    LegsAre(21_071, 1, 1, 19_679);
  }

  lemma ToothEnd()
    ensures Legs(31_606, 1, 1, 20_635) && Legs(32_096, 1, 1, 20_679)
  {
    hide Legs;
    LegsAre(31_606, 1, 1, 20_635);
    LegsAre(32_096, 1, 1, 20_679);
  }

  lemma LaterTeeth()
    ensures Legs(32_097, 2, 1, 41_370) && Legs(35_555, 2, 1, 41_997) && Legs(47_408, 2, 1, 44_147)
    ensures Legs(71_112, 3, 1, 72_689)
  {
    hide Legs;
    LegsAre(32_097, 2, 1, 41_370);
    LegsAre(35_555, 2, 1, 41_997);
    LegsAre(47_408, 2, 1, 44_147);
    LegsAre(71_112, 3, 1, 72_689);
  }

  lemma Unserved()
    ensures ProfitOf(COARSE, 106_667) == 0
  {
    QuoteIs(106_667, 160_000, 12, 30, 4);
    QuoteIs(36_000, 266_667, 8, 30, 0);
    hide V2AmountOut;
  }

  lemma CoarseProfits()
    ensures ProfitOf(COARSE, 14_590) == 4_502 && ProfitOf(COARSE, 21_071) == 0 && ProfitOf(COARSE, 31_606) == 0
    ensures ProfitOf(COARSE, 32_096) == 0 && ProfitOf(COARSE, 32_097) == 9_273 && ProfitOf(COARSE, 35_555) == 6_442
    ensures ProfitOf(COARSE, 47_408) == 0 && ProfitOf(COARSE, 71_112) == 1_577 && ProfitOf(COARSE, 106_667) == 0
  {
    ToothTop();
    ToothEnd();
    LaterTeeth();
    Unserved();
    hide Legs, ProfitOf, V2AmountOut;
    QuotedProfit(14_590, 1, 1, 19_092);
    QuotedProfit(21_071, 1, 1, 19_679);
    QuotedProfit(31_606, 1, 1, 20_635);
    QuotedProfit(32_096, 1, 1, 20_679);
    QuotedProfit(32_097, 2, 1, 41_370);
    QuotedProfit(35_555, 2, 1, 41_997);
    QuotedProfit(47_408, 2, 1, 44_147);
    QuotedProfit(71_112, 3, 1, 72_689);
  }

  /** The floored profit is not unimodal: it falls to nothing and rises again with every further
      unit the front-run buys. */
  lemma ProfitIsNotUnimodal()
    ensures Dips(Profit(COARSE), 14_590, 32_096, 32_097) && !Unimodal(Profit(COARSE), Range(0, COARSE.rIn))
  {
    CoarseProfits();
    hide ProfitOf;
    assert Dips(Profit(COARSE), 14_590, 32_096, 32_097);
    UnimodalExactlyWhenNoDip(Profit(COARSE), Range(0, COARSE.rIn));
  }

  /** But among the sizes the search may use it dips by less than the slack. */
  lemma ProfitDipsAreShallow(m: Market, a: nat, b: nat, c: nat)
    requires a < b < c <= m.rIn
    ensures ProfitOf(m, a) as real < ProfitOf(m, b) as real + Slack(m)
         || ProfitOf(m, c) as real < ProfitOf(m, b) as real + Slack(m)
  {
    hide ProfitOf, IdealProfit, Slack, Good;
    if Good(m, 0) {
      var top := LastGood(m, c);
      assert Good(m, top);
      GoodIsConcave(m, top);
      ProfitRoundsDown(m, top, c);
      DipsAreShallow(Profit(m), IdealProfit(m), Slack(m), top, c, a, b, c);
    } else {
      NothingIsGood(m, a);
      OnlyGoodSizesEarn(m, a);
    }
  }

  /** On that pool the search, given its whole depth, finds nothing, though 32097 units earn 9273. */
  lemma SearchCanMissAProfit(x: nat, p: nat)
    requires Found(Profit(COARSE), 0, COARSE.rIn, x, p)
    ensures p == 0 && ProfitOf(COARSE, 32_097) == 9_273
  {
    CoarseProfits();
    var f := Profit(COARSE);
    NothingMeansNothing(14_048);
    hide ProfitOf, Profit;
    assert f(14_048) == 0 && f(21_071) == 0 && f(31_606) == 0 && f(47_408) == 0 && f(106_667) == 0;
    assert f(71_112) <= f(35_555);
    CoarseNarrows(f);
    NarrowTimesWithin(f, Range(0, 14_048), 250);
    hide NarrowTimes;
    NothingMeansNothing(x);
  }

  lemma CoarseNarrows(f: nat -> nat)
    requires f(14_048) == 0 && f(21_071) == 0 && f(31_606) == 0 && f(47_408) == 0 && f(106_667) == 0
    requires f(71_112) <= f(35_555)
    ensures NarrowTimes(f, Progress(Range(0, 160_000), 256)) == NarrowTimes(f, Progress(Range(0, 14_048), 250))
  {
    hide NarrowTimes;
    assert Range(0, 160_000).Probes().1 == 106_667 && Range(0, 106_667).Probes() == (35_555, 71_112);
    assert Range(0, 71_112).Probes().1 == 47_408 && Range(0, 47_408).Probes().1 == 31_606;
    assert Range(0, 31_606).Probes().1 == 21_071 && Range(0, 21_071).Probes().1 == 14_048;
    DropsTop(f, Range(0, 160_000), 256, 106_667);
    DropsTop(f, Range(0, 106_667), 255, 71_112);
    DropsTop(f, Range(0, 71_112), 254, 47_408);
    DropsTop(f, Range(0, 47_408), 253, 31_606);
    DropsTop(f, Range(0, 31_606), 252, 21_071);
    DropsTop(f, Range(0, 21_071), 251, 14_048);
  }

  lemma NothingMeansNothing(x: nat)
    requires x <= 14_048
    ensures Profit(COARSE)(x) == 0
  {
    QuoteIs(14_048, 160_000, 12, 30, 0);
    hide V2AmountOut;
    V2OutMonotone(x, 14_048, COARSE.rIn, COARSE.rIn, COARSE.rOut, COARSE.rOut, COARSE.fee);
  }

  /** On uint112 reserves a profit of 383 slacks anywhere in reach is enough for a sizing. */
  lemma BigSandwichesAreReported(m: Market, maxIn: nat, x: nat, p: nat, r: Option<SandwichSizing>, size: nat)
    requires m.rIn < TWO_112 && size <= maxIn && size <= m.rIn
    requires Found(Profit(m), 0, Min(maxIn, m.rIn), x, p)
    requires r == (if p == 0 || x == 0 then None else Some(Sizing(m, x, p)))
    ensures 383.0 * Slack(m) <= ProfitOf(m, size) as real ==> r == Some(Sizing(m, x, p))
  {
    Uint112SandwichIsNearOptimal(m, maxIn, x, p, r, size);
  }

  /** Three swaps that serve the victim and return `size + gain`, told through the pool alone, are
      what the searched profit says of that size. */
  lemma SwapsAreProfit(pool: Pool, tokenIn: Address, tokenOut: Address, victim: nat, minOut: nat, size: nat,
                       front: nat, served: nat, gain: nat) returns (m: Market)
    requires pool.V2Pool? && pool.Priceable() && Pairs(pool, tokenIn, tokenOut)
    requires 0 < Holding(pool, tokenIn) && 0 < Holding(pool, tokenOut)
    requires ThreeSwaps(pool, tokenIn, tokenOut, victim, size, front, served, size + gain)
    requires 0 < served && minOut <= served && 0 < gain
    ensures Setup(pool, tokenIn, victim, minOut) == Some(m)
    ensures m == Market(Holding(pool, tokenIn), Holding(pool, tokenOut), pool.feeBps, victim, minOut)
    ensures ProfitOf(m, size) == gain
  {
    var p1, p2, p3 :| SwapsTo(pool, tokenIn, size, p1, front) && SwapsTo(p1, tokenIn, victim, p2, served)
                   && SwapsTo(p2, tokenOut, front, p3, size + gain);
    PoolAnswers(pool, tokenIn, tokenOut, size);
    PoolAnswers(p1, tokenIn, tokenOut, victim);
    PoolAnswers(p2, tokenOut, tokenIn, front);
    SwapMovesReserves(pool, tokenIn, size);
    SwapMovesReserves(p1, tokenIn, victim);
    assert victim == 0 ==> served == 0;
    m := Market(Holding(pool, tokenIn), Holding(pool, tokenOut), pool.feeBps, victim, minOut);
    assert front == 0 ==> size + gain == 0;
    hide V2AmountOut;
    ProfitCases(m, size);
  }

  /** Every sandwich of the pool in reach that keeps the victim's limit gains less than what the
      sizer reports plus 383 roundings: told through three swaps, the caller's limit and cap. */
  lemma NoSandwichBeatsTheSizer(pool: Pool, tokenIn: Address, tokenOut: Address, victim: nat, minOut: nat, maxIn: nat,
                                r: Option<SandwichSizing>, size: nat, front: nat, served: nat, gain: nat)
    requires pool.V2Pool? && pool.Priceable() && Pairs(pool, tokenIn, tokenOut)
    requires 0 < Holding(pool, tokenIn) < TWO_112 && 0 < Holding(pool, tokenOut)
    requires Sized(pool, tokenIn, victim, minOut, maxIn, r)
    requires size <= maxIn && size <= Holding(pool, tokenIn)
    requires ThreeSwaps(pool, tokenIn, tokenOut, victim, size, front, served, size + gain)
    requires 0 < served && minOut <= served
    ensures var price := WorstPrice(Holding(pool, tokenIn) as real, Holding(pool, tokenOut) as real, victim as real);
      && gain as real < Gross(r) as real + 383.0 * (1.0 + price)
      && (383.0 * (1.0 + price) <= gain as real ==> r.Some?)
  {
    var rIn, rOut := Holding(pool, tokenIn), Holding(pool, tokenOut);
    var slack := 1.0 + WorstPrice(rIn as real, rOut as real, victim as real);
    if 0 < gain {
      var m := SwapsAreProfit(pool, tokenIn, tokenOut, victim, minOut, size, front, served, gain);
      var x: nat, p: nat :| Found(Profit(m), 0, Min(maxIn, m.rIn), x, p)
                         && r == (if p == 0 || x == 0 then None else Some(Sizing(m, x, p)));
      hide Found, ProfitOf, WorstPrice;
      Uint112SandwichIsNearOptimal(m, maxIn, x, p, r, size);
      assert Slack(m) == slack;
    }
    hide *;
  }
}
