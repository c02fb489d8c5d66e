/** The same quotes and searched profits on wrapping 256-bit words, as the source computes them,
    and the ranges in which no wrap-around can happen. */
module Words {
  import opened Arithmetic
  import opened Chain
  import opened Quotes
  import opened Search
  import Sandwich
  import TwoLeg

  const TWO_256: nat := U256_MAX + 1
  const TWO_14: nat := 0x4000
  const TWO_114: nat := 4 * TWO_112
  const TWO_128: nat := 0x1_0000_0000_0000_0000_0000_0000_0000_0000

  function Wrap(n: int): (w: nat)
    ensures w < TWO_256
    ensures 0 <= n < TWO_256 ==> w == n
  {
    if 0 <= n < TWO_256 then n else n % TWO_256
  }

  /** A word is what is left of a number modulo 2^256. */
  lemma WrapIsModular(n: int)
    ensures exists k: int :: n == Wrap(n) + k * TWO_256
    ensures TWO_256 == TWO_128 * TWO_128
  {
    assert n == Wrap(n) + (n / TWO_256) * TWO_256;
  }

  function Add(a: nat, b: nat): nat { Wrap(a + b) }

  function Sub(a: nat, b: nat): nat { Wrap(a - b) }

  function Mul(a: nat, b: nat): nat { Wrap(a * b) }

  function V2AmountOutWord(amountIn: nat, reserveIn: nat, reserveOut: nat, fee: Fee): nat
  {
    if amountIn == 0 || reserveIn == 0 || reserveOut == 0 then 0
    else
      var withFee := Mul(amountIn, BPS - fee);
      var denominator := Add(Mul(reserveIn, BPS), withFee);
      if denominator == 0 then 0 else Quot(Mul(withFee, reserveOut), denominator)
  }

  function V2AmountInWord(amountOut: nat, reserveIn: nat, reserveOut: nat, fee: Fee): nat
  {
    if amountOut == 0 || amountOut >= reserveOut then U256_MAX
    else
      var denominator := Mul(Sub(reserveOut, amountOut), BPS - fee);
      if denominator == 0 then U256_MAX else Add(Quot(Mul(Mul(reserveIn, amountOut), BPS), denominator), 1)
  }

  function AeroVolatileAmountOutWord(amountIn: nat, reserveIn: nat, reserveOut: nat, fee: nat): nat
  {
    if amountIn == 0 || reserveIn == 0 || reserveOut == 0 then 0
    else
      var net := SaturatingSub(amountIn, Quot(Mul(amountIn, fee), BPS));
      if net == 0 then 0
      else
        var denominator := Add(reserveIn, net);
        if denominator == 0 then 0 else Quot(Mul(net, reserveOut), denominator)
  }

  lemma ProductFits(a: nat, b: nat, m: nat, n: nat)
    requires a < m && b <= n && 0 < n
    ensures a * b < m * n
  {
    MulMono2(a, m - 1, b, n);
    assert (m - 1) * n == m * n - n;
  }

  /** Below 2^114 no step of the quote wraps. */
  lemma V2QuoteDoesNotWrap(amountIn: nat, reserveIn: nat, reserveOut: nat, fee: Fee)
    requires amountIn < TWO_114 && reserveIn < TWO_114 && reserveOut < TWO_114
    ensures V2AmountOutWord(amountIn, reserveIn, reserveOut, fee) == V2AmountOut(amountIn, reserveIn, reserveOut, fee)
  {
    hide Quot, Wrap;
    var w := WithFee(amountIn, fee);
    ProductFits(amountIn, BPS - fee, TWO_114, TWO_14);
    ProductFits(reserveIn, BPS, TWO_114, TWO_14);
    ProductFits(w, reserveOut, TWO_128, TWO_114);
  }

  /** Nor does any step of the exact-out quote, for whatever amount is asked. */
  lemma V2AmountInDoesNotWrap(amountOut: nat, reserveIn: nat, reserveOut: nat, fee: Fee)
    requires reserveIn < TWO_114 && reserveOut < TWO_114
    ensures V2AmountInWord(amountOut, reserveIn, reserveOut, fee) == V2AmountIn(amountOut, reserveIn, reserveOut, fee)
  {
    hide Quot, Wrap;
    if 0 < amountOut < reserveOut {
      var product := reserveIn * amountOut;
      ProductFits(reserveIn, amountOut, TWO_114, TWO_114);
      ProductFits(product, BPS, TWO_114 * TWO_114, TWO_14);
      ProductFits(reserveOut - amountOut, BPS - fee, TWO_114, TWO_14);
      var d := WithFee(reserveOut - amountOut, fee);
      if 0 < d {
        QuotAtMost(product * BPS, d);
      }
    }
  }

  lemma QuotAtMost(n: nat, d: nat)
    requires 0 < d
    ensures Quot(n, d) <= n
  {
    QuotBounds(n, d);
    MulMono(1, d, Quot(n, d));
  }

  lemma AeroQuoteDoesNotWrap(amountIn: nat, reserveIn: nat, reserveOut: nat, fee: nat)
    requires amountIn < TWO_114 && reserveIn < TWO_114 && reserveOut < TWO_114 && fee < TWO_128
    ensures AeroVolatileAmountOutWord(amountIn, reserveIn, reserveOut, fee)
         == AeroVolatileAmountOut(amountIn, reserveIn, reserveOut, fee)
  {
    hide Quot, Wrap;
    var net := AeroNetIn(amountIn, fee);
    assert amountIn * fee < TWO_256 by { ProductFits(amountIn, fee, TWO_114, TWO_128); }
    assert net * reserveOut < TWO_256 by { ProductFits(net, reserveOut, TWO_128, TWO_114); }
    assert Mul(amountIn, fee) == amountIn * fee && Mul(net, reserveOut) == net * reserveOut;
    assert Add(reserveIn, net) == reserveIn + net;
    hide Mul, Add;
  }

  // ------------------------------------------------------------------
  // The search loop
  // ------------------------------------------------------------------

  /** The probes of a range that leaves room above it. */
  lemma ProbesDoNotWrap(r: Range)
    requires r.Wide() && r.hi + 2 < TWO_256
    ensures var span := Sub(r.hi, r.lo);
      r.Probes() == (Add(r.lo, span / 3), Sub(r.hi, span / 3)) && Add(r.Probes().0, 1) == r.Probes().0 + 1
  {
    hide Wrap;
  }

  lemma OneMoreNarrowing(f: nat -> nat, r: Range, left: nat)
    requires r.Wide() && 0 < left
    ensures NarrowTimes(f, Progress(r, left)) == NarrowTimes(f, Progress(Narrow(f, r), left - 1))
  {
  }

  lemma NoMoreNarrowing(f: nat -> nat, r: Range, left: nat)
    requires !r.Wide() || left == 0
    ensures NarrowTimes(f, Progress(r, left)) == r
  {
  }

  lemma FoundMeans(f: nat -> nat, lo: nat, hi: nat, best: nat, bestValue: nat)
    requires bestValue == f(best)
    requires if lo <= hi then FirstMaximum(f, NarrowTimes(f, Progress(Range(lo, hi), SEARCH_GUARD)), best)
             else best == lo
    ensures Found(f, lo, hi, best, bestValue)
  {
  }

  /** The search with every addition and subtraction on words. It answers what the search on
      unbounded integers answers, for all but the last two words as bounds. */
  method TernarySearchMaxWord(lo0: nat, hi0: nat, f: nat -> nat) returns (best: nat, bestValue: nat)
    requires lo0 + 2 < TWO_256 && hi0 + 2 < TWO_256
    ensures Found(f, lo0, hi0, best, bestValue)
  {
    hide Wrap, Sub, Range.Probes, FirstMaximum, NarrowTimes, Found;
    var lo, hi := lo0, hi0;
    var guard := 0;
    ghost var kept := NarrowTimes(f, Progress(Range(lo, hi), SEARCH_GUARD));
    while hi > Add(lo, 2) && guard < SEARCH_GUARD
      invariant guard <= SEARCH_GUARD
      invariant if lo0 <= hi0 then lo0 <= lo <= hi <= hi0 else lo == lo0 && hi == hi0
      invariant NarrowTimes(f, Progress(Range(lo, hi), SEARCH_GUARD - guard)) == kept
    {
      ghost var before := Range(lo, hi);
      guard := guard + 1;
      var span := Sub(hi, lo);
      var m1 := Add(lo, span / 3);
      var m2 := Sub(hi, span / 3);
      ProbesDoNotWrap(before);
      if f(m1) < f(m2) {
        lo := Add(m1, 1);
      } else {
        hi := m2;
      }
      assert Range(lo, hi) == Narrow(f, before);
      OneMoreNarrowing(f, before, SEARCH_GUARD - guard + 1);
    }
    NoMoreNarrowing(f, Range(lo, hi), SEARCH_GUARD - guard);
    best, bestValue := ScanMaxWord(lo, hi, f);
    FoundMeans(f, lo0, hi0, best, bestValue);
  }

  method ScanMaxWord(lo: nat, hi: nat, f: nat -> nat) returns (best: nat, bestValue: nat)
    requires lo + 2 < TWO_256 && hi + 2 < TWO_256
    ensures bestValue == f(best)
    ensures if lo <= hi then FirstMaximum(f, Range(lo, hi), best) else best == lo
  {
    hide Wrap;
    best, bestValue := lo, f(lo);
    var x := lo;
    while x <= hi
      invariant lo <= x && bestValue == f(best)
      invariant if lo <= hi then lo <= best <= hi && x <= hi + 1 else x == best == lo
      invariant forall y: nat :: lo <= y < x ==> f(y) <= bestValue
      invariant forall y: nat :: lo <= y < best ==> f(y) < bestValue
      decreases hi + 1 - x
    {
      var v := f(x);
      if v > bestValue {
        bestValue := v;
        best := x;
      }
      x := Add(x, 1);
    }
  }

  // ------------------------------------------------------------------
  // The searched profits
  // ------------------------------------------------------------------

  function SandwichProfitWord(m: Sandwich.Market, x: nat): nat
  {
    if x == 0 then 0
    else
      var out1 := V2AmountOutWord(x, m.rIn, m.rOut, m.fee);
      if out1 == 0 || out1 >= m.rOut then 0
      else
        var (rIn2, rOut2) := (Add(m.rIn, x), Sub(m.rOut, out1));
        var victimOut := V2AmountOutWord(m.victim, rIn2, rOut2, m.fee);
        if victimOut == 0 || victimOut >= rOut2 then 0
        else if m.minOut != 0 && victimOut < m.minOut then 0
        else
          var (rIn3, rOut3) := (Add(rIn2, m.victim), Sub(rOut2, victimOut));
          SaturatingSub(V2AmountOutWord(out1, rOut3, rIn3, m.fee), x)
  }

  predicate SmallMarket(m: Sandwich.Market)
  {
    m.rIn < TWO_112 && m.rOut < TWO_112 && m.victim < TWO_112
  }

  lemma SandwichProbeDoesNotWrap(m: Sandwich.Market, x: nat)
    requires SmallMarket(m) && x <= m.rIn
    ensures SandwichProfitWord(m, x) == Sandwich.ProfitOf(m, x)
  {
    hide V2AmountOut, V2AmountOutWord;
    V2QuoteDoesNotWrap(x, m.rIn, m.rOut, m.fee);
    var out1 := V2AmountOut(x, m.rIn, m.rOut, m.fee);
    if out1 < m.rOut {
      V2QuoteDoesNotWrap(m.victim, m.rIn + x, m.rOut - out1, m.fee);
      var victimOut := V2AmountOut(m.victim, m.rIn + x, m.rOut - out1, m.fee);
      if victimOut < m.rOut - out1 {
        V2QuoteDoesNotWrap(out1, m.rOut - out1 - victimOut, m.rIn + x + m.victim, m.fee);
      }
    }
  }

  /** The legs the source recomputes at the size it settled on. */
  function SandwichLegsWord(m: Sandwich.Market, x: nat): (nat, nat, nat)
  {
    var front := V2AmountOutWord(x, m.rIn, m.rOut, m.fee);
    var (rIn2, rOut2) := (Add(m.rIn, x), Sub(m.rOut, front));
    var victim := V2AmountOutWord(m.victim, rIn2, rOut2, m.fee);
    (front, victim, V2AmountOutWord(front, Sub(rOut2, victim), Add(rIn2, m.victim), m.fee))
  }

  lemma SandwichLegsDoNotWrap(m: Sandwich.Market, x: nat)
    requires SmallMarket(m) && x <= m.rIn
    ensures SandwichLegsWord(m, x) == (Sandwich.FrontOut(m, x), Sandwich.VictimOut(m, x), Sandwich.BackOut(m, x))
  {
    hide V2AmountOut, V2AmountOutWord;
    V2QuoteDoesNotWrap(x, m.rIn, m.rOut, m.fee);
    var front, victim := Sandwich.FrontOut(m, x), Sandwich.VictimOut(m, x);
    V2QuoteDoesNotWrap(m.victim, m.rIn + x, m.rOut - front, m.fee);
    V2QuoteDoesNotWrap(front, m.rOut - front - victim, m.rIn + x + m.victim, m.fee);
  }

  /** The whole sandwich search on words returns what the search on integers returns, and so do
      the three legs recomputed at its answer. */
  lemma SandwichSearchDoesNotWrap(m: Sandwich.Market, maxIn: nat, x: nat, p: nat, x': nat, p': nat)
    requires SmallMarket(m)
    requires Found(z => SandwichProfitWord(m, z), 0, Min(maxIn, m.rIn), x, p)
    requires Found(Sandwich.Profit(m), 0, Min(maxIn, m.rIn), x', p')
    ensures x == x' && p == p'
    ensures SandwichLegsWord(m, x) == (Sandwich.FrontOut(m, x), Sandwich.VictimOut(m, x), Sandwich.BackOut(m, x))
  {
    hide V2AmountOut, V2AmountOutWord, SandwichLegsWord, SandwichProfitWord, Sandwich.ProfitOf;
    var hi := Min(maxIn, m.rIn);
    forall z: nat | Range(0, hi).Contains(z)
      ensures SandwichProfitWord(m, z) == Sandwich.Profit(m)(z)
    {
      SandwichProbeDoesNotWrap(m, z);
    }
    SearchIsDetermined(z => SandwichProfitWord(m, z), Sandwich.Profit(m), 0, hi, x, p, x', p');
    NarrowTimesWithin(Sandwich.Profit(m), Range(0, hi), SEARCH_GUARD);
    SandwichLegsDoNotWrap(m, x);
  }

  function TwoLegProfitWord(l: TwoLeg.Legs, x: nat): nat
  {
    var mid := V2AmountOutWord(x, l.aIn, l.aOut, l.aFee);
    if mid == 0 then 0 else SaturatingSub(V2AmountOutWord(mid, l.bIn, l.bOut, l.bFee), x)
  }

  lemma TwoLegSearchDoesNotWrap(l: TwoLeg.Legs, maxIn: nat, x: nat, p: nat, x': nat, p': nat)
    requires l.aIn < TWO_112 && l.aOut < TWO_112 && l.bIn < TWO_112 && l.bOut < TWO_112
    requires Found(z => TwoLegProfitWord(l, z), 0, Min(maxIn, l.aIn), x, p)
    requires Found(TwoLeg.Profit(l), 0, Min(maxIn, l.aIn), x', p')
    ensures x == x' && p == p'
  {
    hide V2AmountOut, V2AmountOutWord;
    var hi := Min(maxIn, l.aIn);
    forall z: nat | Range(0, hi).Contains(z)
      ensures TwoLegProfitWord(l, z) == TwoLeg.Profit(l)(z)
    {
      V2QuoteDoesNotWrap(z, l.aIn, l.aOut, l.aFee);
      OutputsFit(z, l.aIn, l.aOut, l.aFee);
      V2QuoteDoesNotWrap(TwoLeg.Middle(l, z), l.bIn, l.bOut, l.bFee);
    }
    SearchIsDetermined(z => TwoLegProfitWord(l, z), TwoLeg.Profit(l), 0, hi, x, p, x', p');
  }
}
