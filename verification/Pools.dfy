/** Constant-product pools and what any sequence of swaps does to them. */
module Pools {
  import opened Arithmetic
  import opened Chain
  import opened Quotes
  import opened Wrappers

  datatype Venue = UniV2 | SushiV2 | UniV3 | AeroVolatile

  /** `V2Pool` and `AeroPool`; the two structs share their token and reserve fields. */
  datatype Pool =
    | V2Pool(address: Address, token0: Address, token1: Address, reserve0: nat, reserve1: nat,
             feeBps: nat, venue: Venue, block: nat)
    | AeroPool(address: Address, token0: Address, token1: Address, reserve0: nat, reserve1: nat,
               feeBps: nat, stable: bool, block: nat)
  {
    /** A V2 pool whose fee exceeds 10000 bps makes the source's u32 subtraction panic. */
    predicate Priceable()
    {
      V2Pool? ==> feeBps <= BPS
    }

    predicate Funded()
    {
      0 < reserve0 && 0 < reserve1
    }

    function ReservesFor(tokenIn: Address): Option<(nat, nat)>
    {
      if tokenIn == token0 then Some((reserve0, reserve1))
      else if tokenIn == token1 then Some((reserve1, reserve0))
      else None
    }

    function OtherToken(token: Address): Option<Address>
    {
      if token == token0 then Some(token1)
      else if token == token1 then Some(token0)
      else None
    }

    function AmountOut(tokenIn: Address, amountIn: nat): Option<nat>
      requires Priceable()
    {
      match this
      case V2Pool(_, _, _, _, _, _, _, _) =>
        (match ReservesFor(tokenIn)
         case None => None
         case Some(r) => Some(V2AmountOut(amountIn, r.0, r.1, feeBps)))
      case AeroPool(_, _, _, _, _, _, _, _) =>
        if stable then None
        else
          match ReservesFor(tokenIn)
          case None => None
          case Some(r) =>
            var out := AeroVolatileAmountOut(amountIn, r.0, r.1, feeBps);
            if out == 0 then None else Some(out)
    }

    function WithSwap(tokenIn: Address, amountIn: nat): Option<(Pool, nat)>
      requires Priceable()
    {
      match AmountOut(tokenIn, amountIn)
      case None => None
      case Some(out) =>
        if tokenIn == token0 then
          Some((this.(reserve0 := reserve0 + amountIn, reserve1 := SaturatingSub(reserve1, out)), out))
        else
          Some((this.(reserve1 := reserve1 + amountIn, reserve0 := SaturatingSub(reserve0, out)), out))
    }
  }

  /** The reserve product of `q` is at least that of `p`. */
  ghost predicate ProductKept(p: Pool, q: Pool)
  {
    p.reserve0 * p.reserve1 <= q.reserve0 * q.reserve1
  }

  // ------------------------------------------------------------------
  // One swap
  // ------------------------------------------------------------------

  /** A swap moves exactly the input in and the quote out, and never shrinks the product. */
  lemma SwapMovesReserves(p: Pool, tokenIn: Address, amountIn: nat)
    requires p.Priceable() && p.WithSwap(tokenIn, amountIn).Some?
    ensures var (q, out) := p.WithSwap(tokenIn, amountIn).value;
      && q.Priceable()
      && p.ReservesFor(tokenIn).Some? && q.ReservesFor(tokenIn).Some?
      && (var (rIn, rOut) := p.ReservesFor(tokenIn).value;
          && out <= rOut
          && q.ReservesFor(tokenIn).value == (rIn + amountIn, rOut - out)
          && rIn * rOut <= (rIn + amountIn) * (rOut - out))
      && q == p.(reserve0 := q.reserve0, reserve1 := q.reserve1)
  {
    var (rIn, rOut) := p.ReservesFor(tokenIn).value;
    if p.V2Pool? {
      V2ProductKept(amountIn, rIn, rOut, p.feeBps);
    } else {
      AeroProductKept(amountIn, rIn, rOut, p.feeBps);
    }
  }

  /** The pool takes `amountIn` of `tokenIn`, pays `out`, and is `q` afterwards. */
  ghost predicate SwapsTo(p: Pool, tokenIn: Address, amountIn: nat, q: Pool, out: nat)
  {
    p.Priceable() && p.WithSwap(tokenIn, amountIn) == Some((q, out))
  }

  /** The pool holds exactly these two tokens, `x` and another `y`. */
  predicate Pairs(p: Pool, x: Address, y: Address)
  {
    x != y && ((p.token0 == x && p.token1 == y) || (p.token0 == y && p.token1 == x))
  }

  /** How much of one of its two tokens the pool holds. */
  function Holding(p: Pool, token: Address): nat
  {
    if p.token0 == token then p.reserve0 else p.reserve1
  }

  /** A V2 pool answers for its own two tokens and no other, with the largest output the pair check
      accepts; an Aerodrome pool answers only when it is volatile and has something to pay. */
  lemma PoolAnswers(p: Pool, x: Address, y: Address, amountIn: nat)
    requires p.Priceable() && Pairs(p, x, y)
    ensures p.V2Pool? ==>
              p.WithSwap(x, amountIn).Some?
              && p.WithSwap(x, amountIn).value.1 == V2AmountOut(amountIn, Holding(p, x), Holding(p, y), p.feeBps)
    ensures p.AeroPool? ==>
              var out := AeroVolatileAmountOut(amountIn, Holding(p, x), Holding(p, y), p.feeBps);
              && (p.WithSwap(x, amountIn).Some? <==> !p.stable && 0 < out)
              && (p.WithSwap(x, amountIn).Some? ==> p.WithSwap(x, amountIn).value.1 == out)
    ensures p.WithSwap(x, amountIn).Some? ==>
              var (q, out) := p.WithSwap(x, amountIn).value;
              && Pairs(q, x, y) && Holding(q, x) == Holding(p, x) + amountIn && Holding(q, y) == Holding(p, y) - out
    ensures forall z :: z != x && z != y ==> p.WithSwap(z, amountIn) == None
  {
    hide V2AmountOut, AeroVolatileAmountOut;
    if p.WithSwap(x, amountIn).Some? {
      SwapMovesReserves(p, x, amountIn);
    }
  }

  // ------------------------------------------------------------------
  // Sequences of swaps, in either direction
  // ------------------------------------------------------------------

  datatype Trade = Trade(tokenIn: Address, amountIn: nat)

  /** A trade the pool refuses to quote leaves it alone. */
  function ApplyTrade(p: Pool, t: Trade): (q: Pool)
    requires p.Priceable()
    ensures q.Priceable()
  {
    match p.WithSwap(t.tokenIn, t.amountIn)
    case None => p
    case Some(moved) => moved.0
  }

  function ApplyTrades(p: Pool, ts: seq<Trade>): (q: Pool)
    requires p.Priceable()
    ensures q.Priceable()
    decreases |ts|
  {
    if ts == [] then p else ApplyTrades(ApplyTrade(p, ts[0]), ts[1..])
  }

  /** What one trade gives the trader, as changes in token 0 and token 1. */
  function TraderGain(p: Pool, t: Trade): (int, int)
    requires p.Priceable()
  {
    match p.WithSwap(t.tokenIn, t.amountIn)
    case None => (0, 0)
    case Some(moved) =>
      var got: int, gave: int := moved.1, t.amountIn;
      if t.tokenIn == p.token0 then (-gave, got) else (got, -gave)
  }

  function TraderGains(p: Pool, ts: seq<Trade>): (int, int)
    requires p.Priceable()
    decreases |ts|
  {
    if ts == [] then (0, 0)
    else
      var first := TraderGain(p, ts[0]);
      var rest := TraderGains(ApplyTrade(p, ts[0]), ts[1..]);
      (first.0 + rest.0, first.1 + rest.1)
  }

  lemma OneTradeConserves(p: Pool, t: Trade)
    requires p.Priceable()
    ensures var (q, gain) := (ApplyTrade(p, t), TraderGain(p, t));
      && q == p.(reserve0 := q.reserve0, reserve1 := q.reserve1)
      && q.reserve0 == p.reserve0 - gain.0
      && q.reserve1 == p.reserve1 - gain.1
      && ProductKept(p, q)
  {
    hide V2AmountOut, AeroVolatileAmountOut;
    if p.WithSwap(t.tokenIn, t.amountIn).Some? {
      SwapMovesReserves(p, t.tokenIn, t.amountIn);
      var (rIn, rOut) := p.ReservesFor(t.tokenIn).value;
      assert rIn * rOut == rOut * rIn;
    }
  }

  /** Whatever is traded, the trader's two balances and the two reserves are conserved
      together and the reserve product never falls. */
  lemma {:induction false} TradesConserveAndKeepProduct(p: Pool, ts: seq<Trade>)
    requires p.Priceable()
    ensures var (q, gain) := (ApplyTrades(p, ts), TraderGains(p, ts));
      && q == p.(reserve0 := q.reserve0, reserve1 := q.reserve1)
      && q.reserve0 == p.reserve0 - gain.0
      && q.reserve1 == p.reserve1 - gain.1
      && ProductKept(p, q)
    decreases |ts|
  {
    hide V2AmountOut, AeroVolatileAmountOut;
    if ts != [] {
      OneTradeConserves(p, ts[0]);
      TradesConserveAndKeepProduct(ApplyTrade(p, ts[0]), ts[1..]);
    }
  }

  /** A trader who gives back all of one token never ends with more of the other, and one who
      ends ahead in one token is strictly behind in the other. */
  lemma NoRoundTripProfits(p: Pool, ts: seq<Trade>)
    requires p.Priceable() && p.Funded()
    ensures var (q, gain) := (ApplyTrades(p, ts), TraderGains(p, ts));
      && q.Funded()
      && (q.reserve0 <= p.reserve0 ==> q.reserve1 >= p.reserve1)
      && (q.reserve1 <= p.reserve1 ==> q.reserve0 >= p.reserve0)
      && (gain.0 >= 0 ==> gain.1 <= 0) && (gain.1 >= 0 ==> gain.0 <= 0)
      && (gain.0 > 0 ==> gain.1 < 0) && (gain.1 > 0 ==> gain.0 < 0)
  {
    hide V2AmountOut, AeroVolatileAmountOut, TraderGains, ApplyTrades;
    TradesConserveAndKeepProduct(p, ts);
    var q := ApplyTrades(p, ts);
    ProductsOrder(p.reserve0, p.reserve1, q.reserve0, q.reserve1);
  }

  /** A product no smaller forces one factor up whenever the other comes down. */
  lemma ProductsOrder(a: nat, b: nat, a': nat, b': nat)
    requires 0 < a && 0 < b && a * b <= a' * b'
    ensures 0 < a' && 0 < b'
    ensures (a' <= a ==> b <= b') && (a' < a ==> b < b')
    ensures (b' <= b ==> a <= a') && (b' < b ==> a < a')
  {
    assert 0 < a * b;
    LargerFactor(a, b, a', b');
    assert b * a == a * b && b' * a' == a' * b';
    LargerFactor(b, a, b', a');
  }

  lemma LargerFactor(a: nat, b: nat, a': nat, b': nat)
    requires 0 < a' && 0 < b && a * b <= a' * b'
    ensures a' <= a ==> b <= b'
    ensures a' < a ==> b < b'
  {
    if a' <= a {
      MulMono(a', a, b);
      assert b' * a' == a' * b' && b * a' == a' * b;
      MulCancel(b, b', a');
    }
    if a' < a {
      MulMono(a' + 1, a, b);
      assert (a' + 1) * b == a' * b + b;
    }
  }

  // ------------------------------------------------------------------
  // Splitting one input into many
  // ------------------------------------------------------------------

  function Sum(xs: seq<nat>): nat
  {
    if xs == [] then 0 else xs[0] + Sum(xs[1..])
  }

  /** The total paid for inputs applied one after the other through `with_swap`. */
  function Proceeds(p: Pool, tokenIn: Address, inputs: seq<nat>): nat
    requires p.Priceable()
    decreases |inputs|
  {
    if inputs == [] then 0
    else
      match p.WithSwap(tokenIn, inputs[0])
      case None => Proceeds(p, tokenIn, inputs[1..])
      case Some(moved) =>
        SwapMovesReserves(p, tokenIn, inputs[0]);
        moved.1 + Proceeds(moved.0, tokenIn, inputs[1..])
  }

  /** Two swaps pay at most what one swap of the sum pays, floors included. */
  lemma SplitInTwo(x: nat, y: nat, rIn: nat, rOut: nat, fee: Fee)
    requires 0 < rIn
    ensures var first := V2AmountOut(x, rIn, rOut, fee);
      && first <= rOut
      && first + V2AmountOut(y, rIn + x, rOut - first, fee) <= V2AmountOut(x + y, rIn, rOut, fee)
  {
    hide V2AmountOut, WithFee, PairAccepts;
    if rOut == 0 {
      OutputsFit(x, rIn, rOut, fee);
      OutputsFit(y, rIn + x, rOut, fee);
    } else {
      var first := V2AmountOut(x, rIn, rOut, fee);
      V2OutAccepted(x, rIn, rOut, fee);
      V2OutAccepted(y, rIn + x, rOut - first, fee);
      SplitAccepted(x, y, rIn, rOut, fee, first, V2AmountOut(y, rIn + x, rOut - first, fee));
      V2OutIsLargestAccepted(x + y, rIn, rOut, fee);
    }
  }

  lemma SplitAccepted(x: nat, y: nat, rIn: nat, rOut: nat, fee: Fee, first: nat, second: nat)
    requires 0 < rIn && first <= rOut
    requires PairAccepts(WithFee(x, fee), rIn, rOut, first)
    requires PairAccepts(WithFee(y, fee), rIn + x, rOut - first, second)
    ensures PairAccepts(WithFee(x + y, fee), rIn, rOut, first + second)
  {
    var depth, wx, wy := BPS * rIn, WithFee(x, fee), WithFee(y, fee);
    MulMono(BPS - fee, BPS, x);
    assert BPS * (rIn + x) == depth + BPS * x;
    SplitProducts(depth, wx, BPS * x, wy, rOut, rOut - first, rOut - first - second);
    assert WithFee(x + y, fee) == wx + wy;
  }

  /** Charging the fee on `gross` only once is no worse than letting it deepen the pool first. */
  lemma SplitProducts(depth: nat, net: nat, gross: nat, next: nat, start: nat, mid: nat, left: nat)
    requires 0 < depth && net <= gross
    requires (depth + net) * mid >= depth * start
    requires (depth + gross + next) * left >= (depth + gross) * mid
    ensures (depth + net + next) * left >= depth * start
  {
    var one, both, first, second := depth + net + next, depth + gross + next, depth + net, depth + gross;
    CrossCharge(first, second, next);
    MulMono(first * both, one * second, mid);
    MulMono(second * mid, both * left, one);
    MulMono(depth * start, first * mid, both);
    Regroup(one, both, left);
    Regroup(one, second, mid);
    Regroup(both, first, mid);
    assert first * both == both * first;
    MulCancel(depth * start, one * left, both);
  }

  lemma CrossCharge(first: nat, second: nat, next: nat)
    requires first <= second
    ensures first * (second + next) <= (first + next) * second
  {
    MulMono(first, second, next);
    assert first * (second + next) == first * second + first * next;
    assert (first + next) * second == first * second + next * second;
  }

  lemma Regroup(a: int, b: int, c: int)
    ensures b * c * a == (a * c) * b == (a * b) * c
  {
  }

  /** For a V2 pool no splitting of an input beats one swap of the sum. */
  lemma {:induction false} SplittingNeverBeatsOneSwap(p: Pool, tokenIn: Address, inputs: seq<nat>)
    requires p.V2Pool? && p.Priceable()
    requires p.ReservesFor(tokenIn).Some? && 0 < p.ReservesFor(tokenIn).value.0
    ensures Proceeds(p, tokenIn, inputs) <= p.AmountOut(tokenIn, Sum(inputs)).value
    decreases |inputs|
  {
    if inputs != [] {
      var (rIn, rOut) := p.ReservesFor(tokenIn).value;
      SwapMovesReserves(p, tokenIn, inputs[0]);
      SplittingNeverBeatsOneSwap(p.WithSwap(tokenIn, inputs[0]).value.0, tokenIn, inputs[1..]);
      SplitInTwo(inputs[0], Sum(inputs[1..]), rIn, rOut, p.feeBps);
    }
  }

  /** For either venue the most a splitter can do is to avoid the whole fee. */
  lemma SplittingAtBestAvoidsTheFee(p: Pool, tokenIn: Address, inputs: seq<nat>)
    requires p.Priceable() && p.Funded() && p.ReservesFor(tokenIn).Some?
    ensures var (rIn, rOut) := p.ReservesFor(tokenIn).value;
      Proceeds(p, tokenIn, inputs) <= V2AmountOut(Sum(inputs), rIn, rOut, 0)
  {
    hide V2AmountOut, AeroVolatileAmountOut;
    var (rIn, rOut) := p.ReservesFor(tokenIn).value;
    var moved, paid := ProceedsKeepProduct(p, tokenIn, inputs);
    KeptProductBoundsOutput(Sum(inputs), moved, rIn, rOut, paid);
  }

  lemma KeptProductBoundsOutput(total: nat, moved: nat, rIn: nat, rOut: nat, paid: nat)
    requires 0 < rIn && 0 < rOut && moved <= total && paid <= rOut
    requires rIn * rOut <= (rIn + moved) * (rOut - paid)
    ensures paid <= V2AmountOut(total, rIn, rOut, 0)
  {
    V2OutIsLargestAccepted(total, rIn, rOut, 0);
    MulMono(rIn + moved, rIn + total, rOut - paid);
    MulMono(rIn * rOut, (rIn + total) * (rOut - paid), BPS);
    assert WithFee(total, 0) == BPS * total;
    assert (BPS * rIn + BPS * total) * (rOut - paid) == (rIn + total) * (rOut - paid) * BPS;
    assert PairAccepts(WithFee(total, 0), rIn, rOut, paid);
  }

  /** An Aerodrome pool with the fee floored away on each part: two parts of 333 pay more than
      one swap of 666, so the V2 law does not carry over. */
  lemma SplittingBeatsOneSwapOnAerodrome()
    ensures var p := AeroPool(0, 1, 2, 1_000_000, 1_000_000_000, 30, false, 0);
      && p.AmountOut(1, 666) == Some(664_558)
      && Proceeds(p, 1, [333, 333]) == 665_556
  {
    var p := AeroPool(0, 1, 2, 1_000_000, 1_000_000_000, 30, false, 0);
    var (q, out) := p.WithSwap(1, 333).value;
    assert out == AeroVolatileAmountOut(333, 1_000_000, 1_000_000_000, 30) == 332_889;
    assert q.AmountOut(1, 333) == Some(332_667);
    assert [333, 333][1..] == [333];
    assert Proceeds(q, 1, [333]) == 332_667;
  }

  lemma {:induction false} NothingToPay(p: Pool, tokenIn: Address, inputs: seq<nat>)
    requires p.V2Pool? && p.Priceable() && p.ReservesFor(tokenIn).Some?
    requires p.ReservesFor(tokenIn).value.1 <= 1 || p.feeBps == BPS
    ensures Proceeds(p, tokenIn, inputs) == 0
    decreases |inputs|
  {
    if inputs != [] {
      var (rIn, rOut) := p.ReservesFor(tokenIn).value;
      SwapMovesReserves(p, tokenIn, inputs[0]);
      if 0 < rIn && 0 < rOut && p.feeBps < BPS {
        V2OutAccepted(inputs[0], rIn, rOut, p.feeBps);
      }
      NothingToPay(p.WithSwap(tokenIn, inputs[0]).value.0, tokenIn, inputs[1..]);
    }
  }

  /** One unit primes an empty in-side for the next input. */
  lemma PrimedSidePays(p: Pool, tokenIn: Address)
    requires p.V2Pool? && p.feeBps < BPS && p.ReservesFor(tokenIn).Some?
    requires p.ReservesFor(tokenIn).value.0 == 0 && 1 < p.ReservesFor(tokenIn).value.1
    ensures p.AmountOut(tokenIn, Sum([1, BPS])) == Some(0) && 0 < Proceeds(p, tokenIn, [1, BPS])
  {
    var rOut := p.ReservesFor(tokenIn).value.1;
    SwapMovesReserves(p, tokenIn, 1);
    var q := p.WithSwap(tokenIn, 1).value.0;
    assert [1, BPS][1..] == [BPS];
    assert Sum([1, BPS]) == 1 + Sum([BPS]);
    var w := WithFee(BPS, p.feeBps);
    MulMono(1, BPS - p.feeBps, BPS);
    MulMono(2, rOut, w);
    QuotAdjoint(w * rOut, BPS + w, 1);
    assert V2AmountOut(BPS, 1, rOut, p.feeBps) == Quot(w * rOut, BPS + w);
    hide V2AmountOut;
    assert Proceeds(q, tokenIn, [BPS]) == V2AmountOut(BPS, 1, rOut, p.feeBps);
  }

  /** The law holds of a V2 pool exactly when its in-side is funded, or it can pay nothing anyway. */
  lemma SplittingIsFairExactlyWhen(p: Pool, tokenIn: Address)
    requires p.V2Pool? && p.Priceable() && p.ReservesFor(tokenIn).Some?
    ensures var (rIn, rOut) := p.ReservesFor(tokenIn).value;
      (forall inputs: seq<nat> :: Proceeds(p, tokenIn, inputs) <= p.AmountOut(tokenIn, Sum(inputs)).value)
      <==> 0 < rIn || rOut <= 1 || p.feeBps == BPS
  {
    hide V2AmountOut;
    var (rIn, rOut) := p.ReservesFor(tokenIn).value;
    if 0 < rIn || rOut <= 1 || p.feeBps == BPS {
      forall inputs: seq<nat>
        ensures Proceeds(p, tokenIn, inputs) <= p.AmountOut(tokenIn, Sum(inputs)).value
      {
        if 0 < rIn { SplittingNeverBeatsOneSwap(p, tokenIn, inputs); } else { NothingToPay(p, tokenIn, inputs); }
      }
    } else {
      PrimedSidePays(p, tokenIn);
    }
  }

  /** What is left of a list of inputs once each has paid its own floored fee. */
  function NetSum(inputs: seq<nat>, fee: nat): nat
  {
    if inputs == [] then 0 else AeroNetIn(inputs[0], fee) + NetSum(inputs[1..], fee)
  }

  /** On Aerodrome a splitter gets at most what one fee-free swap of the summed net inputs pays. */
  lemma {:induction false} AeroSplittingPaysForNets(p: Pool, tokenIn: Address, inputs: seq<nat>)
    requires p.AeroPool? && p.ReservesFor(tokenIn).Some? && 0 < p.ReservesFor(tokenIn).value.0
    ensures var (rIn, rOut) := p.ReservesFor(tokenIn).value;
      Proceeds(p, tokenIn, inputs) <= V2AmountOut(NetSum(inputs, p.feeBps), rIn, rOut, 0)
    decreases |inputs|
  {
    hide V2AmountOut, AeroVolatileAmountOut, AeroNetIn;
    var (rIn, rOut) := p.ReservesFor(tokenIn).value;
    if inputs == [] {
    } else {
      var x, rest := inputs[0], NetSum(inputs[1..], p.feeBps);
      var net := AeroNetIn(x, p.feeBps);
      if p.WithSwap(tokenIn, x).None? {
        AeroSplittingPaysForNets(p, tokenIn, inputs[1..]);
        V2OutMonotone(rest, net + rest, rIn, rIn, rOut, rOut, 0);
      } else {
        SwapMovesReserves(p, tokenIn, x);
        var (q, out) := p.WithSwap(tokenIn, x).value;
        AeroSplittingPaysForNets(q, tokenIn, inputs[1..]);
        AeroIsFreeV2OfNet(x, rIn, rOut, p.feeBps);
        NetWithinInput(x, p.feeBps);
        V2OutMonotone(rest, rest, rIn + x, rIn + net, rOut - out, rOut - out, 0);
        SplitInTwo(net, rest, rIn, rOut, 0);
      }
    }
  }

  lemma NetWithinInput(x: nat, fee: nat)
    ensures AeroNetIn(x, fee) <= x
  {
  }

  /** So splitting is fair on Aerodrome whenever the parts together pay the fee of the sum: the
      floors gain the splitter nothing. */
  lemma AeroSplittingIsFairWhenFeesAddUp(p: Pool, tokenIn: Address, inputs: seq<nat>)
    requires p.AeroPool? && p.ReservesFor(tokenIn).Some? && 0 < p.ReservesFor(tokenIn).value.0
    requires NetSum(inputs, p.feeBps) == AeroNetIn(Sum(inputs), p.feeBps)
    ensures var (rIn, rOut) := p.ReservesFor(tokenIn).value;
      Proceeds(p, tokenIn, inputs) <= AeroVolatileAmountOut(Sum(inputs), rIn, rOut, p.feeBps)
  {
    var (rIn, rOut) := p.ReservesFor(tokenIn).value;
    AeroSplittingPaysForNets(p, tokenIn, inputs);
    AeroIsFreeV2OfNet(Sum(inputs), rIn, rOut, p.feeBps);
    hide V2AmountOut, AeroVolatileAmountOut, AeroNetIn, Proceeds, NetSum;
  }

  /** The parts pay the fee of the sum when no part, but the last, loses a fraction of its fee. */
  lemma {:induction false} WholeFeesAddUp(inputs: seq<nat>, fee: Fee)
    requires forall i :: 0 <= i < |inputs| - 1 ==> (inputs[i] * fee) % BPS == 0
    ensures NetSum(inputs, fee) == AeroNetIn(Sum(inputs), fee)
    decreases |inputs|
  {
    if inputs == [] {
    } else if |inputs| == 1 {
      assert inputs[1..] == [];
    } else {
      WholeFeesAddUp(inputs[1..], fee);
      var x, rest := inputs[0], Sum(inputs[1..]);
      WholeFeeSplits(x, rest, fee);
    }
  }

  lemma WholeFeeSplits(x: nat, rest: nat, fee: Fee)
    requires (x * fee) % BPS == 0
    ensures AeroNetIn(x + rest, fee) == AeroNetIn(x, fee) + AeroNetIn(rest, fee)
  {
    var a, b := x * fee, rest * fee;
    assert (x + rest) * fee == a + b;
    QuotBounds(a, BPS);
    QuotBounds(b, BPS);
    QuotBounds(a + b, BPS);
    MulMono(fee, BPS, x);
    MulMono(fee, BPS, rest);
    assert Quot(a + b, BPS) == Quot(a, BPS) + Quot(b, BPS);
  }

  /** What a list of same-direction inputs really moved: the accepted input and its proceeds. */
  lemma {:induction false} ProceedsKeepProduct(p: Pool, tokenIn: Address, inputs: seq<nat>)
    returns (moved: nat, paid: nat)
    requires p.Priceable() && p.ReservesFor(tokenIn).Some?
    ensures moved <= Sum(inputs) && paid == Proceeds(p, tokenIn, inputs)
    ensures var (rIn, rOut) := p.ReservesFor(tokenIn).value;
      paid <= rOut && rIn * rOut <= (rIn + moved) * (rOut - paid)
    decreases |inputs|
  {
    if inputs == [] {
      moved, paid := 0, 0;
    } else if p.WithSwap(tokenIn, inputs[0]).None? {
      moved, paid := ProceedsKeepProduct(p, tokenIn, inputs[1..]);
    } else {
      SwapMovesReserves(p, tokenIn, inputs[0]);
      var (q, out) := p.WithSwap(tokenIn, inputs[0]).value;
      moved, paid := ProceedsKeepProduct(q, tokenIn, inputs[1..]);
      moved, paid := inputs[0] + moved, out + paid;
    }
  }
}
