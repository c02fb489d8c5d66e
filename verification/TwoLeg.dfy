/** The two-pool cyclic arbitrage of `dex.rs`. */
module TwoLeg {
  import opened Arithmetic
  import opened Chain
  import opened Quotes
  import opened Pools
  import opened Search
  import opened NearOptimal
  import opened Wrappers

  // ------------------------------------------------------------------
  // The searched profit and the search
  // ------------------------------------------------------------------

  /** The four reserves and two fees the profit depends on, all reserves positive. */
  datatype Legs_ = Legs(aIn: nat, aOut: nat, aFee: nat, bIn: nat, bOut: nat, bFee: nat)
  type Legs = l: Legs_ | 0 < l.aIn && 0 < l.aOut && l.aFee <= BPS && 0 < l.bIn && 0 < l.bOut && l.bFee <= BPS
    witness Legs(1, 1, 0, 1, 1, 0)

  function Middle(l: Legs, x: nat): nat
  {
    V2AmountOut(x, l.aIn, l.aOut, l.aFee)
  }

  function Back(l: Legs, x: nat): nat
  {
    V2AmountOut(Middle(l, x), l.bIn, l.bOut, l.bFee)
  }

  function ProfitOf(l: Legs, x: nat): nat
  {
    if Middle(l, x) == 0 then 0 else SaturatingSub(Back(l, x), x)
  }

  function Profit(l: Legs): nat -> nat
  {
    x => ProfitOf(l, x)
  }

  /** The reserves the source prices, or `None` where it returns early. */
  function Route(a: Pool, b: Pool, tokenIn: Address): Option<Legs>
    requires a.V2Pool? && b.V2Pool? && a.Priceable() && b.Priceable()
  {
    match a.OtherToken(tokenIn)
    case None => None
    case Some(mid) =>
      if b.OtherToken(mid) != Some(tokenIn) then None
      else
        match (a.ReservesFor(tokenIn), b.ReservesFor(mid))
        case (Some(ra), Some(rb)) =>
          if ra.0 == 0 || ra.1 == 0 || rb.0 == 0 || rb.1 == 0 then None
          else Some(Legs(ra.0, ra.1, a.feeBps, rb.0, rb.1, b.feeBps))
        case _ => None
  }

  /** What a searched size is worth reporting as. */
  function Reported(x: nat, p: nat): Option<(nat, nat)>
  {
    if p == 0 || x == 0 then None else Some((x, p))
  }

  /** `r` is what the search finds for the profit it climbs, if there is a route. */
  ghost predicate Answered(a: Pool, b: Pool, tokenIn: Address, maxIn: nat, r: Option<(nat, nat)>)
    requires a.V2Pool? && b.V2Pool? && a.Priceable() && b.Priceable()
  {
    match Route(a, b, tokenIn)
    case None => r == None
    case Some(l) => exists x: nat, p: nat :: Found(Profit(l), 0, Min(maxIn, l.aIn), x, p) && r == Reported(x, p)
  }

  /** `x` through the first pool and all of it back through the second. */
  ghost predicate TwoSwaps(a: Pool, b: Pool, tokenIn: Address, mid: Address, x: nat, a': Pool, b': Pool, back: nat)
  {
    exists got :: SwapsTo(a, tokenIn, x, a', got) && SwapsTo(b, mid, got, b', back)
  }

  /** The two swaps go from `tokenIn` to a token both pools trade and back with the gain `p`, which
      is what the pools lose of `tokenIn`. */
  ghost predicate RoundTrip(a: Pool, b: Pool, tokenIn: Address, mid: Address, x: nat, p: nat, a': Pool, b': Pool)
  {
    && a.OtherToken(tokenIn) == Some(mid) && b.OtherToken(mid) == Some(tokenIn)
    && TwoSwaps(a, b, tokenIn, mid, x, a', b', x + p)
    && (Pairs(a, tokenIn, mid) && Pairs(b, mid, tokenIn) ==> Moves(a, b, a', b', tokenIn, mid, p))
  }

  /** What a reported trade is good for, within the caller's cap. */
  ghost predicate Delivers(a: Pool, b: Pool, tokenIn: Address, maxIn: nat, x: nat, p: nat)
  {
    0 < x <= maxIn && 0 < p && exists mid, a', b' :: RoundTrip(a, b, tokenIn, mid, x, p, a', b')
  }

  method OptimalTwoLegArb(a: Pool, b: Pool, tokenIn: Address, maxIn: nat) returns (r: Option<(nat, nat)>)
    requires a.V2Pool? && b.V2Pool? && a.Priceable() && b.Priceable()
    ensures Answered(a, b, tokenIn, maxIn, r)
    ensures r.Some? ==> Delivers(a, b, tokenIn, maxIn, r.value.0, r.value.1)
  {
    hide Found, ProfitOf, Delivers;
    r := None;
    match Route(a, b, tokenIn) {
      case None =>
      case Some(l) =>
        var x, p := TernarySearchMax(0, Min(maxIn, l.aIn), Profit(l));
        r := Reported(x, p);
        if r.Some? { TradeDelivers(a, b, tokenIn, maxIn, x, p); }
    }
  }

  // ------------------------------------------------------------------
  // Conservation
  // ------------------------------------------------------------------

  /** Carrying the reported trade out on both pools, the pools together lose exactly the
      reported profit in the in-token and nothing of the middle token. */
  lemma ProfitIsWhatThePoolsLose(a: Pool, b: Pool, tokenIn: Address, maxIn: nat, x: nat, p: nat)
    requires a.V2Pool? && b.V2Pool? && a.Priceable() && b.Priceable()
    requires Route(a, b, tokenIn).Some? && Reported(x, p).Some?
    requires var l := Route(a, b, tokenIn).value; Found(Profit(l), 0, Min(maxIn, l.aIn), x, p)
    ensures 0 < x <= maxIn
    ensures var mid := a.OtherToken(tokenIn).value;
      && a.WithSwap(tokenIn, x).Some?
      && (var (a', got) := a.WithSwap(tokenIn, x).value;
          && b.WithSwap(mid, got).Some?
          && (var (b', back) := b.WithSwap(mid, got).value;
              && a'.ReservesFor(tokenIn).Some? && b'.ReservesFor(mid).Some?
              && (var (ra, ra') := (a.ReservesFor(tokenIn).value, a'.ReservesFor(tokenIn).value);
                  var (rb, rb') := (b.ReservesFor(mid).value, b'.ReservesFor(mid).value);
                  && ra.0 + rb.1 == ra'.0 + rb'.1 + p
                  && ra.1 + rb.0 == ra'.1 + rb'.0
                  && back == x + p)))
  {
    hide V2AmountOut;
    var l := Route(a, b, tokenIn).value;
    NarrowTimesWithin(Profit(l), Range(0, Min(maxIn, l.aIn)), SEARCH_GUARD);
    var mid := a.OtherToken(tokenIn).value;
    SwapMovesReserves(a, tokenIn, x);
    SwapMovesReserves(b, mid, Middle(l, x));
  }

  /** What the two swaps move, token by token. */
  predicate Moves(a: Pool, b: Pool, a': Pool, b': Pool, tokenIn: Address, mid: Address, p: nat)
  {
    && Holding(a, tokenIn) + Holding(b, tokenIn) == Holding(a', tokenIn) + Holding(b', tokenIn) + p
    && Holding(a, mid) + Holding(b, mid) == Holding(a', mid) + Holding(b', mid)
  }

  lemma SwapsMove(a: Pool, b: Pool, a': Pool, b': Pool, tokenIn: Address, mid: Address, x: nat, got: nat, p: nat)
    requires Pairs(a, tokenIn, mid) && Pairs(b, mid, tokenIn)
    requires SwapsTo(a, tokenIn, x, a', got) && SwapsTo(b, mid, got, b', x + p)
    ensures Moves(a, b, a', b', tokenIn, mid, p)
  {
    PoolAnswers(a, tokenIn, mid, x);
    PoolAnswers(b, mid, tokenIn, got);
  }

  lemma DeliversBy(a: Pool, b: Pool, a': Pool, b': Pool, tokenIn: Address, mid: Address, maxIn: nat, x: nat, got: nat,
                   p: nat)
    requires 0 < x <= maxIn && 0 < p && a.OtherToken(tokenIn) == Some(mid) && b.OtherToken(mid) == Some(tokenIn)
    requires SwapsTo(a, tokenIn, x, a', got) && SwapsTo(b, mid, got, b', x + p)
    ensures Delivers(a, b, tokenIn, maxIn, x, p)
  {
    hide V2AmountOut;
    if Pairs(a, tokenIn, mid) && Pairs(b, mid, tokenIn) {
      SwapsMove(a, b, a', b', tokenIn, mid, x, got, p);
    }
    assert TwoSwaps(a, b, tokenIn, mid, x, a', b', x + p);
    assert RoundTrip(a, b, tokenIn, mid, x, p, a', b');
  }

  lemma TradeDelivers(a: Pool, b: Pool, tokenIn: Address, maxIn: nat, x: nat, p: nat)
    requires a.V2Pool? && b.V2Pool? && a.Priceable() && b.Priceable()
    requires Route(a, b, tokenIn).Some? && Reported(x, p).Some?
    requires var l := Route(a, b, tokenIn).value; Found(Profit(l), 0, Min(maxIn, l.aIn), x, p)
    ensures Delivers(a, b, tokenIn, maxIn, x, p)
  {
    hide V2AmountOut, Found, ProfitOf, Delivers;
    ProfitIsWhatThePoolsLose(a, b, tokenIn, maxIn, x, p);
    var mid := a.OtherToken(tokenIn).value;
    var (a', got) := a.WithSwap(tokenIn, x).value;
    var (b', back) := b.WithSwap(mid, got).value;
    DeliversBy(a, b, a', b', tokenIn, mid, maxIn, x, got, p);
  }

  // ------------------------------------------------------------------
  // The ideal profit
  // ------------------------------------------------------------------

  /** The quote without its floor, on real inputs. */
  function IdealQuote(x: real, rIn: nat, rOut: nat, fee: Fee): (y: real)
    requires 0.0 <= x && 0 < rIn
    ensures 0.0 <= y
  {
    var f := (BPS - fee) as real;
    RealMono(0.0, x, f);
    RealMono(0.0, x * f, rOut as real);
    RealQuotientBound(0.0, x * f * rOut as real, 10_000.0 * rIn as real + x * f);
    (x * f * rOut as real) / (10_000.0 * rIn as real + x * f)
  }

  lemma QuoteIsQuotient(x: nat, rIn: nat, rOut: nat, fee: Fee)
    requires 0 < rIn && 0 < rOut
    ensures V2AmountOut(x, rIn, rOut, fee) == Quot(WithFee(x, fee) * rOut, rIn * BPS + WithFee(x, fee))
  {
    if x == 0 {
      assert WithFee(x, fee) * rOut == 0;
    }
  }

  lemma FlooredQuote(x: nat, rIn: nat, rOut: nat, fee: Fee)
    requires 0 < rIn && 0 < rOut
    ensures var y := V2AmountOut(x, rIn, rOut, fee);
      y as real <= IdealQuote(x as real, rIn, rOut, fee) < y as real + 1.0
  {
    hide V2AmountOut, Quot, WithFee;
    var w := WithFee(x, fee);
    var n, d := w * rOut, rIn * BPS + w;
    QuoteIsQuotient(x, rIn, rOut, fee);
    QuotBounds(n, d);
    RealQuotient(n, d, Quot(n, d));
    CastProduct(w, rOut);
    assert x as real * (BPS - fee) as real == w as real by {
      WithFeeIs(x, fee);
      CastProduct(x, BPS - fee);
    }
    assert d as real == 10_000.0 * rIn as real + w as real;
    assert IdealQuote(x as real, rIn, rOut, fee) == n as real / d as real;
  }

  lemma WithFeeIs(x: nat, fee: Fee)
    ensures WithFee(x, fee) == x * (BPS - fee)
  {
  }

  lemma CastProduct(a: nat, b: nat)
    ensures (a * b) as real == a as real * b as real
  {
  }

  lemma RealQuotient(n: nat, d: nat, y: nat)
    requires 0 < d && y * d <= n < y * d + d
    ensures y as real <= n as real / d as real < y as real + 1.0
  {
    CastProduct(y, d);
    var q, z, e := n as real / d as real, y as real, d as real;
    assert q * e == n as real;
    RealCancel(z, q, e);
    assert (z + 1.0) * e == z * e + e;
    RealCancel(q, z + 1.0, e);
  }

  /** The ideal quote rises, by no more than the pool's own price per unit of input. */
  lemma IdealQuoteIsLipschitz(m: real, m': real, rIn: nat, rOut: nat, fee: Fee)
    requires 0.0 <= m <= m' <= m + 1.0 && 0 < rIn
    ensures IdealQuote(m, rIn, rOut, fee)
         <= IdealQuote(m', rIn, rOut, fee)
         <= IdealQuote(m, rIn, rOut, fee) + rOut as real / rIn as real
  {
    hide IdealQuote;
    var f := (BPS - fee) as real;
    var q, q' := IdealQuote(m, rIn, rOut, fee), IdealQuote(m', rIn, rOut, fee);
    IdealQuoteProduct(m, rIn, rOut, fee);
    IdealQuoteProduct(m', rIn, rOut, fee);
    RealMono(0.0, f, rOut as real);
    Moebius(m, m', f * rOut as real, 10_000.0 * rIn as real, f, q, q');
    UnitPrice(q' - q, m' - m, f, rIn as real, rOut as real);
  }

  lemma UnitPrice(gain: real, step: real, f: real, rIn: real, rOut: real)
    requires 0.0 <= step <= 1.0 && 0.0 <= f <= 10_000.0 && 0.0 < rIn && 0.0 <= rOut
    requires gain * (10_000.0 * rIn) <= step * (f * rOut)
    ensures gain <= rOut / rIn
  {
    var p := f * rOut;
    RealMono(f, 10_000.0, rOut);
    RealMono(0.0, f, rOut);
    RealMono(step, 1.0, p);
    assert step * p <= p <= 10_000.0 * rOut;
    assert gain * (10_000.0 * rIn) == 10_000.0 * (gain * rIn);
    assert gain * rIn <= rOut;
    RealQuotientBound(gain, rOut, rIn);
  }

  lemma RealQuotientBound(a: real, b: real, c: real)
    requires a * c <= b && 0.0 < c
    ensures a <= b / c
  {
    var q := b / c;
    assert q * c == b;
    RealCancel(a, q, c);
  }

  /** `q = c m / (d + e m)` rises with slope at most `c / d`. */
  lemma Moebius(m: real, m': real, c: real, d: real, e: real, q: real, q': real)
    requires 0.0 <= m <= m' && 0.0 <= c && 0.0 < d && 0.0 <= e
    requires q * (d + m * e) == c * m && q' * (d + m' * e) == c * m'
    ensures 0.0 <= q' - q && (q' - q) * d <= (m' - m) * c
  {
    RealMono(0.0, m, e);
    RealMono(0.0, m', e);
    var u, u' := d + m * e, d + m' * e;
    MoebiusDifference(m, m', c, d, e, q, q');
    RealMono(0.0, m' - m, c);
    RealMono2(d, u, d, u');
    BoundedShare(q' - q, u * u', (m' - m) * c, d);
  }

  lemma BoundedShare(gain: real, uu: real, k: real, d: real)
    requires gain * uu == k * d && 0.0 <= k && 0.0 < d && d * d <= uu && 0.0 < uu
    ensures 0.0 <= gain && gain * d <= k
  {
    RealMono(0.0, k, d);
    RealCancel(0.0, gain, uu);
    RealMono(d * d, uu, gain);
    assert gain * d * d == d * d * gain;
    RealCancel(gain * d, k, d);
  }

  lemma RealMono2(a: real, b: real, c: real, d: real)
    requires 0.0 <= a <= b && 0.0 <= c <= d
    ensures 0.0 <= a * c <= b * d
    ensures 0.0 < a && 0.0 < c ==> 0.0 < b * d
  {
    RealMono(a, b, c);
    RealMono(c, d, b);
  }

  lemma MoebiusDifference(m: real, m': real, c: real, d: real, e: real, q: real, q': real)
    requires q * (d + m * e) == c * m && q' * (d + m' * e) == c * m'
    ensures (q' - q) * ((d + m * e) * (d + m' * e)) == (m' - m) * c * d
  {
    var u, u' := d + m * e, d + m' * e;
    assert q' * (u * u') == (q' * u') * u == c * m' * u;
    assert q * (u * u') == (q * u) * u' == c * m * u';
    assert c * m' * u == c * m' * d + c * m' * m * e;
    assert c * m * u' == c * m * d + c * m * m' * e;
  }

  // ------------------------------------------------------------------
  // The searched profit is the ideal one, rounded down
  // ------------------------------------------------------------------

  function IdealBack(l: Legs, x: nat): real
  {
    IdealQuote(IdealQuote(x as real, l.aIn, l.aOut, l.aFee), l.bIn, l.bOut, l.bFee)
  }

  function IdealProfit(l: Legs): nat -> real
  {
    (x: nat) => IdealBack(l, x) - x as real
  }

  /** What the two floors can cost: one unit of the in-token, and one unit of the middle token
      at the second pool's own price. */
  function Slack(l: Legs): (s: real)
    ensures 1.0 <= s
  {
    RealQuotientBound(0.0, l.bOut as real, l.bIn as real);
    1.0 + l.bOut as real / l.bIn as real
  }

  lemma BackRoundsDown(l: Legs, x: nat)
    ensures Back(l, x) as real <= IdealBack(l, x) < Back(l, x) as real + Slack(l)
  {
    hide V2AmountOut, IdealQuote;
    FlooredQuote(x, l.aIn, l.aOut, l.aFee);
    FlooredQuote(Middle(l, x), l.bIn, l.bOut, l.bFee);
    IdealQuoteIsLipschitz(Middle(l, x) as real, IdealQuote(x as real, l.aIn, l.aOut, l.aFee), l.bIn, l.bOut, l.bFee);
  }

  lemma ProfitRoundsDown(l: Legs, top: nat)
    ensures RoundsDown(Profit(l), IdealProfit(l), Slack(l), top, top)
  {
    forall x: nat | x <= top
      ensures Profit(l)(x) as real <= Pos(IdealProfit(l)(x)) < Profit(l)(x) as real + Slack(l)
    {
      BackRoundsDown(l, x);
      assert Middle(l, x) == 0 ==> Back(l, x) == 0;
      hide V2AmountOut, IdealBack, Slack;
    }
  }

  // ------------------------------------------------------------------
  // The ideal profit is concave
  // ------------------------------------------------------------------

  function Numerator(l: Legs): real
  {
    ((BPS - l.aFee) as real * l.aOut as real) * ((BPS - l.bFee) as real * l.bOut as real)
  }

  function Depth(l: Legs): real
  {
    (10_000.0 * l.aIn as real) * (10_000.0 * l.bIn as real)
  }

  function Drag(l: Legs): real
  {
    (BPS - l.aFee) as real * (10_000.0 * l.bIn as real + (BPS - l.bFee) as real * l.aOut as real)
  }

  lemma ShapeSigns(l: Legs)
    ensures 0.0 < Depth(l) && 0.0 <= Drag(l) && 0.0 <= Numerator(l)
  {
    var fa, fb := (BPS - l.aFee) as real, (BPS - l.bFee) as real;
    RealMono(0.0, fa, l.aOut as real);
    RealMono(0.0, fb, l.bOut as real);
    RealMono(0.0, fb, l.aOut as real);
    RealMono(0.0, fa * l.aOut as real, fb * l.bOut as real);
    RealMono(0.0, fa, 10_000.0 * l.bIn as real + fb * l.aOut as real);
    RealMono2(1.0, 10_000.0 * l.aIn as real, 1.0, 10_000.0 * l.bIn as real);
  }

  /** `h` is `p x / (q + s x)`. */
  ghost predicate IsQuotient(h: real, p: real, q: real, s: real, x: real)
  {
    h * (q + s * x) == p * x
  }

  /** Two quotes in a row make one quotient: `P x / (Q + S x)`. */
  lemma IdealBackIsOneQuotient(l: Legs, x: nat)
    ensures IsQuotient(IdealBack(l, x), Numerator(l), Depth(l), Drag(l), x as real)
  {
    hide IdealQuote;
    var z := x as real;
    var m := IdealQuote(z, l.aIn, l.aOut, l.aFee);
    IdealQuoteProduct(z, l.aIn, l.aOut, l.aFee);
    IdealQuoteProduct(m, l.bIn, l.bOut, l.bFee);
    var fa, fb := (BPS - l.aFee) as real, (BPS - l.bFee) as real;
    var da, db := 10_000.0 * l.aIn as real, 10_000.0 * l.bIn as real;
    var ca, cb := fa * l.aOut as real, fb * l.bOut as real;
    ComposeQuotients(z, m, IdealBack(l, x), fa, ca, da, fb, cb, db);
    DragIs(fa, fb, l.aOut as real, db);
  }

  lemma DragIs(fa: real, fb: real, out: real, db: real)
    ensures fa * (db + fb * out) == fa * db + (fa * out) * fb
  {
  }

  lemma IdealQuoteProduct(x: real, rIn: nat, rOut: nat, fee: Fee)
    requires 0.0 <= x && 0 < rIn
    ensures var f := (BPS - fee) as real;
      && 0.0 < 10_000.0 * rIn as real + x * f
      && IdealQuote(x, rIn, rOut, fee) * (10_000.0 * rIn as real + x * f) == f * rOut as real * x
  {
    var f := (BPS - fee) as real;
    RealMono(0.0, x, f);
    assert x * f * rOut as real == f * rOut as real * x;
  }

  lemma ComposeQuotients(x: real, m: real, b: real, fa: real, ca: real, da: real, fb: real, cb: real, db: real)
    requires 0.0 < da + x * fa && m * (da + x * fa) == ca * x && b * (db + m * fb) == cb * m
    ensures b * (da * db + (fa * db + ca * fb) * x) == ca * cb * x
  {
    var u := da + x * fa;
    assert b * (db + m * fb) * u == cb * m * u == cb * (ca * x);
    assert (db + m * fb) * u == db * u + (m * u) * fb == db * da + db * x * fa + ca * x * fb;
    assert b * (db + m * fb) * u == b * ((db + m * fb) * u);
  }

  lemma IdealProfitIsConcave(l: Legs, top: nat)
    ensures Concave(IdealProfit(l), top) && IdealProfit(l)(0) == 0.0
  {
    hide IdealBack;
    IdealProfitAtZero(l);
    forall a: nat, b: nat, c: nat | a < b < c <= top
      ensures SlopesFall(IdealProfit(l), a, b, c)
    {
      IdealSlopesFall(l, a, b, c);
    }
  }

  lemma IdealProfitAtZero(l: Legs)
    ensures IdealProfit(l)(0) == 0.0
  {
    hide IdealBack;
    var p, q, s := IdealShape(l);
    assert IsQuotient(IdealBack(l, 0), p, q, s, 0.0);
    RealCancel(IdealBack(l, 0), 0.0, q);
    RealCancel(0.0, IdealBack(l, 0), q);
  }

  /** The product of the two prices does not pay for both fees. */
  predicate PricesBelowFees(l: Legs)
  {
    (l.aOut * (BPS - l.aFee)) * (l.bOut * (BPS - l.bFee)) <= l.aIn * l.bIn * 100_000_000
  }

  lemma NumeratorWithinDepth(l: Legs)
    requires PricesBelowFees(l)
    ensures Numerator(l) <= Depth(l)
  {
    var a, b, d := l.aOut * (BPS - l.aFee), l.bOut * (BPS - l.bFee), l.aIn * l.bIn;
    CastProduct(l.aOut, BPS - l.aFee);
    CastProduct(l.bOut, BPS - l.bFee);
    CastProduct(a, b);
    CastProduct(l.aIn, l.bIn);
    ScaledProduct(l.aIn as real, l.bIn as real);
    assert (a * b) as real <= (d * 100_000_000) as real == d as real * 100_000_000.0;
  }

  lemma ScaledProduct(a: real, b: real)
    ensures (10_000.0 * a) * (10_000.0 * b) == a * b * 100_000_000.0
  {
  }

  /** The three constants of the quotient, with what is needed of them. */
  lemma IdealShape(l: Legs) returns (p: real, q: real, s: real)
    ensures 0.0 <= p && 0.0 < q && 0.0 <= s
    ensures forall x: nat :: IsQuotient(IdealBack(l, x), p, q, s, x as real)
    ensures PricesBelowFees(l) ==> p <= q
  {
    p, q, s := Numerator(l), Depth(l), Drag(l);
    ShapeSigns(l);
    if PricesBelowFees(l) {
      NumeratorWithinDepth(l);
    }
    hide Numerator, Depth, Drag, IdealBack, IsQuotient;
    forall x: nat
      ensures IsQuotient(IdealBack(l, x), p, q, s, x as real)
    {
      IdealBackIsOneQuotient(l, x);
    }
  }

  lemma IdealSlopesFall(l: Legs, a: nat, b: nat, c: nat)
    requires a < b < c
    ensures SlopesFall(IdealProfit(l), a, b, c)
  {
    hide IdealBack, IsQuotient, FallingSlopes;
    var p, q, s := IdealShape(l);
    QuotientSlopesFall(p, q, s, a as real, b as real, c as real, IdealBack(l, a), IdealBack(l, b), IdealBack(l, c));
  }

  lemma QuotientSlopesFall(p: real, q: real, s: real, a: real, b: real, c: real, ha: real, hb: real, hc: real)
    requires 0.0 <= p && 0.0 < q && 0.0 <= s && 0.0 <= a < b < c
    requires IsQuotient(ha, p, q, s, a) && IsQuotient(hb, p, q, s, b) && IsQuotient(hc, p, q, s, c)
    ensures FallingSlopes(ha - a, hb - b, hc - c, a, b, c)
  {
    hide IsQuotient;
    RisesFall(p, q, s, a, b, c, ha, hb, hc);
    TiltSlopes(hb - ha, hc - hb, b - a, c - b);
  }

  lemma RisesFall(p: real, q: real, s: real, a: real, b: real, c: real, ha: real, hb: real, hc: real)
    requires 0.0 <= p && 0.0 < q && 0.0 <= s && 0.0 <= a < b < c
    requires IsQuotient(ha, p, q, s, a) && IsQuotient(hb, p, q, s, b) && IsQuotient(hc, p, q, s, c)
    ensures (hc - hb) * (b - a) <= (hb - ha) * (c - b)
  {
    hide IsQuotient;
    var u, v, w := q + s * a, q + s * b, q + s * c;
    RealMono(a, b, s);
    RealMono(b, c, s);
    RealMono(0.0, a, s);
    RealMono(0.0, p, q);
    QuotientRise(p, q, s, a, b, ha, hb);
    QuotientRise(p, q, s, b, c, hb, hc);
    SlopeCompare(hb - ha, hc - hb, b - a, c - b, u, v, w, p * q);
  }

  lemma TiltSlopes(rise: real, next: real, run: real, nextRun: real)
    requires next * run <= rise * nextRun
    ensures (next - nextRun) * run <= (rise - run) * nextRun
  {
  }

  lemma QuotientRise(p: real, q: real, s: real, a: real, b: real, ha: real, hb: real)
    requires IsQuotient(ha, p, q, s, a) && IsQuotient(hb, p, q, s, b)
    ensures (hb - ha) * ((q + s * a) * (q + s * b)) == p * q * (b - a)
  {
    var u, v := q + s * a, q + s * b;
    assert hb * (u * v) == (hb * v) * u == p * b * u;
    assert ha * (u * v) == (ha * u) * v == p * a * v;
    assert p * b * u == p * b * q + p * b * (s * a);
    assert p * a * v == p * a * q + p * a * (s * b);
  }

  lemma SlopeCompare(rise: real, next: real, run: real, nextRun: real, u: real, v: real, w: real, k: real)
    requires 0.0 < run && 0.0 < nextRun && 0.0 < u <= v <= w && 0.0 <= k
    requires rise * (u * v) == k * run && next * (v * w) == k * nextRun
    ensures next * run <= rise * nextRun
  {
    var t := k * run * nextRun;
    RealMono(0.0, k, run);
    RealMono(0.0, k * run, nextRun);
    RealMono(u, w, t);
    var left, right := next * run, rise * nextRun;
    assert left * (v * w) == next * (v * w) * run == t;
    assert right * (u * v) == rise * (u * v) * nextRun == t;
    RealMono2(u, u, v, v);
    RealMono2(u, v, w, w);
    CompareShares(left, right, v * w, u * v, u, w, t, v);
  }

  lemma CompareShares(left: real, right: real, vw: real, uv: real, u: real, w: real, t: real, v: real)
    requires 0.0 < u <= w && 0.0 < v && vw == v * w && uv == u * v && 0.0 <= t
    requires left * vw == t && right * uv == t
    ensures left <= right
  {
    RealMono2(u, u, v, v);
    RealCancel(0.0, right, uv);
    assert right * vw == right * v * w && right * uv == right * v * u;
    RealMono(0.0, right, v);
    RealMono(u, w, right * v);
    RealMono2(v, v, w, w);
    RealCancel(left, right, vw);
  }

  // ------------------------------------------------------------------
  // Main results
  // ------------------------------------------------------------------

  /** The value the search settles on. */
  function Value(r: Option<(nat, nat)>): nat
  {
    if r.Some? then r.value.1 else 0
  }

  /** Every size the search may use earns less than the reported profit (zero for `None`) plus
      `(2k + 1) * Slack`, where `k` counts the narrowings made. */
  lemma TwoLegArbIsNearOptimal(l: Legs, maxIn: nat, x: nat, p: nat, r: Option<(nat, nat)>, size: nat)
    requires Found(Profit(l), 0, Min(maxIn, l.aIn), x, p) && r == Reported(x, p)
    requires size <= maxIn && size <= l.aIn
    ensures var k := Narrowings(Profit(l), Progress(Range(0, Min(maxIn, l.aIn)), SEARCH_GUARD));
      ProfitOf(l, size) as real < Value(r) as real + Loss(Slack(l), k) + Slack(l)
  {
    hide V2AmountOut, IdealBack, Slack;
    var hi := Min(maxIn, l.aIn);
    IdealProfitIsConcave(l, hi);
    ProfitRoundsDown(l, hi);
    SearchIsNearOptimal(Profit(l), IdealProfit(l), Slack(l), hi, hi, x, p, size);
    assert x == 0 ==> p == 0;
  }

  /** With uint112 reserves the reported profit misses the best by less than 383 times the slack. */
  lemma Uint112ArbIsNearOptimal(l: Legs, maxIn: nat, x: nat, p: nat, r: Option<(nat, nat)>, size: nat)
    requires l.aIn < TWO_112
    requires Found(Profit(l), 0, Min(maxIn, l.aIn), x, p) && r == Reported(x, p)
    requires size <= maxIn && size <= l.aIn
    ensures ProfitOf(l, size) as real < Value(r) as real + 383.0 * Slack(l)
  {
    hide V2AmountOut, IdealBack, Slack, Loss, ProfitOf;
    var range := Range(0, Min(maxIn, l.aIn));
    GuardNeverCuts(Profit(l), range);
    TwoLegArbIsNearOptimal(l, maxIn, x, p, r, size);
    LossAtMost(Slack(l), Narrowings(Profit(l), Progress(range, SEARCH_GUARD)));
  }

  lemma LossAtMost(eps: real, k: nat)
    requires k <= 191 && 0.0 <= eps
    ensures Loss(eps, k) <= 382.0 * eps
  {
    RealMono(2.0 * k as real, 382.0, eps);
  }

  lemma NoGainBelowThreshold(l: Legs, size: nat)
    requires PricesBelowFees(l)
    ensures Back(l, size) <= size
  {
    hide V2AmountOut, IdealBack, Slack, IsQuotient;
    BackRoundsDown(l, size);
    var p, q, s := IdealShape(l);
    QuotientWithinInput(IdealBack(l, size), p, q, s, size as real);
  }

  lemma QuotientWithinInput(h: real, p: real, q: real, s: real, z: real)
    requires p <= q && 0.0 < q && 0.0 <= s && 0.0 <= z && IsQuotient(h, p, q, s, z)
    ensures h <= z
  {
    RealMono(p, q, z);
    RealMono(0.0, s, z);
    RealMono(0.0, s * z, z);
    assert z * (q + s * z) == q * z + s * z * z;
    RealCancel(h, z, q + s * z);
  }

  /** When the two prices do not pay for both fees, no size is profitable and nothing is reported. */
  lemma NoArbitrageBelowThreshold(l: Legs, maxIn: nat, x: nat, p: nat)
    requires PricesBelowFees(l)
    requires Found(Profit(l), 0, Min(maxIn, l.aIn), x, p)
    ensures Reported(x, p) == None
    ensures forall size: nat :: ProfitOf(l, size) == 0
  {
    forall size: nat
      ensures ProfitOf(l, size) == 0
    {
      NoGainBelowThreshold(l, size);
    }
    assert p == Profit(l)(x);
  }

  /** So on uint112 reserves a profit of 383 slacks anywhere in reach is enough for a report. */
  lemma BigProfitsAreReported(l: Legs, maxIn: nat, x: nat, p: nat, size: nat)
    requires l.aIn < TWO_112 && size <= maxIn && size <= l.aIn
    requires Found(Profit(l), 0, Min(maxIn, l.aIn), x, p)
    ensures 383.0 * Slack(l) <= ProfitOf(l, size) as real ==> Reported(x, p) == Some((x, p))
  {
    Uint112ArbIsNearOptimal(l, maxIn, x, p, Reported(x, p), size);
  }

  /** The same told through the pools: on a route of two funded pools, no two swaps in reach return
      `size + gain` with the gain 383 roundings above the report. */
  lemma NoRoundTripBeatsTheSizer(a: Pool, b: Pool, tokenIn: Address, mid: Address, maxIn: nat, r: Option<(nat, nat)>,
                                 size: nat, a': Pool, b': Pool, gain: nat)
    requires a.V2Pool? && b.V2Pool? && a.Priceable() && b.Priceable()
    requires Pairs(a, tokenIn, mid) && Pairs(b, mid, tokenIn)
    requires 0 < Holding(a, tokenIn) < TWO_112 && 0 < Holding(a, mid) && 0 < Holding(b, mid) && 0 < Holding(b, tokenIn)
    requires Answered(a, b, tokenIn, maxIn, r)
    requires size <= maxIn && size <= Holding(a, tokenIn) && TwoSwaps(a, b, tokenIn, mid, size, a', b', size + gain)
    ensures var slack := 1.0 + Holding(b, tokenIn) as real / Holding(b, mid) as real;
      gain as real < Value(r) as real + 383.0 * slack && (383.0 * slack <= gain as real ==> r.Some?)
  {
    var got :| SwapsTo(a, tokenIn, size, a', got) && SwapsTo(b, mid, got, b', size + gain);
    PoolAnswers(a, tokenIn, mid, size);
    PoolAnswers(b, mid, tokenIn, got);
    var l := Legs(Holding(a, tokenIn), Holding(a, mid), a.feeBps, Holding(b, mid), Holding(b, tokenIn), b.feeBps);
    assert Route(a, b, tokenIn) == Some(l);
    assert got == 0 ==> size + gain == 0;
    assert ProfitOf(l, size) == gain;
    var x: nat, p: nat :| Found(Profit(l), 0, Min(maxIn, l.aIn), x, p) && r == Reported(x, p);
    hide V2AmountOut, Found, ProfitOf;
    Uint112ArbIsNearOptimal(l, maxIn, x, p, r, size);
  }

  /** The same from the reserves and fees alone: some size at which the unfloored exchange clears
      384 slacks. */
  lemma ClearedSlackIsReported(l: Legs, maxIn: nat, x: nat, p: nat, size: nat)
    requires l.aIn < TWO_112 && size <= maxIn && size <= l.aIn
    requires Found(Profit(l), 0, Min(maxIn, l.aIn), x, p)
    requires Clears(l, size, 384.0 * Slack(l))
    ensures Reported(x, p) == Some((x, p))
  {
    hide V2AmountOut, IdealBack, Slack, Clears, Found;
    ClearingIsIdealProfit(l, size, 384.0 * Slack(l));
    BackRoundsDown(l, size);
    if Middle(l, size) == 0 {
      NothingFromNothing(l, size);
    }
    BigProfitsAreReported(l, maxIn, x, p, size);
  }

  /** `Numerator * size / (Depth + Drag * size)` returns the size and `margin` more. */
  predicate Clears(l: Legs, size: nat, margin: real)
  {
    (size as real + margin) * (Depth(l) + Drag(l) * size as real) <= Numerator(l) * size as real
  }

  lemma ClearingIsIdealProfit(l: Legs, size: nat, margin: real)
    requires Clears(l, size, margin)
    ensures size as real + margin <= IdealBack(l, size)
  {
    ShapeSigns(l);
    IdealBackIsOneQuotient(l, size);
    hide IdealBack, Numerator, Depth, Drag;
    RealMono(0.0, Drag(l), size as real);
    RealCancel(size as real + margin, IdealBack(l, size), Depth(l) + Drag(l) * size as real);
  }

  lemma NothingFromNothing(l: Legs, size: nat)
    requires Middle(l, size) == 0
    ensures Back(l, size) == 0
  {
  }

  // ------------------------------------------------------------------
  // What the floors do to the curve
  // ------------------------------------------------------------------

  /** Two pools of one coarse token, both far above the liquidity every pair locks for ever. */
  const COARSE := Legs(200_000, 6, 30, 50, 3_000_000, 30)

  lemma CoarseQuotes()
    ensures Middle(COARSE, 39_507) == 0 && Middle(COARSE, 40_121) == 1 && Middle(COARSE, 59_260) == 1
    ensures Middle(COARSE, 88_890) == 1 && Middle(COARSE, 100_300) == 1 && Middle(COARSE, 100_301) == 2
    ensures Middle(COARSE, 133_334) == 2
  {
  }

  lemma CoarseReturns()
    ensures V2AmountOut(1, 50, 3_000_000, 30) == 58_650 && V2AmountOut(2, 50, 3_000_000, 30) == 115_051
  {
  }

  lemma CoarseProfits()
    ensures ProfitOf(COARSE, 40_121) == 18_529 && ProfitOf(COARSE, 59_260) == 0 && ProfitOf(COARSE, 88_890) == 0
    ensures ProfitOf(COARSE, 100_300) == 0 && ProfitOf(COARSE, 100_301) == 14_750 && ProfitOf(COARSE, 133_334) == 0
  {
    CoarseQuotes();
    CoarseReturns();
    hide V2AmountOut, Middle;
  }

  /** The floored profit is not unimodal: it falls to nothing and rises again with every further
      unit of the middle token. */
  lemma ProfitIsNotUnimodal()
    ensures Dips(Profit(COARSE), 40_121, 100_300, 100_301) && !Unimodal(Profit(COARSE), Range(0, COARSE.aIn))
  {
    CoarseProfits();
    hide ProfitOf;
    assert Dips(Profit(COARSE), 40_121, 100_300, 100_301);
    UnimodalExactlyWhenNoDip(Profit(COARSE), Range(0, COARSE.aIn));
  }

  /** But it dips by less than the slack anywhere. */
  lemma ProfitDipsAreShallow(l: Legs, a: nat, b: nat, c: nat)
    requires a < b < c
    ensures ProfitOf(l, a) as real < ProfitOf(l, b) as real + Slack(l)
         || ProfitOf(l, c) as real < ProfitOf(l, b) as real + Slack(l)
  {
    hide V2AmountOut, IdealBack, Slack, ProfitOf;
    IdealProfitIsConcave(l, c);
    ProfitRoundsDown(l, c);
    DipsAreShallow(Profit(l), IdealProfit(l), Slack(l), c, c, a, b, c);
  }

  /** On the same pools the search, given their whole depth, reports nothing, though 40121 units
      earn 18529: every higher probe falls where the profit is nothing. */
  lemma SearchCanMissAProfit(x: nat, p: nat)
    requires Found(Profit(COARSE), 0, COARSE.aIn, x, p)
    ensures Reported(x, p) == None && ProfitOf(COARSE, 40_121) == 18_529
  {
    CoarseProfits();
    CoarseQuotes();
    var f := Profit(COARSE);
    NothingMeansNothing(39_507);
    hide ProfitOf, Middle, Profit;
    assert f(39_507) == 0 && f(59_260) == 0 && f(88_890) == 0 && f(133_334) == 0;
    CoarseNarrows(f);
    NarrowTimesWithin(f, Range(0, 39_507), 252);
    hide NarrowTimes;
    NothingMeansNothing(x);
  }

  lemma CoarseNarrows(f: nat -> nat)
    requires f(39_507) == 0 && f(59_260) == 0 && f(88_890) == 0 && f(133_334) == 0
    ensures NarrowTimes(f, Progress(Range(0, 200_000), 256)) == NarrowTimes(f, Progress(Range(0, 39_507), 252))
  {
    hide NarrowTimes;
    assert Range(0, 200_000).Probes().1 == 133_334 && Range(0, 133_334).Probes().1 == 88_890;
    assert Range(0, 88_890).Probes().1 == 59_260 && Range(0, 59_260).Probes().1 == 39_507;
    DropsTop(f, Range(0, 200_000), 256, 133_334);
    DropsTop(f, Range(0, 133_334), 255, 88_890);
    DropsTop(f, Range(0, 88_890), 254, 59_260);
    DropsTop(f, Range(0, 59_260), 253, 39_507);
  }

  lemma NothingMeansNothing(x: nat)
    requires x <= 39_507
    ensures Profit(COARSE)(x) == 0
  {
    CoarseQuotes();
    hide V2AmountOut;
    V2OutMonotone(x, 39_507, COARSE.aIn, COARSE.aIn, COARSE.aOut, COARSE.aOut, COARSE.aFee);
  }
}
