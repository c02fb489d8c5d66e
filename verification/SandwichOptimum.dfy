/** How close the sandwich search comes to the best size, through three floored legs, a victim's
    limit and saturation at zero. */
module SandwichOptimum {
  import opened Arithmetic
  import opened NearOptimal
  import opened Quotes
  import opened Sandwich
  import opened Search
  import opened Wrappers
  import TwoLeg

  // ------------------------------------------------------------------
  // The unfloored profit in closed form
  // ------------------------------------------------------------------

  /** The share of an input the fee leaves. */
  function Keep(m: Market): (g: real)
    ensures 0.0 <= g <= 1.0
  {
    (BPS - m.fee) as real / 10_000.0
  }

  function Times(a: real, b: real): (p: real)
    ensures 0.0 < a && 0.0 < b ==> 0.0 < p
  {
    a * b
  }

  function Square(r: real): (s: real)
    ensures 0.0 < r ==> 0.0 < s
  {
    Times(r, r)
  }

  function Quadratic(a: real, b: real, c: real, x: real): real
  {
    a * x * x + b * x + c
  }

  function Linear(a: real, b: real, x: real): real
  {
    a * x + b
  }

  /** The constants of the closed form `x * (slope * x + gain) / (square * x * x + linear * x + rr)`. */
  datatype Form = Form(r: real, rr: real, square: real, linear: real, slope: real, gain: real)
  {
    function Depth(x: real): real
    {
      Quadratic(square, linear, rr, x)
    }

    function Edge(x: real): real
    {
      Linear(slope, gain, x)
    }

    /** What the constants of a market are known to satisfy. */
    ghost predicate Sound()
    {
      && 0.0 < r && rr == Square(r) && 0.0 < rr && 0.0 <= square <= 1.0 && r <= linear
      && (0.0 <= slope ==> slope * r <= gain && 0.0 < gain)
    }
  }

  /** `rr` is the square of `r`, `w` the fee-cubed victim, `t` the fee-squared in-side with the
      victim in it, `u` the fee-weighted victim. */
  function Assemble(r: real, rr: real, q: real, w: real, t: real, u: real): Form
  {
    Form(r, rr, q, r + Times(q, r) + w, t - r, Times(t, r + u) - rr)
  }

  function FormFor(r: real, v: real, g: real): Form
  {
    Assemble(r, Square(r), Square(g), Times(Times(Square(g), g), v), Times(Square(g), r + v), Times(g, v))
  }

  function FormOf(m: Market): Form
  {
    FormFor(m.rIn as real, m.victim as real, Keep(m))
  }

  lemma SquareWithin(g: real)
    requires 0.0 <= g <= 1.0
    ensures 0.0 <= g * g <= g <= 1.0 && 0.0 <= g * g * g
    ensures 0.0 < g ==> 0.0 < g * g
  {
  }

  lemma FormIsSound(m: Market)
    ensures FormOf(m).Sound()
  {
    hide FormFor, Keep, Form.Sound;
    FormForIsSound(m.rIn as real, m.victim as real, Keep(m));
  }

  lemma FormForIsSound(r: real, v: real, g: real)
    requires 0.0 < r && 0.0 < v && 0.0 <= g <= 1.0
    ensures FormFor(r, v, g).Sound()
  {
    hide Assemble, Square, Times, Form.Sound;
    SmallConstants(r, v, g);
    GainCase(r, v, g);
    AssembledIsSound(r, Square(r), Square(g), Times(Times(Square(g), g), v), Times(Square(g), r + v), Times(g, v));
  }

  lemma SmallConstants(r: real, v: real, g: real)
    requires 0.0 < r && 0.0 < v && 0.0 <= g <= 1.0
    ensures 0.0 <= Square(g) <= 1.0 && 0.0 <= Square(g) * r && 0.0 <= Times(Times(Square(g), g), v)
  {
    SquareWithin(g);
    RealMono(0.0, g * g, r);
    RealMono(0.0, g * g * g, v);
  }

  lemma GainCase(r: real, v: real, g: real)
    requires 0.0 < r && 0.0 < v && 0.0 <= g
    ensures var (t, u) := (Times(Square(g), r + v), Times(g, v));
      r <= t ==> (t - r) * r <= t * (r + u) - Square(r) && 0.0 < t * (r + u) - Square(r)
  {
    var t := Times(Square(g), r + v);
    if r <= t {
      SomeIsKept(r, g, r + v);
      PositiveProduct(g, v);
      hide Times;
      GainBound(r, t, Times(g, v));
    }
  }

  lemma AssembledIsSound(r: real, rr: real, q: real, w: real, t: real, u: real)
    requires 0.0 < r && rr == Square(r) && 0.0 < rr && 0.0 <= q <= 1.0 && 0.0 <= q * r && 0.0 <= w
    requires r <= t ==> (t - r) * r <= t * (r + u) - rr && 0.0 < t * (r + u) - rr
    ensures Assemble(r, rr, q, w, t, u).Sound()
  {
    hide Square;
  }

  lemma SomeIsKept(r: real, g: real, w: real)
    requires 0.0 < r <= g * g * w && 0.0 <= g
    ensures 0.0 < g
  {
    assert g == 0.0 ==> g * g * w == 0.0;
  }

  lemma PositiveProduct(a: real, b: real)
    requires 0.0 < a && 0.0 < b
    ensures 0.0 < a * b
  {
  }

  lemma GainBound(r: real, t: real, u: real)
    requires 0.0 < r <= t && 0.0 <= u
    ensures (t - r) * r <= t * (r + u) - Square(r)
    ensures 0.0 < u ==> 0.0 < t * (r + u) - Square(r)
  {
    var tu, tr := t * u, t * r;
    RealMono(0.0, t, u);
    RealMono(r, t, r);
    assert t * (r + u) == tr + tu;
    assert (t - r) * r == tr - r * r;
    if 0.0 < u {
      PositiveProduct(t, u);
    }
  }

  lemma DepthPositive(f: Form, x: real)
    requires f.Sound() && 0.0 <= x
    ensures 0.0 < f.Depth(x)
  {
    SumPositive(f.rr, f.square, f.linear, x);
  }

  lemma SumPositive(rr: real, q: real, l: real, x: real)
    requires 0.0 < rr && 0.0 <= q && 0.0 <= l && 0.0 <= x
    ensures 0.0 < q * x * x + l * x + rr
  {
    RealMono(0.0, l, x);
    RealMono(0.0, q, x);
    RealMono(0.0, q * x, x);
  }

  function ClosedProfit(f: Form, x: real): real
    requires f.Sound() && 0.0 <= x
  {
    DepthPositive(f, x);
    x * f.Edge(x) / f.Depth(x)
  }

  function IdealProfit(m: Market): nat -> real
  {
    (x: nat) => (FormIsSound(m); ClosedProfit(FormOf(m), x as real))
  }

  // ------------------------------------------------------------------
  // It is concave while it is positive
  // ------------------------------------------------------------------

  /** `q` is the part of `out` that `share` is of `depth`. */
  ghost predicate Pays(q: real, depth: real, share: real, out: real)
  {
    q * depth == share * out
  }

  /** `h` is the closed profit at `x`. */
  ghost predicate IsProfit(f: Form, h: real, x: real)
  {
    Pays(h, f.Depth(x), x, f.Edge(x))
  }

  /** The slope between two points, cleared of denominators. */
  function Rise(f: Form, a: real, b: real): real
  {
    f.rr * (f.gain + f.slope * (a + b)) - (f.gain * f.square - f.slope * f.linear) * (a * b)
  }

  lemma RiseIs(f: Form, a: real, b: real, ha: real, hb: real)
    requires IsProfit(f, ha, a) && IsProfit(f, hb, b)
    ensures (hb - ha) * (f.Depth(a) * f.Depth(b)) == (b - a) * Rise(f, a, b)
  {
    var da, db := f.Depth(a), f.Depth(b);
    assert hb * (da * db) == (hb * db) * da == b * f.Edge(b) * da;
    assert ha * (da * db) == (ha * da) * db == a * f.Edge(a) * db;
    CrossEdges(a, b, f.square, f.linear, f.rr, f.slope, f.gain);
  }

  lemma CrossEdges(a: real, b: real, q: real, l: real, rr: real, s: real, g: real)
    ensures b * (s * b + g) * (q * a * a + l * a + rr) - a * (s * a + g) * (q * b * b + l * b + rr)
         == (b - a) * (rr * (g + s * (a + b)) - (g * q - s * l) * (a * b))
  {
    var ab := a * b;
    assert b * (s * b + g) * (q * a * a + l * a + rr)
        == s * q * ab * ab + s * l * ab * b + s * rr * b * b + g * q * ab * a + g * l * ab + g * rr * b;
    assert a * (s * a + g) * (q * b * b + l * b + rr)
        == s * q * ab * ab + s * l * ab * a + s * rr * a * a + g * q * ab * b + g * l * ab + g * rr * a;
    assert (b - a) * (rr * (g + s * (a + b))) == g * rr * b - g * rr * a + s * rr * b * b - s * rr * a * a;
    assert (b - a) * ((g * q - s * l) * ab) == g * q * ab * b - g * q * ab * a - s * l * ab * b + s * l * ab * a;
  }

  /** What decides whether slopes fall over three points. */
  function Bend(f: Form, a: real, b: real, c: real): real
  {
    var (rr, k) := (f.rr, f.gain * f.square - f.slope * f.linear);
    rr * (f.gain + f.slope * b) * (f.square * (a + c) + f.linear) + (f.slope * rr - k * b) * (f.square * (a * c) - rr)
  }

  lemma BendIs(f: Form, a: real, b: real, c: real)
    ensures Rise(f, a, b) * f.Depth(c) - Rise(f, b, c) * f.Depth(a) == (c - a) * Bend(f, a, b, c)
  {
    var rr, k := f.rr, f.gain * f.square - f.slope * f.linear;
    var p, d := rr * (f.gain + f.slope * b), f.slope * rr - k * b;
    assert Rise(f, a, b) == p + d * a;
    assert Rise(f, b, c) == p + d * c;
    LinearCross(p, d, a, c, f.square, f.linear, rr);
  }

  lemma LinearCross(p: real, d: real, a: real, c: real, q: real, l: real, rr: real)
    ensures (p + d * a) * (q * c * c + l * c + rr) - (p + d * c) * (q * a * a + l * a + rr)
         == (c - a) * (p * (q * (a + c) + l) + d * (q * (a * c) - rr))
  {
    var ac := a * c;
    assert p * (q * c * c + l * c + rr) - p * (q * a * a + l * a + rr) == (c - a) * (p * (q * (a + c) + l));
    assert d * a * (q * c * c + l * c + rr) == d * q * ac * c + d * l * ac + d * rr * a;
    assert d * c * (q * a * a + l * a + rr) == d * q * ac * a + d * l * ac + d * rr * c;
    assert (c - a) * (d * (q * ac - rr)) == d * q * ac * c - d * q * ac * a - d * rr * c + d * rr * a;
  }

  // ------------------------------------------------------------------
  // The bend is never negative while the profit is not
  // ------------------------------------------------------------------

  /** `k0` and `J`, the two sides the bend lies between. */
  function Outer(f: Form, a: real, b: real, c: real): real
  {
    f.rr * f.linear + f.rr * f.square * (a + b + c) - f.square * f.square * (a * b * c)
  }

  function Inner(f: Form, a: real, b: real, c: real): real
  {
    var (q, rr) := (f.square, f.rr);
    f.linear * c * (rr - q * (a * b)) + rr * q * (c * c - a * b) + (rr * rr - q * q * (a * b) * (c * c))
  }

  lemma BendSplits(f: Form, a: real, b: real, c: real)
    ensures Bend(f, a, b, c) == Times(f.Edge(c), Outer(f, a, b, c)) - Times(f.slope, Inner(f, a, b, c))
  {
    hide Times;
    BendTerms(f.rr, f.square, f.linear, f.slope, f.gain, a, b, c, Outer(f, a, b, c), Inner(f, a, b, c), f.Edge(c),
              Bend(f, a, b, c));
  }

  lemma BendTerms(rr: real, q: real, l: real, s: real, g: real, a: real, b: real, c: real,
                  outer: real, inner: real, edge: real, bend: real)
    requires bend == rr * (g + s * b) * (q * (a + c) + l) + (s * rr - (g * q - s * l) * b) * (q * (a * c) - rr)
    requires outer == rr * l + rr * q * (a + b + c) - q * q * (a * b * c) && edge == s * c + g
    requires inner == l * c * (rr - q * (a * b)) + rr * q * (c * c - a * b) + (rr * rr - q * q * (a * b) * (c * c))
    ensures bend == Times(edge, outer) - Times(s, inner)
  {
  }

  /** Products of numbers between 0 and `c <= r`. */
  lemma SmallProducts(a: real, b: real, c: real, r: real)
    requires 0.0 <= a <= b <= c <= r
    ensures 0.0 <= a * b <= c * c <= Square(r)
  {
    TwoLeg.RealMono2(a, c, b, c);
    TwoLeg.RealMono2(c, r, c, r);
  }

  lemma OuterNonNegative(f: Form, a: real, b: real, c: real)
    requires f.Sound() && 0.0 <= a <= b <= c <= f.r
    ensures f.rr * f.linear <= Outer(f, a, b, c)
  {
    hide Square, Times, Outer;
    SmallProducts(a, b, c, f.r);
    OuterBound(f.rr, f.square, a + b + c, a * b, c);
    OuterIs(f, a, b, c);
  }

  lemma OuterIs(f: Form, a: real, b: real, c: real)
    ensures Outer(f, a, b, c)
         == f.rr * f.linear + Times(Times(f.rr, f.square), a + b + c) - Times(Times(Times(f.square, f.square), a * b), c)
  {
    var qq := f.square * f.square;
    assert qq * (a * b * c) == qq * (a * b) * c;
  }

  lemma OuterBound(rr: real, q: real, sum: real, ab: real, c: real)
    requires 0.0 <= q <= 1.0 && 0.0 <= ab <= rr && 0.0 <= c <= sum
    ensures Times(Times(Times(q, q), ab), c) <= Times(Times(rr, q), sum)
  {
    assert Times(q, rr) == Times(rr, q);
    hide Times;
    Kept(q, q);
    TimesWithin2(Times(q, q), q, ab, rr);
    TimesWithin2(Times(Times(q, q), ab), Times(q, rr), c, sum);
  }

  lemma TimesWithin2(a: real, b: real, c: real, d: real)
    requires 0.0 <= a <= b && 0.0 <= c <= d
    ensures 0.0 <= Times(a, c) <= Times(b, d)
  {
    TwoLeg.RealMono2(a, b, c, d);
  }

  lemma InnerNonNegative(f: Form, a: real, b: real, c: real)
    requires f.Sound() && 0.0 <= a <= b <= c <= f.r
    ensures 0.0 <= Inner(f, a, b, c)
  {
    SmallProducts(a, b, c, f.r);
    InnerTerms(f.rr, f.square, f.linear, a * b, c, c * c);
  }

  lemma InnerTerms(rr: real, q: real, l: real, ab: real, c: real, cc: real)
    requires 0.0 <= q <= 1.0 && 0.0 <= l && 0.0 <= c && 0.0 <= ab <= cc <= rr
    ensures 0.0 <= l * c * (rr - q * ab) + rr * q * (cc - ab) + (rr * rr - q * q * ab * cc)
  {
    RealMono(0.0, l, c);
    DepthTerm(rr, q, l * c, ab);
    GapTerm(rr, q, cc - ab);
    SquareTerm(rr, q, ab, cc);
  }

  lemma DepthTerm(rr: real, q: real, lc: real, ab: real)
    requires 0.0 <= q <= 1.0 && 0.0 <= lc && 0.0 <= ab <= rr
    ensures 0.0 <= lc * (rr - q * ab)
  {
    RealMono(q, 1.0, ab);
    RealMono(0.0, lc, rr - q * ab);
  }

  lemma GapTerm(rr: real, q: real, gap: real)
    requires 0.0 <= q && 0.0 <= rr && 0.0 <= gap
    ensures 0.0 <= rr * q * gap
  {
    RealMono(0.0, rr, q);
    RealMono(0.0, rr * q, gap);
  }

  lemma SquareTerm(rr: real, q: real, ab: real, cc: real)
    requires 0.0 <= q <= 1.0 && 0.0 <= ab <= cc <= rr
    ensures q * q * ab * cc <= rr * rr
  {
    SquareWithin(q);
    var qq := q * q;
    TwoLeg.RealMono2(qq, 1.0, ab, rr);
    TwoLeg.RealMono2(qq * ab, rr, cc, rr);
  }

  lemma BendNonNegative(f: Form, a: real, b: real, c: real)
    requires f.Sound() && 0.0 <= a <= b <= c <= f.r && 0.0 <= f.Edge(c)
    ensures 0.0 <= Bend(f, a, b, c)
  {
    OuterNonNegative(f, a, b, c);
    BendSplits(f, a, b, c);
    hide Bend, Outer, Inner;
    InnerNonNegative(f, a, b, c);
    var k, j := Outer(f, a, b, c), Inner(f, a, b, c);
    RealMono(0.0, f.rr, f.linear);
    if f.slope < 0.0 {
      RealMono(0.0, f.Edge(c), k);
      RealMono(0.0, -f.slope, j);
    } else {
      BendRising(f, a, b, c);
    }
  }

  /** With a rising edge the constant term carries the bend. */
  lemma BendRising(f: Form, a: real, b: real, c: real)
    requires f.Sound() && 0.0 <= a <= b <= c <= f.r && 0.0 <= f.slope
    ensures 0.0 <= Bend(f, a, b, c)
  {
    hide Bend, Outer, More, Square;
    OuterNonNegative(f, a, b, c);
    MoreNonNegative(f, a, b, c);
    BendByGain(f, a, b, c);
    CombineRising(Bend(f, a, b, c), f.slope, f.gain, f.r, f.rr, f.linear, Outer(f, a, b, c), More(f, a, b, c));
  }

  lemma CombineRising(bend: real, s: real, g: real, r: real, rr: real, l: real, k: real, more: real)
    requires bend == Times(g, k) - Times(s, Times(rr, rr)) + Times(s, more) && 0.0 <= more
    requires 0.0 <= s && 0.0 < r && rr == Square(r) && 0.0 < rr && s * r <= g && r <= l && rr * l <= k
    ensures 0.0 <= bend
  {
    RisingTerms(s, g, r, rr, l, k);
    hide Square;
    RealMono(0.0, s, more);
  }

  /** `slope * rr * rr <= gain * k`, as `slope * r <= gain` and `rr * r <= rr * linear <= k`. */
  lemma RisingTerms(s: real, g: real, r: real, rr: real, l: real, k: real)
    requires 0.0 <= s && 0.0 < r && rr == Square(r) && 0.0 < rr && s * r <= g && r <= l && rr * l <= k
    ensures s * (rr * rr) <= g * k
  {
    RealMono(r, l, rr);
    RealMono(0.0, s, r);
    RealMono(0.0, rr, r);
    TwoLeg.RealMono2(s * r, g, rr * r, k);
    assert s * r * (rr * r) == s * rr * (r * r);
  }

  function More(f: Form, a: real, b: real, c: real): real
  {
    f.rr * f.square * (a * b + b * c + c * a) + f.linear * f.square * (a * b * c)
  }

  lemma BendByGain(f: Form, a: real, b: real, c: real)
    ensures Bend(f, a, b, c)
         == Times(f.gain, Outer(f, a, b, c)) - Times(f.slope, Times(f.rr, f.rr)) + Times(f.slope, More(f, a, b, c))
  {
    hide Times;
    GainTerms(f.rr, f.square, f.linear, f.slope, f.gain, a, b, c, Outer(f, a, b, c), More(f, a, b, c), Bend(f, a, b, c));
  }

  lemma GainTerms(rr: real, q: real, l: real, s: real, g: real, a: real, b: real, c: real,
                  outer: real, more: real, bend: real)
    requires bend == rr * (g + s * b) * (q * (a + c) + l) + (s * rr - (g * q - s * l) * b) * (q * (a * c) - rr)
    requires outer == rr * l + rr * q * (a + b + c) - q * q * (a * b * c)
    requires more == rr * q * (a * b + b * c + c * a) + l * q * (a * b * c)
    ensures bend == Times(g, outer) - Times(s, Times(rr, rr)) + Times(s, more)
  {
  }

  lemma MoreNonNegative(f: Form, a: real, b: real, c: real)
    requires f.Sound() && 0.0 <= a && 0.0 <= b && 0.0 <= c
    ensures 0.0 <= More(f, a, b, c)
  {
    RealMono(0.0, a, b);
    RealMono(0.0, b, c);
    RealMono(0.0, c, a);
    RealMono(0.0, a * b, c);
    GapTerm(f.rr, f.square, a * b + b * c + c * a);
    GapTerm(f.linear, f.square, a * b * c);
  }

  // ------------------------------------------------------------------
  // Concavity
  // ------------------------------------------------------------------

  /** The slopes of the closed profit fall over any three points up to where it turns negative. */
  lemma ProfitSlopesFall(f: Form, a: real, b: real, c: real, ha: real, hb: real, hc: real)
    requires f.Sound() && 0.0 <= a < b < c <= f.r && 0.0 <= f.Edge(c)
    requires IsProfit(f, ha, a) && IsProfit(f, hb, b) && IsProfit(f, hc, c)
    ensures FallingSlopes(ha, hb, hc, a, b, c)
  {
    hide Form.Depth, Form.Edge, Rise, Bend, IsProfit, Square, Pays;
    DepthPositive(f, a);
    DepthPositive(f, b);
    DepthPositive(f, c);
    RiseIs(f, a, b, ha, hb);
    RiseIs(f, b, c, hb, hc);
    BendIs(f, a, b, c);
    BendNonNegative(f, a, b, c);
    hide Form.Sound;
    var (da, db, dc) := (f.Depth(a), f.Depth(b), f.Depth(c));
    SlopesByBend(hb - ha, hc - hb, b - a, c - b, da, db, dc, Rise(f, a, b), Rise(f, b, c), Bend(f, a, b, c));
  }

  lemma SlopesByBend(rise: real, next: real, run: real, gap: real, da: real, db: real, dc: real,
                     m: real, n: real, bend: real)
    requires 0.0 < run && 0.0 < gap && 0.0 < da && 0.0 < db && 0.0 < dc && 0.0 <= bend
    requires rise * (da * db) == run * m && next * (db * dc) == gap * n
    requires m * dc - n * da == (run + gap) * bend
    ensures next * run <= rise * gap
  {
    PositiveProduct(da, db);
    PositiveProduct(da * db, dc);
    var w := da * db * dc;
    assert rise * gap * w == (rise * (da * db)) * gap * dc == run * m * gap * dc;
    assert next * run * w == (next * (db * dc)) * run * da == gap * n * run * da;
    PositiveProduct(run, gap);
    RealMono(0.0, run + gap, bend);
    RealMono(0.0, (run + gap) * bend, run * gap);
    assert run * m * gap * dc - gap * n * run * da == (m * dc - n * da) * (run * gap);
    RealCancel(next * run, rise * gap, w);
  }

  lemma ClosedIsProfit(f: Form, x: real)
    requires f.Sound() && 0.0 <= x
    ensures IsProfit(f, ClosedProfit(f, x), x)
  {
    DepthPositive(f, x);
  }

  /** Once the edge is not positive it stays so. */
  lemma EdgeStays(f: Form, x: real, x': real)
    requires f.Sound() && 0.0 <= x <= x' && 0.0 < f.Edge(x')
    ensures 0.0 < f.Edge(x)
  {
    if 0.0 <= f.slope {
      RealMono(0.0, f.slope, x);
    } else {
      RealMono(x, x', -f.slope);
    }
  }

  lemma ConcaveUpTo(m: Market, top: nat)
    requires top <= m.rIn && 0.0 < FormOf(m).Edge(top as real)
    ensures Concave(IdealProfit(m), top)
  {
    FormIsSound(m);
    var f := FormOf(m);
    var g := IdealProfit(m);
    forall a: nat, b: nat, c: nat | a < b < c <= top
      ensures SlopesFall(g, a, b, c)
    {
      EdgeStays(f, c as real, top as real);
      ClosedIsProfit(f, a as real);
      ClosedIsProfit(f, b as real);
      ClosedIsProfit(f, c as real);
      assert f.r == m.rIn as real;
      hide FormOf, ClosedProfit;
      ProfitSlopesFall(f, a as real, b as real, c as real, g(a), g(b), g(c));
    }
  }

  // ------------------------------------------------------------------
  // What three floors cost
  // ------------------------------------------------------------------

  lemma TimesWithin(a: real, b: real, c: real)
    requires a <= b && 0.0 <= c
    ensures Times(a, c) <= Times(b, c) && Times(c, a) <= Times(c, b)
  {
    RealMono(a, b, c);
  }

  lemma PaysTimes(q: real, depth: real, share: real, out: real)
    requires Pays(q, depth, share, out)
    ensures Times(q, depth) == Times(share, out)
  {
  }

  lemma Kept(g: real, x: real)
    requires 0.0 <= g <= 1.0 && 0.0 <= x
    ensures 0.0 <= Times(g, x) <= x
  {
    AtMost(g, 1.0, x, x);
  }

  lemma QuotedLeg(m: Market, x: nat, rIn: nat, rOut: nat) returns (y: real)
    requires 0 < rIn && 0 < rOut
    ensures Pays(y, rIn as real + Times(Keep(m), x as real), Times(Keep(m), x as real), rOut as real)
    ensures V2AmountOut(x, rIn, rOut, m.fee) as real <= y < V2AmountOut(x, rIn, rOut, m.fee) as real + 1.0
  {
    hide V2AmountOut, TwoLeg.IdealQuote;
    y := TwoLeg.IdealQuote(x as real, rIn, rOut, m.fee);
    TwoLeg.FlooredQuote(x, rIn, rOut, m.fee);
    TwoLeg.IdealQuoteProduct(x as real, rIn, rOut, m.fee);
    ScaleQuote(y, x as real, rIn as real, rOut as real, Keep(m), (BPS - m.fee) as real);
  }

  lemma ScaleQuote(y: real, x: real, rIn: real, rOut: real, g: real, f: real)
    requires f == 10_000.0 * g && y * (10_000.0 * rIn + x * f) == f * rOut * x
    ensures Pays(y, rIn + Times(g, x), Times(g, x), rOut)
  {
    assert y * (10_000.0 * rIn + x * (10_000.0 * g)) == 10_000.0 * (y * (rIn + g * x));
    assert 10_000.0 * g * rOut * x == 10_000.0 * (g * x * rOut);
  }

  /** Two floors raise what is left of the out-side for the back-run by less than two units. */
  lemma LeftRoundsUp(i: real, i': real, y: real, y': real, sold: real, sold': real,
                     r: real, out: real, x: real, gv: real)
    requires Pays(i, r + x + gv, out - y, r + x) && Pays(sold, r + x + gv, gv, out - y')
    requires 0.0 < r && 0.0 <= x && 0.0 <= gv
    requires y' <= y < y' + 1.0 && sold' <= sold < sold' + 1.0 && i' == out - y' - sold'
    ensures i <= i' < i + 2.0
  {
    var w, mid := r + x + gv, out - y' - sold;
    assert Pays(mid, w, out - y', r + x);
    assert (mid - i) * w == (y - y') * (r + x);
    hide Pays;
    Share(mid - i, w, y - y', r + x);
  }

  lemma Share(d: real, w: real, t: real, z: real)
    requires d * w == t * z && 0.0 <= t <= 1.0 && 0.0 < z <= w
    ensures 0.0 <= d <= 1.0
  {
    RealMono(0.0, t, z);
    RealMono(t, 1.0, z);
    RealCancel(0.0, d, w);
    assert d * w <= z;
    WithinOne(d, w, z);
  }

  lemma WithinOne(d: real, w: real, z: real)
    requires d * w <= z <= w && 0.0 < w
    ensures d <= 1.0
  {
    assert 1.0 * w == w;
    RealCancel(d, 1.0, w);
  }

  /** How far two quotes of nearly equal inputs and depths are apart, cleared of denominators. */
  function Cross(i: real, i': real, y: real, y': real): real
  {
    y * i' - y' * i
  }

  /** A lower input into a deeper in-side pays less, by at most twice the ideal price. */
  lemma BackRoundsDownBy(b: real, b': real, i: real, i': real, y: real, y': real, g: real, o: real)
    requires 0.0 <= g <= 1.0 && 0.0 < i <= i' < i + 2.0 && 0.0 <= y' <= y < y' + 1.0 && 0.0 < o
    requires Pays(b, i + Times(g, y), Times(g, y), o) && Pays(b', i' + Times(g, y'), Times(g, y'), o)
    ensures b' <= b && Times(b - b', i) <= 2.0 * o
  {
    hide Times, Pays, Cross;
    Kept(g, y);
    Kept(g, y');
    CrossWithin(i, i', y, y', g);
    BackDifference(b, b', i, i', Times(g, y), Times(g, y'), o);
    CrossScales(g, i, i', y, y');
    FinishBack(b - b', i + Times(g, y), i' + Times(g, y'), Times(g, Cross(i, i', y, y')), o, i);
  }

  lemma FinishBack(d: real, u: real, u': real, cross: real, o: real, i: real)
    requires Pays(d, Times(u, u'), cross, o) && 0.0 <= cross <= 2.0 * u' && 0.0 < i <= u && 0.0 < u' && 0.0 < o
    ensures 0.0 <= d && Times(d, i) <= 2.0 * o
  {
    PositiveProduct(u, u');
    RealMono(0.0, cross, o);
    RealCancel(0.0, d, u * u');
    RealMono(cross, 2.0 * u', o);
    assert d * u * u' <= 2.0 * o * u';
    RealCancel(d * u, 2.0 * o, u');
    RealMono(i, u, d);
  }

  lemma BackDifference(b: real, b': real, i: real, i': real, gy: real, gy': real, o: real)
    requires Pays(b, i + gy, gy, o) && Pays(b', i' + gy', gy', o)
    ensures Pays(b - b', Times(i + gy, i' + gy'), Cross(i, i', gy, gy'), o)
  {
    var u, u' := i + gy, i' + gy';
    assert b * (u * u') == b * u * u' == gy * o * u';
    assert b' * (u * u') == b' * u' * u == gy' * o * u;
    assert gy * o * u' - gy' * o * u == (gy * i' - gy' * i) * o;
  }

  lemma CrossScales(g: real, i: real, i': real, y: real, y': real)
    ensures Times(g, Cross(i, i', y, y')) == Cross(i, i', Times(g, y), Times(g, y'))
  {
  }

  lemma AtMost(a: real, top: real, c: real, most: real)
    requires 0.0 <= a <= top && 0.0 <= c && most == top * c
    ensures 0.0 <= a * c <= most
  {
  }

  lemma CrossParts(rise: real, gap: real, i': real, y': real)
    requires 0.0 <= rise <= 1.0 && 0.0 <= gap <= 2.0 && 0.0 <= i' && 0.0 <= y'
    ensures 0.0 <= rise * i' + gap * y' <= i' + (y' + y')
  {
    AtMost(rise, 1.0, i', i');
    AtMost(gap, 2.0, y', y' + y');
    AddBounds(rise * i', gap * y', i', y' + y');
  }

  lemma AddBounds(p: real, q: real, x: real, y: real)
    requires 0.0 <= p <= x && 0.0 <= q <= y
    ensures 0.0 <= p + q <= x + y
  {
  }

  lemma CrossWithin(i: real, i': real, y: real, y': real, g: real)
    requires 0.0 <= g <= 1.0 && 0.0 < i <= i' < i + 2.0 && 0.0 <= y' <= y < y' + 1.0
    ensures 0.0 <= Times(g, Cross(i, i', y, y')) <= 2.0 * (i' + Times(g, y'))
  {
    CrossParts(y - y', i' - i, i', y');
    assert Cross(i, i', y, y') == (y - y') * i' + (i' - i) * y';
    hide Cross;
    WeightedWithin(g, Cross(i, i', y, y'), i', y');
  }

  lemma WeightedWithin(g: real, cross: real, i': real, y': real)
    requires 0.0 <= g <= 1.0 && 0.0 <= cross <= i' + (y' + y') && 0.0 <= i' && 0.0 <= y'
    ensures 0.0 <= Times(g, cross) <= 2.0 * (i' + Times(g, y'))
  {
    var gi, gy := g * i', g * y';
    AtMost(g, 1.0, i', i');
    assert gi <= i';
    assert g * (i' + (y' + y')) == gi + (gy + gy);
    AtMost(cross, i' + (y' + y'), g, gi + (gy + gy));
    assert cross * g == g * cross;
  }

  // ------------------------------------------------------------------
  // The legs meet the closed form
  // ------------------------------------------------------------------

  lemma CancelEqual(a: real, b: real, c: real)
    requires a * c == b * c && 0.0 < c
    ensures a == b
  {
    RealCancel(a, b, c);
    RealCancel(b, a, c);
  }

  /** The three unfloored legs: `y` from the front-run, `i` of the out-side left after the victim,
      `b` from the back-run. */
  ghost predicate Chained(r: real, out: real, v: real, g: real, x: real, y: real, i: real, b: real)
  {
    && Pays(y, r + Times(g, x), Times(g, x), out)
    && Pays(i, r + x + Times(g, v), out - y, r + x)
    && Pays(b, i + Times(g, y), Times(g, y), r + x + v)
  }

  lemma OneQuotient(b: real, i: real, gy: real, u: real, w: real, o: real, out: real, p: real, qx: real)
    requires Pays(gy, u, qx, out) && Pays(i, Times(w, u), out, p) && Pays(b, i + gy, gy, o) && 0.0 < out
    ensures Pays(b, p + Times(qx, w), Times(qx, w), o)
  {
    var wu := w * u;
    assert gy * wu == (gy * u) * w;
    assert (i + gy) * wu == out * (p + qx * w);
    assert b * (i + gy) * wu == gy * o * wu == (gy * wu) * o;
    CancelEqual(b * (p + qx * w), qx * o * w, out);
  }

  lemma LeftIs(r: real, out: real, gx: real, x: real, y: real, i: real, w: real)
    requires Pays(y, r + gx, gx, out) && Pays(i, w, out - y, r + x)
    ensures Pays(i, Times(w, r + gx), out, Times(r, r + x))
  {
    var u := r + gx;
    assert (out - y) * u == out * r;
    assert i * (w * u) == (i * w) * u == (out - y) * (r + x) * u == ((out - y) * u) * (r + x);
  }

  lemma TwiceWeighted(g: real, x: real, y: real, r: real, out: real)
    requires Pays(y, r + Times(g, x), Times(g, x), out)
    ensures Pays(Times(g, y), r + Times(g, x), Times(g, Times(g, x)), out)
  {
    var gx := Times(g, x);
    assert g * y * (r + gx) == g * (y * (r + gx)) == g * gx * out;
  }

  lemma BackIsOneQuotient(r: real, out: real, v: real, g: real, x: real, y: real, i: real, b: real)
    requires Chained(r, out, v, g, x, y, i, b) && 0.0 < out
    ensures var qxw := Times(Times(g, Times(g, x)), r + x + Times(g, v));
      Pays(b, Times(r, r + x) + qxw, qxw, r + x + v)
  {
    hide Times, Pays;
    var w := r + x + Times(g, v);
    LeftIs(r, out, Times(g, x), x, y, i, w);
    TwiceWeighted(g, x, y, r, out);
    OneQuotient(b, i, Times(g, y), r + Times(g, x), w, r + x + v, out, Times(r, r + x), Times(g, Times(g, x)));
  }

  /** The closed form was made for exactly these legs. */
  lemma FormMeetsLegs(r: real, v: real, g: real, x: real)
    ensures var (f, qxw) := (FormFor(r, v, g), Times(Times(g, Times(g, x)), r + x + Times(g, v)));
      && f.Depth(x) == Times(r, r + x) + qxw
      && Times(x, f.Depth(x) + f.Edge(x)) == Times(qxw, r + x + v)
  {
    hide Times, Square, Quadratic, Linear, Form.Depth, Form.Edge, FormFor;
    var q, u := Square(g), Times(g, v);
    FormIs(r, v, g, x);
    DepthTerms(r, v, g, q, u, x, Square(r), Times(Times(q, g), v), Times(q, r + v), Times(g, Times(g, x)));
  }

  lemma FormIs(r: real, v: real, g: real, x: real)
    ensures var (f, q, rr) := (FormFor(r, v, g), Square(g), Square(r));
      var (c, t) := (Times(Times(q, g), v), Times(q, r + v));
      && f.Depth(x) == Quadratic(q, r + Times(q, r) + c, rr, x)
      && f.Edge(x) == Linear(t - r, Times(t, r + Times(g, v)) - rr, x)
  {
    hide Times, Square;
  }

  lemma DepthTerms(r: real, v: real, g: real, q: real, u: real, x: real, rr: real, c: real, t: real, qx: real)
    requires q == Square(g) && u == Times(g, v) && rr == Square(r)
    requires c == Times(Times(q, g), v) && t == Times(q, r + v) && qx == Times(g, Times(g, x))
    ensures var (depth, edge) := (Quadratic(q, r + Times(q, r) + c, rr, x), Linear(t - r, Times(t, r + u) - rr, x));
      && depth == Times(r, r + x) + Times(qx, r + x + u)
      && Times(x, depth + edge) == Times(Times(qx, r + x + u), r + x + v)
  {
    hide Times, Square, Quadratic, Linear;
    TimesAssociate(q, g, v);
    SquareWeighs(g, x);
    DepthPolynomial(r, q, u, x);
    EdgePolynomial(r, v, q, u, x);
    TotalPolynomial(r, v, q, u, x, Times(qx, r + x + u));
  }

  lemma TimesAssociate(a: real, b: real, c: real)
    ensures Times(Times(a, b), c) == Times(a, Times(b, c)) == a * b * c
  {
  }

  lemma SquareWeighs(g: real, x: real)
    ensures Times(g, Times(g, x)) == Times(Square(g), x)
  {
  }

  lemma DepthPolynomial(r: real, q: real, u: real, x: real)
    ensures Quadratic(q, r + Times(q, r) + Times(q, u), Square(r), x)
         == q * x * x + (r + q * r + q * u) * x + r * r
         == Times(r, r + x) + Times(Times(q, x), r + x + u)
  {
    TimesAssociate(q, x, r + x + u);
    assert q * x * x + (r + q * r + q * u) * x + r * r == r * (r + x) + q * x * (r + x + u);
  }

  lemma EdgePolynomial(r: real, v: real, q: real, u: real, x: real)
    ensures Linear(Times(q, r + v) - r, Times(Times(q, r + v), r + u) - Square(r), x)
         == (q * (r + v) - r) * x + (q * (r + v) * (r + u) - r * r)
  {
    TimesAssociate(q, r + v, r + u);
  }

  lemma TotalPolynomial(r: real, v: real, q: real, u: real, x: real, share: real)
    requires share == Times(Times(q, x), r + x + u)
    ensures Times(x, (q * x * x + (r + q * r + q * u) * x + r * r)
                     + ((q * (r + v) - r) * x + (q * (r + v) * (r + u) - r * r)))
         == Times(share, r + x + v)
  {
    TimesAssociate(q, x, r + x + u);
    SameProduct(share, q * x * (r + x + u), r + x + v);
    TotalIdentity(r, v, q, u, x);
  }

  lemma SameProduct(a: real, b: real, c: real)
    requires a == b
    ensures Times(a, c) == b * c
  {
  }

  lemma TotalIdentity(r: real, v: real, q: real, u: real, x: real)
    ensures x * ((q * x * x + (r + q * r + q * u) * x + r * r)
                 + ((q * (r + v) - r) * x + (q * (r + v) * (r + u) - r * r)))
         == q * x * (r + x + u) * (r + x + v)
  {
  }

  lemma BackIsClosed(r: real, out: real, v: real, g: real, x: real, y: real, i: real, b: real)
    requires Chained(r, out, v, g, x, y, i, b) && 0.0 < out && FormFor(r, v, g).Sound() && 0.0 <= x
    ensures b - x == ClosedProfit(FormFor(r, v, g), x)
  {
    hide Chained, Form.Sound, ClosedProfit, Times, FormFor, Form.Depth, Form.Edge, Pays;
    var f := FormFor(r, v, g);
    BackIsOneQuotient(r, out, v, g, x, y, i, b);
    FormMeetsLegs(r, v, g, x);
    DepthPositive(f, x);
    ClosedIsProfit(f, x);
    MeetClosed(b, x, f.Depth(x), f.Edge(x), ClosedProfit(f, x), Times(Times(g, Times(g, x)), r + x + Times(g, v)),
               r + x + v);
  }

  lemma MeetClosed(b: real, x: real, d: real, e: real, h: real, share: real, out: real)
    requires Pays(b, d, share, out) && Times(x, d + e) == Times(share, out) && Pays(h, d, x, e) && 0.0 < d
    ensures b - x == h
  {
    assert (b - x) * d == x * e;
    CancelEqual(b - x, h, d);
  }

  // ------------------------------------------------------------------
  // The searched profit is the ideal one, rounded down
  // ------------------------------------------------------------------

  /** What the floors of the three legs can cost: one unit of the in-token, and two units of the
      out-token at the worst price the back-run can meet. */
  function Slack(m: Market): (s: real)
    ensures 1.0 <= s
  {
    1.0 + WorstPrice(m.rIn as real, m.rOut as real, m.victim as real)
  }

  function WorstPrice(r: real, out: real, v: real): (c: real)
    requires 0.0 < r && 0.0 < out
    ensures 0.0 <= c && Pays(c, Times(r, out), 2.0, Square(2.0 * r + v))
  {
    PositiveProduct(r, out);
    SquareNonNegative(2.0 * r + v);
    TwoLeg.RealQuotientBound(0.0, 2.0 * Square(2.0 * r + v), Times(r, out));
    2.0 * Square(2.0 * r + v) / Times(r, out)
  }

  lemma SquareNonNegative(z: real)
    ensures 0.0 <= Square(z)
  {
  }

  lemma Divided(depth: real, share: real, out: real) returns (q: real)
    requires 0.0 < depth
    ensures Pays(q, depth, share, out)
    ensures 0.0 < share && 0.0 < out ==> 0.0 < q
  {
    q := share * out / depth;
    assert q * depth == share * out;
    if 0.0 < share && 0.0 < out {
      PositiveProduct(share, out);
      RealCancel(0.0, q, depth);
    }
  }

  /** The unfloored legs exist, and enough of the out-side is left for the back-run. */
  lemma UnflooredLegs(r: real, out: real, v: real, g: real, x: real, y: real) returns (i: real, b: real)
    requires 0.0 < r && 0.0 < out && 0.0 < v && 0.0 <= g <= 1.0 && 0.0 <= x <= r && 0.0 <= y
    requires Pays(y, r + Times(g, x), Times(g, x), out)
    ensures Chained(r, out, v, g, x, y, i, b) && 0.0 < i && Times(r, out) <= Times(i, 2.0 * r + v)
  {
    hide Times, Pays;
    Kept(g, x);
    Kept(g, v);
    Kept(g, y);
    SomeIsLeft(y, r, out, Times(g, x));
    i := Divided(r + x + Times(g, v), out - y, r + x);
    b := Divided(i + Times(g, y), Times(g, y), r + x + v);
    EnoughLeft(i, r + x + Times(g, v), y, r, out, Times(g, x), x, 2.0 * r + v);
  }

  lemma SomeIsLeft(y: real, r: real, out: real, gx: real)
    requires 0.0 < r && 0.0 < out && 0.0 <= gx && Pays(y, r + gx, gx, out)
    ensures 0.0 < out - y && Times(out - y, r + gx) == Times(r, out)
  {
    var left, u := out - y, r + gx;
    assert left * u == out * u - y * u == r * out;
    PositiveProduct(r, out);
    RealCancel(0.0, left, u);
  }

  lemma EnoughLeft(i: real, w: real, y: real, r: real, out: real, gx: real, x: real, z: real)
    requires 0.0 < r && 0.0 < out && 0.0 <= gx <= x && 0.0 < w <= z && 0.0 < i
    requires Pays(y, r + gx, gx, out) && Pays(i, w, out - y, r + x)
    ensures Times(r, out) <= Times(i, z)
  {
    hide Times, Pays;
    SomeIsLeft(y, r, out, gx);
    TimesWithin(r + gx, r + x, out - y);
    PaysTimes(i, w, out - y, r + x);
    TimesWithin(w, z, i);
  }

  /** Twice the deepest in-side, against what is left of the out-side. */
  lemma WorstPriceCovers(r: real, out: real, v: real, i: real, o: real)
    requires 0.0 < r && 0.0 < out && 0.0 < v && 0.0 < i && 0.0 <= o <= 2.0 * r + v
    requires Times(r, out) <= Times(i, 2.0 * r + v)
    ensures 2.0 * o <= Times(WorstPrice(r, out, v), i)
  {
    hide WorstPrice, Times, Pays, Square;
    CoversTwice(WorstPrice(r, out, v), 2.0 * r + v, Times(r, out), i);
  }

  lemma CoversTwice(c: real, z: real, k: real, i: real)
    requires 0.0 <= c && 0.0 < z && Pays(c, k, 2.0, Square(z)) && k <= Times(i, z)
    ensures 2.0 * z <= Times(c, i)
  {
    RealMono(k, i * z, c);
    assert 2.0 * z * z <= c * i * z;
    RealCancel(2.0 * z, c * i, z);
  }

  lemma CancelCost(b: real, paid: real, i: real, o: real, c: real)
    requires 0.0 < i && Times(b - paid, i) <= 2.0 * o <= Times(c, i)
    ensures b <= paid + c
  {
    RealCancel(b - paid, c, i);
  }

  /** The floors of the first two legs and the worst price bound what the third pays less. */
  lemma FloorsCost(r: real, out: real, v: real, g: real, x: real, y: real, i: real, b: real,
                   y': real, sold: real, sold': real, paid: real)
    requires 0.0 < r && 0.0 < out && 0.0 < v && 0.0 <= g <= 1.0 && 0.0 <= x <= r
    requires Chained(r, out, v, g, x, y, i, b) && 0.0 < i && Times(r, out) <= Times(i, 2.0 * r + v)
    requires 0.0 <= y' <= y < y' + 1.0 && sold' <= sold < sold' + 1.0
    requires Pays(sold, r + x + Times(g, v), Times(g, v), out - y')
    requires Pays(paid, out - y' - sold' + Times(g, y'), Times(g, y'), r + x + v)
    ensures paid <= b <= paid + WorstPrice(r, out, v)
  {
    hide WorstPrice, Times, Pays;
    var i', o := out - y' - sold', r + x + v;
    Kept(g, v);
    LeftRoundsUp(i, i', y, y', sold, sold', r, out, x, Times(g, v));
    BackRoundsDownBy(b, paid, i, i', y, y', g, o);
    WorstPriceCovers(r, out, v, i, o);
    CancelCost(b, paid, i, o, WorstPrice(r, out, v));
  }

  /** The three floored legs return the unfloored amount, rounded down by less than the slack. */
  lemma BackRoundsDown(m: Market, x: nat)
    requires x <= m.rIn
    ensures BackOut(m, x) as real <= x as real + IdealProfit(m)(x) < BackOut(m, x) as real + Slack(m)
  {
    hide V2AmountOut, Keep, Times, FormFor, ClosedProfit, Chained, WorstPrice, Pays;
    var (r, out, v, g, z) := (m.rIn as real, m.rOut as real, m.victim as real, Keep(m), x as real);
    var front, served := FrontOut(m, x), VictimOut(m, x);
    var y := QuotedLeg(m, x, m.rIn, m.rOut);
    var sold := QuotedLeg(m, m.victim, m.rIn + x, m.rOut - front);
    var paid := QuotedLeg(m, front, m.rOut - front - served, m.rIn + x + m.victim);
    var i, b := UnflooredLegs(r, out, v, g, z, y);
    FloorsCost(r, out, v, g, z, y, i, b, front as real, sold, served as real, paid);
    FormIsSound(m);
    BackIsClosed(r, out, v, g, z, y, i, b);
  }

  // ------------------------------------------------------------------
  // The sizes worth searching
  // ------------------------------------------------------------------

  /** The victim is served and the unfloored profit is positive. */
  ghost predicate Good(m: Market, x: nat)
  {
    VictimServed(m, x) && 0.0 < FormOf(m).Edge(x as real)
  }

  lemma GoodIsDownwardClosed(m: Market, x: nat, x': nat)
    requires x <= x' && Good(m, x')
    ensures Good(m, x)
  {
    hide VictimServed, FormOf;
    FormIsSound(m);
    FeasibleSizesAreDownwardClosed(m, x, x');
    EdgeStays(FormOf(m), x as real, x' as real);
  }

  /** The good sizes up to `hi` are those up to `top`. */
  lemma {:induction false} LastGood(m: Market, hi: nat) returns (top: nat)
    requires Good(m, 0)
    ensures top <= hi && Good(m, top)
    ensures forall x: nat :: x <= hi ==> (Good(m, x) <==> x <= top)
  {
    hide Good;
    if Good(m, hi) {
      top := hi;
    } else {
      top := LastGood(m, hi - 1);
    }
    forall x: nat | x <= top
      ensures Good(m, x)
    {
      GoodIsDownwardClosed(m, x, top);
    }
  }

  lemma ServedProfit(m: Market, x: nat)
    ensures ProfitOf(m, x) == if VictimServed(m, x) then SaturatingSub(BackOut(m, x), x) else 0
  {
    ProfitCases(m, x);
    if FrontOut(m, x) == 0 {
      NothingBack(m, x);
    }
  }

  lemma NothingBack(m: Market, x: nat)
    requires FrontOut(m, x) == 0
    ensures BackOut(m, x) == 0
  {
  }

  lemma NoEdgeNoProfit(f: Form, x: real)
    requires f.Sound() && 0.0 <= x && f.Edge(x) <= 0.0
    ensures ClosedProfit(f, x) <= 0.0
  {
    DepthPositive(f, x);
    ClosedIsProfit(f, x);
    hide Form.Sound, ClosedProfit, Form.Depth, Form.Edge;
    RealMono(f.Edge(x), 0.0, x);
    RealCancel(ClosedProfit(f, x), 0.0, f.Depth(x));
  }

  /** A size that is not good earns nothing. */
  lemma OnlyGoodSizesEarn(m: Market, x: nat)
    requires x <= m.rIn && !Good(m, x)
    ensures ProfitOf(m, x) == 0
  {
    hide VictimServed, ClosedProfit, FormOf, Slack;
    ServedProfit(m, x);
    if VictimServed(m, x) {
      FormIsSound(m);
      NoEdgeNoProfit(FormOf(m), x as real);
      BackRoundsDown(m, x);
    }
  }

  lemma GoodSizesRoundDown(m: Market, x: nat)
    requires x <= m.rIn && Good(m, x)
    ensures ProfitOf(m, x) as real <= Pos(IdealProfit(m)(x)) < ProfitOf(m, x) as real + Slack(m)
  {
    ServedProfit(m, x);
    BackRoundsDown(m, x);
    hide VictimServed, FormOf, Slack, IdealProfit, ProfitOf, BackOut;
  }

  lemma ProfitRoundsDown(m: Market, top: nat, hi: nat)
    requires top <= hi <= m.rIn
    requires forall x: nat :: x <= hi ==> (Good(m, x) <==> x <= top)
    ensures RoundsDown(Profit(m), IdealProfit(m), Slack(m), top, hi)
  {
    hide Good, ProfitOf, IdealProfit, Slack;
    forall x: nat | x <= hi
      ensures Profit(m)(x) as real <= Ideal(IdealProfit(m), top, x) < Profit(m)(x) as real + Slack(m)
    {
      if x <= top {
        GoodSizesRoundDown(m, x);
      } else {
        OnlyGoodSizesEarn(m, x);
      }
    }
  }

  lemma IdealAtZero(m: Market)
    ensures IdealProfit(m)(0) == 0.0
  {
    FormIsSound(m);
    ClosedIsProfit(FormOf(m), 0.0);
    DepthPositive(FormOf(m), 0.0);
    hide FormOf, ClosedProfit, Form.Depth, Form.Edge;
    CancelEqual(IdealProfit(m)(0), 0.0, FormOf(m).Depth(0.0));
  }

  // ------------------------------------------------------------------
  // Main results
  // ------------------------------------------------------------------

  /** The gross profit the search settles on. */
  function Gross(r: Option<SandwichSizing>): nat
  {
    if r.Some? then r.value.grossProfit else 0
  }

  /** Every size the search may use earns less than the reported profit (zero for `None`) plus
      `(2k + 1) * Slack`, where `k` counts the narrowings made. */
  lemma SandwichIsNearOptimal(m: Market, maxIn: nat, x: nat, p: nat, r: Option<SandwichSizing>, size: nat)
    requires Found(Profit(m), 0, Min(maxIn, m.rIn), x, p)
    requires r == (if p == 0 || x == 0 then None else Some(Sizing(m, x, p)))
    requires size <= maxIn && size <= m.rIn
    ensures var k := Narrowings(Profit(m), Progress(Range(0, Min(maxIn, m.rIn)), SEARCH_GUARD));
      ProfitOf(m, size) as real < Gross(r) as real + Loss(Slack(m), k) + Slack(m)
  {
    var hi := Min(maxIn, m.rIn);
    assert x == 0 ==> p == 0;
    hide ProfitOf, IdealProfit, Slack, Good, Found;
    if Good(m, 0) {
      var top := LastGood(m, hi);
      assert Good(m, top);
      GoodIsConcave(m, top);
      IdealAtZero(m);
      ProfitRoundsDown(m, top, hi);
      SearchIsNearOptimal(Profit(m), IdealProfit(m), Slack(m), top, hi, x, p, size);
    } else {
      NothingIsGood(m, size);
      OnlyGoodSizesEarn(m, size);
      LossNonNegative(Slack(m), Narrowings(Profit(m), Progress(Range(0, hi), SEARCH_GUARD)));
    }
  }

  lemma GoodIsConcave(m: Market, top: nat)
    requires top <= m.rIn && Good(m, top)
    ensures Concave(IdealProfit(m), top)
  {
    hide VictimServed;
    ConcaveUpTo(m, top);
  }

  lemma NothingIsGood(m: Market, size: nat)
    requires !Good(m, 0)
    ensures !Good(m, size)
  {
    hide Good;
    if Good(m, size) {
      GoodIsDownwardClosed(m, 0, size);
    }
  }

  lemma LossNonNegative(eps: real, k: nat)
    requires 0.0 <= eps
    ensures 0.0 <= Loss(eps, k)
  {
    RealMono(0.0, 2.0 * k as real, eps);
  }

  /** With uint112 reserves the reported profit misses the best by less than 383 times the slack. */
  lemma Uint112SandwichIsNearOptimal(m: Market, maxIn: nat, x: nat, p: nat, r: Option<SandwichSizing>, size: nat)
    requires m.rIn < TWO_112
    requires Found(Profit(m), 0, Min(maxIn, m.rIn), x, p)
    requires r == (if p == 0 || x == 0 then None else Some(Sizing(m, x, p)))
    requires size <= maxIn && size <= m.rIn
    ensures ProfitOf(m, size) as real < Gross(r) as real + 383.0 * Slack(m)
  {
    hide V2AmountOut, IdealProfit, Slack, Loss, ProfitOf, Found;
    var range := Range(0, Min(maxIn, m.rIn));
    GuardNeverCuts(Profit(m), range);
    SandwichIsNearOptimal(m, maxIn, x, p, r, size);
    TwoLeg.LossAtMost(Slack(m), Narrowings(Profit(m), Progress(range, SEARCH_GUARD)));
  }
}
