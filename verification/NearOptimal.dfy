/** How close the integer search comes to the optimum of a concave profit that the searched
    integer profit follows only up to rounding and saturation at zero. */
module NearOptimal {
  import opened Search

  function Pos(v: real): real
  {
    if v < 0.0 then 0.0 else v
  }

  /** Discrete concavity on [0, top]: slopes fall from left to right. */
  ghost predicate Concave(g: nat -> real, top: nat)
  {
    forall a: nat, b: nat, c: nat :: a < b < c <= top ==> SlopesFall(g, a, b, c)
  }

  ghost predicate SlopesFall(g: nat -> real, a: nat, b: nat, c: nat)
  {
    FallingSlopes(g(a), g(b), g(c), a as real, b as real, c as real)
  }

  /** The slope from `b` to `c` is at most the slope from `a` to `b`. */
  ghost predicate FallingSlopes(ga: real, gb: real, gc: real, a: real, b: real, c: real)
  {
    (gc - gb) * (b - a) <= (gb - ga) * (c - b)
  }

  /** The profit `g` promises: cut off at zero, and nothing past `top`. */
  function Ideal(g: nat -> real, top: nat, x: nat): real
  {
    if x <= top then Pos(g(x)) else 0.0
  }

  /** Up to `hi`, `f` is that promise rounded down by less than `eps`. */
  ghost predicate RoundsDown(f: nat -> nat, g: nat -> real, eps: real, top: nat, hi: nat)
  {
    forall x: nat :: x <= hi ==> f(x) as real <= Ideal(g, top, x) < f(x) as real + eps
  }

  lemma RealMono(a: real, b: real, c: real)
    requires a <= b && 0.0 <= c
    ensures a * c <= b * c
  {
  }

  lemma RealCancel(a: real, b: real, c: real)
    requires a * c <= b * c && 0.0 < c
    ensures a <= b
    ensures a * c < b * c ==> a < b
  {
  }

  /** Against falling slopes, a run no longer than the one before it gains no more than the
      one before it gained. */
  lemma RunGains(gain: real, next: real, before: real, after: real, eps: real)
    requires 0.0 <= after <= before && 0.0 < before && 0.0 < eps
    requires next * before <= gain * after && gain < eps
    ensures next < eps
  {
    var most := Pos(gain);
    RealMono(gain, most, after);
    RealMono(after, before, most);
    RealCancel(next, most, before);
  }

  /** With `g(0) = 0`, a concave `g` is non-negative between zero and a point where it is positive. */
  lemma PositiveBelow(g: nat -> real, top: nat, m: nat, x: nat)
    requires Concave(g, top) && g(0) == 0.0 && 0 < m < x <= top && 0.0 < g(x)
    ensures 0.0 <= g(m)
  {
    assert SlopesFall(g, 0, m, x);
    var dm, dx := m as real, x as real;
    assert (g(x) - g(m)) * dm == g(x) * dm - g(m) * dm;
    assert g(m) * (dx - dm) == g(m) * dx - g(m) * dm;
    RealMono(0.0, g(x), dm);
    RealCancel(0.0, g(m), dx);
  }

  /** How far from unimodal rounding can take the profit: between two points it dips by less than
      one rounding. */
  lemma DipsAreShallow(f: nat -> nat, g: nat -> real, eps: real, top: nat, hi: nat, a: nat, b: nat, c: nat)
    requires Concave(g, top) && RoundsDown(f, g, eps, top, hi) && 0.0 < eps
    requires a < b < c <= hi
    ensures f(a) as real < f(b) as real + eps || f(c) as real < f(b) as real + eps
  {
    assert f(a) as real <= Ideal(g, top, a) && Ideal(g, top, b) < f(b) as real + eps;
    assert f(c) as real <= Ideal(g, top, c);
    if c <= top {
      assert SlopesFall(g, a, b, c);
      BetweenNotBelow(g(a), g(b), g(c), a as real, b as real, c as real);
    }
    hide RoundsDown, Concave;
  }

  lemma BetweenNotBelow(ga: real, gb: real, gc: real, a: real, b: real, c: real)
    requires FallingSlopes(ga, gb, gc, a, b, c) && a < b < c
    ensures ga <= gb || gc <= gb
  {
    if gb < gc {
      RealMono(0.0, gc - gb, b - a);
      RealCancel(0.0, gb - ga, c - b);
    }
  }

  /** The lower probe wins: what lies left of it is given up. */
  lemma LeftLoses(f: nat -> nat, g: nat -> real, eps: real, top: nat, hi: nat, r: Range, x: nat)
    requires Concave(g, top) && RoundsDown(f, g, eps, top, hi) && 0.0 < eps
    requires r.Wide() && r.hi <= hi && r.lo <= x <= r.Probes().0
    requires f(r.Probes().0) < f(r.Probes().1)
    ensures Ideal(g, top, x) < Ideal(g, top, r.Probes().1) + 2.0 * eps
  {
    var (m1, m2) := r.Probes();
    assert f(m1) as real < f(m2) as real <= Ideal(g, top, m2);
    assert m2 <= top && g(m1) < f(m1) as real + eps;
    if x < m1 {
      assert SlopesFall(g, x, m1, m2);
      LeftBound(g(x), g(m1), g(m2), x as real, m1 as real, m2 as real, eps);
    }
    hide RoundsDown, Concave;
  }

  lemma LeftBound(gx: real, g1: real, g2: real, x: real, m1: real, m2: real, eps: real)
    requires FallingSlopes(gx, g1, g2, x, m1, m2) && x < m1 < m2 && m1 - x <= m2 - m1
    requires 0.0 < eps && 0.0 < g2 && g1 < g2 + eps
    ensures Pos(gx) < g2 + 2.0 * eps
  {
    FlipSlopes(gx, g1, g2, m1 - x, m2 - m1);
    RunGains(g1 - g2, gx - g1, m2 - m1, m1 - x, eps);
  }

  lemma FlipSlopes(gx: real, g1: real, g2: real, run: real, gap: real)
    requires (g2 - g1) * run <= (g1 - gx) * gap
    ensures (gx - g1) * gap <= (g1 - g2) * run
  {
    assert (gx - g1) * gap == -((g1 - gx) * gap);
    assert (g1 - g2) * run == -((g2 - g1) * run);
  }

  /** The higher probe does not win: what lies right of it is given up. */
  lemma RightLoses(f: nat -> nat, g: nat -> real, eps: real, top: nat, hi: nat, r: Range, x: nat)
    requires Concave(g, top) && g(0) == 0.0 && RoundsDown(f, g, eps, top, hi) && 0.0 < eps
    requires r.Wide() && r.hi <= hi && r.Probes().1 < x <= r.hi
    requires f(r.Probes().1) <= f(r.Probes().0)
    ensures Ideal(g, top, x) < Ideal(g, top, r.Probes().0) + 2.0 * eps
  {
    if x <= top && 0.0 < g(x) {
      var (m1, m2) := r.Probes();
      PositiveBelow(g, top, m1, x);
      assert f(m2) as real <= f(m1) as real;
      assert g(m2) < f(m2) as real + eps;
      assert f(m1) as real <= g(m1);
      assert SlopesFall(g, m1, m2, x);
      RunGains(g(m2) - g(m1), g(x) - g(m2), m2 as real - m1 as real, x as real - m2 as real, eps);
    }
  }

  /** One narrowing loses less than `2 * eps` of the ideal value at any point `x`: some point `y`
      that survives is that good. */
  lemma NarrowLoses(f: nat -> nat, g: nat -> real, eps: real, top: nat, hi: nat, r: Range, x: nat) returns (y: nat)
    requires Concave(g, top) && g(0) == 0.0 && RoundsDown(f, g, eps, top, hi) && 0.0 < eps
    requires r.Wide() && r.hi <= hi && r.Contains(x)
    ensures Narrow(f, r).Contains(y) && Ideal(g, top, x) < Ideal(g, top, y) + 2.0 * eps
  {
    hide Concave, RoundsDown, Range.Probes, Ideal;
    var (m1, m2) := r.Probes();
    if Narrow(f, r).Contains(x) {
      y := x;
    } else if f(m1) < f(m2) {
      y := m2;
      LeftLoses(f, g, eps, top, hi, r, x);
    } else {
      y := m1;
      RightLoses(f, g, eps, top, hi, r, x);
    }
  }

  /** The loss that `k` narrowings may add up to. */
  function Loss(eps: real, k: nat): real
  {
    2.0 * (k as real) * eps
  }

  lemma LossAdds(eps: real, k: nat)
    ensures Loss(eps, 0) == 0.0
    ensures Loss(eps, k + 1) == Loss(eps, k) + 2.0 * eps
  {
    assert 2.0 * ((k + 1) as real) * eps == 2.0 * (k as real) * eps + 2.0 * eps;
  }

  lemma {:induction false} NarrowingsLose(f: nat -> nat, g: nat -> real, eps: real, top: nat, hi: nat, r: Range,
                                          guard: nat, x: nat) returns (y: nat)
    requires Concave(g, top) && g(0) == 0.0 && RoundsDown(f, g, eps, top, hi) && 0.0 < eps
    requires r.hi <= hi && r.Contains(x)
    ensures NarrowTimes(f, Progress(r, guard)).Contains(y)
    ensures Ideal(g, top, x) <= Ideal(g, top, y) + Loss(eps, Narrowings(f, Progress(r, guard)))
    decreases guard
  {
    hide Concave, RoundsDown, Ideal, Loss, Narrow;
    if guard == 0 || !r.Wide() {
      y := x;
      LossAdds(eps, 0);
    } else {
      var z := NarrowLoses(f, g, eps, top, hi, r, x);
      y := NarrowingsLose(f, g, eps, top, hi, Narrow(f, r), guard - 1, z);
      var k := Narrowings(f, Progress(Narrow(f, r), guard - 1));
      LossAdds(eps, k);
    }
  }

  /** The value the search returns misses the best ideal value, and so the best searched profit,
      by less than `(2k + 1) * eps`, `k` being the number of narrowings made. */
  lemma SearchIsNearOptimal(f: nat -> nat, g: nat -> real, eps: real, top: nat, hi: nat,
                            best: nat, bestValue: nat, x: nat)
    requires Concave(g, top) && g(0) == 0.0 && RoundsDown(f, g, eps, top, hi) && 0.0 < eps
    requires Found(f, 0, hi, best, bestValue) && x <= hi
    ensures var k := Narrowings(f, Progress(Range(0, hi), SEARCH_GUARD));
      f(x) as real <= Ideal(g, top, x) < bestValue as real + Loss(eps, k) + eps
  {
    var r := Range(0, hi);
    var y := NarrowingsLose(f, g, eps, top, hi, r, SEARCH_GUARD, x);
    NarrowTimesWithin(f, r, SEARCH_GUARD);
    assert f(y) <= bestValue;
  }
}
