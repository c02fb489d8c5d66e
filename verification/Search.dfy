/** The guarded integer ternary search of `dex.rs`. */
module Search {
  import opened Arithmetic

  const SEARCH_GUARD: nat := 256
  const TWO_112: nat := 0x1_0000_0000_0000_0000_0000_0000_0000

  datatype Range = Range(lo: nat, hi: nat)
  {
    predicate Wide()
    {
      hi > lo + 2
    }

    /** The two probes, a third in from either end. */
    function Probes(): (m: (nat, nat))
      requires Wide()
      ensures lo < m.0 < m.1 < hi && m.0 - lo == hi - m.1 <= m.1 - m.0
      ensures 3 * (m.1 - lo) <= 2 * (hi - lo) + 2
    {
      var third := (hi - lo) / 3;
      (lo + third, hi - third)
    }

    predicate Contains(x: nat)
    {
      lo <= x <= hi
    }
  }

  // ------------------------------------------------------------------
  // Specification
  // ------------------------------------------------------------------

  /** One narrowing: probe at both thirds and drop the outer third of the lower probe. */
  function Narrow(f: nat -> nat, r: Range): (n: Range)
    requires r.Wide()
    ensures r.lo <= n.lo <= n.hi <= r.hi && n.hi - n.lo < r.hi - r.lo
    ensures 3 * (n.hi - n.lo - 2) <= 2 * (r.hi - r.lo - 2)
  {
    var (m1, m2) := r.Probes();
    if f(m1) < f(m2) then Range(m1 + 1, r.hi) else Range(r.lo, m2)
  }

  /** A range and how many narrowings the guard still allows. */
  datatype Progress = Progress(range: Range, left: nat)

  function NarrowTimes(f: nat -> nat, p: Progress): Range
    decreases p.left
  {
    if p.left == 0 || !p.range.Wide() then p.range
    else NarrowTimes(f, Progress(Narrow(f, p.range), p.left - 1))
  }

  /** How many narrowings the guarded loop makes. */
  function Narrowings(f: nat -> nat, p: Progress): nat
    decreases p.left
  {
    if p.left == 0 || !p.range.Wide() then 0
    else 1 + Narrowings(f, Progress(Narrow(f, p.range), p.left - 1))
  }

  /** `best` is the first point of the range where `f` is largest. */
  ghost predicate FirstMaximum(f: nat -> nat, r: Range, best: nat)
  {
    && r.Contains(best)
    && (forall x: nat :: r.Contains(x) ==> f(x) <= f(best))
    && (forall x: nat :: r.Contains(x) && x < best ==> f(x) < f(best))
  }

  /** What the search promises of its answer. */
  ghost predicate Found(f: nat -> nat, lo: nat, hi: nat, best: nat, bestValue: nat)
  {
    && bestValue == f(best)
    && (if lo <= hi then FirstMaximum(f, NarrowTimes(f, Progress(Range(lo, hi), SEARCH_GUARD)), best)
        else best == lo)
  }

  // ------------------------------------------------------------------
  // The search
  // ------------------------------------------------------------------

  method TernarySearchMax(lo0: nat, hi0: nat, f: nat -> nat) returns (best: nat, bestValue: nat)
    ensures Found(f, lo0, hi0, best, bestValue)
    ensures lo0 <= hi0 ==> lo0 <= best <= hi0
  {
    var lo, hi := lo0, hi0;
    var guard := 0;
    ghost var kept := NarrowTimes(f, Progress(Range(lo, hi), SEARCH_GUARD));
    while hi > lo + 2 && guard < SEARCH_GUARD
      invariant guard <= SEARCH_GUARD
      invariant if lo0 <= hi0 then lo0 <= lo <= hi <= hi0 else lo == lo0 && hi == hi0
      invariant NarrowTimes(f, Progress(Range(lo, hi), SEARCH_GUARD - guard)) == kept
    {
      ghost var before := Range(lo, hi);
      guard := guard + 1;
      var span := hi - lo;
      var m1 := lo + span / 3;
      var m2 := hi - span / 3;
      assert before.Probes() == (m1, m2);
      if f(m1) < f(m2) {
        lo := m1 + 1;
      } else {
        hi := m2;
      }
      assert Range(lo, hi) == Narrow(f, before);
    }
    best, bestValue := ScanMax(lo, hi, f);
  }

  /** The closing scan over what the narrowing left. */
  method ScanMax(lo: nat, hi: nat, f: nat -> nat) returns (best: nat, bestValue: nat)
    ensures bestValue == f(best)
    ensures if lo <= hi then FirstMaximum(f, Range(lo, hi), best) else best == lo
  {
    best, bestValue := lo, f(lo);
    var x := lo;
    while x <= hi
      invariant lo <= x && bestValue == f(best)
      invariant if lo <= hi then lo <= best <= hi && x <= hi + 1 else x == best == lo
      invariant forall y: nat :: lo <= y < x ==> f(y) <= bestValue
      invariant forall y: nat :: lo <= y < best ==> f(y) < bestValue
    {
      var v := f(x);
      if v > bestValue {
        bestValue := v;
        best := x;
      }
      x := x + 1;
    }
  }

  /** Narrowing stays inside the range it started from. */
  lemma {:induction false} NarrowTimesWithin(f: nat -> nat, r: Range, guard: nat)
    requires r.lo <= r.hi
    ensures var n := NarrowTimes(f, Progress(r, guard)); r.lo <= n.lo <= n.hi <= r.hi
    decreases guard
  {
    if guard != 0 && r.Wide() {
      NarrowTimesWithin(f, Narrow(f, r), guard - 1);
    }
  }

  // ------------------------------------------------------------------
  // The answer is the peak
  // ------------------------------------------------------------------

  /** `f` strictly rises to `peak` and never rises after it. */
  ghost predicate RisesThenNeverRises(f: nat -> nat, r: Range, peak: nat)
  {
    && r.Contains(peak)
    && (forall x: nat, y: nat :: r.lo <= x < y <= peak ==> f(x) < f(y))
    && (forall x: nat, y: nat :: peak <= x <= y <= r.hi ==> f(y) <= f(x))
  }

  lemma NarrowKeepsPeak(f: nat -> nat, r: Range, peak: nat)
    requires RisesThenNeverRises(f, r, peak) && r.Wide()
    ensures RisesThenNeverRises(f, Narrow(f, r), peak)
  {
    var (m1, m2) := r.Probes();
    assert peak <= m1 ==> f(m2) <= f(m1);
    assert m2 < peak ==> f(m1) < f(m2);
    assert Narrow(f, r).Contains(peak);
  }

  lemma {:induction false} NarrowingKeepsPeak(f: nat -> nat, r: Range, guard: nat, peak: nat)
    requires RisesThenNeverRises(f, r, peak)
    ensures RisesThenNeverRises(f, NarrowTimes(f, Progress(r, guard)), peak)
    decreases guard
  {
    hide RisesThenNeverRises;
    if guard != 0 && r.Wide() {
      NarrowKeepsPeak(f, r, peak);
      NarrowingKeepsPeak(f, Narrow(f, r), guard - 1, peak);
    }
  }

  /** The search returns exactly the peak, whether or not the guard cuts it short. */
  lemma SearchReturnsThePeak(f: nat -> nat, lo: nat, hi: nat, best: nat, bestValue: nat, peak: nat)
    requires Found(f, lo, hi, best, bestValue)
    requires RisesThenNeverRises(f, Range(lo, hi), peak)
    ensures best == peak && bestValue == f(peak)
    ensures forall x: nat :: lo <= x <= hi ==> f(x) <= bestValue
  {
    NarrowingKeepsPeak(f, Range(lo, hi), SEARCH_GUARD, peak);
    var n := NarrowTimes(f, Progress(Range(lo, hi), SEARCH_GUARD));
    assert n.Contains(best) && n.Contains(peak);
    assert best < peak ==> f(best) < f(peak);
    assert peak < best ==> f(best) <= f(peak);
    forall x: nat | lo <= x <= hi
      ensures f(x) <= bestValue
    {
      assert if x < peak then f(x) < f(peak) else f(x) <= f(peak);
    }
  }

  /** The search looks at nothing outside its range. */
  lemma {:induction false} NarrowTimesCongruent(f: nat -> nat, g: nat -> nat, r: Range, guard: nat)
    requires forall x: nat :: r.Contains(x) ==> f(x) == g(x)
    ensures NarrowTimes(f, Progress(r, guard)) == NarrowTimes(g, Progress(r, guard))
    decreases guard
  {
    hide Range.Probes;
    if guard != 0 && r.Wide() {
      var (m1, m2) := r.Probes();
      assert r.Contains(m1) && r.Contains(m2);
      assert Narrow(f, r) == Narrow(g, r);
      NarrowTimesCongruent(f, g, Narrow(f, r), guard - 1);
    }
  }

  lemma SearchIsDetermined(f: nat -> nat, g: nat -> nat, lo: nat, hi: nat, x: nat, v: nat, x': nat, v': nat)
    requires lo <= hi && Found(f, lo, hi, x, v) && Found(g, lo, hi, x', v')
    requires forall z: nat :: Range(lo, hi).Contains(z) ==> f(z) == g(z)
    ensures x == x' && v == v'
  {
    NarrowTimesCongruent(f, g, Range(lo, hi), SEARCH_GUARD);
    NarrowTimesWithin(f, Range(lo, hi), SEARCH_GUARD);
    FirstMaximumIsUnique(f, g, NarrowTimes(f, Progress(Range(lo, hi), SEARCH_GUARD)), x, x');
  }

  lemma FirstMaximumIsUnique(f: nat -> nat, g: nat -> nat, r: Range, x: nat, x': nat)
    requires FirstMaximum(f, r, x) && FirstMaximum(g, r, x')
    requires forall z: nat :: r.Contains(z) ==> f(z) == g(z)
    ensures x == x'
  {
  }

  // ------------------------------------------------------------------
  // Unimodal functions
  // ------------------------------------------------------------------

  /** Never falls before some point of the range and never rises after it. */
  ghost predicate Unimodal(f: nat -> nat, r: Range)
  {
    exists peak: nat :: r.Contains(peak) && RisesThenFalls(f, r, peak)
  }

  ghost predicate RisesThenFalls(f: nat -> nat, r: Range, peak: nat)
  {
    && (forall x: nat, y: nat :: r.lo <= x <= y <= peak ==> f(x) <= f(y))
    && (forall x: nat, y: nat :: peak <= x <= y <= r.hi ==> f(y) <= f(x))
  }

  /** A point lower than one before it and one after it. */
  ghost predicate Dips(f: nat -> nat, a: nat, b: nat, c: nat)
  {
    a < b < c && f(b) < f(a) && f(b) < f(c)
  }

  lemma {:induction false} SomeMaximum(f: nat -> nat, r: Range) returns (best: nat)
    requires r.lo <= r.hi
    ensures FirstMaximum(f, r, best)
    decreases r.hi
  {
    if r.lo == r.hi {
      best := r.lo;
    } else {
      best := SomeMaximum(f, Range(r.lo, r.hi - 1));
      if f(best) < f(r.hi) {
        best := r.hi;
      }
    }
  }

  /** A function is unimodal over a range exactly when it dips nowhere in it. */
  lemma UnimodalExactlyWhenNoDip(f: nat -> nat, r: Range)
    requires r.lo <= r.hi
    ensures Unimodal(f, r) <==> !exists a: nat, b: nat, c: nat :: r.lo <= a && c <= r.hi && Dips(f, a, b, c)
  {
    if exists a: nat, b: nat, c: nat :: r.lo <= a && c <= r.hi && Dips(f, a, b, c) {
      var a: nat, b: nat, c: nat :| r.lo <= a && c <= r.hi && Dips(f, a, b, c);
      forall peak: nat | r.Contains(peak)
        ensures !RisesThenFalls(f, r, peak)
      {
        assert b <= peak ==> f(b) < f(a);
        assert peak <= b ==> f(b) < f(c);
      }
    } else {
      var peak := SomeMaximum(f, r);
      NoDipRises(f, r, peak);
      NoDipFalls(f, r, peak);
    }
  }

  lemma NoDipRises(f: nat -> nat, r: Range, peak: nat)
    requires FirstMaximum(f, r, peak)
    requires !exists a: nat, b: nat, c: nat :: r.lo <= a && c <= r.hi && Dips(f, a, b, c)
    ensures forall x: nat, y: nat :: r.lo <= x <= y <= peak ==> f(x) <= f(y)
  {
    forall x: nat, y: nat | r.lo <= x <= y <= peak
      ensures f(x) <= f(y)
    {
      assert !Dips(f, x, y, peak);
    }
  }

  lemma NoDipFalls(f: nat -> nat, r: Range, peak: nat)
    requires FirstMaximum(f, r, peak)
    requires !exists a: nat, b: nat, c: nat :: r.lo <= a && c <= r.hi && Dips(f, a, b, c)
    ensures forall x: nat, y: nat :: peak <= x <= y <= r.hi ==> f(y) <= f(x)
  {
    forall x: nat, y: nat | peak <= x <= y <= r.hi
      ensures f(y) <= f(x)
    {
      assert !Dips(f, peak, x, y);
    }
  }

  /** One narrowing to the left, where the higher probe does not win. */
  lemma DropsTop(f: nat -> nat, r: Range, left: nat, hi: nat)
    requires 0 < left && r.Wide() && hi == r.Probes().1 && f(hi) <= f(r.Probes().0)
    ensures NarrowTimes(f, Progress(r, left)) == NarrowTimes(f, Progress(Range(r.lo, hi), left - 1))
  {
  }

  // ------------------------------------------------------------------
  // How long the narrowing takes
  // ------------------------------------------------------------------

  function Pow(b: nat, e: nat): nat
  {
    if e == 0 then 1 else b * Pow(b, e - 1)
  }

  /** Each narrowing keeps at most two thirds of the span above 2. */
  lemma {:induction false} NarrowingShrinks(f: nat -> nat, r: Range, k: nat)
    requires NarrowTimes(f, Progress(r, k)).Wide()
    ensures var n := NarrowTimes(f, Progress(r, k));
      r.Wide() && (n.hi - n.lo - 2) * Pow(3, k) <= (r.hi - r.lo - 2) * Pow(2, k)
    decreases k
  {
    hide Narrow;
    if k != 0 {
      var m := Narrow(f, r);
      NarrowingShrinks(f, m, k - 1);
      var n := NarrowTimes(f, Progress(r, k));
      ShrinkStep(r.hi - r.lo - 2, m.hi - m.lo - 2, n.hi - n.lo - 2, Pow(2, k - 1), Pow(3, k - 1));
    }
  }

  lemma ShrinkStep(s: int, s': int, s'': int, p2: nat, p3: nat)
    requires 3 * s' <= 2 * s && s'' * p3 <= s' * p2
    ensures s'' * (3 * p3) <= s * (2 * p2)
  {
    MulMono(3 * s', 2 * s, p2);
    assert s'' * (3 * p3) == 3 * (s'' * p3);
    assert 3 * s' * p2 == 3 * (s' * p2);
    assert 2 * s * p2 == s * (2 * p2);
  }

  // ------------------------------------------------------------------
  // Exactly how many steps
  // ------------------------------------------------------------------

  /** The narrowest span that can take more than `k` narrowings. */
  function Threshold(k: nat): (t: nat)
    ensures 3 <= t
  {
    if k == 0 then 3 else (3 * Threshold(k - 1) - 3) / 2 + 1
  }

  /** A narrower span never takes more than `k`, whatever the function. */
  lemma {:induction false} BelowThreshold(f: nat -> nat, r: Range, k: nat, guard: nat)
    requires r.hi < r.lo + Threshold(k)
    ensures Narrowings(f, Progress(r, guard)) <= k
    decreases k
  {
    if guard != 0 && r.Wide() {
      var n := Narrow(f, r);
      assert n.hi - n.lo <= (r.hi - r.lo) - (r.hi - r.lo) / 3;
      BelowThreshold(f, n, k - 1, guard - 1);
    }
  }

  /** A profit that is zero everywhere keeps the larger part at every step. */
  lemma {:induction false} FlatAtThreshold(r: Range, k: nat, guard: nat)
    requires r.hi >= r.lo + Threshold(k) && k < guard
    ensures k < Narrowings(x => 0, Progress(r, guard))
    decreases k
  {
    if k != 0 {
      var n := Narrow(x => 0, r);
      assert n == Range(r.lo, r.Probes().1);
      FlatAtThreshold(n, k - 1, guard - 1);
    }
  }

  /** No function takes more than `k` narrowings exactly when the span is below `Threshold(k)`. */
  lemma AtMostExactlyWhen(lo: nat, hi: nat, k: nat)
    requires lo <= hi && k < SEARCH_GUARD
    ensures (forall f: nat -> nat :: Narrowings(f, Progress(Range(lo, hi), SEARCH_GUARD)) <= k)
       <==> hi - lo < Threshold(k)
  {
    if hi - lo < Threshold(k) {
      forall f: nat -> nat
        ensures Narrowings(f, Progress(Range(lo, hi), SEARCH_GUARD)) <= k
      {
        BelowThreshold(f, Range(lo, hi), k, SEARCH_GUARD);
      }
    } else {
      FlatAtThreshold(Range(lo, hi), k, SEARCH_GUARD);
      assert !(Narrowings(x => 0, Progress(Range(lo, hi), SEARCH_GUARD)) <= k);
    }
  }

  /** `w` is the threshold after `t`. */
  predicate Widens(t: nat, w: nat)
  {
    2 * w <= 3 * t - 1 <= 2 * w + 1
  }

  lemma FiveMore(k: nat) returns (t1: nat, t2: nat, t3: nat, t4: nat)
    ensures Widens(Threshold(k), t1) && Widens(t1, t2) && Widens(t2, t3) && Widens(t3, t4)
    ensures Widens(t4, Threshold(k + 5))
  {
    t1, t2, t3, t4 := Threshold(k + 1), Threshold(k + 2), Threshold(k + 3), Threshold(k + 4);
  }

  lemma ThresholdAtZero()
    ensures Threshold(0) == 3
  {
  }

  lemma ThresholdAt30()
    ensures Threshold(30) == 311_074
  {
    hide Threshold;
    ThresholdAtZero();
    var _, _, _, _ := FiveMore(0);
    assert Threshold(5) == 14;
    var _, _, _, _ := FiveMore(5);
    assert Threshold(10) == 95;
    var _, _, _, _ := FiveMore(10);
    assert Threshold(15) == 712;
    var _, _, _, _ := FiveMore(15);
    assert Threshold(20) == 5_396;
    var _, _, _, _ := FiveMore(20);
    assert Threshold(25) == 40_966;
    var _, _, _, _ := FiveMore(25);
  }

  lemma ThresholdAt60()
    ensures Threshold(60) == 59_648_402_237
  {
    hide Threshold;
    ThresholdAt30();
    var _, _, _, _ := FiveMore(30);
    assert Threshold(35) == 2_362_205;
    var _, _, _, _ := FiveMore(35);
    assert Threshold(40) == 17_937_986;
    var _, _, _, _ := FiveMore(40);
    assert Threshold(45) == 136_216_568;
    var _, _, _, _ := FiveMore(45);
    assert Threshold(50) == 1_034_394_553;
    var _, _, _, _ := FiveMore(50);
    assert Threshold(55) == 7_854_933_629;
    var _, _, _, _ := FiveMore(55);
  }

  lemma ThresholdAt90()
    ensures Threshold(90) == 11_437_644_310_248_782
  {
    hide Threshold;
    ThresholdAt60();
    var _, _, _, _ := FiveMore(60);
    assert Threshold(65) == 452_955_054_479;
    var _, _, _, _ := FiveMore(65);
    assert Threshold(70) == 3_439_627_444_940;
    var _, _, _, _ := FiveMore(70);
    assert Threshold(75) == 26_119_670_910_004;
    var _, _, _, _ := FiveMore(75);
    assert Threshold(80) == 198_346_250_972_833;
    var _, _, _, _ := FiveMore(80);
    assert Threshold(85) == 1_506_191_843_324_944;
    var _, _, _, _ := FiveMore(85);
  }

  /** The comment's figure of 120 holds of every span up to about 2.19e21. */
  lemma ThresholdAt120()
    ensures Threshold(120) == 2_193_180_411_619_173_533_389
  {
    hide Threshold;
    ThresholdAt90();
    var _, _, _, _ := FiveMore(90);
    assert Threshold(95) == 86_854_611_480_951_677;
    var _, _, _, _ := FiveMore(95);
    assert Threshold(100) == 659_552_205_933_476_789;
    var _, _, _, _ := FiveMore(100);
    assert Threshold(105) == 5_008_474_563_807_339_358;
    var _, _, _, _ := FiveMore(105);
    assert Threshold(110) == 38_033_103_718_911_983_239;
    var _, _, _, _ := FiveMore(110);
    assert Threshold(115) == 288_813_881_365_487_872_711;
    var _, _, _, _ := FiveMore(115);
  }

  lemma ThresholdAt150()
    ensures Threshold(150) == 420_544_667_016_789_246_791_042_315
  {
    hide Threshold;
    ThresholdAt120();
    var _, _, _, _ := FiveMore(120);
    assert Threshold(125) == 16_654_463_750_733_099_019_165;
    var _, _, _, _ := FiveMore(125);
    assert Threshold(130) == 126_469_834_107_129_470_676_776;
    var _, _, _, _ := FiveMore(130);
    assert Threshold(135) == 960_380_302_751_014_417_951_757;
    var _, _, _, _ := FiveMore(135);
    assert Threshold(140) == 7_292_887_924_015_515_736_321_147;
    var _, _, _, _ := FiveMore(140);
    assert Threshold(145) == 55_380_367_672_992_822_622_688_701;
    var _, _, _, _ := FiveMore(145);
  }

  lemma ThresholdAt180()
    ensures Threshold(180) == 80_639_885_355_209_869_533_504_503_596_283
  {
    hide Threshold;
    ThresholdAt150();
    var _, _, _, _ := FiveMore(150);
    assert Threshold(155) == 3_193_511_065_158_743_342_819_477_570;
    var _, _, _, _ := FiveMore(155);
    assert Threshold(160) == 24_250_724_651_049_207_259_535_407_784;
    var _, _, _, _ := FiveMore(160);
    assert Threshold(165) == 184_153_940_318_904_917_627_097_002_849;
    var _, _, _, _ := FiveMore(165);
    assert Threshold(170) == 1_398_418_984_296_684_218_230_767_865_378;
    var _, _, _, _ := FiveMore(170);
    assert Threshold(175) == 10_619_244_162_002_945_782_189_893_477_701;
    var _, _, _, _ := FiveMore(175);
  }

  lemma ThresholdAt190()
    ensures Threshold(190) == 4_650_102_139_003_698_814_535_065_852_399_255
  {
    hide Threshold;
    ThresholdAt180();
    var _, _, _, _ := FiveMore(180);
    assert Threshold(185) == 612_359_129_416_124_946_770_049_824_184_265;
    var _, _, _, _ := FiveMore(185);
  }

  lemma NextThreshold(k: nat)
    ensures Widens(Threshold(k), Threshold(k + 1))
  {
  }

  /** A uint112 span takes at most 191, and the widest really takes 191. */
  lemma ThresholdsAt191()
    ensures Threshold(190) < TWO_112 <= Threshold(191)
  {
    ThresholdAt190();
    NextThreshold(190);
    hide Threshold;
  }

  /** For a span below 2^112 the narrowing ends by itself within 191 steps, so the guard of 256
      never cuts it short and at most three points are left to scan. */
  lemma GuardNeverCuts(f: nat -> nat, r: Range)
    requires r.lo <= r.hi && r.hi - r.lo < TWO_112
    ensures Narrowings(f, Progress(r, SEARCH_GUARD)) <= 191
    ensures !NarrowTimes(f, Progress(r, SEARCH_GUARD)).Wide()
  {
    ThresholdsAt191();
    hide Threshold, NarrowTimes, Narrowings;
    BelowThreshold(f, r, 191, SEARCH_GUARD);
    EndedEarly(f, r, SEARCH_GUARD);
  }

  /** A count below the guard means the narrowing ended by itself. */
  lemma {:induction false} EndedEarly(f: nat -> nat, r: Range, guard: nat)
    requires Narrowings(f, Progress(r, guard)) < guard
    ensures !NarrowTimes(f, Progress(r, guard)).Wide()
    decreases guard
  {
    if r.Wide() {
      EndedEarly(f, Narrow(f, r), guard - 1);
    }
  }

  /** On the widest uint112 span a flat profit takes 191 narrowings. */
  lemma WidestFlatSearchTakes191()
    ensures Narrowings(x => 0, Progress(Range(0, TWO_112 - 1), SEARCH_GUARD)) == 191
  {
    ThresholdsAt191();
    hide Threshold, NarrowTimes, Narrowings;
    FlatAtThreshold(Range(0, TWO_112 - 1), 190, SEARCH_GUARD);
    GuardNeverCuts(x => 0, Range(0, TWO_112 - 1));
  }
}
