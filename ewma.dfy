/** The exponentially weighted moving average behind fitness (CTL) and
    fatigue (ATL) in lib/pmc.js: every day the average moves a fixed fraction
    `k` of the way towards that day's training stress. The factor is a
    parameter; `1 - exp(-1/42)` and `1 - exp(-1/7)` are the two the
    dashboard uses, and every property here holds for any factor strictly
    between 0 and 1. */
module Ewma {

  predicate Factor(k: real) {
    0.0 < k < 1.0
  }

  /** `c + k * (tss - c)`: one day of the average. */
  function Toward(c: real, tss: real, k: real): real
  {
    c + k * (tss - c)
  }

  /** The average after folding the daily stresses `ts` over the start value `c`. */
  function Run(c: real, ts: seq<real>, k: real): real
  {
    if ts == [] then c else Toward(Run(c, ts[..|ts| - 1], k), ts[|ts| - 1], k)
  }

  // ---------------------------------------------------------------------------
  // Arithmetic facts about a factor in [0, 1]. Each is stated for one sign so
  // that no proof has to split cases over a product.

  lemma ScaleDown(k: real, x: real)
    requires 0.0 <= k <= 1.0 && 0.0 <= x
    ensures 0.0 <= k * x <= x
  {
    assert 0.0 <= (1.0 - k) * x;
  }

  lemma ScaleUp(k: real, x: real)
    requires 0.0 <= k <= 1.0 && x <= 0.0
    ensures x <= k * x <= 0.0
  {
    assert 0.0 <= (1.0 - k) * (0.0 - x);
  }

  lemma ShrinkNonNegative(g: real, d: real, p: real)
    requires 0.0 <= p <= 1.0 && d == p * g && 0.0 <= g
    ensures 0.0 <= d <= g
  {
    ScaleDown(p, g);
  }

  lemma ShrinkNonPositive(g: real, d: real, p: real)
    requires 0.0 <= p <= 1.0 && d == p * g && g <= 0.0
    ensures g <= d <= 0.0
  {
    ScaleUp(p, g);
  }

  /** A gap `g` shrunk by a factor in [0, 1] keeps its sign and does not grow. */
  lemma GapShrinks(g: real, d: real, p: real)
    requires 0.0 <= p <= 1.0 && d == p * g
    ensures 0.0 <= g ==> 0.0 <= d <= g
    ensures g <= 0.0 ==> g <= d <= 0.0
  {
    if 0.0 <= g {
      ShrinkNonNegative(g, d, p);
    }
    if g <= 0.0 {
      ShrinkNonPositive(g, d, p);
    }
  }

  lemma MulAssociative(a: real, b: real, c: real)
    ensures a * (b * c) == (a * b) * c
  {
  }

  /** Two averages `g` apart, moved towards the same stress, end up
      `(1 - k) * g` apart. */
  lemma TowardContracts(c1: real, c2: real, t: real, k: real, g: real)
    requires c1 - c2 == g
    ensures Toward(c1, t, k) - Toward(c2, t, k) == (1.0 - k) * g
  {
  }

  // ---------------------------------------------------------------------------
  // Bounds

  /** One day is a convex combination: the new average lies between the old
      one and the day's stress. */
  lemma StepBetween(c: real, t: real, k: real)
    requires Factor(k)
    ensures c <= t ==> c <= Toward(c, t, k) <= t
    ensures t <= c ==> t <= Toward(c, t, k) <= c
  {
    TowardContracts(c, t, t, k, c - t);
    GapShrinks(c - t, Toward(c, t, k) - Toward(t, t, k), 1.0 - k);
  }

  /** With every stress in [0, m] and a start inside [0, m], the average never
      leaves [0, m]. */
  lemma {:induction false} RunWithin(c: real, ts: seq<real>, k: real, m: real)
    requires Factor(k) && 0.0 <= c <= m
    requires forall i :: 0 <= i < |ts| ==> 0.0 <= ts[i] <= m
    ensures 0.0 <= Run(c, ts, k) <= m
  {
    if ts != [] {
      RunWithin(c, ts[..|ts| - 1], k, m);
      StepBetween(Run(c, ts[..|ts| - 1], k), ts[|ts| - 1], k);
    }
  }

  // ---------------------------------------------------------------------------
  // Forgetting the start

  /** `g` after `n` days of shrinking by the factor `1 - k`. */
  function Decay(g: real, k: real, n: nat): real
  {
    if n == 0 then g else (1.0 - k) * Decay(g, k, n - 1)
  }

  function Pow(x: real, n: nat): real
  {
    if n == 0 then 1.0 else x * Pow(x, n - 1)
  }

  /** `Decay` is the closed form `(1 - k)^n * g`. */
  lemma {:induction false} DecayIsPow(g: real, k: real, n: nat)
    ensures Decay(g, k, n) == Pow(1.0 - k, n) * g
  {
    if n > 0 {
      DecayIsPow(g, k, n - 1);
      MulAssociative(1.0 - k, Pow(1.0 - k, n - 1), g);
    }
  }

  /** A decaying gap keeps its sign and never grows. */
  lemma {:induction false} DecayShrinks(g: real, k: real, n: nat)
    requires Factor(k)
    ensures 0.0 <= g ==> 0.0 <= Decay(g, k, n) <= g
    ensures g <= 0.0 ==> g <= Decay(g, k, n) <= 0.0
  {
    if n > 0 {
      DecayShrinks(g, k, n - 1);
      GapShrinks(Decay(g, k, n - 1), Decay(g, k, n), 1.0 - k);
    }
  }

  /** Two runs over the same stresses forget their starting difference
      geometrically: after n days it has decayed n times by the factor 1 - k. */
  lemma {:induction false} RunsContract(c1: real, c2: real, ts: seq<real>, k: real)
    ensures Run(c1, ts, k) - Run(c2, ts, k) == Decay(c1 - c2, k, |ts|)
  {
    if ts != [] {
      var init := ts[..|ts| - 1];
      RunsContract(c1, c2, init, k);
      TowardContracts(Run(c1, init, k), Run(c2, init, k), ts[|ts| - 1], k, Decay(c1 - c2, k, |init|));
    }
  }

  /** Runs that start at most `e` apart stay at most `e` apart. */
  lemma RunsStayApart(c1: real, c2: real, ts: seq<real>, k: real, e: real)
    requires Factor(k) && -e <= c1 - c2 <= e
    ensures -e <= Run(c1, ts, k) - Run(c2, ts, k) <= e
  {
    RunsContract(c1, c2, ts, k);
    DecayShrinks(c1 - c2, k, |ts|);
  }

  /** Folding two runs of stresses one after the other is folding their concatenation. */
  lemma {:induction false} RunAppend(c: real, a: seq<real>, b: seq<real>, k: real)
    ensures Run(c, a + b, k) == Run(Run(c, a, k), b, k)
  {
    if b == [] {
      assert a + b == a;
    } else {
      RunAppend(c, a, b[..|b| - 1], k);
      assert (a + b)[..|a + b| - 1] == a + b[..|b| - 1];
    }
  }

  // ---------------------------------------------------------------------------
  // A sustained load

  /** `n` days of the same stress `t`. */
  function Constant(t: real, n: nat): (ts: seq<real>)
    ensures |ts| == n
    ensures forall i :: 0 <= i < n ==> ts[i] == t
  {
    if n == 0 then [] else Constant(t, n - 1) + [t]
  }

  /** A sustained stress is a fixed point of the average. */
  lemma {:induction false} ConstantFixedPoint(t: real, n: nat, k: real)
    ensures Run(t, Constant(t, n), k) == t
  {
    if n > 0 {
      ConstantFixedPoint(t, n - 1, k);
      assert Constant(t, n)[..n - 1] == Constant(t, n - 1);
      TowardContracts(t, t, t, k, 0.0);
    }
  }

  /** Under a sustained daily stress `t`, the gap between the average and `t`
      decays day by day, without overshooting `t`. */
  lemma SustainedLoadConverges(c: real, t: real, n: nat, k: real)
    requires Factor(k)
    ensures Run(c, Constant(t, n), k) - t == Decay(c - t, k, n)
    ensures c <= t ==> c <= Run(c, Constant(t, n), k) <= t
    ensures t <= c ==> t <= Run(c, Constant(t, n), k) <= c
  {
    ConstantFixedPoint(t, n, k);
    RunsContract(c, t, Constant(t, n), k);
    DecayShrinks(c - t, k, n);
  }

  /** Day by day under a sustained stress `t`, the average takes a step
      toward `t` and never past it. */
  lemma SustainedLoadStepsToward(c: real, t: real, n: nat, k: real)
    requires Factor(k)
    ensures var r, r' := Run(c, Constant(t, n), k), Run(c, Constant(t, n + 1), k);
            (r <= t ==> r <= r' <= t) && (t <= r ==> t <= r' <= r)
  {
    assert Constant(t, n + 1)[..n] == Constant(t, n);
    StepBetween(Run(c, Constant(t, n), k), t, k);
  }

  /** The same convergence in closed form: after n days of stress `t` the gap
      is `(1 - k)^n` times the starting gap. */
  lemma SustainedLoadClosedForm(c: real, t: real, n: nat, k: real)
    requires Factor(k)
    ensures Run(c, Constant(t, n), k) - t == Pow(1.0 - k, n) * (c - t)
  {
    SustainedLoadConverges(c, t, n, k);
    DecayIsPow(c - t, k, n);
  }
}
