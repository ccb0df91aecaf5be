/** How fast the residual of the Jacobi iteration decays. */
module Decay {
  import opened Arithmetic

  /** The even second differences of a sequence. */
  function Second(s: nat -> real, t: nat): real {
    s(2 * t) - 2.0 * s(2 * t + 1) + s(2 * t + 2)
  }

  function Fall(s: nat -> real, k: nat): real { s(k) - s(k + 1) }

  ghost predicate MomentsAt(s: nat -> real, k: nat) {
    && s(k) >= 0.0
    && Fall(s, k) >= Fall(s, k + 1) >= 0.0
    && Second(s, k) >= Second(s, k + 1)
    && Second(s, k) - Second(s, k + 1) >= Second(s, k + 1) - Second(s, k + 2)
  }

  /** A sequence like the moments of a positive operator: nonnegative, decreasing and
      convex, with even second differences that are decreasing and convex too. */
  ghost predicate Moments(s: nat -> real) {
    forall k: nat :: MomentsAt(s, k)
  }

  function WeightedSum(s: nat -> real, n: nat): real {
    (if n == 0 then 0.0 else WeightedSum(s, n - 1)) + (2 * n + 1) as real * Second(s, n)
  }

  /** What is left of s(0) once the weighted second differences before 2n are taken out. */
  function Remainder(s: nat -> real, n: nat): real {
    s(2 * n) + (2 * n) as real * Fall(s, 2 * n)
  }

  lemma {:induction false} WeightedSumBound(s: nat -> real, n: nat)
    requires Moments(s)
    ensures WeightedSum(s, n) + Remainder(s, n + 1) <= s(0)
  {
    hide Remainder, Second, Moments;
    WeightedStep(s, n);
    if n > 0 {
      WeightedSumBound(s, n - 1);
    } else {
      RemainderAtStart(s, n);
    }
  }

  lemma RemainderAtStart(s: nat -> real, n: nat)
    requires n == 0
    ensures Remainder(s, n) == s(0)
  {
  }

  lemma WeightedStep(s: nat -> real, n: nat)
    requires Moments(s)
    ensures (2 * n + 1) as real * Second(s, n) + Remainder(s, n + 1) <= Remainder(s, n)
  {
    assert MomentsAt(s, 2 * n + 1);
    var w, d0, d1, d2 := (2 * n) as real, Fall(s, 2 * n), Fall(s, 2 * n + 1), Fall(s, 2 * n + 2);
    assert 2 * (n + 1) == 2 * n + 2 && (2 * n + 2) as real == w + 2.0 && (2 * n + 1) as real == w + 1.0;
    Scale(w + 2.0, d2, d1);
    assert (w + 1.0) * (d0 - d1) + (w + 2.0) * d1 == w * d0 + d0 + d1;
  }

  function Slope(s: nat -> real, m: nat): real { Second(s, m) - Second(s, m + 1) }

  /** The tangent at `m` lies below the convex sequence. */
  lemma {:induction false} TangentAfter(s: nat -> real, m: nat, i: nat)
    requires Moments(s)
    ensures Second(s, m + i) >= Second(s, m) - i as real * Slope(s, m)
    ensures Slope(s, m + i) <= Slope(s, m)
  {
    hide Second;
    if i > 0 {
      TangentAfter(s, m, i - 1);
      assert MomentsAt(s, m + i - 1);
      assert i as real * Slope(s, m) == (i - 1) as real * Slope(s, m) + Slope(s, m);
    }
  }

  lemma {:induction false} TangentBefore(s: nat -> real, m: nat, i: nat)
    requires Moments(s) && i <= m
    ensures Second(s, m - i) >= Second(s, m) + i as real * Slope(s, m)
    ensures Slope(s, m - i) >= Slope(s, m)
  {
    hide Second;
    if i > 0 {
      TangentBefore(s, m, i - 1);
      assert MomentsAt(s, m - i);
      assert i as real * Slope(s, m) == (i - 1) as real * Slope(s, m) + Slope(s, m);
    }
  }

  lemma Tangent(s: nat -> real, m: nat, t: nat)
    requires Moments(s)
    ensures Second(s, t) >= Second(s, m) + (m - t) as real * Slope(s, m)
  {
    hide Second, Moments, Slope;
    if t <= m {
      TangentBefore(s, m, m - t);
    } else {
      TangentAfter(s, m, t - m);
      Opposite(m - t, Slope(s, m));
    }
  }

  lemma Opposite(k: int, c: real)
    ensures k as real * c == -((-k) as real * c)
  {
  }

  /** The weights of the slope in the weighted sum of the tangent. */
  function Lever(m: int, n: nat): int {
    (if n == 0 then 0 else Lever(m, n - 1)) + (2 * n + 1) * (m - n)
  }

  lemma {:induction false} LeverClosedForm(m: int, n: nat)
    ensures 6 * Lever(m, n) == (n + 1) * (6 * m * (n + 1) - 4 * n * n - 5 * n)
  {
    if n > 0 {
      LeverClosedForm(m, n - 1);
    }
  }

  lemma LeverNonNegative(m: nat, n: nat)
    requires 2 * n + 1 <= 3 * m
    ensures Lever(m, n) >= 0
  {
    hide Lever;
    LeverClosedForm(m, n);
    var e := 6 * m * (n + 1) - 4 * n * n - 5 * n;
    assert e >= 0 by {
      MulMonotone(2 * n + 1, 3 * m, 2 * (n + 1));
      assert 3 * m * (2 * (n + 1)) == 6 * m * (n + 1);
      assert (2 * n + 1) * (2 * (n + 1)) == 4 * n * n + 6 * n + 2;
    }
    MulMonotone(0, e, n + 1);
  }

  ghost predicate AboveTangent(s: nat -> real, m: nat, n: nat) {
    WeightedSum(s, n) >= ((n + 1) * (n + 1)) as real * Second(s, m) + Lever(m, n) as real * Slope(s, m)
  }

  lemma {:induction false} WeightedSumAboveTangent(s: nat -> real, m: nat, n: nat)
    requires Moments(s)
    ensures AboveTangent(s, m, n)
  {
    hide Second, Moments, Slope, AboveTangent;
    Tangent(s, m, n);
    if n == 0 {
      FirstAboveTangent(s, m, n);
    } else {
      WeightedSumAboveTangent(s, m, n - 1);
      NextAboveTangent(s, m, n);
    }
  }

  lemma FirstAboveTangent(s: nat -> real, m: nat, n: nat)
    requires n == 0 && Second(s, n) >= Second(s, m) + (m - n) as real * Slope(s, m)
    ensures AboveTangent(s, m, n)
  {
    hide Second, Slope;
    assert WeightedSum(s, n) == 1.0 * Second(s, n);
    assert Lever(m, n) == m - n;
  }

  lemma NextAboveTangent(s: nat -> real, m: nat, n: nat)
    requires n > 0 && Second(s, n) >= Second(s, m) + (m - n) as real * Slope(s, m)
    requires AboveTangent(s, m, n - 1)
    ensures AboveTangent(s, m, n)
  {
    hide Second, Slope, WeightedSum, Lever;
    WeightedSumUnfold(s, n);
    LeverUnfold(m, n);
    TangentTerm(2 * n + 1, m - n, Second(s, n), Second(s, m), Slope(s, m), n * n, Lever(m, n - 1));
    assert n * n + (2 * n + 1) == (n + 1) * (n + 1);
  }

  lemma WeightedSumUnfold(s: nat -> real, n: nat)
    requires n > 0
    ensures WeightedSum(s, n) == WeightedSum(s, n - 1) + (2 * n + 1) as real * Second(s, n)
  {
    hide Second;
  }

  lemma LeverUnfold(m: int, n: nat)
    requires n > 0
    ensures Lever(m, n) == Lever(m, n - 1) + (2 * n + 1) * (m - n)
  {
  }

  lemma TangentTerm(w: int, g: int, r: real, c: real, slope: real, squares: int, lever: int)
    requires w >= 0 && r >= c + g as real * slope
    ensures w as real * r + squares as real * c + lever as real * slope
         >= (squares + w) as real * c + (lever + w * g) as real * slope
  {
    var v := w as real;
    Scale(v, c + g as real * slope, r);
    assert v * (c + g as real * slope) == v * c + (v * g as real) * slope;
    assert (w * g) as real == v * g as real;
    assert (squares as real + v) * c == squares as real * c + v * c;
    assert (lever as real + v * g as real) * slope == lever as real * slope + (v * g as real) * slope;
  }

  lemma RemainderNonNegative(s: nat -> real, n: nat)
    requires Moments(s)
    ensures Remainder(s, n) >= 0.0
  {
    hide Second, Fall;
    assert MomentsAt(s, 2 * n);
    Scale((2 * n) as real, 0.0, Fall(s, 2 * n));
  }

  /** The m-th even second difference is at most s(0) / k^2 for every k <= (3m + 1) / 2. */
  lemma SecondBound(s: nat -> real, m: nat, k: nat)
    requires Moments(s) && 2 * k <= 3 * m + 1
    ensures (k * k) as real * Second(s, m) <= s(0)
  {
    hide Second, Remainder, WeightedSum, Lever, MomentsAt;
    if k == 0 {
      StartNonNegative(s);
    } else {
      WeightedSumBound(s, k - 1);
      RemainderNonNegative(s, k);
      WeightedSumAboveTangent(s, m, k - 1);
      LeverNonNegative(m, k - 1);
      SlopeNonNegative(s, m);
      Scale(Lever(m, k - 1) as real, 0.0, Slope(s, m));
    }
  }

  lemma SlopeNonNegative(s: nat -> real, m: nat)
    requires Moments(s)
    ensures Slope(s, m) >= 0.0
  {
    hide Second;
    assert MomentsAt(s, m);
  }

  lemma StartNonNegative(s: nat -> real)
    requires Moments(s)
    ensures s(0) >= 0.0
  {
    assert MomentsAt(s, 0);
  }

  /** The 0-th even second difference is at most s(0). */
  lemma FirstBound(s: nat -> real)
    requires Moments(s)
    ensures Second(s, 0) <= s(0)
  {
    assert MomentsAt(s, 0) && MomentsAt(s, 1);
  }
}
