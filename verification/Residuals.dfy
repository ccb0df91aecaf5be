/** The residual of the Jacobi iterates: moments of the error, their convexity, and the
    bound that the demo's acceptance threshold needs. */
module Residuals {
  import opened Arithmetic
  import opened Jacobi
  import opened Decay

  /** Zero on the edge and outside the grid. */
  ghost predicate Clamped(p: Field, sx: int, sy: int) {
    forall x, y :: !Interior(sx, sy, x, y) ==> p(x, y) == 0.0
  }

  /** Average the interior cells, keep everything else zero. */
  function Smooth(p: Field, sx: int, sy: int): Field {
    (x, y) => if Interior(sx, sy, x, y) then Avg(p, x, y) else 0.0
  }

  /** The distance of each cell from its limit, 1. */
  function Error(sx: int, sy: int, t: nat): Field {
    if t == 0 then (x, y) => if Interior(sx, sy, x, y) then 1.0 else 0.0
    else Smooth(Error(sx, sy, t - 1), sx, sy)
  }

  ghost predicate ErrorIsRest(sx: int, sy: int, t: nat) {
    forall x, y :: Error(sx, sy, t)(x, y) == 1.0 - Solution(sx, sy, t)(x, y)
  }

  lemma {:induction false} ErrorOfSolution(sx: int, sy: int, t: nat)
    ensures ErrorIsRest(sx, sy, t)
  {
    hide ErrorIsRest;
    if t == 0 {
      ErrorAtFirst(sx, sy, t);
    } else {
      ErrorOfSolution(sx, sy, t - 1);
      ErrorNext(sx, sy, t - 1);
    }
  }

  lemma ErrorAtFirst(sx: int, sy: int, t: nat)
    requires t == 0
    ensures ErrorIsRest(sx, sy, t)
  {
  }

  lemma ErrorNext(sx: int, sy: int, t: nat)
    requires ErrorIsRest(sx, sy, t)
    ensures ErrorIsRest(sx, sy, t + 1)
  {
    MaximumPrinciple(sx, sy, t + 1);
    ErrorClamped(sx, sy, t + 1);
    hide Error, Solution;
    var e, u := Error(sx, sy, t + 1), Solution(sx, sy, t + 1);
    forall x, y
      ensures e(x, y) == 1.0 - u(x, y)
    {
      if Interior(sx, sy, x, y) {
        ErrorNextInside(sx, sy, t, x, y);
      }
    }
  }

  lemma ErrorNextInside(sx: int, sy: int, t: nat, x: int, y: int)
    requires ErrorIsRest(sx, sy, t) && Interior(sx, sy, x, y)
    ensures Error(sx, sy, t + 1)(x, y) == 1.0 - Solution(sx, sy, t + 1)(x, y)
  {
    var e, u := Error(sx, sy, t), Solution(sx, sy, t);
    SolutionStep(sx, sy, t, x, y);
    ErrorStep(sx, sy, t, x, y);
    hide Error, Solution;
    AvgAt(e, x, y);
    AvgAt(u, x, y);
  }

  lemma ErrorStep(sx: int, sy: int, t: nat, x: int, y: int)
    requires Interior(sx, sy, x, y)
    ensures Error(sx, sy, t + 1)(x, y) == Avg(Error(sx, sy, t), x, y)
  {
    hide Avg;
  }

  lemma ErrorClamped(sx: int, sy: int, t: nat)
    ensures Clamped(Error(sx, sy, t), sx, sy)
  {
    hide Avg;
  }

  // ---------- inner products ----------

  function Times(p: Field, q: Field): Field { (x, y) => p(x, y) * q(x, y) }

  /** p at a cell times q at the cell (dx, dy) further on. */
  function Pair(p: Field, q: Field, dx: int, dy: int): Field { (x, y) => p(x, y) * q(x + dx, y + dy) }

  function Inner(p: Field, q: Field, sx: int, sy: int): real {
    SumAll(Times(p, q), sx - 1, sy - 1)
  }

  lemma PairFlip(p: Field, q: Field, dx: int, dy: int, x: int, y: int)
    ensures Pair(q, p, -dx, -dy)(x, y) == Pair(p, q, dx, dy)(x - dx, y - dy)
  {
    hide Pair;
    PairAt(q, p, -dx, -dy, x, y);
    PairAt(p, q, dx, dy, x - dx, y - dy);
  }

  lemma PairZero(p: Field, q: Field, dx: int, dy: int, x: int, y: int)
    requires p(x, y) == 0.0 || q(x + dx, y + dy) == 0.0
    ensures Pair(p, q, dx, dy)(x, y) == 0.0
  {
  }

  lemma {:induction false} PairAlongRow(p: Field, q: Field, y: int, n: int)
    requires n >= 1
    ensures SumRow(Pair(q, p, -1, 0), y, n)
         == SumRow(Pair(p, q, 1, 0), y, n) - Pair(p, q, 1, 0)(n - 1, y) + Pair(p, q, 1, 0)(0, y)
    decreases n
  {
    hide Pair;
    if n > 1 {
      PairAlongRow(p, q, y, n - 1);
      PairFlip(p, q, 1, 0, n - 1, y);
    }
  }

  lemma {:induction false} PairSideways(p: Field, q: Field, nx: int, rows: int)
    requires forall y :: p(0, y) == 0.0 && q(nx, y) == 0.0
    ensures SumAll(Pair(q, p, -1, 0), nx, rows) == SumAll(Pair(p, q, 1, 0), nx, rows)
    decreases rows
  {
    hide Pair;
    if rows > 1 {
      PairSideways(p, q, nx, rows - 1);
      if nx >= 1 {
        PairAlongRow(p, q, rows - 1, nx);
        PairZero(p, q, 1, 0, 0, rows - 1);
        PairZero(p, q, 1, 0, nx - 1, rows - 1);
      }
    }
  }

  lemma {:induction false} PairDownRow(p: Field, q: Field, y: int, n: int)
    ensures SumRow(Pair(q, p, 0, -1), y, n) == SumRow(Pair(p, q, 0, 1), y - 1, n)
    decreases n
  {
    hide Pair;
    if n > 1 {
      PairDownRow(p, q, y, n - 1);
      PairFlip(p, q, 0, 1, n - 1, y);
    }
  }

  lemma {:induction false} PairDown(p: Field, q: Field, nx: int, ny: int)
    requires ny >= 1
    ensures SumAll(Pair(q, p, 0, -1), nx, ny)
         == SumAll(Pair(p, q, 0, 1), nx, ny) - SumRow(Pair(p, q, 0, 1), ny - 1, nx) + SumRow(Pair(p, q, 0, 1), 0, nx)
    decreases ny
  {
    if ny > 1 {
      PairDown(p, q, nx, ny - 1);
      PairDownRow(p, q, ny - 1, nx);
    }
  }

  lemma PairVertical(p: Field, q: Field, nx: int, ny: int)
    requires forall x :: p(x, 0) == 0.0 && q(x, ny) == 0.0
    ensures SumAll(Pair(q, p, 0, -1), nx, ny) == SumAll(Pair(p, q, 0, 1), nx, ny)
  {
    hide Pair, SumAll, SumRow;
    if ny >= 1 {
      PairDown(p, q, nx, ny);
      forall x
        ensures Pair(p, q, 0, 1)(x, 0) == 0.0
      {
        PairZero(p, q, 0, 1, x, 0);
      }
      var last := ny - 1;
      forall x
        ensures Pair(p, q, 0, 1)(x, last) == 0.0
      {
        PairZero(p, q, 0, 1, x, last);
      }
      ZeroRow(Pair(p, q, 0, 1), 0, nx);
      ZeroRow(Pair(p, q, 0, 1), ny - 1, nx);
    } else {
      EmptySums(Pair(q, p, 0, -1), Pair(p, q, 0, 1), nx, ny);
    }
  }

  lemma EmptySums(p: Field, q: Field, nx: int, ny: int)
    requires ny <= 1
    ensures SumAll(p, nx, ny) == 0.0 == SumAll(q, nx, ny)
  {
  }

  function FourPairs(p: Field, q: Field): Field {
    (x, y) => (Pair(p, q, -1, 0)(x, y) + Pair(p, q, 1, 0)(x, y)
               + Pair(p, q, 0, 1)(x, y) + Pair(p, q, 0, -1)(x, y)) * 0.25
  }

  lemma {:induction false} FourPairsRow(p: Field, q: Field, y: int, n: int)
    ensures SumRow(FourPairs(p, q), y, n)
         == (SumRow(Pair(p, q, -1, 0), y, n) + SumRow(Pair(p, q, 1, 0), y, n)
             + SumRow(Pair(p, q, 0, 1), y, n) + SumRow(Pair(p, q, 0, -1), y, n)) * 0.25
    decreases n
  {
    hide Pair;
    if n > 1 {
      FourPairsRow(p, q, y, n - 1);
    }
  }

  lemma {:induction false} FourPairsAll(p: Field, q: Field, nx: int, ny: int)
    ensures SumAll(FourPairs(p, q), nx, ny)
         == (SumAll(Pair(p, q, -1, 0), nx, ny) + SumAll(Pair(p, q, 1, 0), nx, ny)
             + SumAll(Pair(p, q, 0, 1), nx, ny) + SumAll(Pair(p, q, 0, -1), nx, ny)) * 0.25
    decreases ny
  {
    hide Pair, FourPairs;
    if ny > 1 {
      FourPairsAll(p, q, nx, ny - 1);
      FourPairsRow(p, q, ny - 1, nx);
    }
  }

  lemma TimesSmoothAt(p: Field, q: Field, sx: int, sy: int, x: int, y: int)
    requires Interior(sx, sy, x, y)
    ensures Times(p, Smooth(q, sx, sy))(x, y) == FourPairs(p, q)(x, y)
  {
    hide Avg, Pair;
    AvgAt(q, x, y);
    PairAt(p, q, -1, 0, x, y);
    PairAt(p, q, 1, 0, x, y);
    PairAt(p, q, 0, 1, x, y);
    PairAt(p, q, 0, -1, x, y);
    Distribute(p(x, y), q(x - 1, y), q(x + 1, y), q(x, y + 1), q(x, y - 1));
  }

  lemma PairAt(p: Field, q: Field, dx: int, dy: int, x: int, y: int)
    ensures Pair(p, q, dx, dy)(x, y) == p(x, y) * q(x + dx, y + dy)
  {
  }

  lemma Distribute(k: real, a: real, b: real, c: real, d: real)
    ensures k * ((a + b + c + d) * 0.25) == (k * a + k * b + k * c + k * d) * 0.25
  {
    var s := a + b + c + d;
    assert k * s == k * a + k * b + k * c + k * d;
    assert k * (s * 0.25) == (k * s) * 0.25;
  }

  lemma InnerSmooth(p: Field, q: Field, sx: int, sy: int)
    ensures Inner(p, Smooth(q, sx, sy), sx, sy) == SumAll(FourPairs(p, q), sx - 1, sy - 1)
  {
    hide Times, FourPairs, Smooth;
    forall x, y | 1 <= x < sx - 1 && 1 <= y < sy - 1
      ensures Times(p, Smooth(q, sx, sy))(x, y) == FourPairs(p, q)(x, y)
    {
      TimesSmoothAt(p, q, sx, sy, x, y);
    }
    SumAllCongruent(Times(p, Smooth(q, sx, sy)), FourPairs(p, q), sx - 1, sy - 1);
  }

  lemma InnerCommutes(p: Field, q: Field, sx: int, sy: int)
    ensures Inner(p, q, sx, sy) == Inner(q, p, sx, sy)
  {
    SumAllCongruent(Times(p, q), Times(q, p), sx - 1, sy - 1);
  }

  /** Averaging is symmetric for fields that vanish on the edge. */
  lemma Symmetric(p: Field, q: Field, sx: int, sy: int)
    requires Clamped(p, sx, sy) && Clamped(q, sx, sy)
    ensures Inner(Smooth(p, sx, sy), q, sx, sy) == Inner(p, Smooth(q, sx, sy), sx, sy)
  {
    hide Inner, Smooth, Pair, FourPairs, SumAll;
    var nx, ny := sx - 1, sy - 1;
    InnerCommutes(Smooth(p, sx, sy), q, sx, sy);
    InnerSmooth(q, p, sx, sy);
    InnerSmooth(p, q, sx, sy);
    FourPairsAll(p, q, nx, ny);
    FourPairsAll(q, p, nx, ny);
    PairSideways(p, q, nx, ny);
    PairSideways(q, p, nx, ny);
    PairVertical(p, q, nx, ny);
    PairVertical(q, p, nx, ny);
  }

  lemma InnerCongruent(p: Field, r: Field, q: Field, sx: int, sy: int)
    requires forall x, y :: Interior(sx, sy, x, y) ==> p(x, y) == r(x, y)
    ensures Inner(p, q, sx, sy) == Inner(r, q, sx, sy)
    ensures Inner(q, p, sx, sy) == Inner(q, r, sx, sy)
  {
    SumAllCongruent(Times(p, q), Times(r, q), sx - 1, sy - 1);
    SumAllCongruent(Times(q, p), Times(q, r), sx - 1, sy - 1);
  }

  // ---------- moments ----------

  /** Error left in the whole grid after `k` iterations. */
  function Moment(sx: int, sy: int, k: nat): real { SumAll(Error(sx, sy, k), sx - 1, sy - 1) }

  function MomentSequence(sx: int, sy: int): nat -> real { (k: nat) => Moment(sx, sy, k) }

  lemma FirstErrorIsOne(q: Field, sx: int, sy: int, i: nat)
    requires i == 0
    ensures Inner(Error(sx, sy, i), q, sx, sy) == SumAll(q, sx - 1, sy - 1)
  {
    SumAllCongruent(Times(Error(sx, sy, i), q), q, sx - 1, sy - 1);
  }

  lemma ErrorIsSmooth(sx: int, sy: int, i: nat)
    ensures Error(sx, sy, i + 1) == Smooth(Error(sx, sy, i), sx, sy)
  {
    hide Smooth;
  }

  /** The inner product of two errors depends only on the sum of their times. */
  lemma {:induction false} InnerIsMoment(sx: int, sy: int, i: nat, j: nat)
    ensures Inner(Error(sx, sy, i), Error(sx, sy, j), sx, sy) == Moment(sx, sy, i + j)
    decreases i
  {
    hide Error, Smooth, Inner, SumAll;
    if i == 0 {
      FirstErrorIsOne(Error(sx, sy, j), sx, sy, i);
    } else {
      InnerIsMoment(sx, sy, i - 1, j + 1);
      ErrorIsSmooth(sx, sy, i - 1);
      ErrorIsSmooth(sx, sy, j);
      ErrorClamped(sx, sy, i - 1);
      ErrorClamped(sx, sy, j);
      Symmetric(Error(sx, sy, i - 1), Error(sx, sy, j), sx, sy);
    }
  }

  lemma {:induction false} SquaredDifferenceRow(p: Field, q: Field, y: int, n: int)
    ensures SumRow(Squared(Minus(p, q)), y, n)
         == SumRow(Times(p, p), y, n) - 2.0 * SumRow(Times(p, q), y, n) + SumRow(Times(q, q), y, n)
    decreases n
  {
    if n > 1 {
      SquaredDifferenceRow(p, q, y, n - 1);
      SquaredDifferenceAt(p, q, n - 1, y);
    }
  }

  lemma SquaredDifferenceAt(p: Field, q: Field, x: int, y: int)
    ensures Squared(Minus(p, q))(x, y) == Times(p, p)(x, y) - 2.0 * Times(p, q)(x, y) + Times(q, q)(x, y)
  {
    SquareOfDifference(p(x, y), q(x, y));
  }

  lemma SquareOfDifference(a: real, b: real)
    ensures Square(a - b) == a * a - 2.0 * (a * b) + b * b
  {
    assert (a - b) * (a - b) == a * (a - b) - b * (a - b);
    assert a * (a - b) == a * a - a * b && b * (a - b) == a * b - b * b;
  }

  lemma {:induction false} SquaredDifferenceAll(p: Field, q: Field, nx: int, ny: int)
    ensures SumAll(Squared(Minus(p, q)), nx, ny)
         == SumAll(Times(p, p), nx, ny) - 2.0 * SumAll(Times(p, q), nx, ny) + SumAll(Times(q, q), nx, ny)
    decreases ny
  {
    hide Squared, Minus, Times;
    if ny > 1 {
      SquaredDifferenceAll(p, q, nx, ny - 1);
      SquaredDifferenceRow(p, q, ny - 1, nx);
    }
  }

  lemma {:induction false} SquaresSumRow(p: Field, y: int, n: int)
    ensures SumRow(Squared(p), y, n) >= 0.0
    decreases n
  {
    if n > 1 {
      SquaresSumRow(p, y, n - 1);
      SquaresNonNegative(p(n - 1, y), 0.0, 0.0);
    }
  }

  lemma {:induction false} SquaresSumAll(p: Field, nx: int, ny: int)
    ensures SumAll(Squared(p), nx, ny) >= 0.0
    decreases ny
  {
    hide Squared;
    if ny > 1 {
      SquaresSumAll(p, nx, ny - 1);
      SquaresSumRow(p, ny - 1, nx);
    }
  }

  /** What iteration t + 1 adds to the solution. */
  function Rise(sx: int, sy: int, t: nat): Field { Minus(Error(sx, sy, t), Error(sx, sy, t + 1)) }

  lemma RiseIsChange(sx: int, sy: int, t: nat, x: int, y: int)
    requires Interior(sx, sy, x, y)
    ensures Squared(Rise(sx, sy, t))(x, y) == ChangeSquared(Solution(sx, sy, t))(x, y)
  {
    hide Solution, Error, ChangeSquared, Square, Avg, Interior;
    ErrorOfSolution(sx, sy, t);
    ErrorOfSolution(sx, sy, t + 1);
    SolutionStep(sx, sy, t, x, y);
    ChangeSquaredAt(Solution(sx, sy, t), x, y);
  }

  lemma ResidualIsInner(sx: int, sy: int, t: nat)
    ensures Residual(Solution(sx, sy, t), sx, sy) == SumAll(Squared(Rise(sx, sy, t)), sx - 1, sy - 1)
  {
    hide Solution, Rise, Squared, ChangeSquared;
    var u := Solution(sx, sy, t);
    forall x, y | 1 <= x < sx - 1 && 1 <= y < sy - 1
      ensures Squared(Rise(sx, sy, t))(x, y) == ChangeSquared(u)(x, y)
    {
      RiseIsChange(sx, sy, t, x, y);
    }
    SumAllCongruent(Squared(Rise(sx, sy, t)), ChangeSquared(u), sx - 1, sy - 1);
  }

  /** The residual is an even second difference of the moments. */
  lemma ResidualIsSecond(sx: int, sy: int, t: nat)
    ensures Residual(Solution(sx, sy, t), sx, sy) == Second(MomentSequence(sx, sy), t)
  {
    hide Solution, Error, Moment, SumAll, Times, Squared, Minus, Residual;
    var e, f := Error(sx, sy, t), Error(sx, sy, t + 1);
    ResidualIsInner(sx, sy, t);
    SquaredDifferenceAll(e, f, sx - 1, sy - 1);
    InnerIsMoment(sx, sy, t, t);
    InnerIsMoment(sx, sy, t, t + 1);
    InnerIsMoment(sx, sy, t + 1, t + 1);
    assert t + t == 2 * t && t + (t + 1) == 2 * t + 1 && (t + 1) + (t + 1) == 2 * t + 2;
  }

  lemma RiseIsSmooth(sx: int, sy: int, t: nat, x: int, y: int)
    ensures Interior(sx, sy, x, y) ==> Rise(sx, sy, t + 1)(x, y) == Smooth(Rise(sx, sy, t), sx, sy)(x, y)
    ensures !Interior(sx, sy, x, y) ==> Rise(sx, sy, t)(x, y) == 0.0
  {
    ErrorClamped(sx, sy, t);
    ErrorClamped(sx, sy, t + 1);
    hide Error;
    if Interior(sx, sy, x, y) {
      ErrorStep(sx, sy, t, x, y);
      ErrorStep(sx, sy, t + 1, x, y);
    }
  }

  /** Two iterations apart, changes overlap as much as the one between overlaps itself. */
  lemma RiseOverlap(sx: int, sy: int, t: nat)
    ensures Inner(Rise(sx, sy, t), Rise(sx, sy, t + 2), sx, sy) == Inner(Rise(sx, sy, t + 1), Rise(sx, sy, t + 1), sx, sy)
  {
    hide Rise, Smooth, Inner;
    forall x, y
      ensures Interior(sx, sy, x, y) ==> Rise(sx, sy, t + 1)(x, y) == Smooth(Rise(sx, sy, t), sx, sy)(x, y)
      ensures Interior(sx, sy, x, y) ==> Rise(sx, sy, t + 2)(x, y) == Smooth(Rise(sx, sy, t + 1), sx, sy)(x, y)
      ensures !Interior(sx, sy, x, y) ==> Rise(sx, sy, t)(x, y) == 0.0 && Rise(sx, sy, t + 1)(x, y) == 0.0
    {
      RiseIsSmooth(sx, sy, t, x, y);
      RiseIsSmooth(sx, sy, t + 1, x, y);
    }
    var d0, d1, d2 := Rise(sx, sy, t), Rise(sx, sy, t + 1), Rise(sx, sy, t + 2);
    Symmetric(d0, d1, sx, sy);
    InnerCongruent(d1, Smooth(d0, sx, sy), d1, sx, sy);
    InnerCongruent(d2, Smooth(d1, sx, sy), d0, sx, sy);
  }

  lemma SquaredIsTimes(p: Field, nx: int, ny: int)
    ensures SumAll(Squared(p), nx, ny) == SumAll(Times(p, p), nx, ny)
  {
    forall x, y | 1 <= x < nx && 1 <= y < ny
      ensures Squared(p)(x, y) == Times(p, p)(x, y)
    {
      assert Square(p(x, y)) == p(x, y) * p(x, y);
    }
    SumAllCongruent(Squared(p), Times(p, p), nx, ny);
  }

  /** The residuals of successive iterates form a convex sequence. */
  lemma ResidualConvex(sx: int, sy: int, t: nat)
    ensures Residual(Solution(sx, sy, t), sx, sy) - Residual(Solution(sx, sy, t + 1), sx, sy)
         >= Residual(Solution(sx, sy, t + 1), sx, sy) - Residual(Solution(sx, sy, t + 2), sx, sy)
  {
    hide Solution, Rise, SumAll, Squared, Minus, Times, Residual;
    var nx, ny := sx - 1, sy - 1;
    var d0, d1, d2 := Rise(sx, sy, t), Rise(sx, sy, t + 1), Rise(sx, sy, t + 2);
    ResidualIsInner(sx, sy, t);
    ResidualIsInner(sx, sy, t + 1);
    ResidualIsInner(sx, sy, t + 2);
    SquaredIsTimes(d0, nx, ny);
    SquaredIsTimes(d1, nx, ny);
    SquaredIsTimes(d2, nx, ny);
    RiseOverlap(sx, sy, t);
    SquaredDifferenceAll(d0, d2, nx, ny);
    SquaresSumAll(Minus(d0, d2), nx, ny);
  }

  lemma {:induction false} DifferenceRow(p: Field, q: Field, y: int, n: int)
    ensures SumRow(Minus(p, q), y, n) == SumRow(p, y, n) - SumRow(q, y, n)
    decreases n
  {
    if n > 1 {
      DifferenceRow(p, q, y, n - 1);
    }
  }

  lemma {:induction false} DifferenceAll(p: Field, q: Field, nx: int, ny: int)
    ensures SumAll(Minus(p, q), nx, ny) == SumAll(p, nx, ny) - SumAll(q, nx, ny)
    decreases ny
  {
    hide Minus;
    if ny > 1 {
      DifferenceAll(p, q, nx, ny - 1);
      DifferenceRow(p, q, ny - 1, nx);
    }
  }

  lemma RiseRange(sx: int, sy: int, t: nat, x: int, y: int)
    ensures Rise(sx, sy, t)(x, y) >= 0.0
    ensures 0.0 <= Error(sx, sy, t)(x, y) <= 1.0
  {
    hide Error, Solution;
    ErrorOfSolution(sx, sy, t);
    ErrorOfSolution(sx, sy, t + 1);
    MaximumPrinciple(sx, sy, t);
    IteratesRise(sx, sy, t);
  }

  lemma RiseFramed(sx: int, sy: int, t: nat)
    ensures Framed(Rise(sx, sy, t), sx - 1, sy - 1)
  {
    hide Rise, Smooth;
    forall x, y
      ensures Rise(sx, sy, t)(x, y) >= 0.0
      ensures !Interior(sx, sy, x, y) ==> Rise(sx, sy, t)(x, y) == 0.0
    {
      RiseRange(sx, sy, t, x, y);
      RiseIsSmooth(sx, sy, t, x, y);
    }
  }

  /** The total change shrinks from one iteration to the next. */
  lemma RiseShrinks(sx: int, sy: int, t: nat)
    ensures SumAll(Rise(sx, sy, t), sx - 1, sy - 1) >= SumAll(Rise(sx, sy, t + 1), sx - 1, sy - 1) >= 0.0
  {
    hide Rise, SumAll, Mean, Smooth, Framed;
    var nx, ny := sx - 1, sy - 1;
    var d := Rise(sx, sy, t);
    RiseFramed(sx, sy, t);
    MeanShrinks(d, nx, ny);
    forall x, y | 1 <= x < nx && 1 <= y < ny
      ensures Rise(sx, sy, t + 1)(x, y) == Mean(d)(x, y)
    {
      RiseMean(sx, sy, t, x, y);
    }
    SumAllCongruent(Rise(sx, sy, t + 1), Mean(d), nx, ny);
    RiseSum(sx, sy, t + 1);
  }

  lemma RiseSum(sx: int, sy: int, t: nat)
    ensures SumAll(Rise(sx, sy, t), sx - 1, sy - 1) >= 0.0
  {
    hide Rise, SumAll;
    RiseFramed(sx, sy, t);
    FramedSum(Rise(sx, sy, t), sx - 1, sy - 1);
  }

  lemma RiseMean(sx: int, sy: int, t: nat, x: int, y: int)
    requires Interior(sx, sy, x, y)
    ensures Rise(sx, sy, t + 1)(x, y) == Mean(Rise(sx, sy, t))(x, y)
  {
    hide Rise, Avg;
    RiseIsSmooth(sx, sy, t, x, y);
  }

  lemma {:induction false} FramedSum(q: Field, nx: int, ny: int)
    requires forall x, y :: q(x, y) >= 0.0
    ensures SumAll(q, nx, ny) >= 0.0
    decreases ny
  {
    if ny > 1 {
      FramedSum(q, nx, ny - 1);
      RowNonNegative(q, ny - 1, nx);
    }
  }

  lemma MomentFall(sx: int, sy: int, k: nat)
    ensures Moment(sx, sy, k) - Moment(sx, sy, k + 1) == SumAll(Rise(sx, sy, k), sx - 1, sy - 1)
  {
    hide Error, SumAll, Minus;
    DifferenceAll(Error(sx, sy, k), Error(sx, sy, k + 1), sx - 1, sy - 1);
  }

  lemma MomentsOfError(sx: int, sy: int, k: nat)
    ensures MomentsAt(MomentSequence(sx, sy), k)
  {
    hide Moment, Error, Residual, Solution, Second, Rise, SumAll;
    MomentNonNegative(sx, sy, k);
    MomentFall(sx, sy, k);
    MomentFall(sx, sy, k + 1);
    RiseShrinks(sx, sy, k);
    ResidualIsSecond(sx, sy, k);
    ResidualIsSecond(sx, sy, k + 1);
    ResidualIsSecond(sx, sy, k + 2);
    NextResidual(sx, sy, k);
    ResidualConvex(sx, sy, k);
  }

  lemma NextResidual(sx: int, sy: int, t: nat)
    ensures Residual(Solution(sx, sy, t + 1), sx, sy) <= Residual(Solution(sx, sy, t), sx, sy)
  {
    ResidualNeverGrows(Solution(sx, sy, t), sx, sy);
  }

  lemma MomentNonNegative(sx: int, sy: int, k: nat)
    ensures Moment(sx, sy, k) >= 0.0
  {
    hide Error, SumAll;
    forall x, y
      ensures Error(sx, sy, k)(x, y) >= 0.0
    {
      RiseRange(sx, sy, k, x, y);
    }
    FramedSum(Error(sx, sy, k), sx - 1, sy - 1);
  }

  lemma {:induction false} SumRowAtMostOnes(q: Field, y: int, n: int)
    requires n >= 1 && forall x :: q(x, y) <= 1.0
    ensures SumRow(q, y, n) <= (n - 1) as real
    decreases n
  {
    if n > 1 {
      SumRowAtMostOnes(q, y, n - 1);
    }
  }

  lemma {:induction false} SumAllAtMostOnes(q: Field, nx: int, ny: int)
    requires nx >= 1 && ny >= 1
    requires forall x, y :: q(x, y) <= 1.0
    ensures SumAll(q, nx, ny) <= ((nx - 1) * (ny - 1)) as real
    decreases ny
  {
    if ny > 1 {
      SumAllAtMostOnes(q, nx, ny - 1);
      SumRowAtMostOnes(q, ny - 1, nx);
      assert (nx - 1) * (ny - 1) == (nx - 1) * (ny - 2) + (nx - 1);
    }
  }

  lemma FirstMoment(sx: int, sy: int, k: nat)
    requires sx >= 2 && sy >= 2
    ensures Moment(sx, sy, k) <= ((sx - 2) * (sy - 2)) as real
  {
    hide Error, SumAll;
    forall x, y
      ensures Error(sx, sy, k)(x, y) <= 1.0
    {
      RiseRange(sx, sy, k, x, y);
    }
    SumAllAtMostOnes(Error(sx, sy, k), sx - 1, sy - 1);
  }

  lemma MomentsHold(sx: int, sy: int)
    ensures Moments(MomentSequence(sx, sy))
  {
    hide Moment, MomentsAt;
    forall i: nat
      ensures MomentsAt(MomentSequence(sx, sy), i)
    {
      MomentsOfError(sx, sy, i);
    }
  }

  /** After t iterations the residual is at most (size_x - 2)(size_y - 2) / k^2 for every
      k <= (3t + 1) / 2: it decays at least as fast as the square of the iteration count. */
  lemma ResidualDecays(sx: int, sy: int, t: nat, k: nat)
    requires sx >= 2 && sy >= 2 && 2 * k <= 3 * t + 1
    ensures (k * k) as real * Residual(Solution(sx, sy, t), sx, sy) <= ((sx - 2) * (sy - 2)) as real
  {
    hide Moment, Residual, Solution, Moments, Second;
    MomentsHold(sx, sy);
    SecondBound(MomentSequence(sx, sy), t, k);
    ResidualIsSecond(sx, sy, t);
    FirstMoment(sx, sy, 0);
  }

  lemma FirstResidual(sx: int, sy: int, t: nat)
    requires sx >= 2 && sy >= 2 && t == 0
    ensures Residual(Solution(sx, sy, t), sx, sy) <= ((sx - 2) * (sy - 2)) as real
  {
    hide Moment, Residual, Solution, Moments, Second;
    MomentsHold(sx, sy);
    FirstBound(MomentSequence(sx, sy));
    ResidualIsSecond(sx, sy, t);
    FirstMoment(sx, sy, 0);
  }

  lemma ResidualNonNegative(sx: int, sy: int, t: nat)
    ensures Residual(Solution(sx, sy, t), sx, sy) >= 0.0
  {
    hide *;
    ResidualIsInner(sx, sy, t);
    SquaresSumAll(Rise(sx, sy, t), sx - 1, sy - 1);
  }

  lemma CountBelowSquare(t: nat, k: nat, r: real, bound: real)
    requires t >= 1 && k == (3 * t + 1) / 2 && r >= 0.0 && (k * k) as real * r <= bound
    ensures (t + 1) as real * r <= bound
  {
    assert k >= t + 1;
    MulMonotone(1, k, k);
    Scale(r, (t + 1) as real, (k * k) as real);
  }

  /** After t iterations the residual is at most (size_x - 2)(size_y - 2) / (t + 1). */
  lemma ResidualBound(sx: int, sy: int, t: nat)
    requires sx >= 2 && sy >= 2
    ensures (t + 1) as real * Residual(Solution(sx, sy, t), sx, sy) <= ((sx - 2) * (sy - 2)) as real
  {
    hide Residual, Solution;
    if t == 0 {
      FirstResidual(sx, sy, t);
    } else {
      var k := (3 * t + 1) / 2;
      ResidualDecays(sx, sy, t, k);
      ResidualNonNegative(sx, sy, t);
      CountBelowSquare(t, k, Residual(Solution(sx, sy, t), sx, sy), ((sx - 2) * (sy - 2)) as real);
    }
  }

  /** The demo's grid, iteration count and threshold: its residual is below 0.01. */
  lemma DemoConverges()
    ensures Residual(Solution(128, 128, 1000), 128, 128) < 0.01
  {
    hide Residual, Solution;
    ResidualDecays(128, 128, 1000, 1500);
  }
}
