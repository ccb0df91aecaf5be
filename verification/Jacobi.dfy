/** Jacobi iteration for the Laplace equation on a grid, over the reals: maximum
    principle, monotone iterates, convergence rate, and the residual. */
module Jacobi {
  import opened Arithmetic

  /** A value for every cell; only cells of the grid matter. */
  type Field = (int, int) -> real

  predicate Interior(sx: int, sy: int, x: int, y: int) {
    1 <= x < sx - 1 && 1 <= y < sy - 1
  }

  /** Mean of the four neighbours. */
  function Avg(f: Field, x: int, y: int): real {
    (f(x - 1, y) + f(x + 1, y) + f(x, y + 1) + f(x, y - 1)) * 0.25
  }

  /** One iteration: interior cells become the mean of their neighbours. */
  function Step(f: Field, sx: int, sy: int): Field {
    (x, y) => if Interior(sx, sy, x, y) then Avg(f, x, y) else f(x, y)
  }

  function Iterate(f: Field, sx: int, sy: int, t: nat): Field {
    if t == 0 then f else Step(Iterate(f, sx, sy, t - 1), sx, sy)
  }

  /** The solver's start: ones around the edge, zeros inside. */
  function Initial(sx: int, sy: int): Field {
    (x, y) => if Interior(sx, sy, x, y) then 0.0 else 1.0
  }

  function Solution(sx: int, sy: int, t: nat): Field { Iterate(Initial(sx, sy), sx, sy, t) }

  // ---------- sums over the interior ----------

  /** Row `y`, columns 1 .. n-1. */
  function SumRow(q: Field, y: int, n: int): real
    decreases n
  {
    if n <= 1 then 0.0 else SumRow(q, y, n - 1) + q(n - 1, y)
  }

  /** Rows 1 .. ny-1, columns 1 .. nx-1. */
  function SumAll(q: Field, nx: int, ny: int): real
    decreases ny
  {
    if ny <= 1 then 0.0 else SumAll(q, nx, ny - 1) + SumRow(q, ny - 1, nx)
  }

  function Square(r: real): real { r * r }

  /** Squared change the next iteration would make. */
  function ChangeSquared(f: Field): Field {
    (x, y) => Square(Avg(f, x, y) - f(x, y))
  }

  /** The residual: squared changes summed over the interior. */
  function Residual(f: Field, sx: int, sy: int): real {
    SumAll(ChangeSquared(f), sx - 1, sy - 1)
  }

  ghost predicate BelowOn(p: Field, q: Field, nx: int, ny: int) {
    forall x, y :: 1 <= x < nx && 1 <= y < ny ==> p(x, y) <= q(x, y)
  }

  lemma {:induction false} SumRowMonotone(p: Field, q: Field, y: int, n: int)
    requires forall x :: 1 <= x < n ==> p(x, y) <= q(x, y)
    ensures SumRow(p, y, n) <= SumRow(q, y, n)
    decreases n
  {
    if n > 1 {
      SumRowMonotone(p, q, y, n - 1);
    }
  }

  lemma {:induction false} SumAllMonotone(p: Field, q: Field, nx: int, ny: int)
    requires BelowOn(p, q, nx, ny)
    ensures SumAll(p, nx, ny) <= SumAll(q, nx, ny)
    decreases ny
  {
    if ny > 1 {
      SumAllMonotone(p, q, nx, ny - 1);
      SumRowMonotone(p, q, ny - 1, nx);
    }
  }

  function Plus(p: Field, q: Field): Field { (x, y) => p(x, y) + q(x, y) }

  function Minus(p: Field, q: Field): Field { (x, y) => p(x, y) - q(x, y) }

  function Shift(q: Field, dx: int, dy: int): Field { (x, y) => q(x + dx, y + dy) }

  function Mean(q: Field): Field { (x, y) => Avg(q, x, y) }

  lemma {:induction false} SumRowMean(q: Field, y: int, n: int)
    ensures SumRow(Mean(q), y, n)
         == (SumRow(Shift(q, -1, 0), y, n) + SumRow(Shift(q, 1, 0), y, n)
             + SumRow(Shift(q, 0, 1), y, n) + SumRow(Shift(q, 0, -1), y, n)) * 0.25
    decreases n
  {
    if n > 1 {
      SumRowMean(q, y, n - 1);
      assert Mean(q)(n - 1, y) == Avg(q, n - 1, y);
    }
  }

  lemma {:induction false} SumAllMean(q: Field, nx: int, ny: int)
    ensures SumAll(Mean(q), nx, ny)
         == (SumAll(Shift(q, -1, 0), nx, ny) + SumAll(Shift(q, 1, 0), nx, ny)
             + SumAll(Shift(q, 0, 1), nx, ny) + SumAll(Shift(q, 0, -1), nx, ny)) * 0.25
    decreases ny
  {
    if ny > 1 {
      SumAllMean(q, nx, ny - 1);
      SumRowMean(q, ny - 1, nx);
    }
  }

  /** Nonnegative, and zero on the frame around columns 1..nx-1, rows 1..ny-1. */
  ghost predicate Framed(q: Field, nx: int, ny: int) {
    && (forall x, y :: q(x, y) >= 0.0)
    && (forall y :: q(0, y) == 0.0 && q(nx, y) == 0.0)
    && (forall x :: q(x, 0) == 0.0 && q(x, ny) == 0.0)
  }

  lemma {:induction false} ShiftLeftRow(q: Field, y: int, n: int)
    requires n >= 2
    ensures SumRow(Shift(q, -1, 0), y, n) == q(0, y) + SumRow(q, y, n - 1)
    decreases n
  {
    if n > 2 {
      ShiftLeftRow(q, y, n - 1);
    } else {
      assert SumRow(Shift(q, -1, 0), y, 1) == 0.0;
      assert SumRow(q, y, 1) == 0.0;
    }
  }

  lemma {:induction false} ShiftRightRow(q: Field, y: int, n: int)
    requires n >= 2
    ensures SumRow(Shift(q, 1, 0), y, n) == SumRow(q, y, n) - q(1, y) + q(n, y)
    decreases n
  {
    if n > 2 {
      ShiftRightRow(q, y, n - 1);
    } else {
      assert SumRow(Shift(q, 1, 0), y, 1) == 0.0;
      assert SumRow(q, y, 1) == 0.0;
    }
  }

  lemma {:induction false} SidewaysRows(q: Field, nx: int, rows: int)
    requires forall x, y :: q(x, y) >= 0.0
    requires forall y :: q(0, y) == 0.0 && q(nx, y) == 0.0
    ensures SumAll(Shift(q, -1, 0), nx, rows) <= SumAll(q, nx, rows)
    ensures SumAll(Shift(q, 1, 0), nx, rows) <= SumAll(q, nx, rows)
    decreases rows
  {
    if rows > 1 {
      SidewaysRows(q, nx, rows - 1);
      if nx >= 2 {
        ShiftLeftRow(q, rows - 1, nx);
        ShiftRightRow(q, rows - 1, nx);
      }
    }
  }

  lemma {:induction false} ShiftedRow(q: Field, dy: int, y: int, n: int)
    ensures SumRow(Shift(q, 0, dy), y, n) == SumRow(q, y + dy, n)
    decreases n
  {
    if n > 1 {
      ShiftedRow(q, dy, y, n - 1);
    }
  }

  lemma {:induction false} ShiftDownAll(q: Field, nx: int, ny: int)
    requires ny >= 2
    ensures SumAll(Shift(q, 0, -1), nx, ny) == SumRow(q, 0, nx) + SumAll(q, nx, ny - 1)
    decreases ny
  {
    ShiftedRow(q, -1, ny - 1, nx);
    if ny > 2 {
      ShiftDownAll(q, nx, ny - 1);
    } else {
      assert SumAll(Shift(q, 0, -1), nx, 1) == 0.0;
      assert SumAll(q, nx, 1) == 0.0;
    }
  }

  lemma {:induction false} ShiftUpAll(q: Field, nx: int, ny: int)
    requires ny >= 2
    ensures SumAll(Shift(q, 0, 1), nx, ny) == SumAll(q, nx, ny) - SumRow(q, 1, nx) + SumRow(q, ny, nx)
    decreases ny
  {
    ShiftedRow(q, 1, ny - 1, nx);
    if ny > 2 {
      ShiftUpAll(q, nx, ny - 1);
    } else {
      assert SumAll(Shift(q, 0, 1), nx, 1) == 0.0;
      assert SumAll(q, nx, 1) == 0.0;
    }
  }

  lemma {:induction false} ZeroRow(q: Field, y: int, n: int)
    requires forall x :: q(x, y) == 0.0
    ensures SumRow(q, y, n) == 0.0
    decreases n
  {
    if n > 1 {
      ZeroRow(q, y, n - 1);
    }
  }

  lemma {:induction false} RowNonNegative(q: Field, y: int, n: int)
    requires forall x :: q(x, y) >= 0.0
    ensures SumRow(q, y, n) >= 0.0
    decreases n
  {
    if n > 1 {
      RowNonNegative(q, y, n - 1);
    }
  }

  /** Averaging a nonnegative field that vanishes on the frame cannot increase its sum:
      each interior cell is counted at most four quarter times. */
  lemma MeanShrinks(q: Field, nx: int, ny: int)
    requires Framed(q, nx, ny)
    ensures SumAll(Mean(q), nx, ny) <= SumAll(q, nx, ny)
  {
    SumAllMean(q, nx, ny);
    SidewaysRows(q, nx, ny);
    if ny >= 2 {
      ShiftDownAll(q, nx, ny);
      ShiftUpAll(q, nx, ny);
      ZeroRow(q, 0, nx);
      ZeroRow(q, ny, nx);
      RowNonNegative(q, 1, nx);
      RowNonNegative(q, ny - 1, nx);
    }
  }

  /** The square of a mean is at most the mean of the squares. */
  lemma SquareOfMean(a: real, b: real, c: real, d: real)
    ensures Square((a + b + c + d) * 0.25) <= (Square(a) + Square(b) + Square(c) + Square(d)) * 0.25
  {
    SquaresNonNegative(a - b, a - c, a - d);
    SquaresNonNegative(b - c, b - d, c - d);
    assert (Square(a) + Square(b) + Square(c) + Square(d)) * 0.25 - Square((a + b + c + d) * 0.25)
        == (Square(a - b) + Square(a - c) + Square(a - d) + Square(b - c) + Square(b - d) + Square(c - d)) * 0.0625;
  }

  lemma SquaresNonNegative(a: real, b: real, c: real)
    ensures Square(a) >= 0.0 && Square(b) >= 0.0 && Square(c) >= 0.0
  {
  }

  /** Change made by one iteration: zero outside the interior. */
  function Change(f: Field, sx: int, sy: int): Field {
    (x, y) => if Interior(sx, sy, x, y) then Avg(f, x, y) - f(x, y) else 0.0
  }

  function Squared(f: Field): Field { (x, y) => Square(f(x, y)) }

  /** The change of the next iteration is the mean of the changes of this one. */
  lemma NextChange(f: Field, sx: int, sy: int, x: int, y: int)
    requires Interior(sx, sy, x, y)
    ensures var g := Step(f, sx, sy); Avg(g, x, y) - g(x, y) == Avg(Change(f, sx, sy), x, y)
  {
    var g, d := Step(f, sx, sy), Change(f, sx, sy);
    assert forall i, j :: g(i, j) == f(i, j) + d(i, j);
  }

  lemma {:induction false} SumRowCongruent(p: Field, q: Field, y: int, n: int)
    requires forall x :: 1 <= x < n ==> p(x, y) == q(x, y)
    ensures SumRow(p, y, n) == SumRow(q, y, n)
    decreases n
  {
    if n > 1 {
      SumRowCongruent(p, q, y, n - 1);
    }
  }

  lemma {:induction false} SumAllCongruent(p: Field, q: Field, nx: int, ny: int)
    requires forall x, y :: 1 <= x < nx && 1 <= y < ny ==> p(x, y) == q(x, y)
    ensures SumAll(p, nx, ny) == SumAll(q, nx, ny)
    decreases ny
  {
    if ny > 1 {
      SumAllCongruent(p, q, nx, ny - 1);
      SumRowCongruent(p, q, ny - 1, nx);
    }
  }

  lemma ChangeFramed(f: Field, sx: int, sy: int)
    ensures Framed(Squared(Change(f, sx, sy)), sx - 1, sy - 1)
  {
    var d := Change(f, sx, sy);
    var q := Squared(d);
    forall x, y
      ensures q(x, y) >= 0.0
      ensures !Interior(sx, sy, x, y) ==> q(x, y) == 0.0
    {
      SquaresNonNegative(d(x, y), 0.0, 0.0);
    }
  }

  lemma ChangeSquaredAt(f: Field, x: int, y: int)
    ensures ChangeSquared(f)(x, y) == Square(Avg(f, x, y) - f(x, y))
  {
    hide Square, Avg;
  }

  lemma SquaredAt(f: Field, x: int, y: int)
    ensures Squared(f)(x, y) == Square(f(x, y))
  {
    hide Square;
  }

  lemma MeanAt(f: Field, x: int, y: int)
    ensures Mean(f)(x, y) == Avg(f, x, y)
  {
    hide Avg;
  }

  lemma AvgAt(f: Field, x: int, y: int)
    ensures Avg(f, x, y) == (f(x - 1, y) + f(x + 1, y) + f(x, y + 1) + f(x, y - 1)) * 0.25
  {
  }

  lemma ChangeAt(f: Field, sx: int, sy: int, x: int, y: int)
    requires Interior(sx, sy, x, y)
    ensures Change(f, sx, sy)(x, y) == Avg(f, x, y) - f(x, y)
  {
    hide Avg;
  }

  lemma NextChangeSquared(f: Field, sx: int, sy: int, x: int, y: int)
    requires Interior(sx, sy, x, y)
    ensures ChangeSquared(Step(f, sx, sy))(x, y) <= Mean(Squared(Change(f, sx, sy)))(x, y)
    ensures Squared(Change(f, sx, sy))(x, y) == ChangeSquared(f)(x, y)
  {
    hide *;
    var d := Change(f, sx, sy);
    ChangeSquaredAt(f, x, y);
    ChangeSquaredAt(Step(f, sx, sy), x, y);
    ChangeAt(f, sx, sy, x, y);
    SquaredAt(d, x, y);
    NextChange(f, sx, sy, x, y);
    AvgAt(d, x, y);
    MeanAt(Squared(d), x, y);
    AvgAt(Squared(d), x, y);
    SquaredAt(d, x - 1, y);
    SquaredAt(d, x + 1, y);
    SquaredAt(d, x, y + 1);
    SquaredAt(d, x, y - 1);
    SquareOfMean(d(x - 1, y), d(x + 1, y), d(x, y + 1), d(x, y - 1));
  }

  /** The residual never grows, from any field on any rectangular grid. */
  lemma ResidualNeverGrows(f: Field, sx: int, sy: int)
    ensures Residual(Step(f, sx, sy), sx, sy) <= Residual(f, sx, sy)
  {
    hide SumAll, Framed, ChangeSquared, Mean, Squared, Change, Step;
    var q := Squared(Change(f, sx, sy));
    var nx, ny := sx - 1, sy - 1;
    forall x, y | 1 <= x < nx && 1 <= y < ny
      ensures ChangeSquared(Step(f, sx, sy))(x, y) <= Mean(q)(x, y)
      ensures q(x, y) == ChangeSquared(f)(x, y)
    {
      NextChangeSquared(f, sx, sy, x, y);
    }
    SumAllMonotone(ChangeSquared(Step(f, sx, sy)), Mean(q), nx, ny);
    ChangeFramed(f, sx, sy);
    MeanShrinks(q, nx, ny);
    SumAllCongruent(q, ChangeSquared(f), nx, ny);
  }

  // ---------- the solver's iterates ----------

  ghost predicate Below(f: Field, g: Field) {
    forall x, y :: f(x, y) <= g(x, y)
  }

  lemma StepMonotone(f: Field, g: Field, sx: int, sy: int)
    requires Below(f, g)
    ensures Below(Step(f, sx, sy), Step(g, sx, sy))
  {
    forall x, y
      ensures Step(f, sx, sy)(x, y) <= Step(g, sx, sy)(x, y)
    {
      assert f(x, y) <= g(x, y) && f(x - 1, y) <= g(x - 1, y) && f(x + 1, y) <= g(x + 1, y);
      assert f(x, y + 1) <= g(x, y + 1) && f(x, y - 1) <= g(x, y - 1);
    }
  }

  ghost predicate Settled(f: Field, sx: int, sy: int) {
    && (forall x, y :: 0.0 <= f(x, y) <= 1.0)
    && (forall x, y :: !Interior(sx, sy, x, y) ==> f(x, y) == 1.0)
  }

  lemma StepSettled(f: Field, sx: int, sy: int)
    requires Settled(f, sx, sy)
    ensures Settled(Step(f, sx, sy), sx, sy)
  {
    forall x, y
      ensures 0.0 <= Step(f, sx, sy)(x, y) <= 1.0
    {
      assert 0.0 <= f(x, y) <= 1.0 && 0.0 <= f(x - 1, y) <= 1.0 && 0.0 <= f(x + 1, y) <= 1.0;
      assert 0.0 <= f(x, y + 1) <= 1.0 && 0.0 <= f(x, y - 1) <= 1.0;
    }
  }

  /** Maximum principle: edge cells stay 1 and every cell stays in [0, 1]. */
  lemma {:induction false} MaximumPrinciple(sx: int, sy: int, t: nat)
    ensures Settled(Solution(sx, sy, t), sx, sy)
  {
    hide Settled;
    if t == 0 {
      InitialSettled(sx, sy, t);
    } else {
      MaximumPrinciple(sx, sy, t - 1);
      StepSettled(Solution(sx, sy, t - 1), sx, sy);
    }
  }

  lemma InitialSettled(sx: int, sy: int, t: nat)
    requires t == 0
    ensures Settled(Solution(sx, sy, t), sx, sy)
  {
  }

  /** The iterates never decrease. */
  lemma {:induction false} IteratesRise(sx: int, sy: int, t: nat)
    ensures Below(Solution(sx, sy, t), Solution(sx, sy, t + 1))
  {
    hide Below;
    if t == 0 {
      FirstRise(sx, sy, t);
    } else {
      IteratesRise(sx, sy, t - 1);
      StepMonotone(Solution(sx, sy, t - 1), Solution(sx, sy, t), sx, sy);
    }
  }

  lemma FirstRise(sx: int, sy: int, t: nat)
    requires t == 0
    ensures Below(Solution(sx, sy, t), Solution(sx, sy, t + 1))
  {
    MaximumPrinciple(sx, sy, t + 1);
  }

  // ---------- convergence rate ----------

  function Power(r: real, t: nat): real {
    if t == 0 then 1.0 else r * Power(r, t - 1)
  }

  /** x(M - x): positive between the edges, zero on them. */
  function Bump(m: real, x: real): real { x * (m - x) }

  function Rate(m: real): real
    requires m > 0.0
  {
    1.0 - 2.0 / (m * m)
  }

  /** Averaging the bump over the four neighbours lowers it by one half. */
  lemma BumpMean(m: real, x: real)
    ensures (Bump(m, x - 1.0) + Bump(m, x + 1.0) + Bump(m, x) + Bump(m, x)) * 0.25 == Bump(m, x) - 0.5
  {
    assert Bump(m, x - 1.0) == Bump(m, x) - m + 2.0 * x - 1.0;
    assert Bump(m, x + 1.0) == Bump(m, x) + m - 2.0 * x - 1.0;
  }

  lemma BumpBound(m: real, x: real)
    ensures Bump(m, x) <= m * m * 0.25
  {
    var h := x - m * 0.5;
    assert h * h >= 0.0;
    assert m * m * 0.25 - Bump(m, x) == h * h;
  }

  lemma DivideOut(p: real, w: real)
    requires p > 0.0
    ensures (2.0 / p) * (p * 0.25) == 0.5
    ensures w <= p * 0.25 ==> (2.0 / p) * w <= 0.5
  {
    var c := 2.0 / p;
    assert c * p == 2.0;
    if w <= p * 0.25 {
      assert c > 0.0;
      Scale(c, w, p * 0.25);
    }
  }

  /** Lowering by one half is at least scaling by the rate. */
  lemma BumpDecays(m: real, x: real)
    requires m > 0.0
    ensures Bump(m, x) - 0.5 <= Rate(m) * Bump(m, x)
  {
    BumpBound(m, x);
    assert m * m > 0.0;
    DivideOut(m * m, Bump(m, x));
    var c, w := 2.0 / (m * m), Bump(m, x);
    assert (1.0 - c) * w == w - c * w;
  }

  lemma {:induction false} PowerPositive(r: real, t: nat)
    requires r >= 0.0
    ensures Power(r, t) >= 0.0
  {
    if t > 0 {
      PowerPositive(r, t - 1);
      Scale(r, 0.0, Power(r, t - 1));
    }
  }

  /** The error bound after `t` iterations at column `x`, times M - 1. */
  function Envelope(m: real, t: nat, x: real): real
    requires m > 0.0
  {
    Power(Rate(m), t) * Bump(m, x)
  }

  lemma EnvelopeStep(m: real, t: nat, x: real)
    requires m >= 2.0
    ensures (Envelope(m, t, x - 1.0) + Envelope(m, t, x + 1.0) + Envelope(m, t, x) + Envelope(m, t, x)) * 0.25
         <= Envelope(m, t + 1, x)
  {
    RateNonNegative(m);
    PowerPositive(Rate(m), t);
    BumpMean(m, x);
    BumpDecays(m, x);
    var p, r, w := Power(Rate(m), t), Rate(m), Bump(m, x);
    FactorOut(p, Bump(m, x - 1.0), Bump(m, x + 1.0), w);
    Scale(p, w - 0.5, r * w);
    assert p * (r * w) == (r * p) * w;
  }

  lemma FactorOut(p: real, a: real, b: real, c: real)
    ensures (p * a + p * b + p * c + p * c) * 0.25 == p * ((a + b + c + c) * 0.25)
  {
    var s := a + b + c + c;
    assert p * s == p * a + p * b + p * c + p * c;
    assert p * (s * 0.25) == (p * s) * 0.25;
  }

  lemma RateNonNegative(m: real)
    requires m >= 2.0
    ensures 0.0 <= Rate(m)
  {
    var p, c := m * m, 2.0 / (m * m);
    assert p >= 4.0 by { Scale(m, 2.0, m); Scale(2.0, 2.0, m); }
    assert c * p == 2.0;
    if c > 1.0 {
      Scale(p, 1.0, c);
    }
  }

  /** Error of the solution at interior column `x` times M - 1, M being the last column. */
  ghost predicate ErrorBounded(sx: int, sy: int, t: nat) {
    sx >= 3 && forall x, y :: 0 <= x < sx && 0 <= y < sy ==>
      (1.0 - Solution(sx, sy, t)(x, y)) * ((sx - 2) as real) <= Envelope((sx - 1) as real, t, x as real)
  }

  lemma EdgeEnvelope(m: real, t: nat, x: real)
    requires m >= 2.0 && 0.0 <= x <= m
    ensures Envelope(m, t, x) >= 0.0
  {
    RateNonNegative(m);
    PowerPositive(Rate(m), t);
    Scale(x, 0.0, m - x);
    Scale(Power(Rate(m), t), 0.0, Bump(m, x));
  }

  lemma StartEnvelope(m: real, x: real)
    requires 1.0 <= x <= m - 1.0
    ensures Bump(m, x) >= m - 1.0
  {
    assert Bump(m, x) - (m - 1.0) == (x - 1.0) * (m - 1.0 - x);
    Scale(x - 1.0, 0.0, m - 1.0 - x);
  }

  /** Convergence: after `t` iterations the error at column `x` is at most
      (1 - 2/M^2)^t * x(M - x)/(M - 1), where M = size_x - 1. */
  lemma {:induction false} ConvergenceRate(sx: int, sy: int, t: nat)
    requires sx >= 3
    ensures ErrorBounded(sx, sy, t)
  {
    hide Solution, Envelope;
    if t > 0 {
      ConvergenceRate(sx, sy, t - 1);
    }
    forall x, y | 0 <= x < sx && 0 <= y < sy
      ensures (1.0 - Solution(sx, sy, t)(x, y)) * ((sx - 2) as real) <= Envelope((sx - 1) as real, t, x as real)
    {
      ErrorAt(sx, sy, t, x, y);
    }
  }

  lemma SolutionStep(sx: int, sy: int, t: nat, x: int, y: int)
    requires Interior(sx, sy, x, y)
    ensures Solution(sx, sy, t + 1)(x, y) == Avg(Solution(sx, sy, t), x, y)
  {
  }

  lemma ErrorAt(sx: int, sy: int, t: nat, x: int, y: int)
    requires sx >= 3 && 0 <= x < sx && 0 <= y < sy
    requires t > 0 ==> ErrorBounded(sx, sy, t - 1)
    ensures (1.0 - Solution(sx, sy, t)(x, y)) * ((sx - 2) as real) <= Envelope((sx - 1) as real, t, x as real)
  {
    hide Solution, Envelope;
    if !Interior(sx, sy, x, y) {
      MaximumPrinciple(sx, sy, t);
      EdgeEnvelope((sx - 1) as real, t, x as real);
    } else if t == 0 {
      ErrorAtStart(sx, sy, t, x, y);
    } else {
      ErrorInside(sx, sy, t - 1, x, y);
    }
  }

  lemma ErrorAtStart(sx: int, sy: int, t: nat, x: int, y: int)
    requires sx >= 3 && Interior(sx, sy, x, y) && t == 0
    ensures (1.0 - Solution(sx, sy, t)(x, y)) * ((sx - 2) as real) <= Envelope((sx - 1) as real, t, x as real)
  {
    StartEnvelope((sx - 1) as real, x as real);
  }

  lemma ErrorInside(sx: int, sy: int, t: nat, x: int, y: int)
    requires sx >= 3 && Interior(sx, sy, x, y) && ErrorBounded(sx, sy, t)
    ensures (1.0 - Solution(sx, sy, t + 1)(x, y)) * ((sx - 2) as real) <= Envelope((sx - 1) as real, t + 1, x as real)
  {
    hide Envelope, Solution;
    var u, k, m := Solution(sx, sy, t), (sx - 2) as real, (sx - 1) as real;
    EnvelopeStep(m, t, x as real);
    SolutionStep(sx, sy, t, x, y);
    ErrorOfMean(u(x - 1, y), u(x + 1, y), u(x, y + 1), u(x, y - 1), k);
    assert (x - 1) as real == x as real - 1.0 && (x + 1) as real == x as real + 1.0;
    var e1, e2, e3, e4 := (1.0 - u(x - 1, y)) * k, (1.0 - u(x + 1, y)) * k, (1.0 - u(x, y + 1)) * k, (1.0 - u(x, y - 1)) * k;
    assert e1 <= Envelope(m, t, (x - 1) as real) && e2 <= Envelope(m, t, (x + 1) as real);
    assert e3 <= Envelope(m, t, x as real) && e4 <= Envelope(m, t, x as real);
  }

  lemma ErrorOfMean(a: real, b: real, c: real, d: real, k: real)
    ensures (1.0 - (a + b + c + d) * 0.25) * k
         == ((1.0 - a) * k + (1.0 - b) * k + (1.0 - c) * k + (1.0 - d) * k) * 0.25
  {
  }
}
