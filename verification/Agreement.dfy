/** The three multiplies against each other: in exact arithmetic always, and in
    single precision on the inputs of the repository's own equality test. */
module Agreement {
  import opened Bits
  import opened ZMatrix
  import opened Rounded

  function Magnitude(s: seq<int>): (bound: nat)
    ensures bound >= 1
  {
    if s == [] then 1
    else
      var rest, x := Magnitude(s[1..]), s[0];
      if x > rest then x else if -x > rest then -x else rest
  }

  lemma {:induction false} MagnitudeBounds(s: seq<int>)
    ensures Bounded(s, Magnitude(s))
  {
    if s != [] {
      MagnitudeBounds(s[1..]);
      forall z | 0 <= z < |s|
        ensures Within(s[z], Magnitude(s))
      {
        if z > 0 {
          assert Within(s[1..][z - 1], Magnitude(s[1..]));
        }
      }
    }
  }

  /** Arithmetic without rounding. */
  const EXACT: Rounding := v => v

  /** Without rounding all three routines compute the matrix product, for every
      pair of matrices of every size. */
  lemma {:induction false} ExactArithmetic(a: seq<int>, b: seq<int>, m: nat)
    requires |a| == |b| == Pow4(m)
    ensures SeqMulZF(EXACT, a, b, m) == Product(a, b, m)
    ensures MatMulZF(EXACT, a, b, m) == Product(a, b, m)
    ensures StrassenF(EXACT, a, b, m) == Product(a, b, m)
  {
    hide SeqMulZF, MatMulZF, StrassenF, Product, Pow2, Pow4, StrassenLimit, Magnitude, Bounded;
    MagnitudeBounds(a);
    MagnitudeBounds(b);
    RoundedAgreement(EXACT, StrassenLimit(m, Magnitude(a), Magnitude(b)), a, b, m, Magnitude(a), Magnitude(b));
  }

  /** With rounding, the three agree bit for bit whenever Strassen's intermediates fit. */
  lemma RoundedAgreement(fl: Rounding, limit: nat, a: seq<int>, b: seq<int>, m: nat, p: nat, q: nat)
    requires |a| == |b| == Pow4(m)
    requires ExactUpTo(fl, limit) && Bounded(a, p) && Bounded(b, q) && p >= 1 && q >= 1
    requires StrassenLimit(m, p, q) <= limit
    ensures SeqMulZF(fl, a, b, m) == MatMulZF(fl, a, b, m) == StrassenF(fl, a, b, m) == Product(a, b, m)
  {
    ProductFits(m, p, q);
    hide *;
    SeqMulZExact(fl, limit, a, b, m, p, q);
    MatMulZExact(fl, limit, a, b, m, p, q);
    StrassenExact(fl, limit, a, b, m, p, q);
  }

  lemma {:induction false} ProductFits(m: nat, p: nat, q: nat)
    ensures Pow2(m) * (p * q) <= StrassenLimit(m, p, q)
  {
    hide Pow2, StrassenLimit;
    LimitIs(m, p, q);
    if m > LEAF_DEPTH {
      LimitStep(m, p, q);
      PowStep(m);
      var k, w := Pow2(m - 1), p * q;
      assert (2 * k) * w == 2 * (k * w);
    }
  }

  lemma SmallPowers()
    ensures Pow2(1) == 2 && Pow2(3) == 8 && Pow2(7) == 128 && Pow2(9) == 512
    ensures Pow4(7) == 0x4000 && Pow4(9) == 512 * 512
  {
    assert Pow2(5) == 32;
    assert Pow2(8) == 256;
    Pow4IsSquare(7);
    Pow4IsSquare(9);
  }

  /** The equality test: side 128, entries i % 101 and i % 101 + 7. In single
      precision, whatever the rounding mode, all three results are identical. */
  lemma EqualityTestHolds(fl: Rounding, a: seq<int>, b: seq<int>)
    requires ExactUpTo(fl, F32_LIMIT)
    requires |a| == |b| == 0x4000
    requires forall i :: 0 <= i < 0x4000 ==> a[i] == i % 101 && b[i] == i % 101 + 7
    ensures Pow4(7) == 0x4000
    ensures MatMulZF(fl, a, b, 7) == SeqMulZF(fl, a, b, 7)
    ensures StrassenF(fl, a, b, 7) == SeqMulZF(fl, a, b, 7)
  {
    hide MatMulZF, StrassenF, SeqMulZF, Product, Pow2, Pow4, StrassenLimit, ExactUpTo;
    SmallPowers();
    LimitIs(7, 100, 107);
    assert StrassenLimit(7, 100, 107) == 13_696_000;
    RoundedAgreement(fl, F32_LIMIT, a, b, 7, 100, 107);
  }

  lemma {:induction false} DotOfConstants(a: seq<int>, b: seq<int>, m: nat, x: int, y: int, r: nat, c: nat, n: nat)
    requires |a| == |b| == Pow4(m) && r < Pow2(m) && c < Pow2(m) && n <= Pow2(m)
    requires forall z :: 0 <= z < Pow4(m) ==> a[z] == x && b[z] == y
    ensures Dot(a, b, r, c, n) == n * (x * y)
  {
    hide Z, Pow2, Pow4;
    if n > 0 {
      DotOfConstants(a, b, m, x, y, r, c, n - 1);
      ZBound(r, n - 1, m);
      ZBound(n - 1, c, m);
      var w := x * y;
      assert n * w == (n - 1) * w + w;
    }
  }

  /** The demo: 512 x 512 matrices of ones and twos give 1024 in every entry. */
  lemma DemoResult(fl: Rounding, x: seq<int>, y: seq<int>)
    requires ExactUpTo(fl, F32_LIMIT)
    requires |x| == |y| == 512 * 512
    requires forall i :: 0 <= i < 512 * 512 ==> x[i] == 1 && y[i] == 2
    ensures Pow4(9) == 512 * 512
    ensures forall z :: 0 <= z < 512 * 512 ==> StrassenF(fl, x, y, 9)[z] == 1024
  {
    hide MatMulZF, StrassenF, SeqMulZF, Pow2, Pow4, StrassenLimit, ExactUpTo, Dot, Row, Col;
    SmallPowers();
    LimitIs(9, 1, 2);
    assert StrassenLimit(9, 1, 2) == 40_960;
    RoundedAgreement(fl, F32_LIMIT, x, y, 9, 1, 2);
    forall z: nat | z < 512 * 512
      ensures Product(x, y, 9)[z] == 1024
    {
      RowColBound(z, 9);
      DotOfConstants(x, y, 9, 1, 2, Row(z), Col(z), 512);
    }
  }
}
