/** What the matrix routines compute when every addition, subtraction and
    multiplication is rounded by `fl`, and when that equals the exact product. */
module Rounded {
  import opened Arithmetic
  import opened Bits
  import opened ZMatrix

  /** Rounding of an integer-valued result. */
  type Rounding = int -> int

  /** Integers up to `limit` are representable, so results in that range are exact.
      Single precision satisfies this for 2^24 in every rounding mode. */
  ghost predicate ExactUpTo(fl: Rounding, limit: nat) {
    forall v :: Within(v, limit) ==> fl(v) == v
  }

  predicate Within(x: int, bound: nat) { x <= bound && -x <= bound }

  const F32_LIMIT: nat := 0x100_0000

  predicate Bounded(s: seq<int>, bound: nat) {
    forall z :: 0 <= z < |s| ==> Within(s[z], bound)
  }

  const LEAF_DEPTH: nat := 5

  // ---------- the computations ----------

  /** `d += s`, element by element over the common length. */
  function ZipAdd(fl: Rounding, d: seq<int>, s: seq<int>): (r: seq<int>)
    ensures |r| == |d|
  {
    seq(|d|, z requires 0 <= z < |d| => if z < |s| then fl(d[z] + s[z]) else d[z])
  }

  /** `d -= s`, element by element over the common length. */
  function ZipSub(fl: Rounding, d: seq<int>, s: seq<int>): (r: seq<int>)
    ensures |r| == |d|
  {
    seq(|d|, z requires 0 <= z < |d| => if z < |s| then fl(d[z] - s[z]) else d[z])
  }

  function DotF(fl: Rounding, a: seq<int>, b: seq<int>, r: nat, c: nat, n: nat): int {
    if n == 0 then 0
    else fl(DotF(fl, a, b, r, c, n - 1) + fl(Elem(a, r, n - 1) * Elem(b, n - 1, c)))
  }

  /** The leaf multiply. */
  function SeqMulZF(fl: Rounding, a: seq<int>, b: seq<int>, m: nat): (p: seq<int>)
    ensures |p| == Pow4(m)
  {
    seq(Pow4(m), z requires 0 <= z => DotF(fl, a, b, Row(z), Col(z), Pow2(m)))
  }

  /** The eight-way recursive multiply with a scratch buffer. */
  function MatMulZF(fl: Rounding, a: seq<int>, b: seq<int>, m: nat): (p: seq<int>)
    requires |a| == |b| == Pow4(m)
    ensures |p| == Pow4(m)
    decreases m
  {
    if m <= LEAF_DEPTH then SeqMulZF(fl, a, b, m)
    else
      var n := m - 1;
      var (a1, a2, a3, a4) := Quarters(a, n);
      var (b1, b2, b3, b4) := Quarters(b, n);
      var dest := MatMulZF(fl, a1, b1, n) + MatMulZF(fl, a1, b2, n) + MatMulZF(fl, a3, b1, n) + MatMulZF(fl, a3, b2, n);
      var tmp := MatMulZF(fl, a2, b3, n) + MatMulZF(fl, a2, b4, n) + MatMulZF(fl, a4, b3, n) + MatMulZF(fl, a4, b4, n);
      ZipAdd(fl, dest, tmp)
  }

  /** The seven-multiply recursion. */
  function StrassenF(fl: Rounding, a: seq<int>, b: seq<int>, m: nat): (p: seq<int>)
    requires |a| == |b| == Pow4(m)
    ensures |p| == Pow4(m)
    decreases m
  {
    if m <= LEAF_DEPTH then SeqMulZF(fl, a, b, m)
    else
      var n := m - 1;
      var (a11, a12, a21, a22) := Quarters(a, n);
      var (b11, b12, b21, b22) := Quarters(b, n);
      var m1 := StrassenF(fl, ZipAdd(fl, a11, a22), ZipAdd(fl, b11, b22), n);
      var m2 := StrassenF(fl, ZipAdd(fl, a21, a22), b11, n);
      var m3 := StrassenF(fl, a11, ZipSub(fl, b12, b22), n);
      var m4 := StrassenF(fl, a22, ZipSub(fl, b21, b11), n);
      var m5 := StrassenF(fl, ZipAdd(fl, a11, a12), b22, n);
      var m6 := StrassenF(fl, ZipSub(fl, a21, a11), ZipAdd(fl, b11, b12), n);
      var m7 := StrassenF(fl, ZipSub(fl, a12, a22), ZipAdd(fl, b21, b22), n);
      SumSubF(fl, m1, m4, m7, m5) + ZipAdd(fl, m3, m5) + ZipAdd(fl, m2, m4) + SumSubF(fl, m1, m3, m6, m2)
  }

  function SumSubF(fl: Rounding, a: seq<int>, b: seq<int>, c: seq<int>, s: seq<int>): (r: seq<int>)
    ensures |r| == |a|
  {
    ZipSub(fl, ZipAdd(fl, ZipAdd(fl, a, b), c), s)
  }

  function Quarters(v: seq<int>, n: nat): (q: (seq<int>, seq<int>, seq<int>, seq<int>))
    requires |v| == Pow4(n + 1)
    ensures |q.0| == |q.1| == |q.2| == |q.3| == Pow4(n)
  {
    (Quarter(v, n, 0), Quarter(v, n, 1), Quarter(v, n, 2), Quarter(v, n, 3))
  }

  // ---------- magnitudes ----------

  lemma MulBound(x: int, y: int, p: nat, q: nat)
    requires Within(x, p) && Within(y, q)
    ensures Within(x * y, p * q)
  {
    var u: nat, v: nat := if x < 0 then -x else x, if y < 0 then -y else y;
    MulMonotone(u, p, v);
    MulMonotone(v, q, p);
    assert u * v <= p * q;
    SignsOut(x, y);
  }

  lemma SignsOut(x: int, y: int)
    ensures x * y == -((-x) * y) == -(x * (-y)) == (-x) * (-y)
  {
  }

  lemma ElemBound(a: seq<int>, bound: nat, r: nat, c: nat)
    requires Bounded(a, bound)
    ensures Within(Elem(a, r, c), bound)
  {
    hide Z;
  }

  lemma {:induction false} DotBound(a: seq<int>, b: seq<int>, r: nat, c: nat, n: nat, p: nat, q: nat)
    requires Bounded(a, p) && Bounded(b, q)
    ensures Within(Dot(a, b, r, c, n), n * (p * q))
  {
    hide Elem;
    if n > 0 {
      DotBound(a, b, r, c, n - 1, p, q);
      ElemBound(a, p, r, n - 1);
      ElemBound(b, q, n - 1, c);
      MulBound(Elem(a, r, n - 1), Elem(b, n - 1, c), p, q);
      assert n * (p * q) == (n - 1) * (p * q) + p * q;
    }
  }

  lemma {:induction false} ProductBound(a: seq<int>, b: seq<int>, m: nat, p: nat, q: nat)
    requires Bounded(a, p) && Bounded(b, q)
    ensures Bounded(Product(a, b, m), Pow2(m) * (p * q))
  {
    hide Row, Col, Pow2, Pow4, Within, Dot;
    forall z: nat | z < Pow4(m)
      ensures Within(Product(a, b, m)[z], Pow2(m) * (p * q))
    {
      DotBound(a, b, Row(z), Col(z), Pow2(m), p, q);
    }
  }

  lemma {:induction false} DotExact(fl: Rounding, limit: nat, a: seq<int>, b: seq<int>, r: nat, c: nat, n: nat, p: nat, q: nat)
    requires ExactUpTo(fl, limit) && Bounded(a, p) && Bounded(b, q) && n * (p * q) <= limit
    ensures DotF(fl, a, b, r, c, n) == Dot(a, b, r, c, n)
  {
    hide Elem;
    if n > 0 {
      MulMonotone(n - 1, n, p * q);
      MulMonotone(1, n, p * q);
      DotExact(fl, limit, a, b, r, c, n - 1, p, q);
      DotBound(a, b, r, c, n, p, q);
      ElemBound(a, p, r, n - 1);
      ElemBound(b, q, n - 1, c);
      MulBound(Elem(a, r, n - 1), Elem(b, n - 1, c), p, q);
    }
  }

  // ---------- exactness ----------

  /** The leaf multiply is exact when side * A * B fits. */
  lemma SeqMulZExact(fl: Rounding, limit: nat, a: seq<int>, b: seq<int>, m: nat, p: nat, q: nat)
    requires ExactUpTo(fl, limit) && Bounded(a, p) && Bounded(b, q) && Pow2(m) * (p * q) <= limit
    ensures SeqMulZF(fl, a, b, m) == Product(a, b, m)
  {
    hide ExactUpTo, Bounded, Row, Col, Pow2, Pow4, DotF, Dot;
    forall z: nat | z < Pow4(m)
      ensures SeqMulZF(fl, a, b, m)[z] == Product(a, b, m)[z]
    {
      DotExact(fl, limit, a, b, Row(z), Col(z), Pow2(m), p, q);
    }
  }

  lemma QuarterBounded(v: seq<int>, n: nat, q: nat, bound: nat)
    requires |v| == Pow4(n + 1) && q < 4 && Bounded(v, bound)
    ensures Bounded(Quarter(v, n, q), bound)
  {
  }

  lemma ZipExact(fl: Rounding, limit: nat, x: seq<int>, y: seq<int>, p: nat, q: nat)
    requires ExactUpTo(fl, limit) && |x| == |y| && Bounded(x, p) && Bounded(y, q)
    requires p + q <= limit
    ensures ZipAdd(fl, x, y) == Add(x, y) && Bounded(Add(x, y), p + q)
    ensures ZipSub(fl, x, y) == Sub(x, y) && Bounded(Sub(x, y), p + q)
  {
  }

  /** A sum or difference already known to be small needs no bound on its terms. */
  lemma ZipExactSum(fl: Rounding, limit: nat, x: seq<int>, y: seq<int>)
    requires ExactUpTo(fl, limit) && |x| == |y|
    ensures Bounded(Add(x, y), limit) ==> ZipAdd(fl, x, y) == Add(x, y)
    ensures Bounded(Sub(x, y), limit) ==> ZipSub(fl, x, y) == Sub(x, y)
  {
    if Bounded(Add(x, y), limit) {
      forall z | 0 <= z < |x|
        ensures ZipAdd(fl, x, y)[z] == Add(x, y)[z]
      {
        assert Add(x, y)[z] == x[z] + y[z];
      }
    }
    if Bounded(Sub(x, y), limit) {
      forall z | 0 <= z < |x|
        ensures ZipSub(fl, x, y)[z] == Sub(x, y)[z]
      {
        assert Sub(x, y)[z] == x[z] - y[z];
      }
    }
  }

  lemma AddOfConcat(s: seq<int>, t: seq<int>, u: seq<int>, w: seq<int>, s': seq<int>, t': seq<int>, u': seq<int>, w': seq<int>)
    requires |s| == |t| == |u| == |w| == |s'| == |t'| == |u'| == |w'|
    ensures Add(s + t + u + w, s' + t' + u' + w') == Add(s, s') + Add(t, t') + Add(u, u') + Add(w, w')
  {
  }

  /** The eight-way recursion needs no more room than the product itself. */
  lemma {:induction false} MatMulZExact(fl: Rounding, limit: nat, a: seq<int>, b: seq<int>, m: nat, p: nat, q: nat)
    requires |a| == |b| == Pow4(m)
    requires ExactUpTo(fl, limit) && Bounded(a, p) && Bounded(b, q) && Pow2(m) * (p * q) <= limit
    ensures MatMulZF(fl, a, b, m) == Product(a, b, m)
    decreases m, 0
  {
    hide ExactUpTo, Bounded, Pow2, Pow4, SeqMulZF, Product, Quarter, ZipAdd, Add;
    if m <= LEAF_DEPTH {
      SeqMulZExact(fl, limit, a, b, m, p, q);
    } else {
      var n := m - 1;
      var (a1, a2, a3, a4) := Quarters(a, n);
      var (b1, b2, b3, b4) := Quarters(b, n);
      PowStep(m);
      MulMonotone(Pow2(n), Pow2(m), p * q);
      SubExact(fl, limit, a, b, n, 0, 0, p, q);
      SubExact(fl, limit, a, b, n, 0, 1, p, q);
      SubExact(fl, limit, a, b, n, 2, 0, p, q);
      SubExact(fl, limit, a, b, n, 2, 1, p, q);
      SubExact(fl, limit, a, b, n, 1, 2, p, q);
      SubExact(fl, limit, a, b, n, 1, 3, p, q);
      SubExact(fl, limit, a, b, n, 3, 2, p, q);
      SubExact(fl, limit, a, b, n, 3, 3, p, q);
      var dest := Product(a1, b1, n) + Product(a1, b2, n) + Product(a3, b1, n) + Product(a3, b2, n);
      var tmp := Product(a2, b3, n) + Product(a2, b4, n) + Product(a4, b3, n) + Product(a4, b4, n);
      AddOfConcat(Product(a1, b1, n), Product(a1, b2, n), Product(a3, b1, n), Product(a3, b2, n),
                  Product(a2, b3, n), Product(a2, b4, n), Product(a4, b3, n), Product(a4, b4, n));
      BlockProduct(a, b, n);
      assert Add(dest, tmp) == Product(a, b, m);
      ProductBound(a, b, m, p, q);
      BoundedBy(Product(a, b, m), Pow2(m) * (p * q), limit);
      ZipExactSum(fl, limit, dest, tmp);
    }
  }

  lemma BoundedBy(s: seq<int>, p: nat, q: nat)
    requires Bounded(s, p) && p <= q
    ensures Bounded(s, q)
  {
  }

  lemma SubExact(fl: Rounding, limit: nat, a: seq<int>, b: seq<int>, n: nat, i: nat, j: nat, p: nat, q: nat)
    requires |a| == |b| == Pow4(n + 1) && i < 4 && j < 4
    requires ExactUpTo(fl, limit) && Bounded(a, p) && Bounded(b, q) && Pow2(n) * (p * q) <= limit
    ensures MatMulZF(fl, Quarter(a, n, i), Quarter(b, n, j), n) == Product(Quarter(a, n, i), Quarter(b, n, j), n)
    decreases n, 1
  {
    QuarterBounded(a, n, i, p);
    QuarterBounded(b, n, j, q);
    hide *;
    MatMulZExact(fl, limit, Quarter(a, n, i), Quarter(b, n, j), n, p, q);
  }

  // ---------- the seven products ----------

  lemma ProductOfSums(x: seq<int>, y: seq<int>, u: seq<int>, v: seq<int>, n: nat, z: nat)
    requires |x| == |y| && |u| == |v| && z < Pow4(n)
    ensures Product(Add(x, y), Add(u, v), n)[z]
         == Product(x, u, n)[z] + Product(x, v, n)[z] + Product(y, u, n)[z] + Product(y, v, n)[z]
    ensures Product(Sub(x, y), Add(u, v), n)[z]
         == Product(x, u, n)[z] + Product(x, v, n)[z] - Product(y, u, n)[z] - Product(y, v, n)[z]
  {
    hide Product, Pow4;
    LinearLeft(x, y, Add(u, v), n);
    LinearRight(x, u, v, n);
    LinearRight(y, u, v, n);
  }

  /** The four combinations of the seven products are the four block sums. */
  lemma StrassenIdentity(a: seq<int>, b: seq<int>, n: nat, z: nat)
    requires |a| == |b| == Pow4(n + 1) && z < Pow4(n)
    ensures var (a11, a12, a21, a22) := Quarters(a, n);
            var (b11, b12, b21, b22) := Quarters(b, n);
            var m1 := Product(Add(a11, a22), Add(b11, b22), n);
            var m2 := Product(Add(a21, a22), b11, n);
            var m3 := Product(a11, Sub(b12, b22), n);
            var m4 := Product(a22, Sub(b21, b11), n);
            var m5 := Product(Add(a11, a12), b22, n);
            var m6 := Product(Sub(a21, a11), Add(b11, b12), n);
            var m7 := Product(Sub(a12, a22), Add(b21, b22), n);
            && m1[z] + m4[z] + m7[z] - m5[z] == Block(a, b, n, 0, 0)[z]
            && m3[z] + m5[z] == Block(a, b, n, 0, 1)[z]
            && m2[z] + m4[z] == Block(a, b, n, 1, 0)[z]
            && m1[z] + m3[z] + m6[z] - m2[z] == Block(a, b, n, 1, 1)[z]
  {
    hide Product, Pow4, Quarter;
    var (a11, a12, a21, a22) := Quarters(a, n);
    var (b11, b12, b21, b22) := Quarters(b, n);
    ProductOfSums(a11, a22, b11, b22, n, z);
    LinearLeft(a21, a22, b11, n);
    LinearRight(a11, b12, b22, n);
    LinearRight(a22, b21, b11, n);
    LinearLeft(a11, a12, b22, n);
    ProductOfSums(a21, a11, b11, b12, n, z);
    ProductOfSums(a12, a22, b21, b22, n, z);
  }

  /** Largest magnitude any rounded intermediate can reach: 5 * n * 2^d * A * B for
      side n = 2^m and d = m - 6 the deepest level that still combines products. */
  function StrassenLimit(m: nat, p: nat, q: nat): nat {
    if m <= LEAF_DEPTH then Pow2(m) * (p * q)
    else 5 * (Pow2(m) * Pow2(m - LEAF_DEPTH - 1) * (p * q))
  }

  lemma LimitStep(m: nat, p: nat, q: nat)
    requires m > LEAF_DEPTH
    ensures StrassenLimit(m - 1, 2 * p, 2 * q) <= StrassenLimit(m, p, q)
    ensures 10 * (Pow2(m - 1) * (p * q)) <= StrassenLimit(m, p, q)
  {
    hide *;
    LimitIs(m, p, q);
    LimitIs(m - 1, 2 * p, 2 * q);
    PowStep(m);
    FourTimes(p, q);
    TwoKay(Pow2(m - 1), Pow2(m - LEAF_DEPTH - 1), p * q);
    if m - 1 > LEAF_DEPTH {
      PowStep(m - LEAF_DEPTH - 1);
      Shuffle(Pow2(m - 1), Pow2(m - LEAF_DEPTH - 2), p * q);
    }
  }

  lemma FourTimes(p: nat, q: nat)
    ensures (2 * p) * (2 * q) == 4 * (p * q)
  {
  }

  lemma LimitIs(m: nat, p: nat, q: nat)
    ensures m <= LEAF_DEPTH ==> StrassenLimit(m, p, q) == Pow2(m) * (p * q)
    ensures m > LEAF_DEPTH ==> StrassenLimit(m, p, q) == 5 * (Pow2(m) * Pow2(m - LEAF_DEPTH - 1) * (p * q))
  {
  }

  lemma Shuffle(k: nat, h: nat, w: nat)
    ensures (2 * k) * (2 * h) * w == k * h * (4 * w)
  {
    assert (2 * k) * (2 * h) == 4 * (k * h);
    var x := k * h;
    assert (4 * x) * w == x * (4 * w);
  }

  lemma TwoKay(k: nat, e: nat, w: nat)
    requires e >= 1
    ensures 2 * (k * w) <= (2 * k) * e * w
    ensures k * (4 * w) == 4 * (k * w)
  {
    assert (2 * k) * e >= 2 * k by { MulMonotone(1, e, 2 * k); }
    MulMonotone(2 * k, (2 * k) * e, w);
    assert (2 * k) * w == 2 * (k * w);
  }

  /** Operand sums fit as well. */
  lemma OperandsFit(m: nat, p: nat, q: nat)
    requires m > LEAF_DEPTH && p >= 1 && q >= 1
    ensures 2 * p <= StrassenLimit(m, p, q) && 2 * q <= StrassenLimit(m, p, q)
  {
    hide StrassenLimit, Pow2;
    LimitStep(m, p, q);
    MulMonotone(1, q, p);
    MulMonotone(1, p, q);
    MulMonotone(1, Pow2(m - 1), p * q);
  }

  // ---------- Strassen is exact ----------

  lemma BoundedUp(x: seq<int>, p: nat)
    requires Bounded(x, p)
    ensures Bounded(x, 2 * p)
  {
  }

  /** The running combination a + b + c - s stays exact when its partial sums fit. */
  lemma SumSubExact(fl: Rounding, limit: nat, a: seq<int>, b: seq<int>, c: seq<int>, s: seq<int>, d: seq<int>, w: nat)
    requires ExactUpTo(fl, limit) && |a| == |b| == |c| == |s| == |d| && 10 * w <= limit
    requires Bounded(a, 4 * w) && Bounded(b, 2 * w) && Bounded(c, 4 * w) && Bounded(d, 2 * w)
    requires forall z :: 0 <= z < |d| ==> a[z] + b[z] + c[z] - s[z] == d[z]
    ensures SumSubF(fl, a, b, c, s) == d
  {
    ZipExact(fl, limit, a, b, 4 * w, 2 * w);
    ZipExact(fl, limit, Add(a, b), c, 6 * w, 4 * w);
    var t := Add(Add(a, b), c);
    assert Sub(t, s) == d;
    BoundedBy(d, 2 * w, limit);
    ZipExactSum(fl, limit, t, s);
  }

  lemma SumExact(fl: Rounding, limit: nat, a: seq<int>, b: seq<int>, d: seq<int>, w: nat)
    requires ExactUpTo(fl, limit) && |a| == |b| == |d| && 10 * w <= limit
    requires Bounded(d, 2 * w)
    requires forall z :: 0 <= z < |d| ==> a[z] + b[z] == d[z]
    ensures ZipAdd(fl, a, b) == d
  {
    assert Add(a, b) == d;
    BoundedBy(d, 2 * w, limit);
    ZipExactSum(fl, limit, a, b);
  }

  lemma BlockBound(a: seq<int>, b: seq<int>, n: nat, i: nat, j: nat, p: nat, q: nat)
    requires |a| == |b| == Pow4(n + 1) && i < 2 && j < 2 && Bounded(a, p) && Bounded(b, q)
    ensures Bounded(Block(a, b, n, i, j), 2 * (Pow2(n) * (p * q)))
  {
    QuarterBounded(a, n, 2 * i, p);
    QuarterBounded(a, n, 2 * i + 1, p);
    QuarterBounded(b, n, j, q);
    QuarterBounded(b, n, 2 + j, q);
    hide Pow2, Pow4, Quarter, Product;
    ProductBound(Quarter(a, n, 2 * i), Quarter(b, n, j), n, p, q);
    ProductBound(Quarter(a, n, 2 * i + 1), Quarter(b, n, 2 + j), n, p, q);
  }

  /** One of the seven recursive multiplies, on operands of doubled magnitude. */
  lemma SevenExact(fl: Rounding, limit: nat, x: seq<int>, y: seq<int>, n: nat, p: nat, q: nat)
    requires |x| == |y| == Pow4(n)
    requires ExactUpTo(fl, limit) && Bounded(x, 2 * p) && Bounded(y, 2 * q) && p >= 1 && q >= 1
    requires StrassenLimit(n, 2 * p, 2 * q) <= limit
    ensures StrassenF(fl, x, y, n) == Product(x, y, n)
    ensures Bounded(Product(x, y, n), 4 * (Pow2(n) * (p * q)))
    decreases n, 1
  {
    hide *;
    StrassenExact(fl, limit, x, y, n, 2 * p, 2 * q);
    ProductBound(x, y, n, 2 * p, 2 * q);
    assert (2 * p) * (2 * q) == 4 * (p * q);
    TwoKay(Pow2(n), 1, p * q);
  }

  /** Strassen's recursion computes the exact product on integer matrices as long as
      integers up to `StrassenLimit` are representable: every operand sum, leaf partial
      sum and running combination at every depth passes through `fl` unchanged. */
  lemma {:induction false} StrassenExact(fl: Rounding, limit: nat, a: seq<int>, b: seq<int>, m: nat, p: nat, q: nat)
    requires |a| == |b| == Pow4(m)
    requires ExactUpTo(fl, limit) && Bounded(a, p) && Bounded(b, q) && p >= 1 && q >= 1
    requires StrassenLimit(m, p, q) <= limit
    ensures StrassenF(fl, a, b, m) == Product(a, b, m)
    decreases m, 0
  {
    hide ExactUpTo, Bounded, Pow2, Pow4, SeqMulZF, Product, Block, Quarter, ZipAdd, ZipSub, SumSubF, Add, Sub, StrassenLimit;
    if m <= LEAF_DEPTH {
      LimitIs(m, p, q);
      SeqMulZExact(fl, limit, a, b, m, p, q);
    } else {
      var n := m - 1;
      LimitStep(m, p, q);
      OperandsFit(m, p, q);
      PowStep(m);
      QuartersBounded(a, n, p);
      QuartersBounded(b, n, q);
      var (a11, a12, a21, a22) := Quarters(a, n);
      var (b11, b12, b21, b22) := Quarters(b, n);
      ZipExact(fl, limit, a11, a22, p, p);
      ZipExact(fl, limit, b11, b22, q, q);
      ZipExact(fl, limit, a21, a22, p, p);
      ZipExact(fl, limit, b12, b22, q, q);
      ZipExact(fl, limit, b21, b11, q, q);
      ZipExact(fl, limit, a11, a12, p, p);
      ZipExact(fl, limit, a21, a11, p, p);
      ZipExact(fl, limit, b11, b12, q, q);
      ZipExact(fl, limit, a12, a22, p, p);
      ZipExact(fl, limit, b21, b22, q, q);
      SevenExact(fl, limit, Add(a11, a22), Add(b11, b22), n, p, q);
      SevenExact(fl, limit, Add(a21, a22), b11, n, p, q);
      SevenExact(fl, limit, a11, Sub(b12, b22), n, p, q);
      SevenExact(fl, limit, a22, Sub(b21, b11), n, p, q);
      SevenExact(fl, limit, Add(a11, a12), b22, n, p, q);
      SevenExact(fl, limit, Sub(a21, a11), Add(b11, b12), n, p, q);
      SevenExact(fl, limit, Sub(a12, a22), Add(b21, b22), n, p, q);
      CombineExact(fl, limit, a, b, n, p, q);
      BlockProduct(a, b, n);
    }
  }

  lemma QuartersBounded(v: seq<int>, n: nat, p: nat)
    requires |v| == Pow4(n + 1) && Bounded(v, p)
    ensures forall q | 0 <= q < 4 :: Bounded(Quarter(v, n, q), p) && Bounded(Quarter(v, n, q), 2 * p)
  {
    forall q: nat | q < 4
      ensures Bounded(Quarter(v, n, q), p) && Bounded(Quarter(v, n, q), 2 * p)
    {
      QuarterBounded(v, n, q, p);
      BoundedUp(Quarter(v, n, q), p);
    }
  }

  /** The sums written into the four quarters of the destination are exact. */
  lemma CombineExact(fl: Rounding, limit: nat, a: seq<int>, b: seq<int>, n: nat, p: nat, q: nat)
    requires |a| == |b| == Pow4(n + 1)
    requires ExactUpTo(fl, limit) && Bounded(a, p) && Bounded(b, q)
    requires 10 * (Pow2(n) * (p * q)) <= limit
    ensures var (a11, a12, a21, a22) := Quarters(a, n);
            var (b11, b12, b21, b22) := Quarters(b, n);
            var m1 := Product(Add(a11, a22), Add(b11, b22), n);
            var m2 := Product(Add(a21, a22), b11, n);
            var m3 := Product(a11, Sub(b12, b22), n);
            var m4 := Product(a22, Sub(b21, b11), n);
            var m5 := Product(Add(a11, a12), b22, n);
            var m6 := Product(Sub(a21, a11), Add(b11, b12), n);
            var m7 := Product(Sub(a12, a22), Add(b21, b22), n);
            && SumSubF(fl, m1, m4, m7, m5) == Block(a, b, n, 0, 0)
            && ZipAdd(fl, m3, m5) == Block(a, b, n, 0, 1)
            && ZipAdd(fl, m2, m4) == Block(a, b, n, 1, 0)
            && SumSubF(fl, m1, m3, m6, m2) == Block(a, b, n, 1, 1)
  {
    var (a11, a12, a21, a22) := Quarters(a, n);
    var (b11, b12, b21, b22) := Quarters(b, n);
    var m1 := Product(Add(a11, a22), Add(b11, b22), n);
    var m2 := Product(Add(a21, a22), b11, n);
    var m3 := Product(a11, Sub(b12, b22), n);
    var m4 := Product(a22, Sub(b21, b11), n);
    var m5 := Product(Add(a11, a12), b22, n);
    var m6 := Product(Sub(a21, a11), Add(b11, b12), n);
    var m7 := Product(Sub(a12, a22), Add(b21, b22), n);
    var w := Pow2(n) * (p * q);
    hide Bounded, ExactUpTo, Pow2, Pow4, Product, Block, Quarter, ZipAdd, SumSubF, Add, Sub;
    BlockBound(a, b, n, 0, 0, p, q);
    BlockBound(a, b, n, 0, 1, p, q);
    BlockBound(a, b, n, 1, 0, p, q);
    BlockBound(a, b, n, 1, 1, p, q);
    SevenBounds(a, b, n, p, q);
    forall z: nat | z < Pow4(n)
      ensures m1[z] + m4[z] + m7[z] - m5[z] == Block(a, b, n, 0, 0)[z]
      ensures m3[z] + m5[z] == Block(a, b, n, 0, 1)[z]
      ensures m2[z] + m4[z] == Block(a, b, n, 1, 0)[z]
      ensures m1[z] + m3[z] + m6[z] - m2[z] == Block(a, b, n, 1, 1)[z]
    {
      StrassenIdentity(a, b, n, z);
    }
    SumSubExact(fl, limit, m1, m4, m7, m5, Block(a, b, n, 0, 0), w);
    SumExact(fl, limit, m3, m5, Block(a, b, n, 0, 1), w);
    SumExact(fl, limit, m2, m4, Block(a, b, n, 1, 0), w);
    SumSubExact(fl, limit, m1, m3, m6, m2, Block(a, b, n, 1, 1), w);
  }

  lemma SumBounded(x: seq<int>, y: seq<int>, p: nat)
    requires |x| == |y| && Bounded(x, p) && Bounded(y, p)
    ensures Bounded(Add(x, y), 2 * p) && Bounded(Sub(x, y), 2 * p)
  {
  }

  lemma {:induction false} ScaledBound(x: seq<int>, y: seq<int>, n: nat, i: nat, j: nat, p: nat, q: nat)
    requires Bounded(x, i * p) && Bounded(y, j * q)
    ensures Bounded(Product(x, y, n), (i * j) * (Pow2(n) * (p * q)))
  {
    hide Pow2, Product, Bounded;
    ProductBound(x, y, n, i * p, j * q);
    var k := Pow2(n);
    FourFactors(k, i, p, j, q);
  }

  lemma FourFactors(k: nat, i: nat, p: nat, j: nat, q: nat)
    ensures k * ((i * p) * (j * q)) == (i * j) * (k * (p * q))
  {
    assert (i * p) * (j * q) == (i * j) * (p * q) by {
      assert (i * p) * (j * q) == ((i * p) * j) * q;
      assert (i * p) * j == (i * j) * p;
      assert ((i * j) * p) * q == (i * j) * (p * q);
    }
    var x, y := i * j, p * q;
    assert k * (x * y) == x * (k * y);
  }

  lemma {:induction false} SevenBounds(a: seq<int>, b: seq<int>, n: nat, p: nat, q: nat)
    requires |a| == |b| == Pow4(n + 1) && Bounded(a, p) && Bounded(b, q)
    ensures var (a11, a12, a21, a22) := Quarters(a, n);
            var (b11, b12, b21, b22) := Quarters(b, n);
            var w := Pow2(n) * (p * q);
            && Bounded(Product(Add(a11, a22), Add(b11, b22), n), 4 * w)
            && Bounded(Product(a11, Sub(b12, b22), n), 2 * w)
            && Bounded(Product(a22, Sub(b21, b11), n), 2 * w)
            && Bounded(Product(Sub(a21, a11), Add(b11, b12), n), 4 * w)
            && Bounded(Product(Sub(a12, a22), Add(b21, b22), n), 4 * w)
  {
    hide Bounded, Pow2, Pow4, Product, Quarter, Add, Sub;
    QuartersBounded(a, n, p);
    QuartersBounded(b, n, q);
    var (a11, a12, a21, a22) := Quarters(a, n);
    var (b11, b12, b21, b22) := Quarters(b, n);
    SumBounded(a11, a22, p);
    SumBounded(b11, b22, q);
    SumBounded(b12, b22, q);
    SumBounded(b21, b11, q);
    SumBounded(a21, a11, p);
    SumBounded(b11, b12, q);
    SumBounded(a12, a22, p);
    SumBounded(b21, b22, q);
    ScaledBound(Add(a11, a22), Add(b11, b22), n, 2, 2, p, q);
    ScaledBound(a11, Sub(b12, b22), n, 1, 2, p, q);
    ScaledBound(a22, Sub(b21, b11), n, 1, 2, p, q);
    ScaledBound(Sub(a21, a11), Add(b11, b12), n, 2, 2, p, q);
    ScaledBound(Sub(a12, a22), Add(b21, b22), n, 2, 2, p, q);
  }
}
