/** Square matrices of side 2^m stored in Z-order: the plain sum-of-products
    definition of the matrix product, its quadrant decomposition, and its linearity. */
module ZMatrix {
  import opened Bits

  /** Row `r`, column `c` of the Z-ordered matrix `a`. */
  function Elem(a: seq<int>, r: nat, c: nat): int {
    if Z(r, c) < |a| then a[Z(r, c)] else 0
  }

  /** The first `n` terms of row `r` of `a` times column `c` of `b`. */
  function Dot(a: seq<int>, b: seq<int>, r: nat, c: nat, n: nat): int {
    if n == 0 then 0 else Dot(a, b, r, c, n - 1) + Elem(a, r, n - 1) * Elem(b, n - 1, c)
  }

  /** The matrix product, laid out in Z-order. */
  function Product(a: seq<int>, b: seq<int>, m: nat): (p: seq<int>)
    ensures |p| == Pow4(m)
  {
    seq(Pow4(m), z requires 0 <= z => Dot(a, b, Row(z), Col(z), Pow2(m)))
  }

  /** D[r,c] is the sum over all k of A[r,k] * B[k,c]. */
  lemma {:induction false} ProductElement(a: seq<int>, b: seq<int>, m: nat, r: nat, c: nat)
    requires r < Pow2(m) && c < Pow2(m)
    ensures Elem(Product(a, b, m), r, c) == Dot(a, b, r, c, Pow2(m))
  {
    hide Z, Row, Col, Dot, Pow2, Pow4;
    ZBound(r, c, m);
    RowColOfZ(r, c);
  }

  /** A matrix with the right elements is the product: no layout freedom is left. */
  lemma {:induction false} ProductUnique(d: seq<int>, a: seq<int>, b: seq<int>, m: nat)
    requires |d| == Pow4(m)
    requires forall r, c | 0 <= r < Pow2(m) && 0 <= c < Pow2(m) :: Elem(d, r, c) == Dot(a, b, r, c, Pow2(m))
    ensures d == Product(a, b, m)
  {
    hide Z, Row, Col, Dot, Pow2, Pow4;
    forall z: nat | z < Pow4(m)
      ensures d[z] == Product(a, b, m)[z]
    {
      ZOfRowCol(z);
      RowColBound(z, m);
      assert Elem(d, Row(z), Col(z)) == d[z];
    }
  }

  // ---------- quadrants ----------

  /** Split in two, then each half in two. */
  function QuarterChunks<T>(v: seq<T>): (seq<T>, seq<T>, seq<T>, seq<T>) {
    var mid := |v| / 2;
    var quarter := mid / 2;
    var left, right := v[..mid], v[mid..];
    (left[..quarter], left[quarter..], right[..quarter], right[quarter..])
  }

  /** The `q`-th contiguous quarter of data of length 4^(m+1). */
  function Quarter<T>(v: seq<T>, m: nat, q: nat): (s: seq<T>)
    requires |v| == Pow4(m + 1) && q < 4
    ensures |s| == Pow4(m)
  {
    v[q * Pow4(m)..(q + 1) * Pow4(m)]
  }

  lemma QuarterChunksSplit<T>(v: seq<T>, m: nat)
    requires |v| == Pow4(m + 1)
    ensures QuarterChunks(v) == (Quarter(v, m, 0), Quarter(v, m, 1), Quarter(v, m, 2), Quarter(v, m, 3))
    ensures v == Quarter(v, m, 0) + Quarter(v, m, 1) + Quarter(v, m, 2) + Quarter(v, m, 3)
  {
    var n := Pow4(m);
    assert |v| == 4 * n;
    hide Pow4;
    assert v[..2 * n][..n] == v[0 * n..1 * n];
    assert v[..2 * n][n..] == v[1 * n..2 * n];
    assert v[2 * n..][..n] == v[2 * n..3 * n];
    assert v[2 * n..][n..] == v[3 * n..4 * n];
  }

  lemma SpreadTop(i: nat, r: nat, m: nat)
    requires i < 2 && r < Pow2(m)
    ensures Spread(i * Pow2(m) + r) == i * Pow4(m) + Spread(r)
  {
    hide *;
    if i == 0 {
      assert i * Pow2(m) == i * Pow4(m) == 0;
    } else {
      SpreadTopBit(r, m);
      assert i * Pow2(m) == Pow2(m) && i * Pow4(m) == Pow4(m);
    }
  }

  /** The quarter an index falls in gives the top bits of its row and column. */
  lemma ZTopBits(i: nat, j: nat, r: nat, c: nat, m: nat)
    requires i < 2 && j < 2 && r < Pow2(m) && c < Pow2(m)
    ensures Z(i * Pow2(m) + r, j * Pow2(m) + c) == (2 * i + j) * Pow4(m) + Z(r, c)
  {
    hide Spread, Pow2, Pow4;
    SpreadTop(i, r, m);
    SpreadTop(j, c, m);
    var p := Pow4(m);
    assert 2 * (i * p) + j * p == (2 * i + j) * p;
  }

  /** Quadrant lemma: quarter 2i+j of Z-ordered data is the matrix quadrant in
      block row `i`, block column `j`, again in Z-order. */
  lemma QuadrantElem(a: seq<int>, m: nat, i: nat, j: nat, r: nat, c: nat)
    requires |a| == Pow4(m + 1) && i < 2 && j < 2 && r < Pow2(m) && c < Pow2(m)
    ensures Elem(Quarter(a, m, 2 * i + j), r, c) == Elem(a, i * Pow2(m) + r, j * Pow2(m) + c)
  {
    ZTopBits(i, j, r, c, m);
    ZBound(r, c, m);
    hide Z, Pow2;
    var q, z := 2 * i + j, Z(r, c);
    QuarterAt(a, m, q, z);
  }

  lemma QuarterAt<T>(v: seq<T>, m: nat, q: nat, z: nat)
    requires |v| == Pow4(m + 1) && q < 4 && z < Pow4(m)
    ensures q * Pow4(m) + z < |v| && Quarter(v, m, q)[z] == v[q * Pow4(m) + z]
  {
    assert q == 0 || q == 1 || q == 2 || q == 3;
  }

  lemma {:induction false} DotQuadrant(a: seq<int>, b: seq<int>, m: nat, i: nat, j: nat, r: nat, c: nat, n: nat)
    requires |a| == |b| == Pow4(m + 1) && i < 2 && j < 2 && r < Pow2(m) && c < Pow2(m) && n <= Pow2(m)
    ensures Dot(a, b, i * Pow2(m) + r, j * Pow2(m) + c, n)
         == Dot(Quarter(a, m, 2 * i), Quarter(b, m, j), r, c, n)
  {
    hide Elem, Pow2, Pow4;
    if n > 0 {
      DotQuadrant(a, b, m, i, j, r, c, n - 1);
      QuadrantElem(a, m, i, 0, r, n - 1);
      QuadrantElem(b, m, 0, j, n - 1, c);
    }
  }

  lemma {:induction false} DotSecondHalf(a: seq<int>, b: seq<int>, m: nat, i: nat, j: nat, r: nat, c: nat, n: nat)
    requires |a| == |b| == Pow4(m + 1) && i < 2 && j < 2 && r < Pow2(m) && c < Pow2(m) && n <= Pow2(m)
    ensures Dot(a, b, i * Pow2(m) + r, j * Pow2(m) + c, Pow2(m) + n)
         == Dot(a, b, i * Pow2(m) + r, j * Pow2(m) + c, Pow2(m))
            + Dot(Quarter(a, m, 2 * i + 1), Quarter(b, m, 2 + j), r, c, n)
  {
    hide Elem, Pow2, Pow4;
    if n > 0 {
      DotSecondHalf(a, b, m, i, j, r, c, n - 1);
      QuadrantElem(a, m, i, 1, r, n - 1);
      QuadrantElem(b, m, 1, j, n - 1, c);
    }
  }

  // ---------- elementwise sums and linearity ----------

  function Add(x: seq<int>, y: seq<int>): (s: seq<int>)
    requires |x| == |y|
    ensures |s| == |x|
  {
    seq(|x|, z requires 0 <= z < |x| => x[z] + y[z])
  }

  function Sub(x: seq<int>, y: seq<int>): (s: seq<int>)
    requires |x| == |y|
    ensures |s| == |x|
  {
    seq(|x|, z requires 0 <= z < |x| => x[z] - y[z])
  }

  lemma ElemOfSum(x: seq<int>, y: seq<int>, r: nat, c: nat)
    requires |x| == |y|
    ensures Elem(Add(x, y), r, c) == Elem(x, r, c) + Elem(y, r, c)
    ensures Elem(Sub(x, y), r, c) == Elem(x, r, c) - Elem(y, r, c)
  {
    hide Z;
  }

  lemma Distribute(p: int, q: int, w: int)
    ensures (p + q) * w == p * w + q * w == w * (p + q)
    ensures (p - q) * w == p * w - q * w == w * (p - q)
  {
  }

  lemma {:induction false} DotLinearLeft(x: seq<int>, y: seq<int>, b: seq<int>, r: nat, c: nat, n: nat)
    requires |x| == |y|
    ensures Dot(Add(x, y), b, r, c, n) == Dot(x, b, r, c, n) + Dot(y, b, r, c, n)
    ensures Dot(Sub(x, y), b, r, c, n) == Dot(x, b, r, c, n) - Dot(y, b, r, c, n)
  {
    hide Z, Elem, Add, Sub;
    if n > 0 {
      DotLinearLeft(x, y, b, r, c, n - 1);
      ElemOfSum(x, y, r, n - 1);
      Distribute(Elem(x, r, n - 1), Elem(y, r, n - 1), Elem(b, n - 1, c));
    }
  }

  lemma {:induction false} DotLinearRight(a: seq<int>, x: seq<int>, y: seq<int>, r: nat, c: nat, n: nat)
    requires |x| == |y|
    ensures Dot(a, Add(x, y), r, c, n) == Dot(a, x, r, c, n) + Dot(a, y, r, c, n)
    ensures Dot(a, Sub(x, y), r, c, n) == Dot(a, x, r, c, n) - Dot(a, y, r, c, n)
  {
    hide Z, Elem, Add, Sub;
    if n > 0 {
      DotLinearRight(a, x, y, r, c, n - 1);
      ElemOfSum(x, y, n - 1, c);
      Distribute(Elem(x, n - 1, c), Elem(y, n - 1, c), Elem(a, r, n - 1));
    }
  }

  /** The product is linear in its first factor ... */
  lemma LinearLeft(x: seq<int>, y: seq<int>, b: seq<int>, m: nat)
    requires |x| == |y|
    ensures Product(Add(x, y), b, m) == Add(Product(x, b, m), Product(y, b, m))
    ensures Product(Sub(x, y), b, m) == Sub(Product(x, b, m), Product(y, b, m))
  {
    hide Dot, Row, Col, Pow2, Pow4;
    forall z: nat | z < Pow4(m)
      ensures Product(Add(x, y), b, m)[z] == Product(x, b, m)[z] + Product(y, b, m)[z]
      ensures Product(Sub(x, y), b, m)[z] == Product(x, b, m)[z] - Product(y, b, m)[z]
    {
      DotLinearLeft(x, y, b, Row(z), Col(z), Pow2(m));
    }
  }

  /** ... and in its second. */
  lemma LinearRight(a: seq<int>, x: seq<int>, y: seq<int>, m: nat)
    requires |x| == |y|
    ensures Product(a, Add(x, y), m) == Add(Product(a, x, m), Product(a, y, m))
    ensures Product(a, Sub(x, y), m) == Sub(Product(a, x, m), Product(a, y, m))
  {
    hide Dot, Row, Col, Pow2, Pow4;
    forall z: nat | z < Pow4(m)
      ensures Product(a, Add(x, y), m)[z] == Product(a, x, m)[z] + Product(a, y, m)[z]
      ensures Product(a, Sub(x, y), m)[z] == Product(a, x, m)[z] - Product(a, y, m)[z]
    {
      DotLinearRight(a, x, y, Row(z), Col(z), Pow2(m));
    }
  }

  // ---------- block product ----------

  /** Row of blocks `i` of `a` times column of blocks `j` of `b`. */
  function Block(a: seq<int>, b: seq<int>, m: nat, i: nat, j: nat): (s: seq<int>)
    requires |a| == |b| == Pow4(m + 1) && i < 2 && j < 2
    ensures |s| == Pow4(m)
  {
    Add(Product(Quarter(a, m, 2 * i), Quarter(b, m, j), m),
        Product(Quarter(a, m, 2 * i + 1), Quarter(b, m, 2 + j), m))
  }

  /** An index of quarter 2i+j belongs to row i*2^m + r and column j*2^m + c. */
  lemma QuarterRowCol(m: nat, i: nat, j: nat, z: nat)
    requires i < 2 && j < 2 && z < Pow4(m)
    ensures Row(z) < Pow2(m) && Col(z) < Pow2(m)
    ensures Row((2 * i + j) * Pow4(m) + z) == i * Pow2(m) + Row(z)
    ensures Col((2 * i + j) * Pow4(m) + z) == j * Pow2(m) + Col(z)
  {
    hide *;
    RowColBound(z, m);
    ZOfRowCol(z);
    ZTopBits(i, j, Row(z), Col(z), m);
    RowColOfZ(i * Pow2(m) + Row(z), j * Pow2(m) + Col(z));
  }

  lemma BlockAt(a: seq<int>, b: seq<int>, m: nat, i: nat, j: nat, z: nat)
    requires |a| == |b| == Pow4(m + 1) && i < 2 && j < 2 && z < Pow4(m)
    ensures (2 * i + j) * Pow4(m) + z < Pow4(m + 1)
    ensures Product(a, b, m + 1)[(2 * i + j) * Pow4(m) + z] == Block(a, b, m, i, j)[z]
  {
    hide Z, Row, Col, Dot, Quarter;
    assert Pow2(m + 1) == Pow2(m) + Pow2(m);
    QuarterAt(a, m, 2 * i + j, z);
    hide Pow2, Pow4;
    QuarterRowCol(m, i, j, z);
    DotQuadrant(a, b, m, i, j, Row(z), Col(z), Pow2(m));
    DotSecondHalf(a, b, m, i, j, Row(z), Col(z), Pow2(m));
  }

  lemma BlockQuarter(a: seq<int>, b: seq<int>, m: nat, i: nat, j: nat)
    requires |a| == |b| == Pow4(m + 1) && i < 2 && j < 2
    ensures Quarter(Product(a, b, m + 1), m, 2 * i + j) == Block(a, b, m, i, j)
  {
    hide *;
    var p, d := Quarter(Product(a, b, m + 1), m, 2 * i + j), Block(a, b, m, i, j);
    forall z: nat | z < Pow4(m)
      ensures p[z] == d[z]
    {
      BlockAt(a, b, m, i, j, z);
      QuarterAt(Product(a, b, m + 1), m, 2 * i + j, z);
    }
  }

  /** The quadrants of the product are the sums of products of quadrants. */
  lemma BlockProduct(a: seq<int>, b: seq<int>, m: nat)
    requires |a| == |b| == Pow4(m + 1)
    ensures Product(a, b, m + 1)
         == Block(a, b, m, 0, 0) + Block(a, b, m, 0, 1) + Block(a, b, m, 1, 0) + Block(a, b, m, 1, 1)
  {
    hide Product, Block, Quarter, Pow4;
    QuarterChunksSplit(Product(a, b, m + 1), m);
    BlockQuarter(a, b, m, 0, 0);
    BlockQuarter(a, b, m, 0, 1);
    BlockQuarter(a, b, m, 1, 0);
    BlockQuarter(a, b, m, 1, 1);
  }
}
