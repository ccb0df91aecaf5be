/** The row-major multiply, and its agreement with the Z-order multiply under the
    change of layout. */
module RowMajor {
  import opened Arithmetic
  import opened Bits
  import opened MatMul
  import opened Rounded
  import opened ZMatrix

  /** Position of row `r`, column `c` in row-major order, side 2^m. */
  function At(m: nat, r: nat, c: nat): nat { r * Pow2(m) + c }

  lemma AtBound(m: nat, r: nat, c: nat)
    requires r < Pow2(m) && c < Pow2(m)
    ensures At(m, r, c) < Pow4(m)
  {
    Pow4IsSquare(m);
    var p := Pow2(m);
    hide Pow2, Pow4;
    MulMonotone(r + 1, p, p);
    assert (r + 1) * p == r * p + p;
  }

  lemma Gap(q: nat, r: nat, p: nat)
    requires q < r
    ensures q * p + p <= r * p
  {
    MulMonotone(q + 1, r, p);
    assert (q + 1) * p == q * p + p;
  }

  lemma QuotientUnique(p: nat, q: nat, s: nat, r: nat, c: nat)
    requires s < p && c < p && q * p + s == r * p + c
    ensures q == r && s == c
  {
    if q < r {
      Gap(q, r, p);
      assert false;
    } else if r < q {
      Gap(r, q, p);
      assert false;
    }
  }

  /** Whole multiples of `p` in `x`. */
  function Quotient(x: nat, p: nat): (q: nat)
    requires p > 0
    ensures q * p <= x < q * p + p
  {
    if x < p then 0
    else
      var q := Quotient(x - p, p);
      assert (q + 1) * p == q * p + p;
      q + 1
  }

  function RowOf(m: nat, x: nat): nat { Quotient(x, Pow2(m)) }

  function ColOf(m: nat, x: nat): nat { x - Quotient(x, Pow2(m)) * Pow2(m) }

  lemma RowColOfAt(m: nat, r: nat, c: nat)
    requires c < Pow2(m)
    ensures RowOf(m, At(m, r, c)) == r && ColOf(m, At(m, r, c)) == c
  {
    hide Pow2, Quotient;
    var x := At(m, r, c);
    QuotientUnique(Pow2(m), RowOf(m, x), ColOf(m, x), r, c);
  }

  /** A row-major index splits into a row and a column below the side. */
  lemma Split(m: nat, x: nat)
    requires x < Pow4(m)
    ensures RowOf(m, x) < Pow2(m) && ColOf(m, x) < Pow2(m) && At(m, RowOf(m, x), ColOf(m, x)) == x
  {
    hide Pow2, Pow4, Quotient;
    Pow4IsSquare(m);
    if Pow2(m) <= RowOf(m, x) {
      MulMonotone(Pow2(m), RowOf(m, x), Pow2(m));
      assert false;
    }
  }

  /** Re-lay a row-major matrix in Z-order. */
  function ToZ(a: seq<int>, m: nat): (z: seq<int>)
    requires |a| == Pow4(m)
    ensures |z| == Pow4(m)
  {
    seq(Pow4(m), z requires 0 <= z < Pow4(m) => RowColBound(z, m); AtBound(m, Row(z), Col(z)); a[At(m, Row(z), Col(z))])
  }

  /** Re-lay a Z-ordered matrix in row-major order. */
  function FromZ(d: seq<int>, m: nat): (a: seq<int>)
    requires |d| == Pow4(m)
    ensures |a| == Pow4(m)
  {
    seq(Pow4(m), x requires 0 <= x < Pow4(m) =>
      Split(m, x); ZBound(RowOf(m, x), ColOf(m, x), m); d[Z(RowOf(m, x), ColOf(m, x))])
  }

  lemma FromZAt(d: seq<int>, m: nat, r: nat, c: nat)
    requires |d| == Pow4(m) && r < Pow2(m) && c < Pow2(m)
    ensures At(m, r, c) < Pow4(m) && Z(r, c) < Pow4(m)
    ensures FromZ(d, m)[At(m, r, c)] == d[Z(r, c)]
  {
    hide Pow2, Pow4, Z, At, RowOf, ColOf;
    AtBound(m, r, c);
    ZBound(r, c, m);
    RowColOfAt(m, r, c);
  }

  lemma ToZAt(a: seq<int>, m: nat, r: nat, c: nat)
    requires |a| == Pow4(m) && r < Pow2(m) && c < Pow2(m)
    ensures At(m, r, c) < Pow4(m) && Elem(ToZ(a, m), r, c) == a[At(m, r, c)]
  {
    hide Pow2, Pow4, Z, Row, Col, At;
    AtBound(m, r, c);
    ZBound(r, c, m);
    RowColOfZ(r, c);
  }

  /** The two changes of layout are inverse to each other. */
  lemma LayoutRoundTrip(a: seq<int>, m: nat)
    requires |a| == Pow4(m)
    ensures FromZ(ToZ(a, m), m) == a && ToZ(FromZ(a, m), m) == a
  {
    hide Pow2, Pow4, Z, Row, Col, At, FromZ, ToZ;
    forall x: nat | x < Pow4(m)
      ensures FromZ(ToZ(a, m), m)[x] == a[x] && ToZ(FromZ(a, m), m)[x] == a[x]
    {
      FromThenBack(a, m, x);
      ToThenBack(a, m, x);
    }
  }

  lemma FromThenBack(a: seq<int>, m: nat, x: nat)
    requires |a| == Pow4(m) && x < Pow4(m)
    ensures FromZ(ToZ(a, m), m)[x] == a[x]
  {
    hide Pow2, Pow4, Z, At, FromZ, ToZ, RowOf, ColOf;
    Split(m, x);
    var r, c := RowOf(m, x), ColOf(m, x);
    FromZAt(ToZ(a, m), m, r, c);
    ToZAt(a, m, r, c);
  }

  lemma {:induction false} ToThenBack(a: seq<int>, m: nat, z: nat)
    requires |a| == Pow4(m) && z < Pow4(m)
    ensures ToZ(FromZ(a, m), m)[z] == a[z]
  {
    hide Pow2, Pow4, Z, Row, Col, At, FromZ, ToZ;
    RowColBound(z, m);
    ZOfRowCol(z);
    ToZAt(FromZ(a, m), m, Row(z), Col(z));
    FromZAt(a, m, Row(z), Col(z));
    ElemOf(ToZ(FromZ(a, m), m), Row(z), Col(z));
  }

  lemma ElemOf(d: seq<int>, r: nat, c: nat)
    requires Z(r, c) < |d|
    ensures Elem(d, r, c) == d[Z(r, c)]
  {
  }

  // ---------- the multiply ----------

  /** The first `n` terms of row `r` times column `c`, in row-major order. */
  function RowDotF(fl: Rounding, a: seq<int>, b: seq<int>, m: nat, r: nat, c: nat, n: nat): int
    requires |a| == |b| == Pow4(m) && r < Pow2(m) && c < Pow2(m) && n <= Pow2(m)
  {
    if n == 0 then 0
    else
      AtBound(m, r, n - 1);
      AtBound(m, n - 1, c);
      fl(RowDotF(fl, a, b, m, r, c, n - 1) + fl(a[At(m, r, n - 1)] * b[At(m, n - 1, c)]))
  }

  lemma {:induction false} DotsAgree(fl: Rounding, a: seq<int>, b: seq<int>, m: nat, r: nat, c: nat, n: nat)
    requires |a| == |b| == Pow4(m) && r < Pow2(m) && c < Pow2(m) && n <= Pow2(m)
    ensures RowDotF(fl, a, b, m, r, c, n) == DotF(fl, ToZ(a, m), ToZ(b, m), r, c, n)
  {
    hide Pow2, Pow4, ToZ, At, Elem;
    if n > 0 {
      DotsAgree(fl, a, b, m, r, c, n - 1);
      ToZAt(a, m, r, n - 1);
      ToZAt(b, m, n - 1, c);
    }
  }

  /** `dest` holds the row-major product: D[r,c] is the rounded sum over k. */
  ghost predicate IsRowProduct(fl: Rounding, a: seq<int>, b: seq<int>, d: seq<int>, m: nat) {
    && |a| == |b| == |d| == Pow4(m)
    && forall r: nat, c: nat | r < Pow2(m) && c < Pow2(m) ::
         At(m, r, c) < |d| && d[At(m, r, c)] == RowDotF(fl, a, b, m, r, c, Pow2(m))
  }

  /** Permute to Z-order, multiply, permute back: the row-major product, term for
      term and so rounding for rounding. */
  lemma ZOrderRefinesRowMajor(fl: Rounding, a: seq<int>, b: seq<int>, d: seq<int>, m: nat)
    requires |a| == |b| == |d| == Pow4(m)
    ensures IsRowProduct(fl, a, b, d, m) <==> d == FromZ(SeqMulZF(fl, ToZ(a, m), ToZ(b, m), m), m)
  {
    hide Pow2, Pow4, ToZ, FromZ, At, RowDotF, RowOf, ColOf;
    var e := FromZ(SeqMulZF(fl, ToZ(a, m), ToZ(b, m), m), m);
    forall r: nat, c: nat | r < Pow2(m) && c < Pow2(m)
      ensures At(m, r, c) < Pow4(m) && e[At(m, r, c)] == RowDotF(fl, a, b, m, r, c, Pow2(m))
    {
      EntriesAgree(fl, a, b, m, r, c);
    }
    if IsRowProduct(fl, a, b, d, m) {
      forall x: nat | x < Pow4(m)
        ensures d[x] == e[x]
      {
        Split(m, x);
        var r, c := RowOf(m, x), ColOf(m, x);
        assert d[At(m, r, c)] == RowDotF(fl, a, b, m, r, c, Pow2(m));
      }
    }
  }

  lemma EntriesAgree(fl: Rounding, a: seq<int>, b: seq<int>, m: nat, r: nat, c: nat)
    requires |a| == |b| == Pow4(m) && r < Pow2(m) && c < Pow2(m)
    ensures At(m, r, c) < Pow4(m)
    ensures FromZ(SeqMulZF(fl, ToZ(a, m), ToZ(b, m), m), m)[At(m, r, c)] == RowDotF(fl, a, b, m, r, c, Pow2(m))
  {
    hide Pow2, Pow4, ToZ, FromZ, At, RowDotF, DotF, Row, Col, Z;
    var p := SeqMulZF(fl, ToZ(a, m), ToZ(b, m), m);
    FromZAt(p, m, r, c);
    RowColOfZ(r, c);
    DotsAgree(fl, a, b, m, r, c, Pow2(m));
  }

  // ---------- the loops ----------

  method ShiftLeft(x: nat, bits: nat) returns (y: nat)
    ensures y == x * Pow2(bits)
  {
    y := x;
    var done := 0;
    while done < bits
      invariant 0 <= done <= bits
      invariant y == x * Pow2(done)
    {
      assert x * (2 * Pow2(done)) == 2 * (x * Pow2(done));
      y := 2 * y;
      done := done + 1;
    }
  }

  /** The two reads of the innermost loop are in range and add the k-th term. */
  lemma RowStep(fl: Rounding, a: seq<int>, b: seq<int>, m: nat, i: nat, j: nat, k: nat)
    requires |a| == |b| == Pow4(m) && i < Pow2(m) && j < Pow2(m) && k < Pow2(m)
    ensures var left, right := BitOr(i * Pow2(m), k), BitOr(k * Pow2(m), j);
            && left < |a| && right < |b|
            && RowDotF(fl, a, b, m, i, j, k + 1) == fl(RowDotF(fl, a, b, m, i, j, k) + fl(a[left] * b[right]))
  {
    hide Pow2, Pow4, BitOr;
    AtBound(m, i, k);
    AtBound(m, k, j);
    BitOrShifted(i, m, k);
    BitOrShifted(k, m, j);
  }

  lemma RowStart(fl: Rounding, a: seq<int>, b: seq<int>, m: nat, i: nat, j: nat, k: nat)
    requires |a| == |b| == Pow4(m) && i < Pow2(m) && j < Pow2(m) && k == 0
    ensures RowDotF(fl, a, b, m, i, j, k) == 0
  {
  }

  /** One entry: the innermost loop, with shifted-and-or'ed indices. */
  method RowEntry(fl: Rounding, a: Slice, b: Slice, i: nat, j: nat, bits: nat, n: nat) returns (sum: int)
    requires a.InRange() && b.InRange() && a.len == b.len == Pow4(bits) && n == Pow2(bits) && i < n && j < n
    ensures sum == RowDotF(fl, a.View(), b.View(), bits, i, j, n)
  {
    hide Pow2, Pow4, BitOr, Slice.View, RowDotF;
    sum := 0;
    var k := 0;
    RowStart(fl, a.View(), b.View(), bits, i, j, k);
    while k < n
      invariant 0 <= k <= n
      invariant sum == RowDotF(fl, a.View(), b.View(), bits, i, j, k)
    {
      RowStep(fl, a.View(), b.View(), bits, i, j, k);
      var row := ShiftLeft(i, bits);
      var below := ShiftLeft(k, bits);
      sum := fl(sum + fl(a.At(BitOr(row, k)) * b.At(BitOr(below, j))));
      k := k + 1;
    }
  }

  method SeqMatMul(fl: Rounding, a: Slice, b: Slice, dest: Slice, ghost m: nat)
    requires a.InRange() && b.InRange() && dest.InRange() && Apart(a, dest) && Apart(b, dest)
    requires a.len == b.len == dest.len == Pow4(m)
    modifies dest.arr
    ensures IsRowProduct(fl, old(a.View()), old(b.View()), dest.View(), m)
    ensures dest.View() == FromZ(SeqMulZF(fl, ToZ(old(a.View()), m), ToZ(old(b.View()), m), m), m)
    ensures OnlyChanged(dest)
  {
    hide Pow2, Pow4, BitOr, RowDotF, TrailingZeros, SeqMulZF, ToZ, FromZ;
    ghost var va, vb := a.View(), b.View();
    Zero(dest);
    a.Kept(dest);
    b.Kept(dest);
    Pow4IsSquare(m);
    Pow2IsOneBit(2 * m);
    var bits := TrailingZeros(dest.len) / 2;
    var n := ShiftLeft(1, bits);
    var i := 0;
    while i < n
      invariant 0 <= i <= n
      invariant OnlyChanged(dest) && a.View() == va && b.View() == vb
      invariant RowsDone(fl, va, vb, dest.View(), m, i)
    {
      MultiplyRow(fl, a, b, dest, i, bits, n);
      a.Kept(dest);
      b.Kept(dest);
      i := i + 1;
    }
    ZOrderRefinesRowMajor(fl, va, vb, dest.View(), m);
  }

  ghost predicate RowsDone(fl: Rounding, a: seq<int>, b: seq<int>, d: seq<int>, m: nat, rows: nat)
    requires |a| == |b| == Pow4(m) && rows <= Pow2(m)
  {
    forall r: nat, c: nat | r < rows && c < Pow2(m) ::
      At(m, r, c) < |d| && d[At(m, r, c)] == RowDotF(fl, a, b, m, r, c, Pow2(m))
  }

  ghost predicate RowDone(fl: Rounding, a: seq<int>, b: seq<int>, d: seq<int>, m: nat, r: nat, cols: nat)
    requires |a| == |b| == Pow4(m) && r < Pow2(m) && cols <= Pow2(m)
  {
    forall c: nat | c < cols ::
      At(m, r, c) < |d| && d[At(m, r, c)] == RowDotF(fl, a, b, m, r, c, Pow2(m))
  }

  /** The middle loop: every entry of row `i`. */
  method MultiplyRow(fl: Rounding, a: Slice, b: Slice, dest: Slice, i: nat, bits: nat, n: nat)
    requires a.InRange() && b.InRange() && dest.InRange() && Apart(a, dest) && Apart(b, dest)
    requires a.len == b.len == dest.len == Pow4(bits) && n == Pow2(bits) && i < n
    requires RowsDone(fl, a.View(), b.View(), dest.View(), bits, i)
    modifies dest.arr
    ensures RowsDone(fl, old(a.View()), old(b.View()), dest.View(), bits, i + 1)
    ensures OnlyChanged(dest)
  {
    hide Pow2, Pow4, BitOr, RowDotF, At;
    ghost var va, vb := a.View(), b.View();
    var j := 0;
    while j < n
      invariant 0 <= j <= n
      invariant OnlyChanged(dest) && a.View() == va && b.View() == vb
      invariant RowsDone(fl, va, vb, dest.View(), bits, i)
      invariant RowDone(fl, va, vb, dest.View(), bits, i, j)
    {
      AtBound(bits, i, j);
      BitOrShifted(i, bits, j);
      AtIs(bits, i, j);
      var sum := RowEntry(fl, a, b, i, j, bits, n);
      var row := ShiftLeft(i, bits);
      ghost var before := dest.View();
      dest.arr[dest.lo + BitOr(row, j)] := sum;
      assert dest.View() == before[At(bits, i, j) := sum];
      EntryWritten(fl, va, vb, before, bits, i, j, sum);
      a.Kept(dest);
      b.Kept(dest);
      j := j + 1;
    }
  }

  lemma AtIs(m: nat, r: nat, c: nat)
    ensures At(m, r, c) == r * Pow2(m) + c
  {
  }

  lemma AtInjective(m: nat, r: nat, c: nat, r': nat, c': nat)
    requires c < Pow2(m) && c' < Pow2(m) && At(m, r, c) == At(m, r', c')
    ensures r == r' && c == c'
  {
    hide *;
    RowColOfAt(m, r, c);
    RowColOfAt(m, r', c');
  }

  lemma EntryWritten(fl: Rounding, a: seq<int>, b: seq<int>, d: seq<int>, m: nat, i: nat, j: nat, sum: int)
    requires |a| == |b| == |d| == Pow4(m) && i < Pow2(m) && j < Pow2(m) && At(m, i, j) < |d|
    requires RowsDone(fl, a, b, d, m, i) && RowDone(fl, a, b, d, m, i, j)
    requires sum == RowDotF(fl, a, b, m, i, j, Pow2(m))
    ensures RowsDone(fl, a, b, d[At(m, i, j) := sum], m, i)
    ensures RowDone(fl, a, b, d[At(m, i, j) := sum], m, i, j + 1)
  {
    hide Pow2, Pow4, At, RowDotF;
    var e := d[At(m, i, j) := sum];
    forall r: nat, c: nat | r < i && c < Pow2(m)
      ensures At(m, r, c) < |e| && e[At(m, r, c)] == RowDotF(fl, a, b, m, r, c, Pow2(m))
    {
      if At(m, r, c) == At(m, i, j) {
        AtInjective(m, r, c, i, j);
      }
    }
    forall c: nat | c < j + 1
      ensures At(m, i, c) < |e| && e[At(m, i, c)] == RowDotF(fl, a, b, m, i, c, Pow2(m))
    {
      if At(m, i, c) == At(m, i, j) {
        AtInjective(m, i, c, i, j);
      }
    }
  }
}
