/** The callers of the parallel multiplies: what they get is the matrix product. */
module Multiply {
  import opened Agreement
  import opened Bits
  import opened MatMul
  import opened Rounded
  import opened ZMatrix

  /** The eight-way multiply leaves the product when the leaf sums are exact. */
  method MatMulZProduct(fl: Rounding, a: Slice, b: Slice, dest: Slice, ghost m: nat,
                        ghost limit: nat, ghost p: nat, ghost q: nat)
    requires a.InRange() && b.InRange() && dest.InRange() && Apart(a, dest) && Apart(b, dest)
    requires a.len == b.len == dest.len == Pow4(m)
    requires ExactUpTo(fl, limit) && Bounded(a.View(), p) && Bounded(b.View(), q) && Pow2(m) * (p * q) <= limit
    modifies dest.arr
    ensures dest.View() == Product(old(a.View()), old(b.View()), m)
    ensures OnlyChanged(dest)
  {
    hide Pow2, Pow4, Product, MatMulZF, ExactUpTo, Bounded;
    MatMulZExact(fl, limit, a.View(), b.View(), m, p, q);
    MatMulZ(fl, a, b, dest, m);
  }

  /** Strassen leaves the product when its intermediates are exact. */
  method StrassenProduct(fl: Rounding, a: Slice, b: Slice, dest: Slice, ghost m: nat,
                         ghost limit: nat, ghost p: nat, ghost q: nat)
    requires a.InRange() && b.InRange() && dest.InRange() && Apart(a, dest) && Apart(b, dest)
    requires a.len == b.len == dest.len == Pow4(m) && p >= 1 && q >= 1
    requires ExactUpTo(fl, limit) && Bounded(a.View(), p) && Bounded(b.View(), q) && StrassenLimit(m, p, q) <= limit
    modifies dest.arr
    ensures dest.View() == Product(old(a.View()), old(b.View()), m)
    ensures OnlyChanged(dest)
  {
    hide Pow2, Pow4, Product, StrassenF, ExactUpTo, Bounded, StrassenLimit;
    StrassenExact(fl, limit, a.View(), b.View(), m, p, q);
    MatMulStrassen(fl, a, b, dest, m);
  }

  /** The comparison part of the repository's test: both assertions hold. */
  method TestMatmul(fl: Rounding) returns (parallelAgrees: bool, strassenAgrees: bool)
    requires ExactUpTo(fl, F32_LIMIT)
    ensures parallelAgrees && strassenAgrees
  {
    hide Pow2, Pow4, SeqMulZF, MatMulZF, StrassenF, ExactUpTo;
    SmallPowers();
    var n := 0x4000;
    var a := new int[n](i => i % 101);
    var b := new int[n](i => i % 101 + 7);
    EqualityTestHolds(fl, a[..], b[..]);
    WholeView(a);
    WholeView(b);
    var seqmul := new int[n](_ => 0);
    SeqMatMulZ(fl, Whole(a), Whole(b), Whole(seqmul), 7);
    WholeView(seqmul);
    var rmul := new int[n](_ => 0);
    MatMulZ(fl, Whole(a), Whole(b), Whole(rmul), 7);
    WholeView(rmul);
    parallelAgrees := rmul[..] == seqmul[..];
    Zero(Whole(rmul));
    MatMulStrassen(fl, Whole(a), Whole(b), Whole(rmul), 7);
    WholeView(rmul);
    strassenAgrees := rmul[..] == seqmul[..];
  }

  /** The demo's multiplication: ones times twos, of side 512. */
  method TestMatmulStrassen(fl: Rounding) returns (z: array<int>)
    requires ExactUpTo(fl, F32_LIMIT)
    ensures z.Length == 512 * 512 && forall i :: 0 <= i < z.Length ==> z[i] == 1024
  {
    hide Pow2, Pow4, StrassenF, ExactUpTo;
    SmallPowers();
    var n := 512 * 512;
    var x := new int[n](_ => 1);
    var y := new int[n](_ => 2);
    z := new int[n](_ => 0);
    DemoResult(fl, x[..], y[..]);
    WholeView(x);
    WholeView(y);
    MatMulStrassen(fl, Whole(x), Whole(y), Whole(z), 9);
    WholeView(z);
  }
}
