/** The matrix routines on slices of arrays, written as the program runs them. */
module MatMul {
  import opened Arithmetic
  import opened Bits
  import opened Options
  import opened Rounded
  import opened SplayedCounter
  import opened ZMatrix

  const MULT_CHUNK: nat := 1024
  const LINEAR_CHUNK: nat := 64 * 1024

  /** A contiguous part of an array. */
  datatype Slice = Slice(arr: array<int>, lo: nat, len: nat) {
    predicate InRange() { lo + len <= arr.Length }

    function View(): (v: seq<int>)
      requires InRange()
      reads arr
      ensures |v| == len
    {
      arr[lo..lo + len]
    }

    /** An unchecked read: in range is the caller's promise. */
    function At(x: nat): (e: int)
      requires InRange() && x < len
      reads arr
      ensures e == View()[x]
    {
      arr[lo + x]
    }

    function Sub(offset: nat, n: nat): (s: Slice)
      requires offset + n <= len
    {
      Slice(arr, lo + offset, n)
    }

    /** Writing to a slice apart from this one leaves this one alone. */
    twostate lemma Kept(d: Slice)
      requires InRange() && d.InRange() && Apart(this, d) && OnlyChanged(d)
      requires arr != d.arr ==> unchanged(arr)
      ensures View() == old(View())
    {
    }

    /** Writing one quarter leaves the other three, and everything outside, alone. */
    twostate lemma QuarterWritten(new n: nat, new k: nat, part: Slice)
      requires InRange() && len == Pow4(n + 1) && k < 4
      requires part == QuarterSlice(this, k) && OnlyChanged(part)
      ensures part.InRange() && Quarter(View(), n, k) == part.View()
      ensures forall j: nat | j < 4 && j != k :: Quarter(View(), n, j) == old(Quarter(View(), n, j))
      ensures OnlyChanged(this)
    {
      QuarterIs(this, n, k);
      QuarterLayout(this, n, k);
      hide Pow4, QuarterSlice, Quarter;
      ghost var before, after := old(arr[..]), arr[..];
      forall j: nat | j < 4 && j != k
        ensures Quarter(View(), n, j) == old(Quarter(View(), n, j))
      {
        OtherQuarterKept(before, after, this, n, k, j);
        assert View() == after[lo..lo + len];
        assert old(View()) == before[lo..lo + len];
      }
    }
  }

  function Whole(arr: array<int>): Slice { Slice(arr, 0, arr.Length) }

  /** No cell in common: what a mutable borrow guarantees. */
  predicate Apart(s: Slice, t: Slice) {
    s.arr != t.arr || s.lo + s.len <= t.lo || t.lo + t.len <= s.lo
  }

  /** Nothing in the underlying array changed except possibly the slice itself. */
  twostate predicate OnlyChanged(d: Slice)
    reads d.arr
  {
    forall x :: 0 <= x < d.arr.Length && !(d.lo <= x < d.lo + d.len) ==> d.arr[x] == old(d.arr[x])
  }

  // ---------- quarters of a slice ----------

  function QuarterChunksMut(v: Slice): (q: (Slice, Slice, Slice, Slice))
  {
    var mid := v.len / 2;
    var quarter := mid / 2;
    var left, right := v.Sub(0, mid), v.Sub(mid, v.len - mid);
    (left.Sub(0, quarter), left.Sub(quarter, left.len - quarter),
     right.Sub(0, quarter), right.Sub(quarter, right.len - quarter))
  }

  function QuarterSlice(v: Slice, k: nat): Slice {
    var (a, b, c, d) := QuarterChunksMut(v);
    if k == 0 then a else if k == 1 then b else if k == 2 then c else d
  }

  lemma SliceOfSlice(s: seq<int>, lo: nat, len: nat, offset: nat, n: nat)
    requires lo + len <= |s| && offset + n <= len
    ensures s[lo..lo + len][offset..offset + n] == s[lo + offset..lo + offset + n]
  {
    var t, u := s[lo..lo + len][offset..offset + n], s[lo + offset..lo + offset + n];
    forall x | 0 <= x < n
      ensures t[x] == u[x]
    {
      assert s[lo..lo + len][offset + x] == s[lo + (offset + x)];
    }
  }

  lemma FourOf(v: Slice, p: nat, k: nat)
    requires v.len == 4 * p && k < 4
    ensures var offset := if k == 0 then 0 else if k == 1 then p else if k == 2 then 2 * p else 3 * p;
            k * p == offset && offset + p <= v.len && QuarterSlice(v, k) == v.Sub(offset, p)
  {
    assert v.len / 2 == 2 * p && (2 * p) / 2 == p;
  }

  lemma QuarterLayout(v: Slice, n: nat, k: nat)
    requires v.len == Pow4(n + 1) && k < 4
    ensures (k + 1) * Pow4(n) == k * Pow4(n) + Pow4(n) <= v.len
    ensures QuarterSlice(v, k) == v.Sub(k * Pow4(n), Pow4(n))
  {
    hide Pow4, QuarterSlice;
    PowStep(n + 1);
    FourOf(v, Pow4(n), k);
  }

  lemma QuarterIs(v: Slice, n: nat, k: nat)
    requires v.InRange() && v.len == Pow4(n + 1) && k < 4
    ensures QuarterSlice(v, k).InRange() && QuarterSlice(v, k).View() == Quarter(v.View(), n, k)
    ensures QuarterSlice(v, k).arr == v.arr && QuarterSlice(v, k).len == Pow4(n)
  {
    QuarterLayout(v, n, k);
    hide Pow4, QuarterSlice;
    SliceOfSlice(v.arr[..], v.lo, v.len, k * Pow4(n), Pow4(n));
  }

  predicate Holds(s: Slice, x: int) { s.lo <= x < s.lo + s.len }

  /** The mutable quarters are pairwise disjoint and cover the slice: no element is
      lost and none is shared, whatever the length. */
  lemma QuartersPartition(v: Slice)
    ensures forall j, k | 0 <= j < k < 4 :: Apart(QuarterSlice(v, j), QuarterSlice(v, k))
    ensures forall x :: Holds(v, x) <==> exists k :: 0 <= k < 4 && Holds(QuarterSlice(v, k), x)
  {
    forall x | Holds(v, x)
      ensures exists k :: 0 <= k < 4 && Holds(QuarterSlice(v, k), x)
    {
      var mid := v.len / 2;
      var k := if x < v.lo + mid / 2 then 0 else if x < v.lo + mid then 1 else if x < v.lo + mid + mid / 2 then 2 else 3;
      assert Holds(QuarterSlice(v, k), x);
    }
  }

  lemma DistinctQuarters(n: nat, j: nat, k: nat)
    requires j < 4 && k < 4 && j != k
    ensures j * Pow4(n) + Pow4(n) <= k * Pow4(n) || k * Pow4(n) + Pow4(n) <= j * Pow4(n)
  {
    hide *;
    if j < k {
      MulMonotone(j + 1, k, Pow4(n));
    } else {
      MulMonotone(k + 1, j, Pow4(n));
    }
  }

  /** Two states of an array that differ only inside quarter `k` of the window
      agree on quarter `j`. */
  lemma OtherQuarterKept(before: seq<int>, after: seq<int>, v: Slice, n: nat, k: nat, j: nat)
    requires v.lo + v.len <= |before| == |after| && v.len == Pow4(n + 1) && k < 4 && j < 4 && j != k
    requires forall x :: 0 <= x < |before| && !Holds(QuarterSlice(v, k), x) ==> after[x] == before[x]
    ensures Quarter(after[v.lo..v.lo + v.len], n, j) == Quarter(before[v.lo..v.lo + v.len], n, j)
  {
    hide Pow4, QuarterSlice;
    QuarterLayout(v, n, k);
    QuarterLayout(v, n, j);
    DistinctQuarters(n, j, k);
    RangeKept(before, after, v, j * Pow4(n), k * Pow4(n), Pow4(n));
  }

  lemma RangeKept(before: seq<int>, after: seq<int>, v: Slice, x: nat, y: nat, n: nat)
    requires v.lo + v.len <= |before| == |after| && x + n <= v.len && y + n <= v.len && (x + n <= y || y + n <= x)
    requires forall i :: 0 <= i < |before| && !Holds(v.Sub(y, n), i) ==> after[i] == before[i]
    ensures after[v.lo..v.lo + v.len][x..x + n] == before[v.lo..v.lo + v.len][x..x + n]
  {
    forall i | v.lo + x <= i < v.lo + x + n
      ensures after[i] == before[i]
    {
      assert !Holds(v.Sub(y, n), i);
    }
    assert after[v.lo + x..v.lo + x + n] == before[v.lo + x..v.lo + x + n];
    SliceOfSlice(before, v.lo, v.len, x, n);
    SliceOfSlice(after, v.lo, v.len, x, n);
  }

  // ---------- elementwise loops ----------

  lemma StepView(d: Slice, s: Slice, x: nat)
    requires d.InRange() && s.InRange() && x < d.len && x < s.len
    ensures d.View()[x] == d.arr[d.lo + x] && s.View()[x] == s.arr[s.lo + x]
  {
  }

  lemma ZipAddNothing(fl: Rounding, d: seq<int>, s: seq<int>)
    ensures ZipAdd(fl, d, s[..0]) == d
  {
  }

  lemma ZipAddStep(fl: Rounding, d: seq<int>, s: seq<int>, x: nat)
    requires x < |d| && x < |s|
    ensures ZipAdd(fl, d, s[..x])[x] == d[x]
    ensures ZipAdd(fl, d, s[..x])[x := fl(d[x] + s[x])] == ZipAdd(fl, d, s[..x + 1])
  {
  }

  lemma ZipAddAll(fl: Rounding, d: seq<int>, s: seq<int>, x: nat)
    requires x <= |s| && (x == |s| || x == |d|)
    ensures ZipAdd(fl, d, s[..x]) == ZipAdd(fl, d, s)
  {
    if x == |s| {
      assert s[..x] == s;
    }
  }

  method RMatSum(fl: Rounding, src: Slice, dest: Slice)
    requires src.InRange() && dest.InRange() && Apart(src, dest)
    modifies dest.arr
    ensures dest.View() == ZipAdd(fl, old(dest.View()), old(src.View()))
    ensures OnlyChanged(dest) && src.View() == old(src.View())
  {
    hide ZipAdd;
    ghost var d, s := dest.View(), src.View();
    ZipAddNothing(fl, d, s);
    var x := 0;
    while x < dest.len && x < src.len
      invariant 0 <= x <= dest.len && x <= src.len
      invariant OnlyChanged(dest) && src.View() == s
      invariant dest.View() == ZipAdd(fl, d, s[..x])
    {
      ghost var now := dest.View();
      StepView(dest, src, x);
      ZipAddStep(fl, d, s, x);
      dest.arr[dest.lo + x] := fl(dest.arr[dest.lo + x] + src.arr[src.lo + x]);
      src.Kept(dest);
      assert dest.View() == now[x := fl(d[x] + s[x])];
      x := x + 1;
    }
    ZipAddAll(fl, d, s, x);
  }

  lemma ZipSubNothing(fl: Rounding, d: seq<int>, s: seq<int>)
    ensures ZipSub(fl, d, s[..0]) == d
  {
  }

  lemma ZipSubStep(fl: Rounding, d: seq<int>, s: seq<int>, x: nat)
    requires x < |d| && x < |s|
    ensures ZipSub(fl, d, s[..x])[x] == d[x]
    ensures ZipSub(fl, d, s[..x])[x := fl(d[x] - s[x])] == ZipSub(fl, d, s[..x + 1])
  {
  }

  lemma ZipSubAll(fl: Rounding, d: seq<int>, s: seq<int>, x: nat)
    requires x <= |s| && (x == |s| || x == |d|)
    ensures ZipSub(fl, d, s[..x]) == ZipSub(fl, d, s)
  {
    if x == |s| {
      assert s[..x] == s;
    }
  }

  method RMatSub(fl: Rounding, src: Slice, dest: Slice)
    requires src.InRange() && dest.InRange() && Apart(src, dest)
    modifies dest.arr
    ensures dest.View() == ZipSub(fl, old(dest.View()), old(src.View()))
    ensures OnlyChanged(dest) && src.View() == old(src.View())
  {
    hide ZipSub;
    ghost var d, s := dest.View(), src.View();
    ZipSubNothing(fl, d, s);
    var x := 0;
    while x < dest.len && x < src.len
      invariant 0 <= x <= dest.len && x <= src.len
      invariant OnlyChanged(dest) && src.View() == s
      invariant dest.View() == ZipSub(fl, d, s[..x])
    {
      ghost var now := dest.View();
      StepView(dest, src, x);
      ZipSubStep(fl, d, s, x);
      dest.arr[dest.lo + x] := fl(dest.arr[dest.lo + x] - src.arr[src.lo + x]);
      src.Kept(dest);
      assert dest.View() == now[x := fl(d[x] - s[x])];
      x := x + 1;
    }
    ZipSubAll(fl, d, s, x);
  }

  method CopyFromSlice(src: Slice, dest: Slice)
    requires src.InRange() && dest.InRange() && Apart(src, dest) && src.len == dest.len
    modifies dest.arr
    ensures dest.View() == old(src.View())
    ensures OnlyChanged(dest) && src.View() == old(src.View())
  {
    ghost var s := src.View();
    var x := 0;
    while x < dest.len
      invariant 0 <= x <= dest.len
      invariant OnlyChanged(dest) && src.View() == s
      invariant dest.View()[..x] == s[..x]
    {
      StepView(dest, src, x);
      dest.arr[dest.lo + x] := src.arr[src.lo + x];
      src.Kept(dest);
      x := x + 1;
    }
  }

  /** Copy, halving long slices. */
  method RCopy(src: Slice, dest: Slice)
    requires src.InRange() && dest.InRange() && Apart(src, dest) && src.len == dest.len
    modifies dest.arr
    ensures dest.View() == old(src.View())
    ensures OnlyChanged(dest) && src.View() == old(src.View())
    decreases dest.len
  {
    if dest.len <= LINEAR_CHUNK {
      CopyFromSlice(src, dest);
      return;
    }
    var mid := dest.len / 2;
    var s1, s2 := src.Sub(0, mid), src.Sub(mid, src.len - mid);
    var d1, d2 := dest.Sub(0, mid), dest.Sub(mid, dest.len - mid);
    TwoHalves(src, mid);
    RCopy(s1, d1);
    s2.Kept(d1);
    label Half:
    RCopy(s2, d2);
    d1.Kept@Half(d2);
    TwoHalves(dest, mid);
    src.Kept(dest);
  }

  lemma TwoHalves(v: Slice, mid: nat)
    requires v.InRange() && mid <= v.len
    ensures v.View() == v.Sub(0, mid).View() + v.Sub(mid, v.len - mid).View()
  {
    SliceOfSlice(v.arr[..], v.lo, v.len, 0, mid);
    SliceOfSlice(v.arr[..], v.lo, v.len, mid, v.len - mid);
  }

  method RTmpSum(fl: Rounding, a: Slice, b: Slice) returns (tmp: array<int>)
    requires a.InRange() && b.InRange()
    ensures fresh(tmp) && tmp.Length == a.len
    ensures tmp[..] == ZipAdd(fl, a.View(), b.View())
  {
    tmp := new int[a.len];
    var t := Whole(tmp);
    RCopy(a, t);
    RMatSum(fl, b, t);
    assert tmp[..] == t.View();
  }

  method RTmpSub(fl: Rounding, a: Slice, b: Slice) returns (tmp: array<int>)
    requires a.InRange() && b.InRange()
    ensures fresh(tmp) && tmp.Length == a.len
    ensures tmp[..] == ZipSub(fl, a.View(), b.View())
  {
    tmp := new int[a.len];
    var t := Whole(tmp);
    RCopy(a, t);
    RMatSub(fl, b, t);
    assert tmp[..] == t.View();
  }

  method StrassenSumSub(fl: Rounding, a: Slice, b: Slice, c: Slice, s: Slice, dest: Slice)
    requires a.InRange() && b.InRange() && c.InRange() && s.InRange() && dest.InRange() && a.len == dest.len
    requires Apart(a, dest) && Apart(b, dest) && Apart(c, dest) && Apart(s, dest)
    modifies dest.arr
    ensures dest.View() == SumSubF(fl, old(a.View()), old(b.View()), old(c.View()), old(s.View()))
    ensures OnlyChanged(dest)
  {
    RCopy(a, dest);
    b.Kept(dest);
    c.Kept(dest);
    s.Kept(dest);
    RMatSum(fl, b, dest);
    c.Kept(dest);
    s.Kept(dest);
    RMatSum(fl, c, dest);
    s.Kept(dest);
    RMatSub(fl, s, dest);
  }

  method StrassenSum(fl: Rounding, a: Slice, b: Slice, dest: Slice)
    requires a.InRange() && b.InRange() && dest.InRange() && a.len == dest.len
    requires Apart(a, dest) && Apart(b, dest)
    modifies dest.arr
    ensures dest.View() == ZipAdd(fl, old(a.View()), old(b.View()))
    ensures OnlyChanged(dest)
  {
    RCopy(a, dest);
    b.Kept(dest);
    RMatSum(fl, b, dest);
  }

  // ---------- the Z-order multiply ----------

  /** The asserted guard on a length. */
  predicate PowerOfFourGuard(len: nat) {
    len > 0 && CountOnes(len) == 1 && TrailingZeros(len) % 2 == 0
  }

  method SeqMatMulZ(fl: Rounding, a: Slice, b: Slice, dest: Slice, ghost m: nat)
    requires a.InRange() && b.InRange() && dest.InRange() && Apart(a, dest) && Apart(b, dest)
    requires a.len == b.len == dest.len == Pow4(m)
    requires m < MASK_DIGITS
    modifies dest.arr
    ensures dest.View() == SeqMulZF(fl, old(a.View()), old(b.View()), m)
    ensures OnlyChanged(dest)
  {
    hide Pow2, Pow4, SeqMulZF, DotF, Row, Col, CountOnes, TrailingZeros;
    assert PowerOfFourGuard(a.len) by {
      LengthGuard(a.len);
    }
    Zero(dest);
    a.Kept(dest);
    b.Kept(dest);
    ghost var va, vb := a.View(), b.View();
    var n := dest.len;
    var ij := 0;
    while ij < n
      invariant 0 <= ij <= n
      invariant OnlyChanged(dest) && a.View() == va && b.View() == vb
      invariant forall z: nat | z < ij :: dest.View()[z] == DotF(fl, va, vb, Row(z), Col(z), Pow2(m))
    {
      var sum := LeafEntry(fl, a, b, ij, m);
      ghost var before := dest.View();
      dest.arr[dest.lo + ij] := sum;
      assert dest.View() == before[ij := sum];
      a.Kept(dest);
      b.Kept(dest);
      ij := ij + 1;
    }
    SeqMulZFIs(fl, va, vb, m, dest.View());
  }

  method Zero(dest: Slice)
    requires dest.InRange()
    modifies dest.arr
    ensures OnlyChanged(dest)
    ensures forall z :: 0 <= z < dest.len ==> dest.View()[z] == 0
  {
    var x := 0;
    while x < dest.len
      invariant 0 <= x <= dest.len
      invariant OnlyChanged(dest)
      invariant forall z :: 0 <= z < x ==> dest.View()[z] == 0
    {
      ghost var before := dest.View();
      dest.arr[dest.lo + x] := 0;
      assert dest.View() == before[x := 0];
      x := x + 1;
    }
  }

  lemma SeqMulZFIs(fl: Rounding, a: seq<int>, b: seq<int>, m: nat, d: seq<int>)
    requires |d| == Pow4(m)
    requires forall z: nat | z < |d| :: d[z] == DotF(fl, a, b, Row(z), Col(z), Pow2(m))
    ensures d == SeqMulZF(fl, a, b, m)
  {
    hide Pow2, Pow4, DotF, Row, Col;
  }

  /** The two unchecked reads for counter value `k` fetch A[row,k] and B[k,column]. */
  lemma {:induction false} LeafTerm(a: seq<int>, b: seq<int>, ij: nat, k: nat, m: nat)
    requires |a| == |b| == Pow4(m) && m <= MASK_DIGITS && ij < Pow4(m) && k < Pow2(m)
    ensures var left, right := BitOr(BitAnd(ij, ODD_MASK), Spread(k)), BitOr(2 * Spread(k), BitAnd(ij, EVEN_MASK));
            && left < |a| && a[left] == Elem(a, Row(ij), k)
            && right < |b| && b[right] == Elem(b, k, Col(ij))
  {
    hide Pow2, Pow4, Spread, Row, Col, BitOr, BitAnd, Z;
    UncheckedReads(ij, k, m);
  }

  /** The loop body adds the k-th term of the sum of products. */
  lemma LeafStep(fl: Rounding, a: seq<int>, b: seq<int>, ij: nat, k: nat, m: nat)
    requires |a| == |b| == Pow4(m) && m <= MASK_DIGITS && ij < Pow4(m) && k < Pow2(m)
    ensures var left, right := BitOr(BitAnd(ij, ODD_MASK), Spread(k)), BitOr(2 * Spread(k), BitAnd(ij, EVEN_MASK));
            && left < |a| && right < |b|
            && DotF(fl, a, b, Row(ij), Col(ij), k + 1) == fl(DotF(fl, a, b, Row(ij), Col(ij), k) + fl(a[left] * b[right]))
  {
    hide Pow2, Pow4, Spread, Row, Col, BitOr, BitAnd, Z, Elem;
    LeafTerm(a, b, ij, k, m);
  }

  lemma DotFStart(fl: Rounding, a: seq<int>, b: seq<int>, r: nat, c: nat, n: nat)
    requires n == 0
    ensures DotF(fl, a, b, r, c, n) == 0
  {
  }

  /** One output entry: the loop over the splayed counter, with the masked index parts. */
  method LeafEntry(fl: Rounding, a: Slice, b: Slice, ij: nat, ghost m: nat) returns (sum: int)
    requires a.InRange() && b.InRange() && a.len == b.len == Pow4(m) && m < MASK_DIGITS && ij < Pow4(m)
    ensures sum == DotF(fl, a.View(), b.View(), Row(ij), Col(ij), Pow2(m))
  {
    hide Pow2, Pow4, Gather, Spread, Row, Col, BitOr, BitAnd, Elem, DotF, Slice.View;
    ghost var va, vb := a.View(), b.View();
    CounterBound(m);
    var i := BitAnd(ij, ODD_MASK);
    var j := BitAnd(ij, EVEN_MASK);
    sum := 0;
    var counter := new SplayedBitsCounter(a.len);
    DotFStart(fl, va, vb, Row(ij), Col(ij), counter.yielded);
    while true
      invariant fresh(counter) && counter.Valid() && counter.max == a.len
      invariant counter.yielded <= Pow2(m)
      invariant sum == DotF(fl, va, vb, Row(ij), Col(ij), counter.yielded)
      decreases Pow2(m) - counter.yielded
    {
      ghost var k := counter.yielded;
      SpreadBound(k, m);
      assert k % PERIOD == k;
      var next := counter.Next();
      if next == None {
        break;
      }
      LeafStep(fl, va, vb, ij, k, m);
      sum := fl(sum + fl(a.At(BitOr(i, next.value)) * b.At(BitOr(2 * next.value, j))));
    }
  }

  // ---------- the eight-way recursion ----------

  method MatMulZ(fl: Rounding, a: Slice, b: Slice, dest: Slice, ghost m: nat)
    requires a.InRange() && b.InRange() && dest.InRange() && Apart(a, dest) && Apart(b, dest)
    requires a.len == b.len == dest.len == Pow4(m)
    modifies dest.arr
    ensures dest.View() == MatMulZF(fl, old(a.View()), old(b.View()), m)
    ensures OnlyChanged(dest)
    decreases m, 0
  {
    hide Pow2, Pow4, MatMulZF, SeqMulZF, Quarter, ZipAdd, Slice.View;
    ChunkDepth(m);
    MatMulZUnfold(fl, a.View(), b.View(), m);
    if a.len <= MULT_CHUNK {
      SeqMatMulZ(fl, a, b, dest, m);
      return;
    }
    var scratch := new int[dest.len];
    var tmp := Whole(scratch);
    EightProducts(fl, a, b, dest, tmp, m - 1);
    RMatSum(fl, tmp, dest);
  }

  lemma MatMulZUnfold(fl: Rounding, a: seq<int>, b: seq<int>, m: nat)
    requires |a| == |b| == Pow4(m)
    ensures m <= LEAF_DEPTH ==> MatMulZF(fl, a, b, m) == SeqMulZF(fl, a, b, m)
    ensures m > LEAF_DEPTH ==>
              var n := m - 1;
              MatMulZF(fl, a, b, m) == ZipAdd(fl,
                Multiplied(fl, a, 0, b, 0, n) + Multiplied(fl, a, 0, b, 1, n)
                + Multiplied(fl, a, 2, b, 0, n) + Multiplied(fl, a, 2, b, 1, n),
                Multiplied(fl, a, 1, b, 2, n) + Multiplied(fl, a, 1, b, 3, n)
                + Multiplied(fl, a, 3, b, 2, n) + Multiplied(fl, a, 3, b, 3, n))
  {
    hide Pow2, Pow4, SeqMulZF, Quarter, ZipAdd;
  }

  ghost function Multiplied(fl: Rounding, a: seq<int>, i: nat, b: seq<int>, j: nat, n: nat): (p: seq<int>)
    requires |a| == |b| == Pow4(n + 1) && i < 4 && j < 4
    ensures |p| == Pow4(n)
  {
    MatMulZF(fl, Quarter(a, n, i), Quarter(b, n, j), n)
  }

  /** The eight forked tasks: four write the quarters of `dest`, four those of `tmp`. */
  method EightProducts(fl: Rounding, a: Slice, b: Slice, dest: Slice, tmp: Slice, ghost n: nat)
    requires a.InRange() && b.InRange() && dest.InRange() && tmp.InRange()
    requires Apart(a, dest) && Apart(b, dest) && Apart(a, tmp) && Apart(b, tmp) && dest.arr != tmp.arr
    requires a.len == b.len == dest.len == tmp.len == Pow4(n + 1)
    modifies dest.arr, tmp.arr
    ensures dest.View() == Multiplied(fl, old(a.View()), 0, old(b.View()), 0, n) + Multiplied(fl, old(a.View()), 0, old(b.View()), 1, n)
                           + Multiplied(fl, old(a.View()), 2, old(b.View()), 0, n) + Multiplied(fl, old(a.View()), 2, old(b.View()), 1, n)
    ensures tmp.View() == Multiplied(fl, old(a.View()), 1, old(b.View()), 2, n) + Multiplied(fl, old(a.View()), 1, old(b.View()), 3, n)
                          + Multiplied(fl, old(a.View()), 3, old(b.View()), 2, n) + Multiplied(fl, old(a.View()), 3, old(b.View()), 3, n)
    ensures OnlyChanged(dest) && OnlyChanged(tmp)
    decreases n, 2
  {
    hide Pow2, Pow4, Multiplied, Quarter, Slice.View;
    QuarterProduct(fl, a, 0, b, 0, dest, 0, n);
    QuarterProduct(fl, a, 0, b, 1, dest, 1, n);
    QuarterProduct(fl, a, 2, b, 0, dest, 2, n);
    QuarterProduct(fl, a, 2, b, 1, dest, 3, n);
    QuarterProduct(fl, a, 1, b, 2, tmp, 0, n);
    QuarterProduct(fl, a, 1, b, 3, tmp, 1, n);
    QuarterProduct(fl, a, 3, b, 2, tmp, 2, n);
    QuarterProduct(fl, a, 3, b, 3, tmp, 3, n);
    QuarterChunksSplit(dest.View(), n);
    QuarterChunksSplit(tmp.View(), n);
  }

  lemma ChunkDepth(m: nat)
    ensures Pow4(m) <= MULT_CHUNK <==> m <= LEAF_DEPTH
  {
    assert Pow4(LEAF_DEPTH) == MULT_CHUNK;
    if m <= LEAF_DEPTH {
      PowMonotone(m, LEAF_DEPTH);
    } else {
      PowMonotone(LEAF_DEPTH, m);
    }
  }

  /** One of the eight forked tasks: quarter `i` of `a` times quarter `j` of `b`,
      written into quarter `k` of `dest`. */
  method QuarterProduct(fl: Rounding, a: Slice, i: nat, b: Slice, j: nat, dest: Slice, k: nat, ghost n: nat)
    requires i < 4 && j < 4 && k < 4
    requires a.InRange() && b.InRange() && dest.InRange() && Apart(a, dest) && Apart(b, dest)
    requires a.len == b.len == dest.len == Pow4(n + 1)
    modifies dest.arr
    ensures Quarter(dest.View(), n, k) == Multiplied(fl, old(a.View()), i, old(b.View()), j, n)
    ensures forall l: nat | l < 4 && l != k :: Quarter(dest.View(), n, l) == old(Quarter(dest.View(), n, l))
    ensures OnlyChanged(dest) && a.View() == old(a.View()) && b.View() == old(b.View())
    decreases n, 1
  {
    hide Pow2, Pow4, MatMulZF, Quarter, QuarterSlice;
    QuarterIs(a, n, i);
    QuarterIs(b, n, j);
    QuarterIs(dest, n, k);
    QuarterApart(a, i, dest, k, n);
    QuarterApart(b, j, dest, k, n);
    MatMulZ(fl, QuarterSlice(a, i), QuarterSlice(b, j), QuarterSlice(dest, k), n);
    dest.QuarterWritten(n, k, QuarterSlice(dest, k));
    a.Kept(dest);
    b.Kept(dest);
  }

  lemma QuarterApart(a: Slice, i: nat, dest: Slice, k: nat, n: nat)
    requires i < 4 && k < 4 && a.InRange() && dest.InRange() && Apart(a, dest) && a.len == dest.len == Pow4(n + 1)
    ensures Apart(QuarterSlice(a, i), QuarterSlice(dest, k))
  {
    hide Pow4, QuarterSlice;
    QuarterLayout(a, n, i);
    QuarterLayout(dest, n, k);
  }

  // ---------- Strassen ----------

  method MatMulStrassen(fl: Rounding, a: Slice, b: Slice, dest: Slice, ghost m: nat)
    requires a.InRange() && b.InRange() && dest.InRange() && Apart(a, dest) && Apart(b, dest)
    requires a.len == b.len == dest.len == Pow4(m)
    modifies dest.arr
    ensures dest.View() == StrassenF(fl, old(a.View()), old(b.View()), m)
    ensures OnlyChanged(dest)
    decreases m, 0
  {
    hide Pow2, Pow4, StrassenF, SeqMulZF, Quarter, ZipAdd, ZipSub, SumSubF;
    ChunkDepth(m);
    StrassenUnfold(fl, a.View(), b.View(), m);
    if a.len <= MULT_CHUNK {
      SeqMatMulZ(fl, a, b, dest, m);
      return;
    }
    var m1, m2, m3, m4, m5, m6, m7 := SevenProducts(fl, a, b, m - 1);
    Combine(fl, m1, m2, m3, m4, m5, m6, m7, dest, m - 1);
  }

  lemma StrassenUnfold(fl: Rounding, a: seq<int>, b: seq<int>, m: nat)
    requires |a| == |b| == Pow4(m)
    ensures m <= LEAF_DEPTH ==> StrassenF(fl, a, b, m) == SeqMulZF(fl, a, b, m)
    ensures m > LEAF_DEPTH ==>
              var n := m - 1;
              var (a11, a12, a21, a22) := Quarters(a, n);
              var (b11, b12, b21, b22) := Quarters(b, n);
              var m1 := StrassenF(fl, ZipAdd(fl, a11, a22), ZipAdd(fl, b11, b22), n);
              var m2 := StrassenF(fl, ZipAdd(fl, a21, a22), b11, n);
              var m3 := StrassenF(fl, a11, ZipSub(fl, b12, b22), n);
              var m4 := StrassenF(fl, a22, ZipSub(fl, b21, b11), n);
              var m5 := StrassenF(fl, ZipAdd(fl, a11, a12), b22, n);
              var m6 := StrassenF(fl, ZipSub(fl, a21, a11), ZipAdd(fl, b11, b12), n);
              var m7 := StrassenF(fl, ZipSub(fl, a12, a22), ZipAdd(fl, b21, b22), n);
              StrassenF(fl, a, b, m) ==
                SumSubF(fl, m1, m4, m7, m5) + ZipAdd(fl, m3, m5) + ZipAdd(fl, m2, m4) + SumSubF(fl, m1, m3, m6, m2)
  {
    hide Pow2, Pow4, SeqMulZF, Quarter, ZipAdd, ZipSub, SumSubF;
  }

  /** The seven forked submatrix multiplies. */
  method SevenProducts(fl: Rounding, a: Slice, b: Slice, ghost n: nat)
    returns (m1: array<int>, m2: array<int>, m3: array<int>, m4: array<int>, m5: array<int>, m6: array<int>, m7: array<int>)
    requires a.InRange() && b.InRange() && a.len == b.len == Pow4(n + 1)
    ensures fresh({m1, m2, m3, m4, m5, m6, m7})
    ensures m1.Length == m2.Length == m3.Length == m4.Length == m5.Length == m6.Length == m7.Length == Pow4(n)
    ensures var (a11, a12, a21, a22) := Quarters(a.View(), n);
            var (b11, b12, b21, b22) := Quarters(b.View(), n);
            && m1[..] == StrassenF(fl, ZipAdd(fl, a11, a22), ZipAdd(fl, b11, b22), n)
            && m2[..] == StrassenF(fl, ZipAdd(fl, a21, a22), b11, n)
            && m3[..] == StrassenF(fl, a11, ZipSub(fl, b12, b22), n)
            && m4[..] == StrassenF(fl, a22, ZipSub(fl, b21, b11), n)
            && m5[..] == StrassenF(fl, ZipAdd(fl, a11, a12), b22, n)
            && m6[..] == StrassenF(fl, ZipSub(fl, a21, a11), ZipAdd(fl, b11, b12), n)
            && m7[..] == StrassenF(fl, ZipSub(fl, a12, a22), ZipAdd(fl, b21, b22), n)
    decreases n, 2
  {
    hide Pow2, Pow4, StrassenF, Quarter, ZipAdd, ZipSub, QuarterSlice;
    var a11, a12, a21, a22 := QuarterSlice(a, 0), QuarterSlice(a, 1), QuarterSlice(a, 2), QuarterSlice(a, 3);
    var b11, b12, b21, b22 := QuarterSlice(b, 0), QuarterSlice(b, 1), QuarterSlice(b, 2), QuarterSlice(b, 3);
    QuarterIs(a, n, 0);
    QuarterIs(a, n, 1);
    QuarterIs(a, n, 2);
    QuarterIs(a, n, 3);
    QuarterIs(b, n, 0);
    QuarterIs(b, n, 1);
    QuarterIs(b, n, 2);
    QuarterIs(b, n, 3);
    m1 := StrassenAdd2Mul(fl, a11, a22, b11, b22, n);
    m2 := StrassenAddMul(fl, a21, a22, b11, n);
    m3 := StrassenSubMul(fl, b12, b22, a11, n);
    m4 := StrassenSubMul(fl, b21, b11, a22, n);
    m5 := StrassenAddMul(fl, a11, a12, b22, n);
    m6 := StrassenSubAddMul(fl, a21, a11, b11, b12, n);
    m7 := StrassenSubAddMul(fl, a12, a22, b21, b22, n);
  }

  lemma WholeView(arr: array<int>)
    ensures Whole(arr).InRange() && Whole(arr).View() == arr[..]
  {
  }

  /** Sum the seven results into the four quarters of `dest`. */
  method Combine(fl: Rounding, m1: array<int>, m2: array<int>, m3: array<int>, m4: array<int>, m5: array<int>,
      m6: array<int>, m7: array<int>, dest: Slice, ghost n: nat)
    requires dest.InRange() && dest.len == Pow4(n + 1)
    requires m1.Length == m2.Length == m3.Length == m4.Length == m5.Length == m6.Length == m7.Length == Pow4(n)
    requires dest.arr !in {m1, m2, m3, m4, m5, m6, m7}
    modifies dest.arr
    ensures dest.View() == SumSubF(fl, m1[..], m4[..], m7[..], m5[..]) + ZipAdd(fl, m3[..], m5[..])
                           + ZipAdd(fl, m2[..], m4[..]) + SumSubF(fl, m1[..], m3[..], m6[..], m2[..])
    ensures OnlyChanged(dest)
  {
    hide Pow4, Quarter, ZipAdd, SumSubF, QuarterSlice;
    SumSubQuarter(fl, m1, m4, m7, m5, dest, 0, n);
    SumQuarter(fl, m3, m5, dest, 1, n);
    SumQuarter(fl, m2, m4, dest, 2, n);
    SumSubQuarter(fl, m1, m3, m6, m2, dest, 3, n);
    QuarterChunksSplit(dest.View(), n);
  }

  method SumSubQuarter(fl: Rounding, a: array<int>, b: array<int>, c: array<int>, s: array<int>, dest: Slice, k: nat, ghost n: nat)
    requires dest.InRange() && dest.len == Pow4(n + 1) && k < 4
    requires a.Length == Pow4(n) && dest.arr !in {a, b, c, s}
    modifies dest.arr
    ensures Quarter(dest.View(), n, k) == SumSubF(fl, a[..], b[..], c[..], s[..])
    ensures forall j: nat | j < 4 && j != k :: Quarter(dest.View(), n, j) == old(Quarter(dest.View(), n, j))
    ensures OnlyChanged(dest)
  {
    hide Pow4, Quarter, SumSubF, QuarterSlice;
    QuarterIs(dest, n, k);
    WholeView(a);
    WholeView(b);
    WholeView(c);
    WholeView(s);
    StrassenSumSub(fl, Whole(a), Whole(b), Whole(c), Whole(s), QuarterSlice(dest, k));
    dest.QuarterWritten(n, k, QuarterSlice(dest, k));
  }

  method SumQuarter(fl: Rounding, a: array<int>, b: array<int>, dest: Slice, k: nat, ghost n: nat)
    requires dest.InRange() && dest.len == Pow4(n + 1) && k < 4
    requires a.Length == Pow4(n) && dest.arr !in {a, b}
    modifies dest.arr
    ensures Quarter(dest.View(), n, k) == ZipAdd(fl, a[..], b[..])
    ensures forall j: nat | j < 4 && j != k :: Quarter(dest.View(), n, j) == old(Quarter(dest.View(), n, j))
    ensures OnlyChanged(dest)
  {
    hide Pow4, Quarter, ZipAdd, QuarterSlice;
    QuarterIs(dest, n, k);
    WholeView(a);
    WholeView(b);
    StrassenSum(fl, Whole(a), Whole(b), QuarterSlice(dest, k));
    dest.QuarterWritten(n, k, QuarterSlice(dest, k));
  }

  method StrassenAdd2Mul(fl: Rounding, a1: Slice, a2: Slice, b1: Slice, b2: Slice, ghost n: nat) returns (dest: array<int>)
    requires a1.InRange() && a2.InRange() && b1.InRange() && b2.InRange() && a1.len == a2.len == b1.len == b2.len == Pow4(n)
    ensures fresh(dest) && dest.Length == Pow4(n)
    ensures dest[..] == StrassenF(fl, ZipAdd(fl, a1.View(), a2.View()), ZipAdd(fl, b1.View(), b2.View()), n)
    decreases n, 1
  {
    hide Pow4, StrassenF, ZipAdd;
    dest := new int[a1.len];
    var a := RTmpSum(fl, a1, a2);
    var b := RTmpSum(fl, b1, b2);
    assert Whole(a).View() == a[..] && Whole(b).View() == b[..];
    MatMulStrassen(fl, Whole(a), Whole(b), Whole(dest), n);
    assert Whole(dest).View() == dest[..];
  }

  method StrassenSubAddMul(fl: Rounding, a1: Slice, a2: Slice, b1: Slice, b2: Slice, ghost n: nat) returns (dest: array<int>)
    requires a1.InRange() && a2.InRange() && b1.InRange() && b2.InRange() && a1.len == a2.len == b1.len == b2.len == Pow4(n)
    ensures fresh(dest) && dest.Length == Pow4(n)
    ensures dest[..] == StrassenF(fl, ZipSub(fl, a1.View(), a2.View()), ZipAdd(fl, b1.View(), b2.View()), n)
    decreases n, 1
  {
    hide Pow4, StrassenF, ZipAdd, ZipSub;
    dest := new int[a1.len];
    var a := RTmpSub(fl, a1, a2);
    var b := RTmpSum(fl, b1, b2);
    assert Whole(a).View() == a[..] && Whole(b).View() == b[..];
    MatMulStrassen(fl, Whole(a), Whole(b), Whole(dest), n);
    assert Whole(dest).View() == dest[..];
  }

  method StrassenAddMul(fl: Rounding, a1: Slice, a2: Slice, b: Slice, ghost n: nat) returns (dest: array<int>)
    requires a1.InRange() && a2.InRange() && b.InRange() && a1.len == a2.len == b.len == Pow4(n)
    ensures fresh(dest) && dest.Length == Pow4(n)
    ensures dest[..] == StrassenF(fl, ZipAdd(fl, a1.View(), a2.View()), b.View(), n)
    decreases n, 1
  {
    hide Pow4, StrassenF, ZipAdd;
    dest := new int[a1.len];
    var a := RTmpSum(fl, a1, a2);
    assert Whole(a).View() == a[..];
    MatMulStrassen(fl, Whole(a), b, Whole(dest), n);
    assert Whole(dest).View() == dest[..];
  }

  method StrassenSubMul(fl: Rounding, b1: Slice, b2: Slice, a: Slice, ghost n: nat) returns (dest: array<int>)
    requires a.InRange() && b1.InRange() && b2.InRange() && b1.len == b2.len == a.len == Pow4(n)
    ensures fresh(dest) && dest.Length == Pow4(n)
    ensures dest[..] == StrassenF(fl, a.View(), ZipSub(fl, b1.View(), b2.View()), n)
    decreases n, 1
  {
    hide Pow4, StrassenF, ZipSub;
    dest := new int[a.len];
    var b := RTmpSub(fl, b1, b2);
    assert Whole(b).View() == b[..];
    MatMulStrassen(fl, a, Whole(b), Whole(dest), n);
    assert Whole(dest).View() == dest[..];
  }
}
