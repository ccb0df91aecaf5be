/** Strassen's multiply as a fork-join computation on one memory: inputs, destination, and
    the operand and product buffers of all recursive calls. */
module ParallelStrassen {
  import opened Arithmetic
  import opened Bits
  import opened ForkJoin
  import opened MatMul
  import opened ParallelMatMul
  import opened Rounded
  import opened ZMatrix

  // ---------- elementwise steps in sequence ----------

  /** Assign to, add to or subtract from a buffer, all elements at once. */
  datatype Step = Step(kind: Kind, from: nat)

  function Chain(ld: nat, steps: seq<Step>, n: nat): Task {
    if steps == [] then Nop
    else
      var k := |steps| - 1;
      Then(Chain(ld, steps[..k], n), ElementTask(steps[k].kind, ld, steps[k].from, n))
  }

  predicate IsSource(steps: seq<Step>, n: nat, i: int, x: int) {
    0 <= i < |steps| && In(x, steps[i].from, n)
  }

  /** The sources lie apart from the buffer. */
  ghost predicate ChainReady(ld: nat, steps: seq<Step>, n: nat) {
    forall i :: 0 <= i < |steps| ==> Disjoint(ld, n, steps[i].from, n)
  }

  ghost predicate ChainInRange(ld: nat, steps: seq<Step>, n: nat, len: nat) {
    ld + n <= len && forall i :: 0 <= i < |steps| ==> steps[i].from + n <= len
  }

  lemma {:induction false} ChainFootprint(ld: nat, steps: seq<Step>, n: nat)
    ensures forall x :: x in Writes(Chain(ld, steps, n)) ==> In(x, ld, n)
    ensures forall x :: x in Reads(Chain(ld, steps, n)) ==> In(x, ld, n) || exists i :: IsSource(steps, n, i, x)
    ensures ChainReady(ld, steps, n) ==> RaceFree(Chain(ld, steps, n))
    decreases |steps|
  {
    hide ElementTask;
    if steps != [] {
      var k := |steps| - 1;
      ChainFootprint(ld, steps[..k], n);
      ElementWithin(steps[k].kind, ld, steps[k].from, n, n);
      if ChainReady(ld, steps, n) {
        ElementFootprint(steps[k].kind, ld, steps[k].from, n, n);
      }
      forall x | x in Reads(Chain(ld, steps, n)) && !In(x, ld, n)
        ensures exists i :: IsSource(steps, n, i, x)
      {
        if x in Reads(Chain(ld, steps[..k], n)) {
          var i :| IsSource(steps[..k], n, i, x);
          assert IsSource(steps, n, i, x);
        } else {
          assert IsSource(steps, n, k, x);
        }
      }
    }
  }

  function Combined(fl: Rounding, kind: Kind, d: seq<int>, s: seq<int>): (r: seq<int>)
    requires |d| == |s|
    ensures |r| == |d|
  {
    match kind
    case Assign => s
    case Increase => ZipAdd(fl, d, s)
    case Decrease => ZipSub(fl, d, s)
  }

  /** What the steps leave in the buffer. */
  function ChainValue(fl: Rounding, mem: Memory, ld: nat, steps: seq<Step>, n: nat): (r: seq<int>)
    requires ChainInRange(ld, steps, n, |mem|)
    ensures |r| == n
    decreases |steps|
  {
    if steps == [] then Window(mem, ld, n)
    else
      var k := |steps| - 1;
      Combined(fl, steps[k].kind, ChainValue(fl, mem, ld, steps[..k], n), Window(mem, steps[k].from, n))
  }

  lemma ElementsCombined(fl: Rounding, kind: Kind, ld: nat, from: nat, n: nat, mem: Memory)
    requires ld + n <= |mem| && from + n <= |mem| && Disjoint(ld, n, from, n)
    ensures var after := Exec(fl, Serial(ElementTask(kind, ld, from, n)), mem);
            && SameOutside(mem, after, ld, n, 0, 0)
            && Window(after, ld, n) == Combined(fl, kind, Window(mem, ld, n), Window(mem, from, n))
  {
    hide Exec, Serial, ElementTask;
    ElementEffect(fl, kind, ld, from, n, n, mem);
  }

  lemma {:induction false} ChainEffect(fl: Rounding, ld: nat, steps: seq<Step>, n: nat, mem: Memory)
    requires ChainReady(ld, steps, n) && ChainInRange(ld, steps, n, |mem|)
    ensures var after := Exec(fl, Serial(Chain(ld, steps, n)), mem);
            && SameOutside(mem, after, ld, n, 0, 0)
            && Window(after, ld, n) == ChainValue(fl, mem, ld, steps, n)
    decreases |steps|
  {
    hide Exec, Serial, ElementTask, Combined;
    if steps == [] {
      EmptyChain(fl, ld, steps, n, mem);
    } else {
      var k := |steps| - 1;
      var kind, from := steps[k].kind, steps[k].from;
      var mid := Exec(fl, Serial(Chain(ld, steps[..k], n)), mem);
      ChainEffect(fl, ld, steps[..k], n, mem);
      SerialThen(fl, Chain(ld, steps[..k], n), ElementTask(kind, ld, from, n), mem);
      ElementsCombined(fl, kind, ld, from, n, mid);
      WindowKept(mem, mid, ld, n, 0, 0, from, n);
    }
  }

  lemma EmptyChain(fl: Rounding, ld: nat, steps: seq<Step>, n: nat, mem: Memory)
    requires steps == []
    ensures Exec(fl, Serial(Chain(ld, steps, n)), mem) == mem
  {
  }

  // ---------- the tasks ----------

  type QuarterIndex = q: nat | q < 4

  /** An operand of one of the seven products. */
  datatype Operand = Plain(q: QuarterIndex) | SumOf(q: QuarterIndex, r: QuarterIndex) | DifferenceOf(q: QuarterIndex, r: QuarterIndex)

  function LeftOf(k: nat): Operand {
    match k
    case 0 => SumOf(0, 3)
    case 1 => SumOf(2, 3)
    case 2 => Plain(0)
    case 3 => Plain(3)
    case 4 => SumOf(0, 1)
    case 5 => DifferenceOf(2, 0)
    case _ => DifferenceOf(1, 3)
  }

  function RightOf(k: nat): Operand {
    match k
    case 0 => SumOf(0, 3)
    case 1 => Plain(0)
    case 2 => DifferenceOf(1, 3)
    case 3 => DifferenceOf(2, 0)
    case 4 => Plain(3)
    case 5 => SumOf(0, 1)
    case _ => SumOf(2, 3)
  }

  function OperandValue(fl: Rounding, o: Operand, v: seq<int>, n: nat): (r: seq<int>)
    requires |v| == Pow4(n + 1)
    ensures |r| == Pow4(n)
  {
    match o
    case Plain(q) => Quarter(v, n, q)
    case SumOf(q, r) => ZipAdd(fl, Quarter(v, n, q), Quarter(v, n, r))
    case DifferenceOf(q, r) => ZipSub(fl, Quarter(v, n, q), Quarter(v, n, r))
  }

  /** How the operand is built in a buffer, from the matrix at `lo`; a plain one is not built. */
  function OperandSteps(o: Operand, lo: nat, n: nat): seq<Step> {
    match o
    case Plain(_) => []
    case SumOf(q, r) => [Step(Assign, QuarterStart(lo, n, q)), Step(Increase, QuarterStart(lo, n, r))]
    case DifferenceOf(q, r) => [Step(Assign, QuarterStart(lo, n, q)), Step(Decrease, QuarterStart(lo, n, r))]
  }

  function OperandAt(o: Operand, lo: nat, buffer: nat, n: nat): nat {
    if o.Plain? then QuarterStart(lo, n, o.q) else buffer
  }

  /** Scratch cells used by a call and everything it calls: per product two operand buffers,
      a product buffer and the scratch of the recursive call. */
  function StrassenScratch(m: nat): nat {
    if m <= LEAF_DEPTH then 0 else 7 * (3 * Pow4(m - 1) + StrassenScratch(m - 1))
  }

  function BlockSize(n: nat): nat { 3 * Pow4(n) + StrassenScratch(n) }

  function BlockAt(s: nat, n: nat, k: nat): nat { s + k * BlockSize(n) }

  function ProductAt(s: nat, n: nat, k: nat): nat { BlockAt(s, n, k) + 2 * Pow4(n) }

  function StrassenTask(la: nat, lb: nat, ld: nat, s: nat, m: nat): Task
    decreases m, 0
  {
    if m <= LEAF_DEPTH then MulTask(la, lb, ld, s, m)
    else Then(Join8(Products(la, lb, s, m - 1)), Join4(Combines(ld, s, m - 1)))
  }

  /** The eighth task of the join does nothing. */
  function Products(la: nat, lb: nat, s: nat, n: nat): (ts: seq<Task>)
    ensures |ts| == 8
    decreases n, 2
  {
    seq(8, k requires 0 <= k < 8 => if k == 7 then Nop else ProductTask(la, lb, s, n, k))
  }

  function ProductTask(la: nat, lb: nat, s: nat, n: nat, k: nat): Task
    decreases n, 1
  {
    var x := BlockAt(s, n, k);
    var y := x + Pow4(n);
    Then(OperandsTask(la, lb, x, y, n, k),
         StrassenTask(OperandAt(LeftOf(k), la, x, n), OperandAt(RightOf(k), lb, y, n),
                      y + Pow4(n), y + Pow4(n) + Pow4(n), n))
  }

  function OperandsTask(la: nat, lb: nat, x: nat, y: nat, n: nat, k: nat): Task {
    Par(Chain(x, OperandSteps(LeftOf(k), la, n), Pow4(n)), Chain(y, OperandSteps(RightOf(k), lb, n), Pow4(n)))
  }

  function CombineSteps(s: nat, n: nat, q: nat): seq<Step> {
    match q
    case 0 => [Step(Assign, ProductAt(s, n, 0)), Step(Increase, ProductAt(s, n, 3)),
               Step(Increase, ProductAt(s, n, 6)), Step(Decrease, ProductAt(s, n, 4))]
    case 1 => [Step(Assign, ProductAt(s, n, 2)), Step(Increase, ProductAt(s, n, 4))]
    case 2 => [Step(Assign, ProductAt(s, n, 1)), Step(Increase, ProductAt(s, n, 3))]
    case _ => [Step(Assign, ProductAt(s, n, 0)), Step(Increase, ProductAt(s, n, 2)),
               Step(Increase, ProductAt(s, n, 5)), Step(Decrease, ProductAt(s, n, 1))]
  }

  function CombineTask(ld: nat, s: nat, n: nat, q: nat): Task {
    Chain(QuarterStart(ld, n, q), CombineSteps(s, n, q), Pow4(n))
  }

  function Combines(ld: nat, s: nat, n: nat): (ts: seq<Task>)
    ensures |ts| == 4
  {
    seq(4, q requires 0 <= q < 4 => CombineTask(ld, s, n, q))
  }

  function Join4(ts: seq<Task>): Task
    requires |ts| == 4
  {
    Par(Par(ts[0], ts[1]), Par(ts[2], ts[3]))
  }

  // ---------- geometry ----------

  /** Inputs may overlap each other; destination and scratch overlap nothing. */
  predicate StrassenLayout(la: nat, lb: nat, ld: nat, s: nat, m: nat, len: nat) {
    var n, w := Pow4(m), StrassenScratch(m);
    && la + n <= len && lb + n <= len && ld + n <= len && s + w <= len
    && Disjoint(ld, n, la, n) && Disjoint(ld, n, lb, n)
    && Disjoint(s, w, la, n) && Disjoint(s, w, lb, n) && Disjoint(s, w, ld, n)
  }

  lemma ScratchIs(n: nat)
    requires n + 1 > LEAF_DEPTH
    ensures StrassenScratch(n + 1) == 7 * BlockSize(n) && Pow4(n + 1) == 4 * Pow4(n)
    ensures BlockSize(n) == 3 * Pow4(n) + StrassenScratch(n)
  {
  }

  lemma BlockRange(s: nat, n: nat, k: nat)
    requires k < 7 && n + 1 > LEAF_DEPTH
    ensures s <= BlockAt(s, n, k) && BlockAt(s, n, k) + BlockSize(n) <= s + StrassenScratch(n + 1)
    ensures ProductAt(s, n, k) == BlockAt(s, n, k) + Pow4(n) + Pow4(n)
  {
    hide Pow4, StrassenScratch, BlockSize;
    ScratchIs(n);
    var w := BlockSize(n);
    MulMonotone(k + 1, 7, w);
    assert (k + 1) * w == k * w + w;
  }

  lemma BlocksApart(s: nat, n: nat, j: nat, k: nat)
    requires j < k
    ensures BlockAt(s, n, j) + BlockSize(n) <= BlockAt(s, n, k)
  {
    hide BlockSize;
    var w := BlockSize(n);
    MulMonotone(j + 1, k, w);
    assert (j + 1) * w == j * w + w;
  }

  lemma ProductLayout(la: nat, lb: nat, ld: nat, s: nat, n: nat, k: nat, len: nat)
    requires k < 7 && n + 1 > LEAF_DEPTH && StrassenLayout(la, lb, ld, s, n + 1, len)
    ensures var x := BlockAt(s, n, k);
            var y := x + Pow4(n);
            var p := y + Pow4(n);
            StrassenLayout(OperandAt(LeftOf(k), la, x, n), OperandAt(RightOf(k), lb, y, n), p, p + Pow4(n), n, len)
  {
    hide Pow4, StrassenScratch, BlockAt, BlockSize;
    ScratchIs(n);
    BlockRange(s, n, k);
    OperandRange(LeftOf(k), la, n);
    OperandRange(RightOf(k), lb, n);
  }

  lemma OperandRange(o: Operand, lo: nat, n: nat)
    ensures o.Plain? ==> lo <= OperandAt(o, lo, 0, n) && OperandAt(o, lo, 0, n) + Pow4(n) <= lo + Pow4(n + 1)
    ensures forall b :: OperandAt(o, lo, b, n) == if o.Plain? then OperandAt(o, lo, 0, n) else b
    ensures forall i :: 0 <= i < |OperandSteps(o, lo, n)| ==>
              lo <= OperandSteps(o, lo, n)[i].from && OperandSteps(o, lo, n)[i].from + Pow4(n) <= lo + Pow4(n + 1)
  {
    hide Pow4;
    QuarterRange(lo, n, o.q);
    if !o.Plain? {
      QuarterRange(lo, n, o.r);
    }
  }

  // ---------- footprints ----------

  /** Writes stay in two ranges; reads stay in those and in the two inputs. */
  ghost predicate StaysIn(t: Task, la: nat, lb: nat, n: nat, d: nat, dn: nat, s: nat, w: nat) {
    && (forall x :: x in Writes(t) ==> In(x, d, dn) || In(x, s, w))
    && (forall x :: x in Reads(t) ==> In(x, la, n) || In(x, lb, n) || In(x, d, dn) || In(x, s, w))
  }

  lemma {:induction false} StrassenFootprint(la: nat, lb: nat, ld: nat, s: nat, m: nat)
    ensures StaysIn(StrassenTask(la, lb, ld, s, m), la, lb, Pow4(m), ld, Pow4(m), s, StrassenScratch(m))
    decreases m, 0
  {
    hide Pow4, MulTask, Products, Combines, Join8, Join4, BlockSize, In;
    if m <= LEAF_DEPTH {
      MulFootprint(la, lb, ld, s, m);
    } else {
      hide StrassenScratch;
      ProductsFootprint(la, lb, ld, s, m - 1);
      CombinesFootprint(la, lb, ld, s, m - 1);
      assert StrassenTask(la, lb, ld, s, m) == Then(Join8(Products(la, lb, s, m - 1)), Join4(Combines(ld, s, m - 1)));
    }
  }

  lemma ProductsFootprint(la: nat, lb: nat, ld: nat, s: nat, n: nat)
    requires n + 1 > LEAF_DEPTH
    ensures StaysIn(Join8(Products(la, lb, s, n)), la, lb, Pow4(n + 1), ld, Pow4(n + 1), s, StrassenScratch(n + 1))
    decreases n, 2
  {
    hide Pow4, StrassenScratch, BlockSize, BlockAt, ProductTask, Join8;
    var ts := Products(la, lb, s, n);
    Join8Footprint(ts);
    forall k | 0 <= k < 8
      ensures StaysIn(ts[k], la, lb, Pow4(n + 1), ld, Pow4(n + 1), s, StrassenScratch(n + 1))
    {
      if k < 7 {
        ProductFootprint(la, lb, s, n, k);
        BlockRange(s, n, k);
      }
    }
    StaysInJoin(ts, la, lb, Pow4(n + 1), ld, Pow4(n + 1), s, StrassenScratch(n + 1));
  }

  lemma StaysInJoin(ts: seq<Task>, la: nat, lb: nat, n: nat, d: nat, dn: nat, s: nat, w: nat)
    requires |ts| == 8 && forall k :: 0 <= k < 8 ==> StaysIn(ts[k], la, lb, n, d, dn, s, w)
    ensures StaysIn(Join8(ts), la, lb, n, d, dn, s, w)
  {
    hide Join8, Writes, Reads, In;
    Join8Footprint(ts);
    forall x | x in Writes(Join8(ts))
      ensures In(x, d, dn) || In(x, s, w)
    {
      var k :| 0 <= k < 8 && x in Writes(ts[k]);
      assert StaysIn(ts[k], la, lb, n, d, dn, s, w);
    }
    forall x | x in Reads(Join8(ts))
      ensures In(x, la, n) || In(x, lb, n) || In(x, d, dn) || In(x, s, w)
    {
      var k :| 0 <= k < 8 && x in Reads(ts[k]);
      assert StaysIn(ts[k], la, lb, n, d, dn, s, w);
    }
  }

  /** A product touches its own block, and reads the inputs. */
  lemma ProductFootprint(la: nat, lb: nat, s: nat, n: nat, k: nat)
    requires k < 7 && n + 1 > LEAF_DEPTH
    ensures StaysIn(ProductTask(la, lb, s, n, k), la, lb, Pow4(n + 1), BlockAt(s, n, k), BlockSize(n), 0, 0)
    decreases n, 1
  {
    hide Pow4, StrassenScratch, BlockSize, BlockAt, StrassenTask, Chain, LeftOf, RightOf, OperandAt, OperandSteps, Writes, Reads,
         QuarterStart, RaceFree, StaysIn;
    var x := BlockAt(s, n, k);
    var y := x + Pow4(n);
    var p := y + Pow4(n);
    ScratchIs(n);
    OperandFootprint(LeftOf(k), la, x, n);
    OperandFootprint(RightOf(k), lb, y, n);
    OperandRange(LeftOf(k), la, n);
    OperandRange(RightOf(k), lb, n);
    var left, right := OperandAt(LeftOf(k), la, x, n), OperandAt(RightOf(k), lb, y, n);
    StrassenFootprint(left, right, p, p + Pow4(n), n);
    var buildX := Chain(x, OperandSteps(LeftOf(k), la, n), Pow4(n));
    var buildY := Chain(y, OperandSteps(RightOf(k), lb, n), Pow4(n));
    TaskFootprint(buildX, buildY, StrassenTask(left, right, p, p + Pow4(n), n));
    BlockHolds(buildX, buildY, StrassenTask(left, right, p, p + Pow4(n), n), la, lb, Pow4(n + 1), left, right,
               x, Pow4(n), StrassenScratch(n), BlockSize(n));
  }

  /** Three buffers and a scratch area fill a block; operands are buffers or lie in the inputs. */
  lemma BlockHolds(a: Task, b: Task, c: Task, la: nat, lb: nat, size: nat, left: nat, right: nat, x: nat, n: nat, w: nat, block: nat)
    requires block == 3 * n + w
    requires left == x || (la <= left && left + n <= la + size)
    requires right == x + n || (lb <= right && right + n <= lb + size)
    requires forall i :: i in Writes(a) ==> In(i, x, n)
    requires forall i :: i in Reads(a) ==> In(i, x, n) || In(i, la, size)
    requires forall i :: i in Writes(b) ==> In(i, x + n, n)
    requires forall i :: i in Reads(b) ==> In(i, x + n, n) || In(i, lb, size)
    requires StaysIn(c, left, right, n, x + n + n, n, x + n + n + n, w)
    ensures StaysIn(Then(Par(a, b), c), la, lb, size, x, block, 0, 0)
  {
    TaskFootprint(a, b, c);
    hide Writes, Reads;
  }

  lemma TaskFootprint(a: Task, b: Task, c: Task)
    ensures Writes(Then(Par(a, b), c)) == Writes(a) + Writes(b) + Writes(c)
    ensures Reads(Then(Par(a, b), c)) == Reads(a) + Reads(b) + Reads(c)
  {
    assert Writes(Par(a, b)) == Writes(a) + Writes(b) && Reads(Par(a, b)) == Reads(a) + Reads(b);
  }

  lemma OperandFootprint(o: Operand, lo: nat, buffer: nat, n: nat)
    ensures forall x :: x in Writes(Chain(buffer, OperandSteps(o, lo, n), Pow4(n))) ==> In(x, buffer, Pow4(n))
    ensures forall x :: x in Reads(Chain(buffer, OperandSteps(o, lo, n), Pow4(n))) ==>
              In(x, buffer, Pow4(n)) || In(x, lo, Pow4(n + 1))
    ensures Disjoint(buffer, Pow4(n), lo, Pow4(n + 1)) ==> RaceFree(Chain(buffer, OperandSteps(o, lo, n), Pow4(n)))
  {
    hide Pow4, Chain, OperandSteps, OperandAt;
    OperandRange(o, lo, n);
    ChainFootprint(buffer, OperandSteps(o, lo, n), Pow4(n));
  }

  lemma CombineSources(s: nat, n: nat, q: nat)
    requires q < 4 && n + 1 > LEAF_DEPTH
    ensures forall i :: 0 <= i < |CombineSteps(s, n, q)| ==>
              && s <= CombineSteps(s, n, q)[i].from
              && CombineSteps(s, n, q)[i].from + Pow4(n) <= s + StrassenScratch(n + 1)
  {
    hide Pow4, StrassenScratch, BlockSize, BlockAt, ProductAt;
    ScratchIs(n);
    forall k: nat | k < 7
      ensures s <= ProductAt(s, n, k) && ProductAt(s, n, k) + Pow4(n) <= s + StrassenScratch(n + 1)
    {
      BlockRange(s, n, k);
    }
  }

  lemma CombineFootprint(ld: nat, s: nat, n: nat, q: nat)
    requires q < 4 && n + 1 > LEAF_DEPTH
    ensures forall x :: x in Writes(CombineTask(ld, s, n, q)) ==> In(x, QuarterStart(ld, n, q), Pow4(n))
    ensures forall x :: x in Reads(CombineTask(ld, s, n, q)) ==>
              In(x, QuarterStart(ld, n, q), Pow4(n)) || In(x, s, StrassenScratch(n + 1))
    ensures Disjoint(s, StrassenScratch(n + 1), ld, Pow4(n + 1)) ==> RaceFree(CombineTask(ld, s, n, q))
  {
    hide Pow4, StrassenScratch, Chain, CombineSteps;
    CombineSources(s, n, q);
    QuarterRange(ld, n, q);
    ChainFootprint(QuarterStart(ld, n, q), CombineSteps(s, n, q), Pow4(n));
  }

  lemma CombinesFootprint(la: nat, lb: nat, ld: nat, s: nat, n: nat)
    requires n + 1 > LEAF_DEPTH
    ensures StaysIn(Join4(Combines(ld, s, n)), la, lb, Pow4(n + 1), ld, Pow4(n + 1), s, StrassenScratch(n + 1))
  {
    hide Pow4, StrassenScratch, CombineTask;
    forall q: nat | q < 4
      ensures StaysIn(CombineTask(ld, s, n, q), la, lb, Pow4(n + 1), ld, Pow4(n + 1), s, StrassenScratch(n + 1))
    {
      CombineFootprint(ld, s, n, q);
      QuarterRange(ld, n, q);
    }
    var ts := Combines(ld, s, n);
    var left, right := Par(ts[0], ts[1]), Par(ts[2], ts[3]);
    assert Writes(Join4(ts)) == Writes(left) + Writes(right) && Reads(Join4(ts)) == Reads(left) + Reads(right);
    assert Writes(left) == Writes(ts[0]) + Writes(ts[1]) && Reads(left) == Reads(ts[0]) + Reads(ts[1]);
    assert Writes(right) == Writes(ts[2]) + Writes(ts[3]) && Reads(right) == Reads(ts[2]) + Reads(ts[3]);
  }

  // ---------- no races ----------

  /** Which of `count` adjacent ranges of a size holds the cell, looking from range `k` on. */
  function RangeOwner(base: nat, size: nat, count: nat, x: int, k: nat): int
    decreases count - k
  {
    if k >= count then -1 else if In(x, base + k * size, size) then k else RangeOwner(base, size, count, x, k + 1)
  }

  lemma {:induction false} OwnerInside(base: nat, size: nat, count: nat, x: int, k: nat, j: nat)
    requires j <= k < count && In(x, base + k * size, size)
    ensures RangeOwner(base, size, count, x, j) == k
    decreases k - j
  {
    if j < k {
      StepApart(j, k, size);
      OwnerInside(base, size, count, x, k, j + 1);
    }
  }

  lemma {:induction false} OwnerOutside(base: nat, size: nat, count: nat, x: int, j: nat)
    requires j <= count && !In(x, base, count * size)
    ensures RangeOwner(base, size, count, x, j) == -1
    decreases count - j
  {
    if j < count {
      MulMonotone(j + 1, count, size);
      assert (j + 1) * size == j * size + size;
      OwnerOutside(base, size, count, x, j + 1);
    }
  }

  lemma {:induction false} StrassenRaceFree(la: nat, lb: nat, ld: nat, s: nat, m: nat, len: nat)
    requires StrassenLayout(la, lb, ld, s, m, len)
    ensures RaceFree(StrassenTask(la, lb, ld, s, m))
    decreases m, 0
  {
    hide Pow4, MulTask, Products, Combines, Join8, Join4;
    if m <= LEAF_DEPTH {
      MulRaceFree(la, lb, ld, s, m, len);
    } else {
      ProductsRaceFree(la, lb, ld, s, m - 1, len);
      CombinesRaceFree(la, lb, ld, s, m - 1, len);
    }
  }

  lemma ProductRaceFree(la: nat, lb: nat, ld: nat, s: nat, n: nat, k: nat, len: nat)
    requires k < 7 && n + 1 > LEAF_DEPTH && StrassenLayout(la, lb, ld, s, n + 1, len)
    ensures RaceFree(ProductTask(la, lb, s, n, k))
    decreases n, 1
  {
    hide Pow4, StrassenScratch, BlockSize, BlockAt, StrassenTask, Chain, LeftOf, RightOf, OperandAt, OperandSteps;
    var x := BlockAt(s, n, k);
    var y := x + Pow4(n);
    ScratchIs(n);
    BlockRange(s, n, k);
    OperandFootprint(LeftOf(k), la, x, n);
    OperandFootprint(RightOf(k), lb, y, n);
    ProductLayout(la, lb, ld, s, n, k, len);
    StrassenRaceFree(OperandAt(LeftOf(k), la, x, n), OperandAt(RightOf(k), lb, y, n), y + Pow4(n), y + Pow4(n) + Pow4(n), n, len);
  }

  /** The seven products own a block of the scratch each, and no one owns the inputs. */
  lemma ProductOwned(la: nat, lb: nat, ld: nat, s: nat, n: nat, k: nat, len: nat)
    requires k < 7 && n + 1 > LEAF_DEPTH && StrassenLayout(la, lb, ld, s, n + 1, len)
    ensures forall x :: x in Writes(ProductTask(la, lb, s, n, k)) ==> RangeOwner(s, BlockSize(n), 7, x, 0) == k
    ensures forall x :: x in Reads(ProductTask(la, lb, s, n, k)) ==>
              RangeOwner(s, BlockSize(n), 7, x, 0) == k || RangeOwner(s, BlockSize(n), 7, x, 0) == -1
  {
    hide Pow4, StrassenScratch, BlockSize, ProductTask, RangeOwner;
    ScratchIs(n);
    ProductFootprint(la, lb, s, n, k);
    forall x | In(x, BlockAt(s, n, k), BlockSize(n))
      ensures RangeOwner(s, BlockSize(n), 7, x, 0) == k
    {
      OwnerInside(s, BlockSize(n), 7, x, k, 0);
    }
    forall x | In(x, la, Pow4(n + 1)) || In(x, lb, Pow4(n + 1))
      ensures RangeOwner(s, BlockSize(n), 7, x, 0) == -1
    {
      OwnerOutside(s, BlockSize(n), 7, x, 0);
    }
  }

  lemma ProductsRaceFree(la: nat, lb: nat, ld: nat, s: nat, n: nat, len: nat)
    requires n + 1 > LEAF_DEPTH && StrassenLayout(la, lb, ld, s, n + 1, len)
    ensures RaceFree(Join8(Products(la, lb, s, n)))
    decreases n, 2
  {
    hide Pow4, StrassenScratch, BlockSize, ProductTask, RangeOwner, StrassenLayout, Join8;
    var ts := Products(la, lb, s, n);
    var owner := (x: nat) => RangeOwner(s, BlockSize(n), 7, x, 0);
    forall k | 0 <= k < 8
      ensures RaceFree(ts[k])
      ensures forall x :: x in Writes(ts[k]) ==> owner(x) == k
      ensures forall x :: x in Reads(ts[k]) ==> owner(x) == k || owner(x) == -1
    {
      if k < 7 {
        ProductRaceFree(la, lb, ld, s, n, k, len);
        ProductOwned(la, lb, ld, s, n, k, len);
      }
    }
    Join8RaceFree(ts, owner);
  }

  lemma CombineOwned(la: nat, lb: nat, ld: nat, s: nat, n: nat, q: nat, len: nat)
    requires q < 4 && n + 1 > LEAF_DEPTH && StrassenLayout(la, lb, ld, s, n + 1, len)
    ensures RaceFree(CombineTask(ld, s, n, q))
    ensures forall x :: x in Writes(CombineTask(ld, s, n, q)) ==> RangeOwner(ld, Pow4(n), 4, x, 0) == q
    ensures forall x :: x in Reads(CombineTask(ld, s, n, q)) ==>
              RangeOwner(ld, Pow4(n), 4, x, 0) == q || RangeOwner(ld, Pow4(n), 4, x, 0) == -1
  {
    hide Pow4, StrassenScratch, CombineTask, RangeOwner;
    ScratchIs(n);
    CombineFootprint(ld, s, n, q);
    forall x | In(x, QuarterStart(ld, n, q), Pow4(n))
      ensures RangeOwner(ld, Pow4(n), 4, x, 0) == q
    {
      OwnerInside(ld, Pow4(n), 4, x, q, 0);
    }
    forall x | In(x, s, StrassenScratch(n + 1))
      ensures RangeOwner(ld, Pow4(n), 4, x, 0) == -1
    {
      OwnerOutside(ld, Pow4(n), 4, x, 0);
    }
  }

  lemma CombinesRaceFree(la: nat, lb: nat, ld: nat, s: nat, n: nat, len: nat)
    requires n + 1 > LEAF_DEPTH && StrassenLayout(la, lb, ld, s, n + 1, len)
    ensures RaceFree(Join4(Combines(ld, s, n)))
  {
    hide Pow4, StrassenScratch, CombineTask, RangeOwner, StrassenLayout, RaceFree, Writes, Reads;
    var ts := Combines(ld, s, n);
    var owner := (x: nat) => RangeOwner(ld, Pow4(n), 4, x, 0);
    forall q: nat | q < 4
      ensures RaceFree(ts[q])
      ensures forall x :: x in Writes(ts[q]) ==> owner(x) == q
      ensures forall x :: x in Reads(ts[q]) ==> owner(x) == q || owner(x) == -1
    {
      CombineOwned(la, lb, ld, s, n, q, len);
    }
    PairRaceFree(ts[0], ts[1], 0, 1, owner);
    PairRaceFree(ts[2], ts[3], 2, 3, owner);
    RangeRaceFree(Par(ts[0], ts[1]), Par(ts[2], ts[3]), 0, 2, 4, owner);
  }

  // ---------- what the serial schedule computes ----------

  /** `after` is `before` with Strassen's result in the destination, up to scratch. */
  ghost predicate Computes(fl: Rounding, before: Memory, after: Memory, la: nat, lb: nat, ld: nat, s: nat, m: nat)
  {
    && StrassenLayout(la, lb, ld, s, m, |before|)
    && SameOutside(before, after, ld, Pow4(m), s, StrassenScratch(m))
    && Window(after, ld, Pow4(m)) == StrassenF(fl, Window(before, la, Pow4(m)), Window(before, lb, Pow4(m)), m)
  }

  /** Product k of the matrices `a` and `b`. */
  ghost function ProductValue(fl: Rounding, a: seq<int>, b: seq<int>, n: nat, k: nat): (r: seq<int>)
    requires |a| == |b| == Pow4(n + 1)
    ensures |r| == Pow4(n)
  {
    StrassenF(fl, OperandValue(fl, LeftOf(k), a, n), OperandValue(fl, RightOf(k), b, n), n)
  }

  lemma BuiltEffect(fl: Rounding, kind: Kind, lo: nat, buffer: nat, n: nat, q: QuarterIndex, r: QuarterIndex, mem: Memory)
    requires lo + Pow4(n + 1) <= |mem| && buffer + Pow4(n) <= |mem| && Disjoint(buffer, Pow4(n), lo, Pow4(n + 1))
    ensures var steps := [Step(Assign, QuarterStart(lo, n, q)), Step(kind, QuarterStart(lo, n, r))];
            var after := Exec(fl, Serial(Chain(buffer, steps, Pow4(n))), mem);
            && SameOutside(mem, after, buffer, Pow4(n), 0, 0)
            && Window(after, buffer, Pow4(n))
               == Combined(fl, kind, Quarter(Window(mem, lo, Pow4(n + 1)), n, q), Quarter(Window(mem, lo, Pow4(n + 1)), n, r))
  {
    hide Pow4, Exec, Serial, Chain, Quarter, Combined, Window, SameOutside, ChainValue;
    var steps := [Step(Assign, QuarterStart(lo, n, q)), Step(kind, QuarterStart(lo, n, r))];
    QuarterRange(lo, n, q);
    QuarterRange(lo, n, r);
    QuarterWindow(mem, lo, n, q);
    QuarterWindow(mem, lo, n, r);
    ChainEffect(fl, buffer, steps, Pow4(n), mem);
    TwoSteps(fl, mem, buffer, steps, Pow4(n));
  }

  lemma PlainEffect(fl: Rounding, lo: nat, buffer: nat, n: nat, q: QuarterIndex, mem: Memory)
    requires lo + Pow4(n + 1) <= |mem|
    ensures var after := Exec(fl, Serial(Chain(buffer, [], Pow4(n))), mem);
            && SameOutside(mem, after, buffer, Pow4(n), 0, 0)
            && QuarterStart(lo, n, q) + Pow4(n) <= |mem|
            && Window(after, QuarterStart(lo, n, q), Pow4(n)) == Quarter(Window(mem, lo, Pow4(n + 1)), n, q)
  {
    hide Pow4, Exec, Serial, Chain, Quarter, Window;
    EmptyChain(fl, buffer, [], Pow4(n), mem);
    QuarterWindow(mem, lo, n, q);
  }

  /** Building an operand leaves its value where the product will look for it. */
  lemma OperandEffect(fl: Rounding, o: Operand, lo: nat, buffer: nat, n: nat, mem: Memory)
    requires lo + Pow4(n + 1) <= |mem| && buffer + Pow4(n) <= |mem| && Disjoint(buffer, Pow4(n), lo, Pow4(n + 1))
    ensures var after := Exec(fl, Serial(Chain(buffer, OperandSteps(o, lo, n), Pow4(n))), mem);
            && SameOutside(mem, after, buffer, Pow4(n), 0, 0)
            && OperandAt(o, lo, buffer, n) + Pow4(n) <= |mem|
            && Window(after, OperandAt(o, lo, buffer, n), Pow4(n)) == OperandValue(fl, o, Window(mem, lo, Pow4(n + 1)), n)
  {
    hide Pow4, Exec, Serial, Chain, Quarter, ZipAdd, ZipSub, Window, SameOutside;
    match o
    case Plain(q) => PlainEffect(fl, lo, buffer, n, q, mem);
    case SumOf(q, r) => BuiltEffect(fl, Increase, lo, buffer, n, q, r, mem);
    case DifferenceOf(q, r) => BuiltEffect(fl, Decrease, lo, buffer, n, q, r, mem);
  }

  lemma TwoSteps(fl: Rounding, mem: Memory, ld: nat, steps: seq<Step>, n: nat)
    requires ChainInRange(ld, steps, n, |mem|) && |steps| == 2 && steps[0].kind.Assign?
    ensures ChainValue(fl, mem, ld, steps, n)
         == Combined(fl, steps[1].kind, Window(mem, steps[0].from, n), Window(mem, steps[1].from, n))
  {
    hide ZipAdd, ZipSub, Window;
    var one := steps[..1];
    assert one[..0] == [];
    assert ChainValue(fl, mem, ld, one, n) == Window(mem, steps[0].from, n);
  }

  lemma FourSteps(fl: Rounding, mem: Memory, ld: nat, steps: seq<Step>, n: nat)
    requires ChainInRange(ld, steps, n, |mem|) && |steps| == 4 && steps[0].kind.Assign?
    ensures var w1, w2, w3, w4 := Window(mem, steps[0].from, n), Window(mem, steps[1].from, n),
                                  Window(mem, steps[2].from, n), Window(mem, steps[3].from, n);
            ChainValue(fl, mem, ld, steps, n)
            == Combined(fl, steps[3].kind, Combined(fl, steps[2].kind, Combined(fl, steps[1].kind, w1, w2), w3), w4)
  {
    hide ZipAdd, ZipSub, Window, Combined;
    var three, two := steps[..3], steps[..2];
    assert three[..2] == two;
    assert ChainValue(fl, mem, ld, three, n)
        == Combined(fl, steps[2].kind, ChainValue(fl, mem, ld, two, n), Window(mem, steps[2].from, n));
    TwoSteps(fl, mem, ld, two, n);
  }

  /** Both operands of product k are in place; only its block changed. */
  lemma OperandsEffect(fl: Rounding, la: nat, lb: nat, ld: nat, s: nat, n: nat, k: nat, mem: Memory)
    requires k < 7 && n + 1 > LEAF_DEPTH && StrassenLayout(la, lb, ld, s, n + 1, |mem|)
    ensures var x := BlockAt(s, n, k);
            var y := x + Pow4(n);
            var left, right := OperandAt(LeftOf(k), la, x, n), OperandAt(RightOf(k), lb, y, n);
            var after := Exec(fl, Serial(OperandsTask(la, lb, x, y, n, k)), mem);
            && SameOutside(mem, after, x, Pow4(n), y, Pow4(n))
            && left + Pow4(n) <= |mem| && right + Pow4(n) <= |mem|
            && Window(after, left, Pow4(n)) == OperandValue(fl, LeftOf(k), Window(mem, la, Pow4(n + 1)), n)
            && Window(after, right, Pow4(n)) == OperandValue(fl, RightOf(k), Window(mem, lb, Pow4(n + 1)), n)
  {
    hide Pow4, StrassenScratch, BlockSize, BlockAt, Exec, Serial, Chain, LeftOf, RightOf, OperandAt, OperandSteps, OperandValue;
    var x := BlockAt(s, n, k);
    var y := x + Pow4(n);
    ScratchIs(n);
    BlockRange(s, n, k);
    var buildX := Chain(x, OperandSteps(LeftOf(k), la, n), Pow4(n));
    var buildY := Chain(y, OperandSteps(RightOf(k), lb, n), Pow4(n));
    var mid := Exec(fl, Serial(buildX), mem);
    OperandEffect(fl, LeftOf(k), la, x, n, mem);
    OperandEffect(fl, RightOf(k), lb, y, n, mid);
    SerialPar(fl, buildX, buildY, mem);
    WindowKept(mem, mid, x, Pow4(n), 0, 0, lb, Pow4(n + 1));
    var after := Exec(fl, Serial(buildY), mid);
    var left := OperandAt(LeftOf(k), la, x, n);
    OperandRange(LeftOf(k), la, n);
    WindowKept(mid, after, y, Pow4(n), 0, 0, left, Pow4(n));
  }

  /** One product: its value in its product buffer, and nothing changed outside its block. */
  lemma ProductEffect(fl: Rounding, la: nat, lb: nat, ld: nat, s: nat, n: nat, k: nat, mem: Memory)
    requires k < 7 && n + 1 > LEAF_DEPTH && StrassenLayout(la, lb, ld, s, n + 1, |mem|)
    ensures var after := Exec(fl, Serial(ProductTask(la, lb, s, n, k)), mem);
            && SameOutside(mem, after, BlockAt(s, n, k), BlockSize(n), 0, 0)
            && ProductAt(s, n, k) + Pow4(n) <= |after|
            && Window(after, ProductAt(s, n, k), Pow4(n))
               == ProductValue(fl, Window(mem, la, Pow4(n + 1)), Window(mem, lb, Pow4(n + 1)), n, k)
    decreases n, 1
  {
    hide Pow4, StrassenScratch, BlockSize, BlockAt, Exec, Serial, StrassenTask, OperandsTask, LeftOf, RightOf, OperandAt, OperandValue,
         StrassenF, StrassenLayout, Window;
    var x := BlockAt(s, n, k);
    var y := x + Pow4(n);
    var p := y + Pow4(n);
    var left, right := OperandAt(LeftOf(k), la, x, n), OperandAt(RightOf(k), lb, y, n);
    ScratchIs(n);
    BlockRange(s, n, k);
    BlockFits(la, lb, ld, s, n, |mem|);
    OperandsEffect(fl, la, lb, ld, s, n, k, mem);
    ProductLayout(la, lb, ld, s, n, k, |mem|);
    var mid := Exec(fl, Serial(OperandsTask(la, lb, x, y, n, k)), mem);
    SerialThen(fl, OperandsTask(la, lb, x, y, n, k), StrassenTask(left, right, p, p + Pow4(n), n), mem);
    StrassenEffect(fl, left, right, p, p + Pow4(n), n, mid);
  }

  lemma BlockFits(la: nat, lb: nat, ld: nat, s: nat, n: nat, len: nat)
    requires StrassenLayout(la, lb, ld, s, n + 1, len)
    ensures la + Pow4(n + 1) <= len && lb + Pow4(n + 1) <= len && ld + Pow4(n + 1) <= len && s + StrassenScratch(n + 1) <= len
    ensures Disjoint(s, StrassenScratch(n + 1), la, Pow4(n + 1)) && Disjoint(s, StrassenScratch(n + 1), lb, Pow4(n + 1))
    ensures Disjoint(s, StrassenScratch(n + 1), ld, Pow4(n + 1))
  {
  }

  /** The first `k` tasks of the join ran: their products are in place, the inputs are intact. */
  ghost predicate ProductsDone(fl: Rounding, before: Memory, after: Memory, la: nat, lb: nat, s: nat, n: nat, k: nat)
    requires la + Pow4(n + 1) <= |before| && lb + Pow4(n + 1) <= |before|
  {
    && SameOutside(before, after, s, StrassenScratch(n + 1), 0, 0)
    && forall j: nat | j < k && j < 7 ::
         && ProductAt(s, n, j) + Pow4(n) <= |after|
         && Window(after, ProductAt(s, n, j), Pow4(n))
            == ProductValue(fl, Window(before, la, Pow4(n + 1)), Window(before, lb, Pow4(n + 1)), n, j)
  }

  lemma {:induction false} ProductsEffect(fl: Rounding, la: nat, lb: nat, ld: nat, s: nat, n: nat, k: nat, mem: Memory)
    requires n + 1 > LEAF_DEPTH && k <= 8 && StrassenLayout(la, lb, ld, s, n + 1, |mem|)
    ensures ProductsDone(fl, mem, ExecTasks(fl, Products(la, lb, s, n), k, mem), la, lb, s, n, k)
    decreases n, 3 + k
  {
    hide Pow4, StrassenScratch, Exec, Serial, ProductTask, ProductAt, ProductValue;
    BlockFits(la, lb, ld, s, n, |mem|);
    if k > 0 {
      ProductsEffect(fl, la, lb, ld, s, n, k - 1, mem);
      var mid := ExecTasks(fl, Products(la, lb, s, n), k - 1, mem);
      if k == 8 {
        NothingLeft(fl, mid);
      } else {
        ProductStep(fl, la, lb, ld, s, n, k - 1, mem, mid);
      }
    }
  }

  lemma NothingLeft(fl: Rounding, mem: Memory)
    ensures Exec(fl, Serial(Nop), mem) == mem
  {
  }

  lemma ProductStep(fl: Rounding, la: nat, lb: nat, ld: nat, s: nat, n: nat, k: nat, mem: Memory, mid: Memory)
    requires n + 1 > LEAF_DEPTH && k < 7 && StrassenLayout(la, lb, ld, s, n + 1, |mem|)
    requires la + Pow4(n + 1) <= |mem| && lb + Pow4(n + 1) <= |mem|
    requires ProductsDone(fl, mem, mid, la, lb, s, n, k)
    ensures ProductsDone(fl, mem, Exec(fl, Serial(ProductTask(la, lb, s, n, k)), mid), la, lb, s, n, k + 1)
    decreases n, 2
  {
    hide Pow4, StrassenScratch, BlockSize, Exec, Serial, ProductTask, ProductAt, ProductValue, StrassenLayout, BlockAt;
    BlockFits(la, lb, ld, s, n, |mem|);
    var after := Exec(fl, Serial(ProductTask(la, lb, s, n, k)), mid);
    ProductEffect(fl, la, lb, ld, s, n, k, mid);
    WindowKept(mem, mid, s, StrassenScratch(n + 1), 0, 0, la, Pow4(n + 1));
    WindowKept(mem, mid, s, StrassenScratch(n + 1), 0, 0, lb, Pow4(n + 1));
    BlockRange(s, n, k);
    ScratchIs(n);
    forall j: nat | j < k
      ensures ProductAt(s, n, j) + Pow4(n) <= |after|
      ensures Window(after, ProductAt(s, n, j), Pow4(n)) == Window(mid, ProductAt(s, n, j), Pow4(n))
    {
      BlockRange(s, n, j);
      BlocksApart(s, n, j, k);
      WindowKept(mid, after, BlockAt(s, n, k), BlockSize(n), 0, 0, ProductAt(s, n, j), Pow4(n));
    }
  }

  /** Quarter q of the result, from the products. */
  ghost function CombineValue(fl: Rounding, a: seq<int>, b: seq<int>, n: nat, q: nat): (r: seq<int>)
    requires |a| == |b| == Pow4(n + 1)
    ensures |r| == Pow4(n)
  {
    match q
    case 0 => SumSubF(fl, ProductValue(fl, a, b, n, 0), ProductValue(fl, a, b, n, 3),
                      ProductValue(fl, a, b, n, 6), ProductValue(fl, a, b, n, 4))
    case 1 => ZipAdd(fl, ProductValue(fl, a, b, n, 2), ProductValue(fl, a, b, n, 4))
    case 2 => ZipAdd(fl, ProductValue(fl, a, b, n, 1), ProductValue(fl, a, b, n, 3))
    case _ => SumSubF(fl, ProductValue(fl, a, b, n, 0), ProductValue(fl, a, b, n, 2),
                      ProductValue(fl, a, b, n, 5), ProductValue(fl, a, b, n, 1))
  }

  /** The four quarters together are Strassen's recursion. */
  lemma CombinedIsStrassen(fl: Rounding, a: seq<int>, b: seq<int>, n: nat)
    requires |a| == |b| == Pow4(n + 1) && n + 1 > LEAF_DEPTH
    ensures StrassenF(fl, a, b, n + 1) == CombineValue(fl, a, b, n, 0) + CombineValue(fl, a, b, n, 1)
                                          + CombineValue(fl, a, b, n, 2) + CombineValue(fl, a, b, n, 3)
  {
    hide Pow4, StrassenF, Quarter, ZipAdd, ZipSub, SumSubF;
    StrassenUnfold(fl, a, b, n + 1);
  }

  lemma CombineEffect(fl: Rounding, la: nat, lb: nat, ld: nat, s: nat, n: nat, q: nat, mem: Memory, mid: Memory)
    requires n + 1 > LEAF_DEPTH && q < 4 && la + Pow4(n + 1) <= |mem| && lb + Pow4(n + 1) <= |mem|
    requires ld + Pow4(n + 1) <= |mid| && s + StrassenScratch(n + 1) <= |mid|
    requires Disjoint(s, StrassenScratch(n + 1), ld, Pow4(n + 1))
    requires HoldProducts(fl, mem, mid, la, lb, s, n)
    ensures var after := Exec(fl, Serial(CombineTask(ld, s, n, q)), mid);
            && SameOutside(mid, after, QuarterStart(ld, n, q), Pow4(n), 0, 0)
            && QuarterStart(ld, n, q) + Pow4(n) <= |mid|
            && Window(after, QuarterStart(ld, n, q), Pow4(n))
               == CombineValue(fl, Window(mem, la, Pow4(n + 1)), Window(mem, lb, Pow4(n + 1)), n, q)
  {
    hide Pow4, StrassenScratch, ProductAt, ProductValue, Exec, Serial, Chain, ZipAdd, ZipSub, Window, SameOutside, ChainValue;
    var steps := CombineSteps(s, n, q);
    CombineSources(s, n, q);
    QuarterRange(ld, n, q);
    ChainEffect(fl, QuarterStart(ld, n, q), steps, Pow4(n), mid);
    if |steps| == 2 {
      TwoSteps(fl, mid, QuarterStart(ld, n, q), steps, Pow4(n));
    } else {
      FourSteps(fl, mid, QuarterStart(ld, n, q), steps, Pow4(n));
    }
  }

  /** All seven products are in place. */
  ghost predicate HoldProducts(fl: Rounding, before: Memory, after: Memory, la: nat, lb: nat, s: nat, n: nat)
    requires la + Pow4(n + 1) <= |before| && lb + Pow4(n + 1) <= |before|
  {
    forall j: nat | j < 7 ::
      && ProductAt(s, n, j) + Pow4(n) <= |after|
      && Window(after, ProductAt(s, n, j), Pow4(n))
         == ProductValue(fl, Window(before, la, Pow4(n + 1)), Window(before, lb, Pow4(n + 1)), n, j)
  }

  /** The first `q` quarters of the destination are combined. */
  ghost predicate CombinesDone(fl: Rounding, before: Memory, mid: Memory, after: Memory, la: nat, lb: nat, ld: nat, s: nat, n: nat, q: nat)
    requires la + Pow4(n + 1) <= |before| && lb + Pow4(n + 1) <= |before|
  {
    && SameOutside(mid, after, ld, Pow4(n + 1), 0, 0)
    && forall j: nat | j < q && j < 4 ::
         && QuarterStart(ld, n, j) + Pow4(n) <= |after|
         && Window(after, QuarterStart(ld, n, j), Pow4(n))
            == CombineValue(fl, Window(before, la, Pow4(n + 1)), Window(before, lb, Pow4(n + 1)), n, j)
  }

  lemma {:induction false} CombinesEffect(fl: Rounding, la: nat, lb: nat, ld: nat, s: nat, n: nat, q: nat, mem: Memory, mid: Memory)
    requires n + 1 > LEAF_DEPTH && q <= 4 && la + Pow4(n + 1) <= |mem| && lb + Pow4(n + 1) <= |mem|
    requires ld + Pow4(n + 1) <= |mid| && s + StrassenScratch(n + 1) <= |mid|
    requires Disjoint(s, StrassenScratch(n + 1), ld, Pow4(n + 1))
    requires HoldProducts(fl, mem, mid, la, lb, s, n)
    ensures CombinesDone(fl, mem, mid, ExecTasks(fl, Combines(ld, s, n), q, mid), la, lb, ld, s, n, q)
    decreases q
  {
    hide Pow4, StrassenScratch, Exec, Serial, CombineTask, CombineValue, HoldProducts;
    if q > 0 {
      CombinesEffect(fl, la, lb, ld, s, n, q - 1, mem, mid);
      CombineStep(fl, la, lb, ld, s, n, q - 1, mem, mid, ExecTasks(fl, Combines(ld, s, n), q - 1, mid));
    }
  }

  lemma ProductsKept(fl: Rounding, la: nat, lb: nat, ld: nat, s: nat, n: nat, mem: Memory, mid: Memory, now: Memory)
    requires n + 1 > LEAF_DEPTH && la + Pow4(n + 1) <= |mem| && lb + Pow4(n + 1) <= |mem|
    requires s + StrassenScratch(n + 1) <= |mid| && Disjoint(s, StrassenScratch(n + 1), ld, Pow4(n + 1))
    requires HoldProducts(fl, mem, mid, la, lb, s, n) && SameOutside(mid, now, ld, Pow4(n + 1), 0, 0)
    ensures HoldProducts(fl, mem, now, la, lb, s, n)
  {
    hide Pow4, StrassenScratch, BlockSize, BlockAt, ProductAt, ProductValue, Window, SameOutside;
    assert |now| == |mid| by { SameLength(mid, now, ld, Pow4(n + 1)); }
    ScratchIs(n);
    forall j: nat | j < 7
      ensures ProductAt(s, n, j) + Pow4(n) <= |now|
      ensures Window(now, ProductAt(s, n, j), Pow4(n)) == Window(mid, ProductAt(s, n, j), Pow4(n))
    {
      BlockRange(s, n, j);
      WindowKept(mid, now, ld, Pow4(n + 1), 0, 0, ProductAt(s, n, j), Pow4(n));
    }
  }

  lemma SameLength(before: Memory, after: Memory, x: nat, n: nat)
    requires SameOutside(before, after, x, n, 0, 0)
    ensures |after| == |before|
  {
  }

  lemma CombineStep(fl: Rounding, la: nat, lb: nat, ld: nat, s: nat, n: nat, q: nat, mem: Memory, mid: Memory, now: Memory)
    requires n + 1 > LEAF_DEPTH && q < 4 && la + Pow4(n + 1) <= |mem| && lb + Pow4(n + 1) <= |mem|
    requires ld + Pow4(n + 1) <= |mid| && s + StrassenScratch(n + 1) <= |mid|
    requires Disjoint(s, StrassenScratch(n + 1), ld, Pow4(n + 1))
    requires HoldProducts(fl, mem, mid, la, lb, s, n) && CombinesDone(fl, mem, mid, now, la, lb, ld, s, n, q)
    ensures CombinesDone(fl, mem, mid, Exec(fl, Serial(CombineTask(ld, s, n, q)), now), la, lb, ld, s, n, q + 1)
  {
    hide Pow4, StrassenScratch, Exec, Serial, CombineTask, CombineValue, HoldProducts;
    ProductsKept(fl, la, lb, ld, s, n, mem, mid, now);
    CombineEffect(fl, la, lb, ld, s, n, q, mem, now);
    QuarterRange(ld, n, q);
    var after := Exec(fl, Serial(CombineTask(ld, s, n, q)), now);
    forall j: nat | j < q
      ensures QuarterStart(ld, n, j) + Pow4(n) <= |after|
      ensures Window(after, QuarterStart(ld, n, j), Pow4(n)) == Window(now, QuarterStart(ld, n, j), Pow4(n))
    {
      StepApart(j, q, Pow4(n));
      WindowKept(now, after, QuarterStart(ld, n, q), Pow4(n), 0, 0, QuarterStart(ld, n, j), Pow4(n));
    }
  }

  lemma SerialJoin4(fl: int -> int, ts: seq<Task>, mem: Memory)
    requires |ts| == 4
    ensures Exec(fl, Serial(Join4(ts)), mem) == ExecTasks(fl, ts, 4, mem)
  {
    hide Exec, Serial, ExecTasks;
    PairSteps(fl, ts, 0, mem);
    PairSteps(fl, ts, 2, mem);
    ExecNone(fl, ts, mem);
    SerialPar(fl, Par(ts[0], ts[1]), Par(ts[2], ts[3]), mem);
  }

  lemma ChangesCompose(before: Memory, mid: Memory, after: Memory, s: nat, w: nat, d: nat, n: nat)
    requires SameOutside(before, mid, s, w, 0, 0) && SameOutside(mid, after, d, n, 0, 0)
    ensures SameOutside(before, after, d, n, s, w)
  {
  }

  lemma CombinesAre(fl: Rounding, la: nat, lb: nat, ld: nat, s: nat, n: nat, mem: Memory, mid: Memory, after: Memory)
    requires n + 1 > LEAF_DEPTH && la + Pow4(n + 1) <= |mem| && lb + Pow4(n + 1) <= |mem| && ld + Pow4(n + 1) <= |after|
    requires CombinesDone(fl, mem, mid, after, la, lb, ld, s, n, 4)
    ensures Window(after, ld, Pow4(n + 1))
         == StrassenF(fl, Window(mem, la, Pow4(n + 1)), Window(mem, lb, Pow4(n + 1)), n + 1)
  {
    hide Pow4, CombineValue, StrassenF, Window, SameOutside;
    FourTargets(after, ld, n);
    assert QuarterStart(ld, n, 0) == ld + 0 * Pow4(n) && QuarterStart(ld, n, 1) == ld + 1 * Pow4(n);
    assert QuarterStart(ld, n, 2) == ld + 2 * Pow4(n) && QuarterStart(ld, n, 3) == ld + 3 * Pow4(n);
    CombinedIsStrassen(fl, Window(mem, la, Pow4(n + 1)), Window(mem, lb, Pow4(n + 1)), n);
  }

  lemma DoneHolds(fl: Rounding, la: nat, lb: nat, s: nat, n: nat, mem: Memory, mid: Memory)
    requires la + Pow4(n + 1) <= |mem| && lb + Pow4(n + 1) <= |mem|
    requires ProductsDone(fl, mem, mid, la, lb, s, n, 8)
    ensures |mid| == |mem| && SameOutside(mem, mid, s, StrassenScratch(n + 1), 0, 0)
    ensures HoldProducts(fl, mem, mid, la, lb, s, n)
  {
    hide Pow4, StrassenScratch, ProductAt, ProductValue, Window;
  }

  lemma ComputesIf(fl: Rounding, before: Memory, after: Memory, la: nat, lb: nat, ld: nat, s: nat, m: nat)
    requires StrassenLayout(la, lb, ld, s, m, |before|)
    requires la + Pow4(m) <= |before| && lb + Pow4(m) <= |before| && ld + Pow4(m) <= |after|
    requires SameOutside(before, after, ld, Pow4(m), s, StrassenScratch(m))
    requires Window(after, ld, Pow4(m)) == StrassenF(fl, Window(before, la, Pow4(m)), Window(before, lb, Pow4(m)), m)
    ensures Computes(fl, before, after, la, lb, ld, s, m)
  {
    hide Pow4, StrassenScratch, StrassenF, Window, SameOutside, StrassenLayout;
  }

  lemma {:induction false} JoinEffect(fl: Rounding, la: nat, lb: nat, ld: nat, s: nat, n: nat, mem: Memory, mid: Memory)
    requires n + 1 > LEAF_DEPTH && StrassenLayout(la, lb, ld, s, n + 1, |mem|)
    requires la + Pow4(n + 1) <= |mem| && lb + Pow4(n + 1) <= |mem|
    requires ProductsDone(fl, mem, mid, la, lb, s, n, 8)
    ensures Computes(fl, mem, Exec(fl, Serial(Join4(Combines(ld, s, n))), mid), la, lb, ld, s, n + 1)
  {
    hide *;
    var after := Exec(fl, Serial(Join4(Combines(ld, s, n))), mid);
    BlockFits(la, lb, ld, s, n, |mem|);
    DoneHolds(fl, la, lb, s, n, mem, mid);
    SerialJoin4(fl, Combines(ld, s, n), mid);
    CombinesEffect(fl, la, lb, ld, s, n, 4, mem, mid);
    CombinesAre(fl, la, lb, ld, s, n, mem, mid, after);
    CombinesKeep(fl, la, lb, ld, s, n, mem, mid, after);
    ChangesCompose(mem, mid, after, s, StrassenScratch(n + 1), ld, Pow4(n + 1));
    ComputesIf(fl, mem, after, la, lb, ld, s, n + 1);
  }

  lemma CombinesKeep(fl: Rounding, la: nat, lb: nat, ld: nat, s: nat, n: nat, mem: Memory, mid: Memory, after: Memory)
    requires la + Pow4(n + 1) <= |mem| && lb + Pow4(n + 1) <= |mem|
    requires CombinesDone(fl, mem, mid, after, la, lb, ld, s, n, 4)
    ensures SameOutside(mid, after, ld, Pow4(n + 1), 0, 0)
  {
    hide SameOutside;
  }

  lemma {:induction false} StrassenEffect(fl: Rounding, la: nat, lb: nat, ld: nat, s: nat, m: nat, mem: Memory)
    requires StrassenLayout(la, lb, ld, s, m, |mem|)
    ensures Computes(fl, mem, Exec(fl, Serial(StrassenTask(la, lb, ld, s, m)), mem), la, lb, ld, s, m)
    decreases m, 0
  {
    hide Pow4, Exec, Serial, Join8, Join4, Products, Combines;
    if m <= LEAF_DEPTH {
      LeafComputes(fl, la, lb, ld, s, m, mem);
    } else {
      hide Computes, StrassenLayout;
      var n := m - 1;
      var ts := Products(la, lb, s, n);
      var mid := ExecTasks(fl, ts, 8, mem);
      BlockFits(la, lb, ld, s, n, |mem|);
      SerialThen(fl, Join8(ts), Join4(Combines(ld, s, n)), mem);
      SerialJoin8(fl, ts, mem);
      ProductsEffect(fl, la, lb, ld, s, n, 8, mem);
      JoinEffect(fl, la, lb, ld, s, n, mem, mid);
    }
  }

  lemma LeafComputes(fl: Rounding, la: nat, lb: nat, ld: nat, s: nat, m: nat, mem: Memory)
    requires m <= LEAF_DEPTH && StrassenLayout(la, lb, ld, s, m, |mem|)
    ensures Computes(fl, mem, Exec(fl, Serial(StrassenTask(la, lb, ld, s, m)), mem), la, lb, ld, s, m)
  {
    hide Pow4, Exec, Serial, MulTask, StrassenF, MatMulZF, SeqMulZF;
    LeafEffect(fl, la, lb, ld, s, m, mem);
    StrassenUnfold(fl, Window(mem, la, Pow4(m)), Window(mem, lb, Pow4(m)), m);
    MatMulZUnfold(fl, Window(mem, la, Pow4(m)), Window(mem, lb, Pow4(m)), m);
  }

  // ---------- every schedule ----------

  /** Whatever the order and interleaving of the forked tasks at every level of the recursion,
      of the operand sums and of the four combinations, and whatever the buffers held before,
      Strassen's multiply leaves the serial result and changes only destination and scratch. */
  lemma EveryStrassenSchedule(fl: Rounding, la: nat, lb: nat, ld: nat, s: nat, m: nat, mem: Memory, ops: seq<Op>)
    requires StrassenLayout(la, lb, ld, s, m, |mem|)
    requires Schedule(StrassenTask(la, lb, ld, s, m), ops)
    ensures Computes(fl, mem, Exec(fl, ops, mem), la, lb, ld, s, m)
  {
    hide *;
    StrassenRaceFree(la, lb, ld, s, m, |mem|);
    Deterministic(fl, StrassenTask(la, lb, ld, s, m), ops, mem);
    StrassenEffect(fl, la, lb, ld, s, m, mem);
  }
}
