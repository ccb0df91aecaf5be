/** The eight-way multiply as a fork-join computation on one memory: inputs,
    destination and the scratch buffers of all recursive calls. */
module ParallelMatMul {
  import opened Arithmetic
  import opened Bits
  import opened ForkJoin
  import opened MatMul
  import opened Rounded
  import opened ZMatrix

  predicate In(x: int, lo: nat, n: nat) { lo <= x < lo + n }

  function Window(mem: Memory, lo: nat, n: nat): (w: seq<int>)
    requires lo + n <= |mem|
    ensures |w| == n
  {
    mem[lo..lo + n]
  }

  // ---------- the tasks ----------

  /** The sum a leaf stores for output index `ij`. */
  function DotExpr(la: nat, lb: nat, ij: nat, n: nat): Expr {
    if n == 0 then Zero
    else
      var k := Spread(n - 1);
      Plus(DotExpr(la, lb, ij, n - 1),
           Times(Load(la + BitOr(BitAnd(ij, ODD_MASK), k)), Load(lb + BitOr(2 * k, BitAnd(ij, EVEN_MASK)))))
  }

  function ZeroTask(ld: nat, n: nat): Task {
    if n == 0 then Nop else Then(ZeroTask(ld, n - 1), Do(Op(ld + n - 1, Zero)))
  }

  function EntriesTask(la: nat, lb: nat, ld: nat, m: nat, n: nat): Task {
    if n == 0 then Nop
    else Then(EntriesTask(la, lb, ld, m, n - 1), Do(Op(ld + n - 1, DotExpr(la, lb, n - 1, Pow2(m)))))
  }

  datatype Kind = Assign | Increase | Decrease

  function NewValue(kind: Kind, x: nat, y: nat): Expr {
    match kind
    case Assign => Load(y)
    case Increase => Plus(Load(x), Load(y))
    case Decrease => Minus(Load(x), Load(y))
  }

  /** `dest = src`, `dest += src` or `dest -= src`, all elements at once. */
  function ElementTask(kind: Kind, ld: nat, lt: nat, n: nat): Task {
    if n == 0 then Nop
    else Par(ElementTask(kind, ld, lt, n - 1), Do(Op(ld + n - 1, NewValue(kind, ld + n - 1, lt + n - 1))))
  }

  /** What that leaves of an element `d` and its source `e`. */
  function ElementValue(fl: Rounding, kind: Kind, d: int, e: int): int {
    match kind
    case Assign => e
    case Increase => fl(d + e)
    case Decrease => fl(d - e)
  }

  /** Scratch cells used by a call and everything it calls. */
  function ScratchSize(m: nat): nat {
    if m <= LEAF_DEPTH then 0 else Pow4(m) + 8 * ScratchSize(m - 1)
  }

  /** Quarters multiplied by child `k`, in the order the tasks are forked. */
  function AQuarter(k: nat): (q: nat) ensures q < 4 { if k < 2 then 0 else if k < 4 then 2 else if k < 6 then 1 else 3 }

  function BQuarter(k: nat): (q: nat) ensures q < 4 { if k < 4 then k % 2 else 2 + k % 2 }

  function QuarterStart(lo: nat, n: nat, q: nat): nat { lo + q * Pow4(n) }

  /** Where child `k` writes: a quarter of the destination, then of the scratch buffer. */
  function Target(ld: nat, s: nat, n: nat, k: nat): nat {
    var (base, quarter: nat) := if k < 4 then (ld, k) else (s, k - 4);
    base + quarter * Pow4(n)
  }

  function ChildScratch(s: nat, n: nat, k: nat): nat { s + Pow4(n + 1) + k * ScratchSize(n) }

  function MulTask(la: nat, lb: nat, ld: nat, s: nat, m: nat): Task
    decreases m, 0
  {
    if m <= LEAF_DEPTH then Then(ZeroTask(ld, Pow4(m)), EntriesTask(la, lb, ld, m, Pow4(m)))
    else Then(Join8(Children(la, lb, ld, s, m - 1)), ElementTask(Increase, ld, s, Pow4(m)))
  }

  function Children(la: nat, lb: nat, ld: nat, s: nat, n: nat): (ts: seq<Task>)
    ensures |ts| == 8
    decreases n, 2
  {
    seq(8, k requires 0 <= k < 8 => Child(la, lb, ld, s, n, k))
  }

  function Child(la: nat, lb: nat, ld: nat, s: nat, n: nat, k: nat): Task
    decreases n, 1
  {
    MulTask(QuarterStart(la, n, AQuarter(k)), QuarterStart(lb, n, BQuarter(k)), Target(ld, s, n, k), ChildScratch(s, n, k), n)
  }

  // ---------- footprints ----------

  lemma {:induction false} DotExprLoads(la: nat, lb: nat, ij: nat, n: nat, m: nat)
    requires m <= MASK_DIGITS && ij < Pow4(m) && n <= Pow2(m)
    ensures forall x :: x in Loads(DotExpr(la, lb, ij, n)) ==> In(x, la, Pow4(m)) || In(x, lb, Pow4(m))
  {
    hide Pow2, Pow4, BitOr, BitAnd, Spread;
    if n > 0 {
      DotExprLoads(la, lb, ij, n - 1, m);
      UncheckedReads(ij, n - 1, m);
      var k := Spread(n - 1);
      LoadsOfTerm(DotExpr(la, lb, ij, n - 1), la + BitOr(BitAnd(ij, ODD_MASK), k), lb + BitOr(2 * k, BitAnd(ij, EVEN_MASK)));
    }
  }

  lemma {:induction false} LeafFootprint(la: nat, lb: nat, ld: nat, m: nat, n: nat)
    requires m <= MASK_DIGITS && n <= Pow4(m)
    ensures forall x :: x in Writes(ZeroTask(ld, n)) ==> In(x, ld, n)
    ensures Reads(ZeroTask(ld, n)) == {}
    ensures forall x :: x in Writes(EntriesTask(la, lb, ld, m, n)) ==> In(x, ld, n)
    ensures forall x :: x in Reads(EntriesTask(la, lb, ld, m, n)) ==> In(x, la, Pow4(m)) || In(x, lb, Pow4(m))
    ensures RaceFree(ZeroTask(ld, n)) && RaceFree(EntriesTask(la, lb, ld, m, n))
  {
    hide Pow2, Pow4, DotExpr;
    if n > 0 {
      LeafFootprint(la, lb, ld, m, n - 1);
      DotExprLoads(la, lb, n - 1, Pow2(m), m);
    }
  }

  lemma LoadsOfNewValue(kind: Kind, x: nat, y: nat)
    ensures Loads(NewValue(kind, x, y)) == if kind.Assign? then {y} else {x, y}
  {
    assert Loads(Load(x)) == {x} && Loads(Load(y)) == {y};
  }

  lemma {:induction false} ElementFootprint(kind: Kind, ld: nat, lt: nat, n: nat, size: nat)
    requires n <= size
    requires ld + size <= lt || lt + size <= ld
    ensures forall x :: x in Writes(ElementTask(kind, ld, lt, n)) ==> In(x, ld, n)
    ensures forall x :: x in Reads(ElementTask(kind, ld, lt, n)) ==> In(x, ld, n) || In(x, lt, n)
    ensures RaceFree(ElementTask(kind, ld, lt, n))
  {
    if n > 0 {
      ElementFootprint(kind, ld, lt, n - 1, size);
      LoadsOfNewValue(kind, ld + n - 1, lt + n - 1);
    }
  }

  /** Inputs may overlap each other; destination and scratch overlap nothing. */
  predicate Layout(la: nat, lb: nat, ld: nat, s: nat, m: nat, len: nat) {
    var n, w := Pow4(m), ScratchSize(m);
    && la + n <= len && lb + n <= len && ld + n <= len && s + w <= len
    && Disjoint(ld, n, la, n) && Disjoint(ld, n, lb, n)
    && Disjoint(s, w, la, n) && Disjoint(s, w, lb, n) && Disjoint(s, w, ld, n)
  }

  predicate Disjoint(x: nat, n: nat, y: nat, k: nat) { x + n <= y || y + k <= x }

  /** The cells child `k` may write. */
  predicate Cell(ld: nat, s: nat, n: nat, k: nat, x: int) {
    In(x, Target(ld, s, n, k), Pow4(n)) || In(x, ChildScratch(s, n, k), ScratchSize(n))
  }

  lemma ScratchStep(n: nat)
    requires n + 1 > LEAF_DEPTH
    ensures ScratchSize(n + 1) == Pow4(n + 1) + 8 * ScratchSize(n) && Pow4(n + 1) == 4 * Pow4(n)
  {
  }

  lemma TargetRange(ld: nat, s: nat, n: nat, k: nat)
    requires k < 8
    ensures k < 4 ==> ld <= Target(ld, s, n, k) && Target(ld, s, n, k) + Pow4(n) <= ld + Pow4(n + 1)
    ensures k >= 4 ==> s <= Target(ld, s, n, k) && Target(ld, s, n, k) + Pow4(n) <= s + Pow4(n + 1)
  {
    PowStep(n + 1);
    hide Pow4;
    MulMonotone(if k < 4 then k else k - 4, 3, Pow4(n));
  }

  lemma ScratchRange(s: nat, n: nat, k: nat)
    requires k < 8 && n + 1 > LEAF_DEPTH
    ensures s + Pow4(n + 1) <= ChildScratch(s, n, k)
    ensures ChildScratch(s, n, k) + ScratchSize(n) <= s + ScratchSize(n + 1)
  {
    ScratchStep(n);
    hide Pow4, ScratchSize;
    MulMonotone(k, 7, ScratchSize(n));
  }

  lemma QuarterRange(lo: nat, n: nat, q: nat)
    requires q < 4
    ensures lo <= lo + q * Pow4(n) && lo + q * Pow4(n) + Pow4(n) <= lo + Pow4(n + 1)
  {
    PowStep(n + 1);
    hide Pow4;
    MulMonotone(q, 3, Pow4(n));
  }

  lemma CellsDisjoint(ld: nat, s: nat, n: nat, j: nat, k: nat)
    requires j < k < 8 && n + 1 > LEAF_DEPTH
    requires Disjoint(s, ScratchSize(n + 1), ld, Pow4(n + 1))
    ensures Disjoint(Target(ld, s, n, j), Pow4(n), Target(ld, s, n, k), Pow4(n))
    ensures Disjoint(Target(ld, s, n, j), Pow4(n), ChildScratch(s, n, k), ScratchSize(n))
    ensures Disjoint(ChildScratch(s, n, j), ScratchSize(n), Target(ld, s, n, k), Pow4(n))
    ensures Disjoint(ChildScratch(s, n, j), ScratchSize(n), ChildScratch(s, n, k), ScratchSize(n))
  {
    TargetRange(ld, s, n, j);
    TargetRange(ld, s, n, k);
    ScratchRange(s, n, j);
    ScratchRange(s, n, k);
    ScratchStep(n);
    hide Pow4, ScratchSize;
    StepApart(j, k, Pow4(n));
    StepApart(j, k, ScratchSize(n));
    if j >= 4 {
      StepApart(j - 4, k - 4, Pow4(n));
    }
  }

  lemma StepApart(j: nat, k: nat, p: nat)
    requires j < k
    ensures j * p + p <= k * p
  {
    MulMonotone(j + 1, k, p);
    assert (j + 1) * p == j * p + p;
  }

  /** A child's memory layout is sound when its parent's is. */
  lemma ChildLayout(la: nat, lb: nat, ld: nat, s: nat, n: nat, k: nat, len: nat)
    requires k < 8 && n + 1 > LEAF_DEPTH && Layout(la, lb, ld, s, n + 1, len)
    ensures Layout(QuarterStart(la, n, AQuarter(k)), QuarterStart(lb, n, BQuarter(k)), Target(ld, s, n, k), ChildScratch(s, n, k), n, len)
  {
    hide Pow4, ScratchSize, Target, ChildScratch;
    TargetRange(ld, s, n, k);
    ScratchRange(s, n, k);
    ScratchStep(n);
    QuarterRange(la, n, AQuarter(k));
    QuarterRange(lb, n, BQuarter(k));
  }

  /** A task writes only its destination and scratch, and reads only those and the inputs. */
  ghost predicate StaysWithin(t: Task, la: nat, lb: nat, ld: nat, s: nat, m: nat) {
    && (forall x :: x in Writes(t) ==> In(x, ld, Pow4(m)) || In(x, s, ScratchSize(m)))
    && (forall x :: x in Reads(t) ==>
          In(x, la, Pow4(m)) || In(x, lb, Pow4(m)) || In(x, ld, Pow4(m)) || In(x, s, ScratchSize(m)))
  }

  lemma {:induction false} MulFootprint(la: nat, lb: nat, ld: nat, s: nat, m: nat)
    ensures StaysWithin(MulTask(la, lb, ld, s, m), la, lb, ld, s, m)
    decreases m, 0
  {
    hide Pow4, ScratchSize, ElementTask, ZeroTask, EntriesTask, Children, Join8;
    if m <= LEAF_DEPTH {
      LeafFootprint(la, lb, ld, m, Pow4(m));
    } else {
      var n := m - 1;
      var ts, sum := Children(la, lb, ld, s, n), ElementTask(Increase, ld, s, Pow4(m));
      forall k | 0 <= k < 8
        ensures StaysWithin(ts[k], la, lb, ld, s, m)
      {
        ChildFootprint(la, lb, ld, s, n, k);
      }
      Join8Within(ts, la, lb, ld, s, m);
      ElementWithin(Increase, ld, s, Pow4(m), Pow4(m));
      ScratchStep(n);
      assert MulTask(la, lb, ld, s, m) == Then(Join8(ts), sum);
    }
  }

  lemma Join8Within(ts: seq<Task>, la: nat, lb: nat, ld: nat, s: nat, m: nat)
    requires |ts| == 8 && forall k :: 0 <= k < 8 ==> StaysWithin(ts[k], la, lb, ld, s, m)
    ensures StaysWithin(Join8(ts), la, lb, ld, s, m)
  {
    hide Pow4, ScratchSize, Join8, Writes, Reads, In;
    Join8Footprint(ts);
    forall x | x in Writes(Join8(ts))
      ensures In(x, ld, Pow4(m)) || In(x, s, ScratchSize(m))
    {
      var k :| 0 <= k < 8 && x in Writes(ts[k]);
      assert StaysWithin(ts[k], la, lb, ld, s, m);
    }
    forall x | x in Reads(Join8(ts))
      ensures In(x, la, Pow4(m)) || In(x, lb, Pow4(m)) || In(x, ld, Pow4(m)) || In(x, s, ScratchSize(m))
    {
      var k :| 0 <= k < 8 && x in Reads(ts[k]);
      assert StaysWithin(ts[k], la, lb, ld, s, m);
    }
  }

  lemma {:induction false} ElementWithin(kind: Kind, ld: nat, lt: nat, n: nat, size: nat)
    requires n <= size
    ensures forall x :: x in Writes(ElementTask(kind, ld, lt, n)) ==> In(x, ld, size)
    ensures forall x :: x in Reads(ElementTask(kind, ld, lt, n)) ==> In(x, ld, size) || In(x, lt, size)
  {
    if n > 0 {
      ElementWithin(kind, ld, lt, n - 1, size);
      LoadsOfNewValue(kind, ld + n - 1, lt + n - 1);
    }
  }

  lemma ChildFootprint(la: nat, lb: nat, ld: nat, s: nat, n: nat, k: nat)
    requires k < 8 && n + 1 > LEAF_DEPTH
    ensures Children(la, lb, ld, s, n)[k] == Child(la, lb, ld, s, n, k)
    ensures forall x :: x in Writes(Child(la, lb, ld, s, n, k)) ==> Cell(ld, s, n, k, x)
    ensures forall x :: x in Reads(Child(la, lb, ld, s, n, k)) ==>
              In(x, la, Pow4(n + 1)) || In(x, lb, Pow4(n + 1)) || Cell(ld, s, n, k, x)
    ensures StaysWithin(Child(la, lb, ld, s, n, k), la, lb, ld, s, n + 1)
    decreases n, 1
  {
    hide Pow4, ScratchSize, Target, ChildScratch, MulTask;
    MulFootprint(QuarterStart(la, n, AQuarter(k)), QuarterStart(lb, n, BQuarter(k)), Target(ld, s, n, k), ChildScratch(s, n, k), n);
    TargetRange(ld, s, n, k);
    ScratchRange(s, n, k);
    ScratchStep(n);
    QuarterRange(la, n, AQuarter(k));
    QuarterRange(lb, n, BQuarter(k));
  }

  // ---------- no races ----------

  /** The child owning cell `x`, looking from child `k` on; -1 if none. */
  function OwnerFrom(ld: nat, s: nat, n: nat, x: int, k: nat): int
    decreases 8 - k
  {
    if k >= 8 then -1 else if Cell(ld, s, n, k, x) then k else OwnerFrom(ld, s, n, x, k + 1)
  }

  lemma {:induction false} OwnerOfCell(ld: nat, s: nat, n: nat, x: int, k: nat, j: nat)
    requires j <= k < 8 && n + 1 > LEAF_DEPTH
    requires Disjoint(s, ScratchSize(n + 1), ld, Pow4(n + 1)) && Cell(ld, s, n, k, x)
    ensures OwnerFrom(ld, s, n, x, j) == k
    decreases k - j
  {
    hide Pow4, ScratchSize, Target, ChildScratch;
    if j < k {
      CellsDisjoint(ld, s, n, j, k);
      OwnerOfCell(ld, s, n, x, k, j + 1);
    }
  }

  lemma {:induction false} InputsUnowned(la: nat, lb: nat, ld: nat, s: nat, n: nat, len: nat, x: int, j: nat)
    requires j <= 8 && n + 1 > LEAF_DEPTH && Layout(la, lb, ld, s, n + 1, len)
    requires In(x, la, Pow4(n + 1)) || In(x, lb, Pow4(n + 1))
    ensures OwnerFrom(ld, s, n, x, j) == -1
    decreases 8 - j
  {
    hide Pow4, ScratchSize, Target, ChildScratch;
    if j < 8 {
      TargetRange(ld, s, n, j);
      ScratchRange(s, n, j);
      ScratchStep(n);
      InputsUnowned(la, lb, ld, s, n, len, x, j + 1);
    }
  }

  lemma ChildOwned(la: nat, lb: nat, ld: nat, s: nat, n: nat, len: nat, k: nat)
    requires k < 8 && n + 1 > LEAF_DEPTH && Layout(la, lb, ld, s, n + 1, len)
    ensures forall x :: x in Writes(Child(la, lb, ld, s, n, k)) ==> OwnerFrom(ld, s, n, x, 0) == k
    ensures forall x :: x in Reads(Child(la, lb, ld, s, n, k)) ==>
              OwnerFrom(ld, s, n, x, 0) == k || OwnerFrom(ld, s, n, x, 0) == -1
  {
    hide Pow4, ScratchSize, Cell, OwnerFrom, Child, Writes, Reads;
    ChildFootprint(la, lb, ld, s, n, k);
    var t := Child(la, lb, ld, s, n, k);
    forall x | x in Writes(t) || (x in Reads(t) && Cell(ld, s, n, k, x))
      ensures OwnerFrom(ld, s, n, x, 0) == k
    {
      OwnerOfCell(ld, s, n, x, k, 0);
    }
    forall x | x in Reads(t) && !Cell(ld, s, n, k, x)
      ensures OwnerFrom(ld, s, n, x, 0) == -1
    {
      InputsUnowned(la, lb, ld, s, n, len, x, 0);
    }
  }

  /** At every level of the recursion the eight tasks, and the elements of the final
      sum, write disjoint cells and read nothing another one writes. */
  lemma {:induction false} MulRaceFree(la: nat, lb: nat, ld: nat, s: nat, m: nat, len: nat)
    requires Layout(la, lb, ld, s, m, len)
    ensures RaceFree(MulTask(la, lb, ld, s, m))
    decreases m, 0
  {
    hide Pow4, ScratchSize, ElementTask, ZeroTask, EntriesTask, Children, Join8;
    if m <= LEAF_DEPTH {
      LeafFootprint(la, lb, ld, m, Pow4(m));
    } else {
      ChildrenRaceFree(la, lb, ld, s, m - 1, len);
      ScratchStep(m - 1);
      ElementFootprint(Increase, ld, s, Pow4(m), Pow4(m));
    }
  }

  lemma ChildrenRaceFree(la: nat, lb: nat, ld: nat, s: nat, n: nat, len: nat)
    requires n + 1 > LEAF_DEPTH && Layout(la, lb, ld, s, n + 1, len)
    ensures RaceFree(Join8(Children(la, lb, ld, s, n)))
    decreases n, 2
  {
    hide Pow4, ScratchSize, Children, Child, OwnerFrom, Layout, Join8, RaceFree, Writes, Reads;
    var ts := Children(la, lb, ld, s, n);
    var owner := (x: nat) => OwnerFrom(ld, s, n, x, 0);
    forall k | 0 <= k < 8
      ensures RaceFree(ts[k])
      ensures forall x :: x in Writes(ts[k]) ==> owner(x) == k
      ensures forall x :: x in Reads(ts[k]) ==> owner(x) == k || owner(x) == -1
    {
      ChildFootprint(la, lb, ld, s, n, k);
      ChildOwned(la, lb, ld, s, n, len, k);
      ChildRaceFree(la, lb, ld, s, n, len, k);
    }
    Join8RaceFree(ts, owner);
  }

  lemma ChildRaceFree(la: nat, lb: nat, ld: nat, s: nat, n: nat, len: nat, k: nat)
    requires k < 8 && n + 1 > LEAF_DEPTH && Layout(la, lb, ld, s, n + 1, len)
    ensures RaceFree(Child(la, lb, ld, s, n, k))
    decreases n, 1
  {
    hide Pow4, ScratchSize, MulTask, RaceFree, Layout;
    ChildLayout(la, lb, ld, s, n, k, len);
    MulRaceFree(QuarterStart(la, n, AQuarter(k)), QuarterStart(lb, n, BQuarter(k)), Target(ld, s, n, k), ChildScratch(s, n, k), n, len);
  }

  // ---------- what the serial schedule computes ----------

  /** Nothing changed outside two ranges. */
  ghost predicate SameOutside(before: Memory, after: Memory, x: nat, n: nat, y: nat, k: nat) {
    && |after| == |before|
    && forall i :: 0 <= i < |before| && !In(i, x, n) && !In(i, y, k) ==> after[i] == before[i]
  }

  lemma WindowKept(before: Memory, after: Memory, x: nat, n: nat, y: nat, k: nat, lo: nat, size: nat)
    requires SameOutside(before, after, x, n, y, k) && lo + size <= |before|
    requires Disjoint(x, n, lo, size) && Disjoint(y, k, lo, size)
    ensures Window(after, lo, size) == Window(before, lo, size)
  {
  }

  lemma {:induction false} DotExprValue(fl: Rounding, la: nat, lb: nat, ij: nat, n: nat, m: nat, mem: Memory)
    requires m <= MASK_DIGITS && ij < Pow4(m) && n <= Pow2(m) && la + Pow4(m) <= |mem| && lb + Pow4(m) <= |mem|
    ensures Eval(fl, DotExpr(la, lb, ij, n), mem)
         == DotF(fl, Window(mem, la, Pow4(m)), Window(mem, lb, Pow4(m)), Row(ij), Col(ij), n)
  {
    hide Pow2, Pow4, BitOr, BitAnd, Spread, Row, Col, Elem;
    if n > 0 {
      DotExprValue(fl, la, lb, ij, n - 1, m, mem);
      var a, b := Window(mem, la, Pow4(m)), Window(mem, lb, Pow4(m));
      LeafStep(fl, a, b, ij, n - 1, m);
      var k := Spread(n - 1);
      TermValue(fl, DotExpr(la, lb, ij, n - 1), la + BitOr(BitAnd(ij, ODD_MASK), k), lb + BitOr(2 * k, BitAnd(ij, EVEN_MASK)), mem);
    }
  }

  lemma TermValue(fl: Rounding, e: Expr, x: nat, y: nat, mem: Memory)
    requires x < |mem| && y < |mem|
    ensures Eval(fl, Plus(e, Times(Load(x), Load(y))), mem) == fl(Eval(fl, e, mem) + fl(mem[x] * mem[y]))
  {
    assert Eval(fl, Load(x), mem) == mem[x] && Eval(fl, Load(y), mem) == mem[y];
    assert Eval(fl, Times(Load(x), Load(y)), mem) == fl(mem[x] * mem[y]);
  }

  lemma NewValueIs(fl: Rounding, kind: Kind, x: nat, y: nat, mem: Memory)
    requires x < |mem| && y < |mem|
    ensures Eval(fl, NewValue(kind, x, y), mem) == ElementValue(fl, kind, mem[x], mem[y])
  {
    assert Eval(fl, Load(x), mem) == mem[x] && Eval(fl, Load(y), mem) == mem[y];
  }

  lemma NoElements(fl: Rounding, kind: Kind, la: nat, lb: nat, n: nat, mem: Memory)
    requires n == 0
    ensures Exec(fl, Serial(ElementTask(kind, la, lb, n)), mem) == mem
  {
  }

  lemma ExecOne(fl: Rounding, t: Task, op: Op, mem: Memory)
    ensures Exec(fl, Serial(Then(t, Do(op))), mem) == Apply(fl, op, Exec(fl, Serial(t), mem))
    ensures Exec(fl, Serial(Par(t, Do(op))), mem) == Apply(fl, op, Exec(fl, Serial(t), mem))
  {
    ExecConcat(fl, Serial(t), [op], mem);
    var mid := Exec(fl, Serial(t), mem);
    assert Serial(Do(op)) == [op];
    assert Exec(fl, [op], mid) == Exec(fl, [op][1..], Apply(fl, op, mid));
  }

  lemma {:induction false} ZeroEffect(fl: Rounding, ld: nat, n: nat, mem: Memory)
    requires ld + n <= |mem|
    ensures SameOutside(mem, Exec(fl, Serial(ZeroTask(ld, n)), mem), ld, n, 0, 0)
  {
    if n > 0 {
      ZeroEffect(fl, ld, n - 1, mem);
      ExecOne(fl, ZeroTask(ld, n - 1), Op(ld + n - 1, Zero), mem);
      hide Exec, Serial;
    }
  }

  lemma {:induction false} EntriesEffect(fl: Rounding, la: nat, lb: nat, ld: nat, m: nat, n: nat, mem: Memory)
    requires m <= MASK_DIGITS && n <= Pow4(m)
    requires la + Pow4(m) <= |mem| && lb + Pow4(m) <= |mem| && ld + Pow4(m) <= |mem|
    requires Disjoint(ld, Pow4(m), la, Pow4(m)) && Disjoint(ld, Pow4(m), lb, Pow4(m))
    ensures var after, a, b := Exec(fl, Serial(EntriesTask(la, lb, ld, m, n)), mem), Window(mem, la, Pow4(m)), Window(mem, lb, Pow4(m));
            && SameOutside(mem, after, ld, n, 0, 0)
            && forall z: nat | z < n :: Window(after, ld, n)[z] == DotF(fl, a, b, Row(z), Col(z), Pow2(m))
  {
    hide Pow2, Pow4, Exec, Serial, DotExpr, DotF, Row, Col, Eval;
    var after := Exec(fl, Serial(EntriesTask(la, lb, ld, m, n)), mem);
    if n == 0 {
      NothingDone(fl, la, lb, ld, m, n, mem);
    } else {
      var mid := Exec(fl, Serial(EntriesTask(la, lb, ld, m, n - 1)), mem);
      EntriesEffect(fl, la, lb, ld, m, n - 1, mem);
      ExecOne(fl, EntriesTask(la, lb, ld, m, n - 1), Op(ld + n - 1, DotExpr(la, lb, n - 1, Pow2(m))), mem);
      WindowKept(mem, mid, ld, n - 1, 0, 0, la, Pow4(m));
      WindowKept(mem, mid, ld, n - 1, 0, 0, lb, Pow4(m));
      DotExprValue(fl, la, lb, n - 1, Pow2(m), m, mid);
      forall z: nat | z < n
        ensures Window(after, ld, n)[z] == DotF(fl, Window(mem, la, Pow4(m)), Window(mem, lb, Pow4(m)), Row(z), Col(z), Pow2(m))
      {
        if z < n - 1 {
          assert Window(after, ld, n)[z] == after[ld + z] == mid[ld + z] == Window(mid, ld, n - 1)[z];
        }
      }
    }
  }

  lemma NothingDone(fl: Rounding, la: nat, lb: nat, ld: nat, m: nat, n: nat, mem: Memory)
    requires n == 0
    ensures Exec(fl, Serial(EntriesTask(la, lb, ld, m, n)), mem) == mem
  {
  }

  lemma {:induction false} ElementEffect(fl: Rounding, kind: Kind, ld: nat, lt: nat, n: nat, size: nat, mem: Memory)
    requires n <= size && ld + size <= |mem| && lt + size <= |mem| && Disjoint(ld, size, lt, size)
    ensures var after := Exec(fl, Serial(ElementTask(kind, ld, lt, n)), mem);
            && SameOutside(mem, after, ld, n, 0, 0)
            && forall z: nat | z < n ::
                 Window(after, ld, size)[z] == ElementValue(fl, kind, Window(mem, ld, size)[z], Window(mem, lt, size)[z])
  {
    hide Exec, Serial, Eval;
    if n == 0 {
      NoElements(fl, kind, ld, lt, n, mem);
    } else {
      var mid := Exec(fl, Serial(ElementTask(kind, ld, lt, n - 1)), mem);
      ElementEffect(fl, kind, ld, lt, n - 1, size, mem);
      ExecOne(fl, ElementTask(kind, ld, lt, n - 1), Op(ld + n - 1, NewValue(kind, ld + n - 1, lt + n - 1)), mem);
      NewValueIs(fl, kind, ld + n - 1, lt + n - 1, mid);
      var after := Exec(fl, Serial(ElementTask(kind, ld, lt, n)), mem);
      forall z: nat | z < n
        ensures Window(after, ld, size)[z] == ElementValue(fl, kind, Window(mem, ld, size)[z], Window(mem, lt, size)[z])
      {
        if z < n - 1 {
          assert Window(after, ld, size)[z] == after[ld + z] == mid[ld + z] == Window(mid, ld, size)[z];
        } else {
          assert mid[ld + z] == mem[ld + z] == Window(mem, ld, size)[z];
          assert mid[lt + z] == mem[lt + z] == Window(mem, lt, size)[z];
        }
      }
    }
  }

  /** `after` is `before` with the product in the destination, up to scratch. */
  ghost predicate Multiplies(fl: Rounding, before: Memory, after: Memory, la: nat, lb: nat, ld: nat, s: nat, m: nat)
    requires Layout(la, lb, ld, s, m, |before|)
  {
    && SameOutside(before, after, ld, Pow4(m), s, ScratchSize(m))
    && Window(after, ld, Pow4(m)) == MatMulZF(fl, Window(before, la, Pow4(m)), Window(before, lb, Pow4(m)), m)
  }

  lemma {:induction false} LeafEffect(fl: Rounding, la: nat, lb: nat, ld: nat, s: nat, m: nat, mem: Memory)
    requires m <= LEAF_DEPTH && Layout(la, lb, ld, s, m, |mem|)
    ensures Multiplies(fl, mem, Exec(fl, Serial(MulTask(la, lb, ld, s, m)), mem), la, lb, ld, s, m)
  {
    hide Pow2, Pow4, ZeroTask, EntriesTask, Exec, DotF, Row, Col, SeqMulZF, Serial;
    var zero, entries := ZeroTask(ld, Pow4(m)), EntriesTask(la, lb, ld, m, Pow4(m));
    var mid := Exec(fl, Serial(zero), mem);
    SerialThen(fl, zero, entries, mem);
    ZeroEffect(fl, ld, Pow4(m), mem);
    WindowKept(mem, mid, ld, Pow4(m), 0, 0, la, Pow4(m));
    WindowKept(mem, mid, ld, Pow4(m), 0, 0, lb, Pow4(m));
    EntriesEffect(fl, la, lb, ld, m, Pow4(m), mid);
    var after := Exec(fl, Serial(entries), mid);
    SeqMulZFIs(fl, Window(mem, la, Pow4(m)), Window(mem, lb, Pow4(m)), m, Window(after, ld, Pow4(m)));
  }

  lemma SerialThen(fl: Rounding, a: Task, b: Task, mem: Memory)
    ensures Exec(fl, Serial(Then(a, b)), mem) == Exec(fl, Serial(b), Exec(fl, Serial(a), mem))
  {
    ExecConcat(fl, Serial(a), Serial(b), mem);
  }

  lemma QuarterWindow(mem: Memory, lo: nat, n: nat, q: nat)
    requires q < 4 && lo + Pow4(n + 1) <= |mem|
    ensures lo + q * Pow4(n) + Pow4(n) <= |mem|
    ensures Window(mem, lo + q * Pow4(n), Pow4(n)) == Quarter(Window(mem, lo, Pow4(n + 1)), n, q)
  {
    hide Pow4;
    QuarterRange(lo, n, q);
    SliceOfSlice(mem, lo, Pow4(n + 1), q * Pow4(n), Pow4(n));
    assert (q + 1) * Pow4(n) == q * Pow4(n) + Pow4(n);
  }

  /** The first `k` children ran: their targets hold their products, the inputs are intact. */
  ghost predicate ChildrenDone(fl: Rounding, before: Memory, after: Memory, la: nat, lb: nat, ld: nat, s: nat, n: nat, k: nat)
    requires n + 1 > LEAF_DEPTH && Layout(la, lb, ld, s, n + 1, |before|)
  {
    var a, b := Window(before, la, Pow4(n + 1)), Window(before, lb, Pow4(n + 1));
    && SameOutside(before, after, ld, Pow4(n + 1), s, ScratchSize(n + 1))
    && forall j: nat | j < k && j < 8 ::
         && Target(ld, s, n, j) + Pow4(n) <= |after|
         && Window(after, Target(ld, s, n, j), Pow4(n)) == Multiplied(fl, a, AQuarter(j), b, BQuarter(j), n)
  }

  lemma {:induction false} ChildrenEffect(fl: Rounding, la: nat, lb: nat, ld: nat, s: nat, n: nat, k: nat, mem: Memory)
    requires n + 1 > LEAF_DEPTH && k <= 8 && Layout(la, lb, ld, s, n + 1, |mem|)
    ensures ChildrenDone(fl, mem, ExecTasks(fl, Children(la, lb, ld, s, n), k, mem), la, lb, ld, s, n, k)
    decreases n, 3 + k
  {
    hide Pow4, ScratchSize, Exec, Serial, Child, Layout, Multiplied, Target;
    if k > 0 {
      ChildrenEffect(fl, la, lb, ld, s, n, k - 1, mem);
      ChildStep(fl, la, lb, ld, s, n, k - 1, mem, ExecTasks(fl, Children(la, lb, ld, s, n), k - 1, mem));
    }
  }

  lemma ChildStep(fl: Rounding, la: nat, lb: nat, ld: nat, s: nat, n: nat, k: nat, mem: Memory, mid: Memory)
    requires n + 1 > LEAF_DEPTH && k < 8 && Layout(la, lb, ld, s, n + 1, |mem|)
    requires ChildrenDone(fl, mem, mid, la, lb, ld, s, n, k)
    ensures ChildrenDone(fl, mem, Exec(fl, Serial(Child(la, lb, ld, s, n, k)), mid), la, lb, ld, s, n, k + 1)
    decreases n, 2
  {
    hide Pow4, ScratchSize, Exec, Serial, Child, Multiplied, Target, ChildScratch;
    var after := Exec(fl, Serial(Child(la, lb, ld, s, n, k)), mid);
    ChildEffect(fl, la, lb, ld, s, n, k, mem, mid);
    var t, c := Target(ld, s, n, k), ChildScratch(s, n, k);
    TargetRange(ld, s, n, k);
    ScratchRange(s, n, k);
    ScratchStep(n);
    forall j: nat | j < k
      ensures Target(ld, s, n, j) + Pow4(n) <= |after|
      ensures Window(after, Target(ld, s, n, j), Pow4(n)) == Window(mid, Target(ld, s, n, j), Pow4(n))
    {
      CellsDisjoint(ld, s, n, j, k);
      WindowKept(mid, after, t, Pow4(n), c, ScratchSize(n), Target(ld, s, n, j), Pow4(n));
    }
  }

  /** A child's operand: a quarter of an input, as it was before any child ran. */
  lemma ChildInput(mem: Memory, mid: Memory, ld: nat, s: nat, lo: nat, n: nat, q: nat)
    requires q < 4 && lo + Pow4(n + 1) <= |mem|
    requires SameOutside(mem, mid, ld, Pow4(n + 1), s, ScratchSize(n + 1))
    requires Disjoint(ld, Pow4(n + 1), lo, Pow4(n + 1)) && Disjoint(s, ScratchSize(n + 1), lo, Pow4(n + 1))
    ensures |mid| == |mem| && QuarterStart(lo, n, q) + Pow4(n) <= |mid|
    ensures Window(mid, QuarterStart(lo, n, q), Pow4(n)) == Quarter(Window(mem, lo, Pow4(n + 1)), n, q)
  {
    hide Pow4, ScratchSize, Quarter;
    WindowKept(mem, mid, ld, Pow4(n + 1), s, ScratchSize(n + 1), lo, Pow4(n + 1));
    QuarterWindow(mid, lo, n, q);
  }

  lemma ChildIs(la: nat, lb: nat, ld: nat, s: nat, n: nat, k: nat)
    ensures Child(la, lb, ld, s, n, k)
         == MulTask(QuarterStart(la, n, AQuarter(k)), QuarterStart(lb, n, BQuarter(k)), Target(ld, s, n, k), ChildScratch(s, n, k), n)
  {
    hide MulTask;
  }

  lemma MultipliesGives(fl: Rounding, before: Memory, after: Memory, la: nat, lb: nat, ld: nat, s: nat, m: nat)
    requires Layout(la, lb, ld, s, m, |before|) && Multiplies(fl, before, after, la, lb, ld, s, m)
    ensures la + Pow4(m) <= |before| && lb + Pow4(m) <= |before| && ld + Pow4(m) <= |after|
    ensures SameOutside(before, after, ld, Pow4(m), s, ScratchSize(m))
    ensures Window(after, ld, Pow4(m)) == MatMulZF(fl, Window(before, la, Pow4(m)), Window(before, lb, Pow4(m)), m)
  {
    hide Pow4, ScratchSize, MatMulZF;
  }

  lemma LayoutGives(la: nat, lb: nat, ld: nat, s: nat, m: nat, len: nat)
    requires Layout(la, lb, ld, s, m, len)
    ensures la + Pow4(m) <= len && lb + Pow4(m) <= len
    ensures Disjoint(ld, Pow4(m), la, Pow4(m)) && Disjoint(ld, Pow4(m), lb, Pow4(m))
    ensures Disjoint(s, ScratchSize(m), la, Pow4(m)) && Disjoint(s, ScratchSize(m), lb, Pow4(m))
  {
  }

  /** A child ran: its product is in its target, and nothing changed outside that and its scratch. */
  ghost predicate ChildRan(fl: Rounding, mem: Memory, mid: Memory, after: Memory, la: nat, lb: nat, ld: nat, s: nat, n: nat, k: nat)
  {
    && la + Pow4(n + 1) <= |mem| && lb + Pow4(n + 1) <= |mem|
    && SameOutside(mid, after, Target(ld, s, n, k), Pow4(n), ChildScratch(s, n, k), ScratchSize(n))
    && Target(ld, s, n, k) + Pow4(n) <= |after|
    && Window(after, Target(ld, s, n, k), Pow4(n))
       == Multiplied(fl, Window(mem, la, Pow4(n + 1)), AQuarter(k), Window(mem, lb, Pow4(n + 1)), BQuarter(k), n)
  }

  lemma {:induction false} ChildEffect(fl: Rounding, la: nat, lb: nat, ld: nat, s: nat, n: nat, k: nat, mem: Memory, mid: Memory)
    requires n + 1 > LEAF_DEPTH && k < 8 && Layout(la, lb, ld, s, n + 1, |mem|)
    requires SameOutside(mem, mid, ld, Pow4(n + 1), s, ScratchSize(n + 1))
    ensures ChildRan(fl, mem, mid, Exec(fl, Serial(Child(la, lb, ld, s, n, k)), mid), la, lb, ld, s, n, k)
    decreases n, 1
  {
    hide *;
    LayoutGives(la, lb, ld, s, n + 1, |mem|);
    ChildLayout(la, lb, ld, s, n, k, |mem|);
    ChildInput(mem, mid, ld, s, la, n, AQuarter(k));
    ChildInput(mem, mid, ld, s, lb, n, BQuarter(k));
    var x, y, t, c := QuarterStart(la, n, AQuarter(k)), QuarterStart(lb, n, BQuarter(k)), Target(ld, s, n, k), ChildScratch(s, n, k);
    MulEffect(fl, x, y, t, c, n, mid);
    ChildIs(la, lb, ld, s, n, k);
    var after := Exec(fl, Serial(Child(la, lb, ld, s, n, k)), mid);
    MultipliesGives(fl, mid, after, x, y, t, c, n);
    ChildRanIf(fl, mem, mid, after, la, lb, ld, s, n, k);
  }

  lemma ChildRanIf(fl: Rounding, mem: Memory, mid: Memory, after: Memory, la: nat, lb: nat, ld: nat, s: nat, n: nat, k: nat)
    requires la + Pow4(n + 1) <= |mem| && lb + Pow4(n + 1) <= |mem|
    requires SameOutside(mid, after, Target(ld, s, n, k), Pow4(n), ChildScratch(s, n, k), ScratchSize(n))
    requires Target(ld, s, n, k) + Pow4(n) <= |after|
    requires Window(after, Target(ld, s, n, k), Pow4(n))
          == MatMulZF(fl, Quarter(Window(mem, la, Pow4(n + 1)), n, AQuarter(k)), Quarter(Window(mem, lb, Pow4(n + 1)), n, BQuarter(k)), n)
    ensures ChildRan(fl, mem, mid, after, la, lb, ld, s, n, k)
  {
    hide Pow4, ScratchSize, MatMulZF, Quarter, Window, Target, ChildScratch, AQuarter, BQuarter, SameOutside;
  }

  /** The serial run multiplies. */
  lemma {:induction false} MulEffect(fl: Rounding, la: nat, lb: nat, ld: nat, s: nat, m: nat, mem: Memory)
    requires Layout(la, lb, ld, s, m, |mem|)
    ensures Multiplies(fl, mem, Exec(fl, Serial(MulTask(la, lb, ld, s, m)), mem), la, lb, ld, s, m)
    decreases m, 0
  {
    hide Pow4, ScratchSize, Exec, Serial, Join8, ElementTask, Children, Multiplies, Layout;
    if m <= LEAF_DEPTH {
      LeafEffect(fl, la, lb, ld, s, m, mem);
    } else {
      var n := m - 1;
      var ts := Children(la, lb, ld, s, n);
      var mid := ExecTasks(fl, ts, 8, mem);
      SerialThen(fl, Join8(ts), ElementTask(Increase, ld, s, Pow4(m)), mem);
      SerialJoin8(fl, ts, mem);
      ChildrenEffect(fl, la, lb, ld, s, n, 8, mem);
      SumStep(fl, la, lb, ld, s, n, mem, mid);
    }
  }

  lemma FourTargets(mem: Memory, lo: nat, n: nat)
    requires lo + Pow4(n + 1) <= |mem|
    ensures forall q: nat | q < 4 :: lo + q * Pow4(n) + Pow4(n) <= |mem|
    ensures Window(mem, lo, Pow4(n + 1))
         == Window(mem, lo + 0 * Pow4(n), Pow4(n)) + Window(mem, lo + 1 * Pow4(n), Pow4(n))
            + Window(mem, lo + 2 * Pow4(n), Pow4(n)) + Window(mem, lo + 3 * Pow4(n), Pow4(n))
  {
    hide Pow4, Quarter, Window;
    forall q: nat | q < 4
      ensures lo + q * Pow4(n) + Pow4(n) <= |mem|
    {
      QuarterWindow(mem, lo, n, q);
    }
    QuarterWindow(mem, lo, n, 0);
    QuarterWindow(mem, lo, n, 1);
    QuarterWindow(mem, lo, n, 2);
    QuarterWindow(mem, lo, n, 3);
    QuarterChunksSplit(Window(mem, lo, Pow4(n + 1)), n);
  }

  lemma SumStep(fl: Rounding, la: nat, lb: nat, ld: nat, s: nat, n: nat, mem: Memory, mid: Memory)
    requires n + 1 > LEAF_DEPTH && Layout(la, lb, ld, s, n + 1, |mem|)
    requires ChildrenDone(fl, mem, mid, la, lb, ld, s, n, 8)
    ensures Multiplies(fl, mem, Exec(fl, Serial(ElementTask(Increase, ld, s, Pow4(n + 1))), mid), la, lb, ld, s, n + 1)
  {
    hide Pow4, ScratchSize, Exec, Serial, Multiplied, MatMulZF, ElementTask, AQuarter, BQuarter;
    var a, b := Window(mem, la, Pow4(n + 1)), Window(mem, lb, Pow4(n + 1));
    var after := Exec(fl, Serial(ElementTask(Increase, ld, s, Pow4(n + 1))), mid);
    ScratchStep(n);
    ElementEffect(fl, Increase, ld, s, Pow4(n + 1), Pow4(n + 1), mid);
    var dest, tmp := Window(mid, ld, Pow4(n + 1)), Window(mid, s, Pow4(n + 1));
    assert Window(after, ld, Pow4(n + 1)) == ZipAdd(fl, dest, tmp);
    ResultWindows(fl, mem, mid, la, lb, ld, s, n);
    MatMulZUnfold(fl, a, b, n + 1);
  }

  lemma ResultWindows(fl: Rounding, mem: Memory, mid: Memory, la: nat, lb: nat, ld: nat, s: nat, n: nat)
    requires n + 1 > LEAF_DEPTH && Layout(la, lb, ld, s, n + 1, |mem|)
    requires ChildrenDone(fl, mem, mid, la, lb, ld, s, n, 8)
    ensures s + Pow4(n + 1) <= |mid| && |mid| == |mem|
    ensures var a, b := Window(mem, la, Pow4(n + 1)), Window(mem, lb, Pow4(n + 1));
            && Window(mid, ld, Pow4(n + 1)) == Multiplied(fl, a, 0, b, 0, n) + Multiplied(fl, a, 0, b, 1, n)
                                               + Multiplied(fl, a, 2, b, 0, n) + Multiplied(fl, a, 2, b, 1, n)
            && Window(mid, s, Pow4(n + 1)) == Multiplied(fl, a, 1, b, 2, n) + Multiplied(fl, a, 1, b, 3, n)
                                              + Multiplied(fl, a, 3, b, 2, n) + Multiplied(fl, a, 3, b, 3, n)
  {
    hide Pow4, ScratchSize, Multiplied, Window;
    ScratchStep(n);
    FourTargets(mid, ld, n);
    FourTargets(mid, s, n);
    assert forall j: nat | j < 8 :: Target(ld, s, n, j) == if j < 4 then ld + j * Pow4(n) else s + (j - 4) * Pow4(n);
    assert AQuarter(0) == AQuarter(1) == 0 && AQuarter(2) == AQuarter(3) == 2;
    assert AQuarter(4) == AQuarter(5) == 1 && AQuarter(6) == AQuarter(7) == 3;
    assert BQuarter(0) == BQuarter(2) == 0 && BQuarter(1) == BQuarter(3) == 1;
    assert BQuarter(4) == BQuarter(6) == 2 && BQuarter(5) == BQuarter(7) == 3;
    assert Target(ld, s, n, 0) == ld + 0 * Pow4(n) && Target(ld, s, n, 1) == ld + 1 * Pow4(n);
    assert Target(ld, s, n, 2) == ld + 2 * Pow4(n) && Target(ld, s, n, 3) == ld + 3 * Pow4(n);
    assert Target(ld, s, n, 4) == s + 0 * Pow4(n) && Target(ld, s, n, 5) == s + 1 * Pow4(n);
    assert Target(ld, s, n, 6) == s + 2 * Pow4(n) && Target(ld, s, n, 7) == s + 3 * Pow4(n);
  }

  // ---------- every schedule ----------

  /** Whatever the order and interleaving of the forked tasks at every level of the
      recursion, and whatever the memory held before, the parallel multiply leaves the
      serial result in the destination and changes only destination and scratch. */
  lemma EverySchedule(fl: Rounding, la: nat, lb: nat, ld: nat, s: nat, m: nat, mem: Memory, ops: seq<Op>)
    requires Layout(la, lb, ld, s, m, |mem|)
    requires Schedule(MulTask(la, lb, ld, s, m), ops)
    ensures Multiplies(fl, mem, Exec(fl, ops, mem), la, lb, ld, s, m)
  {
    hide *;
    MulRaceFree(la, lb, ld, s, m, |mem|);
    Deterministic(fl, MulTask(la, lb, ld, s, m), ops, mem);
    MulEffect(fl, la, lb, ld, s, m, mem);
  }
}
