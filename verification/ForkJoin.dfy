/** Fork-join computations on a shared memory: a computation without data races has
    one result, whatever the order and interleaving in which its stores happen. */
module ForkJoin {

  type Memory = seq<int>

  datatype Expr =
    | Zero
    | Load(addr: nat)
    | Plus(left: Expr, right: Expr)
    | Minus(left: Expr, right: Expr)
    | Times(left: Expr, right: Expr)

  /** One store: evaluate, then write the cell. */
  datatype Op = Op(addr: nat, value: Expr)

  /** Series-parallel composition; `Par` is a two-way join. */
  datatype Task =
    | Nop
    | Do(op: Op)
    | Then(first: Task, second: Task)
    | Par(left: Task, right: Task)

  function Eval(fl: int -> int, e: Expr, mem: Memory): int {
    match e
    case Zero => 0
    case Load(x) => if x < |mem| then mem[x] else 0
    case Plus(l, r) => fl(Eval(fl, l, mem) + Eval(fl, r, mem))
    case Minus(l, r) => fl(Eval(fl, l, mem) - Eval(fl, r, mem))
    case Times(l, r) => fl(Eval(fl, l, mem) * Eval(fl, r, mem))
  }

  function Loads(e: Expr): set<nat> {
    match e
    case Zero => {}
    case Load(x) => {x}
    case Plus(l, r) => Loads(l) + Loads(r)
    case Minus(l, r) => Loads(l) + Loads(r)
    case Times(l, r) => Loads(l) + Loads(r)
  }

  function Apply(fl: int -> int, op: Op, mem: Memory): (after: Memory)
    ensures |after| == |mem|
  {
    if op.addr < |mem| then mem[op.addr := Eval(fl, op.value, mem)] else mem
  }

  function Exec(fl: int -> int, ops: seq<Op>, mem: Memory): (after: Memory)
    ensures |after| == |mem|
  {
    if ops == [] then mem else Exec(fl, ops[1..], Apply(fl, ops[0], mem))
  }

  // ---------- schedules ----------

  ghost predicate Interleaves(x: seq<Op>, y: seq<Op>, ops: seq<Op>)
    decreases |ops|
  {
    if ops == [] then x == [] && y == []
    else
      || (x != [] && x[0] == ops[0] && Interleaves(x[1..], y, ops[1..]))
      || (y != [] && y[0] == ops[0] && Interleaves(x, y[1..], ops[1..]))
  }

  /** `ops` is an order in which the stores of `t` can happen. */
  ghost predicate Schedule(t: Task, ops: seq<Op>) {
    match t
    case Nop => ops == []
    case Do(op) => ops == [op]
    case Then(a, b) => exists x, y :: ops == x + y && Schedule(a, x) && Schedule(b, y)
    case Par(a, b) => exists x, y :: Interleaves(x, y, ops) && Schedule(a, x) && Schedule(b, y)
  }

  /** The schedule that never runs two tasks at once. */
  function Serial(t: Task): seq<Op> {
    match t
    case Nop => []
    case Do(op) => [op]
    case Then(a, b) => Serial(a) + Serial(b)
    case Par(a, b) => Serial(a) + Serial(b)
  }

  function Writes(t: Task): set<nat> {
    match t
    case Nop => {}
    case Do(op) => {op.addr}
    case Then(a, b) => Writes(a) + Writes(b)
    case Par(a, b) => Writes(a) + Writes(b)
  }

  function Reads(t: Task): set<nat> {
    match t
    case Nop => {}
    case Do(op) => Loads(op.value)
    case Then(a, b) => Reads(a) + Reads(b)
    case Par(a, b) => Reads(a) + Reads(b)
  }

  /** Two tasks that run at once never touch a cell that one of them writes. */
  ghost predicate RaceFree(t: Task) {
    match t
    case Nop => true
    case Do(_) => true
    case Then(a, b) => RaceFree(a) && RaceFree(b)
    case Par(a, b) =>
      && RaceFree(a) && RaceFree(b)
      && Writes(a) !! Writes(b) && Writes(a) !! Reads(b) && Reads(a) !! Writes(b)
  }

  // ---------- determinism ----------

  lemma {:induction false} EvalFrame(fl: int -> int, e: Expr, mem: Memory, x: nat, v: int)
    requires x < |mem| && x !in Loads(e)
    ensures Eval(fl, e, mem[x := v]) == Eval(fl, e, mem)
  {
    match e
    case Zero =>
    case Load(_) =>
    case Plus(l, r) =>
      EvalFrame(fl, l, mem, x, v);
      EvalFrame(fl, r, mem, x, v);
    case Minus(l, r) =>
      EvalFrame(fl, l, mem, x, v);
      EvalFrame(fl, r, mem, x, v);
    case Times(l, r) =>
      EvalFrame(fl, l, mem, x, v);
      EvalFrame(fl, r, mem, x, v);
  }

  ghost predicate Independent(p: Op, q: Op) {
    p.addr != q.addr && p.addr !in Loads(q.value) && q.addr !in Loads(p.value)
  }

  lemma Commute(fl: int -> int, p: Op, q: Op, mem: Memory)
    requires Independent(p, q)
    ensures Apply(fl, p, Apply(fl, q, mem)) == Apply(fl, q, Apply(fl, p, mem))
  {
    if p.addr < |mem| {
      EvalFrame(fl, q.value, mem, p.addr, Eval(fl, p.value, mem));
    }
    if q.addr < |mem| {
      EvalFrame(fl, p.value, mem, q.addr, Eval(fl, q.value, mem));
    }
  }

  lemma {:induction false} ExecConcat(fl: int -> int, x: seq<Op>, y: seq<Op>, mem: Memory)
    ensures Exec(fl, x + y, mem) == Exec(fl, y, Exec(fl, x, mem))
    decreases |x|
  {
    if x == [] {
      assert x + y == y;
    } else {
      assert (x + y)[1..] == x[1..] + y;
      ExecConcat(fl, x[1..], y, Apply(fl, x[0], mem));
    }
  }

  /** An operation independent of all of `x` can move from before `x` to after it. */
  lemma {:induction false} MovePast(fl: int -> int, p: Op, x: seq<Op>, mem: Memory)
    requires forall q :: q in x ==> Independent(p, q)
    ensures Exec(fl, x, Apply(fl, p, mem)) == Apply(fl, p, Exec(fl, x, mem))
    decreases |x|
  {
    if x != [] {
      Commute(fl, p, x[0], mem);
      MovePast(fl, p, x[1..], Apply(fl, x[0], mem));
    }
  }

  /** Independent sequences: any interleaving acts like one after the other. */
  lemma {:induction false} InterleavingIsSerial(fl: int -> int, x: seq<Op>, y: seq<Op>, ops: seq<Op>, mem: Memory)
    requires Interleaves(x, y, ops)
    requires forall p, q :: p in x && q in y ==> Independent(q, p)
    ensures Exec(fl, ops, mem) == Exec(fl, y, Exec(fl, x, mem))
    decreases |ops|
  {
    if ops != [] {
      var next := Apply(fl, ops[0], mem);
      if x != [] && x[0] == ops[0] && Interleaves(x[1..], y, ops[1..]) {
        InterleavingIsSerial(fl, x[1..], y, ops[1..], next);
      } else {
        InterleavingIsSerial(fl, x, y[1..], ops[1..], next);
        MovePast(fl, y[0], x, mem);
      }
    }
  }

  ghost predicate WithinFootprint(t: Task, ops: seq<Op>) {
    forall op :: op in ops ==> op.addr in Writes(t) && Loads(op.value) <= Reads(t)
  }

  lemma {:induction false} InterleavingElements(x: seq<Op>, y: seq<Op>, ops: seq<Op>)
    requires Interleaves(x, y, ops)
    ensures forall op :: op in ops ==> op in x || op in y
    decreases |ops|
  {
    if ops != [] {
      if x != [] && x[0] == ops[0] && Interleaves(x[1..], y, ops[1..]) {
        InterleavingElements(x[1..], y, ops[1..]);
      } else {
        InterleavingElements(x, y[1..], ops[1..]);
      }
    }
  }

  lemma {:induction false} ScheduleFootprint(t: Task, ops: seq<Op>)
    requires Schedule(t, ops)
    ensures WithinFootprint(t, ops)
  {
    match t
    case Nop =>
    case Do(_) =>
    case Then(a, b) =>
      var x, y :| ops == x + y && Schedule(a, x) && Schedule(b, y);
      ScheduleFootprint(a, x);
      ScheduleFootprint(b, y);
    case Par(a, b) =>
      var x, y :| Interleaves(x, y, ops) && Schedule(a, x) && Schedule(b, y);
      ScheduleFootprint(a, x);
      ScheduleFootprint(b, y);
      InterleavingElements(x, y, ops);
  }

  /** Determinism: without races every schedule computes what the serial one does. */
  lemma {:induction false} Deterministic(fl: int -> int, t: Task, ops: seq<Op>, mem: Memory)
    requires RaceFree(t) && Schedule(t, ops)
    ensures Exec(fl, ops, mem) == Exec(fl, Serial(t), mem)
  {
    match t
    case Nop =>
    case Do(_) =>
    case Then(a, b) =>
      var x, y :| ops == x + y && Schedule(a, x) && Schedule(b, y);
      ExecConcat(fl, x, y, mem);
      ExecConcat(fl, Serial(a), Serial(b), mem);
      Deterministic(fl, a, x, mem);
      Deterministic(fl, b, y, Exec(fl, x, mem));
    case Par(a, b) =>
      var x, y :| Interleaves(x, y, ops) && Schedule(a, x) && Schedule(b, y);
      ScheduleFootprint(a, x);
      ScheduleFootprint(b, y);
      InterleavingIsSerial(fl, x, y, ops, mem);
      ExecConcat(fl, Serial(a), Serial(b), mem);
      Deterministic(fl, a, x, mem);
      Deterministic(fl, b, y, Exec(fl, x, mem));
  }

  lemma {:induction false} SerialInterleaves(x: seq<Op>, y: seq<Op>)
    ensures Interleaves(x, y, x + y)
    decreases |x| + |y|
  {
    if x != [] {
      assert (x + y)[1..] == x[1..] + y;
      SerialInterleaves(x[1..], y);
    } else if y != [] {
      assert x + y == y && y[1..] == x + y[1..];
      SerialInterleaves(x, y[1..]);
    }
  }

  /** The serial schedule is one of the schedules. */
  lemma {:induction false} SerialIsSchedule(t: Task)
    ensures Schedule(t, Serial(t))
  {
    match t
    case Nop =>
    case Do(_) =>
    case Then(a, b) =>
      SerialIsSchedule(a);
      SerialIsSchedule(b);
    case Par(a, b) =>
      SerialIsSchedule(a);
      SerialIsSchedule(b);
      SerialInterleaves(Serial(a), Serial(b));
  }

  // ---------- join trees ----------

  function Join8(ts: seq<Task>): Task
    requires |ts| == 8
  {
    Par(Par(Par(ts[0], ts[1]), Par(ts[2], ts[3])), Par(Par(ts[4], ts[5]), Par(ts[6], ts[7])))
  }

  /** Run the first `k` tasks one after the other. */
  function ExecTasks(fl: int -> int, ts: seq<Task>, k: nat, mem: Memory): (after: Memory)
    requires k <= |ts|
    ensures |after| == |mem|
  {
    if k == 0 then mem else Exec(fl, Serial(ts[k - 1]), ExecTasks(fl, ts, k - 1, mem))
  }

  lemma SerialJoin8(fl: int -> int, ts: seq<Task>, mem: Memory)
    requires |ts| == 8
    ensures Exec(fl, Serial(Join8(ts)), mem) == ExecTasks(fl, ts, 8, mem)
  {
    hide Exec, Serial, ExecTasks;
    var t01, t23, t45, t67 := Par(ts[0], ts[1]), Par(ts[2], ts[3]), Par(ts[4], ts[5]), Par(ts[6], ts[7]);
    var after4 := ExecTasks(fl, ts, 4, mem);
    PairSteps(fl, ts, 0, mem);
    PairSteps(fl, ts, 2, mem);
    PairSteps(fl, ts, 4, mem);
    PairSteps(fl, ts, 6, mem);
    ExecNone(fl, ts, mem);
    SerialPar(fl, t01, t23, mem);
    SerialPar(fl, t45, t67, after4);
    SerialPar(fl, Par(t01, t23), Par(t45, t67), mem);
  }

  lemma ExecNone(fl: int -> int, ts: seq<Task>, mem: Memory)
    ensures ExecTasks(fl, ts, 0, mem) == mem
  {
  }

  lemma SerialPar(fl: int -> int, a: Task, b: Task, mem: Memory)
    ensures Exec(fl, Serial(Par(a, b)), mem) == Exec(fl, Serial(b), Exec(fl, Serial(a), mem))
  {
    ExecConcat(fl, Serial(a), Serial(b), mem);
  }

  lemma PairSteps(fl: int -> int, ts: seq<Task>, k: nat, mem: Memory)
    requires k + 2 <= |ts|
    ensures ExecTasks(fl, ts, k + 2, mem) == Exec(fl, Serial(Par(ts[k], ts[k + 1])), ExecTasks(fl, ts, k, mem))
  {
    SerialPar(fl, ts[k], ts[k + 1], ExecTasks(fl, ts, k, mem));
    hide Exec, Serial;
    assert ExecTasks(fl, ts, k + 1, mem) == Exec(fl, Serial(ts[k]), ExecTasks(fl, ts, k, mem));
  }

  lemma Join8Footprint(ts: seq<Task>)
    requires |ts| == 8
    ensures forall x :: x in Writes(Join8(ts)) ==> exists k :: 0 <= k < 8 && x in Writes(ts[k])
    ensures forall x :: x in Reads(Join8(ts)) ==> exists k :: 0 <= k < 8 && x in Reads(ts[k])
  {
    var t01, t23, t45, t67 := Par(ts[0], ts[1]), Par(ts[2], ts[3]), Par(ts[4], ts[5]), Par(ts[6], ts[7]);
    assert Writes(Join8(ts)) == Writes(t01) + Writes(t23) + (Writes(t45) + Writes(t67));
    assert Reads(Join8(ts)) == Reads(t01) + Reads(t23) + (Reads(t45) + Reads(t67));
  }

  lemma LoadsOfTerm(e: Expr, x: nat, y: nat)
    ensures Loads(Plus(e, Times(Load(x), Load(y)))) == Loads(e) + {x, y}
  {
    assert Loads(Times(Load(x), Load(y))) == {x} + {y};
    assert Loads(Load(x)) == {x} && Loads(Load(y)) == {y};
  }

  /** Eight tasks are race free when every written cell has one owner and every
      other cell they read has none. */
  ghost predicate Owned(ts: seq<Task>, owner: nat -> int) {
    && (forall k, x :: 0 <= k < |ts| && x in Writes(ts[k]) ==> owner(x) == k)
    && (forall k, x :: 0 <= k < |ts| && x in Reads(ts[k]) ==> owner(x) == k || owner(x) == -1)
  }

  lemma Join8RaceFree(ts: seq<Task>, owner: nat -> int)
    requires |ts| == 8 && Owned(ts, owner)
    requires forall k :: 0 <= k < 8 ==> RaceFree(ts[k])
    ensures RaceFree(Join8(ts))
  {
    var t01, t23, t45, t67 := Par(ts[0], ts[1]), Par(ts[2], ts[3]), Par(ts[4], ts[5]), Par(ts[6], ts[7]);
    PairRaceFree(ts[0], ts[1], 0, 1, owner);
    PairRaceFree(ts[2], ts[3], 2, 3, owner);
    PairRaceFree(ts[4], ts[5], 4, 5, owner);
    PairRaceFree(ts[6], ts[7], 6, 7, owner);
    RangeRaceFree(t01, t23, 0, 2, 4, owner);
    RangeRaceFree(t45, t67, 4, 6, 8, owner);
    RangeRaceFree(Par(t01, t23), Par(t45, t67), 0, 4, 8, owner);
  }

  ghost predicate OwnedBetween(t: Task, lo: int, hi: int, owner: nat -> int) {
    && (forall x :: x in Writes(t) ==> lo <= owner(x) < hi)
    && (forall x :: x in Reads(t) ==> lo <= owner(x) < hi || owner(x) == -1)
  }

  lemma RangeRaceFree(a: Task, b: Task, lo: int, mid: int, hi: int, owner: nat -> int)
    requires 0 <= lo <= mid <= hi
    requires RaceFree(a) && OwnedBetween(a, lo, mid, owner)
    requires RaceFree(b) && OwnedBetween(b, mid, hi, owner)
    ensures RaceFree(Par(a, b)) && OwnedBetween(Par(a, b), lo, hi, owner)
  {
  }

  lemma PairRaceFree(a: Task, b: Task, j: int, k: int, owner: nat -> int)
    requires 0 <= j && k == j + 1 && RaceFree(a) && RaceFree(b)
    requires forall x :: x in Writes(a) ==> owner(x) == j
    requires forall x :: x in Reads(a) ==> owner(x) == j || owner(x) == -1
    requires forall x :: x in Writes(b) ==> owner(x) == k
    requires forall x :: x in Reads(b) ==> owner(x) == k || owner(x) == -1
    ensures RaceFree(Par(a, b)) && OwnedBetween(Par(a, b), j, k + 1, owner)
  {
  }
}
