/** The solver over two swapped buffers (`examples/demo/src/tests/laplace.rs` and
    `matrix_setup`), and how it refines the Jacobi iteration on fields. */
module Laplace {
  import opened Arithmetic
  import opened Jacobi
  import Residuals

  // ---------- buffers and fields ----------

  lemma CellBound(x: int, y: int, sx: nat, sy: nat)
    requires 0 <= x < sx && 0 <= y < sy
    ensures 0 <= y * sx <= y * sx + x < sx * sy
  {
    assert y * sx >= 0;
    assert y + 1 <= sy;
    MulMonotone(y + 1, sy, sx);
  }

  /** Cell (x, y) of a row-major buffer splits back into its column and row. */
  lemma Split(x: int, y: int, n: nat)
    requires 0 <= x < n && 0 <= y
    ensures (y * n + x) / n == y && (y * n + x) % n == x
  {
    var j := y * n + x;
    assert j == (j / n) * n + j % n;
    if j / n < y {
      MulMonotone(j / n + 1, y, n);
      assert false;
    } else if j / n > y {
      MulMonotone(y + 1, j / n, n);
      assert false;
    }
  }

  lemma RowInRange(j: nat, n: nat, rows: nat)
    requires j < n * rows
    ensures n > 0 && j / n < rows && j == (j / n) * n + j % n
  {
    if j / n >= rows {
      MulMonotone(rows, j / n, n);
    }
  }

  /** The buffer holds the field: cell (x, y) at offset y * size_x + x. */
  ghost predicate Holds(s: seq<real>, f: Field, sx: nat, sy: nat) {
    && |s| == sx * sy
    && (forall j :: 0 <= j < |s| && sx > 0 ==> s[j] == f(j % sx, j / sx))
  }

  lemma HoldsAt(s: seq<real>, f: Field, sx: nat, sy: nat, x: int, y: int)
    requires Holds(s, f, sx, sy) && 0 <= x < sx && 0 <= y < sy
    ensures 0 <= y * sx + x < |s| && s[y * sx + x] == f(x, y)
  {
    CellBound(x, y, sx, sy);
    Split(x, y, sx);
  }

  /** The field a buffer holds; ones outside the grid. */
  function FieldOf(s: seq<real>, sx: nat): Field {
    (x, y) => if 0 <= x < sx && 0 <= y && y * sx + x < |s| then s[y * sx + x] else 1.0
  }

  // ---------- matrix_setup ----------

  predicate OnEdge(j: int, sx: nat, sy: nat)
    requires sx > 0
  {
    !Interior(sx, sy, j % sx, j / sx)
  }

  /** Offset j after the first two loops and `y` steps of the third. */
  function LeftDone(sx: nat, sy: nat, y: int, j: nat): real
    requires sx > 0
  {
    if j / sx == 0 || j / sx == sy - 1 || (j % sx == 0 && j / sx < y) then 1.0 else 0.0
  }

  /** Offset j after three loops and `y` steps of the fourth. */
  function RightDone(sx: nat, sy: nat, y: int, j: nat): real
    requires sx > 0
  {
    if j / sx == 0 || j / sx == sy - 1 || j % sx == 0 || (j % sx == sx - 1 && j / sx < y) then 1.0 else 0.0
  }

  /** After the first two loops, `x` steps into the second. */
  ghost predicate RowsFilled(s: seq<real>, sx: nat, sy: nat, x: int) {
    && |s| == sx * sy
    && (forall j :: 0 <= j < |s| ==>
          s[j] == if j < sx || (sy - 1) * sx <= j < (sy - 1) * sx + x then 1.0 else 0.0)
  }

  ghost predicate LeftFilled(s: seq<real>, sx: nat, sy: nat, y: int)
    requires sx > 0
  {
    |s| == sx * sy && forall j :: 0 <= j < |s| ==> s[j] == LeftDone(sx, sy, y, j)
  }

  ghost predicate RightFilled(s: seq<real>, sx: nat, sy: nat, y: int)
    requires sx > 0
  {
    |s| == sx * sy && forall j :: 0 <= j < |s| ==> s[j] == RightDone(sx, sy, y, j)
  }

  /** Both buffers: ones around the edge and zeros inside. */
  method MatrixSetup(sx: nat, sy: nat) returns (a: array<real>, b: array<real>)
    requires sx == 0 <==> sy == 0
    ensures fresh(a) && fresh(b) && a != b && a.Length == b.Length == sx * sy
    ensures Holds(a[..], Initial(sx, sy), sx, sy) && Holds(b[..], Initial(sx, sy), sx, sy)
  {
    a := new real[sx * sy](_ => 0.0);
    b := new real[sx * sy](_ => 0.0);
    if sx == 0 {
      return;
    }
    hide RowsFilled, LeftFilled, RightFilled, Holds;
    LastRow(sx, sy);
    var x := 0;
    while x < sx
      invariant 0 <= x <= sx
      invariant forall j :: 0 <= j < a.Length ==> a[j] == b[j] == if j < x then 1.0 else 0.0
    {
      a[x] := 1.0;
      b[x] := 1.0;
      x := x + 1;
    }
    TopFilled(a[..], sx, sy);
    assert b[..] == a[..];
    x := 0;
    while x < sx
      invariant 0 <= x <= sx
      invariant RowsFilled(a[..], sx, sy, x) && b[..] == a[..]
    {
      RowFill(a[..], sx, sy, x);
      ghost var now := a[..];
      a[(sy - 1) * sx + x] := 1.0;
      b[(sy - 1) * sx + x] := 1.0;
      assert a[..] == b[..] == now[(sy - 1) * sx + x := 1.0];
      x := x + 1;
    }
    TopAndBottom(a[..], sx, sy);
    var y := 0;
    while y < sy
      invariant 0 <= y <= sy
      invariant LeftFilled(a[..], sx, sy, y) && b[..] == a[..]
    {
      LeftFill(a[..], sx, sy, y);
      ghost var now := a[..];
      a[y * sx] := 1.0;
      b[y * sx] := 1.0;
      assert a[..] == b[..] == now[y * sx := 1.0];
      y := y + 1;
    }
    LeftComplete(a[..], sx, sy);
    y := 0;
    while y < sy
      invariant 0 <= y <= sy
      invariant RightFilled(a[..], sx, sy, y) && b[..] == a[..]
    {
      RightFill(a[..], sx, sy, y);
      ghost var now := a[..];
      a[y * sx + sx - 1] := 1.0;
      b[y * sx + sx - 1] := 1.0;
      assert a[..] == b[..] == now[y * sx + sx - 1 := 1.0];
      y := y + 1;
    }
    RightComplete(a[..], sx, sy);
  }

  lemma LastRow(sx: nat, sy: nat)
    requires sx > 0 && sy > 0
    ensures 0 <= (sy - 1) * sx && (sy - 1) * sx + sx == sx * sy
  {
  }

  lemma TopFilled(s: seq<real>, sx: nat, sy: nat)
    requires sx > 0 && sy > 0 && |s| == sx * sy
    requires forall j :: 0 <= j < |s| ==> s[j] == if j < sx then 1.0 else 0.0
    ensures RowsFilled(s, sx, sy, 0)
  {
  }

  lemma RowFill(s: seq<real>, sx: nat, sy: nat, x: nat)
    requires sy > 0 && x < sx && RowsFilled(s, sx, sy, x)
    ensures 0 <= (sy - 1) * sx + x < sx * sy && RowsFilled(s[(sy - 1) * sx + x := 1.0], sx, sy, x + 1)
  {
    LastRow(sx, sy);
  }

  lemma TopAndBottom(s: seq<real>, sx: nat, sy: nat)
    requires sx > 0 && sy > 0 && RowsFilled(s, sx, sy, sx)
    ensures LeftFilled(s, sx, sy, 0)
  {
    hide LeftDone;
    forall j | 0 <= j < |s|
      ensures s[j] == LeftDone(sx, sy, 0, j)
    {
      LeftDoneAtStart(sx, sy, j);
    }
  }

  lemma LeftDoneAtStart(sx: nat, sy: nat, j: nat)
    requires sx > 0 && sy > 0 && j < sx * sy
    ensures LeftDone(sx, sy, 0, j) == if j < sx || (sy - 1) * sx <= j < (sy - 1) * sx + sx then 1.0 else 0.0
  {
    LastRow(sx, sy);
    RowInRange(j, sx, sy);
    if j < sx {
      Split(j, 0, sx);
    } else if j >= (sy - 1) * sx {
      Split(j - (sy - 1) * sx, sy - 1, sx);
    } else {
      RowInRange(j, sx, sy - 1);
    }
  }

  lemma LeftFill(s: seq<real>, sx: nat, sy: nat, y: nat)
    requires sx > 0 && y < sy && LeftFilled(s, sx, sy, y)
    ensures 0 <= y * sx < |s| == sx * sy && LeftFilled(s[y * sx := 1.0], sx, sy, y + 1)
  {
    CellBound(0, y, sx, sy);
    Split(0, y, sx);
    var t := s[y * sx := 1.0];
    forall j | 0 <= j < |t|
      ensures t[j] == LeftDone(sx, sy, y + 1, j)
    {
      RowInRange(j, sx, sy);
    }
  }

  lemma LeftComplete(s: seq<real>, sx: nat, sy: nat)
    requires sx > 0 && LeftFilled(s, sx, sy, sy)
    ensures RightFilled(s, sx, sy, 0)
  {
    forall j | 0 <= j < |s|
      ensures s[j] == RightDone(sx, sy, 0, j)
    {
      RowInRange(j, sx, sy);
    }
  }

  lemma RightFill(s: seq<real>, sx: nat, sy: nat, y: nat)
    requires sx > 0 && y < sy && RightFilled(s, sx, sy, y)
    ensures 0 <= y * sx + sx - 1 < |s| == sx * sy && RightFilled(s[y * sx + sx - 1 := 1.0], sx, sy, y + 1)
  {
    CellBound(sx - 1, y, sx, sy);
    Split(sx - 1, y, sx);
    var t := s[y * sx + sx - 1 := 1.0];
    forall j | 0 <= j < |t|
      ensures t[j] == RightDone(sx, sy, y + 1, j)
    {
      RowInRange(j, sx, sy);
    }
  }

  lemma RightComplete(s: seq<real>, sx: nat, sy: nat)
    requires sx > 0 && RightFilled(s, sx, sy, sy)
    ensures Holds(s, Initial(sx, sy), sx, sy)
  {
    forall j | 0 <= j < |s|
      ensures s[j] == Initial(sx, sy)(j % sx, j / sx)
    {
      RightDoneAt(sx, sy, j);
    }
  }

  lemma RightDoneAt(sx: nat, sy: nat, j: nat)
    requires sx > 0 && j < sx * sy
    ensures RightDone(sx, sy, sy, j) == Initial(sx, sy)(j % sx, j / sx)
  {
    RowInRange(j, sx, sy);
  }

  // ---------- get_residual ----------

  /** One row of the residual, as the closure over `y` computes it. */
  method RowResidual(matrix: array<real>, sx: nat, sy: nat, y: nat) returns (localSum: real)
    requires matrix.Length == sx * sy && 1 <= y < sy - 1 && sx >= 1
    ensures localSum == SumRow(ChangeSquared(FieldOf(matrix[..], sx)), y, sx - 1)
  {
    hide FieldOf, ChangeSquared;
    ghost var q := ChangeSquared(FieldOf(matrix[..], sx));
    localSum := 0.0;
    var x := 1;
    while x < sx - 1
      invariant 1 <= x && (x == 1 || x <= sx - 1)
      invariant localSum == SumRow(q, y, x)
    {
      NeighboursInRange(x, y, sx, sy);
      var mean := (matrix[y * sx + x - 1] + matrix[y * sx + x + 1]
                   + matrix[(y + 1) * sx + x] + matrix[(y - 1) * sx + x]) * 0.25;
      var diff := mean - matrix[y * sx + x];
      ChangeOfBuffer(matrix[..], sx, sy, x, y);
      localSum := localSum + diff * diff;
      x := x + 1;
    }
    EmptyTail(q, y, x, sx - 1);
  }

  method GetResidual(matrix: array<real>, sx: nat, sy: nat) returns (r: real)
    requires sy >= 1 && (sx >= 1 || sy <= 2)
    requires matrix.Length == sx * sy
    ensures r == Residual(FieldOf(matrix[..], sx), sx, sy)
  {
    hide FieldOf, ChangeSquared;
    ghost var q := ChangeSquared(FieldOf(matrix[..], sx));
    r := 0.0;
    var y := 1;
    while y < sy - 1
      invariant 1 <= y && (y == 1 || y <= sy - 1)
      invariant r == SumAll(q, sx - 1, y)
    {
      var localSum := RowResidual(matrix, sx, sy, y);
      r := r + localSum;
      y := y + 1;
    }
    EmptyRows(q, sx - 1, y, sy - 1);
  }

  lemma EmptyTail(q: Field, y: int, m: int, n: int)
    requires 1 <= m && n <= m && (m == 1 || m <= n)
    ensures SumRow(q, y, m) == SumRow(q, y, n)
  {
  }

  lemma EmptyRows(q: Field, nx: int, m: int, n: int)
    requires 1 <= m && n <= m && (m == 1 || m <= n)
    ensures SumAll(q, nx, m) == SumAll(q, nx, n)
  {
  }

  lemma NeighboursInRange(x: int, y: int, sx: nat, sy: nat)
    requires Interior(sx, sy, x, y)
    ensures 0 <= y * sx + x - 1 && y * sx + x + 1 < sx * sy
    ensures 0 <= (y - 1) * sx + x == y * sx + x - sx
    ensures (y + 1) * sx + x == y * sx + x + sx < sx * sy
  {
    CellBound(x, y + 1, sx, sy);
    CellBound(x, y - 1, sx, sy);
    CellBound(x + 1, y, sx, sy);
  }

  lemma FieldAt(s: seq<real>, sx: nat, sy: nat, x: int, y: int)
    requires |s| == sx * sy && 0 <= x < sx && 0 <= y < sy
    ensures 0 <= y * sx + x < |s| && FieldOf(s, sx)(x, y) == s[y * sx + x]
  {
    CellBound(x, y, sx, sy);
  }

  lemma ChangeOfBuffer(s: seq<real>, sx: nat, sy: nat, x: int, y: int)
    requires |s| == sx * sy && Interior(sx, sy, x, y)
    ensures 0 <= y * sx + x - sx && y * sx + x + sx < |s| && sx >= 1
    ensures ChangeSquared(FieldOf(s, sx))(x, y) == Square(MeanAt(s, y * sx + x, sx) - s[y * sx + x])
  {
    hide FieldOf, ChangeSquared, Avg, Square;
    var g := FieldOf(s, sx);
    NeighboursInRange(x, y, sx, sy);
    FieldAt(s, sx, sy, x, y);
    FieldAt(s, sx, sy, x - 1, y);
    FieldAt(s, sx, sy, x + 1, y);
    FieldAt(s, sx, sy, x, y + 1);
    FieldAt(s, sx, sy, x, y - 1);
    ChangeSquaredAt(g, x, y);
    AvgAt(g, x, y);
  }

  // ---------- iteration ----------

  /** Mean of the four neighbours of offset j in rows of length sx. */
  function MeanAt(s: seq<real>, j: int, sx: nat): real
    requires 1 <= sx <= j && j + sx < |s|
  {
    (s[j - 1] + s[j + 1] + s[j + sx] + s[j - sx]) * 0.25
  }

  /** What the loop over chunks of length size_y leaves at offset j: chunk j / size_y,
      position j % size_y, computed from row `chunk` of the current buffer. */
  function ChunkCell(cur: seq<real>, next: seq<real>, sx: nat, sy: nat, j: nat): real
    requires sy >= 1 && |cur| == |next| == sx * sy && j < |next|
  {
    var chunk, x := j / sy, j % sy;
    if 0 < chunk < sy - 1 && 1 <= x < sx - 1 then
      NeighboursInRange(x, chunk, sx, sy);
      MeanAt(cur, chunk * sx + x, sx)
    else
      next[j]
  }

  function Chunked(cur: seq<real>, next: seq<real>, sx: nat, sy: nat): (r: seq<real>)
    requires sy >= 1 && |cur| == |next| == sx * sy
  {
    seq(|next|, j requires 0 <= j < |next| => ChunkCell(cur, next, sx, sy, j))
  }

  /** No chunk is indexed past its end. */
  ghost predicate InBounds(sx: nat, sy: nat) {
    forall chunk, x :: 0 < chunk < sx && chunk < sy - 1 && 1 <= x < sx - 1 ==> InChunk(chunk, x, sy)
  }

  predicate InChunk(chunk: int, x: int, sy: nat) { 0 <= x < sy }

  lemma InBoundsIff(sx: nat, sy: nat)
    ensures InBounds(sx, sy) <==> (sx <= sy + 1 || sy <= 2)
  {
    if sx > sy + 1 && sy > 2 {
      assert !InChunk(1, sx - 2, sy);
    }
  }

  /** What one chunk's closure leaves when positions before `x` are written. */
  ghost predicate ChunkDone(now: seq<real>, cur: seq<real>, before: seq<real>, sx: nat, sy: nat, chunk: int, x: int)
    requires sy >= 1 && |now| == |cur| == |before| == sx * sy
  {
    forall j :: 0 <= j < |now| ==>
      now[j] == if j / sy == chunk && j % sy < x then ChunkCell(cur, before, sx, sy, j) else before[j]
  }

  /** What the closure over one chunk does to `next`. */
  function ChunkEffect(cur: seq<real>, next: seq<real>, sx: nat, sy: nat, chunk: int): (r: seq<real>)
    requires sy >= 1 && |cur| == |next| == sx * sy
    ensures |r| == |next|
  {
    seq(|next|, j requires 0 <= j < |next| => if j / sy == chunk then ChunkCell(cur, next, sx, sy, j) else next[j])
  }

  /** The closure over one chunk of `next`. */
  method IterateChunk(cur: array<real>, next: array<real>, sx: nat, sy: nat, chunk: nat)
    requires sy >= 1 && cur.Length == next.Length == sx * sy && cur != next
    requires chunk < sx && InBounds(sx, sy)
    modifies next
    ensures next[..] == ChunkEffect(cur[..], old(next[..]), sx, sy, chunk)
  {
    hide ChunkCell, ChunkDone, MeanAt, ChunkEffect;
    ghost var before := next[..];
    ChunkUntouched(cur[..], before, sx, sy, chunk);
    if chunk > 0 && chunk < sy - 1 {
      var offsetBase := chunk * sx;
      var x := 1;
      while x < sx - 1
        invariant 1 <= x && (x == 1 || x <= sx - 1)
        invariant ChunkDone(next[..], cur[..], before, sx, sy, chunk, x)
      {
        NeighboursInRange(x, chunk, sx, sy);
        assert InChunk(chunk, x, sy);
        CellBound(x, chunk, sy, sx);
        ghost var now := next[..];
        MeanIs(cur[..], offsetBase + x, sx);
        next[chunk * sy + x] := (cur[offsetBase + x - 1] + cur[offsetBase + x + 1]
                                 + cur[offsetBase + sx + x] + cur[offsetBase - sx + x]) * 0.25;
        ChunkWrite(now, cur[..], before, sx, sy, chunk, x);
        assert next[..] == now[chunk * sy + x := MeanAt(cur[..], chunk * sx + x, sx)];
        x := x + 1;
      }
      ChunkTail(next[..], cur[..], before, sx, sy, chunk, x);
    }
    ChunkFinished(next[..], cur[..], before, sx, sy, chunk);
  }

  lemma MeanIs(s: seq<real>, j: int, sx: nat)
    requires 1 <= sx <= j && j + sx < |s|
    ensures MeanAt(s, j, sx) == (s[j - 1] + s[j + 1] + s[sx + j] + s[j - sx]) * 0.25
  {
  }

  lemma ChunkUntouched(cur: seq<real>, before: seq<real>, sx: nat, sy: nat, chunk: nat)
    requires sy >= 1 && |cur| == |before| == sx * sy && chunk < sx
    ensures ChunkDone(before, cur, before, sx, sy, chunk, 1)
    ensures !(0 < chunk < sy - 1) ==> ChunkDone(before, cur, before, sx, sy, chunk, sy)
  {
  }

  lemma ChunkWrite(now: seq<real>, cur: seq<real>, before: seq<real>, sx: nat, sy: nat, chunk: nat, x: nat)
    requires sy >= 1 && |now| == |cur| == |before| == sx * sy && chunk < sx
    requires 0 < chunk < sy - 1 && 1 <= x < sx - 1 && x < sy
    requires ChunkDone(now, cur, before, sx, sy, chunk, x)
    ensures 0 <= chunk * sy + x < sx * sy && sx <= chunk * sx + x && chunk * sx + x + sx < sx * sy
    ensures ChunkDone(now[chunk * sy + x := MeanAt(cur, chunk * sx + x, sx)], cur, before, sx, sy, chunk, x + 1)
  {
    NeighboursInRange(x, chunk, sx, sy);
    CellBound(x, chunk, sy, sx);
    ChunkStep(sx, sy, chunk, x);
    ChunkCellAt(cur, before, sx, sy, chunk, x);
    hide ChunkCell;
  }

  lemma ChunkCellAt(cur: seq<real>, before: seq<real>, sx: nat, sy: nat, chunk: nat, x: nat)
    requires sy >= 1 && |cur| == |before| == sx * sy && chunk < sx
    requires 0 < chunk < sy - 1 && 1 <= x < sx - 1 && x < sy
    ensures 0 <= chunk * sy + x < sx * sy && sx <= chunk * sx + x && chunk * sx + x + sx < sx * sy
    ensures ChunkCell(cur, before, sx, sy, chunk * sy + x) == MeanAt(cur, chunk * sx + x, sx)
  {
    NeighboursInRange(x, chunk, sx, sy);
    CellBound(x, chunk, sy, sx);
    Split(x, chunk, sy);
  }

  lemma ChunkTail(now: seq<real>, cur: seq<real>, before: seq<real>, sx: nat, sy: nat, chunk: nat, x: nat)
    requires sy >= 1 && |now| == |cur| == |before| == sx * sy && x >= 1 && x >= sx - 1
    requires ChunkDone(now, cur, before, sx, sy, chunk, x)
    ensures ChunkDone(now, cur, before, sx, sy, chunk, sy)
  {
  }

  lemma ChunkFinished(now: seq<real>, cur: seq<real>, before: seq<real>, sx: nat, sy: nat, chunk: nat)
    requires sy >= 1 && |now| == |cur| == |before| == sx * sy
    requires ChunkDone(now, cur, before, sx, sy, chunk, sy)
    ensures now == ChunkEffect(cur, before, sx, sy, chunk)
  {
    hide ChunkCell;
  }

  /** Chunks before `chunk` are iterated, the rest is as before. */
  ghost predicate ChunksDone(now: seq<real>, cur: seq<real>, before: seq<real>, sx: nat, sy: nat, chunk: int)
    requires sy >= 1 && |now| == |cur| == |before| == sx * sy
  {
    forall j :: 0 <= j < |now| ==>
      now[j] == if j / sy < chunk then ChunkCell(cur, before, sx, sy, j) else before[j]
  }

  method Iteration(cur: array<real>, next: array<real>, sx: nat, sy: nat)
    requires sy >= 1 && cur.Length == next.Length == sx * sy && cur != next
    requires InBounds(sx, sy)
    modifies next
    ensures next[..] == Chunked(cur[..], old(next[..]), sx, sy)
  {
    hide ChunkEffect, ChunksDone, ChunkCell, Chunked, InBounds;
    ghost var before := next[..];
    NoChunks(cur[..], before, sx, sy);
    var chunk := 0;
    while chunk < sx
      invariant 0 <= chunk <= sx
      invariant ChunksDone(next[..], cur[..], before, sx, sy, chunk)
    {
      ghost var now := next[..];
      IterateChunk(cur, next, sx, sy, chunk);
      OneMoreChunk(next[..], now, cur[..], before, sx, sy, chunk);
      chunk := chunk + 1;
    }
    AllChunks(next[..], cur[..], before, sx, sy);
  }

  lemma NoChunks(cur: seq<real>, before: seq<real>, sx: nat, sy: nat)
    requires sy >= 1 && |cur| == |before| == sx * sy
    ensures ChunksDone(before, cur, before, sx, sy, 0)
  {
  }

  lemma OneMoreChunk(now: seq<real>, mid: seq<real>, cur: seq<real>, before: seq<real>, sx: nat, sy: nat, chunk: nat)
    requires sy >= 1 && |now| == |mid| == |cur| == |before| == sx * sy
    requires ChunksDone(mid, cur, before, sx, sy, chunk) && now == ChunkEffect(cur, mid, sx, sy, chunk)
    ensures ChunksDone(now, cur, before, sx, sy, chunk + 1)
  {
    hide MeanAt;
  }

  /** Writing position x of a chunk adds exactly that cell to the cells done. */
  lemma ChunkStep(sx: nat, sy: nat, chunk: nat, x: nat)
    requires x < sy && chunk < sx
    ensures (chunk * sy + x) / sy == chunk && (chunk * sy + x) % sy == x
    ensures forall j: nat {:trigger j / sy} :: j < sx * sy && j / sy == chunk && j % sy == x ==> j == chunk * sy + x
  {
    Split(x, chunk, sy);
    forall j: nat | j < sx * sy && j / sy == chunk && j % sy == x
      ensures j == chunk * sy + x
    {
      RowInRange(j, sy, sx);
    }
  }

  lemma AllChunks(now: seq<real>, cur: seq<real>, before: seq<real>, sx: nat, sy: nat)
    requires sy >= 1 && |now| == |cur| == |before| == sx * sy
    requires ChunksDone(now, cur, before, sx, sy, sx)
    ensures now == Chunked(cur, before, sx, sy)
  {
    hide ChunkCell;
    forall j: nat | j < |now|
      ensures now[j] == Chunked(cur, before, sx, sy)[j]
    {
      RowInRange(j, sy, sx);
    }
  }

  /** The closures' stores, one cell at a time, in a given order. */
  function InOrder(cur: seq<real>, next: seq<real>, sx: nat, sy: nat, order: seq<nat>): (r: seq<real>)
    requires sy >= 1 && |cur| == |next| == sx * sy
    requires forall i :: 0 <= i < |order| ==> order[i] < |next|
    ensures |r| == |next|
  {
    if order == [] then next
    else
      var k, j := |order| - 1, order[|order| - 1];
      var before := InOrder(cur, next, sx, sy, order[..k]);
      before[j := ChunkCell(cur, before, sx, sy, j)]
  }

  lemma {:induction false} InOrderAt(cur: seq<real>, next: seq<real>, sx: nat, sy: nat, order: seq<nat>, j: nat)
    requires sy >= 1 && |cur| == |next| == sx * sy && j < |next|
    requires forall i :: 0 <= i < |order| ==> order[i] < |next|
    ensures InOrder(cur, next, sx, sy, order)[j]
         == if j in order then ChunkCell(cur, next, sx, sy, j) else next[j]
  {
    hide MeanAt;
    if order != [] {
      InOrderAt(cur, next, sx, sy, order[..|order| - 1], j);
      assert order == order[..|order| - 1] + [order[|order| - 1]];
    }
  }

  /** Offsets that some closure stores to. */
  predicate Stored(sx: nat, sy: nat, j: nat)
    requires sy >= 1
  {
    0 < j / sy < sy - 1 && 1 <= j % sy < sx - 1
  }

  /** The closures' stores may interleave in any way: whatever the order, when every cell of
      every closure has been stored the buffer is the same. */
  lemma AnyCellOrder(cur: seq<real>, next: seq<real>, sx: nat, sy: nat, order: seq<nat>)
    requires sy >= 1 && |cur| == |next| == sx * sy
    requires forall i :: 0 <= i < |order| ==> order[i] < |next|
    requires forall j: nat :: j < |next| && Stored(sx, sy, j) ==> j in order
    ensures InOrder(cur, next, sx, sy, order) == Chunked(cur, next, sx, sy)
  {
    hide InOrder, MeanAt;
    forall j: nat | j < |next|
      ensures InOrder(cur, next, sx, sy, order)[j] == Chunked(cur, next, sx, sy)[j]
    {
      InOrderAt(cur, next, sx, sy, order, j);
      assert Stored(sx, sy, j) ==> j in order;
    }
  }

  // ---------- what an iteration means ----------

  /** The Jacobi step on buffers: row j / size_x, column j % size_x. */
  function StepCell(cur: seq<real>, next: seq<real>, sx: nat, sy: nat, j: nat): real
    requires |cur| == |next| == sx * sy && j < |next|
  {
    RowInRange(j, sx, sy);
    if Interior(sx, sy, j % sx, j / sx) then
      NeighboursInRange(j % sx, j / sx, sx, sy);
      MeanAt(cur, j, sx)
    else
      next[j]
  }

  ghost predicate StepsAt(cur: seq<real>, next: seq<real>, sx: nat, sy: nat)
    requires sy >= 1 && |cur| == |next| == sx * sy
  {
    forall j :: 0 <= j < |next| ==> Chunked(cur, next, sx, sy)[j] == StepCell(cur, next, sx, sy, j)
  }

  /** Whatever the buffers hold, the iteration runs and writes the Jacobi step. */
  ghost predicate IterationIsJacobi(sx: nat, sy: nat)
    requires sy >= 1
  {
    && InBounds(sx, sy)
    && (forall cur: seq<real>, next: seq<real> :: |cur| == |next| == sx * sy ==> StepsAt(cur, next, sx, sy))
  }

  predicate GoodShape(sx: nat, sy: nat) { sx == sy || sx <= 2 || sy <= 2 }

  lemma GoodShapeSteps(cur: seq<real>, next: seq<real>, sx: nat, sy: nat)
    requires sy >= 1 && |cur| == |next| == sx * sy && GoodShape(sx, sy)
    ensures StepsAt(cur, next, sx, sy)
  {
    forall j | 0 <= j < |next|
      ensures Chunked(cur, next, sx, sy)[j] == StepCell(cur, next, sx, sy, j)
    {
      RowInRange(j, sx, sy);
      RowInRange(j, sy, sx);
    }
  }

  function Constant(n: nat, v: real): (s: seq<real>)
    ensures |s| == n && forall j :: 0 <= j < n ==> s[j] == v
  {
    seq(n, _ => v)
  }

  lemma TallCell(cur: seq<real>, next: seq<real>, sx: nat, sy: nat)
    requires 3 <= sx < sy && |cur| == |next| == sx * sy
    ensures sx + 1 < |next| && ChunkCell(cur, next, sx, sy, sx + 1) == next[sx + 1]
  {
    hide MeanAt;
    CellBound(1, 1, sx, sy);
    if sx + 1 < sy {
      Split(sx + 1, 0, sy);
    } else {
      Split(0, 1, sy);
    }
  }

  lemma WantedCell(cur: seq<real>, next: seq<real>, sx: nat, sy: nat)
    requires 3 <= sx && 3 <= sy && |cur| == |next| == sx * sy
    ensures 2 * sx + 1 < |next|
    ensures StepCell(cur, next, sx, sy, sx + 1) == (cur[sx] + cur[sx + 2] + cur[2 * sx + 1] + cur[1]) * 0.25
  {
    CellBound(1, 1, sx, sy);
    Split(1, 1, sx);
    NeighboursInRange(1, 1, sx, sy);
    assert StepCell(cur, next, sx, sy, sx + 1) == MeanAt(cur, sx + 1, sx);
  }

  /** Fewer columns than rows: cell (1, 1) is never written. */
  lemma TallGridFails(sx: nat, sy: nat)
    requires 3 <= sx < sy
    ensures var n := sx * sy; !StepsAt(Constant(n, 0.0), Constant(n, 1.0), sx, sy)
  {
    hide ChunkCell, StepCell;
    var cur, next := Constant(sx * sy, 0.0), Constant(sx * sy, 1.0);
    TallCell(cur, next, sx, sy);
    WantedCell(cur, next, sx, sy);
    assert Chunked(cur, next, sx, sy)[sx + 1] == 1.0;
  }

  /** One more column than rows: cell (1, 1) gets the mean meant for (2, 1). */
  lemma WideGridFails(sx: nat, sy: nat)
    requires sy >= 3 && sx == sy + 1
    ensures var n := sx * sy; 1 < n && !StepsAt(Constant(n, 0.0)[1 := 4.0], Constant(n, 0.0), sx, sy)
  {
    hide ChunkCell, StepCell;
    CellBound(1, 1, sx, sy);
    var cur, next := Constant(sx * sy, 0.0)[1 := 4.0], Constant(sx * sy, 0.0);
    WideCell(cur, next, sx, sy);
    WantedCell(cur, next, sx, sy);
    assert Chunked(cur, next, sx, sy)[sx + 1] == 0.0;
  }

  lemma WideCell(cur: seq<real>, next: seq<real>, sx: nat, sy: nat)
    requires sy >= 3 && sx == sy + 1 && |cur| == |next| == sx * sy
    ensures 2 * sx + 2 < |next|
    ensures ChunkCell(cur, next, sx, sy, sx + 1) == (cur[sx + 1] + cur[sx + 3] + cur[2 * sx + 2] + cur[2]) * 0.25
  {
    CellBound(1, 1, sx, sy);
    NeighboursInRange(2, 1, sx, sy);
    Split(2, 1, sy);
    assert ChunkCell(cur, next, sx, sy, sx + 1) == MeanAt(cur, sx + 2, sx);
  }

  /** The iteration computes the Jacobi step on square grids and on grids without an
      interior, and on no others. */
  lemma IterationIsJacobiIff(sx: nat, sy: nat)
    requires sy >= 1
    ensures IterationIsJacobi(sx, sy) <==> GoodShape(sx, sy)
  {
    hide StepsAt;
    InBoundsIff(sx, sy);
    if GoodShape(sx, sy) {
      forall cur: seq<real>, next: seq<real> | |cur| == |next| == sx * sy
        ensures StepsAt(cur, next, sx, sy)
      {
        GoodShapeSteps(cur, next, sx, sy);
      }
    } else if sx < sy {
      TallGridFails(sx, sy);
    } else if sx == sy + 1 {
      WideGridFails(sx, sy);
    }
  }

  /** `next` agrees with the field on the edge of the grid. */
  ghost predicate EdgeHolds(s: seq<real>, f: Field, sx: nat, sy: nat) {
    && |s| == sx * sy
    && (forall j :: 0 <= j < |s| && sx > 0 && OnEdge(j, sx, sy) ==> s[j] == f(j % sx, j / sx))
  }

  /** On buffers that hold fields, the iteration is the step on fields. */
  lemma IterationRefinesStep(cur: seq<real>, next: seq<real>, f: Field, sx: nat, sy: nat)
    requires sy >= 1 && GoodShape(sx, sy)
    requires Holds(cur, f, sx, sy) && EdgeHolds(next, f, sx, sy)
    ensures Holds(Chunked(cur, next, sx, sy), Step(f, sx, sy), sx, sy)
    ensures EdgeHolds(cur, Step(f, sx, sy), sx, sy)
  {
    GoodShapeSteps(cur, next, sx, sy);
    forall j | 0 <= j < |next| && sx > 0
      ensures Chunked(cur, next, sx, sy)[j] == Step(f, sx, sy)(j % sx, j / sx)
    {
      StepCellAt(cur, next, f, sx, sy, j);
    }
  }

  lemma StepCellAt(cur: seq<real>, next: seq<real>, f: Field, sx: nat, sy: nat, j: nat)
    requires Holds(cur, f, sx, sy) && EdgeHolds(next, f, sx, sy) && j < |next|
    ensures sx > 0 && StepCell(cur, next, sx, sy, j) == Step(f, sx, sy)(j % sx, j / sx)
  {
    hide Avg, MeanAt;
    RowInRange(j, sx, sy);
    if Interior(sx, sy, j % sx, j / sx) {
      MeanHeld(cur, f, sx, sy, j % sx, j / sx);
    } else {
      assert OnEdge(j, sx, sy);
    }
  }

  lemma MeanHeld(s: seq<real>, f: Field, sx: nat, sy: nat, x: int, y: int)
    requires Holds(s, f, sx, sy) && Interior(sx, sy, x, y)
    ensures 1 <= sx <= y * sx + x && y * sx + x + sx < |s|
    ensures MeanAt(s, y * sx + x, sx) == Avg(f, x, y)
  {
    hide Holds, Avg;
    NeighboursInRange(x, y, sx, sy);
    HoldsAt(s, f, sx, sy, x - 1, y);
    HoldsAt(s, f, sx, sy, x + 1, y);
    HoldsAt(s, f, sx, sy, x, y + 1);
    HoldsAt(s, f, sx, sy, x, y - 1);
    AvgAt(f, x, y);
  }

  // ---------- compute ----------

  /** The two buffers after n rounds of iterating into the second and swapping. */
  function Rounds(cur: seq<real>, next: seq<real>, sx: nat, sy: nat, n: nat): (r: (seq<real>, seq<real>))
    requires sy >= 1 && |cur| == |next| == sx * sy
    ensures |r.0| == |r.1| == sx * sy
  {
    if n == 0 then (cur, next)
    else
      var (c, d) := Rounds(cur, next, sx, sy, n - 1);
      (Chunked(c, d, sx, sy), c)
  }

  /** Swapping buffers refines the iteration on fields, for any number of rounds. */
  lemma {:induction false} RoundsRefineIterate(cur: seq<real>, next: seq<real>, f: Field, sx: nat, sy: nat, n: nat)
    requires sy >= 1 && GoodShape(sx, sy)
    requires |cur| == |next| == sx * sy && Holds(cur, f, sx, sy) && EdgeHolds(next, f, sx, sy)
    ensures Holds(Rounds(cur, next, sx, sy, n).0, Iterate(f, sx, sy, n), sx, sy)
    ensures EdgeHolds(Rounds(cur, next, sx, sy, n).1, Iterate(f, sx, sy, n), sx, sy)
  {
    hide Holds, EdgeHolds, Step, Chunked;
    if n > 0 {
      RoundsRefineIterate(cur, next, f, sx, sy, n - 1);
      var (c, d) := Rounds(cur, next, sx, sy, n - 1);
      RoundsLengths(c, d, Iterate(f, sx, sy, n - 1), sx, sy);
      IterationRefinesStep(c, d, Iterate(f, sx, sy, n - 1), sx, sy);
    }
  }

  lemma RoundsLengths(c: seq<real>, d: seq<real>, f: Field, sx: nat, sy: nat)
    requires Holds(c, f, sx, sy) && EdgeHolds(d, f, sx, sy)
    ensures |c| == |d| == sx * sy
  {
  }

  const ITERATIONS: nat := 1000

  /** Iterate and swap `limit` times; the source's limit is ITERATIONS. */
  method Compute(a: array<real>, b: array<real>, sx: nat, sy: nat, limit: nat) returns (counter: nat, residual: real)
    requires sy >= 1 && (sx >= 1 || sy <= 2) && InBounds(sx, sy)
    requires a != b && a.Length == b.Length == sx * sy
    modifies a, b
    ensures counter == limit
    ensures var (c, d) := Rounds(old(a[..]), old(b[..]), sx, sy, limit);
            && (if limit % 2 == 0 then a[..] == c && b[..] == d else a[..] == d && b[..] == c)
            && residual == Residual(FieldOf(c, sx), sx, sy)
  {
    ghost var c0, d0 := a[..], b[..];
    var current, next := a, b;
    counter := 0;
    while counter < limit
      invariant 0 <= counter <= limit
      invariant if counter % 2 == 0 then current == a && next == b else current == b && next == a
      invariant (current[..], next[..]) == Rounds(c0, d0, sx, sy, counter)
    {
      Iteration(current, next, sx, sy);
      current, next := next, current;
      counter := counter + 1;
    }
    residual := GetResidual(current, sx, sy);
  }

  lemma HeldResidual(s: seq<real>, f: Field, sx: nat, sy: nat)
    requires Holds(s, f, sx, sy)
    ensures Residual(FieldOf(s, sx), sx, sy) == Residual(f, sx, sy)
  {
    hide SumAll, FieldOf, ChangeSquared;
    var g := FieldOf(s, sx);
    forall x, y | 1 <= x < sx - 1 && 1 <= y < sy - 1
      ensures ChangeSquared(g)(x, y) == ChangeSquared(f)(x, y)
    {
      HeldChange(s, f, sx, sy, x, y);
    }
    SumAllCongruent(ChangeSquared(g), ChangeSquared(f), sx - 1, sy - 1);
  }

  lemma HeldChange(s: seq<real>, f: Field, sx: nat, sy: nat, x: int, y: int)
    requires Holds(s, f, sx, sy) && Interior(sx, sy, x, y)
    ensures ChangeSquared(FieldOf(s, sx))(x, y) == ChangeSquared(f)(x, y)
  {
    hide Holds, Avg, Square;
    var g := FieldOf(s, sx);
    HoldsAt(s, f, sx, sy, x, y);
    HoldsAt(s, f, sx, sy, x - 1, y);
    HoldsAt(s, f, sx, sy, x + 1, y);
    HoldsAt(s, f, sx, sy, x, y + 1);
    HoldsAt(s, f, sx, sy, x, y - 1);
    AvgAt(f, x, y);
    AvgAt(g, x, y);
  }

  datatype Outcome = Ok | Err

  /** The solver as the demo runs it: set up, compute, and compare with the threshold. */
  method Demo(sx: nat, sy: nat) returns (outcome: Outcome)
    requires sx >= 1 && sy >= 1 && InBounds(sx, sy)
    ensures GoodShape(sx, sy) ==>
      (outcome.Ok? <==> Residual(Solution(sx, sy, ITERATIONS), sx, sy) < 0.01)
    ensures sx == sy <= 151 ==> outcome.Ok?
  {
    hide Rounds, Iterate, Residual, Holds, EdgeHolds;
    var a, b := MatrixSetup(sx, sy);
    ghost var f := Initial(sx, sy);
    ghost var c, d := a[..], b[..];
    var counter, residual := Compute(a, b, sx, sy, ITERATIONS);
    if GoodShape(sx, sy) {
      SolvedResidual(c, d, sx, sy, ITERATIONS);
      if sx == sy <= 151 {
        SmallResidual(sx, ITERATIONS);
      }
    }
    outcome := if residual < 0.01 then Ok else Err;
  }

  lemma SolvedResidual(a: seq<real>, b: seq<real>, sx: nat, sy: nat, n: nat)
    requires sx >= 1 && sy >= 1 && GoodShape(sx, sy)
    requires Holds(a, Initial(sx, sy), sx, sy) && Holds(b, Initial(sx, sy), sx, sy)
    ensures Residual(FieldOf(Rounds(a, b, sx, sy, n).0, sx), sx, sy) == Residual(Solution(sx, sy, n), sx, sy)
  {
    RoundsRefineIterate(a, b, Initial(sx, sy), sx, sy, n);
    HeldResidual(Rounds(a, b, sx, sy, n).0, Solution(sx, sy, n), sx, sy);
  }

  lemma SmallResidual(size: nat, n: nat)
    requires 1 <= size <= 151 && n == ITERATIONS
    ensures Residual(Solution(size, size, n), size, size) < 0.01
  {
    hide Residual, Solution;
    if size >= 2 {
      Residuals.ResidualDecays(size, size, n, 1500);
      MulMonotone(size - 2, 149, size - 2);
      MulMonotone(size - 2, 149, 149);
    } else {
      EmptyResidual(Solution(size, size, n), size, size);
    }
  }

  lemma EmptyResidual(f: Field, sx: nat, sy: nat)
    requires sy <= 2
    ensures Residual(f, sx, sy) == 0.0
  {
  }
}
