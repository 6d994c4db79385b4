/** The layout every generator loop produces. Each of the three loops in a
    generator runs `for r in [0, n)` around `for v in [0, W)` and pushes a
    fixed number k of elements per iteration (one position, one normal, or
    the six indices of a quad). `Grid(cell, W, n)` is everything such a loop
    appends, where `cell(v, r)` is what iteration (v, r) pushes. */
module Layout {

  /** What iterations (0, r) .. (m - 1, r) of one row push, in that order. */
  function RowCells<T>(cell: (nat, nat) -> seq<T>, r: nat, m: nat): seq<T>
  {
    if m == 0 then [] else RowCells(cell, r, m - 1) + cell(m - 1, r)
  }

  /** What rows 0 .. n - 1, each of W iterations, push, in r-major order. */
  function Grid<T>(cell: (nat, nat) -> seq<T>, W: nat, n: nat): seq<T>
  {
    if n == 0 then [] else Grid(cell, W, n - 1) + RowCells(cell, n - 1, W)
  }

  /** One more pass of the outer loop appends row n. */
  lemma GridStep<T>(cell: (nat, nat) -> seq<T>, W: nat, n: nat)
    ensures Grid(cell, W, n + 1) == Grid(cell, W, n) + RowCells(cell, n, W)
  {
  }

  /** One more pass of the inner loop appends cell (m, r). */
  lemma RowStep<T>(cell: (nat, nat) -> seq<T>, r: nat, m: nat)
    ensures RowCells(cell, r, m + 1) == RowCells(cell, r, m) + cell(m, r)
  {
  }

  lemma AppendAssociates<T>(a: seq<T>, b: seq<T>, c: seq<T>)
    ensures (a + b) + c == a + (b + c)
  {
  }

  /** Every iteration (v, r) of the loop, v < W and r < n, pushes exactly
      k elements. */
  ghost predicate UniformWidth<T>(cell: (nat, nat) -> seq<T>, W: nat, n: nat, k: nat)
  {
    forall v: nat, r: nat :: v < W && r < n ==> |cell(v, r)| == k
  }

  /** Flat position of element j of iteration (v, r). */
  function Offset(W: nat, k: nat, v: nat, r: nat, j: nat): nat
  {
    (r * W + v) * k + j
  }

  lemma {:induction false} RowCellsAt<T>(cell: (nat, nat) -> seq<T>, k: nat, W: nat, n: nat, r: nat, m: nat, v: nat, j: nat)
    requires UniformWidth(cell, W, n, k)
    requires r < n && m <= W && v < m && j < k
    ensures |RowCells(cell, r, m)| == m * k
    ensures v * k + j < m * k
    ensures RowCells(cell, r, m)[v * k + j] == cell(v, r)[j]
  {
    RowCellsLength(cell, k, W, n, r, m - 1);
    MulSucc(m, k);
    if v < m - 1 {
      RowCellsAt(cell, k, W, n, r, m - 1, v, j);
    }
  }

  lemma {:induction false} RowCellsLength<T>(cell: (nat, nat) -> seq<T>, k: nat, W: nat, n: nat, r: nat, m: nat)
    requires UniformWidth(cell, W, n, k)
    requires r < n && m <= W
    ensures |RowCells(cell, r, m)| == m * k
  {
    if m > 0 {
      RowCellsLength(cell, k, W, n, r, m - 1);
      MulSucc(m, k);
    }
  }

  /** A loop that pushes k elements per iteration grows its vector by
      exactly n * W * k elements. */
  lemma {:induction false} GridLength<T>(cell: (nat, nat) -> seq<T>, k: nat, W: nat, n: nat)
    requires UniformWidth(cell, W, n, k)
    ensures |Grid(cell, W, n)| == n * W * k
  {
    if n > 0 {
      GridLength(cell, k, W, n - 1);
      RowCellsLength(cell, k, W, n, n - 1, W);
      RowsSucc(n, W, k);
    }
  }

  /** The rows pushed so far stay in place as the outer loop goes on. */
  lemma {:induction false} GridPrefix<T>(cell: (nat, nat) -> seq<T>, W: nat, m: nat, n: nat)
    requires m <= n
    ensures |Grid(cell, W, m)| <= |Grid(cell, W, n)|
    ensures Grid(cell, W, n)[..|Grid(cell, W, m)|] == Grid(cell, W, m)
  {
    if m < n {
      GridPrefix(cell, W, m, n - 1);
      assert Grid(cell, W, n) == Grid(cell, W, n - 1) + RowCells(cell, n - 1, W);
    }
  }

  /** Element j of iteration (v, r) sits at flat position (r * W + v) * k + j. */
  lemma GridAt<T>(cell: (nat, nat) -> seq<T>, k: nat, W: nat, n: nat, v: nat, r: nat, j: nat)
    requires UniformWidth(cell, W, n, k)
    requires v < W && r < n && j < k
    ensures |Grid(cell, W, n)| == n * W * k
    ensures Offset(W, k, v, r, j) < n * W * k
    ensures Grid(cell, W, n)[Offset(W, k, v, r, j)] == cell(v, r)[j]
  {
    var before, row := Grid(cell, W, r), RowCells(cell, r, W);
    assert Grid(cell, W, r + 1) == before + row;
    GridLength(cell, k, W, r);
    GridLength(cell, k, W, n);
    RowCellsAt(cell, k, W, n, r, W, v, j);
    OffsetSplit(W, k, v, r, j);
    GridPrefix(cell, W, r + 1, n);
    ProductIsNat(v, k);
    ConcatAt(before, row, v * k + j);
  }

  lemma ProductIsNat(a: nat, b: nat)
    ensures a * b >= 0
  {
  }

  lemma ConcatAt<T>(a: seq<T>, b: seq<T>, i: nat)
    requires i < |b|
    ensures (a + b)[|a| + i] == b[i]
  {
  }

  lemma MulSucc(m: nat, k: nat)
    requires m > 0
    ensures m * k == (m - 1) * k + k
  {
  }

  lemma RowsSucc(n: nat, W: nat, k: nat)
    requires n > 0
    ensures n * W * k == (n - 1) * W * k + W * k
  {
  }

  lemma OffsetSplit(W: nat, k: nat, v: nat, r: nat, j: nat)
    ensures Offset(W, k, v, r, j) == r * W * k + (v * k + j)
  {
  }

  /** If every element pushed by every iteration is below B, so is every
      element of the grid. */
  lemma {:induction false} GridBelow(cell: (nat, nat) -> seq<nat>, W: nat, n: nat, B: nat)
    requires forall v: nat, r: nat, x: nat :: v < W && r < n && x in cell(v, r) ==> x < B
    ensures forall x: nat :: x in Grid(cell, W, n) ==> x < B
  {
    if n > 0 {
      GridBelow(cell, W, n - 1, B);
      RowBelow(cell, n - 1, W, B);
    }
  }

  lemma {:induction false} RowBelow(cell: (nat, nat) -> seq<nat>, r: nat, m: nat, B: nat)
    requires forall v: nat, x: nat :: v < m && x in cell(v, r) ==> x < B
    ensures forall x: nat :: x in RowCells(cell, r, m) ==> x < B
  {
    if m > 0 {
      RowBelow(cell, r, m - 1, B);
    }
  }
}
