/** Elevation grids and nodata masks as the engine sees them: dense 2-D arrays
    indexed [row][column], where the row index is numpy's axis 0 (which the
    source calls "width") and the column index is axis 1 ("height"). */
module Grids {
  import opened Wrappers

  type Grid = seq<seq<real>>
  type Mask = seq<seq<bool>>

  function Abs(x: real): real {
    if x < 0.0 then -x else x
  }

  /** Number of columns (numpy `shape[1]`); a grid without rows has none. */
  function Cols<T>(g: seq<seq<T>>): nat {
    if |g| == 0 then 0 else |g[0]|
  }

  predicate IsGrid<T>(g: seq<seq<T>>, rows: nat, cols: nat) {
    |g| == rows && forall r :: 0 <= r < rows ==> |g[r]| == cols
  }

  /** Every row has the same length, as in a numpy 2-D array. */
  predicate IsRect<T>(g: seq<seq<T>>) {
    IsGrid(g, |g|, Cols(g))
  }

  lemma GridIsRect<T>(g: seq<seq<T>>, rows: nat, cols: nat)
    requires IsGrid(g, rows, cols)
    ensures IsRect(g) && (rows > 0 ==> Cols(g) == cols)
  {
  }

  /** An optional mask (`nodata_mask=None` or an array) of the same shape as `g`. */
  predicate MaskFits(mask: Option<Mask>, g: Grid) {
    IsRect(g) && (mask.Some? ==> IsGrid(mask.value, |g|, Cols(g)))
  }

  /** `nodata_mask is not None and nodata_mask[r, c]` */
  function Masked(mask: Option<Mask>, g: Grid, r: int, c: int): bool
    requires MaskFits(mask, g)
    requires 0 <= r < |g| && 0 <= c < Cols(g)
  {
    mask.Some? && mask.value[r][c]
  }

  /** `np.where(valid_mask, dtin, 0.0)`: nodata cells read as zero. */
  function Zeroed(g: Grid, mask: Option<Mask>): (z: Grid)
    requires MaskFits(mask, g)
    ensures IsGrid(z, |g|, Cols(g))
  {
    seq(|g|, r requires 0 <= r < |g| =>
      seq(Cols(g), c requires 0 <= c < Cols(g) => if Masked(mask, g, r, c) then 0.0 else g[r][c]))
  }

  /** `valid_mask.astype(float)`: 1 on valid cells, 0 on nodata cells. */
  function Indicator(g: Grid, mask: Option<Mask>): (v: Grid)
    requires MaskFits(mask, g)
    ensures IsGrid(v, |g|, Cols(g))
  {
    seq(|g|, r requires 0 <= r < |g| =>
      seq(Cols(g), c requires 0 <= c < Cols(g) => if Masked(mask, g, r, c) then 0.0 else 1.0))
  }

  /** Sum of row `l` of `a` over the columns [c0, c1), accumulated left to right. */
  function RowSum(a: Grid, l: int, c0: int, c1: int): real
    requires IsRect(a) && 0 <= l < |a| && 0 <= c0 && c1 <= Cols(a)
    decreases c1 - c0
  {
    if c1 <= c0 then 0.0 else RowSum(a, l, c0, c1 - 1) + a[l][c1 - 1]
  }

  /** Sum of `a` over rows [r0, r1) and columns [c0, c1), row by row. */
  function RectSum(a: Grid, r0: int, r1: int, c0: int, c1: int): real
    requires IsRect(a) && 0 <= r0 && r1 <= |a| && 0 <= c0 && c1 <= Cols(a)
    decreases r1 - r0
  {
    if r1 <= r0 then 0.0 else RectSum(a, r0, r1 - 1, c0, c1) + RowSum(a, r1 - 1, c0, c1)
  }

  /** The value of `a` at (r, c) with zero padding outside the grid
      (`mode='constant', cval=0.0`). */
  function Tap(a: Grid, r: int, c: int): real
    requires IsRect(a)
  {
    if 0 <= r < |a| && 0 <= c < Cols(a) then a[r][c] else 0.0
  }

  /** The three taps of row `r` centred on column `j`. */
  function Taps3(a: Grid, r: int, j: int): real
    requires IsRect(a)
  {
    Tap(a, r, j - 1) + Tap(a, r, j) + Tap(a, r, j + 1)
  }

  /** Window start as the loop computes it: `0 if i == 0 else i - 1`. */
  function WindowStart(i: int): int {
    if i == 0 then 0 else i - 1
  }

  /** Window end as the loop computes it: `i + 1 if i == n - 1 else i + 2`. */
  function WindowEnd(i: int, n: int): int {
    if i == n - 1 then i + 1 else i + 2
  }

  lemma WindowBounds(i: int, n: int)
    requires 0 <= i < n
    ensures WindowStart(i) == (if i - 1 < 0 then 0 else i - 1)
    ensures WindowEnd(i, n) == (if i + 2 > n then n else i + 2)
  {
  }

  /** Summing one row over the clipped window [WindowStart(j), WindowEnd(j, C))
      gives the three zero-padded taps around column j. */
  lemma {:induction false} RowWindow(a: Grid, l: int, j: int)
    requires IsRect(a) && 0 <= l < |a| && 0 <= j < Cols(a)
    ensures RowSum(a, l, WindowStart(j), WindowEnd(j, Cols(a))) == Taps3(a, l, j)
  {
    var c0, c1 := WindowStart(j), WindowEnd(j, Cols(a));
    assert RowSum(a, l, c0, c0) == 0.0;
    if c0 == j - 1 {
      assert RowSum(a, l, c0, j) == a[l][j - 1];
      assert RowSum(a, l, c0, j + 1) == a[l][j - 1] + a[l][j];
    } else {
      assert RowSum(a, l, c0, j + 1) == a[l][j];
    }
    if c1 == j + 2 {
      assert RowSum(a, l, c0, c1) == RowSum(a, l, c0, j + 1) + a[l][j + 1];
    }
  }

  /** The clipped 3x3 window of the loop version covers exactly the nine
      zero-padded taps around (i, j): clipping and zero padding agree. */
  lemma {:induction false} Window(a: Grid, i: int, j: int)
    requires IsRect(a) && 0 <= i < |a| && 0 <= j < Cols(a)
    ensures RectSum(a, WindowStart(i), WindowEnd(i, |a|), WindowStart(j), WindowEnd(j, Cols(a)))
            == Taps3(a, i - 1, j) + Taps3(a, i, j) + Taps3(a, i + 1, j)
  {
    var r0, r1 := WindowStart(i), WindowEnd(i, |a|);
    var c0, c1 := WindowStart(j), WindowEnd(j, Cols(a));
    assert RectSum(a, r0, r0, c0, c1) == 0.0;
    if r0 == i - 1 {
      RowWindow(a, i - 1, j);
      assert RectSum(a, r0, i, c0, c1) == Taps3(a, i - 1, j);
    } else {
      assert Taps3(a, i - 1, j) == 0.0;
    }
    RowWindow(a, i, j);
    assert RectSum(a, r0, i + 1, c0, c1) == Taps3(a, i - 1, j) + Taps3(a, i, j);
    if r1 == i + 2 {
      RowWindow(a, i + 1, j);
    } else {
      assert Taps3(a, i + 1, j) == 0.0;
    }
  }

  /** `np.repeat(s, z)` along one axis: every element `z` times in a row. */
  function Repeat<T>(s: seq<T>, z: nat): (r: seq<T>)
    decreases |s|
  {
    if |s| == 0 then [] else seq(z, _ => s[0]) + Repeat(s[1..], z)
  }

  lemma {:induction false} RepeatLength<T>(s: seq<T>, z: nat)
    ensures |Repeat(s, z)| == |s| * z
    decreases |s|
  {
    if |s| > 0 {
      RepeatLength(s[1..], z);
      assert |s| * z == z + (|s| - 1) * z;
    }
  }

  lemma RepeatAt<T>(s: seq<T>, z: nat, k: int)
    requires 0 <= k < |s| * z
    ensures z > 0 && |Repeat(s, z)| == |s| * z && Repeat(s, z)[k] == s[k / z]
  {
    ProductPositive(|s|, z);
    var i, m := k / z, k % z;
    DivMod(k, z);
    DivBound(k, z, |s|);
    RepeatBlock(s, z, i, m);
  }

  lemma DivMod(x: int, z: int)
    requires z > 0
    ensures x == (x / z) * z + x % z && 0 <= x % z < z
  {
  }

  /** Element m of the i-th run of the repetition is s[i]. */
  lemma {:induction false} RepeatBlock<T>(s: seq<T>, z: nat, i: int, m: int)
    requires 0 <= i < |s| && 0 <= m < z
    ensures |Repeat(s, z)| == |s| * z && 0 <= i * z + m < |s| * z && Repeat(s, z)[i * z + m] == s[i]
    decreases i
  {
    RepeatLength(s, z);
    MulLe(i + 1, |s|, z);
    MulLe(0, i, z);
    assert (i + 1) * z == i * z + z;
    var head := seq(z, _ => s[0]);
    assert Repeat(s, z) == head + Repeat(s[1..], z);
    if i > 0 {
      RepeatBlock(s[1..], z, i - 1, m);
      assert (i - 1) * z + m + z == i * z + m;
      assert Repeat(s, z)[i * z + m] == Repeat(s[1..], z)[(i - 1) * z + m];
    }
  }

  lemma ProductPositive(a: int, z: int)
    requires a >= 0 && z >= 0 && a * z > 0
    ensures a > 0 && z > 0
  {
  }

  lemma MulLe(a: int, b: int, z: int)
    requires a <= b && z >= 0
    ensures a * z <= b * z
  {
    assert b * z - a * z == (b - a) * z;
  }

  lemma MulLess(a: int, b: int, z: int)
    requires z > 0
    ensures a < b <==> a * z < b * z
  {
    if a < b {
      MulLe(a + 1, b, z);
      assert (a + 1) * z == a * z + z;
    } else {
      MulLe(b, a, z);
    }
  }

  /** Integer division is determined by quotient and remainder. */
  lemma DivUnique(x: int, z: int, q: int, m: int)
    requires z > 0 && 0 <= m < z && x == q * z + m
    ensures x / z == q && x % z == m
  {
    var q0 := x / z;
    MulLess(q, q0 + 1, z);
    MulLess(q0, q + 1, z);
    assert (q0 + 1) * z == q0 * z + z;
    assert (q + 1) * z == q * z + z;
  }

  /** A cell of the block [i*z, i*z + z) belongs to block i. */
  lemma BlockIndex(r: int, i: int, z: int)
    requires z > 0 && i * z <= r < i * z + z
    ensures r / z == i
  {
    DivUnique(r, z, i, r - i * z);
  }

  /** A position of the i-th run of length z lies below n * z when i < n. */
  lemma BlockInRange(r: int, i: int, n: int, z: int)
    requires z > 0 && 0 <= i < n && i * z <= r < i * z + z
    ensures 0 <= r < n * z && r / z == i
  {
    BlockIndex(r, i, z);
    MulLe(i + 1, n, z);
    MulLe(0, i, z);
    assert (i + 1) * z == i * z + z;
  }

  /** `np.repeat(np.repeat(g, z, axis=0), z, axis=1)`: nearest-neighbour
      block replication of a 2-D array. */
  function Expand<T>(g: seq<seq<T>>, z: nat): seq<seq<T>> {
    var tall := Repeat(g, z);
    seq(|tall|, r requires 0 <= r < |tall| => Repeat(tall[r], z))
  }

  lemma ExpandShape<T>(g: seq<seq<T>>, z: nat, rows: nat, cols: nat)
    requires IsGrid(g, rows, cols)
    ensures IsGrid(Expand(g, z), rows * z, cols * z)
  {
    RepeatLength(g, z);
    var tall := Repeat(g, z);
    var e := Expand(g, z);
    assert |e| == rows * z;
    forall r | 0 <= r < rows * z
      ensures |e[r]| == cols * z
    {
      RepeatAt(g, z, r);
      DivBound(r, z, rows);
      var i := r / z;
      assert tall[r] == g[i] && |g[i]| == cols;
      RepeatLength(g[i], z);
      assert e[r] == Repeat(g[i], z);
    }
  }

  /** Cell (r, c) of the expansion comes from the cell (r / z, c / z). */
  lemma ExpandCell<T>(g: seq<seq<T>>, z: nat, rows: nat, cols: nat, r: int, c: int)
    requires IsGrid(g, rows, cols)
    requires 0 <= r < rows * z && 0 <= c < cols * z
    ensures IsGrid(Expand(g, z), rows * z, cols * z)
    ensures 0 <= r / z < rows && 0 <= c / z < cols && Expand(g, z)[r][c] == g[r / z][c / z]
  {
    ExpandShape(g, z, rows, cols);
    ExpandValue(g, z, rows, cols, r, c);
  }

  lemma ExpandValue<T>(g: seq<seq<T>>, z: nat, rows: nat, cols: nat, r: int, c: int)
    requires IsGrid(g, rows, cols)
    requires 0 <= r < rows * z && 0 <= c < cols * z
    ensures 0 <= r / z < rows && 0 <= c / z < cols
    ensures r < |Expand(g, z)| && c < |Expand(g, z)[r]| && Expand(g, z)[r][c] == g[r / z][c / z]
  {
    var tall := Repeat(g, z);
    RepeatAt(g, z, r);
    var i := r / z;
    DivBound(r, z, rows);
    assert tall[r] == g[i];
    RepeatAt(g[i], z, c);
    DivBound(c, z, cols);
  }

  lemma DivBound(r: int, z: int, n: int)
    requires z > 0 && 0 <= r < n * z
    ensures 0 <= r / z < n
  {
    var q := r / z;
    assert q * z + r % z == r;
    MulLess(q, n, z);
    MulLe(0, q, z);
  }

  /** When one grid is `k` times another over a rectangle, so are its sums. */
  lemma {:induction false} RowSumScaled(a: Grid, b: Grid, l: int, c0: int, c1: int, k: real)
    requires IsRect(a) && IsRect(b) && |a| == |b| && Cols(a) == Cols(b)
    requires 0 <= l < |a| && 0 <= c0 && c1 <= Cols(a)
    requires forall m :: c0 <= m < c1 ==> a[l][m] == k * b[l][m]
    ensures RowSum(a, l, c0, c1) == k * RowSum(b, l, c0, c1)
    decreases c1 - c0
  {
    if c0 < c1 {
      RowSumScaled(a, b, l, c0, c1 - 1, k);
    }
  }

  lemma {:induction false} RectSumScaled(a: Grid, b: Grid, r0: int, r1: int, c0: int, c1: int, k: real)
    requires IsRect(a) && IsRect(b) && |a| == |b| && Cols(a) == Cols(b)
    requires 0 <= r0 && r1 <= |a| && 0 <= c0 && c1 <= Cols(a)
    requires forall l, m :: r0 <= l < r1 && c0 <= m < c1 ==> a[l][m] == k * b[l][m]
    ensures RectSum(a, r0, r1, c0, c1) == k * RectSum(b, r0, r1, c0, c1)
    decreases r1 - r0
  {
    if r0 < r1 {
      RectSumScaled(a, b, r0, r1 - 1, c0, c1, k);
      RowSumScaled(a, b, r1 - 1, c0, c1, k);
    }
  }

  /** When one grid is another plus `k` times a third over a rectangle, so
      are its sums. */
  lemma {:induction false} RowSumShifted(a: Grid, b: Grid, w: Grid, l: int, c0: int, c1: int, k: real)
    requires IsRect(a) && IsGrid(b, |a|, Cols(a)) && IsGrid(w, |a|, Cols(a))
    requires 0 <= l < |a| && 0 <= c0 && c1 <= Cols(a)
    requires forall m :: c0 <= m < c1 ==> a[l][m] == b[l][m] + k * w[l][m]
    ensures RowSum(a, l, c0, c1) == RowSum(b, l, c0, c1) + k * RowSum(w, l, c0, c1)
    decreases c1 - c0
  {
    if c0 < c1 {
      RowSumShifted(a, b, w, l, c0, c1 - 1, k);
    }
  }

  lemma {:induction false} RectSumShifted(a: Grid, b: Grid, w: Grid, r0: int, r1: int, c0: int, c1: int, k: real)
    requires IsRect(a) && IsGrid(b, |a|, Cols(a)) && IsGrid(w, |a|, Cols(a))
    requires 0 <= r0 && r1 <= |a| && 0 <= c0 && c1 <= Cols(a)
    requires forall l, m :: r0 <= l < r1 && c0 <= m < c1 ==> a[l][m] == b[l][m] + k * w[l][m]
    ensures RectSum(a, r0, r1, c0, c1) == RectSum(b, r0, r1, c0, c1) + k * RectSum(w, r0, r1, c0, c1)
    decreases r1 - r0
  {
    if r0 < r1 {
      RectSumShifted(a, b, w, r0, r1 - 1, c0, c1, k);
      RowSumShifted(a, b, w, r1 - 1, c0, c1, k);
    }
  }

  /** Cell (l, m) is nodata or holds `k`. */
  predicate ValidIs(g: Grid, mask: Option<Mask>, l: int, m: int, k: real)
    requires MaskFits(mask, g)
  {
    0 <= l < |g| && 0 <= m < Cols(g) && (!Masked(mask, g, l, m) ==> g[l][m] == k)
  }

  /** When every valid cell of a rectangle holds `k`, the valid cells add up
      to `k` times their number. */
  lemma RectSumConstant(g: Grid, mask: Option<Mask>, r0: int, r1: int, c0: int, c1: int, k: real)
    requires MaskFits(mask, g) && 0 <= r0 && r1 <= |g| && 0 <= c0 && c1 <= Cols(g)
    requires forall l, m :: r0 <= l < r1 && c0 <= m < c1 ==> ValidIs(g, mask, l, m, k)
    ensures RectSum(Zeroed(g, mask), r0, r1, c0, c1) == k * RectSum(Indicator(g, mask), r0, r1, c0, c1)
  {
    var a, b := Zeroed(g, mask), Indicator(g, mask);
    forall l, m | r0 <= l < r1 && c0 <= m < c1
      ensures a[l][m] == k * b[l][m]
    {
      assert ValidIs(g, mask, l, m, k);
    }
    RectSumScaled(a, b, r0, r1, c0, c1, k);
  }

  /** Every valid cell of the rectangle holds `k`. */
  predicate UniformOn(g: Grid, mask: Option<Mask>, r0: int, r1: int, c0: int, c1: int, k: real)
    requires MaskFits(mask, g)
  {
    forall l, m :: r0 <= l < r1 && c0 <= m < c1 ==> ValidIs(g, mask, l, m, k)
  }

  /** Adding a grid that holds `k` on every valid cell of a rectangle adds
      `k` times the number of valid cells to their sum. */
  lemma RectSumAdded(g: Grid, mask: Option<Mask>, u: Grid, h: Grid, r0: int, r1: int, c0: int, c1: int, k: real)
    requires MaskFits(mask, g) && IsGrid(u, |g|, Cols(g)) && 0 <= r0 && r1 <= |g| && 0 <= c0 && c1 <= Cols(g)
    requires MaskFits(mask, u) && UniformOn(u, mask, r0, r1, c0, c1, k)
    requires h == Add(g, u)
    ensures MaskFits(mask, h)
    ensures RectSum(Zeroed(h, mask), r0, r1, c0, c1)
         == RectSum(Zeroed(g, mask), r0, r1, c0, c1) + k * RectSum(Indicator(g, mask), r0, r1, c0, c1)
  {
    assert |h| == |g| && Cols(h) == Cols(g);
    var a, b, w := Zeroed(h, mask), Zeroed(g, mask), Indicator(g, mask);
    assert IsGrid(a, |g|, Cols(g)) && IsGrid(b, |g|, Cols(g)) && IsGrid(w, |g|, Cols(g));
    forall l, m | r0 <= l < r1 && c0 <= m < c1
      ensures a[l][m] == b[l][m] + k * w[l][m]
    {
      AddedCell(g, mask, u, l, m, k);
    }
    RectSumShifted(a, b, w, r0, r1, c0, c1, k);
  }

  lemma AddedCell(g: Grid, mask: Option<Mask>, u: Grid, l: int, m: int, k: real)
    requires MaskFits(mask, g) && IsGrid(u, |g|, Cols(g)) && MaskFits(mask, u) && ValidIs(u, mask, l, m, k)
    ensures MaskFits(mask, Add(g, u)) && 0 <= l < |g| && 0 <= m < Cols(g)
    ensures Zeroed(Add(g, u), mask)[l][m] == Zeroed(g, mask)[l][m] + k * Indicator(g, mask)[l][m]
  {
  }

  /** A rectangle of ones adds up to its number of cells. */
  lemma {:induction false} RowSumOnes(a: Grid, l: int, c0: int, c1: int)
    requires IsRect(a) && 0 <= l < |a| && 0 <= c0 <= c1 <= Cols(a)
    requires forall m :: c0 <= m < c1 ==> a[l][m] == 1.0
    ensures RowSum(a, l, c0, c1) == (c1 - c0) as real
    decreases c1 - c0
  {
    if c0 < c1 {
      RowSumOnes(a, l, c0, c1 - 1);
    }
  }

  lemma {:induction false} RectSumOnes(a: Grid, r0: int, r1: int, c0: int, c1: int)
    requires IsRect(a) && 0 <= r0 <= r1 <= |a| && 0 <= c0 <= c1 <= Cols(a)
    requires forall l, m :: r0 <= l < r1 && c0 <= m < c1 ==> a[l][m] == 1.0
    ensures RectSum(a, r0, r1, c0, c1) == ((r1 - r0) * (c1 - c0)) as real
    decreases r1 - r0
  {
    if r0 < r1 {
      RectSumOnes(a, r0, r1 - 1, c0, c1);
      RowSumOnes(a, r1 - 1, c0, c1);
      assert (r1 - r0) * (c1 - c0) == (r1 - 1 - r0) * (c1 - c0) + (c1 - c0);
    }
  }

  /** Over a rectangle of non-negative cells the sum is at least any one cell. */
  lemma {:induction false} RowSumAtLeast(a: Grid, l: int, c0: int, c1: int, m: int)
    requires IsRect(a) && 0 <= l < |a| && 0 <= c0 && c1 <= Cols(a)
    requires forall k :: c0 <= k < c1 ==> a[l][k] >= 0.0
    ensures RowSum(a, l, c0, c1) >= 0.0
    ensures c0 <= m < c1 ==> RowSum(a, l, c0, c1) >= a[l][m]
    decreases c1 - c0
  {
    if c0 < c1 {
      RowSumAtLeast(a, l, c0, c1 - 1, m);
    }
  }

  lemma {:induction false} RectSumAtLeast(a: Grid, r0: int, r1: int, c0: int, c1: int, l: int, m: int)
    requires IsRect(a) && 0 <= r0 && r1 <= |a| && 0 <= c0 && c1 <= Cols(a)
    requires forall i, k :: r0 <= i < r1 && c0 <= k < c1 ==> a[i][k] >= 0.0
    ensures RectSum(a, r0, r1, c0, c1) >= 0.0
    ensures r0 <= l < r1 && c0 <= m < c1 ==> RectSum(a, r0, r1, c0, c1) >= a[l][m]
    decreases r1 - r0
  {
    if r0 < r1 {
      RectSumAtLeast(a, r0, r1 - 1, c0, c1, l, m);
      RowSumAtLeast(a, r1 - 1, c0, c1, m);
    }
  }

  /** Two grids of one shape with the same cells are the same grid. */
  lemma GridsEqual(a: Grid, b: Grid, rows: nat, cols: nat)
    requires IsGrid(a, rows, cols) && IsGrid(b, rows, cols)
    requires forall r, c :: 0 <= r < rows && 0 <= c < cols ==> a[r][c] == b[r][c]
    ensures a == b
  {
    forall r | 0 <= r < rows
      ensures a[r] == b[r]
    {
    }
  }

  /** Elementwise `a + b` of two arrays of one shape. */
  function Add(a: Grid, b: Grid): (s: Grid)
    requires IsRect(a) && IsGrid(b, |a|, Cols(a))
    ensures IsGrid(s, |a|, Cols(a))
  {
    seq(|a|, r requires 0 <= r < |a| => seq(Cols(a), c requires 0 <= c < Cols(a) => a[r][c] + b[r][c]))
  }

  /** Sum of the absolute values of a row. */
  function RowAbsSum(s: seq<real>): (t: real)
    ensures t >= 0.0
    ensures t == 0.0 ==> forall k :: 0 <= k < |s| ==> s[k] == 0.0
  {
    if |s| == 0 then 0.0 else RowAbsSum(s[..|s| - 1]) + Abs(s[|s| - 1])
  }

  /** `abs(a).sum()`: sum of the absolute values of a whole array. */
  function AbsSum(a: Grid): (t: real)
    ensures t >= 0.0
    ensures t == 0.0 ==> forall r, c :: 0 <= r < |a| && 0 <= c < |a[r]| ==> a[r][c] == 0.0
  {
    if |a| == 0 then 0.0 else AbsSum(a[..|a| - 1]) + RowAbsSum(a[|a| - 1])
  }

  /** The contents of a 2-D array as a grid of rows. */
  function Rows(a: array2<real>): (g: Grid)
    reads a
    ensures IsGrid(g, a.Length0, a.Length1)
    ensures forall r, c :: 0 <= r < a.Length0 && 0 <= c < a.Length1 ==> g[r][c] == a[r, c]
  {
    seq(a.Length0, r requires 0 <= r < a.Length0 reads a =>
      seq(a.Length1, c requires 0 <= c < a.Length1 reads a => a[r, c]))
  }

  /** The nested `for l ... for m ...` accumulation shared by both loop
      engines: over rows [r0, r1) and columns [c0, c1), skip nodata cells and
      add up the valid ones and their number. */
  method MaskedTotals(g: Grid, mask: Option<Mask>, r0: int, r1: int, c0: int, c1: int)
    returns (count: nat, sum: real)
    requires MaskFits(mask, g)
    requires 0 <= r0 <= r1 <= |g| && 0 <= c0 <= c1 <= Cols(g)
    ensures count as real == RectSum(Indicator(g, mask), r0, r1, c0, c1)
    ensures sum == RectSum(Zeroed(g, mask), r0, r1, c0, c1)
  {
    ghost var ind, val := Indicator(g, mask), Zeroed(g, mask);
    count, sum := 0, 0.0;
    var l := r0;
    while l < r1
      invariant r0 <= l <= r1
      invariant count as real == RectSum(ind, r0, l, c0, c1)
      invariant sum == RectSum(val, r0, l, c0, c1)
    {
      var m := c0;
      while m < c1
        invariant c0 <= m <= c1
        invariant count as real == RectSum(ind, r0, l, c0, c1) + RowSum(ind, l, c0, m)
        invariant sum == RectSum(val, r0, l, c0, c1) + RowSum(val, l, c0, m)
      {
        if !Masked(mask, g, l, m) {
          count := count + 1;
          sum := sum + g[l][m];
        }
        m := m + 1;
      }
      l := l + 1;
    }
  }
}
