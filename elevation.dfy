/** The elevation-constraint field: every coarse cell (i, j) owns the block of
    sub-pixels [i*z, i*z+z) x [j*z, j*z+z); each valid sub-pixel is pulled
    towards the coarse value by the difference between that value and the mean
    of the block's valid sub-pixels, damped by 0.8 when the difference is small
    against the RSME. */
module ElevationConstraint {
  import opened Wrappers
  import opened Grids
  import opened Initializer

  /** `int(width / goc_w)`: the zoom is taken from the row counts only. */
  function Zoom(dtin: Grid, goc: Grid): nat
    requires |goc| > 0
  {
    |dtin| / |goc|
  }

  /** What both versions need of their inputs: masks of the right shapes, a
      coarse grid with rows, and room for every block along the columns
      (the loop indexes `dtin[l][m]` up to `goc_h * zoom`). */
  predicate BlocksFit(dtin: Grid, goc: Grid, mo: Option<Mask>, md: Option<Mask>) {
    MaskFits(md, dtin) && MaskFits(mo, goc) && |goc| > 0 && Cols(goc) * Zoom(dtin, goc) <= Cols(dtin)
  }

  /** The reshape to (goc_w, zoom, goc_h, zoom) used by the vectorized version
      needs the fine grid to be exactly the blocks. */
  predicate ExactBlocks(dtin: Grid, goc: Grid, mo: Option<Mask>, md: Option<Mask>) {
    MaskFits(md, dtin) && MaskFits(mo, goc) && |goc| > 0
    && |dtin| == |goc| * Zoom(dtin, goc) && Cols(dtin) == Cols(goc) * Zoom(dtin, goc)
  }

  lemma ExactBlocksFit(dtin: Grid, goc: Grid, mo: Option<Mask>, md: Option<Mask>)
    requires ExactBlocks(dtin, goc, mo, md)
    ensures BlocksFit(dtin, goc, mo, md)
  {
  }

  /** Block (i, j) lies inside the fine grid. */
  predicate BlockInside(dtin: Grid, z: int, i: int, j: int) {
    0 <= i * z && i * z + z <= |dtin| && 0 <= j * z && j * z + z <= Cols(dtin)
  }

  predicate InBlock(l: int, m: int, i: int, j: int, z: int) {
    i * z <= l < i * z + z && j * z <= m < j * z + z
  }

  lemma BlockFits(dtin: Grid, goc: Grid, i: int, j: int)
    requires |goc| > 0 && 0 <= i < |goc| && 0 <= j < Cols(goc)
    requires Cols(goc) * Zoom(dtin, goc) <= Cols(dtin)
    ensures BlockInside(dtin, Zoom(dtin, goc), i, j)
  {
    var z := Zoom(dtin, goc);
    assert |dtin| == z * |goc| + |dtin| % |goc|;
    MulLe(i + 1, |goc|, z);
    MulLe(j + 1, Cols(goc), z);
    MulLe(0, i, z);
    MulLe(0, j, z);
  }

  /** A sub-pixel index below n*z needs z > 0 and lies in block index/z < n. */
  lemma InRegion(x: int, n: nat, z: nat)
    requires 0 <= x < n * z
    ensures z > 0 && 0 <= x / z < n && InBlock(x, x, x / z, x / z, z)
  {
    MulLess(0, z, n);
    DivBound(x, z, n);
  }

  /** Number of valid sub-pixels of block (i, j). */
  function BlockCount(dtin: Grid, md: Option<Mask>, z: int, i: int, j: int): real
    requires MaskFits(md, dtin) && BlockInside(dtin, z, i, j)
  {
    RectSum(Indicator(dtin, md), i * z, i * z + z, j * z, j * z + z)
  }

  /** Sum of the valid sub-pixels of block (i, j). */
  function BlockSum(dtin: Grid, md: Option<Mask>, z: int, i: int, j: int): real
    requires MaskFits(md, dtin) && BlockInside(dtin, z, i, j)
  {
    RectSum(Zeroed(dtin, md), i * z, i * z + z, j * z, j * z + z)
  }

  /** The damping step.  A difference small against the RSME (step below 3)
      is scaled by 0.8.  When rsme <= 0 the loop version takes the step as 0,
      so it always damps; the vectorized version takes the step as |d|. */
  function Damp(d: real, rsme: real, loopVersion: bool): real {
    var step := if rsme > 0.0 then Abs(d) / rsme else if loopVersion then 0.0 else Abs(d);
    if step < 3.0 then 0.8 * d else d
  }

  /** Damping keeps the sign, never grows the difference, and leaves a zero
      difference at zero. */
  lemma DampBounds(d: real, rsme: real, loopVersion: bool)
    ensures Damp(d, rsme, loopVersion) == 0.8 * d || Damp(d, rsme, loopVersion) == d
    ensures Abs(Damp(d, rsme, loopVersion)) <= Abs(d)
    ensures (Damp(d, rsme, loopVersion) == 0.0) == (d == 0.0)
  {
  }

  /** The two versions damp alike exactly when rsme > 0 or |d| < 3. */
  lemma DampVersionsAgree(d: real, rsme: real)
    ensures Damp(d, rsme, true) == Damp(d, rsme, false) <==> (rsme > 0.0 || Abs(d) < 3.0)
  {
  }

  /** The correction of sub-pixel (l, m) of block (i, j): 0 when the coarse
      cell is nodata, when the sub-pixel is nodata, or when the block has no
      valid sub-pixel; otherwise the damped difference between the coarse
      value and the block mean. */
  function SubPixelCorrection(dtin: Grid, goc: Grid, rsme: real, mo: Option<Mask>, md: Option<Mask>,
                              i: int, j: int, l: int, m: int, loopVersion: bool): real
    requires BlocksFit(dtin, goc, mo, md)
    requires 0 <= i < |goc| && 0 <= j < Cols(goc) && 0 <= l < |dtin| && 0 <= m < Cols(dtin)
  {
    var z := Zoom(dtin, goc);
    BlockFits(dtin, goc, i, j);
    var count := BlockCount(dtin, md, z, i, j);
    if Masked(mo, goc, i, j) || Masked(md, dtin, l, m) || count == 0.0 then 0.0
    else Damp(goc[i][j] - BlockSum(dtin, md, z, i, j) / count, rsme, loopVersion)
  }

  /** The correction expected at sub-pixel (l, m): 0 outside the blocks,
      otherwise the correction of the block (l / z, m / z) it belongs to. */
  function ExpectedCorrection(dtin: Grid, goc: Grid, rsme: real, mo: Option<Mask>, md: Option<Mask>,
                              l: int, m: int, loopVersion: bool): real
    requires BlocksFit(dtin, goc, mo, md) && 0 <= l < |dtin| && 0 <= m < Cols(dtin)
  {
    var z := Zoom(dtin, goc);
    if l >= |goc| * z || m >= Cols(goc) * z then 0.0
    else
      InRegion(l, |goc|, z);
      InRegion(m, Cols(goc), z);
      SubPixelCorrection(dtin, goc, rsme, mo, md, l / z, m / z, l, m, loopVersion)
  }

  /** Inside block (i, j) the expected correction is that block's. */
  lemma ExpectedInBlock(dtin: Grid, goc: Grid, rsme: real, mo: Option<Mask>, md: Option<Mask>,
                        i: int, j: int, l: int, m: int, loopVersion: bool)
    requires BlocksFit(dtin, goc, mo, md) && 0 <= i < |goc| && 0 <= j < Cols(goc)
    requires 0 <= l < |dtin| && 0 <= m < Cols(dtin) && InBlock(l, m, i, j, Zoom(dtin, goc))
    ensures ExpectedCorrection(dtin, goc, rsme, mo, md, l, m, loopVersion)
         == SubPixelCorrection(dtin, goc, rsme, mo, md, i, j, l, m, loopVersion)
  {
    var z := Zoom(dtin, goc);
    MulLe(i + 1, |goc|, z);
    MulLe(j + 1, Cols(goc), z);
    assert (i + 1) * z == i * z + z && (j + 1) * z == j * z + z;
    assert l < |goc| * z && m < Cols(goc) * z;
    assert z > 0;
    BlockIndex(l, i, z);
    BlockIndex(m, j, z);
    assert l / z == i && m / z == j;
  }

  // ---------------------------------------------------------------------
  // Loop version.

  /** The sub-pixels the block loop has visited before block (i, j): all
      block rows above, then the blocks to the left in block row i. */
  predicate Covered(l: int, m: int, i: int, j: int, z: int, gh: int) {
    (l < i * z && m < gh * z) || (i * z <= l < i * z + z && m < j * z)
  }

  /** One pass of the `for i ... for j ...` body over block (i, j): a nodata
      coarse cell clears its block; a block without valid sub-pixels is
      skipped; otherwise every valid sub-pixel gets the damped difference and
      every nodata sub-pixel 0.  Nothing outside the block changes. */
  method ProcessBlock(buf: array2<real>, dtin: Grid, goc: Grid, rsme: real, mo: Option<Mask>, md: Option<Mask>,
                      i: int, j: int)
    requires BlocksFit(dtin, goc, mo, md) && 0 <= i < |goc| && 0 <= j < Cols(goc)
    requires buf.Length0 == |dtin| && buf.Length1 == Cols(dtin)
    requires forall l, m :: 0 <= l < buf.Length0 && 0 <= m < buf.Length1 && InBlock(l, m, i, j, Zoom(dtin, goc))
               ==> buf[l, m] == 0.0
    modifies buf
    ensures forall l, m :: 0 <= l < buf.Length0 && 0 <= m < buf.Length1 ==>
              buf[l, m] == if InBlock(l, m, i, j, Zoom(dtin, goc))
                           then SubPixelCorrection(dtin, goc, rsme, mo, md, i, j, l, m, true)
                           else old(buf[l, m])
  {
    var zoom := |dtin| / |goc|;
    BlockFits(dtin, goc, i, j);
    var swr, ewr := i * zoom, i * zoom + zoom;
    var swc, ewc := j * zoom, j * zoom + zoom;
    if Masked(mo, goc, i, j) {
      ClearBlock(buf, swr, ewr, swc, ewc);
      return;
    }
    var validCount, sumVal := MaskedTotals(dtin, md, swr, ewr, swc, ewc);
    var elev := goc[i][j];
    if validCount == 0 {
      return;
    }
    var velc := sumVal / validCount as real;
    var l := swr;
    while l < ewr
      invariant swr <= l <= ewr
      invariant forall r, c :: 0 <= r < buf.Length0 && 0 <= c < buf.Length1 ==>
                  buf[r, c] == if swr <= r < l && swc <= c < ewc
                               then CellCorrection(dtin, md, r, c, elev - velc, rsme)
                               else old(buf[r, c])
    {
      FillBlockRow(buf, dtin, md, l, swc, ewc, elev, velc, rsme);
      l := l + 1;
    }
    forall r, c | 0 <= r < buf.Length0 && 0 <= c < buf.Length1 && InBlock(r, c, i, j, zoom)
      ensures CellCorrection(dtin, md, r, c, elev - velc, rsme)
           == SubPixelCorrection(dtin, goc, rsme, mo, md, i, j, r, c, true)
    {
    }
  }

  /** The value the loop writes at sub-pixel (l, m) of a block that has
      valid sub-pixels: 0 on nodata, the damped difference elsewhere. */
  function CellCorrection(dtin: Grid, md: Option<Mask>, l: int, m: int, d: real, rsme: real): real
    requires MaskFits(md, dtin) && 0 <= l < |dtin| && 0 <= m < Cols(dtin)
  {
    if Masked(md, dtin, l, m) then 0.0 else Damp(d, rsme, true)
  }

  /** The inner `for` over the columns of block row `l`. */
  method FillBlockRow(buf: array2<real>, dtin: Grid, md: Option<Mask>, l: int, c0: int, c1: int,
                      elev: real, velc: real, rsme: real)
    requires MaskFits(md, dtin) && 0 <= l < |dtin| && 0 <= c0 <= c1 <= Cols(dtin)
    requires buf.Length0 == |dtin| && buf.Length1 == Cols(dtin)
    modifies buf
    ensures forall r, c :: 0 <= r < buf.Length0 && 0 <= c < buf.Length1 ==>
              buf[r, c] == if r == l && c0 <= c < c1
                           then CellCorrection(dtin, md, r, c, elev - velc, rsme)
                           else old(buf[r, c])
  {
    var m := c0;
    while m < c1
      invariant c0 <= m <= c1
      invariant forall r, c :: 0 <= r < buf.Length0 && 0 <= c < buf.Length1 ==>
                  buf[r, c] == if r == l && c0 <= c < m
                               then CellCorrection(dtin, md, r, c, elev - velc, rsme)
                               else old(buf[r, c])
    {
      if Masked(md, dtin, l, m) {
        buf[l, m] := 0.0;
      } else {
        var u := elev - velc;
        var step := if rsme > 0.0 then Abs(u) / rsme else 0.0;
        if step < 3.0 {
          u := 0.8 * u;
        }
        buf[l, m] := u;
      }
      m := m + 1;
    }
  }

  /** Writes 0 over rows [r0, r1) and columns [c0, c1) of `buf`. */
  method ClearBlock(buf: array2<real>, r0: int, r1: int, c0: int, c1: int)
    requires 0 <= r0 <= r1 <= buf.Length0 && 0 <= c0 <= c1 <= buf.Length1
    modifies buf
    ensures forall r, c :: 0 <= r < buf.Length0 && 0 <= c < buf.Length1 ==>
              buf[r, c] == if r0 <= r < r1 && c0 <= c < c1 then 0.0 else old(buf[r, c])
  {
    var l := r0;
    while l < r1
      invariant r0 <= l <= r1
      invariant forall r, c :: 0 <= r < buf.Length0 && 0 <= c < buf.Length1 ==>
                  buf[r, c] == if r0 <= r < l && c0 <= c < c1 then 0.0 else old(buf[r, c])
    {
      var m := c0;
      while m < c1
        invariant c0 <= m <= c1
        invariant forall r, c :: 0 <= r < buf.Length0 && 0 <= c < buf.Length1 ==>
                    buf[r, c] == if (r0 <= r < l && c0 <= c < c1) || (r == l && c0 <= c < m) then 0.0 else old(buf[r, c])
      {
        buf[l, m] := 0.0;
        m := m + 1;
      }
      l := l + 1;
    }
  }

  /** `elevation_constraint` without vectorization: a fresh zero array
      written block by block; every sub-pixel ends with the loop version of
      its expected correction, and sub-pixels outside the blocks stay 0. */
  method ElevationConstraintLoop(dtin: Grid, goc: Grid, rsme: real, mo: Option<Mask>, md: Option<Mask>)
    returns (uec: Grid)
    requires BlocksFit(dtin, goc, mo, md)
    ensures IsGrid(uec, |dtin|, Cols(dtin))
    ensures forall l, m :: 0 <= l < |dtin| && 0 <= m < Cols(dtin) ==>
              uec[l][m] == ExpectedCorrection(dtin, goc, rsme, mo, md, l, m, true)
  {
    var width, height := |dtin|, Cols(dtin);
    var gocW, gocH := |goc|, Cols(goc);
    var zoom := width / gocW;
    var buf := new real[width, height]((_, _) => 0.0);
    var i := 0;
    while i < gocW
      invariant 0 <= i <= gocW
      invariant forall l, m :: 0 <= l < width && 0 <= m < height ==>
                  buf[l, m] == if Covered(l, m, i, 0, zoom, gocH)
                               then ExpectedCorrection(dtin, goc, rsme, mo, md, l, m, true) else 0.0
    {
      var j := 0;
      while j < gocH
        invariant 0 <= j <= gocH
        invariant forall l, m :: 0 <= l < width && 0 <= m < height ==>
                    buf[l, m] == if Covered(l, m, i, j, zoom, gocH)
                                 then ExpectedCorrection(dtin, goc, rsme, mo, md, l, m, true) else 0.0
      {
        MulLe(j + 1, gocH, zoom);
        ProcessBlock(buf, dtin, goc, rsme, mo, md, i, j);
        forall l, m | 0 <= l < width && 0 <= m < height && InBlock(l, m, i, j, zoom)
          ensures SubPixelCorrection(dtin, goc, rsme, mo, md, i, j, l, m, true)
               == ExpectedCorrection(dtin, goc, rsme, mo, md, l, m, true)
        {
          ExpectedInBlock(dtin, goc, rsme, mo, md, i, j, l, m, true);
        }
        assert (j + 1) * zoom == j * zoom + zoom;
        j := j + 1;
      }
      assert (i + 1) * zoom == i * zoom + zoom;
      i := i + 1;
    }
    uec := Rows(buf);
  }

  // ---------------------------------------------------------------------
  // Vectorized version: block sums over the reshape to (goc_w, z, goc_h, z).

  /** `valid_count_per_block`: the valid sub-pixels of each block, or the
      full `zoom * zoom` when there is no mask. */
  function ValidCountPerBlock(dtin: Grid, goc: Grid, mo: Option<Mask>, md: Option<Mask>): (counts: Grid)
    requires BlocksFit(dtin, goc, mo, md)
    ensures IsGrid(counts, |goc|, Cols(goc))
  {
    var z := Zoom(dtin, goc);
    seq(|goc|, i requires 0 <= i < |goc| =>
      seq(Cols(goc), j requires 0 <= j < Cols(goc) =>
        BlockFits(dtin, goc, i, j);
        if md.Some? then BlockCount(dtin, md, z, i, j) else (z * z) as real))
  }

  /** `block_sums`: the sum of each block with nodata sub-pixels read as 0. */
  function BlockSums(dtin: Grid, goc: Grid, mo: Option<Mask>, md: Option<Mask>): (sums: Grid)
    requires BlocksFit(dtin, goc, mo, md)
    ensures IsGrid(sums, |goc|, Cols(goc))
  {
    var z := Zoom(dtin, goc);
    seq(|goc|, i requires 0 <= i < |goc| =>
      seq(Cols(goc), j requires 0 <= j < Cols(goc) =>
        BlockFits(dtin, goc, i, j);
        BlockSum(dtin, md, z, i, j)))
  }

  /** `elevation_diff = goc - block_means`, where an empty block divides by 1
      and a nodata coarse cell takes its own value as the mean. */
  function ElevationDiff(dtin: Grid, goc: Grid, mo: Option<Mask>, md: Option<Mask>): (diff: Grid)
    requires BlocksFit(dtin, goc, mo, md)
    ensures IsGrid(diff, |goc|, Cols(goc))
  {
    var counts := ValidCountPerBlock(dtin, goc, mo, md);
    var sums := BlockSums(dtin, goc, mo, md);
    seq(|goc|, i requires 0 <= i < |goc| =>
      seq(Cols(goc), j requires 0 <= j < Cols(goc) =>
        var countSafe := if counts[i][j] > 0.0 then counts[i][j] else 1.0;
        var mean := if Masked(mo, goc, i, j) then goc[i][j] else sums[i][j] / countSafe;
        goc[i][j] - mean))
  }

  lemma ExpandMask(mo: Option<Mask>, z: nat, rows: nat, cols: nat)
    requires mo.Some? ==> IsGrid(mo.value, rows, cols)
    ensures mo.Some? ==> IsGrid(Expand(mo.value, z), rows * z, cols * z)
  {
    if mo.Some? {
      ExpandShape(mo.value, z, rows, cols);
    }
  }

  /** `elevation_constraint_vectorized`: the block differences repeated over
      their sub-pixels, damped, then zeroed under both nodata masks. */
  function ElevationConstraintVectorized(dtin: Grid, goc: Grid, rsme: real, mo: Option<Mask>, md: Option<Mask>)
    : (uec: Grid)
    requires ExactBlocks(dtin, goc, mo, md)
    ensures IsGrid(uec, |dtin|, Cols(dtin))
    ensures forall l, m :: 0 <= l < |dtin| && 0 <= m < Cols(dtin) && Masked(md, dtin, l, m) ==> uec[l][m] == 0.0
  {
    var z := Zoom(dtin, goc);
    var diff := ElevationDiff(dtin, goc, mo, md);
    var diffExpanded := Expand(diff, z);
    ExpandShape(diff, z, |goc|, Cols(goc));
    ExpandMask(mo, z, |goc|, Cols(goc));
    seq(|dtin|, l requires 0 <= l < |dtin| =>
      seq(Cols(dtin), m requires 0 <= m < Cols(dtin) =>
        if mo.Some? && Expand(mo.value, z)[l][m] then 0.0
        else if Masked(md, dtin, l, m) then 0.0
        else Damp(diffExpanded[l][m], rsme, false)))
  }

  /** Without a mask every sub-pixel of a block is valid. */
  lemma UnmaskedBlockCount(dtin: Grid, z: nat, i: int, j: int)
    requires IsRect(dtin) && BlockInside(dtin, z, i, j)
    ensures BlockCount(dtin, None, z, i, j) == (z * z) as real
  {
    RectSumOnes(Indicator(dtin, None), i * z, i * z + z, j * z, j * z + z);
  }

  /** A block that holds a valid sub-pixel has a positive count. */
  lemma ValidSubPixelCounts(dtin: Grid, md: Option<Mask>, z: int, i: int, j: int, l: int, m: int)
    requires MaskFits(md, dtin) && BlockInside(dtin, z, i, j) && InBlock(l, m, i, j, z)
    requires !Masked(md, dtin, l, m)
    ensures BlockCount(dtin, md, z, i, j) >= 1.0
  {
    RectSumAtLeast(Indicator(dtin, md), i * z, i * z + z, j * z, j * z + z, l, m);
  }

  /** Each sub-pixel of the vectorized field holds the vectorized version of
      its expected correction: the reshape, the block means, the repeat and
      the two masks give exactly the per-block rule. */
  lemma VectorizedMeaning(dtin: Grid, goc: Grid, rsme: real, mo: Option<Mask>, md: Option<Mask>, l: int, m: int)
    requires ExactBlocks(dtin, goc, mo, md) && 0 <= l < |dtin| && 0 <= m < Cols(dtin)
    ensures BlocksFit(dtin, goc, mo, md)
    ensures ElevationConstraintVectorized(dtin, goc, rsme, mo, md)[l][m]
         == ExpectedCorrection(dtin, goc, rsme, mo, md, l, m, false)
  {
    var z := Zoom(dtin, goc);
    InRegion(l, |goc|, z);
    InRegion(m, Cols(goc), z);
    var i, j := l / z, m / z;
    assert InBlock(l, m, i, j, z);
    BlockFits(dtin, goc, i, j);
    VectorizedAt(dtin, goc, rsme, mo, md, l, m);
    DiffAt(dtin, goc, mo, md, i, j);
    ExpectedInBlock(dtin, goc, rsme, mo, md, i, j, l, m, false);
    if !Masked(md, dtin, l, m) {
      ValidSubPixelCounts(dtin, md, z, i, j, l, m);
    }
  }

  /** Sub-pixel (l, m) of the vectorized field reads the difference of its
      block, damped, unless either mask covers it. */
  lemma VectorizedAt(dtin: Grid, goc: Grid, rsme: real, mo: Option<Mask>, md: Option<Mask>, l: int, m: int)
    requires ExactBlocks(dtin, goc, mo, md) && 0 <= l < |dtin| && 0 <= m < Cols(dtin)
    ensures var z := Zoom(dtin, goc);
      && z > 0 && 0 <= l / z < |goc| && 0 <= m / z < Cols(goc)
      && BlocksFit(dtin, goc, mo, md)
      && ElevationConstraintVectorized(dtin, goc, rsme, mo, md)[l][m]
         == if Masked(mo, goc, l / z, m / z) || Masked(md, dtin, l, m) then 0.0
            else Damp(ElevationDiff(dtin, goc, mo, md)[l / z][m / z], rsme, false)
  {
    var z := Zoom(dtin, goc);
    var gw, gh := |goc|, Cols(goc);
    var diff := ElevationDiff(dtin, goc, mo, md);
    ExpandCell(diff, z, gw, gh, l, m);
    if mo.Some? {
      ExpandCell(mo.value, z, gw, gh, l, m);
    }
  }

  /** Cell (i, j) of the difference: the coarse value minus the block mean,
      0 on a nodata coarse cell, the count replaced by 1 for an empty block. */
  lemma DiffAt(dtin: Grid, goc: Grid, mo: Option<Mask>, md: Option<Mask>, i: int, j: int)
    requires BlocksFit(dtin, goc, mo, md) && 0 <= i < |goc| && 0 <= j < Cols(goc)
    ensures BlockInside(dtin, Zoom(dtin, goc), i, j)
    ensures var z := Zoom(dtin, goc);
      var count := BlockCount(dtin, md, z, i, j);
      !Masked(mo, goc, i, j) && count > 0.0 ==>
        ElevationDiff(dtin, goc, mo, md)[i][j] == goc[i][j] - BlockSum(dtin, md, z, i, j) / count
  {
    var z := Zoom(dtin, goc);
    BlockFits(dtin, goc, i, j);
    if md.None? {
      UnmaskedBlockCount(dtin, z, i, j);
    }
  }

  /** For rsme > 0 the vectorized field equals the loop version's expected
      correction on every sub-pixel. */
  lemma VectorizedMatchesLoop(dtin: Grid, goc: Grid, rsme: real, mo: Option<Mask>, md: Option<Mask>, l: int, m: int)
    requires ExactBlocks(dtin, goc, mo, md) && 0 <= l < |dtin| && 0 <= m < Cols(dtin) && rsme > 0.0
    ensures BlocksFit(dtin, goc, mo, md)
    ensures ElevationConstraintVectorized(dtin, goc, rsme, mo, md)[l][m]
         == ExpectedCorrection(dtin, goc, rsme, mo, md, l, m, true)
  {
    VectorizedMeaning(dtin, goc, rsme, mo, md, l, m);
  }

  // ---------------------------------------------------------------------
  // A freshly initialized grid needs no correction.

  /** When every valid sub-pixel of block (i, j) equals c, the block mean is c. */
  lemma ConstantBlockMean(dtin: Grid, md: Option<Mask>, z: int, i: int, j: int, c: real)
    requires MaskFits(md, dtin) && BlockInside(dtin, z, i, j)
    requires forall l, m :: InBlock(l, m, i, j, z) ==> ValidIs(dtin, md, l, m, c)
    ensures BlockSum(dtin, md, z, i, j) == c * BlockCount(dtin, md, z, i, j)
  {
    var r0, r1, c0, c1 := i * z, i * z + z, j * z, j * z + z;
    forall l, m | r0 <= l < r1 && c0 <= m < c1
      ensures ValidIs(dtin, md, l, m, c)
    {
      assert InBlock(l, m, i, j, z);
    }
    RectSumConstant(dtin, md, r0, r1, c0, c1, c);
    assert BlockSum(dtin, md, z, i, j) == RectSum(Zeroed(dtin, md), r0, r1, c0, c1);
    assert BlockCount(dtin, md, z, i, j) == RectSum(Indicator(dtin, md), r0, r1, c0, c1);
  }

  /** The shapes `initialize` produces fit the blocks exactly, and the zoom
      the elevation constraint recovers from them is the zoom used. */
  lemma InitializedShapes(goc: Grid, mo: Option<Mask>, zoom: nat, dtin: Grid, md: Option<Mask>)
    requires IsRect(goc) && |goc| > 0 && MaskFits(mo, goc) && zoom > 0
    requires (dtin, md) == Initialize(goc, zoom, mo)
    ensures |dtin| == |goc| * zoom && Cols(dtin) == Cols(goc) * zoom && Zoom(dtin, goc) == zoom
    ensures ExactBlocks(dtin, goc, mo, md) && BlocksFit(dtin, goc, mo, md)
  {
    var gw, gh := |goc|, Cols(goc);
    InitializeShapes(goc, zoom, mo, gw, gh);
    DivUnique(gw * zoom, gw, zoom, 0);
    GridIsRect(dtin, gw * zoom, gh * zoom);
    MulLess(0, gw, zoom);
  }

  /** Every valid sub-pixel of an initialized block holds the coarse value, so
      the block mean is the coarse value. */
  lemma InitializedBlockMean(goc: Grid, mo: Option<Mask>, zoom: nat, dtin: Grid, md: Option<Mask>, i: int, j: int)
    requires IsRect(goc) && |goc| > 0 && MaskFits(mo, goc) && zoom > 0
    requires (dtin, md) == Initialize(goc, zoom, mo)
    requires 0 <= i < |goc| && 0 <= j < Cols(goc)
    requires BlocksFit(dtin, goc, mo, md) && Zoom(dtin, goc) == zoom
    ensures BlockInside(dtin, zoom, i, j)
    ensures BlockSum(dtin, md, zoom, i, j) == goc[i][j] * BlockCount(dtin, md, zoom, i, j)
  {
    var gw, gh := |goc|, Cols(goc);
    InitializeShapes(goc, zoom, mo, gw, gh);
    BlockFits(dtin, goc, i, j);
    forall l, m | InBlock(l, m, i, j, zoom)
      ensures ValidIs(dtin, md, l, m, goc[i][j])
    {
      InitializedCell(goc, mo, zoom, dtin, md, i, j, l, m);
    }
    ConstantBlockMean(dtin, md, zoom, i, j, goc[i][j]);
  }

  /** Sub-pixel (l, m) of block (i, j) of an initialized band holds the
      coarse cell (i, j). */
  lemma InitializedCell(goc: Grid, mo: Option<Mask>, zoom: nat, dtin: Grid, md: Option<Mask>,
                        i: int, j: int, l: int, m: int)
    requires IsRect(goc) && MaskFits(mo, goc) && zoom > 0
    requires (dtin, md) == Initialize(goc, zoom, mo)
    requires 0 <= i < |goc| && 0 <= j < Cols(goc) && InBlock(l, m, i, j, zoom)
    ensures MaskFits(md, dtin) && ValidIs(dtin, md, l, m, goc[i][j])
  {
    var gw, gh := |goc|, Cols(goc);
    BlockInRange(l, i, gw, zoom);
    BlockInRange(m, j, gh, zoom);
    InitializeReplicates(goc, zoom, mo, gw, gh, l, m);
    GridIsRect(dtin, gw * zoom, gh * zoom);
  }

  /** A grid and mask just produced by `initialize` from the coarse grid (with
      the coarse mask, or with none) are already consistent with it: the
      elevation constraint is 0 on every sub-pixel, in both versions. */
  lemma InitializedGridNeedsNoCorrection(goc: Grid, mo: Option<Mask>, zoom: nat, dtin: Grid, md: Option<Mask>,
                                         rsme: real, l: int, m: int, loopVersion: bool)
    requires IsRect(goc) && |goc| > 0 && MaskFits(mo, goc) && zoom > 0
    requires (dtin, md) == Initialize(goc, zoom, mo)
    requires 0 <= l < |goc| * zoom && 0 <= m < Cols(goc) * zoom
    ensures ExactBlocks(dtin, goc, mo, md) && BlocksFit(dtin, goc, mo, md)
    ensures |dtin| == |goc| * zoom && Cols(dtin) == Cols(goc) * zoom
    ensures ExpectedCorrection(dtin, goc, rsme, mo, md, l, m, loopVersion) == 0.0
  {
    InitializedShapes(goc, mo, zoom, dtin, md);
    InRegion(l, |goc|, zoom);
    InRegion(m, Cols(goc), zoom);
    var i, j := l / zoom, m / zoom;
    assert InBlock(l, m, i, j, zoom);
    InitializedBlockMean(goc, mo, zoom, dtin, md, i, j);
    ExpectedInBlock(dtin, goc, rsme, mo, md, i, j, l, m, loopVersion);
    ConsistentBlockNeedsNoCorrection(dtin, goc, rsme, mo, md, i, j, l, m, loopVersion);
  }

  /** A block whose mean already is the coarse value gets no correction. */
  lemma ConsistentBlockNeedsNoCorrection(dtin: Grid, goc: Grid, rsme: real, mo: Option<Mask>, md: Option<Mask>,
                                         i: int, j: int, l: int, m: int, loopVersion: bool)
    requires BlocksFit(dtin, goc, mo, md)
    requires 0 <= i < |goc| && 0 <= j < Cols(goc) && 0 <= l < |dtin| && 0 <= m < Cols(dtin)
    requires BlockInside(dtin, Zoom(dtin, goc), i, j)
    requires var z := Zoom(dtin, goc);
      BlockSum(dtin, md, z, i, j) == goc[i][j] * BlockCount(dtin, md, z, i, j)
    ensures SubPixelCorrection(dtin, goc, rsme, mo, md, i, j, l, m, loopVersion) == 0.0
  {
    var z := Zoom(dtin, goc);
    var count := BlockCount(dtin, md, z, i, j);
    if count != 0.0 {
      MeanOfConstant(BlockSum(dtin, md, z, i, j), goc[i][j], count);
    }
  }

  // ---------------------------------------------------------------------
  // What one pass achieves.

  /** The point of the constraint: add the correction of either version to
      the fine grid, and the mean of a block's valid sub-pixels moves towards
      the coarse value.  The new difference is the old one minus its damped
      step (a fifth of it, or nothing left), so it shrinks strictly unless it
      was already zero.  A nodata coarse cell leaves its block alone, and the
      number of valid sub-pixels does not change. */
  lemma BlockMeanMovesCloser(dtin: Grid, goc: Grid, rsme: real, mo: Option<Mask>, md: Option<Mask>,
                             uec: Grid, i: int, j: int, loopVersion: bool)
    requires BlocksFit(dtin, goc, mo, md) && 0 <= i < |goc| && 0 <= j < Cols(goc)
    requires IsGrid(uec, |dtin|, Cols(dtin))
    requires forall l, m :: 0 <= l < |dtin| && 0 <= m < Cols(dtin) ==>
               uec[l][m] == ExpectedCorrection(dtin, goc, rsme, mo, md, l, m, loopVersion)
    ensures BlockInside(dtin, Zoom(dtin, goc), i, j) && MaskFits(md, Add(dtin, uec))
    ensures var z, after := Zoom(dtin, goc), Add(dtin, uec);
      var count := BlockCount(dtin, md, z, i, j);
      && BlockCount(after, md, z, i, j) == count
      && (count > 0.0 ==>
            var d := goc[i][j] - BlockSum(dtin, md, z, i, j) / count;
            var d' := goc[i][j] - BlockSum(after, md, z, i, j) / count;
            && d' == (if Masked(mo, goc, i, j) then d else d - Damp(d, rsme, loopVersion))
            && (!Masked(mo, goc, i, j) && d != 0.0 ==> Abs(d') < Abs(d)))
  {
    var z := Zoom(dtin, goc);
    BlockFits(dtin, goc, i, j);
    var count := BlockCount(dtin, md, z, i, j);
    BlockCountKept(dtin, md, uec, z, i, j);
    if count > 0.0 {
      var sum := BlockSum(dtin, md, z, i, j);
      var d := goc[i][j] - sum / count;
      var c := BlockCorrection(dtin, goc, rsme, mo, md, i, j, loopVersion);
      UniformInBlock(dtin, goc, rsme, mo, md, uec, i, j, loopVersion);
      BlockSumShifted(dtin, md, uec, z, i, j, c);
      MeanShifted(goc[i][j], sum, BlockSum(Add(dtin, uec), md, z, i, j), count, c);
      assert c == (if Masked(mo, goc, i, j) then 0.0 else Damp(d, rsme, loopVersion));
      DampedStepCloser(d, rsme, loopVersion);
    }
  }

  /** Adding a grid that holds `c` on every valid sub-pixel of block (i, j)
      adds `c` once per valid sub-pixel to the block sum. */
  lemma BlockSumShifted(dtin: Grid, md: Option<Mask>, uec: Grid, z: int, i: int, j: int, c: real)
    requires MaskFits(md, dtin) && IsGrid(uec, |dtin|, Cols(dtin)) && MaskFits(md, uec)
    requires BlockInside(dtin, z, i, j)
    requires UniformOn(uec, md, i * z, i * z + z, j * z, j * z + z, c)
    ensures MaskFits(md, Add(dtin, uec)) && BlockInside(Add(dtin, uec), z, i, j)
    ensures BlockSum(Add(dtin, uec), md, z, i, j) == BlockSum(dtin, md, z, i, j) + c * BlockCount(dtin, md, z, i, j)
  {
    var after := Add(dtin, uec);
    assert |after| == |dtin| && Cols(after) == Cols(dtin);
    var r0, r1, c0, c1 := i * z, i * z + z, j * z, j * z + z;
    RectSumAdded(dtin, md, uec, after, r0, r1, c0, c1, c);
    BlockSumsOfRects(dtin, md, after, z, i, j, r0, r1, c0, c1, c);
  }

  /** Adding any grid leaves the number of valid sub-pixels of a block alone. */
  lemma BlockCountKept(dtin: Grid, md: Option<Mask>, uec: Grid, z: int, i: int, j: int)
    requires MaskFits(md, dtin) && IsGrid(uec, |dtin|, Cols(dtin)) && BlockInside(dtin, z, i, j)
    ensures MaskFits(md, Add(dtin, uec))
    ensures BlockCount(Add(dtin, uec), md, z, i, j) == BlockCount(dtin, md, z, i, j)
  {
    GridsEqual(Indicator(Add(dtin, uec), md), Indicator(dtin, md), |dtin|, Cols(dtin));
  }

  /** The correction every valid sub-pixel of block (i, j) receives. */
  function BlockCorrection(dtin: Grid, goc: Grid, rsme: real, mo: Option<Mask>, md: Option<Mask>,
                           i: int, j: int, loopVersion: bool): real
    requires BlocksFit(dtin, goc, mo, md) && 0 <= i < |goc| && 0 <= j < Cols(goc)
    requires BlockInside(dtin, Zoom(dtin, goc), i, j)
    requires BlockCount(dtin, md, Zoom(dtin, goc), i, j) > 0.0
  {
    var z := Zoom(dtin, goc);
    var d := goc[i][j] - BlockSum(dtin, md, z, i, j) / BlockCount(dtin, md, z, i, j);
    if Masked(mo, goc, i, j) then 0.0 else Damp(d, rsme, loopVersion)
  }

  /** A correction that agrees with the reference is uniform over the valid
      sub-pixels of each block. */
  lemma UniformInBlock(dtin: Grid, goc: Grid, rsme: real, mo: Option<Mask>, md: Option<Mask>,
                       uec: Grid, i: int, j: int, loopVersion: bool)
    requires BlocksFit(dtin, goc, mo, md) && 0 <= i < |goc| && 0 <= j < Cols(goc)
    requires IsGrid(uec, |dtin|, Cols(dtin))
    requires forall l, m :: 0 <= l < |dtin| && 0 <= m < Cols(dtin) ==>
               uec[l][m] == ExpectedCorrection(dtin, goc, rsme, mo, md, l, m, loopVersion)
    requires BlockInside(dtin, Zoom(dtin, goc), i, j)
    requires BlockCount(dtin, md, Zoom(dtin, goc), i, j) > 0.0
    ensures MaskFits(md, uec)
    ensures var z := Zoom(dtin, goc);
      UniformOn(uec, md, i * z, i * z + z, j * z, j * z + z, BlockCorrection(dtin, goc, rsme, mo, md, i, j, loopVersion))
  {
    var z := Zoom(dtin, goc);
    forall l, m | i * z <= l < i * z + z && j * z <= m < j * z + z
      ensures ValidIs(uec, md, l, m, BlockCorrection(dtin, goc, rsme, mo, md, i, j, loopVersion))
    {
      assert InBlock(l, m, i, j, z);
      ExpectedInBlock(dtin, goc, rsme, mo, md, i, j, l, m, loopVersion);
    }
  }

  /** The block sums read off the rectangle sums. */
  lemma BlockSumsOfRects(dtin: Grid, md: Option<Mask>, after: Grid, z: int, i: int, j: int,
                          r0: int, r1: int, c0: int, c1: int, c: real)
    requires MaskFits(md, dtin) && MaskFits(md, after) && BlockInside(dtin, z, i, j) && BlockInside(after, z, i, j)
    requires r0 == i * z && r1 == i * z + z && c0 == j * z && c1 == j * z + z
    requires RectSum(Zeroed(after, md), r0, r1, c0, c1)
          == RectSum(Zeroed(dtin, md), r0, r1, c0, c1) + c * RectSum(Indicator(dtin, md), r0, r1, c0, c1)
    ensures BlockSum(after, md, z, i, j) == BlockSum(dtin, md, z, i, j) + c * BlockCount(dtin, md, z, i, j)
  {
  }

  /** Adding `c` to every one of `count` values moves their difference from
      `g` by `c`. */
  lemma MeanShifted(g: real, sum: real, sum': real, count: real, c: real)
    requires count != 0.0 && sum' == sum + c * count
    ensures g - sum' / count == (g - sum / count) - c
  {
    assert (sum + c * count) / count == sum / count + (c * count) / count;
  }

  /** Taking the damped step leaves a fifth of the difference or nothing, so
      a non-zero difference strictly shrinks. */
  lemma DampedStepCloser(d: real, rsme: real, loopVersion: bool)
    ensures d - Damp(d, rsme, loopVersion) == 0.2 * d || d - Damp(d, rsme, loopVersion) == 0.0
    ensures d != 0.0 ==> Abs(d - Damp(d, rsme, loopVersion)) < Abs(d)
  {
    DampBounds(d, rsme, loopVersion);
  }

  lemma MeanOfConstant(sum: real, c: real, count: real)
    requires count != 0.0 && sum == c * count
    ensures sum / count == c
  {
  }
}
