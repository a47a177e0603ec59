/** The spatial-dependence field: for every valid pixel, the mean of its valid
    3x3 neighbours minus the pixel itself, in the three implementations of
    the source (the reference loop, the zero-padded convolution, and the GPU
    shift-and-accumulate). */
module SpatialDependence {
  import opened Wrappers
  import opened Grids

  // ---------------------------------------------------------------------
  // Reference meaning: the up-to-8 neighbours inside the grid that are not
  // nodata.

  predicate IsValidNeighbour(g: Grid, mask: Option<Mask>, r: int, c: int)
    requires MaskFits(mask, g)
  {
    0 <= r < |g| && 0 <= c < Cols(g) && !Masked(mask, g, r, c)
  }

  function NeighbourWeight(g: Grid, mask: Option<Mask>, r: int, c: int): nat
    requires MaskFits(mask, g)
  {
    if IsValidNeighbour(g, mask, r, c) then 1 else 0
  }

  function NeighbourValue(g: Grid, mask: Option<Mask>, r: int, c: int): real
    requires MaskFits(mask, g)
  {
    if IsValidNeighbour(g, mask, r, c) then g[r][c] else 0.0
  }

  /** Number of valid neighbours of (i, j), the centre excluded. */
  function NeighbourCount(g: Grid, mask: Option<Mask>, i: int, j: int): nat
    requires MaskFits(mask, g)
  {
    NeighbourWeight(g, mask, i - 1, j - 1) + NeighbourWeight(g, mask, i - 1, j) + NeighbourWeight(g, mask, i - 1, j + 1)
    + NeighbourWeight(g, mask, i, j - 1) + NeighbourWeight(g, mask, i, j + 1)
    + NeighbourWeight(g, mask, i + 1, j - 1) + NeighbourWeight(g, mask, i + 1, j) + NeighbourWeight(g, mask, i + 1, j + 1)
  }

  /** Sum of the valid neighbours of (i, j), the centre excluded. */
  function NeighbourSum(g: Grid, mask: Option<Mask>, i: int, j: int): real
    requires MaskFits(mask, g)
  {
    NeighbourValue(g, mask, i - 1, j - 1) + NeighbourValue(g, mask, i - 1, j) + NeighbourValue(g, mask, i - 1, j + 1)
    + NeighbourValue(g, mask, i, j - 1) + NeighbourValue(g, mask, i, j + 1)
    + NeighbourValue(g, mask, i + 1, j - 1) + NeighbourValue(g, mask, i + 1, j) + NeighbourValue(g, mask, i + 1, j + 1)
  }

  /** The correction at (i, j) when at least `least` valid neighbours are
      required: nodata pixels and pixels with too few neighbours get 0,
      the others the neighbour mean minus their own value. */
  function Correction(g: Grid, mask: Option<Mask>, i: int, j: int, least: nat): real
    requires MaskFits(mask, g) && 0 <= i < |g| && 0 <= j < Cols(g) && least >= 1
  {
    if Masked(mask, g, i, j) then 0.0
    else
      var n := NeighbourCount(g, mask, i, j);
      if n >= least then NeighbourSum(g, mask, i, j) / n as real - g[i][j] else 0.0
  }

  /** The correction of a valid pixel in terms of its neighbour count and sum. */
  lemma CorrectionOfValid(g: Grid, mask: Option<Mask>, i: int, j: int, least: nat, n: nat, total: real)
    requires MaskFits(mask, g) && 0 <= i < |g| && 0 <= j < Cols(g) && least >= 1
    requires !Masked(mask, g, i, j)
    requires n == NeighbourCount(g, mask, i, j) && total == NeighbourSum(g, mask, i, j)
    ensures Correction(g, mask, i, j, least) == if n >= least then total / n as real - g[i][j] else 0.0
  {
  }

  // ---------------------------------------------------------------------
  // Reference (loop) implementation.

  /** The clipped window of the loop, read through zero padding, holds the
      centre plus the eight neighbours. */
  lemma WindowTotals(g: Grid, mask: Option<Mask>, i: int, j: int)
    requires MaskFits(mask, g) && 0 <= i < |g| && 0 <= j < Cols(g)
    ensures var r0, r1, c0, c1 := WindowStart(i), WindowEnd(i, |g|), WindowStart(j), WindowEnd(j, Cols(g));
      && RectSum(Indicator(g, mask), r0, r1, c0, c1)
         == NeighbourCount(g, mask, i, j) as real + (if Masked(mask, g, i, j) then 0.0 else 1.0)
      && RectSum(Zeroed(g, mask), r0, r1, c0, c1)
         == NeighbourSum(g, mask, i, j) + (if Masked(mask, g, i, j) then 0.0 else g[i][j])
  {
    var ind, val := Indicator(g, mask), Zeroed(g, mask);
    Window(ind, i, j);
    Window(val, i, j);
    forall r, c ensures Tap(ind, r, c) == NeighbourWeight(g, mask, r, c) as real
      && Tap(val, r, c) == NeighbourValue(g, mask, r, c)
    {
    }
  }

  /** The body of the pixel loop: nodata pixels stay 0; otherwise the clipped
      window is scanned, and since it counts the centre too, the centre is
      taken back out of the count and the sum. */
  method PixelCorrection(g: Grid, mask: Option<Mask>, i: int, j: int) returns (v: real)
    requires MaskFits(mask, g) && 0 <= i < |g| && 0 <= j < Cols(g)
    ensures v == Correction(g, mask, i, j, 1)
  {
    if Masked(mask, g, i, j) {
      return 0.0;
    }
    var swr := if i == 0 then 0 else i - 1;
    var ewr := if i == |g| - 1 then i + 1 else i + 2;
    var swc := if j == 0 then 0 else j - 1;
    var ewc := if j == Cols(g) - 1 then j + 1 else j + 2;
    assert swr == WindowStart(i) && ewr == WindowEnd(i, |g|);
    assert swc == WindowStart(j) && ewc == WindowEnd(j, Cols(g));
    var count, sum := MaskedTotals(g, mask, swr, ewr, swc, ewc);
    WindowTotals(g, mask, i, j);
    var current := g[i][j];
    ghost var n, total := NeighbourCount(g, mask, i, j), NeighbourSum(g, mask, i, j);
    assert count == n + 1 && sum - current == total;
    CorrectionOfValid(g, mask, i, j, 1, n, total);
    if count > 1 {
      assert (count - 1) as real == n as real;
      v := (sum - current) / (count - 1) as real - current;
      assert v == total / n as real - current;
    } else {
      v := 0.0;
    }
  }

  /** `spatial_dependence` without SciPy: a fresh zero array filled pixel by
      pixel.  A valid pixel with at least one valid neighbour gets the
      neighbour mean minus its value; the window counts the centre, hence the
      test `count > 1`. */
  method SpatialDependenceLoop(g: Grid, mask: Option<Mask>) returns (usd: Grid)
    requires MaskFits(mask, g)
    ensures IsGrid(usd, |g|, Cols(g))
    ensures forall i, j :: 0 <= i < |g| && 0 <= j < Cols(g) ==> usd[i][j] == Correction(g, mask, i, j, 1)
  {
    var width, height := |g|, Cols(g);
    var buf := new real[width, height]((_, _) => 0.0);
    var i := 0;
    while i < width
      invariant 0 <= i <= width
      invariant forall r, c :: 0 <= r < i && 0 <= c < height ==> buf[r, c] == Correction(g, mask, r, c, 1)
    {
      var j := 0;
      while j < height
        invariant 0 <= j <= height
        invariant forall r, c :: 0 <= r < i && 0 <= c < height ==> buf[r, c] == Correction(g, mask, r, c, 1)
        invariant forall c :: 0 <= c < j ==> buf[i, c] == Correction(g, mask, i, c, 1)
      {
        buf[i, j] := PixelCorrection(g, mask, i, j);
        j := j + 1;
      }
      i := i + 1;
    }
    usd := Rows(buf);
  }

  // ---------------------------------------------------------------------
  // Vectorized implementation: `ndimage.convolve` with zero padding.

  /** The 3x3 kernel of ones with a zero centre. */
  const Kernel: Grid := [[1.0, 1.0, 1.0], [1.0, 0.0, 1.0], [1.0, 1.0, 1.0]]

  /** One output cell of `ndimage.convolve(x, k, mode='constant', cval=0.0)`
      for a 3x3 kernel: the kernel is flipped, so k[a][b] meets
      x[i + 1 - a][j + 1 - b]. */
  function ConvolveAt(x: Grid, k: Grid, i: int, j: int): real
    requires IsRect(x) && IsGrid(k, 3, 3)
  {
    k[0][0] * Tap(x, i + 1, j + 1) + k[0][1] * Tap(x, i + 1, j) + k[0][2] * Tap(x, i + 1, j - 1)
    + k[1][0] * Tap(x, i, j + 1) + k[1][1] * Tap(x, i, j) + k[1][2] * Tap(x, i, j - 1)
    + k[2][0] * Tap(x, i - 1, j + 1) + k[2][1] * Tap(x, i - 1, j) + k[2][2] * Tap(x, i - 1, j - 1)
  }

  function Convolve(x: Grid, k: Grid): (y: Grid)
    requires IsRect(x) && IsGrid(k, 3, 3)
    ensures IsGrid(y, |x|, Cols(x))
  {
    seq(|x|, i requires 0 <= i < |x| => seq(Cols(x), j requires 0 <= j < Cols(x) => ConvolveAt(x, k, i, j)))
  }

  /** Lines 505-514: the expected value is the neighbour mean where there are
      at least two neighbours and the pixel itself elsewhere; the difference
      is then zeroed on nodata pixels and on pixels with too few neighbours. */
  function Combine(valid: bool, count: real, sum: real, current: real): real {
    var hasEnough := count >= 2.0;
    var countSafe := if count > 0.0 then count else 1.0;
    var expected := if hasEnough then sum / countSafe else current;
    var usd := expected - current;
    if !valid then 0.0 else if !hasEnough then 0.0 else usd
  }

  /** The zero-padded convolutions count and add up exactly the valid
      neighbours. */
  lemma ConvolveCountsNeighbours(g: Grid, mask: Option<Mask>, i: int, j: int)
    requires MaskFits(mask, g)
    ensures ConvolveAt(Indicator(g, mask), Kernel, i, j) == NeighbourCount(g, mask, i, j) as real
    ensures ConvolveAt(Zeroed(g, mask), Kernel, i, j) == NeighbourSum(g, mask, i, j)
  {
    var ind, val := Indicator(g, mask), Zeroed(g, mask);
    KernelTaps(ind, i, j);
    KernelTaps(val, i, j);
    forall r, c ensures Tap(ind, r, c) == NeighbourWeight(g, mask, r, c) as real
      && Tap(val, r, c) == NeighbourValue(g, mask, r, c)
    {
    }
  }

  /** The kernel adds up the eight taps around (i, j) and drops the centre. */
  lemma KernelTaps(x: Grid, i: int, j: int)
    requires IsRect(x)
    ensures ConvolveAt(x, Kernel, i, j)
         == Tap(x, i - 1, j - 1) + Tap(x, i - 1, j) + Tap(x, i - 1, j + 1)
          + Tap(x, i, j - 1) + Tap(x, i, j + 1)
          + Tap(x, i + 1, j - 1) + Tap(x, i + 1, j) + Tap(x, i + 1, j + 1)
  {
    assert Kernel[0] == [1.0, 1.0, 1.0] && Kernel[1] == [1.0, 0.0, 1.0] && Kernel[2] == [1.0, 1.0, 1.0];
  }

  /** `spatial_dependence_vectorized`: whole-array convolutions, then the
      masked combination.  It gives the neighbour mean minus the value exactly
      where the pixel is valid and has at least two valid neighbours, and 0
      everywhere else. */
  function SpatialDependenceVectorized(g: Grid, mask: Option<Mask>): (usd: Grid)
    requires MaskFits(mask, g)
    ensures IsGrid(usd, |g|, Cols(g))
    ensures forall i, j :: 0 <= i < |g| && 0 <= j < Cols(g) ==> usd[i][j] == Correction(g, mask, i, j, 2)
  {
    var neighbourValidCount := Convolve(Indicator(g, mask), Kernel);
    var neighbourSum := Convolve(Zeroed(g, mask), Kernel);
    var usd := seq(|g|, i requires 0 <= i < |g| =>
      seq(Cols(g), j requires 0 <= j < Cols(g) =>
        Combine(!Masked(mask, g, i, j), neighbourValidCount[i][j], neighbourSum[i][j], g[i][j])));
    assert forall i, j :: 0 <= i < |g| && 0 <= j < Cols(g) ==> usd[i][j] == Correction(g, mask, i, j, 2) by {
      forall i, j | 0 <= i < |g| && 0 <= j < Cols(g)
        ensures usd[i][j] == Correction(g, mask, i, j, 2)
      {
        ConvolveCountsNeighbours(g, mask, i, j);
        CombineIsCorrection(g, mask, i, j, neighbourValidCount[i][j], neighbourSum[i][j]);
      }
    }
    usd
  }

  /** With the true neighbour count and sum, the masked combination is the
      correction with a threshold of two neighbours. */
  lemma CombineIsCorrection(g: Grid, mask: Option<Mask>, i: int, j: int, count: real, sum: real)
    requires MaskFits(mask, g) && 0 <= i < |g| && 0 <= j < Cols(g)
    requires count == NeighbourCount(g, mask, i, j) as real && sum == NeighbourSum(g, mask, i, j)
    ensures Combine(!Masked(mask, g, i, j), count, sum, g[i][j]) == Correction(g, mask, i, j, 2)
  {
  }

  /** The loop and the vectorized versions agree on every pixel except a valid
      pixel with exactly one valid neighbour whose value differs from its own:
      the loop then corrects it and the vectorized version leaves it at 0. */
  lemma LoopAndVectorizedAgree(g: Grid, mask: Option<Mask>, i: int, j: int)
    requires MaskFits(mask, g) && 0 <= i < |g| && 0 <= j < Cols(g)
    ensures Correction(g, mask, i, j, 1) == Correction(g, mask, i, j, 2)
        <==> (Masked(mask, g, i, j) || NeighbourCount(g, mask, i, j) != 1 || NeighbourSum(g, mask, i, j) == g[i][j])
  {
  }

  // ---------------------------------------------------------------------
  // GPU implementation: eight `cp.roll` shifts, which wrap around the edges.

  /** `cp.roll(cp.roll(x, di, axis=0), dj, axis=1)` read at (r, c). */
  function Rolled(x: Grid, di: int, dj: int, r: int, c: int): real
    requires IsRect(x) && 0 <= r < |x| && 0 <= c < Cols(x)
  {
    x[(r - di) % |x|][(c - dj) % Cols(x)]
  }

  /** Sum of the eight rolled copies (all shifts but (0, 0)) at (r, c). */
  function RolledSum(x: Grid, r: int, c: int): real
    requires IsRect(x) && 0 <= r < |x| && 0 <= c < Cols(x)
  {
    Rolled(x, -1, -1, r, c) + Rolled(x, -1, 0, r, c) + Rolled(x, -1, 1, r, c)
    + Rolled(x, 0, -1, r, c) + Rolled(x, 0, 1, r, c)
    + Rolled(x, 1, -1, r, c) + Rolled(x, 1, 0, r, c) + Rolled(x, 1, 1, r, c)
  }

  /** `spatial_dependence_gpu` when the device call succeeds. */
  function SpatialDependenceGpu(g: Grid, mask: Option<Mask>): (usd: Grid)
    requires MaskFits(mask, g)
    ensures IsGrid(usd, |g|, Cols(g))
    ensures forall i, j :: 0 <= i < |g| && 0 <= j < Cols(g) && Masked(mask, g, i, j) ==> usd[i][j] == 0.0
  {
    var valid, masked := Indicator(g, mask), Zeroed(g, mask);
    seq(|g|, i requires 0 <= i < |g| =>
      seq(Cols(g), j requires 0 <= j < Cols(g) =>
        Combine(!Masked(mask, g, i, j), RolledSum(valid, i, j), RolledSum(masked, i, j), g[i][j])))
  }

  lemma RolledInside(x: Grid, di: int, dj: int, r: int, c: int)
    requires IsRect(x) && 0 <= r < |x| && 0 <= c < Cols(x)
    requires 0 <= r - di < |x| && 0 <= c - dj < Cols(x)
    ensures Rolled(x, di, dj, r, c) == Tap(x, r - di, c - dj)
  {
    DivUnique(r - di, |x|, 0, r - di);
    DivUnique(c - dj, Cols(x), 0, c - dj);
  }

  /** Away from the border the eight rolled copies read the same cells as
      the zero-padded convolution with the kernel. */
  lemma RolledSumInside(x: Grid, i: int, j: int)
    requires IsRect(x) && 1 <= i < |x| - 1 && 1 <= j < Cols(x) - 1
    ensures RolledSum(x, i, j) == ConvolveAt(x, Kernel, i, j)
  {
    RolledInside(x, -1, -1, i, j);
    RolledInside(x, -1, 0, i, j);
    RolledInside(x, -1, 1, i, j);
    RolledInside(x, 0, -1, i, j);
    RolledInside(x, 0, 1, i, j);
    RolledInside(x, 1, -1, i, j);
    RolledInside(x, 1, 0, i, j);
    RolledInside(x, 1, 1, i, j);
  }

  /** Away from the border no shift wraps, so the GPU field equals the
      vectorized one there. */
  lemma GpuMatchesInside(g: Grid, mask: Option<Mask>, i: int, j: int)
    requires MaskFits(mask, g)
    requires 1 <= i < |g| - 1 && 1 <= j < Cols(g) - 1
    ensures SpatialDependenceGpu(g, mask)[i][j] == SpatialDependenceVectorized(g, mask)[i][j]
  {
    var valid, masked := Indicator(g, mask), Zeroed(g, mask);
    assert SpatialDependenceGpu(g, mask)[i][j]
        == Combine(!Masked(mask, g, i, j), RolledSum(valid, i, j), RolledSum(masked, i, j), g[i][j]);
    RolledSumInside(valid, i, j);
    RolledSumInside(masked, i, j);
    ConvolveCountsNeighbours(g, mask, i, j);
    CombineIsCorrection(g, mask, i, j, RolledSum(valid, i, j), RolledSum(masked, i, j));
  }

  /** At a corner the GPU shifts wrap around: on the 3x3 grid that is zero
      except for a 9 in the opposite corner, the corner (0, 0) sees all eight
      other cells (mean 9/8), while the zero-padded version sees only its
      three real neighbours (mean 0). */
  lemma GpuWrapsAtCorner()
    ensures var g: Grid := [[0.0, 0.0, 0.0], [0.0, 0.0, 0.0], [0.0, 0.0, 9.0]];
      && SpatialDependenceGpu(g, None)[0][0] == 9.0 / 8.0
      && SpatialDependenceVectorized(g, None)[0][0] == 0.0
  {
    var g: Grid := [[0.0, 0.0, 0.0], [0.0, 0.0, 0.0], [0.0, 0.0, 9.0]];
    CornerGpu(g);
    CornerVectorized(g);
  }

  lemma CornerGpu(g: Grid)
    requires g == [[0.0, 0.0, 0.0], [0.0, 0.0, 0.0], [0.0, 0.0, 9.0]]
    ensures SpatialDependenceGpu(g, None)[0][0] == 9.0 / 8.0
  {
    var valid, masked := Indicator(g, None), Zeroed(g, None);
    assert forall r, c :: 0 <= r < 3 && 0 <= c < 3 ==> valid[r][c] == 1.0 && masked[r][c] == g[r][c];
    CornerRolledSum(valid);
    CornerRolledSum(masked);
    assert RolledSum(valid, 0, 0) == 8.0 && RolledSum(masked, 0, 0) == 9.0;
  }

  lemma CornerVectorized(g: Grid)
    requires g == [[0.0, 0.0, 0.0], [0.0, 0.0, 0.0], [0.0, 0.0, 9.0]]
    ensures SpatialDependenceVectorized(g, None)[0][0] == 0.0
  {
    assert NeighbourCount(g, None, 0, 0) == 3;
    assert NeighbourSum(g, None, 0, 0) == 0.0;
    CorrectionOfValid(g, None, 0, 0, 2, 3, 0.0);
  }

  /** At (0, 0) of a 3x3 grid the eight shifts read every other cell once. */
  lemma CornerRolledSum(x: Grid)
    requires IsGrid(x, 3, 3)
    ensures RolledSum(x, 0, 0) == x[0][1] + x[0][2] + x[1][0] + x[1][1] + x[1][2] + x[2][0] + x[2][1] + x[2][2]
  {
    assert (0 - -1) % 3 == 1 && (0 - 1) % 3 == 2 && (0 - 0) % 3 == 0;
  }
}
