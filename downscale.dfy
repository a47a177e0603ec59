/** The backend dispatchers and the `downscale_dem` driver: initialize the fine
    grid, then add the spatial-dependence and elevation-constraint fields until
    the energy change is within the threshold or the iteration budget is spent,
    keeping nodata pixels at the nodata value throughout. */
module Downscale {
  import opened Wrappers
  import opened Grids
  import opened Estimates
  import opened Initializer
  import opened SpatialDependence
  import opened ElevationConstraint

  // ---------------------------------------------------------------------
  // Backend dispatch.

  datatype SpatialBackend = SpatialOnGpu | SpatialVectorized | SpatialLoop

  /** `spatial_dependence`: the GPU kernel when it is asked for, present and
      vectorization is on, unless the kernel raises; then the convolution when
      vectorization is on and SciPy is present; otherwise the loop.  `None`
      for `useGpu` means "use the GPU if there is one". */
  function SpatialBackendFor(useGpu: Option<bool>, useVectorized: bool, caps: Capabilities, gpuRaises: bool)
    : SpatialBackend
  {
    var gpu := useGpu.GetOr(caps.gpuAvailable);
    if gpu && caps.gpuAvailable && useVectorized && !gpuRaises then SpatialOnGpu
    else if useVectorized && caps.scipyAvailable then SpatialVectorized
    else SpatialLoop
  }

  /** The field the loop version produces, as a value. */
  function SpatialReference(g: Grid, mask: Option<Mask>, least: nat): (usd: Grid)
    requires MaskFits(mask, g) && least >= 1
    ensures IsGrid(usd, |g|, Cols(g))
  {
    seq(|g|, i requires 0 <= i < |g| =>
      seq(Cols(g), j requires 0 <= j < Cols(g) => Correction(g, mask, i, j, least)))
  }

  /** The spatial-dependence field each backend computes. */
  function SpatialField(g: Grid, mask: Option<Mask>, b: SpatialBackend): (usd: Grid)
    requires MaskFits(mask, g)
    ensures IsGrid(usd, |g|, Cols(g))
  {
    match b
    case SpatialOnGpu => SpatialDependenceGpu(g, mask)
    case SpatialVectorized => SpatialDependenceVectorized(g, mask)
    case SpatialLoop => SpatialReference(g, mask, 1)
  }

  /** The dispatcher returns the field of the backend its flags select; a
      raising GPU kernel falls back to the CPU. */
  method DispatchSpatialDependence(g: Grid, mask: Option<Mask>, useVectorized: bool, useGpu: Option<bool>,
                                   caps: Capabilities, gpuRaises: bool)
    returns (usd: Grid)
    requires MaskFits(mask, g)
    ensures usd == SpatialField(g, mask, SpatialBackendFor(useGpu, useVectorized, caps, gpuRaises))
  {
    var gpu := useGpu.GetOr(caps.gpuAvailable);
    if gpu && caps.gpuAvailable && useVectorized && !gpuRaises {
      return SpatialDependenceGpu(g, mask);
    }
    if useVectorized && caps.scipyAvailable {
      return SpatialDependenceVectorized(g, mask);
    }
    usd := SpatialDependenceLoop(g, mask);
    GridsEqual(usd, SpatialReference(g, mask, 1), |g|, Cols(g));
  }

  /** Away from the border, on a pixel whose number of valid neighbours is not
      exactly one, every backend gives the same correction. */
  lemma BackendsAgreeInside(g: Grid, mask: Option<Mask>, i: int, j: int, b1: SpatialBackend, b2: SpatialBackend)
    requires MaskFits(mask, g) && 1 <= i < |g| - 1 && 1 <= j < Cols(g) - 1
    requires NeighbourCount(g, mask, i, j) != 1
    ensures SpatialField(g, mask, b1)[i][j] == SpatialField(g, mask, b2)[i][j]
  {
    GpuMatchesInside(g, mask, i, j);
    LoopAndVectorizedAgree(g, mask, i, j);
  }

  /** `elevation_constraint`.  The GPU attempt calls a kernel that is not
      defined anywhere, so it always raises and is caught; the result is the
      vectorized field whenever vectorization is on, whatever the GPU flags
      say, and the loop field otherwise. */
  method DispatchElevationConstraint(dtin: Grid, goc: Grid, rsme: real, mo: Option<Mask>, md: Option<Mask>,
                                     useVectorized: bool, useGpu: Option<bool>, caps: Capabilities)
    returns (uec: Grid)
    requires BlocksFit(dtin, goc, mo, md) && (useVectorized ==> ExactBlocks(dtin, goc, mo, md))
    ensures IsGrid(uec, |dtin|, Cols(dtin))
    ensures useVectorized ==> uec == ElevationConstraintVectorized(dtin, goc, rsme, mo, md)
    ensures forall l, m :: 0 <= l < |dtin| && 0 <= m < Cols(dtin) ==>
              uec[l][m] == ExpectedCorrection(dtin, goc, rsme, mo, md, l, m, !useVectorized)
  {
    if useVectorized {
      uec := ElevationConstraintVectorized(dtin, goc, rsme, mo, md);
      forall l, m | 0 <= l < |dtin| && 0 <= m < Cols(dtin)
        ensures uec[l][m] == ExpectedCorrection(dtin, goc, rsme, mo, md, l, m, false)
      {
        VectorizedMeaning(dtin, goc, rsme, mo, md, l, m);
      }
      return;
    }
    uec := ElevationConstraintLoop(dtin, goc, rsme, mo, md);
  }

  // ---------------------------------------------------------------------
  // Nodata, geotransform and the run's fixed inputs.

  /** `(goc == nodata_value) | np.isnan(goc)` when there is a nodata value,
      `None` otherwise; `nanCells` marks the cells that hold NaN. */
  function NodataMask(goc: Grid, nodata: Option<real>, nanCells: Mask): (mo: Option<Mask>)
    requires IsRect(goc) && IsGrid(nanCells, |goc|, Cols(goc))
    ensures MaskFits(mo, goc) && mo.Some? == nodata.Some?
    ensures mo.Some? ==> forall r, c :: 0 <= r < |goc| && 0 <= c < Cols(goc) ==>
              (mo.value[r][c] <==> goc[r][c] == nodata.value || nanCells[r][c])
  {
    if nodata.None? then None
    else Some(seq(|goc|, r requires 0 <= r < |goc| =>
                seq(Cols(goc), c requires 0 <= c < Cols(goc) => goc[r][c] == nodata.value || nanCells[r][c])))
  }

  /** `dscal[nodata_mask_down] = nodata_value` when both exist: masked
      pixels take the nodata value and no other pixel changes. */
  function ApplyNodata(g: Grid, md: Option<Mask>, nodata: Option<real>): (h: Grid)
    requires MaskFits(md, g)
    ensures IsGrid(h, |g|, Cols(g))
    ensures forall r, c :: 0 <= r < |g| && 0 <= c < Cols(g) ==>
              h[r][c] == if md.Some? && nodata.Some? && md.value[r][c] then nodata.value else g[r][c]
  {
    if md.Some? && nodata.Some? then
      seq(|g|, r requires 0 <= r < |g| =>
        seq(Cols(g), c requires 0 <= c < Cols(g) => if md.value[r][c] then nodata.value else g[r][c]))
    else g
  }

  /** Writing the nodata value a second time changes nothing. */
  lemma ApplyNodataIdempotent(g: Grid, md: Option<Mask>, nodata: Option<real>)
    requires MaskFits(md, g)
    ensures MaskFits(md, ApplyNodata(g, md, nodata))
    ensures ApplyNodata(ApplyNodata(g, md, nodata), md, nodata) == ApplyNodata(g, md, nodata)
  {
    var h := ApplyNodata(g, md, nodata);
    GridIsRect(h, |g|, Cols(g));
    GridsEqual(ApplyNodata(h, md, nodata), h, |g|, Cols(g));
  }

  /** Lines 932-939: the new geotransform keeps the origin and the rotation
      terms and divides both pixel sizes by the zoom. */
  function ScaleGeoTransform(geot: seq<real>, zoom: nat): (g: seq<real>)
    requires |geot| == 6 && zoom > 0
    ensures |g| == 6
    ensures g[0] == geot[0] && g[2] == geot[2] && g[3] == geot[3] && g[4] == geot[4]
    ensures g[1] * zoom as real == geot[1] && g[5] * zoom as real == geot[5]
  {
    [geot[0], geot[1] / zoom as real, geot[2], geot[3], geot[4], geot[5] / zoom as real]
  }

  /** The fine raster covers the same ground as the coarse one: the same
      origin, and `cols*zoom` fine pixels span what `cols` coarse pixels did. */
  lemma ScaledRasterSameExtent(geot: seq<real>, zoom: nat, rows: nat, cols: nat)
    requires |geot| == 6 && zoom > 0
    ensures var g := ScaleGeoTransform(geot, zoom);
      && g[0] == geot[0] && g[3] == geot[3]
      && g[1] * (cols * zoom) as real == geot[1] * cols as real
      && g[5] * (rows * zoom) as real == geot[5] * rows as real
  {
    var g := ScaleGeoTransform(geot, zoom);
    assert (cols * zoom) as real == cols as real * zoom as real;
    assert (rows * zoom) as real == rows as real * zoom as real;
    assert g[1] * (cols as real * zoom as real) == (g[1] * zoom as real) * cols as real;
    assert g[5] * (rows as real * zoom as real) == (g[5] * zoom as real) * rows as real;
  }

  /** What stays fixed during a run: the coarse grid and its mask, the
      expanded mask, the nodata value, the zoom, the RSME, the accelerators
      found at start-up, and which iterations' GPU calls raise. */
  datatype Run = Run(goc: Grid, mo: Option<Mask>, md: Option<Mask>, nodata: Option<real>,
                     zoom: nat, rsme: real, caps: Capabilities, gpuRaises: nat -> bool)

  predicate RunOk(run: Run) {
    IsRect(run.goc) && |run.goc| > 0 && run.zoom > 0 && MaskFits(run.mo, run.goc)
    && run.md == Initialize(run.goc, run.zoom, run.mo).1
  }

  /** A fine grid of the run's shape. */
  predicate Fits(run: Run, g: Grid) {
    RunOk(run) && IsGrid(g, |run.goc| * run.zoom, Cols(run.goc) * run.zoom)
  }

  lemma FitsBlocks(run: Run, g: Grid)
    requires Fits(run, g)
    ensures ExactBlocks(g, run.goc, run.mo, run.md) && BlocksFit(g, run.goc, run.mo, run.md)
  {
    var gw, gh := |run.goc|, Cols(run.goc);
    DivUnique(gw * run.zoom, gw, run.zoom, 0);
    GridIsRect(g, gw * run.zoom, gh * run.zoom);
    MulLess(0, gw, run.zoom);
    ExpandMask(run.mo, run.zoom, gw, gh);
  }

  /** Every nodata pixel of `g` already holds the nodata value: writing it
      again changes nothing. */
  predicate NodataHeld(run: Run, g: Grid) {
    MaskFits(run.md, g) && ApplyNodata(g, run.md, run.nodata) == g
  }

  // ---------------------------------------------------------------------
  // The iteration.

  /** Iteration number `iteration` of the while loop from grid `dscal`: the
      spatial field on the backend `downscale_dem` asks for (vectorized, GPU
      if present), the vectorized elevation field, their absolute sums as the
      energy, and the sum of both added to the grid with nodata pixels reset. */
  function Step(run: Run, dscal: Grid, iteration: nat): (r: (Grid, real))
    requires Fits(run, dscal)
    ensures Fits(run, r.0) && NodataHeld(run, r.0) && r.1 >= 0.0
  {
    FitsBlocks(run, dscal);
    var backend := SpatialBackendFor(Some(run.caps.gpuAvailable), true, run.caps, run.gpuRaises(iteration));
    var usd := SpatialField(dscal, run.md, backend);
    var uec := ElevationConstraintVectorized(dscal, run.goc, run.rsme, run.mo, run.md);
    var u := Add(usd, uec);
    var energyNew := AbsSum(usd) + AbsSum(uec);
    var next := Add(dscal, u);
    ApplyNodataIdempotent(next, run.md, run.nodata);
    (ApplyNodata(next, run.md, run.nodata), energyNew)
  }

  datatype LoopState = LoopState(dscal: Grid, energyOld: real, energyDif: real, iteration: nat)

  /** The while loop of `downscale_dem` as a function of its state: step while
      the energy still changes by more than the threshold and the budget is not
      spent.  If it steps at all, the last energy is non-negative and every
      nodata pixel holds the nodata value; if it does not, nothing changes. */
  function Converge(run: Run, s: LoopState, threshold: real, maxIterations: int): (t: LoopState)
    requires Fits(run, s.dscal)
    ensures Fits(run, t.dscal) && s.iteration <= t.iteration
    ensures t.iteration == s.iteration ==> t == s
    ensures t.iteration != s.iteration ==> t.energyOld >= 0.0 && NodataHeld(run, t.dscal)
    decreases maxIterations - s.iteration
  {
    if Abs(s.energyDif) > threshold && s.iteration < maxIterations then
      Converge(run, Next(run, s), threshold, maxIterations)
    else s
  }

  /** The loop state after one more iteration. */
  function Next(run: Run, s: LoopState): (n: LoopState)
    requires Fits(run, s.dscal)
    ensures Fits(run, n.dscal) && NodataHeld(run, n.dscal) && n.energyOld >= 0.0
    ensures n.iteration == s.iteration + 1 && n.energyDif == s.energyOld - n.energyOld
  {
    var r := Step(run, s.dscal, s.iteration + 1);
    LoopState(r.0, r.1, s.energyOld - r.1, s.iteration + 1)
  }

  /** The loop runs no more than the budget, and it stops because the energy
      change fell within the threshold or the budget ran out. */
  lemma {:induction false} ConvergeExit(run: Run, s: LoopState, threshold: real, maxIterations: int)
    requires Fits(run, s.dscal)
    ensures var t := Converge(run, s, threshold, maxIterations);
      && (s.iteration <= maxIterations ==> t.iteration <= maxIterations)
      && (Abs(t.energyDif) <= threshold || t.iteration >= maxIterations)
    decreases maxIterations - s.iteration
  {
    if Abs(s.energyDif) > threshold && s.iteration < maxIterations {
      ConvergeExit(run, Next(run, s), threshold, maxIterations);
    }
  }

  /** The state before the loop: the initialized grid with nodata pixels set,
      `Energy_old = 1e11`, `Energy_dif = 1e8`, no iteration yet. */
  function InitialState(run: Run): (s: LoopState)
    requires RunOk(run)
    ensures Fits(run, s.dscal) && NodataHeld(run, s.dscal)
  {
    var init := Initialize(run.goc, run.zoom, run.mo);
    InitializeShapes(run.goc, run.zoom, run.mo, |run.goc|, Cols(run.goc));
    GridIsRect(init.0, |run.goc| * run.zoom, Cols(run.goc) * run.zoom);
    ExpandMask(run.mo, run.zoom, |run.goc|, Cols(run.goc));
    ApplyNodataIdempotent(init.0, run.md, run.nodata);
    LoopState(ApplyNodata(init.0, run.md, run.nodata), 100000000000.0, 100000000.0, 0)
  }

  /** The raster `create_raster` writes: the grid, the scaled geotransform,
      the projection and the nodata value (-9999 when the input had none). */
  datatype Raster = Raster(data: Grid, geoTransform: seq<real>, projection: string, nodataValue: real)

  /** The dictionary `downscale_dem` returns. */
  datatype Summary = Summary(iterations: nat, finalEnergy: real, memoryEstimateMb: real,
                             inputSize: (int, int), outputSize: (int, int), converged: bool, nodataPreserved: bool)

  /** The fixed inputs of a run on the coarse grid `goc`. */
  function MakeRun(goc: Grid, nodata: Option<real>, nanCells: Mask, zoom: nat, rsme: real,
                   caps: Capabilities, gpuRaises: nat -> bool): (run: Run)
    requires IsRect(goc) && |goc| > 0 && IsGrid(nanCells, |goc|, Cols(goc)) && zoom > 0
    ensures RunOk(run)
  {
    var mo := NodataMask(goc, nodata, nanCells);
    Run(goc, mo, Initialize(goc, zoom, mo).1, nodata, zoom, rsme, caps, gpuRaises)
  }

  /** The step the while body takes from `s` with the fields the dispatchers
      returned is the loop's next state. */
  lemma BodyIsNext(run: Run, s: LoopState, usd: Grid, uec: Grid)
    requires Fits(run, s.dscal) && ExactBlocks(s.dscal, run.goc, run.mo, run.md)
    requires usd == SpatialField(s.dscal, run.md,
                      SpatialBackendFor(Some(run.caps.gpuAvailable), true, run.caps, run.gpuRaises(s.iteration + 1)))
    requires uec == ElevationConstraintVectorized(s.dscal, run.goc, run.rsme, run.mo, run.md)
    ensures IsRect(s.dscal) && IsGrid(Add(usd, uec), |s.dscal|, Cols(s.dscal))
    ensures MaskFits(run.md, Add(s.dscal, Add(usd, uec)))
    ensures var e := AbsSum(usd) + AbsSum(uec);
      Next(run, s) == LoopState(ApplyNodata(Add(s.dscal, Add(usd, uec)), run.md, run.nodata),
                                e, s.energyOld - e, s.iteration + 1)
  {
    FitsBlocks(run, s.dscal);
    StepOf(run, s.dscal, s.iteration + 1, usd, uec);
  }

  lemma StepOf(run: Run, dscal: Grid, iteration: nat, usd: Grid, uec: Grid)
    requires Fits(run, dscal) && ExactBlocks(dscal, run.goc, run.mo, run.md)
    requires usd == SpatialField(dscal, run.md,
                      SpatialBackendFor(Some(run.caps.gpuAvailable), true, run.caps, run.gpuRaises(iteration)))
    requires uec == ElevationConstraintVectorized(dscal, run.goc, run.rsme, run.mo, run.md)
    ensures IsRect(dscal) && IsGrid(Add(usd, uec), |dscal|, Cols(dscal))
    ensures MaskFits(run.md, Add(dscal, Add(usd, uec)))
    ensures Step(run, dscal, iteration).0 == ApplyNodata(Add(dscal, Add(usd, uec)), run.md, run.nodata)
    ensures Step(run, dscal, iteration).1 == AbsSum(usd) + AbsSum(uec)
  {
    FitsBlocks(run, dscal);
  }

  /** One pass of the while body: both fields on the current grid, the
      summed correction added, nodata pixels reset, energies updated. */
  method Iterate(run: Run, s: LoopState) returns (n: LoopState)
    requires Fits(run, s.dscal)
    ensures n == Next(run, s)
  {
    var iteration := s.iteration + 1;
    var useGpu := run.caps.gpuAvailable;
    FitsBlocks(run, s.dscal);
    var usd := DispatchSpatialDependence(s.dscal, run.md, true, Some(useGpu), run.caps, run.gpuRaises(iteration));
    var uec := DispatchElevationConstraint(s.dscal, run.goc, run.rsme, run.mo, run.md, true, Some(useGpu), run.caps);
    BodyIsNext(run, s, usd, uec);
    var u := Add(usd, uec);
    var energyNew := AbsSum(usd) + AbsSum(uec);
    var dscal := ApplyNodata(Add(s.dscal, u), run.md, run.nodata);
    n := LoopState(dscal, energyNew, s.energyOld - energyNew, iteration);
  }

  /** The convergence loop of `downscale_dem`.  `energyNew` is `None` exactly
      when the body never ran (the name is then unbound in the source). */
  method ConvergenceLoop(run: Run, threshold: real, maxIterations: int)
    returns (t: LoopState, energyNew: Option<real>)
    requires RunOk(run)
    ensures t == Converge(run, InitialState(run), threshold, maxIterations)
    ensures Fits(run, t.dscal) && NodataHeld(run, t.dscal)
    ensures energyNew.Some? <==> t.iteration > 0
    ensures energyNew.Some? ==> energyNew.value == t.energyOld
    ensures t.iteration > 0 <==> 0 < maxIterations && threshold < 100000000.0
    ensures t.iteration <= maxIterations || t.iteration == 0
    ensures Abs(t.energyDif) <= threshold || t.iteration >= maxIterations
  {
    var s0 := InitialState(run);
    t := s0;
    energyNew := None;
    while Abs(t.energyDif) > threshold && t.iteration < maxIterations
      invariant Fits(run, t.dscal)
      invariant Converge(run, t, threshold, maxIterations) == Converge(run, s0, threshold, maxIterations)
      invariant energyNew.Some? <==> t.iteration > 0
      invariant energyNew.Some? ==> energyNew.value == t.energyOld
      invariant t.iteration == 0 ==> t == s0
      invariant t.iteration > 0 ==> 0 < maxIterations && threshold < 100000000.0
      invariant t.iteration > 0 ==> NodataHeld(run, t.dscal) && t.iteration <= maxIterations
      decreases maxIterations - t.iteration
    {
      t := Iterate(run, t);
      energyNew := Some(t.energyOld);
    }
  }

  /** `downscale_dem` after the raster has been read.  The raster is always
      written; the result is an error when the loop never ran, because
      `Energy_new` is then unbound where the summary reads it. */
  method DownscaleDem(goc: Grid, nodata: Option<real>, nanCells: Mask, geot: seq<real>, proj: string,
                      zoom: nat, rsme: real, threshold: real, maxIterations: int,
                      caps: Capabilities, gpuRaises: nat -> bool)
    returns (written: Raster, result: Result<Summary, string>)
    requires IsRect(goc) && |goc| > 0 && IsGrid(nanCells, |goc|, Cols(goc)) && |geot| == 6 && zoom > 0
    ensures written.geoTransform == ScaleGeoTransform(geot, zoom) && written.projection == proj
    ensures written.nodataValue == nodata.GetOr(-9999.0)
    ensures IsGrid(written.data, |goc| * zoom, Cols(goc) * zoom)
    ensures var run := MakeRun(goc, nodata, nanCells, zoom, rsme, caps, gpuRaises);
      var t := Converge(run, InitialState(run), threshold, maxIterations);
      && written.data == t.dscal
      && (result.Ok? <==> t.iteration > 0)
      && (result.Ok? ==> result.value == Summary(t.iteration, t.energyOld,
            EstimateMemoryUsage(Cols(goc), |goc|, zoom).totalMb, (Cols(goc), |goc|),
            (Cols(goc) * zoom, |goc| * zoom), Abs(t.energyDif) <= threshold, nodata.Some?))
    ensures result.Ok? ==> 1 <= result.value.iterations <= maxIterations && result.value.finalEnergy >= 0.0
    ensures result.Ok? && result.value.iterations < maxIterations ==> result.value.converged
    ensures result.Err? <==> maxIterations <= 0 || threshold >= 100000000.0
    ensures nodata.Some? ==> NodataExplained(goc, nodata.value, nanCells, zoom, written.data)
  {
    var memEstimate := EstimateMemoryUsage(Cols(goc), |goc|, zoom);
    var geotNew := ScaleGeoTransform(geot, zoom);
    var run := MakeRun(goc, nodata, nanCells, zoom, rsme, caps, gpuRaises);
    var t, energyNew := ConvergenceLoop(run, threshold, maxIterations);
    var dscal := ApplyNodata(t.dscal, run.md, nodata);
    assert dscal == t.dscal;
    written := Raster(dscal, geotNew, proj, nodata.GetOr(-9999.0));
    NodataAtExit(run, goc, nodata, nanCells, zoom, dscal);
    if energyNew.None? {
      return written, Err("UnboundLocalError: Energy_new");
    }
    result := Ok(Summary(t.iteration, energyNew.value, memEstimate.totalMb, (Cols(goc), |goc|),
                         memEstimate.outputSize, Abs(t.energyDif) <= threshold, nodata.Some?));
  }

  /** Every fine pixel is the nodata value or lies under a coarse cell that
      is neither the nodata value nor NaN. */
  predicate NodataExplained(goc: Grid, nodata: real, nanCells: Mask, zoom: nat, g: Grid)
    requires IsRect(goc) && IsGrid(nanCells, |goc|, Cols(goc)) && zoom > 0
    requires IsGrid(g, |goc| * zoom, Cols(goc) * zoom)
  {
    forall r, c :: 0 <= r < |goc| * zoom && 0 <= c < Cols(goc) * zoom ==>
      NodataCellExplained(goc, nodata, nanCells, zoom, g, r, c)
  }

  predicate NodataCellExplained(goc: Grid, nodata: real, nanCells: Mask, zoom: nat, g: Grid, r: int, c: int)
    requires IsRect(goc) && IsGrid(nanCells, |goc|, Cols(goc)) && zoom > 0
    requires IsGrid(g, |goc| * zoom, Cols(goc) * zoom)
  {
    && 0 <= r < |goc| * zoom && 0 <= c < Cols(goc) * zoom
    && 0 <= r / zoom < |goc| && 0 <= c / zoom < Cols(goc)
    && (g[r][c] == nodata || (goc[r / zoom][c / zoom] != nodata && !nanCells[r / zoom][c / zoom]))
  }

  /** A grid that holds the nodata value on every nodata pixel of the run
      explains every pixel that way. */
  lemma NodataAtExit(run: Run, goc: Grid, nodata: Option<real>, nanCells: Mask, zoom: nat, g: Grid)
    requires IsRect(goc) && |goc| > 0 && IsGrid(nanCells, |goc|, Cols(goc)) && zoom > 0
    requires RunOk(run) && run.goc == goc && run.zoom == zoom && run.nodata == nodata
    requires run.mo == NodataMask(goc, nodata, nanCells)
    requires Fits(run, g) && NodataHeld(run, g)
    ensures nodata.Some? ==> NodataExplained(goc, nodata.value, nanCells, zoom, g)
  {
    if nodata.Some? {
      forall r, c | 0 <= r < |goc| * zoom && 0 <= c < Cols(goc) * zoom
        ensures NodataCellExplained(goc, nodata.value, nanCells, zoom, g, r, c)
      {
        NodataCellAtExit(run, goc, nodata, nanCells, zoom, g, r, c);
      }
    }
  }

  lemma NodataCellAtExit(run: Run, goc: Grid, nodata: Option<real>, nanCells: Mask, zoom: nat, g: Grid, r: int, c: int)
    requires IsRect(goc) && |goc| > 0 && IsGrid(nanCells, |goc|, Cols(goc)) && zoom > 0
    requires RunOk(run) && run.goc == goc && run.zoom == zoom && run.nodata == nodata
    requires run.mo == NodataMask(goc, nodata, nanCells)
    requires Fits(run, g) && NodataHeld(run, g) && nodata.Some?
    requires 0 <= r < |goc| * zoom && 0 <= c < Cols(goc) * zoom
    ensures NodataCellExplained(goc, nodata.value, nanCells, zoom, g, r, c)
  {
    var gw, gh := |goc|, Cols(goc);
    InitializeReplicates(goc, zoom, run.mo, gw, gh, r, c);
    var i, j := r / zoom, c / zoom;
    assert run.md.value[r][c] == run.mo.value[i][j];
    assert run.mo.value[i][j] <==> goc[i][j] == nodata.value || nanCells[i][j];
    assert ApplyNodata(g, run.md, run.nodata)[r][c] == g[r][c];
  }
}
