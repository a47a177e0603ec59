/** Pre-flight sizing of a downscaling run: the memory footprint and the
    expected wall-clock time, both closed-form in the raster's width, height
    and the zoom factor. */
module Estimates {
  import opened Wrappers

  /** Which accelerators the process found when it started
      (`GPU_AVAILABLE`, `SCIPY_AVAILABLE`). */
  datatype Capabilities = Capabilities(gpuAvailable: bool, scipyAvailable: bool)

  /** A float32 cell takes 4 bytes; estimates are in MiB. */
  const BytesPerCell: int := 4
  const BytesPerMb: real := 1048576.0

  /** The dictionary returned by `estimate_memory_usage`. */
  datatype MemoryEstimate = MemoryEstimate(
    inputMb: real, outputMb: real, tempMb: real, totalMb: real, outputSize: (int, int))

  function EstimateMemoryUsage(width: int, height: int, zoom: int): (e: MemoryEstimate)
    ensures e.outputSize == (width * zoom, height * zoom)
  {
    var inputMb := (width * height * BytesPerCell) as real / BytesPerMb;
    var outputWidth, outputHeight := width * zoom, height * zoom;
    var outputMb := (outputWidth * outputHeight * BytesPerCell) as real / BytesPerMb;
    // usd, uec and their sum u
    var tempMb := outputMb * 3.0;
    MemoryEstimate(inputMb, outputMb, tempMb, inputMb + outputMb + tempMb, (outputWidth, outputHeight))
  }

  /** The output buffer is the input buffer times zoom squared, the transient
      arrays are three output buffers, and the total is their sum, so the
      total is the input size times 1 + 4 * zoom^2 and never negative. */
  lemma MemoryEstimateScales(width: int, height: int, zoom: int)
    ensures var e := EstimateMemoryUsage(width, height, zoom);
      && e.outputSize == (width * zoom, height * zoom)
      && e.outputMb == e.inputMb * (zoom * zoom) as real
      && e.tempMb == 3.0 * e.outputMb
      && e.totalMb == e.inputMb + e.outputMb + e.tempMb
      && e.totalMb == e.inputMb * (1 + 4 * zoom * zoom) as real
      && (width * height >= 0 ==> 0.0 <= e.inputMb <= e.totalMb)
  {
    var e := EstimateMemoryUsage(width, height, zoom);
    var p := width * height * BytesPerCell;
    assert (width * zoom) * (height * zoom) * BytesPerCell == p * (zoom * zoom);
    assert (p * (zoom * zoom)) as real == p as real * (zoom * zoom) as real;
    assert e.outputMb == e.inputMb * (zoom * zoom) as real;
    if width * height >= 0 {
      assert zoom * zoom >= 0;
      MulLeReal(e.inputMb, (4 * zoom * zoom) as real);
    }
  }

  lemma MulLeReal(a: real, b: real)
    requires a >= 0.0 && b >= 0.0
    ensures a * b >= 0.0
  {
  }

  /** The backend the estimate assumes (`processing_mode`). */
  datatype ProcessingMode = Gpu | CpuVectorized | CpuLoop

  function ModeLabel(m: ProcessingMode): string {
    match m
    case Gpu => "GPU"
    case CpuVectorized => "CPU vectorized"
    case CpuLoop => "CPU loop-based"
  }

  /** `None` means "auto-detect from the capabilities". */
  function SelectMode(useGpu: Option<bool>, useVectorized: Option<bool>, caps: Capabilities): ProcessingMode {
    if useGpu.GetOr(caps.gpuAvailable) then Gpu
    else if useVectorized.GetOr(caps.scipyAvailable) then CpuVectorized
    else CpuLoop
  }

  /** Seconds per million output pixels per iteration. */
  function BaseTimePerMpix(m: ProcessingMode): real {
    match m
    case Gpu => 0.1
    case CpuVectorized => 2.0
    case CpuLoop => 30.0
  }

  const IterationsEstimate: int := 50
  /** Reading, writing and initialisation. */
  const Overhead: real := 5.0

  /** Python's `int(x)` on a float: truncation toward zero. */
  function Trunc(x: real): int {
    if x >= 0.0 then x.Floor else -((-x).Floor)
  }

  /** Python's `x % d` on floats with a positive divisor: the result has the
      sign of the divisor. */
  function FloatMod(x: real, d: real): real
    requires d > 0.0
  {
    x - d * (x / d).Floor as real
  }

  /** The three shapes of `formatted_time`. */
  datatype TimeText = Seconds(seconds: int) | MinSec(minutes: int, seconds: int) | HrMin(hours: int, minutes: int)

  function FormatTime(total: real): (t: TimeText)
    ensures t.Seconds? <==> total < 60.0
    ensures t.HrMin? <==> total >= 3600.0
  {
    if total < 60.0 then Seconds(Trunc(total))
    else if total < 3600.0 then MinSec(Trunc(total / 60.0), Trunc(FloatMod(total, 60.0)))
    else HrMin(Trunc(total / 3600.0), Trunc(FloatMod(total, 3600.0) / 60.0))
  }

  function DigitChar(d: int): char
    requires 0 <= d < 10
  {
    "0123456789"[d]
  }

  /** Decimal digits of a natural number, as `str` prints them. */
  function NatToString(n: nat): (s: string)
    ensures |s| >= 1
    decreases n
  {
    if n < 10 then [DigitChar(n)] else NatToString(n / 10) + [DigitChar(n % 10)]
  }

  function IntToString(n: int): string {
    if n < 0 then "-" + NatToString(-n) else NatToString(n)
  }

  function RenderTime(t: TimeText): string {
    match t
    case Seconds(s) => "~" + IntToString(s) + " seconds"
    case MinSec(m, s) => "~" + IntToString(m) + " min " + IntToString(s) + " sec"
    case HrMin(h, m) => "~" + IntToString(h) + " hr " + IntToString(m) + " min"
  }

  /** The dictionary returned by `estimate_runtime`. */
  datatype RuntimeEstimate = RuntimeEstimate(
    totalSeconds: real, timePerIteration: real, iterationsEstimate: int,
    formattedTime: string, processingMode: string)

  /** Millions of output pixels. */
  function OutputMpix(width: int, height: int, zoom: int): real {
    ((width * zoom) * (height * zoom)) as real / 1000000.0
  }

  /** The rate, the iteration count and the mode label all come from the one
      backend chosen by `SelectMode`, and the time text renders the total. */
  function EstimateRuntime(width: int, height: int, zoom: int,
                           useGpu: Option<bool>, useVectorized: Option<bool>, caps: Capabilities): (r: RuntimeEstimate)
    ensures var m := SelectMode(useGpu, useVectorized, caps);
      && r.processingMode == ModeLabel(m)
      && r.iterationsEstimate == IterationsEstimate
      && r.totalSeconds == BaseTimePerMpix(m) * OutputMpix(width, height, zoom) * 50.0 + Overhead
    ensures r.formattedTime == RenderTime(FormatTime(r.totalSeconds))
  {
    var mode := SelectMode(useGpu, useVectorized, caps);
    var timePerIteration := BaseTimePerMpix(mode) * OutputMpix(width, height, zoom);
    var totalSeconds := timePerIteration * IterationsEstimate as real + Overhead;
    RuntimeEstimate(totalSeconds, timePerIteration, IterationsEstimate,
                    RenderTime(FormatTime(totalSeconds)), ModeLabel(mode))
  }

  /** For a non-empty raster the GPU estimate is below the vectorized one,
      which is below the loop-based one: the per-pixel rates are ordered
      0.1 < 2.0 < 30.0 and everything else is shared. */
  lemma FasterModeEstimatesLess(width: int, height: int, zoom: int, caps: Capabilities)
    requires width > 0 && height > 0 && zoom > 0
    ensures EstimateRuntime(width, height, zoom, Some(true), None, caps).totalSeconds
          < EstimateRuntime(width, height, zoom, Some(false), Some(true), caps).totalSeconds
          < EstimateRuntime(width, height, zoom, Some(false), Some(false), caps).totalSeconds
    ensures BaseTimePerMpix(Gpu) < BaseTimePerMpix(CpuVectorized) < BaseTimePerMpix(CpuLoop)
  {
    var mpix := OutputMpix(width, height, zoom);
    PositiveProduct(width, height);
    PositiveProduct(width * zoom, height * zoom);
    assert mpix > 0.0;
  }

  lemma PositiveProduct(a: int, b: int)
    requires a > 0 && b > 0
    ensures a * b > 0
  {
  }

  lemma FloorUnique(x: real, k: int)
    requires k as real <= x < k as real + 1.0
    ensures x.Floor == k
  {
  }

  /** Python's `int()` is the floor on non-negative values. */
  lemma TruncNonNegative(x: real)
    requires x >= 0.0
    ensures Trunc(x) == x.Floor && 0 <= Trunc(x)
  {
  }

  /** What the formatted estimate means for a non-negative duration: under a
      minute it is the whole seconds; under an hour it is minutes and seconds
      that add back up to the whole seconds; otherwise it is the hours and
      minutes that bracket the duration to within one minute. */
  lemma FormatTimeMeaning(total: real)
    requires total >= 0.0
    ensures total < 60.0 ==>
      FormatTime(total) == Seconds(total.Floor) && 0 <= total.Floor < 60
    ensures 60.0 <= total < 3600.0 ==>
      && FormatTime(total).MinSec?
      && FormatTime(total).minutes * 60 + FormatTime(total).seconds == total.Floor
      && 1 <= FormatTime(total).minutes < 60 && 0 <= FormatTime(total).seconds < 60
    ensures 3600.0 <= total ==>
      && FormatTime(total).HrMin?
      && 1 <= FormatTime(total).hours && 0 <= FormatTime(total).minutes < 60
      && var whole := (FormatTime(total).hours * 3600 + FormatTime(total).minutes * 60) as real;
         whole <= total < whole + 60.0
  {
    if total < 60.0 {
      TruncNonNegative(total);
    } else if total < 3600.0 {
      var q := (total / 60.0).Floor;
      assert q as real <= total / 60.0 < q as real + 1.0;
      assert q as real * 60.0 <= total < q as real * 60.0 + 60.0;
      var rem := FloatMod(total, 60.0);
      assert rem == total - 60.0 * q as real;
      assert 0.0 <= rem < 60.0;
      TruncNonNegative(total / 60.0);
      TruncNonNegative(rem);
      FloorUnique(total, q * 60 + rem.Floor);
      FloorUnique(total / 60.0, q);
      assert 1 <= q < 60;
    } else {
      var h := (total / 3600.0).Floor;
      assert h as real <= total / 3600.0 < h as real + 1.0;
      assert h as real * 3600.0 <= total < h as real * 3600.0 + 3600.0;
      var rem := FloatMod(total, 3600.0);
      assert rem == total - 3600.0 * h as real;
      assert 0.0 <= rem < 3600.0;
      var m := (rem / 60.0).Floor;
      assert m as real <= rem / 60.0 < m as real + 1.0;
      assert m as real * 60.0 <= rem < m as real * 60.0 + 60.0;
      TruncNonNegative(total / 3600.0);
      TruncNonNegative(rem / 60.0);
      assert 1 <= h;
      assert 0 <= m < 60;
    }
  }
}
