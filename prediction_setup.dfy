/**
 * The set-up steps of workflow/v2/5.prediction_dnn.py before the model
 * runs: the kernel buffers and the buffered patch shape, and the extension
 * of the shared feature list with the optional bands.
 */
module PredictionSetup {
  import opened Wrappers

  /** `x_buffer`, `y_buffer` and `buffered_shape`. */
  datatype BufferSetup = BufferSetup(xBuffer: int, yBuffer: int, bufferedShape: seq<int>)

  /** Python's IndexError, raised by a kernel buffer or patch shape with fewer than two entries. */
  datatype SetupError = IndexError

  /** Python's `n // 2`, which rounds down also for negative `n`. */
  function HalfDown(n: int): (h: int)
    ensures 2 * h <= n <= 2 * h + 1
  {
    n / 2
  }

  /**
   * Lines 71-82. A non-empty kernel buffer gives half of each of its first
   * two entries as the buffers and widens the patch shape by it; an empty one
   * (Python's falsy list) gives no buffer and the patch shape as it is.
   */
  function ComputeBuffers(kernelBuffer: seq<int>, patchShape: seq<int>): (r: Result<BufferSetup, SetupError>)
    ensures |kernelBuffer| == 0 ==> r == Ok(BufferSetup(0, 0, patchShape))
    ensures |kernelBuffer| > 0 ==> (r.Ok? <==> |kernelBuffer| >= 2 && |patchShape| >= 2)
    ensures |kernelBuffer| > 0 && r.Ok? ==>
              var b := r.value;
              2 * b.xBuffer <= kernelBuffer[0] <= 2 * b.xBuffer + 1
              && 2 * b.yBuffer <= kernelBuffer[1] <= 2 * b.yBuffer + 1
              && |b.bufferedShape| == 2
              && b.bufferedShape[0] == patchShape[0] + kernelBuffer[0]
              && b.bufferedShape[1] == patchShape[1] + kernelBuffer[1]
  {
    if |kernelBuffer| == 0 then Ok(BufferSetup(0, 0, patchShape))
    else if |kernelBuffer| < 2 || |patchShape| < 2 then Err(IndexError)
    else
      Ok(BufferSetup(HalfDown(kernelBuffer[0]), HalfDown(kernelBuffer[1]),
                     [patchShape[0] + kernelBuffer[0], patchShape[1] + kernelBuffer[1]]))
  }

  /**
   * With an even kernel buffer the buffered patch is the patch with one
   * buffer's width added on each side, in both directions.
   */
  lemma EvenKernelPadsBothSides(kernelBuffer: seq<int>, patchShape: seq<int>)
    requires |kernelBuffer| >= 2 && |patchShape| >= 2
    requires kernelBuffer[0] % 2 == 0 && kernelBuffer[1] % 2 == 0
    ensures var r := ComputeBuffers(kernelBuffer, patchShape);
            r.Ok? && r.value.bufferedShape == [patchShape[0] + 2 * r.value.xBuffer,
                                               patchShape[1] + 2 * r.value.yBuffer]
  {
  }

  const ElevationBands: seq<string> := ["elevation", "slope"]

  const S1Bands: seq<string> := ["vv_asc_before", "vh_asc_before", "vv_asc_during", "vh_asc_during",
                                 "vv_desc_before", "vh_desc_before", "vv_desc_during", "vh_desc_during"]

  /** The bands lines 84-90 append, in order. */
  function ExtraBands(useElevation: bool, useS1: bool): seq<string>
  {
    (if useElevation then ElevationBands else []) + (if useS1 then S1Bands else [])
  }

  /**
   * The appended bands: the two elevation bands come first and exactly when
   * elevation is on, the eight Sentinel-1 bands follow exactly when it is on.
   */
  lemma ExtraBandsLayout(useElevation: bool, useS1: bool)
    ensures var e := if useElevation then 2 else 0;
            var bands := ExtraBands(useElevation, useS1);
            |bands| == e + (if useS1 then 8 else 0)
            && bands[..e] == (if useElevation then ElevationBands else [])
            && bands[e..] == (if useS1 then S1Bands else [])
            && ("elevation" in bands <==> useElevation)
            && ("vv_asc_before" in bands <==> useS1)
  {
    var bands := ExtraBands(useElevation, useS1);
    if !useS1 {
      assert "vv_asc_before" !in ElevationBands;
    }
    if !useElevation {
      assert forall i :: 0 <= i < |S1Bands| ==> S1Bands[i] != "elevation";
    }
  }

  /** The configuration values the set-up reads, and the feature list it extends in place. */
  class Config {
    /** `Config.FEATURES`. */
    var features: seq<string>
    const useElevation: bool
    const useS1: bool

    constructor (features: seq<string>, useElevation: bool, useS1: bool)
      ensures this.features == features && this.useElevation == useElevation && this.useS1 == useS1
    {
      this.features := features;
      this.useElevation := useElevation;
      this.useS1 := useS1;
    }

    /**
     * Lines 84-90: the original features stay first and in order, then the
     * optional bands follow.
     */
    method ExtendFeatures()
      modifies this
      ensures features == old(features) + ExtraBands(useElevation, useS1)
      ensures features[..|old(features)|] == old(features)
    {
      if useElevation {
        features := features + ElevationBands;
      }
      if useS1 {
        features := features + S1Bands;
      }
    }
  }
}
