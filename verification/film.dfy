/** The FILM service's own parts: even-dimension rounding and the call into
    the network with `t`. The rest of its shell is `NeuralShell`; the FILM
    source repeats the RIFE shell's times, easing and naming verbatim. */
module Film {
  import opened Results
  import opened Easing
  import opened NeuralShell

  /** `_interpolate_single_frame`: the network is always given `t`; the
      result is clipped into [0, 1], so values below 0 become 0, values
      above 1 become 1 and values in range are kept. */
  function SingleFrame(rgb1: RgbPlanes, rgb2: RgbPlanes, t: real, infer: (RgbPlanes, RgbPlanes, real) -> RgbPlanes): (r: RgbPlanes)
    ensures forall y, x, c :: infer(rgb1, rgb2, t)(y, x, c) < 0.0 ==> r(y, x, c) == 0.0
    ensures forall y, x, c :: infer(rgb1, rgb2, t)(y, x, c) > 1.0 ==> r(y, x, c) == 1.0
    ensures forall y, x, c :: InUnit(infer(rgb1, rgb2, t)(y, x, c)) ==> r(y, x, c) == infer(rgb1, rgb2, t)(y, x, c)
  {
    Clip(infer(rgb1, rgb2, t))
  }

  /** FILM's `interpolate`. */
  function Interpolate(
    frame1: string, frame2: string, params: AnimationParams,
    open: string -> Result<SourceImage>, pixels: (SourceImage, int, int) -> (RgbPlanes, Plane),
    infer: (RgbPlanes, RgbPlanes, real) -> RgbPlanes, elasticInterior: real -> real): (r: Result<seq<OutFrame>>)
    ensures r.Ok? ==> ComputeInterpolationTimes(params, elasticInterior).Ok?
    ensures r.Ok? ==> Preprocess(frame1, 1024, Even, open, pixels).Ok? && Preprocess(frame2, 1024, Even, open, pixels).Ok?
    ensures r.Ok? ==>
              var times := ComputeInterpolationTimes(params, elasticInterior).value;
              && |r.value| == |times|
              && forall i :: 0 <= i < |times| && times[i] != 0.0 && times[i] != 1.0 ==>
                   r.value[i].rgb == SingleFrame(
                     Preprocess(frame1, 1024, Even, open, pixels).value.rgb,
                     Preprocess(frame2, 1024, Even, open, pixels).value.rgb, times[i], infer)
  {
    NeuralShell.Interpolate(frame1, frame2, params, Even, open, pixels,
                            (a, b, t) => SingleFrame(a, b, t, infer), elasticInterior)
  }

  /** FILM's prepared keyframes have even sides, and since 1024 is even the
      rounding never takes a capped side past 1024. */
  lemma PreparedEvenWithinCap(path: string, open: string -> Result<SourceImage>, pixels: (SourceImage, int, int) -> (RgbPlanes, Plane))
    requires Preprocess(path, 1024, Even, open, pixels).Ok?
    ensures var p := Preprocess(path, 1024, Even, open, pixels).value;
            p.width % 2 == 0 && p.height % 2 == 0 && 0 <= p.width <= 1024 && 0 <= p.height <= 1024
  {
  }

  /** Every frame the network makes lies in [0, 1], and a frame already in
      range is the network's own. */
  lemma NetworkFramesClipped(rgb1: RgbPlanes, rgb2: RgbPlanes, t: real,
                             infer: (RgbPlanes, RgbPlanes, real) -> RgbPlanes, y: int, x: int, c: int)
    ensures InUnit(SingleFrame(rgb1, rgb2, t, infer)(y, x, c))
    ensures InUnit(infer(rgb1, rgb2, t)(y, x, c)) ==> SingleFrame(rgb1, rgb2, t, infer)(y, x, c) == infer(rgb1, rgb2, t)(y, x, c)
  {
    ClipInUnit(infer(rgb1, rgb2, t), y, x, c);
  }
}
