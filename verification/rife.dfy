/** The RIFE service's own parts: padding to multiples of 64 and the model
    version gate on `t`. The rest of its shell is `NeuralShell`. */
module Rife {
  import opened Results
  import opened Easing
  import opened NeuralShell

  /** `_interpolate_single_frame`: a model of version 3.9 or later is given
      `t`; an older one is asked for its midpoint whatever `t` is (both of
      the source's branches make the same call). The result is clipped. */
  function SingleFrame(version: real, rgb1: RgbPlanes, rgb2: RgbPlanes, t: real,
                       infer: (RgbPlanes, RgbPlanes, Option<real>) -> RgbPlanes): (r: RgbPlanes)
    ensures version >= 3.9 ==> r == Clip(infer(rgb1, rgb2, Some(t)))
    ensures version < 3.9 ==> r == Clip(infer(rgb1, rgb2, None))
  {
    if version >= 3.9 then Clip(infer(rgb1, rgb2, Some(t)))
    else if -0.01 < t - 0.5 < 0.01 then Clip(infer(rgb1, rgb2, None))
    else Clip(infer(rgb1, rgb2, None))
  }

  /** An older model ignores `t`: any two times give the same frame. */
  lemma OldModelIgnoresTime(version: real, rgb1: RgbPlanes, rgb2: RgbPlanes, t1: real, t2: real,
                            infer: (RgbPlanes, RgbPlanes, Option<real>) -> RgbPlanes)
    requires version < 3.9
    ensures SingleFrame(version, rgb1, rgb2, t1, infer) == SingleFrame(version, rgb1, rgb2, t2, infer)
  {
  }

  /** RIFE's `interpolate`. */
  function Interpolate(
    frame1: string, frame2: string, params: AnimationParams, version: real,
    open: string -> Result<SourceImage>, pixels: (SourceImage, int, int) -> (RgbPlanes, Plane),
    infer: (RgbPlanes, RgbPlanes, Option<real>) -> RgbPlanes, elasticInterior: real -> real): (r: Result<seq<OutFrame>>)
    ensures r.Ok? ==> ComputeInterpolationTimes(params, elasticInterior).Ok?
    ensures r.Ok? ==> |r.value| == |ComputeInterpolationTimes(params, elasticInterior).value|
    ensures r.Ok? && version < 3.9 ==>
              var times := ComputeInterpolationTimes(params, elasticInterior).value;
              forall i, j :: 0 <= i < |times| && 0 <= j < |times|
                             && times[i] != 0.0 && times[i] != 1.0 && times[j] != 0.0 && times[j] != 1.0
                             ==> r.value[i].rgb == r.value[j].rgb
  {
    NeuralShell.Interpolate(frame1, frame2, params, MultipleOf64, open, pixels,
                            (a, b, t) => SingleFrame(version, a, b, t, infer), elasticInterior)
  }

  /** RIFE's prepared keyframes are multiples of 64 and below 1024 + 64. */
  lemma PreparedPadded(path: string, open: string -> Result<SourceImage>, pixels: (SourceImage, int, int) -> (RgbPlanes, Plane))
    requires Preprocess(path, 1024, MultipleOf64, open, pixels).Ok?
    ensures var p := Preprocess(path, 1024, MultipleOf64, open, pixels).value;
            p.width % 64 == 0 && p.height % 64 == 0 && p.width < 1024 + 64 && p.height < 1024 + 64
  {
  }

  /** Every frame the network makes is clipped into [0, 1]. */
  lemma NetworkFramesClipped(version: real, rgb1: RgbPlanes, rgb2: RgbPlanes, t: real,
                             infer: (RgbPlanes, RgbPlanes, Option<real>) -> RgbPlanes, y: int, x: int, c: int)
    ensures InUnit(SingleFrame(version, rgb1, rgb2, t, infer)(y, x, c))
  {
    if version >= 3.9 {
      ClipInUnit(infer(rgb1, rgb2, Some(t)), y, x, c);
    } else {
      ClipInUnit(infer(rgb1, rgb2, None), y, x, c);
    }
  }
}
