/** The deterministic shell the RIFE and FILM services share around their
    networks: image preparation (format and mode checks, the size cap, the
    dimension rounding), interpolation times, linear alpha, alpha
    reconciliation, keyframe reuse at t = 0 and t = 1, and 1-based output
    names. Pixel planes are functions from coordinates to values; decoding,
    resampling and the networks themselves are parameters. */
module NeuralShell {
  import opened Results
  import opened Naming
  import opened Easing
  import opened Timing
  import FrameGenerator

  /** An alpha plane, indexed by (row, column). */
  type Plane = (int, int) -> real

  /** An RGB image, indexed by (row, column, channel). */
  type RgbPlanes = (int, int, int) -> real

  /** What `Image.open` reports about a file. */
  datatype SourceImage = SourceImage(format: string, mode: string, width: nat, height: nat)

  /** `preprocess_image`'s result: sizes after capping and rounding, the RGB
      planes and the alpha plane if the array has four channels. */
  datatype Prepared = Prepared(width: int, height: int, rgb: RgbPlanes, alpha: Option<Plane>)

  /** How a service rounds the capped dimensions. */
  datatype Rounding = MultipleOf64 | Even

  /** The fields of `AnimationParams` the services read. */
  datatype AnimationParams = AnimationParams(numFrames: int, motionType: string, interpolationTimes: Option<seq<real>>)

  /** One output frame: RGB planes and, for an RGBA frame, the alpha plane. */
  datatype OutFrame = OutFrame(rgb: RgbPlanes, alpha: Option<Plane>)

  /** The size cap: when a side exceeds `maxDim`, both sides are scaled by
      `maxDim / max(w, h)` and truncated. In exact arithmetic no side then
      exceeds `maxDim`, and the longer side is exactly `maxDim`. */
  function CapToMax(w: nat, h: nat, maxDim: int): (r: (int, int))
    requires maxDim >= 0
    ensures w <= maxDim && h <= maxDim ==> r == (w, h)
    ensures w > maxDim || h > maxDim ==>
              && 0 <= r.0 <= maxDim && 0 <= r.1 <= maxDim
              && (if w >= h then r.0 == maxDim else r.1 == maxDim)
  {
    if w > maxDim || h > maxDim then
      var longest := if w >= h then w else h;
      ScaledSideTruncated(w, longest, maxDim);
      ScaledSideTruncated(h, longest, maxDim);
      (ScaledSide(w, longest, maxDim), ScaledSide(h, longest, maxDim))
    else (w, h)
  }

  /** `int(side * scale)` with `scale = maxDim / longest`. */
  function ScaledSide(side: nat, longest: nat, maxDim: int): int
    requires longest > 0
  {
    FrameGenerator.Trunc(side as real * ((maxDim as real) / (longest as real)))
  }

  /** The truncated scaled side stays within [0, maxDim], and the longest
      side lands exactly on `maxDim`. */
  lemma ScaledSideTruncated(side: nat, longest: nat, maxDim: int)
    requires 0 <= maxDim && side <= longest && longest > 0
    ensures 0 <= ScaledSide(side, longest, maxDim) <= maxDim
    ensures side == longest ==> ScaledSide(side, longest, maxDim) == maxDim
  {
    ScaledSideBounds(side, longest, maxDim);
    var v := side as real * ((maxDim as real) / (longest as real));
    FrameGenerator.TruncBetween(v, 0, maxDim);
    if side == longest {
      FrameGenerator.TruncBetween(v, maxDim, maxDim);
    }
  }

  /** A side no longer than the longest, scaled so the longest becomes
      `maxDim`, stays within [0, maxDim], and the longest lands on `maxDim`. */
  lemma ScaledSideBounds(side: nat, longest: nat, maxDim: int)
    ensures 0 <= maxDim && side <= longest && longest > 0 ==>
              var v := side as real * ((maxDim as real) / (longest as real));
              && 0.0 <= v <= maxDim as real
              && (side == longest ==> v == maxDim as real)
  {
    if 0 <= maxDim && side <= longest && longest > 0 {
      var q := (maxDim as real) / (longest as real);
      assert q >= 0.0;
      assert side as real * q <= longest as real * q;
      assert longest as real * q == maxDim as real;
    }
  }

  /** An extreme aspect ratio caps a side to zero: a 1 x 2000 image becomes
      0 x 1024, which PIL's `resize` rejects, so preparation fails with
      its message. */
  lemma ExtremeAspectRatioCapsToZero(path: string, rounding: Rounding, open: string -> Result<SourceImage>,
                                     pixels: (SourceImage, int, int) -> (RgbPlanes, Plane))
    requires open(path) == Ok(SourceImage("PNG", "RGB", 1, 2000))
    ensures CapToMax(1, 2000, 1024) == (0, 1024)
    ensures Preprocess(path, 1024, rounding, open, pixels) == Err("Image preprocessing failed: " + ResizeRejected)
  {
    assert (1 as real) * ((1024 as real) / (2000 as real)) == 0.512;
    assert (2000 as real) * ((1024 as real) / (2000 as real)) == 1024.0;
  }

  /** With positive sides, the cap sends a side to zero exactly when it is
      less than `1 / maxDim` of the longer side. */
  lemma CappedSideZeroIff(side: nat, longest: nat, maxDim: int)
    requires 0 < maxDim && 0 < side <= longest
    ensures ScaledSide(side, longest, maxDim) == 0 <==> side * maxDim < longest
  {
    var v := side as real * ((maxDim as real) / (longest as real));
    ScaledAsQuotient(side, longest, maxDim);
    QuotientBelowOne((side * maxDim) as real, longest as real);
    assert v >= 0.0;
  }

  lemma ScaledAsQuotient(side: nat, longest: nat, maxDim: int)
    requires longest > 0
    ensures side as real * ((maxDim as real) / (longest as real)) == (side * maxDim) as real / (longest as real)
  {
  }

  lemma QuotientBelowOne(n: real, l: real)
    requires l > 0.0
    ensures n / l < 1.0 <==> n < l
  {
    var q := n / l;
    assert q * l == n;
    if q >= 1.0 {
      assert (q - 1.0) * l >= 0.0;
    } else {
      assert (1.0 - q) * l > 0.0;
    }
  }

  /** `((w - 1) // 64 + 1) * 64`. Python's `//` floors, as Dafny's `/` does
      for a positive divisor. */
  function RoundUp64(w: int): (r: int)
    ensures r % 64 == 0
    ensures w <= r < w + 64
  {
    ((w - 1) / 64 + 1) * 64
  }

  /** `RoundUp64` is the least multiple of 64 that is at least `w`. */
  lemma RoundUp64IsLeast(w: int, m: int)
    requires m % 64 == 0 && w <= m
    ensures RoundUp64(w) <= m
  {
    var r := RoundUp64(w);
    assert (m - r) % 64 == 0;
    assert m - r > -64;
    var k := (m - r) / 64;
    assert m - r == 64 * k;
  }

  /** FILM's rounding: an odd side grows by one. */
  function RoundEven(w: int): (r: int)
    ensures r % 2 == 0
    ensures r == w || r == w + 1
    ensures w % 2 == 0 ==> r == w
  {
    if w % 2 != 0 then w + 1 else w
  }

  function RoundDimension(w: int, rounding: Rounding): int {
    match rounding
    case MultipleOf64 => RoundUp64(w)
    case Even => RoundEven(w)
  }

  /** PIL's `Image.resize` refuses a target size with a side below 1. */
  const ResizeRejected := "height and width must be > 0"

  /** Whether one of `preprocess_image`'s two resizes is asked for a side
      below 1: the cap's resize runs only when a side exceeds `maxDim`, the
      rounding's only when rounding changed the size. */
  predicate ResizeFails(img: SourceImage, maxDim: int, rounding: Rounding)
    requires maxDim >= 0
  {
    var capping := img.width > maxDim || img.height > maxDim;
    var (w, h) := CapToMax(img.width, img.height, maxDim);
    var (width, height) := (RoundDimension(w, rounding), RoundDimension(h, rounding));
    || (capping && (w < 1 || h < 1))
    || ((width, height) != (w, h) && (width < 1 || height < 1))
  }

  /** `preprocess_image`: an open failure, a non-PNG format, a mode other
      than RGBA/RGB or a resize to a side below 1 is an error; otherwise the
      image is capped, rounded and split. Every accepted image is RGBA by
      then, so the alpha plane is always present. */
  function Preprocess(
    path: string, maxDim: int, rounding: Rounding,
    open: string -> Result<SourceImage>,
    pixels: (SourceImage, int, int) -> (RgbPlanes, Plane)): (r: Result<Prepared>)
    requires maxDim >= 0
    ensures open(path).Err? ==> r == Err("Image preprocessing failed: " + open(path).error)
    ensures open(path).Ok? && open(path).value.format != "PNG" ==>
              r == Err("Image preprocessing failed: Image must be PNG format, got " + open(path).value.format)
    ensures open(path).Ok? && open(path).value.format == "PNG" ==>
              (r.Err? <==> open(path).value.mode !in {"RGBA", "RGB"} || ResizeFails(open(path).value, maxDim, rounding))
    ensures open(path).Ok? && open(path).value.format == "PNG" && open(path).value.mode in {"RGBA", "RGB"}
            && ResizeFails(open(path).value, maxDim, rounding) ==>
              r == Err("Image preprocessing failed: " + ResizeRejected)
    ensures r.Ok? ==> r.value.alpha.Some?
    ensures r.Ok? ==>
              var img := open(path).value;
              var capped := CapToMax(img.width, img.height, maxDim);
              r.value.width == RoundDimension(capped.0, rounding) && r.value.height == RoundDimension(capped.1, rounding)
  {
    match open(path)
    case Err(e) => Err("Image preprocessing failed: " + e)
    case Ok(img) =>
      if img.format != "PNG" then
        Err("Image preprocessing failed: Image must be PNG format, got " + img.format)
      else if img.mode != "RGBA" && img.mode != "RGB" then
        Err("Image preprocessing failed: Unsupported image mode: " + img.mode)
      else
        var rgba := img.(mode := "RGBA");
        var capping := img.width > maxDim || img.height > maxDim;
        var (w, h) := CapToMax(img.width, img.height, maxDim);
        if capping && (w < 1 || h < 1) then Err("Image preprocessing failed: " + ResizeRejected)
        else
          var width := RoundDimension(w, rounding);
          var height := RoundDimension(h, rounding);
          if (width, height) != (w, h) && (width < 1 || height < 1) then Err("Image preprocessing failed: " + ResizeRejected)
          else
            var (rgb, alpha) := pixels(rgba, width, height);
            Ok(Prepared(width, height, rgb, Some(alpha)))
  }

  /** RIFE's padding: a capped image within 1024 is padded to a multiple of 64,
      by less than 64 on each side. */
  lemma PaddedWithin64(path: string, open: string -> Result<SourceImage>, pixels: (SourceImage, int, int) -> (RgbPlanes, Plane))
    requires Preprocess(path, 1024, MultipleOf64, open, pixels).Ok?
    ensures var p := Preprocess(path, 1024, MultipleOf64, open, pixels).value;
            && p.width % 64 == 0 && p.height % 64 == 0
            && 0 <= p.width < 1024 + 64 && 0 <= p.height < 1024 + 64
  {
  }

  /** `[i / (n - 1) for i in range(n)]`: empty for `n <= 0`, a division by
      zero for `n == 1`, otherwise evenly spaced from 0 to 1. */
  function LinearTimes(n: int): (r: Result<seq<real>>)
    ensures n <= 0 ==> r == Ok([])
    ensures n == 1 ==> r.Err?
    ensures n >= 2 ==> r.Ok? && |r.value| == n && r.value[0] == 0.0 && r.value[n - 1] == 1.0
  {
    if n <= 0 then Ok([])
    else if n == 1 then Err("division by zero")
    else Ok(EvenTimes(n))
  }

  function EaseAll(times: seq<real>, motionType: string, elasticInterior: real -> real): (r: seq<real>)
    ensures |r| == |times|
    ensures forall i :: 0 <= i < |r| ==> r[i] == ServiceEase(motionType, times[i], elasticInterior)
  {
    seq(|times|, i requires 0 <= i < |times| => ServiceEase(motionType, times[i], elasticInterior))
  }

  /** `_compute_interpolation_times`: non-empty custom times verbatim;
      otherwise `num_frames + 2` evenly spaced times, eased by motion type. */
  function ComputeInterpolationTimes(params: AnimationParams, elasticInterior: real -> real): (r: Result<seq<real>>)
    ensures params.interpolationTimes.Some? && |params.interpolationTimes.value| > 0 ==>
              r == Ok(params.interpolationTimes.value)
    ensures (params.interpolationTimes.None? || |params.interpolationTimes.value| == 0) && params.numFrames >= 0 ==>
              && r.Ok?
              && |r.value| == params.numFrames + 2
              && r.value[0] == 0.0 && r.value[params.numFrames + 1] == 1.0
              && (params.motionType != "elastic" ==> forall i :: 0 <= i < |r.value| ==> InUnit(r.value[i]))
  {
    if params.interpolationTimes.Some? && |params.interpolationTimes.value| > 0 then
      Ok(params.interpolationTimes.value)
    else
      match LinearTimes(params.numFrames + 2)
      case Err(e) => Err(e)
      case Ok(times) => Ok(EaseAll(times, params.motionType, elasticInterior))
  }

  /** With linear motion and no custom times the services sample exactly
      the evenly spaced times of the planner and the multi-keyframe script. */
  lemma LinearTimesAreEven(numFrames: nat, elasticInterior: real -> real)
    ensures ComputeInterpolationTimes(AnimationParams(numFrames, "linear", None), elasticInterior)
            == Ok(EvenTimes(numFrames + 2))
  {
    var times := EvenTimes(numFrames + 2);
    assert EaseAll(times, "linear", elasticInterior) == times;
  }

  /** `_interpolate_alpha`: `(1 - t) * alpha1 + t * alpha2`, pointwise. */
  function InterpolateAlpha(a1: Plane, a2: Plane, t: real): (r: Plane)
    ensures t == 0.0 ==> forall y, x :: r(y, x) == a1(y, x)
    ensures t == 1.0 ==> forall y, x :: r(y, x) == a2(y, x)
  {
    (y, x) => (1.0 - t) * a1(y, x) + t * a2(y, x)
  }

  /** Blending two alpha values of [0, 1] with t in [0, 1] stays in [0, 1]. */
  lemma InterpolateAlphaInUnit(a1: Plane, a2: Plane, t: real, y: int, x: int)
    requires InUnit(t) && InUnit(a1(y, x)) && InUnit(a2(y, x))
    ensures InUnit(InterpolateAlpha(a1, a2, t)(y, x))
  {
    var u, v := a1(y, x), a2(y, x);
    assert InterpolateAlpha(a1, a2, t)(y, x) == (1.0 - t) * u + t * v;
    Convex(1.0 - t, t, u, v);
  }

  lemma Convex(k: real, t: real, u: real, v: real)
    requires 0.0 <= k && 0.0 <= t && k + t == 1.0 && InUnit(u) && InUnit(v)
    ensures InUnit(k * u + t * v)
  {
    ScaleWithin(k, u);
    ScaleWithin(t, v);
    SumWithin(k * u, t * v, k, t);
  }

  /** Two parts bounded by weights summing to one sum to at most one. */
  lemma SumWithin(p: real, q: real, k: real, t: real)
    requires 0.0 <= p <= k && 0.0 <= q <= t && k + t == 1.0
    ensures InUnit(p + q)
  {
  }

  /** Scaling a value of [0, 1] by a non-negative `k` gives a value of [0, k]. */
  lemma ScaleWithin(k: real, u: real)
    requires 0.0 <= k && InUnit(u)
    ensures 0.0 <= k * u <= k
  {
    assert k * u <= k * 1.0 by {
      assert k * (1.0 - u) >= 0.0;
    }
  }

  function ClipUnit(v: real): (r: real)
    ensures InUnit(r)
    ensures InUnit(v) ==> r == v
  {
    if v < 0.0 then 0.0 else if v > 1.0 then 1.0 else v
  }

  /** `np.clip(result, 0.0, 1.0)`. */
  function Clip(img: RgbPlanes): RgbPlanes {
    (y, x, c) => ClipUnit(img(y, x, c))
  }

  /** Every clipped value lies in [0, 1]; values already there are kept. */
  lemma ClipInUnit(img: RgbPlanes, y: int, x: int, c: int)
    ensures InUnit(Clip(img)(y, x, c))
    ensures InUnit(img(y, x, c)) ==> Clip(img)(y, x, c) == img(y, x, c)
  {
    assert Clip(img)(y, x, c) == ClipUnit(img(y, x, c));
  }

  /** An opaque alpha plane, `np.ones(shape)`. */
  function Ones(): Plane {
    (y, x) => 1.0
  }

  /** The alpha planes after reconciliation, and whether output frames carry
      alpha: a single missing plane is replaced by an opaque one. */
  function ReconcileAlpha(a1: Option<Plane>, a2: Option<Plane>): (r: (Option<Plane>, Option<Plane>, bool))
    ensures r.2 <==> a1.Some? || a2.Some?
    ensures r.2 ==> r.0.Some? && r.1.Some?
    ensures !r.2 ==> r.0.None? && r.1.None?
    ensures a1.Some? ==> r.0 == a1
    ensures a2.Some? ==> r.1 == a2
    ensures a1.None? && a2.Some? ==> r.0 == Some(Ones())
    ensures a1.Some? && a2.None? ==> r.1 == Some(Ones())
  {
    if a1.None? != a2.None? then
      (if a1.None? then Some(Ones()) else a1, if a2.None? then Some(Ones()) else a2, true)
    else (a1, a2, a1.Some? && a2.Some?)
  }

  /** One output frame at time `t`: keyframe 1 at 0, keyframe 2 at 1,
      otherwise the network's frame and, with alpha, the blended alpha. */
  function FrameAt(
    p1: Prepared, p2: Prepared, alpha1: Option<Plane>, alpha2: Option<Plane>, hasAlpha: bool,
    t: real, single: (RgbPlanes, RgbPlanes, real) -> RgbPlanes): OutFrame
  {
    if t == 0.0 then OutFrame(p1.rgb, if hasAlpha then alpha1 else None)
    else if t == 1.0 then OutFrame(p2.rgb, if hasAlpha then alpha2 else None)
    else
      var alpha := if hasAlpha && alpha1.Some? && alpha2.Some? then Some(InterpolateAlpha(alpha1.value, alpha2.value, t)) else None;
      OutFrame(single(p1.rgb, p2.rgb, t), alpha)
  }

  /** The loop of `interpolate` over the already prepared keyframes. */
  function InterpolatePrepared(
    p1: Prepared, p2: Prepared, times: seq<real>,
    single: (RgbPlanes, RgbPlanes, real) -> RgbPlanes): (r: Result<seq<OutFrame>>)
    ensures (p1.width, p1.height) != (p2.width, p2.height) ==> r == Err("Images must have same dimensions")
    ensures r.Ok? ==>
              var (alpha1, alpha2, hasAlpha) := ReconcileAlpha(p1.alpha, p2.alpha);
              && |r.value| == |times|
              && (forall i :: 0 <= i < |times| && times[i] == 0.0 ==> r.value[i] == OutFrame(p1.rgb, alpha1))
              && (forall i :: 0 <= i < |times| && times[i] == 1.0 ==> r.value[i] == OutFrame(p2.rgb, alpha2))
              && (forall i :: 0 <= i < |times| && times[i] != 0.0 && times[i] != 1.0 ==>
                    r.value[i].rgb == single(p1.rgb, p2.rgb, times[i]))
              && (forall i :: 0 <= i < |times| ==> (r.value[i].alpha.Some? <==> hasAlpha))
              && (forall i :: 0 <= i < |times| && times[i] != 0.0 && times[i] != 1.0 && hasAlpha ==>
                    r.value[i].alpha == Some(InterpolateAlpha(alpha1.value, alpha2.value, times[i])))
    ensures r.Err? <==> (p1.width, p1.height) != (p2.width, p2.height)
  {
    if (p1.width, p1.height) != (p2.width, p2.height) then Err("Images must have same dimensions")
    else
      var (alpha1, alpha2, hasAlpha) := ReconcileAlpha(p1.alpha, p2.alpha);
      Ok(seq(|times|, i requires 0 <= i < |times| => FrameAt(p1, p2, alpha1, alpha2, hasAlpha, times[i], single)))
  }

  /** Exactly one keyframe without alpha: every output frame is RGBA, and
      at t = 0 the missing plane is the opaque one. */
  lemma SingleMissingAlphaIsFilled(p1: Prepared, p2: Prepared, times: seq<real>, single: (RgbPlanes, RgbPlanes, real) -> RgbPlanes)
    requires p1.alpha.None? && p2.alpha.Some?
    requires (p1.width, p1.height) == (p2.width, p2.height)
    ensures var r := InterpolatePrepared(p1, p2, times, single);
            && r.Ok?
            && (forall i :: 0 <= i < |times| ==> r.value[i].alpha.Some?)
            && (forall i :: 0 <= i < |times| && times[i] == 0.0 ==> r.value[i].alpha == Some(Ones()))
  {
  }

  /** `interpolate`: prepare both keyframes (errors propagate), compare their
      shapes, compute the times and produce one frame per time. */
  function Interpolate(
    frame1: string, frame2: string, params: AnimationParams, rounding: Rounding,
    open: string -> Result<SourceImage>, pixels: (SourceImage, int, int) -> (RgbPlanes, Plane),
    single: (RgbPlanes, RgbPlanes, real) -> RgbPlanes, elasticInterior: real -> real): (r: Result<seq<OutFrame>>)
    ensures Preprocess(frame1, 1024, rounding, open, pixels).Err? ==>
              r == Err(Preprocess(frame1, 1024, rounding, open, pixels).error)
    ensures Preprocess(frame1, 1024, rounding, open, pixels).Ok? && Preprocess(frame2, 1024, rounding, open, pixels).Err? ==>
              r == Err(Preprocess(frame2, 1024, rounding, open, pixels).error)
    ensures Preprocess(frame1, 1024, rounding, open, pixels).Ok? && Preprocess(frame2, 1024, rounding, open, pixels).Ok? ==>
              var p1 := Preprocess(frame1, 1024, rounding, open, pixels).value;
              var p2 := Preprocess(frame2, 1024, rounding, open, pixels).value;
              (p1.width, p1.height) != (p2.width, p2.height) ==> r == Err("Images must have same dimensions")
    ensures Preprocess(frame1, 1024, rounding, open, pixels).Ok? && Preprocess(frame2, 1024, rounding, open, pixels).Ok?
            && ComputeInterpolationTimes(params, elasticInterior).Err? ==>
              var p1 := Preprocess(frame1, 1024, rounding, open, pixels).value;
              var p2 := Preprocess(frame2, 1024, rounding, open, pixels).value;
              (p1.width, p1.height) == (p2.width, p2.height) ==> r == Err(ComputeInterpolationTimes(params, elasticInterior).error)
    ensures Preprocess(frame1, 1024, rounding, open, pixels).Ok? && Preprocess(frame2, 1024, rounding, open, pixels).Ok?
            && ComputeInterpolationTimes(params, elasticInterior).Ok? ==>
              r == InterpolatePrepared(
                     Preprocess(frame1, 1024, rounding, open, pixels).value,
                     Preprocess(frame2, 1024, rounding, open, pixels).value,
                     ComputeInterpolationTimes(params, elasticInterior).value, single)
    ensures r.Ok? ==>
              && Preprocess(frame1, 1024, rounding, open, pixels).Ok?
              && Preprocess(frame2, 1024, rounding, open, pixels).Ok?
              && ComputeInterpolationTimes(params, elasticInterior).Ok?
    ensures r.Ok? ==>
              r == InterpolatePrepared(
                     Preprocess(frame1, 1024, rounding, open, pixels).value,
                     Preprocess(frame2, 1024, rounding, open, pixels).value,
                     ComputeInterpolationTimes(params, elasticInterior).value, single)
  {
    match Preprocess(frame1, 1024, rounding, open, pixels)
    case Err(e) => Err(e)
    case Ok(p1) =>
      match Preprocess(frame2, 1024, rounding, open, pixels)
      case Err(e) => Err(e)
      case Ok(p2) =>
        if (p1.width, p1.height) != (p2.width, p2.height) then Err("Images must have same dimensions")
        else
          match ComputeInterpolationTimes(params, elasticInterior)
          case Err(e) => Err(e)
          case Ok(times) => InterpolatePrepared(p1, p2, times, single)
  }

  /** Two keyframes that prepare to the same size always interpolate, given
      custom times or a non-negative frame count: one frame per time. */
  lemma InterpolateSucceeds(
    frame1: string, frame2: string, params: AnimationParams, rounding: Rounding,
    open: string -> Result<SourceImage>, pixels: (SourceImage, int, int) -> (RgbPlanes, Plane),
    single: (RgbPlanes, RgbPlanes, real) -> RgbPlanes, elasticInterior: real -> real)
    requires Preprocess(frame1, 1024, rounding, open, pixels).Ok? && Preprocess(frame2, 1024, rounding, open, pixels).Ok?
    requires var p1 := Preprocess(frame1, 1024, rounding, open, pixels).value;
             var p2 := Preprocess(frame2, 1024, rounding, open, pixels).value;
             (p1.width, p1.height) == (p2.width, p2.height)
    requires (params.interpolationTimes.Some? && |params.interpolationTimes.value| > 0) || params.numFrames >= 0
    ensures var r := Interpolate(frame1, frame2, params, rounding, open, pixels, single, elasticInterior);
            && r.Ok?
            && |r.value| == |ComputeInterpolationTimes(params, elasticInterior).value|
  {
  }

  /** Since preparation always yields alpha, the reconciliation branch of
      `interpolate` never runs and every frame it returns is RGBA. */
  lemma InterpolateAlwaysRgba(
    frame1: string, frame2: string, params: AnimationParams, rounding: Rounding,
    open: string -> Result<SourceImage>, pixels: (SourceImage, int, int) -> (RgbPlanes, Plane),
    single: (RgbPlanes, RgbPlanes, real) -> RgbPlanes, elasticInterior: real -> real)
    requires Interpolate(frame1, frame2, params, rounding, open, pixels, single, elasticInterior).Ok?
    ensures var frames := Interpolate(frame1, frame2, params, rounding, open, pixels, single, elasticInterior).value;
            forall i :: 0 <= i < |frames| ==> frames[i].alpha.Some?
  {
    var p1 := Preprocess(frame1, 1024, rounding, open, pixels).value;
    var p2 := Preprocess(frame2, 1024, rounding, open, pixels).value;
    assert p1.alpha.Some? && p2.alpha.Some?;
  }

  /** Without custom times (none, or an empty list), the first frame is
      keyframe 1 and the last is keyframe 2, for every motion type. */
  lemma EndpointFramesAreKeyframes(
    frame1: string, frame2: string, params: AnimationParams, rounding: Rounding,
    open: string -> Result<SourceImage>, pixels: (SourceImage, int, int) -> (RgbPlanes, Plane),
    single: (RgbPlanes, RgbPlanes, real) -> RgbPlanes, elasticInterior: real -> real)
    requires (params.interpolationTimes.None? || |params.interpolationTimes.value| == 0) && params.numFrames >= 0
    requires Interpolate(frame1, frame2, params, rounding, open, pixels, single, elasticInterior).Ok?
    ensures var frames := Interpolate(frame1, frame2, params, rounding, open, pixels, single, elasticInterior).value;
            && |frames| == params.numFrames + 2
            && frames[0].rgb == Preprocess(frame1, 1024, rounding, open, pixels).value.rgb
            && frames[params.numFrames + 1].rgb == Preprocess(frame2, 1024, rounding, open, pixels).value.rgb
  {
  }

  /** `save_frames`' names: `{prefix}_{i+1:03d}.png`, 1-based, in order. */
  function SaveFrameNames(count: nat, prefix: string): (r: seq<string>)
    ensures |r| == count
    ensures forall i :: 0 <= i < count ==> r[i] == FrameFileName(prefix, i + 1)
  {
    seq(count, i requires 0 <= i < count => FrameFileName(prefix, i + 1))
  }

  /** Saved names never collide, and the first one is `frame_001.png`. */
  lemma SaveFrameNamesDistinct(count: nat, prefix: string, i: nat, j: nat)
    requires i < count && j < count && i != j
    ensures SaveFrameNames(count, prefix)[i] != SaveFrameNames(count, prefix)[j]
  {
    if FrameFileName(prefix, i + 1) == FrameFileName(prefix, j + 1) {
      FrameFileNameInjective(prefix, i + 1, j + 1);
    }
  }
}
