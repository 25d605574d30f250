/** The frame generator service at the arithmetic level: which pixels count
    as the object, how the largest contour is chosen, how centroid and colour
    are interpolated and truncated, how the contour is moved, and how the
    schedule loop names and fills the output frames. Image decoding, OpenCV's
    morphology/contours/moments and PIL's polygon rasteriser are given as
    functions. */
module FrameGenerator {
  import opened Results
  import opened Naming
  import opened Easing
  import opened State

  type Channel = x: int | 0 <= x < 256

  datatype Rgba = Rgba(r: Channel, g: Channel, b: Channel, a: Channel)

  /** An RGBA image as rows of pixels (numpy's `(H, W, 4)` array). */
  datatype Image = Image(rows: seq<seq<Rgba>>)

  datatype Point = Point(x: int, y: int)

  type Contour = seq<Point>

  type Mask = seq<seq<bool>>

  datatype Moments = Moments(m00: real, m10: real, m01: real)

  datatype Rect = Rect(x: int, y: int, w: int, h: int)

  datatype Color = Color(r: int, g: int, b: int)

  /** The OpenCV calls `_detect_object` makes. */
  datatype Vision = Vision(
    clean: Mask -> Mask,
    findContours: Mask -> seq<Contour>,
    area: Contour -> real,
    moments: Contour -> Moments,
    boundingRect: Contour -> Rect)

  datatype DetectedObject = DetectedObject(
    mask: Mask,
    centroid: Point,
    color: Color,
    bbox: (int, int, int, int),
    contour: Contour)

  /** A filled polygon as PIL is asked to draw it. */
  datatype Polygon = Polygon(points: seq<Point>, fill: Rgba)

  /** A fully transparent canvas with at most one polygon drawn on it. */
  datatype Canvas = Canvas(height: nat, width: nat, polygon: Option<Polygon>)

  /** A frame written by the generator: a copy of a keyframe or a rendered canvas. */
  datatype Frame = Copied(image: Image) | Rendered(canvas: Canvas)

  datatype GeneratedFrame = GeneratedFrame(path: string, frame: Frame)

  function Height(img: Image): nat {
    |img.rows|
  }

  function Width(img: Image): nat {
    if |img.rows| == 0 then 0 else |img.rows[0]|
  }

  /** Opaque enough (alpha above 10) and not near-white (not all of R, G, B above 240). */
  predicate IsForeground(p: Rgba) {
    p.a > 10 && !(p.r > 240 && p.g > 240 && p.b > 240)
  }

  /** A few pixels on each side of the two thresholds. */
  lemma ForegroundExamples()
    ensures !IsForeground(Rgba(0, 0, 0, 10)) && IsForeground(Rgba(0, 0, 0, 11))
    ensures !IsForeground(Rgba(241, 241, 241, 255)) && IsForeground(Rgba(240, 241, 241, 255))
    ensures IsForeground(Rgba(241, 241, 240, 255))
  {
  }

  /** The mask before morphology: one flag per pixel, set exactly on foreground pixels. */
  function ObjectMask(img: Image): (m: Mask)
    ensures |m| == |img.rows|
    ensures forall y :: 0 <= y < |m| ==> |m[y]| == |img.rows[y]|
    ensures forall y, x :: 0 <= y < |m| && 0 <= x < |m[y]| ==> (m[y][x] <==> IsForeground(img.rows[y][x]))
  {
    seq(|img.rows|, y requires 0 <= y < |img.rows| =>
      seq(|img.rows[y]|, x requires 0 <= x < |img.rows[y]| => IsForeground(img.rows[y][x])))
  }

  /** Python's `int(x)` on a float: truncation toward zero. */
  function Trunc(x: real): (r: int)
    ensures x >= 0.0 ==> r as real <= x < r as real + 1.0
    ensures x < 0.0 ==> r as real - 1.0 < x <= r as real
  {
    if x >= 0.0 then x.Floor else -((-x).Floor)
  }

  /** Truncation leaves integers alone and never leaves an integer interval. */
  lemma TruncBetween(x: real, lo: int, hi: int)
    requires lo as real <= x <= hi as real
    ensures lo <= Trunc(x) <= hi
  {
  }

  /** `max(contours, key=area)`: the first contour of largest area. */
  function LargestIndex(contours: seq<Contour>, area: Contour -> real): (k: nat)
    requires |contours| > 0
    ensures k < |contours|
    ensures forall j :: 0 <= j < |contours| ==> area(contours[j]) <= area(contours[k])
    ensures forall j :: 0 <= j < k ==> area(contours[j]) < area(contours[k])
    decreases |contours|
  {
    if |contours| == 1 then 0
    else
      var k := LargestIndex(contours[..|contours| - 1], area);
      if area(contours[|contours| - 1]) > area(contours[k]) then |contours| - 1 else k
  }

  /** The pixels of one row whose mask flag is set (up to the shorter of the two). */
  function SelectRow(pixels: seq<Rgba>, flags: seq<bool>): (r: seq<Rgba>)
    ensures |r| <= |pixels|
    ensures forall p :: p in r ==> p in pixels
    ensures (forall x :: 0 <= x < |pixels| && x < |flags| ==> !flags[x]) ==> r == []
    decreases |pixels|
  {
    if |pixels| == 0 || |flags| == 0 then []
    else (if flags[0] then [pixels[0]] else []) + SelectRow(pixels[1..], flags[1..])
  }

  /** `rgb[object_mask > 0]`, row by row. */
  function SelectPixels(rows: seq<seq<Rgba>>, mask: Mask): seq<Rgba>
    decreases |rows|
  {
    if |rows| == 0 || |mask| == 0 then []
    else SelectRow(rows[0], mask[0]) + SelectPixels(rows[1..], mask[1..])
  }

  function SumRed(ps: seq<Rgba>): (s: nat)
    ensures s <= 255 * |ps|
  {
    if |ps| == 0 then 0 else SumRed(ps[..|ps| - 1]) + ps[|ps| - 1].r
  }

  function SumGreen(ps: seq<Rgba>): (s: nat)
    ensures s <= 255 * |ps|
  {
    if |ps| == 0 then 0 else SumGreen(ps[..|ps| - 1]) + ps[|ps| - 1].g
  }

  function SumBlue(ps: seq<Rgba>): (s: nat)
    ensures s <= 255 * |ps|
  {
    if |ps| == 0 then 0 else SumBlue(ps[..|ps| - 1]) + ps[|ps| - 1].b
  }

  /** `tuple(np.mean(object_pixels, axis=0).astype(int))`, or (0, 0, 0) for
      no pixels: each channel is the truncated mean, a value in [0, 255]. */
  function AverageColor(ps: seq<Rgba>): (c: Color)
    ensures |ps| == 0 ==> c == Color(0, 0, 0)
    ensures 0 <= c.r <= 255 && 0 <= c.g <= 255 && 0 <= c.b <= 255
    ensures |ps| > 0 ==> FloorMean(c.r, SumRed(ps), |ps|) && FloorMean(c.g, SumGreen(ps), |ps|) && FloorMean(c.b, SumBlue(ps), |ps|)
  {
    if |ps| == 0 then Color(0, 0, 0)
    else
      var n := |ps|;
      MeanBound(SumRed(ps), n);
      MeanBound(SumGreen(ps), n);
      MeanBound(SumBlue(ps), n);
      Color(SumRed(ps) / n, SumGreen(ps) / n, SumBlue(ps) / n)
  }

  /** `v` is the floor of the mean of `n` values summing to `s`. */
  predicate FloorMean(v: int, s: int, n: int) {
    v * n <= s < (v + 1) * n
  }

  /** The floor of a mean of bytes is a byte. */
  lemma MeanBound(s: nat, n: nat)
    requires 0 < n && s <= 255 * n
    ensures 0 <= s / n <= 255
    ensures FloorMean(s / n, s, n)
  {
    var q, m := s / n, s % n;
    assert s == q * n + m && 0 <= m < n;
    assert q * n <= 255 * n;
  }

  lemma ExactMean(v: nat, n: nat)
    requires 0 < n
    ensures (v * n) / n == v
  {
    var q, m := (v * n) / n, (v * n) % n;
    assert v * n == q * n + m && 0 <= m < n;
    assert (v - q) * n == m;
    ProductSign(v - q, n);
  }

  /** A non-zero multiple of a positive `n` is at least `n` away from 0. */
  lemma ProductSign(d: int, n: int)
    requires n > 0
    ensures d < 0 ==> d * n <= -n
    ensures d > 0 ==> d * n >= n
  {
    if d > 0 {
      MultipleAtLeast(d, n);
    }
    if d < 0 {
      MultipleAtLeast(-d, n);
      assert d * n == -((-d) * n);
    }
  }

  lemma {:induction false} MultipleAtLeast(d: int, n: int)
    requires d > 0 && n > 0
    ensures d * n >= n
    decreases d
  {
    if d > 1 {
      MultipleAtLeast(d - 1, n);
      assert d * n == (d - 1) * n + n;
    }
  }

  /** The average of a single-colour object is that colour. */
  lemma {:induction false} AverageOfUniform(ps: seq<Rgba>, p: Rgba)
    requires |ps| > 0 && forall i :: 0 <= i < |ps| ==> ps[i] == p
    ensures AverageColor(ps) == Color(p.r, p.g, p.b)
  {
    UniformSums(ps, p);
    ExactMean(p.r, |ps|);
    ExactMean(p.g, |ps|);
    ExactMean(p.b, |ps|);
  }

  lemma {:induction false} UniformSums(ps: seq<Rgba>, p: Rgba)
    requires forall i :: 0 <= i < |ps| ==> ps[i] == p
    ensures SumRed(ps) == p.r * |ps| && SumGreen(ps) == p.g * |ps| && SumBlue(ps) == p.b * |ps|
  {
    if |ps| > 0 {
      var n := |ps| - 1;
      var init := ps[..n];
      assert forall i :: 0 <= i < |init| ==> init[i] == ps[i];
      UniformSums(init, p);
      assert ps[n] == p;
      MultiplyStep(p.r, n);
      MultiplyStep(p.g, n);
      MultiplyStep(p.b, n);
    }
  }

  lemma MultiplyStep(v: nat, n: nat)
    ensures v * n + v == v * (n + 1)
  {
  }

  /** The mean colour of the pixels of `img` under `mask`. */
  function MaskColor(img: Image, mask: Mask): Color {
    AverageColor(SelectPixels(img.rows, mask))
  }

  /** `_detect_object`: `None` when no contour survives the clean-up or the
      largest contour's zeroth moment is 0; otherwise the largest contour,
      its truncated centroid, bounding box and the mean colour under the
      cleaned mask. */
  function DetectObject(img: Image, cv: Vision): (r: Option<DetectedObject>)
    ensures r.None? <==>
              (|cv.findContours(cv.clean(ObjectMask(img)))| == 0 ||
               cv.moments(cv.findContours(cv.clean(ObjectMask(img)))[
                 LargestIndex(cv.findContours(cv.clean(ObjectMask(img))), cv.area)]).m00 == 0.0)
    ensures r.Some? ==>
              var contours := cv.findContours(cv.clean(ObjectMask(img)));
              var m := cv.moments(r.value.contour);
              && r.value.contour in contours
              && (forall c :: c in contours ==> cv.area(c) <= cv.area(r.value.contour))
              && m.m00 != 0.0
              && r.value.centroid == Point(Trunc(m.m10 / m.m00), Trunc(m.m01 / m.m00))
              && r.value.mask == cv.clean(ObjectMask(img))
              && r.value.color == MaskColor(img, r.value.mask)
              && var box := cv.boundingRect(r.value.contour);
                 r.value.bbox == (box.x, box.y, box.x + box.w, box.y + box.h)
  {
    var cleaned := cv.clean(ObjectMask(img));
    var contours := cv.findContours(cleaned);
    if |contours| == 0 then None
    else
      var largest := contours[LargestIndex(contours, cv.area)];
      var m := cv.moments(largest);
      if m.m00 == 0.0 then None
      else
        var box := cv.boundingRect(largest);
        Some(DetectedObject(
          mask := cleaned,
          centroid := Point(Trunc(m.m10 / m.m00), Trunc(m.m01 / m.m00)),
          color := MaskColor(img, cleaned),
          bbox := (box.x, box.y, box.x + box.w, box.y + box.h),
          contour := largest))
  }

  /** A detected object's colour is, channel by channel, the floor of the
      mean of the pixels under its cleaned mask, and black for none. */
  lemma DetectedColorIsMean(img: Image, cv: Vision)
    requires DetectObject(img, cv).Some?
    ensures var o := DetectObject(img, cv).value;
            var ps := SelectPixels(img.rows, o.mask);
            && (|ps| == 0 ==> o.color == Color(0, 0, 0))
            && (|ps| > 0 ==> FloorMean(o.color.r, SumRed(ps), |ps|) && FloorMean(o.color.g, SumGreen(ps), |ps|)
                             && FloorMean(o.color.b, SumBlue(ps), |ps|))
  {
  }

  /** The weighted mix `(1 - t) * x + t * y` that `Lerp` truncates. */
  function Mix(x: real, y: real, t: real): real {
    (1.0 - t) * x + t * y
  }

  /** `int((1 - t) * a + t * b)`. */
  function Lerp(a: int, b: int, t: real): (r: int)
    ensures t == 0.0 ==> r == a
    ensures t == 1.0 ==> r == b
    ensures a == b ==> r == a
    ensures 0.0 <= t <= 1.0 && a <= b ==> a <= r <= b
    ensures 0.0 <= t <= 1.0 && b <= a ==> b <= r <= a
  {
    LerpBetween(a, b, t);
    Trunc(Mix(a as real, b as real, t))
  }

  /** For t in [0, 1] the truncated mix stays between its endpoints, and a
      mix of a value with itself is that value. */
  lemma LerpBetween(a: int, b: int, t: real)
    ensures var v := Mix(a as real, b as real, t);
            && (a == b ==> v == a as real)
            && (0.0 <= t <= 1.0 && a <= b ==> a <= Trunc(v) <= b)
            && (0.0 <= t <= 1.0 && b <= a ==> b <= Trunc(v) <= a)
  {
    var v := Mix(a as real, b as real, t);
    if 0.0 <= t <= 1.0 && a <= b {
      MixUp(a as real, b as real, t);
      TruncBetween(v, a, b);
    }
    if 0.0 <= t <= 1.0 && b <= a {
      MixDown(a as real, b as real, t);
      TruncBetween(v, b, a);
    }
  }

  /** A mix with weight in [0, 1] of `x <= y` lies in [x, y]. */
  lemma MixUp(x: real, y: real, t: real)
    requires 0.0 <= t <= 1.0 && x <= y
    ensures x <= Mix(x, y, t) <= y
  {
    ProductNonNegative(t, y - x);
    ProductNonNegative(1.0 - t, y - x);
    assert Mix(x, y, t) - x == t * (y - x);
    assert y - Mix(x, y, t) == (1.0 - t) * (y - x);
  }

  /** A mix with weight in [0, 1] of `y <= x` lies in [y, x]. */
  lemma MixDown(x: real, y: real, t: real)
    requires 0.0 <= t <= 1.0 && y <= x
    ensures y <= Mix(x, y, t) <= x
  {
    ProductNonNegative(t, x - y);
    ProductNonNegative(1.0 - t, x - y);
    assert x - Mix(x, y, t) == t * (x - y);
    assert Mix(x, y, t) - y == (1.0 - t) * (x - y);
  }

  lemma ProductNonNegative(p: real, q: real)
    requires 0.0 <= p && 0.0 <= q
    ensures 0.0 <= p * q
  {
  }

  function LerpColor(c1: Color, c2: Color, t: real): Color {
    Color(Lerp(c1.r, c2.r, t), Lerp(c1.g, c2.g, t), Lerp(c1.b, c2.b, t))
  }

  /** Colours interpolated between two valid colours are valid channels. */
  lemma LerpColorIsChannel(c1: Color, c2: Color, t: real)
    requires 0 <= c1.r <= 255 && 0 <= c1.g <= 255 && 0 <= c1.b <= 255
    requires 0 <= c2.r <= 255 && 0 <= c2.g <= 255 && 0 <= c2.b <= 255
    requires 0.0 <= t <= 1.0
    ensures var c := LerpColor(c1, c2, t); 0 <= c.r <= 255 && 0 <= c.g <= 255 && 0 <= c.b <= 255
  {
  }

  /** PIL's fill `interp_color + (255,)`; channel values are clipped to a
      byte (a well-formed detection never needs the clip, by `LerpColorIsChannel`). */
  function Opaque(c: Color): Rgba {
    Rgba(ClipByte(c.r), ClipByte(c.g), ClipByte(c.b), 255)
  }

  function ClipByte(v: int): Channel {
    if v < 0 then 0 else if v > 255 then 255 else v
  }

  function Translate(contour: Contour, dx: int, dy: int): (r: seq<Point>)
    ensures |r| == |contour|
    ensures forall i :: 0 <= i < |r| ==> r[i].x - contour[i].x == dx && r[i].y - contour[i].y == dy
  {
    seq(|contour|, i requires 0 <= i < |contour| => Point(contour[i].x + dx, contour[i].y + dy))
  }

  /** `_render_object_frame`: obj1's contour moved by the offset from obj1's
      centroid to the interpolated centroid, filled with the interpolated
      colour; drawn only when it has at least three points. */
  function RenderObjectFrame(height: nat, width: nat, obj1: DetectedObject, obj2: DetectedObject, t: real): (c: Canvas)
    ensures c.height == height && c.width == width
    ensures c.polygon.Some? <==> |obj1.contour| >= 3
    ensures c.polygon.Some? ==>
              var ix := Lerp(obj1.centroid.x, obj2.centroid.x, t);
              var iy := Lerp(obj1.centroid.y, obj2.centroid.y, t);
              && |c.polygon.value.points| == |obj1.contour|
              && (forall i :: 0 <= i < |obj1.contour| ==>
                    c.polygon.value.points[i].x == obj1.contour[i].x + (ix - obj1.centroid.x)
                    && c.polygon.value.points[i].y == obj1.contour[i].y + (iy - obj1.centroid.y))
              && c.polygon.value.fill == Opaque(LerpColor(obj1.color, obj2.color, t))
  {
    var ix := Lerp(obj1.centroid.x, obj2.centroid.x, t);
    var iy := Lerp(obj1.centroid.y, obj2.centroid.y, t);
    var points := Translate(obj1.contour, ix - obj1.centroid.x, iy - obj1.centroid.y);
    var fill := Opaque(LerpColor(obj1.color, obj2.color, t));
    Canvas(height, width, if |points| >= 3 then Some(Polygon(points, fill)) else None)
  }

  /** At t = 0 the contour is drawn exactly where it was, in obj1's colour. */
  lemma RenderAtZeroIsObject1(height: nat, width: nat, obj1: DetectedObject, obj2: DetectedObject)
    requires |obj1.contour| >= 3
    ensures RenderObjectFrame(height, width, obj1, obj2, 0.0).polygon == Some(Polygon(obj1.contour, Opaque(obj1.color)))
  {
    var c := RenderObjectFrame(height, width, obj1, obj2, 0.0);
    assert c.polygon.value.points == obj1.contour;
  }

  /** The `t` of schedule entry `i`: its own `t`, else `i / (num_frames - 1)`
      when `num_frames > 1`, else 0. */
  function EntryTime(e: ScheduleEntry, i: nat, numFrames: int): real {
    match e.t
    case Some(t) => t
    case None => if numFrames > 1 then (i as real) / ((numFrames - 1) as real) else 0.0
  }

  /** `str(self.output_dir / job_id / f"frame_{i:03d}.png")`. */
  function FramePath(outputDir: string, jobId: string, i: nat): string {
    JoinPath(JoinPath(outputDir, jobId), FrameFileName("frame", i))
  }

  /** The image written for one eased time: keyframe 1 at 0, keyframe 2 at
      1, a rendered canvas otherwise. */
  function FrameAt(kf1: Image, kf2: Image, obj1: DetectedObject, obj2: DetectedObject, te: real): Frame {
    if te == 0.0 then Copied(kf1)
    else if te == 1.0 then Copied(kf2)
    else Rendered(RenderObjectFrame(Height(kf1), Width(kf1), obj1, obj2, te))
  }

  /** The schedule loop of `generate_frames`, from entry `from` on. */
  function RenderSchedule(
    schedule: seq<ScheduleEntry>, from: nat, numFrames: int, curve: string,
    kf1: Image, kf2: Image, obj1: DetectedObject, obj2: DetectedObject,
    outputDir: string, jobId: string): (r: seq<GeneratedFrame>)
    requires from <= |schedule|
    ensures |r| == |schedule| - from
    ensures forall k :: 0 <= k < |r| ==>
              r[k] == GeneratedFrame(
                FramePath(outputDir, jobId, from + k),
                FrameAt(kf1, kf2, obj1, obj2, ApplyEasing(EntryTime(schedule[from + k], from + k, numFrames), curve)))
    decreases |schedule| - from
  {
    if from == |schedule| then []
    else
      var te := ApplyEasing(EntryTime(schedule[from], from, numFrames), curve);
      [GeneratedFrame(FramePath(outputDir, jobId, from), FrameAt(kf1, kf2, obj1, obj2, te))]
        + RenderSchedule(schedule, from + 1, numFrames, curve, kf1, kf2, obj1, obj2, outputDir, jobId)
  }

  /** `plan.get("num_frames", 8)`, `plan.get("timing_curve", "linear")`,
      `plan.get("frame_schedule", [])` on a plan that may be absent. */
  function PlanNumFrames(plan: Option<Plan>): int {
    if plan.Some? then plan.value.numFrames else 8
  }

  function PlanCurve(plan: Option<Plan>): string {
    if plan.Some? then plan.value.timingCurve else "linear"
  }

  function PlanSchedule(plan: Option<Plan>): seq<ScheduleEntry> {
    if plan.Some? then plan.value.schedule else []
  }

  /** `generate_frames`: a load failure or a missing detection is an error
      raised before any frame; otherwise one frame per schedule entry, named
      `frame_{i:03d}.png` in order, keyframes reused at eased 0 and 1. */
  function GenerateFrames(
    keyframe1: string, keyframe2: string, plan: Option<Plan>, jobId: string,
    outputDir: string, load: string -> Result<Image>, cv: Vision): (r: Result<seq<GeneratedFrame>>)
    ensures load(keyframe1).Err? ==> r == Err("Could not load keyframe images: " + load(keyframe1).error)
    ensures load(keyframe1).Ok? && load(keyframe2).Err? ==>
              r == Err("Could not load keyframe images: " + load(keyframe2).error)
    ensures load(keyframe1).Ok? && load(keyframe2).Ok? ==>
              (r.Err? <==> DetectObject(load(keyframe1).value, cv).None? || DetectObject(load(keyframe2).value, cv).None?)
    ensures r.Err? && load(keyframe1).Ok? && load(keyframe2).Ok? ==>
              r.error == "Could not detect moving objects in keyframes"
    ensures r.Ok? ==>
              && |r.value| == |PlanSchedule(plan)|
              && (forall i :: 0 <= i < |r.value| ==> r.value[i].path == FramePath(outputDir, jobId, i))
              && (forall i :: 0 <= i < |r.value| ==>
                    var te := ApplyEasing(EntryTime(PlanSchedule(plan)[i], i, PlanNumFrames(plan)), PlanCurve(plan));
                    && (te == 0.0 ==> r.value[i].frame == Copied(load(keyframe1).value))
                    && (te == 1.0 ==> r.value[i].frame == Copied(load(keyframe2).value))
                    && (te != 0.0 && te != 1.0 ==>
                          r.value[i].frame == Rendered(RenderObjectFrame(
                            Height(load(keyframe1).value), Width(load(keyframe1).value),
                            DetectObject(load(keyframe1).value, cv).value,
                            DetectObject(load(keyframe2).value, cv).value, te))))
  {
    match load(keyframe1)
    case Err(e) => Err("Could not load keyframe images: " + e)
    case Ok(kf1) =>
      match load(keyframe2)
      case Err(e) => Err("Could not load keyframe images: " + e)
      case Ok(kf2) =>
        var obj1 := DetectObject(kf1, cv);
        var obj2 := DetectObject(kf2, cv);
        if obj1.None? || obj2.None? then Err("Could not detect moving objects in keyframes")
        else
          Ok(RenderSchedule(PlanSchedule(plan), 0, PlanNumFrames(plan), PlanCurve(plan),
                            kf1, kf2, obj1.value, obj2.value, outputDir, jobId))
  }

  /** The planner's plan makes the generator copy keyframe 1 into the first
      frame and keyframe 2 into the last, whatever the detections. */
  lemma PlannedEndpointsAreKeyframes(
    keyframe1: string, keyframe2: string, p: Plan, jobId: string, outputDir: string,
    load: string -> Result<Image>, cv: Vision)
    requires p.timingCurve == "linear" && |p.schedule| == 8
    requires p.schedule[0].t == Some(0.0) && p.schedule[7].t == Some(1.0)
    requires GenerateFrames(keyframe1, keyframe2, Some(p), jobId, outputDir, load, cv).Ok?
    ensures var frames := GenerateFrames(keyframe1, keyframe2, Some(p), jobId, outputDir, load, cv).value;
            && |frames| == 8
            && frames[0].frame == Copied(load(keyframe1).value)
            && frames[7].frame == Copied(load(keyframe2).value)
  {
    var frames := GenerateFrames(keyframe1, keyframe2, Some(p), jobId, outputDir, load, cv).value;
    assert EntryTime(p.schedule[0], 0, p.numFrames) == 0.0;
    assert EntryTime(p.schedule[7], 7, p.numFrames) == 1.0;
  }
}
