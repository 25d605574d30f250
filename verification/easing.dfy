/** Timing curves: the frame generator's `_apply_easing` (cubic ease-in-out)
    and the quadratic curves of the RIFE and FILM services. Time is an exact
    `real`; floating-point rounding is not modelled. */
module Easing {

  predicate InUnit(t: real) {
    0.0 <= t <= 1.0
  }

  lemma CubeMonotone(a: real, b: real)
    requires 0.0 <= a <= b
    ensures a * a * a <= b * b * b
  {
    assert a * a <= b * b by {
      assert a * a <= a * b;
      assert a * b <= b * b;
    }
    assert a * a * a <= b * b * a;
    assert b * b * a <= b * b * b;
  }

  lemma SquareMonotone(a: real, b: real)
    requires 0.0 <= a <= b
    ensures a * a <= b * b
  {
    assert a * a <= a * b;
    assert a * b <= b * b;
  }

  /** The lower half of the cubic curve, `4 * t ** 3`. */
  function CubicLow(t: real): real {
    4.0 * t * t * t
  }

  /** The upper half of the cubic curve, `1 + (2t - 2) ** 3 / 2`. */
  function CubicHigh(t: real): real {
    var p := 2.0 * t - 2.0;
    1.0 + 0.5 * p * p * p
  }

  /** The frame generator's cubic ease-in-out: the lower half below one half,
      the upper half from one half on. */
  function CubicInOut(t: real): real {
    if t < 0.5 then CubicLow(t) else CubicHigh(t)
  }

  /** The two halves of the cubic curve meet at t = 1/2, both giving 1/2. */
  lemma CubicInOutContinuous()
    ensures CubicLow(0.5) == CubicHigh(0.5) == 0.5
    ensures CubicInOut(0.5) == 0.5
  {
  }

  /** `_apply_easing(t, curve)`: linear, cubic ease-in-out, quadratic ease-in,
      quadratic ease-out; any other curve name behaves as linear. */
  function ApplyEasing(t: real, curve: string): (r: real)
    ensures t == 0.0 ==> r == 0.0
    ensures t == 1.0 ==> r == 1.0
    ensures InUnit(t) ==> InUnit(r)
    ensures curve !in {"ease-in-out", "ease-in", "ease-out"} ==> r == t
  {
    if curve == "linear" then t
    else if curve == "ease-in-out" then
      (CubicInOutInUnit(t); CubicInOut(t))
    else if curve == "ease-in" then
      (QuadraticsInUnit(t); t * t)
    else if curve == "ease-out" then
      (QuadraticsInUnit(t); t * (2.0 - t))
    else t
  }

  lemma CubicInOutInUnit(t: real)
    ensures InUnit(t) ==> InUnit(CubicInOut(t))
  {
    if !InUnit(t) {
    } else if t < 0.5 {
      CubeMonotone(t, 0.5);
    } else {
      var p := 2.0 * t - 2.0;
      CubeMonotone(0.0, -p);
      CubeMonotone(-p, 1.0);
      assert (-p) * (-p) * (-p) == -(p * p * p);
    }
  }

  /** The upper half of the cubic curve, written with q = 2 - 2t >= 0. */
  lemma CubicUpper(t: real)
    requires t >= 0.5
    ensures CubicInOut(t) == 1.0 - 0.5 * ((2.0 - 2.0 * t) * (2.0 - 2.0 * t) * (2.0 - 2.0 * t))
  {
    var p := 2.0 * t - 2.0;
    var q := 2.0 - 2.0 * t;
    assert p * p * p == -(q * q * q);
  }

  lemma CubicInOutMonotone(a: real, b: real)
    requires 0.0 <= a <= b <= 1.0
    ensures CubicInOut(a) <= CubicInOut(b)
  {
    if b < 0.5 {
      CubeMonotone(a, b);
    } else if a < 0.5 {
      CubeMonotone(a, 0.5);
      CubicUpper(b);
      CubeMonotone(2.0 - 2.0 * b, 1.0);
    } else {
      CubicUpper(a);
      CubicUpper(b);
      CubeMonotone(2.0 - 2.0 * b, 2.0 - 2.0 * a);
    }
  }

  /** No curve of `_apply_easing` moves backwards on [0, 1]. */
  lemma ApplyEasingMonotone(a: real, b: real, curve: string)
    requires 0.0 <= a <= b <= 1.0
    ensures ApplyEasing(a, curve) <= ApplyEasing(b, curve)
  {
    if curve == "ease-in-out" {
      CubicInOutMonotone(a, b);
    } else if curve == "ease-in" {
      SquareMonotone(a, b);
    } else if curve == "ease-out" {
      SquareMonotone(1.0 - b, 1.0 - a);
      assert a * (2.0 - a) == 1.0 - (1.0 - a) * (1.0 - a);
      assert b * (2.0 - b) == 1.0 - (1.0 - b) * (1.0 - b);
    }
  }

  lemma QuadraticsInUnit(t: real)
    ensures InUnit(t) ==> InUnit(t * t) && InUnit(t * (2.0 - t))
  {
    if InUnit(t) {
      SquareMonotone(t, 1.0);
      SquareMonotone(1.0 - t, 1.0);
      assert t * (2.0 - t) == 1.0 - (1.0 - t) * (1.0 - t);
    }
  }

  /** The services' quadratic ease-in, `t * t`. */
  function EaseIn(t: real): real {
    t * t
  }

  /** The services' quadratic ease-out, `t * (2 - t)`. */
  function EaseOut(t: real): real {
    t * (2.0 - t)
  }

  /** The lower half of the quadratic ease-in-out, `2 * t * t`. */
  function EaseInOutLow(t: real): real {
    2.0 * t * t
  }

  /** The upper half of the quadratic ease-in-out, `-1 + (4 - 2t) * t`. */
  function EaseInOutHigh(t: real): real {
    -1.0 + (4.0 - 2.0 * t) * t
  }

  /** The services' quadratic ease-in-out: the lower half below one half, the
      upper half from one half on. */
  function EaseInOut(t: real): real {
    if t < 0.5 then EaseInOutLow(t) else EaseInOutHigh(t)
  }

  /** The services' "bounce": 2t^2 below one half, 1 - 2(1-t)^2 above. */
  function Bounce(t: real): real {
    if t < 0.5 then 2.0 * t * t
    else
      var u := 1.0 - t;
      1.0 - 2.0 * u * u
  }

  /** The services' "elastic": the identity at 0 and 1; elsewhere a
      pow/sin expression, left as the uninterpreted `interior`. */
  function Elastic(t: real, interior: real -> real): (r: real)
    ensures t == 0.0 || t == 1.0 ==> r == t
  {
    if t == 0.0 || t == 1.0 then t else interior(t)
  }

  /** "bounce" is not a bounce: it is the quadratic ease-in-out, for every t. */
  lemma BounceIsEaseInOut(t: real)
    ensures Bounce(t) == EaseInOut(t)
  {
    if t >= 0.5 {
      var u := 1.0 - t;
      assert 1.0 - 2.0 * u * u == -1.0 + (4.0 - 2.0 * t) * t;
    }
  }

  /** The two halves of the quadratic ease-in-out meet at t = 1/2, both giving 1/2. */
  lemma EaseInOutContinuous()
    ensures EaseInOutLow(0.5) == EaseInOutHigh(0.5) == 0.5
    ensures EaseInOut(0.5) == 0.5
  {
  }

  /** `_compute_interpolation_times` easing by motion type; an unlisted motion
      type leaves the time linear. */
  function ServiceEase(motionType: string, t: real, elasticInterior: real -> real): (r: real)
    ensures t == 0.0 ==> r == 0.0
    ensures t == 1.0 ==> r == 1.0
    ensures motionType != "elastic" && InUnit(t) ==> InUnit(r)
    ensures motionType !in {"ease-in", "ease-out", "ease-in-out", "bounce", "elastic"} ==> r == t
  {
    if motionType == "linear" then t
    else if motionType == "ease-in" then
      (QuadraticsInUnit(t); EaseIn(t))
    else if motionType == "ease-out" then
      (QuadraticsInUnit(t); EaseOut(t))
    else if motionType == "ease-in-out" then
      (EaseInOutInUnit(t); EaseInOut(t))
    else if motionType == "bounce" then
      (BounceIsEaseInOut(t); EaseInOutInUnit(t); Bounce(t))
    else if motionType == "elastic" then Elastic(t, elasticInterior)
    else t
  }

  lemma EaseInOutInUnit(t: real)
    ensures InUnit(t) ==> InUnit(EaseInOut(t))
  {
    if !InUnit(t) {
    } else if t < 0.5 {
      SquareMonotone(t, 0.5);
    } else {
      var u := 1.0 - t;
      SquareMonotone(u, 0.5);
      assert -1.0 + (4.0 - 2.0 * t) * t == 1.0 - 2.0 * u * u;
    }
  }

  /** Every polynomial curve of the services is non-decreasing on [0, 1]. */
  lemma ServiceEaseMonotone(motionType: string, a: real, b: real, elasticInterior: real -> real)
    requires motionType != "elastic"
    requires 0.0 <= a <= b <= 1.0
    ensures ServiceEase(motionType, a, elasticInterior) <= ServiceEase(motionType, b, elasticInterior)
  {
    if motionType == "ease-in" {
      SquareMonotone(a, b);
    } else if motionType == "ease-out" {
      SquareMonotone(1.0 - b, 1.0 - a);
      assert EaseOut(a) == 1.0 - (1.0 - a) * (1.0 - a);
      assert EaseOut(b) == 1.0 - (1.0 - b) * (1.0 - b);
    } else if motionType == "ease-in-out" || motionType == "bounce" {
      BounceIsEaseInOut(a);
      BounceIsEaseInOut(b);
      EaseInOutMonotone(a, b);
    }
  }

  lemma EaseInOutMonotone(a: real, b: real)
    requires 0.0 <= a <= b <= 1.0
    ensures EaseInOut(a) <= EaseInOut(b)
  {
    if b < 0.5 {
      SquareMonotone(a, b);
    } else if a < 0.5 {
      SquareMonotone(a, 0.5);
      EaseInOutInUnit(b);
      var u := 1.0 - b;
      SquareMonotone(u, 0.5);
      assert EaseInOut(b) == 1.0 - 2.0 * u * u;
    } else {
      var ua := 1.0 - a;
      var ub := 1.0 - b;
      SquareMonotone(ub, ua);
      assert EaseInOut(a) == 1.0 - 2.0 * ua * ua;
      assert EaseInOut(b) == 1.0 - 2.0 * ub * ub;
    }
  }
}
