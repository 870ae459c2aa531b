/** The proximity morph of the hero shape: a circle that turns into a downward
    arrow as the pointer comes near. A target position in [0, 1] is derived
    from the pointer's distance to the shape's centre, the displayed position
    eases toward it one animation frame at a time, and each frame renders the
    position through a path interpolator that may fail. */
module Morph {
  import opened Wrappers

  type Path = string

  const CirclePath: Path := "M50,10 A40,40 0 1,1 49.99,10 Z"
  const ArrowPath: Path := "M50,85 L25,55 L40,55 L40,15 L60,15 L60,55 L75,55 Z"

  /** Fraction of the remaining distance one frame covers. */
  const Easing: real := 0.4
  /** Declared beside Easing but never read: the frame loop compares against StopDelta. */
  const Threshold: real := 0.005
  /** The literal the frame loop compares the step against. */
  const StopDelta: real := 0.001
  /** Milliseconds a cached bounding rectangle stays in use. */
  const BoundsUpdateInterval: int := 100
  /** Minimum milliseconds between two accepted pointer moves. */
  const MouseMoveThrottle: int := 4
  /** The `maxSegmentLength` option handed to the library at start-up. */
  const MaxSegmentLength: nat := 4

  /** A path function: the path at a position, or a throw. */
  type PathAt = real -> Outcome<Path>

  /** The interpolation library as the page finds it at load time: absent, or
      an `interpolate(from, to, options)` entry point that may throw. `None` as
      options stands for the library's defaults. */
  datatype Library = Absent | Loaded(interpolate: (Path, Path, Option<nat>) -> Outcome<PathAt>)

  /** The interpolator the animator renders with for the whole session. */
  datatype Interpolator = Smooth(at: PathAt) | Fallback(from: Path, to: Path)

  /** A bounding client rectangle. */
  datatype Rect = Rect(left: real, top: real, width: real, height: real)

  /** A touch point's client coordinates. */
  datatype Point = Point(clientX: real, clientY: real)

  function Abs(x: real): real { if x < 0.0 then -x else x }

  function Max(a: real, b: real): real { if a >= b then a else b }

  function Pow(x: real, k: nat): real { if k == 0 then 1.0 else x * Pow(x, k - 1) }

  // ---------------------------------------------------------------------
  // Interpolators

  /** The step interpolator of createFallbackInterpolator: the from-path
      strictly below 0.5, the to-path from 0.5 on. */
  function FallbackAt(from: Path, to: Path, t: real): (p: Path)
    ensures p == from || p == to
    ensures from != to ==> (p == from <==> t < 0.5)
  {
    if t < 0.5 then from else to
  }

  /** Calling an interpolator; only the library's may throw. */
  function Interpolate(ip: Interpolator, t: real): (r: Outcome<Path>)
    ensures ip.Fallback? ==> r.Ok? && r.value == FallbackAt(ip.from, ip.to, t)
  {
    match ip
    case Smooth(at) => at(t)
    case Fallback(from, to) => Ok(FallbackAt(from, to, t))
  }

  /** Start-up choice: the library's interpolator between the circle and the
      arrow when the library is there and builds one, else the step fallback. */
  function InitInterpolator(lib: Library): (ip: Interpolator)
    ensures ip.Fallback? <==>
      lib.Absent? || lib.interpolate(CirclePath, ArrowPath, Some(MaxSegmentLength)).Throws?
    ensures ip.Fallback? ==> ip.from == CirclePath && ip.to == ArrowPath
    ensures ip.Smooth? ==> ip.at == lib.interpolate(CirclePath, ArrowPath, Some(MaxSegmentLength)).value
  {
    match lib
    case Absent => Fallback(CirclePath, ArrowPath)
    case Loaded(interpolate) =>
      match interpolate(CirclePath, ArrowPath, Some(MaxSegmentLength))
      case Ok(at) => Smooth(at)
      case Throws => Fallback(CirclePath, ArrowPath)
  }

  /** The path a frame writes for the eased position: the interpolator's, or,
      when the call throws, the circle strictly below 0.5 and the arrow from 0.5 on. */
  function FramePath(ip: Interpolator, t: real): (p: Path)
    ensures Interpolate(ip, t).Ok? ==> p == Interpolate(ip, t).value
    ensures Interpolate(ip, t).Throws? ==>
      (p == CirclePath || p == ArrowPath) && (p == CirclePath <==> t < 0.5)
  {
    match Interpolate(ip, t)
    case Ok(p) => p
    case Throws => if t < 0.5 then CirclePath else ArrowPath
  }

  /** The path the last frame writes for the target: the interpolator's, or,
      when the call throws, the arrow strictly above 0.5 and the circle up to 0.5. */
  function FinalPath(ip: Interpolator, t: real): (p: Path)
    ensures Interpolate(ip, t).Ok? ==> p == Interpolate(ip, t).value
    ensures Interpolate(ip, t).Throws? ==>
      (p == CirclePath || p == ArrowPath) && (p == ArrowPath <==> t > 0.5)
  {
    match Interpolate(ip, t)
    case Ok(p) => p
    case Throws => if t > 0.5 then ArrowPath else CirclePath
  }

  /** Whatever the interpolator, the fallback chosen at start-up renders the
      same boundary path in every frame and in the final frame. */
  lemma FallbackRendersBoundaries(lib: Library, t: real)
    requires InitInterpolator(lib).Fallback?
    ensures FramePath(InitInterpolator(lib), t) == FinalPath(InitInterpolator(lib), t)
    ensures FramePath(InitInterpolator(lib), t) == (if t < 0.5 then CirclePath else ArrowPath)
  {
  }

  /** At exactly 0.5 the two catch branches disagree: a throwing frame shows
      the arrow, a throwing final render shows the circle. */
  lemma HalfwayCatchBranchesDisagree(ip: Interpolator)
    requires Interpolate(ip, 0.5).Throws?
    ensures FramePath(ip, 0.5) == ArrowPath
    ensures FinalPath(ip, 0.5) == CirclePath
  {
  }

  /** With an interpolator that throws on every call, every path ever
      rendered is one of the two boundary shapes. */
  lemma AlwaysThrowingRendersBoundaries(ip: Interpolator, t: real, u: real)
    requires forall s :: Interpolate(ip, s).Throws?
    ensures FramePath(ip, t) in {CirclePath, ArrowPath}
    ensures FinalPath(ip, u) in {CirclePath, ArrowPath}
  {
    assert Interpolate(ip, t).Throws?;
    assert Interpolate(ip, u).Throws?;
  }

  // ---------------------------------------------------------------------
  // Proximity

  /** A rectangle as a layout engine reports it: no negative size, and not
      collapsed to a point (which would make the interaction radius zero). */
  predicate Measurable(b: Rect)
  {
    b.width >= 0.0 && b.height >= 0.0 && (b.width > 0.0 || b.height > 0.0)
  }

  function CenterX(b: Rect): real { b.left + b.width * 0.5 }

  function CenterY(b: Rect): real { b.top + b.height * 0.5 }

  /** Squared distance from the pointer to the rectangle's centre. */
  function DistanceSquared(b: Rect, x: real, y: real): real
  {
    var dx := x - CenterX(b);
    var dy := y - CenterY(b);
    dx * dx + dy * dy
  }

  /** Squared interaction radius: 0.8 of the larger side, squared. */
  function MaxDistanceSquared(b: Rect): real
  {
    var m := Max(b.width, b.height) * 0.8;
    m * m
  }

  lemma SquareNonNegative(a: real)
    ensures a * a >= 0.0
  {
    if a < 0.0 {
      assert a * a == (-a) * (-a);
    }
  }

  lemma ProductMonotone(a: real, b: real, c: real)
    requires a <= b && c > 0.0
    ensures a * c <= b * c
    ensures a < b ==> a * c < b * c
  {
    assert b * c - a * c == (b - a) * c;
  }

  /** With a positive divisor, a quotient reaches 1 exactly when the dividend
      reaches the divisor, and is not negative when the dividend is not. */
  lemma QuotientBounds(d: real, m: real)
    requires m > 0.0
    ensures d / m >= 1.0 <==> d >= m
    ensures d >= 0.0 ==> d / m >= 0.0
  {
    ScaledCompare(d / m, m, d);
  }

  /** The same comparisons for a quotient q given only through q * m == d. */
  lemma ScaledCompare(q: real, m: real, d: real)
    requires m > 0.0 && q * m == d
    ensures q >= 1.0 <==> d >= m
    ensures d >= 0.0 ==> q >= 0.0
  {
    if q >= 1.0 {
      ProductMonotone(1.0, q, m);
    } else {
      ProductMonotone(q, 1.0, m);
    }
    if q < 0.0 {
      ProductMonotone(q, 0.0, m);
    }
  }

  lemma InteractionRadiusPositive(b: Rect)
    requires Measurable(b)
    ensures MaxDistanceSquared(b) > 0.0
  {
    var s := Max(b.width, b.height) * 0.8;
    assert s > 0.0;
    calc {
      MaxDistanceSquared(b);
      s * s;
    >
      0.0;
    }
  }

  /** Proximity ratio `max(0, 1 - d²/maxD²)`: in [0, 1], exactly 1 at the
      centre and exactly 0 at or beyond the interaction radius. */
  function ProximityRatio(b: Rect, x: real, y: real): (r: real)
    requires Measurable(b)
    ensures 0.0 <= r <= 1.0
    ensures r == 1.0 <==> DistanceSquared(b, x, y) == 0.0
    ensures r == 0.0 <==> DistanceSquared(b, x, y) >= MaxDistanceSquared(b)
  {
    var d := DistanceSquared(b, x, y);
    var m := MaxDistanceSquared(b);
    SquareNonNegative(x - CenterX(b));
    SquareNonNegative(y - CenterY(b));
    assert d >= 0.0;
    InteractionRadiusPositive(b);
    QuotientBounds(d, m);
    assert d / m == 0.0 <==> d == 0.0;
    Max(0.0, 1.0 - d / m)
  }

  /** What the model takes `r => Math.pow(r, 1.2)` to be: a map of [0, 1] into
      [0, 1] that keeps 0 and 1. */
  ghost predicate IsShapingCurve(curve: real -> real)
  {
    curve(0.0) == 0.0 && curve(1.0) == 1.0 &&
    forall r :: 0.0 <= r <= 1.0 ==> 0.0 <= curve(r) <= 1.0
  }

  /** The target position for a pointer at (x, y): in [0, 1], 1 at the centre,
      0 at or beyond the interaction radius. */
  function TargetFor(curve: real -> real, b: Rect, x: real, y: real): (t: real)
    requires IsShapingCurve(curve) && Measurable(b)
    ensures 0.0 <= t <= 1.0
    ensures DistanceSquared(b, x, y) == 0.0 ==> t == 1.0
    ensures DistanceSquared(b, x, y) >= MaxDistanceSquared(b) ==> t == 0.0
  {
    curve(ProximityRatio(b, x, y))
  }

  /** A pointer exactly at the centre asks for the arrow in full. */
  lemma CentreGivesFullTarget(curve: real -> real, b: Rect)
    requires IsShapingCurve(curve) && Measurable(b)
    ensures TargetFor(curve, b, CenterX(b), CenterY(b)) == 1.0
  {
  }

  /** A pointer whose distance `dist` from the centre is at least 0.8 times the
      larger side asks for the circle in full. */
  lemma BeyondRadiusGivesZeroTarget(curve: real -> real, b: Rect, x: real, y: real, dist: real)
    requires IsShapingCurve(curve) && Measurable(b)
    requires dist >= 0.0 && dist * dist == DistanceSquared(b, x, y)
    requires dist >= 0.8 * Max(b.width, b.height)
    ensures TargetFor(curve, b, x, y) == 0.0
  {
    var s := Max(b.width, b.height) * 0.8;
    assert 0.0 < s <= dist;
    ProductMonotone(s, dist, s);
    ProductMonotone(s, dist, dist);
    assert MaxDistanceSquared(b) == s * s;
  }

  /** A 100 by 100 surface at the origin: the centre (50, 50) gives target 1,
      and the point (150, 150), squared distance 20000 against a squared
      radius of 6400, gives target 0. */
  lemma HeroSurfaceScenario(curve: real -> real, b: Rect)
    requires IsShapingCurve(curve) && b == Rect(0.0, 0.0, 100.0, 100.0)
    ensures TargetFor(curve, b, 50.0, 50.0) == 1.0
    ensures TargetFor(curve, b, 150.0, 150.0) == 0.0
  {
    assert CenterX(b) == 50.0 && CenterY(b) == 50.0;
    calc {
      DistanceSquared(b, 150.0, 150.0);
      (150.0 - CenterX(b)) * (150.0 - CenterX(b)) + (150.0 - CenterY(b)) * (150.0 - CenterY(b));
      100.0 * 100.0 + 100.0 * 100.0;
      20000.0;
    }
    calc {
      MaxDistanceSquared(b);
      (Max(b.width, b.height) * 0.8) * (Max(b.width, b.height) * 0.8);
      80.0 * 80.0;
      6400.0;
    }
  }

  // ---------------------------------------------------------------------
  // Easing

  /** One frame's easing step: the remaining distance shrinks to 0.6 of
      itself and the value stays between where it was and the target. */
  function EaseStep(current: real, target: real): (next: real)
    ensures Abs(target - next) == (1.0 - Easing) * Abs(target - current)
    ensures current <= target ==> current <= next <= target
    ensures target <= current ==> target <= next <= current
  {
    current + (target - current) * Easing
  }

  /** The value after k frames toward a fixed target. */
  function EaseSteps(current: real, target: real, k: nat): real
    decreases k
  {
    if k == 0 then current else EaseSteps(EaseStep(current, target), target, k - 1)
  }

  lemma {:induction false} EaseStepsDistance(current: real, target: real, k: nat)
    ensures Abs(target - EaseSteps(current, target, k)) == Pow(0.6, k) * Abs(target - current)
    decreases k
  {
    if k > 0 {
      var next := EaseStep(current, target);
      EaseStepsDistance(next, target, k - 1);
      assert Abs(target - next) == 0.6 * Abs(target - current);
    }
  }

  /** From any start in [0, 1] toward any target in [0, 1], the step seen by
      the fifteenth frame is within StopDelta, so that frame ends the loop:
      at most fifteen frames run after the last change of the target. */
  lemma SettlesWithinFifteenFrames(current: real, target: real)
    requires 0.0 <= current <= 1.0 && 0.0 <= target <= 1.0
    ensures Abs(target - EaseSteps(current, target, 14)) <= StopDelta
  {
    EaseStepsDistance(current, target, 14);
    assert Pow(0.6, 2) == 0.36;
    assert Pow(0.6, 4) == 0.1296 by { PowAdd(0.6, 2, 2); }
    assert Pow(0.6, 8) == 0.01679616 by { PowAdd(0.6, 4, 4); }
    assert Pow(0.6, 12) == 0.0021767823360 by { PowAdd(0.6, 8, 4); }
    assert Pow(0.6, 14) == 0.000783641640960 by { PowAdd(0.6, 12, 2); }
    assert Abs(target - current) <= 1.0;
  }

  lemma {:induction false} PowAdd(x: real, i: nat, j: nat)
    ensures Pow(x, i + j) == Pow(x, i) * Pow(x, j)
  {
    if i > 0 {
      PowAdd(x, i - 1, j);
    }
  }

  // ---------------------------------------------------------------------
  // The animator

  /** The state the page script keeps in closure variables, and its pointer,
      touch and animation-frame handlers. The clock value, the surface's live
      rectangle and the pointer coordinates are parameters of the handlers. */
  class Animator {
    /** The interpolator chosen at start-up. */
    const interp: Interpolator
    /** Stands for `r => Math.pow(r, 1.2)`. */
    const curve: real -> real

    var currentT: real
    var targetT: real
    /** `currentRAF` is set: a frame callback was requested and the loop has not gone idle. */
    var framePending: bool
    /** Frame callbacks of this animator the browser holds, requested and not yet run. */
    var queuedFrames: nat
    var cachedBounds: Option<Rect>
    var boundsUpdateTime: int
    var lastMouseMoveTime: int
    /** The path last written to the shape's `d` attribute; None until the first write. */
    var rendered: Option<Path>

    ghost predicate Valid()
      reads this
    {
      IsShapingCurve(curve) &&
      0.0 <= currentT <= 1.0 && 0.0 <= targetT <= 1.0 &&
      // at most one frame outstanding, and exactly one while the loop runs
      queuedFrames == (if framePending then 1 else 0) &&
      (cachedBounds.Some? ==> Measurable(cachedBounds.value)) &&
      // an idle loop has settled and shows the path for the target
      (!framePending ==> Abs(targetT - currentT) <= StopDelta) &&
      (!framePending && rendered.Some? ==> rendered.value == FinalPath(interp, targetT))
    }

    /** Page load: the interpolator is chosen, both positions are 0 (the
        circle), no frame is pending and nothing is cached. */
    constructor (lib: Library, curve: real -> real)
      requires IsShapingCurve(curve)
      ensures Valid()
      ensures interp == InitInterpolator(lib) && this.curve == curve
      ensures currentT == 0.0 && targetT == 0.0 && !framePending && queuedFrames == 0
      ensures cachedBounds == None && boundsUpdateTime == 0 && lastMouseMoveTime == 0
      ensures rendered == None
    {
      interp := InitInterpolator(lib);
      this.curve := curve;
      currentT, targetT := 0.0, 0.0;
      framePending, queuedFrames := false, 0;
      cachedBounds, boundsUpdateTime, lastMouseMoveTime := None, 0, 0;
      rendered := None;
    }

    /** The cache must be refilled at time `now`. */
    predicate BoundsStale(now: int)
      reads this
    {
      cachedBounds.None? || now - boundsUpdateTime > BoundsUpdateInterval
    }

    /** Read-through bounds cache: the live rectangle is taken only when the
        cache is empty or older than the interval; the rectangle returned is
        never older than the interval. */
    method GetCachedBounds(now: int, live: Rect) returns (bounds: Rect)
      requires Valid() && (BoundsStale(now) ==> Measurable(live))
      modifies this`cachedBounds, this`boundsUpdateTime
      ensures Valid()
      ensures cachedBounds == Some(bounds) && Measurable(bounds)
      ensures now - boundsUpdateTime <= BoundsUpdateInterval
      ensures old(BoundsStale(now)) ==> bounds == live && boundsUpdateTime == now
      ensures !old(BoundsStale(now)) ==>
        cachedBounds == old(cachedBounds) && boundsUpdateTime == old(boundsUpdateTime)
    {
      if cachedBounds.None? || now - boundsUpdateTime > BoundsUpdateInterval {
        cachedBounds := Some(live);
        boundsUpdateTime := now;
      }
      bounds := cachedBounds.value;
    }

    /** The whole effect of a pointer move to (x, y) at time `now`: inside the
        throttle window nothing changes; otherwise the move is stamped, the
        bounds cache is consulted, the target is overwritten with the target
        for the pointer (closer or farther alike) and a frame is requested
        only if none is pending. */
    twostate predicate MovedTo(now: int, live: Rect, x: real, y: real)
      requires Valid()
      reads this
    {
      if old(now - lastMouseMoveTime) < MouseMoveThrottle then
        currentT == old(currentT) && targetT == old(targetT) &&
        framePending == old(framePending) && queuedFrames == old(queuedFrames) &&
        cachedBounds == old(cachedBounds) && boundsUpdateTime == old(boundsUpdateTime) &&
        lastMouseMoveTime == old(lastMouseMoveTime) && rendered == old(rendered)
      else
        lastMouseMoveTime == now &&
        (if old(BoundsStale(now))
         then cachedBounds == Some(live) && boundsUpdateTime == now
         else cachedBounds == old(cachedBounds) && boundsUpdateTime == old(boundsUpdateTime)) &&
        targetT == TargetFor(curve, cachedBounds.value, x, y) &&
        framePending && queuedFrames == 1 &&
        (old(framePending) ==> queuedFrames == old(queuedFrames)) &&
        currentT == old(currentT) && rendered == old(rendered)
    }

    method PointerMove(now: int, live: Rect, x: real, y: real)
      requires Valid()
      requires now - lastMouseMoveTime >= MouseMoveThrottle && BoundsStale(now) ==> Measurable(live)
      modifies this
      ensures Valid()
      ensures MovedTo(now, live, x, y)
    {
      if now - lastMouseMoveTime < MouseMoveThrottle {
        return;
      }
      lastMouseMoveTime := now;
      var bounds := GetCachedBounds(now, live);
      targetT := TargetFor(curve, bounds, x, y);
      if !framePending {
        framePending := true;
        queuedFrames := queuedFrames + 1;
      }
    }

    /** Pointer leave: the target becomes exactly 0 whatever it was, and a
        frame is requested only if none is pending. */
    method PointerLeave()
      requires Valid()
      modifies this
      ensures Valid()
      ensures targetT == 0.0 && framePending && queuedFrames == 1
      ensures old(framePending) ==> queuedFrames == old(queuedFrames)
      ensures currentT == old(currentT) && rendered == old(rendered)
      ensures cachedBounds == old(cachedBounds) && boundsUpdateTime == old(boundsUpdateTime)
      ensures lastMouseMoveTime == old(lastMouseMoveTime)
    {
      targetT := 0.0;
      if !framePending {
        framePending := true;
        queuedFrames := queuedFrames + 1;
      }
    }

    /** Touch move: the first touch point acts as a pointer move; with no
        touch point nothing changes. */
    method TouchMove(now: int, live: Rect, touches: seq<Point>)
      requires Valid()
      requires |touches| > 0 && now - lastMouseMoveTime >= MouseMoveThrottle && BoundsStale(now) ==>
        Measurable(live)
      modifies this
      ensures Valid()
      ensures |touches| == 0 ==> unchanged(this)
      ensures |touches| > 0 ==> MovedTo(now, live, touches[0].clientX, touches[0].clientY)
    {
      if |touches| > 0 {
        PointerMove(now, live, touches[0].clientX, touches[0].clientY);
      }
    }

    /** Touch end and touch cancel are both bound to this handler: a pointer leave. */
    method TouchEnd()
      requires Valid()
      modifies this
      ensures Valid()
      ensures targetT == 0.0 && framePending && queuedFrames == 1
      ensures old(framePending) ==> queuedFrames == old(queuedFrames)
      ensures currentT == old(currentT) && rendered == old(rendered)
      ensures cachedBounds == old(cachedBounds) && boundsUpdateTime == old(boundsUpdateTime)
      ensures lastMouseMoveTime == old(lastMouseMoveTime)
    {
      PointerLeave();
    }

    /** One animation frame, run by the browser only when one was requested:
        ease toward the target, render the eased value (a throw falls back to
        a boundary path and never escapes), then either request the next frame
        (the step before easing was above StopDelta) or render the target and
        go idle. `currentT` is not snapped to the target when the loop stops. */
    method AnimationFrame()
      requires Valid() && queuedFrames > 0
      modifies this
      ensures Valid()
      ensures targetT == old(targetT)
      ensures currentT == EaseStep(old(currentT), targetT)
      ensures framePending <==> old(Abs(targetT - currentT)) > StopDelta
      ensures framePending ==> rendered == Some(FramePath(interp, currentT))
      ensures !framePending ==> rendered == Some(FinalPath(interp, targetT)) && queuedFrames == 0
      ensures cachedBounds == old(cachedBounds) && boundsUpdateTime == old(boundsUpdateTime)
      ensures lastMouseMoveTime == old(lastMouseMoveTime)
    {
      queuedFrames := queuedFrames - 1;
      var diff := targetT - currentT;
      currentT := currentT + diff * Easing;
      rendered := Some(FramePath(interp, currentT));
      if Abs(diff) > StopDelta {
        queuedFrames := queuedFrames + 1;
      } else {
        rendered := Some(FinalPath(interp, targetT));
        framePending := false;
      }
    }
  }

  // ---------------------------------------------------------------------
  // Developer hook

  /** `t` clamped into [0, 1]. */
  function Clamp01(t: real): (r: real)
    ensures 0.0 <= r <= 1.0
    ensures 0.0 <= t <= 1.0 ==> r == t
    ensures t < 0.0 ==> r == 0.0
    ensures t > 1.0 ==> r == 1.0
  {
    if t < 0.0 then 0.0 else if t > 1.0 then 1.0 else t
  }

  /** The manual test hook: with the shape element present and the library
      loaded, a fresh interpolator with default options is built and called at
      the clamped position (a throw from either call propagates to the
      caller); otherwise nothing is done. */
  function TestMorph(pathPresent: bool, lib: Library, t: real): (r: Option<Outcome<Path>>)
    ensures r.None? <==> !pathPresent || lib.Absent?
  {
    if !pathPresent || lib.Absent? then None
    else
      match lib.interpolate(CirclePath, ArrowPath, None)
      case Throws => Some(Throws)
      case Ok(at) => Some(at(Clamp01(t)))
  }

  /** Positions outside [0, 1] render as the nearer end. */
  lemma TestMorphClamps(pathPresent: bool, lib: Library, t: real)
    ensures t < 0.0 ==> TestMorph(pathPresent, lib, t) == TestMorph(pathPresent, lib, 0.0)
    ensures t > 1.0 ==> TestMorph(pathPresent, lib, t) == TestMorph(pathPresent, lib, 1.0)
  {
  }
}
