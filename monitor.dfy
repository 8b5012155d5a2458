/**
 * Monitor topology (window/monitor.go, with the older package-main copy of
 * the overlap arithmetic in monitor.go).
 *
 * The source keeps monitor centres as `float64` halves of integer sums and
 * compares normalised vectors against `cos(pi/4)`. The model keeps every
 * quantity exact over the integers: centres are doubled, the cone test
 * `dot(dir, v/|v|) >= cos 45deg` becomes `d >= 0 && 2*d*d >= |v|^2` where
 * `d` is the component of `v` along the direction, and the Euclidean
 * distance is replaced by its square, which orders candidates the same way.
 */
module Monitors {
  import opened Helpers

  /** A RECT: edges in virtual-screen pixels, y growing downwards. */
  datatype Rect = Rect(left: int, top: int, right: int, bottom: int) {
    function Width(): int { right - left }
    function Height(): int { bottom - top }
  }

  /** One enumerated display: its handle and the two MONITORINFO rectangles. */
  datatype Monitor = Monitor(handle: int, rcMonitor: Rect, rcWork: Rect)

  /** A point whose coordinates are stored doubled. */
  datatype Point2 = Point2(x2: int, y2: int)

  /** An integer vector (a direction, or a doubled centre-to-centre offset). */
  datatype Vec = Vec(x: int, y: int)

  /** The direction codes shared by the hotkey loop, the CLI and the engine. */
  const LeftDirection: int := -1
  const RightDirection: int := 1
  const UpDirection: int := -2
  const DownDirection: int := 2

  /**
   * `directionVectors`: the unit vector of a direction code, or None for a
   * code outside the table. Codes of magnitude 1 are horizontal, of
   * magnitude 2 vertical; a positive code points towards growing
   * coordinates (right, or down since y grows downwards).
   */
  function DirectionVector(code: int): (v: Option<Vec>)
    ensures v.Some? <==> code in {LeftDirection, RightDirection, UpDirection, DownDirection}
    ensures v.Some? ==> Abs(v.value.x) + Abs(v.value.y) == 1
    ensures v.Some? ==> (v.value.y == 0 <==> Abs(code) == 1)
    ensures v.Some? ==> (v.value.x + v.value.y > 0 <==> code > 0)
  {
    if code == LeftDirection then Some(Vec(-1, 0))
    else if code == RightDirection then Some(Vec(1, 0))
    else if code == UpDirection then Some(Vec(0, -1))
    else if code == DownDirection then Some(Vec(0, 1))
    else None
  }

  /** Opposite codes name opposite vectors. */
  lemma DirectionOpposite(code: int)
    requires DirectionVector(code).Some?
    ensures DirectionVector(-code) == Some(Vec(-DirectionVector(code).value.x, -DirectionVector(code).value.y))
  {
  }

  /** `calculateMonitorCenter`: the midpoint of RCMonitor on each axis (doubled). */
  function Center2(m: Monitor): (c: Point2)
    ensures c.x2 - 2 * m.rcMonitor.left == 2 * m.rcMonitor.right - c.x2
    ensures c.y2 - 2 * m.rcMonitor.top == 2 * m.rcMonitor.bottom - c.y2
  {
    Point2(m.rcMonitor.left + m.rcMonitor.right, m.rcMonitor.top + m.rcMonitor.bottom)
  }

  /**
   * `calculateOverlap`: the area of the intersection of two rectangles, 0
   * unless the intersection has positive width and height. The source
   * widens each side to `int64` before multiplying; the model multiplies
   * exactly.
   */
  function Overlap(a: Rect, b: Rect): (r: int)
    ensures r >= 0
    ensures r > 0 ==> a.Width() > 0 && a.Height() > 0 && b.Width() > 0 && b.Height() > 0
  {
    var left := Max(a.left, b.left);
    var top := Max(a.top, b.top);
    var right := Min(a.right, b.right);
    var bottom := Min(a.bottom, b.bottom);
    if left < right && top < bottom then
      PositiveProduct(right - left, bottom - top);
      (right - left) * (bottom - top)
    else 0
  }

  lemma PositiveProduct(w: int, h: int)
    requires w > 0 && h > 0
    ensures w * h > 0
  {
  }

  /** The overlap does not depend on the order of its arguments. */
  lemma OverlapSymmetric(a: Rect, b: Rect)
    ensures Overlap(a, b) == Overlap(b, a)
  {
    assert Max(a.left, b.left) == Max(b.left, a.left);
    assert Max(a.top, b.top) == Max(b.top, a.top);
    assert Min(a.right, b.right) == Min(b.right, a.right);
    assert Min(a.bottom, b.bottom) == Min(b.bottom, a.bottom);
  }

  /** Rectangles that only touch, or are apart, do not overlap. */
  lemma OverlapZeroWhenApart(a: Rect, b: Rect)
    requires a.right <= b.left || b.right <= a.left || a.bottom <= b.top || b.bottom <= a.top
    ensures Overlap(a, b) == 0
  {
  }

  /** A window lying wholly on a monitor overlaps it by its whole area. */
  lemma OverlapOfContained(w: Rect, m: Rect)
    requires m.left <= w.left < w.right <= m.right
    requires m.top <= w.top < w.bottom <= m.bottom
    ensures Overlap(w, m) == w.Width() * w.Height()
  {
  }

  /** The overlap is positive exactly when the open rectangles share a point. */
  lemma OverlapPositiveIff(a: Rect, b: Rect)
    ensures Overlap(a, b) > 0 <==>
      (a.left < b.right && b.left < a.right && a.left < a.right && b.left < b.right &&
       a.top < b.bottom && b.top < a.bottom && a.top < a.bottom && b.top < b.bottom)
  {
  }

  /** Doubled vector from the current monitor's centre to another monitor's centre. */
  function Offset2(current: Monitor, m: Monitor): Vec
  {
    var c, o := Center2(current), Center2(m);
    Vec(o.x2 - c.x2, o.y2 - c.y2)
  }

  /** Squared length of a vector: the squared (doubled) centre distance. */
  function Norm2(v: Vec): nat
  {
    v.x * v.x + v.y * v.y
  }

  /**
   * The 45-degree cone test, exact: `v` makes an angle of at most 45 degrees
   * with the unit vector `dir`.
   */
  predicate InCone(v: Vec, dir: Vec)
  {
    var d := dir.x * v.x + dir.y * v.y;
    d >= 0 && 2 * d * d >= Norm2(v)
  }

  /** A monitor survives the candidate loop: another handle, a distinct centre, inside the cone. */
  predicate IsCandidate(m: Monitor, current: Monitor, dir: Vec)
  {
    m.handle != current.handle && Offset2(current, m) != Vec(0, 0) && InCone(Offset2(current, m), dir)
  }

  /**
   * The cone is the quarter-plane around the direction's axis: the
   * component along the direction is at least the magnitude of the
   * component across it.
   */
  lemma ConeIsQuarterPlane(v: Vec)
    ensures InCone(v, Vec(1, 0)) <==> v.x >= Abs(v.y)
    ensures InCone(v, Vec(-1, 0)) <==> -v.x >= Abs(v.y)
    ensures InCone(v, Vec(0, 1)) <==> v.y >= Abs(v.x)
    ensures InCone(v, Vec(0, -1)) <==> -v.y >= Abs(v.x)
  {
    assert Norm2(v) == v.x * v.x + v.y * v.y == (-v.x) * (-v.x) + v.y * v.y;
    assert Norm2(v) == v.y * v.y + v.x * v.x == (-v.y) * (-v.y) + v.x * v.x;
    ConeOnAxis(v, Vec(1, 0), v.x, v.y);
    ConeOnAxis(v, Vec(-1, 0), -v.x, v.y);
    ConeOnAxis(v, Vec(0, 1), v.y, v.x);
    ConeOnAxis(v, Vec(0, -1), -v.y, v.x);
  }

  /** The cone test for a vector with component `d` along the direction and `e` across it. */
  lemma ConeOnAxis(v: Vec, dir: Vec, d: int, e: int)
    requires dir.x * v.x + dir.y * v.y == d && Norm2(v) == d * d + e * e
    ensures InCone(v, dir) <==> d >= Abs(e)
  {
    SquareDominates(d, e);
  }

  lemma SquareDominates(d: int, e: int)
    ensures (d >= 0 && 2 * d * d >= d * d + e * e) <==> d >= Abs(e)
  {
    var ae := Abs(e);
    assert e * e == ae * ae;
    if d >= 0 {
      if d >= ae {
        assert d * d >= ae * ae by { SquareMonotone(ae, d); }
      } else {
        assert ae * ae > d * d by { SquareStrictMonotone(d, ae); }
      }
    }
  }

  lemma SquareMonotone(a: nat, b: nat)
    requires a <= b
    ensures a * a <= b * b
  {
    MulMonotone(a, b, a);
    MulMonotone(a, b, b);
  }

  lemma SquareStrictMonotone(a: nat, b: nat)
    requires a < b
    ensures a * a < b * b
  {
    MulMonotone(a, b, a);
    assert a * b < b * b by { assert b * b - a * b == (b - a) * b; PositiveProduct(b - a, b); }
  }

  // ---------------------------------------------------------------------
  // Specification of findTargetMonitor
  // ---------------------------------------------------------------------

  /**
   * Index, in enumeration order, of the monitor the search returns: the
   * first candidate whose distance is strictly smaller than that of every
   * earlier candidate's, kept until a strictly nearer one appears; -1 when
   * no monitor is a candidate.
   */
  function TargetIndex(ms: seq<Monitor>, current: Monitor, dir: Vec): (k: int)
    ensures -1 <= k < |ms|
    ensures k >= 0 ==> IsCandidate(ms[k], current, dir)
    decreases |ms|
  {
    if ms == [] then -1
    else
      var k := TargetIndex(ms[..|ms| - 1], current, dir);
      var last := |ms| - 1;
      if IsCandidate(ms[last], current, dir) &&
         (k < 0 || Norm2(Offset2(current, ms[last])) < Norm2(Offset2(current, ms[k])))
      then last
      else k
  }

  /**
   * `findTargetMonitor` as a function of its inputs: None for an unknown
   * direction code or when no monitor passes the cone test, otherwise the
   * nearest candidate, the earliest one on a tie.
   */
  function TargetMonitor(ms: seq<Monitor>, current: Monitor, code: int): (t: Option<Monitor>)
    ensures DirectionVector(code).None? ==> t.None?
    ensures t.Some? ==> t.value in ms && t.value.handle != current.handle
    ensures t.Some? ==> Center2(t.value) != Center2(current)
    ensures t.Some? ==> InCone(Offset2(current, t.value), DirectionVector(code).value)
  {
    match DirectionVector(code)
    case None => None
    case Some(dir) =>
      var k := TargetIndex(ms, current, dir);
      if k < 0 then None else Some(ms[k])
  }

  /** There is a target exactly when some monitor is a candidate. */
  lemma {:induction false} TargetNoneIffNoCandidate(ms: seq<Monitor>, current: Monitor, dir: Vec)
    ensures TargetIndex(ms, current, dir) < 0 <==> forall j :: 0 <= j < |ms| ==> !IsCandidate(ms[j], current, dir)
    decreases |ms|
  {
    if ms != [] {
      var init := ms[..|ms| - 1];
      TargetNoneIffNoCandidate(init, current, dir);
      assert forall j :: 0 <= j < |init| ==> init[j] == ms[j];
    }
  }

  /** The target is no farther than any candidate. */
  lemma {:induction false} TargetIsNearest(ms: seq<Monitor>, current: Monitor, dir: Vec)
    ensures var k := TargetIndex(ms, current, dir);
      k >= 0 ==> forall j :: 0 <= j < |ms| && IsCandidate(ms[j], current, dir) ==>
        Norm2(Offset2(current, ms[k])) <= Norm2(Offset2(current, ms[j]))
    decreases |ms|
  {
    if ms != [] {
      var init := ms[..|ms| - 1];
      TargetIsNearest(init, current, dir);
      TargetNoneIffNoCandidate(init, current, dir);
      assert forall j :: 0 <= j < |init| ==> init[j] == ms[j];
    }
  }

  /** Ties go to the earliest monitor: every earlier candidate is strictly farther. */
  lemma {:induction false} TargetIsEarliestNearest(ms: seq<Monitor>, current: Monitor, dir: Vec)
    ensures var k := TargetIndex(ms, current, dir);
      k >= 0 ==> forall j :: 0 <= j < k && IsCandidate(ms[j], current, dir) ==>
        Norm2(Offset2(current, ms[j])) > Norm2(Offset2(current, ms[k]))
    decreases |ms|
  {
    if ms != [] {
      var init := ms[..|ms| - 1];
      TargetIsEarliestNearest(init, current, dir);
      TargetIsNearest(init, current, dir);
      TargetNoneIffNoCandidate(init, current, dir);
      assert forall j :: 0 <= j < |init| ==> init[j] == ms[j];
    }
  }

  // ---------------------------------------------------------------------
  // The two loops of findTargetMonitor
  // ---------------------------------------------------------------------

  /** The candidate list the first loop builds, in enumeration order. */
  function Candidates(ms: seq<Monitor>, current: Monitor, dir: Vec): seq<Monitor>
    decreases |ms|
  {
    if ms == [] then []
    else
      var last := ms[|ms| - 1];
      Candidates(ms[..|ms| - 1], current, dir) + (if IsCandidate(last, current, dir) then [last] else [])
  }

  /** The monitor the second loop keeps: replaced only by a strictly nearer one. */
  function NearestOf(cs: seq<Monitor>, current: Monitor): Option<Monitor>
    decreases |cs|
  {
    if cs == [] then None
    else
      var best := NearestOf(cs[..|cs| - 1], current);
      var m := cs[|cs| - 1];
      if best.None? || Norm2(Offset2(current, m)) < Norm2(Offset2(current, best.value)) then Some(m) else best
  }

  /** Filtering first and then taking the nearest is the same as the one-pass search. */
  lemma {:induction false} NearestOfCandidates(ms: seq<Monitor>, current: Monitor, dir: Vec)
    ensures var k := TargetIndex(ms, current, dir);
      NearestOf(Candidates(ms, current, dir), current) == if k < 0 then None else Some(ms[k])
    decreases |ms|
  {
    if ms != [] {
      var init := ms[..|ms| - 1];
      var last := ms[|ms| - 1];
      var k0 := TargetIndex(init, current, dir);
      var best := NearestOf(Candidates(init, current, dir), current);
      NearestOfCandidates(init, current, dir);
      assert best == if k0 < 0 then None else Some(ms[k0]);
      var isCandidate := IsCandidate(last, current, dir);
      var cs := Candidates(ms, current, dir);
      if isCandidate {
        assert cs == Candidates(init, current, dir) + [last];
        assert cs[..|cs| - 1] == Candidates(init, current, dir);
        assert NearestOf(cs, current) ==
          if best.None? || Norm2(Offset2(current, last)) < Norm2(Offset2(current, best.value)) then Some(last) else best;
        assert TargetIndex(ms, current, dir) ==
          if k0 < 0 || Norm2(Offset2(current, last)) < Norm2(Offset2(current, ms[k0])) then |ms| - 1 else k0;
      } else {
        assert cs == Candidates(init, current, dir);
        assert TargetIndex(ms, current, dir) == k0;
      }
    }
  }

  /**
   * `findTargetMonitor`: the first loop keeps the monitors of another
   * handle, a non-zero centre offset and a dot product within the cone; the
   * second keeps the candidate of strictly smallest distance. Go's starting
   * value `math.MaxFloat64` exceeds every finite distance, so the first
   * candidate is always taken; the model says so with `target.None?`.
   */
  method FindTargetMonitor(monitors: seq<Monitor>, currentMonitor: Monitor, direction: int)
    returns (target: Option<Monitor>)
    ensures target == TargetMonitor(monitors, currentMonitor, direction)
  {
    var dirVec := DirectionVector(direction);
    if dirVec.None? {
      return None;
    }
    var dir := dirVec.value;

    var candidates: seq<Monitor> := [];
    for i := 0 to |monitors|
      invariant candidates == Candidates(monitors[..i], currentMonitor, dir)
    {
      var monitor := monitors[i];
      assert monitors[..i + 1][..i] == monitors[..i];
      if monitor.handle != currentMonitor.handle {
        var vecToMonitor := Offset2(currentMonitor, monitor);
        if vecToMonitor != Vec(0, 0) {
          var dot := dir.x * vecToMonitor.x + dir.y * vecToMonitor.y;
          if dot >= 0 && 2 * dot * dot >= vecToMonitor.x * vecToMonitor.x + vecToMonitor.y * vecToMonitor.y {
            candidates := candidates + [monitor];
          }
        }
      }
    }
    assert monitors[..|monitors|] == monitors;

    if |candidates| == 0 {
      NearestOfCandidates(monitors, currentMonitor, dir);
      return None;
    }

    target := None;
    var minDistance := 0;
    for j := 0 to |candidates|
      invariant target == NearestOf(candidates[..j], currentMonitor)
      invariant target.Some? ==> minDistance == Norm2(Offset2(currentMonitor, target.value))
    {
      assert candidates[..j + 1][..j] == candidates[..j];
      var monitor := candidates[j];
      var distance := Norm2(Offset2(currentMonitor, monitor));
      if target.None? || distance < minDistance {
        minDistance := distance;
        target := Some(monitor);
      }
    }
    assert candidates[..|candidates|] == candidates;
    NearestOfCandidates(monitors, currentMonitor, dir);
  }
}
