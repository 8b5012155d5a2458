/**
 * Window placement (window/window.go): choosing the monitor a window is on,
 * the pixel- and percentage-based transforms between monitors, the
 * half-screen split arithmetic, and the order in which `MoveActiveWindow`
 * and `SplitActiveWindow` restore, move and maximize the window.
 *
 * The operating system is abstracted: the foreground window is an object
 * of class `Window` (or null when there is none), and the answers of the
 * calls that cannot be seen (monitor enumeration, whether MoveWindow or
 * SetWindowPos succeeds, the rectangle a maximized window takes) are a
 * `Platform` value passed in.
 */
module Placement {
  import opened Helpers
  import opened Monitors

  // ---------------------------------------------------------------------
  // The current monitor: the argmax loop over overlaps
  // ---------------------------------------------------------------------

  /**
   * Index of the monitor the overlap loop keeps: a monitor replaces the
   * kept one only with a strictly larger overlap, and the running maximum
   * starts at 0, so a monitor the window does not overlap is never kept.
   */
  function CurrentIndex(rect: Rect, ms: seq<Monitor>): (k: int)
    ensures -1 <= k < |ms|
    ensures k >= 0 ==> Overlap(rect, ms[k].rcMonitor) > 0
    decreases |ms|
  {
    if ms == [] then -1
    else
      var k := CurrentIndex(rect, ms[..|ms| - 1]);
      var last := |ms| - 1;
      var maxOverlap := if k < 0 then 0 else Overlap(rect, ms[k].rcMonitor);
      if Overlap(rect, ms[last].rcMonitor) > maxOverlap then last else k
  }

  /** The monitor a window is on: the first one of strictly greatest positive overlap. */
  function CurrentMonitor(rect: Rect, ms: seq<Monitor>): (c: Option<Monitor>)
    ensures c.Some? ==> c.value in ms && Overlap(rect, c.value.rcMonitor) > 0
    ensures c.Some? ==> c.value.rcMonitor.Width() > 0 && c.value.rcMonitor.Height() > 0
  {
    var k := CurrentIndex(rect, ms);
    if k < 0 then None else Some(ms[k])
  }

  /** No current monitor exactly when the window overlaps no monitor. */
  lemma {:induction false} CurrentNoneIffNoOverlap(rect: Rect, ms: seq<Monitor>)
    ensures CurrentIndex(rect, ms) < 0 <==> forall j :: 0 <= j < |ms| ==> Overlap(rect, ms[j].rcMonitor) == 0
    decreases |ms|
  {
    if ms != [] {
      var init := ms[..|ms| - 1];
      CurrentNoneIffNoOverlap(rect, init);
      assert forall j :: 0 <= j < |init| ==> init[j] == ms[j];
    }
  }

  /** The current monitor's overlap is the largest of all. */
  lemma {:induction false} CurrentHasLargestOverlap(rect: Rect, ms: seq<Monitor>)
    ensures var k := CurrentIndex(rect, ms);
      k >= 0 ==> forall j :: 0 <= j < |ms| ==> Overlap(rect, ms[j].rcMonitor) <= Overlap(rect, ms[k].rcMonitor)
    decreases |ms|
  {
    if ms != [] {
      var init := ms[..|ms| - 1];
      CurrentHasLargestOverlap(rect, init);
      CurrentNoneIffNoOverlap(rect, init);
      assert forall j :: 0 <= j < |init| ==> init[j] == ms[j];
    }
  }

  /** Ties go to the earliest monitor: every earlier one overlaps strictly less. */
  lemma {:induction false} CurrentIsFirstLargest(rect: Rect, ms: seq<Monitor>)
    ensures var k := CurrentIndex(rect, ms);
      k >= 0 ==> forall j :: 0 <= j < k ==> Overlap(rect, ms[j].rcMonitor) < Overlap(rect, ms[k].rcMonitor)
    decreases |ms|
  {
    if ms != [] {
      var init := ms[..|ms| - 1];
      CurrentIsFirstLargest(rect, init);
      CurrentHasLargestOverlap(rect, init);
      CurrentNoneIffNoOverlap(rect, init);
      assert forall j :: 0 <= j < |init| ==> init[j] == ms[j];
    }
  }

  /**
   * The loop of window/window.go that finds the monitor the window is on
   * (the same loop appears in SplitActiveWindow and in the older
   * MoveActiveWindow of main.go).
   */
  method FindCurrentMonitor(rect: Rect, monitors: seq<Monitor>) returns (currentMonitor: Option<Monitor>)
    ensures currentMonitor == CurrentMonitor(rect, monitors)
  {
    currentMonitor := None;
    var maxOverlap := 0;
    for i := 0 to |monitors|
      invariant var k := CurrentIndex(rect, monitors[..i]);
        && currentMonitor == (if k < 0 then None else Some(monitors[k]))
        && maxOverlap == (if k < 0 then 0 else Overlap(rect, monitors[k].rcMonitor))
    {
      assert monitors[..i + 1][..i] == monitors[..i];
      var m := monitors[i];
      var overlap := Overlap(rect, m.rcMonitor);
      if overlap > maxOverlap {
        maxOverlap := overlap;
        currentMonitor := Some(m);
      }
    }
    assert monitors[..|monitors|] == monitors;
  }

  // ---------------------------------------------------------------------
  // The transform between monitors
  // ---------------------------------------------------------------------

  /** The rectangle MoveWindow / SetWindowPos give a window from a position and a size. */
  function FromXYWH(x: int, y: int, width: int, height: int): (r: Rect)
    ensures r.left == x && r.top == y && r.Width() == width && r.Height() == height
  {
    Rect(x, y, x + width, y + height)
  }

  /**
   * `int32(float64(x) / float64(from) * float64(to))`: a length taken as a
   * fraction of one monitor dimension and applied to another, truncated
   * toward zero. The model computes the exact rational value; the rounding
   * of the intermediate float is not modelled.
   */
  function Scale(x: int, to: int, from: int): (r: int)
    requires from != 0
    ensures to == from ==> r == x
    ensures x == 0 || to == 0 ==> r == 0
    ensures x * to >= 0 && from > 0 ==> r >= 0
  {
    if to == from then QuotOfMultiple(x, from); Quot(x * to, from)
    else Quot(x * to, from)
  }

  /**
   * The destination rectangle of a move from monitor rectangle `source` to
   * monitor rectangle `target`. Pixel mode keeps the size and the offset
   * from the monitor's top-left corner; percentage mode scales both by the
   * ratio of the monitors' dimensions.
   */
  function Destination(r: Rect, source: Rect, target: Rect, sizeByPixel: bool): (d: Rect)
    requires sizeByPixel || (source.Width() != 0 && source.Height() != 0)
    ensures sizeByPixel ==> d.Width() == r.Width() && d.Height() == r.Height()
    ensures sizeByPixel ==> d.left - target.left == r.left - source.left && d.top - target.top == r.top - source.top
    ensures !sizeByPixel ==>
      && d.Width() == Scale(r.Width(), target.Width(), source.Width())
      && d.Height() == Scale(r.Height(), target.Height(), source.Height())
      && d.left - target.left == Scale(r.left - source.left, target.Width(), source.Width())
      && d.top - target.top == Scale(r.top - source.top, target.Height(), source.Height())
  {
    if sizeByPixel then
      var newWidth := r.right - r.left;
      var newHeight := r.bottom - r.top;
      var relativeX := r.left - source.left;
      var relativeY := r.top - source.top;
      FromXYWH(target.left + relativeX, target.top + relativeY, newWidth, newHeight)
    else
      var newWidth := Scale(r.Width(), target.Width(), source.Width());
      var newHeight := Scale(r.Height(), target.Height(), source.Height());
      var newX := target.left + Scale(r.left - source.left, target.Width(), source.Width());
      var newY := target.top + Scale(r.top - source.top, target.Height(), source.Height());
      FromXYWH(newX, newY, newWidth, newHeight)
  }

  /** Between monitors of equal size the percentage transform is the pixel transform. */
  lemma PercentageBetweenEqualSizes(r: Rect, source: Rect, target: Rect)
    requires source.Width() == target.Width() != 0 && source.Height() == target.Height() != 0
    ensures Destination(r, source, target, false) == Destination(r, source, target, true)
  {
    QuotOfMultiple(r.Width(), source.Width());
    QuotOfMultiple(r.Height(), source.Height());
    QuotOfMultiple(r.left - source.left, source.Width());
    QuotOfMultiple(r.top - source.top, source.Height());
  }

  /**
   * Scaling up from `s` to `t` and back down never moves a length away
   * from zero and loses at most one pixel.
   */
  lemma ScaleRoundTrip(x: int, s: int, t: int)
    requires 0 < s <= t
    ensures Abs(Scale(Scale(x, t, s), s, t) - x) <= 1
    ensures Abs(Scale(Scale(x, t, s), s, t)) <= Abs(x)
  {
    if x >= 0 {
      ScaleRoundTripNonNegative(x, s, t);
    } else {
      var n := -x;
      ScaleRoundTripNonNegative(n, s, t);
      var y := Scale(n, t, s);
      ScaleNegate(n, t, s);
      ScaleNegate(y, s, t);
    }
  }

  /** Truncating division makes scaling odd: a negated length scales to the negated result. */
  lemma ScaleNegate(x: int, to: int, from: int)
    requires from != 0
    ensures Scale(-x, to, from) == -Scale(x, to, from)
  {
    assert (-x) * to == -(x * to);
    QuotNegate(x * to, from);
  }

  lemma ScaleRoundTripNonNegative(x: nat, s: int, t: int)
    requires 0 < s <= t
    ensures 0 <= Scale(Scale(x, t, s), s, t) <= x
    ensures x - 1 <= Scale(Scale(x, t, s), s, t)
  {
    var p := x * t;
    assert p >= 0;
    var y := Scale(x, t, s);
    QuotNonNegativeBounds(p, s);
    var q := y * s;
    assert q >= 0;
    var z := Scale(y, s, t);
    QuotNonNegativeBounds(q, t);
    RoundTripBounds(x, y, z, s, t);
  }

  /**
   * Bounds of a down-then-up truncation: from `y*s <= x*t < y*s + s` and
   * `z*t <= y*s < z*t + t` with `s <= t`, `z` is `x` or `x - 1`.
   */
  lemma RoundTripBounds(x: int, y: int, z: int, s: int, t: int)
    requires 0 < s <= t
    requires y * s <= x * t < y * s + s
    requires z * t <= y * s < z * t + t
    ensures x - 1 <= z <= x
  {
    // z * t <= y * s <= x * t, so z <= x
    MulCancel(z, x, t);
    // (x - 1) * t == x * t - t < y * s + s - t <= y * s < (z + 1) * t, so x - 1 < z + 1
    assert (x - 1) * t == x * t - t;
    assert (z + 1) * t == z * t + t;
    MulCancelStrict(x - 1, z + 1, t);
  }

  /**
   * A percentage move onto a monitor at least as large, followed by the
   * move back, restores the rectangle to within one pixel per edge offset
   * and per dimension.
   */
  lemma PercentageRoundTrip(r: Rect, source: Rect, target: Rect)
    requires 0 < source.Width() <= target.Width() && 0 < source.Height() <= target.Height()
    ensures var back := Destination(Destination(r, source, target, false), target, source, false);
      && Abs(back.left - r.left) <= 1 && Abs(back.top - r.top) <= 1
      && Abs(back.Width() - r.Width()) <= 1 && Abs(back.Height() - r.Height()) <= 1
  {
    ScaleRoundTrip(r.Width(), source.Width(), target.Width());
    ScaleRoundTrip(r.Height(), source.Height(), target.Height());
    ScaleRoundTrip(r.left - source.left, source.Width(), target.Width());
    ScaleRoundTrip(r.top - source.top, source.Height(), target.Height());
  }

  /** A scaling whose exact value is an integer `q` gives `q`. */
  lemma ScaleExact(x: int, to: int, from: int, q: int)
    requires from != 0 && x * to == q * from
    ensures Scale(x, to, from) == q
  {
    QuotOfMultiple(q, from);
  }

  /**
   * A window covering the middle quarter of a 1920x1080 monitor becomes
   * the middle quarter of a 3840x2160 monitor beside it ...
   */
  lemma PercentageUpscaleExample()
    ensures Destination(Rect(480, 270, 1440, 810), Rect(0, 0, 1920, 1080), Rect(1920, 0, 5760, 2160), false)
      == Rect(2880, 540, 4800, 1620)
  {
    ScaleExact(960, 3840, 1920, 1920);
    ScaleExact(540, 2160, 1080, 1080);
    ScaleExact(480, 3840, 1920, 960);
    ScaleExact(270, 2160, 1080, 540);
  }

  /** ... and moves back exactly. */
  lemma PercentageDownscaleExample()
    ensures Destination(Rect(2880, 540, 4800, 1620), Rect(1920, 0, 5760, 2160), Rect(0, 0, 1920, 1080), false)
      == Rect(480, 270, 1440, 810)
  {
    ScaleExact(1920, 1920, 3840, 960);
    ScaleExact(1080, 1080, 2160, 540);
    ScaleExact(960, 1920, 3840, 480);
    ScaleExact(540, 1080, 2160, 270);
  }

  // ---------------------------------------------------------------------
  // The split arithmetic
  // ---------------------------------------------------------------------

  /**
   * The invisible-border compensation as window/window.go computes it:
   * `|rect.Left|` when the measured left edge is negative, 0 otherwise. It
   * measures the border from x = 0 rather than from the monitor's left edge.
   */
  function SpillAsWritten(rect: Rect): nat
  {
    if rect.left < 0 then -rect.left else 0
  }

  /**
   * The split rectangles exactly as window/window.go computes them, and as
   * SplitActiveWindow places them. Left keeps the window's left, top and
   * height and is half the monitor wide plus the compensation; Right starts
   * half the window's width past the monitor's left edge, less the
   * compensation, and is half the monitor wide; Up and Down span the
   * monitor's width, each half its height, Up from the monitor's top and
   * Down from its middle. Any other direction yields no rectangle.
   */
  function SplitRectAsWritten(rect: Rect, mon: Rect, direction: int): (r: Option<Rect>)
    ensures r.Some? <==> direction in {LeftDirection, RightDirection, UpDirection, DownDirection}
    ensures direction == LeftDirection ==>
      && r.value.left == rect.left && r.value.top == rect.top && r.value.Height() == rect.Height()
      && r.value.Width() == Quot(mon.Width(), 2) + SpillAsWritten(rect)
    ensures direction == RightDirection ==>
      && r.value.left == mon.left + Quot(rect.Width(), 2) - SpillAsWritten(rect)
      && r.value.top == rect.top && r.value.Height() == rect.Height()
      && r.value.Width() == Quot(mon.Width(), 2)
    ensures direction in {UpDirection, DownDirection} ==>
      && r.value.left == mon.left && r.value.Width() == mon.Width()
      && r.value.Height() == Quot(mon.Height(), 2)
    ensures direction == UpDirection ==> r.value.top == mon.top
    ensures direction == DownDirection ==> r.value.top == mon.top + Quot(mon.Height(), 2)
  {
    var halfWidth := Quot(mon.Width(), 2);
    var halfHeight := Quot(mon.Height(), 2);
    var spill := if rect.left < 0 then Abs(rect.left) else 0;
    if direction == LeftDirection then
      Some(FromXYWH(rect.left, rect.top, halfWidth + spill, rect.Height()))
    else if direction == RightDirection then
      Some(FromXYWH(mon.left + Quot(rect.Width(), 2) - spill, rect.top, halfWidth, rect.Height()))
    else if direction == UpDirection then
      Some(FromXYWH(mon.left, mon.top, mon.Width(), halfHeight))
    else if direction == DownDirection then
      Some(FromXYWH(mon.left, mon.top + halfHeight, mon.Width(), halfHeight))
    else
      None
  }

  /** How far the measured window rectangle spills past the monitor's left edge. */
  function LeftSpill(rect: Rect, mon: Rect): nat
  {
    if rect.left < mon.left then mon.left - rect.left else 0
  }

  /**
   * The split rectangles with the border compensation measured from the
   * monitor's left edge: the reference the as-written split is compared
   * with. It differs from SplitRectAsWritten only in the compensation.
   */
  function SplitRect(rect: Rect, mon: Rect, direction: int): (r: Option<Rect>)
    ensures r.Some? <==> direction in {LeftDirection, RightDirection, UpDirection, DownDirection}
    ensures direction == LeftDirection ==>
      && r.value.left == rect.left && r.value.top == rect.top && r.value.Height() == rect.Height()
      && r.value.Width() == Quot(mon.Width(), 2) + LeftSpill(rect, mon)
    ensures direction == RightDirection ==>
      && r.value.left == mon.left + Quot(rect.Width(), 2) - LeftSpill(rect, mon)
      && r.value.top == rect.top && r.value.Height() == rect.Height()
      && r.value.Width() == Quot(mon.Width(), 2)
    ensures direction in {UpDirection, DownDirection} ==>
      && r.value.left == mon.left && r.value.Width() == mon.Width()
      && r.value.Height() == Quot(mon.Height(), 2)
    ensures direction == UpDirection ==> r.value.top == mon.top
    ensures direction == DownDirection ==> r.value.top == mon.top + Quot(mon.Height(), 2)
  {
    var halfWidth := Quot(mon.Width(), 2);
    var halfHeight := Quot(mon.Height(), 2);
    var spill := LeftSpill(rect, mon);
    if direction == LeftDirection then
      Some(FromXYWH(rect.left, rect.top, halfWidth + spill, rect.Height()))
    else if direction == RightDirection then
      Some(FromXYWH(mon.left + Quot(rect.Width(), 2) - spill, rect.top, halfWidth, rect.Height()))
    else if direction == UpDirection then
      Some(FromXYWH(mon.left, mon.top, mon.Width(), halfHeight))
    else if direction == DownDirection then
      Some(FromXYWH(mon.left, mon.top + halfHeight, mon.Width(), halfHeight))
    else
      None
  }

  /** On a monitor whose left edge is at x = 0 the two compensations agree. */
  lemma SplitAsWrittenAgreesAtOrigin(rect: Rect, mon: Rect, direction: int)
    requires mon.left == 0
    ensures SplitRectAsWritten(rect, mon, direction) == SplitRect(rect, mon, direction)
  {
  }

  /**
   * On a monitor left of the primary one, x in [-1920, 0), a maximized
   * window measured with an 8-pixel invisible border is split by the code
   * as written into a left half that reaches x = 960, on the next monitor,
   * and a right half that starts at x = -2880, off the monitor; the
   * corrected compensation puts both halves' shared edge at x = -960.
   */
  lemma SplitAsWrittenMisplacesOffOrigin()
    ensures var mon := Rect(-1920, 0, 0, 1080);
      var rect := Rect(-1928, -8, 8, 1088);
      && SplitRectAsWritten(rect, mon, LeftDirection).value.right == 960
      && SplitRectAsWritten(rect, mon, RightDirection).value.left == -2880
      && SplitRect(rect, mon, LeftDirection).value.right == -960
      && SplitRect(rect, mon, RightDirection).value.left == -960
  {
    assert Quot(1920, 2) == 960;
    assert Quot(1936, 2) == 968;
  }

  /**
   * As written, on a monitor whose left edge lies at or right of x = b (so
   * the measured left edge of a window maximized with border `b` is not
   * negative), nothing is compensated: the Left half ends `b` short of the
   * monitor's midpoint and the Right half starts `b` past it, leaving a
   * gap of `2b` between them.
   */
  lemma SplitAsWrittenGapRightOfOrigin(mon: Rect, b: nat, top: int, bottom: int)
    requires mon.Width() >= 0 && mon.left >= b
    ensures var rect := Rect(mon.left - b, top, mon.right + b, bottom);
      var l := SplitRectAsWritten(rect, mon, LeftDirection).value;
      var r := SplitRectAsWritten(rect, mon, RightDirection).value;
      && l.right == mon.left + Quot(mon.Width(), 2) - b
      && r.left == mon.left + Quot(mon.Width(), 2) + b
      && r.left - l.right == 2 * b
  {
    var w := mon.Width();
    QuotOfNonNegative(w, 2);
    QuotOfNonNegative(w + 2 * b, 2);
    assert (w + 2 * b) / 2 == w / 2 + b;
  }

  /**
   * As written, on a monitor where the window's measured left edge is
   * negative (a monitor at or left of x = 0), the Left half always ends at
   * x = monW/2, whatever the monitor's position, and the Right half starts
   * at `2 * mon.left + monW/2`; both are the monitor's midpoint only when
   * its left edge is at x = 0.
   */
  lemma SplitAsWrittenLeftOfOrigin(mon: Rect, b: nat, top: int, bottom: int)
    requires mon.Width() >= 0 && mon.left < b
    ensures var rect := Rect(mon.left - b, top, mon.right + b, bottom);
      var l := SplitRectAsWritten(rect, mon, LeftDirection).value;
      var r := SplitRectAsWritten(rect, mon, RightDirection).value;
      && l.right == Quot(mon.Width(), 2)
      && r.left == 2 * mon.left + Quot(mon.Width(), 2)
      && (l.right == mon.left + Quot(mon.Width(), 2) <==> mon.left == 0)
  {
    var w := mon.Width();
    QuotOfNonNegative(w, 2);
    QuotOfNonNegative(w + 2 * b, 2);
    assert (w + 2 * b) / 2 == w / 2 + b;
  }

  /**
   * For a window measured as the monitor grown by an invisible border `b`
   * on each side (how a maximized window reports itself), the Left and
   * Right halves meet at the monitor's midpoint, the Left half starts at
   * the window's outer left edge, and the Right half is half the monitor
   * wide, ending at the monitor's right edge when its width is even.
   */
  lemma SplitHalvesMeetAtMidpoint(mon: Rect, b: nat, top: int, bottom: int)
    requires mon.Width() >= 0
    ensures var rect := Rect(mon.left - b, top, mon.right + b, bottom);
      var l := SplitRect(rect, mon, LeftDirection).value;
      var r := SplitRect(rect, mon, RightDirection).value;
      && l.left == rect.left
      && l.right == mon.left + Quot(mon.Width(), 2) == r.left
      && r.right == mon.left + 2 * Quot(mon.Width(), 2)
      && (mon.Width() % 2 == 0 ==> r.right == mon.right)
  {
    var w := mon.Width();
    QuotOfNonNegative(w, 2);
    QuotOfNonNegative(w + 2 * b, 2);
    assert (w + 2 * b) / 2 == w / 2 + b;
  }

  /**
   * The Up and Down halves share their edge without overlapping, start at
   * the monitor's top and end at its bottom when its height is even (one
   * row short otherwise).
   */
  lemma SplitUpDownTile(rect: Rect, mon: Rect)
    requires mon.Height() >= 0
    ensures var up := SplitRectAsWritten(rect, mon, UpDirection).value;
      var down := SplitRectAsWritten(rect, mon, DownDirection).value;
      && up.top == mon.top && up.bottom == down.top
      && down.bottom <= mon.bottom
      && (down.bottom == mon.bottom <==> mon.Height() % 2 == 0)
      && up.left == down.left == mon.left && up.right == down.right == mon.right
  {
    QuotOfNonNegative(mon.Height(), 2);
  }

  // ---------------------------------------------------------------------
  // The window and the platform
  // ---------------------------------------------------------------------

  /** A call the engine issues that changes a window. */
  datatype Call = Restored | Maximized | Placed(rect: Rect)

  /** The answers of the platform calls an operation depends on. */
  datatype Platform = Platform(
    monitors: Option<seq<Monitor>>,  // EnumDisplayMonitors' monitors, None when the call fails
    placeSucceeds: bool,             // whether MoveWindow / SetWindowPos report success
    zoom: Rect)                      // the rectangle the OS gives the window when it maximizes it

  /** Why an operation stopped, or that it placed the window. */
  datatype Outcome =
    | NoForegroundWindow
    | QueryFailed
    | EnumerationFailed
    | SingleMonitorOnly
    | NoCurrentMonitor
    | NoMonitorInDirection
    | InvalidDirection
    | PlaceFailed
    | Moved

  /**
   * The foreground window as the engine sees it through the window API:
   * whether its placement and rectangle can be queried, its show state,
   * its restored and maximized rectangles, and the mutations issued on it.
   */
  class Window {
    var valid: bool
    var maximized: bool
    var normal: Rect
    var zoomed: Rect
    var calls: seq<Call>

    constructor (valid: bool, maximized: bool, normal: Rect, zoomed: Rect)
      ensures this.valid == valid && this.maximized == maximized
      ensures this.normal == normal && this.zoomed == zoomed && calls == []
    {
      this.valid := valid;
      this.maximized := maximized;
      this.normal := normal;
      this.zoomed := zoomed;
      calls := [];
    }

    /** GetWindowRect: the rectangle of the window in its current show state. */
    function Reported(): Rect
      reads this
    {
      if maximized then zoomed else normal
    }

    /** ShowWindow(SW_RESTORE). */
    method Restore()
      modifies this
      ensures !maximized && valid == old(valid) && normal == old(normal) && zoomed == old(zoomed)
      ensures calls == old(calls) + [Restored]
      ensures Reported() == normal
    {
      maximized := false;
      calls := calls + [Restored];
    }

    /** ShowWindow(SW_MAXIMIZE): the OS chooses the maximized rectangle `zoom`. */
    method Maximize(zoom: Rect)
      modifies this
      ensures maximized && valid == old(valid) && normal == old(normal) && zoomed == zoom
      ensures calls == old(calls) + [Maximized]
      ensures Reported() == zoom
    {
      maximized := true;
      zoomed := zoom;
      calls := calls + [Maximized];
    }

    /** A successful MoveWindow / SetWindowPos: the window takes `r` in its current show state. */
    method Place(r: Rect)
      modifies this
      ensures valid == old(valid) && maximized == old(maximized)
      ensures normal == (if maximized then old(normal) else r)
      ensures zoomed == (if maximized then r else old(zoomed))
      ensures calls == old(calls) + [Placed(r)]
      ensures Reported() == r
    {
      if maximized {
        zoomed := r;
      } else {
        normal := r;
      }
      calls := calls + [Placed(r)];
    }
  }

  // ---------------------------------------------------------------------
  // MoveActiveWindow
  // ---------------------------------------------------------------------

  /** What a move decides before it touches the window. */
  datatype MovePlan = Abort(reason: Outcome) | Go(current: Monitor, target: Monitor)

  /**
   * The decisions of a move, from the first measured rectangle and the
   * enumerated monitors: enumeration failure, fewer than two monitors, no
   * overlapped monitor, or no monitor in the direction abort; otherwise
   * the move goes from a monitor the window overlaps to a different one
   * inside the direction's cone.
   */
  function PlanMove(measured: Rect, monitors: Option<seq<Monitor>>, direction: int): (p: MovePlan)
    ensures p.Abort? ==> p.reason in {EnumerationFailed, SingleMonitorOnly, NoCurrentMonitor, NoMonitorInDirection}
    ensures monitors.Some? && |monitors.value| < 2 ==> p == Abort(SingleMonitorOnly)
    ensures p.Go? ==> monitors.Some? && |monitors.value| >= 2
    ensures p.Go? ==> p.current in monitors.value && Overlap(measured, p.current.rcMonitor) > 0
    ensures p.Go? ==> p.target in monitors.value && p.target.handle != p.current.handle
    ensures p.Go? ==> DirectionVector(direction).Some?
    ensures p.Go? ==> InCone(Offset2(p.current, p.target), DirectionVector(direction).value)
  {
    if monitors.None? then Abort(EnumerationFailed)
    else if |monitors.value| < 2 then Abort(SingleMonitorOnly)
    else
      match CurrentMonitor(measured, monitors.value)
      case None => Abort(NoCurrentMonitor)
      case Some(current) =>
        match TargetMonitor(monitors.value, current, direction)
        case None => Abort(NoMonitorInDirection)
        case Some(target) => Go(current, target)
  }

  /**
   * What window/window.go MoveActiveWindow does to the foreground window
   * `w` and reports. The current monitor is chosen from the rectangle
   * measured first (the maximized one, for a maximized window); a
   * maximized window is restored only once a target exists, re-measured,
   * moved, and maximized again only when the move succeeded. Every abort
   * before the restore leaves the window untouched.
   */
  twostate predicate MoveEffect(w: Window?, direction: int, sizeByPixel: bool, os: Platform, outcome: Outcome)
    reads w
  {
    && (w == null ==> outcome == NoForegroundWindow)
    && (w != null && !old(w.valid) ==> outcome == QueryFailed && unchanged(w))
    && (w != null && old(w.valid) && PlanMove(old(w.Reported()), os.monitors, direction).Abort? ==>
      outcome == PlanMove(old(w.Reported()), os.monitors, direction).reason && unchanged(w))
    && (w != null && old(w.valid) && PlanMove(old(w.Reported()), os.monitors, direction).Go? ==>
      var p := PlanMove(old(w.Reported()), os.monitors, direction);
      var dest := Destination(old(w.normal), p.current.rcMonitor, p.target.rcMonitor, sizeByPixel);
      var wasMaximized := old(w.maximized);
      && outcome == (if os.placeSucceeds then Moved else PlaceFailed)
      && w.valid
      && w.normal == (if os.placeSucceeds then dest else old(w.normal))
      && w.maximized == (wasMaximized && os.placeSucceeds)
      && w.zoomed == (if wasMaximized && os.placeSucceeds then os.zoom else old(w.zoomed))
      && w.calls == old(w.calls)
           + (if wasMaximized then [Restored] else [])
           + (if os.placeSucceeds then [Placed(dest)] else [])
           + (if wasMaximized && os.placeSucceeds then [Maximized] else []))
  }

  /** window/window.go MoveActiveWindow, with the effect `MoveEffect` states. */
  method MoveActiveWindow(w: Window?, direction: int, sizeByPixel: bool, os: Platform) returns (outcome: Outcome)
    modifies w
    ensures MoveEffect(w, direction, sizeByPixel, os, outcome)
  {
    if w == null {
      return NoForegroundWindow;
    }
    if !w.valid {
      return QueryFailed;
    }
    var maximized := w.maximized;
    var rect := w.Reported();
    if os.monitors.None? {
      return EnumerationFailed;
    }
    var monitors := os.monitors.value;
    if |monitors| < 2 {
      return SingleMonitorOnly;
    }
    var currentMonitor := FindCurrentMonitor(rect, monitors);
    if currentMonitor.None? {
      return NoCurrentMonitor;
    }
    var targetMonitor := FindTargetMonitor(monitors, currentMonitor.value, direction);
    if targetMonitor.None? {
      return NoMonitorInDirection;
    }
    if maximized {
      w.Restore();
    }
    rect := w.Reported();
    var dest := Destination(rect, currentMonitor.value.rcMonitor, targetMonitor.value.rcMonitor, sizeByPixel);
    if !os.placeSucceeds {
      return PlaceFailed;
    }
    w.Place(dest);
    if maximized {
      w.Maximize(os.zoom);
    }
    return Moved;
  }

  // ---------------------------------------------------------------------
  // SplitActiveWindow
  // ---------------------------------------------------------------------

  /** What a split decides from the rectangle measured after maximizing. */
  datatype SplitPlan = SplitAbort(reason: Outcome) | SplitTo(rect: Rect)

  /**
   * The decisions of a split, from the rectangle measured after maximizing:
   * enumeration failure, no overlapped monitor, or an unknown direction
   * abort, in that order; otherwise the window gets the as-written half of
   * the monitor it overlaps most.
   */
  function PlanSplit(measured: Rect, monitors: Option<seq<Monitor>>, direction: int): (p: SplitPlan)
    ensures p.SplitAbort? ==> p.reason in {EnumerationFailed, NoCurrentMonitor, InvalidDirection}
    ensures monitors.None? <==> p == SplitAbort(EnumerationFailed)
    ensures p == SplitAbort(InvalidDirection) ==> DirectionVector(direction).None?
    ensures p.SplitTo? ==> DirectionVector(direction).Some?
    ensures p.SplitTo? ==>
      && monitors.Some? && CurrentMonitor(measured, monitors.value).Some?
      && Overlap(measured, CurrentMonitor(measured, monitors.value).value.rcMonitor) > 0
  {
    if monitors.None? then SplitAbort(EnumerationFailed)
    else
      match CurrentMonitor(measured, monitors.value)
      case None => SplitAbort(NoCurrentMonitor)
      case Some(current) =>
        match SplitRectAsWritten(measured, current.rcMonitor, direction)
        case None => SplitAbort(InvalidDirection)
        case Some(r) => SplitTo(r)
  }

  /**
   * What window/window.go SplitActiveWindow does to the foreground window
   * `w` and reports. The window is first brought to a maximized state
   * (restored and maximized again if it was maximized, maximized
   * otherwise) so that its measured rectangle is the OS's maximized one;
   * then the monitors are enumerated, the current monitor chosen, and the
   * half rectangle set. Unlike a move, a split does not require two
   * monitors, and its aborts come after the maximize.
   */
  twostate predicate SplitEffect(w: Window?, direction: int, os: Platform, outcome: Outcome)
    reads w
  {
    && (w == null ==> outcome == NoForegroundWindow)
    && (w != null && !old(w.valid) ==> outcome == QueryFailed && unchanged(w))
    && (w != null && old(w.valid) ==>
      var p := PlanSplit(os.zoom, os.monitors, direction);
      var placed := p.SplitTo? && os.placeSucceeds;
      && outcome == (if p.SplitAbort? then p.reason else if os.placeSucceeds then Moved else PlaceFailed)
      && w.valid && w.maximized && w.normal == old(w.normal)
      && w.zoomed == (if placed then p.rect else os.zoom)
      && w.calls == old(w.calls)
           + (if old(w.maximized) then [Restored, Maximized] else [Maximized])
           + (if placed then [Placed(p.rect)] else []))
  }

  /** window/window.go SplitActiveWindow, with the effect `SplitEffect` states. */
  method SplitActiveWindow(w: Window?, direction: int, os: Platform) returns (outcome: Outcome)
    modifies w
    ensures SplitEffect(w, direction, os, outcome)
  {
    if w == null {
      return NoForegroundWindow;
    }
    if !w.valid {
      return QueryFailed;
    }
    if w.maximized {
      w.Restore();
      w.Maximize(os.zoom);
    } else {
      w.Maximize(os.zoom);
    }
    if os.monitors.None? {
      return EnumerationFailed;
    }
    var monitors := os.monitors.value;
    var rect := w.Reported();
    var currentMonitor := FindCurrentMonitor(rect, monitors);
    if currentMonitor.None? {
      return NoCurrentMonitor;
    }
    var split := SplitRectAsWritten(rect, currentMonitor.value.rcMonitor, direction);
    if split.None? {
      return InvalidDirection;
    }
    if !os.placeSucceeds {
      return PlaceFailed;
    }
    w.Place(split.value);
    return Moved;
  }
}
