/**
 * The move of the resident hotkey program (main.go): an older
 * MoveActiveWindow that neither queries nor restores a maximized window,
 * and the hook step that calls it.
 */
module Legacy {
  import opened Helpers
  import opened Monitors
  import opened Placement
  import opened Hotkeys

  /** `PixelBased` in main.go: moves scale by percentage. */
  const PixelBased: bool := false

  /**
   * What main.go MoveActiveWindow does to the foreground window `w` and
   * reports. The rectangle measured is the one the window reports in its
   * present show state. Fewer than two monitors, no overlapped monitor
   * and no monitor in the direction abort. The package-main target search
   * is not part of this model; it is taken to behave like the window
   * package's cone search (`PlanMove`). A successful move is a single
   * MoveWindow: a maximized window is never restored or re-maximized.
   */
  twostate predicate LegacyMoveEffect(w: Window?, direction: int, os: Platform, outcome: Outcome)
    reads w
  {
    && (w == null ==> outcome == NoForegroundWindow)
    && (w != null && !old(w.valid) ==> outcome == QueryFailed && unchanged(w))
    && (w != null && old(w.valid) && PlanMove(old(w.Reported()), os.monitors, direction).Abort? ==>
      outcome == PlanMove(old(w.Reported()), os.monitors, direction).reason && unchanged(w))
    && (w != null && old(w.valid) && PlanMove(old(w.Reported()), os.monitors, direction).Go? ==>
      var p := PlanMove(old(w.Reported()), os.monitors, direction);
      var dest := Destination(old(w.Reported()), p.current.rcMonitor, p.target.rcMonitor, PixelBased);
      && outcome == (if os.placeSucceeds then Moved else PlaceFailed)
      && w.valid == old(w.valid) && w.maximized == old(w.maximized)
      && w.Reported() == (if os.placeSucceeds then dest else old(w.Reported()))
      && (w.maximized ==> w.normal == old(w.normal))
      && (!w.maximized ==> w.zoomed == old(w.zoomed))
      && w.calls == old(w.calls) + (if os.placeSucceeds then [Placed(dest)] else []))
  }

  /** main.go MoveActiveWindow, with the effect `LegacyMoveEffect` states. */
  method MoveActiveWindow(w: Window?, direction: int, os: Platform) returns (outcome: Outcome)
    modifies w
    ensures LegacyMoveEffect(w, direction, os, outcome)
  {
    if w == null {
      return NoForegroundWindow;
    }
    if !w.valid {
      return QueryFailed;
    }
    var rect := w.Reported();
    if os.monitors.None? {
      return EnumerationFailed;
    }
    var monitors := os.monitors.value;
    if |monitors| < 2 {
      return SingleMonitorOnly;
    }
    var currentMonitor := FindCurrentMonitor(rect, monitors);
    if currentMonitor.None? {
      return NoCurrentMonitor;
    }
    var targetMonitor := FindTargetMonitor(monitors, currentMonitor.value, direction);
    if targetMonitor.None? {
      return NoMonitorInDirection;
    }
    var dest := Destination(rect, currentMonitor.value.rcMonitor, targetMonitor.value.rcMonitor, PixelBased);
    if !os.placeSucceeds {
      return PlaceFailed;
    }
    w.Place(dest);
    return Moved;
  }

  /**
   * One event of main.go keyboardHook: the hook records the event and,
   * when it fires a chord, moves the foreground window in that direction,
   * with the effect and outcome `LegacyMoveEffect` states. Nothing but the
   * key map changes when no chord fires.
   */
  method HookEvent(hook: KeyboardHook, msg: string, key: string, w: Window?, os: Platform)
    returns (fired: Option<int>, outcome: Option<Outcome>)
    modifies hook, w
    ensures hook.keyDownMap == NextKeys(old(hook.keyDownMap), msg, key)
    ensures fired == Fires(old(hook.keyDownMap), msg, key)
    ensures outcome.Some? <==> fired.Some?
    ensures fired.None? && w != null ==> unchanged(w)
    ensures fired.Some? ==> outcome.Some? && LegacyMoveEffect(w, fired.value, os, outcome.value)
  {
    fired := hook.HandleEvent(msg, key);
    outcome := None;
    if fired.Some? {
      var o := MoveActiveWindow(w, fired.value, os);
      outcome := Some(o);
    }
  }
}
