# telewindow — a verified model of the window-placement engine

telewindow moves the foreground window of a Windows desktop to the
neighbouring monitor in a direction, or tiles it onto half of its
monitor. It runs as a resident global-hotkey program (main.go) or as a
one-shot command (main_cli.go). This project models its engine in Dafny
and proves properties of the model:

- **Monitor topology** (`Monitors`, monitor.dfy):
  - the direction codes and their unit vectors;
  - monitor centres;
  - rectangle overlap;
  - the search for the nearest monitor within 45° of a direction. The
    `FindTargetMonitor` method keeps the source's two loops.
- **Placement** (`Placement`, window.dfy):
  - choosing the monitor a window is on, with the argmax loop kept as a
    method;
  - the pixel and percentage transforms between monitors;
  - the half-screen split arithmetic;
  - `MoveActiveWindow` and `SplitActiveWindow` as methods on a `Window`
    object. The object records the restore, place and maximize calls
    made on it, in order.
- **The resident program's hotkey loop and older move** (`Hotkeys`,
  hotkeys.dfy, and `Legacy`, legacy.dfy). The hook is a class holding
  the key-down map, stepped one keyboard event at a time.
- **Configured key chords** (`Config`, config.dfy): `KeyBinding.Down`.
- **The saved-size table** (`Tracker`, tracker.dfy): a class holding the
  map from process name to rectangle.
- **The command-line front end** (`Cli`, cli.dfy): a decision function
  from the arguments to an operation and an exit code, and a method that
  carries the operation out on the window.
- **Integer helpers** (`Helpers`, helpers.dfy): `max`, `min`, and the
  truncating division of Go.

Floating-point arithmetic is replaced by exact integer reasoning:
- centres are kept doubled (`left + right`, `top + bottom`);
- the cone test `dot(dir, v/|v|) >= cos 45°` becomes
  `d >= 0 && 2*d*d >= |v|²`, where `d` is the component of `v` along the
  direction;
- distances are compared squared;
- each percentage-scaled length is `x * to / from`, truncated toward zero
  as Go's `int32(...)` conversion does.

The operating system is a parameter:
- the foreground window is a `Window` object, or null when there is none;
- the results of monitor enumeration, of MoveWindow/SetWindowPos, and of
  the rectangle the OS gives a maximized window come in as a `Platform`
  value;
- the process name of a window comes in as an `Option<string>`.

Behaviour of the code worth noting:
- There is no debounce timer and no retry loop after SetWindowPos.
- The split's border compensation is `|rect.Left|` when `rect.Left < 0`,
  measured from x = 0 rather than from the monitor's left edge, and the
  right half starts half the window's width (not the monitor's) past the
  monitor's left edge. `SplitActiveWindow` places these halves as
  written; `SplitRect` is the corrected reference. See Findings.
- The hook's chords are hard-wired to Ctrl+arrow, not read from the
  configured bindings.
- An unknown command exits with 1 and does not print the usage.
- Running with no command prints the usage and exits with 0.

## Model

| member | source | states |
|---|---|---|
| Helpers.Max | window/helpers.go:11-16 | the result is at least both arguments and is one of them |
| Helpers.Min | window/helpers.go:18-23 | the result is at most both arguments and is one of them |
| Helpers.MinAtMostMax | monitor.go:110-122 | `min(a,b) <= max(a,b)` |
| Helpers.Quot | window/window.go:303-315 | Go's integer `/`: the magnitude is the floor of the magnitudes' quotient, and the sign is that of the exact quotient |
| Monitors.DirectionVector | window/monitor.go:43-48 | exactly the codes -1, 1, -2, 2 have vectors. Each vector is a unit axis vector: horizontal for magnitude 1, vertical for magnitude 2, pointing toward growing coordinates for positive codes |
| Monitors.DirectionOpposite | window/monitor.go:43-48 | negating a code negates its vector |
| Monitors.Center2 | window/monitor.go:50-54 | the doubled centre is equidistant from both edges on each axis |
| Monitors.Overlap | window/monitor.go:56-66 | the overlap is never negative, and it is positive only when both rectangles have positive width and height |
| Monitors.OverlapSymmetric | monitor.go:98-108 | the overlap does not depend on argument order |
| Monitors.OverlapZeroWhenApart | monitor.go:104-107 | rectangles that only touch, or are apart, overlap by 0 |
| Monitors.OverlapOfContained | window/monitor.go:56-66 | a window inside a monitor overlaps it by its whole width × height |
| Monitors.OverlapPositiveIff | monitor.go:98-108 | the overlap is positive iff the rectangles' interiors intersect |
| Monitors.ConeIsQuarterPlane | window/monitor.go:154-169 | the 45° cone test accepts exactly the quarter-plane of the direction. For example, right means `x >= |y|` |
| Monitors.TargetMonitor | window/monitor.go:134-193 | an unknown direction gives no target. A target is an enumerated monitor with a different handle and a different centre, inside the direction's cone |
| Monitors.TargetNoneIffNoCandidate | window/monitor.go:172-175 | there is no target iff no monitor passes the handle, zero-offset and cone tests |
| Monitors.TargetIsNearest | window/monitor.go:178-190 | the target's centre distance is minimal among all candidates |
| Monitors.TargetIsEarliestNearest | window/monitor.go:178-190 | every candidate before the target is strictly farther, so ties go to the earliest |
| Monitors.NearestOfCandidates | window/monitor.go:140-190 | filtering the candidates and then taking the first nearest equals the one-pass search |
| Monitors.FindTargetMonitor | window/monitor.go:134-193 | the two loops, candidate collection and strict-`<` minimum, return `TargetMonitor` |
| Placement.CurrentMonitor | window/window.go:109-123 | the chosen monitor is enumerated, overlaps the window, and has positive width and height |
| Placement.CurrentNoneIffNoOverlap | window/window.go:109-123 | there is no current monitor iff every overlap is 0 |
| Placement.CurrentHasLargestOverlap | window/window.go:112-118 | the current monitor's overlap is the largest |
| Placement.CurrentIsFirstLargest | window/window.go:112-118 | every earlier monitor overlaps strictly less, so ties go to the first |
| Placement.FindCurrentMonitor | window/window.go:109-123 | the argmax loop, with the running maximum starting at 0 and strict `>`, returns `CurrentMonitor` |
| Placement.FromXYWH | window/window.go:213-220 | MoveWindow's x, y, width and height become a rectangle with that corner and size |
| Placement.Scale | window/window.go:184-193 | equal source and target dimensions give the length back; a zero length stays zero; a non-negative product over a positive dimension gives a non-negative length |
| Placement.Destination | window/window.go:159-194 | pixel mode keeps the size and the offset from the monitor's top-left corner. Percentage mode makes the size and offset the truncated fractions of the source monitor's dimensions times the target's |
| Placement.PercentageBetweenEqualSizes | window/window.go:170-194 | between monitors of equal size, the percentage transform equals the pixel transform |
| Placement.ScaleRoundTrip | window/window.go:170-194 | scaling a length up and back down loses at most one pixel and never grows it |
| Placement.PercentageRoundTrip | window/window.go:170-194 | a percentage move onto a larger monitor and back restores the offsets and size to within one pixel |
| Placement.PercentageUpscaleExample | window/window.go:170-194 | the middle quarter of a 1920×1080 monitor maps to the middle quarter of a 3840×2160 monitor |
| Placement.PercentageDownscaleExample | window/window.go:170-194 | that rectangle maps back exactly |
| Placement.SplitRectAsWritten | window/window.go:295-334 | the split the code computes. Left keeps the window's left, top and height, and is half the monitor wide plus `|rect.left|` when `rect.left < 0`. Right keeps the window's top and height, is half the monitor wide, and starts at the monitor's left plus half the window's width, minus that same spill. Up and Down span the monitor's width at half its height, from its top and from its middle. Other codes give nothing |
| Placement.SplitRect | window/window.go:295-334 | the corrected split of Findings: as `SplitRectAsWritten`, but the spill is measured past the monitor's own left edge. Left is half the monitor wide plus that spill; Right starts at the monitor's left plus half the window's width minus that spill |
| Placement.SplitAsWrittenAgreesAtOrigin | window/window.go:295-318 | on a monitor at x = 0, the compensation as written equals the corrected one |
| Placement.SplitAsWrittenMisplacesOffOrigin | window/window.go:295-318 | on the monitor left of the primary, the code as written misplaces both halves |
| Placement.SplitAsWrittenGapRightOfOrigin | window/window.go:295-318 | on a monitor right of x = 0 with a maximized window of border b, the code's left half ends b short of the midpoint and its right half starts b past it, leaving a 2b gap |
| Placement.SplitAsWrittenLeftOfOrigin | window/window.go:295-318 | when the window's left edge is negative, the code's left half ends at half the monitor width in absolute x, which is the monitor's midpoint only when the monitor starts at x = 0 |
| Placement.SplitHalvesMeetAtMidpoint | window/window.go:295-318 | for a maximized window with border b, Left and Right meet at the monitor's midpoint. Right ends at the monitor's right edge when the width is even |
| Placement.SplitUpDownTile | window/window.go:319-330 | Up and Down share an edge without overlapping and start at the monitor's top. Down ends at the bottom iff the height is even |
| Placement.Window.Restore | window/windowHelpers.go:167-214 | the window leaves the maximized state with its normal rectangle, and a restore call is recorded |
| Placement.Window.Maximize | window/windowHelpers.go:118-165 | the window is maximized with the OS-chosen rectangle, and a maximize call is recorded |
| Placement.Window.Place | window/window.go:211-224 | the window takes the rectangle in its current show state, and a place call is recorded |
| Placement.PlanSplit | window/window.go:257-334 | the abort reasons of a split are enumeration failure, no current monitor and an invalid direction; enumeration fails iff the monitors are missing. A split goes ahead only for a valid direction on a monitor the maximized window overlaps |
| Placement.PlanMove | window/window.go:97-132 | the abort reasons, and an abort when there are fewer than two monitors. Otherwise the move goes from an overlapped monitor to a different monitor inside the cone of a valid direction |
| Placement.MoveActiveWindow | window/window.go:77-232 | through `MoveEffect`: every abort before the restore leaves the window unchanged. A maximized window is restored, then re-measured; the transform uses the restored rectangle. The window is re-maximized only after a successful move. The full call sequence and the new state are stated |
| Placement.SplitActiveWindow | window/window.go:234-364 | through `SplitEffect`: the window is maximized first (restored and re-maximized if it was maximized). The split uses the maximized rectangle and places the half `SplitRectAsWritten` computes. SetWindowPos is issued only for a valid direction on an overlapped monitor. The outcome, the full call sequence and the new state are stated |
| Hotkeys.Chord | main.go:248-260 | at most one move: with Ctrl held, the first held arrow in the order Right, Left, Up, Down |
| Hotkeys.NextKeys | main.go:239-264 | a key-down marks the event's key down, WM_KEYUP marks it up, any other message changes nothing, and no other key changes |
| Hotkeys.Fires | main.go:242-260 | a move fires only on a fresh key-down with VK_LCONTROL or VK_RCONTROL already down; a fresh Right under Ctrl fires Right |
| Hotkeys.Replay | main.go:234-265 | replaying a sequence of events gives one answer per event, and every fired move answers a key-down message |
| Hotkeys.KeyboardHook.HandleEvent | main.go:234-265 | one event updates the key-down map and returns the move it fires, as `NextKeys` and `Fires` say |
| Hotkeys.FirstDownMarksKey | main.go:239-246 | a key-down for a key not yet down marks it down and leaves other keys alone |
| Hotkeys.RepeatedDownIgnored | main.go:244 | auto-repeat changes nothing and fires nothing |
| Hotkeys.KeyUpReleases | main.go:261-264 | WM_KEYUP for a down key marks it up, leaves other keys alone, and fires nothing |
| Hotkeys.OtherMessagesIgnored | main.go:239-240 | any other message, WM_SYSKEYUP included, changes nothing and fires nothing |
| Hotkeys.CtrlReadBeforeRecording | main.go:242-246 | without VK_LCONTROL or VK_RCONTROL already down, nothing fires. Pressing Ctrl while an arrow is held fires nothing |
| Hotkeys.CtrlArrowFires | main.go:244-252 | with Ctrl down, a fresh arrow press fires a move; a fresh Right fires Right |
| Hotkeys.SysKeyUpLeavesArrowHeld | main.go:239-264 | after Alt+Right is released (WM_SYSKEYUP), Right stays down, so Ctrl plus any key later fires a move right |
| Legacy.MoveActiveWindow | main.go:77-188 | through `LegacyMoveEffect`: the older move never restores or maximizes. Aborts, including fewer than two monitors, leave the window unchanged. A successful move is one MoveWindow to the percentage-transformed rectangle. The target search is taken to be the window package's (see Left out) |
| Legacy.HookEvent | main.go:234-265 | an event updates the key map as the hook does, and calls a move exactly when a chord fires; the window's new state and the outcome are then those `LegacyMoveEffect` states for the fired direction. The window is unchanged otherwise |
| Config.Down | window/config.go:27-44 | a binding is down only when its key is held, and then Ctrl is held (generic, left or right) exactly when the binding asks for it |
| Config.DownExactly | window/config.go:27-44 | a binding is down iff each modifier is held exactly when it is asked for, and its key is held. Each modifier counts through its generic, left or right code |
| Config.ExtraModifierDefeats | window/config.go:31-39 | a held modifier that the binding does not name makes the binding not down |
| Config.MissingModifierDefeats | window/config.go:31-39 | a named modifier that is not held makes the binding not down |
| Config.AbsentKeyReadsAsUp | window/config.go:28-30 | a key missing from the map reads as released |
| Config.ControlKeyWithoutCtrlNeverDown | window/config.go:28-40 | a binding without Ctrl whose key is a control key is never down |
| Config.CtrlAltRightIsNotCtrlRight | window/config.go:27-44 | Ctrl+Alt+Right does not match a Ctrl+Right binding; Ctrl+Right does |
| Tracker.Lookup | window/window-tracker.go:87-102 | a failed process lookup and a missing entry are errors. Otherwise the saved rectangle is returned |
| Tracker.WindowTracker.RecordWindowSize | window/window-tracker.go:62-84 | a failed lookup is an error and leaves the table unchanged. Otherwise the rectangle's current value is stored under the process name |
| Tracker.WindowTracker.GetWindowSize | window/window-tracker.go:87-102 | the answer is `Lookup` of the table |
| Tracker.RecordThenGet | window/window-tracker.go:79-101 | getting right after recording returns the recorded rectangle |
| Tracker.RecordLeavesOthers | window/window-tracker.go:79 | recording for one process leaves other processes' entries as they were |
| Tracker.LaterRecordWins | window/window-tracker.go:79 | a second record for the same process overwrites the first |
| Tracker.RecordKeepsCopy | window/window-tracker.go:71-79 | changing the caller's rectangle after recording does not change the entry |
| Cli.Dispatch | main_cli.go:47-92 | the exit code is 0 or 1, and 1 exactly for an unknown command or a failed query; usage iff there is no command; moves and splits carry valid direction codes; an unknown command carries the first argument |
| Cli.NoCommandShowsUsage | main_cli.go:29-45 | with no command: usage, no window operation, exit 0 |
| Cli.OnlyFirstArgumentMatters | main_cli.go:47 | only the first argument after the program name decides the operation |
| Cli.CommandRoundTrip | main_cli.go:51-71 | each move, split, maximize, restore and no-op command dispatches to its own operation with exit 0 |
| Cli.DispatchInvertsCommand | main_cli.go:51-92 | every exit-0 dispatch other than the toggle came from that operation's command. Moves and splits carry valid direction codes |
| Cli.ToggleMaximize | main_cli.go:72-82 | the toggle restores a maximized window and maximizes any other. A failed query exits with 1 |
| Cli.ExitCodeOneIffFailure | main_cli.go:83-92 | the exit code is 0 or 1. It is 1 exactly for an unknown command or a failed toggle query |
| Cli.QueryMaximized | window/windowHelpers.go:56-85 | the query answers iff there is a window it can inspect, and the answer is the window's maximized state |
| Cli.Run | main_cli.go:15-93 | the exit code is the dispatch's. A move or split reports an outcome, and the window's new state and that outcome are those `MoveEffect` and `SplitEffect` state. Usage, no-op, unknown and failed-toggle leave the window unchanged. Maximize and restore make no query: they change the show state of any foreground window, and do nothing only when there is none |

## Left out

- Windows API calls become parameters: GetForegroundWindow, GetWindowRect, EnumDisplayMonitors/GetMonitorInfo, MoveWindow/SetWindowPos, ShowWindow, GetWindowPlacement and GetProcessName. Their answers are the `Window` object, the `Platform` value and the `Option` process name.
- The Window model does not capture some OS failures:
  - it does not model ShowWindow failing;
  - it does not model GetWindowRect failing on its second call;
  - a restore, maximize or place call always takes effect.
- DWM composition checks and the transition toggling around ShowWindow are left out. They affect only animation.
- The channel and signal `select` loop, and installing and removing the hook, are left out. The model steps one keyboard event at a time.
- The mutex guarding the saved-size table is left out. The model is sequential.
- JSON configuration loading, logging, the administrator check and relaunch are left out. They are I/O unrelated to placement.
- Placement.Destination: does not model IEEE rounding. The model truncates the exact rational value. For a fraction that lands on an integer boundary, the source's float product can fall just below the boundary and truncate one lower.
- Monitors.TargetMonitor: does not model that the source compares against the float `cos(pi/4)`, which lies slightly above 1/√2. A monitor at exactly 45° is a candidate in the model but may be rejected by the source.
- Monitors.FindTargetMonitor: does not model Go's loop-variable semantics. The source stores `&monitor` and `&m` from `range` loops. This is the intended argmin/argmax only under per-iteration loop variables (Go 1.22 and later); the model states that intended result.
- Placement.FindCurrentMonitor: does not model Go's loop-variable semantics either. The source stores `&m` from its `range` loop, which is the intended argmax only under per-iteration loop variables (Go 1.22 and later); the model states that intended result.
- Coordinates are unbounded integers. int32 overflow of the edge sums, differences and products is not modelled. The int64 widening in the overlap is modelled as exact multiplication.
- Legacy.MoveActiveWindow: the package-main `findTargetMonitor` that main.go calls is not part of this model. The model assumes it behaves like the window package's cone search (`Monitors.TargetMonitor`); it cannot be the same code word for word, since package main's `Monitor` has no centre field. The package-main overlap (monitor.go:98-108) is the same arithmetic as `Monitors.Overlap`.
- Tracker.WindowTracker.GetWindowSize: returns the rectangle's value. The source returns the stored pointer itself, so a caller that writes through it changes the table. That aliasing is not modelled.
- main_cli.go calls `MaximizeActiveWindow` and `RestoreActiveWindow` with one argument where the functions take two. Cli.Run treats each call as a plain maximize or restore.
- Commented-out code in window/window.go is not live and is not modelled. This covers the saved-rectangle bookkeeping and the shrink-on-restore step.

## Findings

| source | as written | input that shows it | evidently intended | confidence | as-written member | corrected member |
|---|---|---|---|---|---|---|
| window/window.go:295-318 | The Left and Right splits compensate the invisible border by `|rect.Left|` whenever `rect.Left < 0`. This measures the overhang from x = 0, not from the monitor's left edge. | Monitor (-1920, 0, 0, 1080) left of the primary, with the maximized window measured as (-1928, -8, 8, 1088). The left half's right edge lands at x = 960, on the primary monitor. The right half starts at x = -2880, off every monitor. | Compensate by the overhang past the monitor's own left edge (`mon.left - rect.left` when positive). Both halves then meet at x = -960. | high, not executed | Placement.SplitRectAsWritten, Placement.SplitAsWrittenMisplacesOffOrigin, Placement.SplitAsWrittenLeftOfOrigin | Placement.SplitRect, Placement.SplitHalvesMeetAtMidpoint |
| window/window.go:307-318 | The Right split starts at the monitor's left plus half the window's width, and the Left split ends where its width from the window's left takes it; neither uses the monitor's own overhang. | Monitor (1920, 0, 3840, 1080) right of the primary, with the maximized window measured as (1912, -8, 3848, 1088). The left half ends at x = 2872 and the right half starts at x = 2888, leaving a 16-pixel gap. | Both halves meet at the monitor's midpoint, x = 2880. | high, not executed | Placement.SplitRectAsWritten, Placement.SplitAsWrittenGapRightOfOrigin | Placement.SplitRect, Placement.SplitHalvesMeetAtMidpoint |
