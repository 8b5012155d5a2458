/**
 * main_cli.go: the one-shot command-line front end. Only the first
 * argument after the program name is read; it selects one operation on
 * the foreground window, and the process exits with 0 unless the command
 * is unknown or the maximized-state query of -ToggleMaximize failed.
 */
module Cli {
  import opened Helpers
  import opened Monitors
  import opened Placement

  datatype Operation =
    | ShowUsage
    | MoveWindow(direction: int)
    | SplitWindow(direction: int)
    | MaximizeWindow
    | RestoreWindow
    | NoOperation
    | QueryError
    | UnknownCommand(command: string)

  datatype Invocation = Invocation(op: Operation, exitCode: int)

  /**
   * The decision for `os.Args` (program name first). `maximized` is the
   * answer of the maximized-state query, `None` when it failed; only
   * -ToggleMaximize asks it.
   */
  function Dispatch(args: seq<string>, maximized: Option<bool>): (r: Invocation)
    ensures r.exitCode in {0, 1}
    ensures r.exitCode == 1 <==> r.op.UnknownCommand? || r.op == QueryError
    ensures r.op == ShowUsage <==> |args| < 2
    ensures r.op.MoveWindow? || r.op.SplitWindow? ==>
      r.op.direction in {LeftDirection, RightDirection, UpDirection, DownDirection}
    ensures r.op.UnknownCommand? ==> |args| >= 2 && r.op.command == args[1]
    ensures r.op == QueryError ==> maximized.None?
  {
    if |args| < 2 then Invocation(ShowUsage, 0)
    else
      var command := args[1];
      if command == "-Right" then Invocation(MoveWindow(RightDirection), 0)
      else if command == "-Left" then Invocation(MoveWindow(LeftDirection), 0)
      else if command == "-Up" then Invocation(MoveWindow(UpDirection), 0)
      else if command == "-Down" then Invocation(MoveWindow(DownDirection), 0)
      else if command == "-Maximize" then Invocation(MaximizeWindow, 0)
      else if command == "-Restore" then Invocation(RestoreWindow, 0)
      else if command == "-SplitRight" then Invocation(SplitWindow(RightDirection), 0)
      else if command == "-SplitLeft" then Invocation(SplitWindow(LeftDirection), 0)
      else if command == "-SplitUp" then Invocation(SplitWindow(UpDirection), 0)
      else if command == "-SplitDown" then Invocation(SplitWindow(DownDirection), 0)
      else if command == "-ToggleMaximize" then
        match maximized
        case None => Invocation(QueryError, 1)
        case Some(true) => Invocation(RestoreWindow, 0)
        case Some(false) => Invocation(MaximizeWindow, 0)
      else if command == "-NoOp" then Invocation(NoOperation, 0)
      else Invocation(UnknownCommand(command), 1)
  }

  /** The command that asks for a window operation directly, if there is one. */
  function CommandFor(op: Operation): (c: Option<string>)
    ensures c.Some? ==> |c.value| > 1 && c.value[0] == '-'
  {
    match op
    case MoveWindow(d) =>
      if d == RightDirection then Some("-Right")
      else if d == LeftDirection then Some("-Left")
      else if d == UpDirection then Some("-Up")
      else if d == DownDirection then Some("-Down")
      else None
    case SplitWindow(d) =>
      if d == RightDirection then Some("-SplitRight")
      else if d == LeftDirection then Some("-SplitLeft")
      else if d == UpDirection then Some("-SplitUp")
      else if d == DownDirection then Some("-SplitDown")
      else None
    case MaximizeWindow => Some("-Maximize")
    case RestoreWindow => Some("-Restore")
    case NoOperation => Some("-NoOp")
    case _ => None
  }

  /** Without a command the usage is shown and the exit code is 0. */
  lemma NoCommandShowsUsage(args: seq<string>, maximized: Option<bool>)
    requires |args| < 2
    ensures Dispatch(args, maximized) == Invocation(ShowUsage, 0)
  {
  }

  /** Only the first argument after the program name matters; the program name and the rest are ignored. */
  lemma OnlyFirstArgumentMatters(args: seq<string>, other: seq<string>, maximized: Option<bool>)
    requires |args| >= 2 && |other| >= 2 && args[1] == other[1]
    ensures Dispatch(args, maximized) == Dispatch(other, maximized)
  {
  }

  /** Every operation that has a command is what that command dispatches to, with exit code 0, whatever the query says. */
  lemma CommandRoundTrip(program: string, op: Operation, maximized: Option<bool>)
    requires CommandFor(op).Some?
    ensures Dispatch([program, CommandFor(op).value], maximized) == Invocation(op, 0)
  {
  }

  /**
   * Conversely, every successful dispatch of a command other than the
   * toggle came from the command of its operation, and every move or
   * split carries one of the four direction codes.
   */
  lemma DispatchInvertsCommand(args: seq<string>, maximized: Option<bool>)
    requires |args| >= 2 && args[1] != "-ToggleMaximize"
    requires Dispatch(args, maximized).exitCode == 0
    ensures CommandFor(Dispatch(args, maximized).op) == Some(args[1])
    ensures Dispatch(args, maximized).op.MoveWindow? || Dispatch(args, maximized).op.SplitWindow? ==>
      DirectionVector(Dispatch(args, maximized).op.direction).Some?
  {
    var inv := Dispatch(args, maximized);
    if inv.op.MoveWindow? || inv.op.SplitWindow? {
      assert inv.op.direction in {RightDirection, LeftDirection, UpDirection, DownDirection};
    }
  }

  /** -ToggleMaximize restores a maximized window, maximizes any other, and exits 1 when the query fails. */
  lemma ToggleMaximize(program: string, maximized: Option<bool>)
    ensures var inv := Dispatch([program, "-ToggleMaximize"], maximized);
      && (maximized == Some(true) ==> inv == Invocation(RestoreWindow, 0))
      && (maximized == Some(false) ==> inv == Invocation(MaximizeWindow, 0))
      && (maximized.None? ==> inv.exitCode == 1)
  {
  }

  /** The exit code is 1 exactly for an unknown command or a failed toggle query. */
  lemma ExitCodeOneIffFailure(args: seq<string>, maximized: Option<bool>)
    ensures Dispatch(args, maximized).exitCode in {0, 1}
    ensures Dispatch(args, maximized).exitCode == 1 <==>
      |args| >= 2 &&
      (Dispatch(args, maximized).op.UnknownCommand? || (args[1] == "-ToggleMaximize" && maximized.None?))
  {
  }

  /** The maximized-state query as the window answers it. */
  function QueryMaximized(w: Window?): (q: Option<bool>)
    reads w
    ensures q.Some? <==> w != null && w.valid
    ensures q.Some? ==> q.value == w.maximized
  {
    if w == null || !w.valid then None else Some(w.maximized)
  }

  /**
   * main_cli.go main: dispatch, then carry out the operation on the
   * foreground window `w` (null when there is none). MaximizeActiveWindow
   * and RestoreActiveWindow query nothing: they show any foreground window
   * maximized or restored, and do nothing only when there is none.
   * `outcome` is what a move or a split reports; the other operations
   * report nothing.
   */
  method Run(args: seq<string>, w: Window?, os: Platform, sizeByPixel: bool)
    returns (exitCode: int, outcome: Option<Outcome>)
    modifies w
    ensures exitCode == Dispatch(args, old(QueryMaximized(w))).exitCode
    ensures var op := Dispatch(args, old(QueryMaximized(w))).op;
      outcome.Some? <==> op.MoveWindow? || op.SplitWindow?
    ensures var op := Dispatch(args, old(QueryMaximized(w))).op;
      op.MoveWindow? ==> outcome.Some? && MoveEffect(w, op.direction, sizeByPixel, os, outcome.value)
    ensures var op := Dispatch(args, old(QueryMaximized(w))).op;
      op.SplitWindow? ==> outcome.Some? && SplitEffect(w, op.direction, os, outcome.value)
    ensures var op := Dispatch(args, old(QueryMaximized(w))).op;
      !(op.MoveWindow? || op.SplitWindow? || op.MaximizeWindow? || op.RestoreWindow?) && w != null ==> unchanged(w)
    ensures Dispatch(args, old(QueryMaximized(w))).op == MaximizeWindow && w != null ==>
      && w.maximized && w.valid == old(w.valid) && w.zoomed == os.zoom && w.normal == old(w.normal)
      && w.calls == old(w.calls) + [Maximized]
    ensures Dispatch(args, old(QueryMaximized(w))).op == RestoreWindow && w != null ==>
      && !w.maximized && w.valid == old(w.valid) && w.zoomed == old(w.zoomed) && w.normal == old(w.normal)
      && w.calls == old(w.calls) + [Restored]
  {
    var inv := Dispatch(args, QueryMaximized(w));
    outcome := None;
    match inv.op {
      case MoveWindow(d) =>
        var o := MoveActiveWindow(w, d, sizeByPixel, os);
        outcome := Some(o);
      case SplitWindow(d) =>
        var o := SplitActiveWindow(w, d, os);
        outcome := Some(o);
      case MaximizeWindow =>
        if w != null {
          w.Maximize(os.zoom);
        }
      case RestoreWindow =>
        if w != null {
          w.Restore();
        }
      case _ =>
    }
    exitCode := inv.exitCode;
  }
}
