/**
 * window/window-tracker.go: a table of window rectangles keyed by the
 * executable name of the window's process. Resolving a window handle to
 * that name is an operating-system query; it enters here as its answer,
 * `None` when the lookup failed.
 */
module Tracker {
  import opened Helpers
  import opened Monitors

  datatype TrackerError = ProcessLookupFailed | NoSavedSize(processName: string)

  datatype SizeResult = Found(rect: Rect) | NotFound(error: TrackerError)

  /** What GetWindowSize answers for a table and a process-name lookup. */
  function Lookup(sizes: map<string, Rect>, processName: Option<string>): (r: SizeResult)
    ensures processName.None? ==> r == NotFound(ProcessLookupFailed)
    ensures processName.Some? && processName.value !in sizes ==> r == NotFound(NoSavedSize(processName.value))
    ensures r.Found? <==> processName.Some? && processName.value in sizes
    ensures r.Found? ==> r.rect == sizes[processName.value]
  {
    match processName
    case None => NotFound(ProcessLookupFailed)
    case Some(name) =>
      if name in sizes then Found(sizes[name]) else NotFound(NoSavedSize(name))
  }

  /** A caller's `*RECT`: a rectangle others may go on changing after handing it over. */
  class RectRef {
    var left: int
    var top: int
    var right: int
    var bottom: int

    constructor (r: Rect)
      ensures Value() == r
    {
      left, top, right, bottom := r.left, r.top, r.right, r.bottom;
    }

    function Value(): Rect
      reads this
    {
      Rect(left, top, right, bottom)
    }
  }

  /** The package-level `processWindowSizes` table. */
  class WindowTracker {
    var processWindowSizes: map<string, Rect>

    constructor ()
      ensures processWindowSizes == map[]
    {
      processWindowSizes := map[];
    }

    /**
     * RecordWindowSize: stores a copy of `rect` under the process name,
     * replacing any earlier entry; a failed lookup leaves the table alone.
     */
    method RecordWindowSize(processName: Option<string>, rect: RectRef) returns (err: Option<TrackerError>)
      modifies this
      ensures processName.None? ==> err == Some(ProcessLookupFailed) && processWindowSizes == old(processWindowSizes)
      ensures processName.Some? ==>
        err.None? && processWindowSizes == old(processWindowSizes)[processName.value := rect.Value()]
    {
      if processName.None? {
        return Some(ProcessLookupFailed);
      }
      var savedRect := Rect(rect.left, rect.top, rect.right, rect.bottom);
      processWindowSizes := processWindowSizes[processName.value := savedRect];
      return None;
    }

    /** GetWindowSize: the saved rectangle, or why there is none. */
    method GetWindowSize(processName: Option<string>) returns (r: SizeResult)
      ensures r == Lookup(processWindowSizes, processName)
    {
      if processName.None? {
        return NotFound(ProcessLookupFailed);
      }
      var name := processName.value;
      if name !in processWindowSizes {
        return NotFound(NoSavedSize(name));
      }
      return Found(processWindowSizes[name]);
    }
  }

  /** Getting right after recording for the same process returns the recorded rectangle. */
  lemma RecordThenGet(sizes: map<string, Rect>, name: string, rect: Rect)
    ensures Lookup(sizes[name := rect], Some(name)) == Found(rect)
  {
  }

  /** Recording for one process does not change what another process gets. */
  lemma RecordLeavesOthers(sizes: map<string, Rect>, name: string, other: string, rect: Rect)
    requires other != name
    ensures Lookup(sizes[name := rect], Some(other)) == Lookup(sizes, Some(other))
  {
  }

  /** Two windows of the same process share one entry: the later record wins. */
  lemma LaterRecordWins(sizes: map<string, Rect>, name: string, first: Rect, second: Rect)
    ensures Lookup(sizes[name := first][name := second], Some(name)) == Found(second)
  {
  }

  /**
   * The table keeps a copy: a caller that records its rectangle and then
   * changes it still gets back what it recorded.
   */
  method RecordKeepsCopy(t: WindowTracker, name: string, rect: RectRef, changed: Rect) returns (r: SizeResult)
    modifies t, rect
    ensures rect.Value() == changed
    ensures r == Found(old(rect.Value()))
  {
    var err := t.RecordWindowSize(Some(name), rect);
    rect.left, rect.top, rect.right, rect.bottom := changed.left, changed.top, changed.right, changed.bottom;
    r := t.GetWindowSize(Some(name));
  }
}
