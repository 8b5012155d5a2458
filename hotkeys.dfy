/**
 * The per-event step of `keyboardHook` in main.go: a key-down map that
 * suppresses auto-repeat, and the hard-wired Ctrl+arrow chords that fire
 * at most one move per event, in the order Right, Left, Up, Down.
 *
 * Messages and virtual-key codes arrive as the strings `fmt.Sprint` makes
 * of them. A key missing from the map reads as up, as Go's zero `false`.
 */
module Hotkeys {
  import opened Helpers
  import opened Monitors

  const WM_KEYDOWN: string := "WM_KEYDOWN"
  const WM_KEYUP: string := "WM_KEYUP"
  const WM_SYSKEYDOWN: string := "WM_SYSKEYDOWN"
  const WM_SYSKEYUP: string := "WM_SYSKEYUP"
  const VK_LEFT: string := "VK_LEFT"
  const VK_RIGHT: string := "VK_RIGHT"
  const VK_UP: string := "VK_UP"
  const VK_DOWN: string := "VK_DOWN"
  const VK_CONTROL: string := "VK_CONTROL"
  const VK_LCONTROL: string := "VK_LCONTROL"
  const VK_RCONTROL: string := "VK_RCONTROL"

  /** `keyDownMap[k]`: true only for a key present and marked down. */
  predicate IsDown(keys: map<string, bool>, k: string)
  {
    k in keys && keys[k]
  }

  /** Ctrl as the hook reads it: only the left or right control key counts. */
  predicate CtrlDown(keys: map<string, bool>)
  {
    IsDown(keys, VK_LCONTROL) || IsDown(keys, VK_RCONTROL)
  }

  predicate IsDownMessage(msg: string)
  {
    msg == WM_KEYDOWN || msg == WM_SYSKEYDOWN
  }

  /**
   * The move a key-down fires: with Ctrl held, the first held arrow in the
   * order Right, Left, Up, Down; nothing otherwise.
   */
  function Chord(ctrlDown: bool, keys: map<string, bool>): (d: Option<int>)
    ensures d.Some? <==> (ctrlDown &&
      (IsDown(keys, VK_RIGHT) || IsDown(keys, VK_LEFT) || IsDown(keys, VK_UP) || IsDown(keys, VK_DOWN)))
    ensures d == Some(RightDirection) <==> ctrlDown && IsDown(keys, VK_RIGHT)
    ensures d == Some(LeftDirection) <==> ctrlDown && IsDown(keys, VK_LEFT) && !IsDown(keys, VK_RIGHT)
    ensures d == Some(UpDirection) <==>
      ctrlDown && IsDown(keys, VK_UP) && !IsDown(keys, VK_RIGHT) && !IsDown(keys, VK_LEFT)
    ensures d == Some(DownDirection) <==>
      ctrlDown && IsDown(keys, VK_DOWN) && !IsDown(keys, VK_RIGHT) && !IsDown(keys, VK_LEFT) && !IsDown(keys, VK_UP)
  {
    if ctrlDown && IsDown(keys, VK_RIGHT) then Some(RightDirection)
    else if ctrlDown && IsDown(keys, VK_LEFT) then Some(LeftDirection)
    else if ctrlDown && IsDown(keys, VK_UP) then Some(UpDirection)
    else if ctrlDown && IsDown(keys, VK_DOWN) then Some(DownDirection)
    else None
  }

  /** The key map after one event. */
  function NextKeys(keys: map<string, bool>, msg: string, key: string): (r: map<string, bool>)
    ensures forall k :: k != key ==> (IsDown(r, k) <==> IsDown(keys, k))
    ensures IsDownMessage(msg) ==> IsDown(r, key)
    ensures msg == WM_KEYUP ==> !IsDown(r, key)
    ensures !IsDownMessage(msg) && msg != WM_KEYUP ==> r == keys
  {
    if IsDownMessage(msg) && !IsDown(keys, key) then keys[key := true]
    else if msg == WM_KEYUP && IsDown(keys, key) then keys[key := false]
    else keys
  }

  /**
   * The move one event fires. Ctrl is read before the event's own key is
   * recorded, the arrows after.
   */
  function Fires(keys: map<string, bool>, msg: string, key: string): (d: Option<int>)
    ensures d.Some? ==> IsDownMessage(msg) && !IsDown(keys, key) && CtrlDown(keys)
    ensures IsDownMessage(msg) && !IsDown(keys, key) && CtrlDown(keys) && key == VK_RIGHT ==>
      d == Some(RightDirection)
  {
    if IsDownMessage(msg) && !IsDown(keys, key) then Chord(CtrlDown(keys), keys[key := true])
    else None
  }

  /** The hook's only state: which keys are currently down. */
  class KeyboardHook {
    var keyDownMap: map<string, bool>

    constructor ()
      ensures keyDownMap == map[]
    {
      keyDownMap := map[];
    }

    /** One `case k := <-keyboardChan` step; returns the direction of the move it fires. */
    method HandleEvent(msg: string, key: string) returns (fired: Option<int>)
      modifies this
      ensures keyDownMap == NextKeys(old(keyDownMap), msg, key)
      ensures fired == Fires(old(keyDownMap), msg, key)
    {
      var down := msg == WM_KEYDOWN || msg == WM_SYSKEYDOWN;
      var up := msg == WM_KEYUP;
      var ctrlDown := IsDown(keyDownMap, VK_LCONTROL) || IsDown(keyDownMap, VK_RCONTROL);
      fired := None;
      if down && !IsDown(keyDownMap, key) {
        keyDownMap := keyDownMap[key := true];
        if ctrlDown && IsDown(keyDownMap, VK_RIGHT) {
          fired := Some(RightDirection);
        } else if ctrlDown && IsDown(keyDownMap, VK_LEFT) {
          fired := Some(LeftDirection);
        } else if ctrlDown && IsDown(keyDownMap, VK_UP) {
          fired := Some(UpDirection);
        } else if ctrlDown && IsDown(keyDownMap, VK_DOWN) {
          fired := Some(DownDirection);
        }
      } else if up && IsDown(keyDownMap, key) {
        keyDownMap := keyDownMap[key := false];
      }
    }
  }

  /** A down event for a key not yet down marks it down and changes no other key. */
  lemma FirstDownMarksKey(keys: map<string, bool>, msg: string, key: string)
    requires IsDownMessage(msg) && !IsDown(keys, key)
    ensures IsDown(NextKeys(keys, msg, key), key)
    ensures forall k :: k != key ==> (IsDown(NextKeys(keys, msg, key), k) <==> IsDown(keys, k))
  {
  }

  /** Auto-repeat: a down event for a key already down changes nothing and fires nothing. */
  lemma RepeatedDownIgnored(keys: map<string, bool>, msg: string, key: string)
    requires IsDownMessage(msg) && IsDown(keys, key)
    ensures NextKeys(keys, msg, key) == keys && Fires(keys, msg, key).None?
  {
  }

  /** A key-up for a key that is down marks it up, changes no other key and fires nothing. */
  lemma KeyUpReleases(keys: map<string, bool>, key: string)
    requires IsDown(keys, key)
    ensures !IsDown(NextKeys(keys, WM_KEYUP, key), key)
    ensures forall k :: k != key ==> (IsDown(NextKeys(keys, WM_KEYUP, key), k) <==> IsDown(keys, k))
    ensures Fires(keys, WM_KEYUP, key).None?
  {
  }

  /** Every other message, WM_SYSKEYUP among them, leaves the map alone and fires nothing. */
  lemma OtherMessagesIgnored(keys: map<string, bool>, msg: string, key: string)
    requires msg != WM_KEYDOWN && msg != WM_SYSKEYDOWN && msg != WM_KEYUP
    ensures NextKeys(keys, msg, key) == keys && Fires(keys, msg, key).None?
  {
  }

  /**
   * Ctrl is read before the event's key is recorded: pressing a control
   * key while an arrow is already held fires nothing, and without the
   * left or right control key down (the generic VK_CONTROL does not count)
   * no event fires at all.
   */
  lemma CtrlReadBeforeRecording(keys: map<string, bool>, msg: string, key: string)
    requires !CtrlDown(keys)
    ensures Fires(keys, msg, key).None?
  {
  }

  /** With Ctrl held, a fresh press of an arrow fires the move of the first held arrow in priority order. */
  lemma CtrlArrowFires(keys: map<string, bool>, msg: string, arrow: string)
    requires IsDownMessage(msg) && CtrlDown(keys) && !IsDown(keys, arrow)
    requires arrow in {VK_RIGHT, VK_LEFT, VK_UP, VK_DOWN}
    ensures Fires(keys, msg, arrow).Some?
    ensures arrow == VK_RIGHT ==> Fires(keys, msg, arrow) == Some(RightDirection)
  {
    assert IsDown(keys[arrow := true], arrow);
  }

  /** Replays a stream of (message, key) events from a key map; returns the final map and what each event fired. */
  function Replay(keys: map<string, bool>, events: seq<(string, string)>): (out: (map<string, bool>, seq<Option<int>>))
    ensures |out.1| == |events|
    ensures forall i :: 0 <= i < |events| && out.1[i].Some? ==> IsDownMessage(events[i].0)
    decreases |events|
  {
    if events == [] then (keys, [])
    else
      var (msg, key) := events[0];
      var rest := Replay(NextKeys(keys, msg, key), events[1..]);
      (rest.0, [Fires(keys, msg, key)] + rest.1)
  }

  /**
   * A key released while Alt is held reports WM_SYSKEYUP, which the hook
   * ignores: after Alt+Right is pressed and released, Right stays marked
   * down, and a later Ctrl chord on any other key fires a move right.
   */
  lemma SysKeyUpLeavesArrowHeld()
    ensures var events := [(WM_SYSKEYDOWN, VK_RIGHT), (WM_SYSKEYUP, VK_RIGHT), (WM_KEYDOWN, VK_LCONTROL), (WM_KEYDOWN, "VK_A")];
      var (keys, fired) := Replay(map[], events);
      && IsDown(keys, VK_RIGHT)
      && fired == [None, None, None, Some(RightDirection)]
  {
    var events := [(WM_SYSKEYDOWN, VK_RIGHT), (WM_SYSKEYUP, VK_RIGHT), (WM_KEYDOWN, VK_LCONTROL), (WM_KEYDOWN, "VK_A")];
    var k0: map<string, bool> := map[];
    var k1 := k0[VK_RIGHT := true];
    var k3 := k1[VK_LCONTROL := true];
    var k4 := k3["VK_A" := true];
    assert NextKeys(k0, WM_SYSKEYDOWN, VK_RIGHT) == k1;
    assert Fires(k0, WM_SYSKEYDOWN, VK_RIGHT) == None;
    assert NextKeys(k1, WM_SYSKEYUP, VK_RIGHT) == k1;
    assert Fires(k1, WM_SYSKEYUP, VK_RIGHT) == None;
    assert NextKeys(k1, WM_KEYDOWN, VK_LCONTROL) == k3;
    assert Fires(k1, WM_KEYDOWN, VK_LCONTROL) == None;
    assert !IsDown(k3, "VK_A");
    assert NextKeys(k3, WM_KEYDOWN, "VK_A") == k4;
    assert Fires(k3, WM_KEYDOWN, "VK_A") == Some(RightDirection) by {
      assert IsDown(k4, VK_RIGHT) && CtrlDown(k3);
    }
    var e3 := [(WM_KEYDOWN, "VK_A")];
    var e2 := [(WM_KEYDOWN, VK_LCONTROL)] + e3;
    var e1 := [(WM_SYSKEYUP, VK_RIGHT)] + e2;
    assert events == [(WM_SYSKEYDOWN, VK_RIGHT)] + e1;
    assert e3[1..] == [] && e2[1..] == e3 && e1[1..] == e2 && events[1..] == e1;
    assert Replay(k4, []) == (k4, []);
    assert e3[0] == (WM_KEYDOWN, "VK_A");
    assert [Some(RightDirection)] + [] == [Some(RightDirection)];
    assert Replay(k3, e3) == (k4, [Some(RightDirection)]);
    assert e2[0] == (WM_KEYDOWN, VK_LCONTROL);
    assert [None] + [Some(RightDirection)] == [None, Some(RightDirection)];
    assert Replay(k1, e2) == (k4, [None, Some(RightDirection)]);
    assert e1[0] == (WM_SYSKEYUP, VK_RIGHT);
    assert [None] + [None, Some(RightDirection)] == [None, None, Some(RightDirection)];
    assert Replay(k1, e1) == (k4, [None, None, Some(RightDirection)]);
    assert events[0] == (WM_SYSKEYDOWN, VK_RIGHT);
    assert [None] + [None, None, Some(RightDirection)] == [None, None, None, Some(RightDirection)];
  }
}
