/**
 * window/config.go: a configured key chord and the test whether it is
 * held in a key-down map. Unlike the resident hook, the chord test counts
 * the generic modifier codes (VK_CONTROL, VK_MENU, VK_SHIFT) as well as
 * the left and right ones, and requires the modifiers to match exactly.
 */
module Config {
  const VK_CONTROL: string := "VK_CONTROL"
  const VK_LCONTROL: string := "VK_LCONTROL"
  const VK_RCONTROL: string := "VK_RCONTROL"
  const VK_MENU: string := "VK_MENU"
  const VK_LMENU: string := "VK_LMENU"
  const VK_RMENU: string := "VK_RMENU"
  const VK_SHIFT: string := "VK_SHIFT"
  const VK_LSHIFT: string := "VK_LSHIFT"
  const VK_RSHIFT: string := "VK_RSHIFT"

  datatype KeyBinding = KeyBinding(ctrl: bool, alt: bool, shift: bool, key: string)

  /** A key missing from the map reads as up. */
  predicate Held(keys: map<string, bool>, k: string)
  {
    k in keys && keys[k]
  }

  predicate AnyHeld(keys: map<string, bool>, codes: set<string>)
  {
    exists k :: k in codes && Held(keys, k)
  }

  predicate CtrlHeld(keys: map<string, bool>)
  {
    AnyHeld(keys, {VK_CONTROL, VK_LCONTROL, VK_RCONTROL})
  }

  predicate AltHeld(keys: map<string, bool>)
  {
    AnyHeld(keys, {VK_MENU, VK_LMENU, VK_RMENU})
  }

  predicate ShiftHeld(keys: map<string, bool>)
  {
    AnyHeld(keys, {VK_SHIFT, VK_LSHIFT, VK_RSHIFT})
  }

  /** KeyBinding.Down: the binding's chord is held, checked one condition at a time. */
  predicate Down(kb: KeyBinding, keys: map<string, bool>)
    ensures Down(kb, keys) ==> Held(keys, kb.key)
    ensures Down(kb, keys) ==>
      (kb.ctrl <==> Held(keys, VK_LCONTROL) || Held(keys, VK_RCONTROL) || Held(keys, VK_CONTROL))
  {
    var ctrlDown := Held(keys, VK_LCONTROL) || Held(keys, VK_RCONTROL) || Held(keys, VK_CONTROL);
    var altDown := Held(keys, VK_LMENU) || Held(keys, VK_RMENU) || Held(keys, VK_MENU);
    var shiftDown := Held(keys, VK_LSHIFT) || Held(keys, VK_RSHIFT) || Held(keys, VK_SHIFT);
    if kb.ctrl == !ctrlDown then false
    else if kb.alt == !altDown then false
    else if kb.shift == !shiftDown then false
    else if !Held(keys, kb.key) then false
    else true
  }

  /** A chord is down exactly when each modifier is held iff the binding asks for it and its key is held. */
  lemma DownExactly(kb: KeyBinding, keys: map<string, bool>)
    ensures Down(kb, keys) <==>
      (kb.ctrl <==> CtrlHeld(keys)) && (kb.alt <==> AltHeld(keys)) &&
      (kb.shift <==> ShiftHeld(keys)) && Held(keys, kb.key)
  {
    assert CtrlHeld(keys) <==> Held(keys, VK_LCONTROL) || Held(keys, VK_RCONTROL) || Held(keys, VK_CONTROL) by {
      if Held(keys, VK_LCONTROL) { assert VK_LCONTROL in {VK_CONTROL, VK_LCONTROL, VK_RCONTROL}; }
      if Held(keys, VK_RCONTROL) { assert VK_RCONTROL in {VK_CONTROL, VK_LCONTROL, VK_RCONTROL}; }
      if Held(keys, VK_CONTROL) { assert VK_CONTROL in {VK_CONTROL, VK_LCONTROL, VK_RCONTROL}; }
    }
    assert AltHeld(keys) <==> Held(keys, VK_LMENU) || Held(keys, VK_RMENU) || Held(keys, VK_MENU) by {
      if Held(keys, VK_LMENU) { assert VK_LMENU in {VK_MENU, VK_LMENU, VK_RMENU}; }
      if Held(keys, VK_RMENU) { assert VK_RMENU in {VK_MENU, VK_LMENU, VK_RMENU}; }
      if Held(keys, VK_MENU) { assert VK_MENU in {VK_MENU, VK_LMENU, VK_RMENU}; }
    }
    assert ShiftHeld(keys) <==> Held(keys, VK_LSHIFT) || Held(keys, VK_RSHIFT) || Held(keys, VK_SHIFT) by {
      if Held(keys, VK_LSHIFT) { assert VK_LSHIFT in {VK_SHIFT, VK_LSHIFT, VK_RSHIFT}; }
      if Held(keys, VK_RSHIFT) { assert VK_RSHIFT in {VK_SHIFT, VK_LSHIFT, VK_RSHIFT}; }
      if Held(keys, VK_SHIFT) { assert VK_SHIFT in {VK_SHIFT, VK_LSHIFT, VK_RSHIFT}; }
    }
  }

  /** A modifier held that the binding does not name (Ctrl+Alt+Right against a Ctrl+Right binding) defeats it. */
  lemma ExtraModifierDefeats(kb: KeyBinding, keys: map<string, bool>)
    requires (!kb.ctrl && CtrlHeld(keys)) || (!kb.alt && AltHeld(keys)) || (!kb.shift && ShiftHeld(keys))
    ensures !Down(kb, keys)
  {
    DownExactly(kb, keys);
  }

  /** A modifier the binding names but nobody holds defeats it as well. */
  lemma MissingModifierDefeats(kb: KeyBinding, keys: map<string, bool>)
    requires (kb.ctrl && !CtrlHeld(keys)) || (kb.alt && !AltHeld(keys)) || (kb.shift && !ShiftHeld(keys))
    ensures !Down(kb, keys)
  {
    DownExactly(kb, keys);
  }

  /** Keys never seen and keys explicitly released read alike. */
  lemma AbsentKeyReadsAsUp(kb: KeyBinding, keys: map<string, bool>, k: string)
    requires k !in keys
    ensures Down(kb, keys) == Down(kb, keys[k := false])
  {
    assert forall j :: Held(keys, j) == Held(keys[k := false], j);
  }

  /** A binding without Ctrl whose key is itself a control key can never be down. */
  lemma ControlKeyWithoutCtrlNeverDown(kb: KeyBinding, keys: map<string, bool>)
    requires !kb.ctrl && kb.key in {VK_CONTROL, VK_LCONTROL, VK_RCONTROL}
    ensures !Down(kb, keys)
  {
  }

  /** The hook's Ctrl+Right chord, with Alt held too, is not a Ctrl+Right binding. */
  lemma CtrlAltRightIsNotCtrlRight()
    ensures !Down(KeyBinding(true, false, false, "VK_RIGHT"),
                  map[VK_LCONTROL := true, VK_LMENU := true, "VK_RIGHT" := true])
    ensures Down(KeyBinding(true, false, false, "VK_RIGHT"),
                 map[VK_LCONTROL := true, VK_LMENU := false, "VK_RIGHT" := true])
  {
  }
}
