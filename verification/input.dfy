/** Double-buffered button state and edge detection. The same scheme
    appears three times: `Game::update_input` and the `key_*`/`mouse_*`
    queries of src/game.cpp, the `Input` class of src/game.h, and the
    globals of input.h. */
module Input {
  import opened Tge

  /** GLFW's action codes. */
  const Release := 0
  const Press := 1
  const Repeat := 2

  /** GLFW's highest key code (the Menu key) and highest mouse button
      (button 8), as bound to the script in src/game.cpp. */
  const KeyLast := 348
  const MouseButtonLast := 7

  /** The code GLFW passes to the key callback for a key it cannot name. */
  const KeyUnknown := -1

  /** The previous and the current state of a set of buttons. */
  datatype Buttons = Buttons(prev: seq<bool>, cur: seq<bool>)

  predicate ValidButtons(b: Buttons) {
    |b.prev| == |b.cur|
  }

  /** `keyDown`: held now. */
  predicate Down(b: Buttons, k: int)
    requires ValidButtons(b) && 0 <= k < |b.cur|
  {
    b.cur[k]
  }

  /** `keyPressed`: held now but not before. */
  predicate Pressed(b: Buttons, k: int)
    requires ValidButtons(b) && 0 <= k < |b.cur|
  {
    b.cur[k] && !b.prev[k]
  }

  /** `keyReleased`: held before but not now. */
  predicate Released(b: Buttons, k: int)
    requires ValidButtons(b) && 0 <= k < |b.cur|
  {
    b.prev[k] && !b.cur[k]
  }

  /** A button is never pressed and released at once, and a pressed button
      is down while a released one is not. */
  lemma {:induction false} EdgesExclusive(b: Buttons, k: int)
    requires ValidButtons(b) && 0 <= k < |b.cur|
    ensures !(Pressed(b, k) && Released(b, k))
    ensures Pressed(b, k) ==> Down(b, k)
    ensures Released(b, k) ==> !Down(b, k)
    ensures Down(b, k) != b.prev[k] <==> Pressed(b, k) || Released(b, k)
  {
  }

  /** The copy of the current state into the previous one. */
  function Latch(b: Buttons): (r: Buttons)
    requires ValidButtons(b)
    ensures ValidButtons(r) && |r.cur| == |b.cur|
    ensures forall k :: 0 <= k < |b.cur| ==>
      Down(r, k) == Down(b, k) && !Pressed(r, k) && !Released(r, k)
  {
    Buttons(b.cur, b.cur)
  }

  /** A button callback: press sets the button, release clears it, any
      other action (repeat) leaves it alone. */
  function OnAction(b: Buttons, k: int, action: int): (r: Buttons)
    requires ValidButtons(b) && 0 <= k < |b.cur|
    ensures ValidButtons(r) && r.prev == b.prev && |r.cur| == |b.cur|
    ensures action == Press ==> Down(r, k)
    ensures action == Release ==> !Down(r, k)
    ensures action != Press && action != Release ==> r == b
    ensures forall j :: 0 <= j < |b.cur| && j != k ==> r.cur[j] == b.cur[j]
  {
    if action == Press then b.(cur := b.cur[k := true])
    else if action == Release then b.(cur := b.cur[k := false])
    else b
  }

  /** Right after a latch, a press is seen as a press exactly when the
      button was up, and a release as a release exactly when it was down. */
  lemma {:induction false} PressAfterLatch(b: Buttons, k: int)
    requires ValidButtons(b) && 0 <= k < |b.cur|
    ensures Pressed(OnAction(Latch(b), k, Press), k) <==> !Down(b, k)
    ensures Released(OnAction(Latch(b), k, Release), k) <==> Down(b, k)
  {
  }

  /** All input state of one window. */
  datatype Snapshot = Snapshot(keys: Buttons, mouse: Buttons,
                               oldPos: Vec2, newPos: Vec2, oldScroll: Vec2, newScroll: Vec2)

  predicate ValidSnapshot(s: Snapshot) {
    ValidButtons(s.keys) && ValidButtons(s.mouse)
  }

  /** Nothing held, at the origin; the buttons sized as given. */
  function Fresh(keyCount: nat, buttonCount: nat): (r: Snapshot)
    ensures ValidSnapshot(r) && |r.keys.cur| == keyCount && |r.mouse.cur| == buttonCount
    ensures forall k :: 0 <= k < keyCount ==> !Down(r.keys, k) && !Released(r.keys, k)
    ensures forall k :: 0 <= k < buttonCount ==> !Down(r.mouse, k) && !Released(r.mouse, k)
  {
    Snapshot(Buttons(seq(keyCount, _ => false), seq(keyCount, _ => false)),
             Buttons(seq(buttonCount, _ => false), seq(buttonCount, _ => false)),
             Vec2(0, 0), Vec2(0, 0), Vec2(0, 0), Vec2(0, 0))
  }

  /** `Input::update` of src/game.h and `inputUpdate` of input.h, before
      events are polled: keys, buttons, position and scroll are copied. */
  function Update(s: Snapshot): (r: Snapshot)
    requires ValidSnapshot(s)
    ensures ValidSnapshot(r)
    ensures r.keys == Latch(s.keys) && r.mouse == Latch(s.mouse)
    ensures r.oldPos == r.newPos == s.newPos && r.oldScroll == r.newScroll == s.newScroll
  {
    Snapshot(Latch(s.keys), Latch(s.mouse), s.newPos, s.newPos, s.newScroll, s.newScroll)
  }

  /** `update_input` of src/game.cpp, before polling: only the key and
      button arrays are copied. */
  function UpdateButtons(s: Snapshot): (r: Snapshot)
    requires ValidSnapshot(s)
    ensures ValidSnapshot(r) && r.keys == Latch(s.keys) && r.mouse == Latch(s.mouse)
    ensures r.(keys := s.keys, mouse := s.mouse) == s
  {
    s.(keys := Latch(s.keys), mouse := Latch(s.mouse))
  }

  /** With no event after an update no query reports an edge, and the
      cursor has not moved. */
  lemma {:induction false} QuietAfterUpdate(s: Snapshot)
    requires ValidSnapshot(s)
    ensures var r := Update(s);
      && (forall k :: 0 <= k < |r.keys.cur| ==> !Pressed(r.keys, k) && !Released(r.keys, k))
      && (forall k :: 0 <= k < |r.mouse.cur| ==> !Pressed(r.mouse, k) && !Released(r.mouse, k))
      && MouseMove(r) == Vec2(0, 0)
  {
  }

  /** `mouseMove`: the cursor movement since the last update. */
  function MouseMove(s: Snapshot): Vec2 {
    Vec2(s.newPos.x - s.oldPos.x, s.newPos.y - s.oldPos.y)
  }

  /** The key callback as written, for a code that has a slot: the source
      writes `newKeys[key]` without a bounds check, so a code outside the
      array (such as `KeyUnknown`) is outside this function and handled by
      `OnKeyChecked`. */
  function OnKey(s: Snapshot, key: int, action: int): (r: Snapshot)
    requires ValidSnapshot(s) && 0 <= key < |s.keys.cur|
    ensures ValidSnapshot(r) && r.keys == OnAction(s.keys, key, action)
    ensures r.(keys := s.keys) == s
  {
    s.(keys := OnAction(s.keys, key, action))
  }

  /** GLFW reports `KeyUnknown`, and no array, as declared or with a slot
      for every named key, has a slot for it: the unchecked write of the key
      callback lands before the array. */
  lemma {:induction false} UnknownKeyOutOfRange(s: Snapshot)
    ensures !(0 <= KeyUnknown < |s.keys.cur|)
    ensures !(0 <= KeyUnknown < |FreshSized().keys.cur|)
  {
  }

  /** The key callback with the bounds check it evidently needs: a code
      with a slot is handled as `OnKey` does, and any other code, such as
      `KeyUnknown`, changes nothing. */
  function OnKeyChecked(s: Snapshot, key: int, action: int): (r: Snapshot)
    requires ValidSnapshot(s)
    ensures ValidSnapshot(r) && r.(keys := s.keys) == s
    ensures 0 <= key < |s.keys.cur| ==> r == OnKey(s, key, action)
    ensures !(0 <= key < |s.keys.cur|) ==> r == s
  {
    if 0 <= key < |s.keys.cur| then OnKey(s, key, action) else s
  }

  /** An unknown key leaves every key's state and every edge as it was. */
  lemma {:induction false} UnknownKeyIgnored(s: Snapshot, action: int)
    requires ValidSnapshot(s)
    ensures forall k :: 0 <= k < |s.keys.cur| ==>
      (Down(OnKeyChecked(s, KeyUnknown, action).keys, k) <==> Down(s.keys, k)) &&
      (Pressed(OnKeyChecked(s, KeyUnknown, action).keys, k) <==> Pressed(s.keys, k))
  {
    UnknownKeyOutOfRange(s);
  }

  function OnMouseButton(s: Snapshot, button: int, action: int): (r: Snapshot)
    requires ValidSnapshot(s) && 0 <= button < |s.mouse.cur|
    ensures ValidSnapshot(r) && r.mouse == OnAction(s.mouse, button, action)
    ensures r.(mouse := s.mouse) == s
  {
    s.(mouse := OnAction(s.mouse, button, action))
  }

  /** The cursor callback of src/game.cpp and src/game.h: the position as
      reported. */
  function OnCursor(s: Snapshot, x: int, y: int): (r: Snapshot)
    ensures r.newPos == Vec2(x, y) && r.(newPos := s.newPos) == s
  {
    s.(newPos := Vec2(x, y))
  }

  /** `onGlfwMouseMove` of input.h: y is turned to count up from the bottom
      of the window. */
  function OnCursorFlipped(s: Snapshot, x: int, y: int, windowHeight: int): (r: Snapshot)
    ensures r.newPos.x == x && r.newPos.y + y == windowHeight
    ensures r.(newPos := s.newPos) == s
  {
    s.(newPos := Vec2(x, windowHeight - y))
  }

  function OnScroll(s: Snapshot, x: int, y: int): (r: Snapshot)
    ensures r.newScroll == Vec2(x, y) && r.(newScroll := s.newScroll) == s
  {
    s.(newScroll := Vec2(x, y))
  }

  /** The input state of src/game.h and input.h, whose arrays hold
      `GLFW_KEY_LAST` keys and `GLFW_MOUSE_BUTTON_LAST` buttons. */
  function FreshAsWritten(): (r: Snapshot)
    ensures |r.keys.cur| == KeyLast && |r.mouse.cur| == MouseButtonLast
  {
    Fresh(KeyLast, MouseButtonLast)
  }

  /** The arrays are one short: the Menu key (348) and mouse button 8 (7)
      are codes GLFW reports, but they index past the end. */
  lemma {:induction false} LastCodesOutOfRange()
    ensures !(KeyLast < |FreshAsWritten().keys.cur|)
    ensures !(MouseButtonLast < |FreshAsWritten().mouse.cur|)
  {
  }

  /** Arrays with room for every code up to and including the last one. */
  function FreshSized(): (r: Snapshot)
    ensures ValidSnapshot(r)
    ensures KeyLast < |r.keys.cur| && MouseButtonLast < |r.mouse.cur|
  {
    Fresh(KeyLast + 1, MouseButtonLast + 1)
  }

  /** The key queries of the script bridge convert the script's number to
      `uint32_t` before indexing. */
  function ScriptKeyPressed(s: Snapshot, n: int): (r: bool)
    requires ValidSnapshot(s) && ToU32(n) < |s.keys.cur|
    ensures r <==> s.keys.cur[ToU32(n)] && !s.keys.prev[ToU32(n)]
    ensures 0 <= n < 0x1_0000_0000 ==> n < |s.keys.cur| && (r <==> Pressed(s.keys, n))
  {
    Pressed(s.keys, ToU32(n))
  }

  /** A key code the script passes is seen as pressed after an update and
      a press exactly when the key was up before the update. */
  lemma {:induction false} ScriptSeesPress(s: Snapshot, n: int)
    requires ValidSnapshot(s) && 0 <= n < |s.keys.cur| && n < 0x1_0000_0000
    ensures ScriptKeyPressed(OnKey(Update(s), n, Press), n) <==> !Down(s.keys, n)
  {
    PressAfterLatch(s.keys, n);
  }
}
