// The input module's key and mouse-button state. GLFW's window and callback registration are
// outside the model: the callbacks are methods the window system calls, and doubles are reals.

module Input {

  /** GLFW_KEY_LAST + 1. */
  const KeyCount: nat := 350
  const MouseButtonCount: nat := 8
  /** GLFW_RELEASE; GLFW_PRESS is 1 and GLFW_REPEAT is 2. */
  const Release: int := 0

  /** Edge detection on one key or button, from its state in this frame and the previous one. */
  predicate Pressed(cur: bool, prev: bool) { cur && !prev }
  predicate Released(cur: bool, prev: bool) { !cur && prev }

  /** The four queries classify a key: held or up, never both, and an edge only goes with the
      matching state. */
  lemma EdgeClassification(cur: bool, prev: bool)
    ensures Pressed(cur, prev) ==> cur && !Released(cur, prev)
    ensures Released(cur, prev) ==> !cur && !Pressed(cur, prev)
    ensures cur == prev ==> !Pressed(cur, prev) && !Released(cur, prev)
  {
  }

  /** The namespace's state: current and previous key and button arrays, cursor position and window. */
  class InputState {
    const currentKeys: array<bool>
    const previousKeys: array<bool>
    const currentMouse: array<bool>
    const previousMouse: array<bool>
    var mouseX: real
    var mouseY: real
    /** The window handed to Initialize, if any. */
    var window: nat
    var hasWindow: bool

    ghost predicate Valid()
      reads this
    {
      && currentKeys.Length == KeyCount && previousKeys.Length == KeyCount
      && currentMouse.Length == MouseButtonCount && previousMouse.Length == MouseButtonCount
      && currentKeys != previousKeys && currentMouse != previousMouse
    }

    /** Zero-initialised arrays: nothing held, nothing held before; cursor at (0, 0). */
    constructor ()
      ensures Valid()
      ensures forall k | 0 <= k < KeyCount :: !currentKeys[k] && !previousKeys[k]
      ensures forall b | 0 <= b < MouseButtonCount :: !currentMouse[b] && !previousMouse[b]
      ensures mouseX == 0.0 && mouseY == 0.0 && !hasWindow
      ensures fresh(currentKeys) && fresh(previousKeys) && fresh(currentMouse) && fresh(previousMouse)
    {
      currentKeys := new bool[KeyCount](_ => false);
      previousKeys := new bool[KeyCount](_ => false);
      currentMouse := new bool[MouseButtonCount](_ => false);
      previousMouse := new bool[MouseButtonCount](_ => false);
      mouseX, mouseY := 0.0, 0.0;
      window, hasWindow := 0, false;
    }

    /** Initialize remembers the window; installing the callbacks is GLFW's business. */
    method Initialize(w: nat)
      modifies `window, `hasWindow
      ensures window == w && hasWindow
    {
      window, hasWindow := w, true;
    }

    /** KeyCallback: a key code in range becomes held unless the action is a release; other codes
        (GLFW_KEY_UNKNOWN is -1) are ignored. */
    method KeyCallback(key: int, action: int)
      requires Valid()
      modifies currentKeys
      ensures 0 <= key < KeyCount ==>
        currentKeys[..] == old(currentKeys[..])[key := action != Release]
      ensures !(0 <= key < KeyCount) ==> currentKeys[..] == old(currentKeys[..])
    {
      if 0 <= key < KeyCount {
        currentKeys[key] := action != Release;
      }
    }

    method MouseButtonCallback(button: int, action: int)
      requires Valid()
      modifies currentMouse
      ensures 0 <= button < MouseButtonCount ==>
        currentMouse[..] == old(currentMouse[..])[button := action != Release]
      ensures !(0 <= button < MouseButtonCount) ==> currentMouse[..] == old(currentMouse[..])
    {
      if 0 <= button < MouseButtonCount {
        currentMouse[button] := action != Release;
      }
    }

    method CursorPosCallback(x: real, y: real)
      modifies `mouseX, `mouseY
      ensures mouseX == x && mouseY == y
    {
      mouseX, mouseY := x, y;
    }

    /** Update: this frame's state becomes the previous frame's, element by element. */
    method Update()
      requires Valid()
      modifies previousKeys, previousMouse
      ensures previousKeys[..] == currentKeys[..] && previousMouse[..] == currentMouse[..]
      ensures currentKeys[..] == old(currentKeys[..]) && currentMouse[..] == old(currentMouse[..])
    {
      var k := 0;
      while k < KeyCount
        invariant 0 <= k <= KeyCount
        invariant forall j | 0 <= j < k :: previousKeys[j] == currentKeys[j]
      {
        previousKeys[k] := currentKeys[k];
        k := k + 1;
      }
      var b := 0;
      while b < MouseButtonCount
        invariant 0 <= b <= MouseButtonCount
        invariant forall j | 0 <= j < b :: previousMouse[j] == currentMouse[j]
        invariant previousKeys[..] == currentKeys[..]
      {
        previousMouse[b] := currentMouse[b];
        b := b + 1;
      }
    }

    // The queries index the arrays without a range check: a code outside the range is the
    // caller's error.

    function IsKeyPressed(key: int): (b: bool)
      requires Valid() && 0 <= key < KeyCount
      reads this, currentKeys, previousKeys
      ensures b <==> currentKeys[key] && !previousKeys[key]
      ensures b ==> !IsKeyUp(key)
    {
      Pressed(currentKeys[key], previousKeys[key])
    }

    function IsKeyHeld(key: int): (b: bool)
      requires Valid() && 0 <= key < KeyCount
      reads this, currentKeys
      ensures b <==> currentKeys[key]
    {
      currentKeys[key]
    }

    function IsKeyReleased(key: int): (b: bool)
      requires Valid() && 0 <= key < KeyCount
      reads this, currentKeys, previousKeys
      ensures b <==> !currentKeys[key] && previousKeys[key]
      ensures b ==> !IsKeyHeld(key)
    {
      Released(currentKeys[key], previousKeys[key])
    }

    function IsKeyUp(key: int): (b: bool)
      requires Valid() && 0 <= key < KeyCount
      reads this, currentKeys
      ensures b <==> !currentKeys[key]
    {
      !currentKeys[key]
    }

    function IsMousePressed(button: int): (b: bool)
      requires Valid() && 0 <= button < MouseButtonCount
      reads this, currentMouse, previousMouse
      ensures b <==> currentMouse[button] && !previousMouse[button]
      ensures b ==> !IsMouseUp(button)
    {
      Pressed(currentMouse[button], previousMouse[button])
    }

    function IsMouseHeld(button: int): (b: bool)
      requires Valid() && 0 <= button < MouseButtonCount
      reads this, currentMouse
      ensures b <==> currentMouse[button]
    {
      currentMouse[button]
    }

    function IsMouseReleased(button: int): (b: bool)
      requires Valid() && 0 <= button < MouseButtonCount
      reads this, currentMouse, previousMouse
      ensures b <==> !currentMouse[button] && previousMouse[button]
      ensures b ==> !IsMouseHeld(button)
    {
      Released(currentMouse[button], previousMouse[button])
    }

    function IsMouseUp(button: int): (b: bool)
      requires Valid() && 0 <= button < MouseButtonCount
      reads this, currentMouse
      ensures b <==> !currentMouse[button]
    {
      !currentMouse[button]
    }

    function GetMouseX(): (x: real)
      reads this
      ensures x == mouseX
    {
      mouseX
    }

    function GetMouseY(): (y: real)
      reads this
      ensures y == mouseY
    {
      mouseY
    }
  }

  /** A frame in which a key goes down: Update, then a press (or repeat) event for a key that was up.
      The key then reads as pressed and held, and neither released nor up. */
  method PressFrame(s: InputState, key: int, action: int)
    requires s.Valid() && 0 <= key < KeyCount && action != Release
    requires !s.currentKeys[key]
    modifies s.currentKeys, s.previousKeys, s.previousMouse
    ensures s.IsKeyPressed(key) && s.IsKeyHeld(key) && !s.IsKeyReleased(key) && !s.IsKeyUp(key)
  {
    s.Update();
    s.KeyCallback(key, action);
    assert s.currentKeys[key] && !s.previousKeys[key];
  }

  /** Whatever the callbacks did, right after Update no key and no button shows an edge. */
  method NoEdgesAfterUpdate(s: InputState, key: int, button: int)
    requires s.Valid() && 0 <= key < KeyCount && 0 <= button < MouseButtonCount
    modifies s.previousKeys, s.previousMouse
    ensures !s.IsKeyPressed(key) && !s.IsKeyReleased(key)
    ensures !s.IsMousePressed(button) && !s.IsMouseReleased(button)
    ensures s.IsKeyHeld(key) == old(s.currentKeys[key]) && s.IsMouseHeld(button) == old(s.currentMouse[button])
  {
    s.Update();
    assert s.previousKeys[key] == s.currentKeys[key];
    assert s.previousMouse[button] == s.currentMouse[button];
  }
}
