/**
 * The input manager: keeps this frame's and last frame's device snapshots,
 * answers "pressed this frame" (an edge) and "held" (down on both frames)
 * for key, gamepad-button and joystick bindings, and lets a caller capture a
 * binding's keys and buttons so that later queries in the same frame ignore
 * them. Device polling is an input to `Update`.
 */
module Input {
  import opened Geometry
  import opened Devices

  /** Keyboard keys and gamepad buttons, by code. */
  type Key = int
  type PadButton = int

  /** A binding of an action to two keys, two gamepad buttons and a joystick binding. */
  datatype InputBinding = InputBinding(
    name: string,
    key: Key,
    button: PadButton,
    altKey: Key,
    altButton: PadButton,
    joystick: JoystickBinding)

  /** The mouse: the left button, and the pointer already scaled to game
      coordinates. */
  datatype MouseState = MouseState(leftPressed: bool, position: Point)

  /** One poll of every device: the keys and gamepad buttons held down, the
      mouse, the first joystick and the touch panel. */
  datatype DeviceSnapshot = DeviceSnapshot(
    keys: set<Key>,
    pad: set<PadButton>,
    mouse: MouseState,
    joystick: JoystickState,
    touch: TouchCollection)

  /** The state of every device before the first poll. */
  const NoInput: DeviceSnapshot :=
    DeviceSnapshot({}, {}, MouseState(false, Point(0, 0)), JoystickState(false, [], [], []), [])

  datatype InputMethod = Keyboard | Gamepad | Touch

  /** The input method the platform implies. */
  function MethodFor(isPC: bool, isMobile: bool): (m: InputMethod)
    ensures isPC ==> m == Keyboard
    ensures !isPC && isMobile ==> m == Touch
    ensures !isPC && !isMobile ==> m == Gamepad
  {
    if isPC then Keyboard else if isMobile then Touch else Gamepad
  }

  class InputManager {
    var current: DeviceSnapshot
    var last: DeviceSnapshot
    var capturedKeys: seq<Key>
    var capturedButtons: seq<PadButton>
    const inputMethod: InputMethod

    constructor (isPC: bool, isMobile: bool)
      ensures current == NoInput && last == NoInput
      ensures capturedKeys == [] && capturedButtons == []
      ensures inputMethod == MethodFor(isPC, isMobile)
    {
      current := NoInput;
      last := NoInput;
      capturedKeys := [];
      capturedButtons := [];
      if isPC {
        inputMethod := Keyboard;
      } else if isMobile {
        inputMethod := Touch;
      } else {
        inputMethod := Gamepad;
      }
    }

    /** The start of a frame: this frame's states become last frame's, the
        captures are cleared and the devices are polled. */
    method Update(poll: DeviceSnapshot)
      modifies this
      ensures last == old(current) && current == poll
      ensures capturedKeys == [] && capturedButtons == []
    {
      last := current;
      capturedKeys := [];
      capturedButtons := [];
      current := poll;
    }

    /** A key of the binding went down this frame, neither key was down last
        frame, and neither key is captured. */
    function IsKeyDown(b: InputBinding): (down: bool)
      reads this
      ensures b.key in capturedKeys || b.altKey in capturedKeys ==> !down
    {
      (b.key in current.keys || b.altKey in current.keys) &&
      b.key !in capturedKeys && b.altKey !in capturedKeys &&
      b.key !in last.keys && b.altKey !in last.keys
    }

    /** A key of the binding is down now and one was down last frame; a
        held key is never also a press. */
    function IsKeyHeld(b: InputBinding): (held: bool)
      reads this
      ensures held ==> !IsKeyDown(b)
    {
      (b.key in current.keys || b.altKey in current.keys) &&
      (b.key in last.keys || b.altKey in last.keys)
    }

    function IsButtonDown(b: InputBinding): (down: bool)
      reads this
      ensures b.button in capturedButtons || b.altButton in capturedButtons ==> !down
    {
      (b.button in current.pad || b.altButton in current.pad) &&
      b.button !in capturedButtons && b.altButton !in capturedButtons &&
      b.button !in last.pad && b.altButton !in last.pad
    }

    function IsButtonHeld(b: InputBinding): (held: bool)
      reads this
      ensures held ==> !IsButtonDown(b)
    {
      (b.button in current.pad || b.altButton in current.pad) &&
      (b.button in last.pad || b.altButton in last.pad)
    }

    /** Joystick indices the snapshots of both frames can answer. */
    predicate JoystickDefined(b: InputBinding)
      reads this
    {
      BindingDefined(current.joystick, b.joystick) && BindingDefined(last.joystick, b.joystick)
    }

    /** A press needs a joystick connected this frame. */
    function IsJoystickDown(b: InputBinding): (down: bool)
      requires JoystickDefined(b)
      reads this
      ensures down ==> current.joystick.isConnected
    {
      IsPressed(current.joystick, b.joystick) && !IsPressed(last.joystick, b.joystick)
    }

    /** A hold needs a joystick connected in both frames, and is never
        also a press. */
    function IsJoystickHeld(b: InputBinding): (held: bool)
      requires JoystickDefined(b)
      reads this
      ensures held ==> current.joystick.isConnected && last.joystick.isConnected && !IsJoystickDown(b)
    {
      IsPressed(current.joystick, b.joystick) && IsPressed(last.joystick, b.joystick)
    }

    /** Pressed this frame on any device; when `capture` is set, a press
        captures both keys and both buttons of the binding. */
    method IsBindingPressed(b: InputBinding, capture: bool) returns (isPressed: bool)
      requires JoystickDefined(b)
      modifies this
      ensures isPressed == (old(IsKeyDown(b)) || old(IsButtonDown(b)) || old(IsJoystickDown(b)))
      ensures current == old(current) && last == old(last)
      ensures isPressed && capture ==>
                capturedKeys == old(capturedKeys) + [b.key, b.altKey] &&
                capturedButtons == old(capturedButtons) + [b.button, b.altButton]
      ensures !(isPressed && capture) ==>
                capturedKeys == old(capturedKeys) && capturedButtons == old(capturedButtons)
      ensures isPressed && capture ==> !IsKeyDown(b) && !IsButtonDown(b)
    {
      isPressed := IsKeyDown(b) || IsButtonDown(b) || IsJoystickDown(b);
      if isPressed && capture {
        capturedKeys := capturedKeys + [b.key, b.altKey];
        capturedButtons := capturedButtons + [b.button, b.altButton];
      }
    }

    /** Held on any device; nothing is held when no key or button is down
        and no joystick is connected this frame. */
    function IsBindingHeld(b: InputBinding): (held: bool)
      requires JoystickDefined(b)
      reads this
      ensures current.keys == {} && current.pad == {} && !current.joystick.isConnected ==> !held
    {
      IsKeyHeld(b) || IsButtonHeld(b) || IsJoystickHeld(b)
    }

    /** A press edge: the button state changed since last frame. */
    function IsLeftMousePressed(): (pressed: bool)
      reads this
      ensures pressed ==> current.mouse.leftPressed != last.mouse.leftPressed
    {
      current.mouse.leftPressed && !last.mouse.leftPressed
    }

    function IsLeftMouseHeld(): (held: bool)
      reads this
      ensures held ==> !IsLeftMousePressed()
    {
      current.mouse.leftPressed && last.mouse.leftPressed
    }

    /** A tap: in touch mode, pressed now and released last frame; otherwise
        a left click that started this frame. */
    function IsTouched(): (touched: bool)
      reads this
      ensures inputMethod == Touch ==>
                (touched <==> (exists i :: 0 <= i < |current.touch| && current.touch[i].state == Pressed) &&
                              (forall i :: 0 <= i < |last.touch| ==> last.touch[i].state != Pressed))
      ensures inputMethod != Touch ==> touched == IsLeftMousePressed()
    {
      if inputMethod == Touch then TouchPressed(current.touch) && TouchReleased(last.touch)
      else IsLeftMousePressed()
    }

    /** Some location of this frame is pressed or moved. */
    function IsTouchHeld(): (held: bool)
      reads this
      ensures held <==> exists i :: 0 <= i < |current.touch| && current.touch[i].state in {Pressed, Moved}
    {
      TouchPressed(current.touch) || TouchHeld(current.touch)
    }

    /** The touched point: the first touch in touch mode, else the pointer. */
    function GetTouchPosition(): (p: Point)
      reads this
      ensures inputMethod != Touch ==> p == current.mouse.position
      ensures inputMethod == Touch && |current.touch| == 0 ==> p == Point(0, 0)
    {
      if inputMethod == Touch then TouchPosition(current.touch) else current.mouse.position
    }
  }

  /** The static slot holding the one manager. */
  class InputManagerSlot {
    var instance: InputManager?

    constructor ()
      ensures instance == null
    {
      instance := null;
    }

    method Initialise(isPC: bool, isMobile: bool) returns (m: InputManager)
      modifies this
      ensures old(instance) != null ==> m == old(instance)
      ensures old(instance) == null ==> fresh(m) && m.inputMethod == MethodFor(isPC, isMobile)
      ensures instance == m
    {
      if instance == null {
        instance := new InputManager(isPC, isMobile);
      }
      m := instance;
    }
  }

  // ---------------------------------------------------------------------
  // Properties

  /** A key binding is never both pressed and held in the same frame. */
  lemma KeyPressExcludesHold(m: InputManager, b: InputBinding)
    ensures !(m.IsKeyDown(b) && m.IsKeyHeld(b))
  {
  }

  lemma ButtonPressExcludesHold(m: InputManager, b: InputBinding)
    ensures !(m.IsButtonDown(b) && m.IsButtonHeld(b))
  {
  }

  lemma JoystickPressExcludesHold(m: InputManager, b: InputBinding)
    requires m.JoystickDefined(b)
    ensures !(m.IsJoystickDown(b) && m.IsJoystickHeld(b))
  {
  }

  lemma MousePressExcludesHold(m: InputManager)
    ensures !(m.IsLeftMousePressed() && m.IsLeftMouseHeld())
  {
  }

  /** A captured key can no longer be pressed this frame. */
  lemma CapturedKeyNotDown(m: InputManager, b: InputBinding)
    requires b.key in m.capturedKeys || b.altKey in m.capturedKeys
    ensures !m.IsKeyDown(b)
  {
  }
}
