/**
 * Snapshots of the input devices, and the joystick and touch queries the
 * input manager asks of them.
 */
module Devices {
  import opened Geometry

  /** Up, right, down and left of one hat (D-pad); true is "pressed". */
  datatype HatState = HatState(up: bool, right: bool, down: bool, left: bool)

  /** A joystick snapshot: button states (true is "pressed"), axis values
      and hats. */
  datatype JoystickState = JoystickState(
    isConnected: bool,
    buttons: seq<bool>,
    axes: seq<int>,
    hats: seq<HatState>)

  /** What a joystick index refers to. */
  datatype JoystickType = Button | Hat | AxisPositive | AxisNegative

  /** A joystick binding: a primary and an alternative (type, index). */
  datatype JoystickBinding = JoystickBinding(
    kind: JoystickType,
    index: int,
    altKind: JoystickType,
    altIndex: int)

  /** How far an axis must be pushed, either way, to count as a press. */
  const AxisThreshold: int := 10000

  /** The hat directions as the binding indices name them. */
  const HatUp: int := 1
  const HatRight: int := 2
  const HatDown: int := 4
  const HatLeft: int := 8

  /** Rules out the indexing the source leaves to throw, on a connected
      joystick only (a disconnected one is never indexed): a negative
      button or axis index, or a hat query on a joystick without hats. */
  predicate IndexDefined(source: JoystickState, kind: JoystickType, index: int)
  {
    !source.isConnected ||
    match kind
    case Button => index >= 0
    case AxisPositive => index >= 0
    case AxisNegative => index >= 0
    case Hat => index in {HatUp, HatRight, HatDown, HatLeft} ==> |source.hats| > 0
  }

  predicate BindingDefined(source: JoystickState, binding: JoystickBinding)
  {
    IndexDefined(source, binding.kind, binding.index) &&
    IndexDefined(source, binding.altKind, binding.altIndex)
  }

  /** `IsHatPressed`: indices 1, 2, 4 and 8 read up, right, down and left of
      the first hat; any other index is not pressed. */
  function HatPressed(source: JoystickState, index: int): (pressed: bool)
    requires index in {HatUp, HatRight, HatDown, HatLeft} ==> |source.hats| > 0
    ensures pressed ==> index in {HatUp, HatRight, HatDown, HatLeft}
    ensures index == HatUp ==> pressed == source.hats[0].up
    ensures index == HatRight ==> pressed == source.hats[0].right
    ensures index == HatDown ==> pressed == source.hats[0].down
    ensures index == HatLeft ==> pressed == source.hats[0].left
  {
    if index == HatUp then source.hats[0].up
    else if index == HatRight then source.hats[0].right
    else if index == HatDown then source.hats[0].down
    else if index == HatLeft then source.hats[0].left
    else false
  }

  /** Whether one (type, index) is pressed. A disconnected joystick reports
      nothing; an index past the end of the buttons or axes is not pressed. */
  function IsPressedAt(source: JoystickState, kind: JoystickType, index: int): (pressed: bool)
    requires IndexDefined(source, kind, index)
    ensures !source.isConnected ==> !pressed
    ensures pressed && kind == Button ==> index < |source.buttons| && source.buttons[index]
    ensures pressed && kind == AxisPositive ==> index < |source.axes| && source.axes[index] > AxisThreshold
    ensures pressed && kind == AxisNegative ==> index < |source.axes| && source.axes[index] < -AxisThreshold
  {
    if !source.isConnected then false
    else
      match kind
      case Button => index < |source.buttons| && source.buttons[index]
      case Hat => HatPressed(source, index)
      case AxisPositive => index < |source.axes| && source.axes[index] > AxisThreshold
      case AxisNegative => index < |source.axes| && source.axes[index] < -AxisThreshold
  }

  /** `JoystickState.IsPressed(binding)`: the primary or the alternative. */
  function IsPressed(source: JoystickState, binding: JoystickBinding): (pressed: bool)
    requires BindingDefined(source, binding)
    ensures pressed <==> IsPressedAt(source, binding.kind, binding.index) ||
                         IsPressedAt(source, binding.altKind, binding.altIndex)
  {
    IsPressedAt(source, binding.kind, binding.index) || IsPressedAt(source, binding.altKind, binding.altIndex)
  }

  // ---------------------------------------------------------------------
  // Touch panel

  datatype TouchLocationState = Invalid | Moved | Pressed | Released

  datatype TouchLocation = TouchLocation(state: TouchLocationState, position: Vector2)

  /** A touch-panel snapshot. */
  type TouchCollection = seq<TouchLocation>

  /** Some location was pressed this frame. */
  function TouchPressed(source: TouchCollection): (pressed: bool)
    ensures pressed <==> exists i :: 0 <= i < |source| && source[i].state == Pressed
  {
    if |source| == 0 then false
    else source[0].state == Pressed || TouchPressed(source[1..])
  }

  /** Some location moved this frame. */
  function TouchHeld(source: TouchCollection): (held: bool)
    ensures held <==> exists i :: 0 <= i < |source| && source[i].state == Moved
  {
    if |source| == 0 then false
    else source[0].state == Moved || TouchHeld(source[1..])
  }

  /** No location was pressed this frame (true for an empty collection). */
  function TouchReleased(source: TouchCollection): (released: bool)
    ensures released <==> forall i :: 0 <= i < |source| ==> source[i].state != Pressed
  {
    if |source| == 0 then true
    else source[0].state != Pressed && TouchReleased(source[1..])
  }

  /** `Vector2.ToPoint`: both coordinates truncated. */
  function ToPoint(v: Vector2): Point
  {
    Point(Truncate(v.x), Truncate(v.y))
  }

  /** The first touched position, or the origin when nothing is touched. */
  function TouchPosition(source: TouchCollection): (p: Point)
    ensures |source| == 0 ==> p == Point(0, 0)
    ensures |source| > 0 ==> p.x == Truncate(source[0].position.x) && p.y == Truncate(source[0].position.y)
  {
    if |source| == 0 then Point(0, 0) else ToPoint(source[0].position)
  }

  // ---------------------------------------------------------------------
  // Properties

  /** A disconnected joystick can be asked about any binding, the default
      direction bindings with their hat alternates included, and reports
      no press. */
  lemma DisconnectedNeverPressed(source: JoystickState, binding: JoystickBinding)
    requires !source.isConnected
    ensures BindingDefined(source, binding) && !IsPressed(source, binding)
  {
  }

  /** An axis is never pushed both ways at once. */
  lemma AxisDirectionsExclusive(source: JoystickState, index: int)
    requires index >= 0
    ensures !(IsPressedAt(source, AxisPositive, index) && IsPressedAt(source, AxisNegative, index))
  {
  }

  /** A button binding is pressed exactly when the index is in range and the button is down. */
  lemma ButtonPressedExactly(source: JoystickState, index: int)
    requires index >= 0
    ensures IsPressedAt(source, Button, index) <==>
            source.isConnected && index < |source.buttons| && source.buttons[index]
  {
  }

  /** A hat index other than 1, 2, 4 or 8 is never pressed. */
  lemma OtherHatIndexNotPressed(source: JoystickState, index: int)
    requires index !in {HatUp, HatRight, HatDown, HatLeft}
    ensures !IsPressedAt(source, Hat, index)
  {
  }

  /** "Released" is the negation of "pressed". */
  lemma {:induction false} ReleasedIsNotPressed(source: TouchCollection)
    ensures TouchReleased(source) == !TouchPressed(source)
  {
  }
}
