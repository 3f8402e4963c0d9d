// PlayerRoamState: turns key presses into a direction and key holds into
// Walk / Turn requests. A short tap turns the character on the spot; a key
// held longer than the hold threshold walks, once per frame while held.

module Roam {
  import opened Geometry

  /** The CharacterInput signals. */
  datatype InputSignal = Walk | Turn

  /** Input.IsActionJustPressed for ui_up, ui_down, ui_left and ui_right in one frame. */
  datatype JustPressed = JustPressed(up: bool, down: bool, left: bool, right: bool)

  /** PlayerInput together with the CharacterInput fields it inherits. */
  class PlayerInput {
    var Direction: Vec
    var TargetPosition: Vec
    const HoldThreshold: real
    var HoldTime: real

    constructor (holdThreshold: real)
      ensures Direction == Zero && TargetPosition == Zero
      ensures HoldThreshold == holdThreshold && HoldTime == 0.0
    {
      Direction := Zero;
      TargetPosition := Zero;
      HoldThreshold := holdThreshold;
      HoldTime := 0.0;
    }
  }

  /**
   * The direction GetInputDirection records: up wins over down, down over
   * left, left over right; none when no key was just pressed.
   */
  function PressedDirection(keys: JustPressed): (d: Option<Vec>)
    ensures d.None? <==> !keys.up && !keys.down && !keys.left && !keys.right
    ensures d.Some? ==> IsCardinal(d.value)
    ensures keys.up ==> d == Some(Up)
    ensures d == Some(Down) <==> !keys.up && keys.down
    ensures d == Some(Left) <==> !keys.up && !keys.down && keys.left
    ensures d == Some(Right) <==> !keys.up && !keys.down && !keys.left && keys.right
  {
    if keys.up then Some(Up)
    else if keys.down then Some(Down)
    else if keys.left then Some(Left)
    else if keys.right then Some(Right)
    else None
  }

  /** The literal one-cell offsets GetInputDirection stores for each direction. */
  function OneCellOffset(d: Vec): (offset: Vec)
    requires IsCardinal(d)
    ensures offset == d.Scale(Grid)
  {
    if d == Up then Vec(0.0, -Grid)
    else if d == Down then Vec(0.0, Grid)
    else if d == Left then Vec(-Grid, 0.0)
    else Vec(Grid, 0.0)
  }

  /**
   * One frame of GetInput at rest: the new hold time and the signals, in
   * emission order. A release resets the hold time and asks for a walk when
   * the key was held strictly longer than the threshold, a turn otherwise; a
   * held key adds the frame time and asks for a walk once past the threshold.
   */
  function HoldFrame(holdTime: real, threshold: real, delta: real, released: bool, pressed: bool)
    : (r: (real, seq<InputSignal>))
    ensures released && !pressed ==> r.0 == 0.0
    ensures released && pressed ==> r.0 == delta
    ensures !released && pressed ==> r.0 == holdTime + delta
    ensures !released && !pressed ==> r == (holdTime, [])
    ensures |r.1| == (if released then 1 else 0) + (if pressed && r.0 > threshold then 1 else 0)
    ensures released ==> r.1[0] == (if holdTime > threshold then Walk else Turn)
    ensures pressed && r.0 > threshold ==> r.1[|r.1| - 1] == Walk
    ensures 0.0 <= holdTime && 0.0 <= delta ==> 0.0 <= r.0
  {
    var afterRelease := if released then 0.0 else holdTime;
    var onRelease := if released then [if holdTime > threshold then Walk else Turn] else [];
    if pressed then
      var held := afterRelease + delta;
      (held, onRelease + if held > threshold then [Walk] else [])
    else
      (afterRelease, onRelease)
  }

  function Sum(deltas: seq<real>): real
  {
    if deltas == [] then 0.0 else deltas[0] + Sum(deltas[1..])
  }

  /** The hold time after a run of frames during which the key stays pressed. */
  function HoldAfter(holdTime: real, threshold: real, deltas: seq<real>): real
    decreases |deltas|
  {
    if deltas == [] then holdTime
    else HoldAfter(HoldFrame(holdTime, threshold, deltas[0], false, true).0, threshold, deltas[1..])
  }

  /** Holding a key accumulates exactly the frame times. */
  lemma {:induction false} HoldAccumulates(holdTime: real, threshold: real, deltas: seq<real>)
    ensures HoldAfter(holdTime, threshold, deltas) == holdTime + Sum(deltas)
    decreases |deltas|
  {
    if deltas != [] {
      HoldAccumulates(holdTime + deltas[0], threshold, deltas[1..]);
    }
  }

  /**
   * A key pressed from rest, held over frames of the given lengths and then
   * released asks for a walk on release exactly when the frames add up to
   * more than the threshold, and for a turn otherwise.
   */
  lemma TapTurnsHoldWalks(threshold: real, deltas: seq<real>)
    ensures HoldFrame(HoldAfter(0.0, threshold, deltas), threshold, 0.0, true, false).1
         == [if Sum(deltas) > threshold then Walk else Turn]
  {
    HoldAccumulates(0.0, threshold, deltas);
  }

  class PlayerRoamState {
    const PlayerInput: PlayerInput

    constructor (input: PlayerInput)
      ensures PlayerInput == input
    {
      PlayerInput := input;
    }

    /** Records the direction of a just-pressed key and its one-cell offset. */
    method GetInputDirection(keys: JustPressed)
      modifies PlayerInput`Direction, PlayerInput`TargetPosition
      ensures PressedDirection(keys).None? ==>
        PlayerInput.Direction == old(PlayerInput.Direction) && PlayerInput.TargetPosition == old(PlayerInput.TargetPosition)
      ensures PressedDirection(keys).Some? ==>
        PlayerInput.Direction == PressedDirection(keys).value
        && PlayerInput.TargetPosition == PlayerInput.Direction.Scale(Grid)
    {
      if keys.up {
        PlayerInput.Direction := Up;
        PlayerInput.TargetPosition := Vec(0.0, -Grid);
      } else if keys.down {
        PlayerInput.Direction := Down;
        PlayerInput.TargetPosition := Vec(0.0, Grid);
      } else if keys.left {
        PlayerInput.Direction := Left;
        PlayerInput.TargetPosition := Vec(-Grid, 0.0);
      } else if keys.right {
        PlayerInput.Direction := Right;
        PlayerInput.TargetPosition := Vec(Grid, 0.0);
      }
    }

    /**
     * The hold / release logic of one frame; released and pressed are the
     * movement-key states for the frame and isMoving is
     * CharacterMovement.IsMoving().
     */
    method GetInput(delta: real, isMoving: bool, released: bool, pressed: bool)
      returns (signals: seq<InputSignal>)
      modifies PlayerInput`HoldTime
      ensures isMoving ==> signals == [] && PlayerInput.HoldTime == old(PlayerInput.HoldTime)
      ensures !isMoving ==>
        (PlayerInput.HoldTime, signals)
        == HoldFrame(old(PlayerInput.HoldTime), PlayerInput.HoldThreshold, delta, released, pressed)
    {
      signals := [];
      if isMoving {
        return;
      }
      ghost var hold0 := PlayerInput.HoldTime;
      if released {
        if PlayerInput.HoldTime > PlayerInput.HoldThreshold {
          signals := signals + [Walk];
        } else {
          signals := signals + [Turn];
        }
        PlayerInput.HoldTime := 0.0;
      }
      if pressed {
        PlayerInput.HoldTime := PlayerInput.HoldTime + delta;
        if PlayerInput.HoldTime > PlayerInput.HoldThreshold {
          signals := signals + [Walk];
        }
      }
      assert PlayerInput.HoldTime == HoldFrame(hold0, PlayerInput.HoldThreshold, delta, released, pressed).0;
      assert signals == HoldFrame(hold0, PlayerInput.HoldThreshold, delta, released, pressed).1;
    }

    /** _Process: the direction first, then the hold logic. */
    method Process(delta: real, keys: JustPressed, isMoving: bool, released: bool, pressed: bool)
      returns (signals: seq<InputSignal>)
      modifies PlayerInput
      ensures PressedDirection(keys).Some? ==>
        && PlayerInput.Direction == PressedDirection(keys).value
        && PlayerInput.TargetPosition == PlayerInput.Direction.Scale(Grid)
      ensures PressedDirection(keys).None? ==>
        && PlayerInput.Direction == old(PlayerInput.Direction)
        && PlayerInput.TargetPosition == old(PlayerInput.TargetPosition)
      ensures isMoving ==> signals == [] && PlayerInput.HoldTime == old(PlayerInput.HoldTime)
      ensures !isMoving ==>
        (PlayerInput.HoldTime, signals)
        == HoldFrame(old(PlayerInput.HoldTime), PlayerInput.HoldThreshold, delta, released, pressed)
    {
      GetInputDirection(keys);
      signals := GetInput(delta, isMoving, released, pressed);
    }
  }
}
